# Standard Webhooks for PHP, modelled in Dafny

This project models the core of `adamaveray/standard-webhooks-php`. The library signs, sends, receives and verifies webhooks laid out as in the Standard Webhooks scheme:

- **Signing.** A `Signer` holds an append-only list of tagged keys. It signs the message `id.seconds.json` once per key and emits one `"<tag>,<signature>"` token per key (`v1` for HMAC-SHA256, `v1a` for Ed25519 through Halite).
- **Verification.** A `Validator` parses each received token at its first comma. It searches tokens × held keys in order and stops at the first pair of matching tag that verifies.
- **Sending.** A `RequestBuilder` writes the `content-type`, `content-length`, `webhook-id` and `webhook-timestamp` headers. It adds a space-separated `webhook-signature` header only when it holds keys, and returns the body verbatim.
- **Receiving.** A `RequestParser` runs a staged pipeline, each stage with its own error:
  1. single-valued headers and the `^\d{10,11}$` timestamp;
  2. content type and body shape;
  3. the header/body id and second cross-check;
  4. a freshness window;
  5. optional or required signatures.

  It returns the id, the body's `data`, the remaining body fields as metadata, and the webhook.
- **Value objects.** The webhook records, the canonical body merge order, promotion to a signed webhook, and the key → tag mapping.

Modules, one per file:

| module | file | holds |
|---|---|---|
| `Wrappers` | `wrappers.dfy` | `Option`, `Result`, `Outcome` |
| `Text` | `text.dfy` | PHP `explode`/`implode`, integer ↔ decimal text |
| `Time` | `time.dfy` | instants in microseconds; whole seconds |
| `JsonValues` | `json.dfy` | decoded JSON with ordered object fields |
| `Encoding` | `encoding.dfy` | JSON and RFC 3339 codecs, passed as values |
| `Crypto` | `crypto.dfy` | HMAC, base64, sign, verify, passed as values |
| `SignatureTypes` | `signature_type.dfy` | the tag enum |
| `Keys` | `keys.dfy` | keys and `getTypeForKey` |
| `Webhooks`, `SignedWebhooks` | `webhook.dfy`, `signed_webhook.dfy` | the value objects |
| `Errors` | `errors.dfy` | the exception taxonomy as a datatype |
| `Signing`, `Validation` | `signer.dfy`, `validator.dfy` | signing and verification |
| `RequestBuilding`, `RequestParsing` | `request_builder.dfy`, `request_parser.dfy` | sending and receiving |

Exceptions become `Result`/`Outcome` values:

- `Errors.Error` names each thrown exception.
- `Errors.Cause` records the inner reason wrapped by `Invalid headers.` / `Invalid body.`.

State the source changes in place is modelled as classes:

- the key lists of `Signer` and `Validator`;
- the builder's and parser's shared signer and validator.

Everything else is functions over values.

**Cryptography** is a record of function values, `Crypto.Primitives`. An asymmetric keypair is named symbolically by `pair`: `sign` uses its secret half and `verify` its public half. Halite's `verify` throws `InvalidSignature` on a value that does not decode to the 64 bytes of a signature; `wellFormed` is that test, and the model reports the exception as `Errors.Error.InvalidSignatureEncoding`. The idealised facts that some lemmas need are ghost predicates they require:

- `SignThenVerify`: a signature is well formed and verifies under its own keypair.
- `SignaturesBind` and `MacsBind`: unforgeability and collision resistance.
- `SpaceFree`: base64 and signatures hold no space.

**JSON coding and RFC 3339 timestamps** are likewise passed in as `Encoding.Codecs`. `PreservesObjectKeys` states that decoding an encoded non-empty object gives back its top-level keys.

**Strings** are PHP byte strings. Every `string` in the model is a `seq<char>` holding one `char` per byte, so `|s|` is `strlen`. The `content-length` header is therefore the body's byte count, and a non-ASCII body such as `{"a":"é"}` has the length of its UTF-8 bytes (10). Every other string operation splits or tests on ASCII bytes (`.`, `,`, space, `;`, digits).

**Timestamps** are `Time.Instant` values in microseconds, so the sub-second part of a `DateTimeInterface` is kept. `Seconds` is `getTimestamp()`, which rounds down.

**Where the source is mid-refactor:**

- The parser's webhook is built from the three fields of `src/WebhookInterface.php:8-10`: id, header timestamp and raw body. Its `type` is `None`.
- The call at `src/Transmission/RequestParser.php:80`, as written, throws on every request (see Findings).
- Since `src/Webhook.php:41-46` no longer writes an `id` key, a body built by `Webhook::create` is refused by the parser's shape check unless the metadata supplies an `id` (`RequestParsing.BuiltBodyRejected`). No builder → parser round trip is stated over whole requests. It is stated separately for the headers (`RequestParsing.BuiltHeadersParse`) and the signatures (`RequestParsing.BuiltSignaturesValidate`).

**Where the specification and the code differ, the model follows the code:**

- An unknown tag raises the `ValueError` of `SignatureType::from`, not `InvalidSignatureException`. The `??` fallback at `src/Signing/Validator.php:86` never runs. The model reports `UnknownSignatureType`.
- `validate` can also throw the period-in-id error of `buildSignatureMessage`. This happens when it tries a key of the token's tag against a webhook whose id holds a `.`.
- `validate` can also end with Halite's `InvalidSignature`: a `v1a` token whose value is not a well-formed signature, tried against a held public signature key, throws before any later token is looked at. So adding a public key can turn a success into this exception (`Validation.MoreKeysCanAbort`).
- `testSignature` (`src/Signing/Validator.php:52`) declares the native parameter type `AsymmetricSignaturePublicKey|SymmetricSecretKey`, while `addKeys` stores any key and tags both asymmetric kinds `v1a`. A held asymmetric secret key or encryption public key of a token's tag therefore makes `validate` throw PHP's `TypeError` when the inner loop reaches it (`Errors.KeyTypeError`). This makes the order of held keys matter (`Validation.KeyOrderMatters`).
- A `null` tolerance makes `DateTimeImmutable::sub` throw. `parse` reports that as `InvalidTimestampException`, so no request is accepted.

## Model

| member | source | states |
|---|---|---|
| Text.CutAtFirst | src/Signing/Validator.php:81 | `explode(sep, s, 2)`: no split exactly when `s` has no separator; otherwise `s` is head + separator + rest with a separator-free head |
| Text.CutAtFirstOf | src/Signing/Validator.php:81-87 | cutting `head + sep + rest` with a separator-free head returns exactly `(head, rest)`, so a value may itself contain the separator |
| Text.Implode | src/Transmission/RequestBuilder.php:46 | `implode(sep, parts)`: one piece is itself; with separator-free pieces the result holds a separator iff there are two or more pieces, and cutting it at the first separator gives the first piece and the join of the rest |
| Text.Explode | src/Transmission/RequestParser.php:132 | `explode(' ', s)`: at least one piece, joining the pieces gives `s` back, no piece holds the separator (empty pieces kept) |
| Text.ExplodeImplode | src/Transmission/RequestBuilder.php:46 | splitting the join of separator-free pieces returns the pieces |
| Text.NatDigits | src/Transmission/RequestBuilder.php:43 | the decimal digits of a natural number: at least one, all ASCII digits |
| Text.DigitsValueOfNatDigits | src/Transmission/RequestParser.php:129 | `(int)` of the written digits of `n` is `n` |
| Text.NatDigitsLength | src/Transmission/RequestParser.php:126 | a number in `[10^(k-1), 10^k)` is written with exactly `k` digits |
| Text.IntToDecimal | src/Transmission/RequestBuilder.php:41-43 | `(string)` of an integer: non-empty, digits with at most a leading `-` |
| Text.DecimalRoundTrip | src/Transmission/RequestBuilder.php:41-43 | reading back `(string)` of an integer gives the integer |
| Time.Seconds | src/Signing/Signer.php:56 | `getTimestamp()`: the whole second containing the instant (rounds down) |
| Time.FromSeconds | src/Transmission/RequestParser.php:129 | `createFromTimestamp`: an instant on a whole second whose `Seconds` is the argument |
| JsonValues.Lookup | src/Transmission/RequestParser.php:157-163 | `$body[key]` is set exactly when the key is present, and then is that key's value |
| JsonValues.WithoutKeys | src/Transmission/RequestParser.php:76-77 | `unset` of a key set: those keys read as absent, every other key reads as before, nothing new appears |
| JsonValues.WithoutKeysAppend | src/Transmission/RequestParser.php:76-77 | removing keys distributes over concatenation, so the remaining entries keep their order |
| JsonValues.LookupAppend | src/Webhook.php:41-46 | a lookup in `left + right` takes the left operand's entry when it has one (PHP array `+`) |
| SignatureTypes.Value | src/Signing/SignatureType.php:8-9 | the backing values `v1a` and `v1` contain neither a comma nor a space |
| SignatureTypes.From | src/Signing/SignatureType.php:6-10 | `from`: a result's value is the input, and there is no result exactly when no case has that value |
| SignatureTypes.FromValue | src/Signing/SignatureType.php:8-9 | `from(value(t)) == t` for both cases |
| Keys.TypeForKey | src/lib.php:15-22 | symmetric keys map to `v1`, both asymmetric halves to `v1a`, total over the three kinds |
| Keys.Entries | src/Signing/Validator.php:26 | the appended entries: one per key, in order, each tagged by `getTypeForKey` |
| Keys.KeypairHalvesAgree | src/lib.php:19 | the secret and public halves of a keypair get the same tag |
| Webhooks.BodyFields | src/Webhook.php:41-46 | the body object lists `type`, `timestamp`, `data` first, then the metadata without those three keys, in order |
| Webhooks.BodyFieldsPrecedence | src/Webhook.php:41-46 | the three canonical keys hold the given values whatever the metadata says; other keys come from the metadata; the body has an `id` only if the metadata has one |
| Webhooks.BodyKeys | src/Webhook.php:41-46 | the body's keys are exactly `type`, `timestamp`, `data` and the metadata's other keys |
| Webhooks.BuildJson | src/Webhook.php:41-47 | with a codec that keeps object keys, the encoded body decodes to an object whose keys are the three canonical ones and the metadata's other keys; no result when `json_encode` throws |
| Webhooks.Create | src/Webhook.php:19-28 | `create` keeps type, id and timestamp and stores `buildJson`'s output; fails exactly when encoding fails |
| SignedWebhooks.CreateFromUnsigned | src/SignedWebhook.php:39-42 | promotion copies type, id, timestamp and json unchanged and stores the tokens verbatim |
| SignedWebhooks.Create | src/SignedWebhook.php:27-37 | the signed `create` builds its body from type, timestamp and data only and stores the tokens |
| SignedWebhooks.CreateIsPromotedPlainCreate | src/SignedWebhook.php:27-37 | signed `create` equals unsigned `create` without metadata, compact, then promoted: `metadata` and `prettyJson` are ignored |
| Signing.Message | src/Signing/Signer.php:50-57 | the message fails exactly when the id contains `.`, with the period error |
| Signing.MessageDecodes | src/Signing/Signer.php:52-56 | the message is `id "." seconds "." json`: cutting at the first `.` gives the id, cutting the rest gives the decimal seconds and the verbatim json |
| Signing.MessageInjective | src/Signing/Signer.php:52-56 | equal messages come from webhooks with equal id, whole second and json |
| Signing.SymmetricSignature | src/Signing/Signer.php:79-85 | the `v1` signature `base64(HMAC-SHA256)` holds no space given space-free base64, and under collision resistance only this key material and message produce it |
| Signing.BuildSignature | src/Signing/Signer.php:59-85 | fails exactly on a period in the id; `v1` is `base64(HMAC-SHA256(key, message))`, `v1a` is the keypair's signature of the message |
| Signing.Token | src/Signing/Signer.php:45 | the wire token `tag,signature`: cutting it at its first comma gives back the tag's value and the whole signature |
| Signing.Tokens | src/Signing/Signer.php:44-47 | one token per entry, in entry order, token i is `tag_i + "," + signature_i`; fails exactly on a period in the id |
| Signing.SigningPrefix | src/Signing/Signer.php:27-32 | the keys before the first non-signing key, which is where `addKeys` stops |
| Signing.Signer.constructor | src/Signing/Signer.php:15 | a new signer holds no keys |
| Signing.Signer.HasKeys | src/Signing/Signer.php:17-20 | true exactly when the key list is non-empty |
| Signing.Signer.AddKeys | src/Signing/Signer.php:25-33 | appends tagged entries for the keys before the first non-signing one, fails exactly when there is such a key, and keeps earlier entries in order |
| Signing.Signer.BuildSignatures | src/Signing/Signer.php:38-48 | no keys is an error; otherwise fails exactly on a period in the id, else one token per held key in insertion order |
| Validation.ParseSignature | src/Signing/Validator.php:79-88 | a parsed token re-serialises to the input; no comma is `InvalidSignatureException`; an unknown tag is the other and only other error |
| Validation.ParseToken | src/Signing/Validator.php:81-87 | parsing `tag + "," + value` gives back the tag and the whole value, commas included |
| Validation.Accepts | src/Signing/Validator.php:56-71 | a key that accepts a token is one `testSignature` tries for its tag, and an accepted `v1a` value is a well-formed signature |
| Validation.TestSignature | src/Signing/Validator.php:50-73 | a key outside `testSignature`'s native parameter type is a `TypeError`; a key of the wrong kind inside it is `false`; a tried key fails exactly on a period in the id (period error) or, for `v1a`, on a value Halite cannot decode to a signature (`InvalidSignature`); otherwise, with a buildable message, the result is whether the key accepts the token |
| Validation.KeyScan | src/Signing/Validator.php:40-44 | the inner loop fails only with the `TypeError`, with the period error when the id holds a period, or with Halite's `InvalidSignature`; it reports a match only for a buildable message |
| Validation.Scan | src/Signing/Validator.php:36-45 | the outer loop matches only with a buildable message and at least one token; an abort is never the no-match error |
| Validation.ValidateSpec | src/Signing/Validator.php:34-48 | success implies a period-free id and a non-empty token list; the no-match error carries the webhook and the full token list |
| Validation.MatchedNotRaised | src/Signing/Validator.php:65-71 | no token is both accepted by a held key and refused by Halite's `verify` |
| Validation.KeyScanFinds | src/Signing/Validator.php:40-44 | the inner loop in closed form: true exactly when, with a buildable message, a held key of the token's tag accepts it before any key of that tag outside the parameter type; false exactly when no key of the tag is outside the parameter type and, with an unbuildable message, no key is tried, else none throws and none accepts; with no such ill-typed key, the period error iff a key is tried for an unbuildable message, Halite's error iff a public key meets a malformed `v1a` value |
| Validation.ScanFinds | src/Signing/Validator.php:36-45 | the outer loop matches exactly when, with a buildable message, some token is accepted by a held key reached before any ill-typed one of its tag, while it and every token before it parse and none before it meets an ill-typed key or makes `verify` throw |
| Validation.ValidateSucceedsIff | src/Signing/Validator.php:36-45 | `validate` returns normally iff the message builds and some token i is accepted by a held key of its tag reached before any key of that tag outside `testSignature`'s parameter type, while every token up to i parses and no token before i raises a `TypeError` or makes Halite's `verify` throw |
| Validation.ValidateFailsWithoutMatch | src/Signing/Validator.php:47 | when all tokens parse, trying the held keys on them raises nothing (no `TypeError`, no Halite error) and none is accepted (including an empty list), the error is `NoMatchingSignatureException` with the webhook and the full token list |
| Validation.ScanNeverMatches | src/Signing/Validator.php:36-47 | with every token parsing, trying the held keys raising nothing and no token accepted, the search runs to the end |
| Validation.ValidateErrors | src/Signing/Validator.php:34-48 | `validate` throws only: no match, the period refusal, a malformed or unknown-tag token from the list, Halite's `InvalidSignature` for a `v1a` token of the list whose value is not a well-formed signature, or a `TypeError` for a token of the list whose tag some held key outside `testSignature`'s parameter type carries |
| Validation.ScanErrors | src/Signing/Validator.php:36-45 | the search aborts only on the period refusal, a bad token of the list, a malformed `v1a` value of the list, or a `TypeError` from an ill-typed held key of a listed token's tag |
| Validation.KeyScanErrors | src/Signing/Validator.php:40-44 | the inner loop's errors are the `TypeError` when a held key of the tag is outside the parameter type, the period refusal for an id with a period, and Halite's `InvalidSignature` for a malformed `v1a` value |
| Validation.KeyOrderMatters | src/Signing/Validator.php:40-52 | with a held asymmetric secret key, a valid `v1a` token passes when the public key is held first and is a `TypeError` when the secret key is |
| Validation.MatchedFirstWellTyped | src/Signing/Validator.php:40-44 | with no held key of the token's tag outside the parameter type, being accepted before any ill-typed key is just being accepted by some held key |
| Validation.ValidatePassIgnoresLaterTokens | src/Signing/Validator.php:36-42 | tokens are parsed lazily: anything after a match, malformed or not, leaves success unchanged |
| Validation.ValidatePassSurvivesMoreKeys | src/Signing/Validator.php:23-28 | adding keys never turns a success into a failure, provided trying the added keys on the listed tokens raises nothing |
| Validation.MoreKeysCanAbort | src/Signing/Validator.php:36-44 | a malformed `v1a` token ahead of a good `v1` token passes with only the symmetric key held, and fails with Halite's error once a public signature key is added |
| Validation.ValidateKeyOrderIrrelevant | src/Signing/Validator.php:40-44 | the outcome of `validate`, error included, does not depend on the order of the held keys when none of a listed token's tag is outside the parameter type |
| Validation.KeyScanPermutation | src/Signing/Validator.php:40-44 | the inner loop's result, error included, is the same for any reordering of the held keys when none of the token's tag is outside the parameter type |
| Validation.ScanPermutation | src/Signing/Validator.php:36-45 | the outer loop's verdict is the same for any reordering of the held keys when none of a listed token's tag is outside the parameter type |
| Validation.KeyScanSkipsOtherTag | src/Signing/Validator.php:41 | a held key of another tag is skipped by the inner loop |
| Validation.ScanSkipsOtherTag | src/Signing/Validator.php:36-45 | a held key of a tag no token has never affects the search |
| Validation.ValidateSkipsOtherTag | src/Signing/Validator.php:41 | removing a key whose tag no token carries changes neither success nor the error |
| Validation.SignedTokensValidate | tests/Signing/ValidatorTest.php:24-55 | every token the Signer produces validates against the same symmetric key or the public half of the signing keypair, held among keys of `testSignature`'s parameter type |
| Validation.ForeignTokenRejected | tests/Signing/ValidatorTest.php:57-135 | given well-formed, unforgeable signatures and collision-free MACs, a token signed over another id, second or json, or with a key no held key answers for, fails with no match when the held keys of its tag are of the parameter type |
| Validation.AcceptedSignatureBinds | src/Signing/Validator.php:57-71 | a held key accepts a produced signature only over the signed message and only if it is the same secret or the public half of the signing keypair |
| Validation.Validator.constructor | src/Signing/Validator.php:18 | a new validator holds no keys |
| Validation.Validator.AddKeys | src/Signing/Validator.php:23-28 | appends one tagged entry per key, in order, keeping earlier ones; any key is stored, whatever its kind |
| Validation.Validator.Validate | src/Signing/Validator.php:34-48 | the nested loop with early return computes the specified search, without changing the key list |
| Validation.Validator.TryKeys | src/Signing/Validator.php:40-44 | the inner loop over held keys returns the specified per-token search result |
| RequestBuilding.RequestBuilder.constructor | src/Transmission/RequestBuilder.php:15-18 | a new builder owns a fresh, empty signer |
| RequestBuilding.RequestBuilder.WithKeys | src/Transmission/RequestBuilder.php:23-27 | adds the keys to the shared signer as `addKeys` does and returns this builder, or the non-signing-key error |
| RequestBuilding.RequestBuilder.WithKey | src/Transmission/RequestBuilder.php:29-32 | a one-key `withKeys` |
| RequestBuilding.RequestBuilder.BuildHeaders | src/Transmission/RequestBuilder.php:37-49 | always the four fixed headers (JSON content type, byte length of the body, id, whole-second timestamp, each reading back to its value); `webhook-signature` present iff keys are held, as the tokens joined by spaces; fails only on a period in the id with keys held |
| RequestBuilding.RequestBuilder.BuildBody | src/Transmission/RequestBuilder.php:51-54 | the body is the stored json verbatim, the text whose length `content-length` carries |
| RequestParsing.HeaderValues | src/Transmission/RequestParser.php:177 | `getHeader`: an absent header has no values, a present one has exactly the values it was sent with |
| RequestParsing.GetSingleHeader | src/Transmission/RequestParser.php:175-182 | more than one value is an error, none is null, exactly one is that value |
| RequestParsing.TimestampDigits | src/Transmission/RequestParser.php:126 | accepts exactly ten or eleven ASCII digits optionally followed by one final newline, and returns the digits |
| RequestParsing.SignatureList | src/Transmission/RequestParser.php:131-132 | absent or empty means no signatures; otherwise the space-separated pieces, empty ones kept, which rejoin to the header |
| RequestParsing.ParseHeaders | src/Transmission/RequestParser.php:117-139 | succeeds exactly on one id, one matching timestamp and at most one signature header; the timestamp is the whole second its digits denote; a missing or repeated id is reported as such |
| RequestParsing.MediaTypeHead | src/Transmission/RequestParser.php:146-152 | the part before the first `;` equals a `;`-free `m` iff the header is `m` or starts with `m;` |
| RequestParsing.ContentTypeAccepted | src/Transmission/RequestParser.php:146-154 | the content type is accepted iff it is exactly `application/json` or starts with `application/json;` |
| RequestParsing.BuiltContentTypeAccepted | src/Transmission/RequestBuilder.php:40 | the builder's content type passes the parser's check |
| RequestParsing.WellShaped | src/Transmission/RequestParser.php:157-166 | a well-shaped body is an object that has the keys `id`, `timestamp` and `data` |
| RequestParsing.ParseBodyContent | src/Transmission/RequestParser.php:144-173 | succeeds exactly on one accepted content type, a body decoding to a well-shaped object and a body timestamp that parses; a result carries the decoded fields, the string `id`, the array `data` and the parsed timestamp; errors are only the six body causes |
| RequestParsing.CheckRequest | src/Transmission/RequestParser.php:55-74 | the three checks pass with the header and body stages' own values, agreeing on id and second; otherwise the error is `Invalid headers.`, `Invalid body.` or the mismatch |
| RequestParsing.IsFresh | src/Transmission/RequestParser.php:105-111 | fresh iff a tolerance is set and the timestamp is within it of `now`, both bounds inclusive |
| RequestParsing.FreshWholeSeconds | src/Transmission/RequestParser.php:108 | for whole-second instants, fresh iff the seconds differ by at most the tolerance |
| RequestParsing.ParseSpec | src/Transmission/RequestParser.php:50-103 | a request is accepted exactly when it passes the three checks, is fresh, and either its tokens validate against the held keys or it sent none and none are required |
| RequestParsing.ParseAsWritten | src/Transmission/RequestParser.php:50-80 | `parse` as written never returns a result |
| RequestParsing.AsWrittenNeverReturns | src/Transmission/RequestParser.php:80 | the written `parse` agrees with the intended one on header, body and mismatch errors and fails with the construction error wherever the intended one succeeds |
| RequestParsing.AsWrittenRefusesValidRequest | src/Transmission/RequestParser.php:80 | a concrete fresh, well-formed unsigned request that the intended `parse` accepts and the written one refuses |
| RequestParsing.WitnessHeadersParse | src/Transmission/RequestParser.php:117-139 | the witness headers parse to id `msg_1`, second 1700000000, no signatures |
| RequestParsing.UnsignedHeadersParse | src/Transmission/RequestParser.php:117-139 | one id, a ten- or eleven-digit decimal timestamp and no signature header parse to that id, that whole second and no signatures |
| RequestParsing.WitnessBodyParses | src/Transmission/RequestParser.php:144-173 | the witness body text parses to id `msg_1`, second 1700000000 and empty data |
| RequestParsing.InvalidHeadersIff | src/Transmission/RequestParser.php:55-63 | `Invalid headers.` is reported iff the headers are malformed, with the header stage's cause, before any body check |
| RequestParsing.InvalidBodyIff | src/Transmission/RequestParser.php:65-70 | `Invalid body.` is reported iff the headers are fine and the body stage fails |
| RequestParsing.MismatchIff | src/Transmission/RequestParser.php:72-74 | `Webhook metadata does not match.` is reported iff both stages pass and the ids or the seconds differ, whatever the signatures and the clock |
| RequestParsing.MissingSignaturesIff | src/Transmission/RequestParser.php:93-94 | `No signatures found.` is reported iff a consistent, fresh request has no signature header and signatures are required |
| RequestParsing.ValidateErrorsAreNotStageErrors | src/Transmission/RequestParser.php:90-91 | signature validation never reports a header, body or mismatch error |
| RequestParsing.StaleRequestRejected | src/Transmission/RequestParser.php:83-87 | a consistent request outside the window fails with `InvalidTimestampException` for its header timestamp, whatever the keys and tokens |
| RequestParsing.AcceptedRequestConsistent | src/Transmission/RequestParser.php:72-102 | an accepted request's header and body agree on id and second; the result carries that id, the body's `data`, the body minus `id`/`timestamp`/`data` as metadata, and a webhook with the header id and timestamp and the raw body, signed iff tokens came |
| RequestParsing.AcceptedRequestFresh | src/Transmission/RequestParser.php:83-87 | an accepted request passed the three checks and lies within a set tolerance of `now` |
| RequestParsing.AcceptedRequestAuthentic | src/Transmission/RequestParser.php:90-95 | if signatures were required or sent, the webhook is signed with exactly the received tokens, and one of them is accepted by a held key over `id.seconds.body` |
| RequestParsing.HeaderRequest | src/Transmission/RequestBuilder.php:37-49 | the builder's header map as a request: each header has exactly its one value |
| RequestParsing.TimestampHeaderMatches | src/Transmission/RequestParser.php:126-129 | ten- or eleven-digit seconds written by the builder pass the pattern and read back as the same number |
| RequestParsing.SignatureHeaderRoundTrip | src/Transmission/RequestParser.php:131-132 | splitting the builder's signature header returns the Signer's tokens, given spaceless signatures |
| RequestParsing.BuiltHeadersParse | src/Transmission/RequestBuilder.php:37-49 | the parser reads back the builder's id, second and tokens (tokens exactly when keys are held), for seconds with ten or eleven digits |
| RequestParsing.BuiltSignaturesValidate | tests/GeneralTest.php:22-63 | the builder's tokens validate at a parser holding the verifying counterpart of one of the builder's keys among keys of `testSignature`'s parameter type, for the webhook the parser rebuilds |
| RequestParsing.BuiltBodyMalformed | src/Transmission/RequestParser.php:157-165 | a body from `Webhook::create` without an `id` in the metadata fails the body shape check |
| RequestParsing.BuiltBodyRejected | src/Webhook.php:41-46 | a request with such a body fails as `Invalid body.` before freshness or signatures |
| RequestParsing.RequestParser.constructor | src/Transmission/RequestParser.php:23-26 | stores the tolerance and owns a fresh, empty validator |
| RequestParsing.RequestParser.WithKeys | src/Transmission/RequestParser.php:31-35 | appends the keys to the shared validator and returns this parser |
| RequestParsing.RequestParser.WithKey | src/Transmission/RequestParser.php:37-40 | a one-key `withKeys` |
| RequestParsing.RequestParser.Parse | src/Transmission/RequestParser.php:50-103 | the staged `parse` (headers, body, cross-check, freshness, signatures through the held validator) computes the specified result |

## Left out

- HMAC-SHA256, base64, Halite signing and verification are parameters (`Crypto.Primitives`). Their security is stated as assumptions required by the lemmas that need it. The constant time of `hash_equals` cannot be expressed; it is plain equality here.
- `json_encode`/`json_decode`, pretty printing and the RFC 3339 extended timestamp format are parameters (`Encoding.Codecs`).
- JSON objects with duplicate keys: PHP's decoder keeps the last occurrence, while `JsonValues.Lookup` reads the first. Numeric-string keys becoming integer keys in PHP arrays are not modelled either.
- Tolerances are whole seconds. `DateInterval` calendar units (months, days) and time zones are not modelled.
- The clock is the `now` parameter of `Parse`. The source's default `new DateTimeImmutable()` is left to the caller.
- PSR-7 requests are a map from header names to their values plus the body text. Header-name case-insensitivity and stream reading (`getContents`) are not modelled.
- Exception messages and `previous` chains are not modelled. Only which exception is thrown, and the wrapped cause, are kept.
- `#[\SensitiveParameter]` has no behaviour to model.
- Signing.BuildSignature: the `isSigningKey()` half of the `\assert` in the two signature builders is not modelled. Assertions are off in production builds; the key-kind half is a precondition.
- Signing.Signer.AddKeys: requires that no key is an asymmetric public key. The parameter's declared element type (`@param`) promises this; PHP does not check it.
- RequestBuilding.RequestBuilder.WithKeys: carries the same requires as `Signing.Signer.AddKeys`. In PHP, `withKeys` with a public key returns normally, and the `TypeError` comes later, from the signer inside `buildHeaders`; the model does not capture that deferred error.
- Validation.ValidatePassSurvivesMoreKeys: requires that trying the added keys on the listed tokens raises nothing, because an added public key tried on a malformed `v1a` token makes Halite's `verify` throw (`Validation.MoreKeysCanAbort`) and an added key outside `testSignature`'s parameter type makes it a `TypeError`, where the smaller key set passed.
- Validation.ValidateKeyOrderIrrelevant: requires that no held key of a listed token's tag is outside `testSignature`'s parameter type, because the `TypeError` such a key raises depends on whether an accepting key comes first (`Validation.KeyOrderMatters`).
- Validation.KeyScanPermutation: requires no held key of the token's tag outside the parameter type, for the same reason.
- Validation.ScanPermutation: requires no held key of a listed token's tag outside the parameter type, for the same reason.
- Validation.SignedTokensValidate: requires every held key to be of `testSignature`'s parameter type (`Validation.WellTyped`), because an ill-typed key ahead of the verifying one raises a `TypeError`.
- RequestParsing.BuiltSignaturesValidate: requires `Validation.WellTyped` of the parser's keys, for the same reason.
- Validation.ForeignTokenRejected: requires that the held keys of the token's tag are of `testSignature`'s parameter type, because otherwise the outcome is a `TypeError` rather than no match.
- Validation.ValidateFailsWithoutMatch: requires that trying the held keys on the tokens raises nothing, since otherwise the error is that exception (stated by `Validation.ValidateErrors`).
- RequestParsing.ParseSpec: the model builds the parser's webhook with the three received fields. It does not model the code as written, which throws at `src/Transmission/RequestParser.php:80` (see Findings and `RequestParsing.ParseAsWritten`).
- A full builder → parser round trip over whole requests is not stated. The body built by `src/Webhook.php:41-46` carries no `id`, and the parser demands one (`RequestParsing.BuiltBodyRejected`). Headers and signatures are related separately.
- PHP integers are 64-bit. All values involved here fit: lengths, and seconds with at most eleven digits. So the model uses unbounded integers.
- `src/WebhookInterface.php` and `src/SignedWebhookInterface.php` declare fields only. The webhook constructors are the constructors of the datatype `Webhooks.Webhook`.

## Findings

| source | as written | input that shows it | evidently intended | confidence | as-written member | corrected member |
|---|---|---|---|---|---|---|
| src/Transmission/RequestParser.php:80 | `new Webhook($id, $timestamp, $json)` passes three arguments to a four-parameter constructor (`src/Webhook.php:8-13`) and, under strict types, a `DateTimeInterface` into `string $id`. It throws for every request that passes the header, body and cross-check stages. | headers `webhook-id: msg_1`, `webhook-timestamp: 1700000000`, `content-type: application/json`; body `{"id":"msg_1","timestamp":"2023-11-14T22:13:20.000+00:00","data":{}}`; the JSON and RFC 3339 codecs are stub parameters that decode exactly this body and read exactly this timestamp (second 1700000000); `now` = that second; signatures not required | build the webhook from the received id, header timestamp and raw body (the three fields of `WebhookInterface`) and go on to the freshness and signature checks | not executed | RequestParsing.AsWrittenRefusesValidRequest | RequestParsing.RequestParser.Parse |
