/**
 * Verification: token parsing, the per-key test, the search over tokens x keys that stops
 * at the first verifying pair, and the Validator that holds an append-only key list.
 */
module Validation {
  import opened Wrappers
  import opened Text
  import opened Time
  import opened Crypto
  import opened SignatureTypes
  import opened Keys
  import opened Webhooks
  import opened Errors
  import opened Signing

  /** A parsed token: its tag and the signature text after the first comma. */
  datatype ParsedToken = ParsedToken(sigType: SignatureType, value: string)

  /**
   * `parseSignature`: split at the first comma only; no comma is an `InvalidSignatureException`,
   * an unknown tag the `ValueError` of `SignatureType::from`.
   */
  function ParseSignature(token: string): (r: Result<ParsedToken, Error>)
    ensures r.Ok? ==> token == Token(r.value.sigType, r.value.value)
    ensures r == Err(InvalidSignatureFormat(token)) <==> ',' !in token
    ensures r.Err? ==> r.error == InvalidSignatureFormat(token) || r.error == UnknownSignatureType(token)
  {
    match CutAtFirst(token, ',')
    case None => Err(InvalidSignatureFormat(token))
    case Some((tag, value)) =>
      match From(tag)
      case None => Err(UnknownSignatureType(token))
      case Some(t) => Ok(ParsedToken(t, value))
  }

  /** Parsing a written token gives back its tag and its whole value, commas included. */
  lemma ParseToken(t: SignatureType, value: string)
    ensures ParseSignature(Token(t, value)) == Ok(ParsedToken(t, value))
  {
    CutAtFirstOf(Value(t), ',', value);
    assert Token(t, value) == Value(t) + [','] + value;
    FromValue(t);
  }

  /**
   * The native parameter type of `testSignature`, `AsymmetricSignaturePublicKey|SymmetricSecretKey`.
   * The validator stores any key, so a held asymmetric secret key or encryption public key
   * reaches the call for a `v1a` token and makes it throw a `TypeError`.
   */
  predicate ParameterTyped(key: Key)
  {
    key.Symmetric? || (key.AsymmetricPublic? && key.signing)
  }

  /**
   * The held keys `testSignature` gets as far as using for a tag: symmetric secrets for
   * `v1`, public signature keys for `v1a`; any other key of its parameter type is `false`
   * at once.
   */
  predicate Tried(key: Key, t: SignatureType)
    ensures Tried(key, t) ==> ParameterTyped(key)
  {
    if t == V1Symmetric then key.Symmetric? else key.AsymmetricPublic? && key.signing
  }

  /**
   * Whether `key` accepts the parsed token for `message`: a `v1` token needs a symmetric key
   * whose HMAC equals the value, a `v1a` token a public signature key under which the
   * well-formed value verifies.
   */
  predicate Accepts(c: Primitives, message: string, key: Key, token: ParsedToken)
    ensures Accepts(c, message, key, token) ==> Tried(key, token.sigType)
    ensures Accepts(c, message, key, token) && token.sigType == V1Asymmetric ==> c.wellFormed(token.value)
  {
    match token.sigType
    case V1Symmetric => key.Symmetric? && SymmetricSignature(c, key.material, message) == token.value
    case V1Asymmetric => key.AsymmetricPublic? && key.signing && c.wellFormed(token.value) && c.verify(message, key.pair, token.value)
  }

  /**
   * `testSignature`: a key outside its parameter type is a `TypeError` before the body runs.
   * A key of that type but the wrong kind for the tag is `false`, never an error. A key
   * that is tried fails on an id holding a period, and a public key also when Halite's
   * `verify` throws on a value that is not a well-formed signature.
   */
  function TestSignature(c: Primitives, w: Webhook, key: Key, t: SignatureType, value: string): (r: Result<bool, Error>)
    ensures r.Err? <==> !ParameterTyped(key) || (Tried(key, t) && ('.' in w.id || (t == V1Asymmetric && !c.wellFormed(value))))
    ensures r.Err? ==>
      r.error == if !ParameterTyped(key) then KeyTypeError else if '.' in w.id then IdContainsPeriod else InvalidSignatureEncoding
    ensures r.Ok? && Message(w).Ok? ==> r.value == Accepts(c, Message(w).value, key, ParsedToken(t, value))
    ensures r == Ok(true) ==> Message(w).Ok?
  {
    if !ParameterTyped(key) then Err(KeyTypeError)
    else if t == V1Symmetric then
      if !key.Symmetric? then Ok(false)
      else
        match BuildSignature(c, w, V1Symmetric, key)
        case Err(e) => Err(e)
        case Ok(expected) => Ok(expected == value)
    else
      assert t == V1Asymmetric;
      if !(key.AsymmetricPublic? && key.signing) then Ok(false)
      else
        match Message(w)
        case Err(e) => Err(e)
        case Ok(m) => if !c.wellFormed(value) then Err(InvalidSignatureEncoding) else Ok(c.verify(m, key.pair, value))
  }

  /** The inner loop: held entries in order; entries of another tag are skipped. */
  function KeyScan(c: Primitives, w: Webhook, entries: seq<KeyEntry>, token: ParsedToken): (r: Result<bool, Error>)
    ensures r.Err? ==> r.error == KeyTypeError || r.error == if '.' in w.id then IdContainsPeriod else InvalidSignatureEncoding
    ensures r == Ok(true) ==> Message(w).Ok?
  {
    if entries == [] then Ok(false)
    else if entries[0].sigType == token.sigType then
      match TestSignature(c, w, entries[0].key, token.sigType, token.value)
      case Err(e) => Err(e)
      case Ok(true) => Ok(true)
      case Ok(false) => KeyScan(c, w, entries[1..], token)
    else KeyScan(c, w, entries[1..], token)
  }

  datatype Verdict = Matched | Exhausted | Aborted(error: Error)

  /** The outer loop: tokens in order, each parsed only when reached. */
  function Scan(c: Primitives, w: Webhook, entries: seq<KeyEntry>, tokens: seq<string>): (r: Verdict)
    ensures r == Matched ==> Message(w).Ok? && tokens != []
    ensures r.Aborted? ==> !r.error.NoMatchingSignature?
  {
    if tokens == [] then Exhausted
    else
      match ParseSignature(tokens[0])
      case Err(e) => Aborted(e)
      case Ok(token) =>
        match KeyScan(c, w, entries, token)
        case Err(e) => Aborted(e)
        case Ok(true) => Matched
        case Ok(false) => Scan(c, w, entries, tokens[1..])
  }

  /** `validate`: returns on the first verifying pair, else `NoMatchingSignatureException`. */
  function ValidateSpec(c: Primitives, w: Webhook, entries: seq<KeyEntry>, tokens: seq<string>): (r: Outcome<Error>)
    ensures r == Pass ==> '.' !in w.id && tokens != []
    ensures r.Fail? && r.error.NoMatchingSignature? ==> r.error == NoMatchingSignature(w, tokens)
  {
    match Scan(c, w, entries, tokens)
    case Matched => Pass
    case Exhausted => Fail(NoMatchingSignature(w, tokens))
    case Aborted(e) => Fail(e)
  }

  /** Some held entry satisfies `p`. */
  ghost predicate Any(entries: seq<KeyEntry>, p: KeyEntry -> bool)
  {
    exists k :: 0 <= k < |entries| && p(entries[k])
  }

  lemma AnyCons(entries: seq<KeyEntry>, p: KeyEntry -> bool)
    requires entries != []
    ensures Any(entries, p) <==> p(entries[0]) || Any(entries[1..], p)
  {
    if Any(entries[1..], p) {
      var k :| 0 <= k < |entries[1..]| && p(entries[1..][k]);
      assert entries[k + 1] == entries[1..][k];
    }
    if Any(entries, p) && !p(entries[0]) {
      var k :| 0 <= k < |entries| && p(entries[k]);
      assert entries[1..][k - 1] == entries[k];
    }
  }

  lemma AnyPermutation(entries: seq<KeyEntry>, entries': seq<KeyEntry>, p: KeyEntry -> bool)
    requires multiset(entries) == multiset(entries')
    ensures Any(entries, p) <==> Any(entries', p)
  {
    if Any(entries, p) {
      var k :| 0 <= k < |entries| && p(entries[k]);
      assert entries[k] in multiset(entries');
      var k' :| 0 <= k' < |entries'| && entries'[k'] == entries[k];
    }
    if Any(entries', p) {
      var k :| 0 <= k < |entries'| && p(entries'[k]);
      assert entries'[k] in multiset(entries);
      var k' :| 0 <= k' < |entries| && entries[k'] == entries'[k];
    }
  }

  lemma AnyAppend(entries: seq<KeyEntry>, more: seq<KeyEntry>, p: KeyEntry -> bool)
    ensures Any(entries + more, p) <==> Any(entries, p) || Any(more, p)
  {
    if Any(entries, p) {
      var k :| 0 <= k < |entries| && p(entries[k]);
      assert (entries + more)[k] == entries[k];
    }
    if Any(more, p) {
      var k :| 0 <= k < |more| && p(more[k]);
      assert (entries + more)[|entries| + k] == more[k];
    }
    if Any(entries + more, p) {
      var k :| 0 <= k < |entries + more| && p((entries + more)[k]);
      if k < |entries| {
        assert (entries + more)[k] == entries[k];
      } else {
        assert (entries + more)[k] == more[k - |entries|];
      }
    }
  }

  /** A held entry of the token's tag that accepts it. */
  function AcceptsAs(c: Primitives, message: string, token: ParsedToken): KeyEntry -> bool
  {
    (e: KeyEntry) => e.sigType == token.sigType && Accepts(c, message, e.key, token)
  }

  /** A held entry of the token's tag that `testSignature` tries. */
  function TriesAs(token: ParsedToken): KeyEntry -> bool
  {
    (e: KeyEntry) => e.sigType == token.sigType && Tried(e.key, token.sigType)
  }

  /** Some held entry of the token's tag accepts it. */
  ghost predicate MatchedBy(c: Primitives, message: string, entries: seq<KeyEntry>, token: ParsedToken)
  {
    Any(entries, AcceptsAs(c, message, token))
  }

  /** Some held entry of the token's tag is tried on it. */
  ghost predicate TriedBy(entries: seq<KeyEntry>, token: ParsedToken)
  {
    Any(entries, TriesAs(token))
  }

  /** The token is a `v1a` token with a malformed value and a public signature key is held, so `verify` throws. */
  ghost predicate RaisedBy(c: Primitives, entries: seq<KeyEntry>, token: ParsedToken)
  {
    token.sigType == V1Asymmetric && !c.wellFormed(token.value) && TriedBy(entries, token)
  }

  /** A held entry of the token's tag outside `testSignature`'s parameter type. */
  function IllTypedAs(token: ParsedToken): KeyEntry -> bool
  {
    (e: KeyEntry) => e.sigType == token.sigType && !ParameterTyped(e.key)
  }

  /** Some held entry of the token's tag makes `testSignature` throw a `TypeError` when reached. */
  ghost predicate IllTypedBy(entries: seq<KeyEntry>, token: ParsedToken)
  {
    Any(entries, IllTypedAs(token))
  }

  /** Trying every held key on the token raises nothing: no `TypeError` and no Halite refusal. */
  ghost predicate Clears(c: Primitives, entries: seq<KeyEntry>, token: ParsedToken)
  {
    !IllTypedBy(entries, token) && !RaisedBy(c, entries, token)
  }

  /**
   * A held entry of the token's tag accepts it, and no entry of its tag before that one
   * lies outside `testSignature`'s parameter type.
   */
  ghost predicate MatchedFirst(c: Primitives, message: string, entries: seq<KeyEntry>, token: ParsedToken)
  {
    exists k :: 0 <= k < |entries| && AcceptsAs(c, message, token)(entries[k]) && !Any(entries[..k], IllTypedAs(token))
  }

  lemma MatchedFirstCons(c: Primitives, message: string, entries: seq<KeyEntry>, token: ParsedToken)
    requires entries != []
    ensures MatchedFirst(c, message, entries, token) <==>
      AcceptsAs(c, message, token)(entries[0]) ||
      (!IllTypedAs(token)(entries[0]) && MatchedFirst(c, message, entries[1..], token))
  {
    var p := AcceptsAs(c, message, token);
    var q := IllTypedAs(token);
    if p(entries[0]) {
      assert !Any(entries[..0], q);
    }
    if MatchedFirst(c, message, entries, token) && !p(entries[0]) {
      var k :| 0 <= k < |entries| && p(entries[k]) && !Any(entries[..k], q);
      AnyCons(entries[..k], q);
      assert entries[..k][1..] == entries[1..][..k - 1];
      assert p(entries[1..][k - 1]);
    }
    if !q(entries[0]) && MatchedFirst(c, message, entries[1..], token) {
      var k :| 0 <= k < |entries[1..]| && p(entries[1..][k]) && !Any(entries[1..][..k], q);
      AnyCons(entries[..k + 1], q);
      assert entries[..k + 1][1..] == entries[1..][..k];
      assert p(entries[k + 1]);
    }
  }

  /** With no held key of the token's tag outside the parameter type, acceptance does not depend on key order. */
  lemma MatchedFirstWellTyped(c: Primitives, message: string, entries: seq<KeyEntry>, token: ParsedToken)
    requires !IllTypedBy(entries, token)
    ensures MatchedFirst(c, message, entries, token) <==> MatchedBy(c, message, entries, token)
  {
    if MatchedBy(c, message, entries, token) {
      var k :| 0 <= k < |entries| && AcceptsAs(c, message, token)(entries[k]);
      forall k' | 0 <= k' < k
        ensures !IllTypedAs(token)(entries[..k][k'])
      {
        assert entries[..k][k'] == entries[k'];
      }
    }
  }

  /**
   * Token `i` is accepted by a held key reached before any ill-typed one, it and every token
   * before it parse, and trying the held keys on the tokens before it raises nothing.
   */
  ghost predicate AcceptedAt(c: Primitives, message: string, entries: seq<KeyEntry>, tokens: seq<string>, i: int)
  {
    && 0 <= i < |tokens|
    && (forall j :: 0 <= j <= i ==> ParseSignature(tokens[j]).Ok?)
    && (forall j :: 0 <= j < i ==> Clears(c, entries, ParseSignature(tokens[j]).value))
    && MatchedFirst(c, message, entries, ParseSignature(tokens[i]).value)
  }

  /** An accepted `v1a` value is well formed, so a token cannot both match and make `verify` throw. */
  lemma MatchedNotRaised(c: Primitives, message: string, entries: seq<KeyEntry>, token: ParsedToken)
    ensures !(MatchedBy(c, message, entries, token) && RaisedBy(c, entries, token))
  {
    if MatchedBy(c, message, entries, token) {
      var k :| 0 <= k < |entries| && AcceptsAs(c, message, token)(entries[k]);
    }
  }

  /**
   * The inner loop's errors: a `TypeError` only when a held key of the token's tag is
   * outside the parameter type, the period refusal only for an id with a period, and
   * Halite's refusal only for a malformed `v1a` value.
   */
  lemma {:induction false} KeyScanErrors(c: Primitives, w: Webhook, entries: seq<KeyEntry>, token: ParsedToken)
    ensures KeyScan(c, w, entries, token).Err? ==>
      || (KeyScan(c, w, entries, token).error == KeyTypeError && IllTypedBy(entries, token))
      || (KeyScan(c, w, entries, token).error == IdContainsPeriod && '.' in w.id)
      || (KeyScan(c, w, entries, token).error == InvalidSignatureEncoding && token.sigType == V1Asymmetric && !c.wellFormed(token.value))
  {
    if entries != [] {
      KeyScanErrors(c, w, entries[1..], token);
      AnyCons(entries, IllTypedAs(token));
    }
  }

  /**
   * The inner loop in closed form. It reports a match exactly when the message builds and
   * a held key of the token's tag accepts it before any ill-typed key of that tag is
   * reached. It runs out without error exactly when no held key of the tag is ill-typed
   * and, with an unbuildable message, none is tried, or, with a buildable one, none makes
   * `verify` throw and none accepts. With no ill-typed key of the tag, the result is
   * fixed: the period error, Halite's error, or whether some held key accepts the token.
   */
  lemma {:induction false} KeyScanFinds(c: Primitives, w: Webhook, entries: seq<KeyEntry>, token: ParsedToken)
    ensures KeyScan(c, w, entries, token) == Ok(true) <==>
      Message(w).Ok? && MatchedFirst(c, Message(w).value, entries, token)
    ensures KeyScan(c, w, entries, token) == Ok(false) <==>
      !IllTypedBy(entries, token) &&
      if Message(w).Err? then !TriedBy(entries, token)
      else !RaisedBy(c, entries, token) && !MatchedBy(c, Message(w).value, entries, token)
    ensures !IllTypedBy(entries, token) ==>
      KeyScan(c, w, entries, token) ==
        if Message(w).Err? then (if TriedBy(entries, token) then Err(IdContainsPeriod) else Ok(false))
        else if RaisedBy(c, entries, token) then Err(InvalidSignatureEncoding)
        else Ok(MatchedBy(c, Message(w).value, entries, token))
  {
    if entries != [] {
      KeyScanFinds(c, w, entries[1..], token);
      AnyCons(entries, TriesAs(token));
      AnyCons(entries, IllTypedAs(token));
      if Message(w).Ok? {
        var m := Message(w).value;
        AnyCons(entries, AcceptsAs(c, m, token));
        MatchedFirstCons(c, m, entries, token);
        MatchedNotRaised(c, m, entries, token);
      }
    }
    KeyScanErrors(c, w, entries, token);
    if !IllTypedBy(entries, token) && Message(w).Ok? {
      MatchedFirstWellTyped(c, Message(w).value, entries, token);
    }
  }

  /** A token accepted after the first one, whose scan clears, is accepted one place further on. */
  lemma AcceptedAtShift(c: Primitives, m: string, entries: seq<KeyEntry>, tokens: seq<string>, i: int)
    requires tokens != [] && ParseSignature(tokens[0]).Ok?
    requires Clears(c, entries, ParseSignature(tokens[0]).value)
    requires AcceptedAt(c, m, entries, tokens[1..], i)
    ensures AcceptedAt(c, m, entries, tokens, i + 1)
  {
    forall j | 0 <= j <= i + 1 ensures ParseSignature(tokens[j]).Ok? {
      if j > 0 { assert tokens[j] == tokens[1..][j - 1]; }
    }
    forall j | 0 <= j < i + 1 ensures Clears(c, entries, ParseSignature(tokens[j]).value) {
      if j > 0 { assert tokens[j] == tokens[1..][j - 1]; }
    }
    assert tokens[i + 1] == tokens[1..][i];
  }

  /** Conversely, acceptance at a later position is acceptance in the rest of the list. */
  lemma AcceptedAtUnshift(c: Primitives, m: string, entries: seq<KeyEntry>, tokens: seq<string>, i: int)
    requires i > 0 && AcceptedAt(c, m, entries, tokens, i)
    ensures AcceptedAt(c, m, entries, tokens[1..], i - 1)
    ensures Clears(c, entries, ParseSignature(tokens[0]).value)
  {
    forall j | 0 <= j <= i - 1 ensures ParseSignature(tokens[1..][j]).Ok? {
      assert tokens[1..][j] == tokens[j + 1];
    }
    forall j | 0 <= j < i - 1 ensures Clears(c, entries, ParseSignature(tokens[1..][j]).value) {
      assert tokens[1..][j] == tokens[j + 1];
    }
    assert tokens[1..][i - 1] == tokens[i];
  }

  /** For a message that encodes, the inner loop accepts on `MatchedFirst` and moves on exactly when it clears without a match. */
  lemma KeyScanSteps(c: Primitives, w: Webhook, entries: seq<KeyEntry>, token: ParsedToken)
    requires Message(w).Ok?
    ensures KeyScan(c, w, entries, token) == Ok(true) <==> MatchedFirst(c, Message(w).value, entries, token)
    ensures KeyScan(c, w, entries, token) == Ok(false) <==>
      Clears(c, entries, token) && !MatchedFirst(c, Message(w).value, entries, token)
  {
    KeyScanFinds(c, w, entries, token);
    MatchedNotRaised(c, Message(w).value, entries, token);
    if !IllTypedBy(entries, token) {
      MatchedFirstWellTyped(c, Message(w).value, entries, token);
    }
  }

  /** One step of `ScanFinds`: from the statement for the later tokens to the statement for the whole list. */
  lemma ScanFindsStep(c: Primitives, w: Webhook, entries: seq<KeyEntry>, tokens: seq<string>)
    requires tokens != [] && Message(w).Ok? && ParseSignature(tokens[0]).Ok?
    requires Scan(c, w, entries, tokens[1..]) == Matched <==>
      exists i :: AcceptedAt(c, Message(w).value, entries, tokens[1..], i)
    ensures Scan(c, w, entries, tokens) == Matched <==>
      exists i :: AcceptedAt(c, Message(w).value, entries, tokens, i)
  {
    var m := Message(w).value;
    var token := ParseSignature(tokens[0]).value;
    KeyScanSteps(c, w, entries, token);
    if MatchedFirst(c, m, entries, token) {
      assert AcceptedAt(c, m, entries, tokens, 0);
    }
    if Clears(c, entries, token) && exists i :: AcceptedAt(c, m, entries, tokens[1..], i) {
      var i :| AcceptedAt(c, m, entries, tokens[1..], i);
      AcceptedAtShift(c, m, entries, tokens, i);
    }
    if exists i :: AcceptedAt(c, m, entries, tokens, i) {
      var i :| AcceptedAt(c, m, entries, tokens, i);
      if i > 0 {
        AcceptedAtUnshift(c, m, entries, tokens, i);
      }
    }
  }

  lemma {:induction false} ScanFinds(c: Primitives, w: Webhook, entries: seq<KeyEntry>, tokens: seq<string>)
    ensures Scan(c, w, entries, tokens) == Matched <==>
      Message(w).Ok? && exists i :: AcceptedAt(c, Message(w).value, entries, tokens, i)
  {
    if tokens != [] && Message(w).Ok? {
      ScanFinds(c, w, entries, tokens[1..]);
      if ParseSignature(tokens[0]).Ok? {
        ScanFindsStep(c, w, entries, tokens);
      }
    }
  }

  /**
   * `validate` returns normally exactly when the message can be built and some token `i`
   * is accepted by a held key of its tag, while it and every token before it parse and no
   * token before it makes `verify` throw.
   */
  lemma ValidateSucceedsIff(c: Primitives, w: Webhook, entries: seq<KeyEntry>, tokens: seq<string>)
    ensures ValidateSpec(c, w, entries, tokens) == Pass <==>
      Message(w).Ok? && exists i :: AcceptedAt(c, Message(w).value, entries, tokens, i)
  {
    ScanFinds(c, w, entries, tokens);
  }

  /**
   * When every token parses, trying the held keys on it raises nothing, and no held key of
   * its tag accepts it (in particular when there are no tokens), `validate` throws
   * `NoMatchingSignatureException` with the webhook and the full token list.
   */
  lemma {:induction false} ValidateFailsWithoutMatch(c: Primitives, w: Webhook, entries: seq<KeyEntry>, tokens: seq<string>)
    requires Message(w).Ok?
    requires forall j :: 0 <= j < |tokens| ==>
      && ParseSignature(tokens[j]).Ok?
      && Clears(c, entries, ParseSignature(tokens[j]).value)
      && !MatchedBy(c, Message(w).value, entries, ParseSignature(tokens[j]).value)
    ensures ValidateSpec(c, w, entries, tokens) == Fail(NoMatchingSignature(w, tokens))
  {
    ScanNeverMatches(c, w, entries, tokens);
  }

  lemma {:induction false} ScanNeverMatches(c: Primitives, w: Webhook, entries: seq<KeyEntry>, tokens: seq<string>)
    requires Message(w).Ok?
    requires forall j :: 0 <= j < |tokens| ==>
      && ParseSignature(tokens[j]).Ok?
      && Clears(c, entries, ParseSignature(tokens[j]).value)
      && !MatchedBy(c, Message(w).value, entries, ParseSignature(tokens[j]).value)
    ensures Scan(c, w, entries, tokens) == Exhausted
  {
    if tokens != [] {
      KeyScanFinds(c, w, entries, ParseSignature(tokens[0]).value);
      assert forall j :: 0 <= j < |tokens[1..]| ==> tokens[1..][j] == tokens[j + 1];
      ScanNeverMatches(c, w, entries, tokens[1..]);
    }
  }

  /** The token parses as a `v1a` token whose value is not a well-formed signature. */
  predicate MalformedAsymmetric(c: Primitives, token: string)
  {
    ParseSignature(token).Ok? && ParseSignature(token).value.sigType == V1Asymmetric && !c.wellFormed(ParseSignature(token).value.value)
  }

  /** The token parses and some held key of its tag is outside `testSignature`'s parameter type. */
  ghost predicate MeetsIllTypedKey(entries: seq<KeyEntry>, token: string)
  {
    ParseSignature(token).Ok? && IllTypedBy(entries, ParseSignature(token).value)
  }

  /**
   * `validate` throws nothing but these: the period refusal, a malformed token, Halite's
   * refusal of a malformed `v1a` value from the list, the `TypeError` of a held key outside
   * `testSignature`'s parameter type whose tag a token of the list carries, or no match.
   */
  lemma {:induction false} ValidateErrors(c: Primitives, w: Webhook, entries: seq<KeyEntry>, tokens: seq<string>)
    ensures ValidateSpec(c, w, entries, tokens) == Pass
         || ValidateSpec(c, w, entries, tokens) == Fail(NoMatchingSignature(w, tokens))
         || ValidateSpec(c, w, entries, tokens) == Fail(IdContainsPeriod)
         || exists j :: 0 <= j < |tokens| &&
              (ValidateSpec(c, w, entries, tokens) == Fail(InvalidSignatureFormat(tokens[j])) ||
               ValidateSpec(c, w, entries, tokens) == Fail(UnknownSignatureType(tokens[j])) ||
               (ValidateSpec(c, w, entries, tokens) == Fail(InvalidSignatureEncoding) && MalformedAsymmetric(c, tokens[j])) ||
               (ValidateSpec(c, w, entries, tokens) == Fail(KeyTypeError) && MeetsIllTypedKey(entries, tokens[j])))
  {
    ScanErrors(c, w, entries, tokens);
  }

  lemma {:induction false} ScanErrors(c: Primitives, w: Webhook, entries: seq<KeyEntry>, tokens: seq<string>)
    ensures Scan(c, w, entries, tokens).Aborted? ==>
      Scan(c, w, entries, tokens).error == IdContainsPeriod ||
      exists j :: 0 <= j < |tokens| &&
        (Scan(c, w, entries, tokens).error == InvalidSignatureFormat(tokens[j]) ||
         Scan(c, w, entries, tokens).error == UnknownSignatureType(tokens[j]) ||
         (Scan(c, w, entries, tokens).error == InvalidSignatureEncoding && MalformedAsymmetric(c, tokens[j])) ||
         (Scan(c, w, entries, tokens).error == KeyTypeError && MeetsIllTypedKey(entries, tokens[j])))
  {
    if tokens != [] {
      ScanErrors(c, w, entries, tokens[1..]);
      if ParseSignature(tokens[0]).Ok? {
        KeyScanErrors(c, w, entries, ParseSignature(tokens[0]).value);
        if Scan(c, w, entries, tokens) == Scan(c, w, entries, tokens[1..]) && Scan(c, w, entries, tokens).Aborted? {
          var e := Scan(c, w, entries, tokens).error;
          if e != IdContainsPeriod {
            var j :| 0 <= j < |tokens[1..]| &&
              (e == InvalidSignatureFormat(tokens[1..][j]) || e == UnknownSignatureType(tokens[1..][j]) ||
               (e == InvalidSignatureEncoding && MalformedAsymmetric(c, tokens[1..][j])) ||
               (e == KeyTypeError && MeetsIllTypedKey(entries, tokens[1..][j])));
            assert tokens[1..][j] == tokens[j + 1];
          }
        }
      }
    }
  }

  /** Tokens are parsed lazily: once some token verifies, anything appended after is never looked at. */
  lemma ValidatePassIgnoresLaterTokens(c: Primitives, w: Webhook, entries: seq<KeyEntry>, tokens: seq<string>, more: seq<string>)
    requires ValidateSpec(c, w, entries, tokens) == Pass
    ensures ValidateSpec(c, w, entries, tokens + more) == Pass
  {
    ValidateSucceedsIff(c, w, entries, tokens);
    var m := Message(w).value;
    var i :| AcceptedAt(c, m, entries, tokens, i);
    assert forall j :: 0 <= j <= i ==> (tokens + more)[j] == tokens[j];
    assert AcceptedAt(c, m, entries, tokens + more, i);
    ValidateSucceedsIff(c, w, entries, tokens + more);
  }

  /**
   * Adding keys never turns a successful validation into a failure as long as trying the
   * added keys on the tokens raises nothing; `MoreKeysCanAbort` shows that a key tried on
   * a malformed `v1a` token does.
   */
  lemma ValidatePassSurvivesMoreKeys(c: Primitives, w: Webhook, entries: seq<KeyEntry>, more: seq<KeyEntry>, tokens: seq<string>)
    requires ValidateSpec(c, w, entries, tokens) == Pass
    requires forall j :: 0 <= j < |tokens| && ParseSignature(tokens[j]).Ok? ==> Clears(c, more, ParseSignature(tokens[j]).value)
    ensures ValidateSpec(c, w, entries + more, tokens) == Pass
  {
    ValidateSucceedsIff(c, w, entries, tokens);
    var m := Message(w).value;
    var i :| AcceptedAt(c, m, entries, tokens, i);
    var token := ParseSignature(tokens[i]).value;
    var k :| 0 <= k < |entries| && AcceptsAs(c, m, token)(entries[k]) && !Any(entries[..k], IllTypedAs(token));
    assert (entries + more)[..k] == entries[..k];
    assert AcceptsAs(c, m, token)((entries + more)[k]);
    forall j | 0 <= j < i
      ensures Clears(c, entries + more, ParseSignature(tokens[j]).value)
    {
      AnyAppend(entries, more, TriesAs(ParseSignature(tokens[j]).value));
      AnyAppend(entries, more, IllTypedAs(ParseSignature(tokens[j]).value));
    }
    assert AcceptedAt(c, m, entries + more, tokens, i);
    ValidateSucceedsIff(c, w, entries + more, tokens);
  }

  /**
   * A malformed `v1a` token ahead of a good `v1` token is skipped while only the symmetric
   * key is held, so `validate` succeeds; once a public signature key is added, Halite's
   * `verify` throws on that token first.
   */
  lemma MoreKeysCanAbort(c: Primitives, w: Webhook, material: string, pub: Key, bad: string)
    requires '.' !in w.id
    requires !c.wellFormed(bad)
    requires pub.AsymmetricPublic? && pub.signing
    ensures var tokens := [Token(V1Asymmetric, bad), Token(V1Symmetric, SymmetricSignature(c, material, Message(w).value))];
      && ValidateSpec(c, w, [KeyEntry(V1Symmetric, Symmetric(material, true))], tokens) == Pass
      && ValidateSpec(c, w, [KeyEntry(V1Symmetric, Symmetric(material, true)), KeyEntry(V1Asymmetric, pub)], tokens)
         == Fail(InvalidSignatureEncoding)
  {
    var good := SymmetricSignature(c, material, Message(w).value);
    var tokens := [Token(V1Asymmetric, bad), Token(V1Symmetric, good)];
    var sym := KeyEntry(V1Symmetric, Symmetric(material, true));
    ParseToken(V1Asymmetric, bad);
    ParseToken(V1Symmetric, good);
    assert tokens[1..] == [Token(V1Symmetric, good)];
    assert KeyScan(c, w, [sym], ParsedToken(V1Asymmetric, bad)) == Ok(false);
    assert KeyScan(c, w, [sym], ParsedToken(V1Symmetric, good)) == Ok(true);
    assert Scan(c, w, [sym], tokens[1..]) == Matched;
    assert Scan(c, w, [sym], tokens) == Matched;
    assert [sym, KeyEntry(V1Asymmetric, pub)][1..] == [KeyEntry(V1Asymmetric, pub)];
    assert KeyScan(c, w, [sym, KeyEntry(V1Asymmetric, pub)], ParsedToken(V1Asymmetric, bad)) == Err(InvalidSignatureEncoding);
  }

  /**
   * The inner loop's result does not depend on the order of the held keys when none of the
   * token's tag is outside `testSignature`'s parameter type; `KeyOrderMatters` shows that
   * otherwise it does.
   */
  lemma KeyScanPermutation(c: Primitives, w: Webhook, entries: seq<KeyEntry>, entries': seq<KeyEntry>, token: ParsedToken)
    requires multiset(entries) == multiset(entries')
    requires !IllTypedBy(entries, token)
    ensures KeyScan(c, w, entries, token) == KeyScan(c, w, entries', token)
  {
    KeyScanFinds(c, w, entries, token);
    KeyScanFinds(c, w, entries', token);
    AnyPermutation(entries, entries', IllTypedAs(token));
    AnyPermutation(entries, entries', TriesAs(token));
    if Message(w).Ok? {
      AnyPermutation(entries, entries', AcceptsAs(c, Message(w).value, token));
    }
  }

  lemma {:induction false} ScanPermutation(c: Primitives, w: Webhook, entries: seq<KeyEntry>, entries': seq<KeyEntry>, tokens: seq<string>)
    requires multiset(entries) == multiset(entries')
    requires forall j :: 0 <= j < |tokens| ==> !MeetsIllTypedKey(entries, tokens[j])
    ensures Scan(c, w, entries, tokens) == Scan(c, w, entries', tokens)
  {
    if tokens != [] {
      if ParseSignature(tokens[0]).Ok? {
        assert !MeetsIllTypedKey(entries, tokens[0]);
        KeyScanPermutation(c, w, entries, entries', ParseSignature(tokens[0]).value);
      }
      assert forall j :: 0 <= j < |tokens[1..]| ==> tokens[1..][j] == tokens[j + 1];
      ScanPermutation(c, w, entries, entries', tokens[1..]);
    }
  }

  /**
   * The outcome of validation, error included, does not depend on the order of the held
   * keys (key rotation), as long as no held key of a token's tag is outside
   * `testSignature`'s parameter type.
   */
  lemma ValidateKeyOrderIrrelevant(c: Primitives, w: Webhook, entries: seq<KeyEntry>, entries': seq<KeyEntry>, tokens: seq<string>)
    requires multiset(entries) == multiset(entries')
    requires forall j :: 0 <= j < |tokens| ==> !MeetsIllTypedKey(entries, tokens[j])
    ensures ValidateSpec(c, w, entries, tokens) == ValidateSpec(c, w, entries', tokens)
  {
    ScanPermutation(c, w, entries, entries', tokens);
  }

  /**
   * With a held asymmetric secret key, order decides: a valid `v1a` token passes when the
   * public key comes first, and the secret key, reached first, makes `testSignature` throw
   * a `TypeError`.
   */
  lemma KeyOrderMatters(c: Primitives, w: Webhook, pair: string, other: string)
    requires SignThenVerify(c)
    requires '.' !in w.id
    ensures var tokens := [Token(V1Asymmetric, c.sign(Message(w).value, pair))];
      var pub := KeyEntry(V1Asymmetric, AsymmetricPublic(pair, true));
      var sec := KeyEntry(V1Asymmetric, AsymmetricSecret(other, true));
      && ValidateSpec(c, w, [pub, sec], tokens) == Pass
      && ValidateSpec(c, w, [sec, pub], tokens) == Fail(KeyTypeError)
  {
    var value := c.sign(Message(w).value, pair);
    ParseToken(V1Asymmetric, value);
    var pub := KeyEntry(V1Asymmetric, AsymmetricPublic(pair, true));
    var sec := KeyEntry(V1Asymmetric, AsymmetricSecret(other, true));
    assert KeyScan(c, w, [pub, sec], ParsedToken(V1Asymmetric, value)) == Ok(true);
    assert [sec, pub][1..] == [pub];
    assert KeyScan(c, w, [sec, pub], ParsedToken(V1Asymmetric, value)) == Err(KeyTypeError);
  }

  lemma {:induction false} KeyScanSkipsOtherTag(c: Primitives, w: Webhook, pre: seq<KeyEntry>, e: KeyEntry,
                                                 post: seq<KeyEntry>, token: ParsedToken)
    requires e.sigType != token.sigType
    ensures KeyScan(c, w, pre + [e] + post, token) == KeyScan(c, w, pre + post, token)
  {
    if pre == [] {
      assert (pre + [e] + post)[1..] == post;
      assert pre + post == post;
    } else {
      KeyScanSkipsOtherTag(c, w, pre[1..], e, post, token);
      assert (pre + [e] + post)[1..] == pre[1..] + [e] + post;
      assert (pre + post)[1..] == pre[1..] + post;
    }
  }

  lemma {:induction false} ScanSkipsOtherTag(c: Primitives, w: Webhook, pre: seq<KeyEntry>, e: KeyEntry,
                                             post: seq<KeyEntry>, tokens: seq<string>)
    requires forall j :: 0 <= j < |tokens| && ParseSignature(tokens[j]).Ok? ==> ParseSignature(tokens[j]).value.sigType != e.sigType
    ensures Scan(c, w, pre + [e] + post, tokens) == Scan(c, w, pre + post, tokens)
  {
    if tokens != [] {
      if ParseSignature(tokens[0]).Ok? {
        KeyScanSkipsOtherTag(c, w, pre, e, post, ParseSignature(tokens[0]).value);
      }
      assert forall j :: 0 <= j < |tokens[1..]| ==> tokens[1..][j] == tokens[j + 1];
      ScanSkipsOtherTag(c, w, pre, e, post, tokens[1..]);
    }
  }

  /**
   * A held key whose tag differs from the tag of every token is never consulted, so it
   * cannot cause an error: removing it changes nothing.
   */
  lemma ValidateSkipsOtherTag(c: Primitives, w: Webhook, pre: seq<KeyEntry>, e: KeyEntry, post: seq<KeyEntry>, tokens: seq<string>)
    requires forall j :: 0 <= j < |tokens| && ParseSignature(tokens[j]).Ok? ==> ParseSignature(tokens[j]).value.sigType != e.sigType
    ensures ValidateSpec(c, w, pre + [e] + post, tokens) == ValidateSpec(c, w, pre + post, tokens)
  {
    ScanSkipsOtherTag(c, w, pre, e, post, tokens);
  }

  /**
   * Every held key is of `testSignature`'s parameter type, as the element type the
   * `addKeys` documentation declares.
   */
  predicate WellTyped(entries: seq<KeyEntry>)
  {
    forall k :: 0 <= k < |entries| ==> ParameterTyped(entries[k].key)
  }

  lemma WellTypedNotIll(entries: seq<KeyEntry>, token: ParsedToken)
    requires WellTyped(entries)
    ensures !IllTypedBy(entries, token)
  {
    forall k | 0 <= k < |entries|
      ensures !IllTypedAs(token)(entries[k])
    {
    }
  }

  /** Whether a verifying key `vk` answers for signing key `sk`: the same secret, or the public half of its keypair. */
  predicate VerifiesFor(sk: Key, vk: Key)
  {
    match sk
    case Symmetric(material, _) => vk.Symmetric? && vk.material == material
    case AsymmetricSecret(pair, _) => vk.AsymmetricPublic? && vk.pair == pair && vk.signing
    case AsymmetricPublic(_, _) => false
  }

  /**
   * Every token a Signer produces validates against a validator holding the verifying
   * counterpart of any one of the Signer's keys, at any position, among keys of
   * `testSignature`'s parameter type.
   */
  lemma SignedTokensValidate(c: Primitives, w: Webhook, signerKeys: seq<KeyEntry>, entries: seq<KeyEntry>, i: nat, k: nat)
    requires SignThenVerify(c)
    requires '.' !in w.id
    requires forall j :: 0 <= j < |signerKeys| ==> SignsAs(signerKeys[j].sigType, signerKeys[j].key)
    requires i < |signerKeys| && k < |entries|
    requires WellTyped(entries)
    requires entries[k] == KeyEntry(TypeForKey(entries[k].key), entries[k].key)
    requires VerifiesFor(signerKeys[i].key, entries[k].key)
    ensures Tokens(c, w, signerKeys).Ok?
    ensures ValidateSpec(c, w, entries, Tokens(c, w, signerKeys).value) == Pass
  {
    var tokens := Tokens(c, w, signerKeys).value;
    var m := Message(w).value;
    forall j | 0 <= j < |tokens|
      ensures ParseSignature(tokens[j]) == Ok(ParsedToken(signerKeys[j].sigType, BuildSignature(c, w, signerKeys[j].sigType, signerKeys[j].key).value))
      ensures !MalformedAsymmetric(c, tokens[j])
    {
      ParseToken(signerKeys[j].sigType, BuildSignature(c, w, signerKeys[j].sigType, signerKeys[j].key).value);
    }
    forall j | 0 <= j < i
      ensures Clears(c, entries, ParseSignature(tokens[j]).value)
    {
      assert !MalformedAsymmetric(c, tokens[j]);
      WellTypedNotIll(entries, ParseSignature(tokens[j]).value);
    }
    var token := ParseSignature(tokens[i]).value;
    assert !MalformedAsymmetric(c, tokens[i]);
    assert AcceptsAs(c, m, token)(entries[k]);
    WellTypedNotIll(entries, token);
    MatchedFirstWellTyped(c, m, entries, token);
    assert AcceptedAt(c, m, entries, tokens, i);
    ValidateSucceedsIff(c, w, entries, tokens);
  }

  /**
   * A token signed over a different message (another id, another whole-second timestamp, or
   * any change to the json) or with a key none of whose counterparts is held is rejected
   * with `NoMatchingSignatureException`, when every held key of its tag is of
   * `testSignature`'s parameter type.
   */
  lemma ForeignTokenRejected(c: Primitives, w: Webhook, signed: Webhook, sk: Key, entries: seq<KeyEntry>)
    requires SignThenVerify(c) && SignaturesBind(c) && MacsBind(c)
    requires '.' !in w.id && '.' !in signed.id
    requires SignerEntry(KeyEntry(TypeForKey(sk), sk))
    requires forall j :: 0 <= j < |entries| && entries[j].sigType == TypeForKey(sk) ==> ParameterTyped(entries[j].key)
    requires w.id != signed.id || Seconds(w.timestamp) != Seconds(signed.timestamp) || w.json != signed.json
          || forall j :: 0 <= j < |entries| ==> !VerifiesFor(sk, entries[j].key)
    ensures var token := Token(TypeForKey(sk), BuildSignature(c, signed, TypeForKey(sk), sk).value);
      ValidateSpec(c, w, entries, [token]) == Fail(NoMatchingSignature(w, [token]))
  {
    var t := TypeForKey(sk);
    var sig := BuildSignature(c, signed, t, sk).value;
    ParseToken(t, sig);
    var m := Message(w).value;
    var m' := Message(signed).value;
    if m == m' {
      MessageInjective(w, signed);
    }
    var token := ParsedToken(t, sig);
    forall k | 0 <= k < |entries|
      ensures !AcceptsAs(c, m, token)(entries[k])
    {
      AcceptedSignatureBinds(c, m, signed, sk, entries[k].key);
    }
    assert t == V1Asymmetric ==> c.wellFormed(sig);
    forall k | 0 <= k < |entries|
      ensures !IllTypedAs(token)(entries[k])
    {
    }
    ValidateFailsWithoutMatch(c, w, entries, [Token(t, sig)]);
  }

  /** A key accepts a produced signature only over the signed message and only if it answers for the signing key. */
  lemma AcceptedSignatureBinds(c: Primitives, m: string, signed: Webhook, sk: Key, vk: Key)
    requires SignaturesBind(c) && MacsBind(c)
    requires '.' !in signed.id
    requires SignerEntry(KeyEntry(TypeForKey(sk), sk))
    ensures Accepts(c, m, vk, ParsedToken(TypeForKey(sk), BuildSignature(c, signed, TypeForKey(sk), sk).value))
      ==> m == Message(signed).value && VerifiesFor(sk, vk)
  {
    var m' := Message(signed).value;
    if !Accepts(c, m, vk, ParsedToken(TypeForKey(sk), BuildSignature(c, signed, TypeForKey(sk), sk).value)) {
    } else if sk.Symmetric? {
      assert c.base64(c.hmacSha256(vk.material, m)) == c.base64(c.hmacSha256(sk.material, m'));
    } else {
      assert c.verify(m, vk.pair, c.sign(m', sk.pair));
    }
  }

  class Validator {
    var signingKeys: seq<KeyEntry>

    constructor()
      ensures signingKeys == []
    {
      signingKeys := [];
    }

    /**
     * `addKeys`: appends each key with its tag. The documented element type is not checked,
     * so any key is stored; one outside `testSignature`'s parameter type surfaces later as
     * a `TypeError` from `validate`.
     */
    method AddKeys(keys: seq<Key>)
      modifies this
      ensures signingKeys == old(signingKeys) + Entries(keys)
    {
      var i := 0;
      while i < |keys|
        invariant 0 <= i <= |keys|
        invariant signingKeys == old(signingKeys) + Entries(keys[..i])
      {
        signingKeys := signingKeys + [KeyEntry(TypeForKey(keys[i]), keys[i])];
        assert Entries(keys[..i + 1]) == Entries(keys[..i]) + [KeyEntry(TypeForKey(keys[i]), keys[i])];
        i := i + 1;
      }
      assert keys[..i] == keys;
    }

    /**
     * `validate`: for each token in order, parse it, then try each held key of the same tag
     * in order; return at the first pair that verifies. Reads the key list, never changes it.
     */
    method Validate(c: Primitives, w: Webhook, signatures: seq<string>) returns (r: Outcome<Error>)
      ensures r == ValidateSpec(c, w, signingKeys, signatures)
    {
      var i := 0;
      while i < |signatures|
        invariant 0 <= i <= |signatures|
        invariant Scan(c, w, signingKeys, signatures) == Scan(c, w, signingKeys, signatures[i..])
      {
        var parsed := ParseSignature(signatures[i]);
        if parsed.Err? {
          return Fail(parsed.error);
        }
        var found := TryKeys(c, w, parsed.value);
        if found.Err? {
          return Fail(found.error);
        }
        if found.value {
          return Pass;
        }
        assert signatures[i..][1..] == signatures[i + 1..];
        i := i + 1;
      }
      return Fail(NoMatchingSignature(w, signatures));
    }

    /** The inner loop of `validate`: each held key of the token's tag, in order, until one verifies. */
    method TryKeys(c: Primitives, w: Webhook, token: ParsedToken) returns (r: Result<bool, Error>)
      ensures r == KeyScan(c, w, signingKeys, token)
    {
      var j := 0;
      while j < |signingKeys|
        invariant 0 <= j <= |signingKeys|
        invariant KeyScan(c, w, signingKeys, token) == KeyScan(c, w, signingKeys[j..], token)
      {
        var entry := signingKeys[j];
        assert signingKeys[j..][1..] == signingKeys[j + 1..];
        if entry.sigType == token.sigType {
          var ok := TestSignature(c, w, entry.key, token.sigType, token.value);
          if ok.Err? {
            return Err(ok.error);
          }
          if ok.value {
            return Ok(true);
          }
        }
        j := j + 1;
      }
      return Ok(false);
    }
  }
}
