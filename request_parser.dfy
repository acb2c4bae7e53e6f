/**
 * The receiving side: header and body parsing, the metadata cross-check, the freshness
 * window, and signature validation through the parser's own Validator.
 */
module RequestParsing {
  import opened Wrappers
  import opened Text
  import opened Time
  import opened JsonValues
  import opened Encoding
  import opened Crypto
  import opened SignatureTypes
  import opened Keys
  import opened Webhooks
  import opened SignedWebhooks
  import opened Errors
  import opened Signing
  import opened Validation
  import opened RequestBuilding

  /** A PSR-7 request reduced to what `parse` reads: every value of each header, and the body text. */
  datatype Request = Request(headers: map<string, seq<string>>, body: string)

  /** `getHeader`: the values of a header, none when it is absent. */
  function HeaderValues(request: Request, name: string): (values: seq<string>)
    ensures name !in request.headers ==> values == []
    ensures name in request.headers ==> values == request.headers[name]
  {
    if name in request.headers then request.headers[name] else []
  }

  /** `getSingleHeader`: more than one value is an error, none is `null`. */
  function GetSingleHeader(request: Request, name: string): (r: Result<Option<string>, Cause>)
    ensures r.Err? <==> |HeaderValues(request, name)| > 1
    ensures r.Err? ==> r.error == DuplicateHeader(name)
    ensures r == Ok(None) <==> HeaderValues(request, name) == []
    ensures r.Ok? && r.value.Some? ==> HeaderValues(request, name) == [r.value.value]
  {
    var values := HeaderValues(request, name);
    if |values| > 1 then Err(DuplicateHeader(name))
    else if values == [] then Ok(None)
    else Ok(Some(values[0]))
  }

  /**
   * What `~^\d{10,11}$~` accepts: ten or eleven ASCII digits, optionally followed by the
   * single final newline that PCRE's `$` lets through.
   */
  ghost predicate MatchesTimestampPattern(s: string)
  {
    exists d :: AllDigits(d) && 10 <= |d| <= 11 && (s == d || s == d + "\n")
  }

  /** The digits of a header value that matches the timestamp pattern. */
  function TimestampDigits(s: string): (r: Option<string>)
    ensures r.Some? <==> MatchesTimestampPattern(s)
    ensures r.Some? ==> AllDigits(r.value) && 10 <= |r.value| <= 11 && (s == r.value || s == r.value + "\n")
  {
    var digits := if |s| > 0 && s[|s| - 1] == '\n' then s[..|s| - 1] else s;
    if 10 <= |digits| <= 11 && AllDigits(digits) then Some(digits)
    else None
  }

  /** `$rawSignatures === '' ? null : explode(' ', $rawSignatures)` after `?? ''`. */
  function SignatureList(raw: Option<string>): (r: Option<seq<string>>)
    ensures r.None? <==> raw == None || raw == Some("")
    ensures r.Some? ==> |r.value| >= 1 && Implode(r.value, ' ') == raw.value
    ensures r.Some? ==> forall i :: 0 <= i < |r.value| ==> ' ' !in r.value[i]
  {
    var s := match raw case None => "" case Some(v) => v;
    if s == "" then None else Some(Explode(s, ' '))
  }

  datatype HeaderFields = HeaderFields(id: string, timestamp: Instant, signatures: Option<seq<string>>)

  /** Headers `parseHeaders` accepts: one id, one timestamp matching the pattern, at most one signature header. */
  ghost predicate HeadersWellFormed(request: Request)
  {
    && |HeaderValues(request, IdHeader)| == 1
    && |HeaderValues(request, TimestampHeader)| == 1
    && MatchesTimestampPattern(HeaderValues(request, TimestampHeader)[0])
    && |HeaderValues(request, SignatureHeader)| <= 1
  }

  /**
   * `parseHeaders`: id, then timestamp (present, then well-formed), then the optional signature
   * header; the timestamp is the whole second the digits denote.
   */
  function ParseHeaders(request: Request): (r: Result<HeaderFields, Cause>)
    ensures r.Ok? <==> HeadersWellFormed(request)
    ensures r == Err(MissingHeader(IdHeader)) <==> HeaderValues(request, IdHeader) == []
    ensures r == Err(DuplicateHeader(IdHeader)) <==> |HeaderValues(request, IdHeader)| > 1
    ensures r.Ok? ==> HeaderValues(request, IdHeader) == [r.value.id]
    ensures r.Ok? ==> r.value.timestamp.micros % MicrosPerSecond == 0
    ensures r.Ok? ==>
      exists d :: AllDigits(d) && 10 <= |d| <= 11 && Seconds(r.value.timestamp) == DigitsValue(d) &&
        (HeaderValues(request, TimestampHeader) == [d] || HeaderValues(request, TimestampHeader) == [d + "\n"])
    ensures r.Ok? ==>
      r.value.signatures ==
      SignatureList(if HeaderValues(request, SignatureHeader) == [] then None else Some(HeaderValues(request, SignatureHeader)[0]))
  {
    match GetSingleHeader(request, IdHeader)
    case Err(e) => Err(e)
    case Ok(None) => Err(MissingHeader(IdHeader))
    case Ok(Some(id)) =>
      match GetSingleHeader(request, TimestampHeader)
      case Err(e) => Err(e)
      case Ok(None) => Err(MissingHeader(TimestampHeader))
      case Ok(Some(raw)) =>
        match TimestampDigits(raw)
        case None => Err(MalformedTimestampHeader)
        case Some(digits) =>
          match GetSingleHeader(request, SignatureHeader)
          case Err(e) => Err(e)
          case Ok(rawSignatures) => Ok(HeaderFields(id, FromSeconds(DigitsValue(digits)), SignatureList(rawSignatures)))
  }

  const JsonMediaType: string := "application/json"

  /**
   * `explode(';', $contentType, 2)[0] === 'application/json'`: the media type must be exactly
   * `application/json` (case and spacing included); only what follows a `;` directly after
   * it is ignored.
   */
  function ContentTypeAccepted(ct: string): (ok: bool)
    ensures ok <==>
      ct == JsonMediaType || (|ct| > |JsonMediaType| && ct[..|JsonMediaType|] == JsonMediaType && ct[|JsonMediaType|] == ';')
  {
    assert ';' !in JsonMediaType;
    MediaTypeHead(ct, JsonMediaType);
    match CutAtFirst(ct, ';')
    case None => ct == JsonMediaType
    case Some((mediaType, _)) => mediaType == JsonMediaType
  }

  /** The part before the first `;` is `m` exactly when `ct` is `m` or `m` followed by `;`. */
  lemma MediaTypeHead(ct: string, m: string)
    requires ';' !in m
    ensures (match CutAtFirst(ct, ';') case None => ct == m case Some((head, _)) => head == m) <==>
      ct == m || (|ct| > |m| && ct[..|m|] == m && ct[|m|] == ';')
  {
    if |ct| > |m| && ct[..|m|] == m && ct[|m|] == ';' {
      assert ct == ct[..|m|] + [';'] + ct[|m| + 1..];
      CutAtFirstOf(ct[..|m|], ';', ct[|m| + 1..]);
    }
    match CutAtFirst(ct, ';')
    case None =>
    case Some((head, rest)) =>
      if head == m {
        assert ct == m + [';'] + rest;
        assert ct[..|m|] == m;
      }
  }

  /** The builder's content type is one the parser accepts. */
  lemma BuiltContentTypeAccepted()
    ensures ContentTypeAccepted(ContentType)
  {
    assert ';' !in JsonMediaType;
    assert ContentType == JsonMediaType + [';'] + " charset=utf-8";
    CutAtFirstOf(JsonMediaType, ';', " charset=utf-8");
  }

  /** The shape `parseBodyContent` insists on: an object with string `id` and `timestamp` and an array or object `data`. */
  predicate WellShaped(j: Json)
    ensures WellShaped(j) ==> j.JObject? && {"id", "timestamp", "data"} <= JsonValues.Keys(j.fields)
  {
    && j.JObject?
    && Lookup(j.fields, "id").Some? && Lookup(j.fields, "id").value.JString?
    && Lookup(j.fields, "timestamp").Some? && Lookup(j.fields, "timestamp").value.JString?
    && Lookup(j.fields, "data").Some? && IsArray(Lookup(j.fields, "data").value)
  }

  datatype Body = Body(id: string, timestamp: Instant, data: Json, fields: Fields)

  /**
   * What `parseBodyContent` accepts: one content type of the JSON media type, a body that
   * decodes to a well-shaped object, and a body timestamp the RFC 3339 parser reads.
   */
  ghost predicate BodyAcceptable(fmt: Codecs, json: string, request: Request)
  {
    && |HeaderValues(request, ContentTypeHeader)| == 1
    && ContentTypeAccepted(HeaderValues(request, ContentTypeHeader)[0])
    && fmt.jsonDecode(json).Some? && WellShaped(fmt.jsonDecode(json).value)
    && fmt.parseTimestamp(Lookup(fmt.jsonDecode(json).value.fields, "timestamp").value.s).Some?
  }

  /**
   * `parseBodyContent`: one content type of the JSON media type, a decodable body of the
   * right shape, and a body timestamp in the RFC 3339 extended format.
   */
  function ParseBodyContent(fmt: Codecs, json: string, request: Request): (r: Result<Body, Cause>)
    ensures r.Ok? <==> BodyAcceptable(fmt, json, request)
    ensures r.Ok? ==>
      && |HeaderValues(request, ContentTypeHeader)| == 1
      && ContentTypeAccepted(HeaderValues(request, ContentTypeHeader)[0])
      && fmt.jsonDecode(json) == Some(JObject(r.value.fields))
      && Lookup(r.value.fields, "id") == Some(JString(r.value.id))
      && Lookup(r.value.fields, "data") == Some(r.value.data) && IsArray(r.value.data)
      && exists s :: Lookup(r.value.fields, "timestamp") == Some(JString(s)) && fmt.parseTimestamp(s) == Some(r.value.timestamp)
    ensures fmt.jsonDecode(json).Some? && !WellShaped(fmt.jsonDecode(json).value) ==> r.Err?
    ensures r.Err? ==> r.error in {DuplicateHeader(ContentTypeHeader), MissingHeader(ContentTypeHeader),
                                   UnsupportedContentType, MalformedJson, InvalidBodyShape, InvalidBodyTimestamp}
  {
    match GetSingleHeader(request, ContentTypeHeader)
    case Err(e) => Err(e)
    case Ok(None) => Err(MissingHeader(ContentTypeHeader))
    case Ok(Some(ct)) =>
      if !ContentTypeAccepted(ct) then Err(UnsupportedContentType)
      else
        match fmt.jsonDecode(json)
        case None => Err(MalformedJson)
        case Some(body) =>
          if !WellShaped(body) then Err(InvalidBodyShape)
          else
            var timestamp := Lookup(body.fields, "timestamp").value.s;
            match fmt.parseTimestamp(timestamp)
            case None => Err(InvalidBodyTimestamp)
            case Some(t) => Ok(Body(Lookup(body.fields, "id").value.s, t, Lookup(body.fields, "data").value, body.fields))
  }

  /**
   * The first three stages of `parse`: headers, body, and the id and whole-second
   * cross-check; each stage reports only its own kind of error.
   */
  function CheckRequest(fmt: Codecs, request: Request): (r: Result<(HeaderFields, Body), Error>)
    ensures r.Ok? ==> ParseHeaders(request) == Ok(r.value.0) && ParseBodyContent(fmt, request.body, request) == Ok(r.value.1)
    ensures r.Ok? ==> r.value.1.id == r.value.0.id && Seconds(r.value.1.timestamp) == Seconds(r.value.0.timestamp)
    ensures r.Err? ==> r.error.InvalidHeaders? || r.error.InvalidBody? || r.error == MetadataMismatch
  {
    match ParseHeaders(request)
    case Err(cause) => Err(InvalidHeaders(cause))
    case Ok(h) =>
      match ParseBodyContent(fmt, request.body, request)
      case Err(cause) => Err(InvalidBody(cause))
      case Ok(body) =>
        if body.id != h.id || Seconds(body.timestamp) != Seconds(h.timestamp) then Err(MetadataMismatch)
        else Ok((h, body))
  }

  /** The default tolerance, `PT30S`. */
  const DefaultTolerance: Option<nat> := Some(30)

  /**
   * `validateTimestamp`: outside `[now - tolerance, now + tolerance]` is stale. A `null`
   * tolerance makes `sub` throw, which `parse` reports like a stale timestamp.
   */
  function IsFresh(tolerance: Option<nat>, timestamp: Instant, now: Instant): (ok: bool)
    ensures ok <==>
      tolerance.Some? &&
      -(tolerance.value as int) * MicrosPerSecond <= timestamp.micros - now.micros <= tolerance.value * MicrosPerSecond
  {
    match tolerance
    case None => false
    case Some(seconds) =>
      !(timestamp.micros < now.micros - seconds * MicrosPerSecond || timestamp.micros > now.micros + seconds * MicrosPerSecond)
  }

  /**
   * With a whole-second `now`, a header timestamp is fresh exactly when it is at most the
   * tolerance's number of seconds away.
   */
  lemma FreshWholeSeconds(tolerance: nat, timestamp: Instant, now: Instant)
    requires timestamp.micros % MicrosPerSecond == 0 && now.micros % MicrosPerSecond == 0
    ensures IsFresh(Some(tolerance), timestamp, now) <==>
      -(tolerance as int) <= Seconds(timestamp) - Seconds(now) <= tolerance
  {
    assert timestamp.micros == Seconds(timestamp) * MicrosPerSecond;
    assert now.micros == Seconds(now) * MicrosPerSecond;
    var d := Seconds(timestamp) - Seconds(now);
    assert timestamp.micros - now.micros == d * MicrosPerSecond;
  }

  /** What `parse` returns: the id, the body's `data`, the other body fields, and the (signed) webhook. */
  datatype Parsed = Parsed(id: string, data: Json, metadata: Fields, webhook: Webhook)

  /** Body keys that are not metadata. */
  const NotMetadata: set<string> := {"id", "timestamp", "data"}

  /**
   * `parse` with the webhook built from the three received fields, id, header timestamp and
   * raw body: then freshness, then the signature tokens against the held keys. A request is
   * accepted exactly when it passes the three checks, its timestamp is fresh, and either its
   * tokens validate against the held keys or it sent none and none are required.
   */
  function ParseSpec(c: Primitives, fmt: Codecs, tolerance: Option<nat>, entries: seq<KeyEntry>,
                     request: Request, requireSignatures: bool, now: Instant): (r: Result<Parsed, Error>)
    ensures r.Ok? <==>
      && CheckRequest(fmt, request).Ok?
      && var h := CheckRequest(fmt, request).value.0;
      && IsFresh(tolerance, h.timestamp, now)
      && (h.signatures.Some? ==> ValidateSpec(c, Unsigned(None, h.id, h.timestamp, request.body), entries, h.signatures.value) == Pass)
      && (h.signatures.None? ==> !requireSignatures)
  {
    match CheckRequest(fmt, request)
    case Err(e) => Err(e)
    case Ok((h, body)) =>
      var metadata := WithoutKeys(body.fields, NotMetadata);
      var webhook := Unsigned(None, h.id, h.timestamp, request.body);
      if !IsFresh(tolerance, h.timestamp, now) then Err(InvalidTimestamp(h.timestamp))
      else
        match h.signatures
        case Some(signatures) =>
          (match ValidateSpec(c, webhook, entries, signatures)
           case Fail(e) => Err(e)
           case Pass => Ok(Parsed(h.id, body.data, metadata, CreateFromUnsigned(webhook, signatures))))
        case None =>
          if requireSignatures then Err(NoSignatures) else Ok(Parsed(h.id, body.data, metadata, webhook))
  }

  /**
   * `parse` as written: the webhook is constructed with three arguments where the constructor
   * takes four (and the timestamp lands in the string `id` parameter), which throws for
   * every request that gets past the cross-check.
   */
  function ParseAsWritten(fmt: Codecs, request: Request): (r: Result<Parsed, Error>)
    ensures r.Err?
  {
    match CheckRequest(fmt, request)
    case Err(e) => Err(e)
    case Ok(_) => Err(WebhookConstructionFailed)
  }

  /**
   * The written `parse` never returns: it reports the same header, body and mismatch errors
   * as the intended one, and fails with a construction error on every request the intended
   * one goes on to check.
   */
  lemma AsWrittenNeverReturns(c: Primitives, fmt: Codecs, tolerance: Option<nat>, entries: seq<KeyEntry>,
                              request: Request, requireSignatures: bool, now: Instant)
    ensures ParseAsWritten(fmt, request).Err?
    ensures CheckRequest(fmt, request).Err? ==>
      ParseAsWritten(fmt, request) == ParseSpec(c, fmt, tolerance, entries, request, requireSignatures, now)
    ensures ParseSpec(c, fmt, tolerance, entries, request, requireSignatures, now).Ok? ==>
      ParseAsWritten(fmt, request) == Err(WebhookConstructionFailed)
  {
  }

  /** The witness body, decoded: a message id, a timestamp string and an empty `data`. */
  const WitnessTimestamp: string := "2023-11-14T22:13:20.000+00:00"

  const WitnessJson: string := "{\"id\":\"msg_1\",\"timestamp\":\"2023-11-14T22:13:20.000+00:00\",\"data\":{}}"

  function WitnessFields(): Fields
  {
    [("id", JString("msg_1")), ("timestamp", JString(WitnessTimestamp)), ("data", JObject([]))]
  }

  /**
   * Codecs that know only the witness: `WitnessJson` decodes to `WitnessFields()` and
   * `WitnessTimestamp` reads as 1700000000; any other text fails to decode.
   */
  function WitnessCodecs(): Codecs
  {
    Codecs((j, pretty) => None, s => if s == WitnessJson then Some(JObject(WitnessFields())) else None,
           t => "", s => if s == WitnessTimestamp then Some(FromSeconds(1_700_000_000)) else None)
  }

  /** Headers `webhook-id: msg_1`, `webhook-timestamp: 1700000000`, `content-type: application/json`; body `WitnessJson`. */
  function WitnessRequest(): Request
  {
    Request(map[IdHeader := ["msg_1"], TimestampHeader := [IntToDecimal(1_700_000_000)], ContentTypeHeader := [JsonMediaType]], WitnessJson)
  }

  /**
   * The witness: a fresh, well-formed, unsigned request at 2023-11-14T22:13:20Z, taken
   * without requiring signatures, that the intended `parse` accepts and the written one
   * refuses.
   */
  lemma AsWrittenRefusesValidRequest(c: Primitives)
    ensures ParseSpec(c, WitnessCodecs(), DefaultTolerance, [], WitnessRequest(), false, FromSeconds(1_700_000_000)).Ok?
    ensures ParseAsWritten(WitnessCodecs(), WitnessRequest()) == Err(WebhookConstructionFailed)
  {
    WitnessHeadersParse();
    WitnessBodyParses();
    var h := HeaderFields("msg_1", FromSeconds(1_700_000_000), None);
    var body := Body("msg_1", FromSeconds(1_700_000_000), JObject([]), WitnessFields());
    assert CheckRequest(WitnessCodecs(), WitnessRequest()) == Ok((h, body));
    assert IsFresh(DefaultTolerance, h.timestamp, FromSeconds(1_700_000_000));
  }

  lemma WitnessHeadersParse()
    ensures ParseHeaders(WitnessRequest()) == Ok(HeaderFields("msg_1", FromSeconds(1_700_000_000), None))
  {
    var request := WitnessRequest();
    assert HeaderValues(request, IdHeader) == ["msg_1"];
    assert HeaderValues(request, TimestampHeader) == [IntToDecimal(1_700_000_000)];
    assert HeaderValues(request, SignatureHeader) == [];
    UnsignedHeadersParse(request, "msg_1", 1_700_000_000);
  }

  /** One id, a ten- or eleven-digit timestamp written by `(string)` and no signature header parse to those fields. */
  lemma UnsignedHeadersParse(request: Request, id: string, seconds: int)
    requires 1_000_000_000 <= seconds < 100_000_000_000
    requires HeaderValues(request, IdHeader) == [id]
    requires HeaderValues(request, TimestampHeader) == [IntToDecimal(seconds)]
    requires HeaderValues(request, SignatureHeader) == []
    ensures ParseHeaders(request) == Ok(HeaderFields(id, FromSeconds(seconds), None))
  {
    TimestampHeaderMatches(seconds);
    assert GetSingleHeader(request, TimestampHeader) == Ok(Some(IntToDecimal(seconds)));
  }

  lemma WitnessBodyParses()
    ensures ParseBodyContent(WitnessCodecs(), WitnessJson, WitnessRequest()) ==
      Ok(Body("msg_1", FromSeconds(1_700_000_000), JObject([]), WitnessFields()))
  {
    var fields := WitnessFields();
    assert HeaderValues(WitnessRequest(), ContentTypeHeader) == [JsonMediaType];
    assert ContentTypeAccepted(JsonMediaType);
    assert Lookup(fields, "id") == Some(JString("msg_1"));
    assert Lookup(fields, "timestamp") == Some(JString(WitnessTimestamp));
    assert Lookup(fields, "data") == Some(JObject([]));
  }

  /**
   * Header errors come first: `parse` reports invalid headers exactly when `parseHeaders`
   * fails, carrying its cause, whatever the body says.
   */
  lemma InvalidHeadersIff(c: Primitives, fmt: Codecs, tolerance: Option<nat>, entries: seq<KeyEntry>,
                          request: Request, requireSignatures: bool, now: Instant)
    ensures var r := ParseSpec(c, fmt, tolerance, entries, request, requireSignatures, now);
      (r.Err? && r.error.InvalidHeaders?) <==> !HeadersWellFormed(request)
    ensures !HeadersWellFormed(request) ==>
      ParseSpec(c, fmt, tolerance, entries, request, requireSignatures, now) == Err(InvalidHeaders(ParseHeaders(request).error))
  {
    var r := ParseSpec(c, fmt, tolerance, entries, request, requireSignatures, now);
    if HeadersWellFormed(request) && CheckRequest(fmt, request).Ok? && r.Err? {
      ValidateErrorsAreNotStageErrors(c, fmt, request, entries);
    }
  }

  /** Body errors come second: reported exactly when the headers are fine and the body is not. */
  lemma InvalidBodyIff(c: Primitives, fmt: Codecs, tolerance: Option<nat>, entries: seq<KeyEntry>,
                       request: Request, requireSignatures: bool, now: Instant)
    ensures var r := ParseSpec(c, fmt, tolerance, entries, request, requireSignatures, now);
      (r.Err? && r.error.InvalidBody?) <==> HeadersWellFormed(request) && ParseBodyContent(fmt, request.body, request).Err?
  {
    var check := CheckRequest(fmt, request);
    if !HeadersWellFormed(request) {
      assert check.Err? && check.error.InvalidHeaders?;
    } else if ParseBodyContent(fmt, request.body, request).Err? {
      assert check == Err(InvalidBody(ParseBodyContent(fmt, request.body, request).error));
    } else if check.Ok? {
      ValidateErrorsAreNotStageErrors(c, fmt, request, entries);
    } else {
      assert check == Err(MetadataMismatch);
    }
  }

  /** Signature validation reports only its own errors, never one of the three stage errors. */
  lemma ValidateErrorsAreNotStageErrors(c: Primitives, fmt: Codecs, request: Request, entries: seq<KeyEntry>)
    requires CheckRequest(fmt, request).Ok?
    ensures var (h, _) := CheckRequest(fmt, request).value;
      h.signatures.Some? ==>
        var v := ValidateSpec(c, Unsigned(None, h.id, h.timestamp, request.body), entries, h.signatures.value);
        v.Fail? ==> !v.error.InvalidHeaders? && !v.error.InvalidBody? && !v.error.MetadataMismatch?
  {
    var (h, _) := CheckRequest(fmt, request).value;
    if h.signatures.Some? {
      ValidateErrors(c, Unsigned(None, h.id, h.timestamp, request.body), entries, h.signatures.value);
    }
  }

  /**
   * A header/body disagreement is reported as such exactly when both stages pass and the
   * ids or the seconds differ; it comes before freshness and signatures, so a valid
   * signature does not rescue it.
   */
  lemma MismatchIff(c: Primitives, fmt: Codecs, tolerance: Option<nat>, entries: seq<KeyEntry>,
                    request: Request, requireSignatures: bool, now: Instant)
    ensures ParseSpec(c, fmt, tolerance, entries, request, requireSignatures, now) == Err(MetadataMismatch) <==>
      && ParseHeaders(request).Ok? && ParseBodyContent(fmt, request.body, request).Ok?
      && var h := ParseHeaders(request).value;
      && var body := ParseBodyContent(fmt, request.body, request).value;
      (body.id != h.id || Seconds(body.timestamp) != Seconds(h.timestamp))
  {
    if CheckRequest(fmt, request).Ok? {
      ValidateErrorsAreNotStageErrors(c, fmt, request, entries);
    }
  }

  /**
   * A consistent, fresh request without a signature header is refused for want of
   * signatures exactly when they are required.
   */
  lemma MissingSignaturesIff(c: Primitives, fmt: Codecs, tolerance: Option<nat>, entries: seq<KeyEntry>,
                             request: Request, requireSignatures: bool, now: Instant)
    ensures ParseSpec(c, fmt, tolerance, entries, request, requireSignatures, now) == Err(NoSignatures) <==>
      && CheckRequest(fmt, request).Ok?
      && var h := CheckRequest(fmt, request).value.0;
      && IsFresh(tolerance, h.timestamp, now)
      && h.signatures.None?
      && requireSignatures
  {
    if CheckRequest(fmt, request).Ok? {
      var h := CheckRequest(fmt, request).value.0;
      if h.signatures.Some? {
        ValidateErrors(c, Unsigned(None, h.id, h.timestamp, request.body), entries, h.signatures.value);
      }
    }
  }

  /**
   * Replay protection: a well-formed request whose timestamp is outside the window is
   * refused before any signature is looked at, so the outcome does not depend on the keys
   * or the tokens.
   */
  lemma StaleRequestRejected(c: Primitives, fmt: Codecs, tolerance: Option<nat>, entries: seq<KeyEntry>,
                             request: Request, requireSignatures: bool, now: Instant)
    requires CheckRequest(fmt, request).Ok?
    requires !IsFresh(tolerance, CheckRequest(fmt, request).value.0.timestamp, now)
    ensures ParseSpec(c, fmt, tolerance, entries, request, requireSignatures, now) ==
      Err(InvalidTimestamp(CheckRequest(fmt, request).value.0.timestamp))
  {
  }

  /**
   * What an accepted request guarantees about its fields: header and body agree on id and
   * second, the timestamp is within the window (so a tolerance was set), the data and the
   * metadata come from the body, and the webhook carries the header id and timestamp and
   * the raw body, signed exactly when tokens were sent.
   */
  lemma AcceptedRequestConsistent(c: Primitives, fmt: Codecs, tolerance: Option<nat>, entries: seq<KeyEntry>,
                                  request: Request, requireSignatures: bool, now: Instant)
    requires ParseSpec(c, fmt, tolerance, entries, request, requireSignatures, now).Ok?
    ensures CheckRequest(fmt, request).Ok?
    ensures AcceptedFields(ParseSpec(c, fmt, tolerance, entries, request, requireSignatures, now).value,
                           CheckRequest(fmt, request).value.0, CheckRequest(fmt, request).value.1, request)
  {
    AcceptedRequestFresh(c, fmt, tolerance, entries, request, requireSignatures, now);
    var h := CheckRequest(fmt, request).value.0;
    var body := CheckRequest(fmt, request).value.1;
    var p := ParseSpec(c, fmt, tolerance, entries, request, requireSignatures, now).value;
    assert p.id == h.id && p.data == body.data && p.metadata == WithoutKeys(body.fields, NotMetadata);
    assert p.webhook.id == h.id && p.webhook.timestamp == h.timestamp && p.webhook.json == request.body;
    assert p.webhook.Signed? <==> h.signatures.Some?;
  }

  /** An accepted request passed the three checks and its header timestamp is within a set tolerance of `now`. */
  lemma AcceptedRequestFresh(c: Primitives, fmt: Codecs, tolerance: Option<nat>, entries: seq<KeyEntry>,
                             request: Request, requireSignatures: bool, now: Instant)
    requires ParseSpec(c, fmt, tolerance, entries, request, requireSignatures, now).Ok?
    ensures CheckRequest(fmt, request).Ok?
    ensures tolerance.Some? && IsFresh(tolerance, CheckRequest(fmt, request).value.0.timestamp, now)
  {
  }

  /** The agreement an accepted request's result has with its headers and body. */
  ghost predicate AcceptedFields(p: Parsed, h: HeaderFields, body: Body, request: Request)
  {
    && p.id == h.id == body.id
    && Seconds(body.timestamp) == Seconds(h.timestamp)
    && p.webhook.id == h.id && p.webhook.timestamp == h.timestamp && p.webhook.json == request.body
    && p.data == body.data
    && (forall k :: Lookup(p.metadata, k) == if k in NotMetadata then None else Lookup(body.fields, k))
    && (p.webhook.Signed? <==> h.signatures.Some?)
  }

  /**
   * What an accepted request guarantees about its signatures: when they were required, or
   * any were sent, the webhook is signed with the received tokens, and some token (every
   * token before it parsing) is accepted by a held key of its tag over `id.seconds.body`.
   */
  lemma AcceptedRequestAuthentic(c: Primitives, fmt: Codecs, tolerance: Option<nat>, entries: seq<KeyEntry>,
                                 request: Request, requireSignatures: bool, now: Instant)
    requires ParseSpec(c, fmt, tolerance, entries, request, requireSignatures, now).Ok?
    requires requireSignatures || (CheckRequest(fmt, request).Ok? && CheckRequest(fmt, request).value.0.signatures.Some?)
    ensures CheckRequest(fmt, request).Ok? && CheckRequest(fmt, request).value.0.signatures.Some?
    ensures var p := ParseSpec(c, fmt, tolerance, entries, request, requireSignatures, now).value;
      var signatures := CheckRequest(fmt, request).value.0.signatures.value;
      && p.webhook.Signed? && p.webhook.signatures == signatures
      && Message(p.webhook).Ok?
      && exists i :: AcceptedAt(c, Message(p.webhook).value, entries, signatures, i)
  {
    var (h, body) := CheckRequest(fmt, request).value;
    var w := Unsigned(None, h.id, h.timestamp, request.body);
    ValidateSucceedsIff(c, w, entries, h.signatures.value);
    assert Message(CreateFromUnsigned(w, h.signatures.value)) == Message(w);
  }

  /** The builder's headers as a request: one value per header. */
  function HeaderRequest(headers: map<string, string>, body: string): (r: Request)
    ensures forall name :: HeaderValues(r, name) == if name in headers then [headers[name]] else []
  {
    Request(map name | name in headers :: [headers[name]], body)
  }

  lemma {:induction false} ImplodeNonEmpty(parts: seq<string>, sep: char)
    requires |parts| >= 1 && parts[0] != ""
    ensures Implode(parts, sep) != ""
  {
    if |parts| > 1 {
      assert Implode(parts, sep)[0] == parts[0][0];
    }
  }

  /** A number of seconds with ten or eleven digits is written the way the timestamp pattern wants. */
  lemma TimestampHeaderMatches(seconds: int)
    requires 1_000_000_000 <= seconds < 100_000_000_000
    ensures TimestampDigits(IntToDecimal(seconds)) == Some(IntToDecimal(seconds))
    ensures DigitsValue(IntToDecimal(seconds)) == seconds
  {
    assert Pow10(9) == 1_000_000_000 && Pow10(10) == 10_000_000_000 && Pow10(11) == 100_000_000_000;
    if seconds < 10_000_000_000 {
      NatDigitsLength(seconds, 10);
    } else {
      NatDigitsLength(seconds, 11);
    }
    DigitsValueOfNatDigits(seconds);
    var s := IntToDecimal(seconds);
    assert IsDigit(s[|s| - 1]);
  }

  /**
   * The signature header round trip: splitting the joined tokens at spaces gives the
   * tokens back, given that signatures and base64 text hold no space.
   */
  lemma SignatureHeaderRoundTrip(b: RequestBuilder, c: Primitives, w: Webhook)
    requires b.Valid() && SpaceFree(c)
    requires b.signer.HasKeys() && b.signer.BuildSignatures(c, w).Ok?
    ensures SignatureList(Some(Implode(b.signer.BuildSignatures(c, w).value, ' '))) == Some(b.signer.BuildSignatures(c, w).value)
  {
    var tokens := b.signer.BuildSignatures(c, w).value;
    forall i | 0 <= i < |tokens| ensures ' ' !in tokens[i] && tokens[i] != "" {
      var e := b.signer.signingKeys[i];
      var sig := BuildSignature(c, w, e.sigType, e.key).value;
      assert tokens[i] == Value(e.sigType) + "," + sig;
      assert ' ' !in sig;
    }
    ExplodeImplode(tokens, ' ');
    ImplodeNonEmpty(tokens, ' ');
  }

  /**
   * The parser reads back what the builder wrote: the id, the timestamp truncated to its
   * second, and, when the builder holds keys, exactly the produced tokens. Timestamps from
   * 2001-09-09 until the year 5138 have the ten or eleven digits the parser demands.
   */
  lemma BuiltHeadersParse(b: RequestBuilder, c: Primitives, w: Webhook, body: string)
    requires b.Valid() && SpaceFree(c)
    requires b.BuildHeaders(c, w).Ok?
    requires 1_000_000_000 <= Seconds(w.timestamp) < 100_000_000_000
    ensures var h := ParseHeaders(HeaderRequest(b.BuildHeaders(c, w).value, body));
      && h.Ok?
      && h.value.id == w.id
      && h.value.timestamp == FromSeconds(Seconds(w.timestamp))
      && h.value.signatures == (if b.signer.HasKeys() then Some(b.signer.BuildSignatures(c, w).value) else None)
  {
    var headers := b.BuildHeaders(c, w).value;
    var request := HeaderRequest(headers, body);
    var seconds := Seconds(w.timestamp);
    DecimalRoundTrip(seconds);
    TimestampHeaderMatches(seconds);
    assert headers[TimestampHeader] == IntToDecimal(seconds);
    assert HeaderValues(request, TimestampHeader) == [IntToDecimal(seconds)];
    if b.signer.HasKeys() {
      SignatureHeaderRoundTrip(b, c, w);
      assert HeaderValues(request, SignatureHeader) == [Implode(b.signer.BuildSignatures(c, w).value, ' ')];
    } else {
      assert HeaderValues(request, SignatureHeader) == [];
    }
  }

  /**
   * End to end on the signature: the tokens a builder sends are accepted by a parser that
   * holds the verifying counterpart of any one of the builder's keys, for the webhook the
   * parser rebuilds from the id, the whole-second header timestamp and the raw body.
   */
  lemma BuiltSignaturesValidate(b: RequestBuilder, c: Primitives, w: Webhook, entries: seq<KeyEntry>, i: nat, k: nat)
    requires b.Valid() && SignThenVerify(c)
    requires b.BuildHeaders(c, w).Ok? && b.signer.HasKeys()
    requires i < |b.signer.signingKeys| && k < |entries|
    requires WellTyped(entries)
    requires entries[k] == KeyEntry(TypeForKey(entries[k].key), entries[k].key)
    requires VerifiesFor(b.signer.signingKeys[i].key, entries[k].key)
    ensures ValidateSpec(c, Unsigned(None, w.id, FromSeconds(Seconds(w.timestamp)), w.json), entries,
                         b.signer.BuildSignatures(c, w).value) == Pass
  {
    var keys := b.signer.signingKeys;
    var tokens := b.signer.BuildSignatures(c, w).value;
    var received := Unsigned(None, w.id, FromSeconds(Seconds(w.timestamp)), w.json);
    SignedTokensValidate(c, w, keys, entries, i, k);
    ValidateSucceedsIff(c, w, entries, tokens);
    ValidateSucceedsIff(c, received, entries, tokens);
    assert Message(received) == Message(w);
  }

  /**
   * The body `Webhook::create` builds carries `type`, `timestamp` and `data` but no `id`
   * unless the metadata supplies one, while `parseBodyContent` demands an `id`: with the
   * builder's content type such a body is refused as malformed.
   */
  lemma BuiltBodyMalformed(fmt: Codecs, request: Request,
                           eventType: string, id: string, timestamp: Instant, data: Json, metadata: Fields, pretty: bool)
    requires PreservesObjectKeys(fmt)
    requires Webhooks.Create(fmt, eventType, id, timestamp, data, metadata, pretty).Some?
    requires request.body == Webhooks.Create(fmt, eventType, id, timestamp, data, metadata, pretty).value.json
    requires !HasKey(metadata, "id")
    requires HeaderValues(request, ContentTypeHeader) == [ContentType]
    ensures ParseBodyContent(fmt, request.body, request) == Err(InvalidBodyShape)
  {
    var fields := BodyFields(eventType, fmt.formatTimestamp(timestamp), data, metadata);
    BodyFieldsPrecedence(eventType, fmt.formatTimestamp(timestamp), data, metadata);
    assert "id" !in JsonValues.Keys(fields);
    assert fmt.jsonEncode(JObject(fields), pretty) == Some(request.body);
    var decoded := fmt.jsonDecode(request.body).value;
    assert decoded.JObject? && JsonValues.Keys(decoded.fields) == JsonValues.Keys(fields);
    assert !HasKey(decoded.fields, "id");
    BuiltContentTypeAccepted();
  }

  /** So a request carrying such a body fails at the body stage, before keys or freshness matter. */
  lemma BuiltBodyRejected(c: Primitives, fmt: Codecs, tolerance: Option<nat>, entries: seq<KeyEntry>,
                          request: Request, requireSignatures: bool, now: Instant,
                          eventType: string, id: string, timestamp: Instant, data: Json, metadata: Fields, pretty: bool)
    requires PreservesObjectKeys(fmt)
    requires Webhooks.Create(fmt, eventType, id, timestamp, data, metadata, pretty).Some?
    requires request.body == Webhooks.Create(fmt, eventType, id, timestamp, data, metadata, pretty).value.json
    requires !HasKey(metadata, "id")
    requires HeadersWellFormed(request)
    requires HeaderValues(request, ContentTypeHeader) == [ContentType]
    ensures ParseSpec(c, fmt, tolerance, entries, request, requireSignatures, now) == Err(InvalidBody(InvalidBodyShape))
  {
    BuiltBodyMalformed(fmt, request, eventType, id, timestamp, data, metadata, pretty);
  }

  class RequestParser {
    const timestampTolerance: Option<nat>
    const validator: Validator

    /** `DefaultTolerance` is what the source's default argument supplies. */
    constructor(timestampTolerance: Option<nat>)
      ensures this.timestampTolerance == timestampTolerance
      ensures fresh(validator) && validator.signingKeys == []
    {
      this.timestampTolerance := timestampTolerance;
      validator := new Validator();
    }

    /** `withKeys`: every key goes to the shared Validator; returns this parser. */
    method WithKeys(keys: seq<Key>) returns (r: RequestParser)
      modifies validator
      ensures r == this
      ensures validator.signingKeys == old(validator.signingKeys) + Entries(keys)
    {
      validator.AddKeys(keys);
      return this;
    }

    /** `withKey`: a one-key `withKeys`; the parameter type admits symmetric keys and public signature keys. */
    method WithKey(key: Key) returns (r: RequestParser)
      requires key.Symmetric? || (key.AsymmetricPublic? && key.signing)
      modifies validator
      ensures r == this
      ensures validator.signingKeys == old(validator.signingKeys) + [KeyEntry(TypeForKey(key), key)]
    {
      r := WithKeys([key]);
    }

    /**
     * `parse`, stage by stage, with the webhook built from the three received fields; the
     * Validator is consulted only for a fresh, consistent request that carries tokens.
     */
    method Parse(c: Primitives, fmt: Codecs, request: Request, requireSignatures: bool, now: Instant)
      returns (r: Result<Parsed, Error>)
      ensures r == ParseSpec(c, fmt, timestampTolerance, validator.signingKeys, request, requireSignatures, now)
    {
      var headers := ParseHeaders(request);
      if headers.Err? {
        return Err(InvalidHeaders(headers.error));
      }
      var h := headers.value;
      var parsedBody := ParseBodyContent(fmt, request.body, request);
      if parsedBody.Err? {
        return Err(InvalidBody(parsedBody.error));
      }
      var body := parsedBody.value;
      if body.id != h.id || Seconds(body.timestamp) != Seconds(h.timestamp) {
        return Err(MetadataMismatch);
      }
      var metadata := WithoutKeys(body.fields, NotMetadata);
      var data := body.data;
      var webhook := Unsigned(None, h.id, h.timestamp, request.body);
      if !IsFresh(timestampTolerance, h.timestamp, now) {
        return Err(InvalidTimestamp(h.timestamp));
      }
      if h.signatures.Some? {
        var outcome := validator.Validate(c, webhook, h.signatures.value);
        if outcome.Fail? {
          return Err(outcome.error);
        }
        webhook := CreateFromUnsigned(webhook, h.signatures.value);
      } else if requireSignatures {
        return Err(NoSignatures);
      }
      return Ok(Parsed(h.id, data, metadata, webhook));
    }
  }
}
