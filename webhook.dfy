/**
 * The immutable webhook record and the canonical JSON body. A signed webhook is the same
 * record with its signature tokens attached, so every base field reads the same on both.
 * The event type is optional: the receiving side builds webhooks with the three fields
 * id, timestamp and json only.
 */
module Webhooks {
  import opened Wrappers
  import opened Time
  import opened JsonValues
  import opened Encoding

  datatype Webhook =
    | Unsigned(eventType: Option<string>, id: string, timestamp: Instant, json: string)
    | Signed(eventType: Option<string>, id: string, timestamp: Instant, json: string, signatures: seq<string>)

  /** The keys the canonical body writes itself; metadata under these keys is dropped. */
  const Reserved: set<string> := {"type", "timestamp", "data"}

  /**
   * The object `['type' => ..., 'timestamp' => ..., 'data' => ...] + $metadata`: PHP `+`
   * keeps the left operand's entries, so colliding metadata keys never override.
   */
  function BodyFields(eventType: string, timestamp: string, data: Json, metadata: Fields): (fields: Fields)
    ensures |fields| >= 3
    ensures fields[0] == ("type", JString(eventType))
    ensures fields[1] == ("timestamp", JString(timestamp))
    ensures fields[2] == ("data", data)
    ensures fields[3..] == WithoutKeys(metadata, Reserved)
  {
    var head: Fields := [("type", JString(eventType)), ("timestamp", JString(timestamp)), ("data", data)];
    head + WithoutKeys(metadata, Reserved)
  }

  /**
   * In the built body the three canonical keys hold the given values whatever the metadata
   * says, every other key holds the metadata's value, and so `id` is present exactly when
   * the metadata supplies one.
   */
  lemma BodyFieldsPrecedence(eventType: string, timestamp: string, data: Json, metadata: Fields)
    ensures var fields := BodyFields(eventType, timestamp, data, metadata);
      && Lookup(fields, "type") == Some(JString(eventType))
      && Lookup(fields, "timestamp") == Some(JString(timestamp))
      && Lookup(fields, "data") == Some(data)
      && (forall k :: k !in Reserved ==> Lookup(fields, k) == Lookup(metadata, k))
      && (HasKey(fields, "id") <==> HasKey(metadata, "id"))
  {
    var fields := BodyFields(eventType, timestamp, data, metadata);
    var head := fields[..3];
    var tail := WithoutKeys(metadata, Reserved);
    assert fields == head + tail;
    forall k | k !in Reserved
      ensures Lookup(fields, k) == Lookup(metadata, k)
    {
      LookupAppend(head, tail, k);
      assert !HasKey(head, k);
    }
    assert "id" !in Reserved;
  }

  /** The body's keys are the three canonical ones and the metadata's other keys. */
  lemma BodyKeys(eventType: string, timestamp: string, data: Json, metadata: Fields)
    ensures Keys(BodyFields(eventType, timestamp, data, metadata)) == Reserved + (Keys(metadata) - Reserved)
  {
    var fields := BodyFields(eventType, timestamp, data, metadata);
    BodyFieldsPrecedence(eventType, timestamp, data, metadata);
    forall k
      ensures k in Keys(fields) <==> k in Reserved + (Keys(metadata) - Reserved)
    {
      assert k in Keys(fields) <==> HasKey(fields, k);
      assert k in Keys(metadata) <==> HasKey(metadata, k);
    }
  }

  /**
   * `Webhook::buildJson`; `None` when `json_encode` throws. With a codec that keeps object
   * keys, the body decodes to an object keyed by `type`, `timestamp`, `data` and the
   * metadata's other keys, so it has an `id` only when the metadata does.
   */
  function BuildJson(fmt: Codecs, eventType: string, timestamp: Instant, data: Json, metadata: Fields, pretty: bool): (r: Option<string>)
    ensures PreservesObjectKeys(fmt) && r.Some? ==>
      && fmt.jsonDecode(r.value).Some? && fmt.jsonDecode(r.value).value.JObject?
      && Keys(fmt.jsonDecode(r.value).value.fields) == Reserved + (Keys(metadata) - Reserved)
  {
    BodyKeys(eventType, fmt.formatTimestamp(timestamp), data, metadata);
    fmt.jsonEncode(JObject(BodyFields(eventType, fmt.formatTimestamp(timestamp), data, metadata)), pretty)
  }

  /** `Webhook::create`: keeps type, id and timestamp and stores the built body verbatim. */
  function Create(fmt: Codecs, eventType: string, id: string, timestamp: Instant, data: Json, metadata: Fields, pretty: bool): (r: Option<Webhook>)
    ensures r.Some? <==> BuildJson(fmt, eventType, timestamp, data, metadata, pretty).Some?
    ensures r.Some? ==> r.value == Unsigned(Some(eventType), id, timestamp, BuildJson(fmt, eventType, timestamp, data, metadata, pretty).value)
  {
    match BuildJson(fmt, eventType, timestamp, data, metadata, pretty)
    case None => None
    case Some(json) => Some(Unsigned(Some(eventType), id, timestamp, json))
  }
}
