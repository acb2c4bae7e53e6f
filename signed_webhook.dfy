/** Signed webhooks: an unsigned record promoted by attaching the received or produced tokens. */
module SignedWebhooks {
  import opened Wrappers
  import opened Time
  import opened JsonValues
  import opened Encoding
  import opened Webhooks

  /** `SignedWebhook::createFromUnsigned`: base fields copied, tokens stored verbatim. */
  function CreateFromUnsigned(w: Webhook, signatures: seq<string>): (r: Webhook)
    ensures r.Signed?
    ensures r.eventType == w.eventType && r.id == w.id && r.timestamp == w.timestamp && r.json == w.json
    ensures r.signatures == signatures
  {
    Signed(w.eventType, w.id, w.timestamp, w.json, signatures)
  }

  /** `SignedWebhook::create`: the body is built from type, timestamp and data only. */
  function Create(fmt: Codecs, eventType: string, id: string, timestamp: Instant, data: Json,
                  metadata: Fields, pretty: bool, signatures: seq<string>): (r: Option<Webhook>)
    ensures r.Some? <==> BuildJson(fmt, eventType, timestamp, data, [], false).Some?
    ensures r.Some? ==> r.value.Signed? && r.value.signatures == signatures
  {
    match BuildJson(fmt, eventType, timestamp, data, [], false)
    case None => None
    case Some(json) => Some(Signed(Some(eventType), id, timestamp, json, signatures))
  }

  /**
   * Creating a signed webhook ignores the metadata and pretty-print arguments: it is the
   * unsigned webhook built without metadata, compactly, then promoted.
   */
  lemma CreateIsPromotedPlainCreate(fmt: Codecs, eventType: string, id: string, timestamp: Instant, data: Json,
                                    metadata: Fields, pretty: bool, signatures: seq<string>)
    ensures Create(fmt, eventType, id, timestamp, data, metadata, pretty, signatures) ==
      match Webhooks.Create(fmt, eventType, id, timestamp, data, [], false)
      case None => None
      case Some(w) => Some(CreateFromUnsigned(w, signatures))
  {
  }
}
