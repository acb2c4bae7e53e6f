/**
 * The sending side: headers and body of an outgoing webhook request. The builder shares one
 * Signer for its whole life; adding keys changes that Signer in place.
 */
module RequestBuilding {
  import opened Wrappers
  import opened Text
  import opened Time
  import opened Crypto
  import opened Keys
  import opened Webhooks
  import opened Errors
  import opened Signing

  const ContentType: string := "application/json; charset=utf-8"

  /** Header names; PSR-7 header lookup is case-insensitive, and these are all lower case. */
  const IdHeader: string := "webhook-id"
  const TimestampHeader: string := "webhook-timestamp"
  const SignatureHeader: string := "webhook-signature"
  const ContentTypeHeader: string := "content-type"
  const ContentLengthHeader: string := "content-length"

  class RequestBuilder {
    const signer: Signer

    ghost predicate Valid()
      reads this, signer
    {
      signer.Valid()
    }

    constructor()
      ensures Valid() && fresh(signer) && signer.signingKeys == []
    {
      signer := new Signer();
    }

    /**
     * `withKeys`: adds the keys to the shared Signer and returns this builder; a key that
     * cannot sign stops the addition with an error, keeping the keys before it.
     */
    method WithKeys(keys: seq<Key>) returns (r: Result<RequestBuilder, Error>)
      requires Valid()
      requires forall i :: 0 <= i < |keys| ==> !keys[i].AsymmetricPublic?
      modifies signer
      ensures Valid()
      ensures r == (if SigningPrefix(keys) == |keys| then Ok(this) else Err(NotSigningKey))
      ensures signer.signingKeys == old(signer.signingKeys) + Entries(keys[..SigningPrefix(keys)])
    {
      var added := signer.AddKeys(keys);
      if added.Fail? {
        return Err(added.error);
      }
      return Ok(this);
    }

    /**
     * `withKey`: a one-key `withKeys`; the parameter type admits any symmetric secret key
     * (so an encryption key reaches the Signer's check) and asymmetric signature secret keys.
     */
    method WithKey(key: Key) returns (r: Result<RequestBuilder, Error>)
      requires Valid()
      requires key.Symmetric? || (key.AsymmetricSecret? && key.signing)
      modifies signer
      ensures Valid()
      ensures r == (if key.signing then Ok(this) else Err(NotSigningKey))
      ensures signer.signingKeys == old(signer.signingKeys) + (if key.signing then [KeyEntry(TypeForKey(key), key)] else [])
    {
      r := WithKeys([key]);
      assert [key][..SigningPrefix([key])] == if key.signing then [key] else [];
    }

    /**
     * `buildHeaders`: content type, byte length of the body (`strlen`: the json is a byte
     * string, one `char` per byte), id and whole-second timestamp always; the space-separated tokens only when the Signer holds keys, in which case an id
     * holding a period is refused.
     */
    function BuildHeaders(c: Primitives, w: Webhook): (r: Result<map<string, string>, Error>)
      reads this, signer
      requires Valid()
      ensures r.Err? <==> signer.HasKeys() && '.' in w.id
      ensures r.Err? ==> r.error == IdContainsPeriod
      ensures r.Ok? ==>
        && r.value.Keys == {ContentTypeHeader, ContentLengthHeader, IdHeader, TimestampHeader}
                           + (if signer.HasKeys() then {SignatureHeader} else {})
        && r.value[ContentTypeHeader] == ContentType
        && r.value[ContentLengthHeader] == IntToDecimal(|w.json|)
        && ParseDecimal(r.value[ContentLengthHeader]) == Some(|w.json|)
        && r.value[IdHeader] == w.id
        && r.value[TimestampHeader] == IntToDecimal(Seconds(w.timestamp))
        && ParseDecimal(r.value[TimestampHeader]) == Some(Seconds(w.timestamp))
        && (signer.HasKeys() ==> r.value[SignatureHeader] == Implode(signer.BuildSignatures(c, w).value, ' '))
    {
      DecimalRoundTrip(|w.json|);
      DecimalRoundTrip(Seconds(w.timestamp));
      var headers := map[
        ContentTypeHeader := ContentType,
        ContentLengthHeader := IntToDecimal(|w.json|),
        IdHeader := w.id,
        TimestampHeader := IntToDecimal(Seconds(w.timestamp))];
      if !signer.HasKeys() then Ok(headers)
      else
        match signer.BuildSignatures(c, w)
        case Err(e) => Err(e)
        case Ok(tokens) => Ok(headers[SignatureHeader := Implode(tokens, ' ')])
    }

    /** `buildBody`: the webhook's stored JSON, verbatim, so its length is what `content-length` announces. */
    function BuildBody(w: Webhook): (body: string)
      ensures body == w.json
    {
      w.json
    }
  }
}
