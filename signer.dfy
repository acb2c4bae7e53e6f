/**
 * Signing: the signable message, one signature per held key, and the Signer that keeps
 * an append-only list of (tag, key) entries.
 */
module Signing {
  import opened Wrappers
  import opened Text
  import opened Time
  import opened Crypto
  import opened SignatureTypes
  import opened Keys
  import opened Webhooks
  import opened Errors

  /** `buildSignatureMessage`: `id "." seconds "." json`, refused when the id holds a period. */
  function Message(w: Webhook): (r: Result<string, Error>)
    ensures r.Err? <==> '.' in w.id
    ensures r.Err? ==> r.error == IdContainsPeriod
  {
    if '.' in w.id then Err(IdContainsPeriod)
    else Ok(w.id + "." + IntToDecimal(Seconds(w.timestamp)) + "." + w.json)
  }

  /**
   * The message decodes uniquely: cutting at the first period gives the id, cutting the rest
   * at its first period gives the decimal seconds, and what remains is the json verbatim.
   */
  lemma MessageDecodes(w: Webhook)
    requires Message(w).Ok?
    ensures var m := Message(w).value;
      && CutAtFirst(m, '.').Some?
      && CutAtFirst(m, '.').value.0 == w.id
      && var rest := CutAtFirst(m, '.').value.1;
      && CutAtFirst(rest, '.').Some?
      && ParseDecimal(CutAtFirst(rest, '.').value.0) == Some(Seconds(w.timestamp))
      && CutAtFirst(rest, '.').value.1 == w.json
  {
    var dec := IntToDecimal(Seconds(w.timestamp));
    assert '.' !in dec;
    CutAtFirstOf(w.id, '.', dec + "." + w.json);
    assert Message(w).value == w.id + ['.'] + (dec + "." + w.json);
    CutAtFirstOf(dec, '.', w.json);
    assert dec + "." + w.json == dec + ['.'] + w.json;
    DecimalRoundTrip(Seconds(w.timestamp));
  }

  /** Two webhooks share a message only if they agree on id, whole seconds and json. */
  lemma MessageInjective(w: Webhook, w': Webhook)
    requires Message(w).Ok? && Message(w').Ok?
    requires Message(w).value == Message(w').value
    ensures w.id == w'.id && Seconds(w.timestamp) == Seconds(w'.timestamp) && w.json == w'.json
  {
    MessageDecodes(w);
    MessageDecodes(w');
  }

  /** The key kind each tag signs with (the `\assert` in the two signature builders). */
  predicate SignsAs(t: SignatureType, key: Key)
  {
    match t
    case V1Symmetric => key.Symmetric?
    case V1Asymmetric => key.AsymmetricSecret?
  }

  /** The `v1` signature: base64 of the raw HMAC-SHA256 of the message under the raw key material. */
  function SymmetricSignature(c: Primitives, material: string, message: string): (s: string)
    ensures SpaceFree(c) ==> ' ' !in s
    ensures MacsBind(c) ==> forall k, m :: c.base64(c.hmacSha256(k, m)) == s ==> k == material && m == message
  {
    c.base64(c.hmacSha256(material, message))
  }

  /** `Signer::buildSignature`. */
  function BuildSignature(c: Primitives, w: Webhook, t: SignatureType, key: Key): (r: Result<string, Error>)
    requires SignsAs(t, key)
    ensures r.Err? <==> '.' in w.id
    ensures r.Err? ==> r.error == IdContainsPeriod
    ensures r.Ok? && t == V1Symmetric ==> r.value == SymmetricSignature(c, key.material, Message(w).value)
    ensures r.Ok? && t == V1Asymmetric ==> r.value == c.sign(Message(w).value, key.pair)
  {
    match Message(w)
    case Err(e) => Err(e)
    case Ok(m) =>
      match t
      case V1Asymmetric => Ok(c.sign(m, key.pair))
      case V1Symmetric => Ok(SymmetricSignature(c, key.material, m))
  }

  /** The wire token `"<tag>,<signature>"`: cutting it at its first comma gives the tag and the whole signature back. */
  function Token(t: SignatureType, signature: string): (token: string)
    ensures CutAtFirst(token, ',') == Some((Value(t), signature))
  {
    CutAtFirstOf(Value(t), ',', signature);
    assert Value(t) + "," + signature == Value(t) + [','] + signature;
    Value(t) + "," + signature
  }

  /** An entry a Signer may hold: a signing key of a kind that signs, tagged by `getTypeForKey`. */
  predicate SignerEntry(e: KeyEntry)
  {
    e.sigType == TypeForKey(e.key) && SignsAs(e.sigType, e.key) && e.key.signing
  }

  /** The `array_map` over held keys: one token per entry, in entry order. */
  function Tokens(c: Primitives, w: Webhook, entries: seq<KeyEntry>): (r: Result<seq<string>, Error>)
    requires forall i :: 0 <= i < |entries| ==> SignsAs(entries[i].sigType, entries[i].key)
    ensures r.Err? <==> entries != [] && '.' in w.id
    ensures r.Err? ==> r.error == IdContainsPeriod
    ensures r.Ok? ==> |r.value| == |entries|
    ensures r.Ok? ==> forall i :: 0 <= i < |entries| ==>
      r.value[i] == Token(entries[i].sigType, BuildSignature(c, w, entries[i].sigType, entries[i].key).value)
  {
    if entries == [] then Ok([])
    else
      match BuildSignature(c, w, entries[0].sigType, entries[0].key)
      case Err(e) => Err(e)
      case Ok(s) =>
        match Tokens(c, w, entries[1..])
        case Err(e) => Err(e)
        case Ok(rest) => Ok([Token(entries[0].sigType, s)] + rest)
  }

  /** Length of the longest prefix of `keys` made of signing keys. */
  function SigningPrefix(keys: seq<Key>): (n: nat)
    ensures n <= |keys|
    ensures forall j :: 0 <= j < n ==> keys[j].signing
    ensures n < |keys| ==> !keys[n].signing
  {
    if keys == [] || !keys[0].signing then 0 else 1 + SigningPrefix(keys[1..])
  }

  class Signer {
    var signingKeys: seq<KeyEntry>

    ghost predicate Valid()
      reads this
    {
      forall i :: 0 <= i < |signingKeys| ==> SignerEntry(signingKeys[i])
    }

    constructor()
      ensures Valid() && signingKeys == []
    {
      signingKeys := [];
    }

    function HasKeys(): (b: bool)
      reads this
      ensures b <==> |signingKeys| > 0
    {
      signingKeys != []
    }

    /**
     * `addKeys`: appends each key with its tag; throws on the first key that is not a signing
     * key, leaving the keys before it in the same call appended.
     */
    method AddKeys(keys: seq<Key>) returns (r: Outcome<Error>)
      requires Valid()
      requires forall i :: 0 <= i < |keys| ==> !keys[i].AsymmetricPublic?
      modifies this
      ensures Valid()
      ensures r == if SigningPrefix(keys) == |keys| then Pass else Fail(NotSigningKey)
      ensures signingKeys == old(signingKeys) + Entries(keys[..SigningPrefix(keys)])
    {
      var i := 0;
      while i < |keys|
        invariant 0 <= i <= SigningPrefix(keys)
        invariant Valid()
        invariant signingKeys == old(signingKeys) + Entries(keys[..i])
      {
        if !keys[i].signing {
          return Fail(NotSigningKey);
        }
        signingKeys := signingKeys + [KeyEntry(TypeForKey(keys[i]), keys[i])];
        assert Entries(keys[..i + 1]) == Entries(keys[..i]) + [KeyEntry(TypeForKey(keys[i]), keys[i])];
        i := i + 1;
      }
      assert keys[..i] == keys;
      return Pass;
    }

    /**
     * `buildSignatures`: fails without keys, fails when the id holds a period, and otherwise
     * yields one `"<tag>,<signature>"` token per held key, in the order the keys were added.
     */
    function BuildSignatures(c: Primitives, w: Webhook): (r: Result<seq<string>, Error>)
      reads this
      requires Valid()
      ensures signingKeys == [] ==> r == Err(NoSigningKeys)
      ensures signingKeys != [] ==> (r.Ok? <==> '.' !in w.id)
      ensures signingKeys != [] && r.Err? ==> r.error == IdContainsPeriod
      ensures r.Ok? ==> |r.value| == |signingKeys|
      ensures r.Ok? ==> forall i :: 0 <= i < |signingKeys| ==>
        r.value[i] == Token(signingKeys[i].sigType, BuildSignature(c, w, signingKeys[i].sigType, signingKeys[i].key).value)
    {
      if signingKeys == [] then Err(NoSigningKeys) else Tokens(c, w, signingKeys)
    }
  }
}
