/**
 * Key material and the key -> tag mapping. Halite key classes become three cases; `signing`
 * is Halite's `isSigningKey()` (true for authentication and signature keys, false for
 * encryption keys). An asymmetric key names its keypair, so the two halves of one keypair
 * share `pair`.
 */
module Keys {
  import opened SignatureTypes

  datatype Key =
    | Symmetric(material: string, signing: bool)      // Halite\Symmetric\SecretKey
    | AsymmetricSecret(pair: string, signing: bool)   // Halite\Asymmetric\SecretKey
    | AsymmetricPublic(pair: string, signing: bool)   // Halite\Asymmetric\PublicKey

  /** `getTypeForKey`: asymmetric halves are `v1a`, symmetric secrets are `v1`. */
  function TypeForKey(k: Key): (t: SignatureType)
    ensures t == V1Symmetric <==> k.Symmetric?
    ensures t == V1Asymmetric <==> (k.AsymmetricSecret? || k.AsymmetricPublic?)
  {
    match k
    case AsymmetricPublic(_, _) => V1Asymmetric
    case AsymmetricSecret(_, _) => V1Asymmetric
    case Symmetric(_, _) => V1Symmetric
  }

  /** One held key with the tag computed when it was added (`['type' => ..., 'key' => ...]`). */
  datatype KeyEntry = KeyEntry(sigType: SignatureType, key: Key)

  /** The entries `addKeys` appends for `keys`, in order. */
  function Entries(keys: seq<Key>): (r: seq<KeyEntry>)
    ensures |r| == |keys|
    ensures forall i :: 0 <= i < |keys| ==> r[i].key == keys[i] && r[i].sigType == TypeForKey(keys[i])
  {
    seq(|keys|, i requires 0 <= i < |keys| => KeyEntry(TypeForKey(keys[i]), keys[i]))
  }

  /** The secret and public halves of one keypair get the same tag. */
  lemma KeypairHalvesAgree(pair: string, secretSigning: bool, publicSigning: bool)
    ensures TypeForKey(AsymmetricSecret(pair, secretSigning)) == TypeForKey(AsymmetricPublic(pair, publicSigning))
  {
  }
}
