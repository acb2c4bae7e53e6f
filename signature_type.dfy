/** The signature tag enumeration and its wire strings. */
module SignatureTypes {
  import opened Wrappers

  datatype SignatureType = V1Asymmetric | V1Symmetric

  /** The enum's backing string (`->value`). */
  function Value(t: SignatureType): (s: string)
    ensures ',' !in s && ' ' !in s
  {
    match t
    case V1Asymmetric => "v1a"
    case V1Symmetric => "v1"
  }

  /** `SignatureType::from`; `None` stands for the `ValueError` it throws on any other string. */
  function From(s: string): (r: Option<SignatureType>)
    ensures r.Some? ==> Value(r.value) == s
    ensures r.None? <==> forall t: SignatureType :: Value(t) != s
  {
    if s == "v1a" then Some(V1Asymmetric)
    else if s == "v1" then Some(V1Symmetric)
    else None
  }

  /** Reading a written tag gives the tag back: the two backing strings are distinct. */
  lemma FromValue(t: SignatureType)
    ensures From(Value(t)) == Some(t)
  {
  }
}
