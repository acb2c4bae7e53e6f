/**
 * The cryptographic primitives, passed in as values. An asymmetric keypair is named by
 * `pair`: `sign` uses its secret half and `verify` its public half (Halite
 * `Asymmetric\Crypto::sign`/`verify`). `hmacSha256` is `hash_hmac('sha256', m, k, true)`
 * (RFC 2104) and `base64` is `base64_encode` (section 4 of RFC 4648). Halite's `verify`
 * throws `InvalidSignature` unless the signature text decodes (URL-safe base64) to exactly
 * 64 bytes; `wellFormed` is that test, and `verify` is consulted only when it holds.
 * Constant-time comparison (`hash_equals`) is ordinary equality here.
 */
module Crypto {

  datatype Primitives = Primitives(
    hmacSha256: (string, string) -> string,   // (key material, message) -> raw digest
    base64: string -> string,
    sign: (string, string) -> string,         // (message, pair) -> signature
    verify: (string, string, string) -> bool, // (message, pair, signature)
    wellFormed: string -> bool)               // signature text decodes to the 64 bytes of a signature

  /**
   * A signature made with a keypair's secret half is well formed and verifies under its
   * public half.
   */
  ghost predicate SignThenVerify(c: Primitives)
  {
    forall m, p :: c.wellFormed(c.sign(m, p)) && c.verify(m, p, c.sign(m, p))
  }

  /** Idealised unforgeability: a produced signature verifies only for its own message and keypair. */
  ghost predicate SignaturesBind(c: Primitives)
  {
    forall m, p, m', p' :: c.verify(m, p, c.sign(m', p')) ==> m == m' && p == p'
  }

  /** Idealised collision resistance of the encoded HMAC. */
  ghost predicate MacsBind(c: Primitives)
  {
    forall k, m, k', m' :: c.base64(c.hmacSha256(k, m)) == c.base64(c.hmacSha256(k', m')) ==> k == k' && m == m'
  }

  /** Base64 text and Halite's (base64url) signatures contain no space. */
  ghost predicate SpaceFree(c: Primitives)
  {
    && (forall raw :: ' ' !in c.base64(raw))
    && (forall m, p :: ' ' !in c.sign(m, p))
  }
}
