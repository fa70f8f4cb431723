/** Identities and detached signatures, as far as the evidence modules rely on them: what a key
    signs verifies under its public key, signatures are never empty, and a DID names its key. */
module Signing {
  import opened Common

  datatype Scheme = Scheme(
    sign: (string, string) -> string,
    verify: (string, string, string) -> bool,
    publicKeyOf: string -> string,
    createDid: string -> string,
    parseDid: string -> Option<string>)

  ghost predicate Lawful(s: Scheme) {
    (forall m, k :: s.verify(m, s.sign(m, k), s.publicKeyOf(k))) &&
    (forall m, k :: s.sign(m, k) != "") &&
    (forall k :: s.parseDid(s.createDid(s.publicKeyOf(k))) == Some(s.publicKeyOf(k)))
  }

  type SignatureScheme = s: Scheme | Lawful(s)
    ghost witness Scheme((m, k) => "s", (m, g, p) => true, k => k, p => p, d => Some(d))

  datatype Identity = Identity(secretKey: string) {
    function PublicKey(s: SignatureScheme): string { s.publicKeyOf(secretKey) }
    function Did(s: SignatureScheme): string { s.createDid(PublicKey(s)) }
    function Sign(s: SignatureScheme, payload: string): string { s.sign(payload, secretKey) }
    predicate Verify(s: SignatureScheme, payload: string, sig: string) { s.verify(payload, sig, PublicKey(s)) }
  }
}
