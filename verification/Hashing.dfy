/** What is assumed of SHA-256: every output is 64 lower-case hex digits. Collision resistance is
    never assumed of the whole function, which has infinitely many inputs and finitely many
    outputs; a theorem that needs it asks for it on the finite set of strings that the
    computations in question hash. */
module Hashing {

  const DIGEST_LENGTH := 64

  predicate IsHexDigit(c: char) {
    '0' <= c <= '9' || 'a' <= c <= 'f'
  }

  predicate IsDigest(s: string) {
    |s| == DIGEST_LENGTH && forall i :: 0 <= i < |s| ==> IsHexDigit(s[i])
  }

  ghost predicate ProducesDigests(h: string -> string) {
    forall s :: IsDigest(h(s))
  }

  type HashFn = h: string -> string | ProducesDigests(h)
    ghost witness (s: string) => seq(DIGEST_LENGTH, _ => '0')

  /** No two different strings among `inputs` have the same hash. */
  ghost predicate CollisionFreeOn(h: HashFn, inputs: set<string>) {
    forall x, y :: x in inputs && y in inputs && h(x) == h(y) ==> x == y
  }
}
