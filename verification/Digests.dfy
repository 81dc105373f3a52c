/**
  SHA-256 seen from outside. A digest function is any total function on contents.
  No infinite family of contents fits injectively into 64 characters, so binding results never assume
  global injectivity: they name the finite set of contents that were actually hashed and assume only
  that no two of those collide.
 */
module Digests {

  /** Contents of a file or a text, one character per byte. */
  type Bytes = string

  type Hash = Bytes -> string

  const DIGEST_LENGTH := 64

  function Zeros(n: nat): (r: string)
    ensures |r| == n && forall i :: 0 <= i < n ==> r[i] == '0'
  {
    if n == 0 then [] else ['0'] + Zeros(n - 1)
  }

  /** 64 zeros: the root of an empty tree and the genesis link. */
  const ZERO_DIGEST: string := Zeros(DIGEST_LENGTH)

  predicate IsHexDigit(c: char) {
    '0' <= c <= '9' || 'a' <= c <= 'f'
  }

  ghost predicate IsHex(s: string) {
    forall i :: 0 <= i < |s| ==> IsHexDigit(s[i])
  }

  /** Every digest is 64 hexadecimal characters, as `hexdigest` promises. */
  ghost predicate HexDigests(h: Hash) {
    forall s :: |h(s)| == DIGEST_LENGTH && IsHex(h(s))
  }

  /** No two of the listed contents share a digest. */
  ghost predicate NoCollision(h: Hash, hashed: set<Bytes>) {
    forall x, y :: x in hashed && y in hashed && h(x) == h(y) ==> x == y
  }

  lemma EqualDigestsEqualContents(h: Hash, hashed: set<Bytes>, x: Bytes, y: Bytes)
    requires NoCollision(h, hashed) && x in hashed && y in hashed && h(x) == h(y)
    ensures x == y
  {
  }
}
