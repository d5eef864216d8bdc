/** Shared vocabulary: optional values, results, octet strings and Go's 64-bit integers. */
module Base {

  datatype Option<+T> = None | Some(value: T)

  datatype Result<+T, +E> = Ok(value: T) | Err(error: E) {
    predicate IsFailure() { Err? }
    function PropagateFailure<U>(): Result<U, E> requires Err? { Err(error) }
    function Extract(): T requires Ok? { value }
  }

  /** Go strings and byte slices are both sequences of octets; an octet is a character below 256. */
  type Octet = c: char | c as int < 256
  type Bytes = seq<Octet>

  type Hash32 = s: Bytes | |s| == 32 witness seq(32, _ => '\0')

  /** Both hash functions stay uninterpreted: every theorem holds for any choice of them. */
  datatype Crypto = Crypto(hmac: (Hash32, Bytes) -> Hash32, sha256: Bytes -> Hash32)

  /** The asset, as amounts and payment entries spell it. */
  const DCR: Bytes := "DCR"

  const MAX_INT64: int := 0x7FFF_FFFF_FFFF_FFFF
  const MIN_INT64: int := -0x8000_0000_0000_0000

  predicate InInt64(x: int) { MIN_INT64 <= x <= MAX_INT64 }

  /** Two's-complement truncation to 64 bits. */
  function Wrap64(x: int): (w: int)
    ensures InInt64(w)
    ensures InInt64(x) ==> w == x
  {
    if InInt64(x) then x else (x + 0x8000_0000_0000_0000) % 0x1_0000_0000_0000_0000 - 0x8000_0000_0000_0000
  }

  function Map<A, B>(f: A -> B, xs: seq<A>): (ys: seq<B>)
    ensures |ys| == |xs| && forall i :: 0 <= i < |xs| ==> ys[i] == f(xs[i])
  {
    if xs == [] then [] else [f(xs[0])] + Map(f, xs[1..])
  }

  lemma MapAppend<A, B>(f: A -> B, a: seq<A>, b: seq<A>)
    ensures Map(f, a + b) == Map(f, a) + Map(f, b)
  {
  }
}
