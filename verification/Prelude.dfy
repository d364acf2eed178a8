/** Shared vocabulary: optional values, results that carry the source's error, addresses. */
module Prelude {
  datatype Option<+T> = None | Some(value: T)

  /** The source's return value, or the exception it raises instead. */
  datatype Result<+T> = Ok(value: T) | Err(reason: string)

  /** An address is the number its hex digits denote, so letter case never matters. */
  type Addr = nat

  function Min(a: int, b: int): int { if a <= b then a else b }

  function Max(a: int, b: int): int { if a >= b then a else b }

  function RealMin(a: real, b: real): real { if a <= b then a else b }

  function RealMax(a: real, b: real): real { if a >= b then a else b }

  function Abs(x: real): real { if x < 0.0 then -x else x }

  /** Rounding to the nearest integer, halves to the even neighbour: Python's and numpy's rule. */
  function Round(x: real): (n: int)
    ensures Abs(x - n as real) <= 0.5
    ensures Abs(x - n as real) == 0.5 ==> n % 2 == 0
  {
    var f := x.Floor;
    var d := x - f as real;
    if d < 0.5 then f
    else if d > 0.5 then f + 1
    else if f % 2 == 0 then f else f + 1
  }

  /** Rounding never crosses an integer. */
  lemma RoundBetween(x: real, lo: int, hi: int)
    requires lo as real <= x <= hi as real
    ensures lo <= Round(x) <= hi
  {
  }

  lemma MulMono(x: int, y: int, k: int)
    requires x <= y && k >= 0
    ensures x * k <= y * k
  {
  }

  lemma SmallMultiple(x: int, k: int)
    requires -k < x * k < k
    ensures x == 0
  {
    if x >= 1 {
      MulMono(1, x, k);
    } else if x <= -1 {
      MulMono(x, -1, k);
    }
  }

  /** Quotient and remainder are unique. */
  lemma DivModUnique(x: int, p: int, r: int, k: int)
    requires k > 0 && x == p * k + r && 0 <= r < k
    ensures x / k == p && x % k == r
  {
    var q, t := x / k, x % k;
    assert x == q * k + t;
    assert (q - p) * k == r - t;
    SmallMultiple(q - p, k);
  }

  function Pow2(n: nat): (p: nat)
    ensures p >= 1
  {
    if n == 0 then 1 else 2 * Pow2(n - 1)
  }

  /** The number of elements of an array of this shape. */
  function Product(shape: seq<nat>): nat {
    if shape == [] then 1 else shape[0] * Product(shape[1..])
  }

  /** numpy's `ascontiguousarray`: an array of no dimensions comes back with one. */
  function Contiguous(shape: seq<nat>): seq<nat> { if shape == [] then [1] else shape }

  lemma ContiguousProduct(shape: seq<nat>)
    ensures Product(Contiguous(shape)) == Product(shape)
    ensures Contiguous(shape) == shape <==> shape != []
  {
    if shape == [] {
      assert [1][1..] == [];
    }
  }

  function Zeros(n: nat): (r: seq<real>)
    ensures |r| == n && forall i :: 0 <= i < n ==> r[i] == 0.0
  {
    seq(n, i => 0.0)
  }
}
