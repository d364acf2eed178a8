/** The trunk-delta codec of neurahash/delta_codec.py: top-k quantization, gap encoding, nibble packing and the
    error-feedback residual.  Values are exact reals; the arrays the payload carries are modelled entry by
    entry, and the npz container is the datatype `Payload`. */
module DeltaCodec {
  import opened Prelude
  import opened Sorting
  import opened Float32
  import opened TopK

  const MAGIC := "NHQ8"
  const VERSION := 1
  const VERSION_INT4 := 2

  // ---------------------------------------------------------------- quantizing one tensor

  datatype Quantized = Quantized(idx: seq<nat>, q: seq<int>, scale: real)

  predicate SupportedBits(bits: int) { bits == 4 || bits == 8 }

  function QMax(bits: int): int { if bits == 8 then 127 else 7 }

  /** k = min(max(1, round(fraction * n)), n) */
  function KeepCount(fraction: real, n: nat): (k: nat)
    requires n > 0
    ensures 1 <= k <= n
  {
    Min(Max(1, Round(fraction * n as real)), n)
  }

  /** k is `wanted` rounded to nearest, halves to even, but at least one and at most n. */
  predicate Nearest(k: int, wanted: real, n: nat) {
    if wanted <= 0.5 then k == 1
    else if wanted >= n as real then k == n
    else Abs(k as real - wanted) < 0.5 || (Abs(k as real - wanted) == 0.5 && k % 2 == 0)
  }

  lemma ClampExactly(wanted: real, n: nat, k: int)
    requires n > 0
    ensures k == Min(Max(1, Round(wanted)), n) <==> Nearest(k, wanted, n)
    ensures 0.5 <= wanted <= n as real ==> Abs(Min(Max(1, Round(wanted)), n) as real - wanted) <= 0.5
  {
    var r := Round(wanted);
    hide Round;
    if wanted <= 0.5 {
      assert r <= 1;
    } else if wanted >= n as real {
      assert r >= n;
    } else {
      assert 1 <= r <= n;
      NearestUnique(wanted, r, k);
    }
  }

  lemma NearestUnique(x: real, r: int, k: int)
    requires Abs(x - r as real) <= 0.5 && (Abs(x - r as real) == 0.5 ==> r % 2 == 0)
    ensures k == r <==> Abs(k as real - x) < 0.5 || (Abs(k as real - x) == 0.5 && k % 2 == 0)
  {
    if Abs(k as real - x) <= 0.5 {
      assert -1 <= k - r <= 1;
    }
  }

  lemma ClampEnds(wanted: real, n: nat)
    requires n > 0
    ensures wanted < 0.5 ==> Min(Max(1, Round(wanted)), n) == 1
    ensures wanted >= n as real ==> Min(Max(1, Round(wanted)), n) == n
  {
  }

  lemma KeepCountIs(fraction: real, n: nat, wanted: real)
    requires n > 0 && wanted == fraction * n as real
    ensures KeepCount(fraction, n) == Min(Max(1, Round(wanted)), n)
    ensures fraction >= 1.0 ==> wanted >= n as real
  {
    hide *;
    KeepCountBody(fraction, n);
    if fraction >= 1.0 {
      assert wanted - n as real == (fraction - 1.0) * n as real >= 0.0;
    }
  }

  lemma KeepCountBody(fraction: real, n: nat)
    requires n > 0
    ensures KeepCount(fraction, n) == Min(Max(1, Round(fraction * n as real)), n)
  {
    hide Round, Min, Max;
  }

  /** The kept count is the one number within a half of the wanted fraction, one below that, and all of them from
      fraction 1 on. */
  lemma KeepCountExactly(fraction: real, n: nat, wanted: real, k: int)
    requires n > 0 && wanted == fraction * n as real
    ensures k == KeepCount(fraction, n) <==> Nearest(k, wanted, n)
    ensures 0.5 <= wanted <= n as real ==> Abs(KeepCount(fraction, n) as real - wanted) <= 0.5
    ensures wanted < 0.5 ==> KeepCount(fraction, n) == 1
    ensures fraction >= 1.0 ==> KeepCount(fraction, n) == n
  {
    hide *;
    KeepCountIs(fraction, n, wanted);
    ClampExactly(wanted, n, k);
    ClampEnds(wanted, n);
  }

  function MaxAbs(vals: seq<real>): (m: real)
    ensures m >= 0.0
    ensures forall i :: 0 <= i < |vals| ==> Abs(vals[i]) <= m
    ensures vals != [] ==> exists i :: 0 <= i < |vals| && Abs(vals[i]) == m
  {
    if vals == [] then 0.0
    else
      var n := |vals| - 1;
      var m := MaxAbs(vals[..n]);
      if Abs(vals[n]) >= m then assert Abs(vals[n]) == Abs(vals[n]); Abs(vals[n])
      else
        assert vals[..n] != [];
        m
  }

  function Clip(x: int, lo: int, hi: int): int { Min(Max(x, lo), hi) }

  function QuantizeValue(v: real, scale: real, qmax: int): int
    requires scale > 0.0
  {
    Clip(Round(v / scale), -qmax, qmax)
  }

  function Gather(a: seq<Float32>, idx: seq<nat>): (vals: seq<real>)
    requires forall i :: 0 <= i < |idx| ==> idx[i] < |a|
    ensures |vals| == |idx|
  {
    seq(|idx|, i requires 0 <= i < |idx| => Value(a[idx[i]]))
  }

  function QuantizeAll(vals: seq<real>, scale: real, qmax: int): (q: seq<int>)
    requires scale > 0.0
    ensures |q| == |vals|
    ensures forall i :: 0 <= i < |vals| ==> q[i] == QuantizeValue(vals[i], scale, qmax)
  {
    if vals == [] then []
    else QuantizeAll(vals[..|vals| - 1], scale, qmax) + [QuantizeValue(vals[|vals| - 1], scale, qmax)]
  }

  /** The grid step: the largest kept magnitude over the number of steps. */
  function ScaleFor(maxAbs: real, bits: int): (scale: real)
    requires maxAbs > 0.0 && SupportedBits(bits)
    ensures scale > 0.0
  {
    if bits == 8 then maxAbs / 127.0 else maxAbs / 7.0
  }

  /** The grid a list of kept values is rounded to. */
  function QuantizeValues(idx: seq<nat>, vals: seq<real>, bits: int): (z: Quantized)
    requires |idx| == |vals| && SupportedBits(bits)
    ensures z.idx == idx && |z.q| == |idx| && z.scale > 0.0
  {
    if MaxAbs(vals) == 0.0 then Quantized(idx, seq(|idx|, i => 0), 1.0)
    else
      var scale := ScaleFor(MaxAbs(vals), bits);
      Quantized(idx, QuantizeAll(vals, scale, QMax(bits)), scale)
  }

  function KeptIndices(a: seq<Float32>, fraction: real): (idx: seq<nat>)
    ensures forall i :: 0 <= i < |idx| ==> idx[i] < |a|
    ensures Ascending(idx)
  {
    if a == [] then []
    else
      var idx := TopIndices(Keys(a), KeepCount(fraction, |a|));
      TopIndicesMembers(Keys(a), KeepCount(fraction, |a|), |a|);
      assert forall i :: 0 <= i < |idx| ==> idx[i] in idx;
      idx
  }

  /** What `quantize_topk` returns. */
  function QuantizeTensor(a: seq<Float32>, fraction: real, bits: int): (z: Quantized)
    requires SupportedBits(bits)
    ensures z.idx == KeptIndices(a, fraction) && |z.q| == |z.idx| && z.scale > 0.0
  {
    var idx := KeptIndices(a, fraction);
    QuantizeValues(idx, Gather(a, idx), bits)
  }

  method QuantizeTopk(a: seq<Float32>, fraction: real, bits: int, chunk: nat) returns (r: Result<Quantized>)
    requires chunk > 0
    ensures r.Ok? <==> SupportedBits(bits)
    ensures r.Ok? ==> r.value == QuantizeTensor(a, fraction, bits)
  {
    if !SupportedBits(bits) {
      return Err("bits must be 4 or 8");
    }
    if |a| == 0 {
      return Ok(Quantized([], [], 1.0));
    }
    var k := KeepCount(fraction, |a|);
    var idx := SelectTopK(a, k, chunk);
    assert idx == KeptIndices(a, fraction);
    var vals := Gather(a, idx);
    return Ok(QuantizeValues(idx, vals, bits));
  }

  /** The code word of one kept value times the scale. */
  function Dequantize(z: Quantized, i: nat): real
    requires i < |z.q|
  {
    z.q[i] as real * z.scale
  }

  lemma QuantizeValueAccurate(v: real, scale: real, qmax: int)
    requires scale > 0.0 && qmax >= 0 && Abs(v) <= scale * qmax as real
    ensures Abs(QuantizeValue(v, scale, qmax) as real * scale - v) <= scale / 2.0
    ensures QuantizeValue(v, scale, qmax) == Round(v / scale)
    ensures -qmax <= QuantizeValue(v, scale, qmax) <= qmax
  {
    var x := v / scale;
    assert x * scale == v;
    DivideBound(v, scale, qmax as real);
    RoundBetween(x, -qmax, qmax);
    var n := Round(x) as real;
    ScaleBound(n, x, scale);
  }

  lemma MulStrict(a: real, b: real, s: real)
    requires a < b && s > 0.0
    ensures a * s < b * s
  {
  }

  lemma DivideBound(v: real, s: real, m: real)
    requires s > 0.0 && Abs(v) <= s * m
    ensures -m <= v / s <= m
  {
    var x := v / s;
    assert x * s == v;
    if x > m {
      MulStrict(m, x, s);
    }
    if x < -m {
      MulStrict(x, -m, s);
    }
  }

  lemma ScaleBound(n: real, x: real, s: real)
    requires s > 0.0 && Abs(x - n) <= 0.5
    ensures Abs(n * s - x * s) <= s / 2.0
  {
    var d := n - x;
    var e := n * s - x * s;
    assert e == d * s;
    assert d * s <= 0.5 * s by {
      if d < 0.5 {
        MulStrict(d, 0.5, s);
      }
    }
    assert -0.5 * s <= d * s by {
      if -0.5 < d {
        MulStrict(-0.5, d, s);
      }
    }
    assert -0.5 * s <= e <= 0.5 * s;
  }

  lemma ScaleForExact(maxAbs: real, bits: int)
    requires maxAbs > 0.0 && SupportedBits(bits)
    ensures ScaleFor(maxAbs, bits) * QMax(bits) as real == maxAbs
  {
  }

  lemma ZeroGridAccurate(idx: seq<nat>, vals: seq<real>, bits: int, i: nat)
    requires |idx| == |vals| && SupportedBits(bits) && i < |vals| && MaxAbs(vals) == 0.0
    ensures var z := QuantizeValues(idx, vals, bits); z.q[i] == 0 && z.scale == 1.0 && vals[i] == 0.0
  {
  }

  /** The code word q restores v to within half a step, fits the grid, and restores the largest magnitude
      exactly, from the end of the grid. */
  predicate Accurate(v: real, maxAbs: real, bits: int, scale: real, q: int) {
    && Abs(q as real * scale - v) <= scale / 2.0
    && -QMax(bits) <= q <= QMax(bits)
    && (Abs(v) == maxAbs && maxAbs > 0.0 ==>
          q == (if v > 0.0 then QMax(bits) else -QMax(bits)) && q as real * scale == v)
  }

  lemma GridClose(v: real, maxAbs: real, bits: int, scale: real, q: int)
    requires SupportedBits(bits) && maxAbs > 0.0 && Abs(v) <= maxAbs
    requires scale == ScaleFor(maxAbs, bits) && q == QuantizeValue(v, scale, QMax(bits))
    ensures Abs(q as real * scale - v) <= scale / 2.0 && -QMax(bits) <= q <= QMax(bits)
  {
    hide ScaleFor, QuantizeValue, QMax, Round;
    GridPositive(maxAbs, bits);
    ScaleForExact(maxAbs, bits);
    QuantizeValueAccurate(v, scale, QMax(bits));
  }

  lemma GridPositive(maxAbs: real, bits: int)
    requires SupportedBits(bits) && maxAbs > 0.0
    ensures QMax(bits) > 0 && ScaleFor(maxAbs, bits) > 0.0
  {
  }

  lemma GridLargest(v: real, maxAbs: real, bits: int, scale: real, q: int, end: int)
    requires SupportedBits(bits) && maxAbs > 0.0 && Abs(v) == maxAbs
    requires scale == ScaleFor(maxAbs, bits) && q == QuantizeValue(v, scale, QMax(bits))
    requires end == if v > 0.0 then QMax(bits) else -QMax(bits)
    ensures q == end && q as real * scale == v
  {
    ScaleForExact(maxAbs, bits);
    assert v == scale * end as real;
    GridEnd(v, scale, QMax(bits), end);
  }

  lemma GridAccurate(v: real, maxAbs: real, bits: int, scale: real, q: int)
    requires SupportedBits(bits) && maxAbs > 0.0 && Abs(v) <= maxAbs
    requires scale == ScaleFor(maxAbs, bits) && q == QuantizeValue(v, scale, QMax(bits))
    ensures Accurate(v, maxAbs, bits, scale, q)
  {
    GridClose(v, maxAbs, bits, scale, q);
    if Abs(v) == maxAbs {
      GridLargest(v, maxAbs, bits, scale, q, if v > 0.0 then QMax(bits) else -QMax(bits));
    }
  }

  /** Every kept value of a quantized tensor is accurate. */
  lemma QuantizeAccurate(idx: seq<nat>, vals: seq<real>, bits: int, i: nat)
    requires |idx| == |vals| && SupportedBits(bits) && i < |vals|
    ensures var z := QuantizeValues(idx, vals, bits); Accurate(vals[i], MaxAbs(vals), bits, z.scale, z.q[i])
  {
    if MaxAbs(vals) > 0.0 {
      var z := QuantizeValues(idx, vals, bits);
      GridAccurate(vals[i], MaxAbs(vals), bits, z.scale, z.q[i]);
    } else {
      ZeroGridAccurate(idx, vals, bits, i);
    }
  }

  /** Int8 code words lie in -127..127 with 127 steps up to the largest magnitude, int4 ones in -7..7 with 7; a tensor of
      zeros is coded by zeros with scale 1. */
  lemma GridExactly(idx: seq<nat>, vals: seq<real>, bits: int)
    requires |idx| == |vals| && SupportedBits(bits)
    ensures var z, end := QuantizeValues(idx, vals, bits), if bits == 8 then 127 else 7;
            && (forall i :: 0 <= i < |vals| ==> -end <= z.q[i] <= end)
            && (AllZero(vals) ==> z.scale == 1.0 && forall i :: 0 <= i < |vals| ==> z.q[i] == 0)
            && (!AllZero(vals) ==>
                  && (forall i :: 0 <= i < |vals| ==> Abs(vals[i]) <= z.scale * end as real)
                  && exists i :: 0 <= i < |vals| && Abs(vals[i]) == z.scale * end as real)
  {
    hide *;
    var z := QuantizeValues(idx, vals, bits);
    forall i | 0 <= i < |vals| ensures -QMax(bits) <= z.q[i] <= QMax(bits) {
      QuantizeAccurate(idx, vals, bits, i);
      AccurateInGrid(vals[i], MaxAbs(vals), bits, z.scale, z.q[i]);
    }
    GridEnds(bits);
    ZeroOrNot(vals);
    QuantizedGrid(idx, vals, bits);
  }

  ghost predicate AllZero(vals: seq<real>) { forall i :: 0 <= i < |vals| ==> vals[i] == 0.0 }

  lemma GridEnds(bits: int)
    requires SupportedBits(bits)
    ensures QMax(bits) == if bits == 8 then 127 else 7
  {
  }

  lemma AccurateInGrid(v: real, maxAbs: real, bits: int, scale: real, q: int)
    requires Accurate(v, maxAbs, bits, scale, q)
    ensures -QMax(bits) <= q <= QMax(bits)
  {
  }

  lemma ZeroOrNot(vals: seq<real>)
    ensures AllZero(vals) <==> MaxAbs(vals) == 0.0
    ensures !AllZero(vals) ==> vals != []
  {
    if vals != [] {
      hide MaxAbs;
      var i :| 0 <= i < |vals| && Abs(vals[i]) == MaxAbs(vals);
      assert AllZero(vals) ==> vals[i] == 0.0;
    }
  }

  lemma QuantizedGrid(idx: seq<nat>, vals: seq<real>, bits: int)
    requires |idx| == |vals| && SupportedBits(bits)
    ensures var z := QuantizeValues(idx, vals, bits);
            && (MaxAbs(vals) == 0.0 ==> z.scale == 1.0 && forall i :: 0 <= i < |vals| ==> z.q[i] == 0)
            && (MaxAbs(vals) > 0.0 ==> z.scale * QMax(bits) as real == MaxAbs(vals))
  {
    hide *;
    QuantizeValuesIs(idx, vals, bits);
    if MaxAbs(vals) > 0.0 {
      ScaleForExact(MaxAbs(vals), bits);
    }
  }

  lemma QuantizeValuesIs(idx: seq<nat>, vals: seq<real>, bits: int)
    requires |idx| == |vals| && SupportedBits(bits)
    ensures MaxAbs(vals) == 0.0 ==> QuantizeValues(idx, vals, bits) == Quantized(idx, seq(|idx|, i => 0), 1.0)
    ensures MaxAbs(vals) > 0.0 ==> QuantizeValues(idx, vals, bits).scale == ScaleFor(MaxAbs(vals), bits)
  {
    hide MaxAbs, ScaleFor, QuantizeAll, QMax, SupportedBits;
  }

  lemma GridEnd(v: real, scale: real, qmax: int, end: int)
    requires scale > 0.0 && qmax >= 0 && (end == qmax || end == -qmax)
    requires v == scale * end as real
    ensures QuantizeValue(v, scale, qmax) == end
  {
    DivideExact(v, scale, end as real);
    RoundBetween(end as real, end, end);
  }

  lemma DivideExact(v: real, s: real, m: real)
    requires s > 0.0 && v == s * m
    ensures v / s == m
  {
    assert (v / s) * s == v;
    assert (v / s - m) * s == 0.0;
  }

  // ---------------------------------------------------------------- gaps

  /** np.diff(idx, prepend=0) */
  function Diff(idx: seq<nat>): (gaps: seq<int>)
    ensures |gaps| == |idx|
  {
    seq(|idx|, i requires 0 <= i < |idx| =>
      if i == 0 then idx[0] as int else idx[i] as int - idx[i - 1] as int)
  }

  function Cumsum(gaps: seq<nat>): (s: seq<nat>)
    ensures |s| == |gaps|
  {
    if gaps == [] then []
    else
      var n := |gaps| - 1;
      var front := Cumsum(gaps[..n]);
      front + [if n == 0 then gaps[0] else front[n - 1] + gaps[n]]
  }

  datatype GapArray = GapArray(width: nat, vals: seq<nat>)

  /** astype(uint16) or astype(uint32): the value modulo the width. */
  function Narrow(gaps: seq<int>, width: nat): (r: seq<nat>)
    requires width > 0
    ensures |r| == |gaps|
  {
    seq(|gaps|, i requires 0 <= i < |gaps| => gaps[i] % width)
  }

  function EncodeGaps(idx: seq<nat>): GapArray {
    var gaps := Diff(idx);
    var width := if forall i :: 0 <= i < |gaps| ==> gaps[i] < 0x1_0000 then 0x1_0000 else 0x1_0000_0000;
    GapArray(width, Narrow(gaps, width))
  }

  lemma {:induction false} CumsumDiff(idx: seq<nat>, gaps: seq<nat>)
    requires |gaps| == |idx| && forall i :: 0 <= i < |idx| ==> gaps[i] == Diff(idx)[i]
    ensures Cumsum(gaps) == idx
  {
    if idx != [] {
      var n := |idx| - 1;
      CumsumDiff(idx[..n], gaps[..n]);
    }
  }

  /** Gap encoding loses nothing on any ascending index list below the 2^31 guard. */
  lemma GapsRoundTrip(idx: seq<nat>)
    requires Ascending(idx) && (idx != [] ==> idx[|idx| - 1] < 0x8000_0000)
    ensures Cumsum(EncodeGaps(idx).vals) == idx
  {
    GapsAreDistances(idx);
    CumsumDiff(idx, EncodeGaps(idx).vals);
  }

  /** No distance is lost to the width. */
  lemma GapsAreDistances(idx: seq<nat>)
    requires Ascending(idx) && (idx != [] ==> idx[|idx| - 1] < 0x8000_0000)
    ensures forall i :: 0 <= i < |idx| ==> EncodeGaps(idx).vals[i] == Diff(idx)[i]
  {
    var g := EncodeGaps(idx);
    forall i | 0 <= i < |idx| ensures g.vals[i] == Diff(idx)[i] {
      if i > 0 {
        assert idx[i - 1] < idx[i];
      }
      if i < |idx| - 1 {
        assert idx[i] < idx[|idx| - 1];
      }
      assert 0 <= Diff(idx)[i] < g.width;
    }
  }

  /** What is stored is the first index and then the distances, in 16 bits each when all of them fit, else in 32. */
  lemma GapsExactly(idx: seq<nat>)
    requires Ascending(idx) && (idx != [] ==> idx[|idx| - 1] < 0x8000_0000)
    ensures var g := EncodeGaps(idx);
            && |g.vals| == |idx| && (idx != [] ==> g.vals[0] == idx[0])
            && (forall i :: 0 < i < |idx| ==> g.vals[i] == idx[i] - idx[i - 1])
            && g.width == if forall i :: 0 <= i < |g.vals| ==> g.vals[i] < 0x1_0000 then 0x1_0000 else 0x1_0000_0000
  {
    GapsAreDistances(idx);
    hide Narrow;
  }

  /** And reading takes running sums, of whatever list of gaps. */
  lemma {:induction false} CumsumAt(gaps: seq<nat>, i: nat)
    requires i < |gaps|
    ensures Cumsum(gaps)[i] == (if i == 0 then 0 else Cumsum(gaps)[i - 1]) + gaps[i]
  {
    if i < |gaps| - 1 {
      CumsumAt(gaps[..|gaps| - 1], i);
    }
  }

  // ---------------------------------------------------------------- nibbles

  predicate Nibbles(q: seq<int>) { forall i :: 0 <= i < |q| ==> -7 <= q[i] <= 7 }

  /** `_pack_int4`: bias by 7, pad an odd length with one zero nibble, high nibble first. */
  function PackInt4(q: seq<int>): (p: seq<nat>)
    requires Nibbles(q)
    ensures |p| == (|q| + 1) / 2
    ensures forall i :: 0 <= i < |p| ==> p[i] <= 238
  {
    seq((|q| + 1) / 2, i requires 0 <= i < (|q| + 1) / 2 =>
      (q[2 * i] + 7) * 16 + if 2 * i + 1 < |q| then q[2 * i + 1] + 7 else 0)
  }

  /** What `_unpack_int4` leaves at position i of its output. */
  function NibbleAt(packed: seq<nat>, i: nat): int
    requires i < 2 * |packed|
  {
    var nibble: int := if i % 2 == 0 then packed[i / 2] / 16 else packed[i / 2] % 16;
    nibble - 7
  }

  function UnpackedInt4(packed: seq<nat>, nnz: nat): (q: seq<int>)
    ensures |q| == Min(nnz, 2 * |packed|)
  {
    seq(Min(nnz, 2 * |packed|), i requires 0 <= i < Min(nnz, 2 * |packed|) => NibbleAt(packed, i))
  }

  /** `_unpack_int4`: fill the even slots, then the odd ones, cut to nnz and remove the bias. */
  method UnpackInt4(packed: seq<nat>, nnz: nat) returns (q: seq<int>)
    ensures q == UnpackedInt4(packed, nnz)
  {
    var out := new int[2 * |packed|];
    for i := 0 to |packed|
      invariant forall j :: 0 <= j < i ==> out[2 * j] == packed[j] / 16
    {
      out[2 * i] := packed[i] / 16;
    }
    for i := 0 to |packed|
      invariant forall j :: 0 <= j < |packed| ==> out[2 * j] == packed[j] / 16
      invariant forall j :: 0 <= j < i ==> out[2 * j + 1] == packed[j] % 16
    {
      out[2 * i + 1] := packed[i] % 16;
    }
    var n := Min(nnz, out.Length);
    var cut := out[..n];
    q := seq(n, i requires 0 <= i < n => cut[i] - 7);
    forall i | 0 <= i < n ensures q[i] == NibbleAt(packed, i) {
      var j := i / 2;
      assert i == 2 * j || i == 2 * j + 1;
      assert cut[i] == out[i];
    }
  }

  /** Packing loses nothing, for odd lengths too. */
  lemma PackRoundTrip(q: seq<int>)
    requires Nibbles(q)
    ensures UnpackedInt4(PackInt4(q), |q|) == q
  {
    var p := PackInt4(q);
    forall i | 0 <= i < |q| ensures NibbleAt(p, i) == q[i] {
      var j := i / 2;
      var hi, lo := q[2 * j] + 7, if 2 * j + 1 < |q| then q[2 * j + 1] + 7 else 0;
      assert p[j] == hi * 16 + lo;
      SplitByte(hi, lo);
      assert i == 2 * j || i == 2 * j + 1;
    }
  }

  /** A byte holds two values, each biased by seven: the earlier in the high nibble, the later in the low one, which is
      zero after an odd number of them.  Unpacking reads any bytes that way. */
  lemma NibbleLayout(q: seq<int>, packed: seq<nat>, nnz: nat)
    requires Nibbles(q)
    ensures forall j :: 0 <= j < |PackInt4(q)| ==>
              PackInt4(q)[j] == 16 * (q[2 * j] + 7) + if 2 * j + 1 < |q| then q[2 * j + 1] + 7 else 0
    ensures var u := UnpackedInt4(packed, nnz);
            forall j :: 0 <= 2 * j + 1 < |u| ==>
              packed[j] == 16 * (u[2 * j] + 7) + (u[2 * j + 1] + 7) && -7 <= u[2 * j + 1] <= 8
  {
    var u := UnpackedInt4(packed, nnz);
    forall j | 0 <= 2 * j + 1 < |u|
      ensures packed[j] == 16 * (u[2 * j] + 7) + (u[2 * j + 1] + 7) && -7 <= u[2 * j + 1] <= 8
    {
      assert u[2 * j] == NibbleAt(packed, 2 * j) && u[2 * j + 1] == NibbleAt(packed, 2 * j + 1);
    }
  }

  lemma SplitByte(hi: nat, lo: nat)
    requires lo < 16
    ensures (hi * 16 + lo) / 16 == hi && (hi * 16 + lo) % 16 == lo
  {
  }

  // ---------------------------------------------------------------- the payload

  datatype Tensor = Tensor(shape: seq<nat>, data: seq<Float32>)

  datatype Dense = Dense(shape: seq<nat>, values: seq<real>)

  /** A dict in insertion order. */
  type Delta = seq<(string, Tensor)>

  datatype ValueArray = Int8(q: seq<int>) | Uint8(bytes: seq<nat>)

  datatype Meta = Meta(name: string, shape: seq<nat>, nnz: nat)

  datatype Payload = Payload(magic: string, version: int, bits: Option<int>, tensors: seq<Meta>,
                             gaps: seq<GapArray>, vals: seq<ValueArray>, scales: seq<real>)

  ghost predicate WellFormed(delta: Delta) {
    && (forall i :: 0 <= i < |delta| ==> Product(delta[i].1.shape) == |delta[i].1.data|)
    && (forall i, j :: 0 <= i < j < |delta| ==> delta[i].0 != delta[j].0)
  }

  /** flat[idx] = vals, in order. */
  function Scatter(flat: seq<real>, idx: seq<nat>, vals: seq<real>): (r: seq<real>)
    requires |idx| == |vals| && forall i :: 0 <= i < |idx| ==> idx[i] < |flat|
    ensures |r| == |flat|
  {
    if idx == [] then flat
    else
      var n := |idx| - 1;
      Scatter(flat, idx[..n], vals[..n])[idx[n] := vals[n]]
  }

  lemma {:induction false} ScatterUntouched(flat: seq<real>, idx: seq<nat>, vals: seq<real>, x: nat)
    requires |idx| == |vals| && forall i :: 0 <= i < |idx| ==> idx[i] < |flat|
    requires x < |flat| && x !in idx
    ensures Scatter(flat, idx, vals)[x] == flat[x]
  {
    if idx != [] {
      var n := |idx| - 1;
      ScatterUntouched(flat, idx[..n], vals[..n], x);
    }
  }

  lemma {:induction false} ScatterWritten(flat: seq<real>, idx: seq<nat>, vals: seq<real>, i: nat)
    requires |idx| == |vals| && forall i :: 0 <= i < |idx| ==> idx[i] < |flat|
    requires Ascending(idx) && i < |idx|
    ensures Scatter(flat, idx, vals)[idx[i]] == vals[i]
  {
    var n := |idx| - 1;
    if i < n {
      ScatterWritten(flat, idx[..n], vals[..n], i);
    }
  }

  function Dequantized(q: seq<int>, scale: real): (v: seq<real>)
    ensures |v| == |q|
  {
    seq(|q|, i requires 0 <= i < |q| => q[i] as real * scale)
  }

  /** The dense array a quantized tensor stands for. */
  function Recon(n: nat, z: Quantized): seq<real>
    requires |z.q| == |z.idx| && forall i :: 0 <= i < |z.idx| ==> z.idx[i] < n
  {
    Scatter(Zeros(n), z.idx, Dequantized(z.q, z.scale))
  }

  function Values(data: seq<Float32>): (v: seq<real>)
    ensures |v| == |data|
  {
    seq(|data|, i requires 0 <= i < |data| => Value(data[i]))
  }

  function Minus(a: seq<real>, b: seq<real>): (r: seq<real>)
    requires |a| == |b|
    ensures |r| == |a|
  {
    seq(|a|, i requires 0 <= i < |a| => a[i] - b[i])
  }

  // ---------------------------------------------------------------- compress

  /** Everything `compress_delta` stores for one tensor, and its residual. */
  datatype Part = Part(meta: Meta, gaps: GapArray, vals: ValueArray, scale: real, residual: Dense)

  predicate TooLong(idx: seq<nat>) { idx != [] && idx[|idx| - 1] >= 0x8000_0000 }

  lemma QuantizedFitsNibbles(a: seq<Float32>, fraction: real)
    ensures Nibbles(QuantizeTensor(a, fraction, 4).q)
  {
    var idx := KeptIndices(a, fraction);
    forall i | 0 <= i < |idx| ensures -7 <= QuantizeTensor(a, fraction, 4).q[i] <= 7 {
      QuantizeAccurate(idx, Gather(a, idx), 4, i);
    }
  }

  function EncodeTensor(name: string, t: Tensor, fraction: real, bits: int): (r: Result<Part>)
    requires SupportedBits(bits)
  {
    var z := QuantizeTensor(t.data, fraction, bits);
    if TooLong(z.idx) then Err("index overflow")
    else
      QuantizedFitsNibbles(t.data, fraction);
      Ok(Part(Meta(name, Contiguous(t.shape), |z.idx|), EncodeGaps(z.idx),
              if bits == 8 then Int8(z.q) else Uint8(PackInt4(z.q)), z.scale,
              Dense(Contiguous(t.shape), Minus(Values(t.data), Recon(|t.data|, z)))))
  }

  /** The parts of a delta in dict order, or the first tensor's error. */
  function EncodeAll(delta: Delta, fraction: real, bits: int): (r: Result<seq<Part>>)
    requires SupportedBits(bits)
    ensures r.Ok? ==> |r.value| == |delta|
  {
    if delta == [] then Ok([])
    else
      var n := |delta| - 1;
      match EncodeAll(delta[..n], fraction, bits)
      case Err(e) => Err(e)
      case Ok(parts) =>
        match EncodeTensor(delta[n].0, delta[n].1, fraction, bits)
        case Err(e) => Err(e)
        case Ok(part) => Ok(parts + [part])
  }

  lemma {:induction false} EncodeAllAt(delta: Delta, fraction: real, bits: int, i: nat)
    requires SupportedBits(bits) && EncodeAll(delta, fraction, bits).Ok? && i < |delta|
    ensures EncodeTensor(delta[i].0, delta[i].1, fraction, bits) == Ok(EncodeAll(delta, fraction, bits).value[i])
    ensures EncodeAll(delta[..i], fraction, bits) == Ok(EncodeAll(delta, fraction, bits).value[..i])
  {
    hide EncodeTensor;
    var n := |delta| - 1;
    if i < n {
      EncodeAllAt(delta[..n], fraction, bits, i);
      assert delta[..n][..i] == delta[..i];
    }
    var front := EncodeAll(delta[..n], fraction, bits).value;
    assert EncodeAll(delta, fraction, bits).value[..i] == front[..i] && front[..n] == front;
  }

  lemma {:induction false} EncodeAllPrefix(delta: Delta, fraction: real, bits: int, n: nat)
    requires SupportedBits(bits) && n <= |delta| && EncodeAll(delta[..n], fraction, bits).Err?
    ensures EncodeAll(delta, fraction, bits) == EncodeAll(delta[..n], fraction, bits)
  {
    if n < |delta| {
      assert delta[..|delta| - 1][..n] == delta[..n];
      EncodeAllPrefix(delta[..|delta| - 1], fraction, bits, n);
    } else {
      assert delta[..n] == delta;
    }
  }

  /** The manifest and arrays of a list of parts: version 1 without a bits key for int8, version 2 with
      bits = 4 for int4. */
  function PayloadOf(parts: seq<Part>, bits: int): Payload {
    Payload(MAGIC, if bits == 4 then VERSION_INT4 else VERSION, if bits == 4 then Some(4) else None,
            seq(|parts|, i requires 0 <= i < |parts| => parts[i].meta),
            seq(|parts|, i requires 0 <= i < |parts| => parts[i].gaps),
            seq(|parts|, i requires 0 <= i < |parts| => parts[i].vals),
            seq(|parts|, i requires 0 <= i < |parts| => parts[i].scale))
  }

  function Residuals(parts: seq<Part>): seq<(string, Dense)> {
    seq(|parts|, i requires 0 <= i < |parts| => (parts[i].meta.name, parts[i].residual))
  }

  /** One turn of the loop in `compress_delta`. */
  method EncodeOne(name: string, t: Tensor, fraction: real, bits: int, returnResidual: bool, chunk: nat)
    returns (r: Result<(Meta, GapArray, ValueArray, real, Option<Dense>)>)
    requires SupportedBits(bits) && chunk > 0
    ensures match EncodeTensor(name, t, fraction, bits)
            case Err(e) => r == Err(e)
            case Ok(part) =>
              var residual := if returnResidual then Some(part.residual) else None;
              r == Ok((part.meta, part.gaps, part.vals, part.scale, residual)) && part.meta.name == name
  {
    var shape := if t.shape == [] then [1] else t.shape;
    var z := QuantizeTopk(t.data, fraction, bits, chunk);
    var idx, q, scale := z.value.idx, z.value.q, z.value.scale;
    if TooLong(idx) {
      return Err("index overflow");
    }
    QuantizedFitsNibbles(t.data, fraction);
    var v := if bits == 8 then Int8(q) else Uint8(PackInt4(q));
    var residual := None;
    if returnResidual {
      var recon := Scatter(Zeros(|t.data|), idx, Dequantized(q, scale));
      residual := Some(Dense(shape, Minus(Values(t.data), recon)));
    }
    return Ok((Meta(name, shape, |idx|), EncodeGaps(idx), v, scale, residual));
  }

  lemma NothingEncoded(fraction: real, bits: int)
    requires SupportedBits(bits)
    ensures EncodeAll([], fraction, bits) == Ok([]) && Residuals([]) == []
    ensures PayloadOf([], bits)
         == Payload(MAGIC, if bits == 4 then VERSION_INT4 else VERSION, if bits == 4 then Some(4) else None, [], [], [], [])
  {
  }

  lemma PayloadNext(parts: seq<Part>, part: Part, bits: int)
    ensures var p := PayloadOf(parts, bits);
            PayloadOf(parts + [part], bits)
            == p.(gaps := p.gaps + [part.gaps], vals := p.vals + [part.vals],
                  scales := p.scales + [part.scale], tensors := p.tensors + [part.meta])
    ensures Residuals(parts + [part]) == Residuals(parts) + [(part.meta.name, part.residual)]
  {
  }

  lemma OneMoreEncoded(delta: Delta, fraction: real, bits: int, i: nat)
    requires SupportedBits(bits) && i < |delta| && EncodeAll(delta[..i], fraction, bits).Ok?
    ensures var parts := EncodeAll(delta[..i], fraction, bits).value;
            match EncodeTensor(delta[i].0, delta[i].1, fraction, bits)
            case Err(e) => EncodeAll(delta, fraction, bits) == Err(e)
            case Ok(part) =>
              var (p, next) := (PayloadOf(parts, bits), EncodeAll(delta[..i + 1], fraction, bits));
              && next == Ok(parts + [part])
              && PayloadOf(parts + [part], bits)
                 == p.(gaps := p.gaps + [part.gaps], vals := p.vals + [part.vals],
                       scales := p.scales + [part.scale], tensors := p.tensors + [part.meta])
              && Residuals(parts + [part]) == Residuals(parts) + [(part.meta.name, part.residual)]
  {
    hide EncodeTensor, PayloadOf, Residuals;
    assert delta[..i + 1][..i] == delta[..i];
    match EncodeTensor(delta[i].0, delta[i].1, fraction, bits)
    case Err(e) => EncodeAllPrefix(delta, fraction, bits, i + 1);
    case Ok(part) => PayloadNext(EncodeAll(delta[..i], fraction, bits).value, part, bits);
  }

  /** `compress_delta` */
  method CompressDelta(delta: Delta, fraction: real, bits: int, returnResidual: bool, chunk: nat)
    returns (r: Result<(Payload, Option<seq<(string, Dense)>>)>)
    requires chunk > 0
    ensures !SupportedBits(bits) ==> r.Err?
    ensures SupportedBits(bits) ==>
              match EncodeAll(delta, fraction, bits)
              case Err(e) => r == Err(e)
              case Ok(parts) =>
                r == Ok((PayloadOf(parts, bits), if returnResidual then Some(Residuals(parts)) else None))
  {
    hide EncodeTensor, EncodeAll, PayloadOf, Residuals, SupportedBits;
    if !SupportedBits(bits) {
      return Err("bits must be 4 or 8");
    }
    var p := Payload(MAGIC, VERSION, None, [], [], [], []);
    if bits == 4 {
      p := p.(version := VERSION_INT4, bits := Some(4));
    }
    var residual := [];
    NothingEncoded(fraction, bits);
    for i := 0 to |delta|
      invariant EncodeAll(delta[..i], fraction, bits).Ok?
      invariant p == PayloadOf(EncodeAll(delta[..i], fraction, bits).value, bits)
      invariant returnResidual ==> residual == Residuals(EncodeAll(delta[..i], fraction, bits).value)
    {
      OneMoreEncoded(delta, fraction, bits, i);
      var part := EncodeOne(delta[i].0, delta[i].1, fraction, bits, returnResidual, chunk);
      if part.Err? {
        return Err(part.reason);
      }
      var (meta, gaps, vals, scale, res) := part.value;
      p := p.(gaps := p.gaps + [gaps], vals := p.vals + [vals],
              scales := p.scales + [scale], tensors := p.tensors + [meta]);
      if returnResidual {
        residual := residual + [(delta[i].0, res.value)];
      }
    }
    assert delta[..|delta|] == delta;
    return Ok((p, if returnResidual then Some(residual) else None));
  }

  // ---------------------------------------------------------------- decompress

  function RawInts(v: ValueArray): seq<int> {
    match v
    case Int8(q) => q
    case Uint8(bytes) => seq(|bytes|, i requires 0 <= i < |bytes| => bytes[i])
  }

  function RawBytes(v: ValueArray): seq<nat> {
    match v
    case Int8(q) => seq(|q|, i requires 0 <= i < |q| => q[i] % 256)
    case Uint8(bytes) => bytes
  }

  /** A value list of length one is broadcast over all indices. */
  function Broadcast(q: seq<int>, n: nat): (r: seq<int>)
    requires |q| == n || |q| == 1
    ensures |r| == n
  {
    if |q| == n then q else seq(n, i => q[0])
  }

  function DecodeTensor(p: Payload, bits: int, i: nat): Result<Dense>
    requires i < |p.tensors|
  {
    var meta := p.tensors[i];
    var n := Product(meta.shape);
    if meta.nnz == 0 then Ok(Dense(meta.shape, Zeros(n)))
    else if i >= |p.gaps| || i >= |p.vals| then Err("missing array")
    else if i >= |p.scales| then Err("missing scale")
    else
      var idx := Cumsum(p.gaps[i].vals);
      var q := if bits == 8 then RawInts(p.vals[i]) else UnpackedInt4(RawBytes(p.vals[i]), meta.nnz);
      if |q| != |idx| && |q| != 1 then Err("values do not match the indices")
      else if exists j :: 0 <= j < |idx| && idx[j] >= n then Err("index out of bounds")
      else Ok(Dense(meta.shape, Scatter(Zeros(n), idx, Dequantized(Broadcast(q, |idx|), p.scales[i]))))
  }

  function DecodeUpTo(p: Payload, bits: int, n: nat): Result<map<string, Dense>>
    requires n <= |p.tensors|
  {
    if n == 0 then Ok(map[])
    else
      match DecodeUpTo(p, bits, n - 1)
      case Err(e) => Err(e)
      case Ok(m) =>
        match DecodeTensor(p, bits, n - 1)
        case Err(e) => Err(e)
        case Ok(d) => Ok(m[p.tensors[n - 1].name := d])
  }

  function ManifestBits(p: Payload): int { if p.bits.Some? then p.bits.value else 8 }

  function Decompressed(p: Payload): Result<map<string, Dense>> {
    if p.magic != MAGIC then Err("bad magic in compressed delta")
    else if p.version != VERSION && p.version != VERSION_INT4 then Err("unsupported compressed-delta version")
    else if !SupportedBits(ManifestBits(p)) then Err("unsupported quantization bits")
    else DecodeUpTo(p, ManifestBits(p), |p.tensors|)
  }

  lemma {:induction false} DecodeErrorPersists(p: Payload, bits: int, m: nat, n: nat)
    requires m <= n <= |p.tensors| && DecodeUpTo(p, bits, m).Err?
    ensures DecodeUpTo(p, bits, n) == DecodeUpTo(p, bits, m)
  {
    if m < n {
      DecodeErrorPersists(p, bits, m, n - 1);
    }
  }

  /** `decompress_delta`, on any payload */
  method DecompressDelta(p: Payload) returns (r: Result<map<string, Dense>>)
    ensures r == Decompressed(p)
  {
    hide DecodeTensor;
    if p.magic != MAGIC {
      return Err("bad magic in compressed delta");
    }
    if p.version != VERSION && p.version != VERSION_INT4 {
      return Err("unsupported compressed-delta version");
    }
    var bits := if p.bits.Some? then p.bits.value else 8;
    if !SupportedBits(bits) {
      return Err("unsupported quantization bits");
    }
    var out: map<string, Dense> := map[];
    for i := 0 to |p.tensors|
      invariant DecodeUpTo(p, bits, i) == Ok(out)
    {
      var d := DecodeOne(p, bits, i);
      if d.Err? {
        DecodeErrorPersists(p, bits, i + 1, |p.tensors|);
        return Err(d.reason);
      }
      out := out[p.tensors[i].name := d.value];
    }
    return Ok(out);
  }

  method DecodeOne(p: Payload, bits: int, i: nat) returns (r: Result<Dense>)
    requires i < |p.tensors|
    ensures r == DecodeTensor(p, bits, i)
  {
    var meta := p.tensors[i];
    var n := Product(meta.shape);
    var flat := Zeros(n);
    if meta.nnz > 0 {
      if i >= |p.gaps| || i >= |p.vals| {
        return Err("missing array");
      }
      if i >= |p.scales| {
        return Err("missing scale");
      }
      var idx := Cumsum(p.gaps[i].vals);
      var q;
      if bits == 8 {
        q := RawInts(p.vals[i]);
      } else {
        q := UnpackInt4(RawBytes(p.vals[i]), meta.nnz);
      }
      if |q| != |idx| && |q| != 1 {
        return Err("values do not match the indices");
      }
      if exists j :: 0 <= j < |idx| && idx[j] >= n {
        return Err("index out of bounds");
      }
      flat := Scatter(flat, idx, Dequantized(Broadcast(q, |idx|), p.scales[i]));
    }
    return Ok(Dense(meta.shape, flat));
  }

  // ---------------------------------------------------------------- round trip

  /** What encoding stores of a tensor with quantization `z`. */
  ghost predicate Stores(p: Part, name: string, t: Tensor, z: Quantized, bits: int) {
    && p.meta == Meta(name, Contiguous(t.shape), |z.idx|) && p.residual.shape == Contiguous(t.shape)
    && p.gaps == EncodeGaps(z.idx) && p.scale == z.scale
    && (bits == 4 ==> Nibbles(z.q))
    && p.vals == (if bits == 8 then Int8(z.q) else if bits == 4 then Uint8(PackInt4(z.q)) else p.vals)
    && Ascending(z.idx) && !TooLong(z.idx)
    && |z.q| == |z.idx| && forall j :: 0 <= j < |z.idx| ==> z.idx[j] < |t.data|
  }

  lemma EncodedIs(p: Part, name: string, t: Tensor, fraction: real, bits: int)
    requires SupportedBits(bits) && EncodeTensor(name, t, fraction, bits) == Ok(p)
    ensures Stores(p, name, t, QuantizeTensor(t.data, fraction, bits), bits)
  {
    hide QuantizeTensor, Recon, EncodeGaps, PackInt4, Nibbles;
    if bits == 4 {
      QuantizedFitsNibbles(t.data, fraction);
    }
  }

  /** The stored values read back. */
  lemma ValuesRead(vals: ValueArray, z: Quantized, bits: int)
    requires SupportedBits(bits) && |z.q| == |z.idx| && (bits == 4 ==> Nibbles(z.q))
    requires vals == if bits == 8 then Int8(z.q) else Uint8(PackInt4(z.q))
    ensures (if bits == 8 then RawInts(vals) else UnpackedInt4(RawBytes(vals), |z.idx|)) == z.q
  {
    if bits == 4 {
      PackRoundTrip(z.q);
    }
    hide PackInt4, UnpackedInt4;
  }

  /** Decoding one encoded tensor gives the dense array its code words stand for. */
  lemma DecodeEncoded(parts: seq<Part>, bits: int, i: nat, name: string, t: Tensor, fraction: real)
    requires SupportedBits(bits) && i < |parts| && Product(t.shape) == |t.data|
    requires EncodeTensor(name, t, fraction, bits) == Ok(parts[i])
    ensures DecodeTensor(PayloadOf(parts, bits), bits, i) == Ok(Decoded(t, fraction, bits))
    ensures parts[i].meta.name == name
  {
    hide EncodeTensor, QuantizeTensor, DecodeTensor, EncodeGaps, PackInt4, UnpackedInt4, RawInts, RawBytes, Cumsum, Recon;
    hide Product, Nibbles, Ascending;
    EncodedIs(parts[i], name, t, fraction, bits);
    var z := QuantizeTensor(t.data, fraction, bits);
    GapsRoundTrip(z.idx);
    ValuesRead(parts[i].vals, z, bits);
    ContiguousProduct(t.shape);
    StoredDecodes(PayloadOf(parts, bits), bits, i, z, |t.data|);
  }

  /** The decoder's view of one tensor whose stored arrays decode to `z`. */
  lemma StoredDecodes(p: Payload, bits: int, i: nat, z: Quantized, n: nat)
    requires SupportedBits(bits) && |z.q| == |z.idx| && forall j :: 0 <= j < |z.idx| ==> z.idx[j] < n
    requires i < |p.tensors| && i < |p.gaps| && i < |p.vals| && i < |p.scales|
    requires p.tensors[i].nnz == |z.idx| && Product(p.tensors[i].shape) == n && p.scales[i] == z.scale
    requires Cumsum(p.gaps[i].vals) == z.idx
    requires (if bits == 8 then RawInts(p.vals[i]) else UnpackedInt4(RawBytes(p.vals[i]), |z.idx|)) == z.q
    ensures DecodeTensor(p, bits, i) == Ok(Dense(p.tensors[i].shape, Recon(n, z)))
  {
    if z.idx == [] {
      assert Recon(n, z) == Zeros(n);
    }
  }

  /** Decoding one more tensor adds one more entry. */
  lemma DecodeStep(p: Payload, bits: int, n: nat, d: Dense)
    requires n < |p.tensors| && DecodeUpTo(p, bits, n).Ok? && DecodeTensor(p, bits, n) == Ok(d)
    ensures DecodeUpTo(p, bits, n + 1) == Ok(DecodeUpTo(p, bits, n).value[p.tensors[n].name := d])
  {
    hide DecodeTensor;
  }

  lemma {:induction false} DecodeAllEncoded(delta: Delta, fraction: real, bits: int, parts: seq<Part>, n: nat)
    requires SupportedBits(bits) && WellFormed(delta) && n <= |delta|
    requires EncodeAll(delta, fraction, bits) == Ok(parts)
    ensures var d := DecodeUpTo(PayloadOf(parts, bits), bits, n);
            && d.Ok?
            && (forall name :: name in d.value <==> exists i :: 0 <= i < n && delta[i].0 == name)
            && (forall i :: 0 <= i < n ==>
                  d.value[delta[i].0] == Decoded(delta[i].1, fraction, bits))
  {
    hide EncodeTensor;
    hide EncodeAll;
    hide DecodeTensor;
    hide Decoded;
    if n > 0 {
      var p := PayloadOf(parts, bits);
      var (name, t) := delta[n - 1];
      DecodeAllEncoded(delta, fraction, bits, parts, n - 1);
      EncodeAllAt(delta, fraction, bits, n - 1);
      DecodeEncoded(parts, bits, n - 1, name, t, fraction);
      DecodeStep(p, bits, n - 1, Decoded(t, fraction, bits));
      assert p.tensors[n - 1].name == name;
    }
  }

  /** What arrives of a tensor: its code words, in its shape, or as one dimension if it had none. */
  function Decoded(t: Tensor, fraction: real, bits: int): Dense
    requires SupportedBits(bits)
  {
    Dense(Contiguous(t.shape), Recon(|t.data|, QuantizeTensor(t.data, fraction, bits)))
  }

  /** Decompressing what was compressed restores exactly the names and, per name, the dense array of its code words
      in the tensor's shape; a tensor of no dimensions, and only such a one, comes back with another shape. */
  lemma RoundTrip(delta: Delta, fraction: real, bits: int)
    requires SupportedBits(bits) && WellFormed(delta)
    requires EncodeAll(delta, fraction, bits).Ok?
    ensures var d := Decompressed(PayloadOf(EncodeAll(delta, fraction, bits).value, bits));
            && d.Ok?
            && (forall name :: name in d.value <==> exists i :: 0 <= i < |delta| && delta[i].0 == name)
            && (forall i :: 0 <= i < |delta| ==>
                  && d.value[delta[i].0] == Decoded(delta[i].1, fraction, bits)
                  && (d.value[delta[i].0].shape == delta[i].1.shape <==> delta[i].1.shape != []))
  {
    hide DecodeUpTo;
    hide EncodeAll;
    hide Recon;
    DecodeAllEncoded(delta, fraction, bits, EncodeAll(delta, fraction, bits).value, |delta|);
  }

  lemma FewNeverTooLong(a: seq<Float32>, fraction: real)
    requires |a| <= 0x8000_0000
    ensures !TooLong(KeptIndices(a, fraction))
  {
    hide KeptIndices;
  }

  /** The case in which the shape is not restored: a single number sent as a tensor of no dimensions. */
  lemma ScalarTensorGainsADimension(name: string, x: Float32, fraction: real, bits: int)
    requires SupportedBits(bits)
    ensures EncodeAll([(name, Tensor([], [x]))], fraction, bits).Ok?
    ensures var parts := EncodeAll([(name, Tensor([], [x]))], fraction, bits).value;
            var d := Decompressed(PayloadOf(parts, bits));
            && d.Ok? && name in d.value
            && d.value[name].shape == [1] && Residuals(parts)[0].1.shape == [1]
  {
    var delta := [(name, Tensor([], [x]))];
    hide EncodeTensor, Decompressed, KeptIndices;
    EncodeFailsExactly(delta, fraction, bits);
    FewNeverTooLong([x], fraction);
    RoundTrip(delta, fraction, bits);
    EncodeAllAt(delta, fraction, bits, 0);
    EncodedIs(EncodeAll(delta, fraction, bits).value[0], name, Tensor([], [x]), fraction, bits);
    assert delta[0].0 == name;
    hide EncodeAll;
  }

  lemma ReconEntry(z: Quantized, n: nat, x: nat, i: nat)
    requires |z.q| == |z.idx| && Ascending(z.idx) && forall j :: 0 <= j < |z.idx| ==> z.idx[j] < n
    requires x < n
    ensures |Recon(n, z)| == n
    ensures x !in z.idx ==> Recon(n, z)[x] == 0.0
    ensures i < |z.idx| && z.idx[i] == x ==> Recon(n, z)[x] == Dequantize(z, i)
  {
    if x !in z.idx {
      ScatterUntouched(Zeros(n), z.idx, Dequantized(z.q, z.scale), x);
    }
    if i < |z.idx| && z.idx[i] == x {
      ScatterWritten(Zeros(n), z.idx, Dequantized(z.q, z.scale), i);
    }
  }

  lemma KeptEntryIsClose(t: Tensor, fraction: real, bits: int, i: nat)
    requires SupportedBits(bits) && i < |KeptIndices(t.data, fraction)|
    ensures var z := QuantizeTensor(t.data, fraction, bits);
            Abs(Dequantize(z, i) - Value(t.data[z.idx[i]])) <= z.scale / 2.0
  {
    var idx := KeptIndices(t.data, fraction);
    var vals := Gather(t.data, idx);
    var z := QuantizeTensor(t.data, fraction, bits);
    assert z == QuantizeValues(idx, vals, bits) && vals[i] == Value(t.data[idx[i]]);
    hide *;
    QuantizeAccurate(idx, vals, bits, i);
    AccurateIsClose(vals[i], MaxAbs(vals), bits, z, i);
  }

  lemma AccurateIsClose(v: real, maxAbs: real, bits: int, z: Quantized, i: nat)
    requires i < |z.q| && Accurate(v, maxAbs, bits, z.scale, z.q[i])
    ensures Abs(Dequantize(z, i) - v) <= z.scale / 2.0
  {
  }

  lemma CountKept(t: Tensor, fraction: real, bits: int)
    requires SupportedBits(bits) && t.data != []
    ensures Nearest(|QuantizeTensor(t.data, fraction, bits).idx|, fraction * |t.data| as real, |t.data|)
  {
    hide Nearest, KeepCount, QuantizeValues;
    var k := KeepCount(fraction, |t.data|);
    TopIndicesLength(Keys(t.data), k);
    KeepCountExactly(fraction, |t.data|, fraction * |t.data| as real, k);
  }

  /** One decoded tensor against the original: the wanted fraction of the entries is kept, every kept entry is within half a
      step, every dropped entry is zero, and nothing kept is smaller than anything dropped. */
  lemma DecodedIsClose(t: Tensor, fraction: real, bits: int, x: nat)
    requires SupportedBits(bits) && x < |t.data|
    ensures var d, z := Decoded(t, fraction, bits), QuantizeTensor(t.data, fraction, bits);
            && d.shape == Contiguous(t.shape) && |d.values| == |t.data|
            && Nearest(|z.idx|, fraction * |t.data| as real, |t.data|)
            && (x in z.idx ==> Abs(d.values[x] - Value(t.data[x])) <= z.scale / 2.0)
            && (x !in z.idx ==> d.values[x] == 0.0)
            && (forall y :: y in z.idx && x !in z.idx ==> Magnitude(t.data[x]) <= Magnitude(t.data[y]))
  {
    var z := QuantizeTensor(t.data, fraction, bits);
    var k := KeepCount(fraction, |t.data|);
    CountKept(t, fraction, bits);
    hide QuantizeTensor, Nearest, KeepCount;
    hide Magnitude;
    hide Value;
    hide Recon;
    if x in z.idx {
      var i :| 0 <= i < |z.idx| && z.idx[i] == x;
      KeptEntryIsClose(t, fraction, bits, i);
      ReconEntry(z, |t.data|, x, i);
    } else {
      ReconEntry(z, |t.data|, x, 0);
      forall y | y in z.idx ensures Magnitude(t.data[x]) <= Magnitude(t.data[y]) {
        KeptMagnitudesDominate(t.data, k, y, x);
      }
    }
  }

  /** Error feedback is exact: what was decoded plus the residual is the original delta, entry by entry. */
  lemma ResidualExact(delta: Delta, fraction: real, bits: int, i: nat, x: nat)
    requires SupportedBits(bits) && EncodeAll(delta, fraction, bits).Ok? && i < |delta|
    requires x < |delta[i].1.data|
    ensures var r := Residuals(EncodeAll(delta, fraction, bits).value)[i];
            && r.0 == delta[i].0 && r.1.shape == Contiguous(delta[i].1.shape) && |r.1.values| == |delta[i].1.data|
            && Decoded(delta[i].1, fraction, bits).values[x] + r.1.values[x] == Value(delta[i].1.data[x])
  {
    EncodeAllAt(delta, fraction, bits, i);
  }

  /** A list of kept indices overflows exactly when one of them is at or past 2^31. */
  lemma TooLongExactly(idx: seq<nat>)
    requires Ascending(idx)
    ensures TooLong(idx) <==> exists x :: x in idx && x >= 0x8000_0000
  {
    if TooLong(idx) {
      assert idx[|idx| - 1] in idx;
    }
    if x :| x in idx && x >= 0x8000_0000 {
      var i :| 0 <= i < |idx| && idx[i] == x;
      assert idx[i] <= idx[|idx| - 1];
    }
  }

  lemma EncodeTensorFails(name: string, t: Tensor, fraction: real, bits: int)
    requires SupportedBits(bits)
    ensures EncodeTensor(name, t, fraction, bits).Err? <==> TooLong(KeptIndices(t.data, fraction))
  {
  }

  /** The only failure: some tensor keeps an index at or past 2^31. */
  lemma {:induction false} EncodeFailsExactly(delta: Delta, fraction: real, bits: int)
    requires SupportedBits(bits)
    ensures EncodeAll(delta, fraction, bits).Err? <==>
            exists i :: 0 <= i < |delta| && TooLong(KeptIndices(delta[i].1.data, fraction))
  {
    hide EncodeTensor;
    hide KeptIndices;
    if delta != [] {
      var n := |delta| - 1;
      EncodeFailsExactly(delta[..n], fraction, bits);
      EncodeTensorFails(delta[n].0, delta[n].1, fraction, bits);
      assert forall i :: 0 <= i < n ==> delta[..n][i] == delta[i];
    }
  }

  // ---------------------------------------------------------------- the wire

  /** What is sent: the magic, version 1 and no bits for int8, version 2 and 4 bits for int4, and per tensor its name,
      shape, the number of entries kept and the distances between them. */
  lemma ManifestExactly(delta: Delta, fraction: real, bits: int, i: nat)
    requires SupportedBits(bits) && EncodeAll(delta, fraction, bits).Ok? && i < |delta|
    ensures var p, idx := PayloadOf(EncodeAll(delta, fraction, bits).value, bits), KeptIndices(delta[i].1.data, fraction);
            && p.magic == "NHQ8"
            && p.version == (if bits == 8 then 1 else 2) && p.bits == (if bits == 8 then None else Some(4))
            && |p.tensors| == |p.gaps| == |p.vals| == |p.scales| == |delta|
            && p.tensors[i].name == delta[i].0 && p.tensors[i].nnz == |idx|
            && p.tensors[i].shape == (if delta[i].1.shape == [] then [1] else delta[i].1.shape)
            && Cumsum(p.gaps[i].vals) == idx
            && (p.vals[i].Int8? <==> bits == 8)
  {
    hide EncodeAll, KeptIndices, EncodeGaps, PackInt4, Recon, Cumsum, QuantizeValues;
    EncodeAllAt(delta, fraction, bits, i);
    EncodedIs(EncodeAll(delta, fraction, bits).value[i], delta[i].0, delta[i].1, fraction, bits);
    GapsRoundTrip(KeptIndices(delta[i].1.data, fraction));
  }

  /** The entry written last stands. */
  lemma {:induction false} ScatterLast(flat: seq<real>, idx: seq<nat>, vals: seq<real>, j: nat)
    requires |idx| == |vals| && forall i :: 0 <= i < |idx| ==> idx[i] < |flat|
    requires j < |idx| && forall i :: j < i < |idx| ==> idx[i] != idx[j]
    ensures Scatter(flat, idx, vals)[idx[j]] == vals[j]
  {
    var n := |idx| - 1;
    if j < n {
      ScatterLast(flat, idx[..n], vals[..n], j);
    }
  }

  /** The stored values of tensor i, as the manifest's bits say. */
  function StoredValues(p: Payload, i: nat): seq<int>
    requires i < |p.tensors| && i < |p.vals|
  {
    if ManifestBits(p) == 8 then RawInts(p.vals[i]) else UnpackedInt4(RawBytes(p.vals[i]), p.tensors[i].nnz)
  }

  /** Tensor i of any payload can be decoded: its arrays are there, one value per gap or one for all, no running sum past
      the end. */
  predicate Readable(p: Payload, i: nat)
    requires i < |p.tensors|
  {
    p.tensors[i].nnz == 0 ||
    (&& i < |p.gaps| && i < |p.vals| && i < |p.scales|
     && (|StoredValues(p, i)| == |p.gaps[i].vals| || |StoredValues(p, i)| == 1)
     && forall x :: x in Cumsum(p.gaps[i].vals) ==> x < Product(p.tensors[i].shape))
  }

  lemma ReadableExactly(p: Payload, i: nat)
    requires i < |p.tensors|
    ensures DecodeTensor(p, ManifestBits(p), i).Ok? <==> Readable(p, i)
  {
    hide UnpackedInt4, Product;
    if i < |p.gaps| {
      var idx := Cumsum(p.gaps[i].vals);
      assert forall j :: 0 <= j < |idx| ==> idx[j] in idx;
    }
  }

  lemma {:induction false} ReadableAll(p: Payload, n: nat)
    requires n <= |p.tensors|
    ensures DecodeUpTo(p, ManifestBits(p), n).Ok? <==> forall i :: 0 <= i < n ==> Readable(p, i)
  {
    hide DecodeTensor, Readable;
    if n > 0 {
      ReadableAll(p, n - 1);
      ReadableExactly(p, n - 1);
    }
  }

  /** Of all payloads there are, exactly these decode: the magic, a known version, four or eight bits, and every tensor
      readable. */
  lemma DecodesExactly(p: Payload)
    ensures Decompressed(p).Ok? <==>
            && p.magic == "NHQ8" && (p.version == 1 || p.version == 2)
            && (p.bits.None? || p.bits == Some(4) || p.bits == Some(8))
            && forall i :: 0 <= i < |p.tensors| ==> Readable(p, i)
  {
    hide DecodeUpTo, Readable;
    ReadableAll(p, |p.tensors|);
  }

  function CodeValue(q: int, scale: real): real { q as real * scale }

  /** And tensor i of any of them decodes to its shape, filled with zeros but where a running sum points: there the last
      such value stands, times the tensor's scale. */
  lemma DecodedEntry(p: Payload, i: nat, x: nat)
    requires i < |p.tensors| && Readable(p, i) && x < Product(p.tensors[i].shape)
    ensures var d := DecodeTensor(p, ManifestBits(p), i);
            && d.Ok? && d.value.shape == p.tensors[i].shape && |d.value.values| == Product(p.tensors[i].shape)
            && (p.tensors[i].nnz == 0 ==> d.value.values[x] == 0.0)
            && (p.tensors[i].nnz > 0 ==>
                  var idx, q := Cumsum(p.gaps[i].vals), StoredValues(p, i);
                  && (x !in idx ==> d.value.values[x] == 0.0)
                  && (forall j :: 0 <= j < |idx| && idx[j] == x && x !in idx[j + 1..] ==>
                        d.value.values[x] == CodeValue(if |q| == |idx| then q[j] else q[0], p.scales[i])))
  {
    hide *;
    ReadableExactly(p, i);
    DecodeTensorIs(p, i);
    if p.tensors[i].nnz > 0 {
      var idx, q := Cumsum(p.gaps[i].vals), StoredValues(p, i);
      WrittenEntry(Product(p.tensors[i].shape), idx, Dequantized(Broadcast(q, |idx|), p.scales[i]), x);
      BroadcastEntries(q, |idx|, p.scales[i]);
    }
  }

  lemma DecodeTensorIs(p: Payload, i: nat)
    requires i < |p.tensors| && DecodeTensor(p, ManifestBits(p), i).Ok?
    ensures var d, n := DecodeTensor(p, ManifestBits(p), i).value, Product(p.tensors[i].shape);
            && d.shape == p.tensors[i].shape
            && (p.tensors[i].nnz == 0 ==> d.values == Zeros(n))
            && (p.tensors[i].nnz > 0 ==>
                  && i < |p.gaps| && i < |p.vals| && i < |p.scales|
                  && var idx := Cumsum(p.gaps[i].vals);
                     && (|StoredValues(p, i)| == |idx| || |StoredValues(p, i)| == 1)
                     && (forall j :: 0 <= j < |idx| ==> idx[j] < n)
                     && d.values
                        == Scatter(Zeros(n), idx, Dequantized(Broadcast(StoredValues(p, i), |idx|), p.scales[i])))
  {
    hide UnpackedInt4, Cumsum, Scatter, Product, Dequantized, Broadcast, RawInts, RawBytes, ManifestBits;
  }

  lemma WrittenEntry(n: nat, idx: seq<nat>, vals: seq<real>, x: nat)
    requires |vals| == |idx| && x < n && forall j :: 0 <= j < |idx| ==> idx[j] < n
    ensures x !in idx ==> Scatter(Zeros(n), idx, vals)[x] == 0.0
    ensures forall j :: 0 <= j < |idx| && idx[j] == x && x !in idx[j + 1..] ==> Scatter(Zeros(n), idx, vals)[x] == vals[j]
  {
    hide Scatter;
    if x !in idx {
      ScatterUntouched(Zeros(n), idx, vals, x);
    }
    forall j | 0 <= j < |idx| && idx[j] == x && x !in idx[j + 1..] ensures Scatter(Zeros(n), idx, vals)[x] == vals[j] {
      LastOne(idx, x, j);
      ScatterLast(Zeros(n), idx, vals, j);
    }
  }

  lemma BroadcastEntries(q: seq<int>, n: nat, scale: real)
    requires |q| == n || |q| == 1
    ensures forall j :: 0 <= j < n ==>
              Dequantized(Broadcast(q, n), scale)[j] == CodeValue(if |q| == n then q[j] else q[0], scale)
  {
  }

  lemma LastOne(idx: seq<nat>, x: nat, j: nat)
    requires j < |idx| && idx[j] == x && x !in idx[j + 1..]
    ensures forall l :: j < l < |idx| ==> idx[l] != x
  {
    forall l | j < l < |idx| ensures idx[l] != x {
      assert idx[l] == idx[j + 1..][l - j - 1];
    }
  }
}
