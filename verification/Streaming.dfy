/** Streaming trunk sync (neurahash/diloco_merge.py): each outer round moves one fragment of every parameter, and a
    full cycle of rounds is one full outer step.  Arithmetic is exact; arrays are flat. */
module Streaming {
  import opened Prelude
  import opened Sums

  type Tensor = seq<real>
  type Params = map<string, Tensor>

  // ---------------------------------------------------------------- the partition

  /** round(1/frac), at least one; one outside (0, 1). */
  function NumFragments(frac: real): (k: nat)
    ensures k >= 1
    ensures 0.0 < frac < 1.0 ==> Abs(k as real - 1.0 / frac) <= 0.5
    ensures !(0.0 < frac < 1.0) ==> k == 1
  {
    if 0.0 < frac < 1.0 then
      InverseAboveOne(frac);
      RoundBetween(1.0 / frac, 1, (1.0 / frac).Floor + 1);
      Max(1, Round(1.0 / frac))
    else 1
  }

  lemma RealMulMono(x: real, y: real, f: real)
    requires x <= y && f >= 0.0
    ensures x * f <= y * f
  {
  }

  lemma InverseAboveOne(f: real)
    requires 0.0 < f < 1.0
    ensures 1.0 / f > 1.0
  {
    var q := 1.0 / f;
    assert q * f == 1.0;
    if q <= 1.0 {
      RealMulMono(q, 1.0, f);
    }
  }

  /** `_fragment_sel`: element i belongs to fragment i mod K. */
  predicate Selected(i: nat, k: nat, fragment: int)
    requires k > 0
  {
    i % k == fragment % k
  }

  function FragmentMask(n: nat, k: nat, fragment: int): (m: seq<bool>)
    requires k > 0
    ensures |m| == n
  {
    seq(n, i requires 0 <= i < n => Selected(i, k, fragment))
  }

  /** How many of the first n elements are selected: where element n lands when compacted. */
  function Rank(n: nat, k: nat, fragment: int): nat
    requires k > 0
  {
    if n == 0 then 0 else Rank(n - 1, k, fragment) + if Selected(n - 1, k, fragment) then 1 else 0
  }

  /** The selected elements of the first n, in order. */
  function Compact(a: Tensor, n: nat, k: nat, fragment: int): (r: Tensor)
    requires k > 0 && n <= |a|
    ensures |r| == Rank(n, k, fragment)
  {
    if n == 0 then []
    else Compact(a, n - 1, k, fragment) + if Selected(n - 1, k, fragment) then [a[n - 1]] else []
  }

  lemma {:induction false} RankGrows(i: nat, n: nat, k: nat, fragment: int)
    requires k > 0 && i < n
    ensures Rank(i, k, fragment) + (if Selected(i, k, fragment) then 1 else 0) <= Rank(n, k, fragment)
  {
    if i < n - 1 {
      RankGrows(i, n - 1, k, fragment);
    }
  }

  /** Compact values scattered back, zeros elsewhere. */
  function Scatter(vals: Tensor, n: nat, k: nat, fragment: int): (r: Tensor)
    requires k > 0 && |vals| == Rank(n, k, fragment)
    ensures |r| == n
  {
    seq(n, i requires 0 <= i < n =>
      if Selected(i, k, fragment) then
        RankGrows(i, n, k, fragment);
        vals[Rank(i, k, fragment)]
      else 0.0)
  }

  lemma {:induction false} CompactAt(a: Tensor, n: nat, k: nat, fragment: int, i: nat)
    requires k > 0 && i < n <= |a| && Selected(i, k, fragment)
    ensures Rank(i, k, fragment) < Rank(n, k, fragment)
    ensures Compact(a, n, k, fragment)[Rank(i, k, fragment)] == a[i]
  {
    RankGrows(i, n, k, fragment);
    if i < n - 1 {
      CompactAt(a, n - 1, k, fragment, i);
    }
  }

  /** Compacting and scattering is masking. */
  lemma ScatterCompact(a: Tensor, k: nat, fragment: int)
    requires k > 0
    ensures var r := Scatter(Compact(a, |a|, k, fragment), |a|, k, fragment);
            forall i :: 0 <= i < |a| ==> r[i] == if Selected(i, k, fragment) then a[i] else 0.0
  {
    forall i | 0 <= i < |a| && Selected(i, k, fragment)
      ensures Scatter(Compact(a, |a|, k, fragment), |a|, k, fragment)[i] == a[i]
    {
      CompactAt(a, |a|, k, fragment, i);
    }
  }

  /** Scattering loses nothing: compacting gives the values back. */
  lemma {:induction false} CompactScatter(vals: Tensor, n: nat, k: nat, fragment: int, m: nat)
    requires k > 0 && |vals| == Rank(n, k, fragment) && m <= n
    ensures Rank(m, k, fragment) <= |vals|
    ensures Compact(Scatter(vals, n, k, fragment), m, k, fragment) == vals[..Rank(m, k, fragment)]
  {
    if m < n {
      RankGrows(m, n, k, fragment);
    }
    if m > 0 {
      CompactScatter(vals, n, k, fragment, m - 1);
    }
  }

  // ---------------------------------------------------------------- deltas

  /** `extract_trunk_fragment` */
  function Extract(delta: Params, k: nat, fragment: int): (r: Params)
    requires k > 0
    ensures r.Keys == delta.Keys
  {
    map key | key in delta :: Compact(delta[key], |delta[key]|, k, fragment)
  }

  /** A compact fragment fits the trunk: what scattering it back needs. */
  predicate FragmentFits(part: Params, trunk: Params, k: nat, fragment: int)
    requires k > 0
  {
    forall key :: key in trunk && key in part ==> |part[key]| == Rank(|trunk[key]|, k, fragment)
  }

  /** `reconstruct_trunk_fragment`; a key the fragment lacks comes out all zero. */
  function Reconstruct(part: Params, trunk: Params, k: nat, fragment: int): (r: Params)
    requires k > 0 && FragmentFits(part, trunk, k, fragment)
    ensures r.Keys == trunk.Keys
    ensures forall key :: key in trunk ==> |r[key]| == |trunk[key]|
  {
    map key | key in trunk ::
      if key in part then Scatter(part[key], |trunk[key]|, k, fragment) else Zeros(|trunk[key]|)
  }

  predicate Fits(delta: Params, trunk: Params) { forall key :: key in trunk && key in delta ==> |delta[key]| == |trunk[key]| }

  /** A delta with zeros for the trunk keys it lacks. */
  function Filled(delta: Params, trunk: Params): (r: Params)
    ensures r.Keys == trunk.Keys
  {
    map key | key in trunk :: if key in delta then delta[key] else Zeros(|trunk[key]|)
  }

  lemma ExtractFits(delta: Params, trunk: Params, k: nat, fragment: int)
    requires k > 0 && Fits(delta, trunk)
    ensures FragmentFits(Extract(delta, k, fragment), trunk, k, fragment)
  {
  }

  /** What the coordinator gets back of a delta: the fragment of it, zero elsewhere. */
  function Received(delta: Params, trunk: Params, k: nat, fragment: int): (r: Params)
    requires k > 0 && Fits(delta, trunk)
    ensures r.Keys == trunk.Keys
    ensures forall key :: key in trunk ==> |r[key]| == |trunk[key]|
  {
    ExtractFits(delta, trunk, k, fragment);
    Reconstruct(Extract(delta, k, fragment), trunk, k, fragment)
  }

  lemma ReceivedAt(delta: Params, trunk: Params, k: nat, fragment: int, key: string, i: nat)
    requires k > 0 && Fits(delta, trunk) && key in trunk && i < |trunk[key]|
    ensures Received(delta, trunk, k, fragment)[key][i]
         == if Selected(i, k, fragment) then Filled(delta, trunk)[key][i] else 0.0
  {
    if key in delta {
      ScatterCompact(delta[key], k, fragment);
    }
  }

  // ---------------------------------------------------------------- the outer step

  datatype Outer = Outer(params: Params, momentum: Params)

  datatype Rates = Rates(lr: real, beta: real)

  /** The arrays of the deltas that carry the key. */
  function Present(deltas: seq<Params>, key: string): seq<Tensor> {
    if deltas == [] then []
    else
      var d := deltas[|deltas| - 1];
      Present(deltas[..|deltas| - 1], key) + if key in d then [d[key]] else []
  }

  predicate InRange(present: seq<Tensor>, i: nat) { forall j :: 0 <= j < |present| ==> i < |present[j]| }

  function SumAt(present: seq<Tensor>, i: nat): real
    requires InRange(present, i)
  {
    if present == [] then 0.0 else SumAt(present[..|present| - 1], i) + present[|present| - 1][i]
  }

  function MeanAt(present: seq<Tensor>, i: nat): real
    requires present != [] && InRange(present, i)
  {
    SumAt(present, i) / |present| as real
  }

  predicate AllFit(deltas: seq<Params>, trunk: Params) { forall j :: 0 <= j < |deltas| ==> Fits(deltas[j], trunk) }

  predicate Shaped(s: Outer) { forall key :: key in s.params && key in s.momentum ==> |s.momentum[key]| == |s.params[key]| }

  lemma {:induction false} PresentFits(deltas: seq<Params>, trunk: Params, key: string)
    requires AllFit(deltas, trunk) && key in trunk
    ensures forall j :: 0 <= j < |Present(deltas, key)| ==> |Present(deltas, key)[j]| == |trunk[key]|
  {
    if deltas != [] {
      PresentFits(deltas[..|deltas| - 1], trunk, key);
    }
  }

  /** The momentum an element had, zero before its first step. */
  function MomentumAt(s: Outer, key: string, i: nat): real
    requires Shaped(s) && key in s.params && i < |s.params[key]|
  {
    if key in s.momentum then s.momentum[key][i] else 0.0
  }

  function NewMomentumAt(s: Outer, deltas: seq<Params>, key: string, i: nat, beta: real): real
    requires Shaped(s) && AllFit(deltas, s.params) && key in s.params && i < |s.params[key]|
    requires Present(deltas, key) != []
  {
    PresentFits(deltas, s.params, key);
    Mul(beta, MomentumAt(s, key, i)) + MeanAt(Present(deltas, key), i)
  }

  /** Which elements of each key move; no mask for a key moves them all. */
  type Masks = map<string, seq<bool>>

  predicate MasksFit(masks: Masks, trunk: Params) { forall key :: key in trunk && key in masks ==> |masks[key]| == |trunk[key]| }

  predicate Moves(masks: Masks, key: string, i: nat)
    requires key in masks ==> i < |masks[key]|
  {
    key in masks ==> masks[key][i]
  }

  predicate Ready(s: Outer, deltas: seq<Params>, masks: Masks) {
    Shaped(s) && AllFit(deltas, s.params) && MasksFit(masks, s.params)
  }

  function NewMomentum(s: Outer, deltas: seq<Params>, masks: Masks, rates: Rates, key: string): (r: Tensor)
    requires Ready(s, deltas, masks) && key in s.params && Present(deltas, key) != []
    ensures |r| == |s.params[key]|
  {
    seq(|s.params[key]|, i requires 0 <= i < |s.params[key]| =>
      if Moves(masks, key, i) then NewMomentumAt(s, deltas, key, i, rates.beta) else MomentumAt(s, key, i))
  }

  function NewParam(s: Outer, deltas: seq<Params>, masks: Masks, rates: Rates, key: string): (r: Tensor)
    requires Ready(s, deltas, masks) && key in s.params && Present(deltas, key) != []
    ensures |r| == |s.params[key]|
  {
    seq(|s.params[key]|, i requires 0 <= i < |s.params[key]| =>
      if Moves(masks, key, i)
      then s.params[key][i] + Mul(rates.lr, NewMomentumAt(s, deltas, key, i, rates.beta)) else s.params[key][i])
  }

  function Touched(s: Outer, deltas: seq<Params>): set<string> { set key | key in s.params && Present(deltas, key) != [] }

  /** What the step writes for the keys done so far. */
  function NewParams(s: Outer, deltas: seq<Params>, masks: Masks, rates: Rates, done: set<string>): (r: Params)
    requires Ready(s, deltas, masks)
    ensures r.Keys == Touched(s, deltas) * done && forall key :: key in r ==> |r[key]| == |s.params[key]|
  {
    map key | key in Touched(s, deltas) && key in done :: NewParam(s, deltas, masks, rates, key)
  }

  function NewMomenta(s: Outer, deltas: seq<Params>, masks: Masks, rates: Rates, done: set<string>): (r: Params)
    requires Ready(s, deltas, masks)
    ensures r.Keys == Touched(s, deltas) * done && forall key :: key in r ==> |r[key]| == |s.params[key]|
  {
    map key | key in Touched(s, deltas) && key in done :: NewMomentum(s, deltas, masks, rates, key)
  }

  /** The step carried out on some of the keys. */
  function Part(s: Outer, deltas: seq<Params>, masks: Masks, rates: Rates, done: set<string>): Outer
    requires Ready(s, deltas, masks)
  {
    Outer(s.params + NewParams(s, deltas, masks, rates, done), s.momentum + NewMomenta(s, deltas, masks, rates, done))
  }

  /** `outer_aggregate_masked`; with no masks it is the full outer step. */
  function Step(s: Outer, deltas: seq<Params>, masks: Masks, rates: Rates): (r: Outer)
    requires Ready(s, deltas, masks)
    ensures Shaped(r) && r.params.Keys == s.params.Keys
    ensures forall key :: key in s.params ==> |r.params[key]| == |s.params[key]|
  {
    Part(s, deltas, masks, rates, s.params.Keys)
  }

  /** The step, element by element. */
  lemma StepAt(s: Outer, deltas: seq<Params>, masks: Masks, rates: Rates, key: string, i: nat)
    requires Ready(s, deltas, masks) && key in s.params && i < |s.params[key]| && Present(deltas, key) != []
    ensures var r := Step(s, deltas, masks, rates);
            var moved := NewMomentumAt(s, deltas, key, i, rates.beta);
            && key in r.momentum
            && r.params[key][i] == (if Moves(masks, key, i) then s.params[key][i] + Mul(rates.lr, moved) else s.params[key][i])
            && MomentumAt(r, key, i) == if Moves(masks, key, i) then moved else MomentumAt(s, key, i)
  {
    hide Present, NewMomentumAt, Mul, AllFit, MasksFit, Moves;
  }

  /** The coordinator's trunk and momentum dicts. */
  class OuterState {
    var params: Params
    var momentum: Params

    constructor (params: Params, momentum: Params)
      ensures this.params == params && this.momentum == momentum
    {
      this.params, this.momentum := params, momentum;
    }

    function Value(): Outer
      reads this
    {
      Outer(params, momentum)
    }

    method OuterAggregateMasked(deltas: seq<Params>, masks: Masks, rates: Rates)
      requires Ready(Value(), deltas, masks)
      modifies this
      ensures Value() == Step(old(Value()), deltas, masks, rates)
    {
      hide NewParam, NewMomentum, Present, Ready, Touched;
      ghost var was := Value();
      if deltas == [] {
        NothingPresent(was, masks, rates);
        return;
      }
      PartNone(was, deltas, masks, rates);
      var left := params.Keys;
      assert was.params.Keys - left == {};
      while left != {}
        invariant left <= was.params.Keys && Value() == Part(was, deltas, masks, rates, was.params.Keys - left)
        decreases left
      {
        hide Part;
        var key :| key in left;
        ghost var done := was.params.Keys - left;
        PartAt(was, deltas, masks, rates, done, key);
        if Present(deltas, key) != [] {
          var p, m := UpdateKey(deltas, masks, rates, key, was);
          momentum := momentum[key := m];
          params := params[key := p];
        }
        left := left - {key};
        assert was.params.Keys - left == done + {key};
      }
      assert was.params.Keys - {} == was.params.Keys;
    }

    /** One key of the step: heavy-ball momentum, then the parameter, on the masked elements. */
    method UpdateKey(deltas: seq<Params>, masks: Masks, rates: Rates, key: string, ghost was: Outer)
      returns (p: Tensor, m: Tensor)
      requires Ready(was, deltas, masks) && key in was.params && Present(deltas, key) != []
      requires key in params && params[key] == was.params[key]
      requires key in momentum <==> key in was.momentum
      requires key in momentum ==> momentum[key] == was.momentum[key]
      ensures p == NewParam(was, deltas, masks, rates, key) && m == NewMomentum(was, deltas, masks, rates, key)
    {
      var present := Present(deltas, key);
      PresentFits(deltas, was.params, key);
      var n := |params[key]|;
      var old0, prev := params[key], if key in momentum then momentum[key] else Zeros(|params[key]|);
      var newm := seq(n, i requires 0 <= i < n => Mul(rates.beta, prev[i]) + MeanAt(present, i));
      p := seq(n, i requires 0 <= i < n => if Moves(masks, key, i) then old0[i] + Mul(rates.lr, newm[i]) else old0[i]);
      m := seq(n, i requires 0 <= i < n => if Moves(masks, key, i) then newm[i] else prev[i]);
    }
  }

  lemma PartNone(s: Outer, deltas: seq<Params>, masks: Masks, rates: Rates)
    requires Ready(s, deltas, masks)
    ensures Part(s, deltas, masks, rates, {}) == s
  {
    hide NewParam, NewMomentum, Touched;
  }

  lemma PartAt(s: Outer, deltas: seq<Params>, masks: Masks, rates: Rates, done: set<string>, key: string)
    requires Ready(s, deltas, masks) && key in s.params && key !in done
    ensures var p, q := Part(s, deltas, masks, rates, done), Part(s, deltas, masks, rates, done + {key});
            && key in p.params && p.params[key] == s.params[key]
            && (key in p.momentum <==> key in s.momentum)
            && (key in p.momentum ==> p.momentum[key] == s.momentum[key])
            && q == if Present(deltas, key) != []
                    then Outer(p.params[key := NewParam(s, deltas, masks, rates, key)],
                               p.momentum[key := NewMomentum(s, deltas, masks, rates, key)])
                    else p
  {
    hide NewParam, NewMomentum, Present, Ready, NewParams, NewMomenta;
    NewAt(s, deltas, masks, rates, done, key);
    var p, m := NewParams(s, deltas, masks, rates, done), NewMomenta(s, deltas, masks, rates, done);
    if Present(deltas, key) != [] {
      MergeUpdate(s.params, p, key, NewParam(s, deltas, masks, rates, key));
      MergeUpdate(s.momentum, m, key, NewMomentum(s, deltas, masks, rates, key));
    }
  }

  lemma MergeUpdate(a: Params, b: Params, key: string, v: Tensor)
    ensures a + b[key := v] == (a + b)[key := v]
  {
  }

  lemma NewAt(s: Outer, deltas: seq<Params>, masks: Masks, rates: Rates, done: set<string>, key: string)
    requires Ready(s, deltas, masks) && key in s.params
    ensures var p, p1 := NewParams(s, deltas, masks, rates, done), NewParams(s, deltas, masks, rates, done + {key});
            p1 == if Present(deltas, key) != [] then p[key := NewParam(s, deltas, masks, rates, key)] else p
    ensures var m, m1 := NewMomenta(s, deltas, masks, rates, done), NewMomenta(s, deltas, masks, rates, done + {key});
            m1 == if Present(deltas, key) != [] then m[key := NewMomentum(s, deltas, masks, rates, key)] else m
  {
    hide *;
    TouchedInTrunk(s, deltas);
    NewParamsAt(s, deltas, masks, rates, done, key);
    NewMomentaAt(s, deltas, masks, rates, done, key);
  }

  lemma NewParamsAt(s: Outer, deltas: seq<Params>, masks: Masks, rates: Rates, done: set<string>, key: string)
    requires Ready(s, deltas, masks) && key in s.params && (key in Touched(s, deltas) <==> Present(deltas, key) != [])
    ensures var p, p1 := NewParams(s, deltas, masks, rates, done), NewParams(s, deltas, masks, rates, done + {key});
            p1 == if Present(deltas, key) != [] then p[key := NewParam(s, deltas, masks, rates, key)] else p
  {
    hide NewParam, Present, Ready, Touched;
  }

  lemma NewMomentaAt(s: Outer, deltas: seq<Params>, masks: Masks, rates: Rates, done: set<string>, key: string)
    requires Ready(s, deltas, masks) && key in s.params && (key in Touched(s, deltas) <==> Present(deltas, key) != [])
    ensures var m, m1 := NewMomenta(s, deltas, masks, rates, done), NewMomenta(s, deltas, masks, rates, done + {key});
            m1 == if Present(deltas, key) != [] then m[key := NewMomentum(s, deltas, masks, rates, key)] else m
  {
    hide NewMomentum, Present, Ready, Touched;
  }

  lemma NothingPresent(s: Outer, masks: Masks, rates: Rates)
    requires Ready(s, [], masks)
    ensures Step(s, [], masks, rates) == s
  {
    assert Touched(s, []) == {};
  }

  // ---------------------------------------------------------------- streaming rounds

  function FragmentMasks(trunk: Params, k: nat, fragment: int): (r: Masks)
    requires k > 0
    ensures MasksFit(r, trunk) && r.Keys == trunk.Keys
  {
    map key | key in trunk :: FragmentMask(|trunk[key]|, k, fragment)
  }

  function ReceivedAll(deltas: seq<Params>, trunk: Params, k: nat, fragment: int): (r: seq<Params>)
    requires k > 0 && AllFit(deltas, trunk)
    ensures |r| == |deltas| && AllFit(r, trunk)
    ensures forall j :: 0 <= j < |r| ==> r[j] == Received(deltas[j], trunk, k, fragment)
  {
    seq(|deltas|, j requires 0 <= j < |deltas| => Received(deltas[j], trunk, k, fragment))
  }

  /** One streaming round: only its fragment travels and moves. */
  function StreamRound(s: Outer, deltas: seq<Params>, k: nat, round: int, rates: Rates): (r: Outer)
    requires k > 0 && Shaped(s) && AllFit(deltas, s.params)
    ensures Shaped(r) && r.params.Keys == s.params.Keys
    ensures forall key :: key in s.params ==> |r.params[key]| == |s.params[key]|
  {
    Step(s, ReceivedAll(deltas, s.params, k, round % k), FragmentMasks(s.params, k, round % k), rates)
  }

  predicate SameShape(s: Outer, t: Outer) {
    Shaped(t) && t.params.Keys == s.params.Keys && forall key :: key in s.params ==> |t.params[key]| == |s.params[key]|
  }

  /** n consecutive rounds on one delta set. */
  function StreamRounds(s: Outer, deltas: seq<Params>, k: nat, start: int, n: nat, rates: Rates): (r: Outer)
    requires k > 0 && Shaped(s) && AllFit(deltas, s.params)
    ensures SameShape(s, r)
  {
    if n == 0 then s else StreamRound(StreamRounds(s, deltas, k, start, n - 1, rates), deltas, k, start + n - 1, rates)
  }

  /** Some round of the first n handles element i. */
  predicate Hit(start: int, n: nat, k: nat, i: nat)
    requires k > 0
  {
    n > 0 && (Hit(start, n - 1, k, i) || Selected(i, k, start + n - 1))
  }

  lemma ModShift(a: int, b: int, k: nat)
    requires k > 0 && a <= b < a + k && a % k == b % k
    ensures a == b
  {
    var p, q := a / k, b / k;
    assert a == p * k + a % k && b == q * k + b % k;
    assert b - a == (q - p) * k;
    SmallMultiple(q - p, k);
  }

  /** Within one cycle no element is handled twice, */
  lemma {:induction false} HitOnce(start: int, n: nat, k: nat, i: nat, m: nat)
    requires k > 0 && n <= m < k && Hit(start, n, k, i)
    ensures !Selected(i, k, start + m)
  {
    if Selected(i, k, start + n - 1) {
      if Selected(i, k, start + m) {
        ModShift(start + n - 1, start + m, k);
      }
    } else {
      HitOnce(start, n - 1, k, i, m);
    }
  }

  lemma {:induction false} HitBy(start: int, n: nat, k: nat, i: nat, m: nat)
    requires k > 0 && m < n && Selected(i, k, start + m)
    ensures Hit(start, n, k, i)
  {
    if m < n - 1 {
      HitBy(start, n - 1, k, i, m);
    }
  }

  lemma ModOf(a: int, b: int, k: nat)
    requires k > 0
    ensures (a + (b - a) % k) % k == b % k
  {
    var r, q := (b - a) % k, (b - a) / k;
    assert b - a == q * k + r;
    assert a + r == b - q * k;
    ModMinusMultiple(b, q, k);
  }

  lemma ModMinusMultiple(b: int, q: int, k: nat)
    requires k > 0
    ensures (b - q * k) % k == b % k
  {
    var p, r := b / k, b % k;
    assert b == p * k + r;
    assert b - q * k == (p - q) * k + r;
    DivModUnique(b - q * k, p - q, r, k);
  }

  /** and every element is handled. */
  lemma HitAll(start: int, k: nat, i: nat)
    requires k > 0
    ensures Hit(start, k, k, i)
  {
    var m := (i - start) % k;
    ModOf(start, i, k);
    HitBy(start, k, k, i, m);
  }

  // ---- one element through one round

  lemma {:induction false} PresentAll(deltas: seq<Params>, key: string)
    requires forall j :: 0 <= j < |deltas| ==> key in deltas[j]
    ensures |Present(deltas, key)| == |deltas|
    ensures forall j :: 0 <= j < |deltas| ==> Present(deltas, key)[j] == deltas[j][key]
  {
    if deltas != [] {
      PresentAll(deltas[..|deltas| - 1], key);
    }
  }

  lemma {:induction false} SumsAgree(a: seq<Tensor>, b: seq<Tensor>, i: nat)
    requires |a| == |b| && forall j :: 0 <= j < |a| ==> i < |a[j]| && i < |b[j]| && a[j][i] == b[j][i]
    ensures SumAt(a, i) == SumAt(b, i)
  {
    if a != [] {
      SumsAgree(a[..|a| - 1], b[..|b| - 1], i);
    }
  }

  function FilledAll(deltas: seq<Params>, trunk: Params): (r: seq<Params>)
    requires AllFit(deltas, trunk)
    ensures |r| == |deltas| && AllFit(r, trunk)
    ensures forall j :: 0 <= j < |r| ==> r[j] == Filled(deltas[j], trunk)
  {
    seq(|deltas|, j requires 0 <= j < |deltas| => Filled(deltas[j], trunk))
  }

  /** On the round's own fragment the received average is the average of the filled deltas. */
  lemma ReceivedMean(deltas: seq<Params>, trunk: Params, k: nat, fragment: int, key: string, i: nat)
    requires k > 0 && deltas != [] && AllFit(deltas, trunk) && key in trunk && i < |trunk[key]|
    requires Selected(i, k, fragment)
    ensures var a, b := Present(ReceivedAll(deltas, trunk, k, fragment), key), Present(FilledAll(deltas, trunk), key);
            && |a| == |b| == |deltas|
            && InRange(a, i) && InRange(b, i)
            && MeanAt(a, i) == MeanAt(b, i)
  {
    hide Received, Filled, Selected, Fits;
    var rs, fs := ReceivedAll(deltas, trunk, k, fragment), FilledAll(deltas, trunk);
    PresentAll(rs, key);
    PresentAll(fs, key);
    PresentFits(rs, trunk, key);
    PresentFits(fs, trunk, key);
    forall j | 0 <= j < |deltas| ensures rs[j][key][i] == fs[j][key][i] {
      ReceivedAt(deltas[j], trunk, k, fragment, key, i);
    }
    SumsAgree(Present(rs, key), Present(fs, key), i);
  }

  lemma MeanDecides(s: Outer, t: Outer, a: seq<Params>, b: seq<Params>, key: string, i: nat, beta: real)
    requires Shaped(s) && Shaped(t) && AllFit(a, s.params) && AllFit(b, t.params) && key in s.params && key in t.params
    requires i < |s.params[key]| == |t.params[key]| && MomentumAt(s, key, i) == MomentumAt(t, key, i)
    requires Present(a, key) != [] && Present(b, key) != []
    requires InRange(Present(a, key), i) && InRange(Present(b, key), i)
    requires MeanAt(Present(a, key), i) == MeanAt(Present(b, key), i)
    ensures NewMomentumAt(s, a, key, i, beta) == NewMomentumAt(t, b, key, i, beta)
  {
    hide Present, MeanAt, Mul, AllFit, Shaped;
  }

  /** An element outside the round's fragment does not move, parameter or momentum; one inside takes the full step. */
  lemma RoundAt(s: Outer, deltas: seq<Params>, k: nat, round: int, rates: Rates, key: string, i: nat)
    requires k > 0 && Shaped(s) && AllFit(deltas, s.params) && deltas != [] && key in s.params && i < |s.params[key]|
    ensures var r, full := StreamRound(s, deltas, k, round, rates), Step(s, FilledAll(deltas, s.params), map[], rates);
            && key in r.momentum && key in full.momentum
            && (!Selected(i, k, round) ==> r.params[key][i] == s.params[key][i] && MomentumAt(r, key, i) == MomentumAt(s, key, i))
            && (Selected(i, k, round) ==>
                  r.params[key][i] == full.params[key][i] && MomentumAt(r, key, i) == MomentumAt(full, key, i))
  {
    hide Step, Received, Filled, Fits, AllFit, Present, MeanAt, NewMomentumAt, MomentumAt, Mul, Shaped;
    var f := round % k;
    var rs, fs := ReceivedAll(deltas, s.params, k, f), FilledAll(deltas, s.params);
    PresentAll(rs, key);
    PresentAll(fs, key);
    StepAt(s, rs, FragmentMasks(s.params, k, f), rates, key, i);
    StepAt(s, fs, map[], rates, key, i);
    assert Moves(FragmentMasks(s.params, k, f), key, i) <==> Selected(i, k, f);
    SelectedMod(i, k, round);
    if Selected(i, k, f) {
      ReceivedMean(deltas, s.params, k, f, key, i);
      MeanDecides(s, s, rs, fs, key, i, rates.beta);
    }
  }

  lemma SelectedMod(i: nat, k: nat, round: int)
    requires k > 0
    ensures Selected(i, k, round % k) <==> Selected(i, k, round)
  {
  }

  /** The full step of an element reads only that element. */
  lemma FullAt(s: Outer, t: Outer, deltas: seq<Params>, rates: Rates, key: string, i: nat)
    requires Shaped(s) && SameShape(s, t) && AllFit(deltas, s.params) && deltas != []
    requires key in s.params && i < |s.params[key]|
    requires t.params[key][i] == s.params[key][i] && MomentumAt(t, key, i) == MomentumAt(s, key, i)
    ensures AllFit(deltas, t.params)
    ensures var a, b := Step(s, FilledAll(deltas, s.params), map[], rates), Step(t, FilledAll(deltas, t.params), map[], rates);
            && a.params[key][i] == b.params[key][i] && MomentumAt(a, key, i) == MomentumAt(b, key, i)
  {
    hide Step, Filled, Fits, AllFit, Present, MeanAt, NewMomentumAt, MomentumAt, Mul, Shaped, FilledAll;
    FilledSame(deltas, s.params, t.params);
    var fs := FilledAll(deltas, s.params);
    PresentAll(fs, key);
    PresentFits(fs, s.params, key);
    StepAt(s, fs, map[], rates, key, i);
    StepAt(t, fs, map[], rates, key, i);
    MeanDecides(s, t, fs, fs, key, i, rates.beta);
  }

  lemma FilledSame(deltas: seq<Params>, p: Params, q: Params)
    requires q.Keys == p.Keys && (forall key :: key in p ==> |q[key]| == |p[key]|) && AllFit(deltas, p)
    ensures AllFit(deltas, q) && FilledAll(deltas, q) == FilledAll(deltas, p)
  {
    forall j | 0 <= j < |deltas| ensures Filled(deltas[j], q) == Filled(deltas[j], p) {
    }
  }

  lemma RoundsUnfold(s: Outer, deltas: seq<Params>, k: nat, start: int, n: nat, rates: Rates, i: nat)
    requires k > 0 && Shaped(s) && AllFit(deltas, s.params)
    ensures n == 0 ==> StreamRounds(s, deltas, k, start, n, rates) == s && !Hit(start, n, k, i)
    ensures n > 0 ==>
              var t := StreamRounds(s, deltas, k, start, n - 1, rates);
              && Shaped(t) && t.params.Keys == s.params.Keys
              && (forall key :: key in s.params ==> |t.params[key]| == |s.params[key]|)
              && AllFit(deltas, t.params) && FilledAll(deltas, t.params) == FilledAll(deltas, s.params)
              && StreamRounds(s, deltas, k, start, n, rates) == StreamRound(t, deltas, k, start + n - 1, rates)
              && (Hit(start, n, k, i) <==> Hit(start, n - 1, k, i) || Selected(i, k, start + n - 1))
  {
    hide StreamRound, Selected, FilledAll;
    if n > 0 {
      FilledSame(deltas, s.params, StreamRounds(s, deltas, k, start, n - 1, rates).params);
    }
  }

  /** After n rounds of a cycle the handled elements have taken the full step and the others none. */
  lemma {:induction false} RoundsAt(s: Outer, deltas: seq<Params>, k: nat, start: int, n: nat, rates: Rates, key: string,
                                    i: nat)
    requires k > 0 && n <= k && Shaped(s) && AllFit(deltas, s.params) && deltas != []
    requires key in s.params && i < |s.params[key]|
    ensures var r, full := StreamRounds(s, deltas, k, start, n, rates), Step(s, FilledAll(deltas, s.params), map[], rates);
            && (n > 0 ==> key in r.momentum)
            && r.params[key][i] == (if Hit(start, n, k, i) then full.params[key][i] else s.params[key][i])
            && MomentumAt(r, key, i) == if Hit(start, n, k, i) then MomentumAt(full, key, i) else MomentumAt(s, key, i)
  {
    hide *;
    RoundsUnfold(s, deltas, k, start, n, rates, i);
    if n > 0 {
      RoundsAt(s, deltas, k, start, n - 1, rates, key, i);
      var t := StreamRounds(s, deltas, k, start, n - 1, rates);
      RoundAt(t, deltas, k, start + n - 1, rates, key, i);
      if Hit(start, n - 1, k, i) {
        HitOnce(start, n - 1, k, i, n - 1);
      } else {
        FullAt(s, t, deltas, rates, key, i);
      }
    }
  }

  // ---- momentum keys outside the trunk

  lemma {:induction false} RoundsKeys(s: Outer, deltas: seq<Params>, k: nat, start: int, n: nat, rates: Rates)
    requires k > 0 && Shaped(s) && AllFit(deltas, s.params)
    ensures var r := StreamRounds(s, deltas, k, start, n, rates);
            && r.params.Keys == s.params.Keys
            && s.momentum.Keys <= r.momentum.Keys <= s.momentum.Keys + s.params.Keys
            && forall key :: key in s.momentum && key !in s.params ==> r.momentum[key] == s.momentum[key]
  {
    hide NewMomentum, NewParam, Present, AllFit;
    if n > 0 {
      RoundsKeys(s, deltas, k, start, n - 1, rates);
    }
  }

  /** Any K consecutive rounds over one delta set are one full outer step, in parameters and in momentum, of the
      deltas with zeros for the keys they lack. */
  lemma CycleIsFullStep(s: Outer, deltas: seq<Params>, k: nat, start: int, rates: Rates)
    requires k > 0 && Shaped(s) && AllFit(deltas, s.params) && deltas != []
    ensures StreamRounds(s, deltas, k, start, k, rates) == Step(s, FilledAll(deltas, s.params), map[], rates)
  {
    hide *;
    FullKeys(s, deltas, rates);
    RoundsKeys(s, deltas, k, start, k, rates);
    var r, full := StreamRounds(s, deltas, k, start, k, rates), Step(s, FilledAll(deltas, s.params), map[], rates);
    forall key | key in s.params
      ensures r.params[key] == full.params[key] && key in r.momentum && r.momentum[key] == full.momentum[key]
    {
      CycleKey(s, deltas, k, start, rates, key);
    }
    assert r.params == full.params;
    assert r.momentum == full.momentum;
  }

  /** The keys a step leaves: the trunk's parameters, and momenta for what it touched. */
  lemma StepKeys(s: Outer, deltas: seq<Params>, rates: Rates)
    requires Shaped(s) && AllFit(deltas, s.params)
    ensures Ready(s, deltas, map[])
    ensures var b := Step(s, deltas, map[], rates);
            && b.params.Keys == s.params.Keys
            && b.momentum.Keys == s.momentum.Keys + Touched(s, deltas)
            && forall key :: key in s.momentum && key !in s.params ==> b.momentum[key] == s.momentum[key]
  {
    hide *;
    ReadyUnmasked(s, deltas);
    StepIs(s, deltas, rates);
    TouchedInTrunk(s, deltas);
  }

  lemma ReadyUnmasked(s: Outer, deltas: seq<Params>)
    requires Shaped(s) && AllFit(deltas, s.params)
    ensures Ready(s, deltas, map[])
  {
    hide Shaped, AllFit;
  }

  lemma TouchedInTrunk(s: Outer, deltas: seq<Params>)
    ensures Touched(s, deltas) <= s.params.Keys
    ensures forall key :: key in s.params ==> (key in Touched(s, deltas) <==> Present(deltas, key) != [])
  {
    hide Present;
  }

  lemma StepIs(s: Outer, deltas: seq<Params>, rates: Rates)
    requires Ready(s, deltas, map[])
    ensures Step(s, deltas, map[], rates)
         == Outer(s.params + NewParams(s, deltas, map[], rates, s.params.Keys),
                  s.momentum + NewMomenta(s, deltas, map[], rates, s.params.Keys))
  {
    hide NewParams, NewMomenta, Ready;
  }

  lemma FullKeys(s: Outer, deltas: seq<Params>, rates: Rates)
    requires Shaped(s) && AllFit(deltas, s.params) && deltas != []
    ensures Ready(s, FilledAll(deltas, s.params), map[])
    ensures var full := Step(s, FilledAll(deltas, s.params), map[], rates);
            && full.params.Keys == s.params.Keys
            && full.momentum.Keys == s.momentum.Keys + s.params.Keys
            && forall key :: key in s.momentum && key !in s.params ==> full.momentum[key] == s.momentum[key]
  {
    hide *;
    var fs := FilledAll(deltas, s.params);
    StepKeys(s, fs, rates);
    TouchedInTrunk(s, fs);
    forall key | key in s.params ensures Present(fs, key) != [] {
      PresentFilled(deltas, s.params, key);
    }
    assert Touched(s, fs) == s.params.Keys;
  }

  lemma PresentFilled(deltas: seq<Params>, trunk: Params, key: string)
    requires AllFit(deltas, trunk) && key in trunk
    ensures |Present(FilledAll(deltas, trunk), key)| == |deltas|
  {
    hide Present, AllFit;
    PresentAll(FilledAll(deltas, trunk), key);
  }

  lemma CycleKey(s: Outer, deltas: seq<Params>, k: nat, start: int, rates: Rates, key: string)
    requires k > 0 && Shaped(s) && AllFit(deltas, s.params) && deltas != [] && key in s.params
    ensures var r, full := StreamRounds(s, deltas, k, start, k, rates), Step(s, FilledAll(deltas, s.params), map[], rates);
            && r.params[key] == full.params[key]
            && (key in full.momentum ==> key in r.momentum && r.momentum[key] == full.momentum[key])
  {
    hide StreamRounds, Step, FilledAll, Hit, AllFit;
    var r, full := StreamRounds(s, deltas, k, start, k, rates), Step(s, FilledAll(deltas, s.params), map[], rates);
    forall i | 0 <= i < |s.params[key]|
      ensures r.params[key][i] == full.params[key][i] && MomentumAt(r, key, i) == MomentumAt(full, key, i)
      ensures key in r.momentum
    {
      RoundsAt(s, deltas, k, start, k, rates, key, i);
      HitAll(start, k, i);
    }
    assert r.params[key] == full.params[key];
    CycleTouches(s, deltas, k, start, rates, key);
    if key in full.momentum {
      forall i | 0 <= i < |s.params[key]| ensures r.momentum[key][i] == full.momentum[key][i] {
        assert MomentumAt(r, key, i) == MomentumAt(full, key, i);
      }
      assert r.momentum[key] == full.momentum[key];
    }
  }

  lemma CycleTouches(s: Outer, deltas: seq<Params>, k: nat, start: int, rates: Rates, key: string)
    requires k > 0 && Shaped(s) && AllFit(deltas, s.params) && deltas != [] && key in s.params
    ensures key in StreamRounds(s, deltas, k, start, k, rates).momentum
  {
    var t := StreamRounds(s, deltas, k, start, k - 1, rates);
    hide StreamRounds, NewMomentum, NewParam, Received, Fits;
    FilledSame(deltas, s.params, t.params);
    PresentAll(ReceivedAll(deltas, t.params, k, (start + k - 1) % k), key);
  }

  // ---------------------------------------------------------------- when a cycle is the ordinary step

  /** What a delta gives an element: nothing when it lacks the key. */
  function Entry(d: Params, key: string, i: nat): real { if key in d && i < |d[key]| then d[key][i] else 0.0 }

  function CarriedSum(deltas: seq<Params>, key: string, i: nat): real {
    if deltas == [] then 0.0
    else CarriedSum(deltas[..|deltas| - 1], key, i) + Entry(deltas[|deltas| - 1], key, i)
  }

  lemma SumOneMore(p: seq<Tensor>, x: Tensor, i: nat)
    requires InRange(p, i) && i < |x|
    ensures InRange(p + [x], i) && SumAt(p + [x], i) == SumAt(p, i) + x[i]
  {
    assert (p + [x])[..|p|] == p;
  }

  lemma PresentOneMore(deltas: seq<Params>, key: string)
    requires deltas != []
    ensures var n := |deltas| - 1;
            Present(deltas, key) == Present(deltas[..n], key) + if key in deltas[n] then [deltas[n][key]] else []
  {
  }

  lemma {:induction false} SumIsCarried(deltas: seq<Params>, trunk: Params, key: string, i: nat)
    requires AllFit(deltas, trunk) && key in trunk && i < |trunk[key]|
    ensures InRange(Present(deltas, key), i) && SumAt(Present(deltas, key), i) == CarriedSum(deltas, key, i)
  {
    if deltas != [] {
      var n := |deltas| - 1;
      SumIsCarried(deltas[..n], trunk, key, i);
      var d := deltas[n];
      assert Fits(d, trunk);
      PresentOneMore(deltas, key);
      hide Present, SumAt, InRange;
      var p := Present(deltas[..n], key);
      if key in d {
        SumOneMore(p, d[key], i);
      } else {
        assert p + [] == p;
      }
    }
  }

  lemma {:induction false} SameEntries(a: seq<Params>, b: seq<Params>, key: string, i: nat)
    requires |a| == |b| && forall j :: 0 <= j < |a| ==> Entry(a[j], key, i) == Entry(b[j], key, i)
    ensures CarriedSum(a, key, i) == CarriedSum(b, key, i)
  {
    hide Entry;
    if a != [] {
      SameEntries(a[..|a| - 1], b[..|b| - 1], key, i);
    }
  }

  /** The zeros filled in for a missing key add nothing to its sum. */
  lemma FilledCarries(deltas: seq<Params>, trunk: Params, key: string, i: nat)
    requires AllFit(deltas, trunk) && key in trunk && i < |trunk[key]|
    ensures CarriedSum(FilledAll(deltas, trunk), key, i) == CarriedSum(deltas, key, i)
  {
    hide CarriedSum;
    var fs := FilledAll(deltas, trunk);
    forall j | 0 <= j < |deltas| ensures Entry(fs[j], key, i) == Entry(deltas[j], key, i) {
      assert fs[j] == Filled(deltas[j], trunk);
    }
    SameEntries(fs, deltas, key, i);
  }

  /** An unmasked step of an element, by the sum of what was carried and the number of carriers. */
  lemma StepMean(s: Outer, deltas: seq<Params>, rates: Rates, key: string, i: nat)
    requires Shaped(s) && AllFit(deltas, s.params) && key in s.params && i < |s.params[key]| && Present(deltas, key) != []
    ensures Ready(s, deltas, map[])
    ensures var b := Step(s, deltas, map[], rates);
            var m := Mul(rates.beta, MomentumAt(s, key, i)) + CarriedSum(deltas, key, i) / |Present(deltas, key)| as real;
            && key in b.momentum && MomentumAt(b, key, i) == m
            && b.params[key][i] == s.params[key][i] + Mul(rates.lr, m)
  {
    hide *;
    ReadyUnmasked(s, deltas);
    StepAt(s, deltas, map[], rates, key, i);
    MovedMean(s, deltas, key, i, rates.beta);
    AllMove(key, i);
  }

  lemma AllMove(key: string, i: nat)
    ensures Moves(map[], key, i)
  {
  }

  lemma MovedMean(s: Outer, deltas: seq<Params>, key: string, i: nat, beta: real)
    requires Shaped(s) && AllFit(deltas, s.params) && key in s.params && i < |s.params[key]| && Present(deltas, key) != []
    ensures NewMomentumAt(s, deltas, key, i, beta)
         == Mul(beta, MomentumAt(s, key, i)) + CarriedSum(deltas, key, i) / |Present(deltas, key)| as real
  {
    hide Present, SumAt, CarriedSum, AllFit, Shaped, MomentumAt, Mul, InRange;
    SumIsCarried(deltas, s.params, key, i);
  }

  /** The same of the filled deltas: everyone counts as a carrier. */
  lemma FilledMean(s: Outer, deltas: seq<Params>, rates: Rates, key: string, i: nat)
    requires Shaped(s) && AllFit(deltas, s.params) && key in s.params && i < |s.params[key]| && deltas != []
    ensures Ready(s, FilledAll(deltas, s.params), map[])
    ensures var b := Step(s, FilledAll(deltas, s.params), map[], rates);
            var m := Mul(rates.beta, MomentumAt(s, key, i)) + CarriedSum(deltas, key, i) / |deltas| as real;
            && key in b.momentum && MomentumAt(b, key, i) == m
            && b.params[key][i] == s.params[key][i] + Mul(rates.lr, m)
  {
    hide *;
    PresentFilled(deltas, s.params, key);
    FilledCarries(deltas, s.params, key, i);
    StepMean(s, FilledAll(deltas, s.params), rates, key, i);
  }

  lemma SameQuotient(x: real, m: nat, n: nat)
    requires 0 < m < n
    ensures x / m as real == x / n as real <==> x == 0.0
  {
    var a, b := m as real, n as real;
    var q := x / a;
    assert q * a == x;
    if q == x / b {
      assert q * b == x;
      ZeroFactor(q, b - a);
    }
  }

  lemma ZeroFactor(q: real, d: real)
    requires d > 0.0 && q * d == 0.0
    ensures q == 0.0
  {
  }

  /** The carriers' entries cancel at every element. */
  predicate Cancels(deltas: seq<Params>, key: string, n: nat) { forall i: nat :: i < n ==> ZeroSum(deltas, key, i) }

  predicate ZeroSum(deltas: seq<Params>, key: string, i: nat) { CarriedSum(deltas, key, i) == 0.0 }

  /** A step of zeros keeps the momentum and moves no parameter. */
  predicate AtRest(m: Tensor, rates: Rates) {
    forall i :: 0 <= i < |m| ==> Mul(rates.beta, m[i]) == m[i] && Mul(rates.lr, m[i]) == 0.0
  }

  /** Every delta carries the key; or some do, and cancel; or none does, and its momentum is at rest. */
  predicate KeySettled(s: Outer, deltas: seq<Params>, rates: Rates, key: string)
    requires key in s.params
  {
    var carriers := |Present(deltas, key)|;
    if carriers == |deltas| then true
    else if carriers > 0 then Cancels(deltas, key, |s.params[key]|)
    else key in s.momentum && AtRest(s.momentum[key], rates)
  }

  /** What two states hold at one key is the same. */
  predicate SameAt(a: Outer, b: Outer, key: string) {
    && key in a.params && key in b.params && a.params[key] == b.params[key]
    && (key in a.momentum <==> key in b.momentum)
    && (key in a.momentum && key in b.momentum ==> a.momentum[key] == b.momentum[key])
  }

  /** What they hold at one element is. */
  predicate SameElement(a: Outer, b: Outer, key: string, i: nat)
    requires Shaped(a) && Shaped(b) && key in a.params && key in b.params
    requires i < |a.params[key]| && i < |b.params[key]|
  {
    a.params[key][i] == b.params[key][i] && MomentumAt(a, key, i) == MomentumAt(b, key, i)
  }

  lemma SameByElements(a: Outer, b: Outer, key: string)
    requires Shaped(a) && Shaped(b) && key in a.params && key in b.params && key in a.momentum && key in b.momentum
    requires |a.params[key]| == |b.params[key]|
    ensures SameAt(a, b, key) <==> forall i: nat :: i < |a.params[key]| ==> SameElement(a, b, key, i)
  {
    if forall i: nat :: i < |a.params[key]| ==> SameElement(a, b, key, i) {
      forall i: nat | i < |a.params[key]|
        ensures a.params[key][i] == b.params[key][i] && a.momentum[key][i] == b.momentum[key][i]
      {
        assert SameElement(a, b, key, i);
      }
    }
  }

  lemma {:induction false} PresentAtMost(deltas: seq<Params>, key: string)
    ensures |Present(deltas, key)| <= |deltas|
  {
    if deltas != [] {
      PresentAtMost(deltas[..|deltas| - 1], key);
    }
  }

  lemma CarriedElementAgrees(s: Outer, deltas: seq<Params>, rates: Rates, key: string, i: nat)
    requires Shaped(s) && AllFit(deltas, s.params) && deltas != [] && key in s.params && Present(deltas, key) != []
    requires i < |s.params[key]| && Ready(s, FilledAll(deltas, s.params), map[]) && Ready(s, deltas, map[])
    ensures SameElement(Step(s, FilledAll(deltas, s.params), map[], rates), Step(s, deltas, map[], rates), key, i)
       <==> |Present(deltas, key)| == |deltas| || ZeroSum(deltas, key, i)
  {
    hide *;
    FilledMean(s, deltas, rates, key, i);
    StepMean(s, deltas, rates, key, i);
    PresentAtMost(deltas, key);
    ZeroSumIs(deltas, key, i);
    var a, b := Step(s, FilledAll(deltas, s.params), map[], rates), Step(s, deltas, map[], rates);
    SameElementIs(a, b, key, i);
    if |Present(deltas, key)| < |deltas| {
      SameQuotient(CarriedSum(deltas, key, i), |Present(deltas, key)|, |deltas|);
    }
  }

  lemma ZeroSumIs(deltas: seq<Params>, key: string, i: nat)
    ensures ZeroSum(deltas, key, i) <==> CarriedSum(deltas, key, i) == 0.0
  {
  }

  lemma SameElementIs(a: Outer, b: Outer, key: string, i: nat)
    requires Shaped(a) && Shaped(b) && key in a.params && key in b.params
    requires i < |a.params[key]| && i < |b.params[key]|
    ensures SameElement(a, b, key, i)
       <==> a.params[key][i] == b.params[key][i] && MomentumAt(a, key, i) == MomentumAt(b, key, i)
  {
  }

  /** Carried by some deltas: the averages differ by their divisor only. */
  lemma CarriedKeyAgrees(s: Outer, deltas: seq<Params>, rates: Rates, key: string)
    requires Shaped(s) && AllFit(deltas, s.params) && deltas != [] && key in s.params && Present(deltas, key) != []
    requires Ready(s, FilledAll(deltas, s.params), map[]) && Ready(s, deltas, map[])
    ensures SameAt(Step(s, FilledAll(deltas, s.params), map[], rates), Step(s, deltas, map[], rates), key)
       <==> KeySettled(s, deltas, rates, key)
  {
    hide *;
    var a, b := Step(s, FilledAll(deltas, s.params), map[], rates), Step(s, deltas, map[], rates);
    FullKeys(s, deltas, rates);
    StepKeys(s, deltas, rates);
    TouchedInTrunk(s, deltas);
    SameByElements(a, b, key);
    CancelsIs(deltas, key, |s.params[key]|);
    forall i: nat | i < |s.params[key]|
      ensures SameElement(a, b, key, i) <==> |Present(deltas, key)| == |deltas| || ZeroSum(deltas, key, i)
    {
      CarriedElementAgrees(s, deltas, rates, key, i);
    }
    SettledCarried(s, deltas, rates, key);
  }

  lemma SettledCarried(s: Outer, deltas: seq<Params>, rates: Rates, key: string)
    requires key in s.params && Present(deltas, key) != []
    ensures KeySettled(s, deltas, rates, key)
       <==> |Present(deltas, key)| == |deltas| || Cancels(deltas, key, |s.params[key]|)
  {
    hide CarriedSum, AtRest, Cancels;
  }

  lemma CancelsIs(deltas: seq<Params>, key: string, n: nat)
    ensures Cancels(deltas, key, n) <==> forall i: nat :: i < n ==> ZeroSum(deltas, key, i)
  {
    hide ZeroSum;
  }

  lemma SettledMissing(s: Outer, deltas: seq<Params>, rates: Rates, key: string)
    requires key in s.params && Present(deltas, key) == [] && deltas != []
    ensures KeySettled(s, deltas, rates, key) <==> key in s.momentum && AtRest(s.momentum[key], rates)
  {
    hide Present, Cancels, AtRest;
  }

  lemma UntouchedAt(s: Outer, deltas: seq<Params>, rates: Rates, key: string)
    requires Ready(s, deltas, map[]) && key in s.params && Present(deltas, key) == []
    ensures var b := Step(s, deltas, map[], rates);
            && b.params[key] == s.params[key]
            && (key in b.momentum <==> key in s.momentum)
            && (key in s.momentum ==> b.momentum[key] == s.momentum[key])
  {
    hide *;
    StepIs(s, deltas, rates);
    TouchedInTrunk(s, deltas);
  }

  lemma {:induction false} NothingCarried(deltas: seq<Params>, key: string, i: nat)
    requires Present(deltas, key) == []
    ensures CarriedSum(deltas, key, i) == 0.0
  {
    if deltas != [] {
      PresentOneMore(deltas, key);
      NothingCarried(deltas[..|deltas| - 1], key, i);
    }
  }

  lemma MissingElementAgrees(s: Outer, deltas: seq<Params>, rates: Rates, key: string, i: nat)
    requires Shaped(s) && AllFit(deltas, s.params) && deltas != [] && key in s.params && Present(deltas, key) == []
    requires i < |s.params[key]| && key in s.momentum && Ready(s, FilledAll(deltas, s.params), map[])
    ensures |s.momentum[key]| == |s.params[key]|
    ensures SameElement(Step(s, FilledAll(deltas, s.params), map[], rates), s, key, i)
       <==> Mul(rates.beta, s.momentum[key][i]) == s.momentum[key][i] && Mul(rates.lr, s.momentum[key][i]) == 0.0
  {
    hide *;
    MomentumOf(s, key, i);
    FilledMean(s, deltas, rates, key, i);
    NothingCarried(deltas, key, i);
    NoShare(|deltas|);
    SameElementIs(Step(s, FilledAll(deltas, s.params), map[], rates), s, key, i);
  }

  lemma MomentumOf(s: Outer, key: string, i: nat)
    requires Shaped(s) && key in s.params && i < |s.params[key]|
    ensures key in s.momentum ==> |s.momentum[key]| == |s.params[key]| && MomentumAt(s, key, i) == s.momentum[key][i]
  {
  }

  lemma NoShare(n: nat)
    requires n > 0
    ensures 0.0 / n as real == 0.0
  {
  }

  lemma AtRestIs(s: Outer, key: string, rates: Rates)
    requires Shaped(s) && key in s.params && key in s.momentum
    ensures |s.momentum[key]| == |s.params[key]|
    ensures AtRest(s.momentum[key], rates)
       <==> forall i: nat :: i < |s.params[key]| ==>
              Mul(rates.beta, s.momentum[key][i]) == s.momentum[key][i] && Mul(rates.lr, s.momentum[key][i]) == 0.0
  {
    hide Mul;
  }

  /** Carried by none: the cycle takes a step of zeros, the ordinary step leaves the key alone. */
  lemma MissingKeyAgrees(s: Outer, deltas: seq<Params>, rates: Rates, key: string)
    requires Shaped(s) && AllFit(deltas, s.params) && deltas != [] && key in s.params && Present(deltas, key) == []
    requires Ready(s, FilledAll(deltas, s.params), map[]) && Ready(s, deltas, map[])
    ensures SameAt(Step(s, FilledAll(deltas, s.params), map[], rates), Step(s, deltas, map[], rates), key)
       <==> KeySettled(s, deltas, rates, key)
  {
    hide *;
    var a, b := Step(s, FilledAll(deltas, s.params), map[], rates), Step(s, deltas, map[], rates);
    FullKeys(s, deltas, rates);
    UntouchedAt(s, deltas, rates, key);
    SettledMissing(s, deltas, rates, key);
    SameAtIs(a, b, key);
    SameAtIs(a, s, key);
    if key in s.momentum {
      SameByElements(a, s, key);
      AtRestIs(s, key, rates);
      forall i: nat | i < |s.params[key]|
        ensures SameElement(a, s, key, i)
           <==> Mul(rates.beta, s.momentum[key][i]) == s.momentum[key][i] && Mul(rates.lr, s.momentum[key][i]) == 0.0
      {
        MissingElementAgrees(s, deltas, rates, key, i);
      }
    }
  }

  lemma SameAtIs(a: Outer, b: Outer, key: string)
    requires key in a.params && key in b.params
    ensures SameAt(a, b, key)
       <==> a.params[key] == b.params[key]
            && (key in a.momentum <==> key in b.momentum)
            && (key in a.momentum && key in b.momentum ==> a.momentum[key] == b.momentum[key])
  {
  }

  /** States that agree key by key on the trunk, and hold the same beside it, are equal. */
  lemma SameByKeys(a: Outer, b: Outer, trunk: set<string>)
    requires a.params.Keys == b.params.Keys == trunk
    requires a.momentum.Keys - trunk == b.momentum.Keys - trunk
    requires forall key :: key in a.momentum && key in b.momentum && key !in trunk ==> a.momentum[key] == b.momentum[key]
    ensures a == b <==> forall key :: key in trunk ==> SameAt(a, b, key)
  {
    if forall key :: key in trunk ==> SameAt(a, b, key) {
      assert a.params == b.params;
      forall key ensures key in a.momentum <==> key in b.momentum {
        if key in trunk {
          assert SameAt(a, b, key);
        } else {
          assert key in a.momentum.Keys - trunk <==> key in b.momentum.Keys - trunk;
        }
      }
      forall key | key in a.momentum ensures a.momentum[key] == b.momentum[key] {
        if key in trunk {
          assert SameAt(a, b, key);
        }
      }
      assert a.momentum == b.momentum;
    }
  }

  /** A cycle of K streaming rounds is the ordinary full step exactly when every trunk key is carried by every delta,
      or by some whose entries cancel at each element, or by none while its momentum is one that a step of zeros keeps
      and that moves no parameter. */
  lemma FullSyncExactly(s: Outer, deltas: seq<Params>, k: nat, start: int, rates: Rates)
    requires k > 0 && Shaped(s) && AllFit(deltas, s.params) && deltas != []
    ensures StreamRounds(s, deltas, k, start, k, rates) == Step(s, deltas, map[], rates)
       <==> forall key :: key in s.params ==> KeySettled(s, deltas, rates, key)
  {
    hide *;
    CycleIsFullStep(s, deltas, k, start, rates);
    FullKeys(s, deltas, rates);
    StepKeys(s, deltas, rates);
    TouchedInTrunk(s, deltas);
    var a, b := Step(s, FilledAll(deltas, s.params), map[], rates), Step(s, deltas, map[], rates);
    SameByKeys(a, b, s.params.Keys);
    forall key | key in s.params ensures SameAt(a, b, key) <==> KeySettled(s, deltas, rates, key) {
      if Present(deltas, key) == [] {
        MissingKeyAgrees(s, deltas, rates, key);
      } else {
        CarriedKeyAgrees(s, deltas, rates, key);
      }
    }
  }

  /** In particular when every delta carries every trunk key. */
  lemma FullSyncIfAllPresent(s: Outer, deltas: seq<Params>, k: nat, start: int, rates: Rates)
    requires k > 0 && Shaped(s) && AllFit(deltas, s.params) && deltas != []
    requires forall j, key :: 0 <= j < |deltas| && key in s.params ==> key in deltas[j]
    ensures StreamRounds(s, deltas, k, start, k, rates) == Step(s, deltas, map[], rates)
  {
    hide *;
    FullSyncExactly(s, deltas, k, start, rates);
    forall key | key in s.params ensures KeySettled(s, deltas, rates, key) {
      PresentAll(deltas, key);
      SettledCarried(s, deltas, rates, key);
    }
  }

  /** An element of the parameters a cycle, and the ordinary step, arrive at. */
  function CycleParam(s: Outer, deltas: seq<Params>, k: nat, start: int, rates: Rates, key: string, i: nat): real
    requires k > 0 && Shaped(s) && AllFit(deltas, s.params) && key in s.params && i < |s.params[key]|
  {
    StreamRounds(s, deltas, k, start, k, rates).params[key][i]
  }

  function StepParam(s: Outer, deltas: seq<Params>, rates: Rates, key: string, i: nat): real
    requires Shaped(s) && AllFit(deltas, s.params) && key in s.params && i < |s.params[key]|
  {
    Step(s, deltas, map[], rates).params[key][i]
  }

  lemma CycleMean(s: Outer, deltas: seq<Params>, k: nat, start: int, rates: Rates, key: string, i: nat)
    requires k > 0 && Shaped(s) && AllFit(deltas, s.params) && key in s.params && i < |s.params[key]|
    requires Present(deltas, key) != [] && deltas != []
    ensures CycleParam(s, deltas, k, start, rates, key, i) == s.params[key][i]
              + Mul(rates.lr, Mul(rates.beta, MomentumAt(s, key, i)) + CarriedSum(deltas, key, i) / |deltas| as real)
    ensures StepParam(s, deltas, rates, key, i) == s.params[key][i]
              + Mul(rates.lr, Mul(rates.beta, MomentumAt(s, key, i))
                                + CarriedSum(deltas, key, i) / |Present(deltas, key)| as real)
  {
    hide StreamRounds, Step, Shaped, AllFit, Present, FilledAll, CarriedSum, MomentumAt, Mul, Ready;
    CycleIsFullStep(s, deltas, k, start, rates);
    FilledMean(s, deltas, rates, key, i);
    StepMean(s, deltas, rates, key, i);
  }

  /** The case in which it is not: two contributors, one of them without the key.  The cycle halves the step. */
  lemma MissingKeyHalvesTheStep(w: Tensor, x: Tensor, k: nat, start: int, rates: Rates)
    requires k > 0 && |w| == |x| == 1
    ensures var s, deltas := Outer(map["w" := w], map[]), [map["w" := x], map[]];
            && Shaped(s) && AllFit(deltas, s.params)
            && CycleParam(s, deltas, k, start, rates, "w", 0) == w[0] + Mul(rates.lr, x[0] / 2.0)
            && StepParam(s, deltas, rates, "w", 0) == w[0] + Mul(rates.lr, x[0])
  {
    hide CycleParam, StepParam, Present, CarriedSum, Mul, MomentumAt;
    var s, deltas := Outer(map["w" := w], map[]), [map["w" := x], map[]];
    OneOfTwo(w, x);
    ZeroMomentum(s, rates.beta);
    Halves(x[0]);
    CycleMean(s, deltas, k, start, rates, "w", 0);
  }

  lemma Halves(x: real)
    ensures x / 1 as real == x && x / 2 as real == x / 2.0
  {
  }

  lemma OneOfTwo(w: Tensor, x: Tensor)
    requires |w| == |x| == 1
    ensures var s, deltas := Outer(map["w" := w], map[]), [map["w" := x], map[]];
            && Shaped(s) && AllFit(deltas, s.params)
            && |Present(deltas, "w")| == 1 && CarriedSum(deltas, "w", 0) == x[0]
  {
    var deltas: seq<Params> := [map["w" := x], map[]];
    PresentOneMore(deltas, "w");
    PresentOneMore(deltas[..1], "w");
    assert deltas[..1] == [map["w" := x]] && deltas[..1][..0] == [];
    assert CarriedSum(deltas[..1], "w", 0) == CarriedSum([], "w", 0) + x[0];
  }

  lemma ZeroMomentum(s: Outer, beta: real)
    requires Shaped(s) && "w" in s.params && "w" !in s.momentum && |s.params["w"]| > 0
    ensures Mul(beta, MomentumAt(s, "w", 0)) == 0.0
  {
  }

  // ---------------------------------------------------------------- what the definitions mean

  /** An element belongs to a fragment exactly when their numbers differ by a multiple of K. */
  lemma SelectedExactly(i: nat, k: nat, fragment: int)
    requires k > 0
    ensures Selected(i, k, fragment) <==> exists q :: i - fragment == q * k
  {
    var a, b := i / k, fragment / k;
    assert i == a * k + i % k && fragment == b * k + fragment % k;
    if Selected(i, k, fragment) {
      assert i - fragment == (a - b) * k;
    }
    if q :| i - fragment == q * k {
      assert i == (q + b) * k + fragment % k;
      DivModUnique(i, q + b, fragment % k, k);
    }
  }

  /** Where an element lands when compacted is the number of elements before it in its fragment. */
  lemma {:induction false} RankCounts(n: nat, k: nat, fragment: int)
    requires k > 0
    ensures Rank(n, k, fragment) == |set j: nat | j < n && Selected(j, k, fragment)|
  {
    if n > 0 {
      RankCounts(n - 1, k, fragment);
      hide Selected;
      var all, front := set j: nat | j < n && Selected(j, k, fragment), set j: nat | j < n - 1 && Selected(j, k, fragment);
      assert all == if Selected(n - 1, k, fragment) then front + {n - 1} else front;
    }
  }

  /** The deltas that carry a key. */
  function Carriers(deltas: seq<Params>, key: string): set<nat> { set j: nat | j < |deltas| && key in deltas[j] }

  lemma {:induction false} PresentCount(deltas: seq<Params>, key: string)
    ensures |Present(deltas, key)| == |Carriers(deltas, key)|
  {
    if deltas != [] {
      var n := |deltas| - 1;
      PresentCount(deltas[..n], key);
      assert Carriers(deltas, key) == if key in deltas[n] then Carriers(deltas[..n], key) + {n} else Carriers(deltas[..n], key);
    }
  }

  /** The masked outer step: where the mask lets it, an element's momentum becomes beta times itself plus the average over
      the deltas that carry its key, and the element moves by the rate times that; elsewhere, and on keys nobody carries,
      neither changes. */
  lemma MaskedStepExactly(s: Outer, deltas: seq<Params>, masks: Masks, rates: Rates, key: string, i: nat)
    requires Ready(s, deltas, masks) && key in s.params && i < |s.params[key]|
    ensures var r, carriers := Step(s, deltas, masks, rates), Carriers(deltas, key);
            && |r.params[key]| == |s.params[key]|
            && (carriers != {} && (key !in masks || masks[key][i]) ==>
                  var m := Mul(rates.beta, MomentumAt(s, key, i)) + CarriedSum(deltas, key, i) / |carriers| as real;
                  && key in r.momentum && r.momentum[key][i] == m
                  && r.params[key][i] == s.params[key][i] + Mul(rates.lr, m))
            && (carriers != {} && key in masks && !masks[key][i] ==>
                  MomentumAt(r, key, i) == MomentumAt(s, key, i) && r.params[key][i] == s.params[key][i])
            && (carriers == {} ==>
                  && r.params[key] == s.params[key] && (key in r.momentum <==> key in s.momentum)
                  && (key in s.momentum ==> r.momentum[key] == s.momentum[key]))
  {
    hide *;
    PresentCount(deltas, key);
    ReadyIs(s, deltas, masks);
    SomeCarrier(deltas, key);
    if Carriers(deltas, key) != {} {
      StepAt(s, deltas, masks, rates, key, i);
      MovedMean(s, deltas, key, i, rates.beta);
      MaskMeans(masks, key, i);
      MomentumOf(Step(s, deltas, masks, rates), key, i);
    } else {
      UncarriedAt(s, deltas, masks, rates, key);
    }
  }

  lemma ReadyIs(s: Outer, deltas: seq<Params>, masks: Masks)
    requires Ready(s, deltas, masks)
    ensures Shaped(s) && AllFit(deltas, s.params) && MasksFit(masks, s.params)
    ensures forall key :: key in s.params && key in masks ==> |masks[key]| == |s.params[key]|
  {
  }

  lemma SomeCarrier(deltas: seq<Params>, key: string)
    ensures Carriers(deltas, key) != {} <==> |Carriers(deltas, key)| > 0
  {
    if j :| j in Carriers(deltas, key) {
      assert |Carriers(deltas, key) - {j}| == |Carriers(deltas, key)| - 1;
    }
  }

  lemma MaskMeans(masks: Masks, key: string, i: nat)
    requires key in masks ==> i < |masks[key]|
    ensures Moves(masks, key, i) <==> key !in masks || masks[key][i]
  {
  }

  lemma UncarriedAt(s: Outer, deltas: seq<Params>, masks: Masks, rates: Rates, key: string)
    requires Ready(s, deltas, masks) && key in s.params && Present(deltas, key) == []
    ensures var r := Step(s, deltas, masks, rates);
            && r.params[key] == s.params[key] && (key in r.momentum <==> key in s.momentum)
            && (key in s.momentum ==> r.momentum[key] == s.momentum[key])
  {
    hide NewParam, NewMomentum, Ready;
  }
}
