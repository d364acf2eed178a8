/** Held-out-gated merging of contributed deltas (neurahash/diloco_merge.py): one delta, or a batch merged by measured
    gain with a serial fallback.  Arithmetic is exact and `eval` is a pure function of the trunk. */
module Merge {
  import opened Prelude
  import opened Sorting
  import opened Sums

  type Tensor = seq<real>
  type Params = map<string, Tensor>
  type Loss = Params -> real

  // ---------------------------------------------------------------- one delta

  /** The trunk keys a delta can move: present in it, with the same shape. */
  function Matched(trunk: Params, delta: Params): set<string> {
    set k | k in trunk && k in delta && |trunk[k]| == |delta[k]|
  }

  function Step(a: Tensor, rate: real, d: Tensor): (r: Tensor)
    requires |a| == |d|
    ensures |r| == |a|
  {
    seq(|a|, i requires 0 <= i < |a| => a[i] + Mul(rate, d[i]))
  }

  /** The trunk moved along a delta on the matched keys. */
  function Moved(trunk: Params, delta: Params, outer: real): (r: Params)
    ensures r.Keys == trunk.Keys && forall k :: k in r ==> |r[k]| == |trunk[k]|
  {
    map k | k in trunk :: if k in Matched(trunk, delta) then Step(trunk[k], outer, delta[k]) else trunk[k]
  }

  datatype Verdict = Verdict(accepted: bool, matched: nat, missing: nat, baseVal: Option<real>, mergedVal: Option<real>)

  /** The gate is strict: a delta that changes nothing is not accepted at margin zero. */
  function Gate(trunk: Params, delta: Params, eval: Loss, outer: real, margin: real): Verdict {
    var keys := Matched(trunk, delta);
    var missing := |trunk.Keys - keys|;
    if keys == {} then Verdict(false, 0, missing, None, None)
    else
      var base, merged := eval(trunk), eval(Moved(trunk, delta, outer));
      Verdict(merged < base - margin, |keys|, missing, Some(base), Some(merged))
  }

  /** The rule the documentation of `apply_delta_gated` states. */
  predicate Documented(trunk: Params, delta: Params, eval: Loss, outer: real, margin: real) {
    eval(Moved(trunk, delta, outer)) <= eval(trunk) - margin
  }

  /** The gate keeps the documented rule exactly off the boundary; a delta without a usable key it always rejects. */
  lemma GateAsDocumentedExactly(trunk: Params, delta: Params, eval: Loss, outer: real, margin: real)
    ensures Gate(trunk, delta, eval, outer, margin).accepted == Documented(trunk, delta, eval, outer, margin)
       <==> if Matched(trunk, delta) == {} then margin > 0.0
            else eval(Moved(trunk, delta, outer)) != eval(trunk) - margin
  {
    if Matched(trunk, delta) == {} {
      assert Moved(trunk, delta, outer) == trunk;
    }
  }

  predicate AllZero(a: Tensor) { forall i :: 0 <= i < |a| ==> a[i] == 0.0 }

  /** A delta of zeros: the rule would take it at margin zero, the gate does not. */
  lemma ZeroDeltaRejected(trunk: Params, delta: Params, eval: Loss, outer: real)
    requires forall k :: k in Matched(trunk, delta) ==> AllZero(delta[k])
    ensures Moved(trunk, delta, outer) == trunk
    ensures Documented(trunk, delta, eval, outer, 0.0) && !Gate(trunk, delta, eval, outer, 0.0).accepted
  {
    forall k | k in trunk ensures Moved(trunk, delta, outer)[k] == trunk[k] {
      if k in Matched(trunk, delta) {
        assert AllZero(delta[k]);
        ZeroStep(trunk[k], outer, delta[k]);
      }
    }
  }

  lemma ZeroStep(a: Tensor, rate: real, d: Tensor)
    requires |a| == |d| && AllZero(d)
    ensures Step(a, rate, d) == a
  {
  }

  /** The coordinator's trunk, updated in place. */
  class Trunk {
    var params: Params

    constructor (params: Params)
      ensures this.params == params
    {
      this.params := params;
    }
  }

  method ApplyDeltaGated(t: Trunk, delta: Params, eval: Loss, outer: real, margin: real, apply: bool)
    returns (v: Verdict)
    modifies t
    ensures v == Gate(old(t.params), delta, eval, outer, margin)
    ensures t.params == if v.accepted && apply then Moved(old(t.params), delta, outer) else old(t.params)
  {
    var keys := Matched(t.params, delta);
    var missing := |t.params.Keys - keys|;
    if keys == {} {
      return Verdict(false, 0, missing, None, None);
    }
    var base := eval(t.params);
    var merged := MoveKeys(t.params, t.params, keys, delta, outer);
    var mergedVal := eval(merged);
    v := Verdict(mergedVal < base - margin, |keys|, missing, Some(base), Some(mergedVal));
    if v.accepted && apply {
      t.params := MoveKeys(t.params, t.params, keys, delta, outer);
    }
  }

  /** The update loop, one key at a time. */
  method MoveKeys(start: Params, trunk: Params, keys: set<string>, delta: Params, outer: real) returns (out: Params)
    requires start == trunk && keys == Matched(trunk, delta)
    ensures out == Moved(trunk, delta, outer)
  {
    out := start;
    var left := keys;
    while left != {}
      invariant left <= keys && out.Keys == trunk.Keys
      invariant forall k :: k in trunk ==>
                  out[k] == if k in keys && k !in left then Step(trunk[k], outer, delta[k]) else trunk[k]
      decreases left
    {
      var k :| k in left;
      out := out[k := Step(out[k], outer, delta[k])];
      left := left - {k};
    }
  }

  // ---------------------------------------------------------------- batches

  datatype Candidate = Candidate(cid: string, delta: Params)

  datatype Mode = Combined | SerialFallback | AllRejected

  /** What one candidate gets out of a batch. */
  datatype Row = Row(cid: string, gain: real, weight: real, accepted: bool, matched: nat)

  datatype Batch = Batch(mode: Mode, accepted: bool, baseVal: Option<real>, mergedVal: Option<real>, rows: seq<Row>,
                         appliedOrder: seq<string>)

  datatype Setup = Setup(cands: seq<Candidate>, eval: Loss, outer: real, margin: real)

  /** How much a candidate alone would lower the loss. */
  function Gain(trunk: Params, delta: Params, eval: Loss, outer: real): real {
    if Matched(trunk, delta) == {} then 0.0 else eval(trunk) - eval(Moved(trunk, delta, outer))
  }

  function Gains(s: Setup, trunk: Params): (r: seq<real>)
    ensures |r| == |s.cands|
  {
    seq(|s.cands|, i requires 0 <= i < |s.cands| => Gain(trunk, s.cands[i].delta, s.eval, s.outer))
  }

  /** The sum of the positive gains. */
  function GainSum(gains: seq<real>): (r: real)
    ensures r >= 0.0
    ensures (exists i :: 0 <= i < |gains| && gains[i] > 0.0) ==> r > 0.0
  {
    if gains == [] then 0.0 else GainSum(gains[..|gains| - 1]) + RealMax(0.0, gains[|gains| - 1])
  }

  function Weight(gains: seq<real>, i: nat): real
    requires i < |gains|
  {
    if gains[i] > 0.0 && GainSum(gains) > 0.0 then gains[i] / GainSum(gains) else 0.0
  }

  /** One key of the accumulator after adding a weighted delta; a new key starts from zeros. */
  function AccumulatedKey(acc: Params, trunk: Params, w: real, delta: Params, k: string): (r: Tensor)
    requires k in Matched(trunk, delta) && (k in acc ==> |acc[k]| == |trunk[k]|)
    ensures |r| == |trunk[k]|
  {
    Step(if k in acc then acc[k] else seq(|trunk[k]|, _ => 0.0), w, delta[k])
  }

  /** One candidate added into the per-key accumulator, on some of the keys it matches. */
  function AccumulatePart(acc: Params, trunk: Params, w: real, delta: Params, done: set<string>): (r: Params)
    requires done <= Matched(trunk, delta) && forall k :: k in acc ==> k in trunk && |acc[k]| == |trunk[k]|
    ensures r.Keys == acc.Keys + done
    ensures forall k :: k in r ==> k in trunk && |r[k]| == |trunk[k]|
  {
    map k | k in acc.Keys + done :: if k in done then AccumulatedKey(acc, trunk, w, delta, k) else acc[k]
  }

  /** One positive candidate added into the per-key accumulator. */
  function Accumulate(acc: Params, trunk: Params, w: real, delta: Params): (r: Params)
    requires forall k :: k in acc ==> k in trunk && |acc[k]| == |trunk[k]|
    ensures forall k :: k in r ==> k in trunk && |r[k]| == |trunk[k]|
  {
    AccumulatePart(acc, trunk, w, delta, Matched(trunk, delta))
  }

  function Accumulated(s: Setup, trunk: Params, gains: seq<real>, n: nat): (r: Params)
    requires n <= |s.cands| == |gains|
    ensures forall k :: k in r ==> k in trunk && |r[k]| == |trunk[k]|
  {
    if n == 0 then map[]
    else
      var acc := Accumulated(s, trunk, gains, n - 1);
      if gains[n - 1] > 0.0 then Accumulate(acc, trunk, Weight(gains, n - 1), s.cands[n - 1].delta) else acc
  }

  /** trunk + outer * sum of weighted deltas, on the keys some positive candidate moves. */
  function CombinedTrunk(s: Setup, trunk: Params, gains: seq<real>): (r: Params)
    requires |s.cands| == |gains|
    ensures r.Keys == trunk.Keys
  {
    var acc := Accumulated(s, trunk, gains, |gains|);
    map k | k in trunk :: if k in acc then Step(trunk[k], s.outer, acc[k]) else trunk[k]
  }

  // ---- the serial fallback

  function StringLe(a: string, b: string): bool {
    a == [] || (b != [] && (a[0] < b[0] || (a[0] == b[0] && StringLe(a[1..], b[1..]))))
  }

  function GainAt(gains: seq<real>, i: nat): real { if i < |gains| then gains[i] else 0.0 }

  function CidAt(cands: seq<Candidate>, i: nat): string { if i < |cands| then cands[i].cid else "" }

  /** Descending gain, then ascending cid, then input order. */
  function Before(cands: seq<Candidate>, gains: seq<real>): (nat, nat) -> bool {
    (i: nat, j: nat) =>
      GainAt(gains, i) > GainAt(gains, j)
      || (GainAt(gains, i) == GainAt(gains, j)
          && (if CidAt(cands, i) == CidAt(cands, j) then i <= j else StringLe(CidAt(cands, i), CidAt(cands, j))))
  }

  function PositiveUpTo(gains: seq<real>, n: nat): (r: seq<nat>)
    requires n <= |gains|
    ensures forall i: nat :: i in r <==> i < n && gains[i] > 0.0
    ensures forall a, b :: 0 <= a < b < |r| ==> r[a] != r[b]
  {
    if n == 0 then [] else PositiveUpTo(gains, n - 1) + if gains[n - 1] > 0.0 then [n - 1] else []
  }

  function SerialOrder(s: Setup, gains: seq<real>): seq<nat> {
    Sort(PositiveUpTo(gains, |gains|), Before(s.cands, gains))
  }

  /** Where the fallback stands: the working trunk, its loss, what each tried candidate gained, which were taken. */
  datatype Serial = Serial(work: Params, running: real, gained: map<nat, real>, taken: set<nat>)

  function SerialStep(s: Setup, at: Serial, i: nat): Serial
    requires i < |s.cands|
  {
    var v := Gate(at.work, s.cands[i].delta, s.eval, s.outer, s.margin);
    if v.accepted && v.mergedVal.Some? then
      Serial(Moved(at.work, s.cands[i].delta, s.outer), v.mergedVal.value,
             at.gained[i := at.running - v.mergedVal.value], at.taken + {i})
    else at.(gained := at.gained[i := 0.0])
  }

  predicate InRange(order: seq<nat>, n: nat) { forall j :: 0 <= j < |order| ==> order[j] < n }

  function SerialRun(s: Setup, start: Serial, order: seq<nat>): Serial
    requires InRange(order, |s.cands|)
  {
    if order == [] then start else SerialStep(s, SerialRun(s, start, order[..|order| - 1]), order[|order| - 1])
  }

  function BlankRow(s: Setup, trunk: Params, i: nat): Row
    requires i < |s.cands|
  {
    Row(s.cands[i].cid, 0.0, 0.0, false, |Matched(trunk, s.cands[i].delta)|)
  }

  function BlankRows(s: Setup, trunk: Params): (r: seq<Row>)
    ensures |r| == |s.cands|
  {
    seq(|s.cands|, i requires 0 <= i < |s.cands| => BlankRow(s, trunk, i))
  }

  function CombinedRows(s: Setup, trunk: Params, gains: seq<real>, total: real): (r: seq<Row>)
    requires |gains| == |s.cands|
    ensures |r| == |s.cands|
  {
    seq(|s.cands|, i requires 0 <= i < |s.cands| =>
      if gains[i] > 0.0
      then BlankRow(s, trunk, i).(gain := Mul(total, Weight(gains, i)), weight := Weight(gains, i), accepted := true)
      else BlankRow(s, trunk, i))
  }

  function SerialRows(s: Setup, trunk: Params, gains: seq<real>, end: Serial): (r: seq<Row>)
    requires |gains| == |s.cands|
    ensures |r| == |s.cands|
  {
    seq(|s.cands|, i requires 0 <= i < |s.cands| =>
      if i in end.gained
      then BlankRow(s, trunk, i).(gain := end.gained[i], weight := Weight(gains, i), accepted := i in end.taken)
      else BlankRow(s, trunk, i))
  }

  /** The verdict on a batch, and the trunk it would leave. */
  datatype Outcome = Outcome(batch: Batch, trunk: Params)

  function MergeOne(s: Setup, trunk: Params): Outcome
    requires |s.cands| == 1
  {
    var v := Gate(trunk, s.cands[0].delta, s.eval, s.outer, s.margin);
    var gain := if v.accepted && v.baseVal.Some? && v.mergedVal.Some? then v.baseVal.value - v.mergedVal.value else 0.0;
    var row := Row(s.cands[0].cid, gain, if v.accepted then 1.0 else 0.0, v.accepted, v.matched);
    Outcome(Batch(if v.accepted then Combined else AllRejected, v.accepted, v.baseVal, v.mergedVal, [row], []),
            if v.accepted then Moved(trunk, s.cands[0].delta, s.outer) else trunk)
  }

  lemma OrderInRange(s: Setup, gains: seq<real>)
    requires |gains| == |s.cands|
    ensures InRange(SerialOrder(s, gains), |s.cands|)
  {
    BeforeIsTotal(s.cands, gains);
    SortCorrect(PositiveUpTo(gains, |gains|), Before(s.cands, gains));
    var order := SerialOrder(s, gains);
    forall j | 0 <= j < |order| ensures order[j] < |s.cands| {
      assert order[j] in order;
    }
  }

  function Cids(s: Setup, order: seq<nat>): seq<string>
    requires InRange(order, |s.cands|)
  {
    seq(|order|, j requires 0 <= j < |order| => s.cands[order[j]].cid)
  }

  function FellBack(s: Setup, trunk: Params, gains: seq<real>): Outcome
    requires |gains| == |s.cands|
  {
    var base, order := s.eval(trunk), SerialOrder(s, gains);
    OrderInRange(s, gains);
    var end := SerialRun(s, Serial(trunk, base, map[], {}), order);
    Outcome(Batch(SerialFallback, end.taken != {}, Some(base), Some(end.running), SerialRows(s, trunk, gains, end),
                  Cids(s, order)),
            end.work)
  }

  /** The batch path proper: probe, combine, fall back. */
  function MergeMany(s: Setup, trunk: Params): Outcome {
    var base, gains := s.eval(trunk), Gains(s, trunk);
    if PositiveUpTo(gains, |gains|) == [] then
      Outcome(Batch(AllRejected, false, Some(base), Some(base), BlankRows(s, trunk), []), trunk)
    else
      var combined := CombinedTrunk(s, trunk, gains);
      var val := s.eval(combined);
      if val <= base - s.margin then
        Outcome(Batch(Combined, true, Some(base), Some(val), CombinedRows(s, trunk, gains, base - val), []), combined)
      else
        FellBack(s, trunk, gains)
  }

  /** `apply_deltas_weighted_gated` */
  function MergeBatch(s: Setup, trunk: Params): Outcome {
    if |s.cands| == 1 then MergeOne(s, trunk) else MergeMany(s, trunk)
  }

  // ---------------------------------------------------------------- the fallback order is well defined

  lemma {:induction false} StringLeTotal(a: string, b: string)
    ensures StringLe(a, b) || StringLe(b, a)
    ensures StringLe(a, b) && StringLe(b, a) ==> a == b
  {
    if a != [] && b != [] && a[0] == b[0] {
      StringLeTotal(a[1..], b[1..]);
      assert a == [a[0]] + a[1..] && b == [b[0]] + b[1..];
    }
  }

  lemma {:induction false} StringLeTransitive(a: string, b: string, c: string)
    requires StringLe(a, b) && StringLe(b, c)
    ensures StringLe(a, c)
  {
    if a != [] && b != [] && c != [] && a[0] == b[0] == c[0] {
      StringLeTransitive(a[1..], b[1..], c[1..]);
    }
  }

  lemma BeforeTransitive(cands: seq<Candidate>, gains: seq<real>, i: nat, j: nat, k: nat)
    requires Before(cands, gains)(i, j) && Before(cands, gains)(j, k)
    ensures Before(cands, gains)(i, k)
  {
    var a, b, c := CidAt(cands, i), CidAt(cands, j), CidAt(cands, k);
    if StringLe(a, b) && StringLe(b, c) {
      StringLeTransitive(a, b, c);
      StringLeTotal(a, b);
    }
  }

  lemma BeforeIsTotal(cands: seq<Candidate>, gains: seq<real>)
    ensures TotalOrder(Before(cands, gains))
  {
    var le := Before(cands, gains);
    forall i: nat, j: nat ensures (le(i, j) || le(j, i)) && (le(i, j) && le(j, i) ==> i == j) {
      StringLeTotal(CidAt(cands, i), CidAt(cands, j));
    }
    forall i: nat, j: nat, k: nat | le(i, j) && le(j, k) ensures le(i, k) {
      BeforeTransitive(cands, gains, i, j, k);
    }
  }

  /** Each positive candidate is tried once, the best first. */
  lemma OrderExactly(s: Setup, gains: seq<real>)
    requires |gains| == |s.cands|
    ensures var order := SerialOrder(s, gains);
            && InRange(order, |gains|)
            && (forall i: nat :: i in order <==> i < |gains| && gains[i] > 0.0)
            && (forall a, b :: 0 <= a < b < |order| ==> order[a] != order[b])
            && (forall a, b :: 0 <= a < b < |order| ==> GainAt(gains, order[a]) >= GainAt(gains, order[b]))
  {
    OrderInRange(s, gains);
    BeforeIsTotal(s.cands, gains);
    var p, le := PositiveUpTo(gains, |gains|), Before(s.cands, gains);
    SortCorrect(p, le);
    var order := SerialOrder(s, gains);
    forall a, b | 0 <= a < b < |order| ensures order[a] != order[b] {
      if order[a] == order[b] {
        DuplicateCount(order, a, b);
        NoDuplicateCount(p, order[a]);
      }
    }
    forall a, b | 0 <= a < b < |order| ensures GainAt(gains, order[a]) >= GainAt(gains, order[b]) {
      assert le(order[a], order[b]);
    }
  }

  // ---------------------------------------------------------------- gain is conserved

  function TotalGain(rows: seq<Row>): real {
    if rows == [] then 0.0 else TotalGain(rows[..|rows| - 1]) + rows[|rows| - 1].gain
  }

  function WeightSum(gains: seq<real>, n: nat): real
    requires n <= |gains|
  {
    if n == 0 then 0.0 else WeightSum(gains, n - 1) + Weight(gains, n - 1)
  }

  lemma DivAdd(x: real, y: real, d: real)
    requires d > 0.0
    ensures x / d + y / d == (x + y) / d && d / d == 1.0 && 0.0 / d == 0.0
  {
  }

  lemma {:induction false} WeightsPartial(gains: seq<real>, n: nat)
    requires n <= |gains| && GainSum(gains) > 0.0
    ensures WeightSum(gains, n) == GainSum(gains[..n]) / GainSum(gains)
  {
    var total := GainSum(gains);
    if n == 0 {
      DivAdd(0.0, 0.0, total);
      assert GainSum(gains[..0]) == 0.0;
    } else {
      WeightsPartial(gains, n - 1);
      assert gains[..n][..n - 1] == gains[..n - 1];
      assert GainSum(gains[..n]) == GainSum(gains[..n - 1]) + RealMax(0.0, gains[n - 1]);
      DivAdd(GainSum(gains[..n - 1]), RealMax(0.0, gains[n - 1]), total);
    }
  }

  /** The weights of the positive candidates sum to one. */
  lemma WeightsSumToOne(gains: seq<real>)
    requires GainSum(gains) > 0.0
    ensures WeightSum(gains, |gains|) == 1.0
  {
    WeightsPartial(gains, |gains|);
    assert gains[..|gains|] == gains;
    DivAdd(0.0, 0.0, GainSum(gains));
  }

  lemma {:induction false} CombinedGains(s: Setup, trunk: Params, gains: seq<real>, total: real, n: nat)
    requires |gains| == |s.cands| && n <= |gains|
    ensures TotalGain(CombinedRows(s, trunk, gains, total)[..n]) == Mul(total, WeightSum(gains, n))
  {
    if n > 0 {
      CombinedGains(s, trunk, gains, total, n - 1);
      var rows := CombinedRows(s, trunk, gains, total);
      assert rows[..n][..n - 1] == rows[..n - 1];
      Distribute(total, WeightSum(gains, n - 1), Weight(gains, n - 1));
    }
  }

  ghost function UpTo(n: nat): (r: set<nat>)
    ensures forall i: nat :: i in r <==> i < n
  {
    if n == 0 then {} else UpTo(n - 1) + {n - 1}
  }

  lemma {:induction false} SerialGains(rows: seq<Row>, gained: map<nat, real>)
    requires forall i :: 0 <= i < |rows| ==> rows[i].gain == Get(gained, i)
    ensures TotalGain(rows) == SumOver(UpTo(|rows|), gained)
  {
    if rows != [] {
      var n := |rows| - 1;
      SerialGains(rows[..n], gained);
      SumOverPick(UpTo(|rows|), gained, n);
      assert UpTo(|rows|) - {n} == UpTo(n);
    } else {
      assert UpTo(0) == {};
    }
  }

  // ---------------------------------------------------------------- the fallback, step by step

  /** What holds of the fallback at every point: who has been tried, */
  ghost predicate SerialTried(trunk: Params, at: Serial, done: set<nat>) {
    && at.gained.Keys == done && at.taken <= done
    && (at.taken == {} ==> at.work == trunk)
    && (forall i :: i in done && i !in at.taken ==> at.gained[i] == 0.0)
  }

  /** where the loss is, */
  ghost predicate SerialLoss(s: Setup, trunk: Params, at: Serial) {
    && s.eval(at.work) == at.running
    && Sum(at.gained) == s.eval(trunk) - at.running
    && (s.margin >= 0.0 ==> at.running <= s.eval(trunk))
    && (s.margin >= 0.0 && at.taken != {} ==> at.running < s.eval(trunk) - s.margin)
  }

  ghost predicate SerialOk(s: Setup, trunk: Params, at: Serial, done: set<nat>) {
    SerialTried(trunk, at, done) && SerialLoss(s, trunk, at)
  }

  /** One try, seen from outside: nothing moves, or the loss falls past the margin to that of the moved trunk. */
  lemma SerialStepDoes(s: Setup, at: Serial, i: nat)
    requires i < |s.cands| && s.eval(at.work) == at.running
    ensures var to := SerialStep(s, at, i);
            || (to == at.(gained := at.gained[i := 0.0]))
            || (&& to == Serial(to.work, to.running, at.gained[i := at.running - to.running], at.taken + {i})
                && s.eval(to.work) == to.running && to.running < at.running - s.margin)
  {
    hide *;
    var v := Gate(at.work, s.cands[i].delta, s.eval, s.outer, s.margin);
    SerialStepAs(s, at, i, v);
    GateMeans(at.work, s.cands[i].delta, s.eval, s.outer, s.margin);
  }

  lemma GateMeans(trunk: Params, delta: Params, eval: Loss, outer: real, margin: real)
    ensures var v := Gate(trunk, delta, eval, outer, margin);
            v.accepted ==> && v.baseVal == Some(eval(trunk)) && v.mergedVal == Some(eval(Moved(trunk, delta, outer)))
                           && v.mergedVal.value < eval(trunk) - margin
  {
    hide Moved, Matched;
  }

  lemma SerialStepOk(s: Setup, trunk: Params, at: Serial, done: set<nat>, i: nat)
    requires SerialOk(s, trunk, at, done) && i < |s.cands| && i !in done
    ensures SerialOk(s, trunk, SerialStep(s, at, i), done + {i})
  {
    hide Sum, SerialStep;
    var to := SerialStep(s, at, i);
    SerialStepDoes(s, at, i);
    SumSet(at.gained, i, 0.0);
    SumSet(at.gained, i, at.running - to.running);
  }

  ghost function Members(order: seq<nat>): set<nat> { set i | i in order }

  lemma MembersSnoc(order: seq<nat>)
    requires order != []
    ensures Members(order) == Members(order[..|order| - 1]) + {order[|order| - 1]}
  {
    assert order == order[..|order| - 1] + [order[|order| - 1]];
  }

  lemma StartOk(s: Setup, trunk: Params)
    ensures SerialOk(s, trunk, Serial(trunk, s.eval(trunk), map[], {}), {})
  {
    assert Sum(map[]) == 0.0;
  }

  lemma {:induction false} SerialRunOk(s: Setup, trunk: Params, order: seq<nat>)
    requires InRange(order, |s.cands|) && forall a, b :: 0 <= a < b < |order| ==> order[a] != order[b]
    ensures SerialOk(s, trunk, SerialRun(s, Serial(trunk, s.eval(trunk), map[], {}), order), Members(order))
  {
    hide SerialOk, SerialStep;
    if order == [] {
      StartOk(s, trunk);
      assert Members(order) == {};
    } else {
      var n := |order| - 1;
      SerialRunOk(s, trunk, order[..n]);
      MembersSnoc(order);
      assert order[n] !in Members(order[..n]);
      SerialStepOk(s, trunk, SerialRun(s, Serial(trunk, s.eval(trunk), map[], {}), order[..n]), Members(order[..n]),
                   order[n]);
    }
  }

  /** On an untouched trunk a candidate is taken exactly when its own gain beats the margin. */
  lemma FirstTry(s: Setup, trunk: Params, at: Serial, i: nat)
    requires i < |s.cands| && at.work == trunk && Gain(trunk, s.cands[i].delta, s.eval, s.outer) > 0.0
    ensures var to := SerialStep(s, at, i);
            && (Gain(trunk, s.cands[i].delta, s.eval, s.outer) > s.margin ==>
                  i in to.taken && to.running == s.eval(Moved(trunk, s.cands[i].delta, s.outer)))
            && (Gain(trunk, s.cands[i].delta, s.eval, s.outer) <= s.margin ==>
                  to.taken == at.taken && to.work == trunk && to.running == at.running)
  {
  }

  lemma StepOnlyTakes(s: Setup, at: Serial, i: nat)
    requires i < |s.cands|
    ensures at.taken <= SerialStep(s, at, i).taken
    ensures s.margin >= 0.0 && s.eval(at.work) == at.running ==> SerialStep(s, at, i).running <= at.running
  {
  }

  /** The best candidate decides: if it beats the margin it is taken first and the loss only falls from there; if not,
      nothing is ever taken. */
  lemma {:induction false} BestDecides(s: Setup, trunk: Params, gains: seq<real>, order: seq<nat>)
    requires gains == Gains(s, trunk) && InRange(order, |gains|) && order != []
    requires forall j :: 0 <= j < |order| ==> 0.0 < gains[order[j]] <= gains[order[0]]
    requires forall a, b :: 0 <= a < b < |order| ==> order[a] != order[b]
    ensures var end := SerialRun(s, Serial(trunk, s.eval(trunk), map[], {}), order);
            && (gains[order[0]] > s.margin ==>
                  && end.taken != {}
                  && (s.margin >= 0.0 ==> end.running <= s.eval(trunk) - gains[order[0]]))
            && (gains[order[0]] <= s.margin ==> end.taken == {} && end.work == trunk && end.running == s.eval(trunk))
  {
    hide SerialStep, Matched, Gate, Moved;
    var n := |order| - 1;
    var start := Serial(trunk, s.eval(trunk), map[], {});
    var rest := order[..n];
    if n == 0 {
      assert SerialRun(s, start, rest) == start;
      FirstTry(s, trunk, start, order[0]);
      GainIs(trunk, s.cands[order[0]].delta, s.eval, s.outer);
    } else {
      BestDecides(s, trunk, gains, rest);
      var at := SerialRun(s, start, rest);
      SerialRunOk(s, trunk, rest);
      StepOnlyTakes(s, at, order[n]);
      if gains[order[0]] <= s.margin {
        FirstTry(s, trunk, at, order[n]);
      }
    }
  }

  lemma GainIs(trunk: Params, delta: Params, eval: Loss, outer: real)
    requires Gain(trunk, delta, eval, outer) > 0.0
    ensures Gain(trunk, delta, eval, outer) == eval(trunk) - eval(Moved(trunk, delta, outer))
  {
  }

  // ---------------------------------------------------------------- main results

  lemma SerialConserves(s: Setup, trunk: Params, gains: seq<real>)
    requires gains == Gains(s, trunk)
    ensures var order := SerialOrder(s, gains);
            && InRange(order, |s.cands|)
            && var end := SerialRun(s, Serial(trunk, s.eval(trunk), map[], {}), order);
               && SerialOk(s, trunk, end, Members(order))
               && TotalGain(SerialRows(s, trunk, gains, end)) == s.eval(trunk) - end.running
  {
    hide SerialRun, SerialOrder, BlankRow, Weight, SumOver;
    OrderExactly(s, gains);
    var order := SerialOrder(s, gains);
    SerialRunOk(s, trunk, order);
    var end := SerialRun(s, Serial(trunk, s.eval(trunk), map[], {}), order);
    var rows := SerialRows(s, trunk, gains, end);
    RowsRead(s, trunk, gains, end);
    SerialGains(rows, end.gained);
    assert end.gained.Keys <= UpTo(|s.cands|) by {
      forall i | i in end.gained ensures i in UpTo(|s.cands|) {
        assert i in order;
      }
    }
    SumOverWider(end.gained.Keys, UpTo(|s.cands|), end.gained);
  }

  lemma RowsRead(s: Setup, trunk: Params, gains: seq<real>, end: Serial)
    requires |gains| == |s.cands|
    ensures var rows := SerialRows(s, trunk, gains, end);
            forall i :: 0 <= i < |rows| ==> rows[i].gain == Get(end.gained, i)
  {
  }

  lemma SomePositive(gains: seq<real>)
    requires PositiveUpTo(gains, |gains|) != []
    ensures GainSum(gains) > 0.0
  {
    assert PositiveUpTo(gains, |gains|)[0] in PositiveUpTo(gains, |gains|);
  }

  /** An accepted batch attributes exactly the loss it removed; the trunk it leaves has the reported loss; at a
      non-negative margin that loss is lower by at least the margin.  A rejected batch leaves the trunk alone. */
  lemma BatchConservesGain(s: Setup, trunk: Params)
    ensures var o := MergeBatch(s, trunk);
            && (o.batch.accepted ==>
                  && o.batch.baseVal == Some(s.eval(trunk))
                  && o.batch.mergedVal == Some(s.eval(o.trunk))
                  && TotalGain(o.batch.rows) == s.eval(trunk) - s.eval(o.trunk)
                  && (s.margin >= 0.0 ==> s.eval(o.trunk) <= s.eval(trunk) - s.margin))
            && (!o.batch.accepted ==> o.trunk == trunk && TotalGain(o.batch.rows) == 0.0)
  {
    if |s.cands| == 1 {
      OneConserves(s, trunk);
    } else {
      var gains := Gains(s, trunk);
      if PositiveUpTo(gains, |gains|) == [] {
        BlankTotal(BlankRows(s, trunk));
      } else {
        ManyConserve(s, trunk, gains);
      }
    }
  }

  lemma OneConserves(s: Setup, trunk: Params)
    requires |s.cands| == 1
    ensures var o := MergeOne(s, trunk);
            && (o.batch.accepted ==>
                  && o.batch.baseVal == Some(s.eval(trunk))
                  && o.batch.mergedVal == Some(s.eval(o.trunk))
                  && TotalGain(o.batch.rows) == s.eval(trunk) - s.eval(o.trunk)
                  && (s.margin >= 0.0 ==> s.eval(o.trunk) <= s.eval(trunk) - s.margin))
            && (!o.batch.accepted ==> o.trunk == trunk && TotalGain(o.batch.rows) == 0.0)
  {
    hide Matched, Moved;
    var row := MergeOne(s, trunk).batch.rows[0];
    assert [row][..0] == [];
    assert TotalGain([row]) == TotalGain([]) + row.gain;
  }

  lemma {:induction false} BlankTotal(rows: seq<Row>)
    requires forall i :: 0 <= i < |rows| ==> rows[i].gain == 0.0
    ensures TotalGain(rows) == 0.0
  {
    if rows != [] {
      BlankTotal(rows[..|rows| - 1]);
    }
  }

  lemma MulZero(x: real)
    ensures Mul(x, 0.0) == 0.0
  {
  }

  lemma MulOne(x: real)
    ensures Mul(x, 1.0) == x
  {
  }

  lemma OneMul(x: real)
    ensures Mul(1.0, x) == x
  {
  }

  lemma ManyConserve(s: Setup, trunk: Params, gains: seq<real>)
    requires |s.cands| != 1 && gains == Gains(s, trunk) && PositiveUpTo(gains, |gains|) != []
    ensures var o := MergeBatch(s, trunk);
            && (o.batch.accepted ==>
                  && o.batch.baseVal == Some(s.eval(trunk))
                  && o.batch.mergedVal == Some(s.eval(o.trunk))
                  && TotalGain(o.batch.rows) == s.eval(trunk) - s.eval(o.trunk)
                  && (s.margin >= 0.0 ==> s.eval(o.trunk) <= s.eval(trunk) - s.margin))
            && (!o.batch.accepted ==> o.trunk == trunk && TotalGain(o.batch.rows) == 0.0)
  {
    hide CombinedTrunk, CombinedRows, SerialRows, SerialRun, SerialOrder, PositiveUpTo, Gains, Mul, WeightSum, Sum;
    var total := s.eval(trunk) - s.eval(CombinedTrunk(s, trunk, gains));
    SomePositive(gains);
    WeightsSumToOne(gains);
    CombinedGains(s, trunk, gains, total, |gains|);
    var rows := CombinedRows(s, trunk, gains, total);
    assert rows[..|gains|] == rows;
    MulOne(total);
    SerialConserves(s, trunk, gains);
  }

  /** The fallback takes something exactly when some candidate alone beats the margin, whatever the margin; at a
      non-negative margin it then ends at least as low as every candidate alone, the best one included. */
  lemma FallbackExactly(s: Setup, trunk: Params)
    requires MergeBatch(s, trunk).batch.mode == SerialFallback
    ensures var b, gains := MergeBatch(s, trunk).batch, Gains(s, trunk);
            && (b.accepted <==> exists i :: 0 <= i < |gains| && gains[i] > 0.0 && gains[i] > s.margin)
            && (b.accepted && s.margin >= 0.0 ==>
                  forall i :: 0 <= i < |gains| ==> b.mergedVal.value <= s.eval(trunk) - gains[i])
  {
    hide FellBack, PositiveUpTo, CombinedTrunk, Gains, Matched;
    FellBackExactly(s, trunk);
  }

  lemma FellBackExactly(s: Setup, trunk: Params)
    requires PositiveUpTo(Gains(s, trunk), |Gains(s, trunk)|) != []
    ensures var b, gains := FellBack(s, trunk, Gains(s, trunk)).batch, Gains(s, trunk);
            && b.mergedVal.Some?
            && (b.accepted <==> exists i :: 0 <= i < |gains| && gains[i] > 0.0 && gains[i] > s.margin)
            && (b.accepted && s.margin >= 0.0 ==>
                  forall i :: 0 <= i < |gains| ==> b.mergedVal.value <= s.eval(trunk) - gains[i])
  {
    hide SerialRun, SerialOrder, PositiveUpTo, CombinedTrunk, Gain;
    var gains := Gains(s, trunk);
    OrderExactly(s, gains);
    var order := SerialOrder(s, gains);
    PositiveListed(gains, order);
    BestDecides(s, trunk, gains, order);
    assert order[0] in order;
  }

  lemma PositiveListed(gains: seq<real>, order: seq<nat>)
    requires InRange(order, |gains|) && PositiveUpTo(gains, |gains|) != []
    requires forall i: nat :: i in order <==> i < |gains| && gains[i] > 0.0
    requires forall a, b :: 0 <= a < b < |order| ==> GainAt(gains, order[a]) >= GainAt(gains, order[b])
    ensures order != []
    ensures forall j :: 0 <= j < |order| ==> 0.0 < gains[order[j]] <= gains[order[0]]
    ensures forall i :: 0 <= i < |gains| && gains[i] > 0.0 ==> gains[i] <= gains[order[0]]
  {
    hide PositiveUpTo;
    var p := PositiveUpTo(gains, |gains|);
    assert p[0] in p;
    assert p[0] in order;
    forall j | 0 <= j < |order| ensures 0.0 < gains[order[j]] <= gains[order[0]] {
      assert order[j] in order;
    }
    forall i | 0 <= i < |gains| && gains[i] > 0.0 ensures gains[i] <= gains[order[0]] {
      assert i in order;
    }
  }

  // ---- what the combined trunk is, element by element

  function WeightedSum(s: Setup, trunk: Params, gains: seq<real>, k: string, j: nat, n: nat): real
    requires n <= |s.cands| == |gains| && k in trunk && j < |trunk[k]|
  {
    if n == 0 then 0.0
    else
      WeightedSum(s, trunk, gains, k, j, n - 1)
      + if gains[n - 1] > 0.0 && k in Matched(trunk, s.cands[n - 1].delta)
        then Mul(Weight(gains, n - 1), s.cands[n - 1].delta[k][j]) else 0.0
  }

  lemma {:induction false} AccumulatedAt(s: Setup, trunk: Params, gains: seq<real>, k: string, j: nat, n: nat)
    requires n <= |s.cands| == |gains| && k in trunk && j < |trunk[k]|
    ensures var acc := Accumulated(s, trunk, gains, n);
            WeightedSum(s, trunk, gains, k, j, n) == if k in acc then acc[k][j] else 0.0
  {
    hide Weight, Mul;
    if n > 0 {
      AccumulatedAt(s, trunk, gains, k, j, n - 1);
      if gains[n - 1] > 0.0 {
        AccumulateAt(s, trunk, gains, k, j, n);
      }
    }
  }

  lemma AccumulateAt(s: Setup, trunk: Params, gains: seq<real>, k: string, j: nat, n: nat)
    requires 0 < n <= |s.cands| == |gains| && k in trunk && j < |trunk[k]| && gains[n - 1] > 0.0
    ensures var acc := Accumulated(s, trunk, gains, n - 1);
            var next := Accumulate(acc, trunk, Weight(gains, n - 1), s.cands[n - 1].delta);
            (if k in next then next[k][j] else 0.0) == (if k in acc then acc[k][j] else 0.0)
              + if k in Matched(trunk, s.cands[n - 1].delta) then Mul(Weight(gains, n - 1), s.cands[n - 1].delta[k][j]) else 0.0
  {
    hide Weight, Accumulated, Mul;
  }

  /** Every element moves by outer times the weighted sum of the positive deltas that match its key. */
  lemma CombinedAt(s: Setup, trunk: Params, gains: seq<real>, k: string, j: nat)
    requires |gains| == |s.cands| && k in trunk && j < |trunk[k]|
    ensures var c := CombinedTrunk(s, trunk, gains);
            |c[k]| == |trunk[k]|
            && c[k][j] == trunk[k][j] + Mul(s.outer, WeightedSum(s, trunk, gains, k, j, |gains|))
  {
    AccumulatedAt(s, trunk, gains, k, j, |gains|);
    MulZero(s.outer);
    hide Accumulated, WeightedSum, Mul, Weight;
  }

  // ---- one candidate: the single gate against the combined path

  lemma OneWeight(g: real)
    requires g > 0.0
    ensures Weight([g], 0) == 1.0 && PositiveUpTo([g], 1) == [0]
  {
    assert [g][..0] == [];
    assert GainSum([g]) == g;
    DivAdd(g, 0.0, g);
    assert PositiveUpTo([g], 0) == [];
  }

  /** Combining one positive candidate is moving along it. */
  lemma CombinedOfOne(s: Setup, trunk: Params, g: real)
    requires |s.cands| == 1 && g > 0.0
    ensures CombinedTrunk(s, trunk, [g]) == Moved(trunk, s.cands[0].delta, s.outer)
  {
    hide *;
    var c, m := CombinedTrunk(s, trunk, [g]), Moved(trunk, s.cands[0].delta, s.outer);
    forall k | k in trunk ensures c[k] == m[k] {
      CombinedLength(s, trunk, [g], k);
      forall j | 0 <= j < |trunk[k]| ensures c[k][j] == m[k][j] {
        CombinedOfOneAt(s, trunk, g, k, j);
      }
    }
  }

  lemma CombinedLength(s: Setup, trunk: Params, gains: seq<real>, k: string)
    requires |gains| == |s.cands| && k in trunk
    ensures |CombinedTrunk(s, trunk, gains)[k]| == |trunk[k]|
  {
    hide Accumulated;
  }

  lemma CombinedOfOneAt(s: Setup, trunk: Params, g: real, k: string, j: nat)
    requires |s.cands| == 1 && g > 0.0 && k in trunk && j < |trunk[k]|
    ensures |CombinedTrunk(s, trunk, [g])[k]| == |trunk[k]|
    ensures CombinedTrunk(s, trunk, [g])[k][j] == Moved(trunk, s.cands[0].delta, s.outer)[k][j]
  {
    hide *;
    CombinedAt(s, trunk, [g], k, j);
    OneWeight(g);
    OneWeightedSum(s, trunk, g, k, j);
    MulZero(s.outer);
    MovedAt(trunk, s.cands[0].delta, s.outer, k, j);
    if k in Matched(trunk, s.cands[0].delta) {
      MatchedMeans(trunk, s.cands[0].delta);
      OneMul(s.cands[0].delta[k][j]);
    }
  }

  lemma OneWeightedSum(s: Setup, trunk: Params, g: real, k: string, j: nat)
    requires |s.cands| == 1 && g > 0.0 && k in trunk && j < |trunk[k]|
    ensures var d := s.cands[0].delta;
            WeightedSum(s, trunk, [g], k, j, 1) == if k in Matched(trunk, d) then Mul(Weight([g], 0), d[k][j]) else 0.0
  {
    hide Weight;
    assert WeightedSum(s, trunk, [g], k, j, 0) == 0.0;
  }

  lemma MovedAt(trunk: Params, delta: Params, outer: real, k: string, j: nat)
    requires k in trunk && j < |trunk[k]|
    ensures Moved(trunk, delta, outer)[k][j]
         == trunk[k][j] + if k in Matched(trunk, delta) then Mul(outer, delta[k][j]) else 0.0
  {
    hide Mul;
  }

  /** A batch of one takes the single gate.  The combined path would decide alike, except on a positive gain that
      exactly meets the margin, which only it takes, and on one that is no gain but beats a negative margin, which only
      the single gate takes. */
  lemma OneAsManyExactly(s: Setup, trunk: Params)
    requires |s.cands| == 1
    ensures var one, many, g := MergeOne(s, trunk), MergeMany(s, trunk), Gains(s, trunk)[0];
            && (one.batch.accepted == many.batch.accepted
                <==> || Matched(trunk, s.cands[0].delta) == {}
                     || !(g == s.margin > 0.0 || s.margin < g <= 0.0))
            && (g == s.margin > 0.0 ==> many.batch.accepted && !one.batch.accepted)
            && (one.batch.accepted && many.batch.accepted ==> one.trunk == many.trunk)
  {
    hide *;
    var d, gains := s.cands[0].delta, Gains(s, trunk);
    var g := gains[0];
    assert gains == [g];
    GainRead(s, trunk);
    OneDecides(s, trunk);
    ManyDecides(s, trunk);
    if g <= 0.0 {
      NonePositive(g);
    } else {
      OneWeight(g);
      CombinedOfOne(s, trunk, g);
      FellBackExactly(s, trunk);
    }
  }

  lemma ManyDecides(s: Setup, trunk: Params)
    ensures var o, gains := MergeMany(s, trunk), Gains(s, trunk);
            var combined := CombinedTrunk(s, trunk, gains);
            && (PositiveUpTo(gains, |gains|) == [] ==> !o.batch.accepted)
            && (PositiveUpTo(gains, |gains|) != [] && s.eval(combined) <= s.eval(trunk) - s.margin ==>
                  o.batch.accepted && o.trunk == combined)
            && (PositiveUpTo(gains, |gains|) != [] && s.eval(combined) > s.eval(trunk) - s.margin ==>
                  o == FellBack(s, trunk, gains))
  {
    hide PositiveUpTo, Gains, CombinedTrunk, CombinedRows, BlankRows, FellBack;
  }

  lemma GainRead(s: Setup, trunk: Params)
    requires |s.cands| == 1
    ensures var d := s.cands[0].delta;
            Gains(s, trunk)[0]
            == if Matched(trunk, d) == {} then 0.0 else s.eval(trunk) - s.eval(Moved(trunk, d, s.outer))
  {
    hide Matched, Moved;
  }

  lemma OneDecides(s: Setup, trunk: Params)
    requires |s.cands| == 1
    ensures var o, d := MergeOne(s, trunk), s.cands[0].delta;
            && (o.batch.accepted
                <==> Matched(trunk, d) != {} && s.eval(Moved(trunk, d, s.outer)) < s.eval(trunk) - s.margin)
            && (o.batch.accepted ==> o.trunk == Moved(trunk, d, s.outer))
  {
    hide Matched, Moved;
  }

  lemma NonePositive(g: real)
    requires g <= 0.0
    ensures PositiveUpTo([g], 1) == []
  {
    assert PositiveUpTo([g], 0) == [];
  }

  // ---------------------------------------------------------------- what the answers mean

  /** A key of the trunk that a delta can move: the delta has it, in the same size. */
  predicate Usable(trunk: Params, delta: Params, k: string) { k in trunk && k in delta && |delta[k]| == |trunk[k]| }

  /** Moving along a delta adds `outer` times its entries on the usable keys and leaves every other tensor alone. */
  lemma MovedExactly(trunk: Params, delta: Params, outer: real, k: string, j: nat)
    requires k in trunk && j < |trunk[k]|
    ensures var m := Moved(trunk, delta, outer);
            && m.Keys == trunk.Keys && |m[k]| == |trunk[k]|
            && (Usable(trunk, delta, k) ==> m[k][j] == trunk[k][j] + outer * delta[k][j])
            && (!Usable(trunk, delta, k) ==> m[k] == trunk[k])
  {
  }

  /** One delta is taken exactly when some key is usable and the loss falls by more than the margin. */
  lemma GateExactly(trunk: Params, delta: Params, eval: Loss, outer: real, margin: real)
    ensures var v, moved := Gate(trunk, delta, eval, outer, margin), Moved(trunk, delta, outer);
            && (v.accepted <==> (exists k :: k in trunk && Usable(trunk, delta, k)) && eval(trunk) - eval(moved) > margin)
            && v.matched == |set k | k in trunk && Usable(trunk, delta, k)| && v.matched + v.missing == |trunk|
            && (v.matched > 0 ==> v.baseVal == Some(eval(trunk)) && v.mergedVal == Some(eval(moved)))
  {
    hide *;
    var keys := Matched(trunk, delta);
    UsableKeys(trunk, delta);
    KeysSplit(keys, trunk.Keys);
    GateIs(trunk, delta, eval, outer, margin);
  }

  lemma UsableKeys(trunk: Params, delta: Params)
    ensures Matched(trunk, delta) == set k | k in trunk && Usable(trunk, delta, k)
    ensures (exists k :: k in trunk && Usable(trunk, delta, k)) <==> Matched(trunk, delta) != {}
    ensures Matched(trunk, delta) <= trunk.Keys
  {
    var usable := set k | k in trunk && Usable(trunk, delta, k);
    forall k ensures k in Matched(trunk, delta) <==> k in usable {
    }
    if k :| k in trunk && Usable(trunk, delta, k) {
      assert k in usable;
    }
  }

  lemma GateIs(trunk: Params, delta: Params, eval: Loss, outer: real, margin: real)
    ensures var v, keys, moved := Gate(trunk, delta, eval, outer, margin), Matched(trunk, delta), Moved(trunk, delta, outer);
            && (v.accepted <==> keys != {} && eval(moved) < eval(trunk) - margin)
            && v.matched == |keys| && v.missing == |trunk.Keys - keys|
            && (keys != {} ==> v.baseVal == Some(eval(trunk)) && v.mergedVal == Some(eval(moved)))
  {
    hide Matched, Moved;
  }

  lemma KeysSplit(part: set<string>, all: set<string>)
    requires part <= all
    ensures |part| + |all - part| == |all| && (part != {} <==> |part| > 0)
  {
    assert part + (all - part) == all;
    if part != {} {
      var k :| k in part;
      assert |part - {k}| == |part| - 1;
    }
  }

  /** A candidate's measured gain is what it alone takes off the loss. */
  lemma GainExactly(s: Setup, trunk: Params, i: nat)
    requires i < |s.cands|
    ensures Gains(s, trunk)[i] == s.eval(trunk) - s.eval(Moved(trunk, s.cands[i].delta, s.outer))
  {
    if Matched(trunk, s.cands[i].delta) == {} {
      assert Moved(trunk, s.cands[i].delta, s.outer) == trunk;
    }
    hide Moved, Matched;
  }

  lemma QuotientTimes(x: real, d: real)
    requires d > 0.0
    ensures Mul(x / d, d) == x
  {
  }

  lemma CrossMultiply(x: real, y: real, d: real)
    requires d > 0.0
    ensures Mul(x / d, y) == Mul(y / d, x)
  {
    var a, b := x / d, y / d;
    assert a * d == x && b * d == y;
    assert a * (b * d) == b * (a * d);
  }

  /** Positive gains are weighted in proportion, others not at all. */
  lemma WeightsProportional(gains: seq<real>, i: nat, j: nat)
    requires i < |gains| && j < |gains|
    ensures gains[i] <= 0.0 ==> Weight(gains, i) == 0.0
    ensures gains[i] > 0.0 && gains[j] > 0.0 ==> Mul(Weight(gains, i), gains[j]) == Mul(Weight(gains, j), gains[i])
  {
    hide GainSum, Mul;
    if gains[i] > 0.0 && gains[j] > 0.0 {
      assert GainSum(gains) > 0.0;
      CrossMultiply(gains[i], gains[j], GainSum(gains));
    }
  }

  /** The three ends of a batch of other than one: rejected when nobody gains, combined when somebody does and the
      combination takes at least the margin off the loss, and the fallback otherwise. */
  lemma BatchDecidesExactly(s: Setup, trunk: Params)
    requires |s.cands| != 1
    ensures var o, gains := MergeBatch(s, trunk), Gains(s, trunk);
            var some := exists i :: 0 <= i < |gains| && gains[i] > 0.0;
            var combined := CombinedTrunk(s, trunk, gains);
            && (o.batch.mode == AllRejected <==> !some)
            && (o.batch.mode == Combined <==> some && s.eval(trunk) - s.eval(combined) >= s.margin)
            && (o.batch.mode == Combined ==> o.trunk == combined && o.batch.accepted)
            && (o.batch.mode == AllRejected ==> o.trunk == trunk && !o.batch.accepted)
  {
    hide PositiveUpTo, Gains, CombinedTrunk, CombinedRows, BlankRows, SerialRun, SerialRows, SerialOrder, MergeOne;
    var gains := Gains(s, trunk);
    var p := PositiveUpTo(gains, |gains|);
    assert p != [] ==> p[0] in p;
  }

  /** What each candidate is told: its own name and usable keys; in a combination, its weight and that share of the loss
      removed, taken exactly when it gained. */
  lemma CombinedRowsExactly(s: Setup, trunk: Params, i: nat)
    requires i < |s.cands| && |s.cands| != 1 && MergeBatch(s, trunk).batch.mode == Combined
    ensures var o, gains := MergeBatch(s, trunk), Gains(s, trunk);
            && |o.batch.rows| == |s.cands|
            && var row := o.batch.rows[i];
               && row.cid == s.cands[i].cid && row.matched == |Matched(trunk, s.cands[i].delta)|
               && (row.accepted <==> gains[i] > 0.0)
               && row.weight == Weight(gains, i)
               && row.gain == Mul(s.eval(trunk) - s.eval(o.trunk), Weight(gains, i))
  {
    hide PositiveUpTo, CombinedTrunk, Gains, SerialRun, SerialRows, SerialOrder, MergeOne, GainSum, BlankRows, Matched, Mul;
    var total := s.eval(trunk) - s.eval(MergeBatch(s, trunk).trunk);
    MulZero(total);
  }

  /** In the fallback each candidate that gained has its turn on the trunk as the earlier ones left it, and is taken exactly
      when it takes more than the margin off the loss of that. */
  lemma SerialTurn(s: Setup, trunk: Params, j: nat)
    requires |s.cands| != 1 && MergeBatch(s, trunk).batch.mode == SerialFallback
    requires j < |SerialOrder(s, Gains(s, trunk))|
    ensures InRange(SerialOrder(s, Gains(s, trunk)), |s.cands|)
    ensures var order, start := SerialOrder(s, Gains(s, trunk)), Serial(trunk, s.eval(trunk), map[], {});
            var at, to, delta := SerialRun(s, start, order[..j]), SerialRun(s, start, order[..j + 1]), s.cands[order[j]].delta;
            var moved := Moved(at.work, delta, s.outer);
            var takes := (exists k :: k in at.work && Usable(at.work, delta, k))
                         && s.eval(at.work) - s.eval(moved) > s.margin;
            && to.work == (if takes then moved else at.work)
            && to.taken == (if takes then at.taken + {order[j]} else at.taken)
            && (to.gained == if takes then at.gained[order[j] := s.eval(at.work) - s.eval(moved)]
                             else at.gained[order[j] := 0.0])
  {
    hide *;
    OrderInRange(s, Gains(s, trunk));
    var order, start := SerialOrder(s, Gains(s, trunk)), Serial(trunk, s.eval(trunk), map[], {});
    OrderExactly(s, Gains(s, trunk));
    InRangePrefix(order, |s.cands|, j);
    InRangePrefix(order, |s.cands|, j + 1);
    SerialRunOk(s, trunk, order[..j]);
    var at, i := SerialRun(s, start, order[..j]), order[j];
    SerialOkIs(s, trunk, at, Members(order[..j]));
    SerialRunAt(s, start, order, j);
    var v := Gate(at.work, s.cands[i].delta, s.eval, s.outer, s.margin);
    GateExactly(at.work, s.cands[i].delta, s.eval, s.outer, s.margin);
    GateMeans(at.work, s.cands[i].delta, s.eval, s.outer, s.margin);
    SerialStepAs(s, at, i, v);
  }

  lemma InRangePrefix(order: seq<nat>, n: nat, j: nat)
    requires InRange(order, n) && j <= |order|
    ensures InRange(order[..j], n) && forall a :: 0 <= a < |order| ==> order[a] < n
  {
  }

  lemma SerialOkIs(s: Setup, trunk: Params, at: Serial, done: set<nat>)
    requires SerialOk(s, trunk, at, done)
    ensures s.eval(at.work) == at.running
  {
    hide Sum;
  }

  /** Its verdict is where those turns end. */
  lemma FallbackEnds(s: Setup, trunk: Params, i: nat)
    requires |s.cands| != 1 && MergeBatch(s, trunk).batch.mode == SerialFallback && i < |s.cands|
    ensures InRange(SerialOrder(s, Gains(s, trunk)), |s.cands|)
    ensures var o, order := MergeBatch(s, trunk), SerialOrder(s, Gains(s, trunk));
            var end := SerialRun(s, Serial(trunk, s.eval(trunk), map[], {}), order);
            && o.trunk == end.work && (o.batch.accepted <==> end.taken != {})
            && |o.batch.rows| == |s.cands| && |o.batch.appliedOrder| == |order|
            && (forall j :: 0 <= j < |order| ==> o.batch.appliedOrder[j] == s.cands[order[j]].cid)
            && var row := o.batch.rows[i];
               && row.cid == s.cands[i].cid && row.matched == |Matched(trunk, s.cands[i].delta)|
               && row.gain == (if i in end.gained then end.gained[i] else 0.0)
               && (row.accepted <==> i in end.gained && i in end.taken)
               && row.weight == if i in end.gained then Weight(Gains(s, trunk), i) else 0.0
  {
    hide PositiveUpTo, CombinedTrunk, CombinedRows, Gains, SerialRun, SerialOrder, MergeOne, BlankRows, Matched, Weight;
    OrderInRange(s, Gains(s, trunk));
  }

  /** Alphabetical order, by the first place where two strings differ. */
  ghost predicate Alphabetical(a: string, b: string) {
    exists n :: && 0 <= n <= |a| && n <= |b| && a[..n] == b[..n]
                && (n == |a| || (n < |b| && a[n] < b[n]))
  }

  lemma {:induction false} StringLeExactly(a: string, b: string)
    ensures StringLe(a, b) <==> Alphabetical(a, b)
  {
    if a == [] {
      assert a[..0] == b[..0];
    } else if b != [] {
      StringLeExactly(a[1..], b[1..]);
      if a[0] == b[0] {
        if n :| 0 <= n <= |a| - 1 && n <= |b| - 1 && a[1..][..n] == b[1..][..n]
                && (n == |a| - 1 || (n < |b| - 1 && a[1..][n] < b[1..][n])) {
          assert a[..n + 1] == [a[0]] + a[1..][..n] && b[..n + 1] == [b[0]] + b[1..][..n];
          assert n < |a| - 1 ==> a[n + 1] == a[1..][n] && n < |b| - 1 ==> b[n + 1] == b[1..][n];
        }
        if n :| 0 <= n <= |a| && n <= |b| && a[..n] == b[..n] && (n == |a| || (n < |b| && a[n] < b[n])) {
          assert n > 0;
          assert a[1..][..n - 1] == a[..n][1..] && b[1..][..n - 1] == b[..n][1..];
        }
      } else {
        assert a[..0] == b[..0];
        if n :| 0 <= n <= |a| && n <= |b| && a[..n] == b[..n] && (n == |a| || (n < |b| && a[n] < b[n])) {
          assert n > 0 ==> a[..n][0] == b[..n][0];
        }
      }
    }
  }

  /** Candidates of one gain take their turns by name, and those of one name as they were given. */
  lemma TiesByName(s: Setup, gains: seq<real>, a: nat, b: nat)
    requires |gains| == |s.cands| && a < b < |SerialOrder(s, gains)|
    ensures InRange(SerialOrder(s, gains), |s.cands|)
    ensures var i, j := SerialOrder(s, gains)[a], SerialOrder(s, gains)[b];
            gains[i] == gains[j] ==>
              && Alphabetical(s.cands[i].cid, s.cands[j].cid)
              && (s.cands[i].cid == s.cands[j].cid ==> i < j)
  {
    OrderExactly(s, gains);
    BeforeIsTotal(s.cands, gains);
    var p, le := PositiveUpTo(gains, |gains|), Before(s.cands, gains);
    SortCorrect(p, le);
    var i, j := SerialOrder(s, gains)[a], SerialOrder(s, gains)[b];
    assert le(i, j) && i != j;
    StringLeTotal(s.cands[i].cid, s.cands[i].cid);
    StringLeExactly(s.cands[i].cid, s.cands[j].cid);
    hide SerialOrder, PositiveUpTo, Sort, StringLe, Alphabetical;
    if s.cands[i].cid == s.cands[j].cid {
      StringLeExactly(s.cands[i].cid, s.cands[i].cid);
    }
  }

  // ---------------------------------------------------------------- the batch, as the source runs it

  /** Probe every candidate on its own, never touching the trunk. */
  method Probe(t: Trunk, s: Setup) returns (gains: seq<real>)
    modifies t
    ensures t.params == old(t.params) && gains == Gains(s, t.params)
  {
    hide Moved;
    gains := [];
    var base := s.eval(t.params);
    for i := 0 to |s.cands|
      invariant t.params == old(t.params) && base == s.eval(t.params)
      invariant |gains| == i && forall k :: 0 <= k < i ==> gains[k] == Gain(t.params, s.cands[k].delta, s.eval, s.outer)
    {
      var v := ApplyDeltaGated(t, s.cands[i].delta, s.eval, s.outer, s.margin, false);
      var gain := if v.mergedVal.Some? then base - v.mergedVal.value else 0.0;
      gains := gains + [gain];
    }
  }

  method SumPositive(gains: seq<real>) returns (total: real)
    ensures total == GainSum(gains)
  {
    total := 0.0;
    for i := 0 to |gains|
      invariant total == GainSum(gains[..i])
    {
      assert gains[..i + 1][..i] == gains[..i];
      if gains[i] > 0.0 {
        total := total + gains[i];
      }
    }
    assert gains[..|gains|] == gains;
  }

  lemma AccumulatePartAt(acc: Params, trunk: Params, w: real, delta: Params, done: set<string>, k: string)
    requires done <= Matched(trunk, delta) && k in Matched(trunk, delta) && k !in done
    requires forall k :: k in acc ==> k in trunk && |acc[k]| == |trunk[k]|
    ensures var p := AccumulatePart(acc, trunk, w, delta, done);
            && (k in p <==> k in acc) && (k in acc ==> p[k] == acc[k])
            && AccumulatePart(acc, trunk, w, delta, done + {k}) == p[k := AccumulatedKey(acc, trunk, w, delta, k)]
  {
    hide AccumulatedKey, Matched;
  }

  lemma AccumulateNone(acc: Params, trunk: Params, w: real, delta: Params)
    requires forall k :: k in acc ==> k in trunk && |acc[k]| == |trunk[k]|
    ensures AccumulatePart(acc, trunk, w, delta, {}) == acc
  {
    hide AccumulatedKey, Matched;
  }

  /** acc64[k] += weight * delta[k], over the matched keys. */
  method AccumulateKeys(acc: Params, trunk: Params, w: real, delta: Params) returns (out: Params)
    requires forall k :: k in acc ==> k in trunk && |acc[k]| == |trunk[k]|
    ensures out == Accumulate(acc, trunk, w, delta)
  {
    hide Step, Matched, AccumulatePart;
    MatchedMeans(trunk, delta);
    AccumulateNone(acc, trunk, w, delta);
    out := acc;
    var keys := Matched(trunk, delta);
    var left := keys;
    assert keys - left == {};
    while left != {}
      invariant left <= keys && out == AccumulatePart(acc, trunk, w, delta, keys - left)
      decreases left
    {
      var k :| k in left;
      AccumulatePartAt(acc, trunk, w, delta, keys - left, k);
      assert keys - (left - {k}) == keys - left + {k};
      var start := if k in out then out[k] else seq(|trunk[k]|, _ => 0.0);
      out := out[k := Step(start, w, delta[k])];
      left := left - {k};
    }
    assert keys - {} == keys;
  }

  lemma MatchedMeans(trunk: Params, delta: Params)
    ensures forall k :: k in Matched(trunk, delta) ==> k in trunk && k in delta && |trunk[k]| == |delta[k]|
  {
  }

  method BuildCombined(s: Setup, trunk: Params, gains: seq<real>, total: real) returns (combined: Params)
    requires |gains| == |s.cands| && total == GainSum(gains) > 0.0
    ensures combined == CombinedTrunk(s, trunk, gains)
  {
    hide Accumulate, Step;
    var acc: Params := map[];
    for i := 0 to |gains|
      invariant acc == Accumulated(s, trunk, gains, i)
    {
      if gains[i] > 0.0 {
        acc := AccumulateKeys(acc, trunk, gains[i] / total, s.cands[i].delta);
      }
    }
    combined := trunk;
    var left := acc.Keys;
    while left != {}
      invariant left <= acc.Keys && combined.Keys == trunk.Keys
      invariant forall k :: k in trunk ==>
                  combined[k] == if k in acc && k !in left then Step(trunk[k], s.outer, acc[k]) else trunk[k]
      decreases left
    {
      var k :| k in left;
      combined := combined[k := Step(trunk[k], s.outer, acc[k])];
      left := left - {k};
    }
  }

  lemma SerialRunAt(s: Setup, start: Serial, order: seq<nat>, j: nat)
    requires InRange(order, |s.cands|) && j < |order|
    ensures SerialRun(s, start, order[..j + 1]) == SerialStep(s, SerialRun(s, start, order[..j]), order[j])
  {
    hide SerialStep;
    assert order[..j + 1][..j] == order[..j];
  }

  lemma SerialStepAs(s: Setup, at: Serial, i: nat, v: Verdict)
    requires i < |s.cands| && v == Gate(at.work, s.cands[i].delta, s.eval, s.outer, s.margin)
    ensures v.accepted ==> v.mergedVal.Some?
    ensures SerialStep(s, at, i)
         == if v.accepted
            then Serial(Moved(at.work, s.cands[i].delta, s.outer), v.mergedVal.value,
                        at.gained[i := at.running - v.mergedVal.value], at.taken + {i})
            else at.(gained := at.gained[i := 0.0])
  {
    GateMeans(at.work, s.cands[i].delta, s.eval, s.outer, s.margin);
    hide Moved, Matched, Gate;
  }

  /** The greedy fallback on the working trunk. */
  method RunSerial(work: Trunk, s: Setup, base: real, order: seq<nat>)
    returns (running: real, gained: map<nat, real>, taken: set<nat>)
    requires InRange(order, |s.cands|)
    modifies work
    ensures Serial(work.params, running, gained, taken)
         == SerialRun(s, Serial(old(work.params), base, map[], {}), order)
  {
    hide Moved, Matched, Gate, SerialStep;
    running, gained, taken := base, map[], {};
    for j := 0 to |order|
      invariant Serial(work.params, running, gained, taken)
             == SerialRun(s, Serial(old(work.params), base, map[], {}), order[..j])
    {
      var i := order[j];
      SerialRunAt(s, Serial(old(work.params), base, map[], {}), order, j);
      ghost var at := Serial(work.params, running, gained, taken);
      var v := ApplyDeltaGated(work, s.cands[i].delta, s.eval, s.outer, s.margin, true);
      SerialStepAs(s, at, i, v);
      if v.accepted {
        gained := gained[i := running - v.mergedVal.value];
        taken := taken + {i};
        running := v.mergedVal.value;
      } else {
        gained := gained[i := 0.0];
      }
    }
    assert order[..|order|] == order;
  }

  /** On the trunk itself when applying, on a copy otherwise. */
  method FallBack(t: Trunk, s: Setup, gains: seq<real>, base: real, apply: bool) returns (b: Batch)
    requires gains == Gains(s, t.params) && base == s.eval(t.params)
    modifies t
    ensures b == FellBack(s, old(t.params), gains).batch
    ensures t.params == if b.accepted && apply then FellBack(s, old(t.params), gains).trunk else old(t.params)
  {
    hide SerialRun, SerialOrder, SerialRows, SerialLoss, Gains;
    OrderInRange(s, gains);
    SerialConserves(s, t.params, gains);
    var before := t.params;
    var order := SerialOrder(s, gains);
    var work := t;
    if !apply {
      work := new Trunk(t.params);
    }
    var running, gained, taken := RunSerial(work, s, base, order);
    b := Batch(SerialFallback, taken != {}, Some(base), Some(running),
               SerialRows(s, before, gains, Serial(work.params, running, gained, taken)), Cids(s, order));
  }

  lemma OneIs(s: Setup, trunk: Params, v: Verdict)
    requires |s.cands| == 1 && v == Gate(trunk, s.cands[0].delta, s.eval, s.outer, s.margin)
    ensures v.accepted ==> v.baseVal.Some? && v.mergedVal.Some?
    ensures var gain := if v.accepted then v.baseVal.value - v.mergedVal.value else 0.0;
            var row := Row(s.cands[0].cid, gain, if v.accepted then 1.0 else 0.0, v.accepted, v.matched);
            MergeBatch(s, trunk)
            == Outcome(Batch(if v.accepted then Combined else AllRejected, v.accepted, v.baseVal, v.mergedVal, [row], []),
                       if v.accepted then Moved(trunk, s.cands[0].delta, s.outer) else trunk)
  {
    GateMeans(trunk, s.cands[0].delta, s.eval, s.outer, s.margin);
    hide Gate, Moved, MergeMany;
  }

  lemma ManyIs(s: Setup, trunk: Params, base: real, gains: seq<real>)
    requires |s.cands| != 1 && base == s.eval(trunk) && gains == Gains(s, trunk)
    ensures var o := MergeBatch(s, trunk);
            var combined := CombinedTrunk(s, trunk, gains);
            var val := s.eval(combined);
            && (PositiveUpTo(gains, |gains|) == [] ==>
                  o == Outcome(Batch(AllRejected, false, Some(base), Some(base), BlankRows(s, trunk), []), trunk))
            && (PositiveUpTo(gains, |gains|) != [] && val <= base - s.margin ==>
                  o == Outcome(Batch(Combined, true, Some(base), Some(val), CombinedRows(s, trunk, gains, base - val), []),
                               combined))
            && (PositiveUpTo(gains, |gains|) != [] && val > base - s.margin ==> o == FellBack(s, trunk, gains))
  {
    hide Gains, CombinedTrunk, PositiveUpTo, BlankRows, CombinedRows, FellBack, MergeOne;
  }

  method ApplyDeltasWeightedGated(t: Trunk, s: Setup, apply: bool) returns (b: Batch)
    modifies t
    ensures b == MergeBatch(s, old(t.params)).batch
    ensures t.params == if b.accepted && apply then MergeBatch(s, old(t.params)).trunk else old(t.params)
  {
    hide *;
    if |s.cands| == 1 {
      var v := ApplyDeltaGated(t, s.cands[0].delta, s.eval, s.outer, s.margin, apply);
      OneIs(s, old(t.params), v);
      var gain := if v.accepted then v.baseVal.value - v.mergedVal.value else 0.0;
      var row := Row(s.cands[0].cid, gain, if v.accepted then 1.0 else 0.0, v.accepted, v.matched);
      return Batch(if v.accepted then Combined else AllRejected, v.accepted, v.baseVal, v.mergedVal, [row], []);
    }
    var base := s.eval(t.params);
    var gains := Probe(t, s);
    ManyIs(s, t.params, base, gains);
    if PositiveUpTo(gains, |gains|) == [] {
      return Batch(AllRejected, false, Some(base), Some(base), BlankRows(s, t.params), []);
    }
    SomePositive(gains);
    var total := SumPositive(gains);
    var combined := BuildCombined(s, t.params, gains, total);
    var val := s.eval(combined);
    if val <= base - s.margin {
      b := Batch(Combined, true, Some(base), Some(val), CombinedRows(s, t.params, gains, base - val), []);
      if apply {
        t.params := combined;
      }
      return;
    }
    b := FallBack(t, s, gains, base, apply);
  }
}
