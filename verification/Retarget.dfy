/** The all-integer difficulty retarget of neura_l1/block_state.py (`_fold_retarget`). */
module Retarget {
  import opened Prelude
  import opened Sorting
  import opened Counting

  const TARGET_TIMESPAN: int := 2016 * 60
  const RETARGET_WINDOW: int := 2016
  const CLAMP: int := 4
  const WORK_FLOOR_SCALE: int := 1_000_000_000
  const GENESIS_WORK_FLOOR: int := 1_000_000
  const WORK_FLOOR_MIN: int := 1
  const WORK_FLOOR_MAX: int := 1_000_000_000_000
  const CEIL_NUM: int := 3
  const CEIL_DEN: int := 4
  const EWMA_DEN: int := 16
  const MTP_WINDOW: int := 11
  const ACTIVATION_HEIGHT: int := 0

  datatype Retarget = Retarget(floor: int, anchorTs: int, anchorH: int, lastTs: int, ewma: int, ring: seq<int>)

  const GENESIS := Retarget(GENESIS_WORK_FLOOR, 0, 0, 0, GENESIS_WORK_FLOOR, [])

  /** One block's timestamp and verified work. */
  datatype Sample = Sample(height: int, timestamp: int, work: real)

  function PushRing(ring: seq<int>, t: int): (r: seq<int>)
    ensures 1 <= |r| <= MTP_WINDOW
  {
    var all := ring + [t];
    if |all| > MTP_WINDOW then all[|all| - MTP_WINDOW..] else all
  }

  function Median(ring: seq<int>): int
    requires ring != []
  {
    SortInts(ring);
    Sort(ring, IntLe)[|ring| / 2]
  }

  lemma SortInts(s: seq<int>)
    ensures |Sort(s, IntLe)| == |s| && Sorted(Sort(s, IntLe), IntLe)
    ensures multiset(Sort(s, IntLe)) == multiset(s)
  {
    SortCorrect(s, IntLe);
  }

  /** The block's work in integer units. */
  function Quantized(work: real): (q: int)
    ensures q >= WORK_FLOOR_MIN
  {
    Max(WORK_FLOOR_MIN, Round(RealMax(0.0, work) * WORK_FLOOR_SCALE as real))
  }

  /** ewma + (sample - ewma) // 16, with Python's floor division */
  function Ewma(ewma: int, sample: int): int { ewma + (sample - ewma) / EWMA_DEN }

  /** The elapsed time clamped to a factor four either way; a non-positive span counts as the shortest. */
  function ClampedSpan(raw: int): (c: int)
    ensures TARGET_TIMESPAN / CLAMP <= c <= TARGET_TIMESPAN * CLAMP
  {
    var lo, hi := TARGET_TIMESPAN / CLAMP, TARGET_TIMESPAN * CLAMP;
    Min(hi, Max(lo, if raw > 0 then raw else lo))
  }

  /** The floor an epoch's elapsed time asks for, before any cap. */
  function ScaledFloor(floor: int, raw: int): int { floor * TARGET_TIMESPAN / ClampedSpan(raw) }

  /** The floor an epoch boundary sets. */
  function NextFloor(floor: int, raw: int, ewma: int): int {
    Min(Min(WORK_FLOOR_MAX, Max(WORK_FLOOR_MIN, ScaledFloor(floor, raw))),
        Max(WORK_FLOOR_MIN, ewma * CEIL_NUM / CEIL_DEN))
  }

  predicate Boundary(height: int) { height % RETARGET_WINDOW == 0 }

  /** The fold of one block, from the parent's values. */
  function Fold(r: Retarget, s: Sample): Retarget {
    if s.height < ACTIVATION_HEIGHT then r
    else
      var ring := PushRing(r.ring, s.timestamp);
      var mtp := Median(ring);
      var ewma := Ewma(r.ewma, Quantized(s.work));
      var next := r.(ring := ring, ewma := ewma, lastTs := s.timestamp);
      if Boundary(s.height) then
        next.(floor := NextFloor(r.floor, mtp - r.anchorTs, ewma), anchorTs := mtp, anchorH := s.height)
      else next
  }

  function FoldAll(r: Retarget, samples: seq<Sample>): Retarget {
    if samples == [] then r else Fold(FoldAll(r, samples[..|samples| - 1]), samples[|samples| - 1])
  }

  // ---------------------------------------------------------------- bounds

  lemma EwmaBetween(e: int, s: int)
    ensures Min(e, s) <= Ewma(e, s) <= Max(e, s)
    ensures s < e ==> Ewma(e, s) <= e - 1
  {
    var d := s - e;
    assert d == EWMA_DEN * (d / EWMA_DEN) + d % EWMA_DEN;
  }

  lemma NextFloorBounds(floor: int, raw: int, ewma: int)
    ensures WORK_FLOOR_MIN <= NextFloor(floor, raw, ewma) <= WORK_FLOOR_MAX
    ensures NextFloor(floor, raw, ewma) <= Max(WORK_FLOOR_MIN, ewma * CEIL_NUM / CEIL_DEN)
  {
  }

  ghost predicate Bounded(r: Retarget, lo: int, hi: int) {
    && WORK_FLOOR_MIN <= r.floor <= WORK_FLOOR_MAX
    && lo <= r.ewma <= hi
    && |r.ring| <= MTP_WINDOW
  }

  /** Over every run the floor stays between 1 and its cap, and the work average stays between the least and
      the greatest of its seed and the samples. */
  lemma {:induction false} RunStaysBounded(r: Retarget, samples: seq<Sample>, lo: int, hi: int)
    requires Bounded(r, lo, hi)
    requires forall i :: 0 <= i < |samples| ==> lo <= Quantized(samples[i].work) <= hi
    ensures Bounded(FoldAll(r, samples), lo, hi)
  {
    if samples != [] {
      var n := |samples| - 1;
      RunStaysBounded(r, samples[..n], lo, hi);
      var before := FoldAll(r, samples[..n]);
      hide Quantized;
      hide NextFloor;
      hide Median;
      var ewma := Ewma(before.ewma, Quantized(samples[n].work));
      EwmaBetween(before.ewma, Quantized(samples[n].work));
      NextFloorBounds(before.floor, Median(PushRing(before.ring, samples[n].timestamp)) - before.anchorTs, ewma);
    }
  }

  /** One epoch moves the floor by at most a factor four either way, before the caps. */
  lemma ScaledFloorWithinFactor(floor: int, raw: int)
    requires floor >= 0
    ensures floor / CLAMP <= ScaledFloor(floor, raw) <= floor * CLAMP
  {
    var c := ClampedSpan(raw);
    var n := floor * TARGET_TIMESPAN;
    DivideBetween(n, c, floor / CLAMP, floor * CLAMP) by {
      MulMono(c, TARGET_TIMESPAN * CLAMP, floor / CLAMP);
      MulMono(TARGET_TIMESPAN / CLAMP, c, floor * CLAMP);
    }
  }

  lemma DivideBetween(n: int, c: int, lo: int, hi: int)
    requires c > 0 && lo * c <= n <= hi * c
    ensures lo <= n / c <= hi
  {
    var q := n / c;
    assert n == q * c + n % c;
    if q < lo {
      MulMono(q + 1, lo, c);
    }
    if q > hi {
      MulMono(hi + 1, q, c);
    }
  }

  /** A slower epoch never raises the floor more: the new floor is non-increasing in the elapsed time. */
  lemma ScaledFloorAntitone(floor: int, fast: int, slow: int)
    requires floor >= 0 && fast <= slow
    ensures ScaledFloor(floor, slow) <= ScaledFloor(floor, fast)
  {
    var n, a, b := floor * TARGET_TIMESPAN, ClampedSpan(fast), ClampedSpan(slow);
    var q := n / b;
    assert n == q * b + n % b;
    DivideNonNeg(n, b);
    MulMono(a, b, q);
    DivideAtLeast(n, a, q);
  }

  lemma DivideNonNeg(n: int, c: int)
    requires n >= 0 && c > 0
    ensures n / c >= 0
  {
  }

  lemma DivideAtLeast(n: int, c: int, q: int)
    requires c > 0 && q * c <= n
    ensures n / c >= q
  {
    var r := n / c;
    assert n == r * c + n % c;
    if r < q {
      MulMono(r + 1, q, c);
    }
  }

  // ---------------------------------------------------------------- following work down

  ghost predicate SamplesAtMost(samples: seq<Sample>, s: int) {
    forall i :: 0 <= i < |samples| ==> samples[i].height >= ACTIVATION_HEIGHT && Quantized(samples[i].work) <= s
  }

  /** While every sample is at most s the average falls by at least one a block until it is at most s. */
  lemma {:induction false} EwmaFalls(r: Retarget, samples: seq<Sample>, s: int)
    requires SamplesAtMost(samples, s)
    ensures FoldAll(r, samples).ewma <= Max(s, r.ewma - |samples|)
  {
    if samples != [] {
      var n := |samples| - 1;
      EwmaFalls(r, samples[..n], s);
      hide Quantized;
      hide Median;
      var before := FoldAll(r, samples[..n]);
      var q := Quantized(samples[n].work);
      EwmaBetween(before.ewma, q);
    }
  }

  /** The convergence guarantee: once achievable work has dropped to s for ewma - s blocks, the next epoch
      boundary puts the floor at or below three quarters of it (but never below one unit). */
  lemma FloorFollowsWorkDown(r: Retarget, samples: seq<Sample>, s: int)
    requires samples != [] && SamplesAtMost(samples, s)
    requires |samples| >= r.ewma - s
    requires Boundary(samples[|samples| - 1].height)
    ensures FoldAll(r, samples).ewma <= s
    ensures FoldAll(r, samples).floor <= Max(WORK_FLOOR_MIN, s * CEIL_NUM / CEIL_DEN)
  {
    EwmaFalls(r, samples, s);
    var n := |samples| - 1;
    var before := FoldAll(r, samples[..n]);
    hide Quantized;
    hide Median;
    hide NextFloor;
    var ewma := FoldAll(r, samples).ewma;
    NextFloorBounds(before.floor, Median(PushRing(before.ring, samples[n].timestamp)) - before.anchorTs, ewma);
    assert ewma * CEIL_NUM / CEIL_DEN <= s * CEIL_NUM / CEIL_DEN;
  }

  // ---------------------------------------------------------------- median time past

  function Within(a: int, b: int): int -> bool { t => a <= t <= b }

  lemma SortedOrder(s: seq<int>, m: nat)
    requires Sorted(s, IntLe) && m < |s|
    ensures forall i :: 0 <= i <= m ==> s[i] <= s[m]
    ensures forall i :: m <= i < |s| ==> s[m] <= s[i]
  {
    forall i | 0 <= i < |s| ensures (i <= m ==> s[i] <= s[m]) && (i >= m ==> s[m] <= s[i]) {
      assert i < m ==> IntLe(s[i], s[m]);
      assert i > m ==> IntLe(s[m], s[i]);
    }
  }

  lemma SortedMajority(s: seq<int>, m: nat, a: int, b: int)
    requires Sorted(s, IntLe) && m < |s| && m == |s| / 2
    requires CountIf(s, Within(a, b)) * 2 > |s|
    ensures a <= s[m] <= b
  {
    SortedOrder(s, m);
    if s[m] < a {
      CountRest(s, m + 1, Within(a, b));
    } else if s[m] > b {
      CountRest(s, m, Within(a, b));
    }
  }

  /** A majority of ring timestamps in [a, b] forces the median into [a, b]. */
  lemma MajorityForcesMedian(ring: seq<int>, a: int, b: int)
    requires ring != [] && CountIf(ring, Within(a, b)) * 2 > |ring|
    ensures a <= Median(ring) <= b
  {
    SortInts(ring);
    CountMultiset(ring, Sort(ring, IntLe), Within(a, b));
    SortedMajority(Sort(ring, IntLe), |ring| / 2, a, b);
  }

  /** The median is a ring timestamp with no more than half of the ring before it and less than half after it. */
  lemma MedianIsMiddle(ring: seq<int>)
    requires ring != []
    ensures var m := Median(ring);
            && m in ring
            && 2 * CountIf(ring, (t: int) => t < m) <= |ring|
            && 2 * CountIf(ring, (t: int) => t > m) < |ring|
  {
    var s, i := Sort(ring, IntLe), |ring| / 2;
    SortInts(ring);
    SortedOrder(s, i);
    var m := s[i];
    assert m in multiset(ring);
    var before, after := (t: int) => t < m, (t: int) => t > m;
    CountMultiset(ring, s, before);
    CountMultiset(ring, s, after);
    CountRest(s, i, before);
    CountRest(s, i + 1, after);
  }

  // ---------------------------------------------------------------- what the arithmetic is

  /** Work is counted to the nearest billionth, from one up. */
  lemma QuantizedNearest(work: real)
    ensures work * 1_000_000_000.0 <= 0.5 ==> Quantized(work) == 1
    ensures work * 1_000_000_000.0 >= 0.5 ==> Abs(Quantized(work) as real - work * 1_000_000_000.0) <= 0.5
  {
  }

  /** The average moves a sixteenth of the way, rounded down. */
  lemma EwmaSixteenth(e: int, s: int)
    ensures 16 * (Ewma(e, s) - e) <= s - e < 16 * (Ewma(e, s) - e) + 16
  {
  }

  lemma QuotientOf(n: int, c: int)
    requires c > 0
    ensures c * (n / c) <= n < c * (n / c + 1)
  {
  }

  /** Before the caps the floor scales with the target span, 2016 minutes, over the elapsed time, rounded down;
      an epoch four times too fast or faster quadruples it, one four times too slow or slower quarters it. */
  lemma ScaledFloorExactly(floor: int, raw: int)
    requires floor >= 0
    ensures raw <= 30240 ==> ScaledFloor(floor, raw) == floor * 4
    ensures 30240 <= raw <= 483840 ==> raw * ScaledFloor(floor, raw) <= floor * 120960 < raw * (ScaledFloor(floor, raw) + 1)
    ensures raw >= 483840 ==> ScaledFloor(floor, raw) == floor / 4
  {
    var c := ClampedSpan(raw);
    assert c == if raw <= 30240 then 30240 else if raw >= 483840 then 483840 else raw;
    hide ClampedSpan;
    QuotientOf(floor * 120960, c);
  }

  /** Then it is kept from one up to its cap and to three quarters of the average. */
  lemma NextFloorExactly(floor: int, raw: int, ewma: int)
    ensures var scaled, f := ScaledFloor(floor, raw), NextFloor(floor, raw, ewma);
            && 1 <= f <= 1_000_000_000_000 && (f > 1 ==> 4 * f <= 3 * ewma)
            && (scaled <= 1 ==> f == 1)
            && (scaled > 1 ==> f <= scaled)
            && (1 <= f < scaled ==> f == 1_000_000_000_000 || 3 * ewma < 4 * (f + 1))
  {
    hide ScaledFloor;
  }

  /** A block adds its timestamp to the ring and its work to the average; the floor moves only on an epoch boundary, by
      the time between the median there and the last boundary's. */
  lemma FoldExactly(r: Retarget, s: Sample)
    requires s.height >= 0
    ensures var f := Fold(r, s);
            && f.ring == PushRing(r.ring, s.timestamp) && f.lastTs == s.timestamp && f.ewma == Ewma(r.ewma, Quantized(s.work))
            && (s.height % 2016 != 0 ==> f.floor == r.floor && f.anchorTs == r.anchorTs && f.anchorH == r.anchorH)
            && (s.height % 2016 == 0 ==>
                  && f.anchorTs == Median(f.ring) && f.anchorH == s.height
                  && f.floor == NextFloor(r.floor, f.anchorTs - r.anchorTs, f.ewma))
  {
    hide Median, NextFloor, Quantized, Ewma;
  }

  function Timestamps(samples: seq<Sample>): (r: seq<int>)
    ensures |r| == |samples|
  {
    seq(|samples|, i requires 0 <= i < |samples| => samples[i].timestamp)
  }

  /** The last eleven, or all if fewer. */
  function LastEleven(s: seq<int>): seq<int> { if |s| > 11 then s[|s| - 11..] else s }

  /** The ring is always the last eleven timestamps seen. */
  lemma {:induction false} RingIsLast(r: Retarget, samples: seq<Sample>)
    requires |r.ring| <= 11 && forall i :: 0 <= i < |samples| ==> samples[i].height >= 0
    ensures FoldAll(r, samples).ring == LastEleven(r.ring + Timestamps(samples))
  {
    hide *;
    FoldRing(r, samples);
    if samples == [] {
      assert r.ring + Timestamps(samples) == r.ring;
      ShortRing(r.ring);
    } else {
      var n := |samples| - 1;
      RingIsLast(r, samples[..n]);
      var before := r.ring + Timestamps(samples[..n]);
      TimestampsNext(samples);
      assert r.ring + Timestamps(samples) == before + [samples[n].timestamp];
      PushKeepsLast(before, samples[n].timestamp);
    }
  }

  lemma FoldRing(r: Retarget, samples: seq<Sample>)
    requires forall i :: 0 <= i < |samples| ==> samples[i].height >= 0
    ensures samples == [] ==> FoldAll(r, samples).ring == r.ring
    ensures samples != [] ==>
              var n := |samples| - 1;
              FoldAll(r, samples).ring == PushRing(FoldAll(r, samples[..n]).ring, samples[n].timestamp)
  {
    hide Fold;
    if samples != [] {
      var n := |samples| - 1;
      FoldExactly(FoldAll(r, samples[..n]), samples[n]);
    }
  }

  lemma TimestampsNext(samples: seq<Sample>)
    requires samples != []
    ensures Timestamps(samples) == Timestamps(samples[..|samples| - 1]) + [samples[|samples| - 1].timestamp]
  {
  }

  lemma ShortRing(s: seq<int>)
    requires |s| <= 11
    ensures LastEleven(s) == s
  {
  }

  lemma PushKeepsLast(s: seq<int>, t: int)
    ensures PushRing(LastEleven(s), t) == LastEleven(s + [t])
  {
  }
}
