/** The memory-bounded exact top-k selection of neurahash/delta_codec.py: a two-pass 16-bit radix select
    streamed in chunks, then a streamed gather of the survivors. */
module TopK {
  import opened Prelude
  import opened Counting
  import opened Sorting
  import opened Float32

  const RADIX: nat := 0x1_0000

  function Keys(a: seq<Float32>): (k: seq<nat>)
    ensures |k| == |a|
    ensures forall i :: 0 <= i < |a| ==> k[i] == AbsKey(a[i])
  {
    seq(|a|, i requires 0 <= i < |a| => AbsKey(a[i]))
  }

  // ---------------------------------------------------------------- what the selection promises

  /** `t` is the k-th largest entry: fewer than k entries exceed it, at least k reach it. */
  predicate IsKthLargest(keys: seq<nat>, k: nat, t: nat) {
    CountIf(keys, AtLeast(t + 1)) < k <= CountIf(keys, AtLeast(t))
  }

  predicate Beats(keys: seq<nat>, j: nat, i: nat)
    requires i < |keys| && j < |keys|
  {
    keys[j] > keys[i] || (keys[j] == keys[i] && j < i)
  }

  function Better(keys: seq<nat>, i: nat): set<nat>
    requires i < |keys|
  {
    set j: nat | j < |keys| && Beats(keys, j, i)
  }

  /** The position of entry i in the order "largest first, equal keys by index". */
  function Rank(keys: seq<nat>, i: nat): nat
    requires i < |keys|
  {
    |Better(keys, i)|
  }

  /** The indices of rank below k, ascending: the reference top-k. */
  function TopIndices(keys: seq<nat>, k: nat): seq<nat> {
    TopIndicesUpTo(keys, k, |keys|)
  }

  function TopIndicesUpTo(keys: seq<nat>, k: nat, n: nat): seq<nat>
    requires n <= |keys|
  {
    if n == 0 then []
    else TopIndicesUpTo(keys, k, n - 1) + if Rank(keys, n - 1) < k then [n - 1] else []
  }

  // ---------------------------------------------------------------- radix digits

  /** The digits one pass histograms: high halves, or the low halves inside one bucket. */
  datatype Pass = High | LowOf(bucket: nat)

  function DigitOf(key: nat, pass: Pass): Option<nat> {
    match pass
    case High => Some(key / RADIX)
    case LowOf(h) => if key / RADIX == h then Some(key % RADIX) else None
  }

  function Digits(keys: seq<nat>, pass: Pass): seq<nat> {
    if keys == [] then []
    else
      Digits(keys[..|keys| - 1], pass) +
      match DigitOf(keys[|keys| - 1], pass)
      case Some(d) => [d]
      case None => []
  }

  lemma {:induction false} DigitsAppend(s: seq<nat>, t: seq<nat>, pass: Pass)
    ensures Digits(s + t, pass) == Digits(s, pass) + Digits(t, pass)
  {
    if t == [] {
      assert s + t == s;
    } else {
      assert (s + t)[..|s + t| - 1] == s + t[..|t| - 1];
      DigitsAppend(s, t[..|t| - 1], pass);
    }
  }

  lemma {:induction false} DigitsInRange(keys: seq<nat>, pass: Pass)
    requires forall i :: 0 <= i < |keys| ==> keys[i] < RADIX * RADIX
    ensures forall d :: d in Digits(keys, pass) ==> d < RADIX
  {
    if keys != [] {
      DigitsInRange(keys[..|keys| - 1], pass);
    }
  }

  /** One key against h * RADIX + l, seen through its two halves. */
  lemma CompareHalves(key: nat, h: nat, l: nat)
    requires l <= RADIX
    ensures key >= h * RADIX + l <==> key / RADIX >= h + 1 || (key / RADIX == h && key % RADIX >= l)
  {
  }

  /** Splitting a comparison of whole keys into one of each half. */
  lemma {:induction false} DigitsCompare(keys: seq<nat>, h: nat, l: nat)
    requires l <= RADIX
    ensures CountIf(keys, AtLeast(h * RADIX + l))
         == CountIf(Digits(keys, High), AtLeast(h + 1)) + CountIf(Digits(keys, LowOf(h)), AtLeast(l))
  {
    if keys != [] {
      var front, key := keys[..|keys| - 1], keys[|keys| - 1];
      DigitsCompare(front, h, l);
      DigitsSnoc(front, key, High, AtLeast(h + 1));
      DigitsSnoc(front, key, LowOf(h), AtLeast(l));
      CompareHalves(key, h, l);
      assert keys == front + [key];
    }
  }

  lemma DigitsSnoc(front: seq<nat>, key: nat, pass: Pass, p: nat -> bool)
    ensures CountIf(Digits(front + [key], pass), p)
         == CountIf(Digits(front, pass), p)
            + (match DigitOf(key, pass) case Some(d) => (if p(d) then 1 else 0) case None => 0)
  {
    assert (front + [key])[..|front|] == front;
    match DigitOf(key, pass)
    case Some(d) =>
      CountAppend(Digits(front, pass), [d], p);
      CountOne(d, p);
    case None =>
      assert Digits(front, pass) + [] == Digits(front, pass);
  }

  lemma CountOne(x: nat, p: nat -> bool)
    ensures CountIf([x], p) == if p(x) then 1 else 0
  {
    assert [x][..0] == [];
    assert CountIf([x][..0], p) == 0;
  }

  // ---------------------------------------------------------------- histograms

  /** `hist` counts each digit of `digits`. */
  ghost predicate Histogram(hist: seq<nat>, digits: seq<nat>) {
    && |hist| == RADIX
    && (forall d :: d in digits ==> d < RADIX)
    && (forall j :: 0 <= j < RADIX ==> hist[j] == CountIf(digits, Equal(j)))
  }

  /** hist += bincount(digits) */
  method AddBincount(hist: array<nat>, digits: seq<nat>)
    requires forall d :: d in digits ==> d < hist.Length
    modifies hist
    ensures forall j :: 0 <= j < hist.Length ==> hist[j] == old(hist[j]) + CountIf(digits, Equal(j))
  {
    for i := 0 to |digits|
      invariant forall j :: 0 <= j < hist.Length ==> hist[j] == old(hist[j]) + CountIf(digits[..i], Equal(j))
    {
      assert digits[..i + 1][..i] == digits[..i];
      assert digits[i] in digits;
      hist[digits[i]] := hist[digits[i]] + 1;
    }
    assert digits[..|digits|] == digits;
  }

  lemma HistogramExtends(hist: seq<nat>, next: seq<nat>, digits: seq<nat>, more: seq<nat>)
    requires Histogram(hist, digits) && |next| == RADIX
    requires forall d :: d in more ==> d < RADIX
    requires forall j :: 0 <= j < RADIX ==> next[j] == hist[j] + CountIf(more, Equal(j))
    ensures Histogram(next, digits + more)
  {
    forall j | 0 <= j < RADIX ensures next[j] == CountIf(digits + more, Equal(j)) {
      CountAppend(digits, more, Equal(j));
    }
  }

  /** One streamed pass: the histogram does not depend on the chunk size. */
  method StreamHistogram(a: seq<Float32>, pass: Pass, chunk: nat) returns (hist: array<nat>)
    requires chunk > 0
    ensures fresh(hist) && Histogram(hist[..], Digits(Keys(a), pass))
  {
    ghost var keys := Keys(a);
    hist := new nat[RADIX](_ => 0);
    var s := 0;
    while s < |a|
      invariant s <= |a|
      invariant fresh(hist) && hist.Length == RADIX
      invariant Histogram(hist[..], Digits(keys[..s], pass))
    {
      var e := Min(s + chunk, |a|);
      var part := Keys(a[s..e]);
      var digits := Digits(part, pass);
      ghost var before := hist[..];
      ghost var seen := Digits(keys[..s], pass);
      DigitsInRange(part, pass);
      AddBincount(hist, digits);
      HistogramExtends(before, hist[..], seen, digits);
      assert part == keys[s..e];
      assert keys[..e] == keys[..s] + part;
      DigitsAppend(keys[..s], part, pass);
      s := e;
    }
    assert keys[..s] == keys;
  }

  lemma {:induction false} CountAtLeastStep(digits: seq<nat>, b: nat)
    ensures CountIf(digits, AtLeast(b)) == CountIf(digits, AtLeast(b + 1)) + CountIf(digits, Equal(b))
  {
    CountSplit(digits, AtLeast(b), AtLeast(b + 1), Equal(b));
  }

  lemma CountAtLeastTop(digits: seq<nat>)
    requires forall d :: d in digits ==> d < RADIX
    ensures CountIf(digits, AtLeast(RADIX)) == 0
  {
    CountBound(digits, AtLeast(RADIX));
    assert forall i :: 0 <= i < |digits| ==> digits[i] in digits;
  }

  /** cumsum(hist[::-1])[::-1] */
  method SuffixSums(hist: array<nat>, ghost digits: seq<nat>) returns (cnt: array<nat>)
    requires Histogram(hist[..], digits)
    ensures fresh(cnt) && cnt.Length == RADIX
    ensures forall b :: 0 <= b < RADIX ==> cnt[b] == CountIf(digits, AtLeast(b))
  {
    cnt := new nat[RADIX](_ => 0);
    CountAtLeastTop(digits);
    var b, running := RADIX, 0;
    while b > 0
      invariant 0 <= b <= RADIX && fresh(cnt) && cnt.Length == RADIX
      invariant running == CountIf(digits, AtLeast(b))
      invariant forall j :: b <= j < RADIX ==> cnt[j] == CountIf(digits, AtLeast(j))
    {
      b := b - 1;
      CountAtLeastStep(digits, b);
      assert hist[b] == hist[..][b];
      running := running + hist[b];
      cnt[b] := running;
    }
  }

  lemma HistogramAt(hist: seq<nat>, digits: seq<nat>, d: nat)
    requires Histogram(hist, digits) && d < RADIX
    ensures d < |hist| && hist[d] == CountIf(digits, Equal(d))
  {
    hide CountIf;
  }

  /** The largest digit reached by at least `rank` entries, and how many entries lie strictly above it. */
  method SelectDigit(hist: array<nat>, rank: nat, ghost digits: seq<nat>) returns (digit: nat, above: nat)
    requires Histogram(hist[..], digits) && 0 < rank <= |digits|
    ensures digit < RADIX
    ensures above == CountIf(digits, AtLeast(digit + 1))
    ensures above < rank <= CountIf(digits, AtLeast(digit))
  {
    hide CountIf;
    var cnt := SuffixSums(hist, digits);
    CountBound(digits, AtLeast(0));
    CountAtLeastTop(digits);
    var reached, b := 0, 0;
    while b < RADIX
      invariant 0 <= b <= RADIX && reached <= b
      invariant reached > 0 ==> CountIf(digits, AtLeast(reached - 1)) >= rank
      invariant b > 0 ==> reached > 0
      invariant reached < b ==> CountIf(digits, AtLeast(reached)) < rank
      modifies {}
    {
      if reached < b {
        CountMono(digits, AtLeast(b), AtLeast(reached));
      }
      if cnt[b] >= rank {
        reached := reached + 1;
      }
      b := b + 1;
    }
    digit := reached - 1;
    CountAtLeastStep(digits, digit);
    HistogramAt(hist[..], digits, digit);
    above := cnt[digit] - hist[digit];
  }

  /** The bucket found by the first pass leaves a rank inside the bucket for the second. */
  lemma BucketHoldsRank(keys: seq<nat>, h: nat, k: nat)
    requires CountIf(Digits(keys, High), AtLeast(h + 1)) < k <= CountIf(Digits(keys, High), AtLeast(h))
    ensures 0 < k - CountIf(Digits(keys, High), AtLeast(h + 1)) <= |Digits(keys, LowOf(h))|
  {
    var highs, lows := Digits(keys, High), Digits(keys, LowOf(h));
    CountAtLeastStep(highs, h);
    BucketSize(keys, h);
  }

  lemma {:induction false} BucketSize(keys: seq<nat>, h: nat)
    ensures CountIf(Digits(keys, High), Equal(h)) == |Digits(keys, LowOf(h))|
  {
    if keys != [] {
      var front, key := keys[..|keys| - 1], keys[|keys| - 1];
      BucketSize(front, h);
      assert keys == front + [key];
      DigitsSnoc(front, key, High, Equal(h));
    }
  }

  /** `_kth_largest_abs_key`: the exact threshold, for every chunk size. */
  method KthLargestAbsKey(a: seq<Float32>, k: nat, chunk: nat) returns (t: nat, nGt: nat, needEq: nat)
    requires 0 < k < |a| && chunk > 0
    ensures IsKthLargest(Keys(a), k, t)
    ensures nGt == CountIf(Keys(a), AtLeast(t + 1)) < k
    ensures needEq == k - nGt && 1 <= needEq <= CountIf(Keys(a), Equal(t))
  {
    ghost var keys := Keys(a);
    HighDigitsLength(keys);
    var histA := StreamHistogram(a, High, chunk);
    var h, nAbove := SelectDigit(histA, k, Digits(keys, High));
    BucketHoldsRank(keys, h, k);
    var kk2 := k - nAbove;
    var histB := StreamHistogram(a, LowOf(h), chunk);
    var l, nAboveB := SelectDigit(histB, kk2, Digits(keys, LowOf(h)));
    t, nGt, needEq := h * RADIX + l, nAbove + nAboveB, kk2 - nAboveB;
    DigitsCompare(keys, h, l);
    DigitsCompare(keys, h, l + 1);
    CountAtLeastStep(keys, t);
  }

  lemma {:induction false} HighDigitsLength(keys: seq<nat>)
    ensures |Digits(keys, High)| == |keys|
  {
    if keys != [] {
      HighDigitsLength(keys[..|keys| - 1]);
    }
  }

  // ---------------------------------------------------------------- gathering the survivors

  /** np.flatnonzero(p(keys)) + offset */
  function Where(keys: seq<nat>, p: nat -> bool, offset: nat): seq<nat> {
    if keys == [] then []
    else
      var n := |keys| - 1;
      Where(keys[..n], p, offset) + if p(keys[n]) then [offset + n] else []
  }

  function Take<T>(m: nat, s: seq<T>): seq<T> { s[..Min(m, |s|)] }

  lemma {:induction false} WhereAppend(s: seq<nat>, t: seq<nat>, p: nat -> bool, offset: nat)
    ensures Where(s + t, p, offset) == Where(s, p, offset) + Where(t, p, offset + |s|)
  {
    if t == [] {
      assert s + t == s;
    } else {
      assert (s + t)[..|s + t| - 1] == s + t[..|t| - 1];
      WhereAppend(s, t[..|t| - 1], p, offset);
    }
  }

  lemma {:induction false} WhereMembers(keys: seq<nat>, p: nat -> bool, x: nat)
    ensures |Where(keys, p, 0)| == CountIf(keys, p)
    ensures Ascending(Where(keys, p, 0))
    ensures x in Where(keys, p, 0) <==> x < |keys| && p(keys[x])
    ensures forall y :: y in Where(keys, p, 0) ==> y < |keys|
  {
    if keys != [] {
      WhereMembers(keys[..|keys| - 1], p, x);
      AscendingSnoc(Where(keys[..|keys| - 1], p, 0), |keys| - 1);
    }
  }

  lemma CountPrefix(keys: seq<nat>, i: nat, p: nat -> bool)
    requires i <= |keys|
    ensures CountIf(keys[..i], p) <= CountIf(keys, p)
  {
    assert keys == keys[..i] + keys[i..];
    CountAppend(keys[..i], keys[i..], p);
  }

  lemma AscendingSnoc(s: seq<nat>, n: nat)
    requires Ascending(s) && forall y :: y in s ==> y < n
    ensures Ascending(s + [n])
  {
    assert forall i :: 0 <= i < |s| ==> s[i] in s;
  }

  /** The first m positions passing a test are those with fewer than m passing positions before them. */
  lemma {:induction false} TakeWhere(keys: seq<nat>, p: nat -> bool, m: nat, x: nat)
    ensures x in Take(m, Where(keys, p, 0))
       <==> x < |keys| && p(keys[x]) && CountIf(keys[..x], p) < m
  {
    if keys != [] {
      var n := |keys| - 1;
      var front := keys[..n];
      var w := Where(front, p, 0);
      TakeWhere(front, p, m, x);
      WhereMembers(front, p, x);
      if x < n {
        assert front[..x] == keys[..x];
        CountPrefix(front, x, p);
      }
      if p(keys[n]) && |w| < m {
        assert Take(m, w + [n]) == w + [n] && Take(m, w) == w;
      } else {
        assert Take(m, Where(keys, p, 0)) == Take(m, w);
      }
    }
  }

  /** One more chunk extends both survivor lists by the chunk's own survivors. */
  lemma GatherExtends(keys: seq<nat>, s: nat, part: seq<nat>, p: nat -> bool, m: nat)
    requires s + |part| <= |keys| && part == keys[s..s + |part|]
    ensures var seen, more := Where(keys[..s], p, 0), Where(part, p, s);
            && Where(keys[..s + |part|], p, 0) == seen + more
            && Take(m, seen + more) == Take(m, seen) + Take(m - |Take(m, seen)|, more)
  {
    assert keys[..s + |part|] == keys[..s] + part;
    WhereAppend(keys[..s], part, p, 0);
  }

  // ---------------------------------------------------------------- rank and threshold agree

  lemma RankCounts(keys: seq<nat>, i: nat)
    requires i < |keys|
    ensures Rank(keys, i) == CountIf(keys, AtLeast(keys[i] + 1)) + CountIf(keys[..i], Equal(keys[i]))
  {
    var above, ties := Positions(keys, AtLeast(keys[i] + 1)), Positions(keys[..i], Equal(keys[i]));
    CountPositions(keys, AtLeast(keys[i] + 1));
    CountPositions(keys[..i], Equal(keys[i]));
    forall j: nat ensures j in Better(keys, i) <==> j in above || j in ties {
    }
    assert Better(keys, i) == above + ties;
    assert above !! ties;
  }

  lemma ThresholdIsRank(keys: seq<nat>, k: nat, t: nat, i: nat)
    requires IsKthLargest(keys, k, t) && i < |keys|
    ensures Rank(keys, i) < k <==>
            keys[i] > t || (keys[i] == t && CountIf(keys[..i], Equal(t)) < k - CountIf(keys, AtLeast(t + 1)))
  {
    RankCounts(keys, i);
    var x := keys[i];
    if x > t {
      CountAtLeastStep(keys, x);
      CountMono(keys, AtLeast(x), AtLeast(t + 1));
      CountPrefix(keys, i, Equal(x));
    } else if x < t {
      CountMono(keys, AtLeast(t), AtLeast(x + 1));
    }
  }

  lemma {:induction false} TopIndicesMembers(keys: seq<nat>, k: nat, n: nat)
    requires n <= |keys|
    ensures Ascending(TopIndicesUpTo(keys, k, n))
    ensures forall x: nat :: x in TopIndicesUpTo(keys, k, n) <==> x < n && Rank(keys, x) < k
  {
    hide Rank;
    if n > 0 {
      TopIndicesMembers(keys, k, n - 1);
      AscendingSnoc(TopIndicesUpTo(keys, k, n - 1), n - 1);
    }
  }

  lemma GatheredMembers(keys: seq<nat>, k: nat, t: nat, needEq: nat, x: nat)
    requires IsKthLargest(keys, k, t) && needEq == k - CountIf(keys, AtLeast(t + 1))
    ensures x in Where(keys, AtLeast(t + 1), 0) || x in Take(needEq, Where(keys, Equal(t), 0))
       <==> x in TopIndices(keys, k)
  {
    hide Where, Take, Rank, CountIf, IsKthLargest, Ascending;
    WhereMembers(keys, AtLeast(t + 1), x);
    TakeWhere(keys, Equal(t), needEq, x);
    TopIndicesMembers(keys, k, |keys|);
    if x < |keys| {
      ThresholdIsRank(keys, k, t, x);
    }
  }

  lemma AscendingApart(s: seq<nat>)
    requires Ascending(s)
    ensures forall i, j :: 0 <= i < j < |s| ==> s[i] != s[j]
  {
  }

  lemma TakeAscending(m: nat, s: seq<nat>)
    requires Ascending(s)
    ensures Ascending(Take(m, s)) && forall x :: x in Take(m, s) ==> x in s
    ensures |Take(m, s)| == Min(m, |s|)
  {
  }

  /** The greater entries and the first ties are distinct positions, k in all. */
  lemma GatheredDistinct(keys: seq<nat>, t: nat, needEq: nat)
    ensures var gt, eq := Where(keys, AtLeast(t + 1), 0), Take(needEq, Where(keys, Equal(t), 0));
            && |gt| == CountIf(keys, AtLeast(t + 1)) && |eq| == Min(needEq, CountIf(keys, Equal(t)))
            && forall i, j :: 0 <= i < j < |gt + eq| ==> (gt + eq)[i] != (gt + eq)[j]
  {
    hide Where, Take, CountIf, Ascending;
    var gt, all := Where(keys, AtLeast(t + 1), 0), Where(keys, Equal(t), 0);
    var eq := Take(needEq, all);
    WhereMembers(keys, AtLeast(t + 1), 0);
    WhereMembers(keys, Equal(t), 0);
    TakeAscending(needEq, all);
    AscendingApart(gt);
    AscendingApart(eq);
    forall i, j | 0 <= i < |gt| && 0 <= j < |eq| ensures gt[i] != eq[j] {
      assert gt[i] in gt && eq[j] in eq;
      WhereMembers(keys, AtLeast(t + 1), gt[i]);
      WhereMembers(keys, Equal(t), eq[j]);
    }
  }

  /** Merging the strictly greater entries with the first ties gives the reference top-k. */
  lemma GatheredIsTop(keys: seq<nat>, k: nat, t: nat, needEq: nat)
    requires IsKthLargest(keys, k, t) && needEq == k - CountIf(keys, AtLeast(t + 1))
    ensures var gt, eq := Where(keys, AtLeast(t + 1), 0), Take(needEq, Where(keys, Equal(t), 0));
            Sort(gt + eq, NatLe) == TopIndices(keys, k) && |gt + eq| == k
  {
    var gt, eq := Where(keys, AtLeast(t + 1), 0), Take(needEq, Where(keys, Equal(t), 0));
    CountAtLeastStep(keys, t);
    assert CountIf(keys, AtLeast(t + 1)) < k <= CountIf(keys, AtLeast(t));
    hide Where, Take, Rank, CountIf, IsKthLargest, Ascending, Sort;
    GatheredDistinct(keys, t, needEq);
    SortAscending(gt + eq);
    TopIndicesMembers(keys, k, |keys|);
    forall x: nat ensures x in Sort(gt + eq, NatLe) <==> x in TopIndices(keys, k) {
      GatheredMembers(keys, k, t, needEq, x);
    }
    AscendingUnique(Sort(gt + eq, NatLe), TopIndices(keys, k));
  }

  /** The index part of `quantize_topk`: the reference top-k, whatever the chunk size. */
  method SelectTopK(a: seq<Float32>, k: nat, chunk: nat) returns (idx: seq<nat>)
    requires 0 < k <= |a| && chunk > 0
    ensures idx == TopIndices(Keys(a), k)
    ensures |idx| == k
  {
    ghost var keys := Keys(a);
    hide Where, TopIndices, IsKthLargest, Sort, CountIf, Rank;
    if k >= |a| {
      idx := seq(|a|, i => i);
      KeepAll(keys);
      return;
    }
    var t, nGt, needEq := KthLargestAbsKey(a, k, chunk);
    var gt, eq, eqLeft := [], [], needEq;
    var s := 0;
    NothingGathered(AtLeast(t + 1));
    NothingGathered(Equal(t));
    assert keys[..s] == [];
    while s < |a|
      invariant s <= |a|
      invariant gt == Where(keys[..s], AtLeast(t + 1), 0)
      invariant eq == Take(needEq, Where(keys[..s], Equal(t), 0))
      invariant eqLeft == needEq - |eq|
    {
      var e := Min(s + chunk, |a|);
      var part := Keys(a[s..e]);
      assert part == keys[s..e];
      GatherExtends(keys, s, part, AtLeast(t + 1), 0);
      GatherExtends(keys, s, part, Equal(t), needEq);
      gt := gt + Where(part, AtLeast(t + 1), s);
      if eqLeft > 0 {
        var eqp := Take(eqLeft, Where(part, Equal(t), s));
        eq := eq + eqp;
        eqLeft := eqLeft - |eqp|;
      }
      s := e;
    }
    assert keys[..s] == keys;
    idx := Sort(gt + eq, NatLe);
    GatheredIsTop(keys, k, t, needEq);
    SortCorrect(gt + eq, NatLe);
  }

  lemma NothingGathered(p: nat -> bool)
    ensures Where([], p, 0) == []
  {
  }

  lemma KeepAll(keys: seq<nat>)
    ensures TopIndices(keys, |keys|) == seq(|keys|, i => i)
  {
    var all := seq(|keys|, i => i);
    TopIndicesMembers(keys, |keys|, |keys|);
    forall x: nat ensures x in all <==> x in TopIndices(keys, |keys|) {
      if x < |keys| {
        RankBound(keys, x);
        assert all[x] == x;
      }
    }
    AscendingUnique(all, TopIndices(keys, |keys|));
  }

  lemma RankBound(keys: seq<nat>, i: nat)
    requires i < |keys|
    ensures Rank(keys, i) < |keys|
  {
    RankCounts(keys, i);
    CountAtLeastStep(keys, keys[i]);
    CountBound(keys, AtLeast(keys[i]));
    CountPrefix(keys, i + 1, Equal(keys[i]));
    assert keys[..i + 1][..i] == keys[..i];
  }

  lemma {:induction false} SubsetSize<T>(a: set<T>, b: set<T>)
    requires a <= b
    ensures |a| <= |b|
    ensures |a| == |b| ==> a == b
  {
    if a != {} {
      var x :| x in a;
      SubsetSize(a - {x}, b - {x});
    }
  }

  // ---------------------------------------------------------------- what the reference means

  /** A threshold exists for every rank, and it is the k-th entry of the keys sorted downwards. */
  lemma KthLargestIsSortedEntry(keys: seq<nat>, k: nat, t: nat)
    requires 0 < k <= |keys|
    ensures |Sort(keys, NatLe)| == |keys|
    ensures IsKthLargest(keys, k, t) <==> t == Sort(keys, NatLe)[|keys| - k]
  {
    SortCorrect(keys, NatLe);
    var s, n := Sort(keys, NatLe), |keys|;
    var x := s[n - k];
    SortedCount(s, x, n - k);
    CountMultiset(keys, s, AtLeast(x));
    CountMultiset(keys, s, AtLeast(x + 1));
    if t < x {
      CountMono(keys, AtLeast(x), AtLeast(t + 1));
    } else if t > x {
      CountMono(keys, AtLeast(t), AtLeast(x + 1));
    }
  }

  lemma SortedCount(s: seq<nat>, x: nat, p: nat)
    requires Sorted(s, NatLe) && p < |s| && x == s[p]
    ensures CountIf(s, AtLeast(x + 1)) < |s| - p <= CountIf(s, AtLeast(x))
  {
    forall i | 0 <= i < |s| ensures i <= p ==> s[i] <= x
                            ensures i >= p ==> s[i] >= x
    {
      assert i < p ==> NatLe(s[i], s[p]);
      assert i > p ==> NatLe(s[p], s[i]);
    }
    CountRest(s, p + 1, AtLeast(x + 1));
    CountAllFrom(s, p, AtLeast(x));
  }

  lemma CountAllFrom(s: seq<nat>, p: nat, test: nat -> bool)
    requires p <= |s| && forall i :: p <= i < |s| ==> test(s[i])
    ensures CountIf(s, test) >= |s| - p
  {
    assert s == s[..p] + s[p..];
    CountAppend(s[..p], s[p..], test);
    CountBound(s[p..], test);
  }

  lemma TopIndicesLength(keys: seq<nat>, k: nat)
    requires 0 < k <= |keys|
    ensures |TopIndices(keys, k)| == k
  {
    SortCorrect(keys, NatLe);
    var t := Sort(keys, NatLe)[|keys| - k];
    KthLargestIsSortedEntry(keys, k, t);
    var needEq := k - CountIf(keys, AtLeast(t + 1));
    GatheredIsTop(keys, k, t, needEq);
    SortCorrect(Where(keys, AtLeast(t + 1), 0) + Take(needEq, Where(keys, Equal(t), 0)), NatLe);
  }

  /** A choice of indices that never drops an entry that beats a kept one. */
  ghost predicate KeepsTheBest(keys: seq<nat>, kept: set<nat>) {
    && (forall i :: i in kept ==> i < |keys|)
    && (forall i, j :: i in kept && 0 <= j < |keys| && j !in kept ==> !Beats(keys, j, i))
  }

  lemma BeatsLinear(keys: seq<nat>, i: nat, j: nat)
    requires i < |keys| && j < |keys| && i != j
    ensures Beats(keys, i, j) <==> !Beats(keys, j, i)
    ensures Beats(keys, j, i) ==> Rank(keys, j) < Rank(keys, i)
  {
    if Beats(keys, j, i) {
      assert Better(keys, j) <= Better(keys, i);
      assert j in Better(keys, i) && j !in Better(keys, j);
      SubsetSize(Better(keys, j), Better(keys, i));
    }
  }

  lemma TopIndicesKeepTheBest(keys: seq<nat>, k: nat)
    requires 0 < k <= |keys|
    ensures KeepsTheBest(keys, ToSet(TopIndices(keys, k))) && |ToSet(TopIndices(keys, k))| == k
  {
    var top := ToSet(TopIndices(keys, k));
    TopIndicesMembers(keys, k, |keys|);
    TopIndicesLength(keys, k);
    AscendingSize(TopIndices(keys, k));
    forall i, j | i in top && 0 <= j < |keys| && j !in top ensures !Beats(keys, j, i) {
      BeatsLinear(keys, i, j);
    }
  }

  lemma KeptRanksBelow(keys: seq<nat>, kept: set<nat>, i: nat)
    requires KeepsTheBest(keys, kept) && i in kept
    ensures Rank(keys, i) < |kept|
  {
    assert Better(keys, i) <= kept - {i};
    SubsetSize(Better(keys, i), kept - {i});
  }

  /** The selection is exactly the one choice of k indices in which nothing dropped is larger than anything
      kept and ties are kept lowest index first. */
  lemma TopIndicesUnique(keys: seq<nat>, k: nat, kept: set<nat>)
    requires 0 < k <= |keys|
    ensures (KeepsTheBest(keys, kept) && |kept| == k) <==> kept == ToSet(TopIndices(keys, k))
  {
    var top := ToSet(TopIndices(keys, k));
    TopIndicesKeepTheBest(keys, k);
    if KeepsTheBest(keys, kept) && |kept| == k {
      TopIndicesMembers(keys, k, |keys|);
      forall i | i in kept ensures i in top {
        KeptRanksBelow(keys, kept, i);
      }
      SubsetSize(kept, top);
    }
  }

  function ToSet(s: seq<nat>): set<nat> { set x | x in s }

  lemma {:induction false} AscendingSize(s: seq<nat>)
    requires Ascending(s)
    ensures |ToSet(s)| == |s|
  {
    if s != [] {
      var front, last := s[..|s| - 1], s[|s| - 1];
      AscendingSize(front);
      assert s == front + [last];
      forall x | x in front ensures x < last {
        var i :| 0 <= i < |front| && front[i] == x;
        assert s[i] < s[|s| - 1];
      }
      assert ToSet(s) == ToSet(front) + {last};
    }
  }

  /** In terms of the numbers themselves: every kept magnitude is at least every dropped one. */
  lemma KeptMagnitudesDominate(a: seq<Float32>, k: nat, i: nat, j: nat)
    requires 0 < k <= |a| && i < |a| && j < |a|
    requires i in TopIndices(Keys(a), k) && j !in TopIndices(Keys(a), k)
    ensures Magnitude(a[j]) <= Magnitude(a[i])
    ensures Magnitude(a[j]) == Magnitude(a[i]) ==> i < j
  {
    TopIndicesMembers(Keys(a), k, |a|);
    BeatsLinear(Keys(a), i, j);
    KeyOrdersMagnitude(a[i], a[j]);
    KeyOrdersMagnitude(a[j], a[i]);
  }
}
