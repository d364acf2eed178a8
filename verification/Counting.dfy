/** Counting the entries of a list that satisfy a test. */
module Counting {
  function CountIf<T>(s: seq<T>, p: T -> bool): nat {
    if s == [] then 0
    else CountIf(s[..|s| - 1], p) + if p(s[|s| - 1]) then 1 else 0
  }

  function AtLeast(t: nat): nat -> bool { x => x >= t }

  function Equal(t: nat): nat -> bool { x => x == t }

  lemma {:induction false} CountBound<T>(s: seq<T>, p: T -> bool)
    ensures CountIf(s, p) <= |s|
    ensures CountIf(s, p) > 0 ==> exists i :: 0 <= i < |s| && p(s[i])
    ensures CountIf(s, p) == |s| <==> forall i :: 0 <= i < |s| ==> p(s[i])
  {
    if s != [] {
      CountBound(s[..|s| - 1], p);
    }
  }

  lemma {:induction false} CountAppend<T>(s: seq<T>, t: seq<T>, p: T -> bool)
    ensures CountIf(s + t, p) == CountIf(s, p) + CountIf(t, p)
  {
    if t == [] {
      assert s + t == s;
    } else {
      assert (s + t)[..|s + t| - 1] == s + t[..|t| - 1];
      CountAppend(s, t[..|t| - 1], p);
    }
  }

  /** A test that splits into two disjoint ones counts their sum. */
  lemma {:induction false} CountSplit<T>(s: seq<T>, p: T -> bool, q: T -> bool, r: T -> bool)
    requires forall i :: 0 <= i < |s| ==> (p(s[i]) <==> q(s[i]) || r(s[i])) && !(q(s[i]) && r(s[i]))
    ensures CountIf(s, p) == CountIf(s, q) + CountIf(s, r)
  {
    if s != [] {
      CountSplit(s[..|s| - 1], p, q, r);
    }
  }

  lemma {:induction false} CountMono<T>(s: seq<T>, p: T -> bool, q: T -> bool)
    requires forall i :: 0 <= i < |s| && p(s[i]) ==> q(s[i])
    ensures CountIf(s, p) <= CountIf(s, q)
  {
    if s != [] {
      CountMono(s[..|s| - 1], p, q);
    }
  }

  lemma {:induction false} CountMultiset<T>(s: seq<T>, t: seq<T>, p: T -> bool)
    requires multiset(s) == multiset(t)
    ensures CountIf(s, p) == CountIf(t, p)
  {
    assert |multiset(s)| == |multiset(t)|;
    if s != [] {
      var x := s[|s| - 1];
      assert s == s[..|s| - 1] + [x];
      assert x in multiset(t);
      var i :| 0 <= i < |t| && t[i] == x;
      var u := t[..i] + t[i + 1..];
      assert t == t[..i] + [x] + t[i + 1..];
      assert multiset(u) == multiset(t) - multiset{x};
      assert multiset(s[..|s| - 1]) == multiset(s) - multiset{x};
      CountMultiset(s[..|s| - 1], u, p);
      CountAppend(t[..i] + [x], t[i + 1..], p);
      CountAppend(t[..i], [x], p);
      CountAppend(t[..i], t[i + 1..], p);
    }
  }

  /** A test that fails on the first m entries, or from entry m on. */
  lemma CountRest<T>(s: seq<T>, m: nat, p: T -> bool)
    requires m <= |s|
    ensures (forall i :: 0 <= i < m ==> !p(s[i])) ==> CountIf(s, p) <= |s| - m
    ensures (forall i :: m <= i < |s| ==> !p(s[i])) ==> CountIf(s, p) <= m
  {
    assert s == s[..m] + s[m..];
    CountAppend(s[..m], s[m..], p);
    CountBound(s[..m], p);
    CountBound(s[m..], p);
  }

  function Positions<T>(s: seq<T>, p: T -> bool): set<nat> {
    set i: nat | i < |s| && p(s[i])
  }

  /** The same number as a set of positions. */
  lemma {:induction false} CountPositions<T>(s: seq<T>, p: T -> bool)
    ensures |Positions(s, p)| == CountIf(s, p)
  {
    if s != [] {
      var n := |s| - 1;
      CountPositions(s[..n], p);
      assert Positions(s, p) == if p(s[n]) then Positions(s[..n], p) + {n} else Positions(s[..n], p);
    }
  }
}
