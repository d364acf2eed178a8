/** Sorting under a total order.  The result is the only sorted arrangement of the input, so it stands for
    every sorting routine the source calls (Python's `sorted`, numpy's `sort`). */
module Sorting {
  ghost predicate TotalOrder<T(!new)>(le: (T, T) -> bool) {
    && (forall a, b :: le(a, b) || le(b, a))
    && (forall a, b :: le(a, b) && le(b, a) ==> a == b)
    && (forall a, b, c :: le(a, b) && le(b, c) ==> le(a, c))
  }

  ghost predicate Sorted<T>(s: seq<T>, le: (T, T) -> bool) {
    forall i, j :: 0 <= i < j < |s| ==> le(s[i], s[j])
  }

  function Insert<T>(e: T, s: seq<T>, le: (T, T) -> bool): seq<T> {
    if s == [] then [e]
    else if le(e, s[0]) then [e] + s
    else [s[0]] + Insert(e, s[1..], le)
  }

  function Sort<T>(s: seq<T>, le: (T, T) -> bool): seq<T> {
    if s == [] then [] else Insert(s[|s| - 1], Sort(s[..|s| - 1], le), le)
  }

  lemma {:induction false} InsertMultiset<T>(e: T, s: seq<T>, le: (T, T) -> bool)
    ensures multiset(Insert(e, s, le)) == multiset(s) + multiset{e}
  {
    if s != [] {
      assert s == [s[0]] + s[1..];
      if !le(e, s[0]) {
        InsertMultiset(e, s[1..], le);
      }
    }
  }

  lemma {:induction false} InsertSorted<T(!new)>(e: T, s: seq<T>, le: (T, T) -> bool)
    requires TotalOrder(le) && Sorted(s, le)
    ensures Sorted(Insert(e, s, le), le)
  {
    if s != [] && !le(e, s[0]) {
      var t := s[1..];
      InsertSorted(e, t, le);
      var r := Insert(e, t, le);
      forall i | 0 <= i < |r| ensures le(s[0], r[i]) {
        InsertMultiset(e, t, le);
        assert r[i] in multiset(t) + multiset{e};
      }
    }
  }

  lemma {:induction false} SortPermutes<T(!new)>(s: seq<T>, le: (T, T) -> bool)
    requires TotalOrder(le)
    ensures Sorted(Sort(s, le), le)
    ensures multiset(Sort(s, le)) == multiset(s)
  {
    hide TotalOrder, Sorted, Insert;
    if s != [] {
      var p, e := s[..|s| - 1], s[|s| - 1];
      SortPermutes(p, le);
      InsertSorted(e, Sort(p, le), le);
      InsertMultiset(e, Sort(p, le), le);
      assert s == p + [e];
    } else {
      SortedShort(s, le);
    }
  }

  lemma SortedShort<T(!new)>(s: seq<T>, le: (T, T) -> bool)
    requires s == []
    ensures Sorted(s, le)
  {
  }

  lemma SortCorrect<T(!new)>(s: seq<T>, le: (T, T) -> bool)
    requires TotalOrder(le)
    ensures Sorted(Sort(s, le), le)
    ensures multiset(Sort(s, le)) == multiset(s)
    ensures |Sort(s, le)| == |s|
    ensures forall x :: x in Sort(s, le) <==> x in s
  {
    hide *;
    SortPermutes(s, le);
    assert |multiset(Sort(s, le))| == |multiset(s)|;
    forall x ensures x in Sort(s, le) <==> x in s {
      assert x in Sort(s, le) <==> x in multiset(Sort(s, le));
      assert x in s <==> x in multiset(s);
    }
  }

  lemma SameHead<T(!new)>(s: seq<T>, t: seq<T>, le: (T, T) -> bool)
    requires TotalOrder(le) && Sorted(s, le) && Sorted(t, le)
    requires multiset(s) == multiset(t) && s != [] && t != []
    ensures s[0] == t[0]
  {
    assert s[0] in multiset(t) && t[0] in multiset(s);
    var i :| 0 <= i < |t| && t[i] == s[0];
    var j :| 0 <= j < |s| && s[j] == t[0];
    assert le(s[0], t[0]) && le(t[0], s[0]);
  }

  lemma RestMultiset<T>(s: seq<T>)
    requires s != []
    ensures multiset(s[1..]) == multiset(s) - multiset{s[0]}
  {
    assert s == [s[0]] + s[1..];
  }

  /** A sorted arrangement is unique. */
  lemma {:induction false} SortedUnique<T(!new)>(s: seq<T>, t: seq<T>, le: (T, T) -> bool)
    requires TotalOrder(le) && Sorted(s, le) && Sorted(t, le)
    requires multiset(s) == multiset(t)
    ensures s == t
  {
    hide TotalOrder;
    assert |multiset(s)| == |multiset(t)|;
    if s != [] {
      SameHead(s, t, le);
      RestMultiset(s);
      RestMultiset(t);
      SortedUnique(s[1..], t[1..], le);
      assert s == [s[0]] + s[1..] && t == [t[0]] + t[1..];
    }
  }

  /** Sorting forgets exactly the order. */
  lemma SortCanonical<T(!new)>(s: seq<T>, t: seq<T>, le: (T, T) -> bool)
    requires TotalOrder(le)
    ensures Sort(s, le) == Sort(t, le) <==> multiset(s) == multiset(t)
  {
    SortCorrect(s, le);
    SortCorrect(t, le);
    if multiset(s) == multiset(t) {
      SortedUnique(Sort(s, le), Sort(t, le), le);
    }
  }

  function NatLe(a: nat, b: nat): bool { a <= b }

  function IntLe(a: int, b: int): bool { a <= b }

  ghost predicate Ascending(s: seq<nat>) {
    forall i, j :: 0 <= i < j < |s| ==> s[i] < s[j]
  }

  /** A strictly ascending list is determined by the set of its elements. */
  lemma {:induction false} AscendingUnique(s: seq<nat>, t: seq<nat>)
    requires Ascending(s) && Ascending(t)
    requires forall x :: x in s <==> x in t
    ensures s == t
  {
    assert t != [] ==> t[0] in s;
    if s != [] {
      assert s[0] in t;
      var i :| 0 <= i < |t| && t[i] == s[0];
      var j :| 0 <= j < |s| && s[j] == t[0];
      assert s[0] == t[0];
      forall x ensures x in s[1..] <==> x in t[1..] {
        assert x in s[1..] <==> x in s && x != s[0];
        assert x in t[1..] <==> x in t && x != t[0];
      }
      AscendingUnique(s[1..], t[1..]);
    }
  }

  lemma SortAscending(s: seq<nat>)
    requires forall i, j :: 0 <= i < j < |s| ==> s[i] != s[j]
    ensures Ascending(Sort(s, NatLe))
    ensures forall x :: x in Sort(s, NatLe) <==> x in s
    ensures |Sort(s, NatLe)| == |s|
  {
    SortCorrect(s, NatLe);
    var r := Sort(s, NatLe);
    forall i, j | 0 <= i < j < |r| ensures r[i] < r[j] {
      if r[i] == r[j] {
        DuplicateCount(r, i, j);
        NoDuplicateCount(s, r[i]);
      }
    }
  }

  lemma DuplicateCount<T>(s: seq<T>, i: nat, j: nat)
    requires i < j < |s| && s[i] == s[j]
    ensures multiset(s)[s[i]] >= 2
  {
    assert s == s[..i] + [s[i]] + s[i + 1..j] + [s[j]] + s[j + 1..];
  }

  lemma {:induction false} NoDuplicateCount<T>(s: seq<T>, x: T)
    requires forall i, j :: 0 <= i < j < |s| ==> s[i] != s[j]
    ensures multiset(s)[x] <= 1
  {
    if s != [] {
      assert s == [s[0]] + s[1..];
      NoDuplicateCount(s[1..], x);
      if s[0] == x {
        assert x !in s[1..];
        assert x !in multiset(s[1..]);
      }
    }
  }
}
