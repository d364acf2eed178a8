/** Sums of account tables. */
module Sums {
  import opened Prelude

  type Table = map<Addr, real>

  function Get(m: Table, a: Addr): real { if a in m then m[a] else 0.0 }

  ghost function SumOver(s: set<Addr>, m: Table): real {
    if s == {} then 0.0
    else
      var a :| a in s;
      Get(m, a) + SumOver(s - {a}, m)
  }

  ghost function Sum(m: Table): real { SumOver(m.Keys, m) }

  lemma {:induction false} SumOverPick(s: set<Addr>, m: Table, x: Addr)
    requires x in s
    ensures SumOver(s, m) == Get(m, x) + SumOver(s - {x}, m)
  {
    var a :| a in s && SumOver(s, m) == Get(m, a) + SumOver(s - {a}, m);
    if a != x {
      SumOverPick(s - {a}, m, x);
      SumOverPick(s - {x}, m, a);
      assert s - {a} - {x} == s - {x} - {a};
    }
  }

  lemma {:induction false} SumOverAgree(s: set<Addr>, m: Table, n: Table)
    requires forall a :: a in s ==> Get(m, a) == Get(n, a)
    ensures SumOver(s, m) == SumOver(s, n)
  {
    if s != {} {
      var a :| a in s;
      SumOverPick(s, m, a);
      SumOverPick(s, n, a);
      SumOverAgree(s - {a}, m, n);
    }
  }

  /** Addresses outside the table add nothing. */
  lemma {:induction false} SumOverWider(s: set<Addr>, t: set<Addr>, m: Table)
    requires s <= t && forall a :: a in t && a !in s ==> Get(m, a) == 0.0
    ensures SumOver(s, m) == SumOver(t, m)
  {
    if s != t {
      var a :| a in t && a !in s;
      SumOverPick(t, m, a);
      SumOverWider(s, t - {a}, m);
    }
  }

  lemma {:induction false} SumOverAdd(s: set<Addr>, m: Table, d: Table, r: Table)
    requires forall a :: a in s ==> Get(r, a) == Get(m, a) + Get(d, a)
    ensures SumOver(s, r) == SumOver(s, m) + SumOver(s, d)
  {
    if s != {} {
      var a :| a in s;
      SumOverPick(s, m, a);
      SumOverPick(s, d, a);
      SumOverPick(s, r, a);
      SumOverAdd(s - {a}, m, d, r);
    }
  }

  lemma {:induction false} SumOverNonNeg(s: set<Addr>, m: Table)
    requires forall a :: a in s ==> Get(m, a) >= 0.0
    ensures SumOver(s, m) >= 0.0
    ensures forall a :: a in s ==> Get(m, a) <= SumOver(s, m)
  {
    if s != {} {
      var a :| a in s;
      SumOverPick(s, m, a);
      SumOverNonNeg(s - {a}, m);
      forall b | b in s ensures Get(m, b) <= SumOver(s, m) {
        if b != a {
          assert b in s - {a};
        }
      }
    }
  }

  /** Setting one entry changes the sum by the difference. */
  lemma SumSet(m: Table, a: Addr, v: real)
    ensures Sum(m[a := v]) == Sum(m) - Get(m, a) + v
  {
    var r := m[a := v];
    assert r.Keys == m.Keys + {a};
    SumOverWider(m.Keys, r.Keys, m);
    SumOverPick(r.Keys, m, a);
    SumOverPick(r.Keys, r, a);
    SumOverAgree(r.Keys - {a}, m, r);
  }

  lemma SumRemove(m: Table, a: Addr)
    ensures Sum(m - {a}) == Sum(m) - Get(m, a)
  {
    if a in m {
      assert (m - {a}).Keys == m.Keys - {a};
      SumOverPick(m.Keys, m, a);
      SumOverAgree(m.Keys - {a}, m, m - {a});
    } else {
      assert m - {a} == m;
    }
  }

  /** Adding two tables entry by entry adds their sums. */
  lemma SumAdd(m: Table, d: Table, r: Table)
    requires m.Keys <= r.Keys && d.Keys <= r.Keys
    requires forall a :: a in r ==> r[a] == Get(m, a) + Get(d, a)
    ensures Sum(r) == Sum(m) + Sum(d)
  {
    SumOverWider(m.Keys, r.Keys, m);
    SumOverWider(d.Keys, r.Keys, d);
    SumOverAdd(r.Keys, m, d, r);
  }

  function Mul(x: real, y: real): real { x * y }

  lemma Distribute(f: real, x: real, y: real)
    ensures Mul(f, x + y) == Mul(f, x) + Mul(f, y)
  {
  }

  /** Scaling every entry scales the sum. */
  lemma {:induction false} SumOverScale(s: set<Addr>, m: Table, r: Table, f: real)
    requires forall a :: a in s ==> Get(r, a) == Mul(f, Get(m, a))
    ensures SumOver(s, r) == Mul(f, SumOver(s, m))
  {
    if s != {} {
      hide SumOver;
      hide Mul;
      var a :| a in s;
      SumOverPick(s, m, a);
      SumOverPick(s, r, a);
      SumOverScale(s - {a}, m, r, f);
      Distribute(f, Get(m, a), SumOver(s - {a}, m));
    }
  }

  /** The loop that adds up a table: the order does not matter. */
  method Total(m: Table, s: set<Addr>) returns (t: real)
    ensures t == SumOver(s, m)
  {
    t := 0.0;
    var left := s;
    while left != {}
      invariant left <= s
      invariant t + SumOver(left, m) == SumOver(s, m)
      decreases left
    {
      var a :| a in left;
      SumOverPick(left, m, a);
      t := t + Get(m, a);
      left := left - {a};
    }
  }
}
