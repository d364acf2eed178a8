/** Conservation, the hard cap, non-negative accounts and the reach of a slash, over every run of blocks. */
module LedgerSafety {
  import opened Prelude
  import opened Sorting
  import opened Blocks
  import opened Sums
  import opened Ledger
  import Retarget

  function QueueTotals(u: map<Addr, seq<Entry>>): Table { map a | a in u :: QueueSum(u[a]) }

  /** All coins in the ledger minus all coins ever minted. */
  ghost function Worth(l: Ledger): real {
    Sum(l.bal) + Sum(l.staked) + Sum(QueueTotals(l.unbonding)) + l.treasury - l.minted
  }

  ghost predicate NonNeg(m: Table) { forall a :: a in m ==> m[a] >= 0.0 }

  ghost predicate QueueOk(q: seq<Entry>) { forall i :: 0 <= i < |q| ==> q[i].amount >= 0.0 }

  ghost predicate QueuesOk(u: map<Addr, seq<Entry>>) { forall a :: a in u ==> QueueOk(u[a]) }

  /** Nothing negative anywhere, and minted within the cap. */
  ghost predicate Sound(l: Ledger) {
    && NonNeg(l.bal) && NonNeg(l.staked)
    && QueuesOk(l.unbonding)
    && l.treasury >= 0.0 && 0.0 <= l.minted <= MAX_SUPPLY
  }

  // ---------------------------------------------------------------- unbonding queues

  lemma {:induction false} QueueSumAppend(q: seq<Entry>, r: seq<Entry>)
    ensures QueueSum(q + r) == QueueSum(q) + QueueSum(r)
  {
    if r == [] {
      assert q + r == q;
    } else {
      assert (q + r)[..|q + r| - 1] == q + r[..|r| - 1];
      QueueSumAppend(q, r[..|r| - 1]);
    }
  }

  lemma QueueSumSnoc(q: seq<Entry>, e: Entry)
    ensures QueueSum(q + [e]) == QueueSum(q) + e.amount
  {
    assert (q + [e])[..|q|] == q;
  }

  lemma QueueSumOne(e: Entry)
    ensures QueueSum([e]) == e.amount
  {
    assert [e][..0] == [];
    assert QueueSum([e][..0]) == 0.0;
  }

  lemma {:induction false} QueueSumInsert(e: Entry, q: seq<Entry>)
    ensures QueueSum(Insert(e, q, EntryLe)) == QueueSum(q) + e.amount
  {
    QueueSumOne(e);
    if q != [] {
      if EntryLe(e, q[0]) {
        QueueSumAppend([e], q);
      } else {
        QueueSumInsert(e, q[1..]);
        QueueSumAppend([q[0]], Insert(e, q[1..], EntryLe));
        QueueSumAppend([q[0]], q[1..]);
        assert q == [q[0]] + q[1..];
      }
    }
  }

  lemma {:induction false} QueueSumSort(q: seq<Entry>)
    ensures QueueSum(Sort(q, EntryLe)) == QueueSum(q)
  {
    if q != [] {
      QueueSumSort(q[..|q| - 1]);
      QueueSumInsert(q[|q| - 1], Sort(q[..|q| - 1], EntryLe));
    }
  }

  lemma {:induction false} QueueSumNonNeg(q: seq<Entry>)
    requires QueueOk(q)
    ensures QueueSum(q) >= 0.0
    ensures forall i :: 0 <= i < |q| ==> q[i].amount <= QueueSum(q)
  {
    if q != [] {
      QueueSumNonNeg(q[..|q| - 1]);
    }
  }

  lemma EntryOrder()
    ensures TotalOrder(EntryLe)
  {
  }

  lemma SortQueueOk(q: seq<Entry>)
    requires QueueOk(q)
    ensures QueueOk(Sort(q, EntryLe)) && |Sort(q, EntryLe)| == |q|
  {
    EntryOrder();
    SortCorrect(q, EntryLe);
    var s := Sort(q, EntryLe);
    forall i | 0 <= i < |s| ensures s[i].amount >= 0.0 {
      assert s[i] in s;
    }
  }

  lemma CutOneTakes(c: Cut, e: Entry)
    requires QueueOk(c.kept) && e.amount >= 0.0 && (c.wanted.Some? ==> c.wanted.value >= 0.0)
    ensures var d, t := CutOne(c, e), if c.wanted.None? then e.amount else RealMin(e.amount, c.wanted.value);
            && QueueOk(d.kept)
            && d.taken == c.taken + t && d.wanted == Less(c.wanted, t)
            && QueueSum(d.kept) == QueueSum(c.kept) + e.amount - t
  {
    var t := if c.wanted.None? then e.amount else RealMin(e.amount, c.wanted.value);
    QueueSumSnoc(c.kept, e);
    QueueSumSnoc(c.kept, Entry(e.amount - t, e.release));
    hide QueueSum;
  }

  /** The loop over unbonding entries takes exactly what is wanted, as far as there is any. */
  lemma {:induction false} CutTakes(q: seq<Entry>, wanted: Option<real>)
    requires QueueOk(q) && (wanted.Some? ==> wanted.value >= 0.0)
    ensures var c := CutAll(q, wanted);
            && QueueOk(c.kept)
            && c.taken == (if wanted.None? then QueueSum(q) else RealMin(QueueSum(q), wanted.value))
            && QueueSum(c.kept) == QueueSum(q) - c.taken
            && c.wanted == Less(wanted, c.taken)
  {
    if q != [] {
      var front, e := q[..|q| - 1], q[|q| - 1];
      CutTakes(front, wanted);
      QueueSumNonNeg(front);
      assert QueueSum(q) == QueueSum(front) + e.amount;
      assert CutAll(q, wanted) == CutOne(CutAll(front, wanted), e);
      hide CutAll;
      hide CutOne;
      hide QueueSum;
      CutOneTakes(CutAll(front, wanted), e);
    }
  }

  lemma TotalsSet(u: map<Addr, seq<Entry>>, a: Addr, q: seq<Entry>)
    ensures Sum(QueueTotals(SetQueue(u, a, q)))
         == Sum(QueueTotals(u)) - QueueSum(if a in u then u[a] else []) + QueueSum(q)
  {
    assert QueueSum([]) == 0.0;
    TotalsOfSet(u, a, q);
    hide *;
    TotalsGet(u, a);
    if q == [] {
      SumRemove(QueueTotals(u), a);
    } else {
      SumSet(QueueTotals(u), a, QueueSum(q));
    }
  }

  lemma TotalsOfSet(u: map<Addr, seq<Entry>>, a: Addr, q: seq<Entry>)
    ensures QueueTotals(SetQueue(u, a, q)) == if q == [] then QueueTotals(u) - {a} else QueueTotals(u)[a := QueueSum(q)]
  {
    hide QueueSum;
  }

  lemma TotalsGet(u: map<Addr, seq<Entry>>, a: Addr)
    ensures Get(QueueTotals(u), a) == QueueSum(if a in u then u[a] else [])
  {
    assert QueueSum([]) == 0.0;
    hide QueueSum;
  }

  // ---------------------------------------------------------------- seizing

  function Demand(amount: Option<real>, atRisk: real): real {
    if amount.None? then atRisk else RealMin(RealMax(0.0, amount.value), atRisk)
  }

  /** Taking x of one entry of a table. */
  lemma DebitExact(m: Table, a: Addr, x: real)
    ensures Sum(m[a := Get(m, a) - x]) == Sum(m) - x
    ensures NonNeg(m) && x <= Get(m, a) ==> NonNeg(m[a := Get(m, a) - x])
    ensures forall b :: Get(m[a := Get(m, a) - x], b) == if b == a then Get(m, a) - x else Get(m, b)
  {
    SumSet(m, a, Get(m, a) - x);
    hide Sum;
  }

  lemma GetNonNeg(m: Table, a: Addr)
    requires NonNeg(m)
    ensures Get(m, a) >= 0.0
  {
  }

  lemma SeizeStakeIs(l: Ledger, a: Addr, wanted: Option<real>)
    requires Get(l.staked, a) >= 0.0 && (wanted.Some? ==> wanted.value >= 0.0)
    ensures var m, t := SeizeStake(l, a, wanted), StakeTaken(l, a, wanted);
            && t == (if wanted.None? then Get(l.staked, a) else RealMin(wanted.value, Get(l.staked, a)))
            && 0.0 <= t <= Get(l.staked, a)
            && m == l.(staked := m.staked)
            && m.staked == if t > 0.0 then l.staked[a := Get(l.staked, a) - t] else l.staked
  {
    hide Get;
  }

  lemma SeizeStakeExact(l: Ledger, a: Addr, wanted: Option<real>)
    requires Sound(l) && (wanted.Some? ==> wanted.value >= 0.0)
    ensures var m, t := SeizeStake(l, a, wanted), StakeTaken(l, a, wanted);
            && t == (if wanted.None? then Get(l.staked, a) else RealMin(wanted.value, Get(l.staked, a)))
            && 0.0 <= t <= Get(l.staked, a)
            && Get(m.staked, a) == Get(l.staked, a) - t
            && Sum(m.staked) == Sum(l.staked) - t
            && NonNeg(m.staked) && m == l.(staked := m.staked)
            && (forall b :: b != a ==> Get(m.staked, b) == Get(l.staked, b))
  {
    assert NonNeg(l.staked);
    hide *;
    GetNonNeg(l.staked, a);
    SeizeStakeIs(l, a, wanted);
    DebitExact(l.staked, a, StakeTaken(l, a, wanted));
  }

  lemma QueueReplaced(l: Ledger, a: Addr, kept: seq<Entry>)
    requires Sound(l) && QueueOk(kept)
    ensures var m := l.(unbonding := SetQueue(l.unbonding, a, kept));
            && Queue(m, a) == kept
            && (forall b :: b != a ==> Queue(m, b) == Queue(l, b))
            && QueuesOk(m.unbonding)
            && Sum(QueueTotals(m.unbonding))
               == Sum(QueueTotals(l.unbonding)) - QueueSum(Queue(l, a)) + QueueSum(kept)
  {
    TotalsSet(l.unbonding, a, kept);
    SetQueueReads(l.unbonding, a, kept);
    hide QueueSum;
    hide SumOver;
  }

  lemma SeizeQueueExact(l: Ledger, a: Addr, wanted: Option<real>)
    requires Sound(l) && (wanted.Some? ==> wanted.value >= 0.0)
    ensures var m, t, sum := SeizeQueue(l, a, wanted), QueueTaken(l, a, wanted), QueueSum(Queue(l, a));
            && t == (if wanted.None? then sum else RealMin(wanted.value, sum))
            && 0.0 <= t <= sum
            && QueueSum(Queue(m, a)) == sum - t
            && Sum(QueueTotals(m.unbonding)) == Sum(QueueTotals(l.unbonding)) - t
            && QueuesOk(m.unbonding)
            && m == l.(unbonding := m.unbonding)
            && (forall b :: b != a ==> Queue(m, b) == Queue(l, b))
  {
    var q := Queue(l, a);
    QueueSumNonNeg(q);
    if q != [] && (wanted.None? || wanted.value > 0.0) {
      QueueSumSort(q);
      SortQueueOk(q);
      CutTakes(Sort(q, EntryLe), wanted);
      hide *;
      QueueReplaced(l, a, CutAll(Sort(q, EntryLe), wanted).kept);
      SeizeQueueUnfolds(l, a, wanted);
    }
  }

  lemma SeizeQueueUnfolds(l: Ledger, a: Addr, wanted: Option<real>)
    requires Queue(l, a) != [] && (wanted.None? || wanted.value > 0.0)
    ensures var cut := CutAll(Sort(Queue(l, a), EntryLe), wanted);
            && QueueTaken(l, a, wanted) == cut.taken
            && SeizeQueue(l, a, wanted) == l.(unbonding := SetQueue(l.unbonding, a, cut.kept))
  {
  }

  /** Changing only the bonded tables keeps a ledger sound, and moves its worth by what they change by. */
  lemma BondedFrame(l: Ledger, m: Ledger)
    requires Sound(l) && m == l.(staked := m.staked, unbonding := m.unbonding)
    requires NonNeg(m.staked) && QueuesOk(m.unbonding)
    ensures Sound(m)
    ensures Worth(m) - Worth(l) == Sum(m.staked) - Sum(l.staked)
                                   + Sum(QueueTotals(m.unbonding)) - Sum(QueueTotals(l.unbonding))
  {
    hide Sum, NonNeg, QueuesOk;
  }

  lemma AtRiskIs(l: Ledger, a: Addr)
    ensures AtRisk(l, a) == Get(l.staked, a) + QueueSum(Queue(l, a))
  {
  }

  lemma SeizeIs(l: Ledger, a: Addr, amount: Option<real>, wanted: Option<real>)
    requires wanted == if amount.None? then None else Some(RealMax(0.0, amount.value))
    ensures var l1, bond := SeizeStake(l, a, wanted), StakeTaken(l, a, wanted);
            Seize(l, a, amount)
            == (SeizeQueue(l1, a, Less(wanted, bond)), bond + QueueTaken(l1, a, Less(wanted, bond)))
  {
    hide SeizeStake, SeizeQueue, StakeTaken, QueueTaken, Less;
  }

  /** Bond first, queue second: together the smaller of what is wanted and what there is. */
  lemma TakenTogether(wanted: Option<real>, stake: real, queue: real, bond: real, rest: Option<real>, cut: real)
    requires stake >= 0.0 && queue >= 0.0 && (wanted.Some? ==> wanted.value >= 0.0)
    requires bond == if wanted.None? then stake else RealMin(wanted.value, stake)
    requires rest == Less(wanted, bond) && cut == if rest.None? then queue else RealMin(rest.value, queue)
    ensures bond + cut == if wanted.None? then stake + queue else RealMin(wanted.value, stake + queue)
  {
  }

  lemma LessNonNeg(wanted: Option<real>, taken: real)
    requires wanted.Some? ==> taken <= wanted.value
    ensures Less(wanted, taken).Some? <==> wanted.Some?
    ensures Less(wanted, taken).Some? ==> Less(wanted, taken).value >= 0.0
  {
  }

  lemma DemandIs(amount: Option<real>, wanted: Option<real>, atRisk: real)
    requires wanted == if amount.None? then None else Some(RealMax(0.0, amount.value))
    ensures Demand(amount, atRisk) == if wanted.None? then atRisk else RealMin(wanted.value, atRisk)
    ensures wanted.Some? ==> wanted.value >= 0.0
    ensures atRisk >= 0.0 ==> Demand(amount, atRisk) >= 0.0
  {
  }

  lemma SoundTables(l: Ledger, a: Addr)
    requires Sound(l)
    ensures NonNeg(l.staked) && QueuesOk(l.unbonding) && QueueOk(Queue(l, a))
    ensures Get(l.staked, a) >= 0.0 && QueueSum(Queue(l, a)) >= 0.0
  {
    QueueSumNonNeg(Queue(l, a));
    hide QueueSum;
  }

  lemma QueueFrame(l: Ledger, m: Ledger)
    requires m.unbonding == l.unbonding
    ensures forall b :: Queue(m, b) == Queue(l, b)
  {
  }

  /** `_seize` removes exactly the smaller of what is asked and what is at risk, from that address only. */
  lemma SeizeExact(l: Ledger, a: Addr, amount: Option<real>)
    requires Sound(l)
    ensures var (m, seized) := Seize(l, a, amount);
            && seized == Demand(amount, AtRisk(l, a)) >= 0.0
            && AtRisk(m, a) == AtRisk(l, a) - seized
            && (forall b :: b != a ==> Get(m.staked, b) == Get(l.staked, b) && Queue(m, b) == Queue(l, b))
            && Worth(m) == Worth(l) - seized
            && Sound(m)
            && m == l.(staked := m.staked, unbonding := m.unbonding)
  {
    hide *;
    var wanted := if amount.None? then None else Some(RealMax(0.0, amount.value));
    SoundTables(l, a);
    AtRiskIs(l, a);
    DemandIs(amount, wanted, AtRisk(l, a));
    SeizeIs(l, a, amount, wanted);
    SeizeStakeExact(l, a, wanted);
    var l1, bond := SeizeStake(l, a, wanted), StakeTaken(l, a, wanted);
    BondedFrame(l, l1);
    QueueFrame(l, l1);
    MinAtMost(wanted, Get(l.staked, a));
    LessNonNeg(wanted, bond);
    SeizeQueueExact(l1, a, Less(wanted, bond));
    var m, cut := SeizeQueue(l1, a, Less(wanted, bond)), QueueTaken(l1, a, Less(wanted, bond));
    BondedFrame(l1, m);
    AtRiskIs(m, a);
    TakenTogether(wanted, Get(l.staked, a), QueueSum(Queue(l, a)), bond, Less(wanted, bond), cut);
  }

  lemma MinAtMost(wanted: Option<real>, x: real)
    ensures wanted.Some? ==> RealMin(wanted.value, x) <= wanted.value
  {
  }

  lemma SetQueueReads(u: map<Addr, seq<Entry>>, a: Addr, q: seq<Entry>)
    ensures var v := SetQueue(u, a, q);
            && (if a in v then v[a] else []) == q
            && (forall b :: b != a ==> (b in v <==> b in u))
            && (forall b :: b != a && b in u ==> v[b] == u[b])
  {
  }

  // ---------------------------------------------------------------- maturing

  lemma {:induction false} MatureSplits(q: seq<Entry>, height: int)
    ensures QueueSum(Kept(q, height)) + QueueSum(Released(q, height)) == QueueSum(q)
  {
    if q != [] {
      var n := |q| - 1;
      MatureSplits(q[..n], height);
      var kept, released := Kept(q[..n], height), Released(q[..n], height);
      assert QueueSum(q) == QueueSum(q[..n]) + q[n].amount;
      hide QueueSum;
      QueueSumSnoc(kept, q[n]);
      QueueSumSnoc(released, q[n]);
      if q[n].release <= height {
        assert Kept(q, height) == kept && Released(q, height) == released + [q[n]];
      } else {
        assert Kept(q, height) == kept + [q[n]] && Released(q, height) == released;
      }
    }
  }

  lemma {:induction false} MatureMembers(q: seq<Entry>, height: int)
    ensures QueueOk(q) ==> QueueOk(Kept(q, height)) && QueueOk(Released(q, height))
    ensures forall e :: e in Kept(q, height) <==> e in q && e.release > height
  {
    if q != [] {
      MatureMembers(q[..|q| - 1], height);
    }
  }

  function ReleasedTotals(l: Ledger, height: int): Table {
    map a | a in l.unbonding :: QueueSum(Released(l.unbonding[a], height))
  }

  lemma MatureReads(l: Ledger, height: int)
    ensures var m := Mature(l, height);
            && (forall a :: Queue(m, a) == Kept(Queue(l, a), height))
            && (forall a :: Get(m.bal, a) == Get(l.bal, a) + QueueSum(Released(Queue(l, a), height)))
  {
    var m := Mature(l, height);
    forall a: Addr ensures Get(m.bal, a) == Get(l.bal, a) + QueueSum(Released(Queue(l, a), height)) {
      assert a !in m.bal ==> a !in l.bal && Released(Queue(l, a), height) == [];
    }
    forall a: Addr ensures Queue(m, a) == Kept(Queue(l, a), height) {
    }
  }

  lemma MatureNonNeg(l: Ledger, height: int)
    requires Sound(l)
    ensures NonNeg(Mature(l, height).bal)
    ensures QueuesOk(Mature(l, height).unbonding)
  {
    var m := Mature(l, height);
    forall a | a in m.bal ensures m.bal[a] >= 0.0 {
      MatureMembers(Queue(l, a), height);
      QueueSumNonNeg(Released(Queue(l, a), height));
    }
    forall a | a in m.unbonding ensures QueueOk(m.unbonding[a]) {
      MatureMembers(l.unbonding[a], height);
    }
  }

  /** Maturing moves released entries to the liquid balances and nothing else. */
  lemma MatureExact(l: Ledger, height: int)
    requires Sound(l)
    ensures var m := Mature(l, height);
            && Sound(m) && Worth(m) == Worth(l)
            && m == l.(bal := m.bal, unbonding := m.unbonding)
            && (forall a :: Queue(m, a) == Kept(Queue(l, a), height))
            && (forall a :: Get(m.bal, a) == Get(l.bal, a) + QueueSum(Released(Queue(l, a), height)))
  {
    MatureReads(l, height);
    MatureNonNeg(l, height);
    MatureBalances(l, height);
    MatureQueues(l, height);
    hide Mature;
    hide SumOver;
    hide QueueSum;
  }

  lemma MatureKeys(l: Ledger, height: int)
    ensures Mature(l, height).bal.Keys <= l.bal.Keys + l.unbonding.Keys
    ensures ReleasedTotals(l, height).Keys == l.unbonding.Keys
    ensures forall a :: Get(ReleasedTotals(l, height), a) == QueueSum(Released(Queue(l, a), height))
  {
    assert QueueSum(Released([], height)) == 0.0;
    hide QueueSum, Released, Kept;
  }

  lemma MatureBalances(l: Ledger, height: int)
    ensures Sum(Mature(l, height).bal) == Sum(l.bal) + Sum(ReleasedTotals(l, height))
  {
    hide Mature, Sum, SumOver, ReleasedTotals, QueueSum, Released, Queue;
    MatureReads(l, height);
    MatureKeys(l, height);
    var released, m := ReleasedTotals(l, height), Mature(l, height);
    var wide := map a | a in l.bal.Keys + l.unbonding.Keys :: Get(l.bal, a) + Get(released, a);
    SumAdd(l.bal, released, wide);
    SumOfWider(m.bal, wide);
  }

  /** A table that reads alike, with more keys. */
  lemma SumOfWider(m: Table, wide: Table)
    requires m.Keys <= wide.Keys && forall a :: a in wide ==> Get(m, a) == wide[a]
    ensures Sum(m) == Sum(wide)
  {
    SumOverWider(m.Keys, wide.Keys, m);
    SumOverAgree(wide.Keys, m, wide);
    hide SumOver;
  }

  lemma MatureQueues(l: Ledger, height: int)
    ensures Sum(QueueTotals(Mature(l, height).unbonding)) + Sum(ReleasedTotals(l, height))
         == Sum(QueueTotals(l.unbonding))
  {
    var released := ReleasedTotals(l, height);
    var kept := QueueTotals(Mature(l, height).unbonding);
    forall a | a in l.unbonding ensures QueueSum(l.unbonding[a]) == Get(kept, a) + Get(released, a) {
      MatureSplits(l.unbonding[a], height);
    }
    SumAdd(kept, released, QueueTotals(l.unbonding));
  }

  // ---------------------------------------------------------------- transactions

  lemma BurnedSound(c: Crypto, l: Ledger, tx: Tx, bond: real, fault: Fault)
    requires Sound(l) && bond >= 0.0
    ensures var m := Burned(c, l, tx, bond, fault);
            && Sound(m) && Worth(m) == Worth(l) + bond && fault in m.faults
            && m.staked == l.staked && m.unbonding == l.unbonding
            && (m.treasury - l.treasury) + (Sum(m.bal) - Sum(l.bal)) == bond
            && m.treasury - l.treasury >= bond * (1.0 - BOUNTY)
  {
    CreditExact(l.bal, tx.sender, bond * BOUNTY);
    hide Sum, NonNeg, QueuesOk, BountyOk, Credit, QueueTotals;
  }

  lemma CreditExact(m: Table, a: Addr, x: real)
    ensures Sum(Credit(m, a, x)) == Sum(m) + x
    ensures NonNeg(m) && x >= 0.0 ==> NonNeg(Credit(m, a, x))
  {
    DebitExact(m, a, -x);
    hide Sum;
  }

  lemma SlashForIs(c: Crypto, l: Ledger, tx: Tx, target: Addr, fault: Fault)
    ensures fault in l.faults ==> SlashFor(c, l, tx, target, fault) == l
    ensures fault !in l.faults ==>
              SlashFor(c, l, tx, target, fault)
              == Burned(c, Seize(l, target, None).0, tx, Seize(l, target, None).1, fault)
  {
    hide Burned, Seize;
  }

  lemma DemandAll(atRisk: real)
    ensures Demand(None, atRisk) == atRisk
  {
  }

  lemma SlashSound(c: Crypto, l: Ledger, tx: Tx, target: Addr, fault: Fault)
    requires Sound(l)
    ensures var m := SlashFor(c, l, tx, target, fault);
            && Sound(m) && Worth(m) == Worth(l)
            && (fault !in l.faults ==> AtRisk(m, target) == 0.0)
            && fault in m.faults
            && (forall b :: b != target ==> Get(m.staked, b) == Get(l.staked, b) && Queue(m, b) == Queue(l, b))
  {
    hide *;
    SlashForIs(c, l, tx, target, fault);
    if fault !in l.faults {
      SeizeExact(l, target, None);
      var l1 := Seize(l, target, None).0;
      BurnedSound(c, l1, tx, Seize(l, target, None).1, fault);
      DemandAll(AtRisk(l, target));
      QueueFrame(l1, SlashFor(c, l, tx, target, fault));
      AtRiskIs(l1, target);
      AtRiskIs(SlashFor(c, l, tx, target, fault), target);
    }
  }

  lemma EnqueueTotals(u: map<Addr, seq<Entry>>, a: Addr, e: Entry)
    ensures Sum(QueueTotals(Enqueue(u, a, e))) == Sum(QueueTotals(u)) + e.amount
    ensures QueueSum(Enqueue(u, a, e)[a]) == QueueSum(if a in u then u[a] else []) + e.amount
  {
    var q := if a in u then u[a] else [];
    QueueSumOne(e);
    QueueSumAppend(q, [e]);
    TotalsSet(u, a, q + [e]);
    assert Enqueue(u, a, e) == SetQueue(u, a, q + [e]);
  }

  lemma EnqueueOk(u: map<Addr, seq<Entry>>, a: Addr, e: Entry)
    requires QueuesOk(u) && e.amount >= 0.0
    ensures QueuesOk(Enqueue(u, a, e))
  {
  }

  lemma DebitOk(m: Table, a: Addr, x: real)
    ensures Sum(Debit(m, a, x)) == Sum(m) - x
    ensures NonNeg(m) && x <= Get(m, a) ==> NonNeg(Debit(m, a, x))
  {
    DebitExact(m, a, x);
    hide Sum;
  }

  /** What a transaction that goes through does, kind by kind. */
  lemma EffectIs(l: Ledger, tx: Tx, height: int)
    requires Effect(l, tx, height).Ok?
    ensures var m := Effect(l, tx, height).value;
            match tx.kind
            case Transfer => && tx.to.Some? && tx.amount <= Get(l.bal, tx.sender)
                             && m == l.(bal := Credit(Debit(l.bal, tx.sender, tx.amount), tx.to.value, tx.amount))
            case Stake => && tx.amount <= Get(l.bal, tx.sender)
                          && m == l.(bal := Debit(l.bal, tx.sender, tx.amount),
                                     staked := Credit(l.staked, tx.sender, tx.amount))
            case Unstake => && tx.amount <= Get(l.staked, tx.sender)
                            && m == l.(staked := Debit(l.staked, tx.sender, tx.amount),
                                       unbonding := Enqueue(l.unbonding, tx.sender,
                                                            Entry(tx.amount, height + UNBONDING_PERIOD)))
            case UpgradeSignal => m == l.(signals := l.signals + {tx.sender})
            case Slash => false
  {
    hide Debit, Credit, Enqueue, Get;
  }

  lemma EffectSound(l: Ledger, tx: Tx, height: int)
    requires Sound(l) && tx.amount >= 0.0 && Effect(l, tx, height).Ok?
    ensures var m := Effect(l, tx, height).value; Sound(m) && Worth(m) == Worth(l)
  {
    hide Sum, NonNeg, QueuesOk, QueueTotals, Debit, Credit, Enqueue, Get, QueueSum, Effect;
    EffectIs(l, tx, height);
    DebitOk(l.bal, tx.sender, tx.amount);
    match tx.kind
    case Transfer =>
      CreditExact(Debit(l.bal, tx.sender, tx.amount), tx.to.value, tx.amount);
    case Stake =>
      CreditExact(l.staked, tx.sender, tx.amount);
    case Unstake =>
      DebitOk(l.staked, tx.sender, tx.amount);
      EnqueueTotals(l.unbonding, tx.sender, Entry(tx.amount, height + UNBONDING_PERIOD));
      EnqueueOk(l.unbonding, tx.sender, Entry(tx.amount, height + UNBONDING_PERIOD));
    case UpgradeSignal =>
  }

  /** A transaction moves coins and creates none. */
  lemma TxSound(c: Crypto, l: Ledger, tx: Tx, height: int)
    requires Sound(l) && ApplyTx(c, l, tx, height).Ok?
    ensures var m := ApplyTx(c, l, tx, height).value; Sound(m) && Worth(m) == Worth(l)
  {
    if tx.kind.Slash? {
      var t := SlashTarget(c, l.keys, tx).value;
      hide SlashTarget;
      hide SlashFor;
      hide SumOver;
      SlashSound(c, l, tx, t.0, t.1);
    } else {
      hide Effect;
      hide SumOver;
      EffectSound(l, tx, height);
    }
  }

  lemma {:induction false} TxsSound(c: Crypto, l: Ledger, txs: seq<Tx>, height: int)
    requires Sound(l) && ApplyTxs(c, l, txs, height).Ok?
    ensures var m := ApplyTxs(c, l, txs, height).value; Sound(m) && Worth(m) == Worth(l)
  {
    hide ApplyTx;
    hide Worth;
    hide Sound;
    if txs != [] {
      TxsSound(c, l, txs[..|txs| - 1], height);
      TxSound(c, ApplyTxs(c, l, txs[..|txs| - 1], height).value, txs[|txs| - 1], height);
    }
  }

  // ---------------------------------------------------------------- reward

  lemma ShareOfOne(w: real, total: real)
    requires total > 0.0
    ensures w / total == Mul(1.0 / total, w)
    ensures w >= 0.0 ==> w / total >= 0.0
  {
  }

  /** The shares of a reward add up to the reward. */
  lemma SharesSum(reward: real, agg: Table)
    requires Sum(agg) > 0.0
    ensures Sum(Shares(reward, agg)) == reward
  {
    var total := Sum(agg);
    var parts := map a | a in agg :: agg[a] / total;
    forall a | a in agg ensures Get(parts, a) == Mul(1.0 / total, Get(agg, a)) {
      ShareOfOne(agg[a], total);
    }
    SumOverScale(agg.Keys, agg, parts, 1.0 / total);
    assert parts.Keys == agg.Keys;
    assert Sum(parts) == 1.0;
    var shares := Shares(reward, agg);
    assert shares.Keys == agg.Keys;
    SumOverScale(agg.Keys, parts, shares, reward);
  }

  /** The mint never passes the cap, pays out exactly what it mints, and pays only positive weights. */
  lemma RewardSound(l: Ledger, reward: real, contributors: Table)
    requires Sound(l)
    ensures var m := Reward(l, reward, contributors);
            && Sound(m) && Worth(m) == Worth(l)
            && m == l.(bal := m.bal, minted := m.minted)
            && l.minted <= m.minted <= MAX_SUPPLY
            && m.minted - l.minted == (if Sum(Positive(contributors)) > 0.0 then Mintable(l, reward) else 0.0)
            && (forall a :: !(a in contributors && contributors[a] > 0.0) ==> Get(m.bal, a) == Get(l.bal, a))
  {
    var agg, r := Positive(contributors), Mintable(l, reward);
    if Sum(agg) > 0.0 && r > 0.0 {
      PaidTable(l.bal, r, agg);
    }
    hide Sum, NonNeg, QueuesOk, QueueTotals, Shares, Get;
  }

  /** The reward reads the balances and the minted total only. */
  lemma RewardReads(l: Ledger, m: Ledger, reward: real, contributors: Table)
    requires l.bal == m.bal && l.minted == m.minted
    ensures var a, b := Reward(l, reward, contributors), Reward(m, reward, contributors);
            a.bal == b.bal && a.minted == b.minted
  {
    hide Shares, Sum, SumOver, Positive;
  }

  /** Adding the shares of a reward to the balances. */
  lemma PaidTable(bal: Table, reward: real, agg: Table)
    requires NonNeg(bal) && Sum(agg) > 0.0 && reward > 0.0 && forall a :: a in agg ==> agg[a] >= 0.0
    ensures var shares := Shares(reward, agg);
            var paid: Table := map a | a in bal.Keys + shares.Keys :: Get(bal, a) + Get(shares, a);
            && Sum(paid) == Sum(bal) + reward && NonNeg(paid)
            && forall a :: a !in agg ==> Get(paid, a) == Get(bal, a)
  {
    SharesSum(reward, agg);
    var shares := Shares(reward, agg);
    SharesNonNeg(reward, agg);
    hide Sum, Shares;
    SumAdd(bal, shares, map a | a in bal.Keys + shares.Keys :: Get(bal, a) + Get(shares, a));
  }

  lemma SharesNonNeg(reward: real, agg: Table)
    requires Sum(agg) > 0.0 && reward > 0.0 && forall a :: a in agg ==> agg[a] >= 0.0
    ensures Shares(reward, agg).Keys == agg.Keys && NonNeg(Shares(reward, agg))
  {
    hide Sum;
    forall a | a in agg ensures Mul(reward, agg[a] / Sum(agg)) >= 0.0 {
      ShareOfOne(agg[a], Sum(agg));
    }
  }

  // ---------------------------------------------------------------- what no transaction touches

  /** Minted coins, keys, checkpoint, version, streak, schedule and retarget are the same. */
  predicate SameChain(l: Ledger, m: Ledger) {
    m == l.(bal := m.bal, staked := m.staked, treasury := m.treasury, nonces := m.nonces, faults := m.faults,
            unbonding := m.unbonding, signals := m.signals)
  }

  lemma SeizeStakeFrame(l: Ledger, a: Addr, wanted: Option<real>)
    ensures var m := SeizeStake(l, a, wanted); m == l.(staked := m.staked)
  {
    hide StakeTaken, Get;
  }

  lemma SeizeQueueFrame(l: Ledger, a: Addr, wanted: Option<real>)
    ensures var m := SeizeQueue(l, a, wanted); m == l.(unbonding := m.unbonding)
  {
    hide CutAll, Sort, SetQueue, EntryLe;
  }

  lemma SeizeKeepsChain(l: Ledger, a: Addr, amount: Option<real>)
    ensures var m := Seize(l, a, amount).0; m == l.(staked := m.staked, unbonding := m.unbonding)
  {
    hide *;
    var wanted := if amount.None? then None else Some(RealMax(0.0, amount.value));
    SeizeIs(l, a, amount, wanted);
    SeizeStakeFrame(l, a, wanted);
    SeizeQueueFrame(SeizeStake(l, a, wanted), a, Less(wanted, StakeTaken(l, a, wanted)));
  }

  lemma SlashKeepsChain(c: Crypto, l: Ledger, tx: Tx, target: Addr, fault: Fault)
    ensures SameChain(l, SlashFor(c, l, tx, target, fault))
    ensures SlashFor(c, l, tx, target, fault).signals == l.signals
    ensures l.faults <= SlashFor(c, l, tx, target, fault).faults
  {
    SeizeKeepsChain(l, target, None);
    hide Seize, BountyOk, Credit;
  }

  lemma EffectKeepsChain(l: Ledger, tx: Tx, height: int)
    requires Effect(l, tx, height).Ok?
    ensures SameChain(l, Effect(l, tx, height).value)
    ensures l.signals <= Effect(l, tx, height).value.signals
    ensures l.faults <= Effect(l, tx, height).value.faults
  {
    hide Effect, Debit, Credit, Enqueue, Get;
    EffectIs(l, tx, height);
  }

  lemma TxKeepsChain(c: Crypto, l: Ledger, tx: Tx, height: int)
    requires ApplyTx(c, l, tx, height).Ok?
    ensures SameChain(l, ApplyTx(c, l, tx, height).value)
    ensures l.signals <= ApplyTx(c, l, tx, height).value.signals
    ensures l.faults <= ApplyTx(c, l, tx, height).value.faults
  {
    if tx.kind.Slash? {
      var t := SlashTarget(c, l.keys, tx).value;
      SlashKeepsChain(c, l, tx, t.0, t.1);
      hide SlashTarget;
      hide SlashFor;
    } else {
      EffectKeepsChain(l, tx, height);
      hide Effect;
    }
  }

  lemma {:induction false} TxsKeepChain(c: Crypto, l: Ledger, txs: seq<Tx>, height: int)
    requires ApplyTxs(c, l, txs, height).Ok?
    ensures SameChain(l, ApplyTxs(c, l, txs, height).value)
    ensures l.signals <= ApplyTxs(c, l, txs, height).value.signals
    ensures l.faults <= ApplyTxs(c, l, txs, height).value.faults
  {
    hide ApplyTx;
    if txs != [] {
      TxsKeepChain(c, l, txs[..|txs| - 1], height);
      TxKeepsChain(c, ApplyTxs(c, l, txs[..|txs| - 1], height).value, txs[|txs| - 1], height);
    }
  }

  /** What a block leaves of the chain fields. */
  lemma BlockFrame(c: Crypto, l: Ledger, b: Block, contributors: Table)
    requires ApplyBlock(c, l, b, contributors).Ok?
    ensures var m := ApplyBlock(c, l, b, contributors).value;
            && m.keys == l.keys && l.faults <= m.faults && m.retargetEnabled == l.retargetEnabled
            && m.retarget == FoldRetarget(l, b.header)
  {
    TxsKeepChain(c, Mature(l, b.header.height), b.txs, b.header.height);
    hide ApplyTxs, Bookkeep, Reward, Retarget.Fold;
  }

  // ---------------------------------------------------------------- whole runs

  /** The upgrade bookkeeping touches no account. */
  lemma BookkeepSound(l: Ledger, hv: int, height: int)
    ensures Sound(l) ==> Sound(Bookkeep(l, hv, height)) && Worth(Bookkeep(l, hv, height)) == Worth(l)
  {
    hide Bookkeep;
    hide SumOver;
  }

  lemma SettleSound(l: Ledger, h: Header, contributors: Table)
    requires Sound(l)
    ensures var m := Settle(l, h, contributors);
            && Sound(m) && Worth(m) == Worth(l) && m.minted >= l.minted
            && m.staked == l.staked && m.unbonding == l.unbonding
            && m.minted - l.minted == (if Sum(Positive(contributors)) > 0.0 then Mintable(l, h.reward) else 0.0)
  {
    BookkeepSound(l, h.protocolVersion, h.height);
    var booked := Bookkeep(l, h.protocolVersion, h.height);
    RewardSound(booked, h.reward, contributors);
    hide Bookkeep;
    hide Reward;
    hide SumOver;
    hide FoldRetarget;
  }

  lemma BlockSound(c: Crypto, l: Ledger, b: Block, contributors: Table)
    requires Sound(l) && ApplyBlock(c, l, b, contributors).Ok?
    ensures var m := ApplyBlock(c, l, b, contributors).value;
            Sound(m) && Worth(m) == Worth(l) && m.minted >= l.minted
  {
    MatureExact(l, b.header.height);
    var matured := Mature(l, b.header.height);
    TxsSound(c, matured, b.txs, b.header.height);
    TxsKeepChain(c, matured, b.txs, b.header.height);
    SettleSound(ApplyTxs(c, matured, b.txs, b.header.height).value, b.header, contributors);
    hide Mature;
    hide ApplyTxs;
    hide Settle;
    hide Worth;
    hide Sound;
  }

  /** Over every run of blocks: coins are conserved up to minting, the cap holds whatever rewards the headers
      claim, minted never falls, and no account goes negative. */
  lemma {:induction false} RunConserves(c: Crypto, l: Ledger, blocks: seq<PaidBlock>)
    requires Sound(l) && Run(c, l, blocks).Ok?
    ensures var m := Run(c, l, blocks).value;
            Sound(m) && Worth(m) == Worth(l) && l.minted <= m.minted <= MAX_SUPPLY
  {
    if blocks != [] {
      var n := |blocks| - 1;
      RunConserves(c, l, blocks[..n]);
      BlockSound(c, Run(c, l, blocks[..n]).value, blocks[n].0, blocks[n].1);
      hide ApplyBlock;
      hide Worth;
    }
  }

  /** From genesis: all liquid, staked, unbonding and burned coins together are exactly what was minted. */
  lemma GenesisRunConserves(c: Crypto, checkpoint: string, sigs: bool, retarget: bool, blocks: seq<PaidBlock>)
    requires Run(c, Genesis(checkpoint, sigs, retarget), blocks).Ok?
    ensures var m := Run(c, Genesis(checkpoint, sigs, retarget), blocks).value;
            && Sound(m)
            && Sum(m.bal) + Sum(m.staked) + Sum(QueueTotals(m.unbonding)) + m.treasury == m.minted <= MAX_SUPPLY
  {
    var g := Genesis(checkpoint, sigs, retarget);
    assert QueueTotals(g.unbonding) == map[];
    assert Worth(g) == 0.0;
    RunConserves(c, g, blocks);
    hide Run;
  }

  // ---------------------------------------------------------------- slash reach

  /** Unstaking does not reduce what a fault can burn. */
  lemma UnstakeKeepsAtRisk(c: Crypto, l: Ledger, tx: Tx, height: int)
    requires tx.kind.Unstake? && ApplyTx(c, l, tx, height).Ok?
    ensures var m := ApplyTx(c, l, tx, height).value;
            && AtRisk(m, tx.sender) == AtRisk(l, tx.sender)
            && Get(m.staked, tx.sender) == Get(l.staked, tx.sender) - tx.amount
            && Entry(tx.amount, height + UNBONDING_PERIOD) in Queue(m, tx.sender)
  {
    EnqueueTotals(l.unbonding, tx.sender, Entry(tx.amount, height + UNBONDING_PERIOD));
    hide QueueSum;
    hide SumOver;
  }

  /** The transaction is no slash of `a` for a fault that is still unpunished. */
  predicate Spares(c: Crypto, keys: map<Addr, Addr>, faults: set<Fault>, tx: Tx, a: Addr) {
    tx.kind.Slash? ==>
      match SlashTarget(c, keys, tx)
      case Err(_) => true
      case Ok(t) => t.0 == a ==> t.1 in faults
  }

  lemma EffectQueues(l: Ledger, tx: Tx, height: int)
    requires Effect(l, tx, height).Ok?
    ensures Effect(l, tx, height).value.unbonding
         == if tx.kind.Unstake? then Enqueue(l.unbonding, tx.sender, Entry(tx.amount, height + UNBONDING_PERIOD))
            else l.unbonding
  {
    hide *;
    EffectIs(l, tx, height);
  }

  lemma EffectKeepsEntry(l: Ledger, tx: Tx, height: int, a: Addr, e: Entry)
    requires Effect(l, tx, height).Ok? && e in Queue(l, a)
    ensures e in Queue(Effect(l, tx, height).value, a)
  {
    EffectQueues(l, tx, height);
    hide Effect;
  }

  lemma SparedTxKeepsEntry(c: Crypto, l: Ledger, tx: Tx, height: int, a: Addr, e: Entry)
    requires Spares(c, l.keys, l.faults, tx, a) && ApplyTx(c, l, tx, height).Ok?
    requires e in Queue(l, a)
    ensures e in Queue(ApplyTx(c, l, tx, height).value, a)
  {
    if tx.kind.Slash? {
      var t := SlashTarget(c, l.keys, tx).value;
      hide SlashTarget;
      if t.0 == a {
        SlashForIs(c, l, tx, t.0, t.1);
      } else {
        SlashSparesOthers(c, l, tx, t.0, t.1, a);
      }
      hide SlashFor;
    } else {
      EffectKeepsEntry(l, tx, height, a, e);
      hide Effect;
      hide Spares;
    }
  }

  lemma SeizeSparesOthers(l: Ledger, target: Addr, wanted: Option<real>, a: Addr)
    requires a != target
    ensures Queue(SeizeQueue(l, target, wanted), a) == Queue(l, a)
  {
    if target in l.unbonding {
      SetQueueReads(l.unbonding, target, CutAll(Sort(l.unbonding[target], EntryLe), wanted).kept);
    }
    hide CutAll;
    hide Sort;
    hide SetQueue;
  }

  lemma SlashSparesOthers(c: Crypto, l: Ledger, tx: Tx, target: Addr, fault: Fault, a: Addr)
    requires a != target
    ensures Queue(SlashFor(c, l, tx, target, fault), a) == Queue(l, a)
  {
    var bond := StakeTaken(l, target, None);
    SeizeSparesOthers(SeizeStake(l, target, None), target, None, a);
    hide SeizeQueue;
    hide QueueTaken;
  }

  /** What was spared stays so: keys do not change and faults only accumulate. */
  lemma StillSpares(c: Crypto, l: Ledger, m: Ledger, tx: Tx, a: Addr)
    requires Spares(c, l.keys, l.faults, tx, a) && m.keys == l.keys && l.faults <= m.faults
    ensures Spares(c, m.keys, m.faults, tx, a)
  {
    hide SlashTarget;
  }

  lemma {:induction false} SparedTxsKeepEntry(c: Crypto, l: Ledger, txs: seq<Tx>, height: int, a: Addr, e: Entry)
    requires ApplyTxs(c, l, txs, height).Ok? && e in Queue(l, a)
    requires forall tx :: tx in txs ==> Spares(c, l.keys, l.faults, tx, a)
    ensures e in Queue(ApplyTxs(c, l, txs, height).value, a)
  {
    hide ApplyTx;
    hide Spares;
    if txs != [] {
      var n := |txs| - 1;
      SparedTxsKeepEntry(c, l, txs[..n], height, a, e);
      TxsKeepChain(c, l, txs[..n], height);
      var m := ApplyTxs(c, l, txs[..n], height).value;
      StillSpares(c, l, m, txs[n], a);
      SparedTxKeepsEntry(c, m, txs[n], height, a, e);
    }
  }

  lemma BlockKeepsEntry(c: Crypto, l: Ledger, b: Block, contributors: Table, a: Addr, e: Entry)
    requires ApplyBlock(c, l, b, contributors).Ok? && e in Queue(l, a) && b.header.height < e.release
    requires forall tx :: tx in b.txs ==> Spares(c, l.keys, l.faults, tx, a)
    ensures e in Queue(ApplyBlock(c, l, b, contributors).value, a)
  {
    var h := b.header.height;
    hide Spares;
    MatureReads(l, h);
    MatureMembers(Queue(l, a), h);
    SparedTxsKeepEntry(c, Mature(l, h), b.txs, h, a, e);
    var m := ApplyTxs(c, Mature(l, h), b.txs, h).value;
    hide Mature;
    hide ApplyTxs;
    hide Bookkeep;
    hide Reward;
  }

  /** Keys do not change over a run, and faults only accumulate. */
  lemma {:induction false} RunFrame(c: Crypto, l: Ledger, blocks: seq<PaidBlock>)
    requires Run(c, l, blocks).Ok?
    ensures var m := Run(c, l, blocks).value;
            m.keys == l.keys && l.faults <= m.faults && m.retargetEnabled == l.retargetEnabled
  {
    hide ApplyBlock;
    if blocks != [] {
      var n := |blocks| - 1;
      RunFrame(c, l, blocks[..n]);
      BlockFrame(c, Run(c, l, blocks[..n]).value, blocks[n].0, blocks[n].1);
    }
  }

  /** Unstaked coins stay in the slashable queue through every run of blocks below their release height, unless
      a slash of that very address, for a fault not yet punished when the run starts, is among them. */
  lemma {:induction false} EntryStaysSlashable(c: Crypto, l: Ledger, blocks: seq<PaidBlock>, a: Addr, e: Entry)
    requires Run(c, l, blocks).Ok? && e in Queue(l, a)
    requires forall i :: 0 <= i < |blocks| ==> blocks[i].0.header.height < e.release
    requires forall i, tx :: 0 <= i < |blocks| && tx in blocks[i].0.txs ==> Spares(c, l.keys, l.faults, tx, a)
    ensures e in Queue(Run(c, l, blocks).value, a)
  {
    hide Spares;
    hide ApplyBlock;
    if blocks != [] {
      var n := |blocks| - 1;
      EntryStaysSlashable(c, l, blocks[..n], a, e);
      RunFrame(c, l, blocks[..n]);
      var m := Run(c, l, blocks[..n]).value;
      forall tx | tx in blocks[n].0.txs ensures Spares(c, m.keys, m.faults, tx, a) {
        StillSpares(c, l, m, tx, a);
      }
      BlockKeepsEntry(c, m, blocks[n].0, blocks[n].1, a, e);
    }
  }

  /** A slash burns the whole amount at risk: the address is left with nothing bonded or unbonding, and the
      coins are all in the treasury or in the reporter's balance. */
  lemma SlashBurnsAtRisk(c: Crypto, l: Ledger, tx: Tx, height: int)
    requires Sound(l) && tx.kind.Slash? && ApplyTx(c, l, tx, height).Ok?
    requires SlashTarget(c, l.keys, tx).value.1 !in l.faults
    ensures var m, target := ApplyTx(c, l, tx, height).value, SlashTarget(c, l.keys, tx).value.0;
            && AtRisk(m, target) == 0.0
            && (m.treasury - l.treasury) + (Sum(m.bal) - Sum(l.bal)) == AtRisk(l, target)
            && m.treasury - l.treasury >= AtRisk(l, target) * (1.0 - BOUNTY)
  {
    var t := SlashTarget(c, l.keys, tx).value;
    hide SlashTarget, SlashFor, Seize, Burned, Sound, Worth, AtRisk, Sum, Queue, Demand;
    SlashSound(c, l, tx, t.0, t.1);
    SlashForIs(c, l, tx, t.0, t.1);
    SeizeExact(l, t.0, None);
    DemandAll(AtRisk(l, t.0));
    BurnedSound(c, Seize(l, t.0, None).0, tx, Seize(l, t.0, None).1, t.1);
  }

  // ---------------------------------------------------------------- what a seizure, a reward and a block do

  /** The entries left are the youngest, all whole but the oldest of them. */
  ghost predicate YoungestLeft(q: seq<Entry>, kept: seq<Entry>) {
    && |kept| <= |q|
    && var k := |q| - |kept|;
       forall i :: 0 <= i < |kept| ==>
         && kept[i].release == q[k + i].release && kept[i].amount <= q[k + i].amount
         && (i > 0 ==> kept[i] == q[k + i])
  }

  /** Taking from a queue goes entry by entry from the front, and touches none while an earlier one has coins left. */
  lemma {:induction false} CutTakesOldest(q: seq<Entry>, wanted: Option<real>)
    requires QueueOk(q)
    ensures var c := CutAll(q, wanted);
            YoungestLeft(q, c.kept) && (c.wanted.None? || c.wanted.value > 0.0 ==> c.kept == [])
  {
    if q != [] {
      var n := |q| - 1;
      CutTakesOldest(q[..n], wanted);
      var c, e := CutAll(q[..n], wanted), q[n];
      assert CutAll(q, wanted) == CutOne(c, e);
      hide CutAll;
      if c.wanted.Some? && c.wanted.value <= 0.0 {
        YoungestSnoc(q, c.kept);
      }
    }
  }

  lemma YoungestSnoc(q: seq<Entry>, kept: seq<Entry>)
    requires q != [] && YoungestLeft(q[..|q| - 1], kept)
    ensures YoungestLeft(q, kept + [q[|q| - 1]])
  {
  }

  /** In order of release, entries of one release by amount. */
  ghost predicate ByRelease(q: seq<Entry>) {
    forall i, j :: 0 <= i < j < |q| ==>
      q[i].release < q[j].release || (q[i].release == q[j].release && q[i].amount <= q[j].amount)
  }

  /** What is left of a queue is all of it, or the youngest part of it put in order of release. */
  ghost predicate OldestGone(q: seq<Entry>, kept: seq<Entry>) {
    kept == q || exists s :: multiset(s) == multiset(q) && ByRelease(s) && YoungestLeft(s, kept)
  }

  /** A seizure takes active stake before it touches the queue, and the queue in order of release. */
  lemma SeizeOldestFirst(l: Ledger, a: Addr, amount: real)
    requires Sound(l) && amount >= 0.0
    ensures var m := Seize(l, a, Some(amount)).0;
            && Get(m.staked, a) == RealMax(0.0, Get(l.staked, a) - amount)
            && (Get(m.staked, a) > 0.0 ==> Queue(m, a) == Queue(l, a))
            && OldestGone(Queue(l, a), Queue(m, a))
  {
    hide *;
    var wanted := Some(amount);
    SoundTables(l, a);
    MaxNonNeg(amount);
    SeizeIs(l, a, Some(amount), wanted);
    SeizeStakeExact(l, a, wanted);
    var l1, bond := SeizeStake(l, a, wanted), StakeTaken(l, a, wanted);
    QueueFrame(l, l1);
    LessIs(wanted, bond);
    StakeLeft(Get(l.staked, a), amount, bond);
    SeizeQueueOldest(l1, a, Less(wanted, bond));
    SeizeQueueFrame(l1, a, Less(wanted, bond));
  }

  lemma MaxNonNeg(x: real)
    requires x >= 0.0
    ensures RealMax(0.0, x) == x
  {
  }

  lemma LessIs(wanted: Option<real>, taken: real)
    requires wanted.Some?
    ensures Less(wanted, taken) == Some(wanted.value - taken)
  {
  }

  lemma StakeLeft(stake: real, amount: real, bond: real)
    requires stake >= 0.0 && amount >= 0.0 && bond == RealMin(amount, stake)
    ensures stake - bond == RealMax(0.0, stake - amount) && (stake - bond > 0.0 ==> amount - bond == 0.0)
  {
  }

  lemma SeizeQueueOldest(l: Ledger, a: Addr, wanted: Option<real>)
    requires QueueOk(Queue(l, a))
    ensures var q := Queue(SeizeQueue(l, a, wanted), a);
            && OldestGone(Queue(l, a), q)
            && (wanted.Some? && wanted.value <= 0.0 ==> q == Queue(l, a))
  {
    var s := Sort(Queue(l, a), EntryLe);
    if Queue(l, a) != [] && (wanted.None? || wanted.value > 0.0) {
      EntryOrder();
      SortCorrect(Queue(l, a), EntryLe);
      SortQueueOk(Queue(l, a));
      CutTakesOldest(s, wanted);
      SeizeQueueUnfolds(l, a, wanted);
      SetQueueReads(l.unbonding, a, CutAll(s, wanted).kept);
      SortedByRelease(s);
    }
    hide CutAll, Sort, SetQueue, YoungestLeft, Sorted, TotalOrder, ByRelease, EntryLe;
  }

  lemma SortedByRelease(q: seq<Entry>)
    requires Sorted(q, EntryLe)
    ensures ByRelease(q)
  {
    forall i, j | 0 <= i < j < |q|
      ensures q[i].release < q[j].release || (q[i].release == q[j].release && q[i].amount <= q[j].amount)
    {
      assert EntryLe(q[i], q[j]);
    }
  }

  /** A block with some positive weight mints its reward, no less than nothing and no more than the cap leaves; one
      without mints nothing. */
  lemma MintExactly(l: Ledger, reward: real, contributors: Table)
    ensures Reward(l, reward, contributors).minted - l.minted
         == if exists a :: a in contributors && contributors[a] > 0.0
            then RealMax(0.0, RealMin(reward, 2_100_000_000.0 - l.minted)) else 0.0
  {
    hide SumOver, Shares;
    var agg := Positive(contributors);
    SumOverNonNeg(agg.Keys, agg);
    if a :| a in contributors && contributors[a] > 0.0 {
      assert a in agg.Keys && Get(agg, a) == contributors[a];
    } else {
      assert agg == map[];
      NoSum();
    }
  }

  lemma NoSum()
    ensures Sum(map[]) == 0.0
  {
  }

  lemma ShareTimesTotal(reward: real, w: real, total: real)
    requires total > 0.0
    ensures Mul(reward, w / total) * total == reward * w
  {
    var f := w / total;
    assert f * total == w;
    assert (reward * f) * total == reward * (f * total);
  }

  /** The mint is split in proportion to the positive weights. */
  lemma RewardProportional(l: Ledger, reward: real, contributors: Table, a: Addr)
    requires Sum(Positive(contributors)) > 0.0
    ensures var m, total := Reward(l, reward, contributors), Sum(Positive(contributors));
            var w := if a in contributors && contributors[a] > 0.0 then contributors[a] else 0.0;
            (Get(m.bal, a) - Get(l.bal, a)) * total == (m.minted - l.minted) * w
  {
    var agg, r := Positive(contributors), Mintable(l, reward);
    hide Sum, Mintable;
    if r > 0.0 {
      if a in agg {
        ShareTimesTotal(r, agg[a], Sum(agg));
      }
      hide Mul;
      assert Get(Shares(r, agg), a) == if a in agg then Mul(r, agg[a] / Sum(agg)) else 0.0;
    }
  }

  /** Two thirds of the live stake. */
  lemma SupermajorityExactly(l: Ledger)
    ensures Supermajority(l) <==> Sum(l.staked) > 0.0 && 3.0 * SumOver(l.signals, l.staked) >= 2.0 * Sum(l.staked)
  {
    hide Sum, SumOver;
  }

  /** A block applies exactly when its header commits its transactions, they all apply in turn to the matured ledger, and
      no weight is negative; it then carries the header's checkpoint. */
  lemma BlockAppliesExactly(c: Crypto, l: Ledger, b: Block, contributors: Table)
    ensures ApplyBlock(c, l, b, contributors).Ok? <==>
            && b.header.txRoot == b.txs
            && ApplyTxs(c, Mature(l, b.header.height), b.txs, b.header.height).Ok?
            && forall a :: a in contributors ==> contributors[a] >= 0.0
    ensures ApplyBlock(c, l, b, contributors).Ok? ==>
              ApplyBlock(c, l, b, contributors).value.checkpoint == b.header.newCheckpoint
  {
    hide ApplyTxs, Mature, Bookkeep, Reward, FoldRetarget;
  }

  // ---- nothing is overdue

  ghost predicate NoneDue(l: Ledger, height: int) { forall a, e :: e in Queue(l, a) ==> e.release > height }

  lemma {:induction false} CutAllTakesAll(q: seq<Entry>)
    ensures CutAll(q, None).kept == [] && CutAll(q, None).wanted == None
  {
    if q != [] {
      CutAllTakesAll(q[..|q| - 1]);
    }
  }

  lemma SlashEmptiesQueue(c: Crypto, l: Ledger, tx: Tx, target: Addr, fault: Fault)
    requires fault !in l.faults
    ensures Queue(SlashFor(c, l, tx, target, fault), target) == []
  {
    hide *;
    SlashForIs(c, l, tx, target, fault);
    SeizeIs(l, target, None, None);
    var l1 := SeizeStake(l, target, None);
    LessNone(StakeTaken(l, target, None));
    SeizeAllEmpties(l1, target);
    BurnedQueues(c, SeizeQueue(l1, target, None), tx, Seize(l, target, None).1, fault);
    QueueFrame(SeizeQueue(l1, target, None), SlashFor(c, l, tx, target, fault));
  }

  lemma LessNone(x: real)
    ensures Less(None, x) == None
  {
  }

  lemma BurnedQueues(c: Crypto, l: Ledger, tx: Tx, bond: real, fault: Fault)
    ensures Burned(c, l, tx, bond, fault).unbonding == l.unbonding
  {
    hide BountyOk, Credit;
  }

  lemma SeizeAllEmpties(l: Ledger, a: Addr)
    ensures Queue(SeizeQueue(l, a, None), a) == []
  {
    if Queue(l, a) != [] {
      CutAllTakesAll(Sort(Queue(l, a), EntryLe));
      SetQueueReads(l.unbonding, a, []);
    }
    hide CutAll, Sort, SetQueue;
  }

  lemma TxKeepsNoneDue(c: Crypto, l: Ledger, tx: Tx, height: int)
    requires NoneDue(l, height) && ApplyTx(c, l, tx, height).Ok?
    ensures NoneDue(ApplyTx(c, l, tx, height).value, height)
  {
    var m := ApplyTx(c, l, tx, height).value;
    if tx.kind.Slash? {
      var t := SlashTarget(c, l.keys, tx).value;
      hide SlashTarget;
      SlashForIs(c, l, tx, t.0, t.1);
      if t.1 !in l.faults {
        SlashEmptiesQueue(c, l, tx, t.0, t.1);
        forall a | a != t.0 ensures Queue(m, a) == Queue(l, a) {
          SlashSparesOthers(c, l, tx, t.0, t.1, a);
        }
      }
      hide SlashFor, Burned, Seize;
    } else {
      EffectQueues(l, tx, height);
      hide Effect;
      if tx.kind.Unstake? {
        EnqueueKeepsNoneDue(l, m, tx.sender, Entry(tx.amount, height + UNBONDING_PERIOD), height);
      } else {
        SameDue(l, m, height);
      }
    }
  }

  lemma EnqueueKeepsNoneDue(l: Ledger, m: Ledger, a: Addr, e: Entry, height: int)
    requires NoneDue(l, height) && e.release > height && m.unbonding == Enqueue(l.unbonding, a, e)
    ensures NoneDue(m, height)
  {
    forall b ensures Queue(m, b) == if b == a then Queue(l, a) + [e] else Queue(l, b) {
    }
  }

  lemma {:induction false} TxsKeepNoneDue(c: Crypto, l: Ledger, txs: seq<Tx>, height: int)
    requires NoneDue(l, height) && ApplyTxs(c, l, txs, height).Ok?
    ensures NoneDue(ApplyTxs(c, l, txs, height).value, height)
  {
    hide ApplyTx, NoneDue;
    if txs != [] {
      TxsKeepNoneDue(c, l, txs[..|txs| - 1], height);
      TxKeepsNoneDue(c, ApplyTxs(c, l, txs[..|txs| - 1], height).value, txs[|txs| - 1], height);
    }
  }

  lemma MatureLeavesNoneDue(l: Ledger, height: int)
    ensures NoneDue(Mature(l, height), height)
  {
    MatureReads(l, height);
    hide Mature, Kept, Released;
    forall a, e | e in Queue(Mature(l, height), a) ensures e.release > height {
      MatureMembers(Queue(l, a), height);
    }
  }

  /** Every block settles what is due: after it no unbonding entry is at or below its height. */
  lemma BlockLeavesNoneDue(c: Crypto, l: Ledger, b: Block, contributors: Table)
    requires ApplyBlock(c, l, b, contributors).Ok?
    ensures NoneDue(ApplyBlock(c, l, b, contributors).value, b.header.height)
  {
    var h := b.header.height;
    var after := ApplyTxs(c, Mature(l, h), b.txs, h).value;
    var m := ApplyBlock(c, l, b, contributors).value;
    assert m.unbonding == after.unbonding;
    hide ApplyBlock, ApplyTxs, Mature, NoneDue;
    MatureLeavesNoneDue(l, h);
    TxsKeepNoneDue(c, Mature(l, h), b.txs, h);
    SameDue(after, m, h);
  }

  lemma SameDue(l: Ledger, m: Ledger, height: int)
    requires m.unbonding == l.unbonding && NoneDue(l, height)
    ensures NoneDue(m, height)
  {
    QueueFrame(l, m);
  }

  // ---------------------------------------------------------------- the retarget of a run

  /** What a block's header contributes to the retarget. */
  function SampleOf(h: Header): Retarget.Sample { Retarget.Sample(h.height, h.timestamp, RealMax(0.0, h.workScore)) }

  function Samples(blocks: seq<PaidBlock>): (r: seq<Retarget.Sample>)
    ensures |r| == |blocks|
  {
    seq(|blocks|, i requires 0 <= i < |blocks| => SampleOf(blocks[i].0.header))
  }

  /** The retarget state of a run is the fold of its headers, or never moves where retargeting is off. */
  lemma {:induction false} RunFoldsRetarget(c: Crypto, l: Ledger, blocks: seq<PaidBlock>)
    requires Run(c, l, blocks).Ok?
    ensures Run(c, l, blocks).value.retarget
         == if l.retargetEnabled then Retarget.FoldAll(l.retarget, Samples(blocks)) else l.retarget
  {
    hide ApplyBlock, Retarget.Fold;
    if blocks != [] {
      var n := |blocks| - 1;
      RunFoldsRetarget(c, l, blocks[..n]);
      RunFrame(c, l, blocks[..n]);
      BlockFrame(c, Run(c, l, blocks[..n]).value, blocks[n].0, blocks[n].1);
      assert Samples(blocks)[..n] == Samples(blocks[..n]);
    }
  }

  /** Over every run of the ledger the work floor stays between 1 and its cap, and the work average stays between the
      least and the greatest of where it started and the works of the blocks. */
  lemma LedgerRetargetBounded(c: Crypto, l: Ledger, blocks: seq<PaidBlock>, lo: int, hi: int)
    requires Run(c, l, blocks).Ok? && Retarget.Bounded(l.retarget, lo, hi)
    requires forall i :: 0 <= i < |blocks| ==> lo <= Retarget.Quantized(SampleOf(blocks[i].0.header).work) <= hi
    ensures Retarget.Bounded(Run(c, l, blocks).value.retarget, lo, hi)
  {
    hide Run, Retarget.Bounded, Retarget.Quantized, Retarget.FoldAll;
    RunFoldsRetarget(c, l, blocks);
    Retarget.RunStaysBounded(l.retarget, Samples(blocks), lo, hi);
  }

  /** And follows work down: a run of blocks of work at most s, long enough and ending on an epoch boundary, leaves the
      average at most s and the floor at most three quarters of it. */
  lemma LedgerFloorFollowsWorkDown(c: Crypto, l: Ledger, blocks: seq<PaidBlock>, s: int)
    requires Run(c, l, blocks).Ok? && l.retargetEnabled && blocks != []
    requires Retarget.SamplesAtMost(Samples(blocks), s) && |blocks| >= l.retarget.ewma - s
    requires Retarget.Boundary(blocks[|blocks| - 1].0.header.height)
    ensures var r := Run(c, l, blocks).value.retarget;
            && r.ewma <= s
            && r.floor <= Max(Retarget.WORK_FLOOR_MIN, s * Retarget.CEIL_NUM / Retarget.CEIL_DEN)
  {
    hide Run, Retarget.FoldAll, Retarget.SamplesAtMost;
    RunFoldsRetarget(c, l, blocks);
    Retarget.FloorFollowsWorkDown(l.retarget, Samples(blocks), s);
  }
}
