/** The state digest is a congruence: ledgers that hash alike step alike under every block. */
module LedgerDigest {
  import opened Prelude
  import opened Sorting
  import opened Blocks
  import opened Sums
  import opened Ledger
  import opened LedgerSafety
  import Retarget

  /** The object `state_hash` serializes: unbonding queues sorted, retarget state only where it is enabled, the
      chain policy flags left out. */
  datatype Digest = Digest(
    bal: Table, staked: Table, treasury: real, minted: real,
    nonces: map<Addr, int>, keys: map<Addr, Addr>, faults: set<Fault>,
    unbonding: map<Addr, seq<Entry>>, checkpoint: string,
    version: int, signals: set<Addr>, streak: int, pending: Option<int>,
    retarget: Option<Retarget.Retarget>)

  function StateDigest(l: Ledger): Digest {
    Digest(l.bal, l.staked, l.treasury, l.minted, l.nonces, l.keys, l.faults,
           SortedQueues(l.unbonding), l.checkpoint,
           l.version, l.signals, l.streak, l.pending,
           if l.retargetEnabled then Some(l.retarget) else None)
  }

  ghost predicate SimilarQueues(u: map<Addr, seq<Entry>>, v: map<Addr, seq<Entry>>) {
    u.Keys == v.Keys && forall a :: a in u ==> multiset(u[a]) == multiset(v[a])
  }

  /** Equal but for the order inside unbonding queues and for retarget state the chain does not use. */
  ghost predicate Similar(l: Ledger, m: Ledger) {
    && m == l.(unbonding := m.unbonding, retarget := m.retarget)
    && SimilarQueues(l.unbonding, m.unbonding)
    && (l.retargetEnabled ==> l.retarget == m.retarget)
  }

  predicate SamePolicy(l: Ledger, m: Ledger) {
    l.requireSigs == m.requireSigs && l.retargetEnabled == m.retargetEnabled
  }

  function SortedQueues(u: map<Addr, seq<Entry>>): map<Addr, seq<Entry>> {
    map a | a in u :: Sort(u[a], EntryLe)
  }

  lemma SortedQueuesCanonical(u: map<Addr, seq<Entry>>, v: map<Addr, seq<Entry>>)
    ensures SortedQueues(u) == SortedQueues(v) <==> SimilarQueues(u, v)
  {
    EntryOrder();
    forall a | a in u && a in v
      ensures Sort(u[a], EntryLe) == Sort(v[a], EntryLe) <==> multiset(u[a]) == multiset(v[a])
    {
      SortCanonical(u[a], v[a], EntryLe);
    }
    hide Sort;
    var x, y := SortedQueues(u), SortedQueues(v);
    assert x.Keys == u.Keys && y.Keys == v.Keys;
    if x == y {
      forall a | a in u ensures multiset(u[a]) == multiset(v[a]) {
        assert x[a] == y[a];
      }
    }
  }

  /** Two ledgers under one policy have the same digest exactly when they are similar. */
  lemma DigestMeansSimilar(l: Ledger, m: Ledger)
    ensures (SamePolicy(l, m) && StateDigest(l) == StateDigest(m)) <==> Similar(l, m)
  {
    SortedQueuesCanonical(l.unbonding, m.unbonding);
    hide SortedQueues;
    hide SimilarQueues;
  }

  // ---------------------------------------------------------------- queues up to order

  lemma SnocCount(q: seq<Entry>, x: Entry, e: Entry)
    ensures multiset(q + [x])[e] == multiset(q)[e] + if x == e then 1 else 0
  {
  }

  lemma SplitUnfolds(q: seq<Entry>, height: int)
    requires q != []
    ensures var front, e := q[..|q| - 1], q[|q| - 1];
            && q == front + [e]
            && Kept(q, height) == (if e.release <= height then Kept(front, height) else Kept(front, height) + [e])
            && Released(q, height)
               == if e.release <= height then Released(front, height) + [e] else Released(front, height)
  {
  }

  lemma {:induction false} SplitCounts(q: seq<Entry>, height: int, e: Entry)
    ensures multiset(Kept(q, height))[e] == if e.release > height then multiset(q)[e] else 0
    ensures multiset(Released(q, height))[e] == if e.release <= height then multiset(q)[e] else 0
  {
    if q != [] {
      var front, x := q[..|q| - 1], q[|q| - 1];
      SplitCounts(front, height, e);
      SplitUnfolds(q, height);
      hide Kept, Released;
      SnocCount(front, x, e);
      SnocCount(Kept(front, height), x, e);
      SnocCount(Released(front, height), x, e);
    }
  }

  lemma SimilarSums(q: seq<Entry>, r: seq<Entry>)
    requires multiset(q) == multiset(r)
    ensures QueueSum(q) == QueueSum(r)
    ensures q == [] <==> r == []
  {
    EntryOrder();
    SortCanonical(q, r, EntryLe);
    QueueSumSort(q);
    QueueSumSort(r);
    assert |multiset(q)| == |multiset(r)|;
  }

  lemma SimilarSplit(q: seq<Entry>, r: seq<Entry>, height: int)
    requires multiset(q) == multiset(r)
    ensures multiset(Kept(q, height)) == multiset(Kept(r, height))
    ensures multiset(Released(q, height)) == multiset(Released(r, height))
  {
    hide Kept;
    hide Released;
    forall e ensures multiset(Kept(q, height))[e] == multiset(Kept(r, height))[e]
             ensures multiset(Released(q, height))[e] == multiset(Released(r, height))[e]
    {
      SplitCounts(q, height, e);
      SplitCounts(r, height, e);
    }
  }

  lemma SimilarQueueAt(l: Ledger, m: Ledger, a: Addr)
    requires SimilarQueues(l.unbonding, m.unbonding)
    ensures multiset(Queue(l, a)) == multiset(Queue(m, a))
    ensures Queue(l, a) == [] <==> Queue(m, a) == []
    ensures Sort(Queue(l, a), EntryLe) == Sort(Queue(m, a), EntryLe)
  {
    EntryOrder();
    SortCanonical(Queue(l, a), Queue(m, a), EntryLe);
    assert |multiset(Queue(l, a))| == |multiset(Queue(m, a))|;
  }

  // ---------------------------------------------------------------- step by step

  /** What maturing reads of two similar queues. */
  predicate MaturesAlike(q: seq<Entry>, r: seq<Entry>, height: int) {
    && multiset(Kept(q, height)) == multiset(Kept(r, height))
    && (Kept(q, height) == [] <==> Kept(r, height) == [])
    && (Released(q, height) == [] <==> Released(r, height) == [])
    && QueueSum(Released(q, height)) == QueueSum(Released(r, height))
  }

  lemma SimilarMature(q: seq<Entry>, r: seq<Entry>, height: int)
    requires multiset(q) == multiset(r)
    ensures MaturesAlike(q, r, height)
  {
    hide Kept;
    hide Released;
    hide QueueSum;
    SimilarSplit(q, r, height);
    SimilarSums(Kept(q, height), Kept(r, height));
    SimilarSums(Released(q, height), Released(r, height));
  }

  lemma MatureCongruent(l: Ledger, m: Ledger, height: int)
    requires Similar(l, m)
    ensures Similar(Mature(l, height), Mature(m, height))
  {
    hide Kept;
    hide Released;
    hide QueueSum;
    forall a | a in l.unbonding ensures MaturesAlike(l.unbonding[a], m.unbonding[a], height) {
      SimilarMature(l.unbonding[a], m.unbonding[a], height);
    }
    MatureAlike(l, m, height);
  }

  lemma MatureAlike(l: Ledger, m: Ledger, height: int)
    requires l.bal == m.bal && l.unbonding.Keys == m.unbonding.Keys
    requires forall a :: a in l.unbonding ==> MaturesAlike(l.unbonding[a], m.unbonding[a], height)
    ensures Mature(l, height).bal == Mature(m, height).bal
    ensures SimilarQueues(Mature(l, height).unbonding, Mature(m, height).unbonding)
  {
    MatureBalAlike(l, m, height);
    MatureQueuesAlike(l, m, height);
  }

  lemma MatureBalAlike(l: Ledger, m: Ledger, height: int)
    requires l.bal == m.bal && l.unbonding.Keys == m.unbonding.Keys
    requires forall a :: a in l.unbonding ==> MaturesAlike(l.unbonding[a], m.unbonding[a], height)
    ensures Mature(l, height).bal == Mature(m, height).bal
  {
    hide Kept, Released, QueueSum;
    var x, y := Mature(l, height), Mature(m, height);
    assert ReleasingAddrs(l, height) == ReleasingAddrs(m, height);
    assert x.bal.Keys == y.bal.Keys;
    forall a | a in x.bal ensures x.bal[a] == y.bal[a] {
      assert a in l.unbonding || (Queue(l, a) == [] == Queue(m, a));
    }
  }

  lemma MatureQueuesAlike(l: Ledger, m: Ledger, height: int)
    requires l.unbonding.Keys == m.unbonding.Keys
    requires forall a :: a in l.unbonding ==> MaturesAlike(l.unbonding[a], m.unbonding[a], height)
    ensures SimilarQueues(Mature(l, height).unbonding, Mature(m, height).unbonding)
  {
    hide Kept, Released, QueueSum;
    assert Mature(l, height).unbonding.Keys == Mature(m, height).unbonding.Keys;
  }

  lemma SetQueueSimilar(u: map<Addr, seq<Entry>>, v: map<Addr, seq<Entry>>, a: Addr, q: seq<Entry>)
    requires SimilarQueues(u, v)
    ensures SimilarQueues(SetQueue(u, a, q), SetQueue(v, a, q))
  {
  }

  lemma SeizeQueueCongruent(l: Ledger, m: Ledger, a: Addr, wanted: Option<real>)
    requires SimilarQueues(l.unbonding, m.unbonding)
    ensures QueueTaken(l, a, wanted) == QueueTaken(m, a, wanted)
    ensures SimilarQueues(SeizeQueue(l, a, wanted).unbonding, SeizeQueue(m, a, wanted).unbonding)
  {
    SimilarQueueAt(l, m, a);
    hide Sort;
    hide CutAll;
    if Queue(l, a) != [] {
      SetQueueSimilar(l.unbonding, m.unbonding, a, CutAll(Sort(l.unbonding[a], EntryLe), wanted).kept);
      hide SetQueue;
      hide SimilarQueues;
      assert Sort(l.unbonding[a], EntryLe) == Sort(m.unbonding[a], EntryLe);
    }
  }

  lemma StakeCongruent(l: Ledger, m: Ledger, a: Addr, wanted: Option<real>)
    requires Similar(l, m)
    ensures StakeTaken(l, a, wanted) == StakeTaken(m, a, wanted)
    ensures Similar(SeizeStake(l, a, wanted), SeizeStake(m, a, wanted))
  {
    hide SimilarQueues, Get;
  }

  lemma SimilarMeans(l: Ledger, m: Ledger)
    requires Similar(l, m)
    ensures SimilarQueues(l.unbonding, m.unbonding)
  {
  }

  lemma SimilarBy(l: Ledger, m: Ledger, x: Ledger, y: Ledger)
    requires Similar(l, m) && x == l.(unbonding := x.unbonding) && y == m.(unbonding := y.unbonding)
    requires SimilarQueues(x.unbonding, y.unbonding)
    ensures Similar(x, y)
  {
    hide SimilarQueues;
  }

  lemma SeizeCongruent(l: Ledger, m: Ledger, a: Addr, amount: Option<real>)
    requires Similar(l, m)
    ensures Seize(l, a, amount).1 == Seize(m, a, amount).1
    ensures Similar(Seize(l, a, amount).0, Seize(m, a, amount).0)
  {
    hide *;
    var wanted := if amount.None? then None else Some(RealMax(0.0, amount.value));
    SeizeIs(l, a, amount, wanted);
    SeizeIs(m, a, amount, wanted);
    StakeCongruent(l, m, a, wanted);
    var left := Less(wanted, StakeTaken(l, a, wanted));
    var x, y := SeizeStake(l, a, wanted), SeizeStake(m, a, wanted);
    SimilarMeans(x, y);
    SeizeQueueCongruent(x, y, a, left);
    SeizeQueueFrame(x, a, left);
    SeizeQueueFrame(y, a, left);
    SimilarBy(x, y, SeizeQueue(x, a, left), SeizeQueue(y, a, left));
  }

  lemma SlashCongruent(c: Crypto, l: Ledger, m: Ledger, tx: Tx, target: Addr, fault: Fault)
    requires Similar(l, m)
    ensures Similar(SlashFor(c, l, tx, target, fault), SlashFor(c, m, tx, target, fault))
  {
    hide Seize;
    hide SimilarQueues;
    SeizeCongruent(l, m, target, None);
  }

  lemma EnqueueSimilar(u: map<Addr, seq<Entry>>, v: map<Addr, seq<Entry>>, a: Addr, e: Entry)
    requires SimilarQueues(u, v)
    ensures SimilarQueues(Enqueue(u, a, e), Enqueue(v, a, e))
  {
  }

  ghost predicate SimilarResults(r: Result<Ledger>, s: Result<Ledger>) {
    match (r, s)
    case (Ok(l), Ok(m)) => Similar(l, m)
    case (Err(e), Err(f)) => e == f
    case _ => false
  }

  lemma UnstakeCongruent(l: Ledger, m: Ledger, tx: Tx, height: int)
    requires Similar(l, m) && tx.kind.Unstake?
    ensures SimilarResults(Effect(l, tx, height), Effect(m, tx, height))
  {
    var e := Entry(tx.amount, height + UNBONDING_PERIOD);
    EnqueueSimilar(l.unbonding, m.unbonding, tx.sender, e);
    hide Enqueue;
    hide SimilarQueues;
    hide Debit;
  }

  lemma PayCongruent(l: Ledger, m: Ledger, tx: Tx, height: int)
    requires Similar(l, m) && (tx.kind.Transfer? || tx.kind.Stake?)
    ensures SimilarResults(Effect(l, tx, height), Effect(m, tx, height))
  {
    hide SimilarQueues, Credit, Debit, Get;
  }

  lemma SignalCongruent(l: Ledger, m: Ledger, tx: Tx, height: int)
    requires Similar(l, m) && (tx.kind.UpgradeSignal? || tx.kind.Slash?)
    ensures SimilarResults(Effect(l, tx, height), Effect(m, tx, height))
  {
    hide SimilarQueues, Get;
  }

  lemma EffectCongruent(l: Ledger, m: Ledger, tx: Tx, height: int)
    requires Similar(l, m)
    ensures SimilarResults(Effect(l, tx, height), Effect(m, tx, height))
  {
    hide *;
    match tx.kind
    case Transfer => PayCongruent(l, m, tx, height);
    case Stake => PayCongruent(l, m, tx, height);
    case Unstake => UnstakeCongruent(l, m, tx, height);
    case UpgradeSignal => SignalCongruent(l, m, tx, height);
    case Slash => SignalCongruent(l, m, tx, height);
  }

  lemma TxCongruent(c: Crypto, l: Ledger, m: Ledger, tx: Tx, height: int)
    requires Similar(l, m)
    ensures SimilarResults(ApplyTx(c, l, tx, height), ApplyTx(c, m, tx, height))
  {
    hide SimilarQueues;
    hide SlashTarget;
    hide SlashFor;
    hide Effect;
    if tx.kind.Slash? {
      match SlashTarget(c, l.keys, tx)
      case Err(_) =>
      case Ok(t) => SlashCongruent(c, l, m, tx, t.0, t.1);
    } else {
      EffectCongruent(l, m, tx, height);
    }
  }

  lemma {:induction false} TxsCongruent(c: Crypto, l: Ledger, m: Ledger, txs: seq<Tx>, height: int)
    requires Similar(l, m)
    ensures SimilarResults(ApplyTxs(c, l, txs, height), ApplyTxs(c, m, txs, height))
  {
    hide ApplyTx;
    hide Similar;
    if txs != [] {
      TxsCongruent(c, l, m, txs[..|txs| - 1], height);
      var r, s := ApplyTxs(c, l, txs[..|txs| - 1], height), ApplyTxs(c, m, txs[..|txs| - 1], height);
      if r.Ok? {
        TxCongruent(c, r.value, s.value, txs[|txs| - 1], height);
      }
    }
  }

  lemma MajorityCongruent(l: Ledger, m: Ledger)
    requires l.staked == m.staked && l.signals == m.signals
    ensures Supermajority(l) == Supermajority(m)
  {
  }

  lemma BookkeepCongruent(l: Ledger, m: Ledger, hv: int, height: int)
    requires Similar(l, m)
    ensures Similar(Bookkeep(l, hv, height), Bookkeep(m, hv, height))
  {
    MajorityCongruent(l, m);
    hide Supermajority;
    hide SimilarQueues;
  }

  lemma RewardCongruent(l: Ledger, m: Ledger, reward: real, contributors: Table)
    requires Similar(l, m)
    ensures Similar(Reward(l, reward, contributors), Reward(m, reward, contributors))
  {
    RewardReads(l, m, reward, contributors);
    hide SimilarQueues, Reward;
  }

  lemma SettleCongruent(l: Ledger, m: Ledger, h: Header, contributors: Table)
    requires Similar(l, m)
    ensures Similar(Settle(l, h, contributors), Settle(m, h, contributors))
  {
    hide Bookkeep;
    hide Reward;
    hide SimilarQueues;
    BookkeepCongruent(l, m, h.protocolVersion, h.height);
    var x, y := Bookkeep(l, h.protocolVersion, h.height), Bookkeep(m, h.protocolVersion, h.height);
    RewardCongruent(x, y, h.reward, contributors);
    assert l.retargetEnabled ==> FoldRetarget(l, h) == FoldRetarget(m, h);
    hide FoldRetarget;
  }

  lemma BlockCongruent(c: Crypto, l: Ledger, m: Ledger, b: Block, contributors: Table)
    requires Similar(l, m)
    ensures SimilarResults(ApplyBlock(c, l, b, contributors), ApplyBlock(c, m, b, contributors))
  {
    hide Mature;
    hide ApplyTxs;
    hide Settle;
    hide Similar;
    var h := b.header.height;
    MatureCongruent(l, m, h);
    TxsCongruent(c, Mature(l, h), Mature(m, h), b.txs, h);
    var r, s := ApplyTxs(c, Mature(l, h), b.txs, h), ApplyTxs(c, Mature(m, h), b.txs, h);
    if r.Ok? {
      SettleCongruent(r.value, s.value, b.header, contributors);
    }
  }

  lemma {:induction false} RunCongruent(c: Crypto, l: Ledger, m: Ledger, blocks: seq<PaidBlock>)
    requires Similar(l, m)
    ensures SimilarResults(Run(c, l, blocks), Run(c, m, blocks))
  {
    hide ApplyBlock;
    hide Similar;
    if blocks != [] {
      var n := |blocks| - 1;
      RunCongruent(c, l, m, blocks[..n]);
      var r, s := Run(c, l, blocks[..n]), Run(c, m, blocks[..n]);
      if r.Ok? {
        BlockCongruent(c, r.value, s.value, blocks[n].0, blocks[n].1);
      }
    }
  }

  /** Nodes that agree on the digest keep agreeing: under the same blocks both fail with the same error or both
      reach states with the same digest, whatever order their unbonding queues are in. */
  lemma DigestIsCongruence(c: Crypto, l: Ledger, m: Ledger, blocks: seq<PaidBlock>)
    requires SamePolicy(l, m) && StateDigest(l) == StateDigest(m)
    ensures match (Run(c, l, blocks), Run(c, m, blocks))
            case (Ok(x), Ok(y)) => StateDigest(x) == StateDigest(y) && SamePolicy(x, y)
            case (Err(e), Err(f)) => e == f
            case _ => false
  {
    hide Run;
    hide StateDigest;
    hide Similar;
    DigestMeansSimilar(l, m);
    RunCongruent(c, l, m, blocks);
    match (Run(c, l, blocks), Run(c, m, blocks))
    case (Ok(x), Ok(y)) => DigestMeansSimilar(x, y);
    case _ =>
  }
}
