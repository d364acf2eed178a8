/** Who may move what: when a transaction applies, what exactly it moves, and what an account keeps whose key never
    signed, over every run of blocks. */
module LedgerAuthority {
  import opened Prelude
  import opened Blocks
  import opened Sums
  import opened Ledger
  import opened LedgerSafety

  // ---------------------------------------------------------------- one transaction

  /** A signature covers everything of a transaction but itself. */
  lemma SignatureCoversTx(t: Tx, u: Tx)
    ensures SigningBytes(t) == SigningBytes(u) <==> t == u.(sig := t.sig)
  {
    assert t == t.(sig := 0).(sig := t.sig);
  }

  /** The transaction carries a signature of its sender's registered key. */
  predicate OwnSignature(c: Crypto, keys: map<Addr, Addr>, tx: Tx) {
    tx.sender in keys && c.recover(SigningBytes(tx), tx.sig) == Some(keys[tx.sender])
  }

  /** The sender holds what the transaction moves. */
  predicate Covered(l: Ledger, tx: Tx) {
    match tx.kind
    case Transfer => tx.to.Some? && Get(l.bal, tx.sender) >= tx.amount
    case Stake => Get(l.bal, tx.sender) >= tx.amount
    case Unstake => Get(l.staked, tx.sender) >= tx.amount
    case UpgradeSignal =>
      tx.data.Version? && tx.data.version == l.version + 1 && Get(l.staked, tx.sender) > 0.0
    case Slash => true
  }

  /** Whom valid evidence convicts, and of what: two signed votes, or two signed blocks. */
  function Convicted(c: Crypto, keys: map<Addr, Addr>, d: TxData): Option<(Addr, Fault)> {
    match d
    case VoteFaultData(Some(v), Some(votes)) =>
      if v in keys && c.voteFault(v, votes.0, votes.1, keys[v]) then Some((v, ConflictingVotes({votes.0, votes.1})))
      else None
    case EquivocationData(Some(proof), Some(p)) =>
      var ev := c.equivocation(proof);
      if ev.Some? && p in keys && keys[p] == ev.value.0 then Some((p, DoubleCommit(ev.value.0, ev.value.1))) else None
    case _ => None
  }

  lemma ConvictedIsTarget(c: Crypto, keys: map<Addr, Addr>, tx: Tx)
    ensures SlashTarget(c, keys, tx).Ok? <==> Convicted(c, keys, tx.data).Some?
    ensures SlashTarget(c, keys, tx).Ok? ==> Some(SlashTarget(c, keys, tx).value) == Convicted(c, keys, tx.data)
  {
  }

  lemma EffectAppliesExactly(l: Ledger, tx: Tx, height: int)
    requires !tx.kind.Slash?
    ensures Effect(l, tx, height).Ok? <==> Covered(l, tx)
  {
    hide Get, Credit, Debit, Enqueue;
  }

  lemma AuthorizedExactly(c: Crypto, requireSigs: bool, keys: map<Addr, Addr>, tx: Tx)
    ensures Unauthorized(c, requireSigs, keys, tx) == None <==> (requireSigs ==> OwnSignature(c, keys, tx))
  {
    hide SigningBytes;
  }

  /** A transaction applies exactly when its amount is not negative and, for a slash, its evidence convicts someone;
      for any other kind, its nonce is the sender's next, it is signed by the sender's registered key where the chain
      asks for signatures, and the sender holds what it moves. */
  lemma AppliesExactly(c: Crypto, l: Ledger, tx: Tx, height: int)
    ensures ApplyTx(c, l, tx, height).Ok? <==>
            && tx.amount >= 0.0
            && if tx.kind.Slash? then Convicted(c, l.keys, tx.data).Some?
               else
                 && tx.nonce == (if tx.sender in l.nonces then l.nonces[tx.sender] else 0)
                 && (l.requireSigs ==> OwnSignature(c, l.keys, tx))
                 && Covered(l, tx)
  {
    ConvictedIsTarget(c, l.keys, tx);
    AuthorizedExactly(c, l.requireSigs, l.keys, tx);
    if !tx.kind.Slash? {
      EffectAppliesExactly(l, tx, height);
    }
    hide SlashTarget, SlashFor, Convicted, Unauthorized, OwnSignature, Effect, Covered;
  }

  /** No coin leaves an account but by its own key. */
  lemma SpendNeedsOwnKey(c: Crypto, l: Ledger, tx: Tx, height: int)
    requires l.requireSigs && !tx.kind.Slash? && ApplyTx(c, l, tx, height).Ok?
    ensures tx.sender in l.keys && c.recover(SigningBytes(tx), tx.sig) == Some(l.keys[tx.sender])
  {
    hide ApplyTx, SigningBytes;
    AppliesExactly(c, l, tx, height);
  }

  /** What a transaction other than a slash moves, account by account. */
  ghost predicate MovesOnly(l: Ledger, m: Ledger, tx: Tx, height: int) {
    && m == l.(bal := m.bal, staked := m.staked, unbonding := m.unbonding, signals := m.signals, nonces := m.nonces)
    && (forall a :: Get(m.bal, a) == Get(l.bal, a)
                                     - (if a == tx.sender && (tx.kind.Transfer? || tx.kind.Stake?) then tx.amount else 0.0)
                                     + (if tx.kind.Transfer? && tx.to == Some(a) then tx.amount else 0.0))
    && (forall a :: Get(m.staked, a) == Get(l.staked, a)
                                        + (if a == tx.sender && tx.kind.Stake? then tx.amount else 0.0)
                                        - (if a == tx.sender && tx.kind.Unstake? then tx.amount else 0.0))
    && (forall a :: Queue(m, a) == if a == tx.sender && tx.kind.Unstake?
                                   then Queue(l, a) + [Entry(tx.amount, height + 5)] else Queue(l, a))
    && m.signals == (if tx.kind.UpgradeSignal? then l.signals + {tx.sender} else l.signals)
    && (forall a :: Nonce(m, a) == if a == tx.sender then tx.nonce + 1 else Nonce(l, a))
  }

  lemma CreditReads(m: Table, a: Addr, x: real)
    ensures forall b :: Get(Credit(m, a, x), b) == Get(m, b) + if b == a then x else 0.0
    ensures forall b :: Get(Debit(m, a, x), b) == Get(m, b) - if b == a then x else 0.0
  {
  }

  lemma EnqueueReads(l: Ledger, m: Ledger, a: Addr, e: Entry)
    requires m.unbonding == Enqueue(l.unbonding, a, e)
    ensures forall b :: Queue(m, b) == if b == a then Queue(l, b) + [e] else Queue(l, b)
  {
  }

  lemma NonceReads(l: Ledger, m: Ledger, a: Addr, n: int)
    requires m.nonces == l.nonces[a := n]
    ensures forall b :: Nonce(m, b) == if b == a then n else Nonce(l, b)
  {
  }

  lemma AppliedIs(c: Crypto, l: Ledger, tx: Tx, height: int)
    requires !tx.kind.Slash? && ApplyTx(c, l, tx, height).Ok?
    ensures Effect(l, tx, height).Ok?
    ensures var e := Effect(l, tx, height).value;
            ApplyTx(c, l, tx, height).value == e.(nonces := e.nonces[tx.sender := tx.nonce + 1])
  {
    hide Effect, Unauthorized;
  }

  lemma TransferMoves(l: Ledger, m: Ledger, tx: Tx, height: int)
    requires tx.kind.Transfer? && tx.to.Some?
    requires m == l.(bal := Credit(Debit(l.bal, tx.sender, tx.amount), tx.to.value, tx.amount),
                     nonces := l.nonces[tx.sender := tx.nonce + 1])
    ensures MovesOnly(l, m, tx, height)
  {
    hide Get, Credit, Debit, Queue, Nonce;
    CreditReads(l.bal, tx.sender, tx.amount);
    CreditReads(Debit(l.bal, tx.sender, tx.amount), tx.to.value, tx.amount);
    QueueFrame(l, m);
    NonceReads(l, m, tx.sender, tx.nonce + 1);
  }

  lemma StakeMoves(l: Ledger, m: Ledger, tx: Tx, height: int)
    requires tx.kind.Stake?
    requires m == l.(bal := Debit(l.bal, tx.sender, tx.amount), staked := Credit(l.staked, tx.sender, tx.amount),
                     nonces := l.nonces[tx.sender := tx.nonce + 1])
    ensures MovesOnly(l, m, tx, height)
  {
    hide Get, Credit, Debit, Queue, Nonce;
    CreditReads(l.bal, tx.sender, tx.amount);
    CreditReads(l.staked, tx.sender, tx.amount);
    QueueFrame(l, m);
    NonceReads(l, m, tx.sender, tx.nonce + 1);
  }

  lemma UnstakeMoves(l: Ledger, m: Ledger, tx: Tx, height: int)
    requires tx.kind.Unstake?
    requires m == l.(staked := Debit(l.staked, tx.sender, tx.amount),
                     unbonding := Enqueue(l.unbonding, tx.sender, Entry(tx.amount, height + UNBONDING_PERIOD)),
                     nonces := l.nonces[tx.sender := tx.nonce + 1])
    ensures MovesOnly(l, m, tx, height)
  {
    hide Get, Credit, Debit, Enqueue, Queue, Nonce;
    CreditReads(l.staked, tx.sender, tx.amount);
    EnqueueReads(l, m, tx.sender, Entry(tx.amount, height + UNBONDING_PERIOD));
    NonceReads(l, m, tx.sender, tx.nonce + 1);
  }

  lemma SignalMoves(l: Ledger, m: Ledger, tx: Tx, height: int)
    requires tx.kind.UpgradeSignal?
    requires m == l.(signals := l.signals + {tx.sender}, nonces := l.nonces[tx.sender := tx.nonce + 1])
    ensures MovesOnly(l, m, tx, height)
  {
    hide Get, Queue, Nonce;
    QueueFrame(l, m);
    NonceReads(l, m, tx.sender, tx.nonce + 1);
  }

  lemma PaymentMoves(c: Crypto, l: Ledger, tx: Tx, height: int)
    requires (tx.kind.Transfer? || tx.kind.Stake?) && ApplyTx(c, l, tx, height).Ok?
    ensures MovesOnly(l, ApplyTx(c, l, tx, height).value, tx, height)
  {
    hide *;
    AppliedIs(c, l, tx, height);
    EffectIs(l, tx, height);
    if tx.kind.Transfer? {
      TransferMoves(l, ApplyTx(c, l, tx, height).value, tx, height);
    } else {
      StakeMoves(l, ApplyTx(c, l, tx, height).value, tx, height);
    }
  }

  /** A transaction that applies moves exactly that, and spends exactly its sender's nonce. */
  lemma TxMovesExactly(c: Crypto, l: Ledger, tx: Tx, height: int)
    requires !tx.kind.Slash? && ApplyTx(c, l, tx, height).Ok?
    ensures MovesOnly(l, ApplyTx(c, l, tx, height).value, tx, height)
  {
    hide *;
    if tx.kind.Transfer? || tx.kind.Stake? {
      PaymentMoves(c, l, tx, height);
    } else {
      AppliedIs(c, l, tx, height);
      EffectIs(l, tx, height);
      if tx.kind.Unstake? {
        UnstakeMoves(l, ApplyTx(c, l, tx, height).value, tx, height);
      } else {
        SignalMoves(l, ApplyTx(c, l, tx, height).value, tx, height);
      }
    }
  }

  // ---------------------------------------------------------------- one slash

  /** What a slash moves: everything the convicted account has at risk, once per fault, a tenth of it to a reporter whose
      own key signed and the rest to the treasury. */
  ghost predicate SlashesOnly(c: Crypto, l: Ledger, m: Ledger, tx: Tx, target: Addr, fault: Fault) {
    var bounty := if OwnSignature(c, l.keys, tx) then AtRisk(l, target) * 0.1 else 0.0;
    && m == l.(bal := m.bal, staked := m.staked, unbonding := m.unbonding, treasury := m.treasury, faults := m.faults)
    && m.faults == l.faults + {fault}
    && AtRisk(m, target) == 0.0
    && m.treasury == l.treasury + AtRisk(l, target) - bounty
    && (forall a :: Get(m.bal, a) == Get(l.bal, a) + if a == tx.sender then bounty else 0.0)
    && (forall a :: a != target ==> Get(m.staked, a) == Get(l.staked, a) && Queue(m, a) == Queue(l, a))
  }

  lemma BurnedExactly(c: Crypto, l: Ledger, tx: Tx, bond: real, fault: Fault)
    requires bond >= 0.0
    ensures var m, bounty := Burned(c, l, tx, bond, fault), if OwnSignature(c, l.keys, tx) then bond * 0.1 else 0.0;
            && m == l.(bal := m.bal, treasury := m.treasury, faults := l.faults + {fault})
            && m.treasury == l.treasury + bond - bounty
            && forall a :: Get(m.bal, a) == Get(l.bal, a) + if a == tx.sender then bounty else 0.0
  {
    CreditReads(l.bal, tx.sender, bond * BOUNTY);
    hide Get, Credit, SigningBytes;
  }

  lemma SlashExactly(c: Crypto, l: Ledger, tx: Tx, height: int)
    requires Sound(l) && tx.kind.Slash? && ApplyTx(c, l, tx, height).Ok?
    ensures Convicted(c, l.keys, tx.data).Some?
    ensures var (target, fault) := Convicted(c, l.keys, tx.data).value;
            var m := ApplyTx(c, l, tx, height).value;
            if fault in l.faults then m == l else SlashesOnly(c, l, m, tx, target, fault)
  {
    ConvictedIsTarget(c, l.keys, tx);
    var t := SlashTarget(c, l.keys, tx).value;
    assert ApplyTx(c, l, tx, height) == Ok(SlashFor(c, l, tx, t.0, t.1));
    hide SlashTarget, Convicted, ApplyTx, SlashFor, Seize, Burned, OwnSignature, Sound, Worth, AtRisk, Queue, Demand, Get;
    SlashForIs(c, l, tx, t.0, t.1);
    if t.1 !in l.faults {
      SeizeExact(l, t.0, None);
      DemandAll(AtRisk(l, t.0));
      var l1, bond := Seize(l, t.0, None).0, Seize(l, t.0, None).1;
      BurnedExactly(c, l1, tx, bond, t.1);
      var m := SlashFor(c, l, tx, t.0, t.1);
      QueueFrame(l1, m);
      AtRiskIs(l1, t.0);
      AtRiskIs(m, t.0);
    }
  }

  // ---------------------------------------------------------------- whole runs

  /** What an account keeps: its liquid coins and its nonce; and where it is not slashed its stake, and everything it
      has, liquid, staked and unbonding. */
  ghost predicate Keeps(l: Ledger, m: Ledger, a: Addr, spared: bool) {
    && Get(m.bal, a) >= Get(l.bal, a) && Nonce(m, a) == Nonce(l, a)
    && (spared ==>
          && Get(m.staked, a) == Get(l.staked, a)
          && Get(m.bal, a) + AtRisk(m, a) >= Get(l.bal, a) + AtRisk(l, a))
  }

  lemma KeepsOn(l: Ledger, m: Ledger, n: Ledger, a: Addr, spared: bool)
    requires Keeps(l, m, a, spared) && Keeps(m, n, a, spared)
    ensures Keeps(l, n, a, spared)
  {
    hide Get, Nonce, AtRisk;
  }

  /** Nothing but a slash is sent in the account's name with its key's signature. */
  predicate Silent(c: Crypto, keys: map<Addr, Addr>, tx: Tx, a: Addr) {
    tx.sender == a && !tx.kind.Slash? ==> !OwnSignature(c, keys, tx)
  }

  lemma SilentTx(c: Crypto, l: Ledger, tx: Tx, height: int, a: Addr, spared: bool)
    requires Sound(l) && l.requireSigs && ApplyTx(c, l, tx, height).Ok?
    requires Silent(c, l.keys, tx, a) && (spared ==> Spares(c, l.keys, l.faults, tx, a))
    ensures Keeps(l, ApplyTx(c, l, tx, height).value, a, spared)
  {
    var m := ApplyTx(c, l, tx, height).value;
    AppliesExactly(c, l, tx, height);
    AtRiskIs(l, a);
    AtRiskIs(m, a);
    if tx.kind.Slash? {
      SlashExactly(c, l, tx, height);
      ConvictedIsTarget(c, l.keys, tx);
      SoundTables(l, Convicted(c, l.keys, tx.data).value.0);
      AtRiskIs(l, Convicted(c, l.keys, tx.data).value.0);
      SameNonces(l, m);
    } else {
      TxMovesExactly(c, l, tx, height);
    }
    hide ApplyTx, Sound, OwnSignature, Convicted, SlashTarget, Get, Nonce, AtRisk, Queue, Covered;
  }

  lemma SameNonces(l: Ledger, m: Ledger)
    requires m.nonces == l.nonces
    ensures forall a :: Nonce(m, a) == Nonce(l, a)
  {
  }

  lemma {:induction false} SilentTxs(c: Crypto, l: Ledger, txs: seq<Tx>, height: int, a: Addr, spared: bool)
    requires Sound(l) && l.requireSigs && ApplyTxs(c, l, txs, height).Ok?
    requires forall tx :: tx in txs ==> Silent(c, l.keys, tx, a) && (spared ==> Spares(c, l.keys, l.faults, tx, a))
    ensures Keeps(l, ApplyTxs(c, l, txs, height).value, a, spared)
  {
    hide ApplyTx, Keeps, Sound, Silent, Spares, Worth;
    if txs != [] {
      var n := |txs| - 1;
      SilentTxs(c, l, txs[..n], height, a, spared);
      TxsSound(c, l, txs[..n], height);
      TxsKeepChain(c, l, txs[..n], height);
      var m := ApplyTxs(c, l, txs[..n], height).value;
      if spared {
        StillSpares(c, l, m, txs[n], a);
      }
      SilentTx(c, m, txs[n], height, a, spared);
      KeepsOn(l, m, ApplyTxs(c, l, txs, height).value, a, spared);
    } else {
      KeepsSame(l, a, spared);
    }
  }

  lemma KeepsSame(l: Ledger, a: Addr, spared: bool)
    ensures Keeps(l, l, a, spared)
  {
  }

  lemma MatureKeeps(l: Ledger, height: int, a: Addr, spared: bool)
    requires Sound(l)
    ensures Keeps(l, Mature(l, height), a, spared)
  {
    SoundTables(l, a);
    MatureReads(l, height);
    MatureSplits(Queue(l, a), height);
    MatureMembers(Queue(l, a), height);
    QueueSumNonNeg(Released(Queue(l, a), height));
    AtRiskIs(l, a);
    AtRiskIs(Mature(l, height), a);
    hide Mature, Sound, QueueSum, Queue, Get, AtRisk, Kept, Released;
  }

  /** A reward never takes: negative weights are refused and others ignored. */
  lemma RewardKeeps(l: Ledger, reward: real, contributors: Table, a: Addr)
    requires Sound(l)
    ensures Get(Reward(l, reward, contributors).bal, a) >= Get(l.bal, a)
  {
    var agg, r := Positive(contributors), Mintable(l, reward);
    if Sum(agg) > 0.0 && r > 0.0 {
      SharesNonNeg(r, agg);
      GetNonNeg(Shares(r, agg), a);
    }
    hide Sum, Shares, Positive;
  }

  lemma SettleKeeps(l: Ledger, h: Header, contributors: Table, a: Addr, spared: bool)
    requires Sound(l)
    ensures Keeps(l, Settle(l, h, contributors), a, spared)
  {
    var m, booked := Settle(l, h, contributors), Bookkeep(l, h.protocolVersion, h.height);
    BookkeepSound(l, h.protocolVersion, h.height);
    RewardKeeps(booked, h.reward, contributors, a);
    assert m.bal == Reward(booked, h.reward, contributors).bal && m.nonces == l.nonces;
    assert m.staked == l.staked && m.unbonding == l.unbonding;
    hide Settle, Bookkeep, Reward, Sound, Worth;
    QueueFrame(l, m);
    SameNonces(l, m);
    AtRiskIs(l, a);
    AtRiskIs(m, a);
  }

  lemma SilentBlock(c: Crypto, l: Ledger, b: Block, contributors: Table, a: Addr, spared: bool)
    requires Sound(l) && l.requireSigs && ApplyBlock(c, l, b, contributors).Ok?
    requires forall tx :: tx in b.txs ==> Silent(c, l.keys, tx, a) && (spared ==> Spares(c, l.keys, l.faults, tx, a))
    ensures Keeps(l, ApplyBlock(c, l, b, contributors).value, a, spared)
    ensures ApplyBlock(c, l, b, contributors).value.requireSigs
  {
    var h := b.header.height;
    var matured := Mature(l, h);
    var after := ApplyTxs(c, matured, b.txs, h).value;
    assert ApplyBlock(c, l, b, contributors).value == Settle(after, b.header, contributors);
    MatureExact(l, h);
    TxsKeepChain(c, matured, b.txs, h);
    assert Settle(after, b.header, contributors).requireSigs == after.requireSigs;
    hide ApplyBlock, ApplyTxs, Mature, Settle, Keeps, Sound, Silent, Spares, Worth;
    MatureKeeps(l, h, a, spared);
    SilentTxs(c, matured, b.txs, h, a, spared);
    TxsSound(c, matured, b.txs, h);
    SettleKeeps(after, b.header, contributors, a, spared);
    KeepsOn(l, matured, after, a, spared);
    KeepsOn(l, after, Settle(after, b.header, contributors), a, spared);
  }

  /** Over every run of blocks of a chain that asks for signatures, an account in whose name its registered key signed
      nothing keeps its liquid coins and its nonce, whatever else is sent; and unless it is slashed for a fault not
      punished before the run, its stake and everything it has. */
  lemma {:induction false} SilentAccountKeeps(c: Crypto, l: Ledger, blocks: seq<PaidBlock>, a: Addr, spared: bool)
    requires Sound(l) && l.requireSigs && Run(c, l, blocks).Ok?
    requires forall i, tx :: 0 <= i < |blocks| && tx in blocks[i].0.txs ==> Silent(c, l.keys, tx, a)
    requires spared ==>
               forall i, tx :: 0 <= i < |blocks| && tx in blocks[i].0.txs ==> Spares(c, l.keys, l.faults, tx, a)
    ensures Keeps(l, Run(c, l, blocks).value, a, spared)
    ensures Run(c, l, blocks).value.requireSigs
  {
    hide ApplyBlock, Keeps, Sound, Silent, Spares, Worth;
    if blocks != [] {
      var n := |blocks| - 1;
      SilentAccountKeeps(c, l, blocks[..n], a, spared);
      RunConserves(c, l, blocks[..n]);
      RunFrame(c, l, blocks[..n]);
      var m := Run(c, l, blocks[..n]).value;
      forall tx | tx in blocks[n].0.txs
        ensures Silent(c, m.keys, tx, a) && (spared ==> Spares(c, m.keys, m.faults, tx, a))
      {
        if spared {
          StillSpares(c, l, m, tx, a);
        }
      }
      SilentBlock(c, m, blocks[n].0, blocks[n].1, a, spared);
      KeepsOn(l, m, Run(c, l, blocks).value, a, spared);
    } else {
      KeepsSame(l, a, spared);
    }
  }
}
