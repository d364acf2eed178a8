/** The native ledger of neura_l1/block_state.py as a value: what every operation of class `State` does to the
    account tables.  Amounts are exact reals.  The class itself is in LedgerState. */
module Ledger {
  import opened Prelude
  import opened Sorting
  import opened Blocks
  import opened Sums
  import Retarget

  const MAX_SUPPLY: real := 2_100_000_000.0
  const BOUNTY: real := 0.1
  const UNBONDING_PERIOD: int := 5
  const GENESIS_VERSION: int := 1
  const THRESHOLD_NUM: real := 2.0
  const THRESHOLD_DEN: real := 3.0
  const UPGRADE_WINDOW: int := 3
  const UPGRADE_DELAY: int := 3

  /** Stake on its way out: slashable until a block at the release height. */
  datatype Entry = Entry(amount: real, release: int)

  /** What identifies a punished fault, so that it is punished once. */
  datatype Fault = DoubleCommit(signer: Addr, height: int) | ConflictingVotes(votes: set<Vote>)

  datatype Ledger = Ledger(
    requireSigs: bool, retargetEnabled: bool,
    bal: Table, staked: Table, treasury: real, minted: real,
    nonces: map<Addr, int>, keys: map<Addr, Addr>, faults: set<Fault>,
    unbonding: map<Addr, seq<Entry>>, checkpoint: string,
    version: int, signals: set<Addr>, streak: int, pending: Option<int>,
    retarget: Retarget.Retarget)

  function Genesis(checkpoint: string, requireSigs: bool, retargetEnabled: bool): Ledger {
    Ledger(requireSigs, retargetEnabled, map[], map[], 0.0, 0.0, map[], map[], {}, map[], checkpoint,
           GENESIS_VERSION, {}, 0, None, Retarget.GENESIS)
  }

  // ---------------------------------------------------------------- reads

  function EntryLe(a: Entry, b: Entry): bool {
    a.release < b.release || (a.release == b.release && a.amount <= b.amount)
  }

  function QueueSum(q: seq<Entry>): real {
    if q == [] then 0.0 else QueueSum(q[..|q| - 1]) + q[|q| - 1].amount
  }

  function Queue(l: Ledger, a: Addr): seq<Entry> { if a in l.unbonding then l.unbonding[a] else [] }

  /** Everything a fault can burn: active bond plus what is still unbonding. */
  function AtRisk(l: Ledger, a: Addr): real { Get(l.staked, a) + QueueSum(Queue(l, a)) }

  function Nonce(l: Ledger, a: Addr): int { if a in l.nonces then l.nonces[a] else 0 }

  /** The one version a block at `height` on top of `l` may carry. */
  function ChildVersion(l: Ledger, height: int): int {
    if l.pending.Some? && height >= l.pending.value then l.version + 1 else l.version
  }

  // ---------------------------------------------------------------- primitives

  function Credit(m: Table, a: Addr, x: real): Table { m[a := Get(m, a) + x] }

  function Debit(m: Table, a: Addr, x: real): Table { m[a := Get(m, a) - x] }

  /** What one turn of the loop over unbonding entries leaves: kept entries, coins taken, coins still wanted. */
  datatype Cut = Cut(kept: seq<Entry>, taken: real, wanted: Option<real>)

  function CutOne(c: Cut, e: Entry): Cut {
    if c.wanted.Some? && c.wanted.value <= 0.0 then c.(kept := c.kept + [e])
    else
      var t := if c.wanted.None? then e.amount else RealMin(e.amount, c.wanted.value);
      Cut(if e.amount - t > 0.0 then c.kept + [Entry(e.amount - t, e.release)] else c.kept,
          c.taken + t,
          if c.wanted.None? then None else Some(c.wanted.value - t))
  }

  function CutAll(q: seq<Entry>, wanted: Option<real>): Cut {
    if q == [] then Cut([], 0.0, wanted) else CutOne(CutAll(q[..|q| - 1], wanted), q[|q| - 1])
  }

  function SetQueue(u: map<Addr, seq<Entry>>, a: Addr, q: seq<Entry>): map<Addr, seq<Entry>> {
    if q == [] then u - {a} else u[a := q]
  }

  function Less(wanted: Option<real>, taken: real): Option<real> {
    if wanted.None? then None else Some(wanted.value - taken)
  }

  /** The coins taken from the active bond. */
  function StakeTaken(l: Ledger, a: Addr, wanted: Option<real>): real {
    var cur := Get(l.staked, a);
    RealMax(0.0, if wanted.None? then cur else RealMin(cur, wanted.value))
  }

  function SeizeStake(l: Ledger, a: Addr, wanted: Option<real>): Ledger {
    var taken := StakeTaken(l, a, wanted);
    if taken > 0.0 then l.(staked := l.staked[a := Get(l.staked, a) - taken]) else l
  }

  /** The coins taken from unbonding entries, in (release, amount) order. */
  function QueueTaken(l: Ledger, a: Addr, wanted: Option<real>): real {
    if Queue(l, a) != [] && (wanted.None? || wanted.value > 0.0)
    then CutAll(Sort(l.unbonding[a], EntryLe), wanted).taken else 0.0
  }

  function SeizeQueue(l: Ledger, a: Addr, wanted: Option<real>): Ledger {
    if Queue(l, a) != [] && (wanted.None? || wanted.value > 0.0)
    then l.(unbonding := SetQueue(l.unbonding, a, CutAll(Sort(l.unbonding[a], EntryLe), wanted).kept)) else l
  }

  /** `_seize`: active bond first, then the unbonding queue; None takes everything. */
  function Seize(l: Ledger, a: Addr, amount: Option<real>): (Ledger, real) {
    var wanted := if amount.None? then None else Some(RealMax(0.0, amount.value));
    var bond := StakeTaken(l, a, wanted);
    var l1 := SeizeStake(l, a, wanted);
    (SeizeQueue(l1, a, Less(wanted, bond)), bond + QueueTaken(l1, a, Less(wanted, bond)))
  }

  function Kept(q: seq<Entry>, height: int): seq<Entry> {
    if q == [] then []
    else
      var e := q[|q| - 1];
      Kept(q[..|q| - 1], height) + if e.release <= height then [] else [e]
  }

  function Released(q: seq<Entry>, height: int): seq<Entry> {
    if q == [] then []
    else
      var e := q[|q| - 1];
      Released(q[..|q| - 1], height) + if e.release <= height then [e] else []
  }

  /** `_mature_unbonding`: entries whose release height has come become liquid. */
  function Mature(l: Ledger, height: int): (m: Ledger)
    ensures m == l.(bal := m.bal, unbonding := m.unbonding)
  {
    l.(bal := map a | a in l.bal.Keys + ReleasingAddrs(l, height) ::
                Get(l.bal, a) + QueueSum(Released(Queue(l, a), height)),
       unbonding := map a | a in l.unbonding && Kept(l.unbonding[a], height) != [] ::
                      Kept(l.unbonding[a], height))
  }

  function ReleasingAddrs(l: Ledger, height: int): set<Addr> {
    set a | a in l.unbonding && Released(l.unbonding[a], height) != []
  }

  // ---------------------------------------------------------------- transactions

  /** A reporter is paid only on a signature that recovers to its own registered key. */
  function BountyOk(c: Crypto, keys: map<Addr, Addr>, tx: Tx): bool {
    tx.sender in keys && c.recover(SigningBytes(tx), tx.sig) == Some(keys[tx.sender])
  }

  /** Where burned coins go: a tenth to an authenticated reporter, the rest to the treasury. */
  function Burned(c: Crypto, l: Ledger, tx: Tx, bond: real, fault: Fault): Ledger {
    var bounty := if BountyOk(c, l.keys, tx) then bond * BOUNTY else 0.0;
    l.(bal := if bounty > 0.0 then Credit(l.bal, tx.sender, bounty) else l.bal,
       treasury := l.treasury + (bond - bounty),
       faults := l.faults + {fault})
  }

  /** Burn everything `target` has at risk, once per fault. */
  function SlashFor(c: Crypto, l: Ledger, tx: Tx, target: Addr, fault: Fault): Ledger {
    if fault in l.faults then l
    else
      var (l1, bond) := Seize(l, target, None);
      Burned(c, l1, tx, bond, fault)
  }

  /** Whom a slash transaction punishes, and for what; the evidence is checked here. */
  function SlashTarget(c: Crypto, keys: map<Addr, Addr>, tx: Tx): Result<(Addr, Fault)> {
    match tx.data
    case VoteFaultData(None, _) => Err("vote-fault slash tx missing validator")
    case VoteFaultData(_, None) => Err("malformed vote-fault proof")
    case VoteFaultData(Some(v), Some(votes)) =>
      if v !in keys then Err("validator has no registered key")
      else if !c.voteFault(v, votes.0, votes.1, keys[v]) then Err("not a slashable vote fault")
      else Ok((v, ConflictingVotes({votes.0, votes.1})))
    case EquivocationData(Some(proof), Some(p)) =>
      (match c.equivocation(proof)
       case None => Err("invalid equivocation proof")
       case Some(ev) =>
         if p !in keys || keys[p] != ev.0 then Err("equivocation signer != registered key for named proposer")
         else Ok((p, DoubleCommit(ev.0, ev.1))))
    case _ => Err("slash tx missing equivocation proof / proposer")
  }

  function ApplySlash(c: Crypto, l: Ledger, tx: Tx): Result<Ledger> {
    match SlashTarget(c, l.keys, tx)
    case Err(e) => Err(e)
    case Ok(t) => Ok(SlashFor(c, l, tx, t.0, t.1))
  }

  /** Authentication where the chain requires it: a registered sender and its own signature. */
  function Unauthorized(c: Crypto, requireSigs: bool, keys: map<Addr, Addr>, tx: Tx): Option<string> {
    if !requireSigs then None
    else if tx.sender !in keys then Some("sender is not a registered account")
    else
      match c.recover(SigningBytes(tx), tx.sig)
      case None => Some("invalid or missing tx signature")
      case Some(a) => if a != keys[tx.sender] then Some("tx signature does not match sender's registered key")
                      else None
  }

  function Enqueue(u: map<Addr, seq<Entry>>, a: Addr, e: Entry): map<Addr, seq<Entry>> {
    u[a := (if a in u then u[a] else []) + [e]]
  }

  function Effect(l: Ledger, tx: Tx, height: int): Result<Ledger> {
    match tx.kind
    case Transfer =>
      if tx.to.None? then Err("transfer missing recipient")
      else if Get(l.bal, tx.sender) < tx.amount then Err("insufficient balance for transfer")
      else Ok(l.(bal := Credit(Debit(l.bal, tx.sender, tx.amount), tx.to.value, tx.amount)))
    case Stake =>
      if Get(l.bal, tx.sender) < tx.amount then Err("insufficient balance to stake")
      else Ok(l.(bal := Debit(l.bal, tx.sender, tx.amount), staked := Credit(l.staked, tx.sender, tx.amount)))
    case UpgradeSignal =>
      if !tx.data.Version? then Err("upgrade_signal missing/malformed version")
      else if tx.data.version != l.version + 1 then Err("can only signal for the next version")
      else if Get(l.staked, tx.sender) <= 0.0 then Err("upgrade_signal requires active stake")
      else Ok(l.(signals := l.signals + {tx.sender}))
    case Unstake =>
      if Get(l.staked, tx.sender) < tx.amount then Err("insufficient stake to unstake")
      else Ok(l.(staked := Debit(l.staked, tx.sender, tx.amount),
                 unbonding := Enqueue(l.unbonding, tx.sender, Entry(tx.amount, height + UNBONDING_PERIOD))))
    case Slash => Err("unknown kind")
  }

  /** `apply_tx` */
  function ApplyTx(c: Crypto, l: Ledger, tx: Tx, height: int): Result<Ledger> {
    if tx.amount < 0.0 then Err("negative amount")
    else if tx.kind.Slash? then ApplySlash(c, l, tx)
    else if tx.nonce != Nonce(l, tx.sender) then Err("bad nonce")
    else
      match Unauthorized(c, l.requireSigs, l.keys, tx)
      case Some(e) => Err(e)
      case None =>
        match Effect(l, tx, height)
        case Err(e) => Err(e)
        case Ok(l1) => Ok(l1.(nonces := l1.nonces[tx.sender := tx.nonce + 1]))
  }

  function ApplyTxs(c: Crypto, l: Ledger, txs: seq<Tx>, height: int): Result<Ledger> {
    if txs == [] then Ok(l)
    else
      match ApplyTxs(c, l, txs[..|txs| - 1], height)
      case Err(e) => Err(e)
      case Ok(m) => ApplyTx(c, m, txs[|txs| - 1], height)
  }

  // ---------------------------------------------------------------- blocks

  /** The live signalled stake is a two-thirds majority of the bonded stake. */
  ghost predicate Supermajority(l: Ledger) {
    var total := Sum(l.staked);
    total > 0.0 && SumOver(l.signals, l.staked) * THRESHOLD_DEN >= total * THRESHOLD_NUM
  }

  /** The upgrade bookkeeping of one block that carries version `hv` at `height`. */
  ghost function Bookkeep(l: Ledger, hv: int, height: int): (m: Ledger)
    ensures m == l.(version := m.version, signals := m.signals, streak := m.streak, pending := m.pending)
    ensures hv <= l.version ==> m.version == l.version && m.signals == l.signals
  {
    if hv > l.version then l.(version := hv, signals := {}, streak := 0, pending := None)
    else if l.pending.None? && l.signals != {} then
      var streak := if Supermajority(l) then l.streak + 1 else 0;
      l.(streak := streak, pending := if streak >= UPGRADE_WINDOW then Some(height + UPGRADE_DELAY) else None)
    else l
  }

  function Positive(contributors: Table): Table { map a | a in contributors && contributors[a] > 0.0 :: contributors[a] }

  /** What the block really mints: the header reward, clamped to what the cap leaves. */
  function Mintable(l: Ledger, reward: real): real { RealMax(0.0, RealMin(reward, MAX_SUPPLY - l.minted)) }

  ghost function Shares(reward: real, agg: Table): Table
    requires Sum(agg) > 0.0
  {
    var total := Sum(agg);
    map a | a in agg :: Mul(reward, agg[a] / total)
  }

  /** Mint the clamped reward, split by weight; a block without positive weight mints nothing. */
  ghost function Reward(l: Ledger, reward: real, contributors: Table): (m: Ledger)
    ensures m == l.(bal := m.bal, minted := m.minted)
  {
    var agg, r := Positive(contributors), Mintable(l, reward);
    if Sum(agg) > 0.0 && r > 0.0 then
      var shares := Shares(r, agg);
      l.(bal := map a | a in l.bal.Keys + shares.Keys :: Get(l.bal, a) + Get(shares, a),
         minted := l.minted + r)
    else l
  }

  predicate NegativeWeight(contributors: Table) { exists a :: a in contributors && contributors[a] < 0.0 }

  function FoldRetarget(l: Ledger, h: Header): Retarget.Retarget {
    if l.retargetEnabled then
      Retarget.Fold(l.retarget, Retarget.Sample(h.height, h.timestamp, RealMax(0.0, h.workScore)))
    else l.retarget
  }

  /** What follows the transactions of a block. */
  ghost function Settle(l: Ledger, h: Header, contributors: Table): Ledger {
    var booked := Bookkeep(l, h.protocolVersion, h.height);
    var paid := Reward(booked, h.reward, contributors);
    paid.(checkpoint := h.newCheckpoint, retarget := FoldRetarget(l, h))
  }

  /** `apply_block` */
  ghost function ApplyBlock(c: Crypto, l: Ledger, b: Block, contributors: Table): Result<Ledger> {
    if b.header.txRoot != b.txs then Err("header.tx_root != tx_root(block.txs)")
    else
      match ApplyTxs(c, Mature(l, b.header.height), b.txs, b.header.height)
      case Err(e) => Err(e)
      case Ok(m) => if NegativeWeight(contributors) then Err("negative contributor weight")
                    else Ok(Settle(m, b.header, contributors))
  }

  /** A block with the weights it pays. */
  type PaidBlock = (Block, Table)

  ghost function Run(c: Crypto, l: Ledger, blocks: seq<PaidBlock>): Result<Ledger> {
    if blocks == [] then Ok(l)
    else
      match Run(c, l, blocks[..|blocks| - 1])
      case Err(e) => Err(e)
      case Ok(m) => ApplyBlock(c, m, blocks[|blocks| - 1].0, blocks[|blocks| - 1].1)
  }
}
