/** Class `State` of neura_l1/block_state.py: the ledger as an object whose tables are updated in place, with the
    unbonding queues as shared mutable lists.  Every method is proved against the ledger value of module Ledger. */
module LedgerState {
  import opened Prelude
  import opened Sorting
  import opened Blocks
  import opened Sums
  import opened Ledger
  import L = Ledger
  import opened LedgerSafety
  import Retarget

  /** One unbonding queue: a list object that `unstake` appends to in place. */
  class EntryList {
    var items: seq<Entry>

    constructor (items: seq<Entry>)
      ensures this.items == items
    {
      this.items := items;
    }
  }

  type Queues = map<Addr, EntryList>

  ghost predicate Unshared(u: Queues) { forall a, b :: a in u && b in u && u[a] == u[b] ==> a == b }

  ghost function View(u: Queues): map<Addr, seq<Entry>>
    reads u.Values
  {
    map a | a in u :: u[a].items
  }

  /** An operation reported `ok` and moved `before` to `after` exactly as the ledger value says; a failed one
      gives the reason and changes nothing. */
  ghost predicate Did(spec: Result<Ledger>, ok: bool, reason: string, before: Ledger, after: Ledger) {
    match spec
    case Ok(m) => ok && after == m
    case Err(e) => !ok && reason == e && after == before
  }

  lemma UnknownKind(l: Ledger, tx: Tx, height: int)
    requires tx.kind.Slash?
    ensures Did(Effect(l, tx, height), false, "unknown kind", l, l)
  {
  }

  lemma ViewReads(u: Queues)
    ensures View(u).Keys == u.Keys
    ensures forall a :: a in u ==> View(u)[a] == u[a].items
  {
  }

  class State {
    var requireSigs: bool
    var retargetEnabled: bool
    var bal: Table
    var staked: Table
    var treasury: real
    var minted: real
    var nonces: map<Addr, int>
    var keys: map<Addr, Addr>
    var faults: set<Fault>
    var unbonding: Queues
    var checkpoint: string
    var version: int
    var signals: set<Addr>
    var streak: int
    var pending: Option<int>
    var retarget: Retarget.Retarget

    /** No two accounts share a queue object. */
    ghost predicate Valid()
      reads this
    {
      Unshared(unbonding)
    }

    ghost function Value(): Ledger
      reads this, unbonding.Values
    {
      Ledger(requireSigs, retargetEnabled, bal, staked, treasury, minted, nonces, keys, faults, View(unbonding),
             checkpoint, version, signals, streak, pending, retarget)
    }

    constructor (checkpoint: string, requireSigs: bool, retargetEnabled: bool)
      ensures Valid() && Value() == Genesis(checkpoint, requireSigs, retargetEnabled)
      ensures unbonding == map[]
    {
      this.requireSigs, this.retargetEnabled := requireSigs, retargetEnabled;
      bal, staked, treasury, minted := map[], map[], 0.0, 0.0;
      nonces, keys, faults, unbonding := map[], map[], {}, map[];
      this.checkpoint := checkpoint;
      version, signals, streak, pending := GENESIS_VERSION, {}, 0, None;
      retarget := Retarget.GENESIS;
    }

    /** {a: [list(e) for e in lst] for a, lst in unbonding.items()} */
    static method CopyQueues(u: Queues) returns (copied: Queues)
      requires Unshared(u)
      ensures fresh(copied.Values) && Unshared(copied) && View(copied) == View(u)
    {
      copied := map[];
      var left := u.Keys;
      while left != {}
        invariant left <= u.Keys && copied.Keys == u.Keys - left
        invariant fresh(copied.Values) && Unshared(copied)
        invariant forall a :: a in copied ==> copied[a].items == u[a].items
        decreases left
      {
        var a :| a in left;
        var l := new EntryList(u[a].items);
        assert forall b :: b in copied ==> copied[b] in copied.Values;
        copied := copied[a := l];
        left := left - {a};
      }
    }

    /** Every plain field of `o`, with the given queues. */
    constructor Like(o: State, queues: Queues)
      ensures unbonding == queues
      ensures Value() == o.Value().(unbonding := View(queues))
    {
      requireSigs, retargetEnabled := o.requireSigs, o.retargetEnabled;
      bal, staked, treasury, minted := o.bal, o.staked, o.treasury, o.minted;
      nonces, keys, faults, unbonding := o.nonces, o.keys, o.faults, queues;
      checkpoint := o.checkpoint;
      version, signals, streak, pending := o.version, o.signals, o.streak, o.pending;
      retarget := o.retarget;
    }

    /** `copy`: a deep copy that shares no queue with the original. */
    method Copy() returns (s: State)
      requires Valid()
      ensures fresh(s) && fresh(s.unbonding.Values)
      ensures s.Valid() && s.Value() == Value()
    {
      var copied := CopyQueues(unbonding);
      s := new State.Like(this, copied);
    }

    // ---- mutating primitives ----

    /** Replace the queue of `a` by a new list, or drop it when the list is empty. */
    method PutQueue(a: Addr, q: seq<Entry>)
      requires Valid()
      modifies this`unbonding
      ensures Valid() && fresh(unbonding.Values - old(unbonding.Values))
      ensures View(unbonding) == SetQueue(old(View(unbonding)), a, q)
    {
      if q == [] {
        unbonding := unbonding - {a};
      } else {
        var l := new EntryList(q);
        assert forall b :: b in unbonding ==> unbonding[b] in unbonding.Values;
        unbonding := unbonding[a := l];
      }
    }

    /** `_seize`, step 1: the active bond. */
    method SeizeBond(a: Addr, wanted: Option<real>) returns (take: real)
      requires Valid()
      modifies this`staked
      ensures Value() == SeizeStake(old(Value()), a, wanted) && take == StakeTaken(old(Value()), a, wanted)
    {
      var cur := Get(staked, a);
      take := if wanted.None? then cur else RealMin(cur, wanted.value);
      if take > 0.0 {
        staked := staked[a := cur - take];
      } else {
        take := 0.0;
      }
    }

    /** `_seize`, step 2: unbonding entries, oldest release first. */
    method SeizeEntries(a: Addr, wanted: Option<real>) returns (taken: real)
      requires Valid()
      modifies this`unbonding
      ensures Valid() && fresh(unbonding.Values - old(unbonding.Values))
      ensures Value() == SeizeQueue(old(Value()), a, wanted) && taken == QueueTaken(old(Value()), a, wanted)
    {
      taken := 0.0;
      if a in unbonding && unbonding[a].items != [] && (wanted.None? || wanted.value > 0.0) {
        var entries := Sort(unbonding[a].items, EntryLe);
        var kept;
        kept, taken := CutEntries(entries, wanted);
        PutQueue(a, kept);
      }
    }

    /** `_seize` */
    method SeizeFunds(a: Addr, amount: Option<real>) returns (seized: real)
      requires Valid()
      modifies this`staked, this`unbonding
      ensures Valid() && fresh(unbonding.Values - old(unbonding.Values))
      ensures (Value(), seized) == Seize(old(Value()), a, amount)
    {
      hide SeizeStake;
      hide SeizeQueue;
      hide StakeTaken;
      hide QueueTaken;
      var remaining := if amount.None? then None else Some(RealMax(0.0, amount.value));
      seized := SeizeBond(a, remaining);
      remaining := Less(remaining, seized);
      var taken := SeizeEntries(a, remaining);
      seized := seized + taken;
    }

    /** The loop of `_seize` over sorted unbonding entries. */
    static method CutEntries(entries: seq<Entry>, wanted: Option<real>) returns (kept: seq<Entry>, taken: real)
      ensures kept == CutAll(entries, wanted).kept && taken == CutAll(entries, wanted).taken
    {
      kept, taken := [], 0.0;
      var remaining := wanted;
      for i := 0 to |entries|
        invariant CutAll(entries[..i], wanted) == Cut(kept, taken, remaining)
      {
        assert entries[..i + 1][..i] == entries[..i];
        var e := entries[i];
        if remaining.Some? && remaining.value <= 0.0 {
          kept := kept + [e];
        } else {
          var t := if remaining.None? then e.amount else RealMin(e.amount, remaining.value);
          taken := taken + t;
          if remaining.Some? {
            remaining := Some(remaining.value - t);
          }
          if e.amount - t > 0.0 {
            kept := kept + [Entry(e.amount - t, e.release)];
          }
        }
      }
      assert entries[..|entries|] == entries;
    }

    /** `slash`: burn to the treasury. */
    method SlashFunds(a: Addr, amount: Option<real>) returns (seized: real)
      requires Valid()
      modifies this`staked, this`unbonding, this`treasury
      ensures Valid() && fresh(unbonding.Values - old(unbonding.Values))
      ensures var (m, s) := Seize(old(Value()), a, amount);
              seized == s && Value() == m.(treasury := m.treasury + s)
    {
      hide Seize, View;
      seized := SeizeFunds(a, amount);
      treasury := treasury + seized;
    }

    // ---- maturing ----

    /** The turn of `_mature_unbonding` for one account: credit released entries, keep the rest. */
    method MatureAccount(a: Addr, height: int)
      requires Valid() && a in unbonding
      modifies this`bal, this`unbonding
      ensures Valid() && fresh(unbonding.Values - old(unbonding.Values))
      ensures Value() == MatureOne(old(Value()), a, height)
    {
      hide Kept, Released, Credited, View, SetQueue, Credit;
      ViewReads(unbonding);
      var q, kept := unbonding[a].items, [];
      NothingDue(old(bal), a, height);
      for i := 0 to |q|
        invariant unbonding == old(unbonding)
        invariant kept == Kept(q[..i], height)
        invariant bal == Credited(old(bal), a, Released(q[..i], height))
      {
        OneMoreEntry(q, i, height);
        if q[i].release <= height {
          CreditedSnoc(old(bal), a, Released(q[..i], height), q[i]);
          bal := Credit(bal, a, q[i].amount);
        } else {
          kept := kept + [q[i]];
        }
      }
      assert q[..|q|] == q;
      PutQueue(a, kept);
    }

    /** `_mature_unbonding` */
    method MatureUnbonding(height: int)
      requires Valid()
      modifies this`bal, this`unbonding
      ensures Valid() && fresh(unbonding.Values - old(unbonding.Values))
      ensures Value() == Mature(old(Value()), height)
    {
      hide *;
      ghost var before := Value();
      var left := unbonding.Keys;
      ghost var done: set<Addr> := {};
      ValueKeys(this);
      MaturePartNone(before, height);
      while left != {}
        invariant Valid() && fresh(unbonding.Values - old(unbonding.Values))
        invariant left + done == before.unbonding.Keys && left !! done
        invariant Value() == MaturePart(before, height, done)
        decreases left
      {
        var a :| a in left;
        MaturePartStep(before, height, done, a);
        ValueKeys(this);
        MatureAccount(a, height);
        left, done := left - {a}, done + {a};
      }
      assert done == before.unbonding.Keys;
      MaturePartAll(before, height);
    }

    // ---- transactions ----

    /** The payout of a slash: a bounty to an authenticated reporter, the rest to the treasury. */
    method PayBurned(c: Crypto, tx: Tx, bond: real, fault: Fault)
      modifies this`bal, this`treasury, this`faults
      ensures var m := Burned(c, old(Value()), tx, bond, fault);
              bal == m.bal && treasury == m.treasury && faults == m.faults
    {
      hide View;
      var bounty := if BountyOk(c, keys, tx) then bond * BOUNTY else 0.0;
      if bounty > 0.0 {
        bal := Credit(bal, tx.sender, bounty);
      }
      treasury := treasury + (bond - bounty);
      faults := faults + {fault};
    }

    /** `_apply_slash` once the evidence named a target: burn everything at risk. */
    method BurnFor(c: Crypto, tx: Tx, target: Addr, fault: Fault)
      requires Valid()
      modifies this`staked, this`unbonding, this`bal, this`treasury, this`faults
      ensures Valid() && fresh(unbonding.Values - old(unbonding.Values))
      ensures Value() == SlashFor(c, old(Value()), tx, target, fault)
    {
      hide Seize, Burned, View, Unshared, SlashFor;
      SlashForIs(c, Value(), tx, target, fault);
      if fault in faults {
        return;
      }
      var bond := SeizeFunds(target, None);
      BurnedFrame(c, Value(), tx, bond, fault);
      PayBurned(c, tx, bond, fault);
    }

    method ApplySlashTx(c: Crypto, tx: Tx) returns (ok: bool, reason: string)
      requires Valid()
      modifies this`staked, this`unbonding, this`bal, this`treasury, this`faults
      ensures Valid() && fresh(unbonding.Values - old(unbonding.Values))
      ensures Did(ApplySlash(c, old(Value()), tx), ok, reason, old(Value()), Value())
    {
      hide View;
      hide SlashFor;
      hide SlashTarget;
      var t := SlashTarget(c, keys, tx);
      if t.Err? {
        return false, t.reason;
      }
      BurnFor(c, tx, t.value.0, t.value.1);
      return true, "slash applied";
    }

    /** The account's own list, made empty when it has none. */
    method ListOf(a: Addr) returns (l: EntryList)
      requires Valid()
      modifies this`unbonding
      ensures Valid() && fresh(unbonding.Values - old(unbonding.Values))
      ensures a in unbonding && unbonding[a] == l
      ensures l.items == if a in old(unbonding) then old(unbonding[a].items) else []
      ensures View(unbonding) == old(View(unbonding))[a := if a in old(unbonding) then old(unbonding[a].items) else []]
    {
      assert forall b :: b in unbonding ==> unbonding[b] in unbonding.Values;
      if a !in unbonding {
        var made := new EntryList([]);
        unbonding := unbonding[a := made];
      }
      l := unbonding[a];
    }

    /** Queue withdrawing stake: append in place to the account's own list. */
    method QueueUnbonding(a: Addr, e: Entry)
      requires Valid()
      modifies this`unbonding, unbonding.Values
      ensures Valid() && fresh(unbonding.Values - old(unbonding.Values))
      ensures View(unbonding) == Enqueue(old(View(unbonding)), a, e)
    {
      hide View, Enqueue;
      ViewReads(unbonding);
      EnqueueIs(View(unbonding), a, e);
      var l := ListOf(a);
      Append(l, a, e);
    }

    method Append(l: EntryList, a: Addr, e: Entry)
      requires Valid() && a in unbonding && unbonding[a] == l
      modifies l
      ensures View(unbonding) == old(View(unbonding))[a := old(l.items) + [e]]
    {
      assert forall b :: b in unbonding && b != a ==> unbonding[b] != l;
      l.items := l.items + [e];
      assert View(unbonding).Keys == old(View(unbonding)).Keys;
    }

    method ApplyTransfer(tx: Tx, height: int) returns (ok: bool, reason: string)
      requires Valid() && tx.kind.Transfer?
      modifies this`bal
      ensures Did(Effect(old(Value()), tx, height), ok, reason, old(Value()), Value())
    {
      hide View;
      if tx.to.None? {
        return false, "transfer missing recipient";
      }
      if Get(bal, tx.sender) < tx.amount {
        return false, "insufficient balance for transfer";
      }
      bal := Debit(bal, tx.sender, tx.amount);
      bal := Credit(bal, tx.to.value, tx.amount);
      return true, "transfer applied";
    }

    method ApplyStake(tx: Tx, height: int) returns (ok: bool, reason: string)
      requires Valid() && tx.kind.Stake?
      modifies this`bal, this`staked
      ensures Did(Effect(old(Value()), tx, height), ok, reason, old(Value()), Value())
    {
      hide View;
      if Get(bal, tx.sender) < tx.amount {
        return false, "insufficient balance to stake";
      }
      bal := Debit(bal, tx.sender, tx.amount);
      staked := Credit(staked, tx.sender, tx.amount);
      return true, "stake applied";
    }

    method ApplySignal(tx: Tx, height: int) returns (ok: bool, reason: string)
      requires Valid() && tx.kind.UpgradeSignal?
      modifies this`signals
      ensures Did(Effect(old(Value()), tx, height), ok, reason, old(Value()), Value())
    {
      hide View;
      if !tx.data.Version? {
        return false, "upgrade_signal missing/malformed version";
      }
      if tx.data.version != version + 1 {
        return false, "can only signal for the next version";
      }
      if Get(staked, tx.sender) <= 0.0 {
        return false, "upgrade_signal requires active stake";
      }
      signals := signals + {tx.sender};
      return true, "upgrade signal recorded";
    }

    method ApplyUnstake(tx: Tx, height: int) returns (ok: bool, reason: string)
      requires Valid() && tx.kind.Unstake?
      modifies this`staked, this`unbonding, unbonding.Values
      ensures Valid() && fresh(unbonding.Values - old(unbonding.Values))
      ensures Did(Effect(old(Value()), tx, height), ok, reason, old(Value()), Value())
    {
      hide View;
      hide Enqueue;
      if Get(staked, tx.sender) < tx.amount {
        return false, "insufficient stake to unstake";
      }
      staked := Debit(staked, tx.sender, tx.amount);
      QueueUnbonding(tx.sender, Entry(tx.amount, height + UNBONDING_PERIOD));
      return true, "unstake queued";
    }

    /** The kind-specific part of `apply_tx`. */
    method ApplyEffect(tx: Tx, height: int) returns (ok: bool, reason: string)
      requires Valid()
      modifies this`bal, this`staked, this`signals, this`unbonding, unbonding.Values
      ensures Valid() && fresh(unbonding.Values - old(unbonding.Values))
      ensures Did(Effect(old(Value()), tx, height), ok, reason, old(Value()), Value())
    {
      hide View;
      hide Did;
      match tx.kind
      case Transfer => ok, reason := ApplyTransfer(tx, height);
      case Stake => ok, reason := ApplyStake(tx, height);
      case UpgradeSignal => ok, reason := ApplySignal(tx, height);
      case Unstake => ok, reason := ApplyUnstake(tx, height);
      case Slash =>
        ok, reason := false, "unknown kind";
        assert Did(Effect(old(Value()), tx, height), ok, reason, old(Value()), Value()) by {
          UnknownKind(old(Value()), tx, height);
        }
    }

    /** `apply_tx`: on failure nothing is mutated. */
    method ApplyTx(c: Crypto, tx: Tx, height: int) returns (ok: bool, reason: string)
      requires Valid()
      modifies this, unbonding.Values
      ensures Valid() && fresh(unbonding.Values - old(unbonding.Values))
      ensures Did(L.ApplyTx(c, old(Value()), tx, height), ok, reason, old(Value()), Value())
    {
      hide *;
      ghost var l := Value();
      ApplyTxIs(c, l, tx, height);
      ValueAuth(this, tx.sender);
      Refuses(c, l, tx, height);
      if tx.amount < 0.0 {
        return false, "negative amount";
      }
      if tx.kind.Slash? {
        ok, reason := ApplySlashTx(c, tx);
        return;
      }
      if tx.nonce != if tx.sender in nonces then nonces[tx.sender] else 0 {
        return false, "bad nonce";
      }
      var refused := Unauthorized(c, requireSigs, keys, tx);
      if refused.Some? {
        return false, refused.value;
      }
      ok, reason := ApplyEffect(tx, height);
      EffectDid(c, l, tx, height, ok, reason, Value());
      if ok {
        SpendNonce(tx);
      }
    }

    method SpendNonce(tx: Tx)
      modifies this`nonces
      ensures var l := old(Value()); Value() == l.(nonces := l.nonces[tx.sender := tx.nonce + 1])
      ensures unbonding == old(unbonding) && (old(Valid()) ==> Valid())
    {
      hide View, Unshared;
      nonces := nonces[tx.sender := tx.nonce + 1];
    }

    // ---- blocks ----

    /** Upgrade bookkeeping: activate, or re-tally the signalling stake against live bonds. */
    method BookkeepUpgrade(hv: int, height: int)
      modifies this`version, this`signals, this`streak, this`pending
      ensures var m := Bookkeep(old(Value()), hv, height);
              version == m.version && signals == m.signals && streak == m.streak && pending == m.pending
    {
      hide View, SumOver, Sum, Bookkeep, Supermajority;
      BookkeepIs(Value(), hv, height);
      if hv > version {
        version, signals, streak, pending := hv, {}, 0, None;
      } else if pending.None? && signals != {} {
        var total := Total(staked, staked.Keys);
        var signaled := Total(staked, signals);
        SupermajorityIs(old(Value()), total, signaled);
        if total > 0.0 && signaled * THRESHOLD_DEN >= total * THRESHOLD_NUM {
          streak := streak + 1;
        } else {
          streak := 0;
        }
        if streak >= UPGRADE_WINDOW {
          pending := Some(height + UPGRADE_DELAY);
        }
      }
    }

    /** `credit_reward` */
    method CreditReward(a: Addr, amount: real)
      modifies this`bal, this`minted
      ensures amount > 0.0 ==> bal == Credit(old(bal), a, amount) && minted == old(minted) + amount
      ensures amount <= 0.0 ==> bal == old(bal) && minted == old(minted)
    {
      if amount > 0.0 {
        bal := Credit(bal, a, amount);
        minted := minted + amount;
      }
    }

    /** Mint `reward`, split over the weights `agg`. */
    method MintShares(agg: Table, totalW: real, reward: real)
      requires totalW == Sum(agg) > 0.0 && reward > 0.0
      requires forall a :: a in agg ==> agg[a] > 0.0
      modifies this`bal, this`minted
      ensures bal == Paid(old(bal), Shares(reward, agg), agg.Keys)
      ensures minted == old(minted) + reward
    {
      ghost var shares := Shares(reward, agg);
      var left := agg.Keys;
      ghost var done: set<Addr> := {};
      PaidNone(bal, shares);
      SharesSum(reward, agg);
      assert shares.Keys == agg.Keys;
      hide Paid;
      hide SumOver;
      hide Shares;
      hide Mul;
      while left != {}
        invariant left + done == agg.Keys && left !! done
        invariant bal == Paid(old(bal), shares, done)
        invariant minted + SumOver(left, shares) == old(minted) + reward
        decreases left
      {
        var a :| a in left;
        var amount := Mul(reward, agg[a] / totalW);
        ShareIsPositive(reward, agg, a);
        PaidStep(old(bal), shares, done, a);
        SumOverPick(left, shares, a);
        CreditReward(a, amount);
        left, done := left - {a}, done + {a};
      }
      SumOverNone(shares);
      assert done == agg.Keys;
    }

    /** The reward step of `apply_block`. */
    method PayReward(headerReward: real, contributors: Table)
      modifies this`bal, this`minted
      ensures var m := Reward(old(Value()), headerReward, contributors); bal == m.bal && minted == m.minted
    {
      hide View;
      hide SumOver;
      hide Shares;
      var agg := Positive(contributors);
      var totalW := Total(agg, agg.Keys);
      var reward := RealMax(0.0, RealMin(headerReward, MAX_SUPPLY - minted));
      if totalW > 0.0 && reward > 0.0 {
        PaidAll(bal, reward, agg);
        MintShares(agg, totalW, reward);
      }
    }

    /** `_fold_retarget`: `this` is the parent, `ns` the child being built. */
    method FoldInto(ns: State, h: Header)
      requires ns != this && ns.retarget == retarget
      modifies ns`retarget
      ensures ns.retarget == FoldRetarget(old(Value()), h)
    {
      if !retargetEnabled || h.height < Retarget.ACTIVATION_HEIGHT {
        return;
      }
      var ring := Retarget.PushRing(retarget.ring, h.timestamp);
      var mtp := Retarget.Median(ring);
      var sample := Retarget.Quantized(RealMax(0.0, h.workScore));
      var ewma := Retarget.Ewma(retarget.ewma, sample);
      ns.retarget := ns.retarget.(ring := ring, ewma := ewma, lastTs := h.timestamp);
      if h.height % Retarget.RETARGET_WINDOW == 0 {
        var raw := mtp - retarget.anchorTs;
        var lo, hi := Retarget.TARGET_TIMESPAN / Retarget.CLAMP, Retarget.TARGET_TIMESPAN * Retarget.CLAMP;
        var clamped := Min(hi, Max(lo, if raw > 0 then raw else lo));
        var newQ := retarget.floor * Retarget.TARGET_TIMESPAN / clamped;
        newQ := Min(Retarget.WORK_FLOOR_MAX, Max(Retarget.WORK_FLOOR_MIN, newQ));
        var ceilQ := Max(Retarget.WORK_FLOOR_MIN, ewma * Retarget.CEIL_NUM / Retarget.CEIL_DEN);
        ns.retarget := ns.retarget.(floor := Min(newQ, ceilQ), anchorTs := mtp, anchorH := h.height);
      }
    }

    method ApplyTxList(c: Crypto, txs: seq<Tx>, height: int) returns (ok: bool, reason: string)
      requires Valid()
      modifies this, unbonding.Values
      ensures Valid() && fresh(unbonding.Values - old(unbonding.Values))
      ensures match ApplyTxs(c, old(Value()), txs, height)
              case Ok(m) => ok && Value() == m
              case Err(e) => !ok && reason == e
    {
      hide View;
      hide L.ApplyTx;
      for i := 0 to |txs|
        invariant Valid() && fresh(unbonding.Values - old(unbonding.Values))
        invariant ApplyTxs(c, old(Value()), txs[..i], height) == Ok(Value())
      {
        assert txs[..i + 1][..i] == txs[..i];
        ok, reason := ApplyTx(c, txs[i], height);
        if !ok {
          TxsFailEarly(c, old(Value()), txs, height, i + 1);
          return false, reason;
        }
      }
      assert txs[..|txs|] == txs;
      return true, "";
    }

    /** The new checkpoint, and the retarget folded on from the parent's. */
    method Stamp(parent: State, h: Header)
      requires parent != this && retargetEnabled == parent.retargetEnabled && retarget == parent.retarget
      modifies this`checkpoint, this`retarget
      ensures Value() == old(Value()).(checkpoint := h.newCheckpoint, retarget := FoldRetarget(old(Value()), h))
    {
      hide View, FoldRetarget, Unshared;
      FoldReadsRetarget(Value(), parent.Value(), h);
      checkpoint := h.newCheckpoint;
      parent.FoldInto(this, h);
    }

    /** What `apply_block` does after the transactions, on the copy; `parent` is the state being extended. */
    method Conclude(parent: State, h: Header, contributors: Table) returns (ok: bool)
      requires parent != this && Valid()
      requires retargetEnabled == parent.retargetEnabled && retarget == parent.retarget
      modifies this`version, this`signals, this`streak, this`pending
      modifies this`bal, this`minted, this`checkpoint, this`retarget
      ensures Valid() && (ok <==> !NegativeWeight(contributors))
      ensures ok ==> Value() == Settle(old(Value()), h, contributors)
    {
      hide View, Bookkeep, Reward, FoldRetarget, NegativeWeight, Settle, Unshared;
      ghost var l := Value();
      SettleIs(l, h, contributors);
      BookkeepUpgrade(h.protocolVersion, h.height);
      ghost var booked := Value();
      assert booked == Bookkeep(l, h.protocolVersion, h.height);
      if NegativeWeight(contributors) {
        return false;
      }
      PayReward(h.reward, contributors);
      assert Value() == Reward(booked, h.reward, contributors);
      FoldReadsRetarget(l, Value(), h);
      Stamp(parent, h);
      return true;
    }

    /** `apply_block`: a new state; nothing that existed before is altered, and nothing is shared with it. */
    method ApplyBlock(c: Crypto, b: Block, contributors: Table) returns (r: Result<State>)
      requires Valid()
      ensures match L.ApplyBlock(c, Value(), b, contributors)
              case Err(e) => r == Err(e)
              case Ok(m) =>
                r.Ok? && fresh(r.value) && fresh(r.value.unbonding.Values) && r.value.Valid() && r.value.Value() == m
    {
      hide *;
      var h := b.header.height;
      ghost var was := Value();
      BlockIs(c, was, b, contributors);
      var ns := Copy();
      if b.header.txRoot != b.txs {
        return Err("header.tx_root != tx_root(block.txs)");
      }
      ns.MatureUnbonding(h);
      var ok, reason := ns.ApplyTxList(c, b.txs, h);
      if !ok {
        return Err(reason);
      }
      KeepsRetarget(c, was, b);
      ValueRetarget(this);
      ValueRetarget(ns);
      ok := ns.Conclude(this, b.header, contributors);
      return if ok then Ok(ns) else Err("negative contributor weight");
    }
  }

  lemma {:induction false} TxsFailEarly(c: Crypto, l: Ledger, txs: seq<Tx>, height: int, n: nat)
    requires n <= |txs| && ApplyTxs(c, l, txs[..n], height).Err?
    ensures ApplyTxs(c, l, txs, height) == ApplyTxs(c, l, txs[..n], height)
  {
    hide L.ApplyTx;
    if n < |txs| {
      assert txs[..|txs| - 1][..n] == txs[..n];
      TxsFailEarly(c, l, txs[..|txs| - 1], height, n);
    } else {
      assert txs[..n] == txs;
    }
  }

  lemma FoldReadsRetarget(l: Ledger, m: Ledger, h: Header)
    requires l.retargetEnabled == m.retargetEnabled && l.retarget == m.retarget
    ensures FoldRetarget(l, h) == FoldRetarget(m, h)
  {
  }

  lemma BurnedFrame(c: Crypto, l: Ledger, tx: Tx, bond: real, fault: Fault)
    ensures var m := Burned(c, l, tx, bond, fault); m == l.(bal := m.bal, treasury := m.treasury, faults := m.faults)
  {
    hide BountyOk, Credit;
  }

  lemma EnqueueIs(u: map<Addr, seq<Entry>>, a: Addr, e: Entry)
    ensures var q := if a in u then u[a] else [];
            Enqueue(u, a, e) == u[a := q][a := q + [e]]
  {
  }

  lemma ValueKeys(s: State)
    ensures s.Value().unbonding.Keys == s.unbonding.Keys
  {
  }

  lemma ValueRetarget(s: State)
    ensures s.Value().retargetEnabled == s.retargetEnabled && s.Value().retarget == s.retarget
  {
    hide View;
  }

  lemma NothingDue(m: Table, a: Addr, height: int)
    ensures Kept([], height) == [] && Credited(m, a, Released([], height)) == m
  {
  }

  /** One more entry of a queue is due or stays. */
  lemma OneMoreEntry(q: seq<Entry>, i: nat, height: int)
    requires i < |q|
    ensures Released(q[..i + 1], height)
         == if q[i].release <= height then Released(q[..i], height) + [q[i]] else Released(q[..i], height)
    ensures Kept(q[..i + 1], height)
         == if q[i].release <= height then Kept(q[..i], height) else Kept(q[..i], height) + [q[i]]
  {
    assert q[..i + 1][..i] == q[..i];
  }

  lemma ValueAuth(s: State, a: Addr)
    ensures s.Value().requireSigs == s.requireSigs && s.Value().keys == s.keys
    ensures Nonce(s.Value(), a) == if a in s.nonces then s.nonces[a] else 0
  {
    hide View;
  }

  /** The refusals of `apply_tx` and its hand-over of slashes. */
  lemma ApplyTxIs(c: Crypto, l: Ledger, tx: Tx, height: int)
    ensures var r := L.ApplyTx(c, l, tx, height);
            && (tx.amount < 0.0 ==> r == Err("negative amount"))
            && (tx.amount >= 0.0 && tx.kind.Slash? ==> r == ApplySlash(c, l, tx))
            && (tx.amount >= 0.0 && !tx.kind.Slash? && tx.nonce != Nonce(l, tx.sender) ==> r == Err("bad nonce"))
            && (tx.amount >= 0.0 && !tx.kind.Slash? && tx.nonce == Nonce(l, tx.sender)
                && Unauthorized(c, l.requireSigs, l.keys, tx).Some? ==>
                  r == Err(Unauthorized(c, l.requireSigs, l.keys, tx).value))
  {
    hide Effect, ApplySlash, Unauthorized, Nonce;
  }

  lemma Refuses(c: Crypto, l: Ledger, tx: Tx, height: int)
    ensures var r := L.ApplyTx(c, l, tx, height); r.Err? ==> Did(r, false, r.reason, l, l)
  {
    hide L.ApplyTx;
  }

  lemma SupermajorityIs(l: Ledger, total: real, signaled: real)
    requires total == SumOver(l.staked.Keys, l.staked) && signaled == SumOver(l.signals, l.staked)
    ensures Supermajority(l) <==> total > 0.0 && signaled * THRESHOLD_DEN >= total * THRESHOLD_NUM
  {
    hide SumOver;
  }

  /** An authorized transaction does what its effect does, and spends its nonce. */
  lemma EffectDid(c: Crypto, l: Ledger, tx: Tx, height: int, ok: bool, reason: string, m: Ledger)
    requires tx.amount >= 0.0 && !tx.kind.Slash? && tx.nonce == Nonce(l, tx.sender)
    requires Unauthorized(c, l.requireSigs, l.keys, tx).None? && Did(Effect(l, tx, height), ok, reason, l, m)
    ensures Did(L.ApplyTx(c, l, tx, height), ok, reason, l,
                if ok then m.(nonces := m.nonces[tx.sender := tx.nonce + 1]) else m)
  {
    hide Effect, Unauthorized, Nonce;
  }

  /** The bookkeeping, field by field. */
  lemma BookkeepIs(l: Ledger, hv: int, height: int)
    ensures var m := Bookkeep(l, hv, height);
            var streak := if Supermajority(l) then l.streak + 1 else 0;
            && m == l.(version := m.version, signals := m.signals, streak := m.streak, pending := m.pending)
            && (hv > l.version ==> m.version == hv && m.signals == {} && m.streak == 0 && m.pending == None)
            && (hv <= l.version ==> m.version == l.version && m.signals == l.signals)
            && (hv <= l.version && (l.pending.Some? || l.signals == {}) ==> m == l)
            && (hv <= l.version && l.pending.None? && l.signals != {} ==>
                  && m.streak == streak
                  && m.pending == if streak >= UPGRADE_WINDOW then Some(height + UPGRADE_DELAY) else None)
  {
    hide Supermajority;
  }

  lemma SettleIs(l: Ledger, h: Header, contributors: Table)
    ensures Settle(l, h, contributors)
         == Reward(Bookkeep(l, h.protocolVersion, h.height), h.reward, contributors)
              .(checkpoint := h.newCheckpoint, retarget := FoldRetarget(l, h))
  {
    hide Reward, Bookkeep, FoldRetarget;
  }

  lemma BlockIs(c: Crypto, l: Ledger, b: Block, contributors: Table)
    ensures var r, txs := L.ApplyBlock(c, l, b, contributors),
                          ApplyTxs(c, Mature(l, b.header.height), b.txs, b.header.height);
            && (b.header.txRoot != b.txs ==> r == Err("header.tx_root != tx_root(block.txs)"))
            && (b.header.txRoot == b.txs && txs.Err? ==> r == Err(txs.reason))
            && (b.header.txRoot == b.txs && txs.Ok? && NegativeWeight(contributors) ==>
                  r == Err("negative contributor weight"))
            && (b.header.txRoot == b.txs && txs.Ok? && !NegativeWeight(contributors) ==>
                  r == Ok(Settle(txs.value, b.header, contributors)))
  {
    hide ApplyTxs, Mature, NegativeWeight, Settle;
  }

  lemma KeepsRetarget(c: Crypto, l: Ledger, b: Block)
    requires ApplyTxs(c, Mature(l, b.header.height), b.txs, b.header.height).Ok?
    ensures var m := ApplyTxs(c, Mature(l, b.header.height), b.txs, b.header.height).value;
            m.retargetEnabled == l.retargetEnabled && m.retarget == l.retarget
  {
    TxsKeepChain(c, Mature(l, b.header.height), b.txs, b.header.height);
    hide ApplyTxs, Mature;
  }

  lemma ShareIsPositive(reward: real, agg: Table, a: Addr)
    requires Sum(agg) > 0.0 && reward > 0.0 && a in agg && agg[a] > 0.0
    ensures Get(Shares(reward, agg), a) == Mul(reward, agg[a] / Sum(agg)) > 0.0
  {
    var w := agg[a] / Sum(agg);
    assert w > 0.0;
  }

  lemma SumOverNone(m: Table)
    ensures SumOver({}, m) == 0.0
  {
  }

  /** Balances after paying the shares of the accounts in `done`. */
  function Paid(bal: Table, shares: Table, done: set<Addr>): Table {
    map a | a in bal.Keys + done :: Get(bal, a) + if a in done then Get(shares, a) else 0.0
  }

  lemma PaidNone(bal: Table, shares: Table)
    ensures Paid(bal, shares, {}) == bal
  {
    assert Paid(bal, shares, {}).Keys == bal.Keys;
  }

  lemma PaidStep(bal: Table, shares: Table, done: set<Addr>, a: Addr)
    requires a !in done
    ensures Paid(bal, shares, done + {a}) == Credit(Paid(bal, shares, done), a, Get(shares, a))
  {
    var x, y := Paid(bal, shares, done + {a}), Credit(Paid(bal, shares, done), a, Get(shares, a));
    assert x.Keys == y.Keys;
  }

  lemma PaidAll(bal: Table, reward: real, agg: Table)
    requires Sum(agg) > 0.0
    ensures var shares := Shares(reward, agg);
            Paid(bal, shares, agg.Keys) == map a | a in bal.Keys + shares.Keys :: Get(bal, a) + Get(shares, a)
  {
    var shares := Shares(reward, agg);
    assert shares.Keys == agg.Keys;
    hide Shares;
    hide SumOver;
    var x, y := Paid(bal, shares, agg.Keys), map a | a in bal.Keys + shares.Keys :: Get(bal, a) + Get(shares, a);
    assert x.Keys == y.Keys;
  }

  function Credited(m: Table, a: Addr, q: seq<Entry>): Table {
    if q == [] then m else Credit(Credited(m, a, q[..|q| - 1]), a, q[|q| - 1].amount)
  }

  lemma CreditedSnoc(m: Table, a: Addr, q: seq<Entry>, e: Entry)
    ensures Credited(m, a, q + [e]) == Credit(Credited(m, a, q), a, e.amount)
  {
    assert (q + [e])[..|q|] == q;
  }

  lemma {:induction false} CreditedSum(m: Table, a: Addr, q: seq<Entry>)
    ensures Credited(m, a, q) == if q == [] then m else m[a := Get(m, a) + QueueSum(q)]
  {
    if q != [] {
      CreditedSum(m, a, q[..|q| - 1]);
    }
  }

  /** Maturing only the accounts in `done`: the state of the loop. */
  ghost function MaturePart(l: Ledger, height: int, done: set<Addr>): (m: Ledger)
    ensures m == l.(bal := m.bal, unbonding := m.unbonding)
  {
    l.(bal := map a | a in l.bal.Keys + ReleasingAddrs(l, height) * done ::
                Get(l.bal, a) + (if a in done then QueueSum(Released(Queue(l, a), height)) else 0.0),
       unbonding := map a | a in l.unbonding && (a in done ==> Kept(l.unbonding[a], height) != []) ::
                      if a in done then Kept(l.unbonding[a], height) else l.unbonding[a])
  }

  /** Maturing one account. */
  function MatureOne(l: Ledger, a: Addr, height: int): Ledger {
    l.(bal := Credited(l.bal, a, Released(Queue(l, a), height)),
       unbonding := SetQueue(l.unbonding, a, Kept(Queue(l, a), height)))
  }

  lemma MaturePartNone(l: Ledger, height: int)
    ensures MaturePart(l, height, {}) == l
  {
    assert MaturePart(l, height, {}).bal == l.bal;
    assert MaturePart(l, height, {}).unbonding == l.unbonding;
  }

  lemma MaturePartAll(l: Ledger, height: int)
    ensures MaturePart(l, height, l.unbonding.Keys) == Mature(l, height)
  {
    MaturePartAllQueues(l, height);
    MaturePartAllBalances(l, height);
    hide MaturePart;
    hide Mature;
  }

  lemma MaturePartAllQueues(l: Ledger, height: int)
    ensures MaturePart(l, height, l.unbonding.Keys).unbonding == Mature(l, height).unbonding
  {
    hide Kept;
  }

  lemma MaturePartAllBalances(l: Ledger, height: int)
    ensures MaturePart(l, height, l.unbonding.Keys).bal == Mature(l, height).bal
  {
    assert Released([], height) == [] && QueueSum([]) == 0.0;
    hide Released;
    hide QueueSum;
    hide Kept;
    var part, all := MaturePart(l, height, l.unbonding.Keys).bal, Mature(l, height).bal;
    assert part.Keys == all.Keys;
    forall a | a in all ensures part[a] == all[a] {
    }
  }

  lemma MaturePartStep(l: Ledger, height: int, done: set<Addr>, a: Addr)
    requires a in l.unbonding && a !in done && done <= l.unbonding.Keys
    ensures a in MaturePart(l, height, done).unbonding
    ensures MaturePart(l, height, done + {a}) == MatureOne(MaturePart(l, height, done), a, height)
  {
    MaturePartStepQueues(l, height, done, a);
    MaturePartStepBalances(l, height, done, a);
    hide MaturePart;
    hide Credited;
    hide Released;
    hide Kept;
    hide SetQueue;
  }

  lemma MaturePartStepQueues(l: Ledger, height: int, done: set<Addr>, a: Addr)
    requires a in l.unbonding && a !in done
    ensures var part := MaturePart(l, height, done).unbonding;
            && a in part && part[a] == l.unbonding[a]
            && MaturePart(l, height, done + {a}).unbonding == SetQueue(part, a, Kept(l.unbonding[a], height))
  {
    hide Kept;
    hide Released;
    hide QueueSum;
  }

  lemma MaturePartReads(l: Ledger, height: int, done: set<Addr>, b: Addr)
    requires done <= l.unbonding.Keys
    ensures var part := MaturePart(l, height, done).bal;
            && (b in part <==> b in l.bal || (b in done && Released(l.unbonding[b], height) != []))
            && Get(part, b) == Get(l.bal, b) + if b in done then QueueSum(Released(l.unbonding[b], height)) else 0.0
  {
    assert QueueSum([]) == 0.0;
    hide Released;
    hide Kept;
    hide QueueSum;
  }

  lemma MaturePartStepAt(l: Ledger, height: int, done: set<Addr>, a: Addr, b: Addr)
    requires a in l.unbonding && a !in done && done <= l.unbonding.Keys
    ensures var part, next := MaturePart(l, height, done).bal, MaturePart(l, height, done + {a}).bal;
            var freed := Released(l.unbonding[a], height);
            && (b in next <==> b in part || (b == a && freed != []))
            && Get(next, b) == Get(part, b) + if b == a then QueueSum(freed) else 0.0
  {
    MaturePartReads(l, height, done, b);
    MaturePartReads(l, height, done + {a}, b);
    hide MaturePart;
    hide Released;
    hide QueueSum;
  }

  lemma NoEntries()
    ensures QueueSum([]) == 0.0
  {
  }

  lemma MaturePartStepBalances(l: Ledger, height: int, done: set<Addr>, a: Addr)
    requires a in l.unbonding && a !in done && done <= l.unbonding.Keys
    ensures MaturePart(l, height, done + {a}).bal
         == Credited(MaturePart(l, height, done).bal, a, Released(l.unbonding[a], height))
  {
    hide *;
    var part, next := MaturePart(l, height, done).bal, MaturePart(l, height, done + {a}).bal;
    var freed := Released(l.unbonding[a], height);
    var x, touched := QueueSum(freed), freed != [];
    CreditedSum(part, a, freed);
    NoEntries();
    forall b: Addr ensures GrowsAt(part, next, a, x, touched, b) {
      MaturePartStepAt(l, height, done, a, b);
      GrowsAtIntro(part, next, a, x, touched, b);
    }
    TableGrows(part, next, a, x, touched);
  }

  /** Entry b of `next` against `part`, where account a gained x. */
  predicate GrowsAt(part: Table, next: Table, a: Addr, x: real, touched: bool, b: Addr) {
    && (b in next <==> b in part || (b == a && touched))
    && Get(next, b) == Get(part, b) + if b == a then x else 0.0
  }

  lemma GrowsAtIntro(part: Table, next: Table, a: Addr, x: real, touched: bool, b: Addr)
    requires b in next <==> b in part || (b == a && touched)
    requires Get(next, b) == Get(part, b) + if b == a then x else 0.0
    ensures GrowsAt(part, next, a, x, touched, b)
  {
  }

  lemma TableGrows(part: Table, next: Table, a: Addr, x: real, touched: bool)
    requires forall b: Addr :: GrowsAt(part, next, a, x, touched, b)
    requires !touched ==> x == 0.0
    ensures next == if touched then part[a := Get(part, a) + x] else part
  {
    var after := if touched then part[a := Get(part, a) + x] else part;
    forall b | b in next ensures b in after && next[b] == after[b] {
      assert GrowsAt(part, next, a, x, touched, b);
    }
    forall b | b in after ensures b in next {
      assert GrowsAt(part, next, a, x, touched, b);
    }
    assert next.Keys == after.Keys;
  }
}
