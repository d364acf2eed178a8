/** Live protocol upgrades over whole runs: lock-in, activation and spacing. */
module LedgerUpgrade {
  import opened Prelude
  import opened Blocks
  import opened Sums
  import opened Ledger
  import opened LedgerSafety

  /** A run of blocks at consecutive heights from `h0`, each carrying the version its parent demands.
      states[i + 1] is the state after block i, at height h0 + i. */
  ghost predicate IsRun(c: Crypto, h0: int, states: seq<Ledger>, blocks: seq<PaidBlock>) {
    && |states| == |blocks| + 1
    && (blocks == [] ||
        var n := |blocks| - 1;
        && IsRun(c, h0, states[..n + 1], blocks[..n])
        && StepsTo(c, states[n], blocks[n], h0 + n, states[n + 1]))
  }

  ghost predicate StepsTo(c: Crypto, l: Ledger, b: PaidBlock, h: int, m: Ledger) {
    && b.0.header.height == h
    && b.0.header.protocolVersion == ChildVersion(l, h)
    && ApplyBlock(c, l, b.0, b.1) == Ok(m)
  }

  /** No upgrade campaign is under way. */
  predicate Idle(l: Ledger) { l.signals == {} && l.streak == 0 && l.pending.None? }

  /** How many of the last blocks up to state i held the supermajority without a version change in between. */
  ghost function Held(states: seq<Ledger>, i: nat): nat
    requires i < |states|
  {
    if i == 0 || states[i].version != states[i - 1].version || !Supermajority(states[i]) then 0
    else Held(states, i - 1) + 1
  }

  lemma {:induction false} HeldMeans(states: seq<Ledger>, i: nat, k: nat)
    requires i < |states| && k < Held(states, i)
    ensures k < i && Supermajority(states[i - k]) && states[i - k].version == states[i - k - 1].version
  {
    hide Supermajority;
    if k > 0 {
      HeldMeans(states, i - 1, k - 1);
    }
  }

  lemma {:induction false} HeldSinceChange(states: seq<Ledger>, a: nat, i: nat)
    requires 0 < a <= i < |states| && states[a].version != states[a - 1].version
    ensures Held(states, i) <= i - a
  {
    hide Supermajority;
    if a < i {
      HeldSinceChange(states, a, i - 1);
    }
  }

  lemma {:induction false} HeldBounded(states: seq<Ledger>, i: nat)
    requires i < |states|
    ensures Held(states, i) <= i
  {
    hide Supermajority;
    if i > 0 {
      HeldBounded(states, i - 1);
    }
  }

  // ---------------------------------------------------------------- one block

  lemma NoSignalsNoMajority(l: Ledger)
    requires l.signals == {}
    ensures !Supermajority(l)
  {
  }

  lemma MajoritySees(l: Ledger, m: Ledger)
    requires l.staked == m.staked && l.signals == m.signals
    ensures Supermajority(l) == Supermajority(m)
  {
  }

  /** What one block does to the upgrade state, told by the state it leaves. */
  predicate Quiet(l: Ledger) { l.signals == {} ==> l.streak == 0 }

  ghost predicate UpgradeStep(l: Ledger, m: Ledger, h: int) {
    if l.pending.Some? && h >= l.pending.value then
      m.version == l.version + 1 && Idle(m)
    else
      && m.version == l.version
      && Quiet(m)
      && (l.pending.Some? ==> m.pending == l.pending)
      && (l.pending.None? ==>
            && m.streak == (if Supermajority(m) then l.streak + 1 else 0)
            && m.pending == (if m.streak >= UPGRADE_WINDOW then Some(h + UPGRADE_DELAY) else None))
  }

  lemma BookkeepMajority(l: Ledger, hv: int, h: int)
    ensures var m := Bookkeep(l, hv, h);
            && m.staked == l.staked
            && (hv <= l.version ==> m.signals == l.signals && Supermajority(m) == Supermajority(l))
            && (l.signals == {} ==> !Supermajority(l))
  {
    hide Bookkeep;
    hide Supermajority;
    if l.signals == {} {
      NoSignalsNoMajority(l);
    }
    if hv <= l.version {
      MajoritySees(l, Bookkeep(l, hv, h));
    }
  }

  /** `parent` before the block, `l` after its transactions, `m` after the bookkeeping. */
  lemma BookkeepStep(parent: Ledger, l: Ledger, m: Ledger, h: int)
    requires Quiet(parent) && SameChain(parent, l) && parent.signals <= l.signals
    requires m == Bookkeep(l, ChildVersion(parent, h), h)
    ensures UpgradeStep(parent, m, h) && m.staked == l.staked
  {
    hide Supermajority;
    BookkeepMajority(l, ChildVersion(parent, h), h);
  }

  lemma SettleStep(l: Ledger, h: Header, contributors: Table)
    ensures var m, booked := Settle(l, h, contributors), Bookkeep(l, h.protocolVersion, h.height);
            && m.version == booked.version && m.signals == booked.signals && m.streak == booked.streak
            && m.pending == booked.pending && m.staked == booked.staked
  {
    hide Bookkeep;
  }

  lemma BlockStep(c: Crypto, parent: Ledger, b: Block, contributors: Table)
    requires Quiet(parent) && ApplyBlock(c, parent, b, contributors).Ok?
    requires b.header.protocolVersion == ChildVersion(parent, b.header.height)
    ensures UpgradeStep(parent, ApplyBlock(c, parent, b, contributors).value, b.header.height)
  {
    hide *;
    var l := AfterTxs(c, parent, b, contributors);
    BookkeepStep(parent, l, Bookkeep(l, b.header.protocolVersion, b.header.height), b.header.height);
    SettleStep(l, b.header, contributors);
    SameStep(parent, Bookkeep(l, b.header.protocolVersion, b.header.height), Settle(l, b.header, contributors),
             b.header.height);
  }

  /** The ledger a block's transactions leave, from which it is settled. */
  lemma AfterTxs(c: Crypto, parent: Ledger, b: Block, contributors: Table) returns (l: Ledger)
    requires ApplyBlock(c, parent, b, contributors).Ok?
    ensures SameChain(parent, l) && parent.signals <= l.signals
    ensures ApplyBlock(c, parent, b, contributors).value == Settle(l, b.header, contributors)
  {
    var matured := Mature(parent, b.header.height);
    TxsKeepChain(c, matured, b.txs, b.header.height);
    l := ApplyTxs(c, matured, b.txs, b.header.height).value;
    hide Mature, ApplyTxs, Settle;
  }

  /** The step reads only these fields of the state it leaves. */
  lemma SameStep(l: Ledger, m: Ledger, n: Ledger, h: int)
    requires UpgradeStep(l, m, h)
    requires n.version == m.version && n.signals == m.signals && n.streak == m.streak && n.pending == m.pending
    requires n.staked == m.staked
    ensures UpgradeStep(l, n, h)
  {
    MajoritySees(m, n);
    hide Supermajority;
  }

  // ---------------------------------------------------------------- every reachable state

  /** The state index at which a pending activation was scheduled. */
  function LockIndex(h0: int, activation: int): int { activation - UPGRADE_DELAY - h0 + 1 }

  ghost predicate Locked(h0: int, states: seq<Ledger>, i: nat)
    requires i < |states|
  {
    states[i].pending.Some? ==>
      var g := LockIndex(h0, states[i].pending.value);
      && UPGRADE_WINDOW <= g <= i < g + UPGRADE_DELAY
      && Held(states, g) == UPGRADE_WINDOW
      && states[g - 1].pending.None?
      && (forall k :: g <= k <= i ==> states[k].pending == states[i].pending && states[k].version == states[g].version)
  }

  ghost predicate Tracked(h0: int, states: seq<Ledger>, i: nat)
    requires i < |states|
  {
    && Quiet(states[i])
    && (states[i].pending.None? ==> states[i].streak == Held(states, i) < UPGRADE_WINDOW)
    && Locked(h0, states, i)
  }

  lemma LockedStep(h0: int, states: seq<Ledger>, i: nat)
    requires i + 1 < |states| && Tracked(h0, states, i) && UpgradeStep(states[i], states[i + 1], h0 + i)
    ensures Tracked(h0, states, i + 1)
  {
    var l, m := states[i], states[i + 1];
    hide Supermajority;
    if l.pending.None? {
      HeldBounded(states, i + 1);
      if m.pending.Some? {
        assert LockIndex(h0, m.pending.value) == i + 1;
      }
    } else if h0 + i < l.pending.value {
      assert m.pending == l.pending && m.version == l.version;
    }
  }

  lemma {:induction false} RunStep(c: Crypto, h0: int, states: seq<Ledger>, blocks: seq<PaidBlock>, i: nat)
    requires IsRun(c, h0, states, blocks) && i < |blocks| && Quiet(states[i])
    ensures blocks[i].0.header.height == h0 + i
    ensures UpgradeStep(states[i], states[i + 1], h0 + i)
  {
    hide ApplyBlock;
    hide UpgradeStep;
    hide ChildVersion;
    var n := |blocks| - 1;
    if i < n {
      RunStep(c, h0, states[..n + 1], blocks[..n], i);
    } else {
      BlockStep(c, states[i], blocks[i].0, blocks[i].1);
    }
  }

  lemma TrackedStart(h0: int, states: seq<Ledger>)
    requires |states| > 0 && Idle(states[0])
    ensures Tracked(h0, states, 0)
  {
    hide Supermajority;
  }

  /** In every state of every run the streak counts exactly the consecutive supermajority blocks since the last
      activation, and a pending activation was scheduled by a full window of them. */
  lemma {:induction false} RunTracked(c: Crypto, h0: int, states: seq<Ledger>, blocks: seq<PaidBlock>, i: nat)
    requires IsRun(c, h0, states, blocks) && Idle(states[0]) && i < |states|
    ensures Tracked(h0, states, i)
  {
    hide StepsTo;
    hide UpgradeStep;
    hide Tracked;
    if i == 0 {
      TrackedStart(h0, states);
    } else {
      RunTracked(c, h0, states, blocks, i - 1);
      TrackedQuiet(h0, states, i - 1);
      RunStep(c, h0, states, blocks, i - 1);
      LockedStep(h0, states, i - 1);
    }
  }

  lemma TrackedQuiet(h0: int, states: seq<Ledger>, i: nat)
    requires i < |states| && Tracked(h0, states, i)
    ensures Quiet(states[i])
  {
  }

  lemma StepAt(c: Crypto, h0: int, states: seq<Ledger>, blocks: seq<PaidBlock>, i: nat)
    requires IsRun(c, h0, states, blocks) && Idle(states[0]) && i < |blocks|
    ensures blocks[i].0.header.height == h0 + i
    ensures Tracked(h0, states, i) && UpgradeStep(states[i], states[i + 1], h0 + i)
    ensures Tracked(h0, states, i + 1)
  {
    hide UpgradeStep;
    hide Tracked;
    hide StepsTo;
    RunTracked(c, h0, states, blocks, i);
    RunTracked(c, h0, states, blocks, i + 1);
    TrackedQuiet(h0, states, i);
    RunStep(c, h0, states, blocks, i);
  }

  /** A run from a state with no campaign under way. */
  ghost predicate FreshRun(c: Crypto, h0: int, states: seq<Ledger>, blocks: seq<PaidBlock>) {
    IsRun(c, h0, states, blocks) && Idle(states[0])
  }

  /** Lock-in happens at a block exactly when the supermajority has then held for the full window. */
  lemma LockInExactly(c: Crypto, h0: int, states: seq<Ledger>, blocks: seq<PaidBlock>, i: nat)
    requires i < |blocks| && |states| == |blocks| + 1
    requires FreshRun(c, h0, states, blocks) && states[i].pending.None?
    ensures states[i + 1].pending.Some? <==> Held(states, i + 1) == 3
    ensures states[i + 1].pending.Some? ==> states[i + 1].pending.value == h0 + i + 3
  {
    StepAt(c, h0, states, blocks, i);
    hide Supermajority;
    hide StepsTo;
  }

  /** A full window of supermajority blocks, with no version change among them, ends at state g. */
  ghost predicate WindowHeld(states: seq<Ledger>, g: int) {
    && 3 <= g < |states|
    && Held(states, g) == 3
    && (forall k :: g - 3 < k <= g ==> Supermajority(states[k]))
  }

  lemma ActivationIndex(h0: int, states: seq<Ledger>, i: nat)
    requires i + 1 < |states| && Tracked(h0, states, i) && UpgradeStep(states[i], states[i + 1], h0 + i)
    ensures states[i + 1].version != states[i].version <==> states[i].pending == Some(h0 + i)
    ensures states[i + 1].version != states[i].version ==>
              states[i + 1].version == states[i].version + 1 && WindowHeld(states, i - 2)
  {
    hide Supermajority;
    if states[i + 1].version != states[i].version {
      var g := i + 1 - UPGRADE_DELAY;
      assert g == LockIndex(h0, states[i].pending.value);
      forall k | g - UPGRADE_WINDOW < k <= g ensures Supermajority(states[k]) {
        HeldMeans(states, g, g - k);
      }
    }
  }

  /** The version changes only by one, only at the height exactly three after a block that completed three
      consecutive blocks whose live signalled stake was at least two thirds. */
  lemma ActivationExactly(c: Crypto, h0: int, states: seq<Ledger>, blocks: seq<PaidBlock>, i: nat)
    requires i < |blocks| && |states| == |blocks| + 1
    requires FreshRun(c, h0, states, blocks)
    ensures states[i + 1].version != states[i].version <==> states[i].pending == Some(h0 + i)
    ensures states[i + 1].version != states[i].version ==>
              states[i + 1].version == states[i].version + 1 && WindowHeld(states, i - 2)
  {
    StepAt(c, h0, states, blocks, i);
    hide *;
    ActivationIndex(h0, states, i);
  }

  lemma ActivationsApart(h0: int, states: seq<Ledger>, i: nat, j: nat)
    requires i < j && j + 1 < |states| && Tracked(h0, states, j) && Tracked(h0, states, i)
    requires UpgradeStep(states[i], states[i + 1], h0 + i) && UpgradeStep(states[j], states[j + 1], h0 + j)
    requires states[i + 1].version != states[i].version && states[j + 1].version != states[j].version
    ensures j - i >= 6
  {
    hide Supermajority;
    var g := LockIndex(h0, states[j].pending.value);
    if g > i {
      HeldSinceChange(states, i + 1, g);
    }
  }

  /** Two activations in one run are at least six heights apart. */
  lemma ActivationsSpaced(c: Crypto, h0: int, states: seq<Ledger>, blocks: seq<PaidBlock>, i: nat, j: nat)
    requires i < j < |blocks| && |states| == |blocks| + 1
    requires FreshRun(c, h0, states, blocks)
    requires states[i + 1].version != states[i].version && states[j + 1].version != states[j].version
    ensures blocks[j].0.header.height - blocks[i].0.header.height >= 6
  {
    StepAt(c, h0, states, blocks, i);
    StepAt(c, h0, states, blocks, j);
    hide *;
    ActivationsApart(h0, states, i, j);
  }
}
