/** The objects of neurahash/diloco_round_authority.py: the shared bus, a candidate with its own replica, and the
    authority that drives all of them, proved against the values of module RoundAuthority. */
module RoundAuthorityState {
  import opened Prelude
  import opened Blocks
  import L = Ledger
  import LS = LedgerState
  import Q = Quorum
  import opened Settlement
  import opened SettlementState
  import opened RA = RoundAuthority
  import K = Clock

  /** In-process broadcast: everyone reads back the same lists. */
  class LoopbackBus {
    var commits: map<int, seq<K.Commit>>
    var shown: map<int, seq<K.Reveal>>

    constructor ()
      ensures commits == map[] && shown == map[]
    {
      commits, shown := map[], map[];
    }

    function Commits(round: int): seq<K.Commit>
      reads this`commits
    {
      if round in commits then commits[round] else []
    }

    function Reveals(round: int): seq<K.Reveal>
      reads this`shown
    {
      if round in shown then shown[round] else []
    }

    method PublishCommit(round: int, e: K.Commit)
      modifies this`commits
      ensures commits == old(commits)[round := old(Commits(round)) + [e]]
    {
      commits := commits[round := Commits(round) + [e]];
    }

    method PublishReveal(round: int, e: K.Reveal)
      modifies this`shown
      ensures shown == old(shown)[round := old(Reveals(round)) + [e]]
    {
      shown := shown[round := Reveals(round) + [e]];
    }

    method PublishCommits(round: int, es: seq<K.Commit>)
      modifies this`commits
      ensures Commits(round) == old(Commits(round)) + es && commits.Keys <= old(commits.Keys) + {round}
    {
      for i := 0 to |es|
        invariant Commits(round) == old(Commits(round)) + es[..i] && commits.Keys <= old(commits.Keys) + {round}
      {
        PublishCommit(round, es[i]);
      }
      assert es[..|es|] == es;
    }

    method PublishReveals(round: int, es: seq<K.Reveal>)
      modifies this`shown
      ensures Reveals(round) == old(Reveals(round)) + es && shown.Keys <= old(shown.Keys) + {round}
    {
      for i := 0 to |es|
        invariant Reveals(round) == old(Reveals(round)) + es[..i] && shown.Keys <= old(shown.Keys) + {round}
      {
        PublishReveal(round, es[i]);
      }
      assert es[..|es|] == es;
    }
  }

  class Candidate {
    const identity: Addr
    const chain: ChainSettlement
    var sealed: map<int, string>
    var lastAgreement: Option<K.Agreement>

    constructor (crypto: Crypto, identity: Addr, coord: Addr, checkpoint: string)
      ensures this.identity == identity && sealed == map[] && lastAgreement == None
      ensures fresh(chain) && chain.crypto == crypto && chain.Valid()
      ensures chain.Value() == NewChain(coord, true, checkpoint)
    {
      this.identity := identity;
      chain := new ChainSettlement(crypto, coord, true, checkpoint);
      sealed, lastAgreement := map[], None;
    }

    /** Seal a nonce for the round; the public envelope hides it. */
    method MakeRoundCommit(h: K.Hashes, round: int, nonce: string) returns (e: K.Commit)
      requires h.decode(nonce).Some?
      modifies this`sealed
      ensures sealed == old(sealed)[round := nonce]
      ensures e == K.Commit(round, identity, K.Commitment(round, identity, h.decode(nonce).value))
    {
      sealed := sealed[round := nonce];
      e := K.Commit(round, identity, K.CommitDigest(h, round, identity, nonce).value);
    }

    method RoundReveal(round: int) returns (e: K.Reveal)
      requires round in sealed
      ensures e == K.Reveal(round, identity, sealed[round])
    {
      e := K.Reveal(round, identity, sealed[round]);
    }

    method Agree(h: K.Hashes, round: int, bus: LoopbackBus) returns (a: Result<K.Agreement>)
      modifies this`lastAgreement
      ensures a.Ok? <==> K.RoundFits(round)
      ensures a.Ok? ==> a.value == K.Agree(h, bus.Commits(round), bus.Reveals(round), round) && lastAgreement == Some(a.value)
    {
      a := K.AgreeRound(h, bus.Commits(round), bus.Reveals(round), round);
      if a.Ok? {
        lastAgreement := Some(a.value);
      }
    }

    /** Settle the round's block on this replica and broadcast it with a signed claim. */
    method Propose(round: int, job: Job, quorum: Quorum, turn: Turn) returns (e: Envelope)
      requires chain.Valid() && chain.canSign && SignsCorrectly(chain.crypto)
      modifies chain
      ensures chain.Valid()
      ensures var r := Proposed(chain.crypto, old(chain.Value()), job, round, quorum);
              r.Ok? && chain.Value() == r.value
              && e == Broadcast(chain.crypto, identity, chain.blocks[|chain.blocks| - 1], round, turn)
    {
      hide LS.View, Settled, InSync;
      SettleNeverFails(chain.crypto, chain.Value(), job, round, quorum);
      var credited := chain.Settle(round, job.reward, map[job.recipient := 1.0], 1000 + round, Some(quorum));
      var rec := chain.blocks[|chain.blocks| - 1];
      var blockHash := HashOf(rec.header);
      var sig := chain.crypto.sign(identity, ProposerClaim(round, identity, blockHash));
      e := Envelope(round, identity, Some(rec), Some(Claim(round, identity, blockHash, sig)), turn.view, turn.timeouts);
    }

    /** `accept`: every check on the envelope comes before the replica is touched. */
    method Accept(e: Envelope, order: seq<Addr>, down: set<Addr>, timeoutM: Option<int>, roster: Option<seq<Addr>>)
      returns (ok: bool)
      requires chain.Valid()
      modifies chain
      ensures chain.Valid()
      ensures match Accepted(chain.crypto, old(chain.Value()), e, order, down, timeoutM, roster)
              case Ok(ch) => ok && chain.Value() == ch
              case Err(_) => !ok && chain.Value() == old(chain.Value())
    {
      hide LS.View, Extended, InSync;
      var ready := CheckEnvelope(chain.crypto, e, order, down, timeoutM, roster);
      if !ready {
        return false;
      }
      var failure := chain.Extend(e.block.value);
      return failure.None?;
    }
  }

  lemma SettleNeverFails(c: Crypto, ch: Chain, job: Job, round: int, q: Quorum)
    requires SignsCorrectly(c) && InSync(c, ch) && ch.canSign
    ensures Proposed(c, ch, job, round, q).Ok?
  {
    SettleSucceeds(c, ch, round, job.reward, map[job.recipient := 1.0], 1000 + round, Some(q));
  }

  /** The checks of `accept` before the chain's own, in the source's order. */
  method CheckEnvelope(c: Crypto, e: Envelope, order: seq<Addr>, down: set<Addr>, timeoutM: Option<int>,
                       roster: Option<seq<Addr>>) returns (ok: bool)
    ensures ok <==> EnvelopeOk(c, e, order, down, timeoutM, roster)
  {
    hide TimeoutApproved;
    var who := RecoverProposer(c, e.claim);
    if who.None? {
      return false;
    }
    if e.view.Some? {
      var view := e.view.value;
      if !(0 <= view < |order|) || who.value != order[view] {
        return false;
      }
      var r := if roster.Some? then roster.value else order;
      var m := Threshold(timeoutM, r);
      for v := 0 to view
        invariant forall u :: 0 <= u < v ==> TimeoutApproved(c, r, m, e.round, order[u], u, Votes(e, u))
      {
        var approved := VerifyTimeoutQuorum(c, Votes(e, v), r, m, e.round, order[v], v);
        if !approved {
          return false;
        }
      }
    } else {
      var expected := FindProposer(order, down);
      if expected != who {
        return false;
      }
    }
    if e.block.None? || e.claim.value.blockHash != HashOf(e.block.value.header) {
      return false;
    }
    return e.round == e.block.value.header.height == e.claim.value.round;
  }

  /** What one driven round needs from outside: fresh nonces, anything injected on the bus, who is down, the pay. */
  datatype Plan = Plan(nonces: seq<string>, extraCommits: seq<K.Commit>, extraReveals: seq<K.Reveal>, down: set<Addr>,
                       agreedFailover: bool, reward: real, recipient: Addr, cid: string)

  ghost predicate PlanOk(h: K.Hashes, n: nat, plan: Plan) {
    |plan.nonces| == n && forall i :: 0 <= i < n ==> h.decode(plan.nonces[i]).Some?
  }

  /** The agreement every node reaches over the bus. */
  ghost function AgreedOn(h: K.Hashes, identities: seq<Addr>, plan: Plan, round: int): K.Agreement
    requires PlanOk(h, |identities|, plan)
  {
    K.Agree(h, RoundCommits(h, identities, plan.nonces, round) + plan.extraCommits,
            RoundReveals(identities, plan.nonces, round) + plan.extraReveals, round)
  }

  ghost function JobOf(h: K.Hashes, identities: seq<Addr>, plan: Plan, round: int): Job
    requires PlanOk(h, |identities|, plan)
  {
    Job(AgreedOn(h, identities, plan, round).order, plan.down, plan.agreedFailover, plan.reward, plan.recipient, plan.cid)
  }

  ghost function JobsOf(h: K.Hashes, identities: seq<Addr>, plans: seq<Plan>, start: int): (r: seq<Job>)
    requires forall k :: 0 <= k < |plans| ==> PlanOk(h, |identities|, plans[k])
    ensures |r| == |plans|
  {
    if plans == [] then []
    else JobsOf(h, identities, plans[..|plans| - 1], start)
         + [JobOf(h, identities, plans[|plans| - 1], start + |plans| - 1)]
  }

  class RoundAuthority {
    const crypto: Crypto
    const hashes: K.Hashes
    const candidates: seq<Candidate>
    const identities: seq<Addr>
    const validators: seq<Addr>
    const quorumM: int
    const graceTicks: int
    const timeoutM: int
    const bus: LoopbackBus

    constructor (crypto: Crypto, hashes: K.Hashes, candidates: seq<Candidate>, validators: seq<Addr>, quorumM: int,
                 graceTicks: int, timeoutM: Option<int>)
      ensures this.crypto == crypto && this.hashes == hashes && this.candidates == candidates
      ensures this.validators == validators && this.quorumM == quorumM && this.graceTicks == graceTicks
      ensures this.timeoutM == if timeoutM.Some? then timeoutM.value else |candidates| / 2 + 1
      ensures |identities| == |candidates| && forall i :: 0 <= i < |candidates| ==> identities[i] == candidates[i].identity
      ensures fresh(bus) && bus.commits == map[] && bus.shown == map[]
    {
      this.crypto, this.hashes, this.candidates, this.validators := crypto, hashes, candidates, validators;
      this.identities := seq(|candidates|, i requires 0 <= i < |candidates| => candidates[i].identity);
      this.quorumM, this.graceTicks := quorumM, graceTicks;
      this.timeoutM := if timeoutM.Some? then timeoutM.value else |candidates| / 2 + 1;
      bus := new LoopbackBus();
    }

    /** The authority as its callers build it: one candidate is refused. */
    static method Create(crypto: Crypto, hashes: K.Hashes, candidates: seq<Candidate>, validators: seq<Addr>, quorumM: int,
                         graceTicks: int, timeoutM: Option<int>) returns (r: Result<RoundAuthority>)
      ensures r.Err? <==> |candidates| < 2
      ensures r.Ok? ==>
                && fresh(r.value) && fresh(r.value.bus)
                && r.value.crypto == crypto && r.value.hashes == hashes && r.value.candidates == candidates
                && r.value.validators == validators && r.value.quorumM == quorumM && r.value.graceTicks == graceTicks
                && r.value.timeoutM == (if timeoutM.Some? then timeoutM.value else |candidates| / 2 + 1)
                && |r.value.identities| == |candidates|
                && (forall i :: 0 <= i < |candidates| ==> r.value.identities[i] == candidates[i].identity)
                && r.value.bus.commits == map[] && r.value.bus.shown == map[]
    {
      if |candidates| < 2 {
        return Err("RoundAuthority needs >= 2 candidate coordinators");
      }
      var ra := new RoundAuthority(crypto, hashes, candidates, validators, quorumM, graceTicks, timeoutM);
      return Ok(ra);
    }

    /** Every candidate has a chain of its own, in a sound state; the fixed parameters are `f`'s. */
    ghost predicate Holds(f: Fleet)
      reads set i | 0 <= i < |candidates| :: candidates[i].chain
      reads set i | 0 <= i < |candidates| :: candidates[i].chain.state
      reads set i, o | 0 <= i < |candidates| && o in candidates[i].chain.state.unbonding.Values :: o
    {
      && f.identities == identities && f.validators == validators && f.quorumM == quorumM && f.timeoutM == timeoutM
      && |identities| == |candidates| == |f.replicas|
      && (forall i :: 0 <= i < |candidates| ==> candidates[i].identity == identities[i])
      && (forall i, j :: 0 <= i < j < |candidates| ==> candidates[i].chain != candidates[j].chain)
      && (forall i :: 0 <= i < |candidates| ==>
            && candidates[i].chain.crypto == crypto && candidates[i].chain.Valid()
            && candidates[i].chain.Value() == f.replicas[i])
    }

    /** The observers' timeout votes of one view. */
    method CollectVotes(job: Job, round: int, view: nat) returns (votes: seq<Sig>)
      requires view < |job.order|
      ensures votes == TimeoutVotes(crypto, identities, job, round, view)
    {
      votes := [];
      for i := 0 to |identities|
        invariant votes == TimeoutVotes(crypto, identities[..i], job, round, view)
      {
        assert identities[..i + 1][..i] == identities[..i];
        var a := identities[i];
        if a in job.order && a != job.order[view] && a !in job.down {
          votes := votes + [crypto.sign(a, TimeoutVote(round, job.order[view], view))];
        }
      }
      assert identities[..|identities|] == identities;
    }

    /** The `while view` loop: ticks count the full grace period of every stalled view and one for the producer. */
    method WalkViews(job: Job, round: int, ghost f: Fleet) returns (r: Result<Elected>, ticks: int)
      requires f.identities == identities && f.timeoutM == timeoutM
      ensures r == Walk(crypto, f, job, round, 0, map[])
      ensures r.Ok? ==> ticks == r.value.view * graceTicks + 1
    {
      hide TimeoutApproved, TimeoutVotes;
      var view, timeouts := 0, map[];
      ticks := 0;
      while view < |job.order|
        invariant 0 <= view <= |job.order| && ticks == view * graceTicks
        invariant Walk(crypto, f, job, round, view, timeouts) == Walk(crypto, f, job, round, 0, map[])
      {
        if job.order[view] !in job.down {
          return Ok(Elected(view, timeouts)), ticks + 1;
        }
        var votes := CollectVotes(job, round, view);
        var approved := VerifyTimeoutQuorum(crypto, votes, job.order, timeoutM, round, job.order[view], view);
        ticks := ticks + graceTicks;
        if !approved {
          return Err("the timeout quorum did not form; chain holds"), ticks;
        }
        timeouts := timeouts[view := votes];
        view := view + 1;
      }
      return Err("every candidate in the agreed order is stalled"), ticks;
    }

    method ChooseTurn(job: Job, round: int, ghost f: Fleet) returns (r: Result<Turn>)
      requires f.identities == identities && f.timeoutM == timeoutM
      ensures r == TakeTurn(crypto, f, job, round)
    {
      if job.agreedFailover {
        hide Walk;
        var w, ticks := WalkViews(job, round, f);
        return if w.Err? then Err(w.reason) else Ok(Turn(job.order[w.value.view], Some(w.value.view), w.value.timeouts));
      }
      var a := FindProposer(job.order, job.down);
      return if a.None? then Err("no available proposer in the agreed order") else Ok(Turn(a.value, None, map[]));
    }

    method MakeQuorum(job: Job, round: int, ghost f: Fleet) returns (r: Result<Quorum>)
      requires f.validators == validators && f.quorumM == quorumM
      ensures r == BuildQuorum(crypto, f, job, round)
    {
      hide Q.Round12;
      var all := Q.AddressSet(validators);
      if !Q.StrictMajority(quorumM, |all|) || quorumM > |validators| {
        return Err("settlement threshold must be a strict majority of the staked roster");
      }
      var vote := SettleVote(Some(job.recipient), Q.Round12(job.reward), round, job.cid);
      var sigs: seq<Sig> := [];
      for i := 0 to quorumM
        invariant |sigs| == i && forall k :: 0 <= k < i ==> sigs[k] == crypto.sign(validators[k], vote)
      {
        sigs := sigs + [crypto.sign(validators[i], vote)];
      }
      assert sigs == BuildQuorum(crypto, f, job, round).value.sigs;
      return Ok(Quorum(job.cid, sigs));
    }

    /** `finish_round`: elect, produce, and let every peer verify.  From agreement it either refuses before any block
        exists, or carries every replica along. */
    method FinishRound(job: Job, round: int, ghost f: Fleet) returns (r: Result<Envelope>)
      requires SignsCorrectly(crypto) && Holds(f) && InAgreement(crypto, f)
      modifies set i | 0 <= i < |candidates| :: candidates[i].chain
      ensures match DriveRound(crypto, f, job, round)
              case Ok(g) => r.Ok? && Holds(g)
              case Err(_) => r.Err? && Holds(f)
    {
      hide *;
      RoundOutcome(crypto, f, job, round);
      HoldsMeans(f);
      var turn := ChooseTurn(job, round, f);
      if turn.Err? {
        return Err(turn.reason);
      }
      var p := IndexOf(turn.value.proposer, identities);
      if p == |identities| {
        return Err("elected signer is not a candidate");
      }
      var quorum := MakeQuorum(job, round, f);
      if quorum.Err? {
        return Err(quorum.reason);
      }
      var e := ProduceAndSpread(job, round, turn.value, p, quorum.value, f);
      return Ok(e);
    }

    lemma HoldsMeans(f: Fleet)
      requires Holds(f)
      ensures f.identities == identities && f.validators == validators
      ensures f.quorumM == quorumM && f.timeoutM == timeoutM
      ensures |identities| == |candidates| == |f.replicas|
    {
    }

    /** Every candidate has its own chain object. */
    ghost predicate OwnChains() {
      forall i, j :: 0 <= i < j < |candidates| ==> candidates[i].chain != candidates[j].chain
    }

    /** The first n replicas and the proposer's stand at `after`, the rest still at `before`. */
    ghost predicate Spread(n: nat, p: nat, before: Chain, after: Chain)
      reads set i | 0 <= i < |candidates| :: candidates[i].chain
      reads set i | 0 <= i < |candidates| :: candidates[i].chain.state
      reads set i, o | 0 <= i < |candidates| && o in candidates[i].chain.state.unbonding.Values :: o
    {
      && OwnChains()
      && forall k :: 0 <= k < |candidates| ==>
           && candidates[k].chain.crypto == crypto && candidates[k].chain.Valid()
           && candidates[k].chain.Value() == if k < n || k == p then after else before
    }

    method Deliver(e: Envelope, job: Job, i: nat, p: nat, ghost f: Fleet, ghost before: Chain, ghost after: Chain)
      requires i < |candidates| && i != p && f.timeoutM == timeoutM
      requires Spread(i, p, before, after) && AcceptTurn(crypto, f, before, e, job) == Ok(after)
      modifies candidates[i].chain
      ensures Spread(i + 1, p, before, after)
    {
      hide Accepted, InSync, LS.View, ChainSettlement.Value, ChainSettlement.Valid, LS.State.Value, LS.State.Valid;
      var ok;
      if job.agreedFailover {
        ok := candidates[i].Accept(e, job.order, {}, Some(timeoutM), Some(job.order));
      } else {
        ok := candidates[i].Accept(e, job.order, job.down, None, None);
      }
      assert ok;
    }

    method DeliverAll(e: Envelope, job: Job, p: nat, ghost f: Fleet, ghost before: Chain, ghost after: Chain)
      requires f.timeoutM == timeoutM
      requires Spread(0, p, before, after) && AcceptTurn(crypto, f, before, e, job) == Ok(after)
      modifies set i | 0 <= i < |candidates| :: candidates[i].chain
      ensures Spread(|candidates|, p, before, after)
    {
      hide AcceptTurn, Spread;
      for i := 0 to |candidates|
        invariant Spread(i, p, before, after)
      {
        if i != p {
          Deliver(e, job, i, p, f, before, after);
        } else {
          SpreadPast(i, before, after);
        }
      }
    }

    lemma SpreadPast(p: nat, before: Chain, after: Chain)
      requires Spread(p, p, before, after)
      ensures Spread(p + 1, p, before, after)
    {
    }

    lemma SpreadHolds(f: Fleet, g: Fleet, p: nat, before: Chain, after: Chain)
      requires f.identities == identities && f.validators == validators && f.quorumM == quorumM && f.timeoutM == timeoutM
      requires |identities| == |candidates| == |f.replicas| == |g.replicas|
      requires forall i :: 0 <= i < |candidates| ==> candidates[i].identity == identities[i]
      requires Spread(|candidates|, p, before, after)
      requires g == f.(replicas := g.replicas) && forall i :: 0 <= i < |g.replicas| ==> g.replicas[i] == after
      ensures Holds(g)
    {
    }

    method Produce(job: Job, round: int, turn: Turn, p: nat, quorum: Quorum, ghost f: Fleet, ghost before: Chain)
      returns (e: Envelope)
      requires SignsCorrectly(crypto) && Holds(f) && p < |candidates| && candidates[p].identity == turn.proposer
      requires before.canSign && forall i :: 0 <= i < |f.replicas| ==> f.replicas[i] == before
      modifies candidates[p].chain
      ensures var r := Proposed(crypto, before, job, round, quorum);
              && r.Ok? && Spread(0, p, before, r.value)
              && e == Broadcast(crypto, turn.proposer, r.value.blocks[|r.value.blocks| - 1], round, turn)
    {
      hide Proposed, Broadcast, InSync, LS.View;
      e := candidates[p].Propose(round, job, quorum, turn);
    }

    method ProduceAndSpread(job: Job, round: int, turn: Turn, p: nat, quorum: Quorum, ghost f: Fleet)
      returns (e: Envelope)
      requires SignsCorrectly(crypto) && Holds(f) && InAgreement(crypto, f)
      requires TakeTurn(crypto, f, job, round) == Ok(turn) && BuildQuorum(crypto, f, job, round) == Ok(quorum)
      requires p < |identities| && p == IndexOf(turn.proposer, identities)
      modifies set i | 0 <= i < |candidates| :: candidates[i].chain
      ensures DriveRound(crypto, f, job, round).Ok?
      ensures Holds(DriveRound(crypto, f, job, round).value)
    {
      hide TakeTurn, BuildQuorum, Proposed, AcceptTurn, Broadcast, DriveRound, InSync, Spread;
      ghost var ch := f.replicas[0];
      PeerTakes(crypto, f, job, round, turn, quorum);
      ghost var after := Proposed(crypto, ch, job, round, quorum).value;
      e := Produce(job, round, turn, p, quorum, f, ch);
      DeliverAll(e, job, p, f, ch, after);
      SpreadHolds(f, DriveRound(crypto, f, job, round).value, p, ch, after);
    }

    ghost predicate Named()
    {
      && |identities| == |candidates|
      && (forall i :: 0 <= i < |candidates| ==> candidates[i].identity == identities[i])
      && (forall i, j :: 0 <= i < j < |candidates| ==> candidates[i] != candidates[j])
    }

    /** The candidates hold these nonces for the round. */
    ghost predicate Sealed(n: nat, nonces: seq<string>, round: int)
      reads candidates
    {
      n <= |candidates| <= |nonces|
      && forall k :: 0 <= k < n ==> round in candidates[k].sealed && candidates[k].sealed[round] == nonces[k]
    }

    /** Candidate i seals its nonce and publishes the commit. */
    method CommitOne(plan: Plan, round: int, i: nat)
      requires Named() && PlanOk(hashes, |candidates|, plan) && i < |candidates| && Sealed(i, plan.nonces, round)
      modifies bus`commits, candidates[i]
      ensures Sealed(i + 1, plan.nonces, round)
      ensures bus.Commits(round) == old(bus.Commits(round)) + [CommitOf(plan, round, i)]
      ensures bus.commits.Keys <= old(bus.commits.Keys) + {round}
    {
      var e := candidates[i].MakeRoundCommit(hashes, round, plan.nonces[i]);
      bus.PublishCommit(round, e);
    }

    ghost function CommitOf(plan: Plan, round: int, i: nat): (e: K.Commit)
      requires Named() && PlanOk(hashes, |candidates|, plan) && i < |candidates|
      ensures |RoundCommits(hashes, identities, plan.nonces, round)| == |candidates|
      ensures e == RoundCommits(hashes, identities, plan.nonces, round)[i]
    {
      K.Commit(round, identities[i], K.Commitment(round, identities[i], hashes.decode(plan.nonces[i]).value))
    }

    lemma NoneSealed(plan: Plan, round: int)
      requires Named() && PlanOk(hashes, |candidates|, plan) && round !in bus.commits
      ensures Sealed(0, plan.nonces, round) && bus.Commits(round) == []
      ensures PlanOk(hashes, |identities|, plan)
      ensures |RoundCommits(hashes, identities, plan.nonces, round)| == |candidates|
    {
    }

    /** Phase 1: commits, then whatever else is put on the bus. */
    method CommitAll(plan: Plan, round: int)
      requires Named() && PlanOk(hashes, |candidates|, plan) && round !in bus.commits
      modifies bus`commits, set i | 0 <= i < |candidates| :: candidates[i]
      ensures Sealed(|candidates|, plan.nonces, round)
      ensures bus.Commits(round) == RoundCommits(hashes, identities, plan.nonces, round) + plan.extraCommits
      ensures bus.commits.Keys <= old(bus.commits.Keys) + {round}
    {
      hide *;
      Apart();
      NoneSealed(plan, round);
      ghost var cs := RoundCommits(hashes, identities, plan.nonces, round);
      for i := 0 to |candidates|
        invariant bus.Commits(round) == cs[..i] && Sealed(i, plan.nonces, round)
        invariant bus.commits.Keys <= old(bus.commits.Keys) + {round}
      {
        assert cs[..i + 1] == cs[..i] + [CommitOf(plan, round, i)];
        CommitOne(plan, round, i);
      }
      assert cs[..|candidates|] == cs;
      bus.PublishCommits(round, plan.extraCommits);
    }

    /** Phase 2: reveals, then whatever else is put on the bus. */
    method RevealAll(plan: Plan, round: int)
      requires Named() && Sealed(|candidates|, plan.nonces, round) && PlanOk(hashes, |candidates|, plan)
      requires round !in bus.shown
      modifies bus`shown
      ensures bus.Reveals(round) == RoundReveals(identities, plan.nonces, round) + plan.extraReveals
      ensures bus.shown.Keys <= old(bus.shown.Keys) + {round}
    {
      ghost var rs := RoundReveals(identities, plan.nonces, round);
      for i := 0 to |candidates|
        invariant bus.Reveals(round) == rs[..i] && bus.shown.Keys <= old(bus.shown.Keys) + {round}
      {
        var e := candidates[i].RoundReveal(round);
        bus.PublishReveal(round, e);
      }
      assert rs[..|candidates|] == rs;
      bus.PublishReveals(round, plan.extraReveals);
    }

    lemma Apart()
      requires Named()
      ensures forall i, j :: 0 <= i < j < |candidates| ==> candidates[i] != candidates[j]
      ensures |identities| == |candidates|
    {
    }

    lemma AgreedIs(plan: Plan, round: int)
      requires Named() && PlanOk(hashes, |candidates|, plan)
      ensures PlanOk(hashes, |identities|, plan)
      ensures AgreedOn(hashes, identities, plan, round)
           == K.Agree(hashes, RoundCommits(hashes, identities, plan.nonces, round) + plan.extraCommits,
                      RoundReveals(identities, plan.nonces, round) + plan.extraReveals, round)
    {
      hide K.Agree, RoundCommits, RoundReveals;
    }

    /** `begin_round`: everyone commits, everyone reveals, everyone agrees on the same; sealing the first commit
        already refuses a round that does not fit. */
    method BeginRound(plan: Plan, round: int) returns (order: Result<seq<Addr>>)
      requires Named() && 0 < |candidates| && PlanOk(hashes, |candidates|, plan)
      requires round !in bus.commits && round !in bus.shown
      modifies bus, set i | 0 <= i < |candidates| :: candidates[i]
      ensures order.Ok? <==> K.RoundFits(round)
      ensures order.Ok? ==> order.value == AgreedOn(hashes, identities, plan, round).order
      ensures order.Ok? ==> forall i :: 0 <= i < |candidates| ==>
                candidates[i].lastAgreement == Some(AgreedOn(hashes, identities, plan, round))
      ensures bus.commits.Keys <= old(bus.commits.Keys) + {round} && bus.shown.Keys <= old(bus.shown.Keys) + {round}
    {
      hide *;
      Apart();
      AgreedIs(plan, round);
      if !K.RoundFits(round) {
        return Err("int too big to convert");
      }
      CommitAll(plan, round);
      RevealAll(plan, round);
      ghost var agreed := AgreedOn(hashes, identities, plan, round);
      order := Ok([]);
      for i := 0 to |candidates|
        invariant agreed == K.Agree(hashes, bus.Commits(round), bus.Reveals(round), round)
        invariant bus.commits.Keys <= old(bus.commits.Keys) + {round} && bus.shown.Keys <= old(bus.shown.Keys) + {round}
        invariant forall k :: 0 <= k < i ==> candidates[k].lastAgreement == Some(agreed)
        invariant order.Ok? && (i > 0 ==> order.value == agreed.order)
      {
        var a := candidates[i].Agree(hashes, round, bus);
        if i == 0 {
          order := Ok(a.value.order);
        }
      }
    }

    /** Nothing is on the bus for rounds from `start` on. */
    ghost predicate Unused(start: int)
      reads bus
    {
      forall r :: r in bus.commits || r in bus.shown ==> r < start
    }

    lemma NamedFleet(f: Fleet)
      requires Holds(f) && InAgreement(crypto, f)
      ensures 0 < |candidates|
    {
    }

    lemma JobIs(plan: Plan, round: int)
      requires Named() && PlanOk(hashes, |candidates|, plan)
      ensures PlanOk(hashes, |identities|, plan)
      ensures JobOf(hashes, identities, plan, round)
           == Job(AgreedOn(hashes, identities, plan, round).order, plan.down, plan.agreedFailover, plan.reward,
                  plan.recipient, plan.cid)
    {
    }

    lemma UnusedMeans(round: int)
      requires Unused(round)
      ensures forall r :: r in bus.commits.Keys + bus.shown.Keys ==> r < round
    {
    }

    lemma StillUnused(round: int, was: set<int>)
      requires bus.commits.Keys <= was + {round} && bus.shown.Keys <= was + {round} && forall r :: r in was ==> r < round
      ensures Unused(round + 1)
    {
    }

    /** `drive_round` */
    method Drive(plan: Plan, round: int, ghost f: Fleet) returns (r: Result<Envelope>)
      requires SignsCorrectly(crypto) && Holds(f) && InAgreement(crypto, f)
      requires Named() && PlanOk(hashes, |candidates|, plan) && Unused(round)
      modifies bus, set i | 0 <= i < |candidates| :: candidates[i]
      modifies set i | 0 <= i < |candidates| :: candidates[i].chain
      ensures Unused(round + 1)
      ensures match Driven(crypto, f, hashes, plan, round)
              case Ok(g) => r.Ok? && Holds(g)
              case Err(_) => r.Err? && Holds(f)
    {
      hide *;
      NamedFleet(f);
      HoldsMeans(f);
      JobIs(plan, round);
      DrivenIs(crypto, f, hashes, plan, round);
      UnusedMeans(round);
      ghost var was := bus.commits.Keys + bus.shown.Keys;
      var order := BeginRound(plan, round);
      StillUnused(round, was);
      if order.Err? {
        return Err(order.reason);
      }
      var job := Job(order.value, plan.down, plan.agreedFailover, plan.reward, plan.recipient, plan.cid);
      r := FinishRound(job, round, f);
    }

    /** `run`: consecutive rounds; the first that cannot complete stops the run with every replica still together. */
    method Run(plans: seq<Plan>, start: int, ghost f: Fleet) returns (r: Result<seq<Envelope>>)
      requires SignsCorrectly(crypto) && Holds(f) && InAgreement(crypto, f)
      requires Named() && Unused(start) && forall k :: 0 <= k < |plans| ==> PlanOk(hashes, |candidates|, plans[k])
      modifies bus, set i | 0 <= i < |candidates| :: candidates[i]
      modifies set i | 0 <= i < |candidates| :: candidates[i].chain
      ensures match RunPlans(crypto, f, hashes, plans, start)
              case Ok(g) => r.Ok? && |r.value| == |plans| && Holds(g) && InAgreement(crypto, g)
              case Err(_) => r.Err? && exists g :: Holds(g) && InAgreement(crypto, g)
    {
      hide *;
      HoldsMeans(f);
      RunOfNone(crypto, f, hashes, plans, start);
      var sent: seq<Envelope> := [];
      ghost var g := f;
      for k := 0 to |plans|
        invariant Named() && Unused(start + k) && Holds(g) && InAgreement(crypto, g) && |sent| == k
        invariant g.identities == f.identities
        invariant RunPlans(crypto, f, hashes, plans[..k], start) == Ok(g)
      {
        RunAt(crypto, f, hashes, plans, start, k, g);
        DrivenKeeps(crypto, g, hashes, plans[k], start + k);
        var e := Drive(plans[k], start + k, g);
        if e.Err? {
          RunFailsAt(crypto, f, hashes, plans, start, k + 1);
          return Err(e.reason);
        }
        sent := sent + [e.value];
        g := Driven(crypto, g, hashes, plans[k], start + k).value;
      }
      assert plans[..|plans|] == plans;
      return Ok(sent);
    }
  }

  /** One round from its plan: the round must fit, and then the agreed order is driven. */
  ghost function Driven(c: Crypto, f: Fleet, h: K.Hashes, plan: Plan, round: int): (r: Result<Fleet>)
    requires |f.identities| == |f.replicas| && PlanOk(h, |f.identities|, plan)
    ensures r.Ok? ==> r.value.identities == f.identities && |r.value.replicas| == |f.replicas|
  {
    if !K.RoundFits(round) then Err("int too big to convert")
    else DriveRound(c, f, JobOf(h, f.identities, plan, round), round)
  }

  lemma DrivenIs(c: Crypto, f: Fleet, h: K.Hashes, plan: Plan, round: int)
    requires |f.identities| == |f.replicas| && PlanOk(h, |f.identities|, plan)
    ensures Driven(c, f, h, plan, round)
         == if K.RoundFits(round) then DriveRound(c, f, JobOf(h, f.identities, plan, round), round)
            else Err("int too big to convert")
  {
    hide DriveRound, JobOf;
  }

  lemma DrivenKeeps(c: Crypto, f: Fleet, h: K.Hashes, plan: Plan, round: int)
    requires SignsCorrectly(c) && InAgreement(c, f) && PlanOk(h, |f.identities|, plan)
    ensures |f.identities| == |f.replicas|
    ensures var r := Driven(c, f, h, plan, round);
            r.Ok? ==> InAgreement(c, r.value) && r.value.identities == f.identities
  {
    hide DriveRound, JobOf, SignsCorrectly, InSync;
    if K.RoundFits(round) {
      RoundKeepsAgreement(c, f, JobOf(h, f.identities, plan, round), round);
    }
  }

  /** Consecutive rounds from their plans. */
  ghost function RunPlans(c: Crypto, f: Fleet, h: K.Hashes, plans: seq<Plan>, start: int): (r: Result<Fleet>)
    requires |f.identities| == |f.replicas| && forall k :: 0 <= k < |plans| ==> PlanOk(h, |f.identities|, plans[k])
    ensures r.Ok? ==> r.value.identities == f.identities && |r.value.replicas| == |f.replicas|
  {
    if plans == [] then Ok(f)
    else
      match RunPlans(c, f, h, plans[..|plans| - 1], start)
      case Err(e) => Err(e)
      case Ok(g) => Driven(c, g, h, plans[|plans| - 1], start + |plans| - 1)
  }

  /** It is the run of the values over the agreed orders, as far as the round numbers fit. */
  lemma {:induction false} RunPlansIsRun(c: Crypto, f: Fleet, h: K.Hashes, plans: seq<Plan>, start: int)
    requires |f.identities| == |f.replicas| && forall k :: 0 <= k < |plans| ==> PlanOk(h, |f.identities|, plans[k])
    requires plans == [] || (K.RoundFits(start) && K.RoundFits(start + |plans| - 1))
    ensures RunPlans(c, f, h, plans, start) == RA.Run(c, f, JobsOf(h, f.identities, plans, start), start)
  {
    hide DriveRound, JobOf;
    if plans != [] {
      var n := |plans| - 1;
      RunPlansIsRun(c, f, h, plans[..n], start);
      var jobs := JobsOf(h, f.identities, plans, start);
      assert jobs[..n] == JobsOf(h, f.identities, plans[..n], start);
    }
  }

  lemma RunOfNone(c: Crypto, f: Fleet, h: K.Hashes, plans: seq<Plan>, start: int)
    requires |f.identities| == |f.replicas| && forall k :: 0 <= k < |plans| ==> PlanOk(h, |f.identities|, plans[k])
    ensures RunPlans(c, f, h, plans[..0], start) == Ok(f)
  {
  }

  lemma RunAt(c: Crypto, f: Fleet, h: K.Hashes, plans: seq<Plan>, start: int, k: nat, g: Fleet)
    requires |f.identities| == |f.replicas| && k < |plans|
    requires forall i :: 0 <= i < |plans| ==> PlanOk(h, |f.identities|, plans[i])
    requires RunPlans(c, f, h, plans[..k], start) == Ok(g)
    ensures g.identities == f.identities && |g.identities| == |g.replicas|
    ensures RunPlans(c, f, h, plans[..k + 1], start) == Driven(c, g, h, plans[k], start + k)
  {
    hide Driven;
    assert plans[..k + 1][..k] == plans[..k];
  }

  lemma {:induction false} RunFailsAt(c: Crypto, f: Fleet, h: K.Hashes, plans: seq<Plan>, start: int, n: nat)
    requires |f.identities| == |f.replicas| && n <= |plans|
    requires forall k :: 0 <= k < |plans| ==> PlanOk(h, |f.identities|, plans[k])
    requires RunPlans(c, f, h, plans[..n], start).Err?
    ensures RunPlans(c, f, h, plans, start).Err?
  {
    hide Driven;
    if n < |plans| {
      var less := plans[..|plans| - 1];
      assert less[..n] == plans[..n];
      RunFailsAt(c, f, h, less, start, n);
    } else {
      assert plans[..n] == plans;
    }
  }

  lemma RoundOutcome(c: Crypto, f: Fleet, job: Job, round: int)
    requires SignsCorrectly(c) && InAgreement(c, f)
    ensures DriveRound(c, f, job, round).Ok? <==>
            && TakeTurn(c, f, job, round).Ok?
            && IndexOf(TakeTurn(c, f, job, round).value.proposer, f.identities) < |f.identities|
            && BuildQuorum(c, f, job, round).Ok?
  {
    hide DriveRound, TakeTurn, BuildQuorum, InAgreement;
    RoundKeepsAgreement(c, f, job, round);
  }

  /** What the round's driver relies on: every peer's answer to the broadcast, and where all the replicas end. */
  lemma PeerTakes(c: Crypto, f: Fleet, job: Job, round: int, turn: Turn, q: Quorum)
    requires SignsCorrectly(c) && InAgreement(c, f)
    requires TakeTurn(c, f, job, round) == Ok(turn) && BuildQuorum(c, f, job, round) == Ok(q)
    requires turn.proposer in f.identities
    ensures Proposed(c, f.replicas[0], job, round, q).Ok?
    ensures var after := Proposed(c, f.replicas[0], job, round, q).value;
            && AcceptTurn(c, f, f.replicas[0], Broadcast(c, turn.proposer, after.blocks[|after.blocks| - 1], round, turn), job)
               == Ok(after)
            && DriveRound(c, f, job, round).Ok?
            && DriveRound(c, f, job, round).value == f.(replicas := DriveRound(c, f, job, round).value.replicas)
            && |DriveRound(c, f, job, round).value.replicas| == |f.replicas|
            && forall i :: 0 <= i < |f.replicas| ==> DriveRound(c, f, job, round).value.replicas[i] == after
  {
    hide TakeTurn, BuildQuorum, Proposed, AcceptTurn, AllAccept, Broadcast, InSync, Follows;
    var ch := f.replicas[0];
    ProposedFollows(c, ch, job, round, q);
    PeerFollows(c, f, ch, job, round, q);
    var after := Proposed(c, ch, job, round, q).value;
    var p := IndexOf(turn.proposer, f.identities);
    AllFollow(c, f, f.replicas[p := after], Broadcast(c, turn.proposer, after.blocks[|after.blocks| - 1], round, turn),
              job, p, |f.replicas|, ch, after);
  }
}
