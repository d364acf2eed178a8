/** Who drives each round (neurahash/diloco_round_authority.py): the agreed order elects a proposer, a takeover needs
    a majority-signed timeout, and every candidate replicates the settlement chain. */
module RoundAuthority {
  import opened Prelude
  import opened Blocks
  import opened Sums
  import L = Ledger
  import Q = Quorum
  import opened Settlement
  import K = Clock

  // ---------------------------------------------------------------- election

  /** The first signer in the agreed order that is not down. */
  function ElectProposer(order: seq<Addr>, down: set<Addr>): Option<Addr> {
    if order == [] then None
    else if order[0] in down then ElectProposer(order[1..], down)
    else Some(order[0])
  }

  method FindProposer(order: seq<Addr>, down: set<Addr>) returns (r: Option<Addr>)
    ensures r == ElectProposer(order, down)
  {
    for i := 0 to |order|
      invariant ElectProposer(order, down) == ElectProposer(order[i..], down)
    {
      if order[i] !in down {
        return Some(order[i]);
      }
      assert order[i..][1..] == order[i + 1..];
    }
    return None;
  }

  /** It is up, everyone before it is down, and there is none exactly when all are down. */
  lemma {:induction false} ElectedIsFirstUp(order: seq<Addr>, down: set<Addr>)
    ensures ElectProposer(order, down) == None <==> forall i :: 0 <= i < |order| ==> order[i] in down
    ensures forall v :: 0 <= v < |order| && order[v] !in down && (forall i :: 0 <= i < v ==> order[i] in down) ==>
              ElectProposer(order, down) == Some(order[v])
  {
    if order != [] {
      var rest := order[1..];
      ElectedIsFirstUp(rest, down);
      if order[0] in down {
        assert (forall i :: 0 <= i < |rest| ==> rest[i] in down) ==> forall i :: 0 <= i < |order| ==> order[i] in down
        by {
          if forall i :: 0 <= i < |rest| ==> rest[i] in down {
            forall i | 0 <= i < |order| ensures order[i] in down {
              assert i > 0 ==> order[i] == rest[i - 1];
            }
          }
        }
        forall v | 0 <= v < |order| && order[v] !in down && (forall i :: 0 <= i < v ==> order[i] in down)
          ensures ElectProposer(order, down) == Some(order[v])
        {
          assert rest[v - 1] == order[v];
          forall i | 0 <= i < v - 1 ensures rest[i] in down {
            assert rest[i] == order[i + 1];
          }
        }
      }
    }
  }

  // ---------------------------------------------------------------- the timeout quorum

  /** `verify_timeout_quorum`: fails closed unless the threshold is a strict majority of the roster. */
  predicate TimeoutApproved(c: Crypto, roster: seq<Addr>, m: int, round: int, failed: Addr, view: int, sigs: seq<Sig>) {
    var members := Q.Distinct(roster);
    Q.StrictMajority(m, |members|) && |Q.Signers(c, members, TimeoutVote(round, failed, view), sigs)| >= m
  }

  method VerifyTimeoutQuorum(c: Crypto, sigs: seq<Sig>, roster: seq<Addr>, m: int, round: int, failed: Addr, view: int)
    returns (approved: bool)
    ensures approved <==> TimeoutApproved(c, roster, m, round, failed, view, sigs)
  {
    var members := Q.AddressSet(roster);
    if |members| == 0 || !(1 <= m <= |members| && m * 2 > |members|) {
      return false;
    }
    var guardians := new Q.GuardianSet(members, m);
    approved := guardians.MeetsThreshold(c, TimeoutVote(round, failed, view), sigs);
  }

  // ---------------------------------------------------------------- envelopes

  datatype Claim = Claim(round: int, proposer: Addr, blockHash: Hash, sig: Sig)

  /** A broadcast block; `view` is absent on the plain path. */
  datatype Envelope = Envelope(round: int, proposer: Addr, block: Option<Record>, claim: Option<Claim>,
                               view: Option<int>, timeouts: map<int, seq<Sig>>)

  /** `recover_proposer`: the claimed proposer, if the claim's signature recovers to it. */
  function RecoverProposer(c: Crypto, claim: Option<Claim>): Option<Addr> {
    if claim.None? then None
    else
      var k := claim.value;
      if c.recover(ProposerClaim(k.round, k.proposer, k.blockHash), k.sig) == Some(k.proposer) then Some(k.proposer)
      else None
  }

  function Votes(e: Envelope, view: int): seq<Sig> { if view in e.timeouts then e.timeouts[view] else [] }

  /** The threshold a candidate applies: its own, or a strict majority of the roster. */
  function Threshold(timeoutM: Option<int>, roster: seq<Addr>): int {
    if timeoutM.Some? then timeoutM.value else |Q.Distinct(roster)| / 2 + 1
  }

  /** Whether `who` may propose: it is the view's own proposer and every earlier view was voted out; without a view,
      it is the first one up. */
  predicate InTurn(c: Crypto, e: Envelope, who: Addr, order: seq<Addr>, down: set<Addr>, timeoutM: Option<int>,
                   roster: Option<seq<Addr>>)
  {
    if e.view.Some? then
      var v, r := e.view.value, if roster.Some? then roster.value else order;
      && 0 <= v < |order| && who == order[v]
      && forall u :: 0 <= u < v ==>
           TimeoutApproved(c, r, Threshold(timeoutM, r), e.round, order[u], u, Votes(e, u))
    else ElectProposer(order, down) == Some(who)
  }

  /** The checks `accept` makes on the envelope itself, before it looks at its own chain. */
  predicate EnvelopeOk(c: Crypto, e: Envelope, order: seq<Addr>, down: set<Addr>, timeoutM: Option<int>,
                       roster: Option<seq<Addr>>)
  {
    var who := RecoverProposer(c, e.claim);
    && who.Some?
    && InTurn(c, e, who.value, order, down, timeoutM, roster)
    && e.block.Some?
    && e.claim.value.blockHash == HashOf(e.block.value.header)
    && e.round == e.block.value.header.height == e.claim.value.round
  }

  /** `Candidate.accept`, on the replica's value. */
  ghost function Accepted(c: Crypto, ch: Chain, e: Envelope, order: seq<Addr>, down: set<Addr>, timeoutM: Option<int>,
                          roster: Option<seq<Addr>>): Result<Chain>
  {
    if !EnvelopeOk(c, e, order, down, timeoutM, roster) then Err("envelope rejected")
    else Extended(c, ch, e.block.value)
  }

  /** Enough of the roster is on record for the timeout of the signer of view u: as many as given, provided that is a
      strict majority, or by default more than half. */
  ghost predicate VotedOut(c: Crypto, members: set<Addr>, m: Option<int>, e: Envelope, order: seq<Addr>, u: nat)
    requires u < |order|
  {
    var sigs := if u in e.timeouts then e.timeouts[u] else [];
    var n := |Q.Recovered(c, members, TimeoutVote(e.round, order[u], u), sigs)|;
    if m.Some? then n >= m.value && 1 <= m.value <= |members| < 2 * m.value else 2 * n > |members|
  }

  lemma VotedOutIs(c: Crypto, r: seq<Addr>, m: Option<int>, e: Envelope, order: seq<Addr>, u: nat)
    requires u < |order|
    ensures TimeoutApproved(c, r, Threshold(m, r), e.round, order[u], u, Votes(e, u))
       <==> VotedOut(c, Q.Distinct(r), m, e, order, u)
  {
    Q.SignersAreRecovered(c, Q.Distinct(r), TimeoutVote(e.round, order[u], u), Votes(e, u));
    hide Q.Recovered, Q.Signers;
  }

  ghost predicate AllVotedOut(c: Crypto, members: set<Addr>, m: Option<int>, e: Envelope, order: seq<Addr>, v: nat)
    requires v <= |order|
  {
    forall u: nat :: u < v ==> VotedOut(c, members, m, e, order, u)
  }

  /** Whose turn an envelope may be: with a view, the signer of that view, all earlier ones voted out; without, the first
      one up. */
  ghost predicate MayPropose(c: Crypto, e: Envelope, who: Addr, order: seq<Addr>, down: set<Addr>, timeoutM: Option<int>,
                             roster: Option<seq<Addr>>)
  {
    && (e.view.Some? ==>
          && 0 <= e.view.value < |order| && order[e.view.value] == who
          && AllVotedOut(c, Q.Distinct(if roster.Some? then roster.value else order), timeoutM, e, order, e.view.value))
    && (e.view.None? ==>
          exists v :: 0 <= v < |order| && order[v] == who && who !in down && forall i :: 0 <= i < v ==> order[i] in down)
  }

  lemma InTurnIs(c: Crypto, e: Envelope, who: Addr, order: seq<Addr>, down: set<Addr>, timeoutM: Option<int>,
                 roster: Option<seq<Addr>>)
    ensures InTurn(c, e, who, order, down, timeoutM, roster) <==> MayPropose(c, e, who, order, down, timeoutM, roster)
  {
    hide VotedOut, TimeoutApproved;
    if e.view.Some? {
      var r := if roster.Some? then roster.value else order;
      forall u: nat | u < e.view.value && e.view.value < |order|
        ensures TimeoutApproved(c, r, Threshold(timeoutM, r), e.round, order[u], u, Votes(e, u))
           <==> VotedOut(c, Q.Distinct(r), timeoutM, e, order, u)
      {
        VotedOutIs(c, r, timeoutM, e, order, u);
      }
    } else {
      ElectedIsFirstUp(order, down);
      if ElectProposer(order, down) == Some(who) {
        FirstUp(order, down);
      }
    }
  }

  lemma {:induction false} FirstUp(order: seq<Addr>, down: set<Addr>)
    requires ElectProposer(order, down).Some?
    ensures exists v :: 0 <= v < |order| && order[v] == ElectProposer(order, down).value && order[v] !in down
                        && forall i :: 0 <= i < v ==> order[i] in down
  {
    if order[0] in down {
      FirstUp(order[1..], down);
      var v :| 0 <= v < |order| - 1 && order[1..][v] == ElectProposer(order[1..], down).value && order[1..][v] !in down
               && forall i :: 0 <= i < v ==> order[1..][i] in down;
      assert order[v + 1] == order[1..][v];
      forall i | 0 <= i < v + 1 ensures order[i] in down {
        assert i > 0 ==> order[i] == order[1..][i - 1];
      }
    } else {
      assert order[0] !in down;
    }
  }

  /** A candidate takes an envelope exactly when it carries a block and, signed by its proposer's own key, that proposer's
      claim to that very block and round; it may be the proposer's turn; and the block extends the candidate's chain. */
  lemma AcceptsExactly(c: Crypto, ch: Chain, e: Envelope, order: seq<Addr>, down: set<Addr>, timeoutM: Option<int>,
                       roster: Option<seq<Addr>>)
    ensures Accepted(c, ch, e, order, down, timeoutM, roster).Ok? <==>
            && e.claim.Some? && e.block.Some?
            && var k, h := e.claim.value, e.block.value.header;
               && c.recover(ProposerClaim(h.height, k.proposer, HashOf(h)), k.sig) == Some(k.proposer)
               && k.round == h.height && k.blockHash == HashOf(h) && e.round == h.height
               && MayPropose(c, e, k.proposer, order, down, timeoutM, roster)
               && Extended(c, ch, e.block.value).Ok?
    ensures Accepted(c, ch, e, order, down, timeoutM, roster).Ok? ==>
              Accepted(c, ch, e, order, down, timeoutM, roster) == Extended(c, ch, e.block.value)
  {
    hide InTurn, MayPropose, Extended;
    if e.claim.Some? {
      InTurnIs(c, e, e.claim.value.proposer, order, down, timeoutM, roster);
    }
  }

  /** The members the timeout signatures of view u recover to. */
  function TimeoutSigners(c: Crypto, members: set<Addr>, e: Envelope, order: seq<Addr>, u: nat): set<Addr>
    requires u < |order|
  {
    Q.Signers(c, members, TimeoutVote(e.round, order[u], u), Votes(e, u))
  }

  /** The timeout signatures an envelope carries were made by the members they recover to. */
  ghost predicate GenuineVotes(c: Crypto, signed: Q.SignedBy, members: set<Addr>, e: Envelope, order: seq<Addr>) {
    forall u: nat :: u < |order| ==> Q.Genuine(c, signed, members, TimeoutVote(e.round, order[u], u), Votes(e, u))
  }

  /** No takeover without a majority: an accepted envelope of view v carries, for every earlier view, signatures of a
      strict majority of the roster on the timeout of that view's proposer in that very round; genuine ones, so that
      majority did sign it. */
  lemma NoTakeoverWithoutMajority(c: Crypto, signed: Q.SignedBy, ch: Chain, e: Envelope, order: seq<Addr>,
                                  down: set<Addr>, timeoutM: Option<int>, roster: Option<seq<Addr>>, u: nat)
    requires Accepted(c, ch, e, order, down, timeoutM, roster).Ok?
    requires e.view.Some? && u < e.view.value
    ensures u < |order|
    ensures var members := Q.Distinct(if roster.Some? then roster.value else order);
            && 2 * |TimeoutSigners(c, members, e, order, u)| > |members|
            && (GenuineVotes(c, signed, members, e, order) ==>
                  2 * |Q.SignedSet(signed, members, TimeoutVote(e.round, order[u], u))| > |members|)
  {
    hide Extended, Q.Signers, Q.Genuine, Q.SignedSet;
    var r := if roster.Some? then roster.value else order;
    var members := Q.Distinct(r);
    var vote := TimeoutVote(e.round, order[u], u);
    assert TimeoutApproved(c, r, Threshold(timeoutM, r), e.round, order[u], u, Votes(e, u));
    if GenuineVotes(c, signed, members, e, order) {
      assert Q.Genuine(c, signed, members, vote, Votes(e, u));
      Q.SignersSigned(c, signed, members, vote, Votes(e, u));
      Q.SubsetSmaller(Q.Signers(c, members, vote, Votes(e, u)), Q.SignedSet(signed, members, vote));
    }
  }

  /** A strict majority is on record as having given up on the proposer of view u. */
  ghost predicate GivenUp(c: Crypto, signed: Q.SignedBy, members: set<Addr>, e: Envelope, order: seq<Addr>, u: nat)
    requires u < |order|
  {
    && 2 * |TimeoutSigners(c, members, e, order, u)| > |members|
    && (GenuineVotes(c, signed, members, e, order) ==>
          2 * |Q.SignedSet(signed, members, TimeoutVote(e.round, order[u], u))| > |members|)
  }

  /** Two candidates that accept different proposers in one round do so only after a majority gave up on the earlier,
      as the later one's envelope shows. */
  lemma DifferentViewsNeedTimeout(c: Crypto, signed: Q.SignedBy, order: seq<Addr>, down: set<Addr>,
                                  timeoutM: Option<int>, roster: Option<seq<Addr>>,
                                  a: Chain, d: Envelope, b: Chain, e: Envelope)
    requires Accepted(c, a, d, order, down, timeoutM, roster).Ok? && Accepted(c, b, e, order, down, timeoutM, roster).Ok?
    requires d.view.Some? && e.view.Some? && d.claim.value.proposer != e.claim.value.proposer
    ensures 0 <= d.view.value < |order| && 0 <= e.view.value < |order| && d.view.value != e.view.value
    ensures var members := Q.Distinct(if roster.Some? then roster.value else order);
            if d.view.value < e.view.value then GivenUp(c, signed, members, e, order, d.view.value)
            else GivenUp(c, signed, members, d, order, e.view.value)
  {
    hide Extended, TimeoutApproved, TimeoutSigners, GenuineVotes, Q.SignedSet;
    var v, w := d.view.value, e.view.value;
    assert v != w;
    if v < w {
      NoTakeoverWithoutMajority(c, signed, b, e, order, down, timeoutM, roster, v);
    } else {
      NoTakeoverWithoutMajority(c, signed, a, d, order, down, timeoutM, roster, w);
    }
  }

  // ---------------------------------------------------------------- driving rounds

  /** The candidates, one chain replica each, and the fixed thresholds. */
  datatype Fleet = Fleet(identities: seq<Addr>, replicas: seq<Chain>, validators: seq<Addr>, quorumM: int, timeoutM: int)

  /** One round's outside inputs: who is down, and what is to be paid to whom. */
  datatype Job = Job(order: seq<Addr>, down: set<Addr>, agreedFailover: bool, reward: real, recipient: Addr, cid: string)

  /** The timeout signatures of the candidates that are up and observe the stall, in candidate order. */
  function TimeoutVotes(c: Crypto, identities: seq<Addr>, job: Job, round: int, view: nat): seq<Sig>
    requires view < |job.order|
  {
    if identities == [] then []
    else
      var rest, a := TimeoutVotes(c, identities[..|identities| - 1], job, round, view), identities[|identities| - 1];
      if a in job.order && a != job.order[view] && a !in job.down
      then rest + [c.sign(a, TimeoutVote(round, job.order[view], view))] else rest
  }

  datatype Elected = Elected(view: nat, timeouts: map<int, seq<Sig>>)

  /** The view-change walk from `view` on. */
  function Walk(c: Crypto, f: Fleet, job: Job, round: int, view: nat, timeouts: map<int, seq<Sig>>):
    (r: Result<Elected>)
    requires view <= |job.order|
    ensures r.Ok? ==> r.value.view < |job.order|
    decreases |job.order| - view
  {
    if view == |job.order| then Err("every candidate in the agreed order is stalled")
    else if job.order[view] in job.down then
      var votes := TimeoutVotes(c, f.identities, job, round, view);
      if !TimeoutApproved(c, job.order, f.timeoutM, round, job.order[view], view, votes)
      then Err("the timeout quorum did not form; chain holds")
      else Walk(c, f, job, round, view + 1, timeouts[view := votes])
    else Ok(Elected(view, timeouts))
  }

  /** The round's proposer: its identity, and on the view-change path the view with its proof. */
  datatype Turn = Turn(proposer: Addr, view: Option<int>, timeouts: map<int, seq<Sig>>)

  function TakeTurn(c: Crypto, f: Fleet, job: Job, round: int): Result<Turn> {
    if job.agreedFailover then
      match Walk(c, f, job, round, 0, map[])
      case Err(e) => Err(e)
      case Ok(w) => Ok(Turn(job.order[w.view], Some(w.view), w.timeouts))
    else
      match ElectProposer(job.order, job.down)
      case None => Err("no available proposer in the agreed order")
      case Some(a) => Ok(Turn(a, None, map[]))
  }

  /** `_build_quorum`: the first quorumM validators sign the decision. */
  function BuildQuorum(c: Crypto, f: Fleet, job: Job, round: int): Result<Quorum> {
    if !Q.StrictMajority(f.quorumM, |Q.Distinct(f.validators)|) || f.quorumM > |f.validators| then
      Err("settlement threshold must be a strict majority of the staked roster")
    else
      var vote := SettleVote(Some(job.recipient), Q.Round12(job.reward), round, job.cid);
      Ok(Quorum(job.cid, seq<Sig>(f.quorumM, i requires 0 <= i < f.quorumM => c.sign(f.validators[i], vote))))
  }

  /** The proposer's replica after it settled the round. */
  ghost function Proposed(c: Crypto, ch: Chain, job: Job, round: int, quorum: Quorum): (r: Result<Chain>)
    ensures r.Ok? ==> r.value.blocks != []
  {
    Settled(c, ch, round, job.reward, map[job.recipient := 1.0], 1000 + round, Some(quorum))
  }

  /** `Candidate.propose`: the envelope for the block just settled. */
  function Broadcast(c: Crypto, identity: Addr, rec: Record, round: int, turn: Turn): Envelope {
    var h := HashOf(rec.header);
    Envelope(round, identity, Some(rec), Some(Claim(round, identity, h, c.sign(identity, ProposerClaim(round, identity, h)))),
             turn.view, turn.timeouts)
  }

  /** The other replicas after they all took the envelope; the first refusal aborts. */
  ghost function AllAccept(c: Crypto, f: Fleet, replicas: seq<Chain>, e: Envelope, job: Job, proposer: nat, n: nat):
    (r: Result<seq<Chain>>)
    requires n <= |replicas|
    ensures r.Ok? ==> |r.value| == |replicas|
  {
    if n == 0 then Ok(replicas)
    else
      match AllAccept(c, f, replicas, e, job, proposer, n - 1)
      case Err(r) => Err(r)
      case Ok(rs) =>
        if n - 1 == proposer then Ok(rs)
        else
          match AcceptTurn(c, f, rs[n - 1], e, job)
          case Err(r) => Err(r)
          case Ok(ch) => Ok(rs[n - 1 := ch])
  }

  ghost function AcceptTurn(c: Crypto, f: Fleet, ch: Chain, e: Envelope, job: Job): Result<Chain> {
    if job.agreedFailover then Accepted(c, ch, e, job.order, {}, Some(f.timeoutM), Some(job.order))
    else Accepted(c, ch, e, job.order, job.down, None, None)
  }

  function IndexOf(a: Addr, s: seq<Addr>): (i: nat)
    ensures i <= |s| && (i < |s| ==> s[i] == a) && (a in s ==> i < |s|)
  {
    if s == [] then 0 else if s[0] == a then 0 else 1 + IndexOf(a, s[1..])
  }

  /** One round from an agreed order to the new replicas (`finish_round`, `_finish_viewchange`). */
  ghost function DriveRound(c: Crypto, f: Fleet, job: Job, round: int): (r: Result<Fleet>)
    requires |f.identities| == |f.replicas|
    ensures r.Ok? ==> r.value.identities == f.identities && |r.value.replicas| == |f.replicas|
  {
    match TakeTurn(c, f, job, round)
    case Err(e) => Err(e)
    case Ok(turn) =>
      var p := IndexOf(turn.proposer, f.identities);
      if p == |f.identities| then Err("elected signer is not a candidate")
      else
        match BuildQuorum(c, f, job, round)
        case Err(e) => Err(e)
        case Ok(q) =>
          match Proposed(c, f.replicas[p], job, round, q)
          case Err(e) => Err(e)
          case Ok(ch) =>
            var e := Broadcast(c, turn.proposer, ch.blocks[|ch.blocks| - 1], round, turn);
            match AllAccept(c, f, f.replicas[p := ch], e, job, p, |f.replicas|)
            case Err(r) => Err(r)
            case Ok(rs) => Ok(f.(replicas := rs))
  }

  /** All candidates distinct, holding one and the same live chain with the signing key. */
  ghost predicate InAgreement(c: Crypto, f: Fleet) {
    && 0 < |f.identities| == |f.replicas|
    && (forall i, j :: 0 <= i < j < |f.identities| ==> f.identities[i] != f.identities[j])
    && (forall i :: 0 <= i < |f.replicas| ==> f.replicas[i] == f.replicas[0])
    && f.replicas[0].canSign && InSync(c, f.replicas[0])
  }

  // ---- the turn is the first one up, and its proof convinces every peer

  /** What the walk has established when it stops. */
  ghost predicate WalkedTo(c: Crypto, f: Fleet, job: Job, round: int, w: Elected) {
    && w.view < |job.order| && job.order[w.view] !in job.down
    && forall u :: 0 <= u < w.view ==>
         && job.order[u] in job.down
         && u in w.timeouts
         && TimeoutApproved(c, job.order, f.timeoutM, round, job.order[u], u, w.timeouts[u])
  }

  lemma {:induction false} WalkStopsAtFirstUp(c: Crypto, f: Fleet, job: Job, round: int, view: nat,
                                              timeouts: map<int, seq<Sig>>)
    requires view <= |job.order| && Walk(c, f, job, round, view, timeouts).Ok?
    requires forall u :: 0 <= u < view ==>
               && job.order[u] in job.down
               && u in timeouts
               && TimeoutApproved(c, job.order, f.timeoutM, round, job.order[u], u, timeouts[u])
    ensures WalkedTo(c, f, job, round, Walk(c, f, job, round, view, timeouts).value)
    decreases |job.order| - view
  {
    hide TimeoutApproved, TimeoutVotes;
    if view < |job.order| && job.order[view] in job.down {
      var votes := TimeoutVotes(c, f.identities, job, round, view);
      WalkStopsAtFirstUp(c, f, job, round, view + 1, timeouts[view := votes]);
    }
  }

  /** The candidates that can vote: in the agreed order and up. */
  function UpCandidates(identities: seq<Addr>, job: Job): set<Addr> {
    set a | a in identities && a in job.order && a !in job.down
  }

  lemma UpSnoc(identities: seq<Addr>, job: Job)
    requires identities != []
    ensures var rest, a := UpCandidates(identities[..|identities| - 1], job), identities[|identities| - 1];
            UpCandidates(identities, job) == if a in job.order && a !in job.down then rest + {a} else rest
  {
    assert identities == identities[..|identities| - 1] + [identities[|identities| - 1]];
  }

  lemma SignersSnoc(c: Crypto, members: set<Addr>, p: Payload, sigs: seq<Sig>, a: Addr)
    requires SignsCorrectly(c) && a in members
    ensures Q.Signers(c, members, p, sigs + [c.sign(a, p)]) == Q.Signers(c, members, p, sigs) + {a}
  {
    var all := sigs + [c.sign(a, p)];
    assert all[..|all| - 1] == sigs;
  }

  /** Honest timeout votes recover to exactly the up candidates. */
  lemma {:induction false} VotesRecover(c: Crypto, identities: seq<Addr>, job: Job, round: int, view: nat)
    requires SignsCorrectly(c) && view < |job.order| && job.order[view] in job.down
    ensures Q.Signers(c, Q.Distinct(job.order), TimeoutVote(round, job.order[view], view),
                      TimeoutVotes(c, identities, job, round, view)) == UpCandidates(identities, job)
  {
    hide Q.Signers, UpCandidates, SignsCorrectly;
    var vote := TimeoutVote(round, job.order[view], view);
    if identities == [] {
      NobodyUp(c, Q.Distinct(job.order), vote, job);
    } else {
      var n := |identities| - 1;
      VotesRecover(c, identities[..n], job, round, view);
      UpSnoc(identities, job);
      if identities[n] in job.order {
        SignersSnoc(c, Q.Distinct(job.order), vote, TimeoutVotes(c, identities[..n], job, round, view), identities[n]);
      }
    }
  }

  lemma NobodyUp(c: Crypto, members: set<Addr>, p: Payload, job: Job)
    ensures Q.Signers(c, members, p, []) == {} && UpCandidates([], job) == {}
  {
  }

  /** Whether the up candidates can vote a stalled proposer out. */
  predicate CanChangeView(f: Fleet, job: Job) {
    && Q.StrictMajority(f.timeoutM, |Q.Distinct(job.order)|)
    && |UpCandidates(f.identities, job)| >= f.timeoutM
  }

  lemma VotesSuffice(c: Crypto, f: Fleet, job: Job, round: int, view: nat)
    requires SignsCorrectly(c) && view < |job.order| && job.order[view] in job.down
    ensures var votes := TimeoutVotes(c, f.identities, job, round, view);
            TimeoutApproved(c, job.order, f.timeoutM, round, job.order[view], view, votes) <==> CanChangeView(f, job)
  {
    VotesRecover(c, f.identities, job, round, view);
    hide Q.Signers, TimeoutVotes, UpCandidates;
  }

  /** A round finds its proposer exactly when someone in the order is up and either the first one is, or enough
      candidates are up to vote the stalled ones out. */
  lemma {:induction false} WalkCompletesExactly(c: Crypto, f: Fleet, job: Job, round: int, view: nat,
                                                timeouts: map<int, seq<Sig>>)
    requires SignsCorrectly(c) && view <= |job.order|
    ensures Walk(c, f, job, round, view, timeouts).Ok? <==>
            && (exists v :: view <= v < |job.order| && job.order[v] !in job.down)
            && (job.order[view] !in job.down || CanChangeView(f, job))
    decreases |job.order| - view
  {
    hide TimeoutApproved, TimeoutVotes, CanChangeView;
    if view < |job.order| && job.order[view] in job.down {
      var votes := TimeoutVotes(c, f.identities, job, round, view);
      VotesSuffice(c, f, job, round, view);
      WalkCompletesExactly(c, f, job, round, view + 1, timeouts[view := votes]);
    }
  }

  /** Either way of failing over elects the first one up, and the envelope built from the turn is in turn. */
  lemma TurnIsFirstUp(c: Crypto, f: Fleet, job: Job, round: int)
    requires TakeTurn(c, f, job, round).Ok?
    ensures var t := TakeTurn(c, f, job, round).value;
            && ElectProposer(job.order, job.down) == Some(t.proposer)
            && (t.view.Some? <==> job.agreedFailover)
            && forall e: Envelope :: e.round == round && e.view == t.view && e.timeouts == t.timeouts ==>
                 InTurn(c, e, t.proposer, job.order, if job.agreedFailover then {} else job.down,
                        if job.agreedFailover then Some(f.timeoutM) else None,
                        if job.agreedFailover then Some(job.order) else None)
  {
    hide TimeoutApproved;
    if job.agreedFailover {
      WalkStopsAtFirstUp(c, f, job, round, 0, map[]);
      hide Walk;
      ElectedIsFirstUp(job.order, job.down);
    }
  }

  // ---- one round keeps the replicas together

  /** A peer holding the proposer's former chain takes the envelope and ends with the proposer's chain. */
  lemma PeerFollows(c: Crypto, f: Fleet, ch: Chain, job: Job, round: int, q: Quorum)
    requires SignsCorrectly(c) && InSync(c, ch) && ch.canSign
    requires TakeTurn(c, f, job, round).Ok? && Proposed(c, ch, job, round, q).Ok?
    ensures var after := Proposed(c, ch, job, round, q).value;
            var turn := TakeTurn(c, f, job, round).value;
            && after.blocks != []
            && AcceptTurn(c, f, ch, Broadcast(c, turn.proposer, after.blocks[|after.blocks| - 1], round, turn), job) == Ok(after)
  {
    hide TimeoutApproved, Replay, L.ApplyBlock, TakeTurn, L.Positive, Sum;
    TurnIsFirstUp(c, f, job, round);
    hide InTurn;
  }

  lemma {:induction false} AllFollow(c: Crypto, f: Fleet, rs: seq<Chain>, e: Envelope, job: Job, p: nat, n: nat,
                                     before: Chain, after: Chain)
    requires p < |rs| && n <= |rs| && rs[p] == after
    requires forall i :: 0 <= i < |rs| && i != p ==> rs[i] == before
    requires AcceptTurn(c, f, before, e, job) == Ok(after)
    ensures var r := AllAccept(c, f, rs, e, job, p, n);
            && r.Ok? && |r.value| == |rs|
            && forall i :: 0 <= i < |rs| ==> r.value[i] == if i < n || i == p then after else before
  {
    hide AcceptTurn;
    if n > 0 {
      AllFollow(c, f, rs, e, job, p, n - 1, before, after);
    }
  }

  /** The chain every replica holds after the round. */
  ghost predicate Follows(before: Chain, after: Chain, job: Job, round: int) {
    && |after.blocks| == |before.blocks| + 1 && after.blocks[..|before.blocks|] == before.blocks
    && after.blocks[|before.blocks|].header.height == round
    && after.blocks[|before.blocks|].header.reward == RealMax(0.0, job.reward)
    && after.head == HashOf(after.blocks[|before.blocks|].header)
    && after.blocks[|before.blocks|].contributors == map[job.recipient := 1.0]
  }

  lemma SettledAppends(c: Crypto, ch: Chain, height: int, pot: real, weights: Table, timestamp: int, q: Option<Quorum>)
    requires Settled(c, ch, height, pot, weights, timestamp, q).Ok?
    ensures var m, rec := Settled(c, ch, height, pot, weights, timestamp, q).value,
                          SettledRecord(c, ch, height, pot, weights, timestamp, q);
            m.blocks == ch.blocks + [rec] && m.head == HashOf(rec.header) && m.canSign == ch.canSign
  {
    hide L.ApplyBlock, SettledRecord;
  }

  lemma SoleRecord(c: Crypto, ch: Chain, height: int, pot: real, recipient: Addr, timestamp: int, q: Option<Quorum>)
    ensures var rec := SettledRecord(c, ch, height, pot, map[recipient := 1.0], timestamp, q);
            && rec.header.height == height && rec.header.reward == RealMax(0.0, pot)
            && rec.contributors == map[recipient := 1.0]
  {
    hide Sum;
  }

  lemma ProposedFollows(c: Crypto, ch: Chain, job: Job, round: int, q: Quorum)
    requires SignsCorrectly(c) && InSync(c, ch) && ch.canSign
    ensures var r := Proposed(c, ch, job, round, q);
            r.Ok? && InSync(c, r.value) && r.value.canSign && Follows(ch, r.value, job, round)
  {
    hide InSync, Settled, SettledRecord, SignsCorrectly;
    SettleSucceeds(c, ch, round, job.reward, map[job.recipient := 1.0], 1000 + round, Some(q));
    SettledAppends(c, ch, round, job.reward, map[job.recipient := 1.0], 1000 + round, Some(q));
    SoleRecord(c, ch, round, job.reward, job.recipient, 1000 + round, Some(q));
  }

  /** A round driven from agreement either stops before any block is made, or leaves all replicas equal, extended by
      one block of that height. */
  lemma RoundKeepsAgreement(c: Crypto, f: Fleet, job: Job, round: int)
    requires SignsCorrectly(c) && InAgreement(c, f)
    ensures var r := DriveRound(c, f, job, round);
            && (r.Ok? <==> && TakeTurn(c, f, job, round).Ok?
                           && TakeTurn(c, f, job, round).value.proposer in f.identities
                           && BuildQuorum(c, f, job, round).Ok?)
            && (r.Ok? ==>
                  && ElectProposer(job.order, job.down) == Some(TakeTurn(c, f, job, round).value.proposer)
                  && InAgreement(c, r.value) && r.value == f.(replicas := r.value.replicas)
                  && Follows(f.replicas[0], r.value.replicas[0], job, round))
  {
    hide TakeTurn, BuildQuorum, Proposed, AcceptTurn, AllAccept, Broadcast, InSync, Follows;
    if TakeTurn(c, f, job, round).Ok? && BuildQuorum(c, f, job, round).Ok? {
      var turn, q, ch := TakeTurn(c, f, job, round).value, BuildQuorum(c, f, job, round).value, f.replicas[0];
      var p := IndexOf(turn.proposer, f.identities);
      if p < |f.identities| {
        ProposedFollows(c, ch, job, round, q);
        PeerFollows(c, f, ch, job, round, q);
        TurnIsFirstUp(c, f, job, round);
        var after := Proposed(c, ch, job, round, q).value;
        var e := Broadcast(c, turn.proposer, after.blocks[|after.blocks| - 1], round, turn);
        AllFollow(c, f, f.replicas[p := after], e, job, p, |f.replicas|, ch, after);
      }
    }
  }

  /** The quorum of a round exists exactly for a strict majority of the distinct validators, names the round's delta, and
      is approved by that roster for the very payment of the round exactly when the first validators are all distinct. */
  lemma BuiltQuorumExactly(c: Crypto, f: Fleet, job: Job, round: int)
    requires SignsCorrectly(c)
    ensures BuildQuorum(c, f, job, round).Ok? <==>
            1 <= f.quorumM <= |Q.Distinct(f.validators)| && 2 * f.quorumM > |Q.Distinct(f.validators)|
    ensures BuildQuorum(c, f, job, round).Ok? ==>
              var q := BuildQuorum(c, f, job, round).value;
              var vote := SettleVote(Some(job.recipient), Q.Round12(job.reward), round, job.cid);
              && f.quorumM <= |f.validators| && q.deltaCid == job.cid
              && Q.Verdict(c, Q.ByHead(f.validators), Some(f.quorumM), vote, q.sigs)
                 == Ok(|Q.Distinct(f.validators[..f.quorumM])| >= f.quorumM)
  {
    hide *;
    DistinctFewer(f.validators);
    BuildQuorumIs(c, f, job, round);
    if BuildQuorum(c, f, job, round).Ok? {
      var vote := SettleVote(Some(job.recipient), Q.Round12(job.reward), round, job.cid);
      var first, sigs := f.validators[..f.quorumM], Q.Signatures(c, f.validators[..f.quorumM], vote);
      FirstCount(c, f.validators, f.quorumM, vote);
      HeadVerdict(c, f.validators, f.quorumM, vote, sigs);
    }
  }

  lemma BuildQuorumIs(c: Crypto, f: Fleet, job: Job, round: int)
    ensures var r, n := BuildQuorum(c, f, job, round), |Q.Distinct(f.validators)|;
            var vote := SettleVote(Some(job.recipient), Q.Round12(job.reward), round, job.cid);
            && (r.Ok? <==> 1 <= f.quorumM <= n && 2 * f.quorumM > n && f.quorumM <= |f.validators|)
            && (r.Ok? ==> r.value == Quorum(job.cid, Q.Signatures(c, f.validators[..f.quorumM], vote)))
  {
    hide Q.Round12;
    if BuildQuorum(c, f, job, round).Ok? {
      var vote := SettleVote(Some(job.recipient), Q.Round12(job.reward), round, job.cid);
      assert BuildQuorum(c, f, job, round).value.sigs == Q.Signatures(c, f.validators[..f.quorumM], vote);
    }
  }

  lemma FirstCount(c: Crypto, validators: seq<Addr>, m: nat, vote: Payload)
    requires SignsCorrectly(c) && m <= |validators|
    ensures Q.Signers(c, Q.Distinct(validators), vote, Q.Signatures(c, validators[..m], vote)) == Q.Distinct(validators[..m])
  {
    hide Q.Signers, SignsCorrectly, Q.Signatures;
    Q.SigningIsGenuine(c, (a, p) => true, Q.Distinct(validators), vote, validators[..m]);
    assert Q.Distinct(validators[..m]) * Q.Distinct(validators) == Q.Distinct(validators[..m]);
  }

  lemma HeadVerdict(c: Crypto, validators: seq<Addr>, m: int, vote: Payload, sigs: seq<Sig>)
    requires 1 <= m <= |Q.Distinct(validators)| < 2 * m
    ensures Q.Verdict(c, Q.ByHead(validators), Some(m), vote, sigs)
         == Ok(|Q.Signers(c, Q.Distinct(validators), vote, sigs)| >= m)
  {
    hide Q.Signers;
  }

  /** What a completed round put on every chain. */
  lemma RoundBlockIs(c: Crypto, f: Fleet, job: Job, round: int)
    requires SignsCorrectly(c) && InAgreement(c, f) && DriveRound(c, f, job, round).Ok?
    ensures BuildQuorum(c, f, job, round).Ok?
    ensures var ch, after := f.replicas[0], DriveRound(c, f, job, round).value.replicas[0];
            && Settled(c, ch, round, job.reward, map[job.recipient := 1.0], 1000 + round,
                       Some(BuildQuorum(c, f, job, round).value)) == Ok(after)
            && |after.blocks| == |ch.blocks| + 1
  {
    hide TakeTurn, BuildQuorum, Proposed, AcceptTurn, AllAccept, Broadcast, InSync, Follows;
    RoundKeepsAgreement(c, f, job, round);
    var turn, q, ch := TakeTurn(c, f, job, round).value, BuildQuorum(c, f, job, round).value, f.replicas[0];
    var p := IndexOf(turn.proposer, f.identities);
    ProposedFollows(c, ch, job, round, q);
    PeerFollows(c, f, ch, job, round, q);
    var after := Proposed(c, ch, job, round, q).value;
    var e := Broadcast(c, turn.proposer, after.blocks[|after.blocks| - 1], round, turn);
    AllFollow(c, f, f.replicas[p := after], e, job, p, |f.replicas|, ch, after);
    ProposedIs(c, ch, job, round, q);
  }

  lemma ProposedIs(c: Crypto, ch: Chain, job: Job, round: int, q: Quorum)
    ensures Proposed(c, ch, job, round, q)
         == Settled(c, ch, round, job.reward, map[job.recipient := 1.0], 1000 + round, Some(q))
    ensures forall after :: Proposed(c, ch, job, round, q) == Ok(after) ==> |after.blocks| == |ch.blocks| + 1
  {
    hide L.ApplyBlock, SettledRecord;
  }

  /** Every round's block passes an enforced public replay against the validators, given distinct first validators and a
      reward that is not rounded below zero. */
  lemma RoundBlockVerifies(c: Crypto, f: Fleet, job: Job, round: int)
    requires SignsCorrectly(c) && InAgreement(c, f) && DriveRound(c, f, job, round).Ok?
    requires forall i, j :: 0 <= i < j < |f.validators| && j < f.quorumM ==> f.validators[i] != f.validators[j]
    requires Q.Round12(job.reward) >= 0
    ensures var blocks := DriveRound(c, f, job, round).value.replicas[0].blocks;
            && blocks != []
            && QuorumOk(c, blocks[|blocks| - 1], Some(Q.ByHead(f.validators)), Some(f.quorumM))
  {
    hide DriveRound, InSync, Q.Verdict, Q.Signers, Settled, BuildQuorum, Decision, Q.Round12, SignsCorrectly;
    RoundBlockIs(c, f, job, round);
    BuiltQuorumExactly(c, f, job, round);
    DistinctFewer(f.validators[..f.quorumM]);
    var q, ch := BuildQuorum(c, f, job, round).value, f.replicas[0];
    var after := DriveRound(c, f, job, round).value.replicas[0];
    SettledAppends(c, ch, round, job.reward, map[job.recipient := 1.0], 1000 + round, Some(q));
    SoleRecordQuorum(c, ch, round, job.reward, job.recipient, 1000 + round, q);
    SameAmount(job.reward);
  }

  /** A payment is signed in the amount that is put in the header exactly when it is not rounded below zero. */
  lemma SameAmount(reward: real)
    ensures Q.Round12(RealMax(0.0, reward)) == Q.Round12(reward) <==> Q.Round12(reward) >= 0
  {
    Q.Round12Nearest(0.0, 0);
  }

  lemma SoleRecordQuorum(c: Crypto, ch: Chain, height: int, pot: real, recipient: Addr, timestamp: int, q: Quorum)
    ensures var rec := SettledRecord(c, ch, height, pot, map[recipient := 1.0], timestamp, Some(q));
            && rec.quorum == Some(q) && rec.header.quorumHash == Some(q)
            && Decision(rec, q.deltaCid) == SettleVote(Some(recipient), Q.Round12(RealMax(0.0, pot)), height, q.deltaCid)
  {
    hide Sum, Q.Round12;
    var t := L.Positive(map[recipient := 1.0]);
    assert t == map[recipient := 1.0];
    SoleRecipientIs(t, recipient);
  }

  // ---- runs

  /** `run`: consecutive rounds from `start`. */
  ghost function Run(c: Crypto, f: Fleet, jobs: seq<Job>, start: int): (r: Result<Fleet>)
    requires |f.identities| == |f.replicas|
    ensures r.Ok? ==> r.value.identities == f.identities && |r.value.replicas| == |f.replicas|
  {
    if jobs == [] then Ok(f)
    else
      match Run(c, f, jobs[..|jobs| - 1], start)
      case Err(e) => Err(e)
      case Ok(g) => DriveRound(c, g, jobs[|jobs| - 1], start + |jobs| - 1)
  }

  /** Over every completed run all replicas hold the same blocks, head and ledger, one new block per driven round,
      at the height of its round. */
  lemma {:induction false} RunNeverForks(c: Crypto, f: Fleet, jobs: seq<Job>, start: int)
    requires SignsCorrectly(c) && InAgreement(c, f) && Run(c, f, jobs, start).Ok?
    ensures var g := Run(c, f, jobs, start).value;
            var was, now := f.replicas[0].blocks, g.replicas[0].blocks;
            && InAgreement(c, g) && g == f.(replicas := g.replicas)
            && |now| == |was| + |jobs| && now[..|was|] == was
            && forall i :: |was| <= i < |now| ==> now[i].header.height == start + (i - |was|)
  {
    hide DriveRound, InSync;
    if jobs != [] {
      var n := |jobs| - 1;
      RunNeverForks(c, f, jobs[..n], start);
      var g := Run(c, f, jobs[..n], start).value;
      RoundKeepsAgreement(c, g, jobs[n], start + n);
      var was, mid, now := f.replicas[0].blocks, g.replicas[0].blocks, Run(c, f, jobs, start).value.replicas[0].blocks;
      assert now[..|was|] == now[..|mid|][..|was|];
      forall i | |was| <= i < |now| ensures now[i].header.height == start + (i - |was|) {
        if i < |mid| {
          assert now[..|mid|][i] == mid[i];
        }
      }
    }
  }

  // ---------------------------------------------------------------- which rounds complete

  /** Exactly when a round completes. */
  lemma RoundCompletesExactly(c: Crypto, f: Fleet, job: Job, round: int)
    requires SignsCorrectly(c) && InAgreement(c, f)
    requires forall a :: a in job.order ==> a in f.identities
    ensures DriveRound(c, f, job, round).Ok? <==>
            && (exists v :: 0 <= v < |job.order| && job.order[v] !in job.down)
            && (job.agreedFailover ==> job.order[0] !in job.down || CanChangeView(f, job))
            && Q.StrictMajority(f.quorumM, |Q.Distinct(f.validators)|)
  {
    hide Walk, DriveRound, CanChangeView, InAgreement;
    RoundKeepsAgreement(c, f, job, round);
    DistinctFewer(f.validators);
    ElectedIsFirstUp(job.order, job.down);
    WalkCompletesExactly(c, f, job, round, 0, map[]);
    if TakeTurn(c, f, job, round).Ok? {
      TurnIsFirstUp(c, f, job, round);
      ElectedInOrder(job.order, job.down);
    }
  }

  lemma {:induction false} ElectedInOrder(order: seq<Addr>, down: set<Addr>)
    ensures ElectProposer(order, down).Some? ==> ElectProposer(order, down).value in order
  {
    if order != [] {
      ElectedInOrder(order[1..], down);
    }
  }

  lemma {:induction false} DistinctFewer(s: seq<Addr>)
    ensures |Q.Distinct(s)| <= |s|
    ensures (forall i, j :: 0 <= i < j < |s| ==> s[i] != s[j]) ==> |Q.Distinct(s)| == |s|
  {
    if s != [] {
      var n := |s| - 1;
      DistinctFewer(s[..n]);
      assert s == s[..n] + [s[n]];
      assert Q.Distinct(s) == Q.Distinct(s[..n]) + {s[n]};
    } else {
      assert Q.Distinct(s) == {};
    }
  }

  // ---------------------------------------------------------------- where the order comes from

  /** What the candidates put on the bus: one sealed commit each, then the nonce that opens it. */
  function RoundCommits(h: K.Hashes, identities: seq<Addr>, nonces: seq<string>, round: int): seq<K.Commit>
    requires |nonces| == |identities| && forall i :: 0 <= i < |nonces| ==> h.decode(nonces[i]).Some?
  {
    seq(|identities|, i requires 0 <= i < |identities| =>
      K.Commit(round, identities[i], K.Commitment(round, identities[i], h.decode(nonces[i]).value)))
  }

  function RoundReveals(identities: seq<Addr>, nonces: seq<string>, round: int): seq<K.Reveal>
    requires |nonces| == |identities|
  {
    seq(|identities|, i requires 0 <= i < |identities| => K.Reveal(round, identities[i], nonces[i]))
  }

  /** Without injected envelopes the agreed order is exactly the candidates, once each. */
  lemma HonestOrder(h: K.Hashes, identities: seq<Addr>, nonces: seq<string>, round: int)
    requires |nonces| == |identities| && forall i :: 0 <= i < |nonces| ==> h.decode(nonces[i]).Some?
    requires forall i, j :: 0 <= i < j < |identities| ==> identities[i] != identities[j]
    ensures var order := K.Agree(h, RoundCommits(h, identities, nonces, round),
                                 RoundReveals(identities, nonces, round), round).order;
            Q.Distinct(order) == Q.Distinct(identities)
  {
    hide K.Agree;
    var commits, shown := RoundCommits(h, identities, nonces, round), RoundReveals(identities, nonces, round);
    K.OrderExactly(h, commits, shown, round);
    var order := K.Agree(h, commits, shown, round).order;
    forall a ensures a in order <==> a in identities {
      if a in order {
        var nonce :| K.CommittedOnce(commits, round, a, K.Commitment(round, a, nonce));
        assert K.Commit(round, a, K.Commitment(round, a, nonce)) in commits;
      }
      if i :| 0 <= i < |identities| && identities[i] == a {
        var nonce := h.decode(nonces[i]).value;
        assert commits[i] == K.Commit(round, a, K.Commitment(round, a, nonce));
        assert shown[i] == K.Reveal(round, a, nonces[i]);
        assert K.CommittedOnce(commits, round, a, K.Commitment(round, a, nonce));
      }
    }
  }

  /** With the default threshold, over an order of all the candidates, a view-change round with a sound validator
      threshold completes exactly when its first candidate is up or a strict majority of the candidates is.  With two
      candidates that leaves no failover at all. */
  lemma DefaultThresholdLiveness(c: Crypto, f: Fleet, job: Job, round: int)
    requires SignsCorrectly(c) && InAgreement(c, f)
    requires Q.Distinct(job.order) == Q.Distinct(f.identities) && job.agreedFailover
    requires f.timeoutM == |f.identities| / 2 + 1
    requires Q.StrictMajority(f.quorumM, |Q.Distinct(f.validators)|)
    ensures var up := |Q.Distinct(f.identities) - job.down|;
            && job.order != []
            && (DriveRound(c, f, job, round).Ok? <==> job.order[0] !in job.down || 2 * up > |f.identities|)
            && (|f.identities| == 2 ==> (DriveRound(c, f, job, round).Ok? <==> job.order[0] !in job.down))
  {
    hide DriveRound, InSync;
    var all := Q.Distinct(f.identities);
    var up := all - job.down;
    assert forall a :: a in job.order <==> a in f.identities by {
      assert forall a :: a in job.order <==> a in Q.Distinct(job.order);
    }
    DistinctFewer(f.identities);
    assert f.identities[0] in job.order;
    assert UpCandidates(f.identities, job) == up;
    RoundCompletesExactly(c, f, job, round);
    if 2 * |up| > |f.identities| {
      SomeoneUp(up, job);
    }
    if job.order[0] in job.down {
      assert up <= all - {job.order[0]};
      Q.SubsetSmaller(up, all - {job.order[0]});
    }
  }

  lemma SomeoneUp(up: set<Addr>, job: Job)
    requires |up| > 0 && forall a :: a in up ==> a in job.order && a !in job.down
    ensures exists v :: 0 <= v < |job.order| && job.order[v] !in job.down
  {
    var a :| a in up;
    var v :| 0 <= v < |job.order| && job.order[v] == a;
  }
}
