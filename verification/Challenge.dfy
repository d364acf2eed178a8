/** The Merkle random-step challenge (neurahash/merkle_verify.py): a worker commits its whole trajectory, the
    verifier recomputes only the challenged steps. */
module Challenge {
  import opened Prelude
  import opened Merkle

  type Vector = seq<real>
  type State = map<string, Vector>

  datatype Shard = Shard(x: seq<seq<int>>, y: seq<int>)

  /** What a leaf commits: the trainable parameters of one state. */
  type Hash = Digest<State>

  /** The foreign functions: the gradient of one parameter on the whole shard, and the challenge hash. */
  datatype World = World(
    gradient: (State, Shard, Option<nat>, string) -> Vector,
    hash: (Hash, Shard, seq<int>, nat) -> nat)

  /** One deterministic training job. */
  datatype Job = Job(world: World, shard: Shard, keys: seq<string>, lr: real, expert: Option<nat>)

  function Minus(a: Vector, b: Vector): (r: Vector)
    ensures |r| == |a|
  {
    seq(|a|, i requires 0 <= i < |a| => a[i] - (if i < |b| then b[i] else 0.0))
  }

  function Scaled(c: real, a: Vector): Vector { seq(|a|, i requires 0 <= i < |a| => c * a[i]) }

  predicate Covers(s: State, keys: seq<string>) { forall k :: k in keys ==> k in s }

  predicate AllCover(states: seq<State>, keys: seq<string>) {
    forall i :: 0 <= i < |states| ==> Covers(states[i], keys)
  }

  /** Gradient descent on the first keys, in order; the gradient is taken at `at`. */
  function Descend(job: Job, at: State, keys: seq<string>): (r: State)
    requires Covers(at, keys)
    ensures r.Keys == at.Keys
    ensures forall k :: k in at && k !in keys ==> r[k] == at[k]
  {
    if keys == [] then at
    else
      var rest, k := keys[..|keys| - 1], keys[|keys| - 1];
      var q := Descend(job, at, rest);
      q[k := Minus(q[k], Scaled(job.lr, job.world.gradient(at, job.shard, job.expert, k)))]
  }

  function Step(job: Job, s: State): (r: State)
    requires Covers(s, job.keys)
    ensures r.Keys == s.Keys
    ensures forall k :: k in s && k !in job.keys ==> r[k] == s[k]
  {
    if |job.shard.x| > 0 then Descend(job, s, job.keys) else s
  }

  lemma CoversPrefix(s: State, keys: seq<string>, n: nat)
    requires Covers(s, keys) && n <= |keys|
    ensures Covers(s, keys[..n]) && forall k :: k in keys ==> k in s
  {
  }

  lemma DescendNone(job: Job, at: State)
    ensures job.keys[..0] == [] && Covers(at, []) && Descend(job, at, []) == at
  {
  }

  lemma DescendNext(job: Job, at: State, i: nat)
    requires i < |job.keys| && Covers(at, job.keys[..i]) && Covers(at, job.keys[..i + 1])
    ensures var q, k := Descend(job, at, job.keys[..i]), job.keys[i];
            && k in q
            && Descend(job, at, job.keys[..i + 1])
               == q[k := Minus(q[k], Scaled(job.lr, job.world.gradient(at, job.shard, job.expert, k)))]
  {
    hide Minus, Scaled;
    assert job.keys[..i + 1][..i] == job.keys[..i];
  }

  /** `_one_step`: the copy's trainable keys are updated in place. */
  method OneStep(job: Job, s: State) returns (p: State)
    requires Covers(s, job.keys)
    ensures p == Step(job, s)
  {
    hide Descend, Minus, Scaled, Covers;
    p := s;
    if |job.shard.x| > 0 {
      CoversPrefix(s, job.keys, 0);
      DescendNone(job, s);
      for i := 0 to |job.keys|
        invariant Covers(s, job.keys[..i]) && p == Descend(job, s, job.keys[..i])
      {
        var k := job.keys[i];
        CoversPrefix(s, job.keys, i + 1);
        DescendNext(job, s, i);
        p := p[k := Minus(p[k], Scaled(job.lr, job.world.gradient(s, job.shard, job.expert, k)))];
      }
      assert job.keys[..|job.keys|] == job.keys;
    }
  }

  function Restrict(s: State, keys: seq<string>): State { map k | k in keys && k in s :: s[k] }

  function StateLeaf(s: State, keys: seq<string>): Hash { Leaf(Restrict(s, keys)) }

  // ---------------------------------------------------------------- the worker

  datatype Submission = Submission(delta: State, root: Hash, steps: nat, lr: real, examples: nat, dataHash: Shard,
                                   keys: seq<string>, expert: Option<nat>)

  predicate Works(honest: bool, skipAfter: Option<nat>, step: nat) {
    honest || skipAfter.None? || step < skipAfter.value
  }

  /** s_0 = global, then one entry per step: a real step while the worker works, a copy once it skips. */
  function Trajectory(job: Job, honest: bool, skipAfter: Option<nat>, global: State, n: nat): (r: seq<State>)
    requires Covers(global, job.keys)
    ensures |r| == n + 1 && r[0] == global
    ensures forall i :: 0 <= i < |r| ==> r[i].Keys == global.Keys
  {
    if n == 0 then [global]
    else
      var t := Trajectory(job, honest, skipAfter, global, n - 1);
      t + [if Works(honest, skipAfter, n - 1) then Step(job, t[n - 1]) else t[n - 1]]
  }

  function Leaves(states: seq<State>, keys: seq<string>): (r: seq<Hash>)
    ensures |r| == |states|
  {
    seq(|states|, i requires 0 <= i < |states| => StateLeaf(states[i], keys))
  }

  function Delta(last: State, global: State, keys: seq<string>): State
    requires Covers(last, keys) && Covers(global, keys)
  {
    map k | k in keys :: Minus(last[k], global[k])
  }

  function Commitment(job: Job, global: State, states: seq<State>): Submission
    requires |states| > 0 && Covers(states[|states| - 1], job.keys) && Covers(global, job.keys)
  {
    Submission(Delta(states[|states| - 1], global, job.keys), Root(Leaves(states, job.keys)), |states| - 1, job.lr,
               |job.shard.x|, job.shard, job.keys, job.expert)
  }

  lemma TrajectoryNone(job: Job, honest: bool, skipAfter: Option<nat>, global: State)
    requires Covers(global, job.keys)
    ensures Trajectory(job, honest, skipAfter, global, 0) == [global]
    ensures Leaves([global], job.keys) == [StateLeaf(global, job.keys)]
  {
  }

  lemma TrajectoryNext(job: Job, honest: bool, skipAfter: Option<nat>, global: State, n: nat)
    requires Covers(global, job.keys)
    ensures var t := Trajectory(job, honest, skipAfter, global, n);
            && Covers(t[n], job.keys)
            && Trajectory(job, honest, skipAfter, global, n + 1)
               == t + [if honest || skipAfter.None? || n < skipAfter.value then Step(job, t[n]) else t[n]]
  {
    hide Step;
  }

  lemma SameCovers(s: State, t: State, keys: seq<string>)
    requires Covers(s, keys) && t.Keys == s.Keys
    ensures Covers(t, keys)
  {
  }

  lemma LeavesNext(states: seq<State>, s: State, keys: seq<string>)
    ensures Leaves(states + [s], keys) == Leaves(states, keys) + [StateLeaf(s, keys)]
  {
    hide StateLeaf;
  }

  lemma CommitmentIs(job: Job, global: State, states: seq<State>)
    requires |states| > 0 && Covers(states[|states| - 1], job.keys) && Covers(global, job.keys)
    ensures Commitment(job, global, states)
         == Submission(Delta(states[|states| - 1], global, job.keys), Root(Leaves(states, job.keys)), |states| - 1,
                       job.lr, |job.shard.x|, job.shard, job.keys, job.expert)
  {
    hide Delta, Root, Leaves;
  }

  class MerkleWorker {
    const honest: bool
    const skipAfter: Option<nat>
    var states: seq<State>
    var leaves: seq<Hash>

    constructor (honest: bool, skipAfter: Option<nat>)
      ensures this.honest == honest && this.skipAfter == skipAfter && states == [] && leaves == []
    {
      this.honest, this.skipAfter, states, leaves := honest, skipAfter, [], [];
    }

    method Train(job: Job, global: State, steps: nat) returns (sub: Submission)
      requires Covers(global, job.keys)
      modifies this
      ensures states == Trajectory(job, honest, skipAfter, global, steps)
      ensures leaves == Leaves(states, job.keys)
      ensures sub == Commitment(job, global, states)
    {
      hide *;
      TrajectoryNone(job, honest, skipAfter, global);
      var p := global;
      states, leaves := [p], [StateLeaf(p, job.keys)];
      for step := 0 to steps
        invariant states == Trajectory(job, honest, skipAfter, global, step)
        invariant p == states[step] && leaves == Leaves(states, job.keys)
        invariant p.Keys == global.Keys
      {
        TrajectoryNext(job, honest, skipAfter, global, step);
        SameCovers(global, p, job.keys);
        if honest || skipAfter.None? || step < skipAfter.value {
          p := OneStep(job, p);
        }
        LeavesNext(states, p, job.keys);
        states := states + [p];
        leaves := leaves + [StateLeaf(p, job.keys)];
      }
      SameCovers(global, p, job.keys);
      CommitmentIs(job, global, states);
      var root := MerkleRoot(leaves);
      sub := Submission(Delta(p, global, job.keys), root, steps, job.lr, |job.shard.x|, job.shard, job.keys,
                        job.expert);
    }
  }

  // ---------------------------------------------------------------- the verifier

  /** The challenged steps, each in 1..H, fixed by the commitment and the later beacon. */
  function Indices(world: World, root: Hash, data: Shard, beacon: seq<int>, h: nat, n: nat): (r: seq<nat>)
    requires h > 0
    ensures |r| == n && forall i :: 0 <= i < n ==> 1 <= r[i] <= h
  {
    seq(n, t requires 0 <= t < n => world.hash(root, data, beacon, t) % h + 1)
  }

  /** In expert mode the frozen parameters come from the verifier's own copy. */
  function Recompute(job: Job, global: State, prev: State): State
    requires Covers(prev, job.keys)
  {
    if job.expert.None? then Step(job, prev) else Step(job, global + prev)
  }

  /** Whoever answers the verifier.  An answer may depend on how many questions came before; None is an exception. */
  datatype Prover = Prover(state: (nat, nat) -> Option<State>, proof: (nat, nat) -> Option<seq<Merkle.Step<State>>>)

  /** A state is shown together with siblings that take it to the root. */
  predicate Shown(s: Option<State>, proof: Option<seq<Merkle.Step<State>>>, keys: seq<string>, root: Hash) {
    && s.Some? && Covers(s.value, keys) && proof.Some?
    && Climb(StateLeaf(s.value, keys), proof.value) == root
  }

  /** `merkle_verify` of a revealed state: a missing state, key or proof raises. */
  function Verified(s: Option<State>, proof: Option<seq<Merkle.Step<State>>>, keys: seq<string>, root: Hash): Result<bool> {
    if s.None? then Err("no such state")
    else if !Covers(s.value, keys) then Err("missing key")
    else if proof.None? then Err("no such proof")
    else Ok(Climb(StateLeaf(s.value, keys), proof.value) == root)
  }

  /** The challenged step j, asked from question t on. */
  function ChallengeOne(job: Job, global: State, root: Hash, prover: Prover, t: nat, j: nat): Result<bool>
    requires j > 0
  {
    var prev := prover.state(t, j - 1);
    match Verified(prev, prover.proof(t + 1, j - 1), job.keys, root)
    case Ok(true) => Verified(Some(Recompute(job, global, prev.value)), prover.proof(t + 2, j), job.keys, root)
    case other => other
  }

  /** The challenges in turn; the first failure ends them. */
  function Challenges(job: Job, global: State, root: Hash, prover: Prover, t: nat, indices: seq<nat>): Result<bool>
    requires forall i :: 0 <= i < |indices| ==> indices[i] > 0
    decreases |indices|
  {
    if indices == [] then Ok(true)
    else
      match ChallengeOne(job, global, root, prover, t, indices[0])
      case Ok(true) => Challenges(job, global, root, prover, t + 3, indices[1..])
      case other => other
  }

  /** The submitted delta against the committed final state, key by key. */
  function DeltaCheck(last: State, global: State, delta: State, keys: seq<string>): Result<bool>
    requires Covers(last, keys) && Covers(delta, keys)
  {
    if keys == [] then Ok(true)
    else if keys[0] !in global then Err("missing key")
    else if Minus(last[keys[0]], global[keys[0]]) != delta[keys[0]] then Ok(false)
    else DeltaCheck(last, global, delta, keys[1..])
  }

  /** What is compared before anything is asked. */
  predicate HeaderPasses(sub: Submission, shard: Shard, protocolSteps: Option<nat>) {
    && (protocolSteps.Some? ==> sub.steps == protocolSteps.value)
    && sub.delta.Keys == (set k | k in sub.keys)
    && sub.dataHash == shard
    && sub.examples == |shard.x|
  }

  function Endpoint(global: State, sub: Submission, prover: Prover): Result<bool>
    requires Covers(sub.delta, sub.keys)
  {
    var last := prover.state(0, sub.steps);
    match Verified(last, prover.proof(1, sub.steps), sub.keys, sub.root)
    case Ok(true) => DeltaCheck(last.value, global, sub.delta, sub.keys)
    case other => other
  }

  /** `merkle_check`; the keys and the expert are the submission's, shard and learning rate the verifier's.  The
      index derivation divides by H. */
  function Check(world: World, global: State, sub: Submission, prover: Prover, shard: Shard, n: nat, lr: real,
                 protocolSteps: Option<nat>, beacon: seq<int>): Result<bool> {
    if !HeaderPasses(sub, shard, protocolSteps) then Ok(false)
    else
      match Endpoint(global, sub, prover)
      case Ok(true) =>
        if n == 0 then Ok(true)
        else if sub.steps == 0 then Err("integer modulo by zero")
        else
          Challenges(Job(world, shard, sub.keys, lr, sub.expert), global, sub.root, prover, 2,
                     Indices(world, sub.root, shard, beacon, sub.steps, n))
      case other => other
  }

  method VerifyState(s: Option<State>, proof: Option<seq<Merkle.Step<State>>>, keys: seq<string>, root: Hash)
    returns (ok: Result<bool>)
    ensures ok == Verified(s, proof, keys, root)
  {
    hide Climb;
    if s.None? {
      return Err("no such state");
    }
    if !Covers(s.value, keys) {
      return Err("missing key");
    }
    if proof.None? {
      return Err("no such proof");
    }
    var inTree := MerkleVerify(StateLeaf(s.value, keys), proof.value, root);
    return Ok(inTree);
  }

  /** One challenge and the rest, in the order the source asks. */
  lemma ChallengesUnfold(job: Job, global: State, root: Hash, prover: Prover, t: nat, indices: seq<nat>)
    requires indices != [] && forall i :: 0 <= i < |indices| ==> indices[i] > 0
    ensures var j, all := indices[0], Challenges(job, global, root, prover, t, indices);
            var prev := prover.state(t, j - 1);
            var first := Verified(prev, prover.proof(t + 1, j - 1), job.keys, root);
            if first != Ok(true) then all == first
            else
              && prev.Some? && Covers(prev.value, job.keys)
              && var second := Verified(Some(Recompute(job, global, prev.value)), prover.proof(t + 2, j), job.keys, root);
                 all == if second != Ok(true) then second
                        else Challenges(job, global, root, prover, t + 3, indices[1..])
  {
    hide Recompute, Climb, StateLeaf;
  }

  method CheckSteps(job: Job, global: State, root: Hash, prover: Prover, indices: seq<nat>) returns (ok: Result<bool>)
    requires forall i :: 0 <= i < |indices| ==> indices[i] > 0
    ensures ok == Challenges(job, global, root, prover, 2, indices)
  {
    hide *;
    for i := 0 to |indices|
      invariant Challenges(job, global, root, prover, 2, indices)
             == Challenges(job, global, root, prover, 2 + 3 * i, indices[i..])
    {
      var j, t := indices[i], 2 + 3 * i;
      ChallengesUnfold(job, global, root, prover, t, indices[i..]);
      assert indices[i..][1..] == indices[i + 1..];
      var prev := prover.state(t, j - 1);
      ok := VerifyState(prev, prover.proof(t + 1, j - 1), job.keys, root);
      if ok != Ok(true) {
        return;
      }
      var next := RecomputeStep(job, global, prev.value);
      ok := VerifyState(Some(next), prover.proof(t + 2, j), job.keys, root);
      if ok != Ok(true) {
        return;
      }
    }
    assert indices[|indices|..] == [];
    NoChallenges(job, global, root, prover, 2 + 3 * |indices|);
    return Ok(true);
  }

  lemma NoChallenges(job: Job, global: State, root: Hash, prover: Prover, t: nat)
    ensures Challenges(job, global, root, prover, t, []) == Ok(true)
  {
  }

  lemma DeltaCheckUnfold(last: State, global: State, delta: State, keys: seq<string>, i: nat)
    requires Covers(last, keys) && Covers(delta, keys) && i < |keys|
    ensures Covers(last, keys[i..]) && Covers(delta, keys[i..]) && Covers(last, keys[i + 1..])
    ensures Covers(delta, keys[i + 1..]) && keys[i] in last && keys[i] in delta
    ensures DeltaCheck(last, global, delta, keys[i..])
         == if keys[i] !in global then Err("missing key")
            else if Minus(last[keys[i]], global[keys[i]]) != delta[keys[i]] then Ok(false)
            else DeltaCheck(last, global, delta, keys[i + 1..])
  {
    hide Minus;
    assert keys[i..][1..] == keys[i + 1..];
  }

  /** The endpoint: the final state is committed and explains the delta. */
  method CheckEndpoint(global: State, sub: Submission, prover: Prover) returns (ok: Result<bool>)
    requires Covers(sub.delta, sub.keys)
    ensures ok == Endpoint(global, sub, prover)
  {
    hide Verified, Minus, DeltaCheck, Covers;
    var h, keys := sub.steps, sub.keys;
    var last := prover.state(0, h);
    ok := VerifyState(last, prover.proof(1, h), keys, sub.root);
    if ok != Ok(true) {
      return;
    }
    VerifiedShows(last, prover.proof(1, h), keys, sub.root);
    assert keys[0..] == keys;
    for i := 0 to |keys|
      invariant Covers(last.value, keys[i..]) && Covers(sub.delta, keys[i..])
      invariant Endpoint(global, sub, prover) == DeltaCheck(last.value, global, sub.delta, keys[i..])
    {
      DeltaCheckUnfold(last.value, global, sub.delta, keys, i);
      var k := keys[i];
      if k !in global {
        return Err("missing key");
      }
      if Minus(last.value[k], global[k]) != sub.delta[k] {
        return Ok(false);
      }
    }
    assert keys[|keys|..] == [];
    NoDelta(last.value, global, sub.delta);
    return Ok(true);
  }

  lemma NoDelta(last: State, global: State, delta: State)
    ensures DeltaCheck(last, global, delta, []) == Ok(true)
  {
  }

  method MerkleCheck(world: World, global: State, sub: Submission, prover: Prover, shard: Shard, n: nat, lr: real,
                     protocolSteps: Option<nat>, beacon: seq<int>) returns (ok: Result<bool>)
    ensures ok == Check(world, global, sub, prover, shard, n, lr, protocolSteps, beacon)
  {
    hide Endpoint, Challenges, Indices;
    if protocolSteps.Some? && sub.steps != protocolSteps.value {
      return Ok(false);
    }
    if sub.delta.Keys != (set k | k in sub.keys) || sub.dataHash != shard || sub.examples != |shard.x| {
      return Ok(false);
    }
    ok := CheckEndpoint(global, sub, prover);
    if ok != Ok(true) || n == 0 {
      return;
    }
    if sub.steps == 0 {
      return Err("integer modulo by zero");
    }
    ok := CheckSteps(Job(world, shard, sub.keys, lr, sub.expert), global, sub.root, prover,
                     Indices(world, sub.root, shard, beacon, sub.steps, n));
  }

  method RecomputeStep(job: Job, global: State, prev: State) returns (next: State)
    requires Covers(prev, job.keys)
    ensures next == Recompute(job, global, prev)
  {
    hide Step;
    next := OneStep(job, if job.expert.None? then prev else global + prev);
  }

  // ---- what passing means, for any prover

  lemma VerifiedShows(s: Option<State>, proof: Option<seq<Merkle.Step<State>>>, keys: seq<string>, root: Hash)
    ensures Verified(s, proof, keys, root) == Ok(true) <==> Shown(s, proof, keys, root)
    ensures Shown(s, proof, keys, root) ==> s.Some? && Covers(s.value, keys)
  {
    hide Climb, StateLeaf, Covers;
  }

  /** Challenge j is answered: a committed predecessor, and its recomputed successor committed too. */
  predicate Answered(job: Job, global: State, root: Hash, prover: Prover, t: nat, j: nat)
    requires j > 0
  {
    && Shown(prover.state(t, j - 1), prover.proof(t + 1, j - 1), job.keys, root)
    && Shown(Some(Recompute(job, global, prover.state(t, j - 1).value)), prover.proof(t + 2, j), job.keys, root)
  }

  /** The submission's header fits, its delta is what the committed final state differs by, and every challenge is
      answered. */
  ghost predicate Accepts(world: World, global: State, sub: Submission, prover: Prover, shard: Shard, n: nat, lr: real,
                    protocolSteps: Option<nat>, beacon: seq<int>) {
    var job, last := Job(world, shard, sub.keys, lr, sub.expert), prover.state(0, sub.steps);
    && (protocolSteps.Some? ==> protocolSteps.value == sub.steps)
    && sub.dataHash == shard && sub.examples == |shard.x|
    && (forall k :: k in sub.delta <==> k in sub.keys)
    && Shown(last, prover.proof(1, sub.steps), sub.keys, sub.root)
    && Covers(global, sub.keys) && sub.delta == Delta(last.value, global, sub.keys)
    && (n > 0 ==>
          && sub.steps > 0
          && forall i :: 0 <= i < n ==>
               Answered(job, global, sub.root, prover, 2 + 3 * i,
                        Indices(world, sub.root, shard, beacon, sub.steps, n)[i]))
  }

  lemma ChallengePasses(job: Job, global: State, root: Hash, prover: Prover, t: nat, j: nat)
    requires j > 0
    ensures ChallengeOne(job, global, root, prover, t, j) == Ok(true) <==> Answered(job, global, root, prover, t, j)
  {
    hide Verified, Shown, Recompute;
    var prev := prover.state(t, j - 1);
    VerifiedShows(prev, prover.proof(t + 1, j - 1), job.keys, root);
    if Shown(prev, prover.proof(t + 1, j - 1), job.keys, root) {
      VerifiedShows(Some(Recompute(job, global, prev.value)), prover.proof(t + 2, j), job.keys, root);
    }
  }

  lemma {:induction false} ChallengesPass(job: Job, global: State, root: Hash, prover: Prover, t: nat, indices: seq<nat>)
    requires forall i :: 0 <= i < |indices| ==> indices[i] > 0
    ensures Challenges(job, global, root, prover, t, indices) == Ok(true)
       <==> forall i :: 0 <= i < |indices| ==> Answered(job, global, root, prover, t + 3 * i, indices[i])
    decreases |indices|
  {
    hide ChallengeOne, Answered;
    if indices != [] {
      ChallengePasses(job, global, root, prover, t, indices[0]);
      ChallengesPass(job, global, root, prover, t + 3, indices[1..]);
      forall i | 0 <= i < |indices| && Challenges(job, global, root, prover, t, indices) == Ok(true)
        ensures Answered(job, global, root, prover, t + 3 * i, indices[i])
      {
        if i > 0 {
          assert indices[1..][i - 1] == indices[i];
          assert t + 3 + 3 * (i - 1) == t + 3 * i;
        }
      }
      forall i | 0 <= i < |indices| - 1
                 && Answered(job, global, root, prover, t + 3 * (i + 1), indices[i + 1])
        ensures Answered(job, global, root, prover, t + 3 + 3 * i, indices[1..][i])
      {
        assert t + 3 + 3 * i == t + 3 * (i + 1);
      }
    }
  }

  lemma {:induction false} DeltaPasses(last: State, global: State, delta: State, keys: seq<string>)
    requires Covers(last, keys) && Covers(delta, keys)
    ensures DeltaCheck(last, global, delta, keys) == Ok(true)
       <==> forall k :: k in keys ==> k in global && delta[k] == Minus(last[k], global[k])
  {
    hide Minus;
    if keys != [] {
      DeltaPasses(last, global, delta, keys[1..]);
      assert keys == [keys[0]] + keys[1..];
    }
  }

  lemma EndpointPasses(global: State, sub: Submission, prover: Prover)
    requires sub.delta.Keys == (set k | k in sub.keys)
    ensures Covers(sub.delta, sub.keys)
    ensures Endpoint(global, sub, prover) == Ok(true)
       <==> && Shown(prover.state(0, sub.steps), prover.proof(1, sub.steps), sub.keys, sub.root)
            && Covers(global, sub.keys)
            && sub.delta == Delta(prover.state(0, sub.steps).value, global, sub.keys)
  {
    hide Verified, Shown, Minus, DeltaCheck;
    var last := prover.state(0, sub.steps);
    VerifiedShows(last, prover.proof(1, sub.steps), sub.keys, sub.root);
    if Shown(last, prover.proof(1, sub.steps), sub.keys, sub.root) {
      DeltaPasses(last.value, global, sub.delta, sub.keys);
    }
  }

  /** Against any prover, adaptive ones included, the check accepts exactly that. */
  lemma CheckAcceptsExactly(world: World, global: State, sub: Submission, prover: Prover, shard: Shard, n: nat,
                            lr: real, protocolSteps: Option<nat>, beacon: seq<int>)
    ensures Check(world, global, sub, prover, shard, n, lr, protocolSteps, beacon) == Ok(true)
       <==> Accepts(world, global, sub, prover, shard, n, lr, protocolSteps, beacon)
  {
    hide Endpoint, Challenges, Answered, Shown, Delta, Indices, Covers;
    if HeaderPasses(sub, shard, protocolSteps) {
      EndpointPasses(global, sub, prover);
      if n > 0 && sub.steps > 0 {
        ChallengesPass(Job(world, shard, sub.keys, lr, sub.expert), global, sub.root, prover, 2,
                       Indices(world, sub.root, shard, beacon, sub.steps, n));
      }
    }
  }

  /** The tree commits s, and commits its recomputed successor, at whatever positions. */
  predicate CommitsPair(job: Job, global: State, leaves: seq<Hash>, s: State) {
    && Covers(s, job.keys) && StateLeaf(s, job.keys) in leaves
    && StateLeaf(Recompute(job, global, s), job.keys) in leaves
  }

  /** Showing s along p, and its recomputed successor along q, answers a challenge. */
  predicate Answers(job: Job, global: State, root: Hash, s: State, p: seq<Merkle.Step<State>>,
                    q: seq<Merkle.Step<State>>) {
    && Covers(s, job.keys) && Climb(StateLeaf(s, job.keys), p) == root
    && Climb(StateLeaf(Recompute(job, global, s), job.keys), q) == root
  }

  /** A challenge binds membership, not position: with free choice of the proofs a state answers it exactly when the
      tree commits that state and its recomputed successor anywhere. */
  lemma AnswerableExactly(job: Job, global: State, leaves: seq<Hash>, s: State)
    requires leaves != [] && Atoms(leaves)
    ensures (exists p, q :: Answers(job, global, Root(leaves), s, p, q)) <==> CommitsPair(job, global, leaves, s)
  {
    hide Root, Climb, Recompute, Atoms, Covers;
    if Covers(s, job.keys) {
      ReachableExactly(leaves, StateLeaf(s, job.keys));
      ReachableExactly(leaves, StateLeaf(Recompute(job, global, s), job.keys));
      if p, q :| Answers(job, global, Root(leaves), s, p, q) {
        ReachedIsLeaf(leaves, StateLeaf(s, job.keys), p);
        ReachedIsLeaf(leaves, StateLeaf(Recompute(job, global, s), job.keys), q);
      }
      if CommitsPair(job, global, leaves, s) {
        var p :| Climb(StateLeaf(s, job.keys), p) == Root(leaves);
        var q :| Climb(StateLeaf(Recompute(job, global, s), job.keys), q) == Root(leaves);
        assert Answers(job, global, Root(leaves), s, p, q);
      }
    }
  }

  /** Some committed state explains the submitted delta. */
  ghost predicate ExplainsDelta(global: State, sub: Submission, leaves: seq<Hash>, s: State)
    requires Covers(global, sub.keys)
  {
    Covers(s, sub.keys) && StateLeaf(s, sub.keys) in leaves && sub.delta == Delta(s, global, sub.keys)
  }

  /** What a commitment must hold for some prover to be accepted on it. */
  ghost predicate Passable(world: World, global: State, sub: Submission, leaves: seq<Hash>, shard: Shard, n: nat, lr: real,
                           protocolSteps: Option<nat>)
  {
    && HeaderPasses(sub, shard, protocolSteps)
    && Covers(global, sub.keys) && (exists s :: ExplainsDelta(global, sub, leaves, s))
    && (n > 0 ==>
          sub.steps > 0 && exists s :: CommitsPair(Job(world, shard, sub.keys, lr, sub.expert), global, leaves, s))
  }

  /** A prover that shows one state and its proof for the endpoint, and one pair with its proofs for every challenge. */
  function PairProver(last: State, r: seq<Merkle.Step<State>>, s: State, p: seq<Merkle.Step<State>>,
                      q: seq<Merkle.Step<State>>): Prover
  {
    Prover((t: nat, i: nat) => if t == 0 then Some(last) else Some(s),
           (t: nat, i: nat) => if t == 1 then Some(r) else if t % 3 == 0 then Some(p) else Some(q))
  }

  lemma PairProverAnswers(job: Job, global: State, root: Hash, last: State, r: seq<Merkle.Step<State>>, s: State,
                          p: seq<Merkle.Step<State>>, q: seq<Merkle.Step<State>>, i: nat, j: nat)
    requires j > 0 && Answers(job, global, root, s, p, q)
    ensures Answered(job, global, root, PairProver(last, r, s, p, q), 2 + 3 * i, j)
  {
    var prover, t := PairProver(last, r, s, p, q), 2 + 3 * i;
    assert (t + 1) % 3 == 0 && (t + 2) % 3 == 1;
    assert prover.state(t, j - 1) == Some(s);
    assert prover.proof(t + 1, j - 1) == Some(p) && prover.proof(t + 2, j) == Some(q);
    hide Climb, StateLeaf, Covers, Recompute, PairProver;
  }

  lemma AcceptedIsPassable(world: World, global: State, sub: Submission, prover: Prover, leaves: seq<Hash>, shard: Shard,
                           n: nat, lr: real, protocolSteps: Option<nat>, beacon: seq<int>)
    requires leaves != [] && Atoms(leaves) && sub.root == Root(leaves)
    requires Accepts(world, global, sub, prover, shard, n, lr, protocolSteps, beacon)
    ensures Passable(world, global, sub, leaves, shard, n, lr, protocolSteps)
  {
    hide Climb, Root, Atoms, Delta, Covers, Recompute, CommitsPair;
    var last := prover.state(0, sub.steps).value;
    ReachedIsLeaf(leaves, StateLeaf(last, sub.keys), prover.proof(1, sub.steps).value);
    assert ExplainsDelta(global, sub, leaves, last);
    if n > 0 {
      var job, j := Job(world, shard, sub.keys, lr, sub.expert), Indices(world, sub.root, shard, beacon, sub.steps, n)[0];
      assert Answered(job, global, sub.root, prover, 2 + 3 * 0, j);
      AnsweredPair(job, global, leaves, prover, 2, j);
    }
  }

  lemma AnsweredPair(job: Job, global: State, leaves: seq<Hash>, prover: Prover, t: nat, j: nat)
    requires leaves != [] && Atoms(leaves) && j > 0 && Answered(job, global, Root(leaves), prover, t, j)
    ensures prover.state(t, j - 1).Some? && CommitsPair(job, global, leaves, prover.state(t, j - 1).value)
  {
    hide Climb, Root, Atoms, Covers, Recompute, CommitsPair;
    var s, p, q := prover.state(t, j - 1).value, prover.proof(t + 1, j - 1).value, prover.proof(t + 2, j).value;
    assert Answers(job, global, Root(leaves), s, p, q);
    AnswerableExactly(job, global, leaves, s);
  }

  lemma PassableIsAccepted(world: World, global: State, sub: Submission, leaves: seq<Hash>, shard: Shard, n: nat,
                           lr: real, protocolSteps: Option<nat>, beacon: seq<int>) returns (prover: Prover)
    requires leaves != [] && Atoms(leaves) && sub.root == Root(leaves)
    requires Passable(world, global, sub, leaves, shard, n, lr, protocolSteps)
    ensures Accepts(world, global, sub, prover, shard, n, lr, protocolSteps, beacon)
  {
    hide Climb, Root, Atoms, Delta, Covers, Recompute, CommitsPair, Answers, Answered;
    var job := Job(world, shard, sub.keys, lr, sub.expert);
    var last :| ExplainsDelta(global, sub, leaves, last);
    ReachableExactly(leaves, StateLeaf(last, sub.keys));
    var r :| Climb(StateLeaf(last, sub.keys), r) == Root(leaves);
    var s, p, q := last, r, r;
    if n > 0 {
      s :| CommitsPair(job, global, leaves, s);
      AnswerableExactly(job, global, leaves, s);
      p, q :| Answers(job, global, Root(leaves), s, p, q);
    }
    prover := PairProver(last, r, s, p, q);
    if n > 0 {
      var js := Indices(world, sub.root, shard, beacon, sub.steps, n);
      forall i | 0 <= i < n ensures Answered(job, global, sub.root, prover, 2 + 3 * i, js[i]) {
        PairProverAnswers(job, global, sub.root, last, r, s, p, q, i, js[i]);
      }
    }
  }

  /** So for the whole check, over every prover there is: a commitment can be passed exactly when its header fits, it
      holds a state that explains the delta, and, if anything is challenged, one state with its recomputed successor. */
  lemma PassableExactly(world: World, global: State, sub: Submission, leaves: seq<Hash>, shard: Shard, n: nat, lr: real,
                        protocolSteps: Option<nat>, beacon: seq<int>)
    requires leaves != [] && Atoms(leaves) && sub.root == Root(leaves)
    ensures (exists prover: Prover :: Check(world, global, sub, prover, shard, n, lr, protocolSteps, beacon) == Ok(true))
       <==> Passable(world, global, sub, leaves, shard, n, lr, protocolSteps)
  {
    hide *;
    forall prover: Prover | Check(world, global, sub, prover, shard, n, lr, protocolSteps, beacon) == Ok(true)
      ensures Passable(world, global, sub, leaves, shard, n, lr, protocolSteps)
    {
      CheckAcceptsExactly(world, global, sub, prover, shard, n, lr, protocolSteps, beacon);
      AcceptedIsPassable(world, global, sub, prover, leaves, shard, n, lr, protocolSteps, beacon);
    }
    if Passable(world, global, sub, leaves, shard, n, lr, protocolSteps) {
      var prover := PassableIsAccepted(world, global, sub, leaves, shard, n, lr, protocolSteps, beacon);
      CheckAcceptsExactly(world, global, sub, prover, shard, n, lr, protocolSteps, beacon);
    }
  }

  // ---------------------------------------------------------------- what the game accepts

  /** Committed step j is the real one, on the trainable keys. */
  predicate Consistent(job: Job, states: seq<State>, j: nat)
    requires 1 <= j < |states| && AllCover(states, job.keys)
  {
    Restrict(Step(job, states[j - 1]), job.keys) == Restrict(states[j], job.keys)
  }

  lemma {:induction false} TrajectoryAt(job: Job, honest: bool, skip: Option<nat>, global: State, n: nat, j: nat)
    requires Covers(global, job.keys) && 1 <= j <= n
    ensures var t := Trajectory(job, honest, skip, global, n);
            t[j] == if Works(honest, skip, j - 1) then Step(job, t[j - 1]) else t[j - 1]
  {
    hide Step;
    if j < n {
      TrajectoryAt(job, honest, skip, global, n - 1, j);
    }
  }

  lemma {:induction false} TrajectoryFrozen(job: Job, honest: bool, skip: Option<nat>, global: State, n: nat, i: nat)
    requires Covers(global, job.keys) && i <= n
    ensures var t := Trajectory(job, honest, skip, global, n);
            forall k :: k in global && k !in job.keys ==> t[i][k] == global[k]
    decreases i
  {
    if i > 0 {
      TrajectoryAt(job, honest, skip, global, n, i);
      TrajectoryFrozen(job, honest, skip, global, n, i - 1);
    }
  }

  lemma RestoreFrozen(global: State, s: State, keys: seq<string>)
    requires s.Keys == global.Keys && forall k :: k in global && k !in keys ==> s[k] == global[k]
    ensures global + Restrict(s, keys) == s && global + s == s
  {
  }

  /** The verifier needs only the trainable part of a revealed state: the frozen part is its own copy. */
  lemma RevealedPartSuffices(job: Job, honest: bool, skip: Option<nat>, global: State, n: nat, i: nat)
    requires Covers(global, job.keys) && i <= n
    ensures var s := Trajectory(job, honest, skip, global, n)[i];
            global + Restrict(s, job.keys) == s && global + s == s
  {
    hide *;
    TrajectoryFrozen(job, honest, skip, global, n, i);
    RestoreFrozen(global, Trajectory(job, honest, skip, global, n)[i], job.keys);
  }

  /** The worker as a prover: its own states, its own proofs, an index error beyond them. */
  function WorkerProver(states: seq<State>, leaves: seq<Hash>): Prover {
    Prover((t: nat, i: nat) => if i < |states| then Some(states[i]) else None,
           (t: nat, i: nat) => if i < |leaves| then Some(Proof(leaves, i)) else None)
  }

  lemma OwnStateShown(states: seq<State>, keys: seq<string>, i: nat, t: nat)
    requires i < |states| && Covers(states[i], keys)
    ensures var leaves := Leaves(states, keys);
            var prover := WorkerProver(states, leaves);
            && prover.state(t, i) == Some(states[i]) && prover.proof(t + 1, i) == Some(Proof(leaves, i))
            && Shown(prover.state(t, i), prover.proof(t + 1, i), keys, Root(leaves))
  {
    hide Proof, Climb, Root, Covers, StateLeaf;
    var leaves := Leaves(states, keys);
    OwnProofBinds(leaves, i, leaves[i]);
  }

  lemma OwnChallengeExactly(job: Job, honest: bool, skip: Option<nat>, global: State, n: nat, t: nat, j: nat)
    requires Covers(global, job.keys) && 1 <= j <= n
    ensures var states := Trajectory(job, honest, skip, global, n);
            var leaves := Leaves(states, job.keys);
            && AllCover(states, job.keys)
            && (Answered(job, global, Root(leaves), WorkerProver(states, leaves), t, j) <==> Consistent(job, states, j))
  {
    hide *;
    var states := Trajectory(job, honest, skip, global, n);
    var leaves := Leaves(states, job.keys);
    AllCovered(states, global, job.keys);
    CoversEach(states, job.keys, j - 1);
    OwnStateShown(states, job.keys, j - 1, t);
    RevealedPartSuffices(job, honest, skip, global, n, j - 1);
    RecomputeOwn(job, global, states[j - 1]);
    OwnNextShown(job, states, j, t);
    AnsweredIs(job, global, Root(leaves), WorkerProver(states, leaves), t, j);
  }

  lemma CoversEach(states: seq<State>, keys: seq<string>, i: nat)
    requires AllCover(states, keys) && i < |states|
    ensures Covers(states[i], keys)
  {
  }

  /** On a state with the verifier's own frozen part, recomputing is stepping. */
  lemma RecomputeOwn(job: Job, global: State, s: State)
    requires Covers(s, job.keys) && global + s == s
    ensures Recompute(job, global, s) == Step(job, s)
  {
    hide Step;
  }

  /** The recomputed successor passes against the worker's own proof exactly when it is the committed one. */
  lemma OwnNextShown(job: Job, states: seq<State>, j: nat, t: nat)
    requires 1 <= j < |states| && AllCover(states, job.keys)
    ensures Covers(states[j - 1], job.keys)
    ensures var leaves := Leaves(states, job.keys);
            Shown(Some(Step(job, states[j - 1])), WorkerProver(states, leaves).proof(t + 2, j), job.keys, Root(leaves))
            <==> Consistent(job, states, j)
  {
    hide Proof, Climb, Root, Step;
    var leaves := Leaves(states, job.keys);
    OwnProofBinds(leaves, j, StateLeaf(Step(job, states[j - 1]), job.keys));
  }

  lemma AnsweredIs(job: Job, global: State, root: Hash, prover: Prover, t: nat, j: nat)
    requires j > 0 && prover.state(t, j - 1).Some? && Covers(prover.state(t, j - 1).value, job.keys)
    ensures Answered(job, global, root, prover, t, j)
       <==> Shown(prover.state(t, j - 1), prover.proof(t + 1, j - 1), job.keys, root)
            && Shown(Some(Recompute(job, global, prover.state(t, j - 1).value)), prover.proof(t + 2, j), job.keys, root)
  {
    hide Shown, Recompute, Covers;
  }

  /** A worker's own submission passes exactly when every challenged step is consistent. */
  lemma WorkerPassesExactly(world: World, shard: Shard, keys: seq<string>, lr: real, expert: Option<nat>, honest: bool,
                            skip: Option<nat>, global: State, h: nat, n: nat, beacon: seq<int>)
    requires Covers(global, keys) && (n > 0 ==> h > 0)
    ensures var job := Job(world, shard, keys, lr, expert);
            var states := Trajectory(job, honest, skip, global, h);
            var leaves := Leaves(states, keys);
            var sub := Commitment(job, global, states);
            && AllCover(states, keys)
            && (Check(world, global, sub, WorkerProver(states, leaves), shard, n, lr, Some(h), beacon) == Ok(true)
                <==> n > 0 ==> forall i :: 0 <= i < n ==>
                       Consistent(job, states, Indices(world, sub.root, shard, beacon, h, n)[i]))
  {
    hide Trajectory, Step, Consistent, Answered, Root, Check, Indices, WorkerProver, Shown;
    var job := Job(world, shard, keys, lr, expert);
    var states := Trajectory(job, honest, skip, global, h);
    var leaves := Leaves(states, keys);
    var sub := Commitment(job, global, states);
    CheckAcceptsExactly(world, global, sub, WorkerProver(states, leaves), shard, n, lr, Some(h), beacon);
    OwnStateShown(states, keys, h, 0);
    if n > 0 {
      var js := Indices(world, sub.root, shard, beacon, h, n);
      forall i | 0 <= i < n
        ensures Answered(job, global, sub.root, WorkerProver(states, leaves), 2 + 3 * i, js[i])
           <==> Consistent(job, states, js[i])
      {
        OwnChallengeExactly(job, honest, skip, global, h, 2 + 3 * i, js[i]);
      }
    }
  }

  /** The trajectory's leaves commit the state the delta came from, and its first step when that was really taken. */
  lemma TrajectoryCommits(job: Job, honest: bool, skip: Option<nat>, global: State, h: nat)
    requires Covers(global, job.keys) && (h > 0 ==> Works(honest, skip, 0))
    ensures var states := Trajectory(job, honest, skip, global, h);
            var leaves, sub := Leaves(states, job.keys), Commitment(job, global, states);
            && leaves != [] && Atoms(leaves) && ExplainsDelta(global, sub, leaves, states[h])
            && (h > 0 ==> CommitsPair(job, global, leaves, states[0]))
  {
    hide Step, Root, Delta, Recompute;
    var states := Trajectory(job, honest, skip, global, h);
    var leaves := Leaves(states, job.keys);
    AllCovered(states, global, job.keys);
    assert leaves[h] == StateLeaf(states[h], job.keys) && leaves[0] == StateLeaf(states[0], job.keys);
    if h > 0 {
      TrajectoryAt(job, honest, skip, global, h, 1);
      RevealedPartSuffices(job, honest, skip, global, h, 0);
      hide Trajectory;
      RecomputeOwn(job, global, states[0]);
      assert leaves[1] == StateLeaf(states[1], job.keys);
    }
  }

  /** The documented detection does not hold of every prover: a worker that really takes its first step, however many it
      skips after it, has a submission on which some prover is accepted, whatever is challenged. */
  lemma OneRealStepPasses(world: World, shard: Shard, keys: seq<string>, lr: real, expert: Option<nat>, skip: nat,
                          global: State, h: nat, n: nat, beacon: seq<int>)
    requires Covers(global, keys) && 1 <= skip <= h
    ensures var job := Job(world, shard, keys, lr, expert);
            var states := Trajectory(job, false, Some(skip), global, h);
            Covers(states[h], keys)
            && exists prover: Prover ::
                 Check(world, global, Commitment(job, global, states), prover, shard, n, lr, Some(h), beacon) == Ok(true)
  {
    var job := Job(world, shard, keys, lr, expert);
    hide *;
    var states := Trajectory(job, false, Some(skip), global, h);
    var leaves := Leaves(states, keys);
    AllCovered(states, global, keys);
    CoversEach(states, keys, h);
    var sub := Commitment(job, global, states);
    FirstStepWorks(skip);
    TrajectoryCommits(job, false, Some(skip), global, h);
    OwnHeader(job, global, states);
    PassableFrom(world, global, sub, leaves, shard, n, lr, Some(h), states[h], states[0]);
    PassableExactly(world, global, sub, leaves, shard, n, lr, Some(h), beacon);
  }

  lemma FirstStepWorks(skip: nat)
    requires skip > 0
    ensures Works(false, Some(skip), 0)
  {
  }

  lemma OwnHeader(job: Job, global: State, states: seq<State>)
    requires |states| > 0 && Covers(states[|states| - 1], job.keys) && Covers(global, job.keys)
    ensures var sub := Commitment(job, global, states);
            && HeaderPasses(sub, job.shard, Some(|states| - 1)) && sub.root == Root(Leaves(states, job.keys))
            && sub.keys == job.keys && sub.expert == job.expert && sub.steps == |states| - 1
  {
    hide Root, Minus;
  }

  lemma PassableFrom(world: World, global: State, sub: Submission, leaves: seq<Hash>, shard: Shard, n: nat, lr: real,
                     protocolSteps: Option<nat>, last: State, s: State)
    requires HeaderPasses(sub, shard, protocolSteps) && Covers(global, sub.keys)
    requires ExplainsDelta(global, sub, leaves, last)
    requires sub.steps > 0 && CommitsPair(Job(world, shard, sub.keys, lr, sub.expert), global, leaves, s)
    ensures Passable(world, global, sub, leaves, shard, n, lr, protocolSteps)
  {
    hide HeaderPasses, ExplainsDelta, CommitsPair, Covers;
  }

  lemma RealStepConsistent(job: Job, honest: bool, skip: Option<nat>, global: State, n: nat, j: nat)
    requires Covers(global, job.keys) && 1 <= j <= n && Works(honest, skip, j - 1)
    ensures Consistent(job, Trajectory(job, honest, skip, global, n), j)
  {
    TrajectoryAt(job, honest, skip, global, n, j);
    hide Trajectory, Step;
  }

  /** Once it skips, the worker stands still. */
  lemma {:induction false} StandsStill(job: Job, skip: nat, global: State, n: nat, i: nat)
    requires Covers(global, job.keys) && skip <= i <= n
    ensures var t := Trajectory(job, false, Some(skip), global, n);
            t[i] == t[skip]
    decreases i
  {
    if i > skip {
      TrajectoryAt(job, false, Some(skip), global, n, i);
      StandsStill(job, skip, global, n, i - 1);
    }
  }

  /** Whether a real step from the skip point would have moved any trainable parameter. */
  predicate Moves(job: Job, s: State)
    requires Covers(s, job.keys)
  {
    Restrict(Step(job, s), job.keys) != Restrict(s, job.keys)
  }

  /** The steps a challenge would catch. */
  function BadSteps(job: Job, states: seq<State>): set<nat>
    requires AllCover(states, job.keys)
  {
    set j: nat | 1 <= j < |states| && !Consistent(job, states, j)
  }

  function StepsUpTo(first: nat, last: nat): (r: set<nat>)
    ensures forall j :: j in r <==> first < j <= last
  {
    if last <= first then {} else StepsUpTo(first, last - 1) + {last}
  }

  /** An honest worker, or one whose skip point lies beyond the run, has no bad step. */
  lemma HonestHasNoBadStep(job: Job, honest: bool, skip: Option<nat>, global: State, n: nat)
    requires Covers(global, job.keys) && (honest || skip.None? || n <= skip.value)
    ensures BadSteps(job, Trajectory(job, honest, skip, global, n)) == {}
  {
    hide Trajectory, Consistent;
    forall j: nat | 1 <= j <= n ensures Consistent(job, Trajectory(job, honest, skip, global, n), j) {
      RealStepConsistent(job, honest, skip, global, n, j);
    }
  }

  /** A lazy worker's bad steps are exactly the skipped ones, unless training had already come to rest there. */
  lemma LazyBadSteps(job: Job, skip: nat, global: State, n: nat)
    requires Covers(global, job.keys) && skip <= n
    ensures var t := Trajectory(job, false, Some(skip), global, n);
            BadSteps(job, t) == if Moves(job, t[skip]) then StepsUpTo(skip, n) else {}
  {
    hide Trajectory, Step;
    var t := Trajectory(job, false, Some(skip), global, n);
    forall j: nat | 1 <= j <= n ensures Consistent(job, t, j) <==> j <= skip || !Moves(job, t[skip]) {
      if j <= skip {
        RealStepConsistent(job, false, Some(skip), global, n, j);
      } else {
        StandsStill(job, skip, global, n, j - 1);
        StandsStill(job, skip, global, n, j);
      }
    }
  }

  // ---------------------------------------------------------------- how many challenges catch it

  function Pow(b: nat, n: nat): nat { if n == 0 then 1 else b * Pow(b, n - 1) }

  /** Every length-n vector over a set. */
  ghost function Prefixed(firsts: set<nat>, rest: set<seq<nat>>): set<seq<nat>> {
    set g, v | g in firsts && v in rest :: [g] + v
  }

  ghost function Vectors(over: set<nat>, n: nat): set<seq<nat>> {
    if n == 0 then {[]} else Prefixed(over, Vectors(over, n - 1))
  }

  predicate AllIn(v: seq<nat>, over: set<nat>) { forall i :: 0 <= i < |v| ==> v[i] in over }

  lemma {:induction false} VectorsAreAll(over: set<nat>, n: nat, v: seq<nat>)
    ensures v in Vectors(over, n) <==> |v| == n && AllIn(v, over)
  {
    if n > 0 {
      if v in Vectors(over, n) {
        var g, w :| g in over && w in Vectors(over, n - 1) && v == [g] + w;
        VectorsAreAll(over, n - 1, w);
      }
      if |v| == n && AllIn(v, over) {
        assert v == [v[0]] + v[1..];
        VectorsAreAll(over, n - 1, v[1..]);
      }
    }
  }

  lemma PrefixedHas(firsts: set<nat>, rest: set<seq<nat>>, v: seq<nat>)
    ensures v in Prefixed(firsts, rest) <==> v != [] && v[0] in firsts && v[1..] in rest
  {
    if v != [] && v[0] in firsts && v[1..] in rest {
      assert v == [v[0]] + v[1..];
    }
    if v in Prefixed(firsts, rest) {
      var g, w :| g in firsts && w in rest && v == [g] + w;
      assert v[1..] == w;
    }
  }

  lemma OneFirst(g: nat, rest: set<seq<nat>>)
    ensures |Prefixed({g}, rest)| == |rest|
    decreases |rest|
  {
    hide Prefixed;
    if rest == {} {
      forall x ensures x !in Prefixed({g}, rest) {
        PrefixedHas({g}, rest, x);
      }
      assert Prefixed({g}, rest) == {};
    } else {
      var v :| v in rest;
      var less := rest - {v};
      OneFirst(g, less);
      forall x ensures x in Prefixed({g}, rest) <==> x in Prefixed({g}, less) || x == [g] + v {
        PrefixedHas({g}, rest, x);
        PrefixedHas({g}, less, x);
        assert x == [g] + v ==> x[1..] == v;
        assert x != [] && x[0] == g && x[1..] == v ==> x == [g] + v;
      }
      assert Prefixed({g}, rest) == Prefixed({g}, less) + {[g] + v};
      PrefixedHas({g}, less, [g] + v);
      assert ([g] + v)[1..] == v;
    }
  }

  lemma PrefixedSplit(firsts: set<nat>, rest: set<seq<nat>>, g: nat)
    requires g in firsts
    ensures |Prefixed(firsts, rest)| == |Prefixed(firsts - {g}, rest)| + |Prefixed({g}, rest)|
  {
    hide Prefixed;
    var a, b := Prefixed(firsts - {g}, rest), Prefixed({g}, rest);
    forall v ensures (v in Prefixed(firsts, rest) <==> v in a || v in b) && !(v in a && v in b) {
      PrefixedHas(firsts, rest, v);
      PrefixedHas(firsts - {g}, rest, v);
      PrefixedHas({g}, rest, v);
    }
    assert Prefixed(firsts, rest) == a + b;
    assert a !! b;
  }

  lemma PrefixedCount(firsts: set<nat>, rest: set<seq<nat>>)
    ensures |Prefixed(firsts, rest)| == |firsts| * |rest|
    decreases |firsts|
  {
    if firsts == {} {
      forall x ensures x !in Prefixed(firsts, rest) {
        PrefixedHas(firsts, rest, x);
      }
      assert Prefixed(firsts, rest) == {};
    } else {
      hide Prefixed;
      var g :| g in firsts;
      PrefixedCount(firsts - {g}, rest);
      OneFirst(g, rest);
      PrefixedSplit(firsts, rest, g);
      assert |firsts| == |firsts - {g}| + 1;
    }
  }

  lemma {:induction false} VectorsCount(over: set<nat>, n: nat)
    ensures |Vectors(over, n)| == Pow(|over|, n)
  {
    if n > 0 {
      VectorsCount(over, n - 1);
      PrefixedCount(over, Vectors(over, n - 1));
    }
  }

  lemma {:induction false} StepsCount(first: nat, last: nat)
    requires first <= last
    ensures |StepsUpTo(first, last)| == last - first
    decreases last
  {
    if first < last {
      StepsCount(first, last - 1);
    }
  }

  /** The challenge vectors a committed trajectory survives. */
  ghost function Survived(job: Job, states: seq<State>, n: nat): set<seq<nat>>
    requires |states| > 0 && AllCover(states, job.keys)
  {
    var all := StepsUpTo(0, |states| - 1);
    var good := all - BadSteps(job, states);
    set v | v in Vectors(all, n) && AllIn(v, good)
  }

  /** Of the H^n challenge vectors exactly (H - b)^n miss all b bad steps. */
  lemma SurvivedCount(job: Job, states: seq<State>, n: nat)
    requires |states| > 0 && AllCover(states, job.keys)
    ensures var h, b := |states| - 1, |BadSteps(job, states)|;
            && b <= h
            && |Vectors(StepsUpTo(0, h), n)| == Pow(h, n)
            && |Survived(job, states, n)| == Pow(h - b, n)
  {
    hide Consistent, Vectors;
    var h := |states| - 1;
    var all, bad := StepsUpTo(0, h), BadSteps(job, states);
    StepsCount(0, h);
    VectorsCount(all, n);
    VectorsCount(all - bad, n);
    assert bad <= all;
    Subtract(all, bad);
    forall v ensures v in Survived(job, states, n) <==> v in Vectors(all - bad, n) {
      VectorsAreAll(all, n, v);
      VectorsAreAll(all - bad, n, v);
    }
    assert Survived(job, states, n) == Vectors(all - bad, n);
  }

  lemma Subtract(all: set<nat>, bad: set<nat>)
    requires bad <= all
    ensures |bad| <= |all| && |all - bad| == |all| - |bad|
  {
    assert all == bad + (all - bad);
  }

  function RealPow(x: real, n: nat): real { if n == 0 then 1.0 else x * RealPow(x, n - 1) }

  /** `detection_probability` */
  function DetectionProbability(skipFraction: real, n: nat): real { 1.0 - RealPow(1.0 - skipFraction, n) }

  lemma {:induction false} PowOfFraction(a: nat, h: nat, n: nat)
    requires h > 0
    ensures RealPow(a as real / h as real, n) * Pow(h, n) as real == Pow(a, n) as real
  {
    if n > 0 {
      PowOfFraction(a, h, n - 1);
      var x, p, q := RealPow(a as real / h as real, n - 1), Pow(h, n - 1), Pow(a, n - 1);
      assert Pow(h, n) as real == h as real * p as real;
      assert Pow(a, n) as real == a as real * q as real;
      Cancel(a as real, h as real, x, p as real);
    }
  }

  lemma Cancel(a: real, h: real, x: real, p: real)
    requires h > 0.0
    ensures (a / h * x) * (h * p) == a * (x * p)
  {
    var f := a / h;
    assert f * h == a;
    assert (f * x) * (h * p) == (f * h) * (x * p);
  }

  lemma KeptFraction(skip: nat, h: nat)
    requires skip <= h && h > 0
    ensures 1.0 - (h - skip) as real / h as real == skip as real / h as real
  {
    var a, b := h as real, skip as real;
    assert (h - skip) as real == a - b;
    var f, g := (a - b) / a, b / a;
    assert f * a == a - b && g * a == b;
    Quotient(1.0 - f - g, a);
  }

  lemma Quotient(x: real, a: real)
    requires a > 0.0
    ensures x * a / a == x && (x * a == 0.0 ==> x == 0.0)
  {
  }

  lemma Complement(x: real, p: real)
    ensures (1.0 - x) * p == p - x * p
  {
  }

  lemma ProbabilityIsFraction(skip: nat, h: nat, n: nat)
    requires skip <= h && h > 0
    ensures DetectionProbability((h - skip) as real / h as real, n) * Pow(h, n) as real
         == (Pow(h, n) - Pow(skip, n)) as real
  {
    hide RealPow, Pow;
    PowOfFraction(skip, h, n);
    KeptFraction(skip, h);
    Complement(RealPow(skip as real / h as real, n), Pow(h, n) as real);
  }

  /** The documented probability is the exact fraction of challenge vectors that catch a lazy worker which answers with
      its own states and proofs. */
  lemma DetectionIsExact(job: Job, skip: nat, global: State, h: nat, n: nat)
    requires Covers(global, job.keys) && skip <= h && h > 0
    requires Moves(job, Trajectory(job, false, Some(skip), global, h)[skip])
    ensures var t := Trajectory(job, false, Some(skip), global, h);
            && |Survived(job, t, n)| == Pow(skip, n)
            && DetectionProbability((h - skip) as real / h as real, n) * Pow(h, n) as real
               == (Pow(h, n) - |Survived(job, t, n)|) as real
  {
    hide *;
    var t := Trajectory(job, false, Some(skip), global, h);
    LazyBadSteps(job, skip, global, h);
    StepsCount(skip, h);
    AllCovered(t, global, job.keys);
    SurvivedCount(job, t, n);
    ProbabilityIsFraction(skip, h, n);
  }

  lemma AllCovered(states: seq<State>, global: State, keys: seq<string>)
    requires Covers(global, keys) && forall i :: 0 <= i < |states| ==> states[i].Keys == global.Keys
    ensures AllCover(states, keys)
  {
  }

  // ---------------------------------------------------------------- what the entries are

  /** Adding the delta to the global parameters gives back the last state, entry by entry. */
  lemma DeltaRecovers(last: State, global: State, keys: seq<string>, k: string, i: nat)
    requires Covers(last, keys) && Covers(global, keys) && k in keys
    requires |last[k]| == |global[k]| && i < |last[k]|
    ensures |Delta(last, global, keys)[k]| == |last[k]|
    ensures global[k][i] + Delta(last, global, keys)[k][i] == last[k][i]
  {
  }

  predicate Distinct(keys: seq<string>) { forall i, j :: 0 <= i < j < |keys| ==> keys[i] != keys[j] }

  lemma {:induction false} DescendEntry(job: Job, at: State, keys: seq<string>, k: string)
    requires Covers(at, keys) && Distinct(keys) && k in keys
    ensures Descend(job, at, keys)[k] == Minus(at[k], Scaled(job.lr, job.world.gradient(at, job.shard, job.expert, k)))
  {
    hide Minus, Scaled;
    var n := |keys| - 1;
    assert keys == keys[..n] + [keys[n]];
    if k in keys[..n] {
      DescendEntry(job, at, keys[..n], k);
      var i :| 0 <= i < n && keys[i] == k;
      assert keys[i] != keys[n];
    } else {
      assert k == keys[n];
    }
  }

  /** A step takes the learning rate times the gradient from every entry of every trainable parameter, the gradient of
      all of them taken at the state before the step. */
  lemma StepEntry(job: Job, s: State, k: string, i: nat)
    requires Covers(s, job.keys) && Distinct(job.keys) && k in job.keys && i < |s[k]|
    ensures var g := job.world.gradient(s, job.shard, job.expert, k);
            && |Step(job, s)[k]| == |s[k]|
            && (|job.shard.x| == 0 ==> Step(job, s) == s)
            && (|job.shard.x| > 0 && |g| == |s[k]| ==> Step(job, s)[k][i] == s[k][i] - job.lr * g[i])
  {
    hide Descend, Minus, Scaled;
    if |job.shard.x| > 0 {
      DescendEntry(job, s, job.keys, k);
      MinusScaled(s[k], job.lr, job.world.gradient(s, job.shard, job.expert, k), i);
    }
  }

  lemma MinusScaled(a: Vector, c: real, g: Vector, i: nat)
    requires i < |a|
    ensures |g| == |a| ==> Minus(a, Scaled(c, g))[i] == a[i] - c * g[i]
  {
  }

  /** Two states have one leaf exactly when they agree on the trainable keys. */
  lemma LeafBinds(s: State, t: State, keys: seq<string>)
    requires Covers(s, keys) && Covers(t, keys)
    ensures StateLeaf(s, keys) == StateLeaf(t, keys) <==> forall k :: k in keys ==> s[k] == t[k]
  {
    if StateLeaf(s, keys) == StateLeaf(t, keys) {
      assert Restrict(s, keys) == Restrict(t, keys);
      forall k | k in keys ensures s[k] == t[k] {
        assert s[k] == Restrict(s, keys)[k] == Restrict(t, keys)[k];
      }
    }
    if forall k :: k in keys ==> s[k] == t[k] {
      assert Restrict(s, keys) == Restrict(t, keys);
    }
  }

  /** A committed step is consistent exactly when gradient descent gives its trainable parameters. */
  lemma ConsistentExactly(job: Job, states: seq<State>, j: nat)
    requires 1 <= j < |states| && AllCover(states, job.keys)
    ensures Covers(states[j - 1], job.keys)
    ensures Consistent(job, states, j) <==> forall k :: k in job.keys ==> states[j][k] == Step(job, states[j - 1])[k]
    ensures Moves(job, states[j - 1]) <==> exists k :: k in job.keys && Step(job, states[j - 1])[k] != states[j - 1][k]
  {
    hide Step;
    LeafBinds(Step(job, states[j - 1]), states[j], job.keys);
    LeafBinds(Step(job, states[j - 1]), states[j - 1], job.keys);
  }

  /** In expert mode the verifier recomputes a worker's step from the trainable part of what it is shown; otherwise it
      steps the very state it is shown, whatever its own copy. */
  lemma RecomputeExactly(job: Job, honest: bool, skip: Option<nat>, global: State, n: nat, i: nat)
    requires Covers(global, job.keys) && i <= n
    ensures var s := Trajectory(job, honest, skip, global, n)[i];
            && Covers(Restrict(s, job.keys), job.keys)
            && (job.expert.Some? ==> Recompute(job, global, Restrict(s, job.keys)) == Step(job, s))
            && (job.expert.None? ==> forall other: State :: Recompute(job, other, s) == Step(job, s))
  {
    hide Step, Trajectory;
    RevealedPartSuffices(job, honest, skip, global, n, i);
  }

  // ---------------------------------------------------------------- which steps are asked

  /** Each challenged step is, modulo H, one more than the hash of root, data, beacon and its own number. */
  lemma IndexExactly(world: World, root: Hash, data: Shard, beacon: seq<int>, h: nat, n: nat, t: nat)
    requires h > 0 && t < n
    ensures var j := Indices(world, root, data, beacon, h, n)[t];
            1 <= j <= h && exists q :: world.hash(root, data, beacon, t) == h * q + j - 1
  {
    var x := world.hash(root, data, beacon, t);
    assert x == h * (x / h) + x % h;
  }

  predicate StepsOf(v: seq<nat>, h: nat) { forall i :: 0 <= i < |v| ==> 1 <= v[i] <= h }

  /** The hash that leads to v on one commitment, data and beacon, and to w on every other. */
  function Steering(root: Hash, data: Shard, beacon: seq<int>, v: seq<nat>, w: seq<nat>, h: nat)
    : (Hash, Shard, seq<int>, nat) -> nat
    requires StepsOf(v, h) && StepsOf(w, h)
  {
    (r: Hash, d: Shard, b: seq<int>, t: nat) =>
      if r == root && d == data && b == beacon then (if t < |v| then v[t] - 1 else 0)
      else if t < |w| then w[t] - 1 else 0
  }

  lemma SteeredThere(world: World, root: Hash, data: Shard, beacon: seq<int>, h: nat, v: seq<nat>)
    requires h > 0 && StepsOf(v, h)
    requires forall t: nat :: t < |v| ==> world.hash(root, data, beacon, t) == v[t] - 1
    ensures Indices(world, root, data, beacon, h, |v|) == v
  {
    forall t | 0 <= t < |v| ensures Indices(world, root, data, beacon, h, |v|)[t] == v[t] {
      SmallRemainder(v[t] - 1, h);
    }
    hide Indices;
  }

  lemma SmallRemainder(x: nat, h: nat)
    requires x < h
    ensures x % h == x
  {
  }

  lemma SteeringSteers(world: World, root: Hash, data: Shard, beacon: seq<int>, v: seq<nat>, w: seq<nat>, h: nat)
    requires h > 0 && StepsOf(v, h) && StepsOf(w, h)
    ensures Indices(world.(hash := Steering(root, data, beacon, v, w, h)), root, data, beacon, h, |v|) == v
  {
    hide Indices;
    SteeredThere(world.(hash := Steering(root, data, beacon, v, w, h)), root, data, beacon, h, v);
  }

  /** Nothing that is hashed can be left out: for two commitments, data sets or beacons that differ at all, and any two
      vectors of steps, the foreign hash may give the one vector on the one and the other on the other. */
  lemma AnyTwoVectors(world: World, root: Hash, data: Shard, beacon: seq<int>, root': Hash, data': Shard,
                      beacon': seq<int>, h: nat, v: seq<nat>, w: seq<nat>)
    requires (root, data, beacon) != (root', data', beacon')
    requires h > 0 && |v| == |w| && StepsOf(v, h) && StepsOf(w, h)
    ensures exists hash ::
              var other := world.(hash := hash);
              && Indices(other, root, data, beacon, h, |v|) == v
              && Indices(other, root', data', beacon', h, |w|) == w
  {
    var hash := Steering(root, data, beacon, v, w, h);
    var other := world.(hash := hash);
    SteeringSteers(world, root, data, beacon, v, w, h);
    SteeredThere(other, root', data', beacon', h, w);
  }

  // ---------------------------------------------------------------- a lazy worker is caught

  lemma OwnAnswerRuns(job: Job, global: State, states: seq<State>, t: nat, j: nat)
    requires 1 <= j < |states| && AllCover(states, job.keys) && Covers(global, job.keys)
    ensures var leaves := Leaves(states, job.keys);
            ChallengeOne(job, global, Root(leaves), WorkerProver(states, leaves), t, j).Ok?
  {
    hide Climb, Root, Proof, Step, StateLeaf;
    CoversEach(states, job.keys, j - 1);
  }

  lemma {:induction false} OwnAnswersRun(job: Job, global: State, states: seq<State>, t: nat, indices: seq<nat>)
    requires |states| > 0 && AllCover(states, job.keys) && Covers(global, job.keys)
    requires StepsOf(indices, |states| - 1)
    ensures var leaves := Leaves(states, job.keys);
            Challenges(job, global, Root(leaves), WorkerProver(states, leaves), t, indices).Ok?
    decreases |indices|
  {
    hide ChallengeOne, Root, WorkerProver, AllCover, Covers;
    if indices != [] {
      OwnAnswerRuns(job, global, states, t, indices[0]);
      OwnAnswersRun(job, global, states, t + 3, indices[1..]);
    }
  }

  lemma IndicesAreSteps(world: World, root: Hash, data: Shard, beacon: seq<int>, h: nat, n: nat)
    requires h > 0
    ensures StepsOf(Indices(world, root, data, beacon, h, n), h)
  {
  }

  /** A worker's own submission is never met with an exception. */
  lemma WorkerAnswers(world: World, shard: Shard, keys: seq<string>, lr: real, expert: Option<nat>, honest: bool,
                      skip: Option<nat>, global: State, h: nat, n: nat, beacon: seq<int>)
    requires Covers(global, keys) && h > 0
    ensures var job := Job(world, shard, keys, lr, expert);
            var states := Trajectory(job, honest, skip, global, h);
            && AllCover(states, keys)
            && Check(world, global, Commitment(job, global, states), WorkerProver(states, Leaves(states, keys)), shard, n,
                     lr, Some(h), beacon).Ok?
  {
    hide *;
    var job := Job(world, shard, keys, lr, expert);
    var states := Trajectory(job, honest, skip, global, h);
    var leaves := Leaves(states, keys);
    AllCovered(states, global, keys);
    CoversEach(states, keys, h);
    var sub := Commitment(job, global, states);
    OwnHeader(job, global, states);
    WorkerPassesExactly(world, shard, keys, lr, expert, honest, skip, global, h, 0, beacon);
    IndicesAreSteps(world, sub.root, shard, beacon, h, n);
    OwnAnswersRun(job, global, states, 2, Indices(world, sub.root, shard, beacon, h, n));
    CheckAfterEndpoint(world, global, sub, WorkerProver(states, leaves), shard, n, lr, Some(h), beacon);
  }

  /** Whatever passes without challenges is decided by them. */
  lemma CheckAfterEndpoint(world: World, global: State, sub: Submission, prover: Prover, shard: Shard, n: nat, lr: real,
                           protocolSteps: Option<nat>, beacon: seq<int>)
    requires sub.steps > 0
    requires Check(world, global, sub, prover, shard, 0, lr, protocolSteps, beacon) == Ok(true)
    ensures Check(world, global, sub, prover, shard, n, lr, protocolSteps, beacon)
         == if n == 0 then Ok(true)
            else Challenges(Job(world, shard, sub.keys, lr, sub.expert), global, sub.root, prover, 2,
                            Indices(world, sub.root, shard, beacon, sub.steps, n))
  {
    hide Endpoint, Challenges, Indices;
  }

  /** The verdict on a lazy worker that was still moving where it stopped: refused exactly when some challenge asks for
      a step past that point. */
  lemma LazyVerdict(world: World, shard: Shard, keys: seq<string>, lr: real, expert: Option<nat>, skip: nat,
                    global: State, h: nat, n: nat, beacon: seq<int>)
    requires Covers(global, keys) && skip < h
    requires var job := Job(world, shard, keys, lr, expert);
             Moves(job, Trajectory(job, false, Some(skip), global, h)[skip])
    ensures var job := Job(world, shard, keys, lr, expert);
            var states := Trajectory(job, false, Some(skip), global, h);
            && Covers(states[h], keys)
            && var sub := Commitment(job, global, states);
               var verdict := Check(world, global, sub, WorkerProver(states, Leaves(states, keys)), shard, n, lr, Some(h),
                                    beacon);
               && verdict.Ok?
               && (verdict.value <==> forall i :: 0 <= i < n ==> Indices(world, sub.root, shard, beacon, h, n)[i] <= skip)
  {
    hide *;
    var job := Job(world, shard, keys, lr, expert);
    var states := Trajectory(job, false, Some(skip), global, h);
    WorkerAnswers(world, shard, keys, lr, expert, false, Some(skip), global, h, n, beacon);
    WorkerPassesExactly(world, shard, keys, lr, expert, false, Some(skip), global, h, n, beacon);
    CoversEach(states, keys, h);
    var js := Indices(world, Commitment(job, global, states).root, shard, beacon, h, n);
    forall i | 0 <= i < n ensures Consistent(job, states, js[i]) <==> js[i] <= skip {
      LazyStepBad(job, skip, global, h, js[i]);
    }
    var verdict := Check(world, global, Commitment(job, global, states), WorkerProver(states, Leaves(states, keys)), shard,
                         n, lr, Some(h), beacon);
    assert verdict == Ok(true) <==> forall i :: 0 <= i < n ==> js[i] <= skip by {
      assert n > 0 ==> forall i :: 0 <= i < n ==> (Consistent(job, states, js[i]) <==> js[i] <= skip);
    }
  }

  lemma LazyStepBad(job: Job, skip: nat, global: State, h: nat, j: nat)
    requires Covers(global, job.keys) && skip <= h && 1 <= j <= h
    requires Moves(job, Trajectory(job, false, Some(skip), global, h)[skip])
    ensures AllCover(Trajectory(job, false, Some(skip), global, h), job.keys)
    ensures Consistent(job, Trajectory(job, false, Some(skip), global, h), j) <==> j <= skip
  {
    hide Trajectory, Step, Consistent, Moves;
    LazyBadSteps(job, skip, global, h);
    assert j in BadSteps(job, Trajectory(job, false, Some(skip), global, h)) <==> j in StepsUpTo(skip, h);
  }

  ghost predicate SameButHash(job: Job, other: Job) { other == job.(world := job.world.(hash := other.world.hash)) }

  lemma {:induction false} DescendIgnoresHash(job: Job, other: Job, at: State, keys: seq<string>)
    requires SameButHash(job, other) && Covers(at, keys)
    ensures Descend(other, at, keys) == Descend(job, at, keys)
  {
    hide Minus, Scaled;
    if keys != [] {
      DescendIgnoresHash(job, other, at, keys[..|keys| - 1]);
    }
  }

  lemma SameJob(job: Job, other: Job)
    requires SameButHash(job, other)
    ensures other.shard == job.shard && other.keys == job.keys && other.lr == job.lr && other.expert == job.expert
  {
  }

  lemma StepIgnoresHash(job: Job, other: Job, s: State)
    requires SameButHash(job, other) && Covers(s, job.keys)
    ensures Step(other, s) == Step(job, s)
  {
    hide Descend;
    DescendIgnoresHash(job, other, s, job.keys);
  }

  lemma {:induction false} TrajectoryIgnoresHash(job: Job, other: Job, honest: bool, skip: Option<nat>, global: State,
                                                 n: nat)
    requires SameButHash(job, other) && Covers(global, job.keys)
    ensures Trajectory(other, honest, skip, global, n) == Trajectory(job, honest, skip, global, n)
  {
    hide *;
    SameJob(job, other);
    TrajectoryNone(job, honest, skip, global);
    TrajectoryNone(other, honest, skip, global);
    if n > 0 {
      TrajectoryIgnoresHash(job, other, honest, skip, global, n - 1);
      TrajectoryNext(job, honest, skip, global, n - 1);
      TrajectoryNext(other, honest, skip, global, n - 1);
      StepIgnoresHash(job, other, Trajectory(job, honest, skip, global, n - 1)[n - 1]);
    }
  }

  lemma MovesIgnoresHash(job: Job, other: Job, s: State)
    requires SameButHash(job, other) && Covers(s, job.keys)
    ensures Moves(other, s) == Moves(job, s)
  {
    hide Step;
    StepIgnoresHash(job, other, s);
  }

  lemma CommitmentIgnoresHash(job: Job, other: Job, global: State, states: seq<State>)
    requires SameButHash(job, other)
    requires |states| > 0 && Covers(states[|states| - 1], job.keys) && Covers(global, job.keys)
    ensures Commitment(other, global, states) == Commitment(job, global, states)
  {
    hide Root, Minus;
  }

  /** However few the challenges and however late it stops, no lazy worker that was still moving is safe: some challenge
      hash, with the gradients as they are, has its own submission refused. */
  lemma LazyIsCatchable(world: World, shard: Shard, keys: seq<string>, lr: real, expert: Option<nat>, skip: nat,
                        global: State, h: nat, n: nat, beacon: seq<int>)
    requires Covers(global, keys) && skip < h && n > 0
    requires var job := Job(world, shard, keys, lr, expert);
             Moves(job, Trajectory(job, false, Some(skip), global, h)[skip])
    ensures var job := Job(world, shard, keys, lr, expert);
            var states := Trajectory(job, false, Some(skip), global, h);
            && Covers(states[h], keys)
            && exists hash ::
                 Check(world.(hash := hash), global, Commitment(job, global, states),
                       WorkerProver(states, Leaves(states, keys)), shard, n, lr, Some(h), beacon) == Ok(false)
  {
    var job := Job(world, shard, keys, lr, expert);
    var states := Trajectory(job, false, Some(skip), global, h);
    var v := seq(n, _ => skip + 1);
    assert StepsOf(v, h);
    var root := Root(Leaves(states, keys));
    var other := Job(world.(hash := Steering(root, shard, beacon, v, v, h)), shard, keys, lr, expert);
    assert SameButHash(job, other);
    hide *;
    AllCovered(states, global, keys);
    CoversEach(states, keys, h);
    CoversEach(states, keys, skip);
    TrajectoryIgnoresHash(job, other, false, Some(skip), global, h);
    MovesIgnoresHash(job, other, states[skip]);
    CommitmentIgnoresHash(job, other, global, states);
    OwnHeader(job, global, states);
    LazyVerdict(other.world, shard, keys, lr, expert, skip, global, h, n, beacon);
    SteeringSteers(world, root, shard, beacon, v, v, h);
    assert v[0] > skip;
  }
}
