/** Sharded model checkpoints (neura_l1/expert_sharding.py): one proof authenticating a one-expert update, and
    expert growth as a forced migration of the checkpoint. */
module Sharding {
  import opened Prelude
  import opened Merkle

  type Vector = seq<real>
  type Matrix = seq<Vector>

  /** The shared group: embedding, router, output projection.  The router weight is a list of columns, one per
      expert, of height `din`. */
  datatype Shared = Shared(emb: Matrix, din: nat, wr: seq<Vector>, br: Vector, wo: Matrix, bo: Vector)

  datatype Expert = Expert(w1: Matrix, b1: Vector, w2: Matrix, b2: Vector)

  /** A parameter dict: the shared group and whichever experts are held. */
  datatype Params = Params(shared: Shared, experts: map<nat, Expert>)

  /** What one group leaf commits: the group's name and its parameters. */
  datatype Group = SharedGroup(shared: Shared) | ExpertGroup(e: nat, expert: Expert)

  type Hash = Digest<Group>

  const MAX_GROUP_PROOF: nat := 64

  predicate Holds(p: Params, from: nat, to: nat) { forall e :: from <= e < to ==> e in p.experts }

  function ExpertLeaf(e: nat, x: Expert): Hash { Leaf(ExpertGroup(e, x)) }

  /** The leaves of experts from .. to-1. */
  function ExpertLeaves(p: Params, from: nat, to: nat): (r: seq<Hash>)
    requires from <= to && Holds(p, from, to)
    ensures |r| == to - from
    ensures forall i :: 0 <= i < |r| ==> r[i] == ExpertLeaf(from + i, p.experts[from + i])
  {
    seq(to - from, i requires 0 <= i < to - from => ExpertLeaf(from + i, p.experts[from + i]))
  }

  /** [shared, expert_0 .. expert_{n-1}] */
  function GroupLeaves(p: Params, n: nat): (r: seq<Hash>)
    requires Holds(p, 0, n)
    ensures |r| == n + 1
  {
    [Leaf(SharedGroup(p.shared))] + ExpertLeaves(p, 0, n)
  }

  // ---------------------------------------------------------------- padding

  /** The least d with 2^d >= n, counted up from d. */
  function DepthFrom(n: nat, d: nat): (r: nat)
    ensures r >= d && Pow2(r) >= n
    ensures r > d ==> Pow2(r - 1) < n
    decreases n - Pow2(d)
  {
    if Pow2(d) >= n then d else DepthFrom(n, d + 1)
  }

  function Depth(n: nat): (d: nat)
    ensures Pow2(d) >= n
    ensures d > 0 ==> Pow2(d - 1) < n
  {
    DepthFrom(n, 0)
  }

  function Pads(n: nat): (r: seq<Hash>)
    ensures |r| == n
  {
    seq(n, i => Pad)
  }

  function Padded(leaves: seq<Hash>): (r: seq<Hash>)
    ensures |r| == Pow2(Depth(|leaves|)) && r[..|leaves|] == leaves
    ensures forall i :: |leaves| <= i < |r| ==> r[i] == Pad
  {
    leaves + Pads(Pow2(Depth(|leaves|)) - |leaves|)
  }

  /** `_pad_pow2` */
  method PadPow2(leaves: seq<Hash>) returns (r: seq<Hash>)
    ensures r == Padded(leaves)
  {
    var size := 1;
    ghost var d := 0;
    while size < |leaves|
      invariant size == Pow2(d) && DepthFrom(|leaves|, d) == Depth(|leaves|)
      decreases |leaves| - size
    {
      size, d := size * 2, d + 1;
    }
    return leaves + Pads(size - |leaves|);
  }

  function CheckpointRoot(p: Params, n: nat): Hash
    requires Holds(p, 0, n)
  {
    Root(Padded(GroupLeaves(p, n)))
  }

  function CheckpointProof(p: Params, n: nat, e: nat): seq<Step<Group>>
    requires Holds(p, 0, n) && e < n
  {
    Proof(Padded(GroupLeaves(p, n)), e + 1)
  }

  // ---------------------------------------------------------------- the one-expert transition

  /** One entry of a published proof: 32-byte hex decodes to a digest, anything else does not. */
  datatype ProofEntry = Malformed | Entry(step: Step<Group>)

  function Published(proof: seq<Step<Group>>): (r: seq<ProofEntry>)
    ensures |r| == |proof|
  {
    seq(|proof|, i requires 0 <= i < |proof| => Entry(proof[i]))
  }

  predicate Decodes(proof: seq<ProofEntry>) { forall i :: 0 <= i < |proof| ==> proof[i].Entry? }

  function Decoded(proof: seq<ProofEntry>): (r: seq<Step<Group>>)
    requires Decodes(proof)
    ensures |r| == |proof|
  {
    seq(|proof|, i requires 0 <= i < |proof| => proof[i].step)
  }

  /** `leaf_rolls_up_to`: shape first, then the roll-up. */
  predicate LeafRollsUpTo(leaf: Hash, proof: seq<ProofEntry>, root: Option<Hash>) {
    && |proof| <= MAX_GROUP_PROOF
    && root.Some?
    && Decodes(proof)
    && Climb(leaf, Decoded(proof)) == root.value
  }

  method CheckRollUp(leaf: Hash, proof: seq<ProofEntry>, root: Option<Hash>) returns (ok: bool)
    ensures ok <==> LeafRollsUpTo(leaf, proof, root)
  {
    if |proof| > MAX_GROUP_PROOF || root.None? {
      return false;
    }
    var p := [];
    for i := 0 to |proof|
      invariant Decodes(proof[..i]) && p == Decoded(proof[..i])
    {
      if proof[i].Malformed? {
        return false;
      }
      p := p + [proof[i].step];
    }
    assert proof[..|proof|] == proof;
    ok := MerkleVerify(leaf, p, root.value);
  }

  /** `verify_expert_transition` */
  predicate TransitionVerified(parentRoot: Option<Hash>, newRoot: Option<Hash>, e: nat,
                               before: Expert, after: Expert, proof: seq<ProofEntry>)
  {
    LeafRollsUpTo(ExpertLeaf(e, before), proof, parentRoot) && LeafRollsUpTo(ExpertLeaf(e, after), proof, newRoot)
  }

  method VerifyExpertTransition(parentRoot: Option<Hash>, newRoot: Option<Hash>, e: nat,
                                before: Expert, after: Expert, proof: seq<ProofEntry>) returns (ok: bool)
    ensures ok <==> TransitionVerified(parentRoot, newRoot, e, before, after, proof)
  {
    ok := CheckRollUp(ExpertLeaf(e, before), proof, parentRoot);
    if !ok {
      return false;
    }
    ok := CheckRollUp(ExpertLeaf(e, after), proof, newRoot);
  }

  lemma PaddedAtoms(leaves: seq<Hash>)
    requires Atoms(leaves)
    ensures Atoms(Padded(leaves))
  {
    var r := Padded(leaves);
    forall i | 0 <= i < |r| ensures !r[i].Node? {
      if i < |leaves| {
        assert r[i] == leaves[i];
      }
    }
  }

  /** Expert e's leaf value occurs at most once in the padded tree, at index e + 1. */
  lemma ExpertPosition(p: Params, n: nat, e: nat, x: Expert, idx: nat)
    requires Holds(p, 0, n) && idx < |Padded(GroupLeaves(p, n))|
    ensures Padded(GroupLeaves(p, n))[idx] == ExpertLeaf(e, x) <==> e < n && idx == e + 1 && p.experts[e] == x
  {
    var leaves := GroupLeaves(p, n);
    var r := Padded(leaves);
    if idx < |leaves| {
      assert r[idx] == r[..|leaves|][idx] == leaves[idx];
    }
  }

  /** Replacing expert e changes exactly leaf e + 1 of the padded tree. */
  lemma UpdatedLeaves(p: Params, n: nat, e: nat, x: Expert)
    requires Holds(p, 0, n) && e < n
    ensures var q := p.(experts := p.experts[e := x]);
            Padded(GroupLeaves(q, n)) == Padded(GroupLeaves(p, n))[e + 1 := ExpertLeaf(e, x)]
  {
    var q := p.(experts := p.experts[e := x]);
    assert GroupLeaves(q, n) == GroupLeaves(p, n)[e + 1 := ExpertLeaf(e, x)];
  }

  lemma {:induction false} DepthAtMost(n: nat, m: nat)
    requires n <= Pow2(m)
    ensures Depth(n) <= m
  {
    if Depth(n) > m {
      Pow2Monotone(m, Depth(n) - 1);
    }
  }

  lemma {:induction false} Pow2Monotone(a: nat, b: nat)
    requires a <= b
    ensures Pow2(a) <= Pow2(b)
  {
    if a < b {
      Pow2Monotone(a, b - 1);
    }
  }

  /** Against a true parent root the check accepts exactly the honest one-expert update: the old leaf must be the
      committed one, the new root must be the checkpoint with that expert replaced and nothing else, and the
      siblings must be the tree's own, whatever was supplied. */
  lemma TransitionExactly(p: Params, n: nat, newRoot: Option<Hash>, e: nat,
                          before: Expert, after: Expert, proof: seq<ProofEntry>)
    requires Holds(p, 0, n)
    ensures TransitionVerified(Some(CheckpointRoot(p, n)), newRoot, e, before, after, proof) <==>
            && e < n && p.experts[e] == before
            && newRoot == Some(CheckpointRoot(p.(experts := p.experts[e := after]), n))
            && proof == Published(CheckpointProof(p, n, e))
            && |proof| <= 64
  {
    if TransitionVerified(Some(CheckpointRoot(p, n)), newRoot, e, before, after, proof) {
      TransitionSound(p, n, newRoot, e, before, after, proof);
    }
    if && e < n && p.experts[e] == before
       && newRoot == Some(CheckpointRoot(p.(experts := p.experts[e := after]), n))
       && proof == Published(CheckpointProof(p, n, e))
       && |proof| <= MAX_GROUP_PROOF
    {
      TransitionComplete(p, n, e, after);
    }
  }

  lemma TransitionSound(p: Params, n: nat, newRoot: Option<Hash>, e: nat,
                        before: Expert, after: Expert, proof: seq<ProofEntry>)
    requires Holds(p, 0, n)
    requires TransitionVerified(Some(CheckpointRoot(p, n)), newRoot, e, before, after, proof)
    ensures e < n && p.experts[e] == before
    ensures newRoot == Some(CheckpointRoot(p.(experts := p.experts[e := after]), n))
    ensures proof == Published(CheckpointProof(p, n, e)) && |proof| <= MAX_GROUP_PROOF
  {
    hide *;
    var leaves, d := Padded(GroupLeaves(p, n)), Depth(n + 1);
    TransitionMeans(p, n, newRoot, e, before, after, proof);
    GroupAtoms(p, n);
    PaddedAtoms(GroupLeaves(p, n));
    var steps := Decoded(proof);
    ExpertLeafAtom(e, before);
    var idx := PerfectSound(leaves, d, ExpertLeaf(e, before), steps);
    ExpertPosition(p, n, e, before, idx);
    UpdateRollsUp(leaves, d, e + 1, ExpertLeaf(e, after));
    UpdatedLeaves(p, n, e, after);
    StillHolds(p, n, e, after);
    CheckpointIs(p, n);
    CheckpointIs(p.(experts := p.experts[e := after]), n);
    PublishedDecoded(proof);
    CheckpointProofIs(p, n, e);
  }

  lemma TransitionMeans(p: Params, n: nat, newRoot: Option<Hash>, e: nat,
                        before: Expert, after: Expert, proof: seq<ProofEntry>)
    requires Holds(p, 0, n)
    requires TransitionVerified(Some(CheckpointRoot(p, n)), newRoot, e, before, after, proof)
    ensures Decodes(proof) && |proof| <= MAX_GROUP_PROOF && newRoot.Some?
    ensures Climb(ExpertLeaf(e, before), Decoded(proof)) == Root(Padded(GroupLeaves(p, n)))
    ensures Climb(ExpertLeaf(e, after), Decoded(proof)) == newRoot.value
  {
    hide Climb, Root, Padded, GroupLeaves, Holds, Decodes, Decoded;
  }

  lemma GroupAtoms(p: Params, n: nat)
    requires Holds(p, 0, n)
    ensures Atoms(GroupLeaves(p, n))
  {
  }

  lemma ExpertLeafAtom(e: nat, x: Expert)
    ensures !ExpertLeaf(e, x).Node?
  {
  }

  lemma StillHolds(p: Params, n: nat, e: nat, x: Expert)
    requires Holds(p, 0, n)
    ensures Holds(p.(experts := p.experts[e := x]), 0, n)
  {
  }

  lemma CheckpointIs(p: Params, n: nat)
    requires Holds(p, 0, n)
    ensures CheckpointRoot(p, n) == Root(Padded(GroupLeaves(p, n)))
  {
  }

  lemma CheckpointProofIs(p: Params, n: nat, e: nat)
    requires Holds(p, 0, n) && e < n
    ensures e + 1 < |Padded(GroupLeaves(p, n))|
    ensures CheckpointProof(p, n, e) == Proof(Padded(GroupLeaves(p, n)), e + 1)
  {
  }

  lemma PublishedDecoded(proof: seq<ProofEntry>)
    requires Decodes(proof)
    ensures Published(Decoded(proof)) == proof
  {
  }

  /** The accepting half, with the proof's own length and the roll-up of both leaves as the facts it rests on. */
  lemma HonestProof(p: Params, n: nat, e: nat, after: Expert)
    requires Holds(p, 0, n) && e < n
    ensures var q := p.(experts := p.experts[e := after]);
            var steps := CheckpointProof(p, n, e);
            && |steps| == Depth(n + 1)
            && Climb(ExpertLeaf(e, p.experts[e]), steps) == CheckpointRoot(p, n)
            && Climb(ExpertLeaf(e, after), steps) == CheckpointRoot(q, n)
  {
    var leaves, d := Padded(GroupLeaves(p, n)), Depth(n + 1);
    ExpertPosition(p, n, e, p.experts[e], e + 1);
    UpdatedLeaves(p, n, e, after);
    hide Climb, Proof, Root, Padded, GroupLeaves;
    ProofLength(leaves, d, e + 1);
    ProofComplete(leaves, e + 1);
    UpdateRollsUp(leaves, d, e + 1, ExpertLeaf(e, after));
  }

  /** The honest proof is accepted for every expert count that fits the length cap. */
  lemma TransitionComplete(p: Params, n: nat, e: nat, after: Expert)
    requires Holds(p, 0, n) && e < n
    ensures var proof := Published(CheckpointProof(p, n, e));
            && |proof| == Depth(n + 1)
            && (n + 1 <= Pow2(64) ==> |proof| <= 64)
            && (|proof| <= 64 ==>
                  TransitionVerified(Some(CheckpointRoot(p, n)),
                                     Some(CheckpointRoot(p.(experts := p.experts[e := after]), n)),
                                     e, p.experts[e], after, proof))
  {
    hide Climb, Proof, Root, CheckpointRoot, CheckpointProof, Depth, Pow2;
    HonestProof(p, n, e, after);
    var steps := CheckpointProof(p, n, e);
    assert Decoded(Published(steps)) == steps;
    if n + 1 <= Pow2(MAX_GROUP_PROOF) {
      DepthAtMost(n + 1, MAX_GROUP_PROOF);
    }
  }

  /** The checkpoint commits all of the model: two have one root exactly when their shared groups are equal and so is
      every expert below n. */
  lemma CheckpointBinds(p: Params, q: Params, n: nat)
    requires Holds(p, 0, n) && Holds(q, 0, n)
    ensures CheckpointRoot(p, n) == CheckpointRoot(q, n) <==>
            p.shared == q.shared && forall e: nat :: e < n ==> p.experts[e] == q.experts[e]
  {
    hide *;
    var s, t := GroupLeaves(p, n), GroupLeaves(q, n);
    CheckpointIs(p, n);
    CheckpointIs(q, n);
    GroupAt(p, n);
    GroupAt(q, n);
    if CheckpointRoot(p, n) == CheckpointRoot(q, n) {
      PaddedRootInjective(s, t);
      forall e: nat | e < n ensures p.experts[e] == q.experts[e] {
        assert s[e + 1] == ExpertLeaf(e, p.experts[e]) && t[e + 1] == ExpertLeaf(e, q.experts[e]);
        LeafOf(e, p.experts[e], q.experts[e]);
      }
    }
    if p.shared == q.shared && forall e: nat :: e < n ==> p.experts[e] == q.experts[e] {
      forall i | 0 <= i < n + 1 ensures s[i] == t[i] {
        if i > 0 {
          assert s[(i - 1) + 1] == ExpertLeaf(i - 1, p.experts[i - 1]);
        }
      }
      assert s == t;
    }
  }

  lemma GroupAt(p: Params, n: nat)
    requires Holds(p, 0, n)
    ensures forall e: nat :: e < n ==> e in p.experts
    ensures GroupLeaves(p, n)[0] == Leaf(SharedGroup(p.shared))
    ensures forall e: nat :: e < n ==> GroupLeaves(p, n)[e + 1] == ExpertLeaf(e, p.experts[e])
  {
    hide ExpertLeaf;
  }

  lemma LeafOf(e: nat, x: Expert, y: Expert)
    requires ExpertLeaf(e, x) == ExpertLeaf(e, y)
    ensures x == y
  {
  }

  // ---------------------------------------------------------------- growth

  /** Seeded generators: the standard-normal stream each seed starts. */
  type Rng = nat -> (nat -> real)

  datatype Dims = Dims(hidden: nat, out: nat)

  const FIRST_EXPERT_SEED: nat := 1000

  function DrawRow(z: nat -> real, from: nat, scale: real, cols: nat): Vector {
    seq(cols, j requires 0 <= j => scale * z(from + j))
  }

  function Draw(z: nat -> real, from: nat, scale: real, rows: nat, cols: nat): Matrix {
    seq(rows, i requires 0 <= i => DrawRow(z, from + i * cols, scale, cols))
  }

  /** An expert as growth draws it: a function of its seed and the fixed dimensions alone. */
  function SeededExpert(rng: Rng, seed: nat, din: nat, dims: Dims): Expert {
    var z := rng(seed);
    Expert(Draw(z, 0, 0.2, din, dims.hidden), Zeros(dims.hidden),
           Draw(z, din * dims.hidden, 0.2, dims.hidden, dims.out), Zeros(dims.out))
  }

  /** Its router column comes from the same stream, after both weight matrices. */
  function SeededColumn(rng: Rng, seed: nat, din: nat, dims: Dims): Vector {
    DrawRow(rng(seed), din * dims.hidden + dims.hidden * dims.out, 0.05, din)
  }

  /** By default the seed is the expert's own index. */
  function FreshExpert(rng: Rng, din: nat, dims: Dims, e: nat): Expert {
    SeededExpert(rng, FIRST_EXPERT_SEED + e, din, dims)
  }

  function FreshColumn(rng: Rng, din: nat, dims: Dims, e: nat): Vector {
    SeededColumn(rng, FIRST_EXPERT_SEED + e, din, dims)
  }

  /** The place in a stream of entry (i, j) of a matrix of `cols` columns drawn from `from` on. */
  function Place(from: nat, i: nat, cols: nat, j: nat): nat { from + i * cols + j }

  ghost predicate Drawn(m: Matrix, z: nat -> real, from: nat, scale: real, rows: nat, cols: nat) {
    && |m| == rows
    && forall i: nat, j: nat :: i < rows && j < cols ==> |m[i]| == cols && m[i][j] == scale * z(Place(from, i, cols, j))
  }

  /** Growth draws the first weights, then the second, then the column, each row by row, from the one stream of the seed;
      biases start at zero. */
  lemma SeededEntries(rng: Rng, seed: nat, din: nat, dims: Dims)
    ensures var x, column, z := SeededExpert(rng, seed, din, dims), SeededColumn(rng, seed, din, dims), rng(seed);
            && Drawn(x.w1, z, 0, 0.2, din, dims.hidden)
            && Drawn(x.w2, z, din * dims.hidden, 0.2, dims.hidden, dims.out)
            && |column| == din
            && (forall i: nat :: i < din ==> column[i] == 0.05 * z(din * dims.hidden + dims.hidden * dims.out + i))
            && |x.b1| == dims.hidden && |x.b2| == dims.out
            && (forall j :: 0 <= j < |x.b1| ==> x.b1[j] == 0.0) && (forall j :: 0 <= j < |x.b2| ==> x.b2[j] == 0.0)
  {
    var z, h, o := rng(seed), dims.hidden, dims.out;
    DrawEntries(z, 0, 0.2, din, h);
    DrawEntries(z, din * h, 0.2, h, o);
    hide Draw, Drawn;
  }

  lemma DrawEntries(z: nat -> real, from: nat, scale: real, rows: nat, cols: nat)
    ensures Drawn(Draw(z, from, scale, rows, cols), z, from, scale, rows, cols)
  {
  }

  /** By default expert e comes from the stream of seed 1000 + e. */
  lemma DefaultSeed(rng: Rng, din: nat, dims: Dims, e: nat)
    ensures FreshExpert(rng, din, dims, e) == SeededExpert(rng, 1000 + e, din, dims)
    ensures FreshColumn(rng, din, dims, e) == SeededColumn(rng, 1000 + e, din, dims)
  {
  }

  function Added(p: Params, e: nat, x: Expert, column: Vector): Params {
    Params(p.shared.(wr := p.shared.wr + [column], br := p.shared.br + [0.0]), p.experts[e := x])
  }

  function GrowOne(rng: Rng, dims: Dims, p: Params, e: nat): Params {
    Added(p, e, FreshExpert(rng, p.shared.din, dims, e), FreshColumn(rng, p.shared.din, dims, e))
  }

  /** `MoELM.add_expert`, on the model's own state. */
  class Model {
    var params: Params
    var count: nat
    const dims: Dims

    constructor (p: Params, n: nat, d: Dims)
      ensures params == p && count == n && dims == d
    {
      params, count, dims := p, n, d;
    }

    /** Without a seed it is the growth step of the next index. */
    method AddExpert(rng: Rng, seed: Option<nat>) returns (e: nat)
      modifies this
      ensures e == old(count) && count == old(count) + 1
      ensures seed.None? ==> params == GrowOne(rng, dims, old(params), old(count))
      ensures seed.Some? ==>
                params == Added(old(params), old(count), SeededExpert(rng, seed.value, old(params.shared.din), dims),
                                SeededColumn(rng, seed.value, old(params.shared.din), dims))
    {
      e := count;
      var s, din := if seed.Some? then seed.value else FIRST_EXPERT_SEED + e, params.shared.din;
      var z := rng(s);
      var w1 := Draw(z, 0, 0.2, din, dims.hidden);
      var w2 := Draw(z, din * dims.hidden, 0.2, dims.hidden, dims.out);
      params := params.(experts := params.experts[e := Expert(w1, Zeros(dims.hidden), w2, Zeros(dims.out))]);
      var column := DrawRow(z, din * dims.hidden + dims.hidden * dims.out, 0.05, din);
      params := params.(shared := params.shared.(wr := params.shared.wr + [column], br := params.shared.br + [0.0]));
      count := count + 1;
    }
  }

  /** Experts from .. to-1 added one at a time. */
  function Grown(rng: Rng, dims: Dims, p: Params, from: nat, to: nat): Params {
    if to <= from then p else GrowOne(rng, dims, Grown(rng, dims, p, from, to - 1), to - 1)
  }

  function Columns(m: Matrix): nat { if m == [] then 0 else |m[0]| }

  function DimsOf(x: Expert): Dims { Dims(Columns(x.w1), Columns(x.w2)) }

  /** `grow_experts`; it refuses to shrink.  Without the protocol's dimensions it takes those of a held expert, and
      refuses to grow a view that holds none. */
  method GrowExperts(rng: Rng, dims: Option<Dims>, p: Params, oldN: nat, newN: nat) returns (r: Result<Params>)
    ensures r.Err? <==> newN < oldN || (newN > oldN && dims.None? && p.experts == map[])
    ensures r.Ok? && dims.Some? ==> r.value == Grown(rng, dims.value, p, oldN, newN)
    ensures r.Ok? && dims.None? && newN > oldN ==>
              exists e :: e in p.experts && r.value == Grown(rng, DimsOf(p.experts[e]), p, oldN, newN)
    ensures newN == oldN ==> r == Ok(p)
  {
    hide FreshExpert, FreshColumn, DimsOf;
    if newN < oldN {
      return Err("grow_experts cannot shrink the expert count");
    }
    if newN == oldN {
      return Ok(p);
    }
    if dims.None? && p.experts.Keys == {} {
      assert p.experts == map[];
      return Err("cannot infer expert dims");
    }
    var d: Dims;
    if dims.Some? {
      d := dims.value;
    } else {
      var k :| k in p.experts.Keys;
      d := DimsOf(p.experts[k]);
    }
    var cur := p;
    for e := oldN to newN
      invariant cur == Grown(rng, d, p, oldN, e)
    {
      var din := cur.shared.din;
      cur := cur.(experts := cur.experts[e := FreshExpert(rng, din, d, e)]);
      cur := cur.(shared := cur.shared.(wr := cur.shared.wr + [FreshColumn(rng, din, d, e)],
                                        br := cur.shared.br + [0.0]));
    }
    return Ok(cur);
  }

  /** Growing in two stages is growing once. */
  lemma {:induction false} GrowthComposes(rng: Rng, dims: Dims, p: Params, a: nat, b: nat, c: nat)
    requires a <= b <= c
    ensures Grown(rng, dims, Grown(rng, dims, p, a, b), b, c) == Grown(rng, dims, p, a, c)
  {
    if b < c {
      GrowthComposes(rng, dims, p, a, b, c - 1);
    }
  }

  /** What growth did to the shared group: the router keeps its old columns and gains one per new expert. */
  ghost predicate RouterGrown(rng: Rng, dims: Dims, s: Shared, t: Shared, from: nat, to: nat) {
    && t == s.(wr := t.wr, br := t.br)
    && t.br == s.br + Zeros(Max(0, to - from))
    && |t.wr| == |s.wr| + Max(0, to - from)
    && (forall i :: 0 <= i < |t.wr| ==>
          t.wr[i] == if i < |s.wr| then s.wr[i] else FreshColumn(rng, s.din, dims, from + (i - |s.wr|)))
  }

  /** What it did to the experts: each one outside from .. to-1 is carried through, each new one is what its
      index dictates, whatever else the holder has. */
  ghost predicate ExpertsGrown(rng: Rng, dims: Dims, din: nat, x: map<nat, Expert>, y: map<nat, Expert>,
                               from: nat, to: nat)
  {
    && (forall e: nat :: e in y <==> e in x || from <= e < to)
    && (forall e: nat :: e in y ==> y[e] == if from <= e < to then FreshExpert(rng, din, dims, e) else x[e])
  }

  lemma RouterStep(rng: Rng, dims: Dims, s: Shared, t: Shared, from: nat, to: nat)
    requires from <= to && RouterGrown(rng, dims, s, t, from, to)
    ensures RouterGrown(rng, dims, s, t.(wr := t.wr + [FreshColumn(rng, t.din, dims, to)], br := t.br + [0.0]),
                        from, to + 1)
  {
    hide FreshColumn;
    assert Zeros(to + 1 - from) == Zeros(to - from) + [0.0];
  }

  lemma {:induction false} GrownExactly(rng: Rng, dims: Dims, p: Params, from: nat, to: nat)
    ensures var q := Grown(rng, dims, p, from, to);
            && RouterGrown(rng, dims, p.shared, q.shared, from, to)
            && ExpertsGrown(rng, dims, p.shared.din, p.experts, q.experts, from, to)
  {
    hide FreshExpert, FreshColumn, RouterGrown, ExpertsGrown;
    if from < to {
      GrownExactly(rng, dims, p, from, to - 1);
      var mid := Grown(rng, dims, p, from, to - 1);
      RouterStep(rng, dims, p.shared, mid.shared, from, to - 1);
      RouterKeepsDin(rng, dims, p.shared, mid.shared, from, to - 1);
      ExpertsStep(rng, dims, p.shared.din, p.experts, mid.experts, from, to - 1);
    } else {
      NothingGrown(rng, dims, p, from, to);
    }
  }

  lemma RouterKeepsDin(rng: Rng, dims: Dims, s: Shared, t: Shared, from: nat, to: nat)
    requires RouterGrown(rng, dims, s, t, from, to)
    ensures t.din == s.din
  {
  }

  lemma ExpertsStep(rng: Rng, dims: Dims, din: nat, x: map<nat, Expert>, y: map<nat, Expert>, from: nat, to: nat)
    requires from <= to && ExpertsGrown(rng, dims, din, x, y, from, to)
    ensures ExpertsGrown(rng, dims, din, x, y[to := FreshExpert(rng, din, dims, to)], from, to + 1)
  {
    hide FreshExpert;
  }

  lemma NothingGrown(rng: Rng, dims: Dims, p: Params, from: nat, to: nat)
    requires to <= from
    ensures RouterGrown(rng, dims, p.shared, p.shared, from, to)
    ensures ExpertsGrown(rng, dims, p.shared.din, p.experts, p.experts, from, to)
  {
    assert p.shared.br == p.shared.br + Zeros(0);
  }

  // ---------------------------------------------------------------- the migration check

  /** The migrated leaves: the holder's own shared leaf, the published old expert leaves, the new experts. */
  function MigratedLeaves(oldLeaves: seq<Hash>, migrated: Params, oldN: nat, newN: nat): seq<Hash>
    requires |oldLeaves| == oldN + 1 && Holds(migrated, oldN, newN)
  {
    [Leaf(SharedGroup(migrated.shared))] + oldLeaves[1..] + ExpertLeaves(migrated, oldN, Max(oldN, newN))
  }

  method DecodeLeaves(published: seq<Option<Hash>>) returns (r: Option<seq<Hash>>)
    ensures r == if WellFormed(published) then Some(Values(published)) else None
  {
    var leaves := [];
    for i := 0 to |published|
      invariant |leaves| == i && forall j :: 0 <= j < i ==> published[j] == Some(leaves[j])
    {
      if published[i].None? {
        return None;
      }
      leaves := leaves + [published[i].value];
    }
    assert leaves == Values(published);
    return Some(leaves);
  }

  method NewExpertLeaves(p: Params, from: nat, to: nat) returns (r: Option<seq<Hash>>)
    ensures r == if Holds(p, from, to) then Some(ExpertLeaves(p, from, Max(from, to))) else None
  {
    var leaves := [];
    for e := from to Max(from, to)
      invariant Holds(p, from, e) && leaves == ExpertLeaves(p, from, e)
    {
      if e !in p.experts {
        return None;
      }
      leaves := leaves + [ExpertLeaf(e, p.experts[e])];
    }
    return Some(leaves);
  }

  /** `verify_migration_root`.  A published leaf is None when it is not 32-byte hex; a root is None when the
      string is no digest's lower-case hex. */
  method VerifyMigrationRoot(parentRoot: Option<Hash>, newRoot: Option<Hash>, published: seq<Option<Hash>>,
                             migrated: Params, oldN: nat, newN: nat) returns (ok: bool)
    ensures ok <==> MigrationVerified(parentRoot, newRoot, published, migrated, oldN, newN)
  {
    hide Root, Padded, Values, ExpertLeaves;
    if |published| != oldN + 1 {
      return false;
    }
    var decoded := DecodeLeaves(published);
    if decoded.None? {
      return false;
    }
    var padded := PadPow2(decoded.value);
    var root := MerkleRoot(padded);
    if Some(root) != parentRoot {
      return false;
    }
    var added := NewExpertLeaves(migrated, oldN, newN);
    if added.None? {
      return false;
    }
    padded := PadPow2([Leaf(SharedGroup(migrated.shared))] + decoded.value[1..] + added.value);
    root := MerkleRoot(padded);
    return Some(root) == newRoot;
  }

  predicate WellFormed(published: seq<Option<Hash>>) { forall i :: 0 <= i < |published| ==> published[i].Some? }

  function Values(published: seq<Option<Hash>>): (r: seq<Hash>)
    requires WellFormed(published)
    ensures |r| == |published|
  {
    seq(|published|, i requires 0 <= i < |published| => published[i].value)
  }

  predicate MigrationVerified(parentRoot: Option<Hash>, newRoot: Option<Hash>, published: seq<Option<Hash>>,
                              migrated: Params, oldN: nat, newN: nat)
  {
    && |published| == oldN + 1
    && WellFormed(published)
    && parentRoot == Some(Root(Padded(Values(published))))
    && Holds(migrated, oldN, newN)
    && newRoot == Some(Root(Padded(MigratedLeaves(Values(published), migrated, oldN, newN))))
  }

  function PublishedLeaves(p: Params, n: nat): (r: seq<Option<Hash>>)
    requires Holds(p, 0, n)
    ensures |r| == n + 1
  {
    var leaves := GroupLeaves(p, n);
    seq(n + 1, i requires 0 <= i < n + 1 => Some(leaves[i]))
  }

  lemma PublishedValues(p: Params, n: nat, published: seq<Option<Hash>>)
    requires Holds(p, 0, n) && WellFormed(published)
    ensures Values(published) == GroupLeaves(p, n) <==> published == PublishedLeaves(p, n)
  {
    hide GroupLeaves;
    if Values(published) == GroupLeaves(p, n) {
      forall i | 0 <= i < |published| ensures published[i] == PublishedLeaves(p, n)[i] {
        assert published[i].value == Values(published)[i];
      }
    }
    if published == PublishedLeaves(p, n) {
      assert Values(published) == GroupLeaves(p, n);
    }
  }

  /** For a fixed leaf count the padded root determines the leaves. */
  lemma PaddedRootInjective(s: seq<Hash>, t: seq<Hash>)
    requires |s| == |t| && Root(Padded(s)) == Root(Padded(t))
    ensures s == t
  {
    RootInjective(Padded(s), Padded(t));
    assert s == Padded(s)[..|s|] && t == Padded(t)[..|t|];
  }

  lemma RouterDetermined(rng: Rng, dims: Dims, s: Shared, t: Shared, u: Shared, from: nat, to: nat)
    requires RouterGrown(rng, dims, s, t, from, to) && RouterGrown(rng, dims, s, u, from, to)
    ensures t == u
  {
    hide FreshColumn;
    assert t.wr == u.wr;
  }

  lemma MigratedMatch(g: Params, p: Params, migrated: Params, oldN: nat, newN: nat)
    requires oldN <= newN && Holds(p, 0, oldN) && Holds(migrated, oldN, newN) && Holds(g, 0, newN)
    requires g.shared == migrated.shared
    requires forall e: nat :: e < newN ==> g.experts[e] == if e < oldN then p.experts[e] else migrated.experts[e]
    ensures MigratedLeaves(GroupLeaves(p, oldN), migrated, oldN, newN) == GroupLeaves(g, newN)
  {
    var a, b := MigratedLeaves(GroupLeaves(p, oldN), migrated, oldN, newN), GroupLeaves(g, newN);
    forall i | 0 <= i < newN + 1 ensures a[i] == b[i] {
    }
  }

  /** A holder of the true shared group (and any experts at all) grows it to the leaves of the grown model. */
  lemma GrownLeaves(rng: Rng, dims: Dims, p: Params, view: Params, oldN: nat, newN: nat)
    requires Holds(p, 0, oldN) && oldN <= newN && view.shared == p.shared
    ensures var g := Grown(rng, dims, p, oldN, newN);
            var migrated := Grown(rng, dims, view, oldN, newN);
            && Holds(g, 0, newN) && Holds(migrated, oldN, newN)
            && MigratedLeaves(GroupLeaves(p, oldN), migrated, oldN, newN) == GroupLeaves(g, newN)
  {
    hide Grown, FreshExpert, RouterGrown, MigratedLeaves, GroupLeaves;
    var g, migrated := Grown(rng, dims, p, oldN, newN), Grown(rng, dims, view, oldN, newN);
    GrownExactly(rng, dims, p, oldN, newN);
    GrownExactly(rng, dims, view, oldN, newN);
    RouterDetermined(rng, dims, p.shared, g.shared, migrated.shared, oldN, newN);
    MigratedMatch(g, p, migrated, oldN, newN);
  }

  /** The migration is forced: against a true parent root, a holder who grew its own view accepts exactly the
      true old leaves and the checkpoint of the grown model. */
  lemma MigrationForced(rng: Rng, dims: Dims, p: Params, view: Params, oldN: nat, newN: nat,
                        newRoot: Option<Hash>, published: seq<Option<Hash>>)
    requires Holds(p, 0, oldN) && oldN <= newN && view.shared == p.shared
    ensures Holds(Grown(rng, dims, p, oldN, newN), 0, newN)
    ensures MigrationVerified(Some(CheckpointRoot(p, oldN)), newRoot, published,
                              Grown(rng, dims, view, oldN, newN), oldN, newN) <==>
            && published == PublishedLeaves(p, oldN)
            && newRoot == Some(CheckpointRoot(Grown(rng, dims, p, oldN, newN), newN))
  {
    hide Grown, Root, Padded, GroupLeaves, MigratedLeaves, PublishedLeaves;
    GrownLeaves(rng, dims, p, view, oldN, newN);
    if |published| == oldN + 1 && WellFormed(published) {
      PublishedValues(p, oldN, published);
      if Root(Padded(Values(published))) == CheckpointRoot(p, oldN) {
        PaddedRootInjective(Values(published), GroupLeaves(p, oldN));
      }
    }
    PublishedWellFormed(p, oldN);
  }

  lemma PublishedWellFormed(p: Params, n: nat)
    requires Holds(p, 0, n)
    ensures WellFormed(PublishedLeaves(p, n)) && Values(PublishedLeaves(p, n)) == GroupLeaves(p, n)
  {
    PublishedValues(p, n, PublishedLeaves(p, n));
  }

  /** For a holder of any view at all, an accepted migration to the checkpoint of a model g says that g is the migrated
      view's whole shared group, the parent's experts, and the view's new ones; and that is all it takes. */
  lemma MigrationExactly(p: Params, g: Params, migrated: Params, published: seq<Option<Hash>>, oldN: nat, newN: nat)
    requires Holds(p, 0, oldN) && oldN <= newN && Holds(g, 0, newN)
    ensures MigrationVerified(Some(CheckpointRoot(p, oldN)), Some(CheckpointRoot(g, newN)), published, migrated, oldN, newN)
       <==> && published == PublishedLeaves(p, oldN) && Holds(migrated, oldN, newN)
            && g.shared == migrated.shared
            && forall e: nat :: e < newN ==> g.experts[e] == if e < oldN then p.experts[e] else migrated.experts[e]
  {
    hide Root, Padded, GroupLeaves, MigratedLeaves, PublishedLeaves;
    PublishedWellFormed(p, oldN);
    if |published| == oldN + 1 && WellFormed(published) {
      PublishedValues(p, oldN, published);
      if Root(Padded(Values(published))) == CheckpointRoot(p, oldN) {
        PaddedRootInjective(Values(published), GroupLeaves(p, oldN));
      }
    }
    if published == PublishedLeaves(p, oldN) && Holds(migrated, oldN, newN) {
      MigratedLeavesBind(p, g, migrated, oldN, newN);
    }
  }

  lemma MigratedLeavesBind(p: Params, g: Params, migrated: Params, oldN: nat, newN: nat)
    requires Holds(p, 0, oldN) && oldN <= newN && Holds(g, 0, newN) && Holds(migrated, oldN, newN)
    ensures Root(Padded(MigratedLeaves(GroupLeaves(p, oldN), migrated, oldN, newN))) == Root(Padded(GroupLeaves(g, newN)))
       <==> && g.shared == migrated.shared
            && forall e: nat :: e < newN ==> g.experts[e] == if e < oldN then p.experts[e] else migrated.experts[e]
  {
    var united := Params(migrated.shared, map e: nat | e < newN :: if e < oldN then p.experts[e] else migrated.experts[e]);
    assert Holds(united, 0, newN);
    MigratedMatch(united, p, migrated, oldN, newN);
    CheckpointBinds(united, g, newN);
    hide Root, Padded, GroupLeaves, MigratedLeaves;
  }
}
