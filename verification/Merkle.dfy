/** The Merkle tree of neurahash/merkle_verify.py.  Digests are free: a leaf digest is its data, a pair digest is
    its two halves, so no two different inputs share a digest and no leaf is a pair. */
module Merkle {
  import opened Prelude

  datatype Digest<T> = Zero | Pad | Leaf(data: T) | Node(left: Digest<T>, right: Digest<T>)

  datatype Step<T> = Step(sibling: Digest<T>, isLeft: bool)

  /** The level with its last entry repeated when its length is odd. */
  function Evened<T>(level: seq<Digest<T>>): (r: seq<Digest<T>>)
    ensures |r| % 2 == 0
  {
    if |level| % 2 == 1 then level + [level[|level| - 1]] else level
  }

  /** The level above: neighbours hashed in pairs. */
  function Above<T>(level: seq<Digest<T>>): (r: seq<Digest<T>>)
    ensures |r| == (|level| + 1) / 2
  {
    var e := Evened(level);
    seq(|e| / 2, i requires 0 <= i < |e| / 2 => Node(e[2 * i], e[2 * i + 1]))
  }

  function Root<T>(leaves: seq<Digest<T>>): Digest<T>
    decreases |leaves|
  {
    if leaves == [] then Zero
    else if |leaves| == 1 then leaves[0]
    else Root(Above(leaves))
  }

  function Sibling(i: nat): nat { if i % 2 == 0 then i + 1 else i - 1 }

  function SibStep<T>(level: seq<Digest<T>>, i: nat): Step<T>
    requires i < |level| && |level| > 1
  {
    Step(Evened(level)[Sibling(i)], Sibling(i) < i)
  }

  function Proof<T>(leaves: seq<Digest<T>>, idx: nat): seq<Step<T>>
    requires idx < |leaves|
    decreases |leaves|
  {
    if |leaves| == 1 then []
    else [SibStep(leaves, idx)] + Proof(Above(leaves), idx / 2)
  }

  function Join<T>(h: Digest<T>, s: Step<T>): Digest<T> {
    if s.isLeft then Node(s.sibling, h) else Node(h, s.sibling)
  }

  /** The digest a leaf rolls up to along a proof. */
  function Climb<T>(h: Digest<T>, proof: seq<Step<T>>): Digest<T> {
    if proof == [] then h else Join(Climb(h, proof[..|proof| - 1]), proof[|proof| - 1])
  }

  // ---------------------------------------------------------------- the loops of the source

  method MerkleRoot<T>(leaves: seq<Digest<T>>) returns (root: Digest<T>)
    ensures root == Root(leaves)
  {
    if leaves == [] {
      return Zero;
    }
    var level := leaves;
    while |level| > 1
      invariant |level| >= 1 && Root(level) == Root(leaves)
    {
      level := Above(level);
    }
    return level[0];
  }

  lemma ProofUnfolds<T>(level: seq<Digest<T>>, i: nat)
    requires i < |level| && |level| > 1
    ensures Proof(level, i) == [SibStep(level, i)] + Proof(Above(level), i / 2)
  {
  }

  method MerkleProof<T>(leaves: seq<Digest<T>>, idx: nat) returns (proof: seq<Step<T>>)
    requires idx < |leaves|
    ensures proof == Proof(leaves, idx)
  {
    hide Proof;
    hide Above;
    proof := [];
    var level, i := leaves, idx;
    while |level| > 1
      invariant 0 <= i < |level| && proof + Proof(level, i) == Proof(leaves, idx)
      decreases |level|
    {
      ProofUnfolds(level, i);
      var sib := Sibling(i);
      proof := proof + [Step(Evened(level)[sib], sib < i)];
      level, i := Above(level), i / 2;
    }
    ProofOfOne(level);
  }

  lemma ProofOfOne<T>(level: seq<Digest<T>>)
    requires |level| == 1
    ensures Proof(level, 0) == [] && Root(level) == level[0]
  {
  }

  method MerkleVerify<T(==)>(leaf: Digest<T>, proof: seq<Step<T>>, root: Digest<T>) returns (ok: bool)
    ensures ok <==> Climb(leaf, proof) == root
  {
    var h := leaf;
    for i := 0 to |proof|
      invariant h == Climb(leaf, proof[..i])
    {
      assert proof[..i + 1][..i] == proof[..i];
      h := Join(h, proof[i]);
    }
    assert proof[..|proof|] == proof;
    return h == root;
  }

  // ---------------------------------------------------------------- any tree

  lemma {:induction false} ClimbFromBelow<T>(h: Digest<T>, s: Step<T>, rest: seq<Step<T>>)
    ensures Climb(h, [s] + rest) == Climb(Join(h, s), rest)
  {
    if rest == [] {
      assert [s] + rest == [s];
      assert [s][..0] == [];
      assert Climb(h, [s][..0]) == h;
    } else {
      assert ([s] + rest)[..|rest|] == [s] + rest[..|rest| - 1];
      ClimbFromBelow(h, s, rest[..|rest| - 1]);
    }
  }

  lemma AboveAt<T>(level: seq<Digest<T>>, i: nat)
    requires i < |Above(level)|
    ensures Above(level)[i] == Node(Evened(level)[2 * i], Evened(level)[2 * i + 1])
  {
  }

  lemma JoinIsAbove<T>(leaves: seq<Digest<T>>, idx: nat)
    requires idx < |leaves| && |leaves| > 1
    ensures Join(leaves[idx], SibStep(leaves, idx)) == Above(leaves)[idx / 2]
  {
    assert idx == 2 * (idx / 2) || idx == 2 * (idx / 2) + 1;
    AboveAt(leaves, idx / 2);
  }

  /** Completeness, for every leaf count, odd levels included. */
  lemma {:induction false} ProofComplete<T>(leaves: seq<Digest<T>>, idx: nat)
    requires idx < |leaves|
    ensures Climb(leaves[idx], Proof(leaves, idx)) == Root(leaves)
    decreases |leaves|
  {
    if |leaves| > 1 {
      var s, up := SibStep(leaves, idx), Above(leaves);
      assert Proof(leaves, idx) == [s] + Proof(up, idx / 2) && Root(leaves) == Root(up);
      JoinIsAbove(leaves, idx);
      hide *;
      ClimbFromBelow(leaves[idx], s, Proof(up, idx / 2));
      ProofComplete(up, idx / 2);
    }
  }

  /** Along one proof different digests roll up to different roots. */
  lemma {:induction false} ClimbInjective<T>(x: Digest<T>, y: Digest<T>, proof: seq<Step<T>>)
    requires Climb(x, proof) == Climb(y, proof)
    ensures x == y
  {
    if proof != [] {
      ClimbInjective(x, y, proof[..|proof| - 1]);
    }
  }

  /** Against the prover's own proof for position j, exactly the committed digest verifies. */
  lemma OwnProofBinds<T>(leaves: seq<Digest<T>>, j: nat, x: Digest<T>)
    requires j < |leaves|
    ensures Climb(x, Proof(leaves, j)) == Root(leaves) <==> x == leaves[j]
  {
    ProofComplete(leaves, j);
    if Climb(x, Proof(leaves, j)) == Root(leaves) {
      ClimbInjective(x, leaves[j], Proof(leaves, j));
    }
  }

  lemma AboveInjective<T>(s: seq<Digest<T>>, t: seq<Digest<T>>)
    requires |s| == |t| && Above(s) == Above(t)
    ensures s == t
  {
    forall i | 0 <= i < |s| ensures s[i] == t[i] {
      assert Above(s)[i / 2] == Above(t)[i / 2];
      assert i == 2 * (i / 2) || i == 2 * (i / 2) + 1;
    }
  }

  /** For a fixed leaf count the root determines every leaf. */
  lemma {:induction false} RootInjective<T>(s: seq<Digest<T>>, t: seq<Digest<T>>)
    requires |s| == |t| && Root(s) == Root(t)
    ensures s == t
    decreases |s|
  {
    if |s| > 1 {
      RootInjective(Above(s), Above(t));
      AboveInjective(s, t);
    }
  }

  // ---- what a root commits, position aside

  predicate Contains<T(==)>(d: Digest<T>, x: Digest<T>) {
    d == x || (d.Node? && (Contains(d.left, x) || Contains(d.right, x)))
  }

  lemma {:induction false} ClimbContains<T>(x: Digest<T>, proof: seq<Step<T>>)
    ensures Contains(Climb(x, proof), x)
  {
    if proof != [] {
      ClimbContains(x, proof[..|proof| - 1]);
    }
  }

  lemma {:induction false} RootContains<T>(leaves: seq<Digest<T>>, x: Digest<T>) returns (i: nat)
    requires leaves != [] && !x.Node? && Contains(Root(leaves), x)
    ensures i < |leaves| && Contains(leaves[i], x)
    decreases |leaves|
  {
    if |leaves| == 1 {
      i := 0;
    } else {
      var j := RootContains(Above(leaves), x);
      AboveAt(leaves, j);
      i := if Contains(Evened(leaves)[2 * j], x) then 2 * j else Min(2 * j + 1, |leaves| - 1);
    }
  }

  lemma ReachedIsLeaf<T>(leaves: seq<Digest<T>>, x: Digest<T>, proof: seq<Step<T>>)
    requires leaves != [] && Atoms(leaves) && !x.Node? && Climb(x, proof) == Root(leaves)
    ensures x in leaves
  {
    hide Root, Climb;
    ClimbContains(x, proof);
    var i := RootContains(leaves, x);
  }

  /** Some proof takes an atom to the root exactly when it is one of the leaves. */
  lemma ReachableExactly<T>(leaves: seq<Digest<T>>, x: Digest<T>)
    requires leaves != [] && Atoms(leaves) && !x.Node?
    ensures (exists proof :: Climb(x, proof) == Root(leaves)) <==> x in leaves
  {
    hide Root, Climb, Proof;
    if proof :| Climb(x, proof) == Root(leaves) {
      ReachedIsLeaf(leaves, x, proof);
    }
    if x in leaves {
      var i: nat :| i < |leaves| && leaves[i] == x;
      ProofComplete(leaves, i);
    }
  }

  // ---------------------------------------------------------------- perfect trees

  lemma AboveHalves<T>(l: seq<Digest<T>>, r: seq<Digest<T>>)
    requires |l| % 2 == 0 && |r| % 2 == 0
    ensures Above(l + r) == Above(l) + Above(r)
  {
    var a, b := Above(l + r), Above(l) + Above(r);
    assert Evened(l + r) == l + r && Evened(l) == l && Evened(r) == r;
    hide Evened;
    hide Above;
    forall i | 0 <= i < |a| ensures a[i] == b[i] {
      var n := |l| / 2;
      AboveAt(l + r, i);
      if i < n {
        AboveAt(l, i);
      } else {
        AboveAt(r, i - n);
      }
    }
  }

  lemma {:induction false} RootHalves<T>(l: seq<Digest<T>>, r: seq<Digest<T>>, d: nat)
    requires |l| == |r| == Pow2(d)
    ensures Root(l + r) == Node(Root(l), Root(r))
    decreases d
  {
    if d == 0 {
      assert Above(l + r) == [Node(l[0], r[0])];
    } else {
      AboveHalves(l, r);
      RootHalves(Above(l), Above(r), d - 1);
    }
  }

  lemma SibStepHalves<T>(l: seq<Digest<T>>, r: seq<Digest<T>>, idx: nat)
    requires |l| % 2 == 0 && |r| % 2 == 0 && idx < |l| + |r|
    ensures SibStep(l + r, idx) == if idx < |l| then SibStep(l, idx) else SibStep(r, idx - |l|)
  {
    assert Evened(l + r) == l + r && Evened(l) == l && Evened(r) == r;
    assert idx < |l| ==> Sibling(idx) < |l|;
    assert idx >= |l| ==> Sibling(idx) >= |l| && Sibling(idx - |l|) == Sibling(idx) - |l|;
  }

  lemma RootUnfolds<T>(level: seq<Digest<T>>)
    requires |level| > 1
    ensures Root(level) == Root(Above(level))
  {
  }

  lemma ProofHalvesLeft<T>(l: seq<Digest<T>>, r: seq<Digest<T>>, idx: nat)
    requires |l| == |r| > 0 && |l| % 2 == 0 && idx < |l|
    requires Proof(Above(l) + Above(r), idx / 2) == Proof(Above(l), idx / 2) + [Step(Root(Above(r)), false)]
    ensures Proof(l + r, idx) == Proof(l, idx) + [Step(Root(r), false)]
  {
    hide *;
    AboveHalves(l, r);
    SibStepHalves(l, r, idx);
    ProofUnfolds(l + r, idx);
    ProofUnfolds(l, idx);
    RootUnfolds(r);
  }

  lemma ProofHalvesRight<T>(l: seq<Digest<T>>, r: seq<Digest<T>>, idx: nat)
    requires |l| == |r| > 0 && |l| % 2 == 0 && |l| <= idx < |l| + |r|
    requires Proof(Above(l) + Above(r), idx / 2)
          == Proof(Above(r), (idx - |l|) / 2) + [Step(Root(Above(l)), true)]
    ensures Proof(l + r, idx) == Proof(r, idx - |l|) + [Step(Root(l), true)]
  {
    hide *;
    AboveHalves(l, r);
    SibStepHalves(l, r, idx);
    ProofUnfolds(l + r, idx);
    ProofUnfolds(r, idx - |l|);
    RootUnfolds(l);
  }

  lemma {:induction false} ProofHalves<T>(l: seq<Digest<T>>, r: seq<Digest<T>>, d: nat, idx: nat)
    requires |l| == |r| == Pow2(d) && idx < |l| + |r|
    ensures idx < |l| ==> Proof(l + r, idx) == Proof(l, idx) + [Step(Root(r), false)]
    ensures idx >= |l| ==> Proof(l + r, idx) == Proof(r, idx - |l|) + [Step(Root(l), true)]
    decreases d
  {
    if d == 0 {
      ProofOfTwo(l[0], r[0], idx);
      assert l == [l[0]] && r == [r[0]] && l + r == [l[0], r[0]];
    } else {
      assert |l| == 2 * Pow2(d - 1);
      hide Proof;
      hide Root;
      hide Above;
      ProofHalves(Above(l), Above(r), d - 1, idx / 2);
      if idx < |l| {
        ProofHalvesLeft(l, r, idx);
      } else {
        assert (idx - |l|) / 2 == idx / 2 - |Above(l)|;
        ProofHalvesRight(l, r, idx);
      }
    }
  }

  lemma ProofOfTwo<T>(a: Digest<T>, b: Digest<T>, idx: nat)
    requires idx < 2
    ensures Proof([a, b], idx) == [if idx == 0 then Step(b, false) else Step(a, true)]
  {
    var up := Above([a, b]);
    assert |up| == 1;
    assert Proof(up, 0) == [];
  }

  lemma {:induction false} ProofLength<T>(leaves: seq<Digest<T>>, d: nat, idx: nat)
    requires |leaves| == Pow2(d) && idx < |leaves|
    ensures |Proof(leaves, idx)| == d
    decreases d
  {
    if d > 0 {
      ProofLength(Above(leaves), d - 1, idx / 2);
    }
  }

  ghost predicate Atoms<T>(leaves: seq<Digest<T>>) { forall i :: 0 <= i < |leaves| ==> !leaves[i].Node? }

  /** The two halves of a perfect tree. */
  lemma PerfectHalves<T>(leaves: seq<Digest<T>>, d: nat) returns (l: seq<Digest<T>>, r: seq<Digest<T>>)
    requires d > 0 && |leaves| == Pow2(d)
    ensures leaves == l + r && |l| == |r| == Pow2(d - 1)
    ensures Root(leaves) == Node(Root(l), Root(r))
  {
    var n := Pow2(d - 1);
    l, r := leaves[..n], leaves[n..];
    assert leaves == l + r;
    RootHalves(l, r, d - 1);
  }

  lemma AtomsHalves<T>(l: seq<Digest<T>>, r: seq<Digest<T>>)
    requires Atoms(l + r)
    ensures Atoms(l) && Atoms(r)
  {
    forall i | 0 <= i < |l| ensures !l[i].Node? {
      assert (l + r)[i] == l[i];
    }
    forall i | 0 <= i < |r| ensures !r[i].Node? {
      assert (l + r)[|l| + i] == r[i];
    }
  }

  lemma Singleton<T>(leaves: seq<Digest<T>>)
    requires |leaves| == Pow2(0)
    ensures |leaves| == 1 && Proof(leaves, 0) == [] && Root(leaves) == leaves[0]
    ensures Atoms(leaves) ==> !leaves[0].Node?
  {
    ProofOfOne(leaves);
    hide Proof;
    hide Root;
  }

  lemma ClimbToAtom<T>(x: Digest<T>, proof: seq<Step<T>>)
    ensures !Climb(x, proof).Node? ==> proof == [] && Climb(x, proof) == x
  {
  }

  lemma ClimbSplit<T>(x: Digest<T>, proof: seq<Step<T>>, l: Digest<T>, r: Digest<T>)
    returns (front: seq<Step<T>>, isLeft: bool)
    requires Climb(x, proof) == Node(l, r) && !x.Node?
    ensures isLeft ==> proof == front + [Step(l, true)] && Climb(x, front) == r
    ensures !isLeft ==> proof == front + [Step(r, false)] && Climb(x, front) == l
  {
    var last := proof[|proof| - 1];
    front, isLeft := proof[..|proof| - 1], last.isLeft;
    assert proof == front + [last];
  }

  /** Soundness on a perfect tree: whatever siblings are supplied and however many, an atom rolls up to the root
      only from a position that holds it and only along that position's true proof. */
  lemma {:induction false} PerfectSound<T>(leaves: seq<Digest<T>>, d: nat, x: Digest<T>, proof: seq<Step<T>>)
    returns (idx: nat)
    requires |leaves| == Pow2(d) && Atoms(leaves) && !x.Node?
    requires Climb(x, proof) == Root(leaves)
    ensures idx < |leaves| && leaves[idx] == x && proof == Proof(leaves, idx)
    decreases d
  {
    hide *;
    if d == 0 {
      Singleton(leaves);
      ClimbToAtom(x, proof);
      idx := 0;
    } else {
      var l, r := PerfectHalves(leaves, d);
      AtomsHalves(l, r);
      var front, isLeft := ClimbSplit(x, proof, Root(l), Root(r));
      if isLeft {
        var i := PerfectSound(r, d - 1, x, front);
        idx := |l| + i;
        ProofHalves(l, r, d - 1, idx);
      } else {
        idx := PerfectSound(l, d - 1, x, front);
        ProofHalves(l, r, d - 1, idx);
      }
    }
  }

  /** On a perfect tree the siblings of a position do not contain it, so changing the leaf keeps its proof. */
  lemma UpdateLeft<T>(l: seq<Digest<T>>, r: seq<Digest<T>>, d: nat, idx: nat, x: Digest<T>)
    requires |l| == |r| == Pow2(d) && idx < |l| && Proof(l[idx := x], idx) == Proof(l, idx)
    ensures Proof((l + r)[idx := x], idx) == Proof(l + r, idx)
  {
    hide *;
    assert (l + r)[idx := x] == l[idx := x] + r;
    ProofHalves(l, r, d, idx);
    ProofHalves(l[idx := x], r, d, idx);
  }

  lemma UpdateRight<T>(l: seq<Digest<T>>, r: seq<Digest<T>>, d: nat, idx: nat, x: Digest<T>)
    requires |l| == |r| == Pow2(d) && |l| <= idx < |l| + |r|
    requires Proof(r[idx - |l| := x], idx - |l|) == Proof(r, idx - |l|)
    ensures Proof((l + r)[idx := x], idx) == Proof(l + r, idx)
  {
    hide *;
    assert (l + r)[idx := x] == l + r[idx - |l| := x];
    ProofHalves(l, r, d, idx);
    ProofHalves(l, r[idx - |l| := x], d, idx);
  }

  lemma {:induction false} ProofSurvivesUpdate<T>(leaves: seq<Digest<T>>, d: nat, idx: nat, x: Digest<T>)
    requires |leaves| == Pow2(d) && idx < |leaves|
    ensures Proof(leaves[idx := x], idx) == Proof(leaves, idx)
    decreases d
  {
    hide *;
    if d == 0 {
      Singleton(leaves);
      Singleton(leaves[idx := x]);
    } else {
      var l, r := PerfectHalves(leaves, d);
      if idx < |l| {
        ProofSurvivesUpdate(l, d - 1, idx, x);
        UpdateLeft(l, r, d - 1, idx, x);
      } else {
        ProofSurvivesUpdate(r, d - 1, idx - |l|, x);
        UpdateRight(l, r, d - 1, idx, x);
      }
    }
  }

  /** So the old proof takes the new leaf to the root of the changed tree. */
  lemma UpdateRollsUp<T>(leaves: seq<Digest<T>>, d: nat, idx: nat, x: Digest<T>)
    requires |leaves| == Pow2(d) && idx < |leaves|
    ensures Climb(x, Proof(leaves, idx)) == Root(leaves[idx := x])
  {
    ProofSurvivesUpdate(leaves, d, idx, x);
    ProofComplete(leaves[idx := x], idx);
  }

  /** Without padding the reuse fails: in a three-leaf tree the last leaf is its own sibling, and its old proof
      never takes a changed leaf to the changed root. */
  lemma ReuseNeedsPadding<T>(a: Digest<T>, b: Digest<T>, c: Digest<T>, x: Digest<T>)
    requires x != c
    ensures Climb(x, Proof([a, b, c], 2)) != Root([a, b, c][2 := x])
  {
    ProofOfThird(a, b, c);
    RootOfThree(a, b, x);
    var p := [Step(c, false), Step(Node(a, b), true)];
    assert p == [p[0]] + [p[1]] && [p[1]] == [p[1]] + [];
    ClimbFromBelow(x, p[0], [p[1]]);
    ClimbFromBelow(Node(x, c), p[1], []);
    assert [a, b, c][2 := x] == [a, b, x];
  }

  lemma RootOfThree<T>(a: Digest<T>, b: Digest<T>, c: Digest<T>)
    ensures Root([a, b, c]) == Node(Node(a, b), Node(c, c))
  {
    var up := Above([a, b, c]);
    assert up == [Node(a, b), Node(c, c)];
    var top := Above(up);
    assert top == [Node(Node(a, b), Node(c, c))];
    assert Root(top) == top[0];
    assert Root(up) == Root(top);
  }

  lemma ProofOfThird<T>(a: Digest<T>, b: Digest<T>, c: Digest<T>)
    ensures Proof([a, b, c], 2) == [Step(c, false), Step(Node(a, b), true)]
  {
    assert Above([a, b, c]) == [Node(a, b), Node(c, c)];
    ProofOfTwo(Node(a, b), Node(c, c), 1);
    ProofUnfolds([a, b, c], 2);
  }
}
