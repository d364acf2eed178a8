/** Commit-reveal agreement on a round's seed and participant order (neurahash/diloco_clock.py). */
module Clock {
  import opened Prelude
  import opened Sorting

  type Bytes = seq<int>

  /** The hiding commitment to a nonce; any other digest string is garbage. */
  datatype Digest = Commitment(round: int, signer: Addr, nonce: Bytes) | Garbage(id: nat)

  /** Hex decoding (several spellings share a value), the seed hash and the order-key hash. */
  datatype Hashes = Hashes(decode: string -> Option<Bytes>,
                           seed: (int, seq<(Addr, Bytes)>) -> nat,
                           orderKey: (nat, Addr) -> nat)

  datatype Commit = MalformedCommit | Commit(round: int, signer: Addr, digest: Digest)

  datatype Reveal = MalformedReveal | Reveal(round: int, signer: Addr, nonce: string)

  /** A round number is hashed as eight unsigned bytes. */
  predicate RoundFits(round: int) { 0 <= round < 0x1_0000_0000_0000_0000 }

  /** `commit_digest`, for a round that fits; a nonce that is not hex has none. */
  function CommitDigest(h: Hashes, round: int, signer: Addr, nonce: string): Option<Digest> {
    var n := h.decode(nonce);
    if n.None? then None else Some(Commitment(round, signer, n.value))
  }

  /** `verify_reveal` */
  predicate Opens(h: Hashes, c: Commit, r: Reveal)
    requires c.Commit? && r.Reveal?
  {
    c.round == r.round && c.signer == r.signer && CommitDigest(h, r.round, r.signer, r.nonce) == Some(c.digest)
  }

  /** Sealing a nonce, publishing the commit and later the nonce opens that commit, and only that one. */
  lemma SealedOpens(h: Hashes, round: int, signer: Addr, nonce: string, other: string)
    requires h.decode(nonce).Some?
    ensures var c := Commit(round, signer, CommitDigest(h, round, signer, nonce).value);
            Opens(h, c, Reveal(round, signer, other)) <==> h.decode(other) == h.decode(nonce)
  {
  }

  // ---------------------------------------------------------------- the two loops, as folds

  datatype Commits = Commits(first: map<Addr, Digest>, equivocators: set<Addr>, wrongRound: set<Addr>)

  function AddCommit(s: Commits, c: Commit, round: int): Commits {
    if c.MalformedCommit? then s
    else if c.round != round then s.(wrongRound := s.wrongRound + {c.signer})
    else if c.signer in s.first && s.first[c.signer] != c.digest then
      s.(equivocators := s.equivocators + {c.signer})
    else if c.signer in s.first then s
    else s.(first := s.first[c.signer := c.digest])
  }

  function FoldCommits(commits: seq<Commit>, round: int): Commits {
    if commits == [] then Commits(map[], {}, {})
    else AddCommit(FoldCommits(commits[..|commits| - 1], round), commits[|commits| - 1], round)
  }

  /** The commits that count: an equivocator's are dropped altogether. */
  function Trusted(s: Commits): map<Addr, Digest> { s.first - s.equivocators }

  datatype Reveals = Reveals(valid: map<Addr, string>, unsolicited: set<Addr>, rejected: set<Addr>,
                             wrongRound: set<Addr>)

  function AddReveal(h: Hashes, s: Reveals, trusted: map<Addr, Digest>, r: Reveal, round: int): Reveals {
    if r.MalformedReveal? then s
    else if r.round != round then s.(wrongRound := s.wrongRound + {r.signer})
    else if r.signer !in trusted then s.(unsolicited := s.unsolicited + {r.signer})
    else if r.signer in s.valid then s
    else if Opens(h, Commit(round, r.signer, trusted[r.signer]), r) then s.(valid := s.valid[r.signer := r.nonce])
    else s.(rejected := s.rejected + {r.signer})
  }

  function FoldReveals(h: Hashes, trusted: map<Addr, Digest>, shown: seq<Reveal>, round: int): Reveals {
    if shown == [] then Reveals(map[], {}, {}, {})
    else AddReveal(h, FoldReveals(h, trusted, shown[..|shown| - 1], round), trusted,
                   shown[|shown| - 1], round)
  }

  // ---------------------------------------------------------------- sorted sets

  /** sorted(s) */
  ghost function SortedSet(s: set<Addr>): (r: seq<Addr>)
    ensures Ascending(r)
    ensures forall x :: x in r <==> x in s
  {
    if s == {} then []
    else
      var x :| x in s;
      var t := Sort(SortedSet(s - {x}) + [x], NatLe);
      SortAscending(SortedSet(s - {x}) + [x]);
      t
  }

  method SortSet(s: set<Addr>) returns (r: seq<Addr>)
    ensures r == SortedSet(s)
  {
    r := [];
    var left := s;
    while left != {}
      invariant left <= s && Ascending(r)
      invariant forall x :: x in r <==> x in s && x !in left
      decreases left
    {
      var x :| x in left;
      SortAscending(r + [x]);
      r := Sort(r + [x], NatLe);
      left := left - {x};
    }
    AscendingUnique(r, SortedSet(s));
  }

  /** The order of the agreed participants: by order key, ties by address. */
  function OrderLe(h: Hashes, seed: nat): (Addr, Addr) -> bool {
    (a: Addr, b: Addr) =>
      h.orderKey(seed, a) < h.orderKey(seed, b) || (h.orderKey(seed, a) == h.orderKey(seed, b) && a <= b)
  }

  lemma OrderIsTotal(h: Hashes, seed: nat)
    ensures TotalOrder(OrderLe(h, seed))
  {
  }

  // ---------------------------------------------------------------- the agreement

  datatype Agreement = Agreement(round: int, seed: nat, order: seq<Addr>, valid: seq<Addr>, missing: seq<Addr>,
                                 rejected: seq<Addr>, unsolicited: seq<Addr>, equivocators: seq<Addr>,
                                 wrongRound: seq<Addr>)

  /** The revealed nonces, in signer order. */
  function SeedItems(h: Hashes, signers: seq<Addr>, valid: map<Addr, string>): seq<(Addr, Bytes)>
    requires forall s :: s in signers ==> s in valid && h.decode(valid[s]).Some?
  {
    seq(|signers|, i requires 0 <= i < |signers| => (signers[i], h.decode(valid[signers[i]]).value))
  }

  ghost predicate AllDecode(h: Hashes, valid: map<Addr, string>) { forall s :: s in valid ==> h.decode(valid[s]).Some? }

  lemma {:induction false} FoldDecodes(h: Hashes, trusted: map<Addr, Digest>, shown: seq<Reveal>, round: int)
    ensures AllDecode(h, FoldReveals(h, trusted, shown, round).valid)
    ensures FoldReveals(h, trusted, shown, round).valid.Keys <= trusted.Keys
  {
    if shown != [] {
      FoldDecodes(h, trusted, shown[..|shown| - 1], round);
    }
  }

  ghost function Agree(h: Hashes, commits: seq<Commit>, shown: seq<Reveal>, round: int): Agreement {
    var c := FoldCommits(commits, round);
    var r := FoldReveals(h, Trusted(c), shown, round);
    FoldDecodes(h, Trusted(c), shown, round);
    var valid := SortedSet(r.valid.Keys);
    var seed := h.seed(round, SeedItems(h, valid, r.valid));
    Agreement(round, seed, Sort(valid, OrderLe(h, seed)), valid, SortedSet(Trusted(c).Keys - r.valid.Keys),
              SortedSet(r.rejected), SortedSet(r.unsolicited), SortedSet(c.equivocators),
              SortedSet(c.wrongRound + r.wrongRound))
  }

  /** `agree_round`; deriving the seed raises for a round that does not fit. */
  method AgreeRound(h: Hashes, commits: seq<Commit>, shown: seq<Reveal>, round: int) returns (a: Result<Agreement>)
    ensures a == if RoundFits(round) then Ok(Agree(h, commits, shown, round)) else Err("int too big to convert")
  {
    hide SortedSet, Opens, Sort, OrderLe;
    var first: map<Addr, Digest>, equivocators: set<Addr>, wrongRound: set<Addr> := map[], {}, {};
    for i := 0 to |commits|
      invariant Commits(first, equivocators, wrongRound) == FoldCommits(commits[..i], round)
    {
      var c := commits[i];
      assert commits[..i + 1][..i] == commits[..i];
      if c.MalformedCommit? {
        continue;
      }
      if c.round != round {
        wrongRound := wrongRound + {c.signer};
      } else if c.signer in first && first[c.signer] != c.digest {
        equivocators := equivocators + {c.signer};
      } else if c.signer !in first {
        first := first[c.signer := c.digest];
      }
    }
    assert commits[..|commits|] == commits;
    var trusted := first - equivocators;
    ghost var folded := FoldCommits(commits, round);
    hide FoldCommits;
    var valid: map<Addr, string>, unsolicited: set<Addr>, rejected: set<Addr>, late: set<Addr> := map[], {}, {}, {};
    for i := 0 to |shown|
      invariant Reveals(valid, unsolicited, rejected, late) == FoldReveals(h, trusted, shown[..i], round)
    {
      var r := shown[i];
      assert shown[..i + 1][..i] == shown[..i];
      if r.MalformedReveal? {
        continue;
      }
      if r.round != round {
        late := late + {r.signer};
      } else if r.signer !in trusted {
        unsolicited := unsolicited + {r.signer};
      } else if r.signer in valid {
        continue;
      } else if Opens(h, Commit(round, r.signer, trusted[r.signer]), r) {
        valid := valid[r.signer := r.nonce];
      } else {
        rejected := rejected + {r.signer};
      }
    }
    assert shown[..|shown|] == shown;
    FoldDecodes(h, trusted, shown, round);
    hide FoldReveals;
    var missing := SortSet(trusted.Keys - valid.Keys);
    var rej := SortSet(rejected);
    var uns := SortSet(unsolicited);
    var equ := SortSet(equivocators);
    var wro := SortSet(wrongRound + late);
    var signers := SortSet(valid.Keys);
    if !RoundFits(round) {
      return Err("int too big to convert");
    }
    var seed := h.seed(round, SeedItems(h, signers, valid));
    a := Ok(Agreement(round, seed, Sort(signers, OrderLe(h, seed)), signers, missing, rej, uns, equ, wro));
  }

  // ---------------------------------------------------------------- what the sets received decide

  /** `s` committed exactly one digest for the round, and it is `d`. */
  ghost predicate CommittedOnce(commits: seq<Commit>, round: int, s: Addr, d: Digest) {
    Commit(round, s, d) in commits && forall e :: Commit(round, s, e) in commits ==> e == d
  }

  ghost predicate CommittedTwice(commits: seq<Commit>, round: int, s: Addr) {
    exists d, e :: d != e && Commit(round, s, d) in commits && Commit(round, s, e) in commits
  }

  lemma SnocIn<T>(q: seq<T>, x: T)
    requires q != []
    ensures x in q <==> x in q[..|q| - 1] || x == q[|q| - 1]
  {
    assert q == q[..|q| - 1] + [q[|q| - 1]];
  }

  /** What the commit loop knows of one signer: its first digest, and whether a different one followed. */
  ghost predicate CommitsKnown(f: Commits, commits: seq<Commit>, round: int, s: Addr) {
    && (s in f.first ==> Commit(round, s, f.first[s]) in commits)
    && (forall d :: Commit(round, s, d) in commits ==> s in f.first && (d == f.first[s] || s in f.equivocators))
    && (s in f.equivocators ==> s in f.first && exists d :: d != f.first[s] && Commit(round, s, d) in commits)
    && (s in f.wrongRound <==> exists c :: c in commits && c.Commit? && c.round != round && c.signer == s)
  }

  lemma {:induction false} FoldCommitsKnows(commits: seq<Commit>, round: int, s: Addr)
    ensures CommitsKnown(FoldCommits(commits, round), commits, round, s)
  {
    if commits != [] {
      var n := |commits| - 1;
      var rest, c := commits[..n], commits[n];
      FoldCommitsKnows(rest, round, s);
      var f, g := FoldCommits(rest, round), FoldCommits(commits, round);
      assert g == AddCommit(f, c, round);
      forall d ensures Commit(round, s, d) in commits <==> Commit(round, s, d) in rest || Commit(round, s, d) == c {
        SnocIn(commits, Commit(round, s, d));
      }
      forall x ensures x in commits <==> x in rest || x == c {
        SnocIn(commits, x);
      }
    }
  }

  /** So the trusted commits and the equivocators are properties of the set. */
  lemma TrustedExactly(commits: seq<Commit>, round: int)
    ensures var f := FoldCommits(commits, round);
            && (forall s, d :: s in Trusted(f) && Trusted(f)[s] == d <==> CommittedOnce(commits, round, s, d))
            && (forall s :: s in f.equivocators <==> CommittedTwice(commits, round, s))
  {
    var f := FoldCommits(commits, round);
    hide FoldCommits;
    forall s, d ensures s in Trusted(f) && Trusted(f)[s] == d <==> CommittedOnce(commits, round, s, d) {
      FoldCommitsKnows(commits, round, s);
    }
    forall s ensures s in f.equivocators <==> CommittedTwice(commits, round, s) {
      FoldCommitsKnows(commits, round, s);
    }
  }

  ghost predicate SameMembers<T(!new)>(a: seq<T>, b: seq<T>) { forall x :: x in a <==> x in b }

  lemma CommitsDecide(a: seq<Commit>, b: seq<Commit>, round: int)
    requires SameMembers(a, b)
    ensures Trusted(FoldCommits(a, round)) == Trusted(FoldCommits(b, round))
    ensures FoldCommits(a, round).equivocators == FoldCommits(b, round).equivocators
    ensures FoldCommits(a, round).wrongRound == FoldCommits(b, round).wrongRound
  {
    var f, g := FoldCommits(a, round), FoldCommits(b, round);
    TrustedExactly(a, round);
    TrustedExactly(b, round);
    hide FoldCommits;
    forall s, d ensures CommittedOnce(a, round, s, d) <==> CommittedOnce(b, round, s, d) {
    }
    forall s ensures CommittedTwice(a, round, s) <==> CommittedTwice(b, round, s) {
    }
    hide CommittedOnce, CommittedTwice;
    forall s ensures s in f.wrongRound <==> s in g.wrongRound {
      FoldCommitsKnows(a, round, s);
      FoldCommitsKnows(b, round, s);
    }
    TrustedAgree(f, g, a, b, round);
  }

  lemma TrustedAgree(f: Commits, g: Commits, a: seq<Commit>, b: seq<Commit>, round: int)
    requires forall s, d :: s in Trusted(f) && Trusted(f)[s] == d <==> CommittedOnce(a, round, s, d)
    requires forall s, d :: s in Trusted(g) && Trusted(g)[s] == d <==> CommittedOnce(b, round, s, d)
    requires forall s, d :: CommittedOnce(a, round, s, d) <==> CommittedOnce(b, round, s, d)
    ensures Trusted(f) == Trusted(g)
  {
    hide CommittedOnce, Trusted;
    forall s ensures s in Trusted(f) <==> s in Trusted(g) {
      if s in Trusted(f) {
        assert CommittedOnce(a, round, s, Trusted(f)[s]);
      }
      if s in Trusted(g) {
        assert CommittedOnce(b, round, s, Trusted(g)[s]);
      }
    }
    forall s | s in Trusted(f) ensures Trusted(f)[s] == Trusted(g)[s] {
      assert CommittedOnce(a, round, s, Trusted(f)[s]);
    }
  }

  /** `s` opened its trusted commit with a nonce of these bytes. */
  ghost predicate Opened(h: Hashes, trusted: map<Addr, Digest>, shown: seq<Reveal>, round: int, s: Addr, nonce: Bytes) {
    && s in trusted && trusted[s] == Commitment(round, s, nonce)
    && exists text :: Reveal(round, s, text) in shown && h.decode(text) == Some(nonce)
  }

  /** What the reveal loop knows of one signer, arrival order aside. */
  ghost predicate RevealsKnown(h: Hashes, r: Reveals, trusted: map<Addr, Digest>, shown: seq<Reveal>, round: int,
                               s: Addr)
  {
    && (s in r.valid ==> h.decode(r.valid[s]).Some? && Opened(h, trusted, shown, round, s, h.decode(r.valid[s]).value))
    && (forall nonce :: Opened(h, trusted, shown, round, s, nonce) ==> s in r.valid)
    && (s in r.unsolicited <==> s !in trusted && exists text :: Reveal(round, s, text) in shown)
    && (s in r.wrongRound <==> exists x :: x in shown && x.Reveal? && x.round != round && x.signer == s)
  }

  lemma {:induction false} FoldRevealsKnows(h: Hashes, trusted: map<Addr, Digest>, shown: seq<Reveal>, round: int,
                                            s: Addr)
    ensures RevealsKnown(h, FoldReveals(h, trusted, shown, round), trusted, shown, round, s)
  {
    if shown != [] {
      var n := |shown| - 1;
      var rest, r := shown[..n], shown[n];
      FoldRevealsKnows(h, trusted, rest, round, s);
      var f, g := FoldReveals(h, trusted, rest, round), FoldReveals(h, trusted, shown, round);
      assert g == AddReveal(h, f, trusted, r, round);
      hide FoldReveals;
      forall x ensures x in shown <==> x in rest || x == r {
        SnocIn(shown, x);
      }
      RevealStep(h, f, trusted, rest, shown, r, round, s);
    }
  }

  lemma RevealStep(h: Hashes, f: Reveals, trusted: map<Addr, Digest>, rest: seq<Reveal>, shown: seq<Reveal>, r: Reveal,
                   round: int, s: Addr)
    requires RevealsKnown(h, f, trusted, rest, round, s)
    requires forall x :: x in shown <==> x in rest || x == r
    ensures RevealsKnown(h, AddReveal(h, f, trusted, r, round), trusted, shown, round, s)
  {
    var g := AddReveal(h, f, trusted, r, round);
    assert r in shown;
    forall nonce | Opened(h, trusted, rest, round, s, nonce) ensures Opened(h, trusted, shown, round, s, nonce) {
    }
    forall nonce | Opened(h, trusted, shown, round, s, nonce) ensures s in g.valid {
      var text :| Reveal(round, s, text) in shown && h.decode(text) == Some(nonce);
      if Reveal(round, s, text) in rest {
        assert Opened(h, trusted, rest, round, s, nonce);
      }
    }
  }

  lemma RevealsDecide(h: Hashes, trusted: map<Addr, Digest>, a: seq<Reveal>, b: seq<Reveal>, round: int)
    requires SameMembers(a, b)
    ensures var f, g := FoldReveals(h, trusted, a, round), FoldReveals(h, trusted, b, round);
            && f.valid.Keys == g.valid.Keys
            && (forall s :: s in f.valid ==> h.decode(f.valid[s]) == h.decode(g.valid[s]))
            && f.unsolicited == g.unsolicited && f.wrongRound == g.wrongRound
  {
    var f, g := FoldReveals(h, trusted, a, round), FoldReveals(h, trusted, b, round);
    hide FoldReveals;
    forall s ensures (s in f.valid <==> s in g.valid)
                  && (s in f.valid && s in g.valid ==> h.decode(f.valid[s]) == h.decode(g.valid[s]))
                  && (s in f.unsolicited <==> s in g.unsolicited) && (s in f.wrongRound <==> s in g.wrongRound)
    {
      FoldRevealsKnows(h, trusted, a, round, s);
      FoldRevealsKnows(h, trusted, b, round, s);
      forall nonce ensures Opened(h, trusted, a, round, s, nonce) <==> Opened(h, trusted, b, round, s, nonce) {
      }
    }
  }

  /** Nodes that received the same commits and the same reveals, in any order and with any repeats, agree on
      everything but which early wrong reveals they turned away. */
  lemma SameSetsAgree(h: Hashes, c1: seq<Commit>, c2: seq<Commit>, r1: seq<Reveal>, r2: seq<Reveal>, round: int)
    requires SameMembers(c1, c2) && SameMembers(r1, r2)
    ensures Agree(h, c1, r1, round).(rejected := []) == Agree(h, c2, r2, round).(rejected := [])
  {
    hide FoldCommits, FoldReveals, SortedSet, Sort, OrderLe, SameMembers;
    CommitsDecide(c1, c2, round);
    var trusted := Trusted(FoldCommits(c1, round));
    RevealsDecide(h, trusted, r1, r2, round);
    FoldDecodes(h, trusted, r1, round);
    FoldDecodes(h, trusted, r2, round);
    var f, g := FoldReveals(h, trusted, r1, round), FoldReveals(h, trusted, r2, round);
    assert SeedItems(h, SortedSet(f.valid.Keys), f.valid) == SeedItems(h, SortedSet(g.valid.Keys), g.valid);
  }

  /** The agreed order lists, once each, exactly the signers that committed once and opened that commit. */
  lemma OrderExactly(h: Hashes, commits: seq<Commit>, shown: seq<Reveal>, round: int)
    ensures var a := Agree(h, commits, shown, round);
            && multiset(a.order) == multiset(a.valid) && Ascending(a.valid)
            && (forall s :: s in a.order <==> exists nonce ::
                  && CommittedOnce(commits, round, s, Commitment(round, s, nonce))
                  && exists text :: Reveal(round, s, text) in shown && h.decode(text) == Some(nonce))
  {
    hide FoldCommits, FoldReveals, SortedSet, Sort;
    var a := Agree(h, commits, shown, round);
    OrderIsTotal(h, a.seed);
    SortCorrect(a.valid, OrderLe(h, a.seed));
    TrustedExactly(commits, round);
    var trusted := Trusted(FoldCommits(commits, round));
    var r := FoldReveals(h, trusted, shown, round);
    hide OrderLe, CommittedOnce, CommittedTwice, Trusted;
    forall s ensures s in a.order <==> exists nonce ::
                       && CommittedOnce(commits, round, s, Commitment(round, s, nonce))
                       && exists text :: Reveal(round, s, text) in shown && h.decode(text) == Some(nonce)
    {
      FoldRevealsKnows(h, trusted, shown, round, s);
      assert s in a.order <==> s in r.valid;
      if s in r.valid {
        var nonce := h.decode(r.valid[s]).value;
        assert Opened(h, trusted, shown, round, s, nonce);
        assert CommittedOnce(commits, round, s, Commitment(round, s, nonce));
      }
      if nonce :| CommittedOnce(commits, round, s, Commitment(round, s, nonce))
                  && exists text :: Reveal(round, s, text) in shown && h.decode(text) == Some(nonce)
      {
        assert Opened(h, trusted, shown, round, s, nonce);
      }
    }
  }

  /** Everyone who committed is accounted for in exactly one place: valid, missing or an equivocator. */
  lemma EveryCommitterAccounted(h: Hashes, commits: seq<Commit>, shown: seq<Reveal>, round: int, s: Addr)
    ensures var a := Agree(h, commits, shown, round);
            && ((exists d :: Commit(round, s, d) in commits) <==> s in a.valid || s in a.missing || s in a.equivocators)
            && !(s in a.valid && s in a.missing)
            && !(s in a.equivocators && (s in a.valid || s in a.missing))
            && (s in a.equivocators <==> CommittedTwice(commits, round, s))
  {
    FoldDecodes(h, Trusted(FoldCommits(commits, round)), shown, round);
    FoldCommitsKnows(commits, round, s);
    TrustedExactly(commits, round);
    hide FoldCommits, FoldReveals, SortedSet, Sort, OrderLe, CommittedTwice;
  }

  // ---------------------------------------------------------------- what arrival order decides

  /** A reveal of `s` for the round that does, or does not, open its trusted commit. */
  ghost predicate Good(h: Hashes, trusted: map<Addr, Digest>, round: int, s: Addr, r: Reveal) {
    r.Reveal? && r.round == round && r.signer == s && s in trusted
    && CommitDigest(h, round, s, r.nonce) == Some(trusted[s])
  }

  ghost predicate Wrong(h: Hashes, trusted: map<Addr, Digest>, round: int, s: Addr, r: Reveal) {
    r.Reveal? && r.round == round && r.signer == s && s in trusted
    && CommitDigest(h, round, s, r.nonce) != Some(trusted[s])
  }

  ghost predicate SomeGood(h: Hashes, trusted: map<Addr, Digest>, round: int, s: Addr, shown: seq<Reveal>) {
    exists r :: r in shown && Good(h, trusted, round, s, r)
  }

  /** Reveal j of `shown` is a wrong one of `s`, and no good one of `s` comes before it. */
  ghost predicate WrongFirst(h: Hashes, trusted: map<Addr, Digest>, round: int, s: Addr, shown: seq<Reveal>, j: nat)
    requires j < |shown|
  {
    Wrong(h, trusted, round, s, shown[j]) && !SomeGood(h, trusted, round, s, shown[..j])
  }

  /** A signer is rejected exactly when a wrong reveal of its stands before every good one. */
  lemma {:induction false} RejectedExactly(h: Hashes, trusted: map<Addr, Digest>, shown: seq<Reveal>, round: int, s: Addr)
    ensures var f := FoldReveals(h, trusted, shown, round);
            && (s in f.valid <==> SomeGood(h, trusted, round, s, shown))
            && (s in f.rejected <==> exists j :: 0 <= j < |shown| && WrongFirst(h, trusted, round, s, shown, j))
  {
    if shown != [] {
      var n := |shown| - 1;
      var rest, r := shown[..n], shown[n];
      RejectedExactly(h, trusted, rest, round, s);
      var f := FoldReveals(h, trusted, rest, round);
      assert FoldReveals(h, trusted, shown, round) == AddReveal(h, f, trusted, r, round);
      hide FoldReveals;
      forall x ensures x in shown <==> x in rest || x == r {
        SnocIn(shown, x);
      }
      AddRevealAt(h, f, trusted, r, round, s);
      hide AddReveal, Good, Wrong;
      forall j | 0 <= j < n
        ensures WrongFirst(h, trusted, round, s, shown, j) <==> WrongFirst(h, trusted, round, s, rest, j)
      {
        assert shown[..j] == rest[..j];
      }
      assert WrongFirst(h, trusted, round, s, shown, n) <==>
             Wrong(h, trusted, round, s, r) && !SomeGood(h, trusted, round, s, rest);
    }
  }

  lemma AddRevealAt(h: Hashes, f: Reveals, trusted: map<Addr, Digest>, r: Reveal, round: int, s: Addr)
    ensures var g := AddReveal(h, f, trusted, r, round);
            && (s in g.valid <==> s in f.valid || Good(h, trusted, round, s, r))
            && (s in g.rejected <==> s in f.rejected || (s !in f.valid && Wrong(h, trusted, round, s, r)))
  {
  }

  /** A trusted signer that showed both a good and a wrong reveal. */
  ghost predicate ShowedBoth(h: Hashes, trusted: map<Addr, Digest>, round: int, s: Addr, shown: seq<Reveal>) {
    SomeGood(h, trusted, round, s, shown) && exists r :: r in shown && Wrong(h, trusted, round, s, r)
  }

  lemma RejectedOfOneKind(h: Hashes, trusted: map<Addr, Digest>, shown: seq<Reveal>, round: int, s: Addr)
    requires !ShowedBoth(h, trusted, round, s, shown)
    ensures s in FoldReveals(h, trusted, shown, round).rejected <==>
            exists r :: r in shown && Wrong(h, trusted, round, s, r)
  {
    RejectedExactly(h, trusted, shown, round, s);
    hide FoldReveals, Good, Wrong;
    if r :| r in shown && Wrong(h, trusted, round, s, r) {
      var j :| 0 <= j < |shown| && shown[j] == r;
      forall x | x in shown[..j] ensures x in shown {
      }
      assert WrongFirst(h, trusted, round, s, shown, j);
    }
  }

  /** Putting a reveal in front decides for its signer. */
  lemma RejectedByFirst(h: Hashes, trusted: map<Addr, Digest>, x: Reveal, shown: seq<Reveal>, round: int, s: Addr)
    ensures Wrong(h, trusted, round, s, x) ==> s in FoldReveals(h, trusted, [x] + shown, round).rejected
    ensures Good(h, trusted, round, s, x) ==> s !in FoldReveals(h, trusted, [x] + shown, round).rejected
  {
    var all := [x] + shown;
    RejectedExactly(h, trusted, all, round, s);
    hide FoldReveals;
    assert all[0] == x && all[..0] == [];
    if Wrong(h, trusted, round, s, x) {
      assert WrongFirst(h, trusted, round, s, all, 0);
    }
    if Good(h, trusted, round, s, x) {
      forall j | 0 <= j < |all| ensures !WrongFirst(h, trusted, round, s, all, j) {
        if j > 0 {
          assert all[..j][0] == x;
        }
      }
    }
  }

  /** Arrivals of one set of reveals, in any order and with any repeats, all give the same bucket. */
  ghost predicate ArrivalIrrelevant(h: Hashes, commits: seq<Commit>, shown: seq<Reveal>, round: int) {
    forall other :: SameMembers(shown, other) ==>
      Agree(h, commits, other, round).rejected == Agree(h, commits, shown, round).rejected
  }

  /** The `rejected` bucket is independent of arrival exactly when no trusted signer showed both kinds of reveal. */
  lemma ArrivalIrrelevantExactly(h: Hashes, commits: seq<Commit>, shown: seq<Reveal>, round: int)
    ensures var trusted := Trusted(FoldCommits(commits, round));
            ArrivalIrrelevant(h, commits, shown, round) <==> forall s :: !ShowedBoth(h, trusted, round, s, shown)
  {
    hide FoldCommits, FoldReveals, Good, Wrong, Trusted, Agree;
    var trusted := Trusted(FoldCommits(commits, round));
    if forall s :: !ShowedBoth(h, trusted, round, s, shown) {
      forall other | SameMembers(shown, other)
        ensures Agree(h, commits, other, round).rejected == Agree(h, commits, shown, round).rejected
      {
        SameRejected(h, commits, shown, other, round);
      }
    }
    if s :| ShowedBoth(h, trusted, round, s, shown) {
      var g :| g in shown && Good(h, trusted, round, s, g);
      var w :| w in shown && Wrong(h, trusted, round, s, w);
      RejectedByFirst(h, trusted, g, shown, round, s);
      RejectedByFirst(h, trusted, w, shown, round, s);
      assert SameMembers(shown, [g] + shown) && SameMembers(shown, [w] + shown);
      BucketRead(h, commits, [g] + shown, round, s);
      BucketRead(h, commits, [w] + shown, round, s);
    }
  }

  lemma BucketRead(h: Hashes, commits: seq<Commit>, shown: seq<Reveal>, round: int, s: Addr)
    ensures s in Agree(h, commits, shown, round).rejected <==>
            s in FoldReveals(h, Trusted(FoldCommits(commits, round)), shown, round).rejected
  {
    hide FoldCommits, FoldReveals, Trusted, Sort, OrderLe, SortedSet;
  }

  lemma SameRejected(h: Hashes, commits: seq<Commit>, a: seq<Reveal>, b: seq<Reveal>, round: int)
    requires SameMembers(a, b)
    requires forall s :: !ShowedBoth(h, Trusted(FoldCommits(commits, round)), round, s, a)
    ensures Agree(h, commits, b, round).rejected == Agree(h, commits, a, round).rejected
  {
    var trusted := Trusted(FoldCommits(commits, round));
    hide FoldCommits, FoldReveals, Good, Wrong, Trusted, SortedSet, Sort, OrderLe;
    var f, g := FoldReveals(h, trusted, a, round), FoldReveals(h, trusted, b, round);
    forall s ensures s in f.rejected <==> s in g.rejected {
      assert !ShowedBoth(h, trusted, round, s, a);
      assert !ShowedBoth(h, trusted, round, s, b);
      RejectedOfOneKind(h, trusted, a, round, s);
      RejectedOfOneKind(h, trusted, b, round, s);
    }
    assert f.rejected == g.rejected;
  }

  lemma FoldTwo(h: Hashes, trusted: map<Addr, Digest>, x: Reveal, y: Reveal, round: int)
    ensures FoldReveals(h, trusted, [x, y], round)
         == AddReveal(h, AddReveal(h, Reveals(map[], {}, {}, {}), trusted, x, round), trusted, y, round)
  {
    assert [x, y][..1] == [x] && [x][..0] == [];
    assert FoldReveals(h, trusted, [x], round) == AddReveal(h, FoldReveals(h, trusted, [], round), trusted, x, round);
  }

  lemma OneCommit(round: int, s: Addr, d: Digest)
    ensures FoldCommits([Commit(round, s, d)], round) == Commits(map[s := d], {}, {})
  {
    assert [Commit(round, s, d)][..0] == [];
  }

  /** The `rejected` bucket does depend on arrival: a wrong reveal after a good one is not looked at. */
  lemma RejectedDependsOnArrival(h: Hashes, round: int, s: Addr, good: string, bad: string)
    requires RoundFits(round) && h.decode(good).Some? && h.decode(bad) != h.decode(good)
    ensures var commits := [Commit(round, s, Commitment(round, s, h.decode(good).value))];
            var x, y := Reveal(round, s, good), Reveal(round, s, bad);
            && Agree(h, commits, [x, y], round).rejected == []
            && Agree(h, commits, [y, x], round).rejected == [s]
  {
    hide FoldCommits, FoldReveals, SortedSet, Sort, OrderLe;
    var d := Commitment(round, s, h.decode(good).value);
    var x, y := Reveal(round, s, good), Reveal(round, s, bad);
    OneCommit(round, s, d);
    var trusted := Trusted(FoldCommits([Commit(round, s, d)], round));
    assert trusted == map[s := d];
    assert Opens(h, Commit(round, s, d), x) && !Opens(h, Commit(round, s, d), y);
    FoldTwo(h, map[s := d], x, y, round);
    FoldTwo(h, map[s := d], y, x, round);
    assert FoldReveals(h, trusted, [x, y], round).rejected == {};
    assert FoldReveals(h, trusted, [y, x], round).rejected == {s};
    AscendingUnique(SortedSet({}), []);
    AscendingUnique(SortedSet({s}), [s]);
  }

  // ---------------------------------------------------------------- what the seed and the order are

  /** `s` committed once for the round, to this nonce, and opened it. */
  ghost predicate Disclosed(h: Hashes, commits: seq<Commit>, shown: seq<Reveal>, round: int, s: Addr, nonce: Bytes) {
    && CommittedOnce(commits, round, s, Commitment(round, s, nonce))
    && exists text :: Reveal(round, s, text) in shown && h.decode(text) == Some(nonce)
  }

  ghost predicate BySigner(items: seq<(Addr, Bytes)>) {
    forall i, j :: 0 <= i < j < |items| ==> items[i].0 < items[j].0
  }

  /** The disclosed nonces, by ascending signer. */
  ghost predicate SeedList(h: Hashes, commits: seq<Commit>, shown: seq<Reveal>, round: int, items: seq<(Addr, Bytes)>) {
    && BySigner(items)
    && forall s: Addr, nonce: Bytes :: (s, nonce) in items <==> Disclosed(h, commits, shown, round, s, nonce)
  }

  lemma DisclosedExactly(h: Hashes, commits: seq<Commit>, shown: seq<Reveal>, round: int, s: Addr, nonce: Bytes)
    ensures var valid := FoldReveals(h, Trusted(FoldCommits(commits, round)), shown, round).valid;
            Disclosed(h, commits, shown, round, s, nonce) <==> s in valid && h.decode(valid[s]) == Some(nonce)
  {
    var trusted := Trusted(FoldCommits(commits, round));
    TrustedExactly(commits, round);
    FoldRevealsKnows(h, trusted, shown, round, s);
    hide FoldCommits, FoldReveals, CommittedOnce, Trusted;
    var r := FoldReveals(h, trusted, shown, round);
    assert Disclosed(h, commits, shown, round, s, nonce) <==> Opened(h, trusted, shown, round, s, nonce);
    if s in r.valid {
      assert Opened(h, trusted, shown, round, s, h.decode(r.valid[s]).value);
    }
  }

  lemma SeedItemsList(h: Hashes, signers: seq<Addr>, valid: map<Addr, string>)
    requires Ascending(signers) && (forall s :: s in signers <==> s in valid) && AllDecode(h, valid)
    ensures var items := SeedItems(h, signers, valid);
            && BySigner(items)
            && forall s: Addr, nonce: Bytes :: (s, nonce) in items <==> s in valid && h.decode(valid[s]) == Some(nonce)
  {
    var items := SeedItems(h, signers, valid);
    forall s: Addr, nonce: Bytes ensures (s, nonce) in items <==> s in valid && h.decode(valid[s]) == Some(nonce) {
      if s in valid && h.decode(valid[s]) == Some(nonce) {
        var i :| 0 <= i < |signers| && signers[i] == s;
        assert items[i] == (s, nonce);
      }
    }
  }

  /** The seed hashes the round and every disclosed nonce with its signer, by ascending signer, and nothing else. */
  lemma SeedExactly(h: Hashes, commits: seq<Commit>, shown: seq<Reveal>, round: int) returns (items: seq<(Addr, Bytes)>)
    ensures Agree(h, commits, shown, round).seed == h.seed(round, items)
    ensures forall i, j :: 0 <= i < j < |items| ==> items[i].0 < items[j].0
    ensures forall s: Addr, nonce: Bytes :: (s, nonce) in items <==>
              && CommittedOnce(commits, round, s, Commitment(round, s, nonce))
              && exists text :: Reveal(round, s, text) in shown && h.decode(text) == Some(nonce)
    ensures SeedList(h, commits, shown, round, items)
  {
    var trusted := Trusted(FoldCommits(commits, round));
    var valid := FoldReveals(h, trusted, shown, round).valid;
    FoldDecodes(h, trusted, shown, round);
    items := SeedItems(h, SortedSet(valid.Keys), valid);
    SeedItemsList(h, SortedSet(valid.Keys), valid);
    hide FoldCommits, FoldReveals, SortedSet, Sort, OrderLe, SeedItems, CommittedOnce, Trusted;
    forall s: Addr, nonce: Bytes ensures (s, nonce) in items <==> Disclosed(h, commits, shown, round, s, nonce) {
      DisclosedExactly(h, commits, shown, round, s, nonce);
    }
  }

  lemma BothEmpty(a: seq<(Addr, Bytes)>, b: seq<(Addr, Bytes)>)
    requires forall s: Addr, nonce: Bytes :: (s, nonce) in a <==> (s, nonce) in b
    ensures a == [] <==> b == []
  {
    if a != [] {
      assert (a[0].0, a[0].1) in a;
    }
    if b != [] {
      assert (b[0].0, b[0].1) in b;
    }
  }

  lemma {:induction false} BySignerUnique(a: seq<(Addr, Bytes)>, b: seq<(Addr, Bytes)>)
    requires BySigner(a) && BySigner(b) && forall s: Addr, nonce: Bytes :: (s, nonce) in a <==> (s, nonce) in b
    ensures a == b
  {
    BothEmpty(a, b);
    if a != [] {
      BySignerHead(a, b);
      BySignerTail(a);
      BySignerTail(b);
      forall s: Addr, nonce: Bytes ensures (s, nonce) in a[1..] <==> (s, nonce) in b[1..] {
      }
      BySignerUnique(a[1..], b[1..]);
      assert a == [a[0]] + a[1..] && b == [b[0]] + b[1..];
    }
  }

  lemma BySignerHead(a: seq<(Addr, Bytes)>, b: seq<(Addr, Bytes)>)
    requires BySigner(a) && BySigner(b) && a != [] && b != []
    requires forall s: Addr, nonce: Bytes :: (s, nonce) in a <==> (s, nonce) in b
    ensures a[0] == b[0]
  {
    assert (a[0].0, a[0].1) in a && (b[0].0, b[0].1) in b;
    var i :| 0 <= i < |b| && b[i] == a[0];
    var j :| 0 <= j < |a| && a[j] == b[0];
  }

  /** The tail holds everything but the head. */
  lemma BySignerTail(a: seq<(Addr, Bytes)>)
    requires BySigner(a) && a != []
    ensures BySigner(a[1..]) && forall x :: x in a[1..] <==> x in a && x != a[0]
  {
    forall x ensures x in a[1..] <==> x in a && x != a[0] {
      if x in a && x != a[0] {
        var i :| 0 <= i < |a| && a[i] == x;
        assert a[1..][i - 1] == x;
      }
    }
  }

  ghost predicate SeedInjective(h: Hashes) {
    forall round, items, round', items' :: h.seed(round, items) == h.seed(round', items') ==> round == round' && items == items'
  }

  /** Nothing but the round and the disclosed nonces moves the seed, and, as far as its hash tells lists apart, every one
      of them does. */
  lemma SeedsEqualExactly(h: Hashes, c1: seq<Commit>, r1: seq<Reveal>, round1: int,
                          c2: seq<Commit>, r2: seq<Reveal>, round2: int)
    requires SeedInjective(h)
    ensures Agree(h, c1, r1, round1).seed == Agree(h, c2, r2, round2).seed <==>
            && round1 == round2
            && forall s: Addr, nonce: Bytes :: Disclosed(h, c1, r1, round1, s, nonce) <==> Disclosed(h, c2, r2, round2, s, nonce)
  {
    var a := SeedExactly(h, c1, r1, round1);
    var b := SeedExactly(h, c2, r2, round2);
    hide Agree, Disclosed, CommittedOnce, BySigner;
    if round1 == round2
       && forall s: Addr, nonce: Bytes :: Disclosed(h, c1, r1, round1, s, nonce) <==> Disclosed(h, c2, r2, round2, s, nonce)
    {
      BySignerUnique(a, b);
    }
    if Agree(h, c1, r1, round1).seed == Agree(h, c2, r2, round2).seed {
      assert round1 == round2 && a == b;
      forall s: Addr, nonce: Bytes ensures Disclosed(h, c1, r1, round1, s, nonce) <==> Disclosed(h, c2, r2, round2, s, nonce) {
        assert (s, nonce) in a <==> Disclosed(h, c1, r1, round1, s, nonce);
      }
    }
  }

  lemma {:induction false} AscendingCount(s: seq<Addr>, x: Addr)
    requires Ascending(s)
    ensures multiset(s)[x] <= 1
  {
    if s != [] {
      var n := |s| - 1;
      assert s == s[..n] + [s[n]];
      AscendingCount(s[..n], x);
      if x == s[n] {
        assert x !in s[..n];
      }
    }
  }

  lemma TwiceCounts(s: seq<Addr>, i: nat, j: nat)
    requires i < j < |s| && s[i] == s[j]
    ensures multiset(s)[s[i]] >= 2
  {
    assert s == s[..j] + s[j..];
    assert s[i] in multiset(s[..j]) && s[i] in multiset(s[j..]) by {
      assert s[..j][i] == s[i] && s[j..][0] == s[j];
    }
  }

  /** The agreed order ascends by the order key under the seed, signers of one key by address. */
  lemma OrderAscends(h: Hashes, commits: seq<Commit>, shown: seq<Reveal>, round: int, i: nat, j: nat)
    requires i < j < |Agree(h, commits, shown, round).order|
    ensures var a := Agree(h, commits, shown, round);
            var x, y := h.orderKey(a.seed, a.order[i]), h.orderKey(a.seed, a.order[j]);
            x < y || (x == y && a.order[i] < a.order[j])
  {
    var a := Agree(h, commits, shown, round);
    OrderIsTotal(h, a.seed);
    SortCorrect(a.valid, OrderLe(h, a.seed));
    hide FoldCommits, FoldReveals, SortedSet, Sort;
    assert OrderLe(h, a.seed)(a.order[i], a.order[j]);
    if a.order[i] == a.order[j] {
      AscendingCount(a.valid, a.order[i]);
      TwiceCounts(a.order, i, j);
    }
  }

  /** The remaining buckets: who opened without a trusted commit, and who spoke of another round. */
  lemma BucketsExactly(h: Hashes, commits: seq<Commit>, shown: seq<Reveal>, round: int, s: Addr)
    ensures var a := Agree(h, commits, shown, round);
            && a.round == round
            && (s in a.unsolicited <==> (forall d :: !CommittedOnce(commits, round, s, d))
                                        && exists text :: Reveal(round, s, text) in shown)
            && (s in a.wrongRound <==>
                  || (exists c :: c in commits && c.Commit? && c.round != round && c.signer == s)
                  || exists r :: r in shown && r.Reveal? && r.round != round && r.signer == s)
            && Ascending(a.missing) && Ascending(a.rejected) && Ascending(a.unsolicited) && Ascending(a.equivocators)
            && Ascending(a.wrongRound)
  {
    var f := FoldCommits(commits, round);
    TrustedExactly(commits, round);
    FoldCommitsKnows(commits, round, s);
    FoldRevealsKnows(h, Trusted(f), shown, round, s);
    hide FoldCommits, FoldReveals, SortedSet, Sort, OrderLe, CommittedOnce, CommittedTwice, Trusted;
    assert s in Trusted(f) ==> CommittedOnce(commits, round, s, Trusted(f)[s]);
  }
}
