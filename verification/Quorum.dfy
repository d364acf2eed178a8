/** Counting distinct signers (neurahash/guardian_halt.py) and the M-of-N settlement multisig over a validator
    roster, by head or by stake (neurahash/diloco_settlement.py). */
module Quorum {
  import opened Prelude
  import opened Blocks
  import opened Sums

  // ---------------------------------------------------------------- distinct signers

  /** The members that validly signed `p`: strangers and unrecoverable signatures are ignored, repeats count once. */
  function Signers(c: Crypto, members: set<Addr>, p: Payload, sigs: seq<Sig>): set<Addr> {
    if sigs == [] then {}
    else
      var rest, a := Signers(c, members, p, sigs[..|sigs| - 1]), c.recover(p, sigs[|sigs| - 1]);
      if a.Some? && a.value in members then rest + {a.value} else rest
  }

  /** A k-of-m set; fixed once built. */
  class GuardianSet {
    const members: set<Addr>
    const threshold: int

    constructor (members: set<Addr>, threshold: int)
      requires members != {} && 1 <= threshold <= |members|
      ensures this.members == members && this.threshold == threshold
    {
      this.members, this.threshold := members, threshold;
    }

    method DistinctSigners(c: Crypto, p: Payload, sigs: seq<Sig>) returns (signers: set<Addr>)
      ensures signers == Signers(c, members, p, sigs)
    {
      signers := {};
      for i := 0 to |sigs|
        invariant signers == Signers(c, members, p, sigs[..i])
      {
        assert sigs[..i + 1][..i] == sigs[..i];
        var a := c.recover(p, sigs[i]);
        if a.Some? && a.value in members {
          signers := signers + {a.value};
        }
      }
      assert sigs[..|sigs|] == sigs;
    }

    method MeetsThreshold(c: Crypto, p: Payload, sigs: seq<Sig>) returns (ok: bool)
      ensures ok <==> |Signers(c, members, p, sigs)| >= threshold
    {
      var signers := DistinctSigners(c, p, sigs);
      ok := |signers| >= threshold;
    }
  }

  /** Who counts, read off the signatures. */
  lemma {:induction false} SignersExactly(c: Crypto, members: set<Addr>, p: Payload, sigs: seq<Sig>)
    ensures Signers(c, members, p, sigs) <= members
    ensures forall a :: a in Signers(c, members, p, sigs) <==>
                          a in members && exists i :: 0 <= i < |sigs| && c.recover(p, sigs[i]) == Some(a)
  {
    if sigs != [] {
      var n := |sigs| - 1;
      SignersExactly(c, members, p, sigs[..n]);
      forall a ensures a in Signers(c, members, p, sigs) <==>
                         a in members && exists i :: 0 <= i < |sigs| && c.recover(p, sigs[i]) == Some(a)
      {
        if i :| 0 <= i < |sigs| && c.recover(p, sigs[i]) == Some(a) {
          if i < n {
            assert c.recover(p, sigs[..n][i]) == Some(a);
          }
        }
      }
    }
  }

  // ---------------------------------------------------------------- rosters

  /** A bare address list counts heads; a stake table counts stake.  The table's keys are spellings of addresses,
      so one address may have several rows. */
  datatype Roster = ByHead(addrs: seq<Addr>) | ByStake(rows: seq<(Addr, real)>)

  function Distinct(addrs: seq<Addr>): set<Addr> { set a | a in addrs }

  function Members(r: Roster): set<Addr> {
    match r
    case ByHead(addrs) => Distinct(addrs)
    case ByStake(rows) => set i | 0 <= i < |rows| :: rows[i].0
  }

  /** Stake per address: rows of one address add up, negative stake is none. */
  function WeightMap(rows: seq<(Addr, real)>): Table {
    if rows == [] then map[]
    else
      var w, row := WeightMap(rows[..|rows| - 1]), rows[|rows| - 1];
      w[row.0 := Get(w, row.0) + RealMax(0.0, row.1)]
  }

  method StakeWeightMap(rows: seq<(Addr, real)>) returns (out: Table)
    ensures out == WeightMap(rows)
  {
    out := map[];
    for i := 0 to |rows|
      invariant out == WeightMap(rows[..i])
    {
      assert rows[..i + 1][..i] == rows[..i];
      var (a, s) := rows[i];
      out := out[a := Get(out, a) + RealMax(0.0, s)];
    }
    assert rows[..|rows|] == rows;
  }

  function ClampedTotal(rows: seq<(Addr, real)>): real {
    if rows == [] then 0.0 else ClampedTotal(rows[..|rows| - 1]) + RealMax(0.0, rows[|rows| - 1].1)
  }

  /** No stake is lost or counted twice, and no weight is negative. */
  lemma {:induction false} WeightsConserveStake(rows: seq<(Addr, real)>)
    ensures Sum(WeightMap(rows)) == ClampedTotal(rows)
    ensures WeightMap(rows).Keys == Members(ByStake(rows))
    ensures forall a :: a in WeightMap(rows) ==> WeightMap(rows)[a] >= 0.0
  {
    if rows != [] {
      var n := |rows| - 1;
      var rest, w, row := rows[..n], WeightMap(rows[..n]), rows[n];
      WeightsConserveStake(rest);
      hide Sum, Members;
      SumSet(w, row.0, Get(w, row.0) + RealMax(0.0, row.1));
      MembersOneMore(rows);
    }
  }

  lemma MembersOneMore(rows: seq<(Addr, real)>)
    requires rows != []
    ensures Members(ByStake(rows)) == Members(ByStake(rows[..|rows| - 1])) + {rows[|rows| - 1].0}
  {
    var n := |rows| - 1;
    forall a ensures a in Members(ByStake(rows)) <==> a in Members(ByStake(rows[..n])) || a == rows[n].0 {
      if i :| 0 <= i < n && rows[..n][i].0 == a {
        assert rows[i].0 == a;
      }
    }
  }

  // ---------------------------------------------------------------- the threshold

  /** `_stake_majority`: strictly more than half of a positive total. */
  predicate StakeMajority(signed: real, total: real) { total > 0.0 && signed * 2.0 > total }

  predicate StrictMajority(m: int, n: nat) { 1 <= m <= n && m * 2 > n }

  /** The head count required: a strict majority unless given. */
  function Required(r: Roster, m: Option<int>): int { if m.Some? then m.value else |Members(r)| / 2 + 1 }

  ghost predicate Authorized(r: Roster, m: int, signers: set<Addr>) {
    match r
    case ByHead(_) => |signers| >= m
    case ByStake(rows) => StakeMajority(SumOver(signers, WeightMap(rows)), Sum(WeightMap(rows)))
  }

  /** The verdict on one decision; a degenerate roster or threshold is an error. */
  ghost function Verdict(c: Crypto, r: Roster, m: Option<int>, p: Payload, sigs: seq<Sig>): Result<bool> {
    if Members(r) == {} then Err("empty roster")
    else if !StrictMajority(Required(r, m), |Members(r)|) then Err("weak threshold")
    else Ok(Authorized(r, Required(r, m), Signers(c, Members(r), p, sigs)))
  }

  /** Amounts are rounded to twelve places before they are signed. */
  function Round12(x: real): int { Round(x * 1_000_000_000_000.0) }

  method AddressSet(addrs: seq<Addr>) returns (s: set<Addr>)
    ensures s == Distinct(addrs)
  {
    s := {};
    for i := 0 to |addrs|
      invariant s == Distinct(addrs[..i])
    {
      s := s + {addrs[i]};
    }
    assert addrs[..|addrs|] == addrs;
  }

  lemma VerdictIs(c: Crypto, r: Roster, m: Option<int>, p: Payload, sigs: seq<Sig>)
    ensures var v, need, n := Verdict(c, r, m, p, sigs), Required(r, m), |Members(r)|;
            if n == 0 then v == Err("empty roster")
            else if !StrictMajority(need, n) then v == Err("weak threshold")
            else v == Ok(Authorized(r, need, Signers(c, Members(r), p, sigs)))
  {
    hide Signers, Members, Authorized, StrictMajority, Required;
  }

  /** The two ways of counting. */
  lemma AuthorizedIs(r: Roster, m: int, signers: set<Addr>)
    ensures r.ByHead? ==> (Authorized(r, m, signers) <==> |signers| >= m)
    ensures r.ByStake? ==>
              (Authorized(r, m, signers)
               <==> StakeMajority(SumOver(signers, WeightMap(r.rows)), Sum(WeightMap(r.rows))))
  {
    hide SumOver, Sum, WeightMap, StakeMajority;
  }

  /** `collect_settlement_signatures`: the `approved` field of its verdict, or the error it raises. */
  method CollectSignatures(c: Crypto, recipient: Option<Addr>, amount: real, height: int, deltaCid: string, r: Roster,
                           sigs: seq<Sig>, m: Option<int>) returns (approved: Result<bool>)
    ensures approved == Verdict(c, r, m, SettleVote(recipient, Round12(amount), height, deltaCid), sigs)
  {
    hide Sum, SumOver, WeightMap, Round12, Signers, Members, Verdict, StakeMajority, Authorized;
    var payload := SettleVote(recipient, Round12(amount), height, deltaCid);
    VerdictIs(c, r, m, payload, sigs);
    var members := Members(r);
    var n := |members|;
    var need := if m.None? then n / 2 + 1 else m.value;
    if n == 0 {
      return Err("empty roster");
    }
    if !(1 <= need <= n && need * 2 > n) {
      return Err("weak threshold");
    }
    var guardians := new GuardianSet(members, need);
    var signers := guardians.DistinctSigners(c, payload, sigs);
    AuthorizedIs(r, need, signers);
    match r
    case ByHead(_) =>
      approved := Ok(|signers| >= need);
    case ByStake(rows) =>
      var w := StakeWeightMap(rows);
      var total := Total(w, w.Keys);
      var signed := Total(w, signers);
      SumIsOverKeys(w);
      approved := Ok(StakeMajority(signed, total));
  }

  lemma SumIsOverKeys(m: Table)
    ensures Sum(m) == SumOver(m.Keys, m)
  {
  }

  // ---------------------------------------------------------------- genuine signatures and intersection

  /** Who has signed what. */
  type SignedBy = (Addr, Payload) -> bool

  /** Of the signatures presented for `p`, those that recover to a member were made by it.  Nothing is said of
      signatures nobody presents. */
  ghost predicate Genuine(c: Crypto, signed: SignedBy, members: set<Addr>, p: Payload, sigs: seq<Sig>) {
    forall a, i :: a in members && 0 <= i < |sigs| && c.recover(p, sigs[i]) == Some(a) ==> signed(a, p)
  }

  ghost function SignedSet(signed: SignedBy, members: set<Addr>, p: Payload): set<Addr> {
    set a | a in members && signed(a, p)
  }

  lemma SignersSigned(c: Crypto, signed: SignedBy, members: set<Addr>, p: Payload, sigs: seq<Sig>)
    requires Genuine(c, signed, members, p, sigs)
    ensures Signers(c, members, p, sigs) <= SignedSet(signed, members, p)
  {
    SignersExactly(c, members, p, sigs);
    hide Signers;
  }

  function Sign(c: Crypto, a: Addr, p: Payload): Sig { c.sign(a, p) }

  /** The signatures of those who sign, by any scheme in which signing works. */
  function Signatures(c: Crypto, who: seq<Addr>, p: Payload): (r: seq<Sig>)
    ensures |r| == |who|
  {
    seq(|who|, i requires 0 <= i < |who| => Sign(c, who[i], p))
  }

  /** Presenting the signatures of those who signed is genuine, and counts exactly the members among them. */
  lemma SigningIsGenuine(c: Crypto, signed: SignedBy, members: set<Addr>, p: Payload, who: seq<Addr>)
    requires SignsCorrectly(c) && forall i :: 0 <= i < |who| ==> signed(who[i], p)
    ensures Genuine(c, signed, members, p, Signatures(c, who, p))
    ensures Signers(c, members, p, Signatures(c, who, p)) == Distinct(who) * members
  {
    var sigs := Signatures(c, who, p);
    SignersExactly(c, members, p, sigs);
    hide Signers;
    forall i | 0 <= i < |who| ensures c.recover(p, sigs[i]) == Some(who[i]) {
      assert c.recover(p, c.sign(who[i], p)) == Some(who[i]);
    }
    forall a ensures a in Signers(c, members, p, sigs) <==> a in Distinct(who) && a in members {
      if a in who && a in members {
        var i :| 0 <= i < |who| && who[i] == a;
        assert c.recover(p, sigs[i]) == Some(a);
      }
    }
  }

  /** A scheme in which signing works: a signature is its signer's address. */
  function PlainScheme(): Crypto {
    Crypto((p, s) => Some(s), (a, p) => a, proof => None, (a, x, y, b) => false)
  }

  /** Nothing but `p` was ever signed. */
  function SignedOnly(p: Payload): SignedBy { (a: Addr, q: Payload) => q == p }

  /** So the intersection results have instances: signing works, a decision is approved by genuine signatures, and
      nobody has signed anything else. */
  lemma GenuineApprovalExists(p: Payload, other: Payload)
    ensures other != p ==> forall a :: !SignedOnly(p)(a, other)
    ensures var c, roster, sigs := PlainScheme(), ByHead([0, 1, 2]), Signatures(PlainScheme(), [0, 1, 2], p);
            && SignsCorrectly(c) && Verdict(c, roster, None, p, sigs) == Ok(true)
            && Genuine(c, SignedOnly(p), Members(roster), p, sigs)
  {
    var who := [0, 1, 2];
    ThreeMembers(who);
    hide Signers, Signatures, Distinct, Genuine;
    SigningIsGenuine(PlainScheme(), SignedOnly(p), Members(ByHead(who)), p, who);
  }

  lemma ThreeMembers(who: seq<Addr>)
    requires who == [0, 1, 2]
    ensures Members(ByHead(who)) == Distinct(who) && Distinct(who) * Distinct(who) == Distinct(who)
    ensures |Distinct(who)| == 3
  {
    assert Distinct(who) == {0, 1, 2};
  }

  /** A set of members the roster's own measure cannot find negligible: 2m - N heads, or some positive stake. */
  ghost predicate Substantial(r: Roster, m: int, both: set<Addr>) {
    match r
    case ByHead(_) => |both| >= 2 * m - |Members(r)| >= 1
    case ByStake(rows) => exists a :: a in both && Get(WeightMap(rows), a) > 0.0
  }

  lemma SubsetSmaller(s: set<Addr>, t: set<Addr>)
    requires s <= t
    ensures |s| <= |t|
  {
    assert t == s + (t - s);
  }

  lemma Inclusion(s: set<Addr>, t: set<Addr>, all: set<Addr>)
    requires s <= all && t <= all
    ensures |s * t| >= |s| + |t| - |all|
  {
    assert |s + t| + |s * t| == |s| + |t|;
    SubsetSmaller(s + t, all);
  }

  lemma {:induction false} SumOverSplit(s: set<Addr>, t: set<Addr>, w: Table)
    requires s !! t
    ensures SumOver(s + t, w) == SumOver(s, w) + SumOver(t, w)
    decreases |t|
  {
    if t == {} {
      assert s + t == s;
    } else {
      var a :| a in t;
      SumOverPick(t, w, a);
      SumOverPick(s + t, w, a);
      assert s + t - {a} == s + (t - {a});
      SumOverSplit(s, t - {a}, w);
    }
  }

  /** Two strict stake majorities share positive stake. */
  lemma StakeIntersection(s: set<Addr>, t: set<Addr>, w: Table)
    requires s <= w.Keys && t <= w.Keys
    requires forall a :: a in w ==> w[a] >= 0.0
    requires StakeMajority(SumOver(s, w), Sum(w)) && StakeMajority(SumOver(t, w), Sum(w))
    ensures exists a :: a in s * t && Get(w, a) > 0.0
  {
    hide SumOver;
    var both := s * t;
    SumOverSplit(s, t - both, w);
    SumOverSplit(t - both, both, w);
    assert t - both + both == t;
    assert s + (t - both) == s + t;
    SumOverSplit(s + t, w.Keys - (s + t), w);
    assert s + t + (w.Keys - (s + t)) == w.Keys;
    SumOverNonNeg(w.Keys - (s + t), w);
    assert SumOver(both, w) > 0.0;
    PositiveMember(both, w);
  }

  lemma PositiveMember(s: set<Addr>, w: Table)
    requires SumOver(s, w) > 0.0
    ensures exists a :: a in s && Get(w, a) > 0.0
  {
    if a :| a in s {
      SumOverPick(s, w, a);
      if Get(w, a) <= 0.0 {
        PositiveMember(s - {a}, w);
      }
    }
  }

  /** Authority only grows with the signers. */
  lemma AuthorizedMonotone(r: Roster, m: int, s: set<Addr>, t: set<Addr>)
    requires s <= t <= Members(r) && Authorized(r, m, s)
    ensures Authorized(r, m, t)
  {
    hide SumOver;
    match r
    case ByHead(_) =>
      SubsetSmaller(s, t);
    case ByStake(rows) =>
      var w := WeightMap(rows);
      WeightsConserveStake(rows);
      SumOverSplit(s, t - s, w);
      assert s + (t - s) == t;
      SumOverNonNeg(t - s, w);
  }

  lemma SubstantialGrows(r: Roster, m: int, s: set<Addr>, t: set<Addr>)
    requires s <= t && Substantial(r, m, s)
    ensures Substantial(r, m, t)
  {
    SubsetSmaller(s, t);
    hide WeightMap;
  }

  /** Quorum intersection: of two approved decisions under one roster, the same substantial part of it is recovered
      from the signatures of both; and where those are genuine, it did sign both. */
  lemma ApprovedDecisionsIntersect(c: Crypto, signed: SignedBy, r: Roster, m: Option<int>,
                                   p: Payload, ps: seq<Sig>, q: Payload, qs: seq<Sig>)
    requires Verdict(c, r, m, p, ps) == Ok(true) && Verdict(c, r, m, q, qs) == Ok(true)
    ensures Substantial(r, Required(r, m), Signers(c, Members(r), p, ps) * Signers(c, Members(r), q, qs))
    ensures Genuine(c, signed, Members(r), p, ps) && Genuine(c, signed, Members(r), q, qs) ==>
              Substantial(r, Required(r, m), SignedSet(signed, Members(r), p) * SignedSet(signed, Members(r), q))
  {
    hide SumOver, Signers, Genuine, SignedSet;
    var all, need := Members(r), Required(r, m);
    var s, t := Signers(c, all, p, ps), Signers(c, all, q, qs);
    SignersExactly(c, all, p, ps);
    SignersExactly(c, all, q, qs);
    match r {
      case ByHead(_) =>
        Inclusion(s, t, all);
      case ByStake(rows) =>
        WeightsConserveStake(rows);
        StakeIntersection(s, t, WeightMap(rows));
    }
    if Genuine(c, signed, all, p, ps) && Genuine(c, signed, all, q, qs) {
      SignersSigned(c, signed, all, p, ps);
      SignersSigned(c, signed, all, q, qs);
      SubstantialGrows(r, need, s * t, SignedSet(signed, all, p) * SignedSet(signed, all, q));
    }
  }

  /** A decision that too few members signed is never approved by genuine signatures. */
  lemma NoAuthorityWithoutSigners(c: Crypto, signed: SignedBy, r: Roster, m: Option<int>, p: Payload, sigs: seq<Sig>)
    requires Genuine(c, signed, Members(r), p, sigs)
    requires !Authorized(r, Required(r, m), SignedSet(signed, Members(r), p))
    ensures Verdict(c, r, m, p, sigs) != Ok(true)
  {
    hide SumOver, Signers;
    SignersSigned(c, signed, Members(r), p, sigs);
    if Authorized(r, Required(r, m), Signers(c, Members(r), p, sigs)) {
      AuthorizedMonotone(r, Required(r, m), Signers(c, Members(r), p, sigs), SignedSet(signed, Members(r), p));
    }
  }

  // ---------------------------------------------------------------- the verdict, read off the inputs

  /** The members some signature recovers to. */
  ghost function Recovered(c: Crypto, members: set<Addr>, p: Payload, sigs: seq<Sig>): set<Addr> {
    set a | a in members && exists i :: 0 <= i < |sigs| && c.recover(p, sigs[i]) == Some(a)
  }

  lemma SignersAreRecovered(c: Crypto, members: set<Addr>, p: Payload, sigs: seq<Sig>)
    ensures Signers(c, members, p, sigs) == Recovered(c, members, p, sigs)
    ensures |Recovered(c, members, p, sigs)| <= |members|
  {
    SignersExactly(c, members, p, sigs);
    hide Signers;
    SubsetSmaller(Recovered(c, members, p, sigs), members);
  }

  /** The stake an address has on a list of rows. */
  function StakeOf(rows: seq<(Addr, real)>, a: Addr): real {
    if rows == [] then 0.0
    else
      var row := rows[|rows| - 1];
      StakeOf(rows[..|rows| - 1], a) + if row.0 == a && row.1 > 0.0 then row.1 else 0.0
  }

  /** Every address has the sum of its own positive rows, and nobody else's. */
  lemma {:induction false} WeightIsOwnStake(rows: seq<(Addr, real)>, a: Addr)
    ensures Get(WeightMap(rows), a) == StakeOf(rows, a)
  {
    if rows != [] {
      WeightIsOwnStake(rows[..|rows| - 1], a);
    }
  }

  /** The threshold is an error only for an empty roster or a given head count that is no strict majority of it.
      Otherwise a bare roster approves with that many recovered members, by default more than half; a stake table when
      the recovered members hold more than half of a positive stake. */
  lemma ApprovalExactly(c: Crypto, r: Roster, m: Option<int>, p: Payload, sigs: seq<Sig>)
    ensures var v, all, signed := Verdict(c, r, m, p, sigs), Members(r), Recovered(c, Members(r), p, sigs);
            && (v.Err? <==> all == {} || (m.Some? && !(1 <= m.value <= |all| < 2 * m.value)))
            && (r.ByHead? && v.Ok? ==> (v.value <==> if m.Some? then |signed| >= m.value else 2 * |signed| > |all|))
            && (r.ByStake? && v.Ok? ==>
                  (v.value <==> && 2.0 * SumOver(signed, WeightMap(r.rows)) > SumOver(all, WeightMap(r.rows)) > 0.0))
    ensures forall a :: a in Members(r) <==>
              if r.ByHead? then a in r.addrs else exists i :: 0 <= i < |r.rows| && r.rows[i].0 == a
  {
    hide Signers, SumOver, WeightMap, Recovered;
    SignersAreRecovered(c, Members(r), p, sigs);
    if r.ByStake? {
      WeightsConserveStake(r.rows);
      SumIsOverKeys(WeightMap(r.rows));
    }
  }

  /** A signed amount is the nearest whole number of millionths of a millionth, itself if it is one. */
  lemma Round12Nearest(x: real, k: int)
    ensures Abs(Round12(x) as real - x * 1_000_000_000_000.0) <= 0.5
    ensures x == k as real / 1_000_000_000_000.0 ==> Round12(x) == k
  {
    if x == k as real / 1_000_000_000_000.0 {
      RoundBetween(x * 1_000_000_000_000.0, k, k);
    }
  }
}
