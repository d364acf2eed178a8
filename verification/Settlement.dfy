/** The coordinator-signed settlement chain (neurahash/chain_settlement.py).  A chain value and what each operation
    does to it come first, then the class with its mutable fields, proved against them. */
module Settlement {
  import opened Prelude
  import opened Blocks
  import opened Sums
  import opened Ledger
  import L = Ledger
  import opened LedgerSafety
  import opened LedgerState
  import Q = Quorum

  /** One served block: what replay reads of it. */
  datatype Record = Record(header: Header, contributors: Table, sig: Sig, quorum: Option<Quorum>)

  /** What authorizes a block: the coordinator's signature alone, or a quorum of a pinned roster as well. */
  datatype Rule = CoordinatorOnly | Enforced(roster: Option<Q.Roster>, m: Option<int>)

  // ---------------------------------------------------------------- the quorum of one block

  /** The one contributor, if there is exactly one. */
  ghost function SoleRecipient(t: Table): Option<Addr> {
    if |t| == 1 then
      var a :| a in t;
      Some(a)
    else None
  }

  lemma SoleRecipientIs(t: Table, a: Addr)
    requires a in t && |t| == 1
    ensures SoleRecipient(t) == Some(a) && t.Keys == {a}
  {
    var b := SoleRecipient(t).value;
    if b != a {
      assert {a, b} <= t.Keys;
      Q.SubsetSmaller({a, b}, t.Keys);
    }
    assert t.Keys == {a} by {
      forall x | x in t.Keys ensures x == a {
        if x != a {
          Q.SubsetSmaller({a, x}, t.Keys);
        }
      }
    }
  }

  method FindSoleRecipient(t: Table) returns (r: Option<Addr>)
    ensures r == SoleRecipient(t)
  {
    if |t| != 1 {
      return None;
    }
    var a :| a in t.Keys;
    SoleRecipientIs(t, a);
    return Some(a);
  }

  /** The decision a block's validators must have signed. */
  ghost function Decision(rec: Record, deltaCid: string): Payload {
    SettleVote(SoleRecipient(rec.contributors), Q.Round12(rec.header.reward), rec.header.height, deltaCid)
  }

  ghost predicate QuorumOk(c: Crypto, rec: Record, roster: Option<Q.Roster>, m: Option<int>) {
    && rec.quorum.Some?
    && (rec.header.quorumHash.Some? ==> rec.header.quorumHash == rec.quorum)
    && roster.Some?
    && Q.Verdict(c, roster.value, m, Decision(rec, rec.quorum.value.deltaCid), rec.quorum.value.sigs) == Ok(true)
  }

  /** `_verify_block_quorum` */
  method VerifyBlockQuorum(c: Crypto, rec: Record, roster: Option<Q.Roster>, m: Option<int>) returns (ok: bool)
    ensures ok <==> QuorumOk(c, rec, roster, m)
  {
    hide Q.Verdict, SoleRecipient;
    if rec.quorum.None? {
      return false;
    }
    var q := rec.quorum.value;
    if rec.header.quorumHash.Some? && rec.header.quorumHash.value != q {
      return false;
    }
    if roster.None? {
      return false;
    }
    var recipient := FindSoleRecipient(rec.contributors);
    var v := Q.CollectSignatures(c, recipient, rec.header.reward, rec.header.height, q.deltaCid, roster.value,
                                 q.sigs, m);
    return v == Ok(true);
  }

  // ---------------------------------------------------------------- replay

  ghost predicate Authorizes(c: Crypto, rec: Record, rule: Rule) {
    rule.Enforced? ==> QuorumOk(c, rec, rule.roster, rule.m)
  }

  /** A replay position: the ledger so far and the hash the next block must name. */
  datatype Tip = Tip(state: Ledger, head: Hash)

  ghost function ReplayStep(c: Crypto, at: Tip, rec: Record, coord: Addr, rule: Rule): Result<Tip> {
    var h := rec.header;
    if h.prevHash != at.head then Err("broken chain (prev_hash != head)")
    else
      match c.recover(BlockHash(HashOf(h)), rec.sig)
      case None => Err("bad signature")
      case Some(signer) =>
        if signer != coord then Err("not signed by the coordinator")
        else if !Authorizes(c, rec, rule) then Err("quorum enforce failed")
        else
          match L.ApplyBlock(c, at.state, Block(h, []), rec.contributors)
          case Err(e) => Err(e)
          case Ok(m) => Ok(Tip(m, HashOf(h)))
  }

  ghost function Start(checkpoint: string): Tip { Tip(Genesis(checkpoint, false, false), GenesisHash) }

  ghost function Replay(c: Crypto, blocks: seq<Record>, coord: Addr, checkpoint: string, rule: Rule): Result<Tip> {
    if blocks == [] then Ok(Start(checkpoint))
    else
      match Replay(c, blocks[..|blocks| - 1], coord, checkpoint, rule)
      case Err(e) => Err(e)
      case Ok(t) => ReplayStep(c, t, blocks[|blocks| - 1], coord, rule)
  }

  /** One record, read in the order the checks are made. */
  lemma ReplayStepIs(c: Crypto, at: Tip, rec: Record, coord: Addr, rule: Rule)
    ensures var r, signer := ReplayStep(c, at, rec, coord, rule), c.recover(BlockHash(HashOf(rec.header)), rec.sig);
            var block := L.ApplyBlock(c, at.state, Block(rec.header, []), rec.contributors);
            if rec.header.prevHash != at.head then r == Err("broken chain (prev_hash != head)")
            else if signer.None? then r == Err("bad signature")
            else if signer.value != coord then r == Err("not signed by the coordinator")
            else if rule.Enforced? && !QuorumOk(c, rec, rule.roster, rule.m) then r == Err("quorum enforce failed")
            else if block.Err? then r == Err(block.reason)
            else r == Ok(Tip(block.value, HashOf(rec.header)))
  {
    hide QuorumOk, L.ApplyBlock;
  }

  lemma ReplayOneMore(c: Crypto, blocks: seq<Record>, coord: Addr, checkpoint: string, rule: Rule, i: nat)
    requires i < |blocks| && Replay(c, blocks[..i], coord, checkpoint, rule).Ok?
    ensures var r := ReplayStep(c, Replay(c, blocks[..i], coord, checkpoint, rule).value, blocks[i], coord, rule);
            && Replay(c, blocks[..i + 1], coord, checkpoint, rule) == r
            && (r.Err? ==> Replay(c, blocks, coord, checkpoint, rule) == r)
  {
    hide ReplayStep;
    assert blocks[..i + 1][..i] == blocks[..i];
    if Replay(c, blocks[..i + 1], coord, checkpoint, rule).Err? {
      ReplayFailsAt(c, blocks, coord, checkpoint, rule, i + 1);
    }
  }

  lemma ReplayNone(c: Crypto, coord: Addr, checkpoint: string, rule: Rule)
    ensures Replay(c, [], coord, checkpoint, rule) == Ok(Tip(Genesis(checkpoint, false, false), GenesisHash))
  {
    hide Genesis;
  }

  /** `_replay_blocks`; None means the replay succeeded. */
  method ReplayBlocks(c: Crypto, blocks: seq<Record>, coord: Addr, checkpoint: string, rule: Rule)
    returns (st: State, head: Hash, failure: Option<string>)
    ensures fresh(st) && fresh(st.unbonding.Values) && st.Valid()
    ensures match Replay(c, blocks, coord, checkpoint, rule)
            case Ok(t) => failure == None && st.Value() == t.state && head == t.head
            case Err(e) => failure == Some(e)
  {
    hide *;
    st := new State(checkpoint, false, false);
    head := GenesisHash;
    ReplayNone(c, coord, checkpoint, rule);
    for i := 0 to |blocks|
      invariant fresh(st) && fresh(st.unbonding.Values) && st.Valid()
      invariant Replay(c, blocks[..i], coord, checkpoint, rule) == Ok(Tip(st.Value(), head))
    {
      var rec := blocks[i];
      ReplayOneMore(c, blocks, coord, checkpoint, rule, i);
      ReplayStepIs(c, Tip(st.Value(), head), rec, coord, rule);
      if rec.header.prevHash != head {
        return st, head, Some("broken chain (prev_hash != head)");
      }
      var signer := c.recover(BlockHash(HashOf(rec.header)), rec.sig);
      if signer.None? {
        return st, head, Some("bad signature");
      }
      if signer.value != coord {
        return st, head, Some("not signed by the coordinator");
      }
      if rule.Enforced? {
        var ok := VerifyBlockQuorum(c, rec, rule.roster, rule.m);
        if !ok {
          return st, head, Some("quorum enforce failed");
        }
      }
      var r := st.ApplyBlock(c, Block(rec.header, []), rec.contributors);
      if r.Err? {
        return st, head, Some(r.reason);
      }
      st, head := r.value, HashOf(rec.header);
    }
    assert blocks[..|blocks|] == blocks;
    failure := None;
  }

  lemma {:induction false} ReplayFailsAt(c: Crypto, blocks: seq<Record>, coord: Addr, checkpoint: string, rule: Rule,
                                         n: nat)
    requires n <= |blocks| && Replay(c, blocks[..n], coord, checkpoint, rule).Err?
    ensures Replay(c, blocks, coord, checkpoint, rule) == Replay(c, blocks[..n], coord, checkpoint, rule)
  {
    hide ReplayStep;
    if n < |blocks| {
      assert blocks[..|blocks| - 1][..n] == blocks[..n];
      ReplayFailsAt(c, blocks[..|blocks| - 1], coord, checkpoint, rule, n);
    } else {
      assert blocks[..n] == blocks;
    }
  }

  /** Every prefix of a verifying chain verifies. */
  lemma {:induction false} PrefixReplays(c: Crypto, blocks: seq<Record>, coord: Addr, checkpoint: string, rule: Rule,
                                         n: nat)
    requires n <= |blocks| && Replay(c, blocks, coord, checkpoint, rule).Ok?
    ensures Replay(c, blocks[..n], coord, checkpoint, rule).Ok?
  {
    if Replay(c, blocks[..n], coord, checkpoint, rule).Err? {
      ReplayFailsAt(c, blocks, coord, checkpoint, rule, n);
    }
  }

  /** Pinning a quorum only ever turns blocks away: what it accepts is the same chain with the same ledger. */
  lemma {:induction false} EnforcedReplaysPlainly(c: Crypto, blocks: seq<Record>, coord: Addr, checkpoint: string,
                                                  rule: Rule)
    requires Replay(c, blocks, coord, checkpoint, rule).Ok?
    ensures Replay(c, blocks, coord, checkpoint, CoordinatorOnly) == Replay(c, blocks, coord, checkpoint, rule)
    ensures rule.Enforced? ==> forall i :: 0 <= i < |blocks| ==> QuorumOk(c, blocks[i], rule.roster, rule.m)
  {
    hide L.ApplyBlock, QuorumOk, Genesis;
    if blocks != [] {
      var n := |blocks| - 1;
      EnforcedReplaysPlainly(c, blocks[..n], coord, checkpoint, rule);
      forall i | 0 <= i < |blocks| && rule.Enforced? ensures QuorumOk(c, blocks[i], rule.roster, rule.m) {
        if i < n {
          assert blocks[..n][i] == blocks[i];
        }
      }
    }
  }

  // ---------------------------------------------------------------- what one settlement block does

  lemma NothingMatures(l: Ledger, height: int)
    requires l.unbonding == map[]
    ensures Mature(l, height) == l
  {
    assert ReleasingAddrs(l, height) == {};
    assert Mature(l, height).bal == l.bal;
    assert Mature(l, height).unbonding == map[];
  }

  /** With no transactions and nothing unbonding, a block applies unless it is malformed, and moves only the mint. */
  lemma PayBlock(c: Crypto, l: Ledger, h: Header, t: Table)
    requires Sound(l) && l.unbonding == map[]
    ensures var r := L.ApplyBlock(c, l, Block(h, []), t);
            && (r.Ok? <==> h.txRoot == [] && !NegativeWeight(t))
            && (r.Ok? ==>
                  && Sound(r.value) && r.value.unbonding == map[]
                  && r.value == Settle(l, h, t)
                  && l.minted <= r.value.minted <= MAX_SUPPLY)
  {
    NothingMatures(l, h.height);
    SettleSound(l, h, t);
    hide Settle, Mature;
  }

  lemma SettleBalances(l: Ledger, h: Header, t: Table)
    ensures Settle(l, h, t).bal == Reward(Bookkeep(l, h.protocolVersion, h.height), h.reward, t).bal
    ensures Settle(l, h, t).minted == Reward(Bookkeep(l, h.protocolVersion, h.height), h.reward, t).minted
    ensures Bookkeep(l, h.protocolVersion, h.height).bal == l.bal
    ensures Bookkeep(l, h.protocolVersion, h.height).minted == l.minted
  {
    hide Reward, Bookkeep;
  }

  lemma SumOfOne(a: Addr, w: real)
    ensures Sum(map[a := w]) == w
  {
    assert Sum(map[]) == 0.0;
    assert map[][a := w] == map[a := w];
    SumSet(map[], a, w);
  }

  lemma WholeShare(r: real, w: real)
    requires w > 0.0
    ensures Mul(r, w / w) == r
  {
  }

  /** A block with one contributor pays it the whole mint, and nobody else anything. */
  lemma SoleContributorPaid(c: Crypto, l: Ledger, h: Header, t: Table, r: Addr)
    requires Sound(l) && l.unbonding == map[] && t.Keys == {r}
    requires L.ApplyBlock(c, l, Block(h, []), t).Ok?
    ensures var m := L.ApplyBlock(c, l, Block(h, []), t).value;
            forall a :: Get(m.bal, a) == Get(l.bal, a) + if a == r then m.minted - l.minted else 0.0
  {
    PayBlock(c, l, h, t);
    SettleBalances(l, h, t);
    var b := Bookkeep(l, h.protocolVersion, h.height);
    hide Settle, Bookkeep, Sum, L.ApplyBlock;
    SoleRewardPaid(b, h.reward, t, r);
  }

  lemma PositiveOne(t: Table, r: Addr)
    requires t.Keys == {r}
    ensures Positive(t) == if t[r] > 0.0 then map[r := t[r]] else map[]
    ensures Sum(Positive(t)) == RealMax(0.0, t[r])
  {
    if t[r] > 0.0 {
      assert Positive(t) == map[r := t[r]];
      SumOfOne(r, t[r]);
    } else {
      assert Positive(t) == map[];
      NoSum();
    }
  }

  lemma SharesOfOne(reward: real, r: Addr, w: real)
    requires w > 0.0 && Sum(map[r := w]) == w
    ensures Shares(reward, map[r := w]) == map[r := reward]
  {
    hide Sum;
    WholeShare(reward, w);
  }

  lemma CreditOne(bal: Table, shares: Table, r: Addr, x: real)
    requires shares == map[r := x]
    ensures var paid := map a | a in bal.Keys + shares.Keys :: Get(bal, a) + Get(shares, a);
            forall a :: Get(paid, a) == Get(bal, a) + if a == r then x else 0.0
  {
  }

  lemma SoleRewardPaid(l: Ledger, reward: real, t: Table, r: Addr)
    requires t.Keys == {r}
    ensures var m := Reward(l, reward, t);
            forall a :: Get(m.bal, a) == Get(l.bal, a) + if a == r then m.minted - l.minted else 0.0
  {
    hide Sum, Positive, Mul, Shares, Get, Mintable;
    PositiveOne(t, r);
    var x := Mintable(l, reward);
    if t[r] > 0.0 && x > 0.0 {
      SharesOfOne(x, r, t[r]);
      CreditOne(l.bal, Shares(x, Positive(t)), r, x);
    }
  }

  /** Everywhere in a verifying chain the ledger is sound and nothing is unbonding. */
  lemma {:induction false} ReplaySound(c: Crypto, blocks: seq<Record>, coord: Addr, checkpoint: string, rule: Rule)
    requires Replay(c, blocks, coord, checkpoint, rule).Ok?
    ensures var t := Replay(c, blocks, coord, checkpoint, rule).value;
            && Sound(t.state) && t.state.unbonding == map[]
            && t.head == (if blocks == [] then GenesisHash else HashOf(blocks[|blocks| - 1].header))
  {
    if blocks != [] {
      var n := |blocks| - 1;
      hide ReplayStep, L.ApplyBlock, QuorumOk, Sound, Genesis;
      ReplaySound(c, blocks[..n], coord, checkpoint, rule);
      var t := Replay(c, blocks[..n], coord, checkpoint, rule).value;
      ReplayStepIs(c, t, blocks[n], coord, rule);
      PayBlock(c, t.state, blocks[n].header, blocks[n].contributors);
    }
  }

  /** Block i of a verifying chain steps the replay of the blocks before it to the replay including it. */
  lemma ReplayAt(c: Crypto, blocks: seq<Record>, coord: Addr, checkpoint: string, rule: Rule, i: nat)
    requires Replay(c, blocks, coord, checkpoint, rule).Ok? && i < |blocks|
    ensures Replay(c, blocks[..i], coord, checkpoint, rule).Ok? && Replay(c, blocks[..i + 1], coord, checkpoint, rule).Ok?
    ensures var t := Replay(c, blocks[..i], coord, checkpoint, rule).value;
            && ReplayStep(c, t, blocks[i], coord, rule) == Replay(c, blocks[..i + 1], coord, checkpoint, rule)
            && Sound(t.state) && t.state.unbonding == map[]
  {
    hide ReplayStep, Sound, Genesis;
    PrefixReplays(c, blocks, coord, checkpoint, rule, i);
    PrefixReplays(c, blocks, coord, checkpoint, rule, i + 1);
    ReplaySound(c, blocks[..i], coord, checkpoint, rule);
    assert blocks[..i + 1][..i] == blocks[..i];
  }

  /** What a replayed block did to the ledger. */
  lemma StepPays(c: Crypto, t: Tip, rec: Record, coord: Addr, rule: Rule)
    requires ReplayStep(c, t, rec, coord, rule).Ok?
    ensures L.ApplyBlock(c, t.state, Block(rec.header, []), rec.contributors)
         == Ok(ReplayStep(c, t, rec, coord, rule).value.state)
  {
    hide L.ApplyBlock, QuorumOk;
  }

  /** Minted never falls along prefixes, and stays within the cap. */
  lemma {:induction false} MintedAlongPrefixes(c: Crypto, blocks: seq<Record>, coord: Addr, checkpoint: string,
                                               rule: Rule, i: nat, j: nat)
    requires i <= j <= |blocks| && Replay(c, blocks, coord, checkpoint, rule).Ok?
    ensures Replay(c, blocks[..i], coord, checkpoint, rule).Ok? && Replay(c, blocks[..j], coord, checkpoint, rule).Ok?
    ensures var a := Replay(c, blocks[..i], coord, checkpoint, rule).value.state;
            var b := Replay(c, blocks[..j], coord, checkpoint, rule).value.state;
            0.0 <= a.minted <= b.minted <= MAX_SUPPLY
    decreases j
  {
    hide Replay, ReplayStep, L.ApplyBlock, Settle;
    if i < j {
      MintedAlongPrefixes(c, blocks, coord, checkpoint, rule, i, j - 1);
      ReplayAt(c, blocks, coord, checkpoint, rule, j - 1);
      var t := Replay(c, blocks[..j - 1], coord, checkpoint, rule).value;
      hide Sound;
      StepPays(c, t, blocks[j - 1], coord, rule);
      PayBlock(c, t.state, blocks[j - 1].header, blocks[j - 1].contributors);
    } else {
      PrefixReplays(c, blocks, coord, checkpoint, rule, i);
      ReplaySound(c, blocks[..i], coord, checkpoint, rule);
    }
  }

  // ---------------------------------------------------------------- the chain value

  datatype Chain = Chain(coord: Addr, canSign: bool, checkpoint: string, state: Ledger, blocks: seq<Record>,
                         head: Hash, paid: set<string>)

  /** The live fields are what replaying the signed blocks from genesis yields. */
  ghost predicate InSync(c: Crypto, ch: Chain) {
    Replay(c, ch.blocks, ch.coord, ch.checkpoint, CoordinatorOnly) == Ok(Tip(ch.state, ch.head))
  }

  function NewChain(coord: Addr, canSign: bool, checkpoint: string): Chain {
    Chain(coord, canSign, checkpoint, Genesis(checkpoint, false, false), [], GenesisHash, {})
  }

  ghost function SettledHeader(ch: Chain, height: int, pot: real, weights: Table, timestamp: int,
                               quorum: Option<Quorum>): Header
  {
    Header(height, ch.head, ch.state.checkpoint, ch.state.checkpoint, Sum(Positive(weights)), ch.coord,
           RealMax(0.0, pot), [], timestamp, GENESIS_VERSION, quorum)
  }

  ghost function SettledRecord(c: Crypto, ch: Chain, height: int, pot: real, weights: Table, timestamp: int,
                               quorum: Option<Quorum>): Record
  {
    var h := SettledHeader(ch, height, pot, weights, timestamp, quorum);
    Record(h, Positive(weights), c.sign(ch.coord, BlockHash(HashOf(h))), quorum)
  }

  /** Append a record whose block applies. */
  ghost function Appended(c: Crypto, ch: Chain, rec: Record): Result<Chain> {
    match L.ApplyBlock(c, ch.state, Block(rec.header, []), rec.contributors)
    case Err(e) => Err(e)
    case Ok(m) => Ok(ch.(state := m, blocks := ch.blocks + [rec], head := HashOf(rec.header)))
  }

  /** `settle`; a verify-only account cannot sign. */
  ghost function Settled(c: Crypto, ch: Chain, height: int, pot: real, weights: Table, timestamp: int,
                         quorum: Option<Quorum>): Result<Chain>
  {
    if !ch.canSign then Err("signing disabled")
    else Appended(c, ch, SettledRecord(c, ch, height, pot, weights, timestamp, quorum))
  }

  /** The block part of a peer's acceptance: links, coordinator signature, application. */
  ghost function Extended(c: Crypto, ch: Chain, rec: Record): Result<Chain> {
    if rec.header.prevHash != ch.head then Err("block does not extend our head (gap/fork)")
    else
      match c.recover(BlockHash(HashOf(rec.header)), rec.sig)
      case None => Err("bad coordinator signature")
      case Some(a) => if a != ch.coord then Err("not the coordinator role key") else Appended(c, ch, rec)
  }

  datatype Saved = Saved(coordKey: Option<Addr>, coordAddress: Option<Addr>, checkpoint: string,
                         blocks: seq<Record>, paid: set<string>)

  /** `to_state`; a key is named by the address it signs for.  A verify-only chain has no key to include. */
  function ToSaved(ch: Chain, includeKey: bool): Result<Saved> {
    if includeKey && !ch.canSign then Err("signing disabled")
    else
      Ok(Saved(if includeKey then Some(ch.coord) else None, if includeKey then None else Some(ch.coord), ch.checkpoint,
               ch.blocks, ch.paid))
  }

  /** Whose chain it is, and whether we can sign for it. */
  function SignerOf(s: Saved, supplied: Option<Addr>): Result<(Addr, bool)> {
    var key := if supplied.Some? then supplied else s.coordKey;
    if key.Some? then
      if s.coordAddress.Some? && s.coordAddress.value != key.value then Err("coord key/address mismatch")
      else Ok((key.value, true))
    else if s.coordAddress.None? then Err("no key and no coord_address")
    else Ok((s.coordAddress.value, false))
  }

  /** `from_state`: the balances are rebuilt by replay. */
  ghost function FromSaved(c: Crypto, s: Saved, supplied: Option<Addr>): Result<Chain> {
    match SignerOf(s, supplied)
    case Err(e) => Err(e)
    case Ok(who) =>
      match Replay(c, s.blocks, who.0, s.checkpoint, CoordinatorOnly)
      case Err(e) => Err(e)
      case Ok(t) => Ok(Chain(who.0, who.1, s.checkpoint, t.state, s.blocks,
                             if s.blocks == [] then GenesisHash else HashOf(s.blocks[|s.blocks| - 1].header), s.paid))
  }

  // ---------------------------------------------------------------- incremental state equals replay

  lemma AppendedInSync(c: Crypto, ch: Chain, rec: Record)
    requires InSync(c, ch) && rec.header.prevHash == ch.head
    requires c.recover(BlockHash(HashOf(rec.header)), rec.sig) == Some(ch.coord)
    requires Appended(c, ch, rec).Ok?
    ensures InSync(c, Appended(c, ch, rec).value)
  {
    hide L.ApplyBlock, Genesis;
    var blocks := ch.blocks + [rec];
    assert blocks[..|blocks| - 1] == ch.blocks;
  }

  /** Settling never fails for a signing coordinator, whatever pot and weights it is given. */
  lemma SettleSucceeds(c: Crypto, ch: Chain, height: int, pot: real, weights: Table, timestamp: int,
                       quorum: Option<Quorum>)
    requires SignsCorrectly(c) && InSync(c, ch) && ch.canSign
    ensures var r := Settled(c, ch, height, pot, weights, timestamp, quorum);
            r.Ok? && InSync(c, r.value)
  {
    ReplaySound(c, ch.blocks, ch.coord, ch.checkpoint, CoordinatorOnly);
    var rec := SettledRecord(c, ch, height, pot, weights, timestamp, quorum);
    PayBlock(c, ch.state, rec.header, rec.contributors);
    hide L.ApplyBlock, Replay, Sound;
    AppendedInSync(c, ch, rec);
  }

  lemma ExtendedInSync(c: Crypto, ch: Chain, rec: Record)
    requires InSync(c, ch) && Extended(c, ch, rec).Ok?
    ensures InSync(c, Extended(c, ch, rec).value)
  {
    hide L.ApplyBlock, Replay;
    AppendedInSync(c, ch, rec);
  }

  lemma RestoredInSync(c: Crypto, s: Saved, supplied: Option<Addr>)
    requires FromSaved(c, s, supplied).Ok?
    ensures InSync(c, FromSaved(c, s, supplied).value)
  {
    ReplaySound(c, s.blocks, SignerOf(s, supplied).value.0, s.checkpoint, CoordinatorOnly);
    hide Replay;
  }

  /** Saving fails exactly when a key is asked for that is not there; what is saved restores to the same chain, able to
      sign exactly when a key is at hand. */
  lemma SaveRestore(c: Crypto, ch: Chain, includeKey: bool, keyfile: bool)
    requires InSync(c, ch)
    ensures ToSaved(ch, includeKey).Err? <==> includeKey && !ch.canSign
    ensures ToSaved(ch, includeKey).Ok? ==>
              FromSaved(c, ToSaved(ch, includeKey).value, if keyfile then Some(ch.coord) else None)
              == Ok(ch.(canSign := includeKey || keyfile))
  {
    ReplaySound(c, ch.blocks, ch.coord, ch.checkpoint, CoordinatorOnly);
    hide Replay;
  }

  /** Anything that can happen to a chain. */
  datatype Event =
    | Settling(height: int, pot: real, weights: Table, timestamp: int, quorum: Option<Quorum>)
    | Accepting(rec: Record)
    | Paying(cid: string)
    | Restarting(includeKey: bool, supplied: Option<Addr>)

  function MarkedPaid(ch: Chain, cid: string): Chain { if cid != "" then ch.(paid := ch.paid + {cid}) else ch }

  ghost function After(c: Crypto, ch: Chain, e: Event): Result<Chain> {
    match e
    case Settling(h, pot, w, ts, q) => Settled(c, ch, h, pot, w, ts, q)
    case Accepting(rec) => Extended(c, ch, rec)
    case Paying(cid) => Ok(MarkedPaid(ch, cid))
    case Restarting(includeKey, supplied) =>
      match ToSaved(ch, includeKey)
      case Err(why) => Err(why)
      case Ok(s) => FromSaved(c, s, supplied)
  }

  /** A failed operation leaves the chain as it was. */
  ghost function RunEvents(c: Crypto, ch: Chain, events: seq<Event>): Chain {
    if events == [] then ch
    else
      var before := RunEvents(c, ch, events[..|events| - 1]);
      match After(c, before, events[|events| - 1])
      case Ok(a) => a
      case Err(_) => before
  }

  /** After any mix of settling, accepting, marking and restarting, replaying the signed blocks from genesis
      succeeds and yields the live ledger, head and mint. */
  lemma {:induction false} RunStaysInSync(c: Crypto, coord: Addr, canSign: bool, checkpoint: string, events: seq<Event>)
    requires SignsCorrectly(c)
    ensures InSync(c, RunEvents(c, NewChain(coord, canSign, checkpoint), events))
  {
    if events != [] {
      var n := |events| - 1;
      RunStaysInSync(c, coord, canSign, checkpoint, events[..n]);
      var ch := RunEvents(c, NewChain(coord, canSign, checkpoint), events[..n]);
      hide Replay, Extended, FromSaved, Settled, ToSaved;
      match events[n]
      case Settling(h, pot, w, ts, q) =>
        if ch.canSign {
          SettleSucceeds(c, ch, h, pot, w, ts, q);
        } else {
          CannotSettle(c, ch, h, pot, w, ts, q);
        }
      case Accepting(rec) =>
        if Extended(c, ch, rec).Ok? {
          ExtendedInSync(c, ch, rec);
        }
      case Paying(cid) =>
      case Restarting(includeKey, supplied) =>
        var s := ToSaved(ch, includeKey);
        if s.Ok? && FromSaved(c, s.value, supplied).Ok? {
          RestoredInSync(c, s.value, supplied);
        }
    }
  }

  lemma CannotSettle(c: Crypto, ch: Chain, height: int, pot: real, weights: Table, timestamp: int,
                     quorum: Option<Quorum>)
    requires !ch.canSign
    ensures Settled(c, ch, height, pot, weights, timestamp, quorum).Err?
  {
  }

  // ---------------------------------------------------------------- quorums over whole chains

  /** The members recovered from a block's own quorum. */
  ghost function QuorumSigners(c: Crypto, roster: Q.Roster, rec: Record): set<Addr>
    requires rec.quorum.Some?
  {
    Q.Signers(c, Q.Members(roster), Decision(rec, rec.quorum.value.deltaCid), rec.quorum.value.sigs)
  }

  /** The quorum a block carries is made of signatures by the members they recover to. */
  ghost predicate GenuineQuorum(c: Crypto, signed: Q.SignedBy, roster: Q.Roster, rec: Record)
    requires rec.quorum.Some?
  {
    Q.Genuine(c, signed, Q.Members(roster), Decision(rec, rec.quorum.value.deltaCid), rec.quorum.value.sigs)
  }

  /** Of two blocks accepted by enforced replay under one pinned roster, the same substantial part of it is recovered
      from the quorums of both; and where those are genuine, it signed both decisions. */
  lemma MintQuorumsIntersect(c: Crypto, signed: Q.SignedBy, roster: Q.Roster, m: Option<int>,
                             a: seq<Record>, coordA: Addr, ckA: string, i: nat,
                             b: seq<Record>, coordB: Addr, ckB: string, j: nat)
    requires Replay(c, a, coordA, ckA, Enforced(Some(roster), m)).Ok? && i < |a|
    requires Replay(c, b, coordB, ckB, Enforced(Some(roster), m)).Ok? && j < |b|
    ensures a[i].quorum.Some? && b[j].quorum.Some?
    ensures Q.Substantial(roster, Q.Required(roster, m), QuorumSigners(c, roster, a[i]) * QuorumSigners(c, roster, b[j]))
    ensures GenuineQuorum(c, signed, roster, a[i]) && GenuineQuorum(c, signed, roster, b[j]) ==>
              var p, q := Decision(a[i], a[i].quorum.value.deltaCid), Decision(b[j], b[j].quorum.value.deltaCid);
              Q.Substantial(roster, Q.Required(roster, m),
                            Q.SignedSet(signed, Q.Members(roster), p) * Q.SignedSet(signed, Q.Members(roster), q))
  {
    EnforcedReplaysPlainly(c, a, coordA, ckA, Enforced(Some(roster), m));
    EnforcedReplaysPlainly(c, b, coordB, ckB, Enforced(Some(roster), m));
    hide Replay, Q.Verdict, Decision, Q.Substantial, Q.Genuine, Q.Signers, Q.SignedSet, Q.Members;
    assert QuorumOk(c, a[i], Some(roster), m) && QuorumOk(c, b[j], Some(roster), m);
    var qa, qb := a[i].quorum.value, b[j].quorum.value;
    Q.ApprovedDecisionsIntersect(c, signed, roster, m, Decision(a[i], qa.deltaCid), qa.sigs,
                                 Decision(b[j], qb.deltaCid), qb.sigs);
  }

  lemma SubstantialMember(roster: Q.Roster, m: int, both: set<Addr>) returns (v: Addr)
    requires Q.Substantial(roster, m, both)
    ensures v in both
  {
    hide Q.WeightMap, Q.Members;
    assert both != {};
    v :| v in both;
  }

  /** So if no validator signs two different decisions for one height, one height has one recipient and one amount,
      over every two chains whose quorums there are genuine. */
  lemma OneDecisionPerHeight(c: Crypto, signed: Q.SignedBy, roster: Q.Roster, m: Option<int>,
                             a: seq<Record>, coordA: Addr, ckA: string, i: nat,
                             b: seq<Record>, coordB: Addr, ckB: string, j: nat)
    requires forall v, p, q :: (v in Q.Members(roster) && signed(v, p) && signed(v, q) && p.SettleVote? && q.SettleVote?
                                && p.height == q.height) ==> p == q
    requires Replay(c, a, coordA, ckA, Enforced(Some(roster), m)).Ok? && i < |a|
    requires Replay(c, b, coordB, ckB, Enforced(Some(roster), m)).Ok? && j < |b|
    requires a[i].quorum.Some? ==> GenuineQuorum(c, signed, roster, a[i])
    requires b[j].quorum.Some? ==> GenuineQuorum(c, signed, roster, b[j])
    requires a[i].header.height == b[j].header.height
    ensures SoleRecipient(a[i].contributors) == SoleRecipient(b[j].contributors)
    ensures Q.Round12(a[i].header.reward) == Q.Round12(b[j].header.reward)
  {
    hide Replay, Q.Required, Q.Substantial, Q.Signers, Q.Genuine, Round, SoleRecipient, QuorumSigners;
    MintQuorumsIntersect(c, signed, roster, m, a, coordA, ckA, i, b, coordB, ckB, j);
    var p, q := Decision(a[i], a[i].quorum.value.deltaCid), Decision(b[j], b[j].quorum.value.deltaCid);
    var both := Q.SignedSet(signed, Q.Members(roster), p) * Q.SignedSet(signed, Q.Members(roster), q);
    var v := SubstantialMember(roster, Q.Required(roster, m), both);
    assert signed(v, p) && signed(v, q);
  }

  /** Without assuming anything of the signatures: two different decisions accepted for one height convict a substantial
      part of the roster, each member of it by a signature of its own in either quorum. */
  lemma ConflictConvicts(c: Crypto, roster: Q.Roster, m: Option<int>,
                         a: seq<Record>, coordA: Addr, ckA: string, i: nat,
                         b: seq<Record>, coordB: Addr, ckB: string, j: nat)
    requires Replay(c, a, coordA, ckA, Enforced(Some(roster), m)).Ok? && i < |a|
    requires Replay(c, b, coordB, ckB, Enforced(Some(roster), m)).Ok? && j < |b|
    requires a[i].header.height == b[j].header.height
    requires || SoleRecipient(a[i].contributors) != SoleRecipient(b[j].contributors)
             || Q.Round12(a[i].header.reward) != Q.Round12(b[j].header.reward)
    ensures a[i].quorum.Some? && b[j].quorum.Some?
    ensures var p, q := Decision(a[i], a[i].quorum.value.deltaCid), Decision(b[j], b[j].quorum.value.deltaCid);
            var both := QuorumSigners(c, roster, a[i]) * QuorumSigners(c, roster, b[j]);
            && p != q && p.height == q.height && Q.Substantial(roster, Q.Required(roster, m), both)
            && forall v :: v in both ==>
                 && v in Q.Members(roster)
                 && (exists k :: 0 <= k < |a[i].quorum.value.sigs| && c.recover(p, a[i].quorum.value.sigs[k]) == Some(v))
                 && (exists k :: 0 <= k < |b[j].quorum.value.sigs| && c.recover(q, b[j].quorum.value.sigs[k]) == Some(v))
  {
    hide Replay, Q.Required, Q.Substantial, Q.Signers, Q.Genuine, Q.SignedSet, Q.Members, Round, SoleRecipient;
    MintQuorumsIntersect(c, (v, p) => false, roster, m, a, coordA, ckA, i, b, coordB, ckB, j);
    var p, q := Decision(a[i], a[i].quorum.value.deltaCid), Decision(b[j], b[j].quorum.value.deltaCid);
    Q.SignersExactly(c, Q.Members(roster), p, a[i].quorum.value.sigs);
    Q.SignersExactly(c, Q.Members(roster), q, b[j].quorum.value.sigs);
  }

  /** In an enforced chain a decision that names a recipient pays that recipient the block's whole mint. */
  lemma SignedRecipientPaid(c: Crypto, blocks: seq<Record>, coord: Addr, checkpoint: string, rule: Rule, i: nat,
                            deltaCid: string)
    requires Replay(c, blocks, coord, checkpoint, rule).Ok? && i < |blocks|
    requires Decision(blocks[i], deltaCid).recipient.Some?
    ensures Replay(c, blocks[..i], coord, checkpoint, rule).Ok? && Replay(c, blocks[..i + 1], coord, checkpoint, rule).Ok?
    ensures var l := Replay(c, blocks[..i], coord, checkpoint, rule).value.state;
            var m := Replay(c, blocks[..i + 1], coord, checkpoint, rule).value.state;
            var r := Decision(blocks[i], deltaCid).recipient.value;
            forall a :: Get(m.bal, a) == Get(l.bal, a) + if a == r then m.minted - l.minted else 0.0
  {
    NamedRecipient(blocks[i], deltaCid);
    hide *;
    ReplayAt(c, blocks, coord, checkpoint, rule, i);
    var t := Replay(c, blocks[..i], coord, checkpoint, rule).value;
    StepPays(c, t, blocks[i], coord, rule);
    SoleContributorPaid(c, t.state, blocks[i].header, blocks[i].contributors,
                        Decision(blocks[i], deltaCid).recipient.value);
  }

  lemma NamedRecipient(rec: Record, deltaCid: string)
    requires Decision(rec, deltaCid).recipient.Some?
    ensures rec.contributors.Keys == {Decision(rec, deltaCid).recipient.value}
  {
    SoleRecipientIs(rec.contributors, SoleRecipient(rec.contributors).value);
  }

  /** The contributors are not in the signed header.  Rewriting them keeps a block acceptable exactly when no weight
      is negative and, under enforcement, the quorum also covers the recipient the new table names. */
  lemma ContributorsRewritten(c: Crypto, at: Tip, rec: Record, coord: Addr, rule: Rule, t: Table)
    requires Sound(at.state) && at.state.unbonding == map[]
    requires ReplayStep(c, at, rec, coord, rule).Ok?
    ensures ReplayStep(c, at, rec.(contributors := t), coord, rule).Ok? <==>
            !NegativeWeight(t) && Authorizes(c, rec.(contributors := t), rule)
    ensures SoleRecipient(t) == SoleRecipient(rec.contributors) ==> Authorizes(c, rec.(contributors := t), rule)
  {
    hide L.ApplyBlock, Sound, SoleRecipient, Q.Verdict;
    PayBlock(c, at.state, rec.header, rec.contributors);
    PayBlock(c, at.state, rec.header, t);
  }

  /** So recipient binding holds only under enforcement: with the coordinator's signature alone, the same signed
      header is accepted with any other sole contributor, who is then paid the mint. */
  lemma BindingNeedsEnforcement(c: Crypto, at: Tip, rec: Record, coord: Addr, other: Addr)
    requires Sound(at.state) && at.state.unbonding == map[]
    requires ReplayStep(c, at, rec, coord, CoordinatorOnly).Ok?
    ensures var r := ReplayStep(c, at, rec.(contributors := map[other := 1.0]), coord, CoordinatorOnly);
            && r.Ok?
            && forall a :: Get(r.value.state.bal, a) == Get(at.state.bal, a)
                                                      + if a == other then r.value.state.minted - at.state.minted else 0.0
  {
    var t := map[other := 1.0];
    hide L.ApplyBlock, Sound, ReplayStep;
    ContributorsRewritten(c, at, rec, coord, CoordinatorOnly, t);
    StepPays(c, at, rec.(contributors := t), coord, CoordinatorOnly);
    SoleContributorPaid(c, at.state, rec.header, t, other);
  }

  /** Nor does a quorum over several contributors bind the split: the signed decision then names no recipient. */
  lemma SplitIsNotBound(c: Crypto, at: Tip, rec: Record, coord: Addr, rule: Rule, t: Table)
    requires Sound(at.state) && at.state.unbonding == map[]
    requires ReplayStep(c, at, rec, coord, rule).Ok?
    requires |rec.contributors| != 1 && |t| != 1 && !NegativeWeight(t)
    ensures ReplayStep(c, at, rec.(contributors := t), coord, rule).Ok?
  {
    hide L.ApplyBlock, Sound, ReplayStep, NegativeWeight;
    ContributorsRewritten(c, at, rec, coord, rule, t);
  }

  // ---------------------------------------------------------------- which chains there are

  /** The decision names the block's height, the delta, the sole contributor if there is one, and the reward to the
      nearest millionth of a millionth. */
  lemma DecisionExactly(rec: Record, deltaCid: string)
    ensures var d := Decision(rec, deltaCid);
            && d.SettleVote? && d.height == rec.header.height && d.deltaCid == deltaCid
            && (forall a :: d.recipient == Some(a) <==> rec.contributors.Keys == {a})
            && Abs(d.amount as real - rec.header.reward * 1_000_000_000_000.0) <= 0.5
  {
    var t := rec.contributors;
    Q.Round12Nearest(rec.header.reward, 0);
    forall a ensures SoleRecipient(t) == Some(a) <==> t.Keys == {a} {
      if t.Keys == {a} {
        assert |t| == |t.Keys| == 1;
        SoleRecipientIs(t, a);
      }
      if SoleRecipient(t) == Some(a) {
        SoleRecipientIs(t, a);
      }
    }
    hide SoleRecipient, Q.Round12;
  }

  /** A quorum is accepted exactly when there is one, the header, if it commits any, commits that one, and the pinned
      roster approves the block's decision by its signatures. */
  lemma QuorumOkExactly(c: Crypto, rec: Record, roster: Option<Q.Roster>, m: Option<int>)
    ensures QuorumOk(c, rec, roster, m) <==>
            && roster.Some? && rec.quorum.Some?
            && (rec.header.quorumHash == None || rec.header.quorumHash == rec.quorum)
            && Q.Verdict(c, roster.value, m, Decision(rec, rec.quorum.value.deltaCid), rec.quorum.value.sigs) == Ok(true)
  {
    hide Q.Verdict, Decision;
  }

  /** Block i hangs on the one before it, is signed by the coordinator, carries no transactions and no negative weight,
      and, where that is enforced, its quorum. */
  ghost predicate WellLinked(c: Crypto, blocks: seq<Record>, coord: Addr, rule: Rule, i: nat)
    requires i < |blocks|
  {
    var h := blocks[i].header;
    && h.prevHash == (if i == 0 then GenesisHash else HashOf(blocks[i - 1].header))
    && c.recover(BlockHash(HashOf(h)), blocks[i].sig) == Some(coord)
    && h.txRoot == []
    && (forall a :: a in blocks[i].contributors ==> blocks[i].contributors[a] >= 0.0)
    && (rule.Enforced? ==> QuorumOk(c, blocks[i], rule.roster, rule.m))
  }

  lemma StepLinks(c: Crypto, t: Tip, blocks: seq<Record>, coord: Addr, rule: Rule, i: nat)
    requires i < |blocks| && Sound(t.state) && t.state.unbonding == map[]
    requires t.head == if i == 0 then GenesisHash else HashOf(blocks[i - 1].header)
    ensures ReplayStep(c, t, blocks[i], coord, rule).Ok? <==> WellLinked(c, blocks, coord, rule, i)
  {
    hide QuorumOk, L.ApplyBlock, Sound;
    ReplayStepIs(c, t, blocks[i], coord, rule);
    PayBlock(c, t.state, blocks[i].header, blocks[i].contributors);
  }

  /** A list of records replays exactly when every one of them is well linked: nothing else about the ledger can turn a
      settlement block away. */
  lemma {:induction false} ReplaysExactly(c: Crypto, blocks: seq<Record>, coord: Addr, checkpoint: string, rule: Rule)
    ensures Replay(c, blocks, coord, checkpoint, rule).Ok? <==>
            forall i :: 0 <= i < |blocks| ==> WellLinked(c, blocks, coord, rule, i)
  {
    hide ReplayStep, QuorumOk, Sound, Genesis;
    if blocks != [] {
      var n := |blocks| - 1;
      var front := blocks[..n];
      ReplaysExactly(c, front, coord, checkpoint, rule);
      forall i | 0 <= i < n ensures WellLinked(c, front, coord, rule, i) <==> WellLinked(c, blocks, coord, rule, i) {
      }
      hide WellLinked;
      if Replay(c, front, coord, checkpoint, rule).Ok? {
        ReplaySound(c, front, coord, checkpoint, rule);
        StepLinks(c, Replay(c, front, coord, checkpoint, rule).value, blocks, coord, rule, n);
      }
    }
  }

  /** A live chain takes a record exactly when that keeps it well linked. */
  lemma ExtendsExactly(c: Crypto, ch: Chain, rec: Record)
    requires InSync(c, ch)
    ensures Extended(c, ch, rec).Ok? <==>
            && rec.header.prevHash == ch.head && c.recover(BlockHash(HashOf(rec.header)), rec.sig) == Some(ch.coord)
            && rec.header.txRoot == [] && forall a :: a in rec.contributors ==> rec.contributors[a] >= 0.0
    ensures Extended(c, ch, rec).Ok? ==>
              var m := Extended(c, ch, rec).value;
              m == ch.(state := m.state, blocks := ch.blocks + [rec], head := HashOf(rec.header))
  {
    hide *;
    InSyncIs(c, ch);
    ReplaySound(c, ch.blocks, ch.coord, ch.checkpoint, CoordinatorOnly);
    PayBlock(c, ch.state, rec.header, rec.contributors);
    NegativeIs(rec.contributors);
    ExtendedIs(c, ch, rec);
  }

  lemma NegativeIs(t: Table)
    ensures NegativeWeight(t) <==> !forall a :: a in t ==> t[a] >= 0.0
  {
  }

  lemma ExtendedIs(c: Crypto, ch: Chain, rec: Record)
    ensures var block := L.ApplyBlock(c, ch.state, Block(rec.header, []), rec.contributors);
            && (Extended(c, ch, rec).Ok? <==>
                  && rec.header.prevHash == ch.head
                  && c.recover(BlockHash(HashOf(rec.header)), rec.sig) == Some(ch.coord) && block.Ok?)
            && (Extended(c, ch, rec).Ok? ==>
                  var m := Extended(c, ch, rec).value;
                  m == ch.(state := m.state, blocks := ch.blocks + [rec], head := HashOf(rec.header)))
  {
    hide L.ApplyBlock;
  }

  /** What a settled block says and pays: the pot, clamped to zero and then to what the cap leaves, is minted to the
      contributors of positive weight in proportion, and nothing is minted when there are none. */
  lemma SettledExactly(c: Crypto, ch: Chain, height: int, pot: real, weights: Table, timestamp: int,
                       quorum: Option<Quorum>, a: Addr)
    requires SignsCorrectly(c) && InSync(c, ch) && ch.canSign
    ensures var r := Settled(c, ch, height, pot, weights, timestamp, quorum);
            && r.Ok? && r.value.blocks != [] && r.value.blocks[..|ch.blocks|] == ch.blocks
            && var m, rec := r.value, r.value.blocks[|r.value.blocks| - 1];
               var mint, total := m.state.minted - ch.state.minted, Sum(Positive(weights));
               var w := if a in weights && weights[a] > 0.0 then weights[a] else 0.0;
               && Mentions(rec.header, height, pot, timestamp, quorum) && rec.quorum == quorum
               && rec.header.prevHash == ch.head && m.head == HashOf(rec.header) && rec.header.workScore == total
               && (a in rec.contributors <==> w > 0.0) && (w > 0.0 ==> rec.contributors[a] == w)
               && mint == (if total > 0.0 then RealMax(0.0, RealMin(RealMax(0.0, pot), MAX_SUPPLY - ch.state.minted)) else 0.0)
               && (Get(m.state.bal, a) - Get(ch.state.bal, a)) * total == mint * w
  {
    hide *;
    SettleSucceeds(c, ch, height, pot, weights, timestamp, quorum);
    SettledIs(c, ch, height, pot, weights, timestamp, quorum);
    InSyncIs(c, ch);
    ReplaySound(c, ch.blocks, ch.coord, ch.checkpoint, CoordinatorOnly);
    var rec := SettledRecord(c, ch, height, pot, weights, timestamp, quorum);
    SettledRecordIs(c, ch, height, pot, weights, timestamp, quorum, a);
    PayBlock(c, ch.state, rec.header, rec.contributors);
    SettleBalances(ch.state, rec.header, rec.contributors);
    var b := Bookkeep(ch.state, rec.header.protocolVersion, rec.header.height);
    PositivePositive(weights);
    Minted(b, rec.header.reward, Positive(weights));
    PaidInProportion(b, ch.state, rec.header.reward, weights, a);
  }

  ghost predicate Mentions(h: Header, height: int, pot: real, timestamp: int, quorum: Option<Quorum>) {
    && h.height == height && h.reward == RealMax(0.0, pot) && h.timestamp == timestamp && h.quorumHash == quorum
    && h.txRoot == []
  }

  lemma SettledIs(c: Crypto, ch: Chain, height: int, pot: real, weights: Table, timestamp: int, quorum: Option<Quorum>)
    requires Settled(c, ch, height, pot, weights, timestamp, quorum).Ok?
    ensures var m, rec := Settled(c, ch, height, pot, weights, timestamp, quorum).value,
                          SettledRecord(c, ch, height, pot, weights, timestamp, quorum);
            && m.blocks == ch.blocks + [rec] && m.head == HashOf(rec.header)
            && L.ApplyBlock(c, ch.state, Block(rec.header, []), rec.contributors) == Ok(m.state)
  {
    hide L.ApplyBlock, SettledRecord;
  }

  lemma InSyncIs(c: Crypto, ch: Chain)
    requires InSync(c, ch)
    ensures Replay(c, ch.blocks, ch.coord, ch.checkpoint, CoordinatorOnly) == Ok(Tip(ch.state, ch.head))
  {
    hide Replay;
  }

  lemma SettledRecordIs(c: Crypto, ch: Chain, height: int, pot: real, weights: Table, timestamp: int,
                        quorum: Option<Quorum>, a: Addr)
    ensures var rec := SettledRecord(c, ch, height, pot, weights, timestamp, quorum);
            && Mentions(rec.header, height, pot, timestamp, quorum) && rec.quorum == quorum && rec.header.prevHash == ch.head
            && rec.header.reward == RealMax(0.0, pot) && rec.header.workScore == Sum(Positive(weights))
            && rec.contributors == Positive(weights)
            && (a in rec.contributors <==> a in weights && weights[a] > 0.0)
            && (a in rec.contributors ==> rec.contributors[a] == weights[a])
  {
    hide Sum;
  }

  lemma PositivePositive(t: Table)
    ensures Positive(Positive(t)) == Positive(t)
  {
  }

  lemma Minted(l: Ledger, reward: real, t: Table)
    ensures Reward(l, reward, t).minted - l.minted == if Sum(Positive(t)) > 0.0 then Mintable(l, reward) else 0.0
    ensures Mintable(l, reward) == RealMax(0.0, RealMin(reward, MAX_SUPPLY - l.minted))
  {
    hide Sum, Shares;
  }

  lemma PaidInProportion(b: Ledger, l: Ledger, reward: real, weights: Table, a: Addr)
    requires b.bal == l.bal && b.minted == l.minted
    ensures var m, total := Reward(b, reward, Positive(weights)), Sum(Positive(weights));
            var w := if a in weights && weights[a] > 0.0 then weights[a] else 0.0;
            (Get(m.bal, a) - Get(l.bal, a)) * total == (m.minted - l.minted) * w
  {
    hide *;
    PositivePositive(weights);
    SameWeight(weights, a);
    if Sum(Positive(weights)) > 0.0 {
      RewardProportional(b, reward, Positive(weights), a);
    } else {
      NothingToPay(b, reward, weights, a);
    }
  }

  lemma SameWeight(t: Table, a: Addr)
    ensures (a in Positive(t) && Positive(t)[a] > 0.0) <==> (a in t && t[a] > 0.0)
    ensures a in Positive(t) ==> Positive(t)[a] == t[a]
  {
  }

  lemma NothingToPay(b: Ledger, reward: real, weights: Table, a: Addr)
    requires Sum(Positive(weights)) <= 0.0
    ensures Sum(Positive(weights)) == 0.0 && !(a in weights && weights[a] > 0.0)
    ensures Reward(b, reward, Positive(weights)) == b
  {
    hide SumOver, Mintable, Shares, Positive;
    PositivePositive(weights);
    PositiveEntry(weights, a);
  }

  lemma PositiveEntry(t: Table, a: Addr)
    ensures Sum(Positive(t)) >= 0.0
    ensures a in t && t[a] > 0.0 ==> Sum(Positive(t)) >= t[a]
  {
    hide SumOver;
    SumOverNonNeg(Positive(t).Keys, Positive(t));
    if a in t && t[a] > 0.0 {
      assert a in Positive(t).Keys && Get(Positive(t), a) == t[a];
    }
  }

  /** A saved chain can be restored exactly when some key or address says whose it is, a key agrees with the address, and
      the blocks replay under it; it can sign exactly when there is a key, the supplied one first. */
  lemma RestoresExactly(c: Crypto, s: Saved, supplied: Option<Addr>)
    ensures var r := FromSaved(c, s, supplied);
            && (supplied.None? && s.coordKey.None? && s.coordAddress.None? ==> r.Err?)
            && (forall k :: (supplied == Some(k) || (supplied.None? && s.coordKey == Some(k))) ==>
                  && (r.Ok? <==> (s.coordAddress.None? || s.coordAddress == Some(k))
                                 && forall i :: 0 <= i < |s.blocks| ==> WellLinked(c, s.blocks, k, CoordinatorOnly, i))
                  && (r.Ok? ==> r.value.coord == k && r.value.canSign))
            && (forall k :: supplied.None? && s.coordKey.None? && s.coordAddress == Some(k) ==>
                  && (r.Ok? <==> forall i :: 0 <= i < |s.blocks| ==> WellLinked(c, s.blocks, k, CoordinatorOnly, i))
                  && (r.Ok? ==> r.value.coord == k && !r.value.canSign))
            && (r.Ok? ==> r.value.blocks == s.blocks && r.value.checkpoint == s.checkpoint && r.value.paid == s.paid)
  {
    hide WellLinked, Replay;
    if SignerOf(s, supplied).Ok? {
      ReplaysExactly(c, s.blocks, SignerOf(s, supplied).value.0, s.checkpoint, CoordinatorOnly);
    }
  }

  /** Marked as paid is what was at the start or was marked since, through every settlement and restart. */
  lemma {:induction false} PaidExactly(c: Crypto, ch: Chain, events: seq<Event>, cid: string)
    ensures cid in RunEvents(c, ch, events).paid <==> cid in ch.paid || (cid != "" && Paying(cid) in events)
  {
    hide Settled, Extended, ToSaved, FromSaved;
    if events != [] {
      var n := |events| - 1;
      PaidExactly(c, ch, events[..n], cid);
      assert events == events[..n] + [events[n]];
      PaidAfter(c, RunEvents(c, ch, events[..n]), events[n], cid);
      hide After;
    }
  }

  lemma PaidAfter(c: Crypto, ch: Chain, e: Event, cid: string)
    ensures After(c, ch, e).Ok? ==> (cid in After(c, ch, e).value.paid <==> cid in ch.paid || (cid != "" && e == Paying(cid)))
    ensures e.Paying? ==> After(c, ch, e).Ok?
  {
    hide L.ApplyBlock, Replay, SettledRecord;
  }
}
