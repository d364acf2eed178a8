/** Class `ChainSettlement` of neurahash/chain_settlement.py: the live chain whose fields its methods update, proved
    against the chain value of module Settlement. */
module SettlementState {
  import opened Prelude
  import opened Blocks
  import opened Sums
  import opened Ledger
  import L = Ledger
  import opened LedgerSafety
  import opened LedgerState
  import opened Settlement
  import Q = Quorum

  const TOLERANCE: real := 0.000000001

  /** Replayed and live balances differ nowhere by more than the tolerance. */
  ghost predicate Close(a: Ledger, b: Ledger) {
    && (forall x :: Abs(Get(a.bal, x) - Get(b.bal, x)) <= 0.000000001)
    && Abs(a.minted - b.minted) <= 0.000000001
  }

  class ChainSettlement {
    const crypto: Crypto
    const coord: Addr
    const canSign: bool
    const checkpoint: string
    var state: State
    var blocks: seq<Record>
    var head: Hash
    var paid: set<string>

    ghost function Value(): Chain
      reads this, state, state.unbonding.Values
    {
      Chain(coord, canSign, checkpoint, state.Value(), blocks, head, paid)
    }

    ghost predicate Valid()
      reads this, state, state.unbonding.Values
    {
      state.Valid() && InSync(crypto, Value())
    }

    constructor (crypto: Crypto, coord: Addr, canSign: bool, checkpoint: string)
      ensures this.crypto == crypto
      ensures fresh(state) && fresh(state.unbonding.Values)
      ensures Valid() && Value() == NewChain(coord, canSign, checkpoint)
    {
      this.crypto, this.coord, this.canSign, this.checkpoint := crypto, coord, canSign, checkpoint;
      state := new State(checkpoint, false, false);
      blocks, head, paid := [], GenesisHash, {};
    }

    /** Put a replayed position in place of the initial one. */
    constructor At(crypto: Crypto, coord: Addr, canSign: bool, checkpoint: string, st: State, blocks: seq<Record>,
                   head: Hash, paid: set<string>)
      ensures this.crypto == crypto && state == st
      ensures Value() == Chain(coord, canSign, checkpoint, st.Value(), blocks, head, paid)
    {
      this.crypto, this.coord, this.canSign, this.checkpoint := crypto, coord, canSign, checkpoint;
      this.state, this.blocks, this.head, this.paid := st, blocks, head, paid;
    }

    /** Apply a record's block to the live state and append it. */
    method Append(rec: Record) returns (failure: Option<string>)
      requires state.Valid()
      modifies this`state, this`blocks, this`head
      ensures state.Valid()
      ensures match Appended(crypto, old(Value()), rec)
              case Ok(ch) => failure == None && Value() == ch && fresh(state) && fresh(state.unbonding.Values)
              case Err(e) => failure == Some(e) && Value() == old(Value()) && state == old(state)
    {
      hide L.ApplyBlock, View;
      var r := state.ApplyBlock(crypto, Block(rec.header, []), rec.contributors);
      if r.Err? {
        return Some(r.reason);
      }
      state := r.value;
      blocks := blocks + [rec];
      head := HashOf(rec.header);
      return None;
    }

    /** `settle`: what each contributor was credited, rounded to twelve places. */
    method Settle(height: int, pot: real, weights: Table, timestamp: int, quorum: Option<Quorum>)
      returns (credited: Result<map<Addr, int>>)
      requires Valid() && SignsCorrectly(crypto)
      modifies this`state, this`blocks, this`head
      ensures Valid()
      ensures credited.Ok? <==> canSign
      ensures match Settled(crypto, old(Value()), height, pot, weights, timestamp, quorum)
              case Ok(ch) => Value() == ch && fresh(state) && fresh(state.unbonding.Values)
              case Err(e) => credited == Err(e) && Value() == old(Value()) && state == old(state)
      ensures credited.Ok? ==>
                credited.value == (map a | a in weights && weights[a] > 0.0 ::
                                     Q.Round12(Get(state.bal, a) - old(Get(state.bal, a))))
    {
      hide L.ApplyBlock, View, Replay, Sum, Q.Round12, SumOver;
      if !canSign {
        CannotSettle(crypto, Value(), height, pot, weights, timestamp, quorum);
        return Err("signing disabled");
      }
      SettleSucceeds(crypto, Value(), height, pot, weights, timestamp, quorum);
      var contributors := map a | a in weights && weights[a] > 0.0 :: weights[a];
      assert contributors == Positive(weights);
      var work := Total(contributors, contributors.Keys);
      Q.SumIsOverKeys(contributors);
      var h := Header(height, head, state.checkpoint, state.checkpoint, work, coord, RealMax(0.0, pot), [], timestamp,
                      GENESIS_VERSION, quorum);
      var sig := crypto.sign(coord, BlockHash(HashOf(h)));
      var before := state.bal;
      var rec := Record(h, contributors, sig, quorum);
      assert rec == SettledRecord(crypto, Value(), height, pot, weights, timestamp, quorum);
      var failure := Append(rec);
      credited := Ok(map a | a in weights && weights[a] > 0.0 :: Q.Round12(Get(state.bal, a) - Get(before, a)));
    }

    /** The block part of a peer's acceptance. */
    method Extend(rec: Record) returns (failure: Option<string>)
      requires Valid()
      modifies this`state, this`blocks, this`head
      ensures Valid()
      ensures match Extended(crypto, old(Value()), rec)
              case Ok(ch) => failure == None && Value() == ch && fresh(state) && fresh(state.unbonding.Values)
              case Err(e) => failure == Some(e) && Value() == old(Value()) && state == old(state)
    {
      hide L.ApplyBlock, View, Replay;
      if Extended(crypto, Value(), rec).Ok? {
        ExtendedInSync(crypto, Value(), rec);
      }
      if rec.header.prevHash != head {
        return Some("block does not extend our head (gap/fork)");
      }
      var signer := crypto.recover(BlockHash(HashOf(rec.header)), rec.sig);
      if signer.None? {
        return Some("bad coordinator signature");
      }
      if signer.value != coord {
        return Some("not the coordinator role key");
      }
      failure := Append(rec);
    }

    method AlreadyPaid(cid: string) returns (b: bool)
      ensures b <==> cid != "" && cid in paid
    {
      b := cid != "" && cid in paid;
    }

    method MarkPaid(cid: string)
      requires Valid()
      modifies this`paid
      ensures Valid() && Value() == MarkedPaid(old(Value()), cid)
    {
      hide View;
      if cid != "" {
        paid := paid + {cid};
      }
    }

    /** `verify`: replay the served blocks and compare with the live state. */
    method Verify() returns (ok: bool)
      requires state.Valid()
      ensures ok <==> var r := Replay(crypto, blocks, coord, checkpoint, CoordinatorOnly);
                      r.Ok? && Close(r.value.state, state.Value())
      ensures Valid() ==> ok
    {
      hide Replay, View;
      var st, hd, failure := ReplayBlocks(crypto, blocks, coord, checkpoint, CoordinatorOnly);
      if failure.Some? {
        return false;
      }
      var left := state.bal.Keys + st.bal.Keys;
      while left != {}
        invariant left <= state.bal.Keys + st.bal.Keys
        invariant forall a :: a in state.bal.Keys + st.bal.Keys && a !in left ==>
                    Abs(Get(st.bal, a) - Get(state.bal, a)) <= TOLERANCE
        decreases left
      {
        var a :| a in left;
        if Abs(Get(st.bal, a) - Get(state.bal, a)) > TOLERANCE {
          return false;
        }
        left := left - {a};
      }
      if Abs(st.minted - state.minted) > TOLERANCE {
        return false;
      }
      return true;
    }

    /** `to_state`; only an account that can sign has a key to include. */
    method ToState(includeKey: bool) returns (s: Result<Saved>)
      ensures s == ToSaved(Value(), includeKey)
    {
      if includeKey && !canSign {
        return Err("signing disabled");
      }
      s := Ok(Saved(if includeKey then Some(coord) else None, if includeKey then None else Some(coord), checkpoint,
                    blocks, paid));
    }

    /** `from_state` */
    static method FromState(crypto: Crypto, s: Saved, supplied: Option<Addr>) returns (r: Result<ChainSettlement>)
      ensures match FromSaved(crypto, s, supplied)
              case Err(e) => r == Err(e)
              case Ok(ch) => r.Ok? && fresh(r.value) && fresh(r.value.state) && r.value.crypto == crypto
                             && r.value.Valid() && r.value.Value() == ch
    {
      hide Replay, View;
      if FromSaved(crypto, s, supplied).Ok? {
        RestoredInSync(crypto, s, supplied);
      }
      var key := if supplied.Some? then supplied else s.coordKey;
      var who: Addr, canSign := 0, false;
      if key.Some? {
        if s.coordAddress.Some? && s.coordAddress.value != key.value {
          return Err("coord key/address mismatch");
        }
        who, canSign := key.value, true;
      } else {
        if s.coordAddress.None? {
          return Err("no key and no coord_address");
        }
        who := s.coordAddress.value;
      }
      var st, hd, failure := ReplayBlocks(crypto, s.blocks, who, s.checkpoint, CoordinatorOnly);
      if failure.Some? {
        return Err(failure.value);
      }
      var head := if s.blocks == [] then GenesisHash else HashOf(s.blocks[|s.blocks| - 1].header);
      var cs := new ChainSettlement.At(crypto, who, canSign, s.checkpoint, st, s.blocks, head, s.paid);
      return Ok(cs);
    }
  }

  // ---------------------------------------------------------------- public verification

  /** `public_state`: what a reader without any key is served. */
  datatype Export = Export(coordAddress: Option<Addr>, checkpoint: string, blocks: seq<Record>)

  datatype Report = Report(ok: bool, pinned: bool, balances: Table, minted: real, height: int)

  /** `verify_public_chain`: a pinned address always outranks the one the export claims. */
  method VerifyPublicChain(c: Crypto, e: Export, expected: Option<Addr>, rule: Rule) returns (r: Report)
    ensures var who := if expected.Some? then expected else e.coordAddress;
            && (r.ok <==> who.Some? && Replay(c, e.blocks, who.value, e.checkpoint, rule).Ok?)
            && (r.ok ==>
                  && (r.pinned <==> expected.Some?)
                  && r.balances == Replay(c, e.blocks, who.value, e.checkpoint, rule).value.state.bal
                  && r.minted == Replay(c, e.blocks, who.value, e.checkpoint, rule).value.state.minted
                  && r.height == if e.blocks == [] then 0 else e.blocks[|e.blocks| - 1].header.height)
            && (!r.ok ==> r == Report(false, expected.Some?, map[], 0.0, 0))
  {
    hide Replay, View;
    var pinned := expected.Some?;
    var who := if pinned then expected else e.coordAddress;
    if who.None? {
      return Report(false, pinned, map[], 0.0, 0);
    }
    var st, head, failure := ReplayBlocks(c, e.blocks, who.value, e.checkpoint, rule);
    if failure.Some? {
      return Report(false, pinned, map[], 0.0, 0);
    }
    var height := if e.blocks == [] then 0 else e.blocks[|e.blocks| - 1].header.height;
    return Report(true, pinned, st.bal, st.minted, height);
  }
}
