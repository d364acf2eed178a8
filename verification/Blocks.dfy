/** Transactions, headers and signed messages.  Every digest is free: a hash is the value it was taken of, so
    equal hashes mean equal contents, and messages of different kinds never coincide. */
module Blocks {
  import opened Prelude

  type Sig = nat

  /** An FFG vote, named by its vote id. */
  type Vote = nat

  /** An equivocation proof, opaque to the ledger. */
  type Proof = nat

  datatype Kind = Transfer | Stake | Unstake | Slash | UpgradeSignal

  datatype TxData =
    | NoData
    | Version(version: int)
    | EquivocationData(proof: Option<Proof>, proposer: Option<Addr>)
    | VoteFaultData(validator: Option<Addr>, votes: Option<(Vote, Vote)>)

  datatype Tx = Tx(sender: Addr, kind: Kind, to: Option<Addr>, amount: real, nonce: int, sig: Sig, data: TxData)

  /** The M-of-N bundle attached to a settlement block. */
  datatype Quorum = Quorum(deltaCid: string, sigs: seq<Sig>)

  datatype Hash = GenesisHash | HashOf(header: Header)

  /** `txRoot` is the digest of the transaction list, `quorumHash` that of the attached quorum. */
  datatype Header = Header(height: int, prevHash: Hash, parentCheckpoint: string, newCheckpoint: string,
                           workScore: real, proposer: Addr, reward: real, txRoot: seq<Tx>, timestamp: int,
                           protocolVersion: int, quorumHash: Option<Quorum>)

  datatype Block = Block(header: Header, txs: seq<Tx>)

  /** The canonical byte strings that get signed; the constructor is the domain tag. */
  datatype Payload =
    | TxBytes(tx: Tx)
    | BlockHash(hash: Hash)
    | SettleVote(recipient: Option<Addr>, amount: int, height: int, deltaCid: string)
    | ProposerClaim(round: int, proposer: Addr, blockHash: Hash)
    | TimeoutVote(round: int, failedProposer: Addr, view: int)

  /** The foreign calls: signature recovery and signing, and the deterministic checks of slashing evidence. */
  datatype Crypto = Crypto(
    recover: (Payload, Sig) -> Option<Addr>,
    sign: (Addr, Payload) -> Sig,
    equivocation: Proof -> Option<(Addr, int)>,
    voteFault: (Addr, Vote, Vote, Addr) -> bool)

  /** Signing with a key and recovering over the same message gives that key's address. */
  ghost predicate SignsCorrectly(c: Crypto) {
    forall a: Addr, p :: c.recover(p, c.sign(a, p)) == Some(a)
  }

  /** The bytes a transaction signature covers: everything but the signature. */
  function SigningBytes(tx: Tx): Payload { TxBytes(tx.(sig := 0)) }
}
