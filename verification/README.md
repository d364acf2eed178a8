# NeuraHash: a verified model of its consensus-critical core

This project models, in Dafny, the parts of NeuraHash on which every node must agree, and proves what they are
relied on for. Each module is one component of the source; the modules build on each other.

* **Top-k delta codec** (`Float32`, `TopK`, `DeltaCodec`). The two-pass streamed radix select, tie gathering,
  int8/int4 quantization, nibble packing, gap encoding and error-feedback residual, as loops over chunks, proved
  against a selection defined by rank.
* **Native ledger** (`Blocks`, `Sums`, `Retarget`, `Ledger`, `LedgerState`; theorems in `LedgerSafety`,
  `LedgerAuthority`, `LedgerUpgrade`, `LedgerDigest`). `Ledger` is the ledger as a value, `LedgerState` is the class `State` with its
  tables, its shared unbonding lists, `copy` and in-place mutation, every method proved equal to the value
  operation. The theorems are about whole runs of blocks.
* **Merkle commitments** (`Merkle`, `Sharding`, `Challenge`). The tree's loops, padded checkpoints, one proof for a
  one-expert update, growth migration, and the random-step challenge with its exact detection count.
* **Settlement, agreement and view change** (`Quorum`, `Clock`, `Settlement`, `SettlementState`, `RoundAuthority`,
  `RoundAuthorityState`). Distinct-signer quorums by head or by stake, commit-reveal agreement, the replayable
  signed chain, candidates with replicas, and the authority that drives them.
* **Gated merge, streaming sync, wire codec** (`Merge`, `Streaming`, `SafeCodec`). `PlainWire` exhibits a document
  encoding that satisfies what `SafeCodec` assumes of Python's `json`, so that assumption is not empty.

`Prelude`, `Sorting` and `Counting` hold shared vocabulary.

## How things are modelled

* Coin amounts, losses and tensor entries are exact reals; the difficulty retarget and every bit-level operation are
  integers. Python's `//` on the positive divisors used is Dafny's `/`. Keys of `float32` values are their bit
  patterns, and the order of patterns is proved to be the order of magnitudes.
* A digest is the value it was taken of (a free datatype with one constructor per kind of message), so equal digests
  mean equal contents and no leaf is a pair. Signature recovery, signing and slashing-evidence checks are functions
  passed in a record; `SignsCorrectly` says a signature recovers to its signer. `Genuine` says of the
  signatures actually presented, and of no others, that the members they recover to made them; it holds of whatever
  honest signers produce (`Quorum.SigningIsGenuine`), and `GenuineApprovalExists` is an instance in which signing works
  and nothing else is signed.
* An address is the number its hex digits denote, so letter case never matters.
* Source that updates objects, lists or dicts step by step is a class or a method with a loop, and its postcondition
  equates the result or the new state with a function; the theorems are lemmas about those functions. `modifies`
  clauses show what is left alone: `State.ApplyBlock` has none, so a parent state is never altered.
* The small definitions the results rest on (a kept count, a rounding, a nibble, a tag, a leaf) are each tied to the
  inputs by a lemma beside them, in terms that do not name the definition; the table lists the results.
* Consecutive heights and the one legal protocol version per height, which the consensus layer checks before a block
  reaches the ledger, are the predicate `IsRun` and appear only in the upgrade theorems.

## What came out differently from the documentation

* `apply_delta_gated` documents acceptance at `<=`; the code is strict. `Merge.GateAsDocumentedExactly` gives the exact
  condition under which the two agree, `ZeroDeltaRejected` the deltas at which they do not at margin zero. The combined
  path of the batch merge does accept at `<=`: `Merge.OneAsManyExactly` says exactly when a batch of one, which takes the
  single gate, is decided otherwise than the combined path would.
* The contributor table of a settlement block is outside the signed header. `Settlement.ContributorsRewritten` gives
  the exact condition under which another table is still accepted; `BindingNeedsEnforcement` and `SplitIsNotBound`
  are the two cases in which the recipient is not bound, `SignedRecipientPaid` the case in which it is.
* A `$v` node of the wire codec may carry a JSON container. `SafeCodec.NodeBudgetExactly` says the node budget counts
  the decoded objects exactly when no payload of the frame does that; `PayloadsAreNotCounted` is a frame for which it
  does not.
* An array of no dimensions is sent with one, by the wire codec and by the delta codec alike.
  `SafeCodec.MessageArrives` and `DeltaCodec.RoundTrip` state the round trips as what does arrive, and that it is the
  original exactly when every array has a dimension; `DeltaCodec.ScalarTensorGainsADimension` is the case of one number.
* The `rejected` bucket of the round agreement depends on arrival order (`Clock.RejectedDependsOnArrival`); everything
  else does not (`Clock.SameSetsAgree`). `Clock.RejectedExactly` says who is in it, and `Clock.ArrivalIrrelevantExactly`
  that it is independent of arrival exactly when no committed signer showed both a good and a wrong reveal.
* A contributor that lacks a trunk key counts as zeros under streaming, whereas the full step averages over those that
  have it. `Streaming.CycleIsFullStep` states what a cycle is for any deltas, `FullSyncExactly` the exact condition, key
  by key, under which it is the ordinary step, and `MissingKeyHalvesTheStep` a case in which it is not.
* The size estimate behind the cap on reconstructed models leaves out the biases of the router and of the output:
  `SafeCodec.EstimateMissesBiases` gives the difference exactly.
* A round's validators sign the reward as given, while the header carries it clamped at zero. `RoundAuthority.SameAmount`
  says exactly when the two are one amount, `RoundBlockVerifies` that the block then passes enforced verification.
* The Merkle game documents a detection probability for a worker who skipped steps. That is exact for one who answers
  with its own states and proofs (`Challenge.DetectionIsExact`, `WorkerPassesExactly`). A challenge checks that the
  revealed state and its recomputed successor are committed, not where, so it does not hold of every prover:
  `OneRealStepPasses` is the family of cases, and `PassableExactly` the exact condition, over all provers, under which a
  commitment can pass the whole check.

## Model

| member | source | states |
|---|---|---|
| Float32.KeyOrdersMagnitude | neurahash/delta_codec.py:79-84 | the bit pattern of the absolute value of a finite binary32 orders magnitudes, with key ties exactly where magnitudes tie (IEEE 754-2019, section 3.4) |
| Float32.ValueExactly | neurahash/delta_codec.py:79-84 | the number a pattern denotes by its sign, exponent and fraction, subnormals included (IEEE 754-2019, section 3.4) |
| TopK.StreamHistogram | neurahash/delta_codec.py:91-94 | a streamed pass counts every digit exactly, for every chunk size |
| TopK.SelectDigit | neurahash/delta_codec.py:95-98 | the digit picked from the suffix counts is the one that straddles the wanted rank, and the count returned is what lies strictly above it |
| TopK.KthLargestAbsKey | neurahash/delta_codec.py:75-109 | the returned key is the true k-th largest for every array, k and chunk size; the count strictly above it is exact and below k; the ties still needed lie between 1 and the number of ties |
| TopK.KthLargestIsSortedEntry | neurahash/delta_codec.py:86-88 | being the k-th largest key is being the k-th entry of the keys sorted downwards |
| TopK.ThresholdIsRank | neurahash/delta_codec.py:141-145 | "above the threshold, or among the first needed ties" selects exactly the entries of rank below k |
| TopK.GatheredIsTop | neurahash/delta_codec.py:158-173 | the sorted union of the strictly greater entries and the first ties is the reference selection |
| TopK.SelectTopK | neurahash/delta_codec.py:149-173 | the block-by-block gather returns exactly k indices, the reference selection, whatever the chunk size |
| TopK.TopIndicesUnique | neurahash/delta_codec.py:118-145 | the selection is the one k-set of indices in which nothing dropped beats anything kept, ties lowest index first |
| TopK.KeptMagnitudesDominate | neurahash/delta_codec.py:118-145 | every kept magnitude is at least every dropped one, and equal ones are kept in index order |
| DeltaCodec.QuantizeTopk | neurahash/delta_codec.py:112-181 | refuses exactly the unsupported bit widths, otherwise quantizes the reference selection |
| DeltaCodec.KeepCountExactly | neurahash/delta_codec.py:153 | the kept count is the one number nearest to fraction times n, halves to even; it is one below a half, and n from fraction 1 on |
| DeltaCodec.QuantizeAccurate | neurahash/delta_codec.py:174-181 | every code word is on the grid, within half a scale step of its value, and the largest magnitude sits exactly on the end of the grid |
| DeltaCodec.GridExactly | neurahash/delta_codec.py:174-181 | code words lie in -127..127 or -7..7, with that many steps of the scale up to the largest magnitude, which some value has; a tensor of zeros has scale 1 and zero code words |
| DeltaCodec.GapsRoundTrip | neurahash/delta_codec.py:226-253 | gap encoding, narrowed or not, loses nothing on any ascending index list below 2^31 |
| DeltaCodec.PackRoundTrip | neurahash/delta_codec.py:184-204 | nibble packing loses nothing, odd lengths included |
| DeltaCodec.UnpackInt4 | neurahash/delta_codec.py:195-204 | the two slice assignments produce the nibbles in order, cut to the stored count |
| DeltaCodec.CompressDelta | neurahash/delta_codec.py:207-253 | per tensor: selection, quantization, packing, gaps and residual; fails with the encoder's error and no partial result |
| DeltaCodec.ManifestExactly | neurahash/delta_codec.py:217-243 | magic, version 1 without bits for int8, version 2 with bits 4 for int4; per tensor its name, shape, count of kept entries, and gaps whose running sums are the kept indices |
| DeltaCodec.DecompressDelta | neurahash/delta_codec.py:256-284 | the decoder on every payload the model can express, missing and mismatched arrays, unknown versions and out-of-range indices included |
| DeltaCodec.DecodesExactly | neurahash/delta_codec.py:256-284 | of all payloads exactly these decode: the magic, version 1 or 2, four or eight bits, and per tensor its arrays, one value per gap or one for all, and no running sum past the end |
| DeltaCodec.DecodedEntry | neurahash/delta_codec.py:272-283 | an entry of any decoded tensor is zero unless a running sum points to it, and then the last such value times the scale |
| DeltaCodec.RoundTrip | neurahash/delta_codec.py:207-284 | decompressing a compressed delta restores exactly its names and, per name, the dense array of its code words; the shape is restored exactly when the tensor has a dimension |
| DeltaCodec.ScalarTensorGainsADimension | neurahash/delta_codec.py:59-72 | a tensor of no dimensions comes back, decoded and as residual, with one |
| DeltaCodec.DecodedIsClose | neurahash/delta_codec.py:112-181 | the wanted fraction of the entries survives, rounded to nearest with halves to even, at least one and at most all; each is within half a scale step, every other entry is zero, and nothing kept is smaller than anything dropped; the shape is the stored one |
| DeltaCodec.ResidualExact | neurahash/delta_codec.py:236-253 | decoded plus residual is the original delta, entry by entry, in the stored shape |
| DeltaCodec.EncodeFailsExactly | neurahash/delta_codec.py:226-236 | compression fails exactly when some tensor keeps an index at or past 2^31 |
| LedgerState.State.Copy | neura_l1/block_state.py:487-507 | a copy has the same value and shares no unbonding list with the original |
| LedgerState.State.SeizeFunds | neura_l1/block_state.py:799-833 | the in-place seizure does what the value operation does, and returns the coins taken |
| LedgerState.State.MatureUnbonding | neura_l1/block_state.py:835-849 | the in-place maturing loop does what the value operation does |
| LedgerState.State.ApplyTx | neura_l1/block_state.py:573-670 | every transaction kind, in place: same new state, same errors, and no change on error, as the value operation |
| LedgerState.State.ApplySlashTx | neura_l1/block_state.py:672-790 | both kinds of slash, in place, as the value operation |
| LedgerState.State.FoldInto | neura_l1/block_state.py:860-904 | the retarget bookkeeping of one block, in place, as the integer fold |
| LedgerState.State.ApplyBlock | neura_l1/block_state.py:907-995 | a block yields a new state equal to the value operation's, sharing nothing with the parent, and alters nothing that existed |
| LedgerSafety.SeizeExact | neura_l1/block_state.py:799-833 | seizure takes exactly the smaller of what is asked and what is at risk, from that address only |
| LedgerSafety.SeizeOldestFirst | neura_l1/block_state.py:799-833 | active stake is taken before the queue is touched, and the queue in order of release: what is left is its youngest part, whole but for its oldest entry |
| LedgerSafety.MatureExact | neura_l1/block_state.py:835-849 | maturing moves exactly the due entries to the liquid balances and conserves coins |
| LedgerSafety.EntryStaysSlashable | neura_l1/block_state.py:835-849 | over every run below its release height an unbonding entry stays in the slashable queue, unless some transaction slashes that address for a fault not punished before the run |
| LedgerSafety.SlashBurnsAtRisk | neura_l1/block_state.py:672-790 | a slash leaves nothing at risk; the coins are all in the treasury and the reporter's bounty, at least nine tenths in the treasury |
| LedgerSafety.RewardSound | neura_l1/block_state.py:965-986 | the mint is the clamped reward, paid out in full, only to positive weights, and never passes the cap |
| LedgerSafety.MintExactly | neura_l1/block_state.py:965-986 | a block with some positive weight mints its reward, clamped below by zero and above by what the cap leaves; any other mints nothing |
| LedgerSafety.RewardProportional | neura_l1/block_state.py:965-986 | each account is paid in proportion to its positive weight |
| LedgerSafety.BlockAppliesExactly | neura_l1/block_state.py:907-995 | a block applies exactly when its header commits its transactions, they apply in turn to the matured ledger, and no weight is negative; it then carries the header's checkpoint |
| LedgerSafety.BlockLeavesNoneDue | neura_l1/block_state.py:835-849 | after a block nothing unbonding is due at or below its height |
| LedgerSafety.RunConserves | neura_l1/block_state.py:907-995 | over every run of blocks with arbitrary headers: coins minus minted are constant, minted is monotone and at most the cap, nothing goes negative |
| LedgerSafety.GenesisRunConserves | neura_l1/block_state.py:907-995 | from genesis, liquid plus staked plus unbonding plus treasury is exactly what was minted |
| LedgerSafety.RunFoldsRetarget | neura_l1/block_state.py:860-904 | the retarget state of a run of blocks is the fold of its headers, and never moves where retargeting is off |
| LedgerSafety.LedgerRetargetBounded | neura_l1/block_state.py:860-904 | over every run of blocks the work floor stays between one and its cap and the average between the extremes of its start and the works of the blocks |
| LedgerSafety.LedgerFloorFollowsWorkDown | neura_l1/block_state.py:887-903 | a run of blocks of work at most s, long enough and ending on an epoch boundary, leaves the average at most s and the floor at most three quarters of s, or one |
| LedgerAuthority.AppliesExactly | neura_l1/block_state.py:573-670 | exactly when a transaction of each kind applies: its amount, nonce, own signature where required, and what the sender holds; for a slash, evidence that convicts |
| LedgerAuthority.SpendNeedsOwnKey | neura_l1/block_state.py:604-622 | where signatures are required, only a signature recovering to the sender's registered key applies |
| LedgerAuthority.TxMovesExactly | neura_l1/block_state.py:623-670 | every account's balance, stake, queue and nonce after a transaction; unstaked coins are released five heights on |
| LedgerAuthority.SlashExactly | neura_l1/block_state.py:672-790 | a slash takes everything the convicted account has at risk, once per fault, a tenth of it to a reporter whose own key signed and the rest to the treasury, and touches nobody else |
| LedgerAuthority.SilentAccountKeeps | neura_l1/block_state.py:573-670 | over every run on a chain with signatures an account whose key signs nothing loses no liquid coin and spends no nonce, and, unless it is slashed for a new fault, no staked or unbonding coin either |
| LedgerUpgrade.LockInExactly | neura_l1/block_state.py:949-963 | an upgrade locks in at a block exactly when the supermajority has then held for the full window |
| LedgerUpgrade.ActivationExactly | neura_l1/block_state.py:541-553 | the version changes only by one, exactly at the pending height, the delay after a block that completed a window of supermajority blocks |
| LedgerUpgrade.ActivationsSpaced | neura_l1/block_state.py:949-963 | two activations of a run are at least window plus delay heights apart |
| LedgerDigest.DigestMeansSimilar | neura_l1/block_state.py:998-1033 | under one policy two states have the same digest exactly when they differ at most in the order inside unbonding queues |
| LedgerDigest.BlockCongruent | neura_l1/block_state.py:907-995 | such states step under any block to such states, or fail with the same error |
| LedgerDigest.DigestIsCongruence | neura_l1/block_state.py:998-1033 | states with equal digests still have equal digests after any common run of blocks |
| Retarget.RunStaysBounded | neura_l1/block_state.py:860-904 | over every sequence of samples the floor stays between one and its cap and the average between the extremes of its seed and samples |
| Retarget.ScaledFloorWithinFactor | neura_l1/block_state.py:892-898 | one epoch moves the floor by at most a factor four either way, before the caps |
| Retarget.ScaledFloorAntitone | neura_l1/block_state.py:892-898 | the next floor does not increase with the elapsed time |
| Retarget.ScaledFloorExactly | neura_l1/block_state.py:892-898 | before the caps the floor is scaled by the target span over the elapsed time, rounded down, with a factor of exactly four at and beyond either clamp |
| Retarget.NextFloorExactly | neura_l1/block_state.py:898-901 | that floor is then kept from one up to its cap and to three quarters of the average, and is moved no further than that |
| Retarget.RingIsLast | neura_l1/block_state.py:881-883 | the ring is the last eleven timestamps seen |
| Retarget.EwmaFalls | neura_l1/block_state.py:885-889 | while samples are at most s the average falls by at least one a block until it is at most s |
| Retarget.FloorFollowsWorkDown | neura_l1/block_state.py:887-903 | once work has been at most s for average minus s blocks the next boundary floor is at most three quarters of s, or one |
| Retarget.MajorityForcesMedian | neura_l1/block_state.py:881-884 | a majority of the ring in an interval forces the median into it |
| Retarget.MedianIsMiddle | neura_l1/block_state.py:881-884 | the median is a timestamp of the ring with at most half of it before and less than half after |
| Merkle.MerkleRoot | neurahash/merkle_verify.py:61-69 | the level-by-level loop computes the recursive root |
| Merkle.MerkleProof | neurahash/merkle_verify.py:72-81 | the sibling-collecting loop computes the recursive proof |
| Merkle.MerkleVerify | neurahash/merkle_verify.py:84-88 | accepts exactly when the leaf rolls up to the root |
| Merkle.ProofComplete | neurahash/merkle_verify.py:61-88 | for every leaf count, odd levels included, the prover's proof takes the leaf to the root |
| Merkle.OwnProofBinds | neurahash/merkle_verify.py:61-88 | against the prover's proof of a position exactly the committed digest verifies |
| Merkle.RootInjective | neurahash/merkle_verify.py:61-69 | for a fixed leaf count the root determines every leaf |
| Merkle.ReachableExactly | neurahash/merkle_verify.py:84-88 | some proof takes an atom to the root exactly when it is one of the leaves, for every leaf count |
| Merkle.PerfectSound | neurahash/merkle_verify.py:84-88 | on a perfect tree any accepted proof, of any length, is the true proof of a position holding that leaf |
| Merkle.ProofSurvivesUpdate | neura_l1/expert_sharding.py:112-119 | on a perfect tree changing a leaf leaves its own proof unchanged |
| Merkle.ReuseNeedsPadding | neura_l1/expert_sharding.py:112-119 | in a three-leaf tree the old proof of the last leaf never takes a changed leaf to the changed root |
| Sharding.PadPow2 | neura_l1/expert_sharding.py:112-124 | the doubling loop pads to the least power of two with the sentinel |
| Sharding.CheckpointBinds | neura_l1/expert_sharding.py:88-130 | two models have one checkpoint exactly when their whole shared groups are equal and so is every expert |
| Sharding.VerifyExpertTransition | neura_l1/expert_sharding.py:155-186 | accepts exactly when both leaves roll up along one decodable proof within the length cap |
| Sharding.TransitionExactly | neura_l1/expert_sharding.py:174-186 | against a true parent root it accepts exactly: the committed old leaf, the checkpoint with that one group replaced, and the tree's own siblings |
| Sharding.TransitionComplete | neura_l1/expert_sharding.py:138-186 | the honest proof has logarithmic length and is accepted for every expert count within the cap |
| Sharding.Model.AddExpert | neurahash/model.py:92-101 | adds the expert and router column its seed dictates, in place; without a seed it is the growth step of the next index |
| Sharding.SeededEntries | neurahash/model.py:85-101 | every entry of a grown expert and its router column, as a place in the one stream of its seed; biases are zero |
| Sharding.GrowExperts | neura_l1/expert_sharding.py:206-247 | refuses exactly to shrink, or to grow a view without experts when no dimensions are given; otherwise equals adding the experts one at a time, with the given dimensions or those of a held expert |
| Sharding.GrownExactly | neura_l1/expert_sharding.py:218-247 | growth in closed form: old experts and router columns carried through, each new one a function of its index and the dimensions |
| Sharding.GrowthComposes | neura_l1/expert_sharding.py:218-247 | growing in two stages is growing once |
| Sharding.VerifyMigrationRoot | neura_l1/expert_sharding.py:259-295 | accepts exactly when the published leaves have the protocol count, decode, root to the parent, and the derived leaves root to the new root |
| Sharding.MigrationForced | neura_l1/expert_sharding.py:259-295 | against a true parent root a holder who grew its own view accepts exactly the true old leaves and the checkpoint of the grown model |
| Sharding.MigrationExactly | neura_l1/expert_sharding.py:259-295 | for a holder of any view, a migration verifies against a true parent and the checkpoint of a model exactly when that model has the view's whole shared group, the parent's experts and the view's new ones, and the published leaves are the parent's |
| Challenge.OneStep | neurahash/merkle_verify.py:91-110 | the in-place update of the trainable keys is the step function, and touches nothing else |
| Challenge.StepEntry | neurahash/merkle_verify.py:91-110 | a step takes the learning rate times the gradient, at the state before it, from every entry of every trainable parameter |
| Challenge.MerkleWorker.Train | neurahash/merkle_verify.py:125-143 | states, leaves and submission of a worker with any skip point |
| Challenge.IndexExactly | neurahash/merkle_verify.py:43-54 | each challenged step lies in 1..H and is one more than the hash of root, data, beacon and its number, modulo H |
| Challenge.AnyTwoVectors | neurahash/merkle_verify.py:43-54 | nothing hashed can be left out: on any two different commitments, data sets or beacons the hash may lead to any two vectors of steps |
| Challenge.MerkleCheck | neurahash/merkle_verify.py:152-214 | asks any prover, adaptive ones included, in the source's order, and computes the checks: a missing state, key or proof raises, and so do challenges over zero steps |
| Challenge.CheckAcceptsExactly | neurahash/merkle_verify.py:152-214 | a prover is accepted exactly when the header fits, the committed final state explains the delta, and every challenged step shows a committed state whose recomputed successor is committed |
| Challenge.AnswerableExactly | neurahash/merkle_verify.py:206-213 | with free choice of proofs a state answers a challenge exactly when the tree commits it and its recomputed successor, at whatever positions |
| Challenge.PassableExactly | neurahash/merkle_verify.py:152-214 | over all provers, adaptive ones included: the check can be passed on a commitment exactly when its header fits, a committed state explains the delta, and, if anything is challenged, some state and its recomputed successor are committed |
| Challenge.RevealedPartSuffices | neurahash/merkle_verify.py:178-186 | the verifier's own frozen parameters plus the trainable part of a revealed state are the whole state |
| Challenge.RecomputeExactly | neurahash/merkle_verify.py:178-186 | in expert mode a worker's step is recomputed from the trainable part of what it reveals; otherwise from the very state, whatever the verifier's copy |
| Challenge.WorkerPassesExactly | neurahash/merkle_verify.py:113-214 | a worker with any skip point, answering with its own states and proofs, is accepted exactly when every challenged step is consistent on the keys |
| Challenge.LazyBadSteps | neurahash/merkle_verify.py:133-136 | a lazy worker's bad steps are exactly the skipped ones, or none if training had come to rest |
| Challenge.LazyVerdict | neurahash/merkle_verify.py:152-214 | a lazy worker still moving where it stopped is never met with an exception, and refused exactly when some challenge asks for a step past that point |
| Challenge.LazyIsCatchable | neurahash/merkle_verify.py:43-54 | however few the challenges and however late it stopped, some challenge hash has it refused |
| Challenge.SurvivedCount | neurahash/merkle_verify.py:43-54 | of the H^n challenge vectors exactly (H - b)^n miss b bad steps |
| Challenge.DetectionIsExact | neurahash/merkle_verify.py:217-219 | the documented probability is the exact fraction of challenge vectors that catch a lazy worker which answers with its own states and proofs |
| Challenge.OneRealStepPasses | neurahash/merkle_verify.py:13-17 | where the documented detection fails: a worker that takes its first step and skips any number after it has a submission some prover passes, for every shard, beacon and number of challenges |
| Quorum.GuardianSet.DistinctSigners | neurahash/guardian_halt.py:58-70 | the loop returns the set of members with a recovering signature |
| Quorum.SignersExactly | neurahash/guardian_halt.py:58-70 | an address counts exactly when it is a member and some signature recovers to it |
| Quorum.SigningIsGenuine | neurahash/diloco_settlement.py:97-105 | the signatures of those who signed are genuine and count exactly the members among them |
| Quorum.StakeWeightMap | neurahash/diloco_settlement.py:153-166 | the accumulating loop builds the weight table |
| Quorum.WeightsConserveStake | neurahash/diloco_settlement.py:153-166 | the weights cover the roster, are non-negative, and sum to the clamped stake, nothing lost or counted twice |
| Quorum.WeightIsOwnStake | neurahash/diloco_settlement.py:153-166 | every address weighs the sum of its own positive rows |
| Quorum.CollectSignatures | neurahash/diloco_settlement.py:179-240 | empty roster and non-majority threshold are errors; otherwise approved by head count or by strict majority of stake |
| Quorum.ApprovalExactly | neurahash/diloco_settlement.py:179-240 | the errors and the verdict read off the inputs: who is recovered, how many heads, by default more than half, or more than half of a positive stake |
| Quorum.Round12Nearest | neurahash/diloco_settlement.py:84 | a signed amount is the nearest whole number of units of the twelfth place |
| Quorum.ApprovedDecisionsIntersect | neurahash/diloco_settlement.py:207-240 | the signatures of two approved decisions recover to a common set of at least 2m - N members, at least one, or to a common member of positive stake; where the signatures are genuine, that set signed both |
| Quorum.NoAuthorityWithoutSigners | neurahash/diloco_settlement.py:207-240 | a decision too few members signed is never approved by genuine signatures |
| Clock.AgreeRound | neurahash/diloco_clock.py:182-250 | the loops compute the agreement folds, dispute buckets included; a round outside 64 bits is refused |
| Clock.SameSetsAgree | neurahash/diloco_clock.py:182-250 | permuting or repeating commits and reveals changes nothing but the rejected bucket |
| Clock.OrderExactly | neurahash/diloco_clock.py:172-179 | the order lists once each exactly the signers that committed once and opened that commit |
| Clock.OrderAscends | neurahash/diloco_clock.py:166-179 | the order ascends by the order key under the agreed seed, equal keys by address |
| Clock.SeedExactly | neurahash/diloco_clock.py:150-163 | the seed is the hash of the round and of the list, by ascending signer, that holds a signer with a nonce exactly when it committed once to that nonce and opened it |
| Clock.SeedsEqualExactly | neurahash/diloco_clock.py:150-163 | where the hash tells lists apart, two agreements have one seed exactly when their rounds and disclosed nonces are the same |
| Clock.BucketsExactly | neurahash/diloco_clock.py:202-244 | who is unsolicited and who spoke of another round |
| Clock.EveryCommitterAccounted | neurahash/diloco_clock.py:202-240 | every committer is exactly one of valid, missing, equivocator |
| Clock.RejectedExactly | neurahash/diloco_clock.py:222-239 | a signer is in the rejected bucket exactly when it committed once and one of its wrong reveals stands before all its good ones |
| Clock.ArrivalIrrelevantExactly | neurahash/diloco_clock.py:222-239 | the rejected bucket is the same for every order and repetition of the reveals exactly when no committed signer showed both a good and a wrong one |
| Clock.RejectedDependsOnArrival | neurahash/diloco_clock.py:222-239 | two arrival orders of one good and one bad reveal give different rejected buckets |
| Settlement.VerifyBlockQuorum | neurahash/chain_settlement.py:45-92 | accepts exactly a quorum bound to the header that approves the block's own recipient, amount and height under a pinned roster |
| Settlement.DecisionExactly | neurahash/chain_settlement.py:75-92 | the decision is the block's height, delta, sole contributor if there is one, and reward to the twelfth place |
| Settlement.ReplayBlocks | neurahash/chain_settlement.py:95-133 | the replay loop computes the recursive replay, with its first failure |
| Settlement.ReplaysExactly | neurahash/chain_settlement.py:95-133 | a list of records replays exactly when each names the hash before it, is signed by the coordinator, has no transactions and no negative weight, and carries the enforced quorum |
| Settlement.PrefixReplays | neurahash/chain_settlement.py:337-343 | every prefix of a verifying chain verifies |
| Settlement.MintedAlongPrefixes | neurahash/chain_settlement.py:114-133 | minted is monotone along prefixes and within the cap |
| Settlement.EnforcedReplaysPlainly | neurahash/chain_settlement.py:106-111 | enforcement only turns blocks away; what it accepts is the same chain with the same ledger, each block with a valid quorum |
| Settlement.SettleSucceeds | neurahash/chain_settlement.py:159-193 | settling never fails for a signing coordinator and keeps the chain in sync with replay |
| Settlement.SettledExactly | neurahash/chain_settlement.py:159-193 | what a settled block says, and pays: the pot, within zero and the cap, in proportion to the positive weights |
| Settlement.ExtendsExactly | neurahash/diloco_round_authority.py:375-390 | a live chain takes a record exactly when it links to the head, is signed by the coordinator, and has no transactions and no negative weight |
| Settlement.SaveRestore | neurahash/chain_settlement.py:259-313 | saving fails exactly when a key is asked of a verify-only chain; otherwise restoring gives the chain back, able to sign exactly when a key is at hand |
| Settlement.RestoresExactly | neurahash/chain_settlement.py:282-313 | a saved chain is restored exactly when a key or address says whose it is, they agree, and the blocks are well linked under it; it signs exactly with a key, the supplied one first |
| Settlement.PaidExactly | neurahash/chain_settlement.py:206-218 | over every run a delta is marked as paid exactly when it was at the start or was marked since |
| Settlement.RunStaysInSync | neurahash/chain_settlement.py:221-245 | after any mix of settling, accepting, marking and restarting, replay from genesis yields the live ledger and head |
| Settlement.MintQuorumsIntersect | neurahash/chain_settlement.py:124-127 | the quorums of any two blocks of any two chains accepted under one pinned roster recover to a substantial common part of it, which signed both decisions where they are genuine |
| Settlement.OneDecisionPerHeight | neurahash/chain_settlement.py:45-92 | if no validator signs two decisions for a height, one height has one recipient and one amount over all chains with genuine quorums there |
| Settlement.ConflictConvicts | neurahash/chain_settlement.py:45-92 | with nothing assumed of signatures: two different decisions accepted for one height convict a substantial part of the roster, each member by a signature recovering to it in either quorum |
| Settlement.SignedRecipientPaid | neurahash/chain_settlement.py:75-92 | a decision that names a recipient pays it the block's whole mint and nobody else anything |
| Settlement.ContributorsRewritten | neurahash/chain_settlement.py:114-133 | another contributor table is accepted under the same header exactly when it has no negative weight and, if enforced, the quorum covers it |
| Settlement.BindingNeedsEnforcement | neurahash/chain_settlement.py:174-180 | with the coordinator's signature alone any other sole contributor is accepted and paid |
| Settlement.SplitIsNotBound | neurahash/chain_settlement.py:75-76 | a quorum over several contributors does not bind the split |
| SettlementState.ChainSettlement.Settle | neurahash/chain_settlement.py:159-193 | the live chain after settling, and what each contributor was credited |
| SettlementState.ChainSettlement.Extend | neurahash/diloco_round_authority.py:375-390 | links, signature and application of a peer's block; nothing changes on refusal |
| SettlementState.ChainSettlement.Verify | neurahash/chain_settlement.py:231-245 | true exactly when replay succeeds within tolerance of the live state, hence always on a chain in sync |
| SettlementState.ChainSettlement.FromState | neurahash/chain_settlement.py:282-313 | restores exactly what replays under the saved or supplied identity, and refuses the rest |
| SettlementState.VerifyPublicChain | neurahash/chain_settlement.py:316-364 | replays against the pinned address when there is one, and reports the replayed balances, mint and height |
| RoundAuthority.FindProposer | neurahash/diloco_round_authority.py:218-227 | the loop returns the first signer that is not down |
| RoundAuthority.ElectedIsFirstUp | neurahash/diloco_round_authority.py:218-227 | the elected signer is up, everyone before it is down, and there is none exactly when all are |
| RoundAuthority.VerifyTimeoutQuorum | neurahash/diloco_round_authority.py:180-214 | approved exactly when the threshold is a strict majority and enough distinct roster members signed; fails closed |
| RoundAuthority.AcceptsExactly | neurahash/diloco_round_authority.py:317-390 | an envelope is accepted exactly when its proposer's own key signed the claim to that very block and round, it may be the proposer's turn, and the block extends the chain |
| RoundAuthority.NoTakeoverWithoutMajority | neurahash/diloco_round_authority.py:317-390 | an accepted envelope of view v carries, for every earlier view, signatures recovering to a strict majority on its timeout in that round; where they are genuine that majority signed it |
| RoundAuthority.DifferentViewsNeedTimeout | neurahash/diloco_round_authority.py:317-390 | of two accepted envelopes with different proposers, the one of the later view shows a majority timeout of the earlier view |
| RoundAuthority.WalkCompletesExactly | neurahash/diloco_round_authority.py:518-554 | the view walk finds a proposer exactly when someone is up and either the first is or enough candidates are up to vote |
| RoundAuthority.TurnIsFirstUp | neurahash/diloco_round_authority.py:518-554 | either failover elects the first signer that is up, and the proof it carries is accepted by every peer |
| RoundAuthority.RoundKeepsAgreement | neurahash/diloco_round_authority.py:463-572 | a round either stops before any block exists or leaves all replicas equal, one block longer, at that height |
| RoundAuthority.BuiltQuorumExactly | neurahash/diloco_round_authority.py:429-436 | a round's quorum exists exactly for a strict majority of the distinct validators, and approves the round's payment exactly when the first of them are all distinct |
| RoundAuthority.RoundBlockVerifies | neurahash/diloco_round_authority.py:429-436 | the block of a completed round passes enforced verification against the validators, given distinct first ones and a reward not rounded below zero |
| RoundAuthority.SameAmount | neurahash/diloco_round_authority.py:463-516 | the amount signed is the amount in the header exactly when the reward is not rounded below zero |
| RoundAuthority.RunNeverForks | neurahash/diloco_round_authority.py:582-588 | over every completed run all replicas have equal blocks, heads and ledgers, one block per round at the round's height |
| RoundAuthority.RoundCompletesExactly | neurahash/diloco_round_authority.py:463-572 | exactly when a round completes |
| RoundAuthority.HonestOrder | neurahash/diloco_round_authority.py:438-461 | without injected envelopes the agreed order is exactly the candidates |
| RoundAuthority.DefaultThresholdLiveness | neurahash/diloco_round_authority.py:60-64 | with the default threshold a round completes exactly when the first candidate or a strict majority is up; two candidates have no failover |
| RoundAuthorityState.Candidate.Propose | neurahash/diloco_round_authority.py:295-314 | settles on its own replica and broadcasts the signed envelope |
| RoundAuthorityState.Candidate.Accept | neurahash/diloco_round_authority.py:317-390 | takes exactly the envelopes the acceptance rule allows; a refused one changes nothing |
| RoundAuthorityState.RoundAuthority.Create | neurahash/diloco_round_authority.py:407-423 | refuses exactly fewer than two candidates; otherwise the authority over them with the given parameters, an empty bus and by default a strict-majority timeout threshold |
| RoundAuthorityState.RoundAuthority.BeginRound | neurahash/diloco_round_authority.py:438-461 | every candidate reaches the one agreement over the shared bus, exactly when the round fits 64 bits |
| RoundAuthorityState.RoundAuthority.WalkViews | neurahash/diloco_round_authority.py:527-554 | the while loop computes the walk, one grace period per stalled view |
| RoundAuthorityState.RoundAuthority.FinishRound | neurahash/diloco_round_authority.py:463-572 | drives all replica objects to the values of the round, or leaves them all alone |
| RoundAuthorityState.RoundAuthority.Run | neurahash/diloco_round_authority.py:582-588 | consecutive rounds over the objects are the run of the plans over the values, and every outcome leaves the replicas in agreement |
| RoundAuthorityState.RunPlansIsRun | neurahash/diloco_round_authority.py:582-588 | that run is the run of the agreed orders to which the fork-freedom results apply |
| Merge.ApplyDeltaGated | neurahash/diloco_merge.py:447-485 | strict gate on the held-out loss; the trunk moves exactly on acceptance with apply |
| Merge.MovedExactly | neurahash/diloco_merge.py:460-471 | on the keys a delta has in the trunk's size each entry moves by outer times its own; every other tensor stays |
| Merge.GateExactly | neurahash/diloco_merge.py:447-485 | accepted exactly when some key is usable and the loss falls by more than the margin; the counts and losses reported |
| Merge.GateAsDocumentedExactly | neurahash/diloco_merge.py:456-481 | the gate decides as the documented rule exactly when the merged loss is not base minus margin, or, with no matching key, when the margin is positive |
| Merge.ZeroDeltaRejected | neurahash/diloco_merge.py:474-481 | a delta of zeros at margin zero is rejected where the documented rule accepts |
| Merge.ApplyDeltasWeightedGated | neurahash/diloco_merge.py:529-656 | the batch in place: probes, combined merge, serial fallback; the trunk changes exactly on acceptance with apply |
| Merge.BatchDecidesExactly | neurahash/diloco_merge.py:584-656 | a batch is rejected when nobody gains, combined when somebody does and the combination takes at least the margin off the loss, and falls back otherwise |
| Merge.CombinedAt | neurahash/diloco_merge.py:604-617 | each entry of the combined trunk moves by outer times the weighted sum of the positive matching deltas |
| Merge.WeightsSumToOne | neurahash/diloco_merge.py:604-606 | the weights of the positive candidates sum to one |
| Merge.WeightsProportional | neurahash/diloco_merge.py:604-606 | positive gains are weighted in proportion, others not at all |
| Merge.OrderExactly | neurahash/diloco_merge.py:635-636 | the fallback tries each positive candidate once, by non-increasing gain |
| Merge.TiesByName | neurahash/diloco_merge.py:635-636 | equal gains take their turns by name, in alphabetical order, equal names as they were given |
| Merge.SerialTurn | neurahash/diloco_merge.py:635-656 | each turn of the fallback, on the trunk the earlier ones left: taken exactly when that loss falls by more than the margin |
| Merge.BatchConservesGain | neurahash/diloco_merge.py:529-656 | an accepted batch attributes exactly the loss it removed, at least the margin when that is not negative, and leaves a trunk of the reported loss; a rejected one leaves the trunk |
| Merge.FallbackExactly | neurahash/diloco_merge.py:635-656 | the fallback takes something exactly when some candidate alone beats the margin, and then ends at least as low as each alone |
| Merge.OneAsManyExactly | neurahash/diloco_merge.py:557-582 | a batch of one is decided as the combined path would decide it exactly unless its gain meets a positive margin exactly or is no gain yet beats a negative one |
| Streaming.NumFragments | neurahash/diloco_merge.py:1046-1051 | at least one fragment, within a half of the inverse fraction |
| Streaming.ScatterCompact | neurahash/diloco_merge.py:1070-1094 | extracting and reconstructing a fragment is masking |
| Streaming.CompactScatter | neurahash/diloco_merge.py:1070-1094 | reconstructing loses nothing of a compact fragment |
| Streaming.OuterState.OuterAggregateMasked | neurahash/diloco_merge.py:1097-1121 | the in-place loop is the masked heavy-ball step |
| Streaming.MaskedStepExactly | neurahash/diloco_merge.py:1097-1121 | where the mask allows, momentum becomes beta times itself plus the average over the deltas that carry the key, and the element moves by the rate times that; elsewhere nothing changes |
| Streaming.RoundAt | neurahash/diloco_merge.py:1097-1121 | an element outside the round's fragment does not move, one inside takes the full step |
| Streaming.CycleIsFullStep | neurahash/diloco_merge.py:1023-1027 | any K consecutive rounds are one full outer step, parameters and momentum, of the deltas with zeros for the keys they lack |
| Streaming.FullSyncExactly | neurahash/diloco_merge.py:1023-1027 | a cycle is the ordinary full step exactly when each trunk key is carried by every delta, or by some whose entries cancel, or by none while its momentum is at rest |
| Streaming.FullSyncIfAllPresent | neurahash/diloco_merge.py:1054-1121 | in particular when every delta carries every key |
| Streaming.MissingKeyHalvesTheStep | neurahash/diloco_merge.py:1054-1121 | with two contributors, one lacking the key, the cycle moves by half of what the ordinary step does |
| SafeCodec.EncodeValue | neurahash/safe_codec.py:48-67 | the encoder over the shared buffer list computes the recursive encoding, with its errors |
| SafeCodec.EncodesExactly | neurahash/safe_codec.py:48-67 | encoding fails on nothing but containers as scalars, arrays of other dtypes and models without a parameter dict |
| SafeCodec.DecodeNode | neurahash/safe_codec.py:85-135 | the decoder over the shared counters computes the recursive decoding, with its errors |
| SafeCodec.EncodeMsg | neurahash/safe_codec.py:70-81 | the framed, optionally authenticated message |
| SafeCodec.FrameLayout | neurahash/safe_codec.py:70-81 | a frame is four bytes of length and the text, then eight bytes of length and the content per buffer |
| SafeCodec.SplitLosesNothing | neurahash/safe_codec.py:155-162 | whatever bytes are split were the framing of the buffers that come out, but for fewer than eight left over |
| SafeCodec.DecodeMsg | neurahash/safe_codec.py:138-166 | authenticate, split, decode, on every input |
| SafeCodec.NodeArrives | neurahash/safe_codec.py:48-135 | decoding an encoded value, at any depth and charge, gives what arrives when it fits the caps and an error when it does not |
| SafeCodec.ArrivesUnchanged | neurahash/safe_codec.py:52-54 | a value arrives unchanged exactly when every array in it has a dimension |
| SafeCodec.EncPrintable | neurahash/safe_codec.py:48-67 | what encoding writes is always a document without repeated keys, which `json` reads back |
| SafeCodec.MessageArrives | neurahash/safe_codec.py:70-166 | round trip of whole messages, with or without a key, exactly within the caps |
| PlainWire.FaithfulWireExists | neurahash/safe_codec.py:70-81 | there is a document encoding that meets what the round trip assumes |
| SafeCodec.DecodedWithinBudget | neurahash/safe_codec.py:85-135 | from any depth and charge, a decoded value lies within depth, node and element caps and was charged in full, buffers used many times included |
| SafeCodec.MessageWithinCaps | neurahash/safe_codec.py:138-166 | whatever bytes arrive, with or without a key, what they decode to lies within the node, element and depth caps |
| SafeCodec.DecodedSane | neurahash/safe_codec.py:85-135 | whatever arrives, a decoded array is whole elements of an allowed dtype, as many as its shape says, out of a buffer of the frame, and a model is in range and within the cap, biases aside |
| SafeCodec.EstimateMissesBiases | neurahash/safe_codec.py:41-44 | the size a model is admitted by is that of all its parameters but the biases of router and output |
| SafeCodec.OnlyAuthenticFramesDecode | neurahash/safe_codec.py:138-145 | with a key, only a frame that carries that key's code over its whole content is looked into |
| SafeCodec.NodeBudgetExactly | neurahash/safe_codec.py:88-95 | the node charge counts every decoded object exactly when no payload of the frame is a container with content |
| SafeCodec.PayloadsAreNotCounted | neurahash/safe_codec.py:94-95 | a frame within budget whose decoded value has more objects than the node cap |

## Left out

- IEEE rounding of coins, losses and tensor entries: amounts are exact reals, so identities hold exactly rather than
  up to rounding; infinities and NaN are outside the model.
- Signatures, hashes, HMAC and the JSON and DEFLATE texts: abstract functions or injective containers, as described
  above. Concatenation without length prefixes inside a leaf hash counts as injective.
- The signature-scheme tags, key registration and the serialization of `State`, `Block` and `Tx`.
- The beacon field of a header, which is a function of the previous hash.
- Dimensions of arrays in `Merge` and `Streaming`: a tensor is its flat entries, and equal shape is equal length.
- The delta norm reported by the merge gate, and the reports, logs and reason strings that only describe a verdict.
- 2^32 or more challenges in one check; in the challenge, arrays of different shapes that broadcast in NumPy.
- Arrival timing of commits and reveals, the networked transport, file persistence and key encryption.
- Guardian halt orders, the committee, pool-sequencing and incentive modules: they repeat the counting arguments here.
- Settlement.OneDecisionPerHeight: amounts are compared as signed, rounded to twelve places.
- Clock.SameSetsAgree: the seed is taken over the one nonce kept per signer, as the round agreement uses it; seeds over
  arbitrary reveal lists with several nonces per signer are not modelled.
- SafeCodec.MessageArrives: of the JSON text only its round trip on documents without repeated keys is assumed; numbers
  in a document are integers or binary64 patterns with all NaNs alike. An empty buffer decodes to an empty array, as in
  current NumPy.
- SafeCodec.DecodeMsg: the dimension limit is the 64 of NumPy 2 (32 before it); Python's limit of 4300 digits on
  integers and its recursion limit, at which `json.loads` raises, are not modelled.
- DeltaCodec.DecompressDelta: payloads with a negative `nnz`, with signed gap arrays, whose negative indices wrap in
  NumPy, or with arrays missing other than at the end cannot be expressed.
- LedgerSafety.EntryStaysSlashable: a slash of that very address for a fault still unpunished is exempt, since it takes
  the entry (`SlashBurnsAtRisk`).
- Sharding.GrowExperts: an expert held only in part, and dimensions read off a matrix without rows, are not modelled.
- RoundAuthorityState.RoundAuthority.Run: nonces are given per round and must be hex, which is what the candidates
  themselves draw.
- Guards on memory and chunking that do not change results (`_CHUNK`) are parameters; temporary allocations are not
  modelled.
