# EdgeGrid, verified

A Dafny model of the five parts of EdgeGrid that move money or vouch for bytes, with
proofs of what they promise. `dafny verify dfyconfig.toml` checks the whole project.

**Settlement ledger** (`LedgerModel`, `Ledger`, `Ledger*`). The escrow, stake, unbonding
and slashing state machine of `edgegrid/ledger.py`, in integer wei with a clock in
milliseconds. `LedgerModel` gives every operation as a function from a state to the next
state and the error raised; the class `Ledger` works on fields as the code does and is
proved to compute those functions. `LedgerGuards` and `LedgerEffects` say of every call,
in the entries of the maps alone, when it is refused and what it leaves at every account
and job. The other theorems are about every run of calls, rejected ones included: value is
conserved in total and for each account, every job settles once and by a call entitled to
settle it, collateral stays within reach of a challenge, and every reachable ledger can be
emptied.

**Content identifiers** (`Varint`, `Base58`, `Base32`, `DagPb`, `DagWire`, `DagSizes`,
`DagBuilder`, `CidBinding`, `CidShape`). The serialiser of `edgegrid/weights.py` with a
reader of its blocks, the streaming 174-ary UnixFS builder, and what `verify_cid` vouches for. Varints are the "Base 128
Varints" of the Protocol Buffers encoding guide; base32 is section 6 of RFC 4648.

**Weight cache** (`CacheModel`, `CacheRefinement`, `CacheCounters`, `WeightCache`). The byte-budget LRU
cache of the same file. Each section run under the file lock is one atomic step, so the
interleavings of processes are the sequences of steps.

**Merkle tree and blob store** (`MerkleTree`, `MerkleShape`, `MerkleProof`, `BlobStore`,
`BlobEntries`, `BlobHistory`, `BlobFate`, `BlobClash`, `DALayer`). Roots, proofs and the store of `edgegrid/da.py`, with
what becomes of a sealed blob when ids clash. The prefixes 0x00 and 0x01 are those of
section 2.1 of RFC 6962; the tree shape, which joins an odd tail with itself, is not.

**Auction** (`AuctionModel`, `AuctionSpec`, `AuctionOrder`, `AuctionRules`, `AuctionIncentives`,
`AuctionCritical`). The reverse second-price auction of `edgegrid/market.py`, with real
prices and the rounding to twelve decimals that ranking depends on.

**Gateway settlement** (`GatewayModel`, `GatewayRulings`, `GatewayBooks`, `GatewayDrift`,
`GatewayReplay`, `GatewayOverlap`, `LocalGrid`). Settlement, reversal and re-settlement of `gateway/grid.py`, with audits split
where the code waits for its judge, so that audits of one job can overlap.

SHA-256 is a parameter, a function from bytes to 32 bytes. Nothing assumes that it has no
collisions, which would be false: a binding theorem says that two things are equal or
that a collision exists between two explicitly given finite sets of hashed strings, those
that the two computations hash. Only claims about blob ids, which cut a hash in half, are
about runs whose strings do not collide.

## Findings

Some properties that the code or its comments suggest are not true of the code. Each is
stated with the exact condition under which it holds.

- **Unbonding as long as the window is one millisecond short.** `release` and the
  challenges are both open at the deadline itself, and so is `claim_unstake` when the
  unbonding period equals the window, which is the default. Collateral is out of reach
  of some open challenge exactly when the period is not longer than the window
  (`EscapesExactlyWhen`, and `EqualPeriodsEscape` for the defaults); strictly before the
  deadline an equal period is enough (`CollateralCannotEscape`).
- **Digests are stored as typed.** `record_commitment` checks both digests but keeps the
  caller's text, and `prove_data_mismatch` compares with that text. `0x...` and upper-case
  hex are accepted (`PrefixedDigestIsAccepted`). An output hash so spelt lets the honest
  output itself slash its provider (`OwnOutputSlashesExactlyWhen`); a root so spelt makes
  every proof fail and shields a cheat (`OddRootShields`). A leaf slashes by its own path
  exactly when the root is canonical and the output hash is not the canonical hash of the
  leaf (`LeafSlashesExactlyWhen`).
- **A rejected FAIL leaves a trace.** On a job released in the deadline millisecond,
  `submit_verdict` raises after it has written the verdict; that is the one rejected call
  that changes anything, and it does so unless the same entry is there already
  (`RejectionsMoveNothing`). Such a run exists exactly when the window is not negative
  (`LateExactlyWhen`).
- **Blob ids run together.** The id hashes index and height without a separator, so from
  the eleventh blob of a batch on two places can give one id: exactly when their digits run
  together and the bytes are the same (`SameIdExactlyWhen`). Under every hash function a run
  of ten seals reaches such a clash (`ClashIsReachable`). A sealed blob verifies exactly when
  the last submission under its id has been sealed (`VerifiesExactlyWhen`): it fails while
  the newer copy waits, comes back with the next seal, and is lost if the store is reopened
  before it (`TakenComesBack`, `ClashTakesDown`, `LostStaysLost`).
- **One blob that is not UTF-8 spoils its block.** It changes on the way through its JSON
  file, and with it every proof of the block (`SealedBlobVerifies`).
- **The winner can be paid less than it bid.** The module comment promises the opposite.
  Ranking rounds and the threshold does not, so it happens exactly when rounding ranks the
  winner above a runner-up that is really cheaper (`ClearingPrice`, `PaidBelowBid`); the
  loss is at most one grid step in discounted units. For the same reason bidding the true
  cost is optimal exactly when the rounding does not misjudge the bidder
  (`TruthIsDominantExactlyWhen`).
- **Overlapping audits reverse twice.** `reverify` takes no lock while the judge is asked,
  and an audit that is abandoned there has reversed without settling. An audit moves back
  what the record of its job says and marks what the live rows say, so it keeps the books a
  replay of the live rows exactly when the two agree (`BeginReplaysExactlyWhen`); nothing
  else breaks or heals them (`OthersKeepReplay`). So they are a replay throughout a run
  exactly when every audit it begins finds record and rows in agreement
  (`ReplaysExactlyWhen`), and at its end exactly when the disagreements cancel out
  (`EndsReplayedExactlyWhen`). Overlaps are not the exact condition: one that reverses
  nothing leaves two live rows behind and breaks the books at a later audit on its own
  (`HarmlessOverlapBreaksLater`), and that same audit can put broken books right again
  (`BrokenBooksCanHeal`).
- **Equal roots do not mean equal blocks.** `[a, b, c]` and `[a, b, c, c]` share a root;
  `RootsCoincide` says exactly which blocks do.

## Model

| member | source | states |
|---|---|---|
| `LedgerConservation.StepConserves` | edgegrid/ledger.py:246-506 | every call, accepted or rejected, keeps the integer identities, whichever of reporter, provider, requester and treasury are one account, for capped slashes and every share up to 10000 basis points |
| `LedgerConservation.RunsConserve` | edgegrid/ledger.py:571-628 | every run from a ledger that satisfies the identities ends in one that does |
| `LedgerConservation.ConservationHolds` | edgegrid/ledger.py:571-628 | in every reachable state the stake, unbonding, credit and escrow maps sum to the counters, deposits equal what is held or withdrawn, slashes equal rewards plus treasury, and each record balances |
| `Ledger.Ledger.CheckInvariants` | edgegrid/ledger.py:571-628 | reports no problem exactly when the state is conserved, so it never raises on a reachable ledger |
| `Ledger.Sum` | edgegrid/ledger.py:584-588 | the summing loop over a map gives the order-free total of its entries |
| `LedgerSettlement.StepSettles` | edgegrid/ledger.py:314-506 | every call keeps the life cycle (a commitment exists exactly for awaiting, settled and slashed escrows and is resolved exactly when slashed) and changes jobs only forwards |
| `LedgerSettlement.RunsSettleOnce` | edgegrid/ledger.py:332-395 | over any run closed escrows and the terms of deals never change, records are only appended, and each closed escrow has exactly one record paying exactly one party |
| `LedgerSettlement.SettlementHolds` | edgegrid/ledger.py:534-567 | exactly-once settlement in every state reachable from the empty ledger |
| `LedgerSettlement.ClosedJobsAreFinal` | edgegrid/ledger.py:362-395 | no call about a closed job changes anything but the verdict of a validator |
| `LedgerSettlement.DeadlineReleaseFirst` | edgegrid/ledger.py:362-377 | at the deadline millisecond a release that runs first pays, and over any later run no call about the job moves anything but a verdict |
| `LedgerSettlement.DeadlineSlashFirst` | edgegrid/ledger.py:402-423 | at the deadline millisecond a FAIL that runs first slashes, and over any later run no call about the job moves anything but a verdict |
| `LedgerSettlement.DeadlineProofFirst` | edgegrid/ledger.py:425-461 | the same for a proof of a mismatch that runs first |
| `LedgerSettlement.RejectionsMoveNothing` | edgegrid/ledger.py:418-422 | a call that raises moves no money, and it changes the ledger if and only if it is a FAIL in the deadline millisecond on a released job whose entry is not there already; that entry stays |
| `LedgerLateVerdict.LateRun` | edgegrid/ledger.py:402-423 | under every configuration with a window of zero or more a run from the empty ledger ends with such a call |
| `LedgerLateVerdict.LateExactlyWhen` | edgegrid/ledger.py:402-423 | such a run exists if and only if the window is not negative |
| `LedgerAuthority.RecordsAreAuthorised` | edgegrid/ledger.py:362-506 | every record of every run was written by an accepted call entitled to it: a release after the deadline, the requester's cancellation after the timeout, or, by the deadline, a FAIL of a registered validator whose stake is at least the minimum or a proven mismatch; and its slash is the escrow or all the collateral there is, its reward the floored share |
| `LedgerAuthority.EscrowsWereOpened` | edgegrid/ledger.py:314-330 | every escrow was opened with its amount by an accepted call, against a provider whose stake at that time was at least the minimum |
| `LedgerAuthority.CommitmentsWereMade` | edgegrid/ledger.py:332-360 | every commitment was made by an accepted call of the awarded provider on an open escrow, with well-formed digests |
| `LedgerGuards.CallsFollowGuards` | edgegrid/ledger.py:246-526 | in every state every call raises exactly the error that the entries of the maps give, in the order of the checks, and is accepted when there is none; active means stake of at least the minimum, and a digest is 64 readable hex characters after at most one `0x` |
| `ByteStrings.FromHexExactlyWhen` | edgegrid/ledger.py:66-76 | text without white space is read as hex if and only if it is pairs of digits of either case, the high one first |
| `ByteStrings.SpaceIsSkipped` | edgegrid/ledger.py:66-76 | white space after complete pairs is skipped |
| `ByteStrings.ToHexAt` | edgegrid/ledger.py:457-457 | digests are printed as two lower-case digits a byte |
| `LedgerGuards.OpensExactlyWhen` | edgegrid/ledger.py:304-330 | an escrow is opened if and only if the amount is positive, the job is new and the provider has stake of at least the minimum |
| `LedgerGuards.VerdictExactlyWhen` | edgegrid/ledger.py:402-423 | a verdict is accepted if and only if it comes from a registered validator with stake of at least the minimum on an unresolved commitment by its deadline, and a FAIL only while the escrow waits |
| `LedgerGuards.ConfiguredExactlyWhen` | edgegrid/ledger.py:206-216 | the arguments make a configuration with these wei, milliseconds and basis points if and only if each is the nearest whole number, or for durations the truncated one, of its argument |
| `LedgerEffects.CallsFollowEffects` | edgegrid/ledger.py:246-567 | every accepted call leaves at every account exactly the stake, unbonding and credit, and at every job exactly the escrow, commitment and verdict, that its arguments and the old entries give; the one record it adds and every counter are given too, active stake pays a slash first, and a slash never moves the moment at which unbonding stake is ready |
| `LedgerEffects.ValidatorsWereRegistered` | edgegrid/ledger.py:399-400 | the allow-list of a reachable state is exactly the validators that the run registered |
| `LedgerAccounts.StepMoves` | edgegrid/ledger.py:246-532 | every call changes the collateral and credit of every account by what it stakes, claims or withdraws and what a new record slashes or owes, and by nothing else |
| `LedgerAccounts.AccountsReplay` | edgegrid/ledger.py:528-567 | in every reachable state an account's collateral is what it staked less what it claimed back and was slashed, and its credit is what it claimed and the records owe it in any of its roles, less what it withdrew |
| `LedgerAccounts.StakesAreWhole` | edgegrid/ledger.py:246-279 | an account that was never slashed has no active stake or at least the minimum |
| `LedgerCollateral.CollateralCannotEscape` | edgegrid/ledger.py:260-292 | with an unbonding period at least the window, after any interleaving of calls and at every instant strictly before the deadline, active plus unbonding stake is at least the stake at commitment less what was slashed since |
| `LedgerCollateral.CollateralUntil` | edgegrid/ledger.py:473-487 | the same up to any instant that the unbonding period reaches past |
| `LedgerCollateral.NoEscape` | edgegrid/ledger.py:260-292 | with a period longer than the window no reachable challengeable commitment has lost its collateral |
| `LedgerCollateral.EscapeRun` | edgegrid/ledger.py:281-292 | otherwise a run is built at whose end the commitment is challengeable and the collateral gone |
| `LedgerCollateral.EscapesExactlyWhen` | edgegrid/ledger.py:516-526 | collateral can escape an open challenge if and only if the period is at most the window and the window is not negative |
| `LedgerCollateral.EqualPeriodsEscape` | edgegrid/ledger.py:196-214 | so it can under every configuration that is made, as by default, from one number of seconds for both |
| `LedgerDrain.DrainStep` | edgegrid/ledger.py:260-302 | a ledger that still holds something has a short accepted run after which it holds strictly less, in the order jobs, stakes, unbonding, credits |
| `LedgerDrain.DrainedMeansWithdrawn` | edgegrid/ledger.py:571-628 | when nothing is held by name, every wei deposited has been withdrawn |
| `LedgerDrain.Drainability` | edgegrid/ledger.py:362-395 | from every reachable state a finite run of accepted release, cancel, unstake, claim and withdraw calls and waiting ends with withdrawn equal to deposited and nothing held |
| `LedgerChallenge.MismatchHasProof` | edgegrid/ledger.py:425-461 | every record of a proven mismatch was written by an accepted `prove_data_mismatch` call of the run |
| `LedgerChallenge.MismatchIsReal` | edgegrid/ledger.py:425-461 | the blob of that call hashes to something else than the commitment and is a leaf under the committed root, or a collision is exhibited |
| `LedgerChallenge.HonestProviderIsSafe` | edgegrid/ledger.py:425-461 | a provider whose block is its honest output alone is slashed for a mismatch only along with a collision |
| `LedgerChallenge.OwnOutputSlashesExactlyWhen` | edgegrid/ledger.py:457-461 | revealing a leaf that is the committed output itself slashes its provider if and only if the committed text is not the canonical spelling of its hash |
| `LedgerChallenge.LeafSlashesExactlyWhen` | edgegrid/ledger.py:425-461 | by the deadline any leaf of the committed block, revealed with its own path, slashes the provider if and only if the root was committed in the canonical spelling and the output hash is not the canonical spelling of the hash of the leaf |
| `LedgerChallenge.OddRootShields` | edgegrid/ledger.py:340-356 | under a root committed in any other spelling no blob and no proof slashes for a mismatch |
| `LedgerChallenge.PrefixedDigestIsAccepted` | edgegrid/ledger.py:66-76 | such spellings, the digest of the output or of the root after `0x`, are accepted by `record_commitment` |
| `Ledger.Ledger.constructor` | edgegrid/ledger.py:196-237 | a new ledger is the empty state under its configuration |
| `LedgerModel.Configured` | edgegrid/ledger.py:206-216 | the arguments make a configuration if and only if the share is within zero and one and the stake is not negative; its share is at most 10000 basis points, and an unbonding period of no more seconds than the window is no more milliseconds |
| `Ledger.Ledger.Stake` | edgegrid/ledger.py:246-258 | new state and error are those of the model, whose runs are proved conserved |
| `Ledger.Ledger.RequestUnstake` | edgegrid/ledger.py:260-279 | new state and error of the model: stake moves to unbonding, ready one period from now |
| `Ledger.Ledger.ClaimUnstake` | edgegrid/ledger.py:281-292 | new state and error of the model: unbonding stake is credited once it is ready |
| `Ledger.Ledger.Withdraw` | edgegrid/ledger.py:294-302 | new state and error of the model: the whole credit leaves the ledger |
| `Ledger.Ledger.Credit` | edgegrid/ledger.py:528-532 | the credited account and the counter grow by the amount; zero changes nothing |
| `Ledger.Ledger.OpenEscrow` | edgegrid/ledger.py:314-330 | new state and error of the model |
| `Ledger.Ledger.RecordCommitment` | edgegrid/ledger.py:332-360 | new state and error of the model, with the checks in their order and the digest text kept as given |
| `Ledger.Ledger.Release` | edgegrid/ledger.py:362-377 | new state and error of the model |
| `Ledger.Ledger.Cancel` | edgegrid/ledger.py:379-395 | new state and error of the model |
| `Ledger.Ledger.AppendRecord` | edgegrid/ledger.py:534-567 | the record describes the closed escrow, the split of its slash and the verdict entered on the job |
| `Ledger.Ledger.RegisterValidator` | edgegrid/ledger.py:399-400 | the validator joins the allow-list and nothing else changes |
| `Ledger.Ledger.SubmitVerdict` | edgegrid/ledger.py:402-423 | new state and error of the model, including the verdict written before the escrow is looked at |
| `Ledger.Ledger.ProveMismatch` | edgegrid/ledger.py:425-461 | new state and error of the model, the inclusion proof checked by the loop of `verify_proof` |
| `Ledger.Ledger.ConfirmFraud` | edgegrid/ledger.py:463-506 | new state and error of the model |
| `Ledger.Ledger.TakeCollateral` | edgegrid/ledger.py:473-487 | active stake pays first, then what is unbonding, and no more than there is |
| `Ledger.Ledger.PayOut` | edgegrid/ledger.py:489-496 | reporter and treasury are credited shares that add up to the slash |
| `Ledger.ManualClock.Advance` | edgegrid/ledger.py:118-129 | the clock moves by the seconds given, in milliseconds truncated towards zero |
| `MerkleTree.RootIsTreeHash` | edgegrid/da.py:43-56 | the level-by-level root is the hash of the symbolic binary tree in which an odd tail is joined with itself |
| `MerkleShape.RootIsHalved` | edgegrid/da.py:35-56 | the root of any block is the one drawn from the top in the least height that holds it: the byte 1 and the roots of the two halves, the left one of a power of two, where the right half would be empty the left root twice, and at the bottom the byte 0 and a blob; the root of no blobs is the hash of the empty string |
| `MerkleShape.RootOfHalves` | edgegrid/da.py:35-56 | the root of one blob is the hash of the byte 0 and the blob, and that of two halves of equal power-of-two length is the hash of the byte 1 and their roots, left one first |
| `MerkleTree.TreeHoldsLeaves` | edgegrid/da.py:43-56 | that tree holds the given leaves and no others |
| `MerkleTree.TreeBinding` | edgegrid/da.py:35-40 | two trees with one hash are equal or hash a collision between them |
| `MerkleTree.RootBinding` | edgegrid/da.py:43-56 | two blocks of equal length with one root are equal or a collision is exhibited |
| `MerkleTree.RootsCoincide` | edgegrid/da.py:43-56 | two blocks of any lengths have one root if, and up to a collision only if, they pad to the same list |
| `MerkleTree.OddTailSharesRoot` | edgegrid/da.py:43-56 | three blobs and the same three with the last repeated share a root |
| `MerkleProof.ProofSoundness` | edgegrid/da.py:82-92 | whatever the proof, of any length and with siblings of any length, data accepted against the root of a block is one of its blobs or a collision is exhibited |
| `MerkleProof.ProofCompleteness` | edgegrid/da.py:59-79 | the proof made for any index of any block, odd tails included, is accepted |
| `MerkleProof.AcceptsByteByByte` | edgegrid/da.py:82-92 | a proof is checked by hashing the byte 0 and the data, and then for each step the byte 1 with the sibling on the side that the label says, and the text of the result must be that of the root |
| `MerkleProof.LabelsAreRedundant` | edgegrid/chain.py:531-547 | folding the siblings of a proof by the bits of the index, each hash over the byte 1 and the two children in order, gives the same root as folding by the side labels |
| `MerkleProof.MerkleRoot` | edgegrid/da.py:43-56 | the loop computes the root of the model, the hash of the empty string for no leaves |
| `MerkleProof.MerkleProofFor` | edgegrid/da.py:59-79 | the loop computes the path of the model, and fails exactly for an index out of range |
| `MerkleProof.VerifyProof` | edgegrid/da.py:82-92 | the loop accepts exactly the data that climbs to the root along decodable siblings |
| `BlobStore.SubmitKeeps` | edgegrid/da.py:156-176 | a submission under a fresh id keeps the store consistent and every sealed batch sealed |
| `BlobEntries.SubmitWrites` | edgegrid/da.py:156-173 | a submission files the blob under the first half of the hash of the namespace, the hex of its hash, its position and the next height, with these fields and no other change |
| `BlobEntries.DecimalReads` | edgegrid/da.py:162-166 | numbers are hashed as decimal digits without leading zeros |
| `BlobEntries.SealWrites` | edgegrid/da.py:178-197 | a seal makes the pending batch the next block with the Merkle root of the data as submitted, logs it, and writes height and last position into the file of each blob and no other; with nothing pending it changes nothing |
| `BlobEntries.ReopenReplays` | edgegrid/da.py:141-149 | a reopened directory has the later line of the log for each height, the greatest height logged, and nothing pending |
| `BlobEntries.ProofAnswers` | edgegrid/da.py:217-231 | a proof is found if and only if the file, its block and every file of the block are there and the position is in the block; it proves the leaf as filed, against the sealed root |
| `BlobEntries.VerifiedIsGenuine` | edgegrid/da.py:233-245 | a blob passes only if its file hashes to what was expected and is one of the blobs under the sealed root, or a collision is exhibited |
| `BlobEntries.VerifyAnswers` | edgegrid/da.py:233-245 | when `verify_blob` answers false, when it raises, and when a blob at its own position passes |
| `BlobEntries.MetaReadsFile` | edgegrid/da.py:205-211 | a blob is read exactly as its file has it |
| `BlobStore.SealKeeps` | edgegrid/da.py:178-197 | sealing keeps every sealed batch and seals the pending one |
| `BlobStore.ReopenKeeps` | edgegrid/da.py:141-149 | reopening the directory keeps every sealed batch |
| `BlobStore.RunKeeps` | edgegrid/da.py:141-197 | so does every run of submissions, seals and reopenings without id clashes |
| `BlobStore.SealedBlobVerifies` | edgegrid/da.py:217-245 | a sealed blob verifies against its own hash if, and up to a collision only if, its whole block survives the UTF-8 round trip |
| `BlobStore.VerifiesForever` | edgegrid/da.py:156-245 | what was pending verifies after sealing and any later run without id clashes, under the same condition |
| `BlobStore.ClashBreaksVerification` | edgegrid/da.py:162-171 | a submission under the id of a sealed blob makes that blob fail while it waits to be sealed |
| `BlobHistory.SameIdExactlyWhen` | edgegrid/da.py:162-166 | among blobs whose hashed strings do not collide two ids are the same if and only if the bytes are and index and height run together into the same digits |
| `BlobHistory.RunHistory` | edgegrid/da.py:141-197 | in every run of text blobs in one namespace, clashes or not, blocks hold the roots and ids of the batches sealed, every file names its own blob, and so does every pending blob |
| `BlobHistory.AnswersByPlace` | edgegrid/da.py:217-245 | what `verify_blob` answers for any file of such a run: false while its place is in no block, an error if the block there is shorter, and else, up to a collision, whether the block has the blob at that place |
| `BlobFate.SubmitVerifiesExactlyWhen` | edgegrid/da.py:156-176 | after one more submission a blob that stood in a block verifies if and only if the new id is not its own, which it is if and only if bytes and run-together place are the same |
| `BlobFate.SealMoves` | edgegrid/da.py:187-192 | a seal puts every pending blob at the place its file names, clashes or not, and moves no other |
| `BlobFate.StandingIsHome` | edgegrid/da.py:141-197 | in any run at all the file of a blob names its place in a block if and only if the last submission under its id has been sealed |
| `BlobFate.VerifiesExactlyWhen` | edgegrid/da.py:156-245 | after every run of text blobs in one namespace a sealed blob verifies if, and up to a collision only if, the last submission under its id has been sealed |
| `BlobFate.StandsThroughoutExactlyWhen` | edgegrid/da.py:156-197 | it does so at every later prefix if and only if no submission in between takes its id |
| `BlobFate.TakenComesBack` | edgegrid/da.py:141-197 | a taken id stands again after the next seal, and not after a reopening before it |
| `BlobFate.LostStaysLost` | edgegrid/da.py:141-149 | an id lost in a reopening stays lost over every run that does not take it again |
| `BlobClash.ClashIsReachable` | edgegrid/da.py:156-176 | under every hash function a run from the empty store, a block of twelve copies of a blob, nine blocks of one and two copies more, takes the id of a sealed blob, which then fails |
| `BlobClash.ClashTakesDown` | edgegrid/da.py:141-245 | in that run the sealed blob verifies before the last copy, fails after it, verifies again after the next seal, and fails after a reopening instead |
| `BlobStore.IdInputsDiffer` | edgegrid/da.py:162-166 | in one namespace, below position ten, different places hash different strings |
| `BlobStore.IdInputsRunTogether` | edgegrid/da.py:162-166 | position 1 at height 11 and position 11 at height 1 hash the same string |
| `BlobStore.ModestRunsNeverClash` | edgegrid/da.py:156-197 | runs in one namespace with at most ten blobs to a batch are free of id clashes, barring collisions of the truncated hash |
| `DALayer.DALayer.constructor` | edgegrid/da.py:125-149 | opening a directory replays its block log |
| `DALayer.DALayer.SubmitBlob` | edgegrid/da.py:156-176 | reaches the state of the model, sealed or not; returns the new blob, or after a seal the blob as its file has it, at a place of the new block that holds its id |
| `DALayer.DALayer.SealBlock` | edgegrid/da.py:178-197 | reaches the state of the model: block, root, log entry, and heights and positions written into the files; returns the new block, or nothing if nothing was pending |
| `DALayer.DALayer.PlaceFiles` | edgegrid/da.py:187-192 | the loop writes height and position into the file of each blob, the last one winning for a repeated id |
| `DALayer.DALayer.ProveInclusion` | edgegrid/da.py:217-231 | the proof and root of the model, or the reason there is none |
| `DALayer.DALayer.VerifyBlob` | edgegrid/da.py:233-245 | the answer of the model |
| `Varints.EncodeVarint` | edgegrid/weights.py:175-184 | the loop computes the varint of the model, and fails exactly for negative numbers |
| `Varints.DecodeInvertsVarint` | edgegrid/weights.py:175-184 | a prefix decoder gets the number back and leaves any trailing bytes untouched |
| `Varints.VarintIsMinimal` | edgegrid/weights.py:175-184 | no encoding that decodes to the number is shorter, and none of that length is different |
| `Base58.Encode58` | edgegrid/weights.py:154-167 | the loops compute the base58 of the model, leading zero bytes included |
| `Base58.LettersAreTheAlphabet` | edgegrid/weights.py:151-151 | the digits are written in the Bitcoin alphabet |
| `Base58.Decode58InvertsBase58` | edgegrid/weights.py:154-167 | a base58 decoder gets every byte string back |
| `Base32.Base32Injective` | edgegrid/weights.py:170-172 | different byte strings have different unpadded base32 |
| `Base32.Decode32InvertsBase32` | edgegrid/weights.py:170-172 | a base32 decoder in the alphabet of the standard gets every byte string back |
| `DagPb.PbBytesPrefixFree` | edgegrid/weights.py:187-188 | a length-delimited field determines its content and what follows it |
| `DagPb.NodeFixesLinks` | edgegrid/weights.py:219-225 | a dag-pb node determines its list of links and its data |
| `DagPb.FileFixesData` | edgegrid/weights.py:199-212 | a UnixFS leaf determines its data, the empty one included |
| `DagPb.LeafBlockFixesChunk` | edgegrid/weights.py:254-260 | the block of a leaf determines its chunk in either layout |
| `DagPb.InnerBlockFixesCids` | edgegrid/weights.py:263-269 | the block of an inner node determines the CIDs of its children, in order |
| `DagWire.InnerBlockReads` | edgegrid/weights.py:187-269 | a reader of the wire format with its own field tags gets from the block of an inner node, in order, each child's CID, empty name and cumulative size, the type, the total filesize and each child's filesize, and nothing else |
| `DagWire.LeafBlockReads` | edgegrid/weights.py:187-260 | and from the block of a UnixFS leaf no link, the type, the chunk unless it is empty, and its length |
| `DagPb.LeafIsNotInner` | edgegrid/weights.py:254-269 | a UnixFS leaf is never the block of an inner node |
| `DagPb.CidFixesBlock` | edgegrid/weights.py:244-251 | equal CIDs have one codec, and one block or a collision |
| `DagPb.CidTextInjective` | edgegrid/weights.py:244-251 | the printed CID determines its bytes |
| `DagBuilder.Fill` | edgegrid/weights.py:272-285 | terminates for every leaf count and returns the given node of the given level of the level-by-level construction, and where it stopped |
| `DagBuilder.BuildTree` | edgegrid/weights.py:288-303 | the streaming construction with re-rooting gives the root of the level-by-level one |
| `DagBuilder.BuildFileDag` | edgegrid/weights.py:288-303 | so for a file, whose empty case is a single leaf |
| `DagBuilder.FileNodeIsDag` | edgegrid/weights.py:254-303 | the node that is built is the node of the symbolic tree of the file |
| `DagBuilder.FileTreeShape` | edgegrid/weights.py:272-303 | that tree has the chunks as leaves in order, all at one depth, every subtree full but on the right edge, and no root with one child |
| `DagSizes.NodeMeasures` | edgegrid/weights.py:228-269 | the filesize of every node is the number of bytes under it, its cumulative size the sum of the lengths of all blocks of its tree, and its block length that of its own block |
| `DagSizes.NodeIsNamed` | edgegrid/weights.py:244-269 | the binary CID of every node is the bytes of the standard around the hash of its block |
| `DagSizes.InnerDescribes` | edgegrid/weights.py:263-269 | the links and block sizes of an inner node, read back, are the CIDs, block lengths and payloads of its children |
| `DagSizes.FileRoot` | edgegrid/weights.py:288-318 | so for the root of a file: its filesize is the length of the data, its cumulative size the sum of all blocks, and its printed CID reads back as the binary one, from base58 or from base32 after a `b` |
| `DagBuilder.ChunksConcat` | edgegrid/weights.py:306-308 | the chunks concatenate to the file |
| `DagBuilder.ChunkAt` | edgegrid/weights.py:306-308 | chunk number k is the bytes from 262144 k on, 262144 of them or as many as are left |
| `CidBinding.CheckCid` | edgegrid/weights.py:400-412 | the loop over layouts answers as the model does, with the CID it was asked about on a match and that of the last layout on a mismatch |
| `CidBinding.VerifyCidExactlyWhen` | edgegrid/weights.py:374-412 | a CID is refused for its shape alone, and bytes are verified under a layout if and only if they have the CID under it and it is the one the shape stands for, raw leaves before UnixFS ones where either is possible |
| `CidBinding.CidForBytesExists` | edgegrid/weights.py:244-251 | a file has no CID only under version 0 with raw leaves |
| `CidBinding.DagBinding` | edgegrid/weights.py:254-303 | two well-formed trees with one CID, under any layouts of that CID version, are equal or a collision between their blocks is exhibited |
| `CidBinding.CidBindsBytes` | edgegrid/weights.py:374-412 | two files accepted for one CID are the same bytes, or a collision between their blocks is exhibited |
| `CidShape.Version0Shape` | edgegrid/weights.py:374-391 | every printed version 0 CID starts with Qm and has 46 letters |
| `CidShape.Version1Shape` | edgegrid/weights.py:374-393 | every printed version 1 CID starts with bafybei or bafkrei, by codec |
| `CidShape.HonestBytesVerify` | edgegrid/weights.py:374-412 | the CID computed for a file under either version and any supported layout accepts that file |
| `CacheModel.CutIsShortest` | edgegrid/weights.py:878-904 | the cut of the recency list is the shortest prefix whose removal makes room |
| `CacheRefinement.LookupRefines` | edgegrid/weights.py:824-844 | the first section of a fetch is a move to the recent end, a removal of a stale row, or nothing |
| `CacheRefinement.InsertRefines` | edgegrid/weights.py:853-871 | the second section evicts the shortest least-recent prefix that makes room and appends the item, within the budget |
| `CacheRefinement.EvictionIsCut` | edgegrid/weights.py:878-904 | the eviction loop removes exactly that prefix, keeps every other row and blob, and counts what it removed |
| `CacheRefinement.EvictionMakesRoom` | edgegrid/weights.py:900-903 | the final raise of the eviction loop is unreachable from a fetch, whatever the order of the rows |
| `CacheRefinement.EvictRefines` | edgegrid/weights.py:919-934 | eviction of one row removes its item and nothing else |
| `CacheRefinement.ClearRefines` | edgegrid/weights.py:936-947 | clearing empties the list and reports how many rows there were |
| `CacheRefinement.RunsRefine` | edgegrid/weights.py:820-947 | under every interleaving of lookup, insert, evict and clear sections the bytes never exceed the budget, each section acts on the recency list as the reference does, and every row has its blob unless blobs are deleted from outside |
| `CacheCounters.RunsAccount` | edgegrid/weights.py:820-947 | over every interleaving every byte ever downloaded is on the index, was evicted, or was lost with a row whose blob was gone, a row written again, or a cleared cache |
| `CacheCounters.RunsCount` | edgegrid/weights.py:832-866 | the counters of hits and misses in the index are the numbers of sections that found their artefact and that stored one |
| `CacheCounters.LookupLeaves` | edgegrid/weights.py:824-844 | what a lookup leaves in every row, blob and counter |
| `CacheCounters.InsertLeaves` | edgegrid/weights.py:853-871 | an insert writes its row and blob, and takes exactly the rows that have to go, with their blobs |
| `CacheCounters.InsertCountsAll` | edgegrid/weights.py:853-871 | it counts one miss, its bytes, and the rows that went with theirs |
| `CacheCounters.EvictLeaves` | edgegrid/weights.py:919-934 | what an eviction leaves in every row, blob and counter |
| `CacheCounters.ClearLeaves` | edgegrid/weights.py:936-947 | clearing takes every row with its blob, leaves blobs without a row, and counts nothing |
| `WeightCache.LocalWeightCache.Lookup` | edgegrid/weights.py:824-844 | the section computes the model's directory and whether it hit |
| `WeightCache.LocalWeightCache.EvictFor` | edgegrid/weights.py:878-904 | with a sort and a loop over the rows it evicts along an order by last use and fails exactly when all that may go is not enough; with distinct stamps it is the order of the model |
| `WeightCache.LocalWeightCache.Insert` | edgegrid/weights.py:853-871 | fails exactly for an artefact larger than the budget, else evicts along an order by last use until the bytes fit and writes the row; with distinct stamps that is the insert of the model, which evicts the shortest prefix of the recency list; the counters of the process follow |
| `WeightCache.LocalWeightCache.Evict` | edgegrid/weights.py:919-934 | the section computes the model's directory and whether the row was there |
| `WeightCache.LocalWeightCache.Clear` | edgegrid/weights.py:936-947 | the section computes the model's directory and the number of rows |
| `WeightCache.SortByUse` | edgegrid/weights.py:883-884 | lists every row once in order of last use, and with distinct stamps in the order of the model |
| `WeightCache.TotalBytes` | edgegrid/weights.py:794-796 | the sum over the rows is the bytes on the recency list |
| `AuctionModel.RankBids` | edgegrid/market.py:179-208 | the loop over bids with its dict and lists gives the ranking and rejections of the model |
| `AuctionOrder.EvaluateAuction` | edgegrid/market.py:211-247 | the auction always reaches its outcome: the accounting assertion never fires |
| `AuctionOrder.EveryBidIsAccountedFor` | edgegrid/market.py:155-157 | the ranked and rejected bids of the outcome together are exactly the multiset received, whose size it reports |
| `AuctionOrder.CollectKeepsLatest` | edgegrid/market.py:166-204 | of each peer with a bid that meets the constraints exactly one is kept, and no such bid of the peer is newer by stamp and then digest |
| `AuctionOrder.RankingIsSorted` | edgegrid/market.py:135-138 | the ranking is strictly sorted, with distinct peers, each with its newest revision |
| `AuctionOrder.ArrivalOrderIsIrrelevant` | edgegrid/market.py:166-247 | permuted bids give the same ranking up to signatures and the same award, when no two different bids in hand share a canonical hash |
| `AuctionOrder.RejectionsArePermuted` | edgegrid/market.py:179-208 | and the same rejections with the same reasons, up to order and signatures |
| `AuctionRules.RankingFollowsRules` | edgegrid/market.py:135-208 | every ranked bid meets the constraints written out in prices, tiers and times, and the ranking is by discounted price, then time to first token, both to twelve decimals, then peer id |
| `AuctionRules.RankedIsNewest` | edgegrid/market.py:166-204 | no bid received from the peer of a ranked one that meets the constraints has a later stamp, or the same stamp and a greater digest |
| `AuctionRules.RejectionFollowsRules` | edgegrid/market.py:95-113 | every rejected bid was received, and violates the constraint that is reported, or is superseded by a ranked one of its peer that is not older |
| `AuctionRules.PaymentFollowsRules` | edgegrid/market.py:211-247 | the winner is paid the price that after its own handicap equals what the runner-up costs after its own, but no more than the ceiling, and the ceiling if it is alone |
| `AuctionSpec.MeetsExactlyWhen` | edgegrid/market.py:95-113 | the exclusion checks give no reason if and only if the bid meets every constraint, and otherwise the first in their order that it violates |
| `AuctionSpec.RanksExactlyWhen` | edgegrid/market.py:115-138 | one bid ranks before another if and only if it is cheaper after the discount, or as cheap and faster, or as fast and its peer id is less as text |
| `Rounding.RoundExactlyWhen` | edgegrid/market.py:135-138 | rounding gives the nearest whole number, and the even one of two |
| `AuctionIncentives.RankedWith` | edgegrid/market.py:179-208 | one more bid of a new peer, wherever it arrives, is inserted into the ranking of the others and changes nothing else |
| `AuctionIncentives.UtilityOf` | edgegrid/market.py:211-247 | what a provider gains is the payment fixed by its best rival less its cost if it ranks first, and nothing otherwise |
| `AuctionCritical.WinnerIsCheapest` | edgegrid/market.py:95-138 | the winner meets every constraint with its newest bid, no ranked bid is more than a grid step cheaper, every peer with an eligible bid is ranked, and the award names job, wallet, price and number of ranked bids |
| `AuctionIncentives.TruthIsNearlyDominant` | edgegrid/market.py:75-113 | whatever the others bid, no price, ineligible ones included, gains a provider more than one grid step over its discount above bidding its cost, sole bidders and costs above the ceiling included |
| `AuctionCritical.ClearingPrice` | edgegrid/market.py:211-247 | the clearing price is at most the ceiling and at least the winning bid less a grid step over its discount; it is at least the winning bid if and only if the winner is alone or really no dearer than the runner-up |
| `AuctionCritical.ClearingPriceOnGrid` | edgegrid/market.py:29-31 | with effective prices on the twelve-decimal grid the winner is never paid less than it bid |
| `AuctionCritical.PaidBelowBid` | edgegrid/market.py:135-138 | two bids exist of which the winner is paid less than it bid |
| `AuctionCritical.PaidAgainstBestRival` | edgegrid/market.py:211-247 | a bidder wins if and only if it outranks the best of its rivals, and is then paid at least its own price if and only if it has no rival or is really no dearer than that one |
| `AuctionCritical.CriticalPrice` | edgegrid/market.py:211-247 | the payment does not depend on the winner's price, every lower positive price wins as well, and winning prices end within a grid step of the payment |
| `AuctionCritical.TruthIsDominantExactlyWhen` | edgegrid/market.py:75-76 | bidding the cost is optimal against the given rivals, with no slack, if and only if the rounding does not misjudge the bidder against the best of them |
| `AuctionCritical.GridIsNeverMisjudged` | edgegrid/market.py:75-76 | on the grid it never does |
| `GatewayModel.StakesStay` | gateway/grid.py:820-874 | no event takes a stake below zero |
| `GatewayReplay.RulingConserves` | gateway/grid.py:820-862 | a ruling slashes at most the amount and the stake, splits the slash without residue, and unless it is put off sends the escrow to exactly one party |
| `GatewayRulings.SettleFollowsRuling` | gateway/grid.py:820-874 | over all grids a FAIL takes the amount or all the stake from the provider, pays it nothing and splits what it took between validators and treasury, an ERROR moves nothing, a pass or no ruling pays the amount and leaves every stake; record and remaining stake say the same |
| `GatewayRulings.ReversalGivesBack` | gateway/grid.py:864-874 | a reversal gives back exactly what the record says was moved |
| `GatewayRulings.RowsHaveRulings` | gateway/grid.py:820-874 | in every run every row was written by a completion or the end of an audit and says what the ruling of that event says of the stakes at that moment |
| `GatewayRulings.SlashesAreFails` | gateway/grid.py:836-859 | so every row with a slash, refund, reward or treasury part comes from a FAIL, every row with a payout from a pass or no ruling, and the rows put off are those of an ERROR |
| `GatewayBooks.RefreshRegisters` | gateway/grid.py:289-336 | after a refresh the registry is the peers listed; a peer that had a stake keeps it and a new one gets that of its first profile |
| `GatewayBooks.CompletionFiles` | gateway/grid.py:1078-1092 | a completed job gets its record and one more row, neither an audit's nor reversed, of the ruling given |
| `GatewayBooks.AuditBegins` | gateway/grid.py:1098-1125 | when an audit is refused and with which error, and otherwise what it moves back, which rows it reverses, and that records stay |
| `GatewayBooks.AuditEnds` | gateway/grid.py:1125-1140 | an audit that ends is settled anew, with one live audit row, and a record only if the job is still remembered |
| `GatewayBooks.ForgetDrops` | gateway/grid.py:1164-1168 | a forgotten job loses its record and nothing else |
| `GatewayBooks.TotalsOfOneMore` | gateway/grid.py:1150-1160 | one more row counts in every total with its payout, slash and amount unless it is reversed |
| `GatewayDrift.ReverseJob` | gateway/grid.py:1142-1148 | marking a job reversed takes exactly the sum of its live rows out of every total, however many there are |
| `GatewayDrift.StepDrift` | gateway/grid.py:864-874 | the distance of a balance from the sum of its live rows is changed by no event but the beginning of an audit, and by that one by what the live rows of the job say beyond its record |
| `GatewayDrift.RunDrift` | gateway/grid.py:820-874 | after every run, with any overlaps and any forgotten jobs, each balance is off by the sum of those differences |
| `GatewayDrift.BeginReplaysExactlyWhen` | gateway/grid.py:1114-1125 | from any books that are a replay of the live rows the beginning of an audit keeps them one if and only if the live rows of the job add up to its record |
| `GatewayDrift.OthersKeepReplay` | gateway/grid.py:1098-1140 | no other event breaks a replay or heals what is none, ends of audits included |
| `GatewayDrift.ReplaysExactlyWhen` | gateway/grid.py:820-874 | the books are a replay after every prefix of a run if and only if every audit it begins meets that guard |
| `GatewayDrift.EndsReplayedExactlyWhen` | gateway/grid.py:820-874 | and at its end if and only if the differences cancel out in every balance |
| `GatewayReplay.EventKeeps` | gateway/grid.py:1098-1140 | completion, forgetting, both halves of an audit and a registry refresh keep the books tidy and replayable |
| `GatewayReplay.RunsReplay` | gateway/grid.py:820-874 | after every run in which audits of one job do not overlap, each job has at most one live row, stakes are opening stakes less live slashes and not negative, earnings are live payouts, and validator and treasury earnings are their live shares |
| `GatewayReplay.SlashedIsHeld` | gateway/grid.py:1150-1160 | and the total slashed is what validators and treasury hold together |
| `GatewayReplay.OverlapReplaysExactlyWhen` | gateway/grid.py:1114-1125 | one step from tidy books: an audit that begins while one of the same job waits keeps the replay if and only if the settlement it reverses again moved no value |
| `GatewayOverlap.HarmlessOverlapBreaksLater` | gateway/grid.py:1098-1140 | a run from the start in which the overlap reverses nothing, the books stay a replay, and a later audit on its own breaks them |
| `GatewayOverlap.BrokenBooksCanHeal` | gateway/grid.py:1098-1140 | a run from the start in which the overlap breaks the books and a later audit on its own puts them right |
| `GatewayReplay.OverlapDoublesTheRow` | gateway/grid.py:1134-1136 | two audits of one job that both end leave it two live rows |
| `LocalGrid.LocalGrid.Settle` | gateway/grid.py:820-862 | the state and settlement of the model |
| `LocalGrid.LocalGrid.MoveValue` | gateway/grid.py:864-874 | the balances of the model, forwards or backwards |
| `LocalGrid.LocalGrid.CompleteJob` | gateway/grid.py:1078-1092 | the state of the model, with record and row; a job that dropped out of memory meanwhile gets its row alone, and the order of jobs stays |
| `LocalGrid.LocalGrid.BeginAudit` | gateway/grid.py:1098-1124 | the state and error of the model up to the judge, an unfinished job told from an unknown one |
| `LocalGrid.LocalGrid.FinishAudit` | gateway/grid.py:1125-1140 | the state of the model after the judge |
| `LocalGrid.LocalGrid.MarkReversed` | gateway/grid.py:1142-1148 | the loop marks every live row of the job and nothing else |
| `LocalGrid.LocalGrid.LedgerTotals` | gateway/grid.py:1150-1160 | counts and rounded sums over live rows, and slashed is validator plus treasury earnings, rounded, on tidy books that replay |
| `LocalGrid.ShownIsNearest` | gateway/grid.py:1150-1160 | a shown sum is the nearest whole number of millionths |
| `LocalGrid.LocalGrid.SeedStakes` | gateway/grid.py:329-329 | a peer seen for the first time gets its profile's stake, a known one keeps its own |
| `LocalGrid.LocalGrid.RefreshNodes` | gateway/grid.py:289-336 | the registry is the given profiles, and stakes are seeded |
| `LocalGrid.LocalGrid.StoreJob` | gateway/grid.py:1164-1168 | the new job is the last to be remembered, and the oldest drop out until no more than the limit are; their rows stay |

## Left out

- `Ledger.Ledger.CheckInvariants`: models checks (1) to (4), on integers; check (5), which
  compares the float view of each record with its wei, is about binary floats.
- Float views of wei: `from_wei`, `rows` and `as_grid`; amounts enter the ledger as wei, and
  the seconds and the share of a configuration are real numbers.
- `RecordCommitment`: the text of the digest is kept raw, as the code does, although
  `_require_digest` returns a normalised one; white space inside a digest is read as
  `bytes.fromhex` reads it.
- `Tick`: the clock never goes backwards; `now_ms` on a machine whose clock is set back
  is not modelled.
- Auction and gateway amounts are real numbers: binary rounding of floats is not modelled.
  Infinities and NaN in a bid are one value, which the exclusion checks treat alike.
- Signatures, peer ids and canonical JSON: signature validity and the canonical hash of a
  bid are parameters; `TruthIsNearlyDominant` assumes that whether a provider's signature
  verifies does not depend on the price it signs, and `ArrivalOrderIsIrrelevant` that no
  two different bids in hand share a canonical hash.
- `Ranked`: Python's sort is modelled as an insertion sort; both give the one strictly
  sorted list of the same bids, since no two kept bids share a key.
- Award timestamps, rationale strings and score lists of the auction outcome.
- `edgegrid/chain.py` and the contracts: only the fact that side labels are dropped.
- Directory CIDs, the Kubo client, tar extraction and `_chunk_file`, which chunks a file
  as `_chunk_bytes` chunks its bytes.
- The base32 codec: the code calls the standard library; its output is modelled bit by bit.
- File locks, JSON persistence of the index and counters held per process: a locked
  section is one atomic step on the shared directory, and a run uses one budget and
  strictly increasing time stamps.
- `WeightCache.LocalWeightCache.Insert`: the download is a parameter, its size. Rows with
  one and the same stamp may come in any order, where Python's stable sort keeps that of the
  index.
- Text and binary files of the blob store are one map, with the effect of the UTF-8 round
  trip as a parameter; the size caps of the store and `stats` are not modelled.
- `BlobFate.VerifiesExactlyWhen`: covers runs in one namespace of blobs that survive their
  text file, and assumes that the strings such a run hashes do not collide; the claims about
  places alone (`StandingIsHome`, `StandsThroughoutExactlyWhen`) need neither.
- `BlobStore.ModestRunsNeverClash`: assumes that different id strings of modest runs have
  different truncated hashes, which cannot be proved of a hash function.
- The pipeline of the gateway around settlement: auction, inference, data availability,
  judge and event bus; the judge's answer is a parameter.
- `LocalGrid.LocalGrid.RefreshNodes`: the roster is reduced to the set of peer ids; labels,
  tiers, prices and liveness of the nodes are not modelled.
- `GatewayReplay.RunsReplay`: covers audits of one job that do not overlap; for all runs,
  `ReplaysExactlyWhen` says when the claim holds.
- Networking, heartbeats, processes, inference engines, dashboards, reports and plots.
