# Zephyr Chain: a verified model

This project models the parts of Zephyr Chain whose correctness rests on arguments over whole runs, and proves those
arguments.

- **Finality of protocol v2.** The durable signing guard as a journal state machine with torn writes, sync errors,
  crashes and power losses; weighted quorum certificates; the weighted proposer rotation; the Merkle validator root;
  the checkpoint chain; the canonical encodings of votes, certificates and validator sets.
- **The v1 ledger.** Accounts, mempool, blocks, proposals, votes, certificates and merged evidence, as one store
  object whose operations are the events of a run.
- **The compute market.** The on-chain job steps, the in-memory market run in lockstep with them, and the two
  reconstructions of what a job was paid.
- **Economic accounting.** The compute price index, shard aggregation and the epoch collector.

Hash functions and signature checks are function values passed to every theorem. The finality theorems do not assume
them injective: their conclusion is the property, or a named place where two different inputs have one hash. Points in
time are opaque values. Integers are unbounded, and every 64-bit check, wrap-around or saturation of the code is
written out. Where the code loops, a method with the same loop is proved equal to a specification function, and the
theorems are about that function. Objects carry a ghost history, and their validity says that their fields are the
outcome of that history.

## How the modules fit

| area | modules |
|---|---|
| shared | `Prelude`, `Sorting`, `Sums`, `Folds`, `Modular`, `Codec`, `Merkle` |
| finality | `SigningGuard`, `GuardSafety`, `Consensus`, `ProposerRotation`, `Proposals`, `Finality`, `Checkpoint`, `Witnesses`, `Wire` |
| ledger | `Ledger`, `Execution`, `Transfers`, `Imports`, `Admission`, `Voting`, `VotingSafety`, `Evidence`, `Merge`, `Certified`, `LedgerRuns`, `LedgerSafety`, `CertificateSafety`, `LedgerDecisions`, `ChainSafety`, `LedgerStore` |
| compute | `Compute`, `ComputeSafety`, `ComputeDecisions`, `ComputeWork`, `ComputeMarket` |
| economics | `PriceIndex`, `EpochMetrics`, `Collector`, `CollectorCounts`, `EpochCollectorObject` |

## Where the code meets a property only under a condition

- The signing guard promises that an intent is on stable storage before it is granted. Repeating the last intent is
  granted without a sync, so a guard reopened on a record whose sync had failed grants it while a power loss can
  still remove it. `OpeningIsSafeIffDurable` shows that stable storage at opening is the exact condition, and
  `NeverTwoTargets` needs none when power is never lost. `GuardGrantsTwoTargets` is a whole run that fails it.
- The proposer slot adds two residues in 64 bits. `RotationTurns` gives every member's exact number of turns at every
  height, and `RotationIsFairIff` the exact condition for fairness; it always holds up to a total of 2^63.
  `WrappingStarvesAValidator` is a valid set for which it fails.
- Admission checks the sender, and production also the receiver's 64-bit balance. `ProduceIff` gives
  the exact condition for any store, `LocalProductionIff` for every run without imports and certified production,
  where only receivers matter. `ProductionNeverFails` shows that total credit up to 2^64-1 always meets it, and
  `OverfullProductionFails` is a run that does not.
- The majority rule does not look at a record's status, so it pays a settled record again (`ResolvingTwicePaysTwice`).
  `PaysAtMostOnceIff` gives the exact condition for a single payout; testing the status before each call meets it.

## Model

| member | source | states |
|---|---|---|
| `SigningGuard.DurableSigningGuard.Open` | internal/v2/consensus/signing_guard.go:51-102 | Opening a journal with any fault reaches exactly the disk, memory and reply of the journal state machine: creation, acceptance, and refusal of foreign, corrupt and torn files. |
| `SigningGuard.DurableSigningGuard.Replay` | internal/v2/consensus/signing_guard.go:104-158 | The reading loop accepts exactly the journals whose header, hash chain and intent order check, and leaves the remembered position of the last record. |
| `SigningGuard.DurableSigningGuard.ReadRecord` | internal/v2/consensus/signing_guard.go:124-155 | A record is accepted if and only if it continues the hash chain with a later intent. |
| `SigningGuard.DurableSigningGuard.Authorize` | internal/v2/consensus/signing_guard.go:173-218 | Every authorization, with any write or sync fault, is one step of the state machine, poisoning included. |
| `SigningGuard.JournalReads` | internal/v2/consensus/signing_guard.go:104-158 | A file that is the image of a log reads back to that log's position exactly when nothing is torn off its last record. |
| `SigningGuard.OpensIffImage` | internal/v2/consensus/signing_guard.go:104-158 | Over all byte strings: a journal opens at a position if and only if it is, byte for byte, the image of an increasing log that ends there. |
| `SigningGuard.TamperedIsRefused` | internal/v2/consensus/signing_guard.go:124-155 | A journal changed inside any one record is refused, or two different bodies share a hash; only a last record rewritten together with its digest can stand. |
| `GuardSafety.GrantedIff` | internal/v2/consensus/signing_guard.go:173-218 | An authorization is granted if and only if the guard is open and healthy, the identity is its own, the intent is valid, and it is the last one granted or a later one whose record reaches stable storage. |
| `GuardSafety.AppendedOrPoisoned` | internal/v2/consensus/signing_guard.go:195-218 | A later intent is journalled and remembered; after a failed append the guard refuses every further request. |
| `GuardSafety.ReplayMatchesMemory` | internal/v2/consensus/signing_guard.go:104-158 | After every run of openings, authorizations, faults, crashes and power losses, a healthy guard's journal replays to its in-memory position, and a torn journal is refused to every caller. |
| `GuardSafety.NeverTwoTargets` | internal/v2/consensus/signing_guard.go:173-218 | Over every run whose granted records cannot be lost, no two grants for one height and round differ in target, and grants never go back. |
| `GuardSafety.UndurableOpenForks` | internal/v2/consensus/signing_guard.go:183-193 | From any reachable journal that opens without being durable, re-granting its newest record, losing it and reopening grants two targets for one height and round. |
| `GuardSafety.OpeningIsSafeIffDurable` | internal/v2/consensus/signing_guard.go:183-212 | A successful opening keeps every continuation safe if and only if the journal it read had reached stable storage. |
| `GuardSafety.UnsyncedIsReached` | internal/v2/consensus/signing_guard.go:183-212 | For every identity and intent, a run from a fresh disk whose one sync fails reaches a journal that opens without being durable. |
| `GuardSafety.GuardGrantsTwoTargets` | internal/v2/consensus/signing_guard.go:183-212 | That run, continued by a re-grant and a power loss, grants exactly two different targets for one height and round. |
| `Consensus.Validate` | internal/v2/consensus/consensus.go:62-86 | Accepts exactly the non-empty sets of distinct, keyed, positive members on a network whose total power fits in 64 bits. |
| `Consensus.ValidMembers` | internal/v2/consensus/consensus.go:62-86 | In a valid set every identity is its member's key, keys are distinct and on the curve, and every power is positive. |
| `Consensus.QuorumPower` | internal/v2/consensus/consensus.go:99-105 | The quorum is floor(2·total/3)+1, never more than the total, for every 64-bit total. |
| `Consensus.QuorumIntersection` | internal/v2/consensus/consensus.go:99-105 | Two identity sets that each reach quorum share members of more than one third of the power. |
| `Consensus.VerifyCertificate` | internal/v2/consensus/consensus.go:210-246 | Accepts if and only if distinct members signed the subject with quorum power; too little power is reported exactly when that alone is missing. |
| `Consensus.CertifiesIff` | internal/v2/consensus/consensus.go:210-246 | A certificate is accepted if and only if distinct voters, each signing its very subject with the key of a member, hold more than two thirds of a valid set's power, for a nonzero height and header. |
| `Consensus.DigestBindsSubject` | internal/v2/consensus/consensus.go:140-148 | A signed digest fixes network, height, round, header and voter, or two different subjects share a digest. |
| `Consensus.TallyVotes` | internal/v2/consensus/consensus.go:224-241 | The vote loop yields the exact power of the distinct voters, or fails exactly when some vote does not count. |
| `Consensus.ValidatorRoot` | internal/v2/consensus/validator_root.go:15-32 | A root exists exactly for valid sets and is the Merkle root of the members listed by identity. |
| `Consensus.SameRootSameMembers` | internal/v2/consensus/validator_root.go:12-32 | Equal roots mean equal members, whatever the slice order, or a place in the two Merkle trees where different inputs have one hash. |
| `Consensus.RootIgnoresOrder` | internal/v2/consensus/validator_root.go:12-22 | The root does not depend on the order of the slice. |
| `Merkle.Root` | internal/v2/merkle/merkle.go:20-41 | The in-place reduction computes the root of the padded tree, for every number of leaves. |
| `Merkle.RootIsDigest` | internal/v2/merkle/merkle.go:20-41 | The level-by-level root is the recursive digest of the tree of the payloads. |
| `Merkle.RootBinds` | internal/v2/merkle/merkle.go:20-41 | One root means one list of payloads, number and order included, or a clash inside the two trees, also between trees of different depth. |
| `Merkle.BuildProof` | internal/v2/merkle/merkle.go:46-77 | A proof exists exactly for indices of leaves, and while the leaf count fits in 32 bits every leaf's proof verifies against the root. |
| `Merkle.Verify` | internal/v2/merkle/merkle.go:79-102 | Accepts exactly the proofs of the right depth whose path of siblings ends in the root. |
| `Merkle.ProofIsSound` | internal/v2/merkle/merkle.go:79-102 | A proof that verifies for a payload, whatever leaf count it claims, proves that the payload was committed at its index in a tree of that width, or exhibits a clash on its path. |
| `Finality.CertificatesOverlap` | internal/v2/consensus/consensus.go:210-246 | Two accepted certificates of one committee share voters of more than one third of its power, each of whom signed both subjects. |
| `Finality.Agreement` | internal/v2/consensus/consensus.go:210-246 | If unguarded validators hold at most one third, and the votes that occur under guarded keys were granted by their guards, all certificates accepted for one height and round name one header. |
| `Proposals.VerifyProposal` | internal/v2/consensus/consensus.go:170-186 | A proposal passes if and only if its header is bound to the set and signed by the member scheduled for its height and round. |
| `Proposals.OneProposer` | internal/v2/consensus/consensus.go:170-186 | Accepted proposals of one height and round come from one member, the owner of that slot, whose signature covers header, round and proposer. |
| `Proposals.BuildCertificate` | internal/v2/consensus/consensus.go:199-208 | A certificate is built exactly for a scheduled proposal whose votes certify it. |
| `Proposals.CertifiesIgnoresOrder` | internal/v2/consensus/consensus.go:210-246 | Whether votes certify does not depend on the order they were collected in. |
| `Proposals.CertifiedProposalAppends` | internal/v2/consensus/consensus.go:199-208 | A certified proposal, its header completed with the certificate's digest, is accepted by every chain at that point whose handover is met. |
| `ProposerRotation.Proposer` | internal/v2/consensus/consensus.go:107-123 | The cumulative walk always finds the owner of the round's slot; it fails only for invalid sets or height zero. |
| `ProposerRotation.RosterIgnoresOrder` | internal/v2/consensus/consensus.go:112-113 | The rotation does not depend on the order of the validator slice. |
| `ProposerRotation.RotationTurns` | internal/v2/consensus/consensus.go:107-123 | For every valid set, height and window of T rounds, a member's turns are its power plus its share of the slots the 64-bit sum visits twice, less its share of the slots it skips. |
| `ProposerRotation.RotationIsFairIff` | internal/v2/consensus/consensus.go:107-123 | For every valid set and height, any window of T rounds gives every member exactly Power turns if and only if the slots gained and lost by wrapping balance for every member. |
| `ProposerRotation.SoleMemberIsAlwaysFair` | internal/v2/consensus/consensus.go:107-123 | A set of one member is fair at every height, wrapping or not. |
| `ProposerRotation.RotationIsFair` | internal/v2/consensus/consensus.go:114-121 | For any height whose slot sum cannot wrap, over any T consecutive rounds each member proposes exactly Power times. |
| `ProposerRotation.SmallTotalsNeverWrap` | internal/v2/consensus/consensus.go:114 | Totals up to 2^63 never wrap, at any height. |
| `ProposerRotation.SlotsDistinctIffNoWrap` | internal/v2/consensus/consensus.go:114 | Over T consecutive rounds all slots are distinct if and only if the height's offset leaves room for the 64-bit sum. |
| `ProposerRotation.WrappingStarvesAValidator` | internal/v2/consensus/consensus.go:114 | A concrete valid set above the bound in which one member never proposes at the last height, in any round. |
| `Checkpoint.Chain.New` | internal/v2/checkpoint/chain.go:35-49 | A chain exists exactly for a valid genesis set on its network and starts good. |
| `Checkpoint.Chain.Append` | internal/v2/checkpoint/chain.go:69-114 | Appends exactly acceptable submissions, takes the specified step, and keeps every chain invariant. |
| `Checkpoint.Chain.VerifyEntry` | internal/v2/checkpoint/chain.go:138-156 | Succeeds at every stored height of a good chain, and only when the entry verifies. |
| `Checkpoint.VerifiesIff` | internal/v2/checkpoint/chain.go:138-156 | An entry verifies if and only if its set is valid with the header's root, certifies the header's hash, and the header refers to that certificate. |
| `Checkpoint.EveryChainIsGood` | internal/v2/checkpoint/chain.go:69-114 | From every valid genesis set and after every sequence of submissions heights are contiguous and hash-linked, the first header is bound to the genesis root and every other one to the root its predecessor names, or to its predecessor's own when it names none, every stored set hashes to its key on the network, and every entry verifies. |
| `Checkpoint.HandoverIff` | internal/v2/checkpoint/chain.go:90-104 | The committee is kept when the header names no next root or the current one; another root is handed over to if and only if a valid set of the chain's network with that root is supplied. |
| `Checkpoint.AppendHandsOver` | internal/v2/checkpoint/chain.go:90-114 | An accepted submission moves the current root exactly as its header says and stores the entry, the current set and the next set under their own keys. |
| `Checkpoint.ForkExposesDoubleVoting` | internal/v2/checkpoint/chain.go:69-114 | Two good chains from one genesis that first differ with same-round certificates expose double voting by more than one third of the power, or two different inputs with one hash; hashing is not assumed injective. |
| `Checkpoint.ChainsAgree` | internal/v2/checkpoint/chain.go:69-114 | With at most one third unguarded, equal rounds and the two chains' guarded votes granted by their guards, two chains from one genesis carry the same headers up to every common height, or exhibit a hash collision at or below it. |
| `Witnesses.ForkedChainsExist` | internal/v2/checkpoint/chain.go:69-114 | The fork theorem speaks about something: two concrete good chains from one genesis differ in their second block, and their validators double voted without any hash collision. |
| `Witnesses.HandoverExists` | internal/v2/checkpoint/chain.go:69-114 | A concrete chain whose first block hands over to another committee, which alone certifies the second. |
| `Witnesses.GuardedCommitteeExists` | internal/v2/consensus/consensus.go:210-246 | A concrete committee, under a signature check that accepts any vote, meets every hypothesis of the agreement theorem. |
| `Witnesses.GuardedChainExists` | internal/v2/checkpoint/chain.go:69-114 | A concrete chain of two blocks meets every hypothesis of the agreement of chains. |
| `Codec.DecodeEncode` | internal/v2/codec/codec.go:29-39 | Fixed-width integers decode to what was encoded. |
| `Codec.EncodeDecode` | internal/v2/codec/codec.go:100-114 | Every byte string of the right width is the one encoding of its value. |
| `Codec.FrameReads` | internal/v2/codec/codec.go:133-148 | Reading a framed field returns exactly what was framed, within the limit. |
| `Codec.Reader.Frame` | internal/v2/codec/codec.go:133-148 | A frame is read exactly when its length fits the limit and the data; the cursor moves past it. |
| `Wire.MarshalVote` | internal/v2/consensus/wire.go:55-68 | Encodes exactly the well-formed votes, each to its one 249-byte form. |
| `Wire.ParseVote` | internal/v2/consensus/wire.go:70-110 | Accepts exactly the encodings of well-formed votes and returns the encoded vote; truncated or trailing input is refused. |
| `Wire.MarshalCertificate` | internal/v2/consensus/wire.go:112-130 | Encodes exactly the well-formed certificates of at most 4096 votes. |
| `Wire.ParseCertificate` | internal/v2/consensus/wire.go:132-171 | Accepts exactly the encodings of well-formed certificates and returns the encoded certificate. |
| `Wire.MarshalSet` | internal/v2/consensus/validator_wire.go:12-25 | Encodes exactly the valid sets of at most 4096 members. |
| `Wire.ParseSet` | internal/v2/consensus/validator_wire.go:27-59 | Accepts exactly the encodings of valid sets and returns the encoded set. |
| `Wire.EncodableIff` | internal/v2/consensus/wire.go:55-130 | Exactly votes of nonzero height and identities with a 65-byte key and 64-byte signature, and certificates of one to 4096 of them, have an encoding. |
| `Wire.AcceptedIsEncodable` | internal/v2/consensus/wire.go:112-130 | Every certificate that a committee of nonzero identities accepts from at most 4096 votes has an encoding. |
| `Wire.VoteEncodingUnique` | internal/v2/consensus/wire.go:55-68 | Different well-formed votes have different encodings. |
| `Wire.CertificateEncodingUnique` | internal/v2/consensus/wire.go:112-130 | Different well-formed certificates have different encodings. |
| `Wire.SetEncodingUnique` | internal/v2/consensus/validator_wire.go:12-25 | Different sets have different encodings. |
| `Execution.ExecuteSelected` | internal/ledger/store.go:658-688 | The production loop executes the selected entries one transfer at a time and fails exactly when one of them does. |
| `Execution.ProduceBlock` | internal/ledger/store.go:636-714 | Production is the specified step: prefix selection, execution, sealed block, remaining mempool. |
| `Execution.ReplayBody` | internal/ledger/store.go:751-789 | The import loop executes a body or returns the error of its first refused transaction. |
| `Execution.ImportBlock` | internal/ledger/store.go:716-820 | Import is the specified step, error for error. |
| `Execution.FilterMempool` | internal/ledger/store.go:1045-1054 | Keeps, in order, exactly the entries whose ID is not removed. |
| `Execution.ComputeExpectedRoot` | internal/ledger/proposal_state.go:13-42 | The third execution loop yields the root of the executed accounts, or fails exactly when validation or a transfer does. |
| `Execution.ReplayIsExecute` | internal/ledger/store.go:751-789 | On valid, correctly named, new transactions import executes exactly what production executes. |
| `Execution.ExecutorsAgree` | internal/ledger/store.go:636-820 | A produced block imports into the state it came from with the identical next state, and its root is the expected root of its transactions. |
| `Imports.ReplayIff` | internal/ledger/store.go:751-789 | A body replays if and only if each transaction is valid, carries its own ID, is not committed, and the executor accepts them all; it then yields the executed accounts. |
| `Imports.ImportIff` | internal/ledger/store.go:716-820 | A block at the next height imports if and only if it is well-formed, names the tip, its body replays, and its root and hash are those of the executed accounts; it is then appended as it is. |
| `Imports.OtherHeights` | internal/ledger/store.go:728-737 | At a height of the chain exactly the stored block is accepted, without change; later heights are refused. |
| `Imports.ForgedIsRefused` | internal/ledger/store.go:751-754 | A block with one transaction that is not valid for the chain never imports. |
| `ChainSafety.EveryRunIsLinked` | internal/ledger/store.go:636-820 | In every run each block names its predecessor's hash, seals its own fields and stands at its height, and whenever a block is appended its root commits to exactly the state it leaves. |
| `ChainSafety.EveryTransactionIsVetted` | internal/ledger/store.go:353-820 | In every run each transaction in the chain is valid or was submitted to this very store, and so was each queued one. |
| `LedgerRuns.ReachableExecutorsAgree` | internal/ledger/store.go:636-820 | The same from every store reachable by any run of operations. |
| `Transfers.TransferMoves` | internal/ledger/store.go:662-683 | A transfer keeps the total balance, numbers the sender's next transaction and moves exactly its amount, also to oneself. |
| `Transfers.ExecuteMoves` | internal/ledger/store.go:660-688 | A body keeps the total balance, moves exactly what each account sends and receives, adds each sender's transaction count to its nonce and numbers its transactions consecutively. |
| `Transfers.ExecuteIff` | internal/ledger/store.go:660-688 | From any accounts a prefix executes if and only if each of its transactions has its sender's next nonce, is covered by what the sender has and received so far, and leaves its receiver within 64 bits. |
| `LedgerRuns.EveryRunBalances` | internal/ledger/store.go:212-820 | Over every run of all store operations balances sum to applied credits, nonces count chain transactions numbered 1..n in chain order, blocks name their transactions and committed IDs are exactly those in blocks. |
| `LedgerRuns.NoTransactionTwice` | internal/ledger/store.go:716-820 | In every reachable chain no transaction ID occurs twice, or two of its transactions with different senders or nonces share an ID. |
| `LedgerRuns.RequestsMintOnce` | internal/ledger/store.go:212-243 | In every run a named funding request mints at most once. |
| `Admission.RebuildPending` | internal/ledger/store.go:996-1014 | For every sender the table holds exactly its queued count, its saturated queued sum and the successor of its last queued nonce. |
| `Admission.AcceptEnvelope` | internal/ledger/store.go:353-414 | Admission accepts exactly the sender's next nonce within the unreserved balance, and reports the specified error otherwise. |
| `Admission.AcceptKeepsQueue` | internal/ledger/store.go:353-414 | Admission keeps queued nonces consecutive and queued amounts covered. |
| `LedgerDecisions.AcceptIff` | internal/ledger/store.go:353-414 | With a consecutive, covered queue a transfer is accepted if and only if it is new, has its sender's next nonce and fits in what the queue leaves of the balance. |
| `LedgerDecisions.CreditIff` | internal/ledger/store.go:212-243 | A credit fails only on overflow; a known request is answered without paying again; otherwise exactly one balance grows. |
| `Admission.QueueExecutesIff` | internal/ledger/store.go:636-714 | A prefix of a consecutive, covered queue executes if and only if every transfer in it leaves its receiver within 64 bits. |
| `Admission.ProduceIff` | internal/ledger/store.go:636-714 | From any store production succeeds if and only if the mempool is not empty and its selected prefix is executable. |
| `Admission.ProducedBlock` | internal/ledger/store.go:636-714 | A produced block holds the front of the queue in order, as many as asked for or all, sealed on the tip with the executed root, and leaves the rest queued. |
| `Admission.QueueProducesIff` | internal/ledger/store.go:636-714 | From a consecutive, covered queue production succeeds if and only if something is queued and every selected transfer leaves its receiver within 64 bits. |
| `Admission.ProduceKeepsQueue` | internal/ledger/store.go:636-714 | What production leaves of a consecutive, covered queue is consecutive and covered. |
| `Admission.PrefixExecutes` | internal/ledger/store.go:636-714 | With at most 2^64-1 in circulation every prefix of a consecutive, covered queue executes; the case of `QueueExecutesIff` in which receivers cannot overflow. |
| `Admission.ProductionSucceeds` | internal/ledger/store.go:636-714 | With at most 2^64-1 in circulation such a queue produces a block for every size limit, and the remaining queue is again consecutive and covered; the bounded case of `QueueProducesIff`. |
| `LedgerSafety.EveryLocalRunIsSolvent` | internal/ledger/store.go:353-714 | In every run without imports and certified production, whatever was credited, the queue stays consecutive and covered. |
| `LedgerSafety.LocalProductionIff` | internal/ledger/store.go:636-714 | In every such run production succeeds if and only if something is queued and every selected transfer leaves its receiver within 64 bits; otherwise it reports the empty mempool or the broken invariant. |
| `LedgerSafety.ProductionNeverFails` | internal/ledger/store.go:636-714 | In every such run with total credit at most 2^64-1 a non-empty mempool always yields a block, whatever the size limit. |
| `LedgerSafety.OverfullProductionFails` | internal/ledger/store.go:678-681 | One unit more than 2^64-1 credited: a three-event run whose queue no block can execute. |
| `Voting.TallyForVotes` | internal/ledger/consensus_state.go:290-301 | The tally loop is the saturating sum of matching votes. |
| `Voting.TallyExact` | internal/ledger/consensus_state.go:290-301 | Over distinct voters with recorded powers the saturating tally is their exact power and never saturates. |
| `Voting.QuorumIsTwoThirds` | internal/ledger/consensus_state.go:233-255 | A quorum is the least power above two thirds of the total. |
| `Voting.ProposersGoAround` | internal/ledger/round_state.go:30-38 | While height and round do not overflow together, consecutive rounds go once around the validator list, in order, from the position that height and first round name. |
| `VotingSafety.RecordProposalKeeps` | internal/ledger/consensus_state.go:142-192 | Recording or replacing a proposal keeps the artifacts orderly. |
| `VotingSafety.RecordVoteKeeps` | internal/ledger/consensus_state.go:194-260 | Recording a vote, with or without a new certificate, keeps the artifacts orderly, and the reported tally is the exact power of the recorded voters. |
| `LedgerDecisions.RecordProposalIff` | internal/ledger/consensus_state.go:142-192 | A proposal is recorded if and only if it is well signed, builds on the tip at the next height, comes from an active validator scheduled for a round not yet passed, commits to the state its transactions lead to, and contradicts no recorded one. |
| `LedgerDecisions.RecordVoteIff` | internal/ledger/consensus_state.go:194-260 | A vote is recorded if and only if it is well signed, by an active validator who did not vote otherwise there, for a recorded proposal of the next height, in a round not yet passed. |
| `LedgerDecisions.EveryProposalIsScheduled` | internal/ledger/consensus_state.go:142-192 | In every run, through the proposal path and the evidence path alike, each recorded proposal is well signed by an active validator scheduled for its height and round. |
| `LedgerDecisions.EveryRunRound` | internal/ledger/consensus_state.go:142-260 | In every run the round belongs to the next height and starts again at zero with every block. |
| `CertificateSafety.RecordVoteCertifies` | internal/ledger/consensus_state.go:233-255 | A recorded vote is answered with its hash's certificate, which exists if and only if it did before or this new vote completes a positive quorum; no other hash is affected. |
| `CertificateSafety.CertifiedIffQuorum` | internal/ledger/consensus_state.go:194-260 | In every run with elected validators, through the vote path and the evidence path alike, a hash is certified at a height and round if and only if recorded voters for it hold a positive quorum. |
| `VotingSafety.CertificateAdded` | internal/ledger/consensus_state.go:235-255 | A sound certificate for an uncertified hash never meets another certificate at its height and round. |
| `LedgerSafety.EveryRunIsOrderly` | internal/ledger/consensus_state.go:142-260 | Every store reachable with distinct validator addresses is orderly: at every height and round it holds at most one proposal, one vote per validator and one certificate, and every certificate names active voters with recorded votes whose exact power reaches quorum, through both the vote path and the evidence path. |
| `LedgerSafety.CertifiedProductionHasQuorum` | internal/ledger/certified_production.go:10-31 | From every reachable store certified production appends exactly one block, for which voters of exact quorum power are on record. |
| `LedgerSafety.CheckedImportHasQuorum` | internal/ledger/store.go:822-846 | From every reachable store a block imported with the consensus check has voters of exact quorum power on record. |
| `LedgerDecisions.CheckedImportIff` | internal/ledger/store.go:822-846 | In every run a checked import succeeds if and only if the import does, there are validators, a recorded proposal describes the block and a certificate names it. |
| `LedgerDecisions.ProduceCertifiedIff` | internal/ledger/certified_production.go:10-69 | In every run certified production succeeds if and only if some certified proposal is producible and the newest one belongs to this chain, seals its block and imports. |
| `Evidence.AttachEvidence` | internal/ledger/certified_import.go:148-276 | Attaching evidence is the specified step, error for error. |
| `Evidence.CountVotes` | internal/ledger/certified_import.go:180-226 | The two counting loops are the specified counting of retained and offered votes. |
| `Evidence.EvidenceCounts` | internal/ledger/certified_import.go:180-226 | In an orderly store counting succeeds exactly on offerable votes and yields the exact power of the union of retained and offered voters. |
| `Evidence.AttachKeeps` | internal/ledger/certified_import.go:148-276 | Attached evidence keeps the artifacts orderly. |
| `Evidence.AttachIff` | internal/ledger/certified_import.go:148-276 | Evidence with a fitting proposal and offerable votes attaches if and only if the union reaches a positive quorum. |
| `LedgerDecisions.AttachExactly` | internal/ledger/certified_import.go:148-276 | Evidence attaches to an orderly store if and only if its proposal fits the block field by field and contradicts none, its votes are valid, distinct and unopposed, and retained and offered voters together hold a positive quorum. |
| `Merge.MergeEvidence` | internal/api/certified_block_recovery.go:87-128 | Merging a fragment yields the voter-sorted list of the merged table, in whatever order Go visits its maps, or the specified error. |
| `Merge.SplitIrrelevant` | internal/api/certified_block_recovery.go:87-128 | How votes are split over fragments does not change the merged table or its failure. |
| `Merge.MergeIff` | internal/api/certified_block_recovery.go:101-121 | Merging succeeds, in any order, exactly when all votes are valid votes on the proposal and votes of one voter agree; it keeps one vote per voter. |
| `Merge.MergeVoteIff` | internal/api/certified_block_recovery.go:101-121 | A vote joins the table if and only if it is well signed, for the proposal, and agrees with its voter's earlier vote in everything but the signature. |
| `Merge.FragmentsIff` | internal/api/certified_block_recovery.go:87-140 | Fragments must be for the block and agree on everything signed in the proposal; what the block itself fixes may differ. |
| `Merge.EvidenceImportIff` | internal/ledger/certified_import.go:118-276 | For a fitting proposal and unopposed votes, evidence import succeeds exactly when retained and offered voters together reach quorum, whatever the fragments and their order. |
| `Certified.FindProposalForProduction` | internal/ledger/certified_production.go:33-69 | The backward scan returns the newest producible proposal, or the specified error. |
| `Certified.LatestIsNewest` | internal/ledger/certified_production.go:39-57 | The proposal chosen is certified and no newer one is producible. |
| `LedgerDecisions.ForProductionIff` | internal/ledger/certified_production.go:33-69 | Production chooses the newest certified candidate with transactions, and without one reports a missing certificate, another template or a missing proposal, each exactly in its case. |
| `LedgerDecisions.SetValidatorsIff` | internal/ledger/store.go:305-333 | Validators are replaced if and only if their power fits in 64 bits; round and artifacts start again and nothing else changes. |
| `LedgerDecisions.AdvanceIff` | internal/ledger/consensus_queries.go:132-151 | The round advances by one, wrapping, if and only if there are validators. |
| `LedgerStore.Store.constructor` | internal/ledger/store.go:161-199 | A new store is the state of the empty run. |
| `LedgerStore.Store.CreditWithId` | internal/ledger/store.go:212-243 | The object takes the credit step of its run and returns the resulting account. |
| `LedgerStore.Store.AcceptTransaction` | internal/ledger/store.go:353-414 | The object takes the admission step; success appends exactly the transaction's ID to the queue. |
| `LedgerStore.Store.Produce` | internal/ledger/store.go:433-480 | The object takes the production step; success appends exactly the returned block. |
| `LedgerStore.Store.ProduceCertifiedBlock` | internal/ledger/certified_production.go:10-31 | The object takes the certified production step; success appends exactly the returned block. |
| `LedgerStore.Store.ImportBlockWithOptions` | internal/ledger/store.go:486-508 | The object takes the import step, with the consensus check when asked. |
| `LedgerStore.Store.ImportBlockWithEvidence` | internal/ledger/certified_import.go:118-146 | The object takes the evidence import step. |
| `LedgerStore.Store.InstallValidators` | internal/ledger/store.go:305-333 | Validators are replaced exactly when their power fits in 64 bits, and all artifacts are cleared. |
| `LedgerStore.Store.RecordSignedProposal` | internal/ledger/consensus_state.go:72-93 | The object takes the proposal step, with the same error. |
| `LedgerStore.Store.RecordSignedVote` | internal/ledger/consensus_state.go:99-120 | The object takes the vote step and returns the tally and certificate the new state holds. |
| `LedgerStore.Store.Advance` | internal/ledger/consensus_queries.go:132-151 | The round advances exactly when there are validators. |
| `LedgerStore.Store.Balances` | internal/ledger/store.go:212-820 | Whatever operations a store object has seen, its books balance. |
| `Compute.OfferMatchesJob` | internal/v2/compute/market.go:256-273 | An offer matches exactly when it covers resources, collateral and capabilities and supports the mode. |
| `Compute.AssignOnChain` | internal/v2/compute/onchain.go:17-50 | Assignment is the specified step, error for error, with the excess collateral returned. |
| `Compute.SubmitOnChainResult` | internal/v2/compute/onchain.go:52-83 | Result submission is the specified step, error for error. |
| `Compute.VerificationSatisfied` | internal/v2/compute/market.go:301-345 | The verdict of every mode is independent of the order results are visited in. |
| `Compute.FinalizeOnChain` | internal/v2/compute/onchain.go:85-118 | Finalization succeeds only on a unanimous non-zero root, in every mode, and pays everyone assigned. |
| `Compute.MajorityIff` | internal/v2/compute/onchain.go:134-140 | A strict majority root is unique, and the search finds it if and only if it exists. |
| `Compute.Leading` | internal/v2/compute/onchain.go:128-140 | Whatever order the counters are visited in, the leader is a maximum, and it is the strict majority exactly when there is one. |
| `Compute.Distribute` | internal/v2/compute/onchain.go:147-170 | The settlement loop pays, returns and slashes exactly by reported root, and fails exactly on 64-bit overflow. |
| `Compute.ResolveReplicatedMajority` | internal/v2/compute/onchain.go:124-177 | Majority resolution is the specified settlement, independent of map order. |
| `Compute.ExpireOnChain` | internal/v2/compute/onchain.go:179-190 | Expiry refunds the escrow and every collateral exactly for unfinished jobs past their deadline. |
| `ComputeDecisions.AssignIff` | internal/v2/compute/onchain.go:17-50 | An offer is assigned if and only if the job has not ended and needs it, it is in time, serves the job, comes from a new provider and keeps within budget and escrow; collateral beyond the required goes back. |
| `ComputeDecisions.SubmitIff` | internal/v2/compute/onchain.go:52-83 | A result is taken if and only if it is well-formed, for this job, in time, and from an assigned provider that has not reported; the last one needed makes the job await verification. |
| `ComputeDecisions.VerifiedIff` | internal/v2/compute/market.go:301-345 | Each mode's own evidence decides; the hybrid mode asks for any two kinds. |
| `ComputeDecisions.FinalizeIff` | internal/v2/compute/onchain.go:85-118 | A job finalizes if and only if every needed provider reported one non-zero root, the mode's evidence is there and the prices are in escrow. |
| `ComputeDecisions.FinalizePays` | internal/v2/compute/onchain.go:85-118 | Everyone assigned is paid its own price and gets its collateral back, and nobody else does. |
| `ComputeDecisions.ResolveTreats` | internal/v2/compute/onchain.go:124-177 | Majority resolution settles on the strict majority root; each provider that reported it gets its price and collateral, each other one nothing and is slashed. |
| `ComputeSafety.EveryJobIsSound` | internal/v2/compute/onchain.go:17-83 | Every record reached by assignments and submissions from a posted job has distinct providers, total price at most MaxPrice and at most the escrow, and results only from distinct assigned providers. |
| `ComputeSafety.EveryoneReported` | internal/v2/compute/onchain.go:52-83 | Once as many results as assignments are in, every assigned provider has reported. |
| `ComputeSafety.FinalizeConserves` | internal/v2/compute/onchain.go:85-118 | Payments plus refund are the escrow; returned collateral is all collateral. |
| `ComputeSafety.ResolveConserves` | internal/v2/compute/onchain.go:124-177 | Payments plus refund are the escrow; returned plus slashed collateral is all collateral; the reward is what was slashed. |
| `ComputeSafety.ExpireConserves` | internal/v2/compute/onchain.go:179-190 | Refund plus returned collateral is everything locked. |
| `ComputeSafety.ResolveIff` | internal/v2/compute/onchain.go:124-177 | A sound job resolves, in whatever status, if and only if three or more replicas have all reported with a strict majority and the slash fits in 64 bits. |
| `ComputeSafety.ResolveIgnoresStatus` | internal/v2/compute/onchain.go:124-177 | Majority resolution succeeds or fails alike, with the same settlement or error, in every status. |
| `ComputeSafety.ResolvePaysAgain` | internal/v2/compute/onchain.go:124-177 | A record that majority resolution settled is settled by it again, with the same payments. |
| `ComputeSafety.ResolvingTwicePaysTwice` | internal/v2/compute/onchain.go:124-177 | A concrete sound record that two majority resolutions pay twice. |
| `ComputeSafety.PayoutsCounted` | internal/v2/compute/onchain.go:85-190 | Over every life of a job, in any order of steps, payouts are one for its ending and one for each majority resolution that succeeds after it had ended. |
| `ComputeSafety.PaysAtMostOnceIff` | internal/v2/compute/onchain.go:85-190 | A sound job that has not ended pays out at most once if and only if majority resolution is never applied, after it has ended, to a record on which three or more replicas all reported with a strict majority and a slash that fits. |
| `ComputeSafety.PaysAtMostOnce` | internal/v2/compute/onchain.go:85-190 | If majority resolution only meets records awaiting verification, at most one settlement or expiry is paid out. |
| `ComputeSafety.EndedIsFinal` | internal/v2/compute/onchain.go:17-190 | Settled and expired records refuse assignment, results, finalization and expiry. |
| `ComputeSafety.UnanimousResolveIsFinalize` | internal/v2/compute/onchain.go:85-177 | With three or more unanimous replicas majority resolution equals plain finalization, whatever the evidence. |
| `ComputeWork.DeriveComputeCapitalComponents` | internal/v2/economics/compute_capital_components.go:63-109 | The loops derive exactly the specified components or error: the escrow alone when no collateral is required, otherwise one component per distinct provider within the 64-bit total. |
| `ComputeWork.DeriveItemizes` | internal/v2/economics/compute_capital_components.go:63-109 | Every derived set totals everything locked and itemizes each assignment once, sorted by provider, or lists nothing when no collateral is required. |
| `ComputeWork.DeriveIff` | internal/v2/economics/compute_capital_components.go:63-109 | Components are derived if and only if the record is well-formed with its budget in escrow and, when collateral is required, its providers are distinct and the total fits in 64 bits. |
| `ComputeWork.SoundDerivesIff` | internal/v2/economics/compute_capital_components.go:63-109 | For every sound record the derivation succeeds if and only if the locked total fits in 64 bits, and then reports that total. |
| `ComputeWork.EndingsDistributeLocked` | internal/v2/economics/compute_capital_components.go:63-109 | Finalization, majority resolution and expiry each hand out exactly the locked total, which is the derived total whenever the derivation succeeds. |
| `ComputeWork.ObserveVerifiedWork` | internal/v2/compute/work.go:251-274 | The observation pays the sum of the payment table, in any visiting order. |
| `ComputeWork.ObserveSettledRecord` | internal/v2/compute/settled_work.go:14-87 | The reconstruction from state alone is deterministic and pays exactly the assignments on the accepted root. |
| `ComputeWork.ObserveVerifiedIff` | internal/v2/compute/work.go:251-274 | Work is read off a settlement if and only if the job is settled, the settlement is its own and on a root, the workload is fully specified and the payments have a positive 64-bit sum; it reports exactly these. |
| `ComputeWork.ObserveSettledIff` | internal/v2/compute/settled_work.go:14-87 | Work is read off a record alone if and only if it is settled, specified, its results and assignments are proper and one root won; it reports that root and what its reporters were promised. |
| `ComputeWork.FinalizedObservedAlike` | internal/v2/compute/settled_work.go:14-87 | For every job finalized from a reachable record both observations agree in root, amount and work, and succeed exactly when the workload is approved. |
| `ComputeWork.ResolvedObservedAlike` | internal/v2/compute/settled_work.go:14-87 | The same for every job resolved by majority from a record awaiting verification. |
| `ComputeMarket.CommonRoot` | internal/v2/compute/market.go:284-299 | Whichever result is visited first, the match flag is unanimity and the root is a reported one. |
| `ComputeMarket.VerdictAgrees` | internal/v2/compute/market.go:205-216 | The market's verdict on an awaiting job is the chain's, whichever root it saw first. |
| `ComputeMarket.Market.PublishOffer` | internal/v2/compute/market.go:93-105 | Publishes exactly valid, unexpired, new offers. |
| `ComputeMarket.Market.PostJob` | internal/v2/compute/market.go:107-122 | A posted job mirrors a fresh on-chain record. |
| `ComputeMarket.Market.AssignOffer` | internal/v2/compute/market.go:124-167 | Succeeds exactly when the on-chain step does, with the same assignment, error and next record. |
| `ComputeMarket.Market.SubmitResult` | internal/v2/compute/market.go:169-203 | Succeeds exactly when the on-chain step does, with the same error and next record. |
| `ComputeMarket.Market.FinalizeJob` | internal/v2/compute/market.go:205-233 | Succeeds exactly when the on-chain step does, with the same root, payments and refund, and ends a job that had not ended. |
| `ComputeMarket.Market.ExpireJobs` | internal/v2/compute/market.go:235-247 | Expires exactly the jobs the on-chain step would expire and lists each of them once, in order. |
| `PriceIndex.ScaledRatio` | internal/v2/economics/compute_index.go:116-126 | The number of whole divisors in the scaled value; nothing exactly when the divisor is zero or that number is not a 64-bit one. |
| `PriceIndex.MedianSplits` | internal/v2/economics/compute_index.go:128-136 | Half of the samples are at most the median and half at least, for every sample count. |
| `PriceIndex.Ewma` | internal/v2/economics/compute_index.go:138-153 | Smoothing never overflows. |
| `PriceIndex.BlendBetween` | internal/v2/economics/compute_index.go:138-153 | A smoothed price lies between the prior and the current price, and is the current one without a prior. |
| `PriceIndex.BlendFloors` | internal/v2/economics/compute_index.go:138-153 | With a prior price the smoothed one is the floor of alpha parts of the median and the rest of the prior. |
| `PriceIndex.MedianOfTwo` | internal/v2/economics/compute_index.go:128-136 | For an even number of samples the median is the floor of the mean of the middle two. |
| `PriceIndex.ClassPriceBetween` | internal/v2/economics/compute_index.go:62-81 | Every active class price lies between its prior and its median, or is the median without a prior. |
| `PriceIndex.BasketBetween` | internal/v2/economics/compute_index.go:76-90 | The basket lies within any bounds on the active class prices. |
| `PriceIndex.IndexBounds` | internal/v2/economics/compute_index.go:82-95 | The published basket lies between the published active prices, and coverage never exceeds 10000. |
| `PriceIndex.IndexIff` | internal/v2/economics/compute_index.go:35-61 | An index is built if and only if the configuration is sane, some class has weight and every observation can be priced. |
| `PriceIndex.IndexMeans` | internal/v2/economics/compute_index.go:62-96 | The index publishes each class's sample count and, with enough samples and a weight, its smoothed median, the floor of their weighted mean, the floor of the covered weight share, and whether that suffices. |
| `PriceIndex.CoverageFits` | internal/v2/economics/compute_index.go:91-94 | The coverage ratio neither overflows nor needs its clamp. |
| `PriceIndex.IndexIgnoresOrder` | internal/v2/economics/compute_index.go:35-96 | The index depends only on the multiset of observations. |
| `PriceIndex.BuildComputeIndex` | internal/v2/economics/compute_index.go:35-96 | The loops compute the specified index; the smoothing, basket and coverage failure branches never act. |
| `EpochMetrics.AggregateEpochMetrics` | internal/v2/economics/epoch.go:117-201 | Aggregation succeeds exactly on coherent metrics whose totals, and opening plus demand, fit in 64 bits; coherent metrics fail exactly on those overflows, so its zero-capacity, supply and velocity branches never refuse. |
| `EpochMetrics.AggregateIgnoresOrder` | internal/v2/economics/epoch.go:117-201 | For every input the result is independent of order. |
| `EpochMetrics.AggregateKeeps` | internal/v2/economics/epoch.go:117-241 | Aggregates keep the fee and backlog identities, resource use within capacity and the velocity bound. |
| `EpochMetrics.AggregateMeans` | internal/v2/economics/epoch.go:117-201 | An aggregate carries the common epoch, every quantity's exact sum, whether all supply is reliable, and both utilizations. |
| `EpochMetrics.ValidIff` | internal/v2/economics/epoch.go:38-57 | Metrics are valid if and only if version, epoch, use within capacity, velocity, reliable supply, flow and fee allotment are in order. |
| `EpochMetrics.VelocityFloors` | internal/v2/economics/epoch.go:193-200 | The aggregate velocity is the floor of the supply-weighted mean. |
| `EpochMetrics.RatioFloors` | internal/v2/economics/monetary.go:173-184 | Ratios are floors in basis points, capped at the whole. |
| `EpochMetrics.BacklogKept` | internal/v2/economics/epoch.go:235-241 | Totals keep opening + demand = fulfilled + expired + backlog. |
| `EpochMetrics.FeesKept` | internal/v2/economics/epoch.go:50-56 | Totals keep burned + validator + reserve = charged fees. |
| `Collector.TxSteps` | internal/v2/economics/finalized_collector.go:257-302 | A transaction burns its fee from its own shard and keeps that shard's backlog balanced. |
| `Collector.ImportSteps` | internal/v2/economics/finalized_collector.go:322-336 | A receipt only moves value between shards. |
| `Collector.BlockKeeps` | internal/v2/economics/finalized_collector.go:150-245 | An accepted block leaves every shard balanced and within capacity and lowers total supply by exactly its fees. |
| `Collector.AdvanceKeeps` | internal/v2/economics/finalized_collector.go:505-530 | The next epoch opens balanced with the same supply. |
| `Collector.EveryRunBalances` | internal/v2/economics/finalized_collector.go:135-530 | After every run of blocks and epochs each shard satisfies opening + demand = fulfilled + expired + closing in unbounded integers, stays within capacity, and supply plus all burned fees is the initial supply. |
| `CollectorCounts.EveryRunCounts` | internal/v2/economics/finalized_collector.go:135-530 | After every run each shard's fees, operations, resources, capacity, demand, fulfilled, expired and supply are the sums over what it reported in the accepted blocks of the current epoch, each kind of job on its own, and the verified work lists every settled job in order. |
| `CollectorCounts.ReportsTotals` | internal/v2/economics/finalized_collector.go:472-503 | After every run the reported metrics of a shard are, name by name, the totals of what it observed in this epoch. |
| `CollectorCounts.SilentShard` | internal/v2/economics/finalized_collector.go:150-170 | A shard that a block does not mention reports nothing and loses its reliability. |
| `CollectorCounts.WorkIsFulfilment` | internal/v2/economics/finalized_collector.go:375-435 | In every run the epoch's verified work adds up to what all shards count as fulfilled. |
| `CollectorCounts.EveryRunExchanges` | internal/v2/economics/finalized_collector.go:257-372 | After every run each shard's supply is its initial one, plus what it received, less what it sent and its fees. |
| `CollectorCounts.TxIff` | internal/v2/economics/finalized_collector.go:257-302 | A transaction is observed if and only if it belongs to the shard and its result, its fee is covered, its coins have an age, its compute effect is readable and allowed, and the totals fit. |
| `CollectorCounts.ReceiptIff` | internal/v2/economics/finalized_collector.go:322-372 | A receipt is observed if and only if it arrives from another shard whose supply covers a readable amount that fits. |
| `CollectorCounts.ReportIff` | internal/v2/economics/finalized_collector.go:150-245 | A shard's report needs one result per transaction, and ends within its capacity. |
| `Collector.ReportsIff` | internal/v2/economics/finalized_collector.go:472-503 | For balanced shards a report is valid if and only if capacity was added, the flow fits in 64 bits, velocity is bounded and reliable supply covers what was fulfilled. |
| `EpochCollectorObject.EpochCollector.Create` | internal/v2/economics/finalized_collector.go:67-99 | A collector exists exactly for a positive epoch and shard count, a native token, the policy that burns every fee, a usable velocity policy and a positive capacity for every shard, and starts the empty run with the configured supply and backlog. |
| `EpochCollectorObject.EpochCollector.ObserveFinalizedBlock` | internal/v2/economics/finalized_collector.go:135-245 | A block is applied whole or not at all, and exactly when every shard's part is accepted. |
| `EpochCollectorObject.EpochCollector.NextEpoch` | internal/v2/economics/finalized_collector.go:505-530 | Only the successor epoch opens, with each closing backlog and the same supply. |
| `EpochCollectorObject.EpochCollector.FinalizeEpoch` | internal/v2/economics/finalized_collector.go:472-503 | Reports exactly when every shard is reportable: the metrics, which are coherent input for aggregation, and the epoch's verified work. |

## Left out

- GuardSafety.NeverTwoTargets: across power losses it assumes that openings find journals on stable storage, the exact condition of `OpeningIsSafeIffDurable`.
- ProposerRotation.RotationIsFair: is the case without wrapping of `RotationIsFairIff`, which has no such hypothesis.
- ComputeSafety.PaysAtMostOnce: is the case of a caller that tests the status; `PaysAtMostOnceIff` covers every caller.
- Merkle.BuildProof: beyond 2^32-1 leaves the proof's count and index are truncated and nothing is promised of it.
- Finality.Agreement: is per height and round; the protocol has no lock across rounds, so nothing is claimed between rounds, and liveness is not modelled.
- Admission.PrefixExecutes: is the case of bounded circulation; `QueueExecutesIff` and `Transfers.ExecuteIff` have no bound.
- LedgerSafety.ProductionNeverFails: is the case of bounded credit; `LocalProductionIff` has no bound.
- Admission.ProductionSucceeds: is the case of bounded circulation of `QueueProducesIff`. Both concern the balance, nonce and overflow checks; the state root is a total function here, while an unencodable commission rate would make the real root fail.
- Collector.EveryRunBalances: velocity is an input of each transaction, since its accumulator is outside this model; idle-capital tracking is assumed disabled.
- Compute.OfferMatchesJob: `ValidResources` treats only ASCII white space as blank, where the source trims Unicode white space.
- The state root is a function of accounts, validators and applied funding requests; the validator-set version and election configuration that the code also hashes are not part of the modelled state.
- Real cryptography (ECDSA over P-256, SHA-256, the verifiable random function): uninterpreted functions.
- The file system: directory creation, permissions, locks and directory sync around the guard journal; the atomic state file of the ledger store, whose write errors leave the store unchanged.
- Loading persisted JSON and snapshot restore: arbitrary external state.
- Block heights and collection sizes are unbounded naturals, as no slice can reach 2^63 elements.
- Round start times, queue times, recording times and the address copy inside an account: carried by the code, read by no rule modelled here.
- The consensus action log, diagnostics and peer incident history: bookkeeping around the same state changes.
- Proposal messages and the encodings of offers, jobs and job records: the first needs the header parser, the others trim or sort on writing.
- The parsing of transactions, objects and settlement receipts by the collector: each transaction arrives as its fee, sizes and compute effect.
- The work registry as an object: a map from workload to specification.
- HTTP handlers, transport, peer synchronisation, health and metrics endpoints.
- Monetary policy, base-fee control, token minting and burning, lending, device credentials: mostly one-branch rules.
