/** The v1 ledger state and the entities it stores
    (internal/ledger/store.go, internal/consensus/messages.go, internal/tx/envelope.go). */
module Ledger {
  import opened Prelude

  type Address = Bytes

  /** Points in time are opaque; UNSET is Go's zero time. */
  type Instant = int
  const UNSET: Instant := 0

  datatype Account = Account(balance: u64, nonce: u64)

  type Accounts = map<Address, Account>

  /** A signed transfer. `body` holds the fields execution never reads: chain ID, domain, memo, payload, key, signature. */
  datatype Envelope = Envelope(from: Address, to: Address, amount: u64, nonce: u64, body: Bytes)

  datatype MempoolEntry = MempoolEntry(id: Bytes, queuedAt: Instant, envelope: Envelope)

  datatype Block = Block(
    chainId: Bytes, height: nat, hash: Bytes, previousHash: Bytes, stateRoot: Bytes, producedAt: Instant,
    transactionCount: int, transactionIds: seq<Bytes>, transactions: seq<Envelope>)

  datatype Validator = Validator(address: Address, votingPower: u64)

  datatype Proposal = Proposal(
    chainId: Bytes, domain: Bytes, height: nat, round: u64, blockHash: Bytes, previousHash: Bytes,
    stateRoot: Bytes, producedAt: Instant, transactionIds: seq<Bytes>, transactions: seq<Envelope>,
    proposer: Address, payload: Bytes, publicKey: Bytes, signature: Bytes)

  datatype Vote = Vote(
    chainId: Bytes, domain: Bytes, height: nat, round: u64, blockHash: Bytes, voter: Address,
    payload: Bytes, publicKey: Bytes, signature: Bytes)

  datatype VoteRecord = VoteRecord(vote: Vote, votingPower: u64)

  /** Voters are kept as a set: the source stores them sorted, so equal sets are equal lists. */
  datatype CommitCertificate = CommitCertificate(
    height: nat, round: u64, blockHash: Bytes, votingPower: u64, quorumVotingPower: u64, voters: set<Address>)

  datatype RoundState = RoundState(height: nat, round: u64)

  datatype State = State(
    accounts: Accounts, mempool: seq<MempoolEntry>, blocks: seq<Block>, committed: set<Bytes>, funding: set<Bytes>,
    validators: seq<Validator>, round: RoundState,
    proposals: seq<Proposal>, votes: seq<VoteRecord>, certificates: seq<CommitCertificate>)

  /** Hashing and signature checking for one chain, left uninterpreted. */
  datatype Env = Env(
    chainId: Bytes,
    txId: Envelope -> Bytes,
    stateRoot: (Accounts, seq<Validator>, set<Bytes>) -> Bytes,
    blockHash: (Bytes, nat, Bytes, Instant, Bytes, seq<Bytes>) -> Bytes,
    validEnvelope: Envelope -> bool,
    validProposal: Proposal -> bool,
    validVote: Vote -> bool)

  datatype Error =
    | DuplicateTransaction | InvalidNonce | NonceExhausted | InsufficientBalance | BalanceOverflow
    | NoTransactionsToBlock | BlockInvariant | InvalidBlock | BlockOutOfSequence | BlockConflict
    | VotingPowerOverflow | NoValidatorSet | ValidatorNotActive | UnexpectedProposer | HeightMismatch
    | PreviousHashMismatch | RoundMismatch | ConflictingProposal | UnknownProposal | ConflictingVote
    | ProposalRequired | TemplateMismatch | CertificateRequired | InvalidMessage
    | EvidenceInvalid | EvidenceQuorum

  type Result<T> = Fallible<T, Error>

  /** The state of a freshly created store. */
  const EMPTY: State := State(map[], [], [], {}, {}, [], RoundState(1, 0), [], [], [])

  /** Accounts that were never touched read as zero. */
  function Lookup(accounts: Accounts, a: Address): Account {
    if a in accounts then accounts[a] else Account(0, 0)
  }

  function TipHash(blocks: seq<Block>): Bytes {
    if blocks == [] then [] else blocks[|blocks| - 1].hash
  }

  /** A round belongs to one height; a grown chain starts the next height at round zero. */
  function Normalize(s: State): State {
    if s.round.height == |s.blocks| + 1 then s else s.(round := RoundState(|s.blocks| + 1, 0))
  }

  function Commit(s: State, accounts: Accounts, mempool: seq<MempoolEntry>, b: Block): State {
    Normalize(s.(accounts := accounts, mempool := mempool, blocks := s.blocks + [b],
                 committed := s.committed + Elements(b.transactionIds)))
  }

  function Envelopes(entries: seq<MempoolEntry>): (r: seq<Envelope>)
    ensures |r| == |entries|
    ensures forall i :: 0 <= i < |r| ==> r[i] == entries[i].envelope
  {
    seq(|entries|, i requires 0 <= i < |entries| => entries[i].envelope)
  }

  function Ids(entries: seq<MempoolEntry>): (r: seq<Bytes>)
    ensures |r| == |entries|
    ensures forall i :: 0 <= i < |r| ==> r[i] == entries[i].id
  {
    seq(|entries|, i requires 0 <= i < |entries| => entries[i].id)
  }
}
