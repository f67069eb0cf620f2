/** When each ledger operation succeeds and what it leaves, said of the store's own fields. */
module LedgerDecisions {
  import opened Prelude
  import opened Ledger
  import opened Execution
  import opened Transfers
  import opened Admission
  import opened Voting
  import opened Evidence
  import opened Certified
  import opened LedgerRuns
  import opened LedgerSafety

  // ---------------------------------------------------------------- money and the queue

  /** A credit is refused only when it would overflow the account; a known request is answered without paying again. */
  lemma CreditIff(s: State, requestId: Bytes, to: Address, amount: u64)
    ensures var known := requestId != [] && requestId in s.funding;
            && (Credit(s, requestId, to, amount).Ok? <==> known || Lookup(s.accounts, to).balance + amount <= MAX_U64)
            && (Credit(s, requestId, to, amount).Ok? ==>
                  var t := Credit(s, requestId, to, amount).value;
                  && (known ==> t == s)
                  && (!known ==>
                        && Lookup(t.accounts, to).balance == Lookup(s.accounts, to).balance + amount
                        && (forall a :: Lookup(t.accounts, a).nonce == Lookup(s.accounts, a).nonce)
                        && (forall a :: a != to ==> Lookup(t.accounts, a) == Lookup(s.accounts, a))
                        && t == s.(accounts := t.accounts, funding := t.funding)
                        && t.funding == s.funding + (if requestId == [] then {} else {requestId})))
  {
  }

  /** With a consecutive, covered queue a transfer is accepted exactly when it is new, has its sender's next nonce and
      fits in what the queue leaves of the balance; it is then queued last. */
  lemma AcceptIff(env: Env, s: State, e: Envelope, now: Instant)
    requires Queued(s.accounts, Envelopes(s.mempool))
    ensures var queue, account := Envelopes(s.mempool), Lookup(s.accounts, e.from);
            && (Accept(env, s, e, now).Ok? <==>
                  && env.txId(e) !in s.committed && env.txId(e) !in Ids(s.mempool)
                  && e.nonce == account.nonce + CountFrom(queue, e.from) + 1
                  && e.amount + SumFrom(queue, e.from) <= account.balance)
            && (Accept(env, s, e, now).Ok? ==>
                  var t := Accept(env, s, e, now).value;
                  && t.mempool == s.mempool + [MempoolEntry(env.txId(e), now, e)]
                  && (forall a :: Lookup(t.accounts, a) == Lookup(s.accounts, a))
                  && t == s.(accounts := t.accounts, mempool := t.mempool))
  {
    hide CountFrom, SumFrom, LastNonce, Queued;
    QueuedCovers(s.accounts, Envelopes(s.mempool), e.from);
  }

  // ---------------------------------------------------------------- proposals and votes

  /** The root of the state that these transactions lead to. */
  ghost predicate RootAfter(env: Env, s: State, txs: seq<Envelope>, root: Bytes) {
    && (forall i :: 0 <= i < |txs| ==> env.validEnvelope(txs[i]))
    && Executable(s.accounts, txs, |txs|) && Execute(s.accounts, txs).Some?
    && root == env.stateRoot(Execute(s.accounts, txs).value, s.validators, s.funding)
  }

  lemma ExpectedRootIff(env: Env, s: State, txs: seq<Envelope>, root: Bytes)
    ensures ExpectedRoot(env, s, txs) == Ok(root) <==> RootAfter(env, s, txs, root)
  {
    hide Execute, Executable;
    assert txs[..|txs|] == txs;
    ExecuteIff(s.accounts, txs, |txs|);
  }

  /** A proposal is recorded exactly when it is well signed, builds on the tip with the next height, comes from an active
      validator scheduled for a round not yet passed, commits to the state its transactions lead to, and no other
      proposal of that height and round names another block or proposer. */
  lemma RecordProposalIff(env: Env, s: State, p: Proposal)
    requires OneProposal(s.proposals)
    ensures RecordProposal(env, s, p).Ok? <==>
            && env.validProposal(p) && s.validators != []
            && p.height == |s.blocks| + 1 && p.previousHash == TipHash(s.blocks) && s.round.round <= p.round
            && PowerOf(s.validators, p.proposer).Some?
            && ProposerFor(s.validators, p.height, p.round) in {[], p.proposer}
            && RootAfter(env, s, p.transactions, p.stateRoot)
            && forall i :: 0 <= i < |s.proposals| && Proposes(s.proposals[i], p.height, p.round) ==>
                 s.proposals[i].blockHash == p.blockHash && s.proposals[i].proposer == p.proposer
    ensures RecordProposal(env, s, p).Ok? ==>
              var t := RecordProposal(env, s, p).value;
              && t == s.(round := RoundState(s.round.height, p.round), proposals := t.proposals)
              && HasProposal(t.proposals, p.height, p.round, p.blockHash)
              && (forall q :: q in t.proposals ==> q == p || q in s.proposals)
              && exists q :: q in t.proposals && Proposes(q, p.height, p.round) && q.transactions == p.transactions
                             && q.transactionIds == p.transactionIds
  {
    hide ExpectedRoot, RootAfter, PowerOf, ProposerFor;
    ExpectedRootIff(env, s, p.transactions, p.stateRoot);
    if RecordProposal(env, s, p).Ok? {
      var t := RecordProposal(env, s, p).value;
      match FirstProposal(s.proposals, p.height, p.round)
      case None => assert t.proposals[|s.proposals|] == p;
      case Some(i) => assert t.proposals[i] == p || t.proposals[i] == s.proposals[i];
    }
  }

  /** A vote is recorded exactly when it is well signed, for a proposal recorded at the next height, by an active
      validator who has not voted otherwise there, in a round not yet passed. */
  lemma RecordVoteIff(env: Env, s: State, v: Vote)
    requires OneVote(s.votes)
    ensures RecordVote(env, s, v).Ok? <==>
            && env.validVote(v) && s.validators != [] && v.height == |s.blocks| + 1 && s.round.round <= v.round
            && PowerOf(s.validators, v.voter).Some? && HasProposal(s.proposals, v.height, v.round, v.blockHash)
            && forall i :: 0 <= i < |s.votes| && VotesAt(s.votes[i], v.height, v.round, v.voter) ==>
                 s.votes[i].vote.blockHash == v.blockHash
    ensures RecordVote(env, s, v).Ok? ==>
              var t := RecordVote(env, s, v).value.state;
              && t == s.(round := RoundState(s.round.height, v.round), votes := t.votes, certificates := t.certificates)
              && t.votes == (if FindVote(s.votes, v.height, v.round, v.voter).Some? then s.votes
                             else s.votes + [VoteRecord(v, PowerOf(s.validators, v.voter).value)])
  {
    hide PowerOf, HasProposal, Tally, Voters, Quorum, FindCertificate;
  }

  // ---------------------------------------------------------------- evidence

  /** The proposal describes the block, field by field, and comes from the active validator scheduled for its round. */
  ghost predicate Fits(env: Env, s: State, b: Block, p: Proposal) {
    && env.validProposal(p) && PowerOf(s.validators, p.proposer).Some?
    && p.height == b.height && p.blockHash == b.hash && p.previousHash == b.previousHash && p.stateRoot == b.stateRoot
    && p.producedAt == b.producedAt && p.transactionIds == b.transactionIds && p.transactions == b.transactions
    && p.proposer == ProposerFor(s.validators, p.height, p.round) != []
  }

  /** Evidence attaches to an orderly store exactly when its proposal fits the block and contradicts no recorded one, its
      votes are valid, distinct and unopposed, and retained and offered voters together hold a positive quorum. */
  lemma AttachExactly(env: Env, s: State, b: Block, e: CertifiedBlockEvidence)
    requires Orderly(env, s)
    ensures Attach(env, s, b, e).Ok? <==>
            && Fits(env, s, b, e.proposal) && Offerable(env, s, e.proposal, e.votes)
            && (forall i :: 0 <= i < |s.proposals| && Proposes(s.proposals[i], e.proposal.height, e.proposal.round) ==>
                  s.proposals[i].blockHash == e.proposal.blockHash && s.proposals[i].proposer == e.proposal.proposer)
            && (var voters := Voters(s.votes, e.proposal.height, e.proposal.round, e.proposal.blockHash) + Signers(e.votes);
                voters <= Addresses(s.validators) && 0 < Quorum(s.validators) <= PowerIn(s.validators, voters))
  {
    hide Orderly, CountEvidence, AppendFresh, Offerable, Voters, Signers, GoodFresh, Quorum, PowerIn, Addresses, PowerOf,
      ProposerFor;
    EvidenceCounts(env, s, e.proposal, e.votes);
    assert Fits(env, s, b, e.proposal) <==> ProposalFits(env, s.validators, b, e.proposal);
    if Fits(env, s, b, e.proposal) && Offerable(env, s, e.proposal, e.votes)
       && forall i :: 0 <= i < |s.proposals| ==> !Contradicts(s.proposals[i], e.proposal) {
      AttachIff(env, s, b, e);
    }
  }

  // ---------------------------------------------------------------- every proposal on record

  /** Every recorded proposal is well signed by an active validator its round was scheduled for. */
  ghost predicate AllScheduled(env: Env, s: State) {
    forall i :: 0 <= i < |s.proposals| ==> Scheduled(env, s.validators, s.proposals[i])
  }

  ghost predicate Scheduled(env: Env, vs: seq<Validator>, p: Proposal) {
    env.validProposal(p) && PowerOf(vs, p.proposer).Some? && ProposerFor(vs, p.height, p.round) in {[], p.proposer}
  }

  lemma RecordProposalScheduled(env: Env, s: State, p: Proposal)
    requires AllScheduled(env, s) && RecordProposal(env, s, p).Ok?
    ensures AllScheduled(env, RecordProposal(env, s, p).value)
  {
    hide ExpectedRoot, PowerOf, ProposerFor, FirstProposal;
    assert Scheduled(env, s.validators, p);
  }

  lemma AttachScheduled(env: Env, s: State, b: Block, e: CertifiedBlockEvidence)
    requires AllScheduled(env, s) && Attach(env, s, b, e).Ok?
    ensures AllScheduled(env, Attach(env, s, b, e).value)
  {
    hide CountEvidence, AppendFresh, PowerOf, ProposerFor, Quorum, FindCertificate;
    assert Scheduled(env, s.validators, e.proposal);
  }

  lemma SameScheduled(env: Env, s: State, t: State)
    requires AllScheduled(env, s) && t.validators == s.validators && t.proposals == s.proposals
    ensures AllScheduled(env, t)
  {
  }

  lemma VoteLeavesProposals(env: Env, s: State, v: Vote)
    requires RecordVote(env, s, v).Ok?
    ensures var t := RecordVote(env, s, v).value.state; t.validators == s.validators && t.proposals == s.proposals
  {
    hide PowerOf, HasProposal, Tally, Voters, Quorum, FindCertificate, FindVote;
  }

  lemma AttemptScheduled(env: Env, s: State, e: Event)
    requires AllScheduled(env, s) && Attempt(env, s, e).Ok?
    ensures AllScheduled(env, Attempt(env, s, e).value)
  {
    hide AllScheduled, Accept, Credit, Produce, Import, ConsensusObjection, ProposalForProduction, Attach, TotalPower,
      RecordVote, RecordProposal;
    var t := Attempt(env, s, e).value;
    match e
    case Crediting(_, _, _) => AdmissionLeavesArtifacts(env, s, e); SameScheduled(env, s, t);
    case Accepting(_, _) => AdmissionLeavesArtifacts(env, s, e); SameScheduled(env, s, t);
    case Producing(max, producedAt, now) =>
      ProduceLeavesArtifacts(env, s, max, producedAt, now);
      SameScheduled(env, s, t);
    case ProducingCertified(producedAt) =>
      ImportLeavesArtifacts(env, s, BlockFromProposal(env, ProposalForProduction(s, producedAt).value));
      SameScheduled(env, s, t);
    case Importing(b, _) => ImportLeavesArtifacts(env, s, b); SameScheduled(env, s, t);
    case ImportingEvidence(b, evidence) =>
      ImportLeavesArtifacts(env, s, b);
      AttachLeavesValidators(env, s, b, evidence);
      AttachScheduled(env, s, b, evidence);
      SameScheduled(env, Attach(env, s, b, evidence).value, t);
    case SettingValidators(vs) => NoneScheduled(env, t);
    case RecordingProposal(p) => RecordProposalScheduled(env, s, p);
    case RecordingVote(v) => VoteLeavesProposals(env, s, v); SameScheduled(env, s, t);
    case AdvancingRound => SameScheduled(env, s, t);
  }

  lemma NoneScheduled(env: Env, s: State)
    requires s.proposals == []
    ensures AllScheduled(env, s)
  {
  }

  /** In every run, through the proposal path and the evidence path alike, each recorded proposal is well signed by an
      active validator scheduled for its height and round. */
  lemma {:induction false} EveryProposalIsScheduled(env: Env, events: seq<Event>)
    ensures AllScheduled(env, Run(env, events))
  {
    hide Attempt, AllScheduled;
    if events == [] {
      NoneScheduled(env, EMPTY);
    } else {
      var front, last := events[..|events| - 1], events[|events| - 1];
      EveryProposalIsScheduled(env, front);
      var s := Run(env, front);
      if Attempt(env, s, last).Ok? {
        AttemptScheduled(env, s, last);
        SameScheduled(env, Attempt(env, s, last).value, Run(env, events));
      }
    }
  }

  // ---------------------------------------------------------------- certified production and checked import

  ghost predicate Describes(p: Proposal, b: Block) {
    && p.height == b.height && p.blockHash == b.hash && p.previousHash == b.previousHash
    && p.producedAt == b.producedAt && p.transactionIds == b.transactionIds && p.transactions == b.transactions
  }

  ghost predicate HasCertificate(s: State, height: nat, hash: Bytes) {
    exists i :: 0 <= i < |s.certificates| && s.certificates[i].height == height && s.certificates[i].blockHash == hash
  }

  /** In every run the consensus check passes a block exactly when there are validators, a recorded proposal describes
      the block and a certificate names its height and hash. */
  lemma ConsensusIff(env: Env, events: seq<Event>, b: Block)
    ensures var s := Run(env, events);
            ConsensusObjection(s, b).None? <==>
            && s.validators != [] && HasCertificate(s, b.height, b.hash)
            && exists i :: 0 <= i < |s.proposals| && Describes(s.proposals[i], b)
  {
    hide Run, ProposerFor, PowerOf;
    EveryProposalIsScheduled(env, events);
    var s := Run(env, events);
    var p := MatchProposal(s.proposals, b);
    if p.Some? {
      var i :| 0 <= i < |s.proposals| && s.proposals[i] == p.value;
      assert Scheduled(env, s.validators, s.proposals[i]) && Describes(s.proposals[i], b);
    }
  }

  /** In every run a checked import succeeds exactly when the import does and that consensus is on record. */
  lemma CheckedImportIff(env: Env, events: seq<Event>, b: Block)
    ensures var s := Run(env, events);
            ImportChecked(env, s, b, true).Ok? <==>
            && Import(env, s, b).Ok? && s.validators != [] && HasCertificate(s, b.height, b.hash)
            && exists i :: 0 <= i < |s.proposals| && Describes(s.proposals[i], b)
    ensures ImportChecked(env, Run(env, events), b, true).Ok? ==>
              ImportChecked(env, Run(env, events), b, true) == Import(env, Run(env, events), b)
  {
    hide Run, Import, ConsensusObjection;
    ConsensusIff(env, events, b);
  }

  /** In every run certified production succeeds exactly when some certified proposal of the next height is producible
      and the newest such one belongs to this chain, seals the block it describes, and imports. */
  lemma ProduceCertifiedIff(env: Env, events: seq<Event>, producedAt: Instant)
    ensures var s := Run(env, events);
            var p := LatestProducible(s, producedAt, |s.proposals|);
            && (ProduceCertified(env, s, producedAt).Ok? <==>
                  && p.Some? && s.validators != [] && p.value.chainId == env.chainId
                  && p.value.blockHash == env.blockHash(env.chainId, p.value.height, p.value.previousHash,
                                                        p.value.producedAt, p.value.stateRoot, p.value.transactionIds)
                  && Import(env, s, BlockFromProposal(env, p.value)).Ok?)
  {
    hide Run, Import, ConsensusObjection, FindCertificate;
    var s := Run(env, events);
    var p := LatestProducible(s, producedAt, |s.proposals|);
    if p.Some? {
      var b := BlockFromProposal(env, p.value);
      ConsensusIff(env, events, b);
      LatestIsRecorded(s, producedAt, |s.proposals|);
      var i :| 0 <= i < |s.proposals| && s.proposals[i] == p.value && Producible(s, producedAt, p.value);
      if p.value.chainId == env.chainId && p.value.blockHash == b.hash {
        assert Describes(s.proposals[i], b);
        CertificateFound(s, p.value);
      }
    }
  }

  lemma {:induction false} LatestIsRecorded(s: State, producedAt: Instant, n: nat)
    requires n <= |s.proposals| && LatestProducible(s, producedAt, n).Some?
    ensures var p := LatestProducible(s, producedAt, n).value;
            Producible(s, producedAt, p) && exists i :: 0 <= i < |s.proposals| && s.proposals[i] == p
  {
    hide Producible;
    if !Producible(s, producedAt, s.proposals[n - 1]) {
      LatestIsRecorded(s, producedAt, n - 1);
    }
  }

  lemma CertificateFound(s: State, p: Proposal)
    requires FindCertificate(s.certificates, p.height, p.round, p.blockHash).Some?
    ensures HasCertificate(s, p.height, p.blockHash)
  {
    var c := FindCertificate(s.certificates, p.height, p.round, p.blockHash).value;
    var i :| 0 <= i < |s.certificates| && s.certificates[i] == c;
    assert s.certificates[i].height == p.height;
  }

  // ---------------------------------------------------------------- rounds

  /** In every run the round belongs to the next height; a new block starts it again at zero. */
  lemma {:induction false} EveryRunRound(env: Env, events: seq<Event>)
    ensures var s := Run(env, events); s.round.height == |s.blocks| + 1
    ensures events != [] && |Run(env, events).blocks| != |Run(env, events[..|events| - 1]).blocks| ==>
              Run(env, events).round.round == 0
  {
    hide Attempt;
    if events != [] {
      EveryRunRound(env, events[..|events| - 1]);
      var s := Run(env, events[..|events| - 1]);
      if Attempt(env, s, events[|events| - 1]).Ok? && |Run(env, events).blocks| != |s.blocks| {
        NewHeightRound(env, s, events[|events| - 1]);
      }
    }
  }

  /** An operation that changes the chain carries the old round, or the one of a normalised store, with it. */
  lemma NewHeightRound(env: Env, s: State, e: Event)
    requires s.round.height == |s.blocks| + 1 && Attempt(env, s, e).Ok? && |Attempt(env, s, e).value.blocks| != |s.blocks|
    ensures Normalize(Attempt(env, s, e).value).round == RoundState(|Attempt(env, s, e).value.blocks| + 1, 0)
  {
    hide Accept, ConsensusObjection, ProposalForProduction, Attach, TotalPower, RecordVote, RecordProposal, Replay, Execute,
      Without;
    if e.RecordingProposal? || e.RecordingVote? {
      RecordLeavesLedger(env, s, e);
    } else if e.Accepting? {
      AcceptKeepsBlocks(env, s, e.envelope, e.now);
    }
  }

  lemma AcceptKeepsBlocks(env: Env, s: State, e: Envelope, now: Instant)
    requires Accept(env, s, e, now).Ok?
    ensures Accept(env, s, e, now).value.blocks == s.blocks
  {
    hide CountFrom, SumFrom, LastNonce, Lookup;
  }

  // ---------------------------------------------------------------- validators, rounds and the choice of a proposal

  /** Validators are replaced exactly when their power fits in 64 bits; the next height starts again at round zero with
      no artifacts, and nothing else changes. */
  lemma SetValidatorsIff(s: State, vs: seq<Validator>)
    ensures SetValidators(s, vs).Ok? <==> TotalPower(vs) <= MAX_U64
    ensures SetValidators(s, vs).Ok? ==>
              SetValidators(s, vs).value == State(s.accounts, s.mempool, s.blocks, s.committed, s.funding, vs,
                                                  RoundState(|s.blocks| + 1, 0), [], [], [])
  {
    hide TotalPower;
  }

  /** The round advances by one, wrapping at 64 bits, exactly when there are validators. */
  lemma AdvanceIff(s: State)
    ensures AdvanceRound(s).Ok? <==> s.validators != []
    ensures AdvanceRound(s).Ok? ==>
              var t := AdvanceRound(s).value;
              && t == s.(round := t.round) && t.round.height == s.round.height
              && t.round.round == (if s.round.round == MAX_U64 then 0 else s.round.round + 1)
  {
  }

  /** Proposal i can be produced at the next height, now or at the time asked for. */
  ghost predicate Candidate(s: State, producedAt: Instant, p: Proposal) {
    p.height == |s.blocks| + 1 && (producedAt == UNSET || p.producedAt == producedAt)
  }

  /** Production chooses the newest candidate with transactions, an ID for each and a certificate. Without one it asks for
      a certificate if there is a candidate, reports another template if there is only one of another time, and asks
      for a proposal if there is none at that height. */
  lemma ForProductionIff(s: State, producedAt: Instant)
    ensures var r := ProposalForProduction(s, producedAt);
            && (r.Ok? <==> exists i :: 0 <= i < |s.proposals| && Ripe(s, producedAt, s.proposals[i]))
            && (r.Ok? ==> exists i :: 0 <= i < |s.proposals| && s.proposals[i] == r.value && Ripe(s, producedAt, s.proposals[i])
                                      && forall j :: i < j < |s.proposals| ==> !Ripe(s, producedAt, s.proposals[j]))
            && (r.Err? ==>
                  r.error ==
                    if exists i :: 0 <= i < |s.proposals| && Candidate(s, producedAt, s.proposals[i])
                    then CertificateRequired
                    else if exists i :: 0 <= i < |s.proposals| && s.proposals[i].height == |s.blocks| + 1
                    then TemplateMismatch
                    else ProposalRequired)
  {
    hide FindCertificate;
    LatestIsNewest(s, producedAt, |s.proposals|);
    forall i | 0 <= i < |s.proposals|
      ensures Ripe(s, producedAt, s.proposals[i]) <==> Producible(s, producedAt, s.proposals[i]) {
    }
    assert SomeTimely(s, producedAt, 0) <==> exists i :: 0 <= i < |s.proposals| && Candidate(s, producedAt, s.proposals[i]);
  }

  ghost predicate Ripe(s: State, producedAt: Instant, p: Proposal) {
    && Candidate(s, producedAt, p) && 0 < |p.transactions| == |p.transactionIds|
    && FindCertificate(s.certificates, p.height, p.round, p.blockHash).Some?
  }
}
