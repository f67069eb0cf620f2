/** Safety of the ledger's consensus artifacts and of its mempool over whole runs. */
module LedgerSafety {
  import opened Prelude
  import opened Ledger
  import opened Execution
  import opened Transfers
  import opened Admission
  import opened Voting
  import opened VotingSafety
  import opened Evidence
  import opened Certified
  import opened LedgerRuns

  // ---------------------------------------------------------------- consensus artifacts

  /** The election hands the store validator lists with distinct addresses. */
  ghost predicate Elected(e: Event) {
    e.SettingValidators? ==> DistinctAddresses(e.validators)
  }

  ghost predicate SameArtifacts(s: State, t: State) {
    t.validators == s.validators && t.proposals == s.proposals && t.votes == s.votes && t.certificates == s.certificates
  }

  lemma SetValidatorsKeeps(env: Env, s: State, vs: seq<Validator>)
    requires DistinctAddresses(vs) && SetValidators(s, vs).Ok?
    ensures Orderly(env, SetValidators(s, vs).value)
  {
  }

  lemma ImportLeavesArtifacts(env: Env, s: State, b: Block)
    requires Import(env, s, b).Ok?
    ensures SameArtifacts(s, Import(env, s, b).value)
  {
  }

  lemma AttachLeavesValidators(env: Env, s: State, b: Block, e: CertifiedBlockEvidence)
    requires Attach(env, s, b, e).Ok?
    ensures Attach(env, s, b, e).value.validators == s.validators
  {
  }

  lemma ProduceLeavesArtifacts(env: Env, s: State, max: int, producedAt: Instant, now: Instant)
    requires Produce(env, s, max, producedAt, now).Ok?
    ensures SameArtifacts(s, Produce(env, s, max, producedAt, now).value.0)
  {
  }

  lemma AdmissionLeavesArtifacts(env: Env, s: State, e: Event)
    requires (e.Crediting? || e.Accepting? || e.AdvancingRound?) && Attempt(env, s, e).Ok?
    ensures SameArtifacts(s, Attempt(env, s, e).value)
  {
    hide CountFrom, SumFrom, LastNonce;
  }

  lemma AttemptOrderly(env: Env, s: State, e: Event)
    requires Orderly(env, s) && Elected(e) && Attempt(env, s, e).Ok?
    ensures Orderly(env, Attempt(env, s, e).value)
  {
    hide Artifacts, Accept, Credit, Produce, Import, ConsensusObjection, ProposalForProduction, Attach, TotalPower,
      RecordVote, RecordProposal, SetValidators, DistinctAddresses;
    var t := Attempt(env, s, e).value;
    match e
    case Crediting(_, _, _) => AdmissionLeavesArtifacts(env, s, e);
    case Accepting(_, _) => AdmissionLeavesArtifacts(env, s, e);
    case Producing(max, producedAt, now) => ProduceLeavesArtifacts(env, s, max, producedAt, now);
    case ProducingCertified(producedAt) =>
      ImportLeavesArtifacts(env, s, BlockFromProposal(env, ProposalForProduction(s, producedAt).value));
    case Importing(b, _) => ImportLeavesArtifacts(env, s, b);
    case ImportingEvidence(b, evidence) =>
      ImportLeavesArtifacts(env, s, b);
      AttachLeavesValidators(env, s, b, evidence);
      AttachKeeps(env, s, b, evidence, Attach(env, s, b, evidence).value);
    case SettingValidators(vs) => SetValidatorsKeeps(env, s, vs);
    case RecordingProposal(p) => RecordProposalKeeps(env, s, p, t);
    case RecordingVote(v) => RecordVoteKeeps(env, s, v, RecordVote(env, s, v).value);
    case AdvancingRound => AdmissionLeavesArtifacts(env, s, e);
  }

  /** Every reachable store has at most one proposal per height and round, one vote per validator there, one
      certified hash, and certificates of exact quorum power, through the vote path and the evidence path alike. */
  lemma EveryRunIsOrderly(env: Env, events: seq<Event>)
    requires forall i :: 0 <= i < |events| ==> Elected(events[i])
    ensures Orderly(env, Run(env, events))
    ensures var ps := Run(env, events).proposals;
            forall i, j :: 0 <= i < |ps| && 0 <= j < |ps| && i != j ==>
              ps[i].height != ps[j].height || ps[i].round != ps[j].round
    ensures var vs := Run(env, events).votes;
            forall i, j :: 0 <= i < |vs| && 0 <= j < |vs| && i != j ==>
              vs[i].vote.height != vs[j].vote.height || vs[i].vote.round != vs[j].vote.round
              || vs[i].vote.voter != vs[j].vote.voter
    ensures var cs := Run(env, events).certificates;
            forall i, j :: 0 <= i < |cs| && 0 <= j < |cs| && i != j ==>
              cs[i].height != cs[j].height || cs[i].round != cs[j].round
  {
    hide Orderly, Attempt, Elected;
    RunOrderly(env, events);
    OrderlyMeans(env, Run(env, events));
  }

  lemma {:induction false} RunOrderly(env: Env, events: seq<Event>)
    requires forall i :: 0 <= i < |events| ==> Elected(events[i])
    ensures Orderly(env, Run(env, events))
  {
    hide Artifacts, Attempt, Elected;
    if events == [] {
      EmptyOrderly(env);
    } else {
      var front, last := events[..|events| - 1], events[|events| - 1];
      RunOrderly(env, front);
      var s := Run(env, front);
      if Attempt(env, s, last).Ok? {
        AttemptOrderly(env, s, last);
      }
    }
  }

  lemma EmptyOrderly(env: Env)
    ensures Orderly(env, EMPTY)
  {
  }

  /** A certificate of the store vouches for this block with quorum power. */
  ghost predicate Vouched(s: State, b: Block) {
    exists i :: 0 <= i < |s.certificates| && s.certificates[i].height == b.height && s.certificates[i].blockHash == b.hash
                && GoodCertificate(s.validators, s.votes, s.certificates[i])
  }

  lemma UnobjectedIsVouched(env: Env, s: State, b: Block)
    requires Orderly(env, s) && ConsensusObjection(s, b).None?
    ensures Vouched(s, b)
  {
    hide GoodCertificate, GoodVotes, MatchProposal, ProposerFor;
    var i :| 0 <= i < |s.certificates| && s.certificates[i].height == b.height && s.certificates[i].blockHash == b.hash;
    assert GoodCertificate(s.validators, s.votes, s.certificates[i]);
  }

  lemma ProducibleIsNext(s: State, producedAt: Instant)
    requires ProposalForProduction(s, producedAt).Ok?
    ensures ProposalForProduction(s, producedAt).value.height == |s.blocks| + 1
  {
    hide FindCertificate;
    LatestIsNewest(s, producedAt, |s.proposals|);
  }

  lemma ImportAppends(env: Env, s: State, b: Block)
    requires Import(env, s, b).Ok? && b.height == |s.blocks| + 1
    ensures Import(env, s, b).value.blocks == s.blocks + [b]
  {
    hide Replay, Without;
  }

  /** From every reachable store, certified production appends exactly one block, and voters of exact quorum
      power are on record for it. */
  lemma CertifiedProductionHasQuorum(env: Env, events: seq<Event>, producedAt: Instant)
    requires forall i :: 0 <= i < |events| ==> Elected(events[i])
    requires ProduceCertified(env, Run(env, events), producedAt).Ok?
    ensures var s := Run(env, events);
            var (next, b) := ProduceCertified(env, s, producedAt).value;
            Vouched(s, b) && next.blocks == s.blocks + [b]
  {
    hide Run, Orderly, ConsensusObjection, ProposalForProduction, Import, Elected, Vouched;
    var s := Run(env, events);
    EveryRunIsOrderly(env, events);
    ProducibleIsNext(s, producedAt);
    ImportAppends(env, s, ProduceCertified(env, s, producedAt).value.1);
    UnobjectedIsVouched(env, s, ProduceCertified(env, s, producedAt).value.1);
  }

  /** The same for every block imported with the consensus check. */
  lemma CheckedImportHasQuorum(env: Env, events: seq<Event>, b: Block)
    requires forall i :: 0 <= i < |events| ==> Elected(events[i])
    requires ImportChecked(env, Run(env, events), b, true).Ok?
    ensures Vouched(Run(env, events), b)
  {
    hide Run, Orderly, ConsensusObjection, Import, Elected, Vouched;
    EveryRunIsOrderly(env, events);
    UnobjectedIsVouched(env, Run(env, events), b);
  }

  // ---------------------------------------------------------------- the mempool

  /** Events that neither import a block nor commit a certified one. */
  ghost predicate Local(e: Event) {
    !e.Importing? && !e.ImportingEvidence? && !e.ProducingCertified?
  }

  ghost predicate Solvent(s: State) {
    Queued(s.accounts, Envelopes(s.mempool))
  }

  lemma AttemptSolvent(env: Env, s: State, e: Event)
    requires Solvent(s) && Local(e) && Attempt(env, s, e).Ok?
    ensures Solvent(Attempt(env, s, e).value)
  {
    hide Queued, Total, Accept, Credit, Produce, RecordVote, RecordProposal, TotalPower;
    var t := Attempt(env, s, e).value;
    match e
    case Crediting(requestId, to, amount) => CreditKeepsQueue(s, requestId, to, amount, t);
    case Accepting(envelope, now) => AcceptKeepsQueue(env, s, envelope, now, t);
    case Producing(max, producedAt, now) => ProduceKeepsQueue(env, s, max, producedAt, now);
    case SettingValidators(vs) =>
    case RecordingProposal(p) => RecordLeavesLedger(env, s, e);
    case RecordingVote(v) => RecordLeavesLedger(env, s, e);
    case AdvancingRound =>
  }

  /** In every run of local events queued nonces are consecutive from the account nonce and queued amounts are
      covered, whatever was credited. */
  lemma {:induction false} EveryLocalRunIsSolvent(env: Env, events: seq<Event>)
    requires forall i :: 0 <= i < |events| ==> Local(events[i])
    ensures Solvent(Run(env, events))
  {
    hide Queued, Attempt, Local;
    if events == [] {
      EmptySolvent();
    } else {
      var front, last := events[..|events| - 1], events[|events| - 1];
      EveryLocalRunIsSolvent(env, front);
      var s := Run(env, front);
      if Attempt(env, s, last).Ok? {
        AttemptSolvent(env, s, last);
      }
    }
  }

  lemma EmptySolvent()
    ensures Solvent(EMPTY)
  {
  }

  /** In every such run production succeeds exactly when something is queued and every selected transfer has room
      at its receiver; otherwise it reports the empty mempool or the overflow. */
  lemma LocalProductionIff(env: Env, events: seq<Event>, max: int, producedAt: Instant, now: Instant)
    requires forall i :: 0 <= i < |events| ==> Local(events[i])
    ensures var s := Run(env, events);
            && (Produce(env, s, max, producedAt, now).Ok? <==> s.mempool != [] && RoomFor(s, max))
            && (s.mempool == [] ==> Produce(env, s, max, producedAt, now) == Err(NoTransactionsToBlock))
            && (s.mempool != [] && !RoomFor(s, max) ==> Produce(env, s, max, producedAt, now) == Err(BlockInvariant))
  {
    hide Queued, Run, RoomFor, Execute;
    EveryLocalRunIsSolvent(env, events);
    QueueProducesIff(env, Run(env, events), max, producedAt, now);
  }

  /** So with at most 2^64-1 credited a non-empty mempool always yields a block, whatever its size limit. */
  lemma ProductionNeverFails(env: Env, events: seq<Event>, max: int, producedAt: Instant, now: Instant)
    requires forall i :: 0 <= i < |events| ==> Local(events[i])
    requires TotalCredit(env, events) <= MAX_U64 && Run(env, events).mempool != []
    ensures Produce(env, Run(env, events), max, producedAt, now).Ok?
  {
    hide Queued, Total, Run, TotalCredit, Produce, RoomFor, Minted, Numbered, Catalogued;
    EveryRunBalances(env, events);
    EveryLocalRunIsSolvent(env, events);
    BoundedHasRoom(Run(env, events), max);
    LocalProductionIff(env, events, max, producedAt, now);
  }

  // ---------------------------------------------------------------- the credit bound is needed

  const PAYER: Address := [1]
  const PAYEE: Address := [2]

  function Payment(): Envelope {
    Envelope(PAYER, PAYEE, 1, 1, [])
  }

  function TooMuchCredit(): seq<Event> {
    [Crediting([], PAYER, 1), Crediting([], PAYEE, MAX_U64), Accepting(Payment(), 1)]
  }

  lemma RunSnoc(env: Env, events: seq<Event>, e: Event)
    ensures Run(env, events + [e]) == Step(env, Run(env, events), e)
    ensures TotalCredit(env, events + [e]) == TotalCredit(env, events) + Minted(Run(env, events), e)
  {
    assert (events + [e])[..|events|] == events;
  }

  function FundedAccounts(): Accounts {
    map[PAYER := Account(1, 0), PAYEE := Account(MAX_U64, 0)]
  }

  lemma BothFunded(env: Env)
    ensures var events := TooMuchCredit()[..2];
            Run(env, events) == EMPTY.(accounts := FundedAccounts()) && TotalCredit(env, events) == U64_LIMIT
  {
    hide Attempt;
    var events := TooMuchCredit();
    assert events[..1] == [] + [events[0]] && events[..2] == events[..1] + [events[1]];
    RunSnoc(env, [], events[0]);
    RunSnoc(env, events[..1], events[1]);
    var a := EMPTY.(accounts := map[PAYER := Account(1, 0)]);
    assert PAYER[0] != PAYEE[0] && EMPTY.funding + {} == EMPTY.funding;
    CreditStep(env, EMPTY, events[0], a);
    assert a.accounts[PAYEE := Account(MAX_U64, 0)] == FundedAccounts();
    CreditStep(env, a, events[1], EMPTY.(accounts := FundedAccounts()));
  }

  lemma CreditStep(env: Env, s: State, e: Event, t: State)
    requires e.Crediting? && Credit(s, e.requestId, e.to, e.amount) == Ok(t) && Normalize(t) == t
    ensures Step(env, s, e) == t
  {
  }

  /** One unit more than 2^64-1 in circulation and the queue holds a transfer no block can execute. */
  lemma OverfullRun(env: Env)
    ensures TotalCredit(env, TooMuchCredit()) == U64_LIMIT
    ensures forall i :: 0 <= i < 3 ==> Local(TooMuchCredit()[i])
    ensures var s := Run(env, TooMuchCredit());
            s.accounts == FundedAccounts() && s.mempool == [MempoolEntry(env.txId(Payment()), 1, Payment())]
  {
    var events := TooMuchCredit();
    assert events == events[..2] + [events[2]];
    BothFunded(env);
    RunSnoc(env, events[..2], events[2]);
    assert FundedAccounts()[PAYER := Account(1, 0)] == FundedAccounts();
  }

  lemma OverfullProductionFails(env: Env, max: int, producedAt: Instant, now: Instant)
    ensures Run(env, TooMuchCredit()).mempool != []
    ensures Produce(env, Run(env, TooMuchCredit()), max, producedAt, now) == Err(BlockInvariant)
  {
    hide Run;
    OverfullRun(env);
    var s := Run(env, TooMuchCredit());
    var n := Selected(|s.mempool|, max);
    assert n == 1 && s.mempool[..n] == s.mempool;
    var txs := Envelopes(s.mempool[..n]);
    assert txs[..1] == txs && txs[0] == Payment();
    ExecuteNothing(s.accounts, txs);
    ExecuteStep(s.accounts, txs, 0, s.accounts);
    assert Transfer(s.accounts, Payment()).None? by {
      assert Lookup(s.accounts, PAYER) == Account(1, 0) && Lookup(s.accounts, PAYEE) == Account(MAX_U64, 0);
    }
  }
}
