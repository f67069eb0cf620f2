/** The ledger store: a mutable object whose every operation is one event of a run
    (internal/ledger/store.go, consensus_state.go, certified_import.go, consensus_queries.go). */
module LedgerStore {
  import opened Prelude
  import opened Ledger
  import opened Execution
  import opened Admission
  import opened Voting
  import opened VotingSafety
  import opened Evidence
  import opened Certified
  import opened LedgerRuns
  import opened LedgerSafety

  /** The checked sum of voting powers, None when it overflows. */
  method SumVotingPower(vs: seq<Validator>) returns (total: Option<u64>)
    ensures total.None? <==> TotalPower(vs) > MAX_U64
    ensures total.Some? ==> total.value == TotalPower(vs)
  {
    var sum: u64 := 0;
    var i := 0;
    while i < |vs|
      invariant 0 <= i <= |vs|
      invariant sum == TotalPower(vs[..i])
    {
      Prefix(vs, i);
      TotalGrows(vs, i + 1);
      if vs[i].votingPower > MAX_U64 - sum {
        return None;
      }
      sum := sum + vs[i].votingPower;
      i := i + 1;
    }
    assert vs[..i] == vs;
    return Some(sum);
  }

  lemma {:induction false} TotalGrows(vs: seq<Validator>, k: nat)
    requires k <= |vs|
    ensures TotalPower(vs[..k]) <= TotalPower(vs)
    decreases |vs|
  {
    if k == |vs| {
      assert vs[..k] == vs;
    } else {
      assert vs[..|vs| - 1][..k] == vs[..k];
      TotalGrows(vs[..|vs| - 1], k);
    }
  }

  class Store {
    const env: Env
    var accounts: Accounts
    var mempool: seq<MempoolEntry>
    var blocks: seq<Block>
    var committed: set<Bytes>
    var funding: set<Bytes>
    var validators: seq<Validator>
    var round: RoundState
    var proposals: seq<Proposal>
    var votes: seq<VoteRecord>
    var certificates: seq<CommitCertificate>
    ghost var history: seq<Event>

    function Snapshot(): State
      reads this
    {
      State(accounts, mempool, blocks, committed, funding, validators, round, proposals, votes, certificates)
    }

    /** The fields are what the run of all operations so far produces. */
    ghost predicate Valid()
      reads this
    {
      Snapshot() == Run(env, history)
    }

    constructor (env: Env)
      ensures Valid() && this.env == env && history == []
    {
      this.env := env;
      accounts, mempool, blocks, committed, funding := map[], [], [], {}, {};
      validators, round, proposals, votes, certificates := [], RoundState(1, 0), [], [], [];
      history := [];
    }

    method Overwrite(t: State)
      modifies this
      ensures Snapshot() == t && history == old(history)
    {
      accounts, mempool, blocks, committed, funding := t.accounts, t.mempool, t.blocks, t.committed, t.funding;
      validators, round, proposals, votes, certificates := t.validators, t.round, t.proposals, t.votes, t.certificates;
    }

    /** Replace the whole state by the outcome of a successful operation. */
    method Install(s: State, ghost e: Event)
      requires Valid() && Attempt(env, Snapshot(), e) == Ok(s)
      modifies this
      ensures Valid() && history == old(history) + [e]
      ensures Snapshot() == Step(env, old(Snapshot()), e)
    {
      hide Run, Attempt, Normalize;
      Overwrite(Normalize(s));
      RunSnoc(env, history, e);
      history := history + [e];
    }

    /** A refused operation changes nothing but the history. */
    ghost method Refuse(e: Event)
      requires Valid() && Attempt(env, Snapshot(), e).Err?
      modifies this`history
      ensures Valid() && history == old(history) + [e]
    {
      hide Run, Attempt;
      RunSnoc(env, history, e);
      history := history + [e];
    }

    method CreditWithId(requestId: Bytes, to: Address, amount: u64) returns (r: Result<Account>)
      requires Valid()
      modifies this
      ensures Valid() && history == old(history) + [Crediting(requestId, to, amount)]
      ensures r.Ok? <==> Attempt(env, old(Snapshot()), Crediting(requestId, to, amount)).Ok?
      ensures r.Err? ==> Attempt(env, old(Snapshot()), Crediting(requestId, to, amount)) == Err(r.error)
      ensures r.Ok? ==> r.value == Lookup(accounts, to)
    {
      hide Run;
      ghost var e := Crediting(requestId, to, amount);
      if requestId != [] && requestId in funding {
        Install(Snapshot(), e);
        return Ok(Lookup(accounts, to));
      }
      var account := Lookup(accounts, to);
      if amount > MAX_U64 - account.balance {
        Refuse(e);
        return Err(BalanceOverflow);
      }
      account := account.(balance := account.balance + amount);
      Install(Snapshot().(accounts := accounts[to := account],
                          funding := funding + (if requestId == [] then {} else {requestId})), e);
      return Ok(account);
    }

    method AcceptTransaction(envelope: Envelope, now: Instant) returns (r: Result<Bytes>)
      requires Valid()
      modifies this
      ensures Valid() && history == old(history) + [Accepting(envelope, now)]
      ensures r.Ok? <==> Attempt(env, old(Snapshot()), Accepting(envelope, now)).Ok?
      ensures r.Err? ==> Attempt(env, old(Snapshot()), Accepting(envelope, now)) == Err(r.error)
      ensures r.Ok? ==> r.value == env.txId(envelope) && Ids(mempool) == old(Ids(mempool)) + [r.value]
    {
      hide Run;
      ghost var e := Accepting(envelope, now);
      var s := AcceptEnvelope(env, Snapshot(), envelope, now);
      if s.Err? {
        Refuse(e);
        return Err(s.error);
      }
      Install(s.value, e);
      return Ok(env.txId(envelope));
    }

    method Produce(max: int, producedAt: Instant, now: Instant) returns (r: Result<Block>)
      requires Valid()
      modifies this
      ensures Valid() && history == old(history) + [Producing(max, producedAt, now)]
      ensures r.Ok? <==> Attempt(env, old(Snapshot()), Producing(max, producedAt, now)).Ok?
      ensures r.Err? ==> Attempt(env, old(Snapshot()), Producing(max, producedAt, now)) == Err(r.error)
      ensures r.Ok? ==> blocks == old(blocks) + [r.value]
    {
      hide Run;
      ghost var e := Producing(max, producedAt, now);
      var s := ProduceBlock(env, Snapshot(), max, producedAt, now);
      if s.Err? {
        Refuse(e);
        return Err(s.error);
      }
      Install(s.value.0, e);
      return Ok(s.value.1);
    }

    method ProduceCertifiedBlock(producedAt: Instant) returns (r: Result<Block>)
      requires Valid()
      modifies this
      ensures Valid() && history == old(history) + [ProducingCertified(producedAt)]
      ensures r.Ok? <==> Attempt(env, old(Snapshot()), ProducingCertified(producedAt)).Ok?
      ensures r.Err? ==> Attempt(env, old(Snapshot()), ProducingCertified(producedAt)) == Err(r.error)
      ensures r.Ok? ==> blocks == old(blocks) + [r.value]
    {
      hide Run, ProposalForProduction, ConsensusObjection, Import;
      ghost var e := ProducingCertified(producedAt);
      var s := Snapshot();
      var p := FindProposalForProduction(s, producedAt);
      if p.Err? || p.value.chainId != env.chainId {
        Refuse(e);
        return Err(if p.Err? then p.error else InvalidBlock);
      }
      var b := BlockFromProposal(env, p.value);
      var objection := ConsensusObjection(s, b);
      if objection.Some? {
        Refuse(e);
        return Err(objection.value);
      }
      var next := ImportBlock(env, s, b);
      if next.Err? || p.value.blockHash != b.hash {
        Refuse(e);
        return Err(if next.Err? then next.error else ProposalRequired);
      }
      ProducibleIsNext(s, producedAt);
      ImportAppends(env, s, b);
      Install(next.value, e);
      return Ok(b);
    }

    method ImportBlockWithOptions(b: Block, requireConsensus: bool) returns (r: Result<bool>)
      requires Valid()
      modifies this
      ensures Valid() && history == old(history) + [Importing(b, requireConsensus)]
      ensures r.Ok? <==> Attempt(env, old(Snapshot()), Importing(b, requireConsensus)).Ok?
      ensures r.Err? ==> Attempt(env, old(Snapshot()), Importing(b, requireConsensus)) == Err(r.error)
    {
      hide Run, ConsensusObjection, Import;
      ghost var e := Importing(b, requireConsensus);
      var s := Snapshot();
      var next := ImportBlock(env, s, b);
      if next.Err? {
        Refuse(e);
        return Err(next.error);
      }
      if requireConsensus {
        var objection := ConsensusObjection(s, b);
        if objection.Some? {
          Refuse(e);
          return Err(objection.value);
        }
      }
      Install(next.value, e);
      return Ok(true);
    }

    method ImportBlockWithEvidence(b: Block, evidence: CertifiedBlockEvidence) returns (r: Result<bool>)
      requires Valid()
      modifies this
      ensures Valid() && history == old(history) + [ImportingEvidence(b, evidence)]
      ensures r.Ok? <==> Attempt(env, old(Snapshot()), ImportingEvidence(b, evidence)).Ok?
      ensures r.Err? ==> Attempt(env, old(Snapshot()), ImportingEvidence(b, evidence)) == Err(r.error)
    {
      hide Run, Attach, Import;
      ghost var e := ImportingEvidence(b, evidence);
      var s := Snapshot();
      if |validators| == 0 {
        Refuse(e);
        return Err(NoValidatorSet);
      }
      var next := ImportBlock(env, s, b);
      if next.Err? {
        Refuse(e);
        return Err(next.error);
      }
      var attached := AttachEvidence(env, s, b, evidence);
      if attached.Err? {
        Refuse(e);
        return Err(attached.error);
      }
      Install(next.value.(proposals := attached.value.proposals, votes := attached.value.votes,
                          certificates := attached.value.certificates), e);
      return Ok(true);
    }

    method InstallValidators(vs: seq<Validator>) returns (r: Result<bool>)
      requires Valid()
      modifies this
      ensures Valid() && history == old(history) + [SettingValidators(vs)]
      ensures r.Ok? <==> TotalPower(vs) <= MAX_U64
      ensures r.Ok? ==> validators == vs && proposals == [] && votes == [] && certificates == []
    {
      hide Run, TotalPower;
      ghost var e := SettingValidators(vs);
      var total := SumVotingPower(vs);
      if total.None? {
        Refuse(e);
        return Err(VotingPowerOverflow);
      }
      Install(Snapshot().(validators := vs, round := RoundState(|blocks| + 1, 0), proposals := [], votes := [],
                          certificates := []), e);
      return Ok(true);
    }

    method RecordSignedProposal(p: Proposal) returns (r: Result<bool>)
      requires Valid()
      modifies this
      ensures Valid() && history == old(history) + [RecordingProposal(p)]
      ensures r.Ok? <==> Attempt(env, old(Snapshot()), RecordingProposal(p)).Ok?
      ensures r.Err? ==> Attempt(env, old(Snapshot()), RecordingProposal(p)) == Err(r.error)
    {
      hide Run, PowerOf, MayPropose, ExpectedRoot;
      ghost var e := RecordingProposal(p);
      var objection :=
        if !env.validProposal(p) then Some(InvalidMessage)
        else if |validators| == 0 then Some(NoValidatorSet)
        else if p.height != |blocks| + 1 then Some(HeightMismatch)
        else if p.previousHash != TipHash(blocks) then Some(PreviousHashMismatch)
        else if PowerOf(validators, p.proposer).None? then Some(ValidatorNotActive)
        else if p.round < round.round then Some(RoundMismatch)
        else if !MayPropose(validators, p) then Some(UnexpectedProposer)
        else None;
      if objection.Some? {
        Refuse(e);
        return Err(objection.value);
      }
      var expected := ComputeExpectedRoot(env, Snapshot(), p.transactions);
      if expected != Ok(p.stateRoot) {
        Refuse(e);
        return Err(TemplateMismatch);
      }
      var t := Snapshot().(round := round.(round := p.round));
      var first := FirstProposal(proposals, p.height, p.round);
      if first.Some? {
        var existing := proposals[first.value];
        if existing.blockHash != p.blockHash || existing.proposer != p.proposer {
          Refuse(e);
          return Err(ConflictingProposal);
        }
        if existing.transactionIds != p.transactionIds || existing.transactions != p.transactions {
          t := t.(proposals := proposals[first.value := p]);
        }
      } else {
        t := t.(proposals := proposals + [p]);
      }
      Install(t, e);
      return Ok(true);
    }

    /** Returns the tally and the certificate, if the block now has one. */
    method RecordSignedVote(v: Vote) returns (r: Result<(u64, Option<CommitCertificate>)>)
      requires Valid()
      modifies this
      ensures Valid() && history == old(history) + [RecordingVote(v)]
      ensures r.Ok? <==> Attempt(env, old(Snapshot()), RecordingVote(v)).Ok?
      ensures r.Err? ==> Attempt(env, old(Snapshot()), RecordingVote(v)) == Err(r.error)
      ensures r.Ok? ==> r.value.0 == Tally(votes, v.height, v.round, v.blockHash)
      ensures r.Ok? ==> r.value.1 == FindCertificate(certificates, v.height, v.round, v.blockHash)
    {
      hide Run, PowerOf, HasProposal, Tally, Quorum, Voters, FindCertificate, FindVote;
      ghost var e := RecordingVote(v);
      var objection :=
        if !env.validVote(v) then Some(InvalidMessage)
        else if |validators| == 0 then Some(NoValidatorSet)
        else if v.height != |blocks| + 1 then Some(HeightMismatch)
        else if v.round < round.round then Some(RoundMismatch)
        else if PowerOf(validators, v.voter).None? then Some(ValidatorNotActive)
        else if !HasProposal(proposals, v.height, v.round, v.blockHash) then Some(UnknownProposal)
        else None;
      if objection.Some? {
        Refuse(e);
        return Err(objection.value);
      }
      var t := Snapshot().(round := round.(round := v.round));
      var found := FindCertificate(certificates, v.height, v.round, v.blockHash);
      var existing := FindVote(votes, v.height, v.round, v.voter);
      if existing.Some? {
        if existing.value.blockHash != v.blockHash {
          Refuse(e);
          return Err(ConflictingVote);
        }
        var tally := TallyForVotes(votes, v.height, v.round, v.blockHash);
        Install(t, e);
        return Ok((tally, found));
      }
      var after := votes + [VoteRecord(v, PowerOf(validators, v.voter).value)];
      var tally := TallyForVotes(after, v.height, v.round, v.blockHash);
      var quorum := Quorum(validators);
      t := t.(votes := after);
      if found.None? && tally >= quorum && quorum > 0 {
        var created := CommitCertificate(v.height, v.round, v.blockHash, tally, quorum,
                                         Voters(after, v.height, v.round, v.blockHash));
        FindCertificateSnoc(certificates, created, v.height, v.round, v.blockHash);
        t := t.(certificates := certificates + [created]);
        found := Some(created);
      }
      Install(t, e);
      return Ok((tally, found));
    }

    method Advance() returns (r: Result<u64>)
      requires Valid()
      modifies this
      ensures Valid() && history == old(history) + [AdvancingRound]
      ensures r.Ok? <==> old(validators) != []
      ensures r.Ok? ==> r.value == round.round
    {
      hide Run;
      if |validators| == 0 {
        Refuse(AdvancingRound);
        return Err(NoValidatorSet);
      }
      Install(Snapshot().(round := round.(round := WrapAdd(round.round, 1))), AdvancingRound);
      return Ok(round.round);
    }

    /** Every store balances its books, whatever operations it has seen. */
    lemma Balances()
      requires Valid()
      ensures Kept(env, Snapshot(), TotalCredit(env, history))
    {
      EveryRunBalances(env, history);
    }
  }
}
