/** Certified means that a quorum of recorded votes exists, in every reachable store. */
module CertificateSafety {
  import opened Prelude
  import opened Ledger
  import opened Execution
  import opened Admission
  import opened Voting
  import opened VotingSafety
  import opened Evidence
  import opened Certified
  import opened LedgerRuns
  import opened LedgerSafety

  /** The recorded voters for a hash at a height and round hold a positive quorum. */
  ghost predicate QuorumRecorded(vs: seq<Validator>, votes: seq<VoteRecord>, height: nat, round: u64, hash: Bytes) {
    var voters := Voters(votes, height, round, hash);
    voters <= Addresses(vs) && 0 < Quorum(vs) <= PowerIn(vs, voters)
  }

  /** Every quorum on record has its certificate. */
  ghost predicate Complete(s: State) {
    forall height, round, hash :: QuorumRecorded(s.validators, s.votes, height, round, hash) ==>
      FindCertificate(s.certificates, height, round, hash).Some?
  }

  lemma VotersElsewhere(votes: seq<VoteRecord>, r: VoteRecord, height: nat, round: u64, hash: Bytes)
    requires !VotesFor(r, height, round, hash)
    ensures Voters(votes + [r], height, round, hash) == Voters(votes, height, round, hash)
  {
    assert (votes + [r])[..|votes|] == votes;
    VotersSnoc(votes + [r], height, round, hash);
  }

  // ---------------------------------------------------------------- the vote path

  /** A recorded vote is answered with the certificate of its hash, which exists exactly when it did before or this
      new vote completes a quorum; no other hash gains or loses one. */
  lemma RecordVoteCertifies(env: Env, s: State, v: Vote, next: Recorded)
    requires Orderly(env, s) && RecordVote(env, s, v) == Ok(next)
    ensures next.certificate == FindCertificate(next.state.certificates, v.height, v.round, v.blockHash)
    ensures next.certificate.Some? <==>
            || FindCertificate(s.certificates, v.height, v.round, v.blockHash).Some?
            || (&& FindVote(s.votes, v.height, v.round, v.voter).None?
                && QuorumRecorded(s.validators, next.state.votes, v.height, v.round, v.blockHash))
    ensures forall h, r, hash :: h != v.height || r != v.round || hash != v.blockHash ==>
              FindCertificate(next.state.certificates, h, r, hash) == FindCertificate(s.certificates, h, r, hash)
  {
    hide Artifacts, PowerOf, HasProposal, Quorum, Tally, Voters, PowerIn, Addresses, FindCertificate, FindVote;
    RecordVoteKeeps(env, s, v, next);
    if next.state.certificates != s.certificates {
      var created := next.certificate.value;
      assert next.state.certificates == s.certificates + [created];
      forall h, r, hash ensures FindCertificate(s.certificates + [created], h, r, hash) ==
                                (var found := FindCertificate(s.certificates, h, r, hash);
                                 if found.Some? then found else if Certifies(created, h, r, hash) then Some(created) else None) {
        FindCertificateSnoc(s.certificates, created, h, r, hash);
      }
    }
  }

  lemma RecordVoteComplete(env: Env, s: State, v: Vote, next: Recorded)
    requires Orderly(env, s) && Complete(s) && RecordVote(env, s, v) == Ok(next)
    ensures Complete(next.state)
  {
    hide Artifacts, PowerOf, HasProposal, QuorumRecorded, Tally, Voters, PowerIn, Addresses, FindCertificate, FindVote,
      RecordVote;
    RecordVoteCertifies(env, s, v, next);
    RecordVoteAdds(env, s, v, next);
    forall h, r, hash | QuorumRecorded(s.validators, next.state.votes, h, r, hash)
      ensures FindCertificate(next.state.certificates, h, r, hash).Some? {
      if h != v.height || r != v.round || hash != v.blockHash {
        if next.state.votes != s.votes {
          var record := VoteRecord(v, PowerOf(s.validators, v.voter).value);
          VotersElsewhere(s.votes, record, h, r, hash);
          SameVoters(s.validators, s.votes, next.state.votes, h, r, hash);
        }
      }
    }
  }

  lemma SameVoters(vs: seq<Validator>, a: seq<VoteRecord>, b: seq<VoteRecord>, height: nat, round: u64, hash: Bytes)
    requires Voters(a, height, round, hash) == Voters(b, height, round, hash)
    ensures QuorumRecorded(vs, a, height, round, hash) <==> QuorumRecorded(vs, b, height, round, hash)
  {
  }

  lemma RecordVoteAdds(env: Env, s: State, v: Vote, next: Recorded)
    requires RecordVote(env, s, v) == Ok(next)
    ensures next.state.validators == s.validators && PowerOf(s.validators, v.voter).Some?
    ensures next.state.votes == if FindVote(s.votes, v.height, v.round, v.voter).None?
                                then s.votes + [VoteRecord(v, PowerOf(s.validators, v.voter).value)] else s.votes
  {
    hide PowerOf, HasProposal, Quorum, Tally, Voters, FindCertificate, FindVote;
  }

  // ---------------------------------------------------------------- the evidence path

  lemma {:induction false} FreshElsewhere(env: Env, vs: seq<Validator>, p: Proposal, votes: seq<VoteRecord>,
                                          added: seq<VoteRecord>, height: nat, round: u64, hash: Bytes)
    requires GoodFresh(env, vs, p, added) && (height != p.height || round != p.round || hash != p.blockHash)
    ensures Voters(AppendFresh(votes, added), height, round, hash) == Voters(votes, height, round, hash)
  {
    hide Voters, PowerOf, FindVote;
    if added != [] {
      var front, last := added[..|added| - 1], added[|added| - 1];
      FreshElsewhere(env, vs, p, votes, front, height, round, hash);
      assert VoteOn(last.vote, p);
      VotersElsewhere(AppendFresh(votes, front), last, height, round, hash);
    }
  }

  lemma AttachComplete(env: Env, s: State, b: Block, e: CertifiedBlockEvidence, next: State)
    requires Orderly(env, s) && Complete(s) && Attach(env, s, b, e) == Ok(next)
    ensures Complete(next)
  {
    hide Artifacts, CountEvidence, ProposalFits, AppendFresh, Voters, HasProposal, GoodFresh, Quorum, PowerIn, Addresses,
      FindCertificate, QuorumRecorded;
    var p, vs := e.proposal, s.validators;
    var counted := CountEvidence(env, s, p, e.votes).value;
    EvidenceCounts(env, s, p, e.votes);
    forall h, r, hash | QuorumRecorded(vs, next.votes, h, r, hash) ensures FindCertificate(next.certificates, h, r, hash).Some? {
      if h != p.height || r != p.round || hash != p.blockHash {
        FreshElsewhere(env, vs, p, s.votes, counted.added, h, r, hash);
        SameVoters(vs, s.votes, next.votes, h, r, hash);
      }
      if next.certificates != s.certificates {
        var c := CommitCertificate(p.height, p.round, p.blockHash, counted.power, Quorum(vs), counted.seen);
        FindCertificateSnoc(s.certificates, c, h, r, hash);
      }
    }
  }

  // ---------------------------------------------------------------- every run

  lemma NothingRecorded(vs: seq<Validator>, height: nat, round: u64, hash: Bytes)
    ensures !QuorumRecorded(vs, [], height, round, hash)
  {
    assert Voters([], height, round, hash) == {};
    assert PowerIn(vs, {}) == 0;
  }

  lemma SameComplete(s: State, t: State)
    requires Complete(s) && t.validators == s.validators && t.votes == s.votes && t.certificates == s.certificates
    ensures Complete(t)
  {
  }

  lemma AttemptComplete(env: Env, s: State, e: Event)
    requires Orderly(env, s) && Complete(s) && Attempt(env, s, e).Ok?
    ensures Complete(Attempt(env, s, e).value)
  {
    hide Artifacts, Complete, Accept, Credit, Produce, Import, ConsensusObjection, ProposalForProduction, Attach, TotalPower,
      RecordVote, FirstProposal, PowerOf, MayPropose, ExpectedRoot;
    var t := Attempt(env, s, e).value;
    match e
    case Crediting(_, _, _) => AdmissionLeavesArtifacts(env, s, e); SameComplete(s, t);
    case Accepting(_, _) => AdmissionLeavesArtifacts(env, s, e); SameComplete(s, t);
    case Producing(max, producedAt, now) => ProduceLeavesArtifacts(env, s, max, producedAt, now); SameComplete(s, t);
    case ProducingCertified(producedAt) =>
      ImportLeavesArtifacts(env, s, BlockFromProposal(env, ProposalForProduction(s, producedAt).value));
      SameComplete(s, t);
    case Importing(b, _) => ImportLeavesArtifacts(env, s, b); SameComplete(s, t);
    case ImportingEvidence(b, evidence) =>
      ImportLeavesArtifacts(env, s, b);
      AttachLeavesValidators(env, s, b, evidence);
      AttachComplete(env, s, b, evidence, Attach(env, s, b, evidence).value);
      SameComplete(Attach(env, s, b, evidence).value, t);
    case SettingValidators(vs) => ClearedComplete(t);
    case RecordingProposal(p) => SameComplete(s, t);
    case RecordingVote(v) => RecordVoteComplete(env, s, v, RecordVote(env, s, v).value);
    case AdvancingRound => SameComplete(s, t);
  }

  lemma ClearedComplete(s: State)
    requires s.votes == []
    ensures Complete(s)
  {
    forall height, round, hash ensures !QuorumRecorded(s.validators, s.votes, height, round, hash) {
      NothingRecorded(s.validators, height, round, hash);
    }
  }

  lemma {:induction false} EveryRunIsComplete(env: Env, events: seq<Event>)
    requires forall i :: 0 <= i < |events| ==> Elected(events[i])
    ensures Complete(Run(env, events))
  {
    hide Attempt, Elected, Complete, Orderly;
    if events == [] {
      ClearedComplete(EMPTY);
    } else {
      var front, last := events[..|events| - 1], events[|events| - 1];
      EveryRunIsComplete(env, front);
      EveryRunIsOrderly(env, front);
      var s := Run(env, front);
      if Attempt(env, s, last).Ok? {
        AttemptComplete(env, s, last);
        SameComplete(Attempt(env, s, last).value, Run(env, events));
      }
    }
  }

  /** A certificate rests on a recorded quorum. */
  lemma CertifiedHasQuorum(env: Env, s: State, height: nat, round: u64, hash: Bytes)
    requires Orderly(env, s) && FindCertificate(s.certificates, height, round, hash).Some?
    ensures QuorumRecorded(s.validators, s.votes, height, round, hash)
  {
    hide GoodVotes, OneProposal, OneCertificate, PowerOf, Quorum, TotalPower;
    var c := FindCertificate(s.certificates, height, round, hash).value;
    var i :| 0 <= i < |s.certificates| && s.certificates[i] == c;
    assert GoodCertificate(s.validators, s.votes, c);
    TallyOf(env, s.validators, s.proposals, s.votes, s.certificates, height, round, hash);
    SumOverSubset(Powers(s.validators), c.voters, Voters(s.votes, height, round, hash));
  }

  /** In every run with elected validators, through the vote path and the evidence path alike, a hash is certified at
      a height and round exactly when voters holding a positive quorum are on record for it. */
  lemma CertifiedIffQuorum(env: Env, events: seq<Event>, height: nat, round: u64, hash: Bytes)
    requires forall i :: 0 <= i < |events| ==> Elected(events[i])
    ensures var s := Run(env, events);
            FindCertificate(s.certificates, height, round, hash).Some? <==>
            QuorumRecorded(s.validators, s.votes, height, round, hash)
  {
    hide Run, Orderly, QuorumRecorded, FindCertificate, Elected;
    EveryRunIsOrderly(env, events);
    EveryRunIsComplete(env, events);
    if FindCertificate(Run(env, events).certificates, height, round, hash).Some? {
      CertifiedHasQuorum(env, Run(env, events), height, round, hash);
    }
  }
}
