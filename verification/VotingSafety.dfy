/** Recording proposals, votes and certificates keeps the ledger's consensus artifacts orderly. */
module VotingSafety {
  import opened Prelude
  import opened Ledger
  import opened Execution
  import opened Voting

  /** Proposals may be added or replaced as long as every certified or voted hash stays proposed. */
  lemma ProposalsChange(env: Env, vs: seq<Validator>, ps: seq<Proposal>, qs: seq<Proposal>,
                        votes: seq<VoteRecord>, cs: seq<CommitCertificate>)
    requires Artifacts(env, vs, ps, votes, cs) && OneProposal(qs)
    requires forall h, r, hash :: HasProposal(ps, h, r, hash) ==> HasProposal(qs, h, r, hash)
    ensures Artifacts(env, vs, qs, votes, cs)
  {
    hide HasProposal, PowerOf, GoodCertificate, OneVote, TotalPower, OneProposal, OneCertificate;
    forall i | 0 <= i < |votes| ensures GoodVote(env, vs, qs, votes[i]) {
      assert GoodVote(env, vs, ps, votes[i]);
    }
  }

  lemma ProposalAdded(env: Env, vs: seq<Validator>, ps: seq<Proposal>, p: Proposal,
                      votes: seq<VoteRecord>, cs: seq<CommitCertificate>)
    requires Artifacts(env, vs, ps, votes, cs)
    requires forall i :: 0 <= i < |ps| ==> !Proposes(ps[i], p.height, p.round)
    ensures Artifacts(env, vs, ps + [p], votes, cs)
    ensures HasProposal(ps + [p], p.height, p.round, p.blockHash)
  {
    var qs := ps + [p];
    assert qs[|ps|] == p;
    assert OneProposal(qs);
    forall h, r, hash | HasProposal(ps, h, r, hash) ensures HasProposal(qs, h, r, hash) {
      var i :| 0 <= i < |ps| && Proposes(ps[i], h, r) && ps[i].blockHash == hash;
      assert qs[i] == ps[i];
    }
    ProposalsChange(env, vs, ps, qs, votes, cs);
  }

  lemma ProposalReplaced(env: Env, vs: seq<Validator>, ps: seq<Proposal>, k: nat, p: Proposal,
                         votes: seq<VoteRecord>, cs: seq<CommitCertificate>)
    requires Artifacts(env, vs, ps, votes, cs)
    requires k < |ps| && Proposes(ps[k], p.height, p.round) && ps[k].blockHash == p.blockHash
    ensures Artifacts(env, vs, ps[k := p], votes, cs)
  {
    var qs := ps[k := p];
    assert OneProposal(qs);
    forall h, r, hash | HasProposal(ps, h, r, hash) ensures HasProposal(qs, h, r, hash) {
      var i :| 0 <= i < |ps| && Proposes(ps[i], h, r) && ps[i].blockHash == hash;
      assert Proposes(qs[i], h, r) && qs[i].blockHash == hash;
    }
    ProposalsChange(env, vs, ps, qs, votes, cs);
  }

  lemma VotersGrow(votes: seq<VoteRecord>, r: VoteRecord, height: nat, round: u64, hash: Bytes)
    ensures Voters(votes, height, round, hash) <= Voters(votes + [r], height, round, hash)
  {
    assert (votes + [r])[..|votes|] == votes;
    VotersSnoc(votes + [r], height, round, hash);
  }

  lemma VoteAdded(env: Env, vs: seq<Validator>, ps: seq<Proposal>, votes: seq<VoteRecord>, r: VoteRecord,
                  cs: seq<CommitCertificate>)
    requires Artifacts(env, vs, ps, votes, cs) && GoodVote(env, vs, ps, r)
    requires FindVote(votes, r.vote.height, r.vote.round, r.vote.voter).None?
    ensures Artifacts(env, vs, ps, votes + [r], cs)
  {
    hide GoodVote, Voters, PowerOf, Quorum, TotalPower, PowerIn, Addresses, OneProposal, OneCertificate;
    var after := votes + [r];
    forall i, j | 0 <= i < j < |after|
      ensures !VotesAt(after[i], after[j].vote.height, after[j].vote.round, after[j].vote.voter) {
      if j < |votes| {
        assert after[i] == votes[i] && after[j] == votes[j];
      }
    }
    forall i | 0 <= i < |cs| ensures GoodCertificate(vs, after, cs[i]) {
      assert GoodCertificate(vs, votes, cs[i]);
      VotersGrow(votes, r, cs[i].height, cs[i].round, cs[i].blockHash);
    }
  }

  /** A certificate's hash was proposed: its voters' recorded votes say so. */
  lemma CertifiedWasProposed(env: Env, vs: seq<Validator>, ps: seq<Proposal>, votes: seq<VoteRecord>, c: CommitCertificate)
    requires GoodVotes(env, vs, ps, votes) && GoodCertificate(vs, votes, c)
    ensures HasProposal(ps, c.height, c.round, c.blockHash)
  {
    hide HasProposal, PowerOf, Quorum, OneVote;
    assert PowerIn(vs, {}) == 0;
    var a :| a in c.voters;
    assert a in Voters(votes, c.height, c.round, c.blockHash);
    var i :| 0 <= i < |votes| && VotesFor(votes[i], c.height, c.round, c.blockHash) && votes[i].vote.voter == a;
    assert GoodVote(env, vs, ps, votes[i]);
  }

  lemma ProposedOnce(ps: seq<Proposal>, height: nat, round: u64, one: Bytes, other: Bytes)
    requires OneProposal(ps) && HasProposal(ps, height, round, one) && HasProposal(ps, height, round, other)
    ensures one == other
  {
  }

  lemma CertificateAdded(env: Env, vs: seq<Validator>, ps: seq<Proposal>, votes: seq<VoteRecord>,
                         cs: seq<CommitCertificate>, c: CommitCertificate)
    requires Artifacts(env, vs, ps, votes, cs) && GoodCertificate(vs, votes, c)
    requires FindCertificate(cs, c.height, c.round, c.blockHash).None?
    ensures Artifacts(env, vs, ps, votes, cs + [c])
  {
    hide GoodCertificate, GoodVotes, HasProposal, TotalPower, DistinctAddresses, OneProposal;
    var after := cs + [c];
    CertifiedWasProposed(env, vs, ps, votes, c);
    forall i | 0 <= i < |cs| ensures cs[i].height != c.height || cs[i].round != c.round {
      assert !Certifies(cs[i], c.height, c.round, c.blockHash);
      if cs[i].height == c.height && cs[i].round == c.round {
        CertifiedWasProposed(env, vs, ps, votes, cs[i]);
        ProposedOnce(ps, c.height, c.round, c.blockHash, cs[i].blockHash);
      }
    }
    forall i, j | 0 <= i < j < |after| ensures after[i].height != after[j].height || after[i].round != after[j].round {
      if j < |cs| {
        assert after[i] == cs[i] && after[j] == cs[j];
      }
    }
    forall i | 0 <= i < |after| ensures GoodCertificate(vs, votes, after[i]) {
      if i < |cs| {
        assert after[i] == cs[i];
      }
    }
  }

  /** The search finds the earliest certificate. */
  lemma {:induction false} FindCertificateSnoc(cs: seq<CommitCertificate>, c: CommitCertificate, height: nat, round: u64,
                                               hash: Bytes)
    ensures FindCertificate(cs + [c], height, round, hash) ==
            (var found := FindCertificate(cs, height, round, hash);
             if found.Some? then found else if Certifies(c, height, round, hash) then Some(c) else None)
  {
    if cs == [] {
      assert cs + [c] == [c] && [c][1..] == [];
    } else {
      assert (cs + [c])[1..] == cs[1..] + [c] && (cs + [c])[0] == cs[0];
      FindCertificateSnoc(cs[1..], c, height, round, hash);
    }
  }

  lemma GoodVotesWeigh(env: Env, vs: seq<Validator>, ps: seq<Proposal>, votes: seq<VoteRecord>)
    requires GoodVotes(env, vs, ps, votes)
    ensures Weighed(vs, votes)
  {
    hide OneVote, PowerOf, HasProposal;
    forall i | 0 <= i < |votes| ensures PowerOf(vs, votes[i].vote.voter) == Some(votes[i].votingPower) {
      assert GoodVote(env, vs, ps, votes[i]);
    }
  }

  /** A certificate over exactly the recorded voters, with their tally as its power, is good. */
  lemma TalliedCertificate(env: Env, vs: seq<Validator>, ps: seq<Proposal>, votes: seq<VoteRecord>,
                           cs: seq<CommitCertificate>, c: CommitCertificate)
    requires Artifacts(env, vs, ps, votes, cs)
    requires c.voters == Voters(votes, c.height, c.round, c.blockHash)
    requires c.votingPower == Tally(votes, c.height, c.round, c.blockHash)
    requires c.quorumVotingPower == Quorum(vs) > 0 && c.votingPower >= c.quorumVotingPower
    ensures GoodCertificate(vs, votes, c)
  {
    hide GoodVotes, Voters, Tally, PowerIn, TotalPower, Quorum;
    GoodVotesWeigh(env, vs, ps, votes);
    TallyExact(vs, votes, c.height, c.round, c.blockHash);
  }

  lemma RecordProposalKeeps(env: Env, s: State, p: Proposal, next: State)
    requires Orderly(env, s) && RecordProposal(env, s, p) == Ok(next)
    ensures Orderly(env, next)
  {
    hide Artifacts, ExpectedRoot, PowerOf, ProposerFor;
    match FirstProposal(s.proposals, p.height, p.round)
    case None => ProposalAdded(env, s.validators, s.proposals, p, s.votes, s.certificates);
    case Some(k) =>
      if next.proposals != s.proposals {
        ProposalReplaced(env, s.validators, s.proposals, k, p, s.votes, s.certificates);
      }
  }

  /** The vote path: every recorded vote keeps the artifacts orderly, and the reported tally is exact. */
  lemma RecordVoteKeeps(env: Env, s: State, v: Vote, next: Recorded)
    requires Orderly(env, s) && RecordVote(env, s, v) == Ok(next)
    ensures Orderly(env, next.state)
    ensures var voters := Voters(next.state.votes, v.height, v.round, v.blockHash);
            voters <= Addresses(s.validators) && next.tally == PowerIn(s.validators, voters)
  {
    hide Artifacts, PowerOf, HasProposal, Quorum, Tally, Voters, PowerIn, Addresses;
    if FindVote(s.votes, v.height, v.round, v.voter).None? {
      var r := VoteRecord(v, PowerOf(s.validators, v.voter).value);
      var votes := s.votes + [r];
      VoteAdded(env, s.validators, s.proposals, s.votes, r, s.certificates);
      TallyOf(env, s.validators, s.proposals, votes, s.certificates, v.height, v.round, v.blockHash);
      if next.state.certificates != s.certificates {
        var created := CommitCertificate(v.height, v.round, v.blockHash, next.tally, Quorum(s.validators),
                                         Voters(votes, v.height, v.round, v.blockHash));
        TalliedCertificate(env, s.validators, s.proposals, votes, s.certificates, created);
        CertificateAdded(env, s.validators, s.proposals, votes, s.certificates, created);
      }
    } else {
      TallyOf(env, s.validators, s.proposals, s.votes, s.certificates, v.height, v.round, v.blockHash);
    }
  }

  lemma TallyOf(env: Env, vs: seq<Validator>, ps: seq<Proposal>, votes: seq<VoteRecord>, cs: seq<CommitCertificate>,
                height: nat, round: u64, hash: Bytes)
    requires Artifacts(env, vs, ps, votes, cs)
    ensures Voters(votes, height, round, hash) <= Addresses(vs)
    ensures Tally(votes, height, round, hash) == PowerIn(vs, Voters(votes, height, round, hash)) <= TotalPower(vs)
  {
    GoodVotesWeigh(env, vs, ps, votes);
    TallyExact(vs, votes, height, round, hash);
  }

  /** In an orderly store a height and round has at most one proposal, one vote per validator and one certified hash. */
  lemma OrderlyMeans(env: Env, s: State)
    requires Orderly(env, s)
    ensures forall i, j :: 0 <= i < |s.proposals| && 0 <= j < |s.proposals| && i != j ==>
              s.proposals[i].height != s.proposals[j].height || s.proposals[i].round != s.proposals[j].round
    ensures forall i, j :: 0 <= i < |s.votes| && 0 <= j < |s.votes| && i != j ==>
              s.votes[i].vote.height != s.votes[j].vote.height || s.votes[i].vote.round != s.votes[j].vote.round
              || s.votes[i].vote.voter != s.votes[j].vote.voter
    ensures forall i, j :: 0 <= i < |s.certificates| && 0 <= j < |s.certificates| && i != j ==>
              s.certificates[i].height != s.certificates[j].height || s.certificates[i].round != s.certificates[j].round
  {
    hide GoodVote, GoodCertificate;
    forall i, j | 0 <= i < |s.proposals| && 0 <= j < |s.proposals| && i != j
      ensures s.proposals[i].height != s.proposals[j].height || s.proposals[i].round != s.proposals[j].round {
      var lo, hi := if i < j then i else j, if i < j then j else i;
      assert !Proposes(s.proposals[lo], s.proposals[hi].height, s.proposals[hi].round);
    }
    forall i, j | 0 <= i < |s.votes| && 0 <= j < |s.votes| && i != j
      ensures s.votes[i].vote.height != s.votes[j].vote.height || s.votes[i].vote.round != s.votes[j].vote.round
              || s.votes[i].vote.voter != s.votes[j].vote.voter {
      var lo, hi := if i < j then i else j, if i < j then j else i;
      assert !VotesAt(s.votes[lo], s.votes[hi].vote.height, s.votes[hi].vote.round, s.votes[hi].vote.voter);
    }
  }
}
