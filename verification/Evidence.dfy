/** Certified-block evidence: merging signed fragments and attaching them to the ledger
    (internal/ledger/certified_import.go, internal/api/certified_block_recovery.go). */
module Evidence {
  import opened Prelude
  import opened Ledger
  import opened Execution
  import opened Voting
  import opened VotingSafety
  import opened Folds

  datatype CertifiedBlockEvidence = CertifiedBlockEvidence(proposal: Proposal, votes: seq<Vote>)

  predicate ProposalMatches(p: Proposal, b: Block) {
    && p.height == b.height && p.blockHash == b.hash && p.previousHash == b.previousHash
    && p.producedAt == b.producedAt && p.transactionIds == b.transactionIds && p.transactions == b.transactions
  }

  /** The proposal is signed, is for this block and comes from the scheduled, active proposer. */
  predicate ProposalFits(env: Env, vs: seq<Validator>, b: Block, p: Proposal) {
    && env.validProposal(p)
    && p.stateRoot == b.stateRoot
    && ProposalMatches(p, b)
    && PowerOf(vs, p.proposer).Some?
    && ProposerFor(vs, b.height, p.round) != [] && p.proposer == ProposerFor(vs, b.height, p.round)
  }

  predicate SameProposal(existing: Proposal, p: Proposal) {
    Proposes(existing, p.height, p.round) && existing.blockHash == p.blockHash && existing.proposer == p.proposer
  }

  predicate Contradicts(existing: Proposal, p: Proposal) {
    Proposes(existing, p.height, p.round) && (existing.blockHash != p.blockHash || existing.proposer != p.proposer)
  }

  predicate VoteOn(v: Vote, p: Proposal) {
    v.height == p.height && v.round == p.round && v.blockHash == p.blockHash
  }

  // ---------------------------------------------------------------- counting

  /** Voters counted so far, their power, the voters offered and the votes not seen before. */
  datatype Counted = Counted(seen: set<Address>, power: u64, offered: set<Address>, added: seq<VoteRecord>)

  function CountVoter(vs: seq<Validator>, c: Counted, voter: Address): Result<Counted> {
    var power := PowerOf(vs, voter);
    if power.None? then Err(EvidenceInvalid)
    else if c.power + power.value > MAX_U64 then Err(VotingPowerOverflow)
    else Ok(c.(seen := c.seen + {voter}, power := c.power + power.value))
  }

  function CountRetainedVote(env: Env, vs: seq<Validator>, p: Proposal, c: Counted, r: VoteRecord): Result<Counted> {
    if !VotesFor(r, p.height, p.round, p.blockHash) || r.vote.voter in c.seen then Ok(c)
    else if !env.validVote(r.vote) then Err(EvidenceInvalid)
    else CountVoter(vs, c, r.vote.voter)
  }

  function CountOfferedVote(env: Env, vs: seq<Validator>, votes: seq<VoteRecord>, p: Proposal, c: Counted,
                            v: Vote): Result<Counted> {
    if v.voter in c.offered || !env.validVote(v) || !VoteOn(v, p) || PowerOf(vs, v.voter).None? then Err(EvidenceInvalid)
    else
      var existing := FindVote(votes, v.height, v.round, v.voter);
      var marked := c.(offered := c.offered + {v.voter});
      if existing.Some? && existing.value.blockHash != v.blockHash then Err(ConflictingVote)
      else if v.voter in c.seen then Ok(marked)
      else
        CountVoter(vs, marked.(added := c.added + [VoteRecord(v, PowerOf(vs, v.voter).value)]), v.voter)
  }

  const NOTHING: Counted := Counted({}, 0, {}, [])

  function RetainedCounter(env: Env, vs: seq<Validator>, p: Proposal): (Counted, VoteRecord) -> Result<Counted> {
    (c: Counted, r: VoteRecord) => CountRetainedVote(env, vs, p, c, r)
  }

  function OfferedCounter(env: Env, vs: seq<Validator>, votes: seq<VoteRecord>, p: Proposal): (Counted, Vote) -> Result<Counted> {
    (c: Counted, v: Vote) => CountOfferedVote(env, vs, votes, p, c, v)
  }

  function CountEvidence(env: Env, s: State, p: Proposal, offered: seq<Vote>): Result<Counted> {
    var retained := Fold(RetainedCounter(env, s.validators, p), NOTHING, s.votes);
    if retained.Err? then retained
    else Fold(OfferedCounter(env, s.validators, s.votes, p), retained.value, offered)
  }

  function AppendFresh(votes: seq<VoteRecord>, added: seq<VoteRecord>): seq<VoteRecord> {
    if added == [] then votes
    else
      var before := AppendFresh(votes, added[..|added| - 1]);
      var last := added[|added| - 1];
      if FindVote(before, last.vote.height, last.vote.round, last.vote.voter).None? then before + [last] else before
  }

  function Attach(env: Env, s: State, b: Block, e: CertifiedBlockEvidence): Result<State> {
    var p := e.proposal;
    var quorum := Quorum(s.validators);
    if !ProposalFits(env, s.validators, b, p) then Err(EvidenceInvalid)
    else if exists i :: 0 <= i < |s.proposals| && Contradicts(s.proposals[i], p) then Err(ConflictingProposal)
    else if quorum == 0 then Err(EvidenceQuorum)
    else
      var counted := CountEvidence(env, s, p, e.votes);
      if counted.Err? then Err(counted.error)
      else if counted.value.power < quorum then Err(EvidenceQuorum)
      else
        var present := exists i :: 0 <= i < |s.proposals| && SameProposal(s.proposals[i], p);
        var found := FindCertificate(s.certificates, p.height, p.round, p.blockHash);
        Ok(s.(proposals := if present then s.proposals else s.proposals + [p],
              votes := AppendFresh(s.votes, counted.value.added),
              certificates := if found.Some? then s.certificates
                              else s.certificates + [CommitCertificate(p.height, p.round, p.blockHash,
                                     counted.value.power, quorum, counted.value.seen)]))
  }

  function ImportWithEvidence(env: Env, s: State, b: Block, e: CertifiedBlockEvidence): Result<State> {
    if s.validators == [] then Err(NoValidatorSet)
    else
      var imported := Import(env, s, b);
      if imported.Err? then imported
      else
        var attached := Attach(env, s, b, e);
        if attached.Err? then attached
        else Ok(imported.value.(proposals := attached.value.proposals, votes := attached.value.votes,
                                certificates := attached.value.certificates))
  }

  // ---------------------------------------------------------------- the loops

  method CountVotes(env: Env, s: State, p: Proposal, offered: seq<Vote>) returns (r: Result<Counted>)
    ensures r == CountEvidence(env, s, p, offered)
  {
    hide Fold;
    ghost var retaining := RetainedCounter(env, s.validators, p);
    FoldNothing(retaining, NOTHING, s.votes);
    var c := NOTHING;
    var i := 0;
    while i < |s.votes|
      invariant 0 <= i <= |s.votes|
      invariant Fold(retaining, NOTHING, s.votes[..i]) == Ok(c)
    {
      FoldStep(retaining, NOTHING, s.votes, i, c);
      var step := CountRetainedVote(env, s.validators, p, c, s.votes[i]);
      if step.Err? {
        return step;
      }
      c := step.value;
      i := i + 1;
    }
    FoldAll(retaining, NOTHING, s.votes);
    ghost var offering := OfferedCounter(env, s.validators, s.votes, p);
    ghost var start := c;
    FoldNothing(offering, start, offered);
    i := 0;
    while i < |offered|
      invariant 0 <= i <= |offered|
      invariant Fold(offering, start, offered[..i]) == Ok(c)
    {
      FoldStep(offering, start, offered, i, c);
      var step := CountOfferedVote(env, s.validators, s.votes, p, c, offered[i]);
      if step.Err? {
        return step;
      }
      c := step.value;
      i := i + 1;
    }
    FoldAll(offering, start, offered);
    return Ok(c);
  }

  method AppendVotes(votes: seq<VoteRecord>, added: seq<VoteRecord>) returns (r: seq<VoteRecord>)
    ensures r == AppendFresh(votes, added)
  {
    r := votes;
    var i := 0;
    while i < |added|
      invariant 0 <= i <= |added|
      invariant r == AppendFresh(votes, added[..i])
    {
      Prefix(added, i);
      var vote := added[i].vote;
      if FindVote(r, vote.height, vote.round, vote.voter).None? {
        r := r + [added[i]];
      }
      i := i + 1;
    }
    assert added[..i] == added;
  }

  method AttachEvidence(env: Env, s: State, b: Block, e: CertifiedBlockEvidence) returns (r: Result<State>)
    ensures r == Attach(env, s, b, e)
  {
    hide CountEvidence, AppendFresh, ProposalFits;
    var p := e.proposal;
    if !ProposalFits(env, s.validators, b, p) {
      return Err(EvidenceInvalid);
    }
    var present := false;
    var i := 0;
    while i < |s.proposals|
      invariant 0 <= i <= |s.proposals|
      invariant forall k :: 0 <= k < i ==> !Contradicts(s.proposals[k], p)
      invariant present <==> exists k :: 0 <= k < i && SameProposal(s.proposals[k], p)
    {
      if Contradicts(s.proposals[i], p) {
        return Err(ConflictingProposal);
      }
      present := present || SameProposal(s.proposals[i], p);
      i := i + 1;
    }
    var quorum := Quorum(s.validators);
    if quorum == 0 {
      return Err(EvidenceQuorum);
    }
    var counted := CountVotes(env, s, p, e.votes);
    if counted.Err? {
      return Err(counted.error);
    }
    if counted.value.power < quorum {
      return Err(EvidenceQuorum);
    }
    var proposals := if present then s.proposals else s.proposals + [p];
    var votes := AppendVotes(s.votes, counted.value.added);
    var certificates := s.certificates;
    if FindCertificate(certificates, p.height, p.round, p.blockHash).None? {
      certificates := certificates + [CommitCertificate(p.height, p.round, p.blockHash,
                                                        counted.value.power, quorum, counted.value.seen)];
    }
    return Ok(s.(proposals := proposals, votes := votes, certificates := certificates));
  }

  // ---------------------------------------------------------------- what counting computes

  ghost function Signers(votes: seq<Vote>): set<Address> {
    set i | 0 <= i < |votes| :: votes[i].voter
  }

  /** Votes that can be offered: valid votes of distinct active voters on p, none recorded for another hash. */
  ghost predicate Offerable(env: Env, s: State, p: Proposal, votes: seq<Vote>) {
    && (forall i, j :: 0 <= i < j < |votes| ==> votes[i].voter != votes[j].voter)
    && (forall i :: 0 <= i < |votes| ==> Countable(env, s, p, votes[i]))
  }

  ghost predicate Countable(env: Env, s: State, p: Proposal, v: Vote) {
    && env.validVote(v) && VoteOn(v, p) && PowerOf(s.validators, v.voter).Some?
    && (var existing := FindVote(s.votes, v.height, v.round, v.voter);
        existing.None? || existing.value.blockHash == v.blockHash)
  }

  ghost predicate GoodCount(vs: seq<Validator>, c: Counted) {
    c.seen <= Addresses(vs) && c.power == PowerIn(vs, c.seen) <= TotalPower(vs)
  }

  /** Counting one more voter adds exactly that voter's power and never overflows. */
  lemma CountOneVoter(vs: seq<Validator>, c: Counted, voter: Address)
    requires DistinctAddresses(vs) && TotalPower(vs) <= MAX_U64
    requires GoodCount(vs, c) && voter !in c.seen && PowerOf(vs, voter).Some?
    ensures CountVoter(vs, c, voter).Ok? && GoodCount(vs, CountVoter(vs, c, voter).value)
  {
    hide PowerOf, PowerIn, TotalPower;
    ActiveVoter(vs, voter);
    PowerAdd(vs, c.seen, voter);
    PowerBounded(vs, c.seen + {voter});
  }

  lemma VotersNone(height: nat, round: u64, hash: Bytes)
    ensures Voters([], height, round, hash) == {}
  {
  }

  /** Over orderly votes, counting the retained ones never fails and finds exactly the recorded voters. */
  lemma {:induction false} RetainedCounts(env: Env, vs: seq<Validator>, p: Proposal, votes: seq<VoteRecord>)
    requires DistinctAddresses(vs) && TotalPower(vs) <= MAX_U64 && Weighed(vs, votes)
    requires forall i :: 0 <= i < |votes| ==> env.validVote(votes[i].vote)
    ensures var r := Fold(RetainedCounter(env, vs, p), NOTHING, votes);
            && r.Ok? && GoodCount(vs, r.value) && r.value.offered == {} && r.value.added == []
            && r.value.seen == Voters(votes, p.height, p.round, p.blockHash)
  {
    hide PowerOf, PowerIn, TotalPower, Voters, Addresses;
    if votes == [] {
      VotersNone(p.height, p.round, p.blockHash);
      PowerBounded(vs, {});
      assert PowerIn(vs, {}) == 0 by { NoPower(vs); }
    } else {
      var front, last := votes[..|votes| - 1], votes[|votes| - 1];
      RetainedCounts(env, vs, p, front);
      VotersSnoc(votes, p.height, p.round, p.blockHash);
      var c := Fold(RetainedCounter(env, vs, p), NOTHING, front).value;
      if VotesFor(last, p.height, p.round, p.blockHash) && last.vote.voter !in c.seen {
        CountOneVoter(vs, c, last.vote.voter);
      }
    }
  }

  lemma NoPower(vs: seq<Validator>)
    ensures PowerIn(vs, {}) == 0
  {
  }

  /** The votes kept as new: valid votes on p with their exact power. */
  ghost predicate GoodFresh(env: Env, vs: seq<Validator>, p: Proposal, added: seq<VoteRecord>) {
    forall i :: 0 <= i < |added| ==>
      env.validVote(added[i].vote) && VoteOn(added[i].vote, p) && PowerOf(vs, added[i].vote.voter) == Some(added[i].votingPower)
  }

  ghost predicate Accounted(env: Env, s: State, p: Proposal, start: Counted, offered: seq<Vote>, c: Counted) {
    && GoodCount(s.validators, c)
    && c.offered == Signers(offered)
    && c.seen == start.seen + Signers(offered)
    && GoodFresh(env, s.validators, p, c.added)
    && (forall a :: a in c.seen && a !in start.seen ==> exists i :: 0 <= i < |c.added| && c.added[i].vote.voter == a)
  }

  lemma SignersSnoc(votes: seq<Vote>)
    requires votes != []
    ensures Signers(votes) == Signers(votes[..|votes| - 1]) + {votes[|votes| - 1].voter}
  {
    var front, last := votes[..|votes| - 1], votes[|votes| - 1];
    forall a | a in Signers(votes) ensures a in Signers(front) + {last.voter} {
      var i :| 0 <= i < |votes| && votes[i].voter == a;
      if i < |front| {
        assert front[i] == votes[i];
      }
    }
    forall a | a in Signers(front) ensures a in Signers(votes) {
      var i :| 0 <= i < |front| && front[i].voter == a;
      assert votes[i] == front[i];
    }
  }

  lemma OfferableFront(env: Env, s: State, p: Proposal, votes: seq<Vote>)
    requires votes != []
    ensures Offerable(env, s, p, votes) <==>
            && Offerable(env, s, p, votes[..|votes| - 1])
            && Countable(env, s, p, votes[|votes| - 1])
            && votes[|votes| - 1].voter !in Signers(votes[..|votes| - 1])
  {
    hide Countable;
    var front, last := votes[..|votes| - 1], votes[|votes| - 1];
    if Offerable(env, s, p, votes) {
      forall i | 0 <= i < |front| ensures Countable(env, s, p, front[i]) && front[i].voter != last.voter {
        assert front[i] == votes[i];
      }
    }
    if Offerable(env, s, p, front) && Countable(env, s, p, last) && last.voter !in Signers(front) {
      forall i | 0 <= i < |front| ensures Countable(env, s, p, votes[i]) && votes[i].voter != last.voter {
        assert front[i] == votes[i];
      }
    }
  }

  /** Counting one offered vote. */
  lemma OfferedOne(env: Env, s: State, p: Proposal, start: Counted, front: seq<Vote>, c: Counted, v: Vote)
    requires DistinctAddresses(s.validators) && TotalPower(s.validators) <= MAX_U64
    requires Accounted(env, s, p, start, front, c)
    ensures var r := CountOfferedVote(env, s.validators, s.votes, p, c, v);
            && (r.Ok? <==> Countable(env, s, p, v) && v.voter !in Signers(front))
            && (r.Ok? ==> Accounted(env, s, p, start, front + [v], r.value))
  {
    hide PowerOf, PowerIn, TotalPower, Addresses, Signers, FindVote;
    var all := front + [v];
    assert all[..|all| - 1] == front;
    SignersSnoc(all);
    if Countable(env, s, p, v) && v.voter !in Signers(front) && v.voter !in c.seen {
      var marked := c.(offered := c.offered + {v.voter},
                       added := c.added + [VoteRecord(v, PowerOf(s.validators, v.voter).value)]);
      CountOneVoter(s.validators, marked, v.voter);
      var r := CountOfferedVote(env, s.validators, s.votes, p, c, v).value;
      assert r.added[|c.added|].vote.voter == v.voter;
      forall a | a in r.seen && a !in start.seen ensures exists i :: 0 <= i < |r.added| && r.added[i].vote.voter == a {
        if a != v.voter {
          var i :| 0 <= i < |c.added| && c.added[i].vote.voter == a;
          assert r.added[i] == c.added[i];
        }
      }
    }
  }

  /** Counting offered votes succeeds exactly when they are offerable, and counts each new voter once. */
  lemma {:induction false} OfferedCounts(env: Env, s: State, p: Proposal, start: Counted, offered: seq<Vote>)
    requires DistinctAddresses(s.validators) && TotalPower(s.validators) <= MAX_U64
    requires GoodCount(s.validators, start) && start.offered == {} && start.added == []
    ensures var r := Fold(OfferedCounter(env, s.validators, s.votes, p), start, offered);
            && (r.Ok? <==> Offerable(env, s, p, offered))
            && (r.Ok? ==> Accounted(env, s, p, start, offered, r.value))
  {
    hide GoodCount, Countable, CountOfferedVote;
    if offered == [] {
      assert Signers(offered) == {};
      assert start.seen + {} == start.seen;
    } else {
      hide Signers, Offerable, Accounted;
      var front, last := offered[..|offered| - 1], offered[|offered| - 1];
      OfferedCounts(env, s, p, start, front);
      OfferableFront(env, s, p, offered);
      var before := Fold(OfferedCounter(env, s.validators, s.votes, p), start, front);
      if before.Ok? {
        OfferedOne(env, s, p, start, front, before.value, last);
        assert front + [last] == offered;
      }
    }
  }

  /** In an orderly store counting succeeds exactly on offerable votes and yields the union's exact power. */
  lemma EvidenceCounts(env: Env, s: State, p: Proposal, offered: seq<Vote>)
    requires Orderly(env, s)
    ensures var r := CountEvidence(env, s, p, offered);
            && (r.Ok? <==> Offerable(env, s, p, offered))
            && (r.Ok? ==>
                  && GoodCount(s.validators, r.value) && GoodFresh(env, s.validators, p, r.value.added)
                  && r.value.seen == Voters(s.votes, p.height, p.round, p.blockHash) + Signers(offered)
                  && (forall a :: a in r.value.seen && a !in Voters(s.votes, p.height, p.round, p.blockHash) ==>
                        exists i :: 0 <= i < |r.value.added| && r.value.added[i].vote.voter == a))
  {
    hide PowerIn, Voters, Signers, Offerable, Fold, GoodCount, GoodFresh, HasProposal;
    GoodVotesWeigh(env, s.validators, s.proposals, s.votes);
    forall i | 0 <= i < |s.votes| ensures env.validVote(s.votes[i].vote) {
      assert GoodVote(env, s.validators, s.proposals, s.votes[i]);
    }
    RetainedCounts(env, s.validators, p, s.votes);
    var start := Fold(RetainedCounter(env, s.validators, p), NOTHING, s.votes).value;
    OfferedCounts(env, s, p, start, offered);
  }

  // ---------------------------------------------------------------- the evidence path keeps the invariant

  lemma {:induction false} FreshAppended(env: Env, vs: seq<Validator>, ps: seq<Proposal>, p: Proposal,
                                         votes: seq<VoteRecord>, added: seq<VoteRecord>, cs: seq<CommitCertificate>)
    requires Artifacts(env, vs, ps, votes, cs) && GoodFresh(env, vs, p, added)
    requires HasProposal(ps, p.height, p.round, p.blockHash)
    ensures var after := AppendFresh(votes, added);
            && Artifacts(env, vs, ps, after, cs)
            && Voters(votes, p.height, p.round, p.blockHash) <= Voters(after, p.height, p.round, p.blockHash)
            && (forall i :: 0 <= i < |added| ==>
                  added[i].vote.voter in Voters(after, p.height, p.round, p.blockHash))
  {
    hide Artifacts, HasProposal, PowerOf, FindVote;
    if added != [] {
      var front, last := added[..|added| - 1], added[|added| - 1];
      FreshAppended(env, vs, ps, p, votes, front, cs);
      var before := AppendFresh(votes, front);
      if FindVote(before, last.vote.height, last.vote.round, last.vote.voter).None? {
        VoteAdded(env, vs, ps, before, last, cs);
        VotersGrow(before, last, p.height, p.round, p.blockHash);
        LastVotes(before, last, p.height, p.round, p.blockHash);
      } else {
        AlreadyVoted(env, vs, ps, before, cs, p, last.vote.voter);
      }
      forall i | 0 <= i < |added|
        ensures added[i].vote.voter in Voters(AppendFresh(votes, added), p.height, p.round, p.blockHash) {
        if i < |front| {
          assert front[i] == added[i];
        }
      }
    }
  }

  lemma LastVotes(votes: seq<VoteRecord>, r: VoteRecord, height: nat, round: u64, hash: Bytes)
    requires VotesFor(r, height, round, hash)
    ensures r.vote.voter in Voters(votes + [r], height, round, hash)
  {
    assert (votes + [r])[|votes|] == r;
  }

  /** A recorded vote at the height and round of a proposal is a vote for that proposal. */
  lemma AlreadyVoted(env: Env, vs: seq<Validator>, ps: seq<Proposal>, votes: seq<VoteRecord>,
                     cs: seq<CommitCertificate>, p: Proposal, voter: Address)
    requires Artifacts(env, vs, ps, votes, cs) && HasProposal(ps, p.height, p.round, p.blockHash)
    requires FindVote(votes, p.height, p.round, voter).Some?
    ensures voter in Voters(votes, p.height, p.round, p.blockHash)
  {
    hide HasProposal, GoodCertificate, OneProposal, OneVote, PowerOf, OneCertificate;
    var i :| 0 <= i < |votes| && VotesAt(votes[i], p.height, p.round, voter);
    assert GoodVote(env, vs, ps, votes[i]);
    ProposedOnce(ps, p.height, p.round, p.blockHash, votes[i].vote.blockHash);
    assert VotesFor(votes[i], p.height, p.round, p.blockHash);
  }

  /** Attaching evidence keeps the artifacts orderly. */
  lemma AttachKeeps(env: Env, s: State, b: Block, e: CertifiedBlockEvidence, next: State)
    requires Orderly(env, s) && Attach(env, s, b, e) == Ok(next)
    ensures Orderly(env, next)
  {
    hide Artifacts, CountEvidence, ProposalFits, AppendFresh, Voters, HasProposal, GoodFresh, Quorum, PowerIn, Addresses;
    var p, vs := e.proposal, s.validators;
    ProposalKept(env, s, p, next.proposals);
    var counted := CountEvidence(env, s, p, e.votes).value;
    EvidenceCounts(env, s, p, e.votes);
    FreshAppended(env, vs, next.proposals, p, s.votes, counted.added, s.certificates);
    if FindCertificate(s.certificates, p.height, p.round, p.blockHash).None? {
      var c := CommitCertificate(p.height, p.round, p.blockHash, counted.power, Quorum(vs), counted.seen);
      assert c.voters <= Voters(next.votes, c.height, c.round, c.blockHash);
      CertificateAdded(env, vs, next.proposals, next.votes, s.certificates, c);
    }
  }

  lemma ProposalKept(env: Env, s: State, p: Proposal, ps: seq<Proposal>)
    requires Orderly(env, s)
    requires forall i :: 0 <= i < |s.proposals| ==> !Contradicts(s.proposals[i], p)
    requires ps == if exists i :: 0 <= i < |s.proposals| && SameProposal(s.proposals[i], p)
                   then s.proposals else s.proposals + [p]
    ensures Artifacts(env, s.validators, ps, s.votes, s.certificates)
    ensures HasProposal(ps, p.height, p.round, p.blockHash)
  {
    hide Artifacts;
    if i :| 0 <= i < |s.proposals| && SameProposal(s.proposals[i], p) {
      assert Proposes(s.proposals[i], p.height, p.round);
    } else {
      forall i | 0 <= i < |s.proposals| ensures !Proposes(s.proposals[i], p.height, p.round) {
        assert !Contradicts(s.proposals[i], p) && !SameProposal(s.proposals[i], p);
      }
      ProposalAdded(env, s.validators, s.proposals, p, s.votes, s.certificates);
    }
  }

  // ---------------------------------------------------------------- when evidence is enough

  /** The power of retained and offered voters together. */
  ghost function UnionPower(s: State, p: Proposal, offered: set<Address>): nat
    requires Voters(s.votes, p.height, p.round, p.blockHash) + offered <= Addresses(s.validators)
  {
    PowerIn(s.validators, Voters(s.votes, p.height, p.round, p.blockHash) + offered)
  }

  /** Evidence with a fitting proposal and offerable votes attaches exactly when the union reaches quorum. */
  lemma AttachIff(env: Env, s: State, b: Block, e: CertifiedBlockEvidence)
    requires Orderly(env, s) && ProposalFits(env, s.validators, b, e.proposal)
    requires forall i :: 0 <= i < |s.proposals| ==> !Contradicts(s.proposals[i], e.proposal)
    requires Offerable(env, s, e.proposal, e.votes)
    ensures Voters(s.votes, e.proposal.height, e.proposal.round, e.proposal.blockHash) + Signers(e.votes)
            <= Addresses(s.validators)
    ensures Attach(env, s, b, e).Ok? <==>
            0 < Quorum(s.validators) <= UnionPower(s, e.proposal, Signers(e.votes))
  {
    hide Orderly, ProposalFits, CountEvidence, AppendFresh, Offerable, Voters, Signers, GoodFresh, Quorum, PowerIn, Addresses;
    EvidenceCounts(env, s, e.proposal, e.votes);
  }
}
