/** Proposals, votes and commit certificates of the v1 ledger
    (internal/ledger/consensus_state.go, consensus_lookup.go, round_state.go). */
module Voting {
  import opened Prelude
  import opened Ledger
  import opened Execution
  import Admission
  import Consensus

  // ---------------------------------------------------------------- voting power

  ghost predicate DistinctAddresses(vs: seq<Validator>) {
    forall i, j :: 0 <= i < j < |vs| ==> vs[i].address != vs[j].address
  }

  function TotalPower(vs: seq<Validator>): nat {
    if vs == [] then 0 else TotalPower(vs[..|vs| - 1]) + vs[|vs| - 1].votingPower
  }

  /** totalVotingPower: an overflowing sum reads as the largest integer. */
  function TotalVotingPower(vs: seq<Validator>): u64 {
    if TotalPower(vs) > MAX_U64 then MAX_U64 else TotalPower(vs)
  }

  function Quorum(vs: seq<Validator>): u64 {
    Consensus.QuorumPower(TotalVotingPower(vs))
  }

  function PowerOf(vs: seq<Validator>, a: Address): (r: Option<u64>)
    ensures r.Some? <==> exists i :: 0 <= i < |vs| && vs[i].address == a
    ensures r.Some? ==> exists i :: 0 <= i < |vs| && vs[i].address == a && vs[i].votingPower == r.value
  {
    if vs == [] then None
    else if vs[0].address == a then Some(vs[0].votingPower)
    else
      assert forall i :: 1 <= i < |vs| ==> vs[i] == vs[1..][i - 1];
      PowerOf(vs[1..], a)
  }

  ghost function Addresses(vs: seq<Validator>): set<Address> {
    set i | 0 <= i < |vs| :: vs[i].address
  }

  ghost function Powers(vs: seq<Validator>): map<Address, nat> {
    map a | a in Addresses(vs) :: PowerOf(vs, a).value as nat
  }

  /** The exact power of a set of active validators. */
  ghost function PowerIn(vs: seq<Validator>, voters: set<Address>): nat
    requires voters <= Addresses(vs)
  {
    SumOver(Powers(vs), voters)
  }

  lemma {:induction false} PowerOfSnoc(vs: seq<Validator>, last: Validator, a: Address)
    ensures PowerOf(vs + [last], a) ==
            if PowerOf(vs, a).Some? then PowerOf(vs, a) else if last.address == a then Some(last.votingPower) else None
  {
    if vs == [] {
      assert vs + [last] == [last] && [last][1..] == [];
    } else {
      assert (vs + [last])[0] == vs[0] && (vs + [last])[1..] == vs[1..] + [last];
      PowerOfSnoc(vs[1..], last, a);
    }
  }

  lemma PowersHas(vs: seq<Validator>, a: Address)
    ensures a in Powers(vs) <==> PowerOf(vs, a).Some?
    ensures a in Powers(vs) ==> Powers(vs)[a] == PowerOf(vs, a).value
  {
  }

  lemma LastIsNew(vs: seq<Validator>)
    requires vs != [] && DistinctAddresses(vs)
    ensures DistinctAddresses(vs[..|vs| - 1]) && PowerOf(vs[..|vs| - 1], vs[|vs| - 1].address).None?
  {
  }

  lemma PowersSnoc(vs: seq<Validator>)
    requires vs != [] && DistinctAddresses(vs)
    ensures var front, last := vs[..|vs| - 1], vs[|vs| - 1];
            DistinctAddresses(front) && last.address !in Powers(front)
            && Powers(vs) == Powers(front)[last.address := last.votingPower]
  {
    hide PowerOf, Powers, DistinctAddresses;
    var front, last := vs[..|vs| - 1], vs[|vs| - 1];
    assert vs == front + [last];
    LastIsNew(vs);
    PowersHas(front, last.address);
    var expected := Powers(front)[last.address := last.votingPower];
    forall a ensures (a in Powers(vs) <==> a in expected) && (a in Powers(vs) ==> Powers(vs)[a] == expected[a]) {
      PowersHas(vs, a);
      PowersHas(front, a);
      PowerOfSnoc(front, last, a);
    }
  }

  lemma {:induction false} TotalIsSum(vs: seq<Validator>)
    requires DistinctAddresses(vs)
    ensures TotalPower(vs) == PowerIn(vs, Addresses(vs))
  {
    if vs == [] {
      assert Addresses(vs) == {};
    } else {
      var front, last := vs[..|vs| - 1], vs[|vs| - 1];
      PowersSnoc(vs);
      TotalIsSum(front);
      assert Powers(vs).Keys == Addresses(vs) && Powers(front).Keys == Addresses(front);
      MapSumPut(Powers(front), last.address, last.votingPower);
    }
  }

  lemma {:induction false} SumOverSubset<K>(m: map<K, nat>, small: set<K>, big: set<K>)
    requires small <= big <= m.Keys
    ensures SumOver(m, small) <= SumOver(m, big)
    decreases big
  {
    if small != {} {
      var k :| k in small;
      SumOverTake(m, small, k);
      SumOverTake(m, big, k);
      SumOverSubset(m, small - {k}, big - {k});
    }
  }

  /** No set of active voters outweighs the total. */
  lemma PowerBounded(vs: seq<Validator>, voters: set<Address>)
    requires DistinctAddresses(vs) && voters <= Addresses(vs)
    ensures PowerIn(vs, voters) <= TotalPower(vs)
  {
    TotalIsSum(vs);
    SumOverSubset(Powers(vs), voters, Addresses(vs));
  }

  lemma PowerAdd(vs: seq<Validator>, voters: set<Address>, a: Address)
    requires voters + {a} <= Addresses(vs) && a !in voters
    ensures PowerIn(vs, voters + {a}) == PowerIn(vs, voters) + PowerOf(vs, a).value
  {
    SumOverTake(Powers(vs), voters + {a}, a);
    assert voters + {a} - {a} == voters;
  }

  /** A quorum is the least power above two thirds of the total. */
  lemma QuorumIsTwoThirds(vs: seq<Validator>)
    requires TotalPower(vs) <= MAX_U64
    ensures TotalPower(vs) == 0 ==> Quorum(vs) == 0
    ensures TotalPower(vs) > 0 ==> 3 * Quorum(vs) > 2 * TotalPower(vs) >= 3 * (Quorum(vs) - 1) && Quorum(vs) <= TotalPower(vs)
  {
    hide TotalPower;
  }

  // ---------------------------------------------------------------- votes and tallies

  predicate VotesFor(r: VoteRecord, height: nat, round: u64, hash: Bytes) {
    r.vote.height == height && r.vote.round == round && r.vote.blockHash == hash
  }

  predicate VotesAt(r: VoteRecord, height: nat, round: u64, voter: Address) {
    r.vote.height == height && r.vote.round == round && r.vote.voter == voter
  }

  function Voters(votes: seq<VoteRecord>, height: nat, round: u64, hash: Bytes): set<Address> {
    set i | 0 <= i < |votes| && VotesFor(votes[i], height, round, hash) :: votes[i].vote.voter
  }

  /** tallyForVotes: the saturating sum of matching votes. */
  function Tally(votes: seq<VoteRecord>, height: nat, round: u64, hash: Bytes): u64 {
    if votes == [] then 0
    else
      var before := Tally(votes[..|votes| - 1], height, round, hash);
      if VotesFor(votes[|votes| - 1], height, round, hash)
      then Admission.SaturatingAdd(before, votes[|votes| - 1].votingPower) else before
  }

  method TallyForVotes(votes: seq<VoteRecord>, height: nat, round: u64, hash: Bytes) returns (power: u64)
    ensures power == Tally(votes, height, round, hash)
  {
    power := 0;
    var i := 0;
    while i < |votes|
      invariant 0 <= i <= |votes|
      invariant power == Tally(votes[..i], height, round, hash)
    {
      Prefix(votes, i);
      if VotesFor(votes[i], height, round, hash) {
        power := Admission.SaturatingAdd(power, votes[i].votingPower);
      }
      i := i + 1;
    }
    assert votes[..i] == votes;
  }

  function FindVote(votes: seq<VoteRecord>, height: nat, round: u64, voter: Address): (r: Option<Vote>)
    ensures r.None? <==> forall i :: 0 <= i < |votes| ==> !VotesAt(votes[i], height, round, voter)
    ensures r.Some? ==> exists i :: 0 <= i < |votes| && VotesAt(votes[i], height, round, voter) && votes[i].vote == r.value
  {
    if votes == [] then None
    else if VotesAt(votes[0], height, round, voter) then Some(votes[0].vote)
    else
      assert forall i :: 1 <= i < |votes| ==> votes[i] == votes[1..][i - 1];
      FindVote(votes[1..], height, round, voter)
  }

  // ---------------------------------------------------------------- proposals and certificates

  predicate Proposes(p: Proposal, height: nat, round: u64) {
    p.height == height && p.round == round
  }

  /** The first proposal recorded for a height and round. */
  function FirstProposal(ps: seq<Proposal>, height: nat, round: u64): (r: Option<nat>)
    ensures r.None? <==> forall i :: 0 <= i < |ps| ==> !Proposes(ps[i], height, round)
    ensures r.Some? ==> r.value < |ps| && Proposes(ps[r.value], height, round)
  {
    if ps == [] then None
    else if Proposes(ps[0], height, round) then Some(0)
    else
      assert forall i :: 1 <= i < |ps| ==> ps[i] == ps[1..][i - 1];
      var rest := FirstProposal(ps[1..], height, round);
      if rest.None? then None else Some(rest.value + 1)
  }

  predicate HasProposal(ps: seq<Proposal>, height: nat, round: u64, hash: Bytes) {
    exists i :: 0 <= i < |ps| && Proposes(ps[i], height, round) && ps[i].blockHash == hash
  }

  predicate Certifies(c: CommitCertificate, height: nat, round: u64, hash: Bytes) {
    c.height == height && c.round == round && c.blockHash == hash
  }

  function FindCertificate(cs: seq<CommitCertificate>, height: nat, round: u64, hash: Bytes): (r: Option<CommitCertificate>)
    ensures r.None? <==> forall i :: 0 <= i < |cs| ==> !Certifies(cs[i], height, round, hash)
    ensures r.Some? ==> r.value in cs && Certifies(r.value, height, round, hash)
  {
    if cs == [] then None
    else if Certifies(cs[0], height, round, hash) then Some(cs[0])
    else
      assert forall i :: 1 <= i < |cs| ==> cs[i] == cs[1..][i - 1];
      FindCertificate(cs[1..], height, round, hash)
  }

  /** The scheduled proposer, empty when there is none; the sum of height and round wraps at 64 bits. */
  function ProposerFor(vs: seq<Validator>, height: nat, round: u64): (r: Address)
    ensures vs != [] && height != 0 ==> exists i :: 0 <= i < |vs| && vs[i].address == r
  {
    if vs == [] || height == 0 then []
    else vs[(height - 1 + round) % U64_LIMIT % |vs|].address
  }

  /** The position k places after `first` in a circle of n. */
  function Around(first: nat, k: nat, n: nat): nat
    requires first < n && k < n
  {
    if first + k < n then first + k else first + k - n
  }

  lemma DivisionUnique(x: nat, n: nat, q: nat, r: nat)
    requires n > 0 && r < n && x == q * n + r
    ensures x % n == r
  {
    var p := x / n;
    assert x == p * n + x % n;
    assert p < q ==> (p + 1) * n <= q * n;
    assert q < p ==> (q + 1) * n <= p * n;
  }

  lemma Offset(x: nat, n: nat, k: nat)
    requires k < n
    ensures (x + k) % n == Around(x % n, k, n)
  {
    var q, r := x / n, x % n;
    assert x == q * n + r;
    if r + k < n {
      DivisionUnique(x + k, n, q, r + k);
    } else {
      assert x + k == (q + 1) * n + (r + k - n);
      DivisionUnique(x + k, n, q + 1, r + k - n);
    }
  }

  /** As long as height and round do not overflow together, consecutive rounds go once around the list of validators,
      from the position that the height and the first round name. */
  lemma ProposersGoAround(vs: seq<Validator>, height: nat, round: u64, k: nat)
    requires vs != [] && height > 0 && k < |vs| && height - 1 + round + k < U64_LIMIT
    ensures ProposerFor(vs, height, round + k) == vs[Around((height - 1 + round) % |vs|, k, |vs|)].address
  {
    Offset(height - 1 + round, |vs|, k);
  }

  /** Whether recording lets this proposer through: an empty schedule entry binds nobody. */
  predicate MayPropose(vs: seq<Validator>, p: Proposal) {
    var expected := ProposerFor(vs, p.height, p.round);
    expected == [] || p.proposer == expected
  }

  // ---------------------------------------------------------------- the steps

  function RecordProposal(env: Env, s: State, p: Proposal): Result<State> {
    if !env.validProposal(p) then Err(InvalidMessage)
    else if s.validators == [] then Err(NoValidatorSet)
    else if p.height != |s.blocks| + 1 then Err(HeightMismatch)
    else if p.previousHash != TipHash(s.blocks) then Err(PreviousHashMismatch)
    else if PowerOf(s.validators, p.proposer).None? then Err(ValidatorNotActive)
    else if p.round < s.round.round then Err(RoundMismatch)
    else if !MayPropose(s.validators, p) then Err(UnexpectedProposer)
    else if ExpectedRoot(env, s, p.transactions) != Ok(p.stateRoot) then Err(TemplateMismatch)
    else
      var t := s.(round := s.round.(round := p.round));
      match FirstProposal(s.proposals, p.height, p.round)
      case None => Ok(t.(proposals := s.proposals + [p]))
      case Some(i) =>
        var existing := s.proposals[i];
        if existing.blockHash != p.blockHash || existing.proposer != p.proposer then Err(ConflictingProposal)
        else if existing.transactionIds == p.transactionIds && existing.transactions == p.transactions then Ok(t)
        else Ok(t.(proposals := s.proposals[i := p]))
  }

  datatype Recorded = Recorded(state: State, tally: u64, certificate: Option<CommitCertificate>)

  function RecordVote(env: Env, s: State, v: Vote): Result<Recorded> {
    if !env.validVote(v) then Err(InvalidMessage)
    else if s.validators == [] then Err(NoValidatorSet)
    else if v.height != |s.blocks| + 1 then Err(HeightMismatch)
    else if v.round < s.round.round then Err(RoundMismatch)
    else if PowerOf(s.validators, v.voter).None? then Err(ValidatorNotActive)
    else if !HasProposal(s.proposals, v.height, v.round, v.blockHash) then Err(UnknownProposal)
    else
      var t := s.(round := s.round.(round := v.round));
      var existing := FindVote(s.votes, v.height, v.round, v.voter);
      var found := FindCertificate(s.certificates, v.height, v.round, v.blockHash);
      if existing.Some? then
        if existing.value.blockHash == v.blockHash
        then Ok(Recorded(t, Tally(s.votes, v.height, v.round, v.blockHash), found))
        else Err(ConflictingVote)
      else
        var votes := s.votes + [VoteRecord(v, PowerOf(s.validators, v.voter).value)];
        var tally := Tally(votes, v.height, v.round, v.blockHash);
        var quorum := Quorum(s.validators);
        if found.Some? || tally < quorum || quorum == 0 then Ok(Recorded(t.(votes := votes), tally, found))
        else
          var created := CommitCertificate(v.height, v.round, v.blockHash, tally, quorum,
                                           Voters(votes, v.height, v.round, v.blockHash));
          Ok(Recorded(t.(votes := votes, certificates := s.certificates + [created]), tally, Some(created)))
  }

  function SetValidators(s: State, vs: seq<Validator>): Result<State> {
    if TotalPower(vs) > MAX_U64 then Err(VotingPowerOverflow)
    else Ok(s.(validators := vs, round := RoundState(|s.blocks| + 1, 0), proposals := [], votes := [], certificates := []))
  }

  function AdvanceRound(s: State): Result<State> {
    if s.validators == [] then Err(NoValidatorSet)
    else Ok(s.(round := s.round.(round := WrapAdd(s.round.round, 1))))
  }

  // ---------------------------------------------------------------- the invariant

  ghost predicate OneProposal(ps: seq<Proposal>) {
    forall i, j :: 0 <= i < j < |ps| ==> !Proposes(ps[i], ps[j].height, ps[j].round)
  }

  ghost predicate OneVote(votes: seq<VoteRecord>) {
    forall i, j :: 0 <= i < j < |votes| ==>
      !VotesAt(votes[i], votes[j].vote.height, votes[j].vote.round, votes[j].vote.voter)
  }

  ghost predicate GoodVote(env: Env, vs: seq<Validator>, ps: seq<Proposal>, r: VoteRecord) {
    && env.validVote(r.vote)
    && PowerOf(vs, r.vote.voter) == Some(r.votingPower)
    && HasProposal(ps, r.vote.height, r.vote.round, r.vote.blockHash)
  }

  ghost predicate GoodVotes(env: Env, vs: seq<Validator>, ps: seq<Proposal>, votes: seq<VoteRecord>) {
    OneVote(votes) && forall i :: 0 <= i < |votes| ==> GoodVote(env, vs, ps, votes[i])
  }

  /** A certificate names active voters with recorded votes, states their exact power and reaches quorum. */
  ghost predicate GoodCertificate(vs: seq<Validator>, votes: seq<VoteRecord>, c: CommitCertificate) {
    && c.voters <= Voters(votes, c.height, c.round, c.blockHash)
    && c.voters <= Addresses(vs)
    && c.votingPower == PowerIn(vs, c.voters)
    && c.quorumVotingPower == Quorum(vs) > 0
    && c.votingPower >= c.quorumVotingPower
  }

  /** At most one block hash is certified per height and round. */
  ghost predicate OneCertificate(cs: seq<CommitCertificate>) {
    forall i, j :: 0 <= i < j < |cs| ==> cs[i].height != cs[j].height || cs[i].round != cs[j].round
  }

  ghost predicate Artifacts(env: Env, vs: seq<Validator>, ps: seq<Proposal>, votes: seq<VoteRecord>,
                            cs: seq<CommitCertificate>) {
    && DistinctAddresses(vs) && TotalPower(vs) <= MAX_U64
    && OneProposal(ps)
    && GoodVotes(env, vs, ps, votes)
    && OneCertificate(cs)
    && forall i :: 0 <= i < |cs| ==> GoodCertificate(vs, votes, cs[i])
  }

  ghost predicate Orderly(env: Env, s: State) {
    Artifacts(env, s.validators, s.proposals, s.votes, s.certificates)
  }

  // ---------------------------------------------------------------- the tally is exact

  lemma VotersSnoc(votes: seq<VoteRecord>, height: nat, round: u64, hash: Bytes)
    requires votes != []
    ensures var last := votes[|votes| - 1];
            Voters(votes, height, round, hash)
            == (var before := Voters(votes[..|votes| - 1], height, round, hash);
                if VotesFor(last, height, round, hash) then before + {last.vote.voter} else before)
  {
    var front, last := votes[..|votes| - 1], votes[|votes| - 1];
    forall a | a in Voters(votes, height, round, hash)
      ensures a in Voters(front, height, round, hash) || (VotesFor(last, height, round, hash) && a == last.vote.voter)
    {
      var i :| 0 <= i < |votes| && VotesFor(votes[i], height, round, hash) && votes[i].vote.voter == a;
      if i < |front| {
        assert front[i] == votes[i];
      }
    }
    forall a | a in Voters(front, height, round, hash) ensures a in Voters(votes, height, round, hash) {
      var i :| 0 <= i < |front| && VotesFor(front[i], height, round, hash) && front[i].vote.voter == a;
      assert front[i] == votes[i];
    }
  }

  ghost predicate Weighed(vs: seq<Validator>, votes: seq<VoteRecord>) {
    OneVote(votes) && forall i :: 0 <= i < |votes| ==> PowerOf(vs, votes[i].vote.voter) == Some(votes[i].votingPower)
  }

  /** Distinct voters with recorded powers: the saturating tally is the exact power and never saturates. */
  lemma {:induction false} TallyExact(vs: seq<Validator>, votes: seq<VoteRecord>, height: nat, round: u64, hash: Bytes)
    requires DistinctAddresses(vs) && TotalPower(vs) <= MAX_U64 && Weighed(vs, votes)
    ensures Voters(votes, height, round, hash) <= Addresses(vs)
    ensures Tally(votes, height, round, hash) == PowerIn(vs, Voters(votes, height, round, hash)) <= TotalPower(vs)
  {
    hide PowerOf, TotalPower;
    if votes == [] {
      assert Voters(votes, height, round, hash) == {};
      PowerBounded(vs, {});
    } else {
      var front, last := votes[..|votes| - 1], votes[|votes| - 1];
      TallyExact(vs, front, height, round, hash);
      VotersSnoc(votes, height, round, hash);
      var before := Voters(front, height, round, hash);
      ActiveVoter(vs, last.vote.voter);
      if VotesFor(last, height, round, hash) {
        assert last.vote.voter !in before;
        PowerAdd(vs, before, last.vote.voter);
        PowerBounded(vs, before + {last.vote.voter});
      }
    }
  }

  lemma ActiveVoter(vs: seq<Validator>, a: Address)
    requires PowerOf(vs, a).Some?
    ensures a in Addresses(vs)
  {
  }
}
