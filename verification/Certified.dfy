/** Certified block production (internal/ledger/certified_production.go, store.go). */
module Certified {
  import opened Prelude
  import opened Ledger
  import opened Execution
  import opened Voting
  import opened Evidence

  predicate AtHeight(s: State, p: Proposal) {
    p.height == |s.blocks| + 1
  }

  predicate Timely(s: State, producedAt: Instant, p: Proposal) {
    AtHeight(s, p) && (producedAt == UNSET || p.producedAt == producedAt)
  }

  /** A proposal production may commit: next height, right time, a full body and a certificate. */
  predicate Producible(s: State, producedAt: Instant, p: Proposal) {
    && Timely(s, producedAt, p)
    && |p.transactions| != 0 && |p.transactions| == |p.transactionIds|
    && FindCertificate(s.certificates, p.height, p.round, p.blockHash).Some?
  }

  /** The latest producible proposal among the first n, if any. */
  function LatestProducible(s: State, producedAt: Instant, n: nat): Option<Proposal>
    requires n <= |s.proposals|
  {
    if n == 0 then None
    else if Producible(s, producedAt, s.proposals[n - 1]) then Some(s.proposals[n - 1])
    else LatestProducible(s, producedAt, n - 1)
  }

  predicate SomeAtHeight(s: State, n: nat) {
    exists i :: n <= i < |s.proposals| && AtHeight(s, s.proposals[i])
  }

  predicate SomeTimely(s: State, producedAt: Instant, n: nat) {
    exists i :: n <= i < |s.proposals| && Timely(s, producedAt, s.proposals[i])
  }

  lemma SomeEarlier(s: State, producedAt: Instant, n: nat)
    requires n < |s.proposals|
    ensures SomeAtHeight(s, n) <==> AtHeight(s, s.proposals[n]) || SomeAtHeight(s, n + 1)
    ensures SomeTimely(s, producedAt, n) <==> Timely(s, producedAt, s.proposals[n]) || SomeTimely(s, producedAt, n + 1)
  {
  }

  function ProposalForProduction(s: State, producedAt: Instant): Result<Proposal> {
    var latest := LatestProducible(s, producedAt, |s.proposals|);
    if latest.Some? then Ok(latest.value)
    else if SomeTimely(s, producedAt, 0) then Err(CertificateRequired)
    else if SomeAtHeight(s, 0) then Err(TemplateMismatch)
    else Err(ProposalRequired)
  }

  method FindProposalForProduction(s: State, producedAt: Instant) returns (r: Result<Proposal>)
    ensures r == ProposalForProduction(s, producedAt)
  {
    hide Producible, AtHeight, Timely;
    var matchedHeight, matchedProducedAt := false, false;
    var n := |s.proposals|;
    while n > 0
      invariant 0 <= n <= |s.proposals|
      invariant LatestProducible(s, producedAt, |s.proposals|) == LatestProducible(s, producedAt, n)
      invariant matchedHeight <==> SomeAtHeight(s, n)
      invariant matchedProducedAt <==> SomeTimely(s, producedAt, n)
    {
      SomeEarlier(s, producedAt, n - 1);
      var p := s.proposals[n - 1];
      if Producible(s, producedAt, p) {
        return Ok(p);
      }
      matchedHeight := matchedHeight || AtHeight(s, p);
      matchedProducedAt := matchedProducedAt || Timely(s, producedAt, p);
      n := n - 1;
    }
    if matchedProducedAt {
      return Err(CertificateRequired);
    }
    if matchedHeight && producedAt != UNSET {
      return Err(TemplateMismatch);
    }
    if matchedHeight {
      UntimedMatches(s, producedAt);
    }
    return if matchedHeight then Err(CertificateRequired) else Err(ProposalRequired);
  }

  /** Without a requested time every proposal at the height is timely. */
  lemma UntimedMatches(s: State, producedAt: Instant)
    requires producedAt == UNSET
    ensures SomeAtHeight(s, 0) ==> SomeTimely(s, producedAt, 0)
  {
    if SomeAtHeight(s, 0) {
      var i :| 0 <= i < |s.proposals| && AtHeight(s, s.proposals[i]);
      assert Timely(s, producedAt, s.proposals[i]);
    }
  }

  ghost predicate NewestProducible(s: State, producedAt: Instant, i: nat, n: nat)
    requires i < n <= |s.proposals|
  {
    && Producible(s, producedAt, s.proposals[i])
    && forall j :: i < j < n ==> !Producible(s, producedAt, s.proposals[j])
  }

  /** Production takes the newest proposal that is ready, and only a proposal that holds a certificate. */
  lemma {:induction false} LatestIsNewest(s: State, producedAt: Instant, n: nat)
    requires n <= |s.proposals|
    ensures var r := LatestProducible(s, producedAt, n);
            && (r.None? <==> forall i :: 0 <= i < n ==> !Producible(s, producedAt, s.proposals[i]))
            && (r.Some? ==> exists i :: 0 <= i < n && s.proposals[i] == r.value && NewestProducible(s, producedAt, i, n))
  {
    hide Producible;
    if n > 0 {
      LatestIsNewest(s, producedAt, n - 1);
      if Producible(s, producedAt, s.proposals[n - 1]) {
        assert NewestProducible(s, producedAt, n - 1, n);
      } else if i :| 0 <= i < n - 1 && NewestProducible(s, producedAt, i, n - 1)
                     && s.proposals[i] == LatestProducible(s, producedAt, n).value {
        assert NewestProducible(s, producedAt, i, n);
      }
    }
  }

  function BlockFromProposal(env: Env, p: Proposal): Block {
    Block(p.chainId, p.height,
          env.blockHash(p.chainId, p.height, p.previousHash, p.producedAt, p.stateRoot, p.transactionIds),
          p.previousHash, p.stateRoot, p.producedAt, |p.transactions|, p.transactionIds, p.transactions)
  }

  /** The first recorded proposal that describes the block. */
  function MatchProposal(ps: seq<Proposal>, b: Block): (r: Option<Proposal>)
    ensures r.Some? ==> r.value in ps && ProposalMatches(r.value, b)
    ensures r.None? <==> forall i :: 0 <= i < |ps| ==> !ProposalMatches(ps[i], b)
  {
    if ps == [] then None
    else if ProposalMatches(ps[0], b) then Some(ps[0])
    else
      assert forall i :: 1 <= i < |ps| ==> ps[i] == ps[1..][i - 1];
      MatchProposal(ps[1..], b)
  }

  /** validateBlockConsensus with a required certificate; None means the block may be committed. */
  function ConsensusObjection(s: State, b: Block): Option<Error> {
    if s.validators == [] then Some(NoValidatorSet)
    else if forall i :: 0 <= i < |s.proposals| ==> s.proposals[i].height != b.height then Some(ProposalRequired)
    else
      var p := MatchProposal(s.proposals, b);
      if p.None? then Some(TemplateMismatch)
      else
        var expected := ProposerFor(s.validators, b.height, p.value.round);
        if expected != [] && p.value.proposer != expected then Some(UnexpectedProposer)
        else if forall i :: 0 <= i < |s.certificates| ==>
                  s.certificates[i].height != b.height || s.certificates[i].blockHash != b.hash
        then Some(CertificateRequired)
        else None
  }

  function ProduceCertified(env: Env, s: State, producedAt: Instant): Result<(State, Block)> {
    var p := ProposalForProduction(s, producedAt);
    if p.Err? then Err(p.error)
    else if p.value.chainId != env.chainId then Err(InvalidBlock)
    else
      var b := BlockFromProposal(env, p.value);
      var objection := ConsensusObjection(s, b);
      if objection.Some? then Err(objection.value)
      else
        var next := Import(env, s, b);
        if next.Err? then Err(next.error)
        else if p.value.blockHash != b.hash then Err(ProposalRequired)
        else Ok((next.value, b))
  }

  function ImportChecked(env: Env, s: State, b: Block, requireConsensus: bool): Result<State> {
    var next := Import(env, s, b);
    if next.Err? || !requireConsensus then next
    else
      var objection := ConsensusObjection(s, b);
      if objection.Some? then Err(objection.value) else next
  }
}
