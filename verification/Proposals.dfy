/** Verifying a proposal and building its certificate from collected votes
    (internal/v2/consensus/consensus.go, VerifyProposal and BuildCertificate). */
module Proposals {
  import opened Prelude
  import opened Sorting
  import opened Consensus
  import opened ProposerRotation
  import Checkpoint

  datatype Proposal = Proposal(header: GlobalHeader, round: u64, proposer: Bytes32, publicKey: Bytes, signature: Bytes)

  function ProposalDigest(crypto: Crypto, p: Proposal): Bytes32 {
    crypto.proposalDigest(HeaderConsensusHash(crypto, p.header), p.round, p.proposer)
  }

  /** The header is bound to the set and signed by the member scheduled for its height and round. */
  ghost predicate ScheduledProposal(crypto: Crypto, s: ValidatorSet, p: Proposal) {
    && ValidSet(crypto, s) && p.header.network == s.network && p.header.height != 0
    && p.header.certificateHash == ZERO32 && p.header.validatorRoot == Root(crypto, s)
    && 0 < TotalPower(Roster(s)) <= MAX_U64
    && (var owner := Owner(Roster(s), p.header.height, p.round); owner.id == p.proposer && owner.publicKey == p.publicKey)
    && crypto.keyId(p.publicKey) == p.proposer
    && VerifyDigest(crypto, p.publicKey, ProposalDigest(crypto, p), p.signature)
  }

  method VerifyProposal(crypto: Crypto, s: ValidatorSet, p: Proposal) returns (ok: bool)
    ensures ok <==> ScheduledProposal(crypto, s, p)
  {
    hide Owner, Root, Roster, ValidSet, VerifyDigest;
    var valid := Validate(crypto, s);
    if !valid || p.header.network != s.network || p.header.height == 0 || p.header.certificateHash != ZERO32 {
      return false;
    }
    if Root(crypto, s) != p.header.validatorRoot {
      return false;
    }
    var expected := Proposer(crypto, s, p.header.height, p.round);
    if expected.None? || expected.value.id != p.proposer || expected.value.publicKey != p.publicKey {
      return false;
    }
    return crypto.keyId(p.publicKey) == p.proposer && VerifyDigest(crypto, p.publicKey, ProposalDigest(crypto, p), p.signature);
  }

  function CertificateFor(crypto: Crypto, s: ValidatorSet, p: Proposal, votes: seq<Vote>): Certificate {
    Certificate(s.network, p.header.height, p.round, HeaderConsensusHash(crypto, p.header), votes)
  }

  /** A certificate is built exactly for a scheduled proposal whose votes certify it. */
  method BuildCertificate(crypto: Crypto, s: ValidatorSet, p: Proposal, votes: seq<Vote>) returns (r: Option<Certificate>)
    ensures r.Some? <==> ScheduledProposal(crypto, s, p) && Certifies(crypto, s, CertificateFor(crypto, s, p, votes))
    ensures r.Some? ==> r.value == CertificateFor(crypto, s, p, votes)
  {
    hide ScheduledProposal, Certifies, SoundVotes;
    var ok := VerifyProposal(crypto, s, p);
    if !ok {
      return None;
    }
    var c := Certificate(s.network, p.header.height, p.round, HeaderConsensusHash(crypto, p.header), votes);
    var verdict := VerifyCertificate(crypto, s, c);
    return if verdict == Accepted then Some(c) else None;
  }

  /** Votes are collected from a map in no particular order; whether they certify does not depend on it. */
  lemma CertifiesIgnoresOrder(crypto: Crypto, s: ValidatorSet, c: Certificate, votes: seq<Vote>)
    requires Certifies(crypto, s, c) && multiset(votes) == multiset(c.votes)
    ensures Certifies(crypto, s, c.(votes := votes))
  {
    hide ValidSet, SignedVote, PowerIn, TotalPower;
    var d := c.(votes := votes);
    SameElements(votes, c.votes);
    forall i | 0 <= i < |votes| ensures CountedVote(crypto, s, d, votes[i]) {
      assert votes[i] in c.votes;
      var k :| 0 <= k < |c.votes| && c.votes[k] == votes[i];
      assert CountedVote(crypto, s, c, c.votes[k]);
    }
    DistinctPermuted(votes, c.votes);
    forall i, j | 0 <= i < j < |votes| ensures votes[i].voter != votes[j].voter {
      assert votes[i] in c.votes && votes[j] in c.votes;
    }
    SameVoters(votes, c.votes);
  }

  lemma SameVoters(a: seq<Vote>, b: seq<Vote>)
    requires forall v :: v in a <==> v in b
    ensures Voters(a) == Voters(b)
  {
    forall id | id in Voters(a) ensures id in Voters(b) {
      var i :| 0 <= i < |a| && a[i].voter == id;
      assert a[i] in b;
    }
    forall id | id in Voters(b) ensures id in Voters(a) {
      var i :| 0 <= i < |b| && b[i].voter == id;
      assert b[i] in a;
    }
  }

  /** The consensus hash leaves the certificate reference out, so it survives filling that in. */
  lemma HashIgnoresCertificate(crypto: Crypto, h: GlobalHeader, reference: Bytes32)
    ensures HeaderConsensusHash(crypto, h.(certificateHash := reference)) == HeaderConsensusHash(crypto, h)
  {
    assert h.(certificateHash := reference).(certificateHash := ZERO32) == h.(certificateHash := ZERO32);
  }

  /** A certified proposal can be appended: its header with the certificate's digest filled in, the certificate built
      from its votes and the committee that voted are accepted by every chain at that point whose handover is met. */
  lemma CertifiedProposalAppends(crypto: Crypto, c: Checkpoint.ChainState, s: ValidatorSet, p: Proposal, votes: seq<Vote>,
                                 next: Option<ValidatorSet>)
    requires ScheduledProposal(crypto, s, p) && Certifies(crypto, s, CertificateFor(crypto, s, p, votes))
    requires c.network == s.network && c.currentRoot == Root(crypto, s) && p.header.height == c.lastHeight + 1
    requires c.lastHeight > 0 ==> p.header.parentHash == c.lastHash
    requires if p.header.nextValidatorRoot == ZERO32 || p.header.nextValidatorRoot == c.currentRoot then next.None?
             else next.Some? && next.value.network == c.network && ValidSet(crypto, next.value)
                  && Root(crypto, next.value) == p.header.nextValidatorRoot
    ensures var certificate := CertificateFor(crypto, s, p, votes);
            var header := p.header.(certificateHash := crypto.certificateDigest(certificate));
            Checkpoint.Acceptable(Checkpoint.LawOf(crypto), c, Checkpoint.Submission(header, certificate, s, next))
  {
    hide ValidSet, Certifies, Root, Roster, Owner, VerifyDigest, HeaderConsensusHash, TotalPower;
    var certificate := CertificateFor(crypto, s, p, votes);
    var header := p.header.(certificateHash := crypto.certificateDigest(certificate));
    HashIgnoresCertificate(crypto, p.header, crypto.certificateDigest(certificate));
    var submission := Checkpoint.Submission(header, certificate, s, next);
    Checkpoint.HandoverIff(Checkpoint.LawOf(crypto), c, submission);
    assert Checkpoint.InSequence(c, submission);
    assert Checkpoint.Certified(Checkpoint.LawOf(crypto), submission);
  }

  /** Two accepted proposals of one set for one height and round come from one member, the owner of that very slot, and
      its signature covers header, round and proposer. */
  lemma OneProposer(crypto: Crypto, s: ValidatorSet, p: Proposal, q: Proposal)
    requires ScheduledProposal(crypto, s, p) && ScheduledProposal(crypto, s, q)
    requires p.header.height == q.header.height && p.round == q.round
    ensures p.proposer == q.proposer && p.publicKey == q.publicKey
    ensures 0 < TotalPower(Roster(s)) <= MAX_U64 && p.proposer == Owner(Roster(s), p.header.height, p.round).id
    ensures crypto.verify(p.publicKey, crypto.proposalDigest(HeaderConsensusHash(crypto, p.header), p.round, p.proposer),
                          p.signature)
  {
    hide Owner, Roster, ValidSet, Root, TotalPower;
  }
}
