/** Agreement per height and round: quorum certificates over guarded validators. */
module Finality {
  import opened Prelude
  import opened Consensus
  import opened SigningGuard
  import opened GuardSafety

  /** The whole life of one validator's guard. */
  datatype GuardRun = GuardRun(hash: Hasher, events: seq<Event>)

  ghost function Granted(run: GuardRun): seq<Intent> {
    Grants(run.hash, FRESH, run.events)
  }

  /** Among the votes that occur, those under a guarded key were cast by its owner, who signs only after the guard
      granted the target (internal/v2/node/service.go, signVoteLocked); no guard's machine loses a granted record. */
  ghost predicate GuardedKeys(crypto: Crypto, network: Bytes32, guarded: map<Bytes32, GuardRun>, votes: set<Vote>) {
    && (forall v :: v in votes && v.network == network && v.voter in guarded && SignedVote(crypto, v) ==>
          Intent(v.height, v.round, v.headerHash) in Granted(guarded[v.voter]))
    && (forall id :: id in guarded ==> Preserved(guarded[id].hash, guarded[id].events))
  }

  /** The members without a guard. */
  ghost function Unguarded(vs: seq<Validator>, guarded: map<Bytes32, GuardRun>): set<Bytes32> {
    set k | 0 <= k < |vs| && vs[k].id !in guarded :: vs[k].id
  }

  ghost predicate MostlyGuarded(vs: seq<Validator>, guarded: map<Bytes32, GuardRun>) {
    3 * PowerIn(vs, Unguarded(vs, guarded)) <= TotalPower(vs)
  }

  /** One key signed votes for both certificates. */
  ghost predicate SignedBoth(crypto: Crypto, a: Certificate, b: Certificate, id: Bytes32) {
    exists i, j :: 0 <= i < |a.votes| && 0 <= j < |b.votes| &&
      a.votes[i].voter == id && b.votes[j].voter == id &&
      SameSubject(a.votes[i], a) && SameSubject(b.votes[j], b) &&
      SignedVote(crypto, a.votes[i]) && SignedVote(crypto, b.votes[j])
  }

  ghost function SharedVoters(a: Certificate, b: Certificate): set<Bytes32> {
    Voters(a.votes) * Voters(b.votes)
  }

  /** The votes of two certificates. */
  ghost function Ballots(a: Certificate, b: Certificate): set<Vote> {
    Elements(a.votes) + Elements(b.votes)
  }

  lemma FewerVotes(crypto: Crypto, network: Bytes32, guarded: map<Bytes32, GuardRun>, some: set<Vote>, all: set<Vote>)
    requires some <= all && GuardedKeys(crypto, network, guarded, all)
    ensures GuardedKeys(crypto, network, guarded, some)
  {
  }

  /** Certificates accepted by one committee, listed in whatever order, share voters of more than one third of its
      power, and each of them signed both subjects. */
  lemma CertificatesOverlap(crypto: Crypto, s: ValidatorSet, t: ValidatorSet, a: Certificate, b: Certificate)
    requires Certifies(crypto, s, a) && Certifies(crypto, t, b)
    requires multiset(s.validators) == multiset(t.validators)
    ensures 3 * PowerIn(s.validators, SharedVoters(a, b)) > TotalPower(s.validators)
    ensures forall id :: id in SharedVoters(a, b) ==> SignedBoth(crypto, a, b, id)
  {
    PowerInPermuted(s.validators, t.validators, Voters(b.votes));
    QuorumIntersection(s.validators, Voters(a.votes), Voters(b.votes));
    forall id | id in SharedVoters(a, b) ensures SignedBoth(crypto, a, b, id) {
      var i :| 0 <= i < |a.votes| && a.votes[i].voter == id;
      var j :| 0 <= j < |b.votes| && b.votes[j].voter == id;
      assert CountedVote(crypto, s, a, a.votes[i]) && CountedVote(crypto, t, b, b.votes[j]);
    }
  }

  /** A set of members holding more than the unguarded power contains a guarded one. */
  lemma GuardedMember(vs: seq<Validator>, guarded: map<Bytes32, GuardRun>, ids: set<Bytes32>) returns (id: Bytes32)
    requires MostlyGuarded(vs, guarded) && 3 * PowerIn(vs, ids) > TotalPower(vs)
    ensures id in ids && id in guarded
  {
    if forall k :: 0 <= k < |vs| && vs[k].id in ids ==> vs[k].id !in guarded {
      PowerInMonotone(vs, ids, Unguarded(vs, guarded));
      assert false;
    }
    var k :| 0 <= k < |vs| && vs[k].id in ids && vs[k].id in guarded;
    id := vs[k].id;
  }

  /** A guarded key never signs two targets for one height and round. */
  lemma GuardedSignerAgrees(crypto: Crypto, guarded: map<Bytes32, GuardRun>, a: Certificate, b: Certificate, id: Bytes32)
    requires GuardedKeys(crypto, a.network, guarded, Ballots(a, b)) && id in guarded && SignedBoth(crypto, a, b, id)
    requires a.network == b.network && a.height == b.height && a.round == b.round
    ensures a.headerHash == b.headerHash
  {
    var run := guarded[id];
    NeverTwoTargets(run.hash, run.events);
    var g := Granted(run);
    assert Intent(a.height, a.round, a.headerHash) in g;
    assert Intent(b.height, b.round, b.headerHash) in g;
    var i :| 0 <= i < |g| && g[i] == Intent(a.height, a.round, a.headerHash);
    var j :| 0 <= j < |g| && g[j] == Intent(b.height, b.round, b.headerHash);
    assert SameSlot(g[i], g[j]);
  }

  /** If validators outside the guard hold at most one third of the power, all certificates accepted for one
      height and round name one header. */
  lemma Agreement(crypto: Crypto, s: ValidatorSet, t: ValidatorSet, guarded: map<Bytes32, GuardRun>,
                  a: Certificate, b: Certificate)
    requires Certifies(crypto, s, a) && Certifies(crypto, t, b)
    requires s.network == t.network && multiset(s.validators) == multiset(t.validators)
    requires a.height == b.height && a.round == b.round
    requires GuardedKeys(crypto, s.network, guarded, Ballots(a, b)) && MostlyGuarded(s.validators, guarded)
    ensures a.headerHash == b.headerHash
  {
    CertificatesOverlap(crypto, s, t, a, b);
    var id := GuardedMember(s.validators, guarded, SharedVoters(a, b));
    GuardedSignerAgrees(crypto, guarded, a, b, id);
  }
}
