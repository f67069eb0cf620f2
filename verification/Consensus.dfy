/** Weighted validator sets, quorum certificates and proposer rotation
    (internal/v2/consensus/consensus.go, validator_root.go). */
module Consensus {
  import opened Prelude
  import opened Sorting
  import opened Codec
  import Merkle

  datatype Validator = Validator(id: Bytes32, publicKey: Bytes, power: u64)

  datatype ValidatorSet = ValidatorSet(network: Bytes32, validators: seq<Validator>)

  datatype Vote = Vote(
    network: Bytes32, height: u64, round: u64, headerHash: Bytes32,
    voter: Bytes32, publicKey: Bytes, signature: Bytes)

  /** The signed content of a vote. */
  datatype VoteSubject = VoteSubject(network: Bytes32, height: u64, round: u64, headerHash: Bytes32, voter: Bytes32)

  datatype Certificate = Certificate(
    network: Bytes32, height: u64, round: u64, headerHash: Bytes32, votes: seq<Vote>)

  datatype GlobalHeader = GlobalHeader(
    version: nat, network: Bytes32, height: u64, parentHash: Bytes32, shardCommitmentRoot: Bytes32,
    validatorRoot: Bytes32, nextValidatorRoot: Bytes32, dataRoot: Bytes32, certificateHash: Bytes32)

  /** Hashing and signature checking, left uninterpreted: theorems hold for every choice of these functions. */
  datatype Crypto = Crypto(
    keyId: Bytes -> Bytes32,
    onCurve: Bytes -> bool,
    voteDigest: VoteSubject -> Bytes32,
    proposalDigest: (Bytes32, u64, Bytes32) -> Bytes32,
    verify: (Bytes, Bytes32, Bytes) -> bool,
    headerDigest: GlobalHeader -> Bytes32,
    node: Merkle.NodeHash,
    certificateDigest: Certificate -> Bytes32)

  // ---------------------------------------------------------------- validator sets

  function TotalPower(vs: seq<Validator>): nat {
    if vs == [] then 0 else vs[0].power + TotalPower(vs[1..])
  }

  /** The power held by the members of `vs` whose identity is in `ids`. */
  ghost function PowerIn(vs: seq<Validator>, ids: set<Bytes32>): nat {
    if vs == [] then 0 else (if vs[0].id in ids then vs[0].power else 0) + PowerIn(vs[1..], ids)
  }

  ghost predicate DistinctIds(vs: seq<Validator>) {
    forall i, j :: 0 <= i < j < |vs| ==> vs[i].id != vs[j].id
  }

  predicate ValidMember(crypto: Crypto, v: Validator) {
    v.power > 0 && |v.publicKey| == 65 && crypto.keyId(v.publicKey) == v.id && crypto.onCurve(v.publicKey)
  }

  /** What ValidatorSet.Validate accepts. */
  ghost predicate ValidSet(crypto: Crypto, s: ValidatorSet) {
    && s.network != ZERO32
    && |s.validators| > 0
    && (forall i :: 0 <= i < |s.validators| ==> ValidMember(crypto, s.validators[i]))
    && DistinctIds(s.validators)
    && TotalPower(s.validators) <= MAX_U64
  }

  lemma {:induction false} TotalPowerSnoc(vs: seq<Validator>, k: nat)
    requires k < |vs|
    ensures TotalPower(vs[..k + 1]) == TotalPower(vs[..k]) + vs[k].power
  {
    if k > 0 {
      TotalPowerSnoc(vs[1..], k - 1);
      assert vs[..k + 1][1..] == vs[1..][..k] && vs[..k][1..] == vs[1..][..k - 1];
    }
  }

  lemma {:induction false} TotalPowerPrefix(vs: seq<Validator>, k: nat)
    requires k <= |vs|
    ensures TotalPower(vs[..k]) <= TotalPower(vs)
    decreases |vs| - k
  {
    if k == |vs| {
      assert vs[..k] == vs;
    } else {
      TotalPowerSnoc(vs, k);
      TotalPowerPrefix(vs, k + 1);
    }
  }

  method Validate(crypto: Crypto, s: ValidatorSet) returns (ok: bool)
    ensures ok <==> ValidSet(crypto, s)
  {
    if s.network == ZERO32 || |s.validators| == 0 {
      return false;
    }
    var seen: set<Bytes32> := {};
    var total := 0;
    var i := 0;
    while i < |s.validators|
      invariant 0 <= i <= |s.validators|
      invariant seen == set k | 0 <= k < i :: s.validators[k].id
      invariant total == TotalPower(s.validators[..i]) <= MAX_U64
      invariant forall k :: 0 <= k < i ==> ValidMember(crypto, s.validators[k])
      invariant DistinctIds(s.validators[..i])
    {
      var v := s.validators[i];
      if !ValidMember(crypto, v) {
        return false;
      }
      if v.id in seen {
        return false;
      }
      seen := seen + {v.id};
      TotalPowerSnoc(s.validators, i);
      TotalPowerPrefix(s.validators, i + 1);
      if MAX_U64 - total < v.power {
        return false;
      }
      total := total + v.power;
      i := i + 1;
    }
    assert s.validators[..i] == s.validators;
    return true;
  }

  /** Two thirds of the total plus one, computed without overflowing 64 bits. */
  function QuorumPower(total: u64): (q: u64)
    ensures total > 0 ==> q == 2 * total / 3 + 1 && q <= total
    ensures total == 0 ==> q == 0
  {
    if total == 0 then 0 else total / 3 * 2 + total % 3 * 2 / 3 + 1
  }

  // ---------------------------------------------------------------- power of identity sets

  lemma {:induction false} PowerInBound(vs: seq<Validator>, ids: set<Bytes32>)
    ensures PowerIn(vs, ids) <= TotalPower(vs)
  {
    if vs != [] { PowerInBound(vs[1..], ids); }
  }

  lemma {:induction false} PowerInUnion(vs: seq<Validator>, a: set<Bytes32>, b: set<Bytes32>)
    ensures PowerIn(vs, a) + PowerIn(vs, b) == PowerIn(vs, a + b) + PowerIn(vs, a * b)
  {
    if vs != [] { PowerInUnion(vs[1..], a, b); }
  }

  lemma {:induction false} PowerInMonotone(vs: seq<Validator>, a: set<Bytes32>, b: set<Bytes32>)
    requires forall i :: 0 <= i < |vs| && vs[i].id in a ==> vs[i].id in b
    ensures PowerIn(vs, a) <= PowerIn(vs, b)
  {
    if vs != [] { PowerInMonotone(vs[1..], a, b); }
  }

  lemma {:induction false} PowerInOne(vs: seq<Validator>, i: nat)
    requires i < |vs| && DistinctIds(vs)
    ensures PowerIn(vs, {vs[i].id}) == vs[i].power
  {
    if i > 0 {
      PowerInOne(vs[1..], i - 1);
    } else {
      PowerInNone(vs[1..], {vs[0].id});
    }
  }

  lemma {:induction false} PowerInNone(vs: seq<Validator>, ids: set<Bytes32>)
    requires forall i :: 0 <= i < |vs| ==> vs[i].id !in ids
    ensures PowerIn(vs, ids) == 0
  {
    if vs != [] { PowerInNone(vs[1..], ids); }
  }

  /** Power depends on who the validators are, not on how the slice lists them. */
  lemma {:induction false} PowerInPermuted(a: seq<Validator>, b: seq<Validator>, ids: set<Bytes32>)
    requires multiset(a) == multiset(b)
    ensures PowerIn(a, ids) == PowerIn(b, ids) && TotalPower(a) == TotalPower(b)
  {
    if a == [] {
      SameElements(a, b);
    } else {
      var j := MatchHead(a, b);
      PowerInTakeOut(b, j, ids);
      PowerInPermuted(a[1..], b[..j] + b[j + 1..], ids);
    }
  }

  lemma {:induction false} PowerInTakeOut(vs: seq<Validator>, j: nat, ids: set<Bytes32>)
    requires j < |vs|
    ensures PowerIn(vs, ids) == (if vs[j].id in ids then vs[j].power else 0) + PowerIn(vs[..j] + vs[j + 1..], ids)
    ensures TotalPower(vs) == vs[j].power + TotalPower(vs[..j] + vs[j + 1..])
  {
    if j == 0 {
      assert vs[..0] + vs[1..] == vs[1..];
    } else {
      PowerInTakeOut(vs[1..], j - 1, ids);
      assert (vs[..j] + vs[j + 1..])[1..] == vs[1..][..j - 1] + vs[1..][j..];
    }
  }

  /** Any two quorums overlap in more than one third of the total power. */
  lemma QuorumIntersection(vs: seq<Validator>, a: set<Bytes32>, b: set<Bytes32>)
    requires 0 < TotalPower(vs) <= MAX_U64
    requires PowerIn(vs, a) >= QuorumPower(TotalPower(vs))
    requires PowerIn(vs, b) >= QuorumPower(TotalPower(vs))
    ensures 3 * PowerIn(vs, a * b) > TotalPower(vs)
  {
    PowerInUnion(vs, a, b);
    PowerInBound(vs, a + b);
  }

  // ---------------------------------------------------------------- certificates

  predicate VerifyDigest(crypto: Crypto, publicKey: Bytes, digest: Bytes32, signature: Bytes) {
    |publicKey| == 65 && |signature| == 64 && crypto.onCurve(publicKey) && crypto.verify(publicKey, digest, signature)
  }

  function SigningDigest(crypto: Crypto, v: Vote): Bytes32 {
    crypto.voteDigest(VoteSubject(v.network, v.height, v.round, v.headerHash, v.voter))
  }

  /** A vote signed by the owner of the voter's identity. */
  predicate SignedVote(crypto: Crypto, v: Vote) {
    crypto.keyId(v.publicKey) == v.voter && VerifyDigest(crypto, v.publicKey, SigningDigest(crypto, v), v.signature)
  }

  predicate SameSubject(v: Vote, c: Certificate) {
    v.network == c.network && v.height == c.height && v.round == c.round && v.headerHash == c.headerHash
  }

  /** One vote of a certificate is for its subject, by a member, under the member's key. */
  ghost predicate CountedVote(crypto: Crypto, s: ValidatorSet, c: Certificate, v: Vote) {
    && SameSubject(v, c)
    && SignedVote(crypto, v)
    && exists m :: m in s.validators && m.id == v.voter && m.publicKey == v.publicKey
  }

  /** A signed digest fixes the whole subject of a vote, or two different subjects share a digest. */
  lemma DigestBindsSubject(crypto: Crypto, v: Vote, w: Vote)
    requires SigningDigest(crypto, v) == SigningDigest(crypto, w)
    ensures var a, b := VoteSubject(v.network, v.height, v.round, v.headerHash, v.voter),
                        VoteSubject(w.network, w.height, w.round, w.headerHash, w.voter);
            a == b || (a != b && crypto.voteDigest(a) == crypto.voteDigest(b))
  {
  }

  /** A vote is signed when its key is its voter's, of the right size and on the curve, and verifies over the subject. */
  lemma SignedIff(crypto: Crypto, v: Vote)
    ensures SignedVote(crypto, v) <==>
            && crypto.keyId(v.publicKey) == v.voter && |v.publicKey| == 65 && |v.signature| == 64
            && crypto.onCurve(v.publicKey)
            && crypto.verify(v.publicKey, crypto.voteDigest(VoteSubject(v.network, v.height, v.round, v.headerHash, v.voter)),
                             v.signature)
  {
  }

  /** In a valid set every identity is its member's key, so members differ in keys too, and hold positive power. */
  lemma ValidMembers(crypto: Crypto, s: ValidatorSet)
    requires ValidSet(crypto, s)
    ensures forall i :: 0 <= i < |s.validators| ==>
              var v := s.validators[i];
              v.id == crypto.keyId(v.publicKey) && |v.publicKey| == 65 && crypto.onCurve(v.publicKey) && v.power > 0
    ensures forall i, j :: 0 <= i < j < |s.validators| ==> s.validators[i].publicKey != s.validators[j].publicKey
    ensures 0 < |s.validators| <= TotalPower(s.validators) <= MAX_U64 && s.network != ZERO32
  {
    assert forall i :: 0 <= i < |s.validators| ==> ValidMember(crypto, s.validators[i]);
    PositiveTotal(s.validators);
  }

  lemma {:induction false} PositiveTotal(vs: seq<Validator>)
    requires forall i :: 0 <= i < |vs| ==> vs[i].power > 0
    ensures |vs| <= TotalPower(vs)
  {
    if vs != [] {
      PositiveTotal(vs[1..]);
    }
  }

  ghost predicate DistinctVoters(votes: seq<Vote>) {
    forall i, j :: 0 <= i < j < |votes| ==> votes[i].voter != votes[j].voter
  }

  ghost function Voters(votes: seq<Vote>): set<Bytes32> {
    set k | 0 <= k < |votes| :: votes[k].voter
  }

  ghost predicate AllCounted(crypto: Crypto, s: ValidatorSet, c: Certificate, n: nat)
    requires n <= |c.votes|
  {
    forall i :: 0 <= i < n ==> CountedVote(crypto, s, c, c.votes[i])
  }

  /** Everything a certificate needs apart from reaching the quorum. */
  ghost predicate SoundVotes(crypto: Crypto, s: ValidatorSet, c: Certificate) {
    && ValidSet(crypto, s) && c.network == s.network && c.height != 0 && c.headerHash != ZERO32
    && DistinctVoters(c.votes)
    && AllCounted(crypto, s, c, |c.votes|)
  }

  ghost predicate Certifies(crypto: Crypto, s: ValidatorSet, c: Certificate) {
    && SoundVotes(crypto, s, c)
    && PowerIn(s.validators, Voters(c.votes)) >= QuorumPower(TotalPower(s.validators))
  }

  datatype CertificateResult = Accepted | BadCertificate | InsufficientPower

  /** A certificate is accepted exactly when distinct members holding a quorum signed its subject. */
  method VerifyCertificate(crypto: Crypto, s: ValidatorSet, c: Certificate) returns (r: CertificateResult)
    ensures r == Accepted <==> Certifies(crypto, s, c)
    ensures r == InsufficientPower <==> SoundVotes(crypto, s, c) && !Certifies(crypto, s, c)
  {
    var ok := Validate(crypto, s);
    if !ok || c.network != s.network || c.height == 0 || c.headerHash == ZERO32 {
      return BadCertificate;
    }
    var members, total := IndexMembers(s.validators);
    var power := TallyVotes(crypto, s, c, members);
    if power.None? {
      return BadCertificate;
    }
    r := if power.value < QuorumPower(total) then InsufficientPower else Accepted;
  }

  /** A certificate is accepted exactly for a nonzero height and header of a valid set's network, when its votes, of
      distinct voters, are each signed over its subject by the key of a member, and those members' power exceeds two
      thirds of the total. */
  lemma CertifiesIff(crypto: Crypto, s: ValidatorSet, c: Certificate)
    ensures Certifies(crypto, s, c) <==>
            && ValidSet(crypto, s) && c.network == s.network && c.height > 0 && c.headerHash != ZERO32
            && (forall i, j :: 0 <= i < j < |c.votes| ==> c.votes[i].voter != c.votes[j].voter)
            && (forall i :: 0 <= i < |c.votes| ==>
                  var v := c.votes[i];
                  && (v.network, v.height, v.round, v.headerHash) == (c.network, c.height, c.round, c.headerHash)
                  && SignedVote(crypto, v)
                  && exists m :: m in s.validators && m.id == v.voter && m.publicKey == v.publicKey)
            && 3 * PowerIn(s.validators, Voters(c.votes)) > 2 * TotalPower(s.validators)
  {
    hide SignedVote, PowerIn;
    if ValidSet(crypto, s) {
      hide ValidSet;
      ValidMembers(crypto, s);
    }
  }

  ghost predicate Indexes(members: map<Bytes32, Validator>, vs: seq<Validator>) {
    && (forall id :: id in members ==> members[id] in vs && members[id].id == id)
    && (forall i :: 0 <= i < |vs| ==> vs[i].id in members && members[vs[i].id] == vs[i])
  }

  predicate Countable(crypto: Crypto, c: Certificate, members: map<Bytes32, Validator>, vote: Vote) {
    SameSubject(vote, c) && vote.voter in members && SignedVote(crypto, vote)
    && members[vote.voter].publicKey == vote.publicKey
  }

  lemma CountableVote(crypto: Crypto, s: ValidatorSet, c: Certificate, members: map<Bytes32, Validator>, vote: Vote)
    requires Indexes(members, s.validators)
    ensures Countable(crypto, c, members, vote) <==> CountedVote(crypto, s, c, vote)
  {
  }

  lemma CountedSnoc(crypto: Crypto, s: ValidatorSet, c: Certificate, i: nat)
    requires i < |c.votes| && AllCounted(crypto, s, c, i) && CountedVote(crypto, s, c, c.votes[i])
    ensures AllCounted(crypto, s, c, i + 1)
  {
  }

  lemma DistinctSnoc(votes: seq<Vote>, i: nat)
    requires i < |votes| && DistinctVoters(votes[..i]) && votes[i].voter !in Voters(votes[..i])
    ensures DistinctVoters(votes[..i + 1])
  {
    forall k | 0 <= k < i ensures votes[k].voter != votes[i].voter {
      assert votes[..i][k].voter in Voters(votes[..i]);
    }
  }

  lemma RepeatedVoter(votes: seq<Vote>, i: nat)
    requires i < |votes| && votes[i].voter in Voters(votes[..i])
    ensures !DistinctVoters(votes)
  {
    var k :| 0 <= k < i && votes[..i][k].voter == votes[i].voter;
  }

  /** The voting loop; its unguarded 64-bit accumulation never wraps. */
  method TallyVotes(crypto: Crypto, s: ValidatorSet, c: Certificate, members: map<Bytes32, Validator>)
    returns (power: Option<u64>)
    requires ValidSet(crypto, s) && Indexes(members, s.validators)
    ensures power.Some? <==>
              DistinctVoters(c.votes) && AllCounted(crypto, s, c, |c.votes|)
    ensures power.Some? ==> power.value == PowerIn(s.validators, Voters(c.votes))
  {
    var seen: set<Bytes32> := {};
    var sum := 0;
    var i := 0;
    PowerInNone(s.validators, {});
    while i < |c.votes|
      invariant 0 <= i <= |c.votes|
      invariant seen == Voters(c.votes[..i])
      invariant DistinctVoters(c.votes[..i])
      invariant AllCounted(crypto, s, c, i)
      invariant sum == PowerIn(s.validators, seen) <= MAX_U64
    {
      var vote := c.votes[i];
      VotersSnoc(c.votes, i);
      if vote.voter in seen {
        RepeatedVoter(c.votes, i);
        return None;
      }
      CountableVote(crypto, s, c, members, vote);
      if !Countable(crypto, c, members, vote) {
        return None;
      }
      DistinctSnoc(c.votes, i);
      CountedSnoc(crypto, s, c, i);
      AddVoter(s.validators, seen, members[vote.voter]);
      sum := WrapAdd(sum, members[vote.voter].power);
      seen := seen + {vote.voter};
      i := i + 1;
    }
    assert c.votes[..i] == c.votes;
    return Some(sum);
  }

  lemma VotersSnoc(votes: seq<Vote>, i: nat)
    requires i < |votes|
    ensures Voters(votes[..i + 1]) == Voters(votes[..i]) + {votes[i].voter}
  {
    var a, b := Voters(votes[..i + 1]), Voters(votes[..i]) + {votes[i].voter};
    forall x | x in b ensures x in a {
      if x == votes[i].voter {
        assert votes[..i + 1][i].voter == x;
      } else {
        var k :| 0 <= k < i && votes[..i][k].voter == x;
        assert votes[..i + 1][k].voter == x;
      }
    }
    forall x | x in a ensures x in b {
      var k :| 0 <= k < i + 1 && votes[..i + 1][k].voter == x;
      assert k < i ==> votes[..i][k].voter == x;
    }
  }

  /** Counting one more distinct member adds exactly its power and stays within the total. */
  lemma AddVoter(vs: seq<Validator>, seen: set<Bytes32>, m: Validator)
    requires m in vs && m.id !in seen && DistinctIds(vs) && TotalPower(vs) <= MAX_U64
    ensures PowerIn(vs, seen + {m.id}) == PowerIn(vs, seen) + m.power <= MAX_U64
  {
    var i :| 0 <= i < |vs| && vs[i] == m;
    PowerInOne(vs, i);
    PowerInUnion(vs, seen, {m.id});
    assert seen * {m.id} == {};
    PowerInNone(vs, {});
    PowerInBound(vs, seen + {m.id});
  }

  method IndexMembers(vs: seq<Validator>) returns (members: map<Bytes32, Validator>, total: u64)
    requires DistinctIds(vs) && TotalPower(vs) <= MAX_U64
    ensures total == TotalPower(vs)
    ensures Indexes(members, vs)
  {
    members := map[];
    total := 0;
    for i := 0 to |vs|
      invariant total == TotalPower(vs[..i])
      invariant forall id :: id in members ==> members[id] in vs && members[id].id == id
      invariant forall k :: 0 <= k < i ==> vs[k].id in members && members[vs[k].id] == vs[k]
    {
      members := members[vs[i].id := vs[i]];
      TotalPowerSnoc(vs, i);
      TotalPowerPrefix(vs, i + 1);
      total := total + vs[i].power;
    }
    assert vs[..|vs|] == vs;
  }

  // ---------------------------------------------------------------- roots and headers

  predicate ById(a: Validator, b: Validator) { LexLess(a.id, b.id) }

  lemma ByIdTotal(vs: seq<Validator>)
    requires DistinctIds(vs)
    ensures TotalOn(vs, ById)
  {
    forall x, y | x in vs && y in vs
      ensures x != y ==> ById(x, y) || ById(y, x)
      ensures ById(x, y) ==> !ById(y, x)
    {
      LexTrichotomy(x.id, y.id);
    }
    forall x, y, z | x in vs && y in vs && z in vs && ById(x, y) && ById(y, z) ensures ById(x, z) {
      LexTransitive(x.id, y.id, z.id);
    }
  }

  /** A member as it is committed: identity, length-prefixed key and power. */
  function LeafPayload(v: Validator): Bytes {
    v.id + U32Bytes(|v.publicKey| % U32_LIMIT) + v.publicKey + U64Bytes(v.power)
  }

  function Payloads(vs: seq<Validator>): (r: seq<Bytes>)
    ensures |r| == |vs|
  {
    seq(|vs|, i requires 0 <= i < |vs| => LeafPayload(vs[i]))
  }

  /** ValidatorSet.Root: the Merkle root of the members listed by identity. */
  function Root(crypto: Crypto, s: ValidatorSet): Bytes32 {
    Merkle.RootOf(crypto.node, Merkle.LeafHashes(crypto.node, Payloads(Sort(s.validators, ById))))
  }

  /** The tree that Root commits to. */
  function SetTree(s: ValidatorSet): Merkle.Tree {
    Merkle.TreeOf(Payloads(Sort(s.validators, ById)))
  }

  method ValidatorRoot(crypto: Crypto, s: ValidatorSet) returns (r: Option<Bytes32>)
    ensures r.Some? <==> ValidSet(crypto, s)
    ensures r.Some? ==> r.value == Root(crypto, s)
  {
    hide Sort, ValidSet, LeafPayload;
    var ok := Validate(crypto, s);
    if !ok {
      return None;
    }
    var vs := Sort(s.validators, ById);
    ghost var all := Merkle.LeafHashes(crypto.node, Payloads(vs));
    var leaves: seq<Bytes32> := [];
    while |leaves| < |vs|
      invariant |leaves| <= |vs| && leaves == all[..|leaves|]
    {
      leaves := leaves + [crypto.node(Merkle.Payload(LeafPayload(vs[|leaves|])))];
    }
    assert leaves == all;
    var root := Merkle.Root(crypto.node, leaves);
    return Some(root);
  }

  function HeaderConsensusHash(crypto: Crypto, h: GlobalHeader): Bytes32 {
    crypto.headerDigest(h.(certificateHash := ZERO32))
  }

  function EffectiveNextRoot(h: GlobalHeader): Bytes32 {
    if h.nextValidatorRoot == ZERO32 then h.validatorRoot else h.nextValidatorRoot
  }

  /** Two different headers, the certificate reference aside, that share a digest. */
  predicate HeaderCollision(crypto: Crypto, a: GlobalHeader, b: GlobalHeader) {
    && a.(certificateHash := ZERO32) != b.(certificateHash := ZERO32)
    && HeaderConsensusHash(crypto, a) == HeaderConsensusHash(crypto, b)
  }

  /** Somewhere in the two sets' trees, different inputs have one hash. */
  predicate RootCollision(crypto: Crypto, a: ValidatorSet, b: ValidatorSet) {
    Merkle.Clash(crypto.node, SetTree(a), SetTree(b))
  }

  lemma LeafPayloadUnique(v: Validator, w: Validator)
    requires LeafPayload(v) == LeafPayload(w)
    ensures v == w
  {
    var p, q := LeafPayload(v), LeafPayload(w);
    var n := |v.publicKey|;
    assert |w.publicKey| == n;
    assert v.id == p[..32] == q[..32] == w.id;
    assert v.publicKey == p[36..36 + n] == q[36..36 + n] == w.publicKey;
    assert U64Bytes(v.power) == p[36 + n..] == q[36 + n..] == U64Bytes(w.power);
    U64RoundTrip(v.power);
    U64RoundTrip(w.power);
  }

  /** Sets with one root have the same members, whatever order their slices use, or exhibit a hash collision. */
  lemma SameRootSameMembers(crypto: Crypto, a: ValidatorSet, b: ValidatorSet)
    requires Root(crypto, a) == Root(crypto, b)
    ensures multiset(a.validators) == multiset(b.validators) || RootCollision(crypto, a, b)
  {
    hide Sort, LeafPayload;
    var vs, ws := Sort(a.validators, ById), Sort(b.validators, ById);
    Merkle.RootBinds(crypto.node, Payloads(vs), Payloads(ws));
    if Payloads(vs) == Payloads(ws) {
      forall i | 0 <= i < |vs| ensures vs[i] == ws[i] {
        assert Payloads(vs)[i] == Payloads(ws)[i];
        LeafPayloadUnique(vs[i], ws[i]);
      }
      assert vs == ws;
    }
  }

  /** The root does not depend on the order of the slice. */
  lemma RootIgnoresOrder(crypto: Crypto, a: ValidatorSet, b: ValidatorSet)
    requires DistinctIds(a.validators) && multiset(a.validators) == multiset(b.validators)
    ensures Root(crypto, a) == Root(crypto, b)
  {
    ByIdTotal(a.validators);
    SortCanonical(a.validators, b.validators, ById);
  }
}
