/** The chain of certified checkpoints and committee handovers (internal/v2/checkpoint/chain.go). */
module Checkpoint {
  import opened Prelude
  import opened Consensus
  import opened Finality

  datatype Entry = Entry(header: GlobalHeader, certificate: Certificate, validators: ValidatorSet)

  datatype ChainState = ChainState(
    network: Bytes32, currentRoot: Bytes32, lastHeight: u64, lastHash: Bytes32,
    entries: map<u64, Entry>, sets: map<Bytes32, ValidatorSet>)

  datatype Submission = Submission(
    header: GlobalHeader, certificate: Certificate, current: ValidatorSet, next: Option<ValidatorSet>)

  /** What the chain asks of hashes and of the committee, so that its own rules can be reasoned about alone. */
  datatype Law = Law(
    valid: ValidatorSet -> bool,
    root: ValidatorSet -> Bytes32,
    certifies: (ValidatorSet, Certificate) -> bool,
    headerHash: GlobalHeader -> Bytes32,
    certificateHash: Certificate -> Bytes32)

  ghost function LawOf(crypto: Crypto): Law {
    Law(s => ValidSet(crypto, s),
        s => Root(crypto, s),
        (s, c) => Certifies(crypto, s, c),
        h => HeaderConsensusHash(crypto, h),
        c => crypto.certificateDigest(c))
  }

  /** A valid set with this root. */
  ghost predicate Commits(law: Law, s: ValidatorSet, root: Bytes32) {
    law.valid(s) && law.root(s) == root
  }

  ghost predicate InSequence(c: ChainState, s: Submission) {
    && s.header.network == c.network && s.certificate.network == c.network && s.current.network == c.network
    && s.header.height == (c.lastHeight + 1) % U64_LIMIT
    && (c.lastHeight > 0 ==> s.header.parentHash == c.lastHash)
  }

  ghost predicate Certified(law: Law, s: Submission) {
    && s.certificate.height == s.header.height
    && s.certificate.headerHash == law.headerHash(s.header)
    && s.header.certificateHash == law.certificateHash(s.certificate)
    && law.certifies(s.current, s.certificate)
  }

  ghost predicate Handover(law: Law, c: ChainState, s: Submission) {
    var nextRoot := EffectiveNextRoot(s.header);
    if nextRoot != c.currentRoot then
      s.next.Some? && s.next.value.network == c.network && Commits(law, s.next.value, nextRoot)
    else
      s.next.Some? ==> Commits(law, s.next.value, nextRoot)
  }

  ghost predicate Acceptable(law: Law, c: ChainState, s: Submission) {
    && InSequence(c, s)
    && Commits(law, s.current, c.currentRoot) && s.header.validatorRoot == c.currentRoot
    && Certified(law, s)
    && Handover(law, c, s)
  }

  ghost function Extended(law: Law, c: ChainState, s: Submission): ChainState {
    var nextRoot := EffectiveNextRoot(s.header);
    var sets := if s.next.Some? then c.sets[nextRoot := s.next.value] else c.sets;
    c.(currentRoot := nextRoot, lastHeight := s.header.height, lastHash := law.headerHash(s.header),
       entries := c.entries[s.header.height := Entry(s.header, s.certificate, s.current)],
       sets := sets[c.currentRoot := s.current])
  }

  ghost function AppendStep(law: Law, c: ChainState, s: Submission): ChainState {
    if Acceptable(law, c, s) then Extended(law, c, s) else c
  }

  ghost function AppendAll(law: Law, c: ChainState, submissions: seq<Submission>): ChainState
    decreases |submissions|
  {
    if submissions == [] then c else AppendAll(law, AppendStep(law, c, submissions[0]), submissions[1..])
  }

  ghost function Genesis(law: Law, genesis: ValidatorSet): ChainState {
    var root := law.root(genesis);
    ChainState(genesis.network, root, 0, ZERO32, map[], map[root := genesis])
  }

  // ---------------------------------------------------------------- what every chain keeps

  /** VerifyEntry succeeds on a stored entry. */
  ghost predicate Verifies(law: Law, e: Entry) {
    && Commits(law, e.validators, e.header.validatorRoot)
    && e.certificate.headerHash == law.headerHash(e.header)
    && e.header.certificateHash == law.certificateHash(e.certificate)
    && law.certifies(e.validators, e.certificate)
  }

  /** The root in force at a height: the genesis root, then whatever the previous header hands over to. */
  function RootAt(c: ChainState, genesisRoot: Bytes32, height: nat): Bytes32 {
    if height >= 2 && height - 1 < U64_LIMIT && height - 1 in c.entries then
      EffectiveNextRoot(c.entries[height - 1].header)
    else
      genesisRoot
  }

  ghost predicate GoodEntry(law: Law, c: ChainState, genesisRoot: Bytes32, h: u64)
    requires h in c.entries
  {
    var e := c.entries[h];
    && Verifies(law, e)
    && e.header.network == c.network && e.header.height == h && e.certificate.height == h
    && e.validators.network == c.network
    && e.header.validatorRoot == RootAt(c, genesisRoot, h) && e.header.validatorRoot in c.sets
    && (h > 1 ==> h - 1 in c.entries && e.header.parentHash == law.headerHash(c.entries[h - 1].header))
  }

  ghost predicate Good(law: Law, c: ChainState, genesisRoot: Bytes32) {
    GoodEntries(law, c, genesisRoot) && GoodTip(law, c, genesisRoot) && GoodSets(law, c.network, c.sets)
  }

  ghost predicate GoodEntries(law: Law, c: ChainState, genesisRoot: Bytes32) {
    && (forall h :: h in c.entries <==> 1 <= h <= c.lastHeight)
    && (forall h :: h in c.entries ==> GoodEntry(law, c, genesisRoot, h))
  }

  ghost predicate GoodTip(law: Law, c: ChainState, genesisRoot: Bytes32) {
    && c.currentRoot == RootAt(c, genesisRoot, c.lastHeight + 1) && c.currentRoot in c.sets
    && (c.lastHeight > 0 ==>
          c.lastHeight in c.entries && c.lastHash == law.headerHash(c.entries[c.lastHeight].header))
  }

  ghost predicate GoodSets(law: Law, network: Bytes32, sets: map<Bytes32, ValidatorSet>) {
    forall r :: r in sets ==> Commits(law, sets[r], r) && sets[r].network == network
  }

  lemma OldEntryStays(law: Law, c: ChainState, genesisRoot: Bytes32, s: Submission, h: u64)
    requires h in c.entries && GoodEntry(law, c, genesisRoot, h)
    requires s.header.height !in c.entries
    ensures h in Extended(law, c, s).entries && GoodEntry(law, Extended(law, c, s), genesisRoot, h)
  {
  }

  /** Storing the next set first and the current set last keeps every key honest, even when both share a root. */
  lemma SetsStayGood(law: Law, c: ChainState, s: Submission)
    requires GoodSets(law, c.network, c.sets) && c.currentRoot in c.sets
    requires Commits(law, s.current, c.currentRoot) && s.current.network == c.network && Handover(law, c, s)
    ensures var d := Extended(law, c, s);
            d.currentRoot in d.sets && GoodSets(law, d.network, d.sets)
  {
    var d := Extended(law, c, s);
    forall r | r in d.sets ensures Commits(law, d.sets[r], r) && d.sets[r].network == d.network {
      if r != c.currentRoot && r != d.currentRoot {
        assert d.sets[r] == c.sets[r];
      }
    }
  }

  lemma NewEntryGood(law: Law, c: ChainState, genesisRoot: Bytes32, s: Submission)
    requires InSequence(c, s) && s.header.height == c.lastHeight + 1
    requires Verifies(law, Entry(s.header, s.certificate, s.current))
    requires s.certificate.height == s.header.height && s.header.validatorRoot == c.currentRoot
    requires GoodTip(law, c, genesisRoot)
    ensures GoodEntry(law, Extended(law, c, s), genesisRoot, s.header.height)
  {
  }

  /** No committee certifies height zero, so the height never wraps. */
  ghost predicate Sane(law: Law) {
    forall s, c :: law.certifies(s, c) ==> c.height != 0
  }

  lemma LawIsSane(crypto: Crypto)
    ensures Sane(LawOf(crypto))
  {
  }

  lemma AcceptedVerifies(law: Law, c: ChainState, s: Submission)
    requires Acceptable(law, c, s) && Sane(law)
    ensures Verifies(law, Entry(s.header, s.certificate, s.current))
    ensures s.certificate.height == s.header.height == c.lastHeight + 1
  {
  }

  lemma EntriesStayGood(law: Law, c: ChainState, genesisRoot: Bytes32, s: Submission)
    requires GoodEntries(law, c, genesisRoot) && s.header.height == c.lastHeight + 1
    requires GoodEntry(law, Extended(law, c, s), genesisRoot, s.header.height)
    ensures GoodEntries(law, Extended(law, c, s), genesisRoot)
  {
    hide Verifies, GoodEntry;
    var d := Extended(law, c, s);
    forall h | h in d.entries ensures GoodEntry(law, d, genesisRoot, h) {
      if h != s.header.height {
        assert GoodEntry(law, c, genesisRoot, h);
        OldEntryStays(law, c, genesisRoot, s, h);
      }
    }
  }

  lemma AppendKeeps(law: Law, c: ChainState, genesisRoot: Bytes32, s: Submission)
    requires Good(law, c, genesisRoot) && Sane(law)
    ensures Good(law, AppendStep(law, c, s), genesisRoot)
  {
    if Acceptable(law, c, s) {
      AcceptedVerifies(law, c, s);
      NewEntryGood(law, c, genesisRoot, s);
      SetsStayGood(law, c, s);
      EntriesStayGood(law, c, genesisRoot, s);
      assert GoodTip(law, Extended(law, c, s), genesisRoot);
    }
  }

  lemma {:induction false} AppendsStayGood(law: Law, c: ChainState, genesisRoot: Bytes32, submissions: seq<Submission>)
    requires Good(law, c, genesisRoot) && Sane(law)
    ensures Good(law, AppendAll(law, c, submissions), genesisRoot)
    decreases |submissions|
  {
    hide Good, AppendStep, Sane;
    if submissions != [] {
      AppendKeeps(law, c, genesisRoot, submissions[0]);
      AppendsStayGood(law, AppendStep(law, c, submissions[0]), genesisRoot, submissions[1..]);
    }
  }

  lemma GenesisIsGood(law: Law, genesis: ValidatorSet)
    requires law.valid(genesis)
    ensures Good(law, Genesis(law, genesis), law.root(genesis))
  {
  }

  /** From every valid genesis set, whatever is submitted, the chain has contiguous linked heights, follows the
      handovers, keeps only sets that hash to their key on its network, and verifies at every stored height. */
  lemma EveryChainIsGood(crypto: Crypto, genesis: ValidatorSet, submissions: seq<Submission>)
    requires ValidSet(crypto, genesis)
    ensures var law := LawOf(crypto); Good(law, AppendAll(law, Genesis(law, genesis), submissions), Root(crypto, genesis))
    ensures var es := AppendAll(LawOf(crypto), Genesis(LawOf(crypto), genesis), submissions).entries;
            && (1 in es ==> es[1].header.validatorRoot == Root(crypto, genesis))
            && forall h :: h in es && h + 1 < U64_LIMIT && h + 1 in es ==>
                 es[h + 1].header.validatorRoot ==
                   if es[h].header.nextValidatorRoot != ZERO32 then es[h].header.nextValidatorRoot
                   else es[h].header.validatorRoot
  {
    hide Good, AppendAll, Sane, Root, ValidSet;
    var c := AppendAll(LawOf(crypto), Genesis(LawOf(crypto), genesis), submissions);
    LawIsSane(crypto);
    GenesisIsGood(LawOf(crypto), genesis);
    AppendsStayGood(LawOf(crypto), Genesis(LawOf(crypto), genesis), Root(crypto, genesis), submissions);
    GoodHandsOver(LawOf(crypto), c, Root(crypto, genesis));
  }

  /** In a good chain every header is bound to the root its predecessor names, or keeps its predecessor's. */
  lemma GoodHandsOver(law: Law, c: ChainState, genesisRoot: Bytes32)
    requires Good(law, c, genesisRoot)
    ensures 1 in c.entries ==> c.entries[1].header.validatorRoot == genesisRoot
    ensures forall h :: h in c.entries && h + 1 < U64_LIMIT && h + 1 in c.entries ==>
              c.entries[h + 1].header.validatorRoot ==
                if c.entries[h].header.nextValidatorRoot != ZERO32 then c.entries[h].header.nextValidatorRoot
                else c.entries[h].header.validatorRoot
  {
    hide Verifies;
    forall h | h in c.entries && h + 1 < U64_LIMIT && h + 1 in c.entries
      ensures c.entries[h + 1].header.validatorRoot ==
                if c.entries[h].header.nextValidatorRoot != ZERO32 then c.entries[h].header.nextValidatorRoot
                else c.entries[h].header.validatorRoot {
      assert GoodEntry(law, c, genesisRoot, h + 1);
    }
    assert 1 in c.entries ==> GoodEntry(law, c, genesisRoot, 1);
  }

  /** A header bound to the current root keeps the committee when it names none or the same; a supplied set must then
      be that committee. It hands over to another root only with a valid set of the chain's network with that root. */
  lemma HandoverIff(law: Law, c: ChainState, s: Submission)
    requires s.header.validatorRoot == c.currentRoot
    ensures Handover(law, c, s) <==>
            if s.header.nextValidatorRoot == ZERO32 || s.header.nextValidatorRoot == c.currentRoot then
              s.next.Some? ==> law.valid(s.next.value) && law.root(s.next.value) == c.currentRoot
            else
              && s.next.Some? && s.next.value.network == c.network
              && law.valid(s.next.value) && law.root(s.next.value) == s.header.nextValidatorRoot
  {
  }

  /** What an accepted submission does: the root moves exactly as the header says, the named set is stored under it,
      the current set under its own root, and the entry under its height. */
  lemma AppendHandsOver(law: Law, c: ChainState, s: Submission)
    requires Acceptable(law, c, s)
    ensures var d, next := AppendStep(law, c, s), s.header.nextValidatorRoot;
            && d.currentRoot == (if next == ZERO32 then c.currentRoot else next)
            && d.lastHeight == s.header.height == (c.lastHeight + 1) % U64_LIMIT
            && d.lastHash == law.headerHash(s.header)
            && d.entries == c.entries[s.header.height := Entry(s.header, s.certificate, s.current)]
            && d.sets == c.sets + (if s.next.Some? then map[d.currentRoot := s.next.value] else map[])
                         + map[c.currentRoot := s.current]
    ensures s.header.nextValidatorRoot != ZERO32 && s.header.nextValidatorRoot != c.currentRoot ==>
              s.next.Some? && AppendStep(law, c, s).sets[s.header.nextValidatorRoot] == s.next.value
  {
    hide Certified;
    HandoverIff(law, c, s);
  }

  // ---------------------------------------------------------------- forks

  ghost function HeaderHashAt(crypto: Crypto, c: ChainState, h: u64): Bytes32
    requires h in c.entries
  {
    HeaderConsensusHash(crypto, c.entries[h].header)
  }

  lemma SameHeaderSameHandover(crypto: Crypto, x: GlobalHeader, y: GlobalHeader)
    requires HeaderConsensusHash(crypto, x) == HeaderConsensusHash(crypto, y)
    ensures EffectiveNextRoot(x) == EffectiveNextRoot(y) || HeaderCollision(crypto, x, y)
  {
  }

  /** The two chains store, at this height or as its predecessors, different values with one digest. */
  ghost predicate Collides(crypto: Crypto, a: ChainState, b: ChainState, h: u64)
    requires h in a.entries && h in b.entries
  {
    || RootCollision(crypto, a.entries[h].validators, b.entries[h].validators)
    || (h > 1 && h - 1 in a.entries && h - 1 in b.entries
        && HeaderCollision(crypto, a.entries[h - 1].header, b.entries[h - 1].header))
  }

  /** Chains that agree below a height use the same committee at it, or exhibit a hash collision. */
  lemma SameCommittee(crypto: Crypto, a: ChainState, b: ChainState, genesisRoot: Bytes32, h: u64)
    requires h in a.entries && h in b.entries
    requires GoodEntry(LawOf(crypto), a, genesisRoot, h) && GoodEntry(LawOf(crypto), b, genesisRoot, h)
    requires h > 1 ==> HeaderHashAt(crypto, a, h - 1) == HeaderHashAt(crypto, b, h - 1)
    requires h >= 1
    ensures multiset(a.entries[h].validators.validators) == multiset(b.entries[h].validators.validators)
            || Collides(crypto, a, b, h)
  {
    hide Root, HeaderConsensusHash, HeaderCollision, RootCollision, Certifies, SoundVotes, ValidSet;
    if h > 1 {
      SameHeaderSameHandover(crypto, a.entries[h - 1].header, b.entries[h - 1].header);
    }
    if !Collides(crypto, a, b, h) {
      SameRootSameMembers(crypto, a.entries[h].validators, b.entries[h].validators);
    }
  }

  /** Voters of more than one third of the committee's power signed both certificates of a height. */
  ghost predicate DoubleVoted(crypto: Crypto, a: ChainState, b: ChainState, h: u64)
    requires h in a.entries && h in b.entries
  {
    var x, y := a.entries[h].certificate, b.entries[h].certificate;
    var vs := a.entries[h].validators.validators;
    && x.height == y.height && x.round == y.round && x.headerHash != y.headerHash
    && 3 * PowerIn(vs, SharedVoters(x, y)) > TotalPower(vs)
    && forall id :: id in SharedVoters(x, y) ==> SignedBoth(crypto, x, y, id)
  }

  /** Where two chains from one genesis first differ with certificates of one round, validators holding more than
      one third of that committee's power signed both headers, or the chains exhibit a hash collision. */
  lemma ForkExposesDoubleVoting(crypto: Crypto, a: ChainState, b: ChainState, genesisRoot: Bytes32, h: u64)
    requires Good(LawOf(crypto), a, genesisRoot) && Good(LawOf(crypto), b, genesisRoot)
    requires h in a.entries && h in b.entries
    requires h > 1 ==> h - 1 in a.entries && h - 1 in b.entries
                       && HeaderHashAt(crypto, a, h - 1) == HeaderHashAt(crypto, b, h - 1)
    requires HeaderHashAt(crypto, a, h) != HeaderHashAt(crypto, b, h)
    requires a.entries[h].certificate.round == b.entries[h].certificate.round
    ensures DoubleVoted(crypto, a, b, h) || Collides(crypto, a, b, h)
  {
    hide Root, HeaderCollision, RootCollision, Certifies, ValidSet, Collides, PowerIn, TotalPower, SignedBoth, SharedVoters;
    assert GoodEntry(LawOf(crypto), a, genesisRoot, h) && GoodEntry(LawOf(crypto), b, genesisRoot, h);
    SameCommittee(crypto, a, b, genesisRoot, h);
    if !Collides(crypto, a, b, h) {
      CertificatesOverlap(crypto, a.entries[h].validators, b.entries[h].validators,
                          a.entries[h].certificate, b.entries[h].certificate);
    }
  }

  /** The votes in a chain's certificates. */
  ghost function AllVotes(c: ChainState): set<Vote> {
    set h, v | h in c.entries && v in c.entries[h].certificate.votes :: v
  }

  /** The chains exhibit a hash collision at some common height up to h. */
  ghost predicate CollidesUpTo(crypto: Crypto, a: ChainState, b: ChainState, h: u64) {
    exists k: u64 :: 1 <= k <= h && k in a.entries && k in b.entries && Collides(crypto, a, b, k)
  }

  lemma GoodAt(law: Law, c: ChainState, genesisRoot: Bytes32, h: u64)
    requires Good(law, c, genesisRoot) && h in c.entries
    ensures GoodEntry(law, c, genesisRoot, h) && h >= 1 && (h > 1 ==> h - 1 in c.entries)
  {
  }

  lemma VotesOccur(a: ChainState, b: ChainState, h: u64)
    requires h in a.entries && h in b.entries
    ensures Ballots(a.entries[h].certificate, b.entries[h].certificate) <= AllVotes(a) + AllVotes(b)
  {
  }

  lemma HeightAgrees(crypto: Crypto, a: ChainState, b: ChainState, genesisRoot: Bytes32,
                     guarded: map<Bytes32, GuardRun>, h: u64)
    requires h in a.entries && h in b.entries && h >= 1 && a.network == b.network
    requires GoodEntry(LawOf(crypto), a, genesisRoot, h) && GoodEntry(LawOf(crypto), b, genesisRoot, h)
    requires h > 1 ==> HeaderHashAt(crypto, a, h - 1) == HeaderHashAt(crypto, b, h - 1)
    requires a.entries[h].certificate.round == b.entries[h].certificate.round
    requires GuardedKeys(crypto, a.network, guarded, AllVotes(a) + AllVotes(b))
    requires MostlyGuarded(a.entries[h].validators.validators, guarded)
    ensures HeaderHashAt(crypto, a, h) == HeaderHashAt(crypto, b, h) || Collides(crypto, a, b, h)
  {
    hide Root, Certifies, ValidSet, Collides, GuardedKeys, MostlyGuarded, AllVotes, Ballots, HeaderConsensusHash;
    SameCommittee(crypto, a, b, genesisRoot, h);
    if !Collides(crypto, a, b, h) {
      var x, y := a.entries[h].certificate, b.entries[h].certificate;
      VotesOccur(a, b, h);
      FewerVotes(crypto, a.network, guarded, Ballots(x, y), AllVotes(a) + AllVotes(b));
      Agreement(crypto, a.entries[h].validators, b.entries[h].validators, guarded, x, y);
    }
  }

  /** With at most one third of every committee unguarded, chains whose certificates use the same rounds agree,
      unless they exhibit a hash collision. */
  lemma {:induction false} ChainsAgree(crypto: Crypto, a: ChainState, b: ChainState, genesisRoot: Bytes32,
                                       guarded: map<Bytes32, GuardRun>, h: u64)
    requires Good(LawOf(crypto), a, genesisRoot) && Good(LawOf(crypto), b, genesisRoot)
    requires a.network == b.network && GuardedKeys(crypto, a.network, guarded, AllVotes(a) + AllVotes(b))
    requires h in a.entries && h in b.entries
    requires forall k :: k in a.entries && k in b.entries ==>
               a.entries[k].certificate.round == b.entries[k].certificate.round &&
               MostlyGuarded(a.entries[k].validators.validators, guarded)
    ensures HeaderHashAt(crypto, a, h) == HeaderHashAt(crypto, b, h) || CollidesUpTo(crypto, a, b, h)
    decreases h
  {
    hide LawOf, Good, GoodEntry, Collides, GuardedKeys, MostlyGuarded, AllVotes, HeaderHashAt;
    GoodAt(LawOf(crypto), a, genesisRoot, h);
    GoodAt(LawOf(crypto), b, genesisRoot, h);
    if h > 1 {
      ChainsAgree(crypto, a, b, genesisRoot, guarded, h - 1);
    }
    if !CollidesUpTo(crypto, a, b, h) {
      HeightAgrees(crypto, a, b, genesisRoot, guarded, h);
    }
  }

  /** A stored entry verifies exactly when its set is valid with the header's root and certifies the header, whose
      certificate reference is that certificate's digest. */
  lemma VerifiesIff(crypto: Crypto, e: Entry)
    ensures Verifies(LawOf(crypto), e) <==>
            && ValidSet(crypto, e.validators) && Root(crypto, e.validators) == e.header.validatorRoot
            && e.certificate.headerHash == crypto.headerDigest(e.header.(certificateHash := ZERO32))
            && e.header.certificateHash == crypto.certificateDigest(e.certificate)
            && Certifies(crypto, e.validators, e.certificate)
  {
    hide ValidSet, Root, Certifies;
  }

  // ---------------------------------------------------------------- the chain object

  datatype Outcome = Appended | SequenceError | ValidatorError | CertificateError

  class Chain {
    const crypto: Crypto
    const network: Bytes32
    var currentRoot: Bytes32
    var lastHeight: u64
    var lastHash: Bytes32
    var entries: map<u64, Entry>
    var sets: map<Bytes32, ValidatorSet>

    ghost function State(): ChainState reads this {
      ChainState(network, currentRoot, lastHeight, lastHash, entries, sets)
    }

    /** Refuses the zero network, a foreign or invalid genesis set and a zero root. */
    static method New(crypto: Crypto, network: Bytes32, genesis: ValidatorSet) returns (c: Chain?)
      ensures c != null <==> network != ZERO32 && genesis.network == network && ValidSet(crypto, genesis)
                             && Root(crypto, genesis) != ZERO32
      ensures c != null ==> fresh(c) && c.crypto == crypto && c.State() == Genesis(LawOf(crypto), genesis)
      ensures c != null ==> Good(LawOf(crypto), c.State(), Root(crypto, genesis))
    {
      if network == ZERO32 || genesis.network != network {
        return null;
      }
      var valid := Validate(crypto, genesis);
      if !valid || Root(crypto, genesis) == ZERO32 {
        return null;
      }
      c := new Chain(crypto, genesis);
    }

    constructor (crypto: Crypto, genesis: ValidatorSet)
      requires ValidSet(crypto, genesis)
      ensures this.crypto == crypto && State() == Genesis(LawOf(crypto), genesis)
      ensures Good(LawOf(crypto), State(), Root(crypto, genesis))
    {
      this.crypto, network := crypto, genesis.network;
      currentRoot, lastHeight, lastHash, entries := Root(crypto, genesis), 0, ZERO32, map[];
      sets := map[Root(crypto, genesis) := genesis];
      new;
      GenesisIsGood(LawOf(crypto), genesis);
    }

    /** Appends exactly the acceptable submissions; a refused one changes nothing. */
    method Append(s: Submission) returns (r: Outcome)
      modifies this
      ensures r == Appended <==> Acceptable(LawOf(crypto), old(State()), s)
      ensures State() == AppendStep(LawOf(crypto), old(State()), s)
      ensures forall root :: Good(LawOf(crypto), old(State()), root) ==> Good(LawOf(crypto), State(), root)
    {
      hide Good, Root, ValidSet, Certifies, SoundVotes, HeaderConsensusHash, EffectiveNextRoot;
      LawIsSane(crypto);
      forall root | Good(LawOf(crypto), State(), root) ensures Good(LawOf(crypto), AppendStep(LawOf(crypto), State(), s), root) {
        AppendKeeps(LawOf(crypto), State(), root, s);
      }
      if s.header.network != network || s.certificate.network != network || s.current.network != network {
        return SequenceError;
      }
      if s.header.height != (lastHeight + 1) % U64_LIMIT || (lastHeight > 0 && s.header.parentHash != lastHash) {
        return SequenceError;
      }
      var valid := Validate(crypto, s.current);
      var root := Root(crypto, s.current);
      if !valid || root != currentRoot || s.header.validatorRoot != root {
        return ValidatorError;
      }
      if s.certificate.height != s.header.height || s.certificate.headerHash != HeaderConsensusHash(crypto, s.header)
         || s.header.certificateHash != crypto.certificateDigest(s.certificate) {
        return CertificateError;
      }
      var verdict := VerifyCertificate(crypto, s.current, s.certificate);
      if verdict != CertificateResult.Accepted {
        return CertificateError;
      }
      var nextRoot := EffectiveNextRoot(s.header);
      var hands := CheckHandover(s, nextRoot);
      if !hands {
        return ValidatorError;
      }
      if s.next.Some? {
        sets := sets[nextRoot := s.next.value];
      }
      sets := sets[root := s.current];
      entries := entries[s.header.height := Entry(s.header, s.certificate, s.current)];
      currentRoot := nextRoot;
      lastHeight := s.header.height;
      lastHash := HeaderConsensusHash(crypto, s.header);
      return Appended;
    }

    method CheckHandover(s: Submission, nextRoot: Bytes32) returns (ok: bool)
      requires nextRoot == EffectiveNextRoot(s.header)
      ensures ok <==> Handover(LawOf(crypto), State(), s)
    {
      if nextRoot != currentRoot {
        if s.next.None? || s.next.value.network != network {
          return false;
        }
      } else if s.next.None? {
        return true;
      }
      var valid := Validate(crypto, s.next.value);
      return valid && Root(crypto, s.next.value) == nextRoot;
    }

    method VerifyEntry(height: u64) returns (r: Outcome)
      ensures r == SequenceError <==> height !in entries
      ensures height in entries ==> (r == Appended <==> Verifies(LawOf(crypto), entries[height]))
      ensures (exists root :: Good(LawOf(crypto), State(), root)) && height in entries ==> r == Appended
    {
      if height !in entries {
        return SequenceError;
      }
      var e := entries[height];
      LawIsSane(crypto);
      forall root | Good(LawOf(crypto), State(), root) ensures Verifies(LawOf(crypto), e) {
        assert GoodEntry(LawOf(crypto), State(), root, height);
      }
      var valid := Validate(crypto, e.validators);
      if !valid || Root(crypto, e.validators) != e.header.validatorRoot {
        return ValidatorError;
      }
      if e.certificate.headerHash != HeaderConsensusHash(crypto, e.header)
         || e.header.certificateHash != crypto.certificateDigest(e.certificate) {
        return CertificateError;
      }
      var verdict := VerifyCertificate(crypto, e.validators, e.certificate);
      return if verdict == CertificateResult.Accepted then Appended else CertificateError;
    }
  }
}
