/** Concrete committees, chains and guards that meet the hypotheses of the finality theorems. */
module Witnesses {
  import opened Prelude
  import opened Sorting
  import opened Consensus
  import opened SigningGuard
  import opened GuardSafety
  import opened Finality
  import opened Checkpoint

  function Fill(b: byte, n: nat): (r: Bytes)
    ensures |r| == n && forall i :: 0 <= i < n ==> r[i] == b
  {
    seq(n, i => b)
  }

  lemma NamesDiffer(a: byte, b: byte)
    requires a != b
    ensures Name(a) != Name(b)
  {
    assert Name(a)[0] != Name(b)[0];
  }

  // ---------------------------------------------------------------- a committee of one

  function Sole(): Validator {
    Validator(Name(1), Fill(7, 65), 1)
  }

  function Committee(): ValidatorSet {
    ValidatorSet(Name(2), [Sole()])
  }

  /** The same member with more power. */
  function Heir(): Validator {
    Sole().(power := 2)
  }

  function Heirs(): ValidatorSet {
    ValidatorSet(Name(2), [Heir()])
  }

  /** A hash that tells the two committees apart. */
  function Leaves(): Merkle.NodeHash {
    (p: Merkle.Preimage) => if p == Merkle.Payload(LeafPayload(Heir())) then Name(10) else Name(3)
  }

  /** Headers are identified by their data root; `accepts` says which votes carry good signatures. */
  function Simple(accepts: VoteSubject -> bool): Crypto {
    Crypto(k => Name(1), k => true, (v: VoteSubject) => if accepts(v) then Name(8) else ZERO32, (h, r, p) => ZERO32,
           (k, d, s) => d == Name(8), (h: GlobalHeader) => h.dataRoot, Leaves(), c => Name(9))
  }

  function VoteFor(height: u64, hash: Bytes32): Vote {
    Vote(Name(2), height, 0, hash, Name(1), Fill(7, 65), Fill(0, 64))
  }

  function CertificateOf(height: u64, hash: Bytes32): Certificate {
    Certificate(Name(2), height, 0, hash, [VoteFor(height, hash)])
  }

  lemma CommitteeValid(accepts: VoteSubject -> bool)
    ensures ValidSet(Simple(accepts), Committee())
    ensures PowerIn(Committee().validators, {Name(1)}) == TotalPower(Committee().validators) == 1
  {
    Named(2);
    assert Committee().validators[1..] == [];
  }

  lemma SingleRoot(crypto: Crypto, s: ValidatorSet)
    requires |s.validators| == 1
    ensures Root(crypto, s) == crypto.node(Merkle.Payload(LeafPayload(s.validators[0])))
  {
    hide Sort, LeafPayload;
    var sorted := Sort(s.validators, ById);
    SameElements(sorted, s.validators);
    assert sorted[0] in s.validators;
    assert sorted == s.validators;
  }

  lemma CommitteeRoots(accepts: VoteSubject -> bool)
    ensures Root(Simple(accepts), Committee()) == Name(3) && Root(Simple(accepts), Heirs()) == Name(10)
  {
    hide Root, LeafPayload;
    SingleRoot(Simple(accepts), Committee());
    SingleRoot(Simple(accepts), Heirs());
    if LeafPayload(Sole()) == LeafPayload(Heir()) {
      LeafPayloadUnique(Sole(), Heir());
    }
  }

  lemma SoleVoteCertifies(accepts: VoteSubject -> bool, height: u64, hash: Bytes32)
    requires height != 0 && hash != ZERO32 && accepts(VoteSubject(Name(2), height, 0, hash, Name(1)))
    ensures Certifies(Simple(accepts), Committee(), CertificateOf(height, hash))
  {
    var crypto, c, s := Simple(accepts), CertificateOf(height, hash), Committee();
    CommitteeValid(accepts);
    assert Voters(c.votes) == {Name(1)} by {
      assert c.votes[0].voter == Name(1);
    }
    assert Sole() in s.validators && CountedVote(crypto, s, c, c.votes[0]);
  }

  // ---------------------------------------------------------------- two chains that fork at height two

  function Everything(): VoteSubject -> bool {
    (v: VoteSubject) => true
  }

  function HeaderAt(height: u64, parent: Bytes32, data: Bytes32): GlobalHeader {
    GlobalHeader(0, Name(2), height, parent, ZERO32, Name(3), ZERO32, data, Name(9))
  }

  function Block(height: u64, parent: Bytes32, data: Bytes32): Submission {
    Submission(HeaderAt(height, parent, data), CertificateOf(height, data), Committee(), None)
  }

  ghost function Rules(): Law {
    LawOf(Simple(Everything()))
  }

  /** The state after one block, and after a second one with the given data root. */
  ghost function OneBlock(): ChainState {
    AppendStep(Rules(), Genesis(Rules(), Committee()), Block(1, ZERO32, Name(4)))
  }

  ghost function TwoBlocks(data: Bytes32): ChainState {
    AppendStep(Rules(), OneBlock(), Block(2, Name(4), data))
  }

  lemma NextInSequence(c: ChainState, s: Submission)
    requires s.header.network == s.certificate.network == s.current.network == c.network
    requires s.header.height == c.lastHeight + 1 && (c.lastHeight > 0 ==> s.header.parentHash == c.lastHash)
    ensures InSequence(c, s)
  {
  }

  lemma BlockCertified(height: u64, parent: Bytes32, data: Bytes32)
    requires height != 0 && data != ZERO32
    ensures Certified(Rules(), Block(height, parent, data))
  {
    hide Certifies, ValidSet, Root, Name;
    SoleVoteCertifies(Everything(), height, data);
  }

  lemma BlockAccepted(c: ChainState, height: u64, parent: Bytes32, data: Bytes32)
    requires height != 0 && c.network == Name(2) && c.currentRoot == Name(3) && height == c.lastHeight + 1
    requires (c.lastHeight > 0 ==> parent == c.lastHash) && data != ZERO32
    ensures Acceptable(Rules(), c, Block(height, parent, data))
  {
    hide Certified, InSequence, ValidSet, Root, Name, Certifies;
    CommitteeRoots(Everything());
    CommitteeValid(Everything());
    BlockCertified(height, parent, data);
    NextInSequence(c, Block(height, parent, data));
    Named(3);
  }

  lemma OneBlockFacts()
    ensures var c := OneBlock();
            && Good(Rules(), c, Name(3)) && c.network == Name(2) && c.currentRoot == Name(3) && c.lastHeight == 1
            && c.lastHash == Name(4)
            && c.entries == map[1 := Entry(HeaderAt(1, ZERO32, Name(4)), CertificateOf(1, Name(4)), Committee())]
  {
    hide Certifies, ValidSet, Good, Root;
    CommitteeRoots(Everything());
    var g := Genesis(Rules(), Committee());
    CommitteeValid(Everything());
    GenesisIsGood(Rules(), Committee());
    Named(4);
    BlockAccepted(g, 1, ZERO32, Name(4));
    LawIsSane(Simple(Everything()));
    AppendKeeps(Rules(), g, Name(3), Block(1, ZERO32, Name(4)));
  }

  lemma TwoBlockFacts(data: Bytes32)
    requires data != ZERO32
    ensures var c := TwoBlocks(data);
            && Good(Rules(), c, Name(3)) && c.network == Name(2)
            && c.entries == map[1 := Entry(HeaderAt(1, ZERO32, Name(4)), CertificateOf(1, Name(4)), Committee()),
                                2 := Entry(HeaderAt(2, Name(4), data), CertificateOf(2, data), Committee())]
  {
    hide Certifies, ValidSet, Good, Root;
    CommitteeRoots(Everything());
    OneBlockFacts();
    BlockAccepted(OneBlock(), 2, Name(4), data);
    LawIsSane(Simple(Everything()));
    AppendKeeps(Rules(), OneBlock(), Name(3), Block(2, Name(4), data));
  }

  /** Two chains of two blocks from one genesis that share the first block, differ in the second with certificates
      of one round and exhibit no hash collision: the fork theorem has something to say, and says it. */
  lemma ForkedChainsExist()
    ensures var crypto, a, b := Simple(Everything()), TwoBlocks(Name(5)), TwoBlocks(Name(6));
            && Good(LawOf(crypto), a, Name(3)) && Good(LawOf(crypto), b, Name(3))
            && 1 in a.entries && 1 in b.entries && 2 in a.entries && 2 in b.entries
            && HeaderHashAt(crypto, a, 1) == HeaderHashAt(crypto, b, 1)
            && HeaderHashAt(crypto, a, 2) != HeaderHashAt(crypto, b, 2)
            && a.entries[2].certificate.round == b.entries[2].certificate.round
            && !Collides(crypto, a, b, 2) && DoubleVoted(crypto, a, b, 2)
  {
    hide Good, Certifies, ValidSet, DoubleVoted, AppendStep, SetTree;
    var crypto, a, b := Simple(Everything()), TwoBlocks(Name(5)), TwoBlocks(Name(6));
    Named(5);
    Named(6);
    NamesDiffer(5, 6);
    TwoBlockFacts(Name(5));
    TwoBlockFacts(Name(6));
    Merkle.NoClashWithItself(crypto.node, SetTree(Committee()));
    ForkExposesDoubleVoting(crypto, a, b, Name(3), 2);
  }

  // ---------------------------------------------------------------- a handover

  /** The first block hands over to the heirs, who certify the second. */
  function HandingOver(): Submission {
    Submission(HeaderAt(1, ZERO32, Name(4)).(nextValidatorRoot := Name(10)), CertificateOf(1, Name(4)), Committee(),
               Some(Heirs()))
  }

  function TakingOver(): Submission {
    Submission(HeaderAt(2, Name(4), Name(5)).(validatorRoot := Name(10)), CertificateOf(2, Name(5)), Heirs(), None)
  }

  lemma HeirsValid()
    ensures ValidSet(Simple(Everything()), Heirs())
    ensures PowerIn(Heirs().validators, {Name(1)}) == TotalPower(Heirs().validators) == 2
  {
    Named(2);
    assert Heirs().validators[1..] == [];
  }

  lemma HeirsCertify()
    ensures Certifies(Simple(Everything()), Heirs(), CertificateOf(2, Name(5)))
  {
    hide Name;
    var crypto, c, s := Simple(Everything()), CertificateOf(2, Name(5)), Heirs();
    HeirsValid();
    Named(5);
    assert Voters(c.votes) == {Name(1)} by {
      assert c.votes[0].voter == Name(1);
    }
    assert Heir() in s.validators && CountedVote(crypto, s, c, c.votes[0]);
  }

  /** A chain whose committee changes: the first block is accepted with the heirs' set, and the second one, certified
      by the heirs alone, after it. */
  lemma HandoverExists()
    ensures var c := AppendStep(Rules(), Genesis(Rules(), Committee()), HandingOver());
            && Acceptable(Rules(), Genesis(Rules(), Committee()), HandingOver()) && Acceptable(Rules(), c, TakingOver())
            && c.currentRoot == Root(Simple(Everything()), Heirs()) != Root(Simple(Everything()), Committee())
            && AppendStep(Rules(), c, TakingOver()).lastHeight == 2
  {
    hide Certifies, ValidSet, Root, Name, InSequence;
    Named(3);
    Named(4);
    Named(10);
    NamesDiffer(3, 10);
    CommitteeRoots(Everything());
    CommitteeValid(Everything());
    HeirsValid();
    HeirsCertify();
    SoleVoteCertifies(Everything(), 1, Name(4));
    var g := Genesis(Rules(), Committee());
    NextInSequence(g, HandingOver());
    NextInSequence(AppendStep(Rules(), g, HandingOver()), TakingOver());
  }

  // ---------------------------------------------------------------- a guarded committee

  function FlatHash(): Hasher {
    (b: Bytes) => ZERO32
  }

  function First(): Intent {
    Intent(1, 0, Name(4))
  }

  function Second(): Intent {
    Intent(2, 0, Name(5))
  }

  function GuardEvents(): seq<Event> {
    [Open(Name(2), Name(1), Clean), Authorize(Name(2), Name(1), First(), Clean),
     Authorize(Name(2), Name(1), Second(), Clean)]
  }

  function Guards(): map<Bytes32, GuardRun> {
    map[Name(1) := GuardRun(FlatHash(), GuardEvents())]
  }

  lemma GuardGrants()
    ensures Grants(FlatHash(), FRESH, GuardEvents()) == [First(), Second()]
  {
    hide ReadJournal, Image, Encoded, Grants, DurableOpens, After, Name;
    var hash, n, v := FlatHash(), Name(2), Name(1);
    Named(1);
    Named(2);
    Named(4);
    Named(5);
    var opening, one, two := GuardEvents()[0], GuardEvents()[1], GuardEvents()[2];
    OpensFresh(hash, n, v);
    var w1 := Step(hash, FRESH, opening).0;
    var w2 := Step(hash, w1, one).0;
    EmptyRun(hash, Step(hash, w2, two).0);
    OneStep(hash, w2, two, []);
    OneStep(hash, w1, one, [two]);
    OneStep(hash, FRESH, opening, [one, two]);
    assert [two] + [] == [two] && [one] + [two] == [one, two] && [opening] + [one, two] == GuardEvents();
  }

  lemma GuardsCover(votes: set<Vote>)
    requires forall v :: v in votes ==> Intent(v.height, v.round, v.headerHash) in [First(), Second()]
    ensures GuardedKeys(Simple(Everything()), Name(2), Guards(), votes) && MostlyGuarded(Committee().validators, Guards())
  {
    hide Grants, PowerIn, SignedVote, DurableOpens;
    GuardGrants();
    assert PowerKept(GuardEvents());
    var vs := Committee().validators;
    assert vs[0].id in Guards();
    assert Unguarded(vs, Guards()) == {};
    PowerInNone(vs, {});
  }

  /** A committee whose only member is guarded, under a signature check that would accept any vote, with a
      certificate it accepts: agreement has something to say. */
  lemma GuardedCommitteeExists()
    ensures var crypto, c := Simple(Everything()), CertificateOf(1, Name(4));
            && Certifies(crypto, Committee(), c)
            && GuardedKeys(crypto, Name(2), Guards(), Ballots(c, c))
            && MostlyGuarded(Committee().validators, Guards())
  {
    hide Certifies, GuardedKeys, MostlyGuarded, Name;
    var c := CertificateOf(1, Name(4));
    Named(4);
    SoleVoteCertifies(Everything(), 1, Name(4));
    GuardsCover(Ballots(c, c));
  }

  /** And a chain of two blocks of that committee meets every hypothesis of the agreement of chains. */
  lemma GuardedChainExists()
    ensures var crypto, a := Simple(Everything()), TwoBlocks(Name(5));
            && Good(LawOf(crypto), a, Name(3)) && a.network == Name(2) && 2 in a.entries
            && GuardedKeys(crypto, a.network, Guards(), AllVotes(a) + AllVotes(a))
            && forall k :: k in a.entries ==> MostlyGuarded(a.entries[k].validators.validators, Guards())
  {
    hide Good, GuardedKeys, MostlyGuarded, AppendStep, Name;
    Named(5);
    TwoBlockFacts(Name(5));
    var a := TwoBlocks(Name(5));
    forall v | v in AllVotes(a) + AllVotes(a) ensures Intent(v.height, v.round, v.headerHash) in [First(), Second()] {
    }
    GuardsCover(AllVotes(a) + AllVotes(a));
  }
}
