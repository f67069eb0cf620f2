/** Merging evidence fragments from several peers (internal/api/certified_block_recovery.go). */
module Merge {
  import opened Prelude
  import opened Sorting
  import opened Ledger
  import opened Execution
  import opened Voting
  import opened Folds
  import opened Evidence

  /** Two votes that differ at most in their signature bytes. */
  predicate SameVote(v: Vote, w: Vote) {
    v.(signature := w.signature) == w
  }

  predicate SameSignedProposal(p: Proposal, q: Proposal) {
    && p.chainId == q.chainId && p.domain == q.domain && p.height == q.height && p.round == q.round
    && p.blockHash == q.blockHash && p.stateRoot == q.stateRoot && p.proposer == q.proposer
    && p.publicKey == q.publicKey && p.payload == q.payload
  }

  /** Merging one vote: a second vote of the same voter must be the same vote, and the first is kept. */
  function MergeVote(env: Env, p: Proposal, byVoter: map<Address, Vote>, v: Vote): Result<map<Address, Vote>> {
    if !env.validVote(v) then Err(InvalidMessage)
    else if !VoteOn(v, p) then Err(EvidenceInvalid)
    else if v.voter in byVoter then (if SameVote(byVoter[v.voter], v) then Ok(byVoter) else Err(EvidenceInvalid))
    else Ok(byVoter[v.voter := v])
  }

  function Merger(env: Env, p: Proposal): (map<Address, Vote>, Vote) -> Result<map<Address, Vote>> {
    (byVoter: map<Address, Vote>, v: Vote) => MergeVote(env, p, byVoter, v)
  }

  predicate ByVoter(v: Vote, w: Vote) {
    LexLess(v.voter, w.voter)
  }

  /** The list of a table of votes, in voter order. */
  ghost predicate Lists(votes: seq<Vote>, byVoter: map<Address, Vote>) {
    && Sorted(votes, (v, w) => ByVoter(v, w))
    && (forall i, j :: 0 <= i < j < |votes| ==> votes[i].voter != votes[j].voter)
    && (forall i :: 0 <= i < |votes| ==> votes[i].voter in byVoter && byVoter[votes[i].voter] == votes[i])
    && (forall a :: a in byVoter ==> exists i :: 0 <= i < |votes| && votes[i].voter == a)
  }

  // ---------------------------------------------------------------- the merge

  method IndexVotes(votes: seq<Vote>) returns (byVoter: map<Address, Vote>)
    ensures forall m :: Lists(votes, m) ==> byVoter == m
    ensures votes == [] ==> byVoter == map[]
  {
    byVoter := map[];
    var i := 0;
    while i < |votes|
      invariant 0 <= i <= |votes|
      invariant forall a :: a in byVoter ==> exists k :: 0 <= k < i && votes[k].voter == a && byVoter[a] == votes[k]
      invariant forall k :: 0 <= k < i ==> votes[k].voter in byVoter
    {
      byVoter := byVoter[votes[i].voter := votes[i]];
      i := i + 1;
    }
    forall m | Lists(votes, m) ensures byVoter == m {
      assert byVoter.Keys == m.Keys;
    }
  }

  /** Go visits a map in no particular order; sorting afterwards makes the list canonical. */
  method ListVotes(byVoter: map<Address, Vote>) returns (votes: seq<Vote>)
    requires forall a :: a in byVoter ==> byVoter[a].voter == a
    ensures Lists(votes, byVoter)
  {
    var listed: seq<Vote> := [];
    var left := byVoter.Keys;
    while left != {}
      invariant left <= byVoter.Keys
      invariant PartlyListed(byVoter, listed, left)
    {
      var a :| a in left;
      ListedNext(byVoter, listed, left, a);
      listed := listed + [byVoter[a]];
      left := left - {a};
    }
    votes := Sort(listed, (v, w) => ByVoter(v, w));
    SortLists(byVoter, listed);
  }

  ghost predicate Listed(byVoter: map<Address, Vote>, left: set<Address>, v: Vote) {
    v.voter in byVoter && v.voter !in left && byVoter[v.voter] == v
  }

  /** Every voter outside `left` is listed exactly once. */
  ghost predicate PartlyListed(byVoter: map<Address, Vote>, listed: seq<Vote>, left: set<Address>) {
    && (forall i, j :: 0 <= i < j < |listed| ==> listed[i].voter != listed[j].voter)
    && (forall i :: 0 <= i < |listed| ==> Listed(byVoter, left, listed[i]))
    && (forall a :: a in byVoter && a !in left ==> exists i :: 0 <= i < |listed| && listed[i].voter == a)
  }

  lemma ListedNext(byVoter: map<Address, Vote>, listed: seq<Vote>, left: set<Address>, a: Address)
    requires PartlyListed(byVoter, listed, left) && a in left && a in byVoter && byVoter[a].voter == a
    ensures PartlyListed(byVoter, listed + [byVoter[a]], left - {a})
  {
    var after, rest := listed + [byVoter[a]], left - {a};
    assert after[|listed|].voter == a;
    forall b | b in byVoter && b !in rest ensures exists i :: 0 <= i < |after| && after[i].voter == b {
      if b != a {
        var i :| 0 <= i < |listed| && listed[i].voter == b;
        assert after[i] == listed[i];
      }
    }
  }

  lemma VotersOrder(byVoter: map<Address, Vote>, listed: seq<Vote>)
    requires forall i :: 0 <= i < |listed| ==> Listed(byVoter, {}, listed[i])
    ensures TotalOn(listed, (v, w) => ByVoter(v, w))
  {
    forall v, w | v in listed && w in listed ensures v != w ==> ByVoter(v, w) || ByVoter(w, v) {
      LexTrichotomy(v.voter, w.voter);
    }
    forall v, w | v in listed && w in listed && ByVoter(v, w) ensures !ByVoter(w, v) {
      LexTrichotomy(v.voter, w.voter);
    }
    forall v, w, x | v in listed && w in listed && x in listed && ByVoter(v, w) && ByVoter(w, x) ensures ByVoter(v, x) {
      LexTransitive(v.voter, w.voter, x.voter);
    }
  }

  lemma SortLists(byVoter: map<Address, Vote>, listed: seq<Vote>)
    requires PartlyListed(byVoter, listed, {})
    ensures Lists(Sort(listed, (v, w) => ByVoter(v, w)), byVoter)
  {
    hide Sort;
    var votes := Sort(listed, (v, w) => ByVoter(v, w));
    VotersOrder(byVoter, listed);
    SortSorted(listed, (v, w) => ByVoter(v, w));
    SameElements(votes, listed);
    forall i | 0 <= i < |votes| ensures votes[i].voter in byVoter && byVoter[votes[i].voter] == votes[i] {
      assert votes[i] in listed;
    }
    forall a | a in byVoter ensures exists i :: 0 <= i < |votes| && votes[i].voter == a {
      var k :| 0 <= k < |listed| && listed[k].voter == a;
      assert listed[k] in votes;
      var i :| 0 <= i < |votes| && votes[i] == listed[k];
    }
    DistinctPermuted(votes, listed);
    forall i, j | 0 <= i < j < |votes| ensures votes[i].voter != votes[j].voter {
      assert votes[i] in listed && votes[j] in listed;
    }
  }

  /** Merging one fragment; before the first fragment there is no evidence yet. */
  method MergeEvidence(env: Env, b: Block, dst: Option<CertifiedBlockEvidence>, fragment: CertifiedBlockEvidence)
    returns (r: Result<CertifiedBlockEvidence>)
    requires dst.Some? ==> exists m :: Lists(dst.value.votes, m)
    ensures r.Ok? ==> r.value.proposal == (if dst.Some? then dst.value.proposal else fragment.proposal)
    ensures env.validProposal(fragment.proposal) && ForBlock(fragment.proposal, b)
            && (dst.Some? ==> SameSignedProposal(dst.value.proposal, fragment.proposal)) ==>
              forall m :: (if dst.Some? then Lists(dst.value.votes, m) else m == map[]) ==>
                var merged := Fold(Merger(env, fragment.proposal), m, fragment.votes);
                && (r.Ok? <==> merged.Ok?)
                && (r.Ok? ==> Lists(r.value.votes, merged.value))
                && (r.Err? ==> r == Err(merged.error))
    ensures r.Ok? ==> env.validProposal(fragment.proposal) && ForBlock(fragment.proposal, b)
                      && (dst.Some? ==> SameSignedProposal(dst.value.proposal, fragment.proposal))
  {
    hide Fold, Lists;
    var p := fragment.proposal;
    if !env.validProposal(p) {
      return Err(InvalidMessage);
    }
    if !ForBlock(p, b) {
      return Err(EvidenceInvalid);
    }
    if dst.Some? && !SameSignedProposal(dst.value.proposal, p) {
      return Err(EvidenceInvalid);
    }
    var start := IndexVotes(if dst.Some? then dst.value.votes else []);
    StartsKeyed(if dst.Some? then dst.value.votes else [], start);
    ghost var f := Merger(env, p);
    FoldNothing(f, start, fragment.votes);
    var byVoter := start;
    var i := 0;
    while i < |fragment.votes|
      invariant 0 <= i <= |fragment.votes|
      invariant Fold(f, start, fragment.votes[..i]) == Ok(byVoter)
      invariant forall a :: a in byVoter ==> byVoter[a].voter == a
    {
      FoldStep(f, start, fragment.votes, i, byVoter);
      var step := MergeVote(env, p, byVoter, fragment.votes[i]);
      if step.Err? {
        return Err(step.error);
      }
      byVoter := step.value;
      i := i + 1;
    }
    FoldAll(f, start, fragment.votes);
    var votes := ListVotes(byVoter);
    return Ok(CertifiedBlockEvidence(if dst.Some? then dst.value.proposal else p, votes));
  }

  predicate ForBlock(p: Proposal, b: Block) {
    p.height == b.height && p.blockHash == b.hash && p.stateRoot == b.stateRoot
  }

  lemma StartsKeyed(votes: seq<Vote>, start: map<Address, Vote>)
    requires votes == [] || exists m :: Lists(votes, m)
    requires votes == [] ==> start == map[]
    requires forall m :: Lists(votes, m) ==> start == m
    ensures forall a :: a in start ==> start[a].voter == a
  {
    if votes != [] {
      var m :| Lists(votes, m);
      assert start == m;
    }
  }

  // ---------------------------------------------------------------- any split, any order

  /** All votes of a list of fragments. */
  function Joined(fragments: seq<seq<Vote>>): seq<Vote> {
    if fragments == [] then [] else Joined(fragments[..|fragments| - 1]) + fragments[|fragments| - 1]
  }

  /** Merging fragment after fragment, from nothing. */
  function MergeAll(env: Env, p: Proposal, fragments: seq<seq<Vote>>): Result<map<Address, Vote>> {
    if fragments == [] then Ok(map[])
    else
      var before := MergeAll(env, p, fragments[..|fragments| - 1]);
      if before.Err? then before else Fold(Merger(env, p), before.value, fragments[|fragments| - 1])
  }

  /** How votes are split over fragments does not matter. */
  lemma {:induction false} SplitIrrelevant(env: Env, p: Proposal, fragments: seq<seq<Vote>>)
    ensures MergeAll(env, p, fragments) == Fold(Merger(env, p), map[], Joined(fragments))
  {
    if fragments != [] {
      SplitIrrelevant(env, p, fragments[..|fragments| - 1]);
      FoldConcat(Merger(env, p), map[], Joined(fragments[..|fragments| - 1]), fragments[|fragments| - 1]);
    }
  }

  /** Votes that can be merged at all: valid, on the proposal, and the same whenever the voter is the same. */
  ghost predicate Mergeable(env: Env, p: Proposal, votes: seq<Vote>) {
    && (forall i :: 0 <= i < |votes| ==> env.validVote(votes[i]) && VoteOn(votes[i], p))
    && (forall i, j :: 0 <= i < j < |votes| && votes[i].voter == votes[j].voter ==> SameVote(votes[i], votes[j]))
  }

  ghost predicate Tabulates(votes: seq<Vote>, byVoter: map<Address, Vote>) {
    && byVoter.Keys == Signers(votes)
    && (forall a :: a in byVoter ==> byVoter[a].voter == a && byVoter[a] in votes)
  }

  lemma MergeableFront(env: Env, p: Proposal, votes: seq<Vote>, byVoter: map<Address, Vote>)
    requires votes != [] && Mergeable(env, p, votes[..|votes| - 1]) && Tabulates(votes[..|votes| - 1], byVoter)
    ensures var last := votes[|votes| - 1];
            Mergeable(env, p, votes) <==>
            env.validVote(last) && VoteOn(last, p) && (last.voter in byVoter ==> SameVote(byVoter[last.voter], last))
  {
    var front, last := votes[..|votes| - 1], votes[|votes| - 1];
    assert votes == front + [last];
    if last.voter in byVoter {
      var k :| 0 <= k < |front| && front[k] == byVoter[last.voter];
      assert votes[k] == front[k];
      if SameVote(byVoter[last.voter], last) {
        forall i | 0 <= i < |front| && votes[i].voter == last.voter ensures SameVote(votes[i], last) {
          assert front[i] == votes[i];
          assert i < k ==> SameVote(front[i], front[k]);
          assert k < i ==> SameVote(front[k], front[i]);
        }
      }
    } else {
      forall i | 0 <= i < |front| ensures votes[i].voter != last.voter {
        assert front[i] == votes[i];
        assert front[i].voter in Signers(front);
      }
    }
  }

  lemma MergeOne(env: Env, p: Proposal, votes: seq<Vote>, byVoter: map<Address, Vote>)
    requires votes != [] && Tabulates(votes[..|votes| - 1], byVoter)
    ensures var last := votes[|votes| - 1];
            var r := MergeVote(env, p, byVoter, last);
            && (r.Ok? <==> env.validVote(last) && VoteOn(last, p)
                           && (last.voter in byVoter ==> SameVote(byVoter[last.voter], last)))
            && (r.Ok? ==> Tabulates(votes, r.value))
  {
    hide SameVote, Signers;
    var front, last := votes[..|votes| - 1], votes[|votes| - 1];
    SignersSnoc(votes);
    assert votes == front + [last];
    var r := MergeVote(env, p, byVoter, last);
    if r.Ok? {
      forall a | a in r.value ensures r.value[a].voter == a && r.value[a] in votes {
        if a in byVoter {
          assert byVoter[a] in front;
        }
      }
    }
  }

  lemma MergeableLess(env: Env, p: Proposal, votes: seq<Vote>)
    requires votes != [] && Mergeable(env, p, votes)
    ensures Mergeable(env, p, votes[..|votes| - 1])
  {
  }

  /** Merging succeeds exactly on mergeable votes, in whatever order, and keeps one vote per voter. */
  lemma {:induction false} MergeIff(env: Env, p: Proposal, votes: seq<Vote>)
    ensures var r := Fold(Merger(env, p), map[], votes);
            (r.Ok? <==> Mergeable(env, p, votes)) && (r.Ok? ==> Tabulates(votes, r.value))
  {
    if votes != [] {
      hide Mergeable, SameVote, Tabulates, MergeVote;
      var front, last := votes[..|votes| - 1], votes[|votes| - 1];
      MergeIff(env, p, front);
      var before := Fold(Merger(env, p), map[], front);
      if before.Ok? {
        MergeableFront(env, p, votes, before.value);
        MergeOne(env, p, votes, before.value);
      } else if Mergeable(env, p, votes) {
        MergeableLess(env, p, votes);
      }
    } else {
      assert Signers(votes) == {};
    }
  }

  /** No vote retained for this height and round contradicts the offered ones, and every offered voter is active. */
  ghost predicate Unopposed(s: State, p: Proposal, votes: seq<Vote>) {
    forall i :: 0 <= i < |votes| ==>
      && PowerOf(s.validators, votes[i].voter).Some?
      && (var existing := FindVote(s.votes, p.height, p.round, votes[i].voter);
          existing.None? || existing.value.blockHash == p.blockHash)
  }

  lemma ListsOfferable(env: Env, s: State, p: Proposal, offered: seq<Vote>, byVoter: map<Address, Vote>, votes: seq<Vote>)
    requires Mergeable(env, p, offered) && Unopposed(s, p, offered)
    requires Tabulates(offered, byVoter) && Lists(votes, byVoter)
    ensures Offerable(env, s, p, votes) && Signers(votes) == Signers(offered)
  {
    hide PowerOf, FindVote, SameVote, Sorted;
    forall i | 0 <= i < |votes| ensures Countable(env, s, p, votes[i]) {
      assert votes[i] in offered;
      var k :| 0 <= k < |offered| && offered[k] == votes[i];
      assert PowerOf(s.validators, offered[k].voter).Some?;
    }
    forall a | a in byVoter ensures a in Signers(votes) {
    }
  }

  /** Evidence import depends only on the set of voters: whatever fragments their votes came in and in
      whatever order they were merged, the block is accepted exactly when retained and offered voters
      together reach quorum. */
  lemma EvidenceImportIff(env: Env, s: State, b: Block, p: Proposal, fragments: seq<seq<Vote>>, votes: seq<Vote>)
    requires Orderly(env, s) && s.validators != [] && Import(env, s, b).Ok?
    requires ProposalFits(env, s.validators, b, p)
    requires forall i :: 0 <= i < |s.proposals| ==> !Contradicts(s.proposals[i], p)
    requires Mergeable(env, p, Joined(fragments)) && Unopposed(s, p, Joined(fragments))
    ensures MergeAll(env, p, fragments).Ok?
    ensures Lists(votes, MergeAll(env, p, fragments).value) ==>
              && Voters(s.votes, p.height, p.round, p.blockHash) + Signers(Joined(fragments)) <= Addresses(s.validators)
              && (ImportWithEvidence(env, s, b, CertifiedBlockEvidence(p, votes)).Ok? <==>
                    0 < Quorum(s.validators) <= UnionPower(s, p, Signers(Joined(fragments))))
  {
    hide Orderly, ProposalFits, Import, Attach, Voters, Signers, Mergeable, Unopposed, Fold, UnionPower, Quorum,
      MergeAll, Joined, Lists, Tabulates, Contradicts;
    SplitIrrelevant(env, p, fragments);
    MergeIff(env, p, Joined(fragments));
    var byVoter := MergeAll(env, p, fragments).value;
    if Lists(votes, byVoter) {
      ListsOfferable(env, s, p, Joined(fragments), byVoter, votes);
      AttachIff(env, s, b, CertifiedBlockEvidence(p, votes));
    }
  }

  // ---------------------------------------------------------------- what may be merged

  /** A vote joins the table exactly when it is well signed, for this proposal's height, round and block, and, when its
      voter is there already, agrees with that vote in everything but the signature; the first one stays. */
  lemma MergeVoteIff(env: Env, p: Proposal, byVoter: map<Address, Vote>, v: Vote)
    ensures MergeVote(env, p, byVoter, v).Ok? <==>
            && env.validVote(v) && v.height == p.height && v.round == p.round && v.blockHash == p.blockHash
            && (v.voter in byVoter ==>
                  var w := byVoter[v.voter];
                  && w.chainId == v.chainId && w.domain == v.domain && w.height == v.height && w.round == v.round
                  && w.blockHash == v.blockHash && w.voter == v.voter && w.publicKey == v.publicKey && w.payload == v.payload)
    ensures MergeVote(env, p, byVoter, v).Ok? ==>
              MergeVote(env, p, byVoter, v).value == (if v.voter in byVoter then byVoter else byVoter[v.voter := v])
    ensures MergeVote(env, p, byVoter, v).Err? ==>
              MergeVote(env, p, byVoter, v).error == if env.validVote(v) then EvidenceInvalid else InvalidMessage
  {
  }

  /** Fragments may differ in what the block itself fixes, not in what was signed; and each must be for the block. */
  lemma FragmentsIff(p: Proposal, q: Proposal, b: Block)
    ensures SameSignedProposal(p, q) <==>
            p == q.(previousHash := p.previousHash, producedAt := p.producedAt, transactionIds := p.transactionIds,
                    transactions := p.transactions, signature := p.signature)
    ensures ForBlock(p, b) <==> (p.height, p.blockHash, p.stateRoot) == (b.height, b.hash, b.stateRoot)
  {
  }
}
