/** The block chain over whole runs: links, seals, and whose transactions it holds. */
module ChainSafety {
  import opened Prelude
  import opened Ledger
  import opened Execution
  import opened Transfers
  import opened Admission
  import opened Imports
  import opened Voting
  import opened Evidence
  import opened Certified
  import opened LedgerRuns

  // ---------------------------------------------------------------- the chain

  /** A block that continues these blocks, seals its own fields and commits to this state. */
  ghost predicate Continues(env: Env, blocks: seq<Block>, b: Block, t: State) {
    && b.chainId == env.chainId && b.height == |blocks| + 1 && b.previousHash == TipHash(blocks)
    && b.hash == env.blockHash(env.chainId, b.height, b.previousHash, b.producedAt, b.stateRoot, b.transactionIds)
    && b.transactionCount == |b.transactions| == |b.transactionIds|
    && b.stateRoot == env.stateRoot(t.accounts, t.validators, t.funding)
  }

  /** Whatever happens to a store, its chain stays or gains one block that continues it. */
  ghost predicate Grows(env: Env, s: State, t: State) {
    t.blocks == s.blocks || (|t.blocks| == |s.blocks| + 1 && t.blocks[..|s.blocks|] == s.blocks
                             && Continues(env, s.blocks, t.blocks[|s.blocks|], t))
  }

  ghost predicate Heights(blocks: seq<Block>) {
    forall i :: 0 <= i < |blocks| ==> blocks[i].height == i + 1
  }

  lemma ImportGrows(env: Env, s: State, b: Block)
    requires Import(env, s, b).Ok?
    ensures Grows(env, s, Import(env, s, b).value)
  {
    hide Replay, Without;
  }

  lemma ProduceGrows(env: Env, s: State, max: int, producedAt: Instant, now: Instant)
    requires Heights(s.blocks) && Produce(env, s, max, producedAt, now).Ok?
    ensures Grows(env, s, Produce(env, s, max, producedAt, now).value.0)
  {
    hide Execute;
  }

  lemma GrowsAlso(env: Env, s: State, t: State, u: State)
    requires Grows(env, s, t) && u.blocks == t.blocks
    requires u.accounts == t.accounts && u.validators == t.validators && u.funding == t.funding
    ensures Grows(env, s, u)
  {
  }

  lemma OthersKeepBlocks(env: Env, s: State, e: Event)
    requires !e.Producing? && !e.ProducingCertified? && !e.Importing? && !e.ImportingEvidence? && Attempt(env, s, e).Ok?
    ensures Attempt(env, s, e).value.blocks == s.blocks
  {
    hide CountFrom, SumFrom, LastNonce, HasProposal, PowerOf, ExpectedRoot, Tally, Voters, Quorum, MayPropose,
      FirstProposal, FindVote, FindCertificate, TotalPower, Lookup;
  }

  lemma AttemptGrows(env: Env, s: State, e: Event)
    requires Heights(s.blocks) && Attempt(env, s, e).Ok?
    ensures Grows(env, s, Attempt(env, s, e).value)
  {
    hide Grows, Heights, Accept, Credit, Produce, Import, ConsensusObjection, ProposalForProduction, Attach, TotalPower,
      RecordVote, RecordProposal;
    var t := Attempt(env, s, e).value;
    match e
    case Producing(max, producedAt, now) => ProduceGrows(env, s, max, producedAt, now);
    case ProducingCertified(producedAt) =>
      ImportGrows(env, s, BlockFromProposal(env, ProposalForProduction(s, producedAt).value));
    case Importing(b, _) => ImportGrows(env, s, b);
    case ImportingEvidence(b, _) =>
      ImportGrows(env, s, b);
      GrowsAlso(env, s, Import(env, s, b).value, t);
    case _ =>
      OthersKeepBlocks(env, s, e);
      SameBlocksGrow(env, s, t);
  }

  lemma SameBlocksGrow(env: Env, s: State, t: State)
    requires t.blocks == s.blocks
    ensures Grows(env, s, t)
  {
  }

  /** Block i names its predecessor and seals its own fields. */
  ghost predicate Link(env: Env, blocks: seq<Block>, i: nat)
    requires i < |blocks|
  {
    var b := blocks[i];
    && b.chainId == env.chainId && b.height == i + 1 && b.previousHash == (if i == 0 then [] else blocks[i - 1].hash)
    && b.hash == env.blockHash(env.chainId, b.height, b.previousHash, b.producedAt, b.stateRoot, b.transactionIds)
    && b.transactionCount == |b.transactions| == |b.transactionIds|
  }

  lemma LinkGrows(env: Env, s: State, t: State)
    requires Grows(env, s, t) && forall i :: 0 <= i < |s.blocks| ==> Link(env, s.blocks, i)
    ensures forall i :: 0 <= i < |t.blocks| ==> Link(env, t.blocks, i)
  {
    if t.blocks != s.blocks {
      forall i | 0 <= i < |t.blocks| ensures Link(env, t.blocks, i) {
        if i < |s.blocks| {
          assert Link(env, s.blocks, i);
          assert t.blocks[i] == t.blocks[..|s.blocks|][i];
          assert i > 0 ==> t.blocks[i - 1] == t.blocks[..|s.blocks|][i - 1];
        } else {
          assert i > 0 ==> t.blocks[i - 1] == t.blocks[..|s.blocks|][i - 1];
        }
      }
    }
  }

  /** In every run the chain is one sealed, linked sequence of heights, and the event that appended its last block
      left exactly the state that block's root commits to. */
  lemma {:induction false} EveryRunIsLinked(env: Env, events: seq<Event>)
    ensures forall i :: 0 <= i < |Run(env, events).blocks| ==> Link(env, Run(env, events).blocks, i)
    ensures events != [] ==> Grows(env, Run(env, events[..|events| - 1]), Run(env, events))
  {
    hide Attempt, Grows, Link;
    if events != [] {
      var front, last := events[..|events| - 1], events[|events| - 1];
      EveryRunIsLinked(env, front);
      var s := Run(env, front);
      LinkedHeights(env, s.blocks);
      SameBlocksGrow(env, s, s);
      if Attempt(env, s, last).Ok? {
        AttemptGrows(env, s, last);
        GrowsAlso(env, s, Attempt(env, s, last).value, Run(env, events));
      }
      LinkGrows(env, s, Run(env, events));
    }
  }

  lemma LinkedHeights(env: Env, blocks: seq<Block>)
    requires forall i :: 0 <= i < |blocks| ==> Link(env, blocks, i)
    ensures Heights(blocks)
  {
    forall i | 0 <= i < |blocks| ensures blocks[i].height == i + 1 {
      assert Link(env, blocks, i);
    }
  }

  // ---------------------------------------------------------------- whose transactions the chain holds

  /** The store was asked to accept this envelope. */
  ghost predicate Submitted(events: seq<Event>, e: Envelope) {
    exists i :: 0 <= i < |events| && events[i].Accepting? && events[i].envelope == e
  }

  ghost predicate Vetted(env: Env, events: seq<Event>, s: State) {
    && (forall i :: 0 <= i < |s.mempool| ==> Submitted(events, s.mempool[i].envelope))
    && (forall i, j :: 0 <= i < |s.blocks| && 0 <= j < |s.blocks[i].transactions| ==>
          env.validEnvelope(s.blocks[i].transactions[j]) || Submitted(events, s.blocks[i].transactions[j]))
  }

  lemma SubmittedLater(events: seq<Event>, last: Event, e: Envelope)
    ensures Submitted(events, e) ==> Submitted(events + [last], e)
    ensures last.Accepting? ==> Submitted(events + [last], last.envelope)
  {
    var all := events + [last];
    if Submitted(events, e) {
      var i :| 0 <= i < |events| && events[i].Accepting? && events[i].envelope == e;
      assert all[i] == events[i];
    }
    assert all[|events|] == last;
  }

  lemma VettedLater(env: Env, events: seq<Event>, last: Event, s: State)
    requires Vetted(env, events, s)
    ensures Vetted(env, events + [last], s)
  {
    hide Submitted;
    forall e ensures Submitted(events, e) ==> Submitted(events + [last], e) {
      SubmittedLater(events, last, e);
    }
  }

  lemma {:induction false} WithoutIsPart(entries: seq<MempoolEntry>, ids: set<Bytes>)
    ensures forall x :: x in Without(entries, ids) ==> x in entries
  {
    if entries != [] {
      WithoutIsPart(entries[..|entries| - 1], ids);
    }
  }

  lemma ImportVetted(env: Env, events: seq<Event>, s: State, b: Block)
    requires Vetted(env, events, s) && Import(env, s, b).Ok?
    ensures Vetted(env, events, Import(env, s, b).value)
  {
    hide Submitted, Import, Executable, Execute, Without;
    if b.height == |s.blocks| + 1 {
      ImportIff(env, s, b);
      WithoutIsPart(s.mempool, Elements(b.transactionIds));
      var t := Import(env, s, b).value;
      forall i | 0 <= i < |t.mempool| ensures Submitted(events, t.mempool[i].envelope) {
        assert t.mempool[i] in s.mempool;
      }
      forall i, j | 0 <= i < |t.blocks| && 0 <= j < |t.blocks[i].transactions|
        ensures env.validEnvelope(t.blocks[i].transactions[j]) || Submitted(events, t.blocks[i].transactions[j]) {
        if i < |s.blocks| {
          assert t.blocks[i] == s.blocks[i];
        } else {
          assert Admissible(env, s, b.transactions, b.transactionIds, j);
        }
      }
    } else {
      OtherHeights(env, s, b);
    }
  }

  lemma ProduceVetted(env: Env, events: seq<Event>, s: State, max: int, producedAt: Instant, now: Instant)
    requires Vetted(env, events, s) && Produce(env, s, max, producedAt, now).Ok?
    ensures Vetted(env, events, Produce(env, s, max, producedAt, now).value.0)
  {
    hide Submitted, Execute;
    var (t, b) := Produce(env, s, max, producedAt, now).value;
    forall i, j | 0 <= i < |t.blocks| && 0 <= j < |t.blocks[i].transactions|
      ensures env.validEnvelope(t.blocks[i].transactions[j]) || Submitted(events, t.blocks[i].transactions[j]) {
      if i < |s.blocks| {
        assert t.blocks[i] == s.blocks[i];
      } else {
        assert t.blocks[i] == b && b.transactions[j] == s.mempool[j].envelope;
      }
    }
  }

  lemma VettedSame(env: Env, events: seq<Event>, s: State, t: State)
    requires Vetted(env, events, s) && t.mempool == s.mempool && t.blocks == s.blocks
    ensures Vetted(env, events, t)
  {
  }

  lemma AcceptVetted(env: Env, events: seq<Event>, s: State, e: Envelope, now: Instant)
    requires Vetted(env, events, s) && Submitted(events, e) && Accept(env, s, e, now).Ok?
    ensures Vetted(env, events, Accept(env, s, e, now).value)
  {
    hide Submitted, CountFrom, SumFrom, LastNonce, Lookup;
  }

  lemma OthersKeepQueue(env: Env, s: State, e: Event)
    requires (e.Crediting? || e.SettingValidators? || e.RecordingProposal? || e.RecordingVote? || e.AdvancingRound?)
             && Attempt(env, s, e).Ok?
    ensures Attempt(env, s, e).value.mempool == s.mempool && Attempt(env, s, e).value.blocks == s.blocks
  {
    hide HasProposal, PowerOf, ExpectedRoot, Tally, Voters, Quorum, MayPropose, FirstProposal, FindVote, FindCertificate,
      TotalPower, Lookup;
  }

  lemma AttemptVetted(env: Env, events: seq<Event>, s: State, e: Event)
    requires Vetted(env, events, s) && (e.Accepting? ==> Submitted(events, e.envelope)) && Attempt(env, s, e).Ok?
    ensures Vetted(env, events, Attempt(env, s, e).value)
  {
    hide Vetted, Submitted, Accept, Credit, Produce, Import, ConsensusObjection, ProposalForProduction, Attach, TotalPower,
      RecordVote, RecordProposal;
    var t := Attempt(env, s, e).value;
    match e
    case Accepting(envelope, now) => AcceptVetted(env, events, s, envelope, now);
    case Producing(max, producedAt, now) => ProduceVetted(env, events, s, max, producedAt, now);
    case ProducingCertified(producedAt) =>
      ImportVetted(env, events, s, BlockFromProposal(env, ProposalForProduction(s, producedAt).value));
    case Importing(b, _) => ImportVetted(env, events, s, b);
    case ImportingEvidence(b, _) =>
      ImportVetted(env, events, s, b);
      VettedSame(env, events, Import(env, s, b).value, t);
    case _ =>
      OthersKeepQueue(env, s, e);
      VettedSame(env, events, s, t);
  }

  /** In every run each chain transaction is a valid one or was submitted to this very store, and so is each queued
      one: importing lets nothing unsigned in. */
  lemma {:induction false} EveryTransactionIsVetted(env: Env, events: seq<Event>)
    ensures Vetted(env, events, Run(env, events))
  {
    hide Vetted, Submitted, Attempt;
    if events == [] {
      EmptyVetted(env);
    } else {
      var front, last := events[..|events| - 1], events[|events| - 1];
      EveryTransactionIsVetted(env, front);
      var s := Run(env, front);
      assert front + [last] == events;
      VettedLater(env, front, last, s);
      if Attempt(env, s, last).Ok? {
        if last.Accepting? {
          SubmittedLater(front, last, last.envelope);
        }
        AttemptVetted(env, events, s, last);
        VettedSame(env, events, Attempt(env, s, last).value, Run(env, events));
      }
    }
  }

  lemma EmptyVetted(env: Env)
    ensures Vetted(env, [], EMPTY)
  {
  }
}
