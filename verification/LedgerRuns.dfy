/** Runs of the ledger: every operation of the store as one event, and the books each run keeps. */
module LedgerRuns {
  import opened Prelude
  import opened Ledger
  import opened Execution
  import opened Transfers
  import opened Admission
  import opened Voting
  import opened Evidence
  import opened Certified

  datatype Event =
    | Crediting(requestId: Bytes, to: Address, amount: u64)
    | Accepting(envelope: Envelope, now: Instant)
    | Producing(max: int, producedAt: Instant, now: Instant)
    | ProducingCertified(producedAt: Instant)
    | Importing(block: Block, requireConsensus: bool)
    | ImportingEvidence(block: Block, evidence: CertifiedBlockEvidence)
    | SettingValidators(validators: seq<Validator>)
    | RecordingProposal(proposal: Proposal)
    | RecordingVote(vote: Vote)
    | AdvancingRound

  function First<S, T>(r: Result<(S, T)>): Result<S> {
    if r.Ok? then Ok(r.value.0) else Err(r.error)
  }

  /** The outcome of one operation. */
  ghost function Attempt(env: Env, s: State, e: Event): Result<State> {
    match e
    case Crediting(requestId, to, amount) => Credit(s, requestId, to, amount)
    case Accepting(envelope, now) => Accept(env, s, envelope, now)
    case Producing(max, producedAt, now) => First(Produce(env, s, max, producedAt, now))
    case ProducingCertified(producedAt) => First(ProduceCertified(env, s, producedAt))
    case Importing(b, requireConsensus) => ImportChecked(env, s, b, requireConsensus)
    case ImportingEvidence(b, evidence) => ImportWithEvidence(env, s, b, evidence)
    case SettingValidators(vs) => SetValidators(s, vs)
    case RecordingProposal(p) => RecordProposal(env, s, p)
    case RecordingVote(v) => var r := RecordVote(env, s, v); if r.Ok? then Ok(r.value.state) else Err(r.error)
    case AdvancingRound => AdvanceRound(s)
  }

  /** A failed operation leaves the store as it was. */
  ghost function Step(env: Env, s: State, e: Event): State {
    var r := Attempt(env, s, e);
    if r.Ok? then Normalize(r.value) else s
  }

  ghost function Run(env: Env, events: seq<Event>): State {
    if events == [] then EMPTY else Step(env, Run(env, events[..|events| - 1]), events[|events| - 1])
  }

  /** What an event adds to the money supply of `s`. */
  ghost function Minted(s: State, e: Event): nat {
    if e.Crediting? && Credits(s, e.requestId, e.to, e.amount) then e.amount else 0
  }

  ghost function TotalCredit(env: Env, events: seq<Event>): nat {
    if events == [] then 0
    else
      var front := events[..|events| - 1];
      TotalCredit(env, front) + Minted(Run(env, front), events[|events| - 1])
  }

  // ---------------------------------------------------------------- the books

  /** All transactions of a chain, in chain order. */
  ghost function Body(blocks: seq<Block>): seq<Envelope> {
    if blocks == [] then [] else Body(blocks[..|blocks| - 1]) + blocks[|blocks| - 1].transactions
  }

  function TxIds(env: Env, txs: seq<Envelope>): (r: seq<Bytes>)
    ensures |r| == |txs|
    ensures forall i :: 0 <= i < |r| ==> r[i] == env.txId(txs[i])
  {
    seq(|txs|, i requires 0 <= i < |txs| => env.txId(txs[i]))
  }

  /** Each transaction carries the number of its sender's earlier transactions plus one. */
  ghost predicate Numbered(txs: seq<Envelope>) {
    forall i :: 0 <= i < |txs| ==> txs[i].nonce == CountFrom(txs[..i], txs[i].from) + 1
  }

  /** Every block names its transactions, and the committed IDs are exactly those in blocks. */
  ghost predicate Catalogued(env: Env, blocks: seq<Block>, committed: set<Bytes>) {
    && (forall i :: 0 <= i < |blocks| ==> blocks[i].transactionIds == TxIds(env, blocks[i].transactions))
    && (forall i :: 0 <= i < |blocks| ==> Elements(blocks[i].transactionIds) <= committed)
    && (forall id :: id in committed ==> exists i :: 0 <= i < |blocks| && id in blocks[i].transactionIds)
  }

  ghost predicate Books(env: Env, s: State, credited: nat) {
    && Total(s.accounts) == credited
    && (forall a :: Lookup(s.accounts, a).nonce == CountFrom(Body(s.blocks), a))
    && Numbered(Body(s.blocks))
    && Catalogued(env, s.blocks, s.committed)
  }

  ghost predicate Kept(env: Env, s: State, credited: nat) {
    Books(env, s, credited) && QueueKnown(env, s)
  }

  lemma NumberedConcat(done: seq<Envelope>, txs: seq<Envelope>)
    requires Numbered(done)
    requires forall i :: 0 <= i < |txs| ==>
               txs[i].nonce == CountFrom(done, txs[i].from) + CountFrom(txs[..i], txs[i].from) + 1
    ensures Numbered(done + txs)
  {
    hide CountFrom;
    var all := done + txs;
    forall i | 0 <= i < |all| ensures all[i].nonce == CountFrom(all[..i], all[i].from) + 1 {
      if i < |done| {
        assert all[..i] == done[..i] && all[i] == done[i];
      } else {
        var k := i - |done|;
        assert all[..i] == done + txs[..k] && all[i] == txs[k];
        Concat(done, txs[..k], txs[k].from);
      }
    }
  }

  lemma CataloguedSnoc(env: Env, blocks: seq<Block>, committed: set<Bytes>, b: Block)
    requires Catalogued(env, blocks, committed) && b.transactionIds == TxIds(env, b.transactions)
    ensures Catalogued(env, blocks + [b], committed + Elements(b.transactionIds))
  {
    var after, all := blocks + [b], committed + Elements(b.transactionIds);
    forall i | 0 <= i < |after|
      ensures after[i].transactionIds == TxIds(env, after[i].transactions) && Elements(after[i].transactionIds) <= all {
      if i < |blocks| {
        assert after[i] == blocks[i];
      }
    }
    forall id | id in all ensures exists i :: 0 <= i < |after| && id in after[i].transactionIds {
      if id in committed {
        var i :| 0 <= i < |blocks| && id in blocks[i].transactionIds;
        assert after[i] == blocks[i];
      } else {
        assert after[|blocks|] == b;
      }
    }
  }

  /** Committing an executed block keeps the books. */
  lemma CommitKeepsBooks(env: Env, s: State, accounts: Accounts, mempool: seq<MempoolEntry>, b: Block, credited: nat)
    requires Books(env, s, credited)
    requires Execute(s.accounts, b.transactions) == Some(accounts)
    requires b.transactionIds == TxIds(env, b.transactions)
    ensures Books(env, Commit(s, accounts, mempool, b), credited)
  {
    hide Total, Execute, CountFrom, Numbered, Catalogued, Lookup;
    ExecuteMoves(s.accounts, b.transactions, accounts);
    var blocks := s.blocks + [b];
    assert blocks[..|s.blocks|] == s.blocks;
    assert Body(blocks) == Body(s.blocks) + b.transactions;
    NumberedConcat(Body(s.blocks), b.transactions);
    CataloguedSnoc(env, s.blocks, s.committed, b);
    forall a ensures Lookup(accounts, a).nonce == CountFrom(Body(blocks), a) {
      Concat(Body(s.blocks), b.transactions, a);
    }
  }

  lemma BooksElsewhere(env: Env, s: State, t: State, credited: nat)
    requires Books(env, s, credited)
    requires t.blocks == s.blocks && t.committed == s.committed
    requires Total(t.accounts) == Total(s.accounts)
    requires forall a :: Lookup(t.accounts, a).nonce == Lookup(s.accounts, a).nonce
    ensures Books(env, t, credited)
  {
  }

  // ---------------------------------------------------------------- the queue's identities

  lemma {:induction false} WithoutKeeps(entries: seq<MempoolEntry>, ids: set<Bytes>, r: seq<MempoolEntry>)
    requires r == Without(entries, ids)
    requires forall i, j :: 0 <= i < j < |entries| ==> entries[i].id != entries[j].id
    ensures forall i, j :: 0 <= i < j < |r| ==> r[i].id != r[j].id
    ensures forall i :: 0 <= i < |r| ==> r[i] in entries && r[i].id !in ids
  {
    if entries != [] {
      var front, last := entries[..|entries| - 1], entries[|entries| - 1];
      var kept := Without(front, ids);
      WithoutKeeps(front, ids, kept);
      forall i | 0 <= i < |kept| ensures kept[i] in entries && kept[i].id != last.id {
        var k :| 0 <= k < |front| && front[k] == kept[i];
        assert entries[k] == front[k];
      }
    }
  }

  /** Committing a block whose transactions leave the queue keeps the queue's identities. */
  lemma CommitKeepsQueue(env: Env, s: State, accounts: Accounts, mempool: seq<MempoolEntry>, b: Block)
    requires QueueKnown(env, s) && b.height == |s.blocks| + 1
    requires forall i :: 0 <= i < |mempool| ==> mempool[i] in s.mempool && mempool[i].id !in b.transactionIds
    requires forall i, j :: 0 <= i < j < |mempool| ==> mempool[i].id != mempool[j].id
    ensures QueueKnown(env, Commit(s, accounts, mempool, b))
  {
    forall i | 0 <= i < |mempool| ensures mempool[i].id == env.txId(mempool[i].envelope) && mempool[i].id !in s.committed {
      var k :| 0 <= k < |s.mempool| && s.mempool[k] == mempool[i];
    }
  }

  /** An accepted body was executed, named by its own IDs and new to the chain. */
  lemma {:induction false} ReplaySound(env: Env, s: State, txs: seq<Envelope>, ids: seq<Bytes>)
    requires |ids| == |txs| && Replay(env, s, txs, ids).Ok?
    ensures Execute(s.accounts, txs) == Some(Replay(env, s, txs, ids).value)
    ensures forall i :: 0 <= i < |txs| ==> ids[i] == env.txId(txs[i])
  {
    if txs != [] {
      var n := |txs| - 1;
      ReplaySound(env, s, txs[..n], ids[..n]);
      forall i | 0 <= i < |txs| ensures ids[i] == env.txId(txs[i]) {
        if i < n {
          assert txs[..n][i] == txs[i] && ids[..n][i] == ids[i];
        }
      }
    }
  }

  // ---------------------------------------------------------------- each event keeps them

  lemma ImportKeeps(env: Env, s: State, b: Block, credited: nat)
    requires Kept(env, s, credited) && Import(env, s, b).Ok?
    ensures Kept(env, Import(env, s, b).value, credited)
  {
    hide Books, Replay, Execute, Without;
    if b.height > |s.blocks| {
      var accounts := Replay(env, s, b.transactions, b.transactionIds).value;
      ReplaySound(env, s, b.transactions, b.transactionIds);
      var gone := Elements(b.transactionIds);
      var kept := Without(s.mempool, gone);
      WithoutKeeps(s.mempool, gone, kept);
      assert b.transactionIds == TxIds(env, b.transactions);
      var sealed := Sealed(env, b.height, b.previousHash, b.stateRoot, b.producedAt, b.transactionIds, b.transactions);
      CommitKeepsBooks(env, s, accounts, kept, sealed, credited);
      CommitKeepsQueue(env, s, accounts, kept, sealed);
    }
  }

  lemma ProduceKeeps(env: Env, s: State, max: int, producedAt: Instant, now: Instant, credited: nat)
    requires Kept(env, s, credited) && Produce(env, s, max, producedAt, now).Ok?
    ensures Kept(env, Produce(env, s, max, producedAt, now).value.0, credited)
  {
    hide Books, Execute;
    var n := Selected(|s.mempool|, max);
    var (next, b) := Produce(env, s, max, producedAt, now).value;
    var rest := s.mempool[n..];
    assert b.transactionIds == TxIds(env, b.transactions);
    forall i | 0 <= i < |rest| ensures rest[i] in s.mempool && rest[i].id !in b.transactionIds {
      assert rest[i] == s.mempool[n + i];
      assert forall k :: 0 <= k < n ==> b.transactionIds[k] == s.mempool[k].id;
    }
    CommitKeepsBooks(env, s, next.accounts, rest, b, credited);
    CommitKeepsQueue(env, s, next.accounts, rest, b);
  }

  lemma AcceptKeeps(env: Env, s: State, e: Envelope, now: Instant, credited: nat)
    requires Kept(env, s, credited) && Accept(env, s, e, now).Ok?
    ensures Kept(env, Accept(env, s, e, now).value, credited)
  {
    hide Total, Body, CountFrom, SumFrom, LastNonce, Numbered, Catalogued;
    var t := Accept(env, s, e, now).value;
    TotalPut(s.accounts, e.from, Lookup(s.accounts, e.from));
    BooksElsewhere(env, s, t, credited);
    assert forall i :: 0 <= i < |s.mempool| ==> Ids(s.mempool)[i] == s.mempool[i].id;
  }

  lemma CreditKeeps(env: Env, s: State, requestId: Bytes, to: Address, amount: u64, credited: nat)
    requires Kept(env, s, credited) && Credit(s, requestId, to, amount).Ok?
    ensures Kept(env, Credit(s, requestId, to, amount).value,
                 credited + (if Credits(s, requestId, to, amount) then amount else 0))
  {
    hide Total, Body, CountFrom, Numbered, Catalogued;
    if Credits(s, requestId, to, amount) {
      var account := Lookup(s.accounts, to);
      TotalPut(s.accounts, to, account.(balance := account.balance + amount));
    }
  }

  /** The fields the books and the queue read. */
  ghost predicate SameLedger(s: State, t: State) {
    t.accounts == s.accounts && t.mempool == s.mempool && t.blocks == s.blocks && t.committed == s.committed
  }

  lemma RecordLeavesLedger(env: Env, s: State, e: Event)
    requires (e.RecordingProposal? || e.RecordingVote?) && Attempt(env, s, e).Ok?
    ensures SameLedger(s, Attempt(env, s, e).value)
  {
    hide HasProposal, PowerOf, ExpectedRoot, Tally, Voters, Quorum, MayPropose, FirstProposal, FindVote, FindCertificate;
  }

  lemma KeptSame(env: Env, s: State, t: State, credited: nat)
    requires Kept(env, s, credited) && SameLedger(s, t)
    ensures Kept(env, t, credited)
  {
  }

  lemma ImportedKeeps(env: Env, s: State, b: Block, t: State, credited: nat)
    requires Kept(env, s, credited) && Import(env, s, b).Ok? && SameLedger(Import(env, s, b).value, t)
    ensures Kept(env, t, credited)
  {
    ImportKeeps(env, s, b, credited);
    KeptSame(env, Import(env, s, b).value, t, credited);
  }

  lemma AttemptKeeps(env: Env, s: State, e: Event, credited: nat)
    requires Kept(env, s, credited) && Attempt(env, s, e).Ok?
    ensures Kept(env, Attempt(env, s, e).value, credited + Minted(s, e))
  {
    hide Kept, Accept, Credit, Produce, Import, ConsensusObjection, ProposalForProduction, Attach, TotalPower, Credits,
      RecordProposal, RecordVote;
    var t := Attempt(env, s, e).value;
    match e
    case Crediting(requestId, to, amount) => CreditKeeps(env, s, requestId, to, amount, credited);
    case Accepting(envelope, now) => AcceptKeeps(env, s, envelope, now, credited);
    case Producing(max, producedAt, now) => ProduceKeeps(env, s, max, producedAt, now, credited);
    case ProducingCertified(producedAt) =>
      ImportedKeeps(env, s, BlockFromProposal(env, ProposalForProduction(s, producedAt).value), t, credited);
    case Importing(b, requireConsensus) => ImportedKeeps(env, s, b, t, credited);
    case ImportingEvidence(b, evidence) => ImportedKeeps(env, s, b, t, credited);
    case SettingValidators(vs) => KeptSame(env, s, t, credited);
    case RecordingProposal(p) => RecordLeavesLedger(env, s, e); KeptSame(env, s, t, credited);
    case RecordingVote(v) => RecordLeavesLedger(env, s, e); KeptSame(env, s, t, credited);
    case AdvancingRound => KeptSame(env, s, t, credited);
  }

  lemma StepKeeps(env: Env, s: State, e: Event, credited: nat)
    requires Kept(env, s, credited)
    ensures Kept(env, Step(env, s, e), credited + (if Attempt(env, s, e).Ok? then Minted(s, e) else 0))
  {
    hide Kept, Attempt, Minted;
    if Attempt(env, s, e).Ok? {
      AttemptKeeps(env, s, e, credited);
      var t := Attempt(env, s, e).value;
      KeptSame(env, t, Normalize(t), credited + Minted(s, e));
    }
  }

  lemma MintedWhenOk(env: Env, s: State, e: Event)
    requires Attempt(env, s, e).Err?
    ensures Minted(s, e) == 0
  {
  }

  lemma EmptyKept(env: Env)
    ensures Kept(env, EMPTY, 0)
  {
    assert Balances(EMPTY.accounts) == map[];
  }

  /** Over every run: balances sum to the credit applied, nonces count the chain's transactions in order,
      and committed IDs are exactly those in blocks. */
  lemma {:induction false} EveryRunBalances(env: Env, events: seq<Event>)
    ensures Kept(env, Run(env, events), TotalCredit(env, events))
  {
    hide Kept, Step, Minted, Attempt;
    if events == [] {
      EmptyKept(env);
    } else {
      var front, last := events[..|events| - 1], events[|events| - 1];
      EveryRunBalances(env, front);
      var s := Run(env, front);
      StepKeeps(env, s, last, TotalCredit(env, front));
      if Attempt(env, s, last).Err? {
        MintedWhenOk(env, s, last);
      }
    }
  }

  /** Two of these transactions share an ID although their sender or nonce differ. */
  ghost predicate IdCollision(env: Env, txs: seq<Envelope>) {
    exists i, j :: 0 <= i < j < |txs| && env.txId(txs[i]) == env.txId(txs[j])
                   && (txs[i].from != txs[j].from || txs[i].nonce != txs[j].nonce)
  }

  lemma CountGrows(txs: seq<Envelope>, i: nat, j: nat, a: Address)
    requires i <= j <= |txs|
    ensures CountFrom(txs[..i], a) <= CountFrom(txs[..j], a)
  {
    PrefixCounts(txs[..j], i, a);
    assert txs[..j][..i] == txs[..i];
  }

  lemma NumberedOnce(env: Env, txs: seq<Envelope>)
    requires Numbered(txs)
    ensures Distinct(TxIds(env, txs)) || IdCollision(env, txs)
  {
    if !IdCollision(env, txs) {
      forall i, j | 0 <= i < j < |txs| ensures env.txId(txs[i]) != env.txId(txs[j]) {
        var a := txs[i].from;
        CountNext(txs, i, a);
        CountGrows(txs, i + 1, j, a);
      }
    }
  }

  /** No transaction ID ever occurs twice in the chain, unless two chain transactions of different senders or
      nonces collide. */
  lemma NoTransactionTwice(env: Env, events: seq<Event>)
    ensures var txs := Body(Run(env, events).blocks); Distinct(TxIds(env, txs)) || IdCollision(env, txs)
  {
    hide Run;
    EveryRunBalances(env, events);
    NumberedOnce(env, Body(Run(env, events).blocks));
  }

  // ---------------------------------------------------------------- funding requests

  lemma FundingGrows(env: Env, s: State, e: Event)
    ensures s.funding <= Step(env, s, e).funding
  {
    hide Accept, Produce, Import, ConsensusObjection, ProposalForProduction, Attach, RecordProposal, RecordVote, TotalPower,
      Credits;
    if Attempt(env, s, e).Ok? {
      match e
      case Crediting(requestId, to, amount) =>
      case Accepting(envelope, now) => AcceptKeepsFunding(env, s, envelope, now);
      case Producing(max, producedAt, now) => ProduceKeepsFunding(env, s, max, producedAt, now);
      case ProducingCertified(producedAt) =>
        ImportKeepsFunding(env, s, BlockFromProposal(env, ProposalForProduction(s, producedAt).value));
      case Importing(b, requireConsensus) => ImportKeepsFunding(env, s, b);
      case ImportingEvidence(b, evidence) => ImportKeepsFunding(env, s, b);
      case SettingValidators(vs) =>
      case RecordingProposal(p) => RecordKeepsFunding(env, s, e);
      case RecordingVote(v) => RecordKeepsFunding(env, s, e);
      case AdvancingRound =>
    }
  }

  lemma AcceptKeepsFunding(env: Env, s: State, e: Envelope, now: Instant)
    requires Accept(env, s, e, now).Ok?
    ensures Accept(env, s, e, now).value.funding == s.funding
  {
    hide CountFrom, SumFrom, LastNonce;
  }

  lemma ProduceKeepsFunding(env: Env, s: State, max: int, producedAt: Instant, now: Instant)
    requires Produce(env, s, max, producedAt, now).Ok?
    ensures Produce(env, s, max, producedAt, now).value.0.funding == s.funding
  {
    hide Execute;
  }

  lemma ImportKeepsFunding(env: Env, s: State, b: Block)
    requires Import(env, s, b).Ok?
    ensures Import(env, s, b).value.funding == s.funding
  {
    hide Replay, Without;
  }

  lemma RecordKeepsFunding(env: Env, s: State, e: Event)
    requires (e.RecordingProposal? || e.RecordingVote?) && Attempt(env, s, e).Ok?
    ensures Attempt(env, s, e).value.funding == s.funding
  {
    hide HasProposal, PowerOf, ExpectedRoot, Tally, Voters, Quorum, MayPropose, FirstProposal, FindVote, FindCertificate;
  }

  lemma {:induction false} FundingStays(env: Env, events: seq<Event>, i: nat)
    requires i <= |events|
    ensures Run(env, events[..i]).funding <= Run(env, events).funding
  {
    if i == |events| {
      assert events[..i] == events;
    } else {
      hide Step;
      var front := events[..|events| - 1];
      assert front[..i] == events[..i];
      FundingStays(env, front, i);
      FundingGrows(env, Run(env, front), events[|events| - 1]);
    }
  }

  /** In every run a named funding request mints at most once. */
  lemma RequestsMintOnce(env: Env, events: seq<Event>, i: nat, j: nat)
    requires i < j < |events| && events[i].Crediting? && events[j].Crediting?
    requires events[i].requestId == events[j].requestId != []
    requires Credits(Run(env, events[..i]), events[i].requestId, events[i].to, events[i].amount)
    ensures Minted(Run(env, events[..j]), events[j]) == 0
  {
    hide Run;
    var s, e := Run(env, events[..i]), events[i];
    RunTo(env, events, i);
    assert e.requestId in Step(env, s, e).funding;
    assert events[..j][..i + 1] == events[..i + 1];
    FundingStays(env, events[..j], i + 1);
  }

  lemma RunTo(env: Env, events: seq<Event>, i: nat)
    requires i < |events|
    ensures Run(env, events[..i + 1]) == Step(env, Run(env, events[..i]), events[i])
  {
    assert events[..i + 1][..i] == events[..i];
  }

  /** From every reachable store the three executors agree. */
  lemma ReachableExecutorsAgree(env: Env, events: seq<Event>, max: int, producedAt: Instant, now: Instant)
    requires RootsNonempty(env)
    requires var s := Run(env, events);
             && Produce(env, s, max, producedAt, now).Ok?
             && forall i :: 0 <= i < Selected(|s.mempool|, max) ==> env.validEnvelope(s.mempool[i].envelope)
    ensures var s := Run(env, events);
            var (next, b) := Produce(env, s, max, producedAt, now).value;
            Import(env, s, b) == Ok(next) && ExpectedRoot(env, s, b.transactions) == Ok(b.stateRoot)
  {
    hide Run, Produce, Import, ExpectedRoot, Books;
    EveryRunBalances(env, events);
    ExecutorsAgree(env, Run(env, events), max, producedAt, now);
  }
}
