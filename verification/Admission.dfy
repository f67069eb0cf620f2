/** Faucet credits and mempool admission (internal/ledger/store.go). */
module Admission {
  import opened Prelude
  import opened Ledger
  import opened Execution
  import opened Transfers

  // ---------------------------------------------------------------- credits

  /** Whether a credit changes the store: a request ID is honoured once and balances never overflow. */
  predicate Credits(s: State, requestId: Bytes, to: Address, amount: u64) {
    (requestId == [] || requestId !in s.funding) && Lookup(s.accounts, to).balance + amount <= MAX_U64
  }

  function Credit(s: State, requestId: Bytes, to: Address, amount: u64): Result<State> {
    if requestId != [] && requestId in s.funding then Ok(s)
    else if !Credits(s, requestId, to, amount) then Err(BalanceOverflow)
    else
      var account := Lookup(s.accounts, to);
      Ok(s.(accounts := s.accounts[to := account.(balance := account.balance + amount)],
            funding := s.funding + (if requestId == [] then {} else {requestId})))
  }

  // ---------------------------------------------------------------- admission

  function SaturatingAdd(a: u64, b: u64): (r: u64)
    ensures r == if a + b > MAX_U64 then MAX_U64 else a + b
  {
    if b > MAX_U64 - a then MAX_U64 else a + b
  }

  datatype Pending = Pending(nextNonce: u64, reserved: u64, count: nat, exhausted: bool)

  /** What the mempool holds for one sender. */
  ghost predicate Describes(p: Pending, txs: seq<Envelope>, a: Address) {
    && p.count == CountFrom(txs, a)
    && p.reserved == (if SumFrom(txs, a) > MAX_U64 then MAX_U64 else SumFrom(txs, a))
    && p.exhausted == (LastNonce(txs, a) == MAX_U64)
    && p.nextNonce == (if LastNonce(txs, a) == MAX_U64 then MAX_U64 else LastNonce(txs, a) + 1)
  }

  method RebuildPending(entries: seq<MempoolEntry>) returns (pending: map<Address, Pending>)
    ensures forall a :: a in pending <==> CountFrom(Envelopes(entries), a) > 0
    ensures forall a :: a in pending ==> Describes(pending[a], Envelopes(entries), a)
  {
    ghost var txs := Envelopes(entries);
    pending := map[];
    var i := 0;
    while i < |entries|
      invariant 0 <= i <= |entries|
      invariant forall a :: a in pending <==> CountFrom(txs[..i], a) > 0
      invariant forall a :: a in pending ==> Describes(pending[a], txs[..i], a)
    {
      var envelope := entries[i].envelope;
      var p := if envelope.from in pending then pending[envelope.from] else Pending(0, 0, 0, false);
      if envelope.nonce == MAX_U64 {
        p := p.(nextNonce := envelope.nonce, exhausted := true);
      } else {
        p := p.(nextNonce := envelope.nonce + 1, exhausted := false);
      }
      p := p.(reserved := SaturatingAdd(p.reserved, envelope.amount), count := p.count + 1);
      if envelope.from !in pending {
        NothingQueued(txs[..i], envelope.from);
      }
      PendingNext(txs, i, pending, p, pending[envelope.from := p]);
      pending := pending[envelope.from := p];
      i := i + 1;
    }
    assert txs[..i] == txs;
  }

  lemma {:induction false} NothingQueued(txs: seq<Envelope>, a: Address)
    requires CountFrom(txs, a) == 0
    ensures SumFrom(txs, a) == 0
  {
    if txs != [] {
      NothingQueued(txs[..|txs| - 1], a);
    }
  }

  lemma PendingNext(txs: seq<Envelope>, i: nat, pending: map<Address, Pending>, p: Pending,
                    after: map<Address, Pending>)
    requires i < |txs| && after == pending[txs[i].from := p]
    requires forall a :: a in pending <==> CountFrom(txs[..i], a) > 0
    requires forall a :: a in pending ==> Describes(pending[a], txs[..i], a)
    requires var e := txs[i];
             && p.count == CountFrom(txs[..i], e.from) + 1
             && p.reserved == (if SumFrom(txs[..i], e.from) + e.amount > MAX_U64 then MAX_U64
                               else SumFrom(txs[..i], e.from) + e.amount)
             && p.exhausted == (e.nonce == MAX_U64)
             && p.nextNonce == (if e.nonce == MAX_U64 then MAX_U64 else e.nonce + 1)
    ensures forall a :: a in after <==> CountFrom(txs[..i + 1], a) > 0
    ensures forall a :: a in after ==> Describes(after[a], txs[..i + 1], a)
  {
    Prefix(txs, i);
  }

  /** What Accept adds to the mempool, or why it refuses. */
  ghost function Accept(env: Env, s: State, e: Envelope, now: Instant): Result<State> {
    var id := env.txId(e);
    var queue := Envelopes(s.mempool);
    var account := Lookup(s.accounts, e.from);
    var queued := CountFrom(queue, e.from);
    var last := if queued > 0 then LastNonce(queue, e.from) else account.nonce;
    var reserved := if SumFrom(queue, e.from) > MAX_U64 then MAX_U64 else SumFrom(queue, e.from);
    var available := if reserved > account.balance then 0 else account.balance - reserved;
    if id in s.committed || id in Ids(s.mempool) then Err(DuplicateTransaction)
    else if account.nonce == MAX_U64 || last == MAX_U64 then Err(NonceExhausted)
    else if e.nonce != last + 1 then Err(InvalidNonce)
    else if e.amount > available then Err(InsufficientBalance)
    else Ok(s.(accounts := s.accounts[e.from := account], mempool := s.mempool + [MempoolEntry(id, now, e)]))
  }

  method AcceptEnvelope(env: Env, s: State, e: Envelope, now: Instant) returns (r: Result<State>)
    ensures r == Accept(env, s, e, now)
  {
    hide CountFrom, SumFrom, LastNonce;
    var id := env.txId(e);
    if id in s.committed {
      return Err(DuplicateTransaction);
    }
    var i := 0;
    while i < |s.mempool|
      invariant 0 <= i <= |s.mempool|
      invariant id !in Ids(s.mempool)[..i]
    {
      if s.mempool[i].id == id {
        assert Ids(s.mempool)[i] == id;
        return Err(DuplicateTransaction);
      }
      i := i + 1;
    }
    assert Ids(s.mempool)[..i] == Ids(s.mempool);
    var pending := RebuildPending(s.mempool);
    ghost var queue := Envelopes(s.mempool);
    var account := Lookup(s.accounts, e.from);
    if account.nonce == MAX_U64 {
      return Err(NonceExhausted);
    }
    var expected := account.nonce + 1;
    var available := account.balance;
    if e.from in pending {
      var p := pending[e.from];
      assert Describes(p, queue, e.from);
      if p.count > 0 {
        if p.exhausted {
          return Err(NonceExhausted);
        }
        expected := p.nextNonce;
      }
      available := if p.reserved > available then 0 else available - p.reserved;
    } else {
      NothingQueued(queue, e.from);
    }
    if e.nonce != expected {
      return Err(InvalidNonce);
    }
    if e.amount > available {
      return Err(InsufficientBalance);
    }
    return Ok(s.(accounts := s.accounts[e.from := account], mempool := s.mempool + [MempoolEntry(id, now, e)]));
  }

  // ---------------------------------------------------------------- the queue invariant

  /** Queued nonces continue the account's nonce without gaps and queued amounts are covered. */
  ghost predicate Queued(accounts: Accounts, txs: seq<Envelope>) {
    && (forall i :: 0 <= i < |txs| ==>
          txs[i].nonce == Lookup(accounts, txs[i].from).nonce + CountFrom(txs[..i], txs[i].from) + 1)
    && (forall a :: SumFrom(txs, a) <= Lookup(accounts, a).balance)
  }

  lemma {:induction false} LastQueued(accounts: Accounts, txs: seq<Envelope>, a: Address)
    requires forall i :: 0 <= i < |txs| ==>
               txs[i].nonce == Lookup(accounts, txs[i].from).nonce + CountFrom(txs[..i], txs[i].from) + 1
    requires CountFrom(txs, a) > 0
    ensures LastNonce(txs, a) == Lookup(accounts, a).nonce + CountFrom(txs, a)
  {
    var n := |txs| - 1;
    var front := txs[..n];
    if txs[n].from != a {
      forall i | 0 <= i < |front|
        ensures front[i].nonce == Lookup(accounts, front[i].from).nonce + CountFrom(front[..i], front[i].from) + 1
      {
        assert front[i] == txs[i] && front[..i] == txs[..i];
      }
      LastQueued(accounts, front, a);
    }
  }

  /** The queue only reads nonces, and larger balances still cover it. */
  lemma QueuedUnder(accounts: Accounts, more: Accounts, txs: seq<Envelope>)
    requires Queued(accounts, txs)
    requires forall a :: Lookup(more, a).nonce == Lookup(accounts, a).nonce
    requires forall a :: Lookup(more, a).balance >= Lookup(accounts, a).balance
    ensures Queued(more, txs)
  {
    hide CountFrom, SumFrom, Lookup;
    forall a ensures SumFrom(txs, a) <= Lookup(more, a).balance {
      assert SumFrom(txs, a) <= Lookup(accounts, a).balance;
    }
  }

  lemma QueuedSnoc(accounts: Accounts, txs: seq<Envelope>, e: Envelope)
    requires Queued(accounts, txs)
    requires e.nonce == Lookup(accounts, e.from).nonce + CountFrom(txs, e.from) + 1
    requires e.amount + SumFrom(txs, e.from) <= Lookup(accounts, e.from).balance
    ensures Queued(accounts, txs + [e])
  {
    hide Lookup;
    var after := txs + [e];
    assert after[..|txs|] == txs;
    forall i | 0 <= i < |after|
      ensures after[i].nonce == Lookup(accounts, after[i].from).nonce + CountFrom(after[..i], after[i].from) + 1
    {
      if i < |txs| {
        assert after[i] == txs[i] && after[..i] == txs[..i];
      }
    }
    forall a ensures SumFrom(after, a) <= Lookup(accounts, a).balance {
      assert SumFrom(txs, a) <= Lookup(accounts, a).balance;
    }
  }

  /** Admission appends the sender's next nonce and reserves what the balance still covers. */
  lemma AcceptKeepsQueue(env: Env, s: State, e: Envelope, now: Instant, next: State)
    requires Queued(s.accounts, Envelopes(s.mempool))
    requires Accept(env, s, e, now) == Ok(next)
    ensures Queued(next.accounts, Envelopes(next.mempool)) && Total(next.accounts) == Total(s.accounts)
  {
    hide CountFrom, SumFrom, LastNonce, Total;
    var queue := Envelopes(s.mempool);
    assert Envelopes(next.mempool) == queue + [e];
    QueuedCovers(s.accounts, queue, e.from);
    QueuedSnoc(s.accounts, queue, e);
    QueuedUnder(s.accounts, next.accounts, queue + [e]);
    TotalPut(s.accounts, e.from, Lookup(s.accounts, e.from));
  }

  lemma QueuedCovers(accounts: Accounts, txs: seq<Envelope>, a: Address)
    requires Queued(accounts, txs)
    ensures SumFrom(txs, a) <= Lookup(accounts, a).balance
    ensures CountFrom(txs, a) > 0 ==> LastNonce(txs, a) == Lookup(accounts, a).nonce + CountFrom(txs, a)
  {
    if CountFrom(txs, a) > 0 {
      LastQueued(accounts, txs, a);
    }
  }

  lemma CreditKeepsQueue(s: State, requestId: Bytes, to: Address, amount: u64, next: State)
    requires Queued(s.accounts, Envelopes(s.mempool))
    requires Credit(s, requestId, to, amount) == Ok(next)
    ensures Queued(next.accounts, Envelopes(next.mempool))
    ensures Total(next.accounts) == Total(s.accounts) + (if Credits(s, requestId, to, amount) then amount else 0)
  {
    hide Queued, Total;
    if Credits(s, requestId, to, amount) {
      var account := Lookup(s.accounts, to);
      TotalPut(s.accounts, to, account.(balance := account.balance + amount));
      QueuedUnder(s.accounts, next.accounts, Envelopes(s.mempool));
    }
  }

  /** With at most 2^64-1 in circulation every prefix of the queue executes. */
  lemma {:induction false} PrefixExecutes(accounts: Accounts, txs: seq<Envelope>, k: nat)
    requires Queued(accounts, txs) && Total(accounts) <= MAX_U64 && k <= |txs|
    ensures Execute(accounts, txs[..k]).Some?
  {
    hide Total, Execute;
    if k == 0 {
      ExecuteNothing(accounts, txs);
    } else {
      PrefixExecutes(accounts, txs, k - 1);
      var before := Execute(accounts, txs[..k - 1]).value;
      ExecuteMoves(accounts, txs[..k - 1], before);
      var e := txs[k - 1];
      CountNext(txs, k - 1, e.from);
      PrefixCounts(txs, k, e.from);
      TransferFits(before, e);
      ExecuteStep(accounts, txs, k - 1, before);
    }
  }

  lemma TransferFits(accounts: Accounts, e: Envelope)
    requires Total(accounts) <= MAX_U64
    requires e.nonce == Lookup(accounts, e.from).nonce + 1 && e.amount <= Lookup(accounts, e.from).balance
    ensures Transfer(accounts, e).Some?
  {
    var sender := Lookup(accounts, e.from);
    var debited := accounts[e.from := Account(sender.balance - e.amount, e.nonce)];
    TotalPut(accounts, e.from, Account(sender.balance - e.amount, e.nonce));
    TotalCovers(debited, e.to);
  }

  /** Executing a prefix leaves the rest of the queue consecutive and covered. */
  lemma RestQueued(accounts: Accounts, txs: seq<Envelope>, k: nat, next: Accounts)
    requires Queued(accounts, txs) && k <= |txs| && Execute(accounts, txs[..k]) == Some(next)
    ensures Queued(next, txs[k..])
  {
    hide Total, Execute, CountFrom, SumFrom;
    ExecuteMoves(accounts, txs[..k], next);
    var rest := txs[k..];
    forall i | 0 <= i < |rest|
      ensures rest[i].nonce == Lookup(next, rest[i].from).nonce + CountFrom(rest[..i], rest[i].from) + 1
    {
      var a := rest[i].from;
      PrefixCounts(txs[..k + i], k, a);
      assert txs[..k + i][..k] == txs[..k] && txs[..k + i][k..] == rest[..i] && rest[i] == txs[k + i];
    }
    forall a ensures SumFrom(rest, a) <= Lookup(next, a).balance {
      PrefixCounts(txs, k, a);
    }
  }

  /** In a consecutive, covered queue only a receiver's 64-bit bound can stop a prefix. */
  lemma QueueExecutesIff(accounts: Accounts, txs: seq<Envelope>, n: nat)
    requires Queued(accounts, txs) && n <= |txs|
    ensures Execute(accounts, txs[..n]).Some? <==> forall k :: 0 <= k < n ==> Room(accounts, txs, k)
  {
    hide Execute, Room, CountFrom, SumFrom, SumTo;
    ExecuteIff(accounts, txs, n);
    forall k | 0 <= k < n ensures InSequence(accounts, txs, k) && Covered(accounts, txs, k) {
      PrefixCounts(txs, k + 1, txs[k].from);
    }
  }

  /** The transactions a block would select have room at their receivers. */
  ghost predicate RoomFor(s: State, max: int) {
    var txs := Envelopes(s.mempool);
    forall k :: 0 <= k < Selected(|txs|, max) ==> Room(s.accounts, txs, k)
  }

  /** From any store, production succeeds exactly when the selected prefix is executable. */
  lemma ProduceIff(env: Env, s: State, max: int, producedAt: Instant, now: Instant)
    ensures Produce(env, s, max, producedAt, now).Ok? <==>
            s.mempool != [] && Executable(s.accounts, Envelopes(s.mempool), Selected(|s.mempool|, max))
  {
    hide Execute, Executable;
    var n := Selected(|s.mempool|, max);
    assert Envelopes(s.mempool[..n]) == Envelopes(s.mempool)[..n];
    ExecuteIff(s.accounts, Envelopes(s.mempool), n);
  }

  /** A produced block takes the front of the queue, as many as asked for or all of it, in order, and leaves the rest;
      it is sealed on the tip with the executed accounts' root and stamped with the time given. */
  lemma ProducedBlock(env: Env, s: State, max: int, producedAt: Instant, now: Instant)
    requires Produce(env, s, max, producedAt, now).Ok?
    ensures var (next, b) := Produce(env, s, max, producedAt, now).value;
            var n := |b.transactions|;
            && n == (if 0 < max <= |s.mempool| then max else |s.mempool|)
            && b.transactions == Envelopes(s.mempool)[..n] && b.transactionIds == Ids(s.mempool)[..n]
            && next.mempool == s.mempool[n..] && next.blocks == s.blocks + [b]
            && next.committed == s.committed + Elements(b.transactionIds)
            && Execute(s.accounts, b.transactions) == Some(next.accounts)
            && b.stateRoot == env.stateRoot(next.accounts, s.validators, s.funding)
            && b.previousHash == TipHash(s.blocks) && b.producedAt == (if producedAt == UNSET then now else producedAt)
            && b.hash == env.blockHash(env.chainId, b.height, b.previousHash, b.producedAt, b.stateRoot, b.transactionIds)
  {
    hide Execute;
    var n := Selected(|s.mempool|, max);
    assert Envelopes(s.mempool[..n]) == Envelopes(s.mempool)[..n] && Ids(s.mempool[..n]) == Ids(s.mempool)[..n];
  }

  /** From a consecutive, covered queue it succeeds exactly when the selected transactions have room. */
  lemma QueueProducesIff(env: Env, s: State, max: int, producedAt: Instant, now: Instant)
    requires Queued(s.accounts, Envelopes(s.mempool))
    ensures Produce(env, s, max, producedAt, now).Ok? <==> s.mempool != [] && RoomFor(s, max)
  {
    hide Execute, Executable, Queued, Room, Produce;
    var n := Selected(|s.mempool|, max);
    ProduceIff(env, s, max, producedAt, now);
    ExecuteIff(s.accounts, Envelopes(s.mempool), n);
    QueueExecutesIff(s.accounts, Envelopes(s.mempool), n);
  }

  /** What production leaves of such a queue is again consecutive and covered. */
  lemma ProduceKeepsQueue(env: Env, s: State, max: int, producedAt: Instant, now: Instant)
    requires Queued(s.accounts, Envelopes(s.mempool)) && Produce(env, s, max, producedAt, now).Ok?
    ensures var next := Produce(env, s, max, producedAt, now).value.0; Queued(next.accounts, Envelopes(next.mempool))
  {
    hide Execute, Queued;
    var n := Selected(|s.mempool|, max);
    var txs := Envelopes(s.mempool);
    assert Envelopes(s.mempool[..n]) == txs[..n] && Envelopes(s.mempool[n..]) == txs[n..];
    RestQueued(s.accounts, txs, n, Execute(s.accounts, txs[..n]).value);
  }

  /** Receivers always have room while at most 2^64-1 is in circulation. */
  lemma BoundedHasRoom(s: State, max: int)
    requires Queued(s.accounts, Envelopes(s.mempool)) && Total(s.accounts) <= MAX_U64
    ensures RoomFor(s, max)
  {
    hide Total, Queued, Room, Execute;
    var txs := Envelopes(s.mempool);
    PrefixExecutes(s.accounts, txs, Selected(|txs|, max));
    QueueExecutesIff(s.accounts, txs, Selected(|txs|, max));
  }

  /** So producing then never fails, for any block size, and keeps the queue consecutive and covered. */
  lemma ProductionSucceeds(env: Env, s: State, max: int, producedAt: Instant, now: Instant)
    requires Queued(s.accounts, Envelopes(s.mempool)) && Total(s.accounts) <= MAX_U64 && s.mempool != []
    ensures Produce(env, s, max, producedAt, now).Ok?
    ensures var next := Produce(env, s, max, producedAt, now).value.0;
            Queued(next.accounts, Envelopes(next.mempool)) && Total(next.accounts) == Total(s.accounts)
  {
    hide Total, Execute, Queued, RoomFor;
    BoundedHasRoom(s, max);
    QueueProducesIff(env, s, max, producedAt, now);
    ProduceKeepsQueue(env, s, max, producedAt, now);
    var txs := Envelopes(s.mempool[..Selected(|s.mempool|, max)]);
    ExecuteMoves(s.accounts, txs, Execute(s.accounts, txs).value);
  }
}
