/** Executing transfers: block production, block import and expected state roots are three
    separate copies of the same loop (internal/ledger/store.go, proposal_state.go). */
module Execution {
  import opened Prelude
  import opened Ledger

  // ---------------------------------------------------------------- one transfer

  /** One transfer, or None when its nonce, balance or overflow check fails. */
  function Transfer(accounts: Accounts, e: Envelope): Option<Accounts> {
    var sender := Lookup(accounts, e.from);
    if sender.nonce == MAX_U64 || sender.balance < e.amount || sender.nonce + 1 != e.nonce then None
    else
      var debited := accounts[e.from := Account(sender.balance - e.amount, e.nonce)];
      var receiver := Lookup(debited, e.to);
      if receiver.balance + e.amount > MAX_U64 then None
      else Some(debited[e.to := receiver.(balance := receiver.balance + e.amount)])
  }

  function Execute(accounts: Accounts, txs: seq<Envelope>): Option<Accounts> {
    if txs == [] then Some(accounts)
    else
      var before := Execute(accounts, txs[..|txs| - 1]);
      if before.None? then None else Transfer(before.value, txs[|txs| - 1])
  }

  // ---------------------------------------------------------------- production

  /** How many mempool entries a block takes. */
  function Selected(size: nat, max: int): (n: nat)
    ensures n <= size && (size > 0 ==> n > 0)
    ensures 0 < max <= size ==> n == max
    ensures max <= 0 || max > size ==> n == size
  {
    if max <= 0 || max > size then size else max
  }

  function NextHeight(blocks: seq<Block>): nat {
    if blocks == [] then 1 else blocks[|blocks| - 1].height + 1
  }

  function Sealed(env: Env, height: nat, previousHash: Bytes, stateRoot: Bytes, producedAt: Instant,
                  ids: seq<Bytes>, txs: seq<Envelope>): Block {
    Block(env.chainId, height, env.blockHash(env.chainId, height, previousHash, producedAt, stateRoot, ids),
          previousHash, stateRoot, producedAt, |txs|, ids, txs)
  }

  function Produce(env: Env, s: State, max: int, producedAt: Instant, now: Instant): Result<(State, Block)> {
    if s.mempool == [] then Err(NoTransactionsToBlock)
    else
      var n := Selected(|s.mempool|, max);
      var txs := Envelopes(s.mempool[..n]);
      var accounts := Execute(s.accounts, txs);
      if accounts.None? then Err(BlockInvariant)
      else
        var root := env.stateRoot(accounts.value, s.validators, s.funding);
        var b := Sealed(env, NextHeight(s.blocks), TipHash(s.blocks), root,
                        if producedAt == UNSET then now else producedAt, Ids(s.mempool[..n]), txs);
        Ok((Commit(s, accounts.value, s.mempool[n..], b), b))
  }

  // ---------------------------------------------------------------- import

  /** Import's checks on one transaction. */
  function ReplayOne(env: Env, committed: set<Bytes>, accounts: Accounts, e: Envelope, id: Bytes): Result<Accounts> {
    if !env.validEnvelope(e) || id != env.txId(e) then Err(InvalidBlock)
    else if id in committed then Err(BlockConflict)
    else
      var after := Transfer(accounts, e);
      if after.None? then Err(BlockInvariant) else Ok(after.value)
  }

  /** Execution of an imported body, with the error of the first transaction that is refused. */
  function Replay(env: Env, s: State, txs: seq<Envelope>, ids: seq<Bytes>): Result<Accounts>
    requires |ids| == |txs|
  {
    if txs == [] then Ok(s.accounts)
    else
      var last := |txs| - 1;
      var before := Replay(env, s, txs[..last], ids[..last]);
      if before.Err? then before else ReplayOne(env, s.committed, before.value, txs[last], ids[last])
  }

  function Without(entries: seq<MempoolEntry>, ids: set<Bytes>): seq<MempoolEntry> {
    if entries == [] then []
    else
      var last := entries[|entries| - 1];
      Without(entries[..|entries| - 1], ids) + (if last.id in ids then [] else [last])
  }

  predicate WellFormed(env: Env, b: Block) {
    && b.chainId == env.chainId && b.stateRoot != [] && b.height != 0
    && b.transactionCount == |b.transactions| && |b.transactionIds| == |b.transactions|
  }

  function Import(env: Env, s: State, b: Block): Result<State> {
    if !WellFormed(env, b) then Err(InvalidBlock)
    else if b.height <= |s.blocks| then
      if s.blocks[b.height - 1].hash == b.hash then Ok(s) else Err(BlockConflict)
    else if b.height != |s.blocks| + 1 || b.previousHash != TipHash(s.blocks) then Err(BlockOutOfSequence)
    else
      var accounts := Replay(env, s, b.transactions, b.transactionIds);
      if accounts.Err? then Err(accounts.error)
      else
        var root := env.stateRoot(accounts.value, s.validators, s.funding);
        var sealed := Sealed(env, b.height, b.previousHash, root, b.producedAt, b.transactionIds, b.transactions);
        if root != b.stateRoot then Err(BlockInvariant)
        else if b.hash != sealed.hash then Err(InvalidBlock)
        else Ok(Commit(s, accounts.value, Without(s.mempool, Elements(b.transactionIds)), sealed))
  }

  // ---------------------------------------------------------------- expected root

  function ExpectedRoot(env: Env, s: State, txs: seq<Envelope>): Result<Bytes> {
    if exists i :: 0 <= i < |txs| && !env.validEnvelope(txs[i]) then Err(BlockInvariant)
    else
      var accounts := Execute(s.accounts, txs);
      if accounts.None? then Err(BlockInvariant)
      else Ok(env.stateRoot(accounts.value, s.validators, s.funding))
  }

  // ---------------------------------------------------------------- the three loops

  lemma Prefix<T>(s: seq<T>, i: nat)
    requires i < |s|
    ensures s[..i + 1][..i] == s[..i] && s[..i + 1][i] == s[i]
  {
  }

  lemma ExecuteStep(start: Accounts, txs: seq<Envelope>, i: nat, accounts: Accounts)
    requires i < |txs| && Execute(start, txs[..i]) == Some(accounts)
    ensures Execute(start, txs[..i + 1]) == Transfer(accounts, txs[i])
    ensures Transfer(accounts, txs[i]).None? ==> Execute(start, txs).None?
  {
    Prefix(txs, i);
    if Transfer(accounts, txs[i]).None? {
      ExecuteFails(start, txs, i + 1);
    }
  }

  lemma ExecuteNothing(start: Accounts, txs: seq<Envelope>)
    ensures Execute(start, txs[..0]) == Some(start)
  {
  }

  /** A failed transfer fails every longer body. */
  lemma {:induction false} ExecuteFails(accounts: Accounts, txs: seq<Envelope>, k: nat)
    requires k <= |txs| && Execute(accounts, txs[..k]).None?
    ensures Execute(accounts, txs).None?
  {
    if k == |txs| {
      assert txs[..k] == txs;
    } else {
      assert txs[..|txs| - 1][..k] == txs[..k];
      ExecuteFails(accounts, txs[..|txs| - 1], k);
    }
  }

  lemma {:induction false} ReplayFails(env: Env, s: State, txs: seq<Envelope>, ids: seq<Bytes>, k: nat)
    requires |ids| == |txs| && k <= |txs| && Replay(env, s, txs[..k], ids[..k]).Err?
    ensures Replay(env, s, txs, ids) == Replay(env, s, txs[..k], ids[..k])
  {
    if k == |txs| {
      assert txs[..k] == txs && ids[..k] == ids;
    } else {
      var n := |txs| - 1;
      assert txs[..n][..k] == txs[..k] && ids[..n][..k] == ids[..k];
      ReplayFails(env, s, txs[..n], ids[..n], k);
    }
  }

  /** The loop of block production: new accounts, transaction IDs and transactions of the selected entries. */
  method ExecuteSelected(start: Accounts, selected: seq<MempoolEntry>)
    returns (r: Option<(Accounts, seq<Bytes>, seq<Envelope>)>)
    ensures r.None? <==> Execute(start, Envelopes(selected)).None?
    ensures r.Some? ==> Execute(start, Envelopes(selected)) == Some(r.value.0)
    ensures r.Some? ==> r.value.1 == Ids(selected) && r.value.2 == Envelopes(selected)
  {
    hide Execute;
    ghost var txs := Envelopes(selected);
    ExecuteNothing(start, txs);
    var accounts := start;
    var ids: seq<Bytes>, body: seq<Envelope> := [], [];
    var i := 0;
    while i < |selected|
      invariant 0 <= i <= |selected|
      invariant body == txs[..i] && ids == Ids(selected)[..i]
      invariant Execute(start, txs[..i]) == Some(accounts)
    {
      ExecuteStep(start, txs, i, accounts);
      var envelope := selected[i].envelope;
      var sender := Lookup(accounts, envelope.from);
      if sender.nonce == MAX_U64 || sender.balance < envelope.amount || sender.nonce + 1 != envelope.nonce {
        return None;
      }
      var debited := accounts[envelope.from := Account(sender.balance - envelope.amount, envelope.nonce)];
      var receiver := Lookup(debited, envelope.to);
      if envelope.amount > MAX_U64 - receiver.balance {
        return None;
      }
      accounts := debited[envelope.to := Account(receiver.balance + envelope.amount, receiver.nonce)];
      ids := ids + [selected[i].id];
      body := body + [envelope];
      i := i + 1;
    }
    assert txs[..i] == txs && Ids(selected)[..i] == Ids(selected);
    return Some((accounts, ids, body));
  }

  method ProduceBlock(env: Env, s: State, max: int, producedAt: Instant, now: Instant)
    returns (r: Result<(State, Block)>)
    ensures r == Produce(env, s, max, producedAt, now)
  {
    if |s.mempool| == 0 {
      return Err(NoTransactionsToBlock);
    }
    var n := if max <= 0 || max > |s.mempool| then |s.mempool| else max;
    var selected, remaining := s.mempool[..n], s.mempool[n..];
    var previousHash: Bytes, height := [], 1;
    if |s.blocks| > 0 {
      var latest := s.blocks[|s.blocks| - 1];
      previousHash, height := latest.hash, latest.height + 1;
    }
    var body := ExecuteSelected(s.accounts, selected);
    if body.None? {
      return Err(BlockInvariant);
    }
    var (accounts, ids, txs) := body.value;
    var root := env.stateRoot(accounts, s.validators, s.funding);
    var at := if producedAt == UNSET then now else producedAt;
    var b := Block(env.chainId, height, env.blockHash(env.chainId, height, previousHash, at, root, ids),
                   previousHash, root, at, |txs|, ids, txs);
    return Ok((Commit(s, accounts, remaining, b), b));
  }

  method FilterMempool(entries: seq<MempoolEntry>, ids: set<Bytes>) returns (kept: seq<MempoolEntry>)
    ensures kept == Without(entries, ids)
  {
    kept := [];
    var i := 0;
    while i < |entries|
      invariant 0 <= i <= |entries|
      invariant kept == Without(entries[..i], ids)
    {
      Prefix(entries, i);
      if entries[i].id !in ids {
        kept := kept + [entries[i]];
      }
      i := i + 1;
    }
    assert entries[..i] == entries;
  }

  method ImportBlock(env: Env, s: State, b: Block) returns (r: Result<State>)
    ensures r == Import(env, s, b)
  {
    if b.chainId != env.chainId || b.stateRoot == [] || b.height == 0 {
      return Err(InvalidBlock);
    }
    if b.transactionCount != |b.transactions| || |b.transactionIds| != |b.transactions| {
      return Err(InvalidBlock);
    }
    if b.height <= |s.blocks| {
      return if s.blocks[b.height - 1].hash == b.hash then Ok(s) else Err(BlockConflict);
    }
    if b.height != |s.blocks| + 1 {
      return Err(BlockOutOfSequence);
    }
    var expectedPreviousHash := if |s.blocks| > 0 then s.blocks[|s.blocks| - 1].hash else [];
    if b.previousHash != expectedPreviousHash {
      return Err(BlockOutOfSequence);
    }
    var body := ReplayBody(env, s, b.transactions, b.transactionIds);
    if body.Err? {
      return Err(body.error);
    }
    var root := env.stateRoot(body.value, s.validators, s.funding);
    if root != b.stateRoot {
      return Err(BlockInvariant);
    }
    var hash := env.blockHash(env.chainId, b.height, b.previousHash, b.producedAt, root, b.transactionIds);
    if b.hash != hash {
      return Err(InvalidBlock);
    }
    var remaining := FilterMempool(s.mempool, Elements(b.transactionIds));
    var sanitized := Block(env.chainId, b.height, hash, b.previousHash, root, b.producedAt,
                           |b.transactions|, b.transactionIds, b.transactions);
    return Ok(Commit(s, body.value, remaining, sanitized));
  }

  lemma ReplayStep(env: Env, s: State, txs: seq<Envelope>, ids: seq<Bytes>, i: nat, accounts: Accounts)
    requires |ids| == |txs| && i < |txs| && Replay(env, s, txs[..i], ids[..i]) == Ok(accounts)
    ensures Replay(env, s, txs[..i + 1], ids[..i + 1]) == ReplayOne(env, s.committed, accounts, txs[i], ids[i])
    ensures ReplayOne(env, s.committed, accounts, txs[i], ids[i]).Err? ==>
              Replay(env, s, txs, ids) == ReplayOne(env, s.committed, accounts, txs[i], ids[i])
  {
    Prefix(txs, i);
    Prefix(ids, i);
    if ReplayOne(env, s.committed, accounts, txs[i], ids[i]).Err? {
      ReplayFails(env, s, txs, ids, i + 1);
    }
  }

  lemma ReplayNothing(env: Env, s: State, txs: seq<Envelope>, ids: seq<Bytes>)
    requires |ids| == |txs|
    ensures Replay(env, s, txs[..0], ids[..0]) == Ok(s.accounts)
  {
  }

  method ReplayBody(env: Env, s: State, txs: seq<Envelope>, ids: seq<Bytes>) returns (r: Result<Accounts>)
    requires |ids| == |txs|
    ensures r == Replay(env, s, txs, ids)
  {
    hide Replay;
    ReplayNothing(env, s, txs, ids);
    var accounts := s.accounts;
    var i := 0;
    while i < |txs|
      invariant 0 <= i <= |txs|
      invariant Replay(env, s, txs[..i], ids[..i]) == Ok(accounts)
    {
      ReplayStep(env, s, txs, ids, i, accounts);
      var envelope := txs[i];
      if !env.validEnvelope(envelope) {
        return Err(InvalidBlock);
      }
      var id := env.txId(envelope);
      if ids[i] != id {
        return Err(InvalidBlock);
      }
      if id in s.committed {
        return Err(BlockConflict);
      }
      var sender := Lookup(accounts, envelope.from);
      if sender.nonce == MAX_U64 || sender.balance < envelope.amount || sender.nonce + 1 != envelope.nonce {
        return Err(BlockInvariant);
      }
      var debited := accounts[envelope.from := Account(sender.balance - envelope.amount, envelope.nonce)];
      var receiver := Lookup(debited, envelope.to);
      if envelope.amount > MAX_U64 - receiver.balance {
        return Err(BlockInvariant);
      }
      accounts := debited[envelope.to := Account(receiver.balance + envelope.amount, receiver.nonce)];
      i := i + 1;
    }
    assert txs[..i] == txs && ids[..i] == ids;
    return Ok(accounts);
  }

  method ComputeExpectedRoot(env: Env, s: State, txs: seq<Envelope>) returns (r: Result<Bytes>)
    ensures r == ExpectedRoot(env, s, txs)
  {
    hide Execute;
    ExecuteNothing(s.accounts, txs);
    var accounts := s.accounts;
    var i := 0;
    while i < |txs|
      invariant 0 <= i <= |txs|
      invariant forall k :: 0 <= k < i ==> env.validEnvelope(txs[k])
      invariant Execute(s.accounts, txs[..i]) == Some(accounts)
    {
      ExecuteStep(s.accounts, txs, i, accounts);
      var envelope := txs[i];
      if !env.validEnvelope(envelope) {
        return Err(BlockInvariant);
      }
      var sender := Lookup(accounts, envelope.from);
      if sender.nonce == MAX_U64 || sender.balance < envelope.amount || sender.nonce + 1 != envelope.nonce {
        return Err(BlockInvariant);
      }
      var debited := accounts[envelope.from := Account(sender.balance - envelope.amount, envelope.nonce)];
      var receiver := Lookup(debited, envelope.to);
      if envelope.amount > MAX_U64 - receiver.balance {
        return Err(BlockInvariant);
      }
      accounts := debited[envelope.to := Account(receiver.balance + envelope.amount, receiver.nonce)];
      i := i + 1;
    }
    assert txs[..i] == txs;
    return Ok(env.stateRoot(accounts, s.validators, s.funding));
  }

  // ---------------------------------------------------------------- agreement

  ghost predicate RootsNonempty(env: Env) {
    forall a: Accounts, v: seq<Validator>, f: set<Bytes> :: env.stateRoot(a, v, f) != []
  }

  /** What every reachable store keeps about its mempool and chain, whatever was imported. */
  ghost predicate QueueKnown(env: Env, s: State) {
    && (forall i :: 0 <= i < |s.mempool| ==> s.mempool[i].id == env.txId(s.mempool[i].envelope))
    && (forall i :: 0 <= i < |s.mempool| ==> s.mempool[i].id !in s.committed)
    && (forall i, j :: 0 <= i < j < |s.mempool| ==> s.mempool[i].id != s.mempool[j].id)
    && (forall i :: 0 <= i < |s.blocks| ==> s.blocks[i].height == i + 1)
  }

  /** Import runs the same transfers as production once identities and signatures are in order. */
  lemma {:induction false} ReplayIsExecute(env: Env, s: State, txs: seq<Envelope>, ids: seq<Bytes>)
    requires |ids| == |txs|
    requires forall i :: 0 <= i < |txs| ==> env.validEnvelope(txs[i]) && ids[i] == env.txId(txs[i])
    requires forall i :: 0 <= i < |ids| ==> ids[i] !in s.committed
    ensures Replay(env, s, txs, ids)
            == (var a := Execute(s.accounts, txs); if a.None? then Err(BlockInvariant) else Ok(a.value))
  {
    if txs != [] {
      ReplayIsExecute(env, s, txs[..|txs| - 1], ids[..|txs| - 1]);
    }
  }

  lemma {:induction false} WithoutPrefix(entries: seq<MempoolEntry>, n: nat, ids: set<Bytes>)
    requires n <= |entries|
    requires forall i :: 0 <= i < n ==> entries[i].id in ids
    requires forall i :: n <= i < |entries| ==> entries[i].id !in ids
    ensures Without(entries, ids) == entries[n..]
  {
    if entries != [] {
      var last := |entries| - 1;
      var front := entries[..last];
      if n <= last {
        WithoutPrefix(front, n, ids);
        assert entries[n..] == front[n..] + [entries[last]];
      } else {
        WithoutPrefix(front, last, ids);
        assert entries[last].id in ids;
        assert entries[n..] == [] == front[last..];
      }
    }
  }

  /** A produced block imports into the state it was produced from and gives exactly the state
      production gave; its root is the expected root of its transactions. */
  lemma ExecutorsAgree(env: Env, s: State, max: int, producedAt: Instant, now: Instant)
    requires RootsNonempty(env) && QueueKnown(env, s)
    requires Produce(env, s, max, producedAt, now).Ok?
    requires forall i :: 0 <= i < Selected(|s.mempool|, max) ==> env.validEnvelope(s.mempool[i].envelope)
    ensures var (next, b) := Produce(env, s, max, producedAt, now).value;
            Import(env, s, b) == Ok(next) && ExpectedRoot(env, s, b.transactions) == Ok(b.stateRoot)
  {
    hide Execute, Replay, Without;
    var n := Selected(|s.mempool|, max);
    var (next, b) := Produce(env, s, max, producedAt, now).value;
    ReplayIsExecute(env, s, b.transactions, b.transactionIds);
    var taken := Elements(b.transactionIds);
    forall i | 0 <= i < n ensures s.mempool[i].id in taken {
      assert b.transactionIds[i] == s.mempool[i].id;
    }
    WithoutPrefix(s.mempool, n, taken);
  }
}
