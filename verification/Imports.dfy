/** When a block is imported, and what that makes of the chain (internal/ledger/store.go). */
module Imports {
  import opened Prelude
  import opened Ledger
  import opened Execution
  import opened Transfers

  // ---------------------------------------------------------------- one block

  /** The i-th transaction is signed for this chain, named by its own ID and new to it. */
  ghost predicate Admissible(env: Env, s: State, txs: seq<Envelope>, ids: seq<Bytes>, i: nat)
    requires i < |txs| == |ids|
  {
    env.validEnvelope(txs[i]) && ids[i] == env.txId(txs[i]) && ids[i] !in s.committed
  }

  /** A body replays exactly when each of its transactions is admissible and the executor accepts them. */
  lemma {:induction false} ReplayIff(env: Env, s: State, txs: seq<Envelope>, ids: seq<Bytes>, n: nat)
    requires n <= |txs| == |ids|
    ensures Replay(env, s, txs[..n], ids[..n]).Ok? <==>
            Executable(s.accounts, txs, n) && forall i :: 0 <= i < n ==> Admissible(env, s, txs, ids, i)
    ensures Replay(env, s, txs[..n], ids[..n]).Ok? ==>
              Execute(s.accounts, txs[..n]) == Some(Replay(env, s, txs[..n], ids[..n]).value)
  {
    hide Replay, Execute, Transfer, Executable;
    ExecuteIff(s.accounts, txs, n);
    if n == 0 {
      ReplayNothing(env, s, txs, ids);
      ExecuteNothing(s.accounts, txs);
    } else {
      ReplayIff(env, s, txs, ids, n - 1);
      ExecuteIff(s.accounts, txs, n - 1);
      ShorterExecutes(s.accounts, txs, n);
      if Replay(env, s, txs[..n - 1], ids[..n - 1]).Ok? {
        var before := Replay(env, s, txs[..n - 1], ids[..n - 1]).value;
        ReplayStep(env, s, txs, ids, n - 1, before);
        ExecuteStep(s.accounts, txs, n - 1, before);
        assert Replay(env, s, txs[..n], ids[..n]).Ok? <==>
               Execute(s.accounts, txs[..n]).Some? && Admissible(env, s, txs, ids, n - 1);
      } else {
        ReplayStaysRefused(env, s, txs, ids, n);
      }
    }
  }

  lemma ShorterExecutes(accounts: Accounts, txs: seq<Envelope>, n: nat)
    requires 0 < n <= |txs|
    ensures Executable(accounts, txs, n) ==> Executable(accounts, txs, n - 1)
  {
    hide InSequence, Covered, Room;
  }

  lemma ReplayStaysRefused(env: Env, s: State, txs: seq<Envelope>, ids: seq<Bytes>, n: nat)
    requires 0 < n <= |txs| == |ids| && Replay(env, s, txs[..n - 1], ids[..n - 1]).Err?
    ensures Replay(env, s, txs[..n], ids[..n]).Err?
  {
    assert txs[..n][..n - 1] == txs[..n - 1] && ids[..n][..n - 1] == ids[..n - 1];
  }

  /** What the next block of a chain must be to import. */
  ghost predicate Fitting(env: Env, s: State, b: Block) {
    && b.previousHash == TipHash(s.blocks)
    && (forall i :: 0 <= i < |b.transactions| == |b.transactionIds| ==>
          Admissible(env, s, b.transactions, b.transactionIds, i))
    && Executable(s.accounts, b.transactions, |b.transactions|)
    && Execute(s.accounts, b.transactions).Some?
    && b.stateRoot == env.stateRoot(Execute(s.accounts, b.transactions).value, s.validators, s.funding)
    && b.hash == env.blockHash(env.chainId, b.height, b.previousHash, b.producedAt, b.stateRoot, b.transactionIds)
  }

  /** A block at the next height imports exactly when it is well-formed and fitting, and is then appended with the
      executed accounts, its IDs committed and taken out of the queue. */
  lemma ImportIff(env: Env, s: State, b: Block)
    requires b.height == |s.blocks| + 1
    ensures Import(env, s, b).Ok? <==> WellFormed(env, b) && Fitting(env, s, b)
    ensures Import(env, s, b).Ok? ==>
              var t := Import(env, s, b).value;
              && t.blocks == s.blocks + [b] && Execute(s.accounts, b.transactions) == Some(t.accounts)
              && t.committed == s.committed + Elements(b.transactionIds)
              && t.mempool == Without(s.mempool, Elements(b.transactionIds))
  {
    hide Replay, Execute, Executable, Without;
    if WellFormed(env, b) {
      var txs, ids := b.transactions, b.transactionIds;
      assert txs[..|txs|] == txs && ids[..|txs|] == ids;
      ReplayIff(env, s, txs, ids, |txs|);
      ExecuteIff(s.accounts, txs, |txs|);
    }
  }

  /** At a height already in the chain exactly the block stored there is accepted, and nothing changes; later heights
      are refused. */
  lemma OtherHeights(env: Env, s: State, b: Block)
    requires b.height != |s.blocks| + 1
    ensures Import(env, s, b).Ok? <==>
            WellFormed(env, b) && b.height <= |s.blocks| && s.blocks[b.height - 1].hash == b.hash
    ensures Import(env, s, b).Ok? ==> Import(env, s, b).value == s
  {
    hide Replay;
  }

  /** A block whose body holds one unsigned transaction never imports, whatever else it gets right. */
  lemma ForgedIsRefused(env: Env, s: State, b: Block, i: nat)
    requires b.height == |s.blocks| + 1 && i < |b.transactions| && !env.validEnvelope(b.transactions[i])
    ensures Import(env, s, b).Err?
  {
    hide Import, Executable, Execute;
    ImportIff(env, s, b);
    assert WellFormed(env, b) && Fitting(env, s, b) ==> Admissible(env, s, b.transactions, b.transactionIds, i);
  }
}
