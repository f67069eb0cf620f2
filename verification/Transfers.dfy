/** What a run of transfers does to balances and nonces. */
module Transfers {
  import opened Prelude
  import opened Ledger
  import opened Execution

  /** How many transactions of `txs` the account `a` sent. */
  ghost function CountFrom(txs: seq<Envelope>, a: Address): nat {
    if txs == [] then 0
    else CountFrom(txs[..|txs| - 1], a) + (if txs[|txs| - 1].from == a then 1 else 0)
  }

  /** How much `a` sends in `txs`. */
  ghost function SumFrom(txs: seq<Envelope>, a: Address): nat {
    if txs == [] then 0
    else SumFrom(txs[..|txs| - 1], a) + (if txs[|txs| - 1].from == a then txs[|txs| - 1].amount else 0)
  }

  /** How much `a` receives in `txs`. */
  ghost function SumTo(txs: seq<Envelope>, a: Address): nat {
    if txs == [] then 0
    else SumTo(txs[..|txs| - 1], a) + (if txs[|txs| - 1].to == a then txs[|txs| - 1].amount else 0)
  }

  /** The nonce of the latest transaction `a` sent in `txs`. */
  ghost function LastNonce(txs: seq<Envelope>, a: Address): u64 {
    if txs == [] then 0
    else if txs[|txs| - 1].from == a then txs[|txs| - 1].nonce
    else LastNonce(txs[..|txs| - 1], a)
  }

  lemma CountNext(txs: seq<Envelope>, i: nat, a: Address)
    requires i < |txs|
    ensures CountFrom(txs[..i + 1], a) == CountFrom(txs[..i], a) + (if txs[i].from == a then 1 else 0)
    ensures SumFrom(txs[..i + 1], a) == SumFrom(txs[..i], a) + (if txs[i].from == a then txs[i].amount else 0)
    ensures SumTo(txs[..i + 1], a) == SumTo(txs[..i], a) + (if txs[i].to == a then txs[i].amount else 0)
  {
    Prefix(txs, i);
  }

  lemma {:induction false} Concat(x: seq<Envelope>, y: seq<Envelope>, a: Address)
    ensures CountFrom(x + y, a) == CountFrom(x, a) + CountFrom(y, a)
    ensures SumFrom(x + y, a) == SumFrom(x, a) + SumFrom(y, a)
  {
    if y == [] {
      assert x + y == x;
    } else {
      Concat(x, y[..|y| - 1], a);
      assert (x + y)[..|x + y| - 1] == x + y[..|y| - 1];
    }
  }

  lemma PrefixCounts(txs: seq<Envelope>, i: nat, a: Address)
    requires i <= |txs|
    ensures CountFrom(txs, a) == CountFrom(txs[..i], a) + CountFrom(txs[i..], a)
    ensures SumFrom(txs, a) == SumFrom(txs[..i], a) + SumFrom(txs[i..], a)
  {
    assert txs == txs[..i] + txs[i..];
    Concat(txs[..i], txs[i..], a);
  }

  // ---------------------------------------------------------------- total balance

  ghost function Balances(accounts: Accounts): map<Address, nat> {
    map a | a in accounts :: accounts[a].balance as nat
  }

  /** The sum of all balances. */
  ghost function Total(accounts: Accounts): nat {
    MapSum(Balances(accounts))
  }

  lemma TotalPut(accounts: Accounts, a: Address, account: Account)
    ensures Total(accounts[a := account]) == Total(accounts) - Lookup(accounts, a).balance + account.balance
  {
    assert Balances(accounts[a := account]) == Balances(accounts)[a := account.balance];
    MapSumPut(Balances(accounts), a, account.balance);
  }

  lemma TotalCovers(accounts: Accounts, a: Address)
    ensures Lookup(accounts, a).balance <= Total(accounts)
  {
    if a in accounts {
      MapSumBound(Balances(accounts), a);
    }
  }

  /** A transfer moves value and numbers the sender's next transaction. */
  lemma TransferMoves(accounts: Accounts, e: Envelope, next: Accounts)
    requires Transfer(accounts, e) == Some(next)
    ensures Total(next) == Total(accounts)
    ensures e.nonce == Lookup(accounts, e.from).nonce + 1
    ensures forall a :: Lookup(next, a).nonce == Lookup(accounts, a).nonce + (if a == e.from then 1 else 0)
    ensures forall a :: Lookup(next, a).balance
                        == Lookup(accounts, a).balance - (if a == e.from then e.amount else 0)
                           + (if a == e.to then e.amount else 0)
  {
    var sender := Lookup(accounts, e.from);
    var debited := accounts[e.from := Account(sender.balance - e.amount, e.nonce)];
    TotalPut(accounts, e.from, Account(sender.balance - e.amount, e.nonce));
    var receiver := Lookup(debited, e.to);
    TotalPut(debited, e.to, receiver.(balance := receiver.balance + e.amount));
  }

  /** Executing a body keeps the total, moves exactly what is sent and counts every sender's transactions. */
  lemma {:induction false} ExecuteMoves(accounts: Accounts, txs: seq<Envelope>, next: Accounts)
    requires Execute(accounts, txs) == Some(next)
    ensures Total(next) == Total(accounts)
    ensures forall a :: Lookup(next, a).nonce == Lookup(accounts, a).nonce + CountFrom(txs, a)
    ensures forall a :: Lookup(next, a).balance + SumFrom(txs, a) == Lookup(accounts, a).balance + SumTo(txs, a)
    ensures forall i :: 0 <= i < |txs| ==>
              txs[i].nonce == Lookup(accounts, txs[i].from).nonce + CountFrom(txs[..i], txs[i].from) + 1
  {
    hide Transfer, Total;
    if txs != [] {
      var n := |txs| - 1;
      var front := txs[..n];
      var before := Execute(accounts, front).value;
      ExecuteMoves(accounts, front, before);
      TransferMoves(before, txs[n], next);
      forall i | 0 <= i < |txs|
        ensures txs[i].nonce == Lookup(accounts, txs[i].from).nonce + CountFrom(txs[..i], txs[i].from) + 1
      {
        if i < n {
          assert front[i] == txs[i] && front[..i] == txs[..i];
        }
      }
    }
  }

  // ---------------------------------------------------------------- when a body executes

  /** The k-th transaction has its sender's next nonce. */
  ghost predicate InSequence(accounts: Accounts, txs: seq<Envelope>, k: nat)
    requires k < |txs|
  {
    txs[k].nonce == Lookup(accounts, txs[k].from).nonce + CountFrom(txs[..k], txs[k].from) + 1
  }

  /** Its sender can still pay for it. */
  ghost predicate Covered(accounts: Accounts, txs: seq<Envelope>, k: nat)
    requires k < |txs|
  {
    SumFrom(txs[..k + 1], txs[k].from) <= Lookup(accounts, txs[k].from).balance + SumTo(txs[..k], txs[k].from)
  }

  /** Its receiver's balance still fits in 64 bits. */
  ghost predicate Room(accounts: Accounts, txs: seq<Envelope>, k: nat)
    requires k < |txs|
  {
    Lookup(accounts, txs[k].to).balance + SumTo(txs[..k + 1], txs[k].to) <= MAX_U64 + SumFrom(txs[..k + 1], txs[k].to)
  }

  ghost predicate Executable(accounts: Accounts, txs: seq<Envelope>, n: nat)
    requires n <= |txs|
  {
    forall k :: 0 <= k < n ==> InSequence(accounts, txs, k) && Covered(accounts, txs, k) && Room(accounts, txs, k)
  }

  /** The transfer after an executed prefix succeeds exactly when it is in sequence, covered and has room. */
  lemma TransferIff(accounts: Accounts, txs: seq<Envelope>, k: nat, before: Accounts)
    requires k < |txs| && Execute(accounts, txs[..k]) == Some(before)
    ensures Transfer(before, txs[k]).Some? <==>
            InSequence(accounts, txs, k) && Covered(accounts, txs, k) && Room(accounts, txs, k)
  {
    hide Execute, Total, CountFrom, SumFrom, SumTo;
    ExecuteMoves(accounts, txs[..k], before);
    CountNext(txs, k, txs[k].from);
    CountNext(txs, k, txs[k].to);
  }

  /** Exactly when the executor accepts the first n transactions, said of the accounts before them. */
  lemma {:induction false} ExecuteIff(accounts: Accounts, txs: seq<Envelope>, n: nat)
    requires n <= |txs|
    ensures Execute(accounts, txs[..n]).Some? <==> Executable(accounts, txs, n)
  {
    hide Execute, Transfer, InSequence, Covered, Room;
    if n == 0 {
      ExecuteNothing(accounts, txs);
    } else {
      ExecuteIff(accounts, txs, n - 1);
      if Execute(accounts, txs[..n - 1]).Some? {
        var before := Execute(accounts, txs[..n - 1]).value;
        ExecuteStep(accounts, txs, n - 1, before);
        TransferIff(accounts, txs, n - 1, before);
      } else {
        assert txs[..n][..n - 1] == txs[..n - 1];
        ExecuteFails(accounts, txs[..n], n - 1);
      }
    }
  }
}
