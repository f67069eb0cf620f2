/** What the epoch collector has counted, said of the observations it accepted
    (internal/v2/economics/finalized_collector.go). */
module CollectorCounts {
  import opened Prelude
  import opened Sums
  import opened Folds
  import opened ComputeWork
  import opened Collector

  function OperationsOf(): FinalizedTx -> nat { (t: FinalizedTx) => t.operations }

  function UnitsOf(): FinalizedTx -> nat { (t: FinalizedTx) => ResourceUnits(t) }

  /** Units of new, settled and expired jobs. */
  function NewUnits(): FinalizedTx -> nat {
    (t: FinalizedTx) => if t.lifecycle.NewJob? then t.lifecycle.units else 0
  }

  function SettledUnits(): FinalizedTx -> nat {
    (t: FinalizedTx) => if t.lifecycle.SettledJob? then t.lifecycle.units else 0
  }

  function ExpiredUnits(): FinalizedTx -> nat {
    (t: FinalizedTx) => if t.lifecycle.ExpiredJob? then t.lifecycle.units else 0
  }

  function DataOf(): ShardObservation -> nat { (o: ShardObservation) => DataUnits(o.dataBytes) }

  function SupplyOf(): ShardObservation -> nat { (o: ShardObservation) => o.computeUnits }

  function Transactions(os: seq<ShardObservation>): seq<FinalizedTx> {
    if os == [] then [] else Transactions(os[..|os| - 1]) + os[|os| - 1].txs
  }

  function Receipts(os: seq<ShardObservation>): seq<Receipt> {
    if os == [] then [] else Receipts(os[..|os| - 1]) + os[|os| - 1].imports
  }

  ghost predicate AllReliable(os: seq<ShardObservation>) {
    forall i :: 0 <= i < |os| ==> os[i].computeReliable
  }

  // ---------------------------------------------------------------- one shard

  /** The accumulator holds the totals of these block openings, transactions, receipts and block endings. */
  ghost predicate Counted(a: Accumulator, opening: u64, cap: u64, begun: seq<ShardObservation>, txs: seq<FinalizedTx>,
                          receipts: seq<Receipt>, ended: seq<ShardObservation>) {
    && a.opening == opening
    && a.charged == a.burned == SumBy(txs, FeeOf())
    && a.operations == SumBy(txs, OperationsOf()) + |receipts|
    && a.used == SumBy(txs, UnitsOf()) + 2 * |receipts| + SumBy(ended, DataOf())
    && a.capacity == |begun| * cap
    && a.demand == SumBy(txs, NewUnits()) && a.fulfilled == SumBy(txs, SettledUnits())
    && a.expired == SumBy(txs, ExpiredUnits())
    && a.supply == SumBy(begun, SupplyOf()) && (a.reliable <==> AllReliable(begun))
  }

  /** The accumulator holds the totals of these shard observations. */
  ghost predicate Totals(a: Accumulator, opening: u64, cap: u64, os: seq<ShardObservation>) {
    Counted(a, opening, cap, os, Transactions(os), Receipts(os), os)
  }

  /** What one charged transaction adds. */
  lemma ChargeAdds(a: Accumulator, t: FinalizedTx)
    requires Charge(a, t).Ok?
    ensures var b := Charge(a, t).value;
            && b.opening == a.opening && b.capacity == a.capacity && b.supply == a.supply && b.reliable == a.reliable
            && b.charged == a.charged + t.fee && b.burned == a.burned + t.fee
            && b.operations == a.operations + t.operations && b.used == a.used + ResourceUnits(t)
            && b.demand == a.demand + NewUnits()(t) && b.fulfilled == a.fulfilled + SettledUnits()(t)
            && b.expired == a.expired + ExpiredUnits()(t)
            && (t.lifecycle.SettledJob? ==> t.lifecycle.work.units == t.lifecycle.units)
  {
    hide ResourceUnits;
  }

  lemma TxCounts(a: Accumulator, opening: u64, cap: u64, begun: seq<ShardObservation>, txs: seq<FinalizedTx>,
                 receipts: seq<Receipt>, ended: seq<ShardObservation>, t: FinalizedTx)
    requires Counted(a, opening, cap, begun, txs, receipts, ended) && Charge(a, t).Ok?
    ensures Counted(Charge(a, t).value, opening, cap, begun, txs + [t], receipts, ended)
  {
    hide SumBy, Charge, ResourceUnits, AllReliable;
    ChargeAdds(a, t);
    SumSnoc(txs, t, FeeOf());
    SumSnoc(txs, t, OperationsOf());
    SumSnoc(txs, t, UnitsOf());
    SumSnoc(txs, t, NewUnits());
    SumSnoc(txs, t, SettledUnits());
    SumSnoc(txs, t, ExpiredUnits());
  }

  function Works(txs: seq<FinalizedTx>): seq<VerifiedWork> {
    if txs == [] then []
    else
      var last := txs[|txs| - 1];
      Works(txs[..|txs| - 1]) + (if last.lifecycle.SettledJob? then [last.lifecycle.work] else [])
  }

  /** Shard k observed these transactions: they were counted in order, and settled work was listed. */
  lemma {:induction false} TxsCount(c: State, k: nat, xs: seq<FinalizedTx>, opening: u64, cap: u64,
                                    begun: seq<ShardObservation>, txs: seq<FinalizedTx>, receipts: seq<Receipt>,
                                    ended: seq<ShardObservation>)
    requires Shaped(c) && k < |c.shards| && Fold(TxObserver(k), c, xs).Ok?
    requires Counted(c.shards[k], opening, cap, begun, txs, receipts, ended)
    ensures var d := Fold(TxObserver(k), c, xs).value;
            && Shaped(d) && |d.shards| == |c.shards| && d.work == c.work + Works(xs)
            && Counted(d.shards[k], opening, cap, begun, txs + xs, receipts, ended)
  {
    hide Counted, Charge, Steps;
    if xs == [] {
      assert txs + xs == txs;
    } else {
      var front, last := xs[..|xs| - 1], xs[|xs| - 1];
      TxsCount(c, k, front, opening, cap, begun, txs, receipts, ended);
      var d := Fold(TxObserver(k), c, front).value;
      TxCounts(d.shards[k], opening, cap, begun, txs + front, receipts, ended, last);
      assert txs + front + [last] == txs + xs;
    }
  }

  lemma {:induction false} ImportsCount(c: State, k: nat, rs: seq<Receipt>, opening: u64, cap: u64,
                                        begun: seq<ShardObservation>, txs: seq<FinalizedTx>, receipts: seq<Receipt>,
                                        ended: seq<ShardObservation>)
    requires Shaped(c) && k < |c.shards| && Fold(ImportObserver(k), c, rs).Ok?
    requires Counted(c.shards[k], opening, cap, begun, txs, receipts, ended)
    ensures var d := Fold(ImportObserver(k), c, rs).value;
            && Shaped(d) && |d.shards| == |c.shards| && d.work == c.work
            && Counted(d.shards[k], opening, cap, begun, txs, receipts + rs, ended)
  {
    hide SumBy, AllReliable, Move;
    if rs == [] {
      assert receipts + rs == receipts;
    } else {
      var front, last := rs[..|rs| - 1], rs[|rs| - 1];
      ImportsCount(c, k, front, opening, cap, begun, txs, receipts, ended);
      var d := Fold(ImportObserver(k), c, front).value;
      MovedShape(d.circulating, last);
      assert receipts + front + [last] == receipts + rs;
    }
  }

  lemma MovedShape(supply: seq<u64>, r: Receipt)
    ensures r.source < |supply| && r.destination < |supply| && r.source != r.destination && Move(supply, r).Some? ==>
              |Move(supply, r).value| == |supply|
  {
  }

  lemma BeginCounts(c: State, k: nat, o: ShardObservation, opening: u64, begun: seq<ShardObservation>,
                    txs: seq<FinalizedTx>, receipts: seq<Receipt>, ended: seq<ShardObservation>)
    requires Shaped(c) && BeginShard(c, k, o).Ok?
    requires Counted(c.shards[k], opening, c.capacityPerBlock[k], begun, txs, receipts, ended)
    ensures var d := BeginShard(c, k, o).value;
            && Shaped(d) && |d.shards| == |c.shards| && d.work == c.work
            && Counted(d.shards[k], opening, c.capacityPerBlock[k], begun + [o], txs, receipts, ended)
  {
    hide SumBy, AllReliable;
    SumSnoc(begun, o, SupplyOf());
    ReliableSnoc(begun, o);
    var cap := c.capacityPerBlock[k];
    assert (|begun| + 1) * cap == |begun| * cap + cap;
  }

  lemma ReliableSnoc(os: seq<ShardObservation>, o: ShardObservation)
    ensures AllReliable(os + [o]) <==> AllReliable(os) && o.computeReliable
  {
    var all := os + [o];
    assert all[|os|] == o && forall i :: 0 <= i < |os| ==> all[i] == os[i];
  }

  lemma EndCounts(c: State, k: nat, o: ShardObservation, opening: u64, cap: u64, begun: seq<ShardObservation>,
                  txs: seq<FinalizedTx>, receipts: seq<Receipt>, ended: seq<ShardObservation>)
    requires Shaped(c) && EndShard(c, k, o).Ok?
    requires Counted(c.shards[k], opening, cap, begun, txs, receipts, ended)
    ensures var d := EndShard(c, k, o).value;
            && Shaped(d) && |d.shards| == |c.shards| && d.work == c.work
            && Counted(d.shards[k], opening, cap, begun, txs, receipts, ended + [o])
  {
    hide SumBy, AllReliable, DataUnits;
    SumSnoc(ended, o, DataOf());
  }

  /** A shard's part of a block adds exactly its observation to the shard's totals. */
  lemma ShardCounts(c: State, k: nat, o: ShardObservation, opening: u64, os: seq<ShardObservation>)
    requires ObserveShard(c, k, o).Ok? && k < |c.shards|
    requires Totals(c.shards[k], opening, c.capacityPerBlock[k], os)
    ensures var d := ObserveShard(c, k, o).value;
            && |d.shards| == |c.shards| && d.work == c.work + Works(o.txs)
            && Totals(d.shards[k], opening, c.capacityPerBlock[k], os + [o])
  {
    hide Counted, BeginShard, EndShard, Fold, Transactions, Receipts;
    var cap, txs, receipts := c.capacityPerBlock[k], Transactions(os), Receipts(os);
    BeginCounts(c, k, o, opening, os, txs, receipts, os);
    var begun := BeginShard(c, k, o).value;
    TxsCount(begun, k, o.txs, opening, cap, os + [o], txs, receipts, os);
    var charged := Fold(TxObserver(k), begun, o.txs).value;
    ImportsCount(charged, k, o.imports, opening, cap, os + [o], txs + o.txs, receipts, os);
    var imported := Fold(ImportObserver(k), charged, o.imports).value;
    EndCounts(imported, k, o, opening, cap, os + [o], txs + o.txs, receipts + o.imports, os);
    PartsSnoc(os, o);
  }

  lemma PartsSnoc(os: seq<ShardObservation>, o: ShardObservation)
    ensures Transactions(os + [o]) == Transactions(os) + o.txs && Receipts(os + [o]) == Receipts(os) + o.imports
  {
    assert (os + [o])[..|os|] == os;
  }

  // ---------------------------------------------------------------- whole blocks

  /** The work settled in the first n shards of a block. */
  function BlockWorks(block: map<nat, ShardObservation>, n: nat): seq<VerifiedWork> {
    if n == 0 then [] else BlockWorks(block, n - 1) + Works(Report(block, n - 1).txs)
  }

  /** Every shard holds the totals of its own observations. */
  ghost predicate Tallied(c: State, openings: seq<u64>, seen: seq<seq<ShardObservation>>) {
    && Shaped(c) && |openings| == |seen| == |c.shards|
    && forall k :: 0 <= k < |c.shards| ==> Totals(c.shards[k], openings[k], c.capacityPerBlock[k], seen[k])
  }

  /** The first n shards have seen one observation more. */
  function SeenMore(seen: seq<seq<ShardObservation>>, block: map<nat, ShardObservation>, n: nat): (r: seq<seq<ShardObservation>>)
    ensures |r| == |seen|
    ensures forall k :: 0 <= k < |seen| ==> r[k] == if k < n then seen[k] + [Report(block, k)] else seen[k]
  {
    seq(|seen|, k requires 0 <= k < |seen| => if k < n then seen[k] + [Report(block, k)] else seen[k])
  }

  lemma {:induction false} ShardsCount(c: State, block: map<nat, ShardObservation>, n: nat, openings: seq<u64>,
                                       seen: seq<seq<ShardObservation>>)
    requires Tallied(c, openings, seen) && n <= |c.shards| && ObserveShards(c, block, n).Ok?
    ensures var d := ObserveShards(c, block, n).value;
            && |d.shards| == |c.shards| && d.capacityPerBlock == c.capacityPerBlock && d.work == c.work + BlockWorks(block, n)
            && Tallied(d, openings, SeenMore(seen, block, n))
  {
    hide ObserveShard, Totals, Steps, SumBy;
    if n > 0 {
      ShardsCount(c, block, n - 1, openings, seen);
      var before := ObserveShards(c, block, n - 1).value;
      var o := Report(block, n - 1);
      ShardCounts(before, n - 1, o, openings[n - 1], seen[n - 1]);
      ShardSteps(before, n - 1, o);
      OthersUntouched(before, ObserveShard(before, n - 1, o).value, n - 1, Fees(o.txs));
    }
  }

  lemma OthersUntouched(c: State, d: State, k: nat, burnt: nat)
    requires Steps(c, d, k, burnt)
    ensures Shaped(d) && |d.shards| == |c.shards| && d.capacityPerBlock == c.capacityPerBlock
    ensures forall j :: 0 <= j < |c.shards| && j != k ==> d.shards[j] == c.shards[j]
  {
  }

  // ---------------------------------------------------------------- runs

  /** The backlog a shard opened its current epoch with. */
  function Opening(c: State, events: seq<Event>, k: nat): u64
    requires k < |c.shards|
  {
    if events == [] then c.shards[k].opening
    else
      var front, last := events[..|events| - 1], events[|events| - 1];
      var before := Run(c, front);
      if last.Advancing? && Attempt(before, last).Ok? && k < |before.shards| then before.shards[k].closing
      else Opening(c, front, k)
  }

  /** What a shard reported in the accepted blocks of the current epoch. */
  function Seen(c: State, events: seq<Event>, k: nat): seq<ShardObservation> {
    if events == [] then []
    else
      var front, last := events[..|events| - 1], events[|events| - 1];
      if Attempt(Run(c, front), last).Err? then Seen(c, front, k)
      else if last.Advancing? then []
      else Seen(c, front, k) + [Report(last.block, k)]
  }

  /** The work settled in the accepted blocks of the current epoch, block by block and shard by shard. */
  function WorkSeen(c: State, events: seq<Event>): seq<VerifiedWork> {
    if events == [] then c.work
    else
      var front, last := events[..|events| - 1], events[|events| - 1];
      if Attempt(Run(c, front), last).Err? then WorkSeen(c, front)
      else if last.Advancing? then []
      else WorkSeen(c, front) + BlockWorks(last.block, |c.shards|)
  }

  function Openings(c: State, events: seq<Event>): (r: seq<u64>)
    ensures |r| == |c.shards| && forall k :: 0 <= k < |r| ==> r[k] == Opening(c, events, k)
  {
    seq(|c.shards|, k requires 0 <= k < |c.shards| => Opening(c, events, k))
  }

  function AllSeen(c: State, events: seq<Event>): (r: seq<seq<ShardObservation>>)
    ensures |r| == |c.shards| && forall k :: 0 <= k < |r| ==> r[k] == Seen(c, events, k)
  {
    seq(|c.shards|, k requires 0 <= k < |c.shards| => Seen(c, events, k))
  }

  lemma OpenTotals(backlog: u64, cap: u64)
    ensures Totals(OpenShard(backlog), backlog, cap, [])
  {
  }

  lemma StartTallied(c: State)
    requires Fresh(c)
    ensures Tallied(c, Openings(c, []), AllSeen(c, []))
  {
    hide Totals;
    forall k | 0 <= k < |c.shards| ensures Totals(c.shards[k], c.shards[k].opening, c.capacityPerBlock[k], []) {
      OpenTotals(c.shards[k].opening, c.capacityPerBlock[k]);
    }
  }

  lemma BlockTallied(c: State, front: seq<Event>, e: Event)
    requires e.Observing? && Attempt(Run(c, front), e).Ok? && |Run(c, front).shards| == |c.shards|
    requires Tallied(Run(c, front), Openings(c, front), AllSeen(c, front)) && Run(c, front).work == WorkSeen(c, front)
    ensures var events := front + [e];
            Tallied(Run(c, events), Openings(c, events), AllSeen(c, events)) && Run(c, events).work == WorkSeen(c, events)
  {
    hide ObserveShards, Totals, BlockWorks;
    var events := front + [e];
    assert events[..|front|] == front;
    var before, n := Run(c, front), |c.shards|;
    ShardsCount(before, e.block, n, Openings(c, front), AllSeen(c, front));
    assert Openings(c, events) == Openings(c, front);
    assert AllSeen(c, events) == SeenMore(AllSeen(c, front), e.block, n);
  }

  lemma AdvanceTallied(c: State, front: seq<Event>, e: Event)
    requires e.Advancing? && Attempt(Run(c, front), e).Ok? && |Run(c, front).shards| == |c.shards| && Shaped(Run(c, front))
    ensures var events := front + [e];
            Tallied(Run(c, events), Openings(c, events), AllSeen(c, events)) && Run(c, events).work == WorkSeen(c, events)
  {
    hide Totals;
    var events := front + [e];
    assert events[..|front|] == front;
    var before, after := Run(c, front), Run(c, events);
    forall k | 0 <= k < |c.shards| ensures Totals(after.shards[k], Opening(c, events, k), after.capacityPerBlock[k], []) {
      OpenTotals(before.shards[k].closing, after.capacityPerBlock[k]);
    }
  }

  lemma {:induction false} RunTallied(c: State, events: seq<Event>)
    requires Fresh(c)
    ensures |Run(c, events).shards| == |c.shards|
    ensures Tallied(Run(c, events), Openings(c, events), AllSeen(c, events)) && Run(c, events).work == WorkSeen(c, events)
  {
    hide Tallied, Attempt, Balanced, WithinCapacity, Circulation, Fresh, Burned, Openings, AllSeen;
    EveryRunBalances(c, events);
    if events == [] {
      StartTallied(c);
    } else {
      var front, last := events[..|events| - 1], events[|events| - 1];
      RunTallied(c, front);
      TalliedShape(Run(c, front), Openings(c, front), AllSeen(c, front));
      assert front + [last] == events;
      if Attempt(Run(c, front), last).Err? {
        RefusedCounts(c, front, last);
      } else if last.Observing? {
        BlockTallied(c, front, last);
      } else {
        AdvanceTallied(c, front, last);
      }
    }
  }

  lemma TalliedShape(c: State, openings: seq<u64>, seen: seq<seq<ShardObservation>>)
    requires Tallied(c, openings, seen)
    ensures Shaped(c)
  {
  }

  lemma RefusedCounts(c: State, front: seq<Event>, e: Event)
    requires Attempt(Run(c, front), e).Err?
    ensures var events := front + [e];
            && Run(c, events) == Run(c, front) && WorkSeen(c, events) == WorkSeen(c, front)
            && Openings(c, events) == Openings(c, front) && AllSeen(c, events) == AllSeen(c, front)
  {
    hide Attempt;
    var events := front + [e];
    assert events[..|front|] == front;
  }

  /** After every run of blocks and epochs each shard's counters are the totals of what it reported in the accepted
      blocks of the current epoch, demand, fulfilled and expired work each by its own kind of transaction, and the
      epoch's verified work lists every settled job in order. */
  lemma EveryRunCounts(c: State, events: seq<Event>)
    requires Fresh(c)
    ensures var d := Run(c, events);
            && |d.shards| == |c.shards| && Shaped(d) && d.work == WorkSeen(c, events)
            && forall k :: 0 <= k < |d.shards| ==>
                 Totals(d.shards[k], Opening(c, events, k), d.capacityPerBlock[k], Seen(c, events, k))
  {
    hide Totals, Run, WorkSeen, Fresh, Opening, Seen;
    RunTallied(c, events);
  }

  // ---------------------------------------------------------------- work and fulfilment

  function WorkUnits(): VerifiedWork -> nat { (w: VerifiedWork) => w.units }

  function Fulfilled(): Accumulator -> nat { (a: Accumulator) => a.fulfilled }

  /** The verified work listed is worth exactly what the shards count as fulfilled. */
  ghost predicate WorkMatches(c: State) {
    Shaped(c) && SumBy(c.work, WorkUnits()) == SumBy(c.shards, Fulfilled())
  }

  lemma TxMatches(c: State, k: nat, t: FinalizedTx)
    requires WorkMatches(c) && ObserveTx(c, k, t).Ok?
    ensures WorkMatches(ObserveTx(c, k, t).value)
  {
    hide SumBy, Charge;
    ChargeAdds(c.shards[k], t);
    SumUpdate(c.shards, k, Charge(c.shards[k], t).value, Fulfilled());
    if t.lifecycle.SettledJob? {
      SumSnoc(c.work, t.lifecycle.work, WorkUnits());
    } else {
      assert c.work + [] == c.work;
    }
  }

  /** Changing a shard without touching what it fulfilled. */
  lemma OtherMatches(c: State, d: State, k: nat)
    requires WorkMatches(c) && Shaped(d) && k < |c.shards| && d.work == c.work
    requires exists a :: d.shards == c.shards[k := a] && a.fulfilled == c.shards[k].fulfilled
    ensures WorkMatches(d)
  {
    hide SumBy;
    var a :| d.shards == c.shards[k := a] && a.fulfilled == c.shards[k].fulfilled;
    SumUpdate(c.shards, k, a, Fulfilled());
  }

  lemma {:induction false} TxsMatch(c: State, k: nat, xs: seq<FinalizedTx>)
    requires WorkMatches(c) && Fold(TxObserver(k), c, xs).Ok?
    ensures WorkMatches(Fold(TxObserver(k), c, xs).value)
  {
    hide SumBy, ObserveTx;
    if xs != [] {
      TxsMatch(c, k, xs[..|xs| - 1]);
      TxMatches(Fold(TxObserver(k), c, xs[..|xs| - 1]).value, k, xs[|xs| - 1]);
    }
  }

  lemma {:induction false} ImportsMatch(c: State, k: nat, rs: seq<Receipt>)
    requires WorkMatches(c) && k < |c.shards| && Fold(ImportObserver(k), c, rs).Ok?
    ensures var d := Fold(ImportObserver(k), c, rs).value; WorkMatches(d) && |d.shards| == |c.shards|
  {
    hide SumBy, Move;
    if rs != [] {
      ImportsMatch(c, k, rs[..|rs| - 1]);
      var before := Fold(ImportObserver(k), c, rs[..|rs| - 1]).value;
      var d := ObserveImport(before, k, rs[|rs| - 1]).value;
      MovedShape(before.circulating, rs[|rs| - 1]);
      assert d.shards == before.shards[k := d.shards[k]];
      OtherMatches(before, d, k);
    }
  }

  lemma ShardMatches(c: State, k: nat, o: ShardObservation)
    requires WorkMatches(c) && ObserveShard(c, k, o).Ok?
    ensures WorkMatches(ObserveShard(c, k, o).value)
  {
    hide SumBy, Fold, DataUnits;
    var begun := BeginShard(c, k, o).value;
    assert begun.shards == c.shards[k := begun.shards[k]];
    OtherMatches(c, begun, k);
    TxsMatch(begun, k, o.txs);
    var charged := Fold(TxObserver(k), begun, o.txs).value;
    TxsStep(begun, k, o.txs);
    ImportsMatch(charged, k, o.imports);
    var imported := Fold(ImportObserver(k), charged, o.imports).value;
    var d := EndShard(imported, k, o).value;
    assert d.shards == imported.shards[k := d.shards[k]];
    OtherMatches(imported, d, k);
  }

  lemma {:induction false} ShardsMatch(c: State, block: map<nat, ShardObservation>, n: nat)
    requires WorkMatches(c) && ObserveShards(c, block, n).Ok?
    ensures WorkMatches(ObserveShards(c, block, n).value)
  {
    hide WorkMatches, ObserveShard;
    if n > 0 {
      ShardsMatch(c, block, n - 1);
      ShardMatches(ObserveShards(c, block, n - 1).value, n - 1, Report(block, n - 1));
    }
  }

  lemma {:induction false} NothingFulfilled(shards: seq<Accumulator>)
    requires forall k :: 0 <= k < |shards| ==> shards[k].fulfilled == 0
    ensures SumBy(shards, Fulfilled()) == 0
  {
    if shards != [] {
      NothingFulfilled(shards[..|shards| - 1]);
    }
  }

  /** In every run the epoch's verified work adds up to what all shards report as fulfilled. */
  lemma {:induction false} WorkIsFulfilment(c: State, events: seq<Event>)
    requires Fresh(c) && c.work == []
    ensures SumBy(Run(c, events).work, WorkUnits()) == SumBy(Run(c, events).shards, Fulfilled())
    ensures Shaped(Run(c, events))
  {
    hide SumBy, ObserveShards;
    if events == [] {
      NothingFulfilled(c.shards);
      assert SumBy(c.work, WorkUnits()) == 0 by { SumNothing(c.work); }
    } else {
      var front, last := events[..|events| - 1], events[|events| - 1];
      WorkIsFulfilment(c, front);
      var before := Run(c, front);
      if Attempt(before, last).Ok? {
        if last.Observing? {
          ShardsMatch(before, last.block, |before.shards|);
        } else {
          NothingFulfilled(Reopened(before.shards));
          SumNothing(Run(c, events).work);
        }
      }
    }
  }

  lemma SumNothing(works: seq<VerifiedWork>)
    requires works == []
    ensures SumBy(works, WorkUnits()) == 0
  {
  }

  // ---------------------------------------------------------------- where supply went

  function SentBy(k: nat): Receipt -> nat {
    (r: Receipt) => if r.source == k && r.value.Native? then r.value.amount else 0
  }

  function ReceivedBy(k: nat): Receipt -> nat {
    (r: Receipt) => if r.destination == k && r.value.Native? then r.value.amount else 0
  }

  /** From c to d shard j paid `burnt` in fees and exchanged the value of these receipts. */
  ghost predicate Exchanged(c: State, d: State, rs: seq<Receipt>, j: nat, burnt: nat)
    requires Shaped(c) && Shaped(d) && j < |c.shards| == |d.shards|
  {
    d.circulating[j] + SumBy(rs, SentBy(j)) + burnt == c.circulating[j] + SumBy(rs, ReceivedBy(j))
  }

  lemma {:induction false} TxsExchange(c: State, k: nat, xs: seq<FinalizedTx>, j: nat)
    requires Shaped(c) && k < |c.shards| && j < |c.shards| && Fold(TxObserver(k), c, xs).Ok?
    ensures var d := Fold(TxObserver(k), c, xs).value;
            Shaped(d) && |d.shards| == |c.shards| && Exchanged(c, d, [], j, if j == k then Fees(xs) else 0)
  {
    hide Charge;
    if xs != [] {
      TxsExchange(c, k, xs[..|xs| - 1], j);
    }
  }

  lemma {:induction false} ImportsExchange(c: State, k: nat, rs: seq<Receipt>, j: nat)
    requires Shaped(c) && k < |c.shards| && j < |c.shards| && Fold(ImportObserver(k), c, rs).Ok?
    ensures var d := Fold(ImportObserver(k), c, rs).value;
            Shaped(d) && |d.shards| == |c.shards| && Exchanged(c, d, rs, j, 0)
  {
    if rs != [] {
      var front, last := rs[..|rs| - 1], rs[|rs| - 1];
      ImportsExchange(c, k, front, j);
      var before := Fold(ImportObserver(k), c, front).value;
      MoveMoves(before.circulating, last, j);
    }
  }

  lemma MoveMoves(supply: seq<u64>, r: Receipt, j: nat)
    requires r.source < |supply| && r.destination < |supply| && r.source != r.destination && j < |supply|
    requires Move(supply, r).Some?
    ensures var after := Move(supply, r).value;
            |after| == |supply| && after[j] + SentBy(j)(r) == supply[j] + ReceivedBy(j)(r)
  {
  }

  /** The receipts of the first n shards of a block. */
  function BlockReceipts(block: map<nat, ShardObservation>, n: nat): seq<Receipt> {
    if n == 0 then [] else BlockReceipts(block, n - 1) + Report(block, n - 1).imports
  }

  lemma ShardExchanges(c: State, k: nat, o: ShardObservation, j: nat)
    requires ObserveShard(c, k, o).Ok? && k < |c.shards| && j < |c.shards|
    ensures var d := ObserveShard(c, k, o).value;
            Shaped(d) && |d.shards| == |c.shards| && Exchanged(c, d, o.imports, j, if j == k then Fees(o.txs) else 0)
  {
    hide Fold, SumBy, DataUnits;
    var begun := BeginShard(c, k, o).value;
    TxsExchange(begun, k, o.txs, j);
    var charged := Fold(TxObserver(k), begun, o.txs).value;
    ImportsExchange(charged, k, o.imports, j);
    SumEmpty(SentBy(j));
    SumEmpty(ReceivedBy(j));
  }

  lemma SumEmpty<T>(f: T -> nat)
    ensures SumBy([], f) == 0
  {
  }

  lemma {:induction false} ShardsExchange(c: State, block: map<nat, ShardObservation>, n: nat, j: nat)
    requires Shaped(c) && n <= |c.shards| && j < |c.shards| && ObserveShards(c, block, n).Ok?
    ensures var d := ObserveShards(c, block, n).value;
            && Shaped(d) && |d.shards| == |c.shards|
            && Exchanged(c, d, BlockReceipts(block, n), j, if j < n then Fees(Report(block, j).txs) else 0)
  {
    hide ObserveShard, SumBy, Fees;
    if n == 0 {
      SumEmpty(SentBy(j));
      SumEmpty(ReceivedBy(j));
    } else {
      ShardsExchange(c, block, n - 1, j);
      var before, o := ObserveShards(c, block, n - 1).value, Report(block, n - 1);
      ShardExchanges(before, n - 1, o, j);
      SumConcat(BlockReceipts(block, n - 1), o.imports, SentBy(j));
      SumConcat(BlockReceipts(block, n - 1), o.imports, ReceivedBy(j));
    }
  }

  /** The receipts of every block a run accepted, and the fees shard j paid in them. */
  function RunReceipts(c: State, events: seq<Event>): seq<Receipt> {
    if events == [] then []
    else
      var front, last := events[..|events| - 1], events[|events| - 1];
      RunReceipts(c, front)
      + (if last.Observing? && Attempt(Run(c, front), last).Ok? then BlockReceipts(last.block, |c.shards|) else [])
  }

  function RunFees(c: State, events: seq<Event>, j: nat): nat {
    if events == [] then 0
    else
      var front, last := events[..|events| - 1], events[|events| - 1];
      RunFees(c, front, j)
      + (if last.Observing? && Attempt(Run(c, front), last).Ok? then Fees(Report(last.block, j).txs) else 0)
  }

  /** After every run each shard's supply is its initial supply, plus what it received, less what it sent and the
      fees it paid. */
  lemma {:induction false} EveryRunExchanges(c: State, events: seq<Event>, j: nat)
    requires Fresh(c) && j < |c.shards|
    ensures var d := Run(c, events);
            Shaped(d) && |d.shards| == |c.shards| && Exchanged(c, d, RunReceipts(c, events), j, RunFees(c, events, j))
  {
    hide SumBy, ObserveShards, Fees;
    if events == [] {
      SumEmpty(SentBy(j));
      SumEmpty(ReceivedBy(j));
    } else {
      var front, last := events[..|events| - 1], events[|events| - 1];
      EveryRunExchanges(c, front, j);
      var before := Run(c, front);
      if Attempt(before, last).Ok? && last.Observing? {
        var rs, more := RunReceipts(c, front), BlockReceipts(last.block, |c.shards|);
        ShardsExchange(before, last.block, |c.shards|, j);
        SumConcat(rs, more, SentBy(j));
        SumConcat(rs, more, ReceivedBy(j));
      } else {
        assert RunReceipts(c, front) + [] == RunReceipts(c, front);
      }
    }
  }

  // ---------------------------------------------------------------- what is refused

  /** A transaction is observed exactly in its own shard, with the result it names, a fee the shard's supply covers,
      coins of known age, a readable compute effect that the backlog allows, and totals that fit in 64 bits. */
  lemma TxIff(c: State, k: nat, t: FinalizedTx)
    requires Shaped(c) && k < |c.shards|
    ensures var a, l := c.shards[k], t.lifecycle;
            ObserveTx(c, k, t).Ok? <==>
            && t.shard == k && t.matchesResult && t.fee <= c.circulating[k] && t.agesCoins && !l.MalformedJob?
            && a.charged + t.fee <= MAX_U64 && a.burned + t.fee <= MAX_U64 && a.operations + t.operations <= MAX_U64
            && a.used + ResourceUnits(t) <= MAX_U64
            && (l.NewJob? ==> a.demand + l.units <= MAX_U64 && a.closing + l.units <= MAX_U64)
            && (l.SettledJob? ==> l.work.units == l.units <= a.closing && a.fulfilled + l.units <= MAX_U64)
            && (l.ExpiredJob? ==> l.units <= a.closing && a.expired + l.units <= MAX_U64)
  {
    hide ResourceUnits;
  }

  /** A receipt is observed exactly at its destination, from another shard of the collector whose supply covers a
      readable amount that fits there. */
  lemma ReceiptIff(c: State, k: nat, r: Receipt)
    requires Shaped(c) && k < |c.shards|
    ensures ObserveImport(c, k, r).Ok? <==>
            && r.destination == k != r.source && r.source < |c.shards| && !r.value.Unreadable?
            && (r.value.Native? ==> r.value.amount <= c.circulating[r.source] && c.circulating[k] + r.value.amount <= MAX_U64)
            && c.shards[k].operations + 1 <= MAX_U64 && c.shards[k].used + 2 <= MAX_U64
  {
  }

  /** A shard's report is taken when it has one result per transaction and its totals fit, and ends within capacity. */
  lemma ReportIff(c: State, k: nat, o: ShardObservation)
    requires Shaped(c) && k < |c.shards|
    ensures BeginShard(c, k, o).Ok? <==>
            && |o.txs| == o.resultCount && c.shards[k].capacity + c.capacityPerBlock[k] <= MAX_U64
            && c.shards[k].supply + o.computeUnits <= MAX_U64
    ensures EndShard(c, k, o).Ok? <==>
            && o.dataBytes + 1023 <= MAX_U64 && c.shards[k].used + DataUnits(o.dataBytes) <= MAX_U64
            && c.shards[k].used + DataUnits(o.dataBytes) <= c.shards[k].capacity
  {
    hide DataUnits;
  }

  /** Units are kibibytes rounded up. */
  lemma KibibytesRoundUp(t: FinalizedTx, bytes: u64)
    ensures var kib := ResourceUnits(t) - 1 - t.parts; kib >= 0 && 1024 * (kib - 1) < t.intentBytes <= 1024 * kib
    ensures 1024 * (DataUnits(bytes) - 1) < bytes <= 1024 * DataUnits(bytes)
  {
  }

  /** Blocks come at growing heights, starting above zero. */
  lemma HeightsGrow(c: State, height: u64, block: map<nat, ShardObservation>)
    ensures ObserveBlock(c, height, block).Ok? <==> c.lastHeight < height && ObserveShards(c, block, |c.shards|).Ok?
    ensures ObserveBlock(c, height, block).Ok? ==> ObserveBlock(c, height, block).value.lastHeight == height
  {
    hide ObserveShards;
  }

  // ---------------------------------------------------------------- the report

  /** After every run the metrics of shard k report, name by name, the totals of what it observed in this epoch. */
  lemma ReportsTotals(c: State, events: seq<Event>, k: nat, velocity: u32)
    requires Fresh(c) && k < |c.shards| && k < U32_LIMIT
    ensures var d := Run(c, events); Shaped(d) && k < |d.shards|
    ensures var d, os := Run(c, events), Seen(c, events, k);
            var m, txs := MetricsOf(d, k, velocity), Transactions(os);
            && m.epoch == d.epoch && m.shard == k && m.circulating == d.circulating[k] && m.velocity == velocity
            && m.chargedFees == m.burnedFees == SumBy(txs, FeeOf()) && m.validatorFees == m.reserveFees == 0
            && m.operations == SumBy(txs, OperationsOf()) + |Receipts(os)|
            && m.resourceUsed == SumBy(txs, UnitsOf()) + 2 * |Receipts(os)| + SumBy(os, DataOf())
            && m.resourceCapacity == |os| * d.capacityPerBlock[k]
            && m.opening == Opening(c, events, k) && m.demand == SumBy(txs, NewUnits())
            && m.fulfilled == SumBy(txs, SettledUnits()) && m.expired == SumBy(txs, ExpiredUnits())
            && m.supply == SumBy(os, SupplyOf()) && (m.supplyReliable <==> AllReliable(os))
            && m.opening + m.demand == m.fulfilled + m.expired + m.backlog
  {
    hide Run, Fresh, Seen, Opening, SumBy, Transactions, Receipts, AllReliable, WorkSeen, Burned, Circulation, WithinCapacity;
    EveryRunCounts(c, events);
    EveryRunBalances(c, events);
    assert BacklogBalanced(Run(c, events).shards[k]);
  }

  /** A shard that a block does not mention reports nothing and loses its reliability. */
  lemma SilentShard(block: map<nat, ShardObservation>, k: nat)
    requires k !in block
    ensures var o := Report(block, k);
            o.txs == [] && o.resultCount == 0 && o.imports == [] && o.dataBytes == 0 && o.computeUnits == 0 && !o.computeReliable
  {
  }
}
