/** The epoch collector: fees, supply, resources and compute backlog per shard, observed block by block
    (internal/v2/economics/finalized_collector.go). */
module Collector {
  import opened Prelude
  import opened Sums
  import opened Folds
  import opened ComputeWork
  import opened EpochMetrics

  // ---------------------------------------------------------------- what a block reports

  /** What a transaction's single compute operation means for the backlog. Operations the registry does not know
      change nothing; operations whose record or settlement cannot be read are malformed. */
  datatype Lifecycle =
    | NoCompute
    | NewJob(units: u64)
    | SettledJob(units: u64, work: VerifiedWork)
    | ExpiredJob(units: u64)
    | MalformedJob

  /** A finalized transaction with its result. `agesCoins` says whether velocity observed its coins without error. */
  datatype FinalizedTx = FinalizedTx(
    shard: nat, matchesResult: bool, fee: u64, operations: u64, intentBytes: nat, parts: nat,
    agesCoins: bool, lifecycle: Lifecycle)

  datatype NativeValue = Unreadable | NotNative | Native(amount: u64)

  datatype Receipt = Receipt(source: nat, destination: nat, value: NativeValue)

  datatype ShardObservation = ShardObservation(
    txs: seq<FinalizedTx>, resultCount: nat, imports: seq<Receipt>, dataBytes: u64, computeUnits: u64, computeReliable: bool)

  /** What a shard reports when a block says nothing about it. */
  const SILENCE: ShardObservation := ShardObservation([], 0, [], 0, 0, false)

  // ---------------------------------------------------------------- the collector

  datatype Accumulator = Accumulator(
    charged: u64, burned: u64, operations: u64, used: u64, capacity: u64,
    opening: u64, demand: u64, fulfilled: u64, expired: u64, closing: u64, supply: u64, reliable: bool)

  datatype State = State(
    epoch: u64, capacityPerBlock: seq<u64>, shards: seq<Accumulator>, circulating: seq<u64>,
    work: seq<VerifiedWork>, lastHeight: u64)

  datatype EconomicsError = InvalidObservation

  type Observed<T> = Fallible<T, EconomicsError>

  predicate Shaped(c: State) {
    |c.shards| == |c.circulating| == |c.capacityPerBlock|
  }

  function OpenShard(backlog: u64): Accumulator {
    Accumulator(0, 0, 0, 0, 0, backlog, 0, 0, 0, backlog, 0, true)
  }

  /** Units of a transaction: one, its intent in KiB rounded up, and its inputs, outputs and receipts. */
  function ResourceUnits(t: FinalizedTx): nat {
    1 + (t.intentBytes + 1023) / 1024 + t.parts
  }

  function ObserveCompute(a: Accumulator, l: Lifecycle): Observed<Accumulator> {
    match l
    case NoCompute => Ok(a)
    case NewJob(units) =>
      if a.demand + units > MAX_U64 || a.closing + units > MAX_U64 then Err(InvalidObservation)
      else Ok(a.(demand := a.demand + units, closing := a.closing + units))
    case SettledJob(units, work) =>
      if work.units != units || a.closing < units || a.fulfilled + units > MAX_U64 then Err(InvalidObservation)
      else Ok(a.(closing := a.closing - units, fulfilled := a.fulfilled + units))
    case ExpiredJob(units) =>
      if a.closing < units || a.expired + units > MAX_U64 then Err(InvalidObservation)
      else Ok(a.(closing := a.closing - units, expired := a.expired + units))
    case MalformedJob => Err(InvalidObservation)
  }

  /** Fees, operations and resources of a transaction; fees are burned in full. */
  function Charge(a: Accumulator, t: FinalizedTx): Observed<Accumulator> {
    if a.charged + t.fee > MAX_U64 || a.burned + t.fee > MAX_U64 || a.operations + t.operations > MAX_U64
       || a.used + ResourceUnits(t) > MAX_U64 || !t.agesCoins
    then Err(InvalidObservation)
    else
      ObserveCompute(a.(charged := a.charged + t.fee, burned := a.burned + t.fee,
                        operations := a.operations + t.operations, used := a.used + ResourceUnits(t)), t.lifecycle)
  }

  function ObserveTx(c: State, k: nat, t: FinalizedTx): Observed<State>
    requires Shaped(c)
  {
    if k >= |c.shards| || t.shard != k || !t.matchesResult || c.circulating[k] < t.fee then Err(InvalidObservation)
    else
      var a := Charge(c.shards[k], t);
      if a.Err? then Err(a.error)
      else Ok(c.(shards := c.shards[k := a.value], circulating := c.circulating[k := c.circulating[k] - t.fee],
                 work := c.work + (if t.lifecycle.SettledJob? then [t.lifecycle.work] else [])))
  }

  function Move(supply: seq<u64>, r: Receipt): Option<seq<u64>>
    requires r.source < |supply| && r.destination < |supply| && r.source != r.destination
  {
    match r.value
    case Unreadable => None
    case NotNative => Some(supply)
    case Native(amount) =>
      if supply[r.source] < amount || supply[r.destination] + amount > MAX_U64 then None
      else Some(supply[r.source := supply[r.source] - amount][r.destination := supply[r.destination] + amount])
  }

  function ObserveImport(c: State, k: nat, r: Receipt): Observed<State>
    requires Shaped(c)
  {
    if k >= |c.shards| || r.destination != k || r.source >= |c.shards| || r.source == k then Err(InvalidObservation)
    else
      var moved, a := Move(c.circulating, r), c.shards[k];
      if moved.None? || a.operations + 1 > MAX_U64 || a.used + 2 > MAX_U64 then Err(InvalidObservation)
      else Ok(c.(circulating := moved.value,
                 shards := c.shards[k := a.(operations := a.operations + 1, used := a.used + 2)]))
  }

  function DataUnits(bytes: u64): nat {
    if bytes == 0 then 0 else (bytes + 1023) / 1024
  }

  /** Capacity and compute supply a block adds to a shard before its transactions. */
  function BeginShard(c: State, k: nat, o: ShardObservation): Observed<State>
    requires Shaped(c)
  {
    if k >= |c.shards| || |o.txs| != o.resultCount then Err(InvalidObservation)
    else
      var a := c.shards[k];
      if a.capacity + c.capacityPerBlock[k] > MAX_U64 || a.supply + o.computeUnits > MAX_U64 then Err(InvalidObservation)
      else Ok(c.(shards := c.shards[k := a.(capacity := a.capacity + c.capacityPerBlock[k],
                                            supply := a.supply + o.computeUnits,
                                            reliable := a.reliable && o.computeReliable)]))
  }

  /** Data bytes, and the rule that a shard never uses more than its capacity. */
  function EndShard(c: State, k: nat, o: ShardObservation): Observed<State>
    requires Shaped(c)
  {
    if k >= |c.shards| || o.dataBytes > MAX_U64 - 1023 then Err(InvalidObservation)
    else
      var a := c.shards[k];
      var used := a.used + DataUnits(o.dataBytes);
      if used > MAX_U64 || used > a.capacity then Err(InvalidObservation)
      else Ok(c.(shards := c.shards[k := a.(used := used)]))
  }

  // Shapes never change, so the folds below may ignore states that are out of shape.
  function TxObserver(k: nat): (State, FinalizedTx) -> Observed<State> {
    (c: State, t: FinalizedTx) => if Shaped(c) then ObserveTx(c, k, t) else Err(InvalidObservation)
  }

  function ImportObserver(k: nat): (State, Receipt) -> Observed<State> {
    (c: State, r: Receipt) => if Shaped(c) then ObserveImport(c, k, r) else Err(InvalidObservation)
  }

  function ObserveShard(c: State, k: nat, o: ShardObservation): Observed<State> {
    if !Shaped(c) then Err(InvalidObservation)
    else
      var begun := BeginShard(c, k, o);
      if begun.Err? then begun
      else
        var charged := Fold(TxObserver(k), begun.value, o.txs);
        if charged.Err? then charged
        else
          var imported := Fold(ImportObserver(k), charged.value, o.imports);
          if imported.Err? || !Shaped(imported.value) then Err(InvalidObservation)
          else EndShard(imported.value, k, o)
  }

  function Report(block: map<nat, ShardObservation>, k: nat): ShardObservation {
    if k in block then block[k] else SILENCE
  }

  /** The first n shards of a block, in order. */
  function ObserveShards(c: State, block: map<nat, ShardObservation>, n: nat): Observed<State> {
    if n == 0 then Ok(c)
    else
      var before := ObserveShards(c, block, n - 1);
      if before.Err? then before else ObserveShard(before.value, n - 1, Report(block, n - 1))
  }

  function ObserveBlock(c: State, height: u64, block: map<nat, ShardObservation>): Observed<State> {
    if height == 0 || height <= c.lastHeight then Err(InvalidObservation)
    else
      var after := ObserveShards(c, block, |c.shards|);
      if after.Err? then after else Ok(after.value.(lastHeight := height))
  }

  function Reopened(shards: seq<Accumulator>): (r: seq<Accumulator>)
    ensures |r| == |shards|
    ensures forall k :: 0 <= k < |r| ==> r[k] == OpenShard(shards[k].closing)
  {
    seq(|shards|, k requires 0 <= k < |shards| => OpenShard(shards[k].closing))
  }

  /** The next epoch opens with the backlog the last one closed with. */
  function AdvanceEpoch(c: State, next: u64): Observed<State> {
    if next != WrapAdd(c.epoch, 1) then Err(InvalidObservation)
    else Ok(c.(epoch := next, work := [], shards := Reopened(c.shards)))
  }

  // ---------------------------------------------------------------- the invariant

  /** Opening backlog and new demand are fulfilled, expired or still open, in unbounded integers. */
  predicate BacklogBalanced(a: Accumulator) {
    a.opening + a.demand == a.fulfilled + a.expired + a.closing
  }

  ghost predicate Balanced(c: State) {
    && Shaped(c)
    && (forall k :: 0 <= k < |c.shards| ==> BacklogBalanced(c.shards[k]) && c.shards[k].charged == c.shards[k].burned)
  }

  ghost predicate WithinCapacity(c: State) {
    forall k :: 0 <= k < |c.shards| ==> c.shards[k].used <= c.shards[k].capacity
  }

  function Amount(): u64 -> nat {
    (v: u64) => v
  }

  /** The native supply over all shards. */
  ghost function Circulation(c: State): nat {
    SumBy(c.circulating, Amount())
  }

  function FeeOf(): FinalizedTx -> nat {
    (t: FinalizedTx) => t.fee
  }

  function Fees(txs: seq<FinalizedTx>): nat {
    SumBy(txs, FeeOf())
  }

  /** All fees of the first n shards of a block. */
  function BlockFees(block: map<nat, ShardObservation>, n: nat): nat {
    if n == 0 then 0 else BlockFees(block, n - 1) + Fees(Report(block, n - 1).txs)
  }

  // ---------------------------------------------------------------- each step

  lemma SumPut(s: seq<u64>, k: nat, v: u64)
    requires k < |s|
    ensures SumBy(s[k := v], Amount()) == SumBy(s, Amount()) - s[k] + v
  {
    SumUpdate(s, k, v, Amount());
  }

  /** What one step of shard k may change: its own accumulator, and supplies that keep their total up to `burnt`. */
  ghost predicate Steps(c: State, d: State, k: nat, burnt: nat) {
    && Shaped(c) && Shaped(d) && k < |c.shards| == |d.shards| && d.capacityPerBlock == c.capacityPerBlock
    && d.epoch == c.epoch && d.lastHeight == c.lastHeight
    && (forall j :: 0 <= j < |c.shards| && j != k ==> d.shards[j] == c.shards[j])
    && (BacklogBalanced(c.shards[k]) ==> BacklogBalanced(d.shards[k]))
    && d.shards[k].opening == c.shards[k].opening
    && (c.shards[k].charged == c.shards[k].burned ==> d.shards[k].charged == d.shards[k].burned)
    && d.shards[k].burned == c.shards[k].burned + burnt
    && Circulation(d) + burnt == Circulation(c)
  }

  lemma StepsThen(c: State, d: State, e: State, k: nat, x: nat, y: nat)
    requires Steps(c, d, k, x) && Steps(d, e, k, y)
    ensures Steps(c, e, k, x + y)
  {
  }

  lemma ComputeBalanced(a: Accumulator, l: Lifecycle)
    requires ObserveCompute(a, l).Ok?
    ensures var b := ObserveCompute(a, l).value;
            && (BacklogBalanced(a) ==> BacklogBalanced(b)) && b.opening == a.opening
            && b.charged == a.charged && b.burned == a.burned
  {
  }

  /** A transaction burns its fee from its own shard. */
  lemma TxSteps(c: State, k: nat, t: FinalizedTx)
    requires Shaped(c) && ObserveTx(c, k, t).Ok?
    ensures Steps(c, ObserveTx(c, k, t).value, k, t.fee)
  {
    hide ObserveCompute, SumBy, ResourceUnits;
    var a := c.shards[k];
    var b := a.(charged := a.charged + t.fee, burned := a.burned + t.fee,
                operations := a.operations + t.operations, used := a.used + ResourceUnits(t));
    ComputeBalanced(b, t.lifecycle);
    SumPut(c.circulating, k, c.circulating[k] - t.fee);
  }

  /** A receipt only moves value between shards. */
  lemma ImportSteps(c: State, k: nat, r: Receipt)
    requires Shaped(c) && ObserveImport(c, k, r).Ok?
    ensures Steps(c, ObserveImport(c, k, r).value, k, 0)
  {
    hide SumBy;
    if r.value.Native? {
      var amount := r.value.amount;
      var debited := c.circulating[r.source := c.circulating[r.source] - amount];
      SumPut(c.circulating, r.source, c.circulating[r.source] - amount);
      SumPut(debited, r.destination, debited[r.destination] + amount);
    }
  }

  lemma BeginSteps(c: State, k: nat, o: ShardObservation)
    requires Shaped(c) && BeginShard(c, k, o).Ok?
    ensures Steps(c, BeginShard(c, k, o).value, k, 0)
  {
    hide SumBy;
  }

  lemma EndSteps(c: State, k: nat, o: ShardObservation)
    requires Shaped(c) && EndShard(c, k, o).Ok?
    ensures Steps(c, EndShard(c, k, o).value, k, 0)
    ensures var a := EndShard(c, k, o).value.shards[k]; a.used <= a.capacity
  {
    hide SumBy;
  }

  lemma StepsNone(c: State, k: nat)
    requires Shaped(c) && k < |c.shards|
    ensures Steps(c, c, k, 0)
  {
  }

  lemma {:induction false} TxsStep(c: State, k: nat, txs: seq<FinalizedTx>)
    requires Shaped(c) && k < |c.shards| && Fold(TxObserver(k), c, txs).Ok?
    ensures Steps(c, Fold(TxObserver(k), c, txs).value, k, Fees(txs))
  {
    hide Steps, ObserveTx, Circulation;
    if txs == [] {
      StepsNone(c, k);
    } else {
      var front, last := txs[..|txs| - 1], txs[|txs| - 1];
      TxsStep(c, k, front);
      var before := Fold(TxObserver(k), c, front).value;
      StepsShaped(c, before, k, Fees(front));
      TxSteps(before, k, last);
      StepsThen(c, before, ObserveTx(before, k, last).value, k, Fees(front), last.fee);
    }
  }

  lemma StepsShaped(c: State, d: State, k: nat, burnt: nat)
    requires Steps(c, d, k, burnt)
    ensures Shaped(d) && k < |d.shards|
  {
  }

  lemma {:induction false} ImportsStep(c: State, k: nat, imports: seq<Receipt>)
    requires Shaped(c) && k < |c.shards| && Fold(ImportObserver(k), c, imports).Ok?
    ensures Steps(c, Fold(ImportObserver(k), c, imports).value, k, 0)
  {
    hide Steps, ObserveImport, Circulation;
    if imports == [] {
      StepsNone(c, k);
    } else {
      var front, last := imports[..|imports| - 1], imports[|imports| - 1];
      ImportsStep(c, k, front);
      var before := Fold(ImportObserver(k), c, front).value;
      StepsShaped(c, before, k, 0);
      ImportSteps(before, k, last);
      StepsThen(c, before, ObserveImport(before, k, last).value, k, 0, 0);
    }
  }

  /** A shard's part of a block burns exactly its fees and stays within capacity. */
  lemma ShardSteps(c: State, k: nat, o: ShardObservation)
    requires ObserveShard(c, k, o).Ok?
    ensures Steps(c, ObserveShard(c, k, o).value, k, Fees(o.txs))
    ensures var a := ObserveShard(c, k, o).value.shards[k]; a.used <= a.capacity
  {
    hide Steps, BeginShard, EndShard, Fold;
    BeginSteps(c, k, o);
    var begun := BeginShard(c, k, o).value;
    StepsShaped(c, begun, k, 0);
    TxsStep(begun, k, o.txs);
    var charged := Fold(TxObserver(k), begun, o.txs).value;
    StepsShaped(begun, charged, k, Fees(o.txs));
    ImportsStep(charged, k, o.imports);
    var imported := Fold(ImportObserver(k), charged, o.imports).value;
    EndSteps(imported, k, o);
    var ended := EndShard(imported, k, o).value;
    StepsThen(c, begun, charged, k, 0, Fees(o.txs));
    StepsThen(c, charged, imported, k, Fees(o.txs), 0);
    StepsThen(c, imported, ended, k, Fees(o.txs), 0);
    StepsShaped(c, ended, k, Fees(o.txs));
  }

  // ---------------------------------------------------------------- whole blocks

  /** What a block prefix keeps. */
  ghost predicate Advances(c: State, d: State, n: nat, burnt: nat) {
    && Balanced(d) && |d.shards| == |c.shards| && d.capacityPerBlock == c.capacityPerBlock
    && d.epoch == c.epoch && d.lastHeight == c.lastHeight
    && Circulation(d) + burnt == Circulation(c)
    && (forall j :: 0 <= j < n && j < |d.shards| ==> d.shards[j].used <= d.shards[j].capacity)
    && (forall j :: n <= j < |d.shards| ==> d.shards[j] == c.shards[j])
  }

  lemma AdvancesStep(c: State, d: State, e: State, n: nat, x: nat, y: nat)
    requires Advances(c, d, n, x) && Steps(d, e, n, y) && e.shards[n].used <= e.shards[n].capacity
    ensures Advances(c, e, n + 1, x + y)
  {
    hide Circulation;
    forall j | 0 <= j < |e.shards| ensures BacklogBalanced(e.shards[j]) && e.shards[j].charged == e.shards[j].burned {
      assert BacklogBalanced(d.shards[j]) && d.shards[j].charged == d.shards[j].burned;
    }
  }

  lemma {:induction false} ShardsAdvance(c: State, block: map<nat, ShardObservation>, n: nat)
    requires Balanced(c) && n <= |c.shards| && ObserveShards(c, block, n).Ok?
    ensures Advances(c, ObserveShards(c, block, n).value, n, BlockFees(block, n))
  {
    if n == 0 {
    } else {
      hide Steps, ObserveShard, Advances, Balanced;
      ShardsAdvance(c, block, n - 1);
      var before := ObserveShards(c, block, n - 1).value;
      var o := Report(block, n - 1);
      ShardSteps(before, n - 1, o);
      AdvancesStep(c, before, ObserveShard(before, n - 1, o).value, n - 1, BlockFees(block, n - 1), Fees(o.txs));
    }
  }

  /** An accepted block keeps every shard's backlog balanced and within capacity, and burns exactly its fees. */
  lemma BlockKeeps(c: State, height: u64, block: map<nat, ShardObservation>)
    requires Balanced(c) && ObserveBlock(c, height, block).Ok?
    ensures var d := ObserveBlock(c, height, block).value;
            && Balanced(d) && WithinCapacity(d) && |d.shards| == |c.shards|
            && Circulation(d) + BlockFees(block, |c.shards|) == Circulation(c)
  {
    hide ObserveShards, BlockFees, SumBy;
    ShardsAdvance(c, block, |c.shards|);
  }

  lemma AdvanceKeeps(c: State, next: u64)
    requires Balanced(c) && AdvanceEpoch(c, next).Ok?
    ensures var d := AdvanceEpoch(c, next).value;
            && Balanced(d) && WithinCapacity(d) && |d.shards| == |c.shards| && Circulation(d) == Circulation(c)
  {
    hide SumBy;
  }

  // ---------------------------------------------------------------- runs

  datatype Event = Observing(height: u64, block: map<nat, ShardObservation>) | Advancing(next: u64)

  function Attempt(c: State, e: Event): Observed<State> {
    match e
    case Observing(height, block) => ObserveBlock(c, height, block)
    case Advancing(next) => AdvanceEpoch(c, next)
  }

  /** Blocks are applied whole or not at all. */
  function Step(c: State, e: Event): State {
    var r := Attempt(c, e); if r.Ok? then r.value else c
  }

  function Run(c: State, events: seq<Event>): State {
    if events == [] then c else Step(Run(c, events[..|events| - 1]), events[|events| - 1])
  }

  /** All fees of the blocks a run accepted. */
  function Burned(c: State, events: seq<Event>): nat {
    if events == [] then 0
    else
      var front, last := events[..|events| - 1], events[|events| - 1];
      var before := Run(c, front);
      Burned(c, front)
      + (if last.Observing? && Attempt(before, last).Ok? then BlockFees(last.block, |before.shards|) else 0)
  }

  /** A new collector: every shard opens with its backlog and has observed nothing. */
  ghost predicate Fresh(c: State) {
    Shaped(c) && forall k :: 0 <= k < |c.shards| ==> c.shards[k] == OpenShard(c.shards[k].opening)
  }

  /** After every run of blocks and epochs each shard's backlog balances and stays within capacity, and supply
      plus all fees burned in the run is the initial supply. */
  lemma {:induction false} EveryRunBalances(c: State, events: seq<Event>)
    requires Fresh(c)
    ensures var d := Run(c, events);
            Balanced(d) && WithinCapacity(d) && |d.shards| == |c.shards| && Circulation(d) + Burned(c, events) == Circulation(c)
  {
    if events == [] {
      FreshBalanced(c);
    } else {
      hide Balanced, WithinCapacity, ObserveBlock, AdvanceEpoch, Circulation, BlockFees, Fresh;
      var front, last := events[..|events| - 1], events[|events| - 1];
      EveryRunBalances(c, front);
      var before := Run(c, front);
      if Attempt(before, last).Ok? {
        match last
        case Observing(height, block) => BlockKeeps(before, height, block);
        case Advancing(next) => AdvanceKeeps(before, next);
      }
    }
  }

  lemma FreshBalanced(c: State)
    requires Fresh(c)
    ensures Balanced(c) && WithinCapacity(c)
  {
  }

  // ---------------------------------------------------------------- closing an epoch

  /** The metrics a shard reports, given the velocity measured for it. */
  function MetricsOf(c: State, k: nat, velocity: u32): ShardMetrics
    requires Shaped(c) && k < |c.shards| && k < U32_LIMIT
  {
    var a := c.shards[k];
    ShardMetrics(METRICS_VERSION, c.epoch, k, a.charged, a.burned, 0, 0, a.operations, a.used, a.capacity,
                 c.circulating[k], velocity, a.demand, a.supply, a.reliable, a.opening, a.fulfilled, a.expired, a.closing)
  }

  /** What can still refuse a balanced shard's metrics when its epoch closes. */
  predicate Reportable(c: State, a: Accumulator, velocity: u32) {
    && c.epoch != 0 && a.capacity > 0 && a.opening + a.demand <= MAX_U64 && velocity <= VELOCITY_LIMIT
    && (a.reliable ==> a.fulfilled <= a.supply)
  }

  /** For balanced shards within capacity only these conditions can refuse an epoch report. */
  lemma ReportsIff(c: State, k: nat, velocity: u32)
    requires Balanced(c) && WithinCapacity(c) && k < |c.shards| && k < U32_LIMIT
    ensures ValidMetrics(MetricsOf(c, k, velocity)) <==> Reportable(c, c.shards[k], velocity)
  {
    assert BacklogBalanced(c.shards[k]);
  }
}
