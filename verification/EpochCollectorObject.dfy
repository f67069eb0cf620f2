/** The epoch collector object (internal/v2/economics/finalized_collector.go). */
module EpochCollectorObject {
  import opened Prelude
  import opened Sums
  import opened Folds
  import opened ComputeWork
  import opened EpochMetrics
  import opened Collector

  method ObserveTransactions(c: State, k: nat, txs: seq<FinalizedTx>) returns (r: Observed<State>)
    requires Shaped(c) && k < |c.shards|
    ensures r == Fold(TxObserver(k), c, txs)
  {
    hide Fold, ObserveTx, Steps;
    ghost var f := TxObserver(k);
    FoldNothing(f, c, txs);
    var d := c;
    var i := 0;
    while i < |txs|
      invariant 0 <= i <= |txs| && Shaped(d)
      invariant Fold(f, c, txs[..i]) == Ok(d)
    {
      FoldStep(f, c, txs, i, d);
      var step := ObserveTx(d, k, txs[i]);
      if step.Err? {
        return step;
      }
      TxSteps(d, k, txs[i]);
      StepsShaped(d, step.value, k, txs[i].fee);
      d := step.value;
      i := i + 1;
    }
    FoldAll(f, c, txs);
    return Ok(d);
  }

  method ObserveImports(c: State, k: nat, imports: seq<Receipt>) returns (r: Observed<State>)
    requires Shaped(c) && k < |c.shards|
    ensures r == Fold(ImportObserver(k), c, imports)
  {
    hide Fold, ObserveImport, Steps;
    ghost var f := ImportObserver(k);
    FoldNothing(f, c, imports);
    var d := c;
    var i := 0;
    while i < |imports|
      invariant 0 <= i <= |imports| && Shaped(d)
      invariant Fold(f, c, imports[..i]) == Ok(d)
    {
      FoldStep(f, c, imports, i, d);
      var step := ObserveImport(d, k, imports[i]);
      if step.Err? {
        return step;
      }
      ImportSteps(d, k, imports[i]);
      StepsShaped(d, step.value, k, 0);
      d := step.value;
      i := i + 1;
    }
    FoldAll(f, c, imports);
    return Ok(d);
  }

  method ObserveOneShard(c: State, k: nat, o: ShardObservation) returns (r: Observed<State>)
    requires Shaped(c)
    ensures r == ObserveShard(c, k, o)
  {
    hide Fold, BeginShard, EndShard, Steps;
    var begun := BeginShard(c, k, o);
    if begun.Err? {
      return begun;
    }
    BeginSteps(c, k, o);
    StepsShaped(c, begun.value, k, 0);
    var charged := ObserveTransactions(begun.value, k, o.txs);
    if charged.Err? {
      return charged;
    }
    TxsStep(begun.value, k, o.txs);
    StepsShaped(begun.value, charged.value, k, Fees(o.txs));
    var imported := ObserveImports(charged.value, k, o.imports);
    if imported.Err? {
      ImportErrors(imported);
      return Err(InvalidObservation);
    }
    ImportsStep(charged.value, k, o.imports);
    StepsShaped(charged.value, imported.value, k, 0);
    return EndShard(imported.value, k, o);
  }

  lemma ImportErrors(r: Observed<State>)
    requires r.Err?
    ensures r == Err(InvalidObservation)
  {
    match r.error
    case InvalidObservation =>
  }

  const FULL_BURN: FeePolicy := FeePolicy(PriceIndex.BASIS_POINTS, 0, 0)

  datatype FeePolicy = FeePolicy(burn: u32, validators: u32, reserve: u32)

  datatype VelocityPolicy = VelocityPolicy(minAge: u64, fullWeightAge: u64, maxVelocity: u32)

  /** Per-shard settings are maps; a shard that is not listed has zero. */
  datatype Config = Config(
    epoch: u64, shardCount: u32, nativeToken: Bytes32, supply: map<nat, u64>, backlog: map<nat, u64>,
    capacityPerBlock: map<nat, u64>, velocityPolicy: VelocityPolicy, feePolicy: FeePolicy)

  predicate ValidVelocity(p: VelocityPolicy) {
    p.fullWeightAge != 0 && p.minAge <= p.fullWeightAge && 0 < p.maxVelocity <= 10 * PriceIndex.BASIS_POINTS
  }

  function Setting(settings: map<nat, u64>, shard: nat): u64 {
    if shard in settings then settings[shard] else 0
  }

  function PerShard(settings: map<nat, u64>, shardCount: nat): seq<u64> {
    seq(shardCount, k requires 0 <= k < shardCount => Setting(settings, k))
  }

  class EpochCollector {
    const capacityPerBlock: seq<u64>
    var epoch: u64
    var shards: seq<Accumulator>
    var circulating: seq<u64>
    var work: seq<VerifiedWork>
    var lastHeight: u64
    /** The collector as created, and everything it was asked to do since. */
    ghost const start: State
    ghost var history: seq<Event>

    function Snapshot(): State
      reads this
    {
      State(epoch, capacityPerBlock, shards, circulating, work, lastHeight)
    }

    ghost predicate Valid()
      reads this
    {
      Fresh(start) && Snapshot() == Run(start, history) && |capacityPerBlock| < U32_LIMIT
    }

    constructor (epoch: u64, capacityPerBlock: seq<u64>, supply: seq<u64>, backlog: seq<u64>)
      requires |capacityPerBlock| == |supply| == |backlog| < U32_LIMIT
      ensures Valid() && history == [] && Circulation(start) == SumBy(supply, Amount())
      ensures Snapshot() == start && start.epoch == epoch && start.circulating == supply && Opened(start, backlog)
      ensures this.capacityPerBlock == capacityPerBlock
    {
      this.epoch := epoch;
      this.capacityPerBlock := capacityPerBlock;
      shards := seq(|backlog|, k requires 0 <= k < |backlog| => OpenShard(backlog[k]));
      circulating := supply;
      work := [];
      lastHeight := 0;
      start := State(epoch, capacityPerBlock, seq(|backlog|, k requires 0 <= k < |backlog| => OpenShard(backlog[k])),
                     supply, [], 0);
      history := [];
    }

    /** A collector needs an epoch, a shard, a native token, a capacity for every shard, a policy that burns every
        fee and a usable velocity policy. */
    static method Create(config: Config) returns (r: Option<EpochCollector>)
      ensures r.Some? <==>
                && config.epoch != 0 && config.shardCount != 0 && config.nativeToken != ZERO32
                && config.feePolicy == FULL_BURN && ValidVelocity(config.velocityPolicy)
                && forall k :: 0 <= k < config.shardCount ==> Setting(config.capacityPerBlock, k) != 0
      ensures r.Some? ==>
                && fresh(r.value) && r.value.Valid() && r.value.history == [] && r.value.epoch == config.epoch
                && r.value.circulating == PerShard(config.supply, config.shardCount)
                && r.value.capacityPerBlock == PerShard(config.capacityPerBlock, config.shardCount)
                && Opened(r.value.start, PerShard(config.backlog, config.shardCount))
                && r.value.Snapshot() == r.value.start
    {
      if config.epoch == 0 || config.shardCount == 0 || config.nativeToken == ZERO32 || config.feePolicy != FULL_BURN {
        return None;
      }
      if !ValidVelocity(config.velocityPolicy) {
        return None;
      }
      for k := 0 to config.shardCount
        invariant forall j :: 0 <= j < k ==> Setting(config.capacityPerBlock, j) != 0
      {
        if Setting(config.capacityPerBlock, k) == 0 {
          return None;
        }
      }
      var c := new EpochCollector(config.epoch, PerShard(config.capacityPerBlock, config.shardCount),
                                  PerShard(config.supply, config.shardCount), PerShard(config.backlog, config.shardCount));
      return Some(c);
    }

    method Install(d: State, ghost e: Event)
      requires Valid() && Attempt(Snapshot(), e) == Ok(d) && d.capacityPerBlock == capacityPerBlock
      modifies this
      ensures Valid() && history == old(history) + [e] && Snapshot() == d
    {
      hide Run, Attempt, Fresh;
      RunSnoc(start, history, e);
      epoch, shards, circulating, work, lastHeight := d.epoch, d.shards, d.circulating, d.work, d.lastHeight;
      history := history + [e];
    }

    ghost method Refuse(e: Event)
      requires Valid() && Attempt(Snapshot(), e).Err?
      modifies this`history
      ensures Valid() && history == old(history) + [e]
    {
      hide Run, Attempt, Fresh;
      RunSnoc(start, history, e);
      history := history + [e];
    }

    /** The whole block is applied to a preview, which replaces the collector only when every shard succeeds. */
    method ObserveFinalizedBlock(height: u64, block: map<nat, ShardObservation>) returns (ok: bool)
      requires Valid()
      modifies this
      ensures Valid() && history == old(history) + [Observing(height, block)]
      ensures ok <==> ObserveBlock(old(Snapshot()), height, block).Ok?
      ensures ok ==> Snapshot() == ObserveBlock(old(Snapshot()), height, block).value
      ensures !ok ==> Snapshot() == old(Snapshot())
    {
      hide Run, Fresh, ObserveShard, Balanced, Steps;
      ghost var e := Observing(height, block);
      var c := Snapshot();
      ReachableBalanced(start, history);
      if height == 0 || height <= lastHeight {
        Refuse(e);
        return false;
      }
      var preview := c;
      BalancedShape(preview);
      var k := 0;
      while k < |c.shards|
        invariant 0 <= k <= |c.shards| && Shaped(preview)
        invariant Valid() && Snapshot() == c && history == old(history)
        invariant preview.capacityPerBlock == c.capacityPerBlock
        invariant ObserveShards(c, block, k) == Ok(preview)
      {
        var o := if k in block then block[k] else SILENCE;
        var step := ObserveOneShard(preview, k, o);
        if step.Err? {
          ShardsFail(c, block, k + 1, |c.shards|);
          Refuse(e);
          return false;
        }
        ShardSteps(preview, k, o);
        StepsKeepShape(preview, step.value, k, Fees(o.txs));
        preview := step.value;
        k := k + 1;
      }
      Install(preview.(lastHeight := height), e);
      return true;
    }

    method NextEpoch(next: u64) returns (ok: bool)
      requires Valid()
      modifies this
      ensures Valid() && history == old(history) + [Advancing(next)]
      ensures ok <==> next == WrapAdd(old(epoch), 1)
      ensures ok ==> epoch == next && shards == Reopened(old(shards)) && circulating == old(circulating)
      ensures !ok ==> Snapshot() == old(Snapshot())
    {
      hide Run, Fresh;
      ghost var e := Advancing(next);
      if next != WrapAdd(epoch, 1) {
        Refuse(e);
        return false;
      }
      var reopened: seq<Accumulator> := [];
      while |reopened| < |shards|
        invariant |reopened| <= |shards|
        invariant reopened == Reopened(shards)[..|reopened|]
      {
        reopened := reopened + [OpenShard(shards[|reopened|].closing)];
      }
      assert reopened == Reopened(shards);
      Install(Snapshot().(epoch := next, work := [], shards := reopened), e);
      return true;
    }

    /** The epoch's report: one valid metric per shard, or nothing. `measured` is the velocity of each shard,
        None when it cannot be computed; it is only asked of shards with supply. */
    method FinalizeEpoch(measured: seq<Option<u32>>) returns (r: Option<(seq<ShardMetrics>, seq<VerifiedWork>)>)
      requires Valid() && |measured| == |shards|
      ensures r.Some? <==> forall k :: 0 <= k < |shards| ==> Reports(Snapshot(), measured, k)
      ensures r.Some? ==> |r.value.0| == |shards| && Shaped(Snapshot()) && r.value.1 == work
      ensures r.Some? ==> forall k :: 0 <= k < |shards| ==>
                r.value.0[k] == MetricsOf(Snapshot(), k, VelocityOf(Snapshot(), measured, k))
      ensures r.Some? && |shards| > 0 ==> Coherent(r.value.0)
    {
      hide Run, Fresh, ValidMetrics, Reportable;
      ReachableBalanced(start, history);
      var c := Snapshot();
      var metrics: seq<ShardMetrics> := [];
      while |metrics| < |shards|
        invariant |metrics| <= |shards|
        invariant forall k :: 0 <= k < |metrics| ==> Reports(c, measured, k)
        invariant forall k :: 0 <= k < |metrics| ==> metrics[k] == MetricsOf(c, k, VelocityOf(c, measured, k))
        invariant forall k :: 0 <= k < |metrics| ==> ValidMetrics(metrics[k])
      {
        var k := |metrics|;
        if c.circulating[k] > 0 && measured[k].None? {
          assert !Reports(Snapshot(), measured, k);
          return None;
        }
        var metric := MetricsOf(c, k, VelocityOf(c, measured, k));
        ReportsIff(c, k, VelocityOf(c, measured, k));
        if !ValidMetrics(metric) {
          assert !Reports(Snapshot(), measured, k);
          return None;
        }
        metrics := metrics + [metric];
      }
      return Some((metrics, work));
    }
  }

  /** Every shard starts the epoch with its backlog and nothing else. */
  ghost predicate Opened(c: State, backlog: seq<u64>) {
    |c.shards| == |backlog| && forall k :: 0 <= k < |backlog| ==> c.shards[k] == OpenShard(backlog[k])
  }

  /** The velocity a shard reports: zero without supply. */
  function VelocityOf(c: State, measured: seq<Option<u32>>, k: nat): u32
    requires Shaped(c) && k < |measured| == |c.shards|
  {
    if c.circulating[k] > 0 && measured[k].Some? then measured[k].value else 0
  }

  predicate Reports(c: State, measured: seq<Option<u32>>, k: nat)
    requires k < |measured| == |c.shards|
  {
    && Shaped(c)
    && (c.circulating[k] > 0 ==> measured[k].Some?)
    && Reportable(c, c.shards[k], VelocityOf(c, measured, k))
  }

  lemma RunSnoc(c: State, events: seq<Event>, e: Event)
    ensures Run(c, events + [e]) == Step(Run(c, events), e)
  {
    assert (events + [e])[..|events|] == events;
  }

  lemma ReachableBalanced(c: State, events: seq<Event>)
    requires Fresh(c)
    ensures Balanced(Run(c, events)) && WithinCapacity(Run(c, events))
  {
    Collector.EveryRunBalances(c, events);
  }

  lemma BalancedShape(c: State)
    requires Balanced(c)
    ensures Shaped(c)
  {
  }

  lemma StepsKeepShape(c: State, d: State, k: nat, burnt: nat)
    requires Steps(c, d, k, burnt)
    ensures Shaped(d) && |d.shards| == |c.shards| && d.capacityPerBlock == c.capacityPerBlock
  {
  }

  lemma {:induction false} ShardsFail(c: State, block: map<nat, ShardObservation>, k: nat, n: nat)
    requires k <= n && ObserveShards(c, block, k).Err?
    ensures ObserveShards(c, block, n).Err?
  {
    if k < n {
      ShardsFail(c, block, k, n - 1);
    }
  }
}
