/** Shard metrics of one epoch and their aggregation (internal/v2/economics/epoch.go). */
module EpochMetrics {
  import opened Prelude
  import opened Sorting
  import opened Sums
  import opened PriceIndex

  const METRICS_VERSION: nat := 2
  const VELOCITY_LIMIT: nat := 100000

  /** The additive quantities of a shard's epoch. */
  datatype Quantity =
    | ChargedFees | BurnedFees | ValidatorFees | ReserveFees | Operations | ResourceUsed | ResourceCapacity
    | Circulating | Demand | Supply | Opening | Fulfilled | Expired | Backlog

  datatype ShardMetrics = ShardMetrics(
    version: nat, epoch: u64, shard: u32, chargedFees: u64, burnedFees: u64, validatorFees: u64, reserveFees: u64,
    operations: u64, resourceUsed: u64, resourceCapacity: u64, circulating: u64, velocity: u32, demand: u64,
    supply: u64, supplyReliable: bool, opening: u64, fulfilled: u64, expired: u64, backlog: u64)

  function Get(m: ShardMetrics, q: Quantity): nat {
    match q
    case ChargedFees => m.chargedFees
    case BurnedFees => m.burnedFees
    case ValidatorFees => m.validatorFees
    case ReserveFees => m.reserveFees
    case Operations => m.operations
    case ResourceUsed => m.resourceUsed
    case ResourceCapacity => m.resourceCapacity
    case Circulating => m.circulating
    case Demand => m.demand
    case Supply => m.supply
    case Opening => m.opening
    case Fulfilled => m.fulfilled
    case Expired => m.expired
    case Backlog => m.backlog
  }

  /** All quantities, in the order the source checks them. */
  const QUANTITIES: seq<Quantity> := [
    ChargedFees, BurnedFees, ValidatorFees, ReserveFees, Operations, ResourceUsed, ResourceCapacity,
    Circulating, Demand, Supply, Opening, Fulfilled, Expired, Backlog]

  lemma AllListed(q: Quantity)
    ensures q in QUANTITIES
  {
    match q
    case ChargedFees => assert QUANTITIES[0] == q;
    case BurnedFees => assert QUANTITIES[1] == q;
    case ValidatorFees => assert QUANTITIES[2] == q;
    case ReserveFees => assert QUANTITIES[3] == q;
    case Operations => assert QUANTITIES[4] == q;
    case ResourceUsed => assert QUANTITIES[5] == q;
    case ResourceCapacity => assert QUANTITIES[6] == q;
    case Circulating => assert QUANTITIES[7] == q;
    case Demand => assert QUANTITIES[8] == q;
    case Supply => assert QUANTITIES[9] == q;
    case Opening => assert QUANTITIES[10] == q;
    case Fulfilled => assert QUANTITIES[11] == q;
    case Expired => assert QUANTITIES[12] == q;
    case Backlog => assert QUANTITIES[13] == q;
  }

  /** Opening backlog plus new demand is exactly what was fulfilled, expired or left over, in 64 bits. */
  predicate ValidFlow(opening: nat, demand: nat, fulfilled: nat, expired: nat, closing: nat) {
    opening + demand <= MAX_U64 && fulfilled + expired + closing <= MAX_U64 && opening + demand == fulfilled + expired + closing
  }

  predicate ValidMetrics(m: ShardMetrics) {
    && m.version == METRICS_VERSION && m.epoch != 0 && m.resourceCapacity != 0 && m.resourceUsed <= m.resourceCapacity
    && m.velocity <= VELOCITY_LIMIT
    && (m.supplyReliable ==> m.fulfilled <= m.supply)
    && ValidFlow(m.opening, m.demand, m.fulfilled, m.expired, m.backlog)
    && m.burnedFees + m.validatorFees + m.reserveFees == m.chargedFees
  }

  datatype Aggregate = Aggregate(
    epoch: u64, shardCount: nat, totals: map<Quantity, nat>, supplyReliable: bool, velocity: nat,
    resourceUtilization: nat, computeUtilization: nat)

  datatype MetricsError = InvalidMetrics

  function RatioBps(value: nat, total: nat): nat {
    if total == 0 then 0
    else
      var ratio := Quotient(Times(value, BASIS_POINTS), total);
      if ratio > BASIS_POINTS then BASIS_POINTS else ratio
  }

  // ---------------------------------------------------------------- the aggregate

  function Getter(q: Quantity): ShardMetrics -> nat {
    (m: ShardMetrics) => Get(m, q)
  }

  function Total(ms: seq<ShardMetrics>, q: Quantity): nat {
    SumBy(ms, Getter(q))
  }

  function Flow(): ShardMetrics -> nat {
    (m: ShardMetrics) => Times(m.circulating, m.velocity)
  }

  /** Valid metrics of one epoch from distinct shards. */
  ghost predicate Coherent(ms: seq<ShardMetrics>) {
    && ms != []
    && (forall i :: 0 <= i < |ms| ==> ValidMetrics(ms[i]))
    && (forall i, j :: 0 <= i < j < |ms| ==> ms[i].epoch == ms[j].epoch)
    && (forall i, j :: 0 <= i < j < |ms| ==> ms[i].shard != ms[j].shard)
  }

  predicate AllReliable(ms: seq<ShardMetrics>) {
    forall i :: 0 <= i < |ms| ==> ms[i].supplyReliable
  }

  ghost predicate Fits(ms: seq<ShardMetrics>) {
    && (forall q: Quantity :: Total(ms, q) <= MAX_U64)
    && Total(ms, Opening) + Total(ms, Demand) <= MAX_U64
  }

  ghost function Totals(ms: seq<ShardMetrics>): map<Quantity, nat> {
    map q: Quantity | q in QUANTITIES :: Total(ms, q)
  }

  /** The average velocity, weighted by circulating supply. */
  function MeanVelocity(ms: seq<ShardMetrics>): nat {
    if Total(ms, Circulating) == 0 then 0 else Quotient(SumBy(ms, Flow()), Total(ms, Circulating))
  }

  ghost function Combined(ms: seq<ShardMetrics>): Aggregate
    requires ms != []
  {
    Aggregate(ms[0].epoch, |ms| % U32_LIMIT, Totals(ms), AllReliable(ms), MeanVelocity(ms),
              RatioBps(Total(ms, ResourceUsed), Total(ms, ResourceCapacity)),
              if Total(ms, Supply) == 0 then 0 else RatioBps(Total(ms, Fulfilled), Total(ms, Supply)))
  }

  /** Aggregation fails only on incoherent input or when a total, or opening plus demand, exceeds 64 bits. */
  ghost function AggregateOf(ms: seq<ShardMetrics>): Fallible<Aggregate, MetricsError> {
    if Coherent(ms) && Fits(ms) then Ok(Combined(ms)) else Err(InvalidMetrics)
  }

  // ---------------------------------------------------------------- identities of the totals

  function Resolved(): ShardMetrics -> nat {
    (m: ShardMetrics) => m.fulfilled + m.expired
  }

  function Available(): ShardMetrics -> nat {
    (m: ShardMetrics) => m.opening + m.demand
  }

  function BurnAndValidators(): ShardMetrics -> nat {
    (m: ShardMetrics) => m.burnedFees + m.validatorFees
  }

  /** Totals keep the backlog identity of the shards. */
  lemma BacklogKept(ms: seq<ShardMetrics>)
    requires forall i :: 0 <= i < |ms| ==> ValidMetrics(ms[i])
    ensures Total(ms, Opening) + Total(ms, Demand) == Total(ms, Fulfilled) + Total(ms, Expired) + Total(ms, Backlog)
  {
    SumLinear(ms, Getter(Opening), Getter(Demand), Available());
    SumLinear(ms, Getter(Fulfilled), Getter(Expired), Resolved());
    SumLinear(ms, Resolved(), Getter(Backlog), Available());
  }

  /** Totals keep the fee identity of the shards. */
  lemma FeesKept(ms: seq<ShardMetrics>)
    requires forall i :: 0 <= i < |ms| ==> ValidMetrics(ms[i])
    ensures Total(ms, BurnedFees) + Total(ms, ValidatorFees) + Total(ms, ReserveFees) == Total(ms, ChargedFees)
  {
    SumLinear(ms, Getter(BurnedFees), Getter(ValidatorFees), BurnAndValidators());
    SumLinear(ms, BurnAndValidators(), Getter(ReserveFees), Getter(ChargedFees));
  }

  lemma ReliableKept(ms: seq<ShardMetrics>)
    requires AllReliable(ms) && forall i :: 0 <= i < |ms| ==> ValidMetrics(ms[i])
    ensures Total(ms, Fulfilled) <= Total(ms, Supply)
  {
    SumCompare(ms, Getter(Fulfilled), Getter(Supply));
  }

  lemma UsedKept(ms: seq<ShardMetrics>)
    requires forall i :: 0 <= i < |ms| ==> ValidMetrics(ms[i])
    ensures Total(ms, ResourceUsed) <= Total(ms, ResourceCapacity)
    ensures ms != [] ==> Total(ms, ResourceCapacity) > 0
  {
    SumCompare(ms, Getter(ResourceUsed), Getter(ResourceCapacity));
    if ms != [] {
      assert ValidMetrics(ms[|ms| - 1]);
    }
  }

  lemma {:induction false} FlowBounded(ms: seq<ShardMetrics>)
    requires forall i :: 0 <= i < |ms| ==> ms[i].velocity <= VELOCITY_LIMIT
    ensures SumBy(ms, Flow()) <= VELOCITY_LIMIT * Total(ms, Circulating)
  {
    if ms != [] {
      var last := ms[|ms| - 1];
      FlowBounded(ms[..|ms| - 1]);
      TimesMonotone(last.velocity, VELOCITY_LIMIT, last.circulating);
    }
  }

  /** The mean velocity never exceeds the limit of its terms. */
  lemma VelocityBounded(ms: seq<ShardMetrics>)
    requires forall i :: 0 <= i < |ms| ==> ValidMetrics(ms[i])
    ensures MeanVelocity(ms) <= VELOCITY_LIMIT
  {
    FlowBounded(ms);
    if Total(ms, Circulating) > 0 {
      DivBetween(SumBy(ms, Flow()), 0, VELOCITY_LIMIT, Total(ms, Circulating));
    }
  }

  // ---------------------------------------------------------------- order does not matter

  lemma CoherentPermuted(a: seq<ShardMetrics>, b: seq<ShardMetrics>)
    requires multiset(a) == multiset(b) && Coherent(a)
    ensures Coherent(b) && a[0].epoch == b[0].epoch
  {
    hide ValidMetrics;
    SameElements(a, b);
    forall i | 0 <= i < |b| ensures ValidMetrics(b[i]) && b[i].epoch == a[0].epoch {
      assert b[i] in a;
    }
    DistinctPermuted(b, a);
    forall i, j | 0 <= i < j < |b| ensures b[i].shard != b[j].shard {
      assert b[i] in a && b[j] in a;
    }
  }

  lemma ReliablePermuted(a: seq<ShardMetrics>, b: seq<ShardMetrics>)
    requires multiset(a) == multiset(b) && AllReliable(a)
    ensures AllReliable(b)
  {
    SameElements(a, b);
    forall i | 0 <= i < |b| ensures b[i].supplyReliable {
      assert b[i] in a;
    }
  }

  lemma TotalPermuted(a: seq<ShardMetrics>, b: seq<ShardMetrics>)
    requires multiset(a) == multiset(b)
    ensures forall q: Quantity :: Total(a, q) == Total(b, q)
    ensures MeanVelocity(a) == MeanVelocity(b) && Totals(a) == Totals(b) && AllReliable(a) == AllReliable(b) && |a| == |b|
  {
    hide AllReliable;
    forall q: Quantity ensures Total(a, q) == Total(b, q) {
      SumPermuted(a, b, Getter(q));
    }
    SumPermuted(a, b, Flow());
    SameElements(a, b);
    if AllReliable(a) {
      ReliablePermuted(a, b);
    }
    if AllReliable(b) {
      ReliablePermuted(b, a);
    }
  }

  /** Aggregation is independent of input order, for every input. */
  lemma AggregateIgnoresOrder(a: seq<ShardMetrics>, b: seq<ShardMetrics>)
    requires multiset(a) == multiset(b)
    ensures AggregateOf(a) == AggregateOf(b)
  {
    hide Coherent, Total, Totals, MeanVelocity, AllReliable;
    TotalPermuted(a, b);
    if Coherent(a) {
      CoherentPermuted(a, b);
      CoherentNonempty(a);
      CoherentNonempty(b);
    } else if Coherent(b) {
      CoherentPermuted(b, a);
    }
  }

  lemma CoherentNonempty(ms: seq<ShardMetrics>)
    requires Coherent(ms)
    ensures ms != []
  {
  }

  // ---------------------------------------------------------------- the loop

  predicate ShardOrder(a: ShardMetrics, b: ShardMetrics) {
    a.shard < b.shard
  }

  /** Insertion sort by shard number. Shards that tie stand next to each other. */
  ghost predicate ShardSorted(ms: seq<ShardMetrics>) {
    forall i, j :: 0 <= i < j < |ms| ==> ms[i].shard <= ms[j].shard
  }

  lemma {:induction false} InsertShard(m: ShardMetrics, ms: seq<ShardMetrics>)
    requires ShardSorted(ms)
    ensures ShardSorted(Insert(m, ms, ShardOrder))
  {
    if ms != [] && !ShardOrder(m, ms[0]) {
      InsertShard(m, ms[1..]);
      var rest := Insert(m, ms[1..], ShardOrder);
      assert ms == [ms[0]] + ms[1..];
      SameElements(rest, ms[1..] + [m]);
      forall j | 0 <= j < |rest| ensures ms[0].shard <= rest[j].shard {
        assert rest[j] in ms[1..] + [m];
      }
    }
  }

  lemma {:induction false} SortShards(ms: seq<ShardMetrics>)
    ensures ShardSorted(Sort(ms, ShardOrder))
  {
    if ms != [] {
      SortShards(ms[1..]);
      InsertShard(ms[0], Sort(ms[1..], ShardOrder));
    }
  }

  /** Whether the i-th metric passes the checks of the loop. */
  predicate Passes(ms: seq<ShardMetrics>, i: nat)
    requires i < |ms|
  {
    ValidMetrics(ms[i]) && ms[i].epoch == ms[0].epoch && (i > 0 ==> ms[i - 1].shard != ms[i].shard)
  }

  lemma PassesCoherent(ms: seq<ShardMetrics>)
    requires ms != [] && ShardSorted(ms)
    ensures Coherent(ms) <==> forall i :: 0 <= i < |ms| ==> Passes(ms, i)
  {
    hide ValidMetrics;
    if forall i :: 0 <= i < |ms| ==> Passes(ms, i) {
      forall i, j | 0 <= i < j < |ms| ensures ms[i].shard != ms[j].shard {
        assert Passes(ms, j);
        assert ms[i].shard <= ms[j - 1].shard;
      }
      forall i | 0 <= i < |ms| ensures ValidMetrics(ms[i]) && ms[i].epoch == ms[0].epoch {
        assert Passes(ms, i);
      }
    }
    if Coherent(ms) {
      forall i | 0 <= i < |ms| ensures Passes(ms, i) {
        assert ms[0].epoch == ms[i].epoch;
      }
    }
  }

  function Added(totals: map<Quantity, nat>, m: ShardMetrics): map<Quantity, nat>
    requires forall q: Quantity :: q in totals
  {
    map q: Quantity | q in QUANTITIES :: totals[q] + Get(m, q)
  }

  /** The accumulating loop over shards in order. */
  method Accumulate(ms: seq<ShardMetrics>)
    returns (ok: bool, totals: map<Quantity, nat>, reliable: bool, flow: nat)
    requires ms != []
    ensures ok <==> forall i :: 0 <= i < |ms| ==> Passes(ms, i)
    ensures ok ==> totals == Totals(ms) && reliable == AllReliable(ms) && flow == SumBy(ms, Flow())
  {
    hide ValidMetrics, Get;
    totals := map q: Quantity | q in QUANTITIES :: 0;
    reliable, flow := true, 0;
    TotalsStart(ms, totals);
    var i := 0;
    while i < |ms|
      invariant 0 <= i <= |ms|
      invariant forall k :: 0 <= k < i ==> Passes(ms, k)
      invariant totals == Totals(ms[..i])
      invariant reliable <==> forall k :: 0 <= k < i ==> ms[k].supplyReliable
      invariant flow == SumBy(ms[..i], Flow())
    {
      if !Passes(ms, i) {
        return false, totals, reliable, flow;
      }
      TotalsNext(ms, i, totals);
      totals := Added(totals, ms[i]);
      reliable := reliable && ms[i].supplyReliable;
      SumNext(ms, i, Flow());
      flow := flow + Times(ms[i].circulating, ms[i].velocity);
      i := i + 1;
    }
    assert ms[..i] == ms;
    return true, totals, reliable, flow;
  }

  lemma TotalsStart(ms: seq<ShardMetrics>, totals: map<Quantity, nat>)
    requires totals == map q: Quantity | q in QUANTITIES :: 0
    ensures totals == Totals(ms[..0])
  {
  }

  lemma TotalsNext(ms: seq<ShardMetrics>, i: nat, totals: map<Quantity, nat>)
    requires i < |ms| && totals == Totals(ms[..i])
    ensures forall q: Quantity :: q in totals
    ensures Added(totals, ms[i]) == Totals(ms[..i + 1])
  {
    hide Get, Total;
    forall q: Quantity ensures q in totals {
      AllListed(q);
    }
    var added, next := Added(totals, ms[i]), Totals(ms[..i + 1]);
    assert added.Keys == next.Keys;
    forall q: Quantity | q in QUANTITIES ensures added[q] == next[q] {
      TotalNext(ms, i, q);
    }
  }

  lemma TotalNext(ms: seq<ShardMetrics>, i: nat, q: Quantity)
    requires i < |ms|
    ensures Total(ms[..i + 1], q) == Total(ms[..i], q) + Get(ms[i], q)
  {
    hide Get;
    SumNext(ms, i, Getter(q));
  }

  method TotalsFit(totals: map<Quantity, nat>) returns (ok: bool)
    requires forall q: Quantity :: q in totals
    ensures ok <==> forall q: Quantity :: totals[q] <= MAX_U64
  {
    var i := 0;
    while i < |QUANTITIES|
      invariant 0 <= i <= |QUANTITIES|
      invariant forall k :: 0 <= k < i ==> totals[QUANTITIES[k]] <= MAX_U64
    {
      if totals[QUANTITIES[i]] > MAX_U64 {
        return false;
      }
      i := i + 1;
    }
    forall q: Quantity ensures totals[q] <= MAX_U64 {
      AllListed(q);
    }
    return true;
  }

  /** The branches on a zero capacity, an unbalanced flow, an unreliable supply and an excessive velocity exist
      in the code; the contract shows that none of them can refuse coherent metrics whose totals fit. */
  method AggregateEpochMetrics(metrics: seq<ShardMetrics>) returns (r: Fallible<Aggregate, MetricsError>)
    ensures r == AggregateOf(metrics)
    ensures Coherent(metrics) ==>
              (r.Err? <==> (exists q: Quantity :: Total(metrics, q) > MAX_U64)
                           || Total(metrics, Opening) + Total(metrics, Demand) > MAX_U64)
  {
    hide Get, ValidMetrics, Sort, SumBy, AllReliable, RatioBps, Coherent;
    if |metrics| == 0 {
      Incoherent(metrics);
      return Err(InvalidMetrics);
    }
    var ms := Sort(metrics, ShardOrder);
    SameElements(ms, metrics);
    SortShards(metrics);
    PassesCoherent(ms);
    AggregateIgnoresOrder(ms, metrics);
    var ok, totals, reliable, flow := Accumulate(ms);
    if !ok {
      return Err(InvalidMetrics);
    }
    CoherentParts(ms);
    forall q: Quantity ensures q in totals && totals[q] == Total(ms, q) {
      AllListed(q);
    }
    var fit := TotalsFit(totals);
    if !fit {
      return Err(InvalidMetrics);
    }
    BacklogKept(ms);
    UsedKept(ms);
    if totals[ResourceCapacity] == 0
       || !ValidFlow(totals[Opening], totals[Demand], totals[Fulfilled], totals[Expired], totals[Backlog]) {
      return Err(InvalidMetrics);
    }
    if reliable {
      ReliableKept(ms);
    }
    if reliable && totals[Fulfilled] > totals[Supply] {
      return Err(InvalidMetrics);
    }
    VelocityBounded(ms);
    var velocity := 0;
    if totals[Circulating] != 0 {
      velocity := Quotient(flow, totals[Circulating]);
      if velocity > VELOCITY_LIMIT {
        return Err(InvalidMetrics);
      }
    }
    return Ok(Aggregate(ms[0].epoch, |ms| % U32_LIMIT, totals, reliable, velocity,
                        RatioBps(totals[ResourceUsed], totals[ResourceCapacity]),
                        if totals[Supply] == 0 then 0 else RatioBps(totals[Fulfilled], totals[Supply])));
  }

  lemma Incoherent(ms: seq<ShardMetrics>)
    requires ms == []
    ensures !Coherent(ms)
  {
  }

  lemma CoherentParts(ms: seq<ShardMetrics>)
    requires Coherent(ms)
    ensures ms != [] && forall i :: 0 <= i < |ms| ==> ValidMetrics(ms[i])
  {
  }

  /** Successful aggregates keep the fee and backlog identities and the bounds of the shards. */
  lemma AggregateKeeps(ms: seq<ShardMetrics>)
    requires AggregateOf(ms).Ok?
    ensures var t := AggregateOf(ms).value.totals;
            && (forall q: Quantity :: q in t && t[q] <= MAX_U64)
            && t[BurnedFees] + t[ValidatorFees] + t[ReserveFees] == t[ChargedFees]
            && t[Opening] + t[Demand] == t[Fulfilled] + t[Expired] + t[Backlog] <= MAX_U64
            && t[ResourceUsed] <= t[ResourceCapacity]
    ensures AggregateOf(ms).value.velocity <= VELOCITY_LIMIT
  {
    hide Coherent, SumBy, ValidMetrics, Get;
    CoherentParts(ms);
    FeesKept(ms);
    BacklogKept(ms);
    UsedKept(ms);
    VelocityBounded(ms);
    forall q: Quantity ensures q in Totals(ms) && Totals(ms)[q] == Total(ms, q) {
      AllListed(q);
    }
  }

  /** A ratio in basis points is floored, and capped at the whole. */
  lemma RatioFloors(value: nat, total: nat)
    requires total > 0
    ensures value <= total ==>
              Times(RatioBps(value, total), total) <= Times(value, BASIS_POINTS) < Times(RatioBps(value, total) + 1, total)
    ensures value >= total ==> RatioBps(value, total) == BASIS_POINTS
  {
    hide Quotient;
    var n := Times(value, BASIS_POINTS);
    FloorBounds(n, total);
    assert n == value * BASIS_POINTS && Times(BASIS_POINTS, total) == BASIS_POINTS * total;
    if value <= total {
      TimesMonotone(value, total, BASIS_POINTS);
      FloorAtMost(n, total, BASIS_POINTS);
    } else {
      TimesMonotone(total, value, BASIS_POINTS);
      FloorAtLeast(n, total, BASIS_POINTS);
    }
    if value == total {
      FloorAtLeast(n, total, BASIS_POINTS);
    }
  }

  lemma FloorAtMost(n: nat, d: nat, bound: nat)
    requires d > 0 && n <= bound * d
    ensures Quotient(n, d) <= bound
  {
    FloorBounds(n, d);
    if Quotient(n, d) > bound {
      TimesMonotone(bound + 1, Quotient(n, d), d);
    }
  }

  lemma FloorAtLeast(n: nat, d: nat, bound: nat)
    requires d > 0 && n >= bound * d
    ensures Quotient(n, d) >= bound
  {
    FloorBounds(n, d);
    if Quotient(n, d) < bound {
      TimesMonotone(Quotient(n, d) + 1, bound, d);
    }
  }

  /** What an aggregate says: the common epoch, every total, whether all supply is reliable and the two utilizations. */
  lemma AggregateMeans(ms: seq<ShardMetrics>)
    requires AggregateOf(ms).Ok?
    ensures var a := AggregateOf(ms).value;
            && (forall i :: 0 <= i < |ms| ==> a.epoch == ms[i].epoch)
            && (|ms| < U32_LIMIT ==> a.shardCount == |ms|)
            && (forall q: Quantity :: q in a.totals && a.totals[q] == SumBy(ms, Getter(q)))
            && (a.supplyReliable <==> forall i :: 0 <= i < |ms| ==> ms[i].supplyReliable)
            && a.resourceUtilization == RatioBps(a.totals[ResourceUsed], a.totals[ResourceCapacity])
            && a.computeUtilization == (if a.totals[Supply] == 0 then 0 else RatioBps(a.totals[Fulfilled], a.totals[Supply]))
  {
    hide SumBy, RatioBps, ValidMetrics, Get, MeanVelocity, Totals, Fits;
    TotalsHave(ms);
  }

  lemma TotalsHave(ms: seq<ShardMetrics>)
    ensures forall q: Quantity :: q in Totals(ms) && Totals(ms)[q] == SumBy(ms, Getter(q))
  {
    hide SumBy, Get;
    forall q: Quantity ensures q in QUANTITIES {
      AllListed(q);
    }
  }

  /** The aggregate velocity is the floor of the supply-weighted mean, zero without supply. */
  lemma VelocityFloors(ms: seq<ShardMetrics>)
    requires AggregateOf(ms).Ok?
    ensures var v, supply := AggregateOf(ms).value.velocity, Total(ms, Circulating);
            if supply == 0 then v == 0 else Times(v, supply) <= SumBy(ms, Flow()) < Times(v + 1, supply)
  {
    hide SumBy, RatioBps, Coherent, Totals, Total;
    if Total(ms, Circulating) > 0 {
      FloorBounds(SumBy(ms, Flow()), Total(ms, Circulating));
    }
  }

  /** Metrics are valid exactly for the current version and a positive epoch, with use within a positive capacity, bounded
      velocity, reliable supply covering what was fulfilled, a balanced 64-bit flow and fees fully allotted. */
  lemma ValidIff(m: ShardMetrics)
    ensures ValidMetrics(m) <==>
            && m.version == 2 && m.epoch > 0 && 0 < m.resourceCapacity && m.resourceUsed <= m.resourceCapacity
            && m.velocity <= 100000 && (m.supplyReliable ==> m.fulfilled <= m.supply)
            && m.opening + m.demand == m.fulfilled + m.expired + m.backlog <= MAX_U64
            && m.chargedFees == m.burnedFees + m.validatorFees + m.reserveFees
  {
  }
}
