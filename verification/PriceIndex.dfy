/** The compute price index: medians, smoothing and a weighted basket
    (internal/v2/economics/compute_index.go). */
module PriceIndex {
  import opened Prelude
  import opened Sorting
  import opened Sums
  import opened ComputeWork

  const BASIS_POINTS: nat := 10000
  const PRICE_SCALE: nat := 1000000000
  const CLASSES: nat := 12

  datatype Config = Config(weights: seq<u32>, minSamples: u32, minCoverage: u32, alpha: u32)

  datatype Snapshot = Snapshot(
    epoch: u64, classPrices: seq<u64>, classSamples: seq<nat>, basket: u64, coverage: nat, reliable: bool, totalSamples: nat)

  datatype IndexError = InvalidIndex

  // ---------------------------------------------------------------- the pieces

  function UnitPrice(o: VerifiedWork): nat
    requires o.units != 0
  {
    Quotient(Times(o.paid, PRICE_SCALE), o.units)
  }

  /** An observation the index can price. */
  predicate Usable(o: VerifiedWork) {
    0 < o.class_ < CLASSES && o.units != 0 && o.paid != 0 && UnitPrice(o) <= MAX_U64
  }

  predicate AllUsable(obs: seq<VerifiedWork>) {
    forall i :: 0 <= i < |obs| ==> Usable(obs[i])
  }

  function PricesOf(obs: seq<VerifiedWork>, c: nat): (r: seq<u64>)
    requires AllUsable(obs)
  {
    if obs == [] then []
    else PricesOf(obs[..|obs| - 1], c) + (if obs[|obs| - 1].class_ == c then [UnitPrice(obs[|obs| - 1])] else [])
  }

  predicate Cheaper(a: u64, b: u64) {
    a < b
  }

  function Median(sorted: seq<u64>): nat
    requires sorted != []
  {
    var middle := |sorted| / 2;
    if |sorted| % 2 == 1 then sorted[middle]
    else
      var low, high := sorted[middle - 1], sorted[middle];
      if low <= high then low + (high - low) / 2 else 0
  }

  /** A weighted sum of two prices. */
  function Mix(prior: nat, rest: nat, current: nat, alpha: nat): nat {
    Times(prior, rest) + Times(current, alpha)
  }

  /** The smoothed price: no prior means the median itself. */
  function Blend(prior: u64, current: nat, alpha: nat): nat
    requires alpha <= BASIS_POINTS
  {
    if prior == 0 || alpha == BASIS_POINTS then current
    else if alpha == 0 then prior
    else Quotient(Mix(prior, BASIS_POINTS - alpha, current, alpha), BASIS_POINTS)
  }

  /** Whether a class enters the basket; the sample count is compared as a 32-bit number. */
  predicate Active(cfg: Config, samples: nat, c: nat)
    requires c < |cfg.weights|
  {
    samples % U32_LIMIT >= cfg.minSamples && cfg.weights[c] != 0
  }

  predicate ValidConfig(epoch: u64, cfg: Config) {
    && epoch != 0 && cfg.minSamples != 0 && cfg.minCoverage <= BASIS_POINTS && cfg.alpha <= BASIS_POINTS
  }

  /** Everything the index is computed from, with the shapes of Go's fixed arrays. */
  datatype Input = Input(obs: seq<VerifiedWork>, prior: Snapshot, cfg: Config)

  predicate Shaped(x: Input) {
    |x.prior.classPrices| == CLASSES && |x.cfg.weights| == CLASSES
  }

  predicate Ready(x: Input) {
    Shaped(x) && AllUsable(x.obs) && x.cfg.minSamples != 0 && x.cfg.alpha <= BASIS_POINTS
  }

  function ClassMedian(x: Input, c: nat): nat
    requires Ready(x) && PricesOf(x.obs, c) != []
  {
    Median(Sort(PricesOf(x.obs, c), Cheaper))
  }

  lemma ActiveSamples(x: Input, c: nat)
    requires Ready(x) && c < CLASSES && Active(x.cfg, |PricesOf(x.obs, c)|, c)
    ensures PricesOf(x.obs, c) != []
  {
  }

  function TotalWeight(weights: seq<u32>, n: nat): nat
    requires n <= |weights|
  {
    if n <= 1 then 0 else TotalWeight(weights, n - 1) + weights[n - 1]
  }

  // ---------------------------------------------------------------- between prior and median

  lemma DivBetween(sum: nat, low: nat, high: nat, d: nat)
    requires d > 0 && low * d <= sum <= high * d
    ensures low <= Quotient(sum, d) <= high
  {
    var q := sum / d;
    assert q * d <= sum < (q + 1) * d by {
      assert sum == d * q + sum % d;
      assert (q + 1) * d == q * d + d;
    }
    assert (high + 1) * d == high * d + d;
    if q < low {
      TimesMonotone(q + 1, low, d);
    }
    if q > high {
      TimesMonotone(high + 1, q, d);
    }
  }

  lemma TimesMonotone(a: nat, b: nat, d: nat)
    requires a <= b
    ensures Times(a, d) <= Times(b, d)
  {
  }

  lemma MixBetween(p: nat, m: nat, alpha: nat)
    requires alpha <= BASIS_POINTS && p <= m
    ensures p * BASIS_POINTS <= Mix(p, BASIS_POINTS - alpha, m, alpha) <= m * BASIS_POINTS
    ensures p * BASIS_POINTS <= Mix(m, BASIS_POINTS - alpha, p, alpha) <= m * BASIS_POINTS
  {
    var rest := BASIS_POINTS - alpha;
    assert p * BASIS_POINTS == p * rest + p * alpha;
    assert m * BASIS_POINTS == m * rest + m * alpha;
    TimesMonotone(p, m, alpha);
    TimesMonotone(p, m, rest);
  }

  /** Smoothing stays between the prior price and the current median. */
  lemma BlendBetween(prior: u64, current: nat, alpha: nat)
    requires alpha <= BASIS_POINTS
    ensures prior == 0 ==> Blend(prior, current, alpha) == current
    ensures prior != 0 && prior <= current ==> prior <= Blend(prior, current, alpha) <= current
    ensures prior != 0 && current <= prior ==> current <= Blend(prior, current, alpha) <= prior
  {
    hide Mix;
    if 0 < alpha < BASIS_POINTS && prior != 0 {
      var sum := Mix(prior, BASIS_POINTS - alpha, current, alpha);
      if prior <= current {
        MixBetween(prior, current, alpha);
        DivBetween(sum, prior, current, BASIS_POINTS);
      } else {
        MixBetween(current, prior, alpha);
        DivBetween(sum, current, prior, BASIS_POINTS);
      }
    }
  }

  /** With a prior price the smoothed one is the floor of alpha parts of the median and the rest of the prior. */
  lemma BlendFloors(prior: u64, current: nat, alpha: nat)
    requires alpha <= BASIS_POINTS && prior != 0
    ensures var b, mixed := Blend(prior, current, alpha), prior * (BASIS_POINTS - alpha) + current * alpha;
            b * BASIS_POINTS <= mixed < (b + 1) * BASIS_POINTS
  {
    if 0 < alpha < BASIS_POINTS {
      FloorBounds(Mix(prior, BASIS_POINTS - alpha, current, alpha), BASIS_POINTS);
    }
  }

  lemma PricesOrder(s: seq<u64>)
    ensures TotalOn(s, Cheaper) && Sorted(Sort(s, Cheaper), Cheaper) && |Sort(s, Cheaper)| == |s|
  {
    SortSorted(s, Cheaper);
    SameElements(Sort(s, Cheaper), s);
  }

  lemma MedianWithin(sorted: seq<u64>)
    requires sorted != [] && Sorted(sorted, Cheaper)
    ensures sorted[0] <= Median(sorted) <= sorted[|sorted| - 1]
  {
    var middle := |sorted| / 2;
    if 0 < middle {
      assert !Cheaper(sorted[middle], sorted[0]);
      if middle < |sorted| - 1 {
        assert !Cheaper(sorted[|sorted| - 1], sorted[middle]);
      }
      if middle - 1 > 0 {
        assert !Cheaper(sorted[middle - 1], sorted[0]);
      }
      assert !Cheaper(sorted[middle], sorted[middle - 1]);
    }
  }

  /** The lower half of the samples is at most the median and the upper half at least. */
  lemma MedianSplits(sorted: seq<u64>, i: nat)
    requires i < |sorted| && Sorted(sorted, Cheaper)
    ensures 2 * i < |sorted| ==> sorted[i] <= Median(sorted)
    ensures 2 * i >= |sorted| - 1 ==> Median(sorted) <= sorted[i]
  {
    var middle := |sorted| / 2;
    assert i < middle ==> !Cheaper(sorted[middle], sorted[i]);
    assert middle < i ==> !Cheaper(sorted[i], sorted[middle]);
    if |sorted| % 2 == 0 {
      assert !Cheaper(sorted[middle], sorted[middle - 1]);
      assert i < middle - 1 ==> !Cheaper(sorted[middle - 1], sorted[i]);
      assert middle - 1 < i ==> !Cheaper(sorted[i], sorted[middle - 1]);
    }
  }

  /** The median of a class fits in 64 bits and lies between its cheapest and dearest sample. */
  lemma ClassMedianFits(x: Input, c: nat)
    requires Ready(x) && PricesOf(x.obs, c) != []
    ensures ClassMedian(x, c) <= MAX_U64
  {
    hide PricesOf, Sort, Median;
    PricesOrder(PricesOf(x.obs, c));
    MedianWithin(Sort(PricesOf(x.obs, c), Cheaper));
  }

  function ClassPrice(x: Input, c: nat): Option<u64>
    requires Ready(x) && c < CLASSES
  {
    if Active(x.cfg, |PricesOf(x.obs, c)|, c) then
      ActiveSamples(x, c);
      ClassMedianFits(x, c);
      BlendBetween(x.prior.classPrices[c], ClassMedian(x, c), x.cfg.alpha);
      Some(Blend(x.prior.classPrices[c], ClassMedian(x, c), x.cfg.alpha))
    else None
  }

  /** Weight and weighted price of the active classes below n. */
  function ActiveWeight(x: Input, n: nat): nat
    requires Ready(x) && n <= CLASSES
  {
    if n <= 1 then 0
    else ActiveWeight(x, n - 1) + (if ClassPrice(x, n - 1).Some? then x.cfg.weights[n - 1] else 0)
  }

  function WeightedPrice(x: Input, n: nat): nat
    requires Ready(x) && n <= CLASSES
  {
    if n <= 1 then 0
    else
      var price := ClassPrice(x, n - 1);
      WeightedPrice(x, n - 1) + (if price.Some? then Times(price.value, x.cfg.weights[n - 1]) else 0)
  }

  /** Every active class price lies between its prior and its median, or is the median without a prior;
      so smoothing never overflows. */
  lemma ClassPriceBetween(x: Input, c: nat)
    requires Ready(x) && c < CLASSES && ClassPrice(x, c).Some?
    ensures PricesOf(x.obs, c) != []
    ensures var prior, median, price := x.prior.classPrices[c], ClassMedian(x, c), ClassPrice(x, c).value;
            && (prior == 0 ==> price == median)
            && (prior != 0 && prior <= median ==> prior <= price <= median)
            && (prior != 0 && median <= prior ==> median <= price <= prior)
  {
    hide PricesOf, ClassMedian, Blend;
    ActiveSamples(x, c);
    BlendBetween(x.prior.classPrices[c], ClassMedian(x, c), x.cfg.alpha);
    ClassMedianFits(x, c);
  }

  // ---------------------------------------------------------------- the basket

  ghost predicate BoundsActive(x: Input, low: nat, high: nat)
    requires Ready(x)
  {
    forall c :: 1 <= c < CLASSES && ClassPrice(x, c).Some? ==> low <= ClassPrice(x, c).value <= high
  }

  lemma OneMoreClass(low: nat, high: nat, weight: nat, sum: nat, price: nat, w: nat)
    requires low * weight <= sum <= high * weight && low <= price <= high
    ensures low * (weight + w) <= sum + Times(price, w) <= high * (weight + w)
  {
    TimesMonotone(low, price, w);
    TimesMonotone(price, high, w);
    assert low * (weight + w) == low * weight + low * w;
    assert high * (weight + w) == high * weight + high * w;
  }

  lemma {:induction false} WeightedBetween(x: Input, n: nat, low: nat, high: nat)
    requires Ready(x) && n <= CLASSES && BoundsActive(x, low, high)
    ensures low * ActiveWeight(x, n) <= WeightedPrice(x, n) <= high * ActiveWeight(x, n)
  {
    hide ClassPrice;
    if n > 1 {
      WeightedBetween(x, n - 1, low, high);
      var price := ClassPrice(x, n - 1);
      if price.Some? {
        OneMoreClass(low, high, ActiveWeight(x, n - 1), WeightedPrice(x, n - 1), price.value, x.cfg.weights[n - 1]);
      }
    }
  }

  /** The basket lies between any bounds on the active class prices: its smallest and its largest price. */
  lemma BasketBetween(x: Input, low: nat, high: nat)
    requires Ready(x) && BoundsActive(x, low, high) && ActiveWeight(x, CLASSES) > 0
    ensures low <= Quotient(WeightedPrice(x, CLASSES), ActiveWeight(x, CLASSES)) <= high
  {
    hide ActiveWeight, WeightedPrice;
    WeightedBetween(x, CLASSES, low, high);
    DivBetween(WeightedPrice(x, CLASSES), low, high, ActiveWeight(x, CLASSES));
  }

  lemma BasketFits(x: Input)
    requires Ready(x) && ActiveWeight(x, CLASSES) > 0
    ensures Quotient(WeightedPrice(x, CLASSES), ActiveWeight(x, CLASSES)) <= MAX_U64
  {
    hide ActiveWeight, WeightedPrice, ClassPrice;
    forall c | 1 <= c < CLASSES && ClassPrice(x, c).Some? ensures 0 <= ClassPrice(x, c).value <= MAX_U64 {
      ClassPriceBetween(x, c);
    }
    BasketBetween(x, 0, MAX_U64);
  }

  lemma {:induction false} ActiveWithinTotal(x: Input, n: nat)
    requires Ready(x) && n <= CLASSES
    ensures ActiveWeight(x, n) <= TotalWeight(x.cfg.weights, n) <= n * U32_LIMIT
  {
    hide ClassPrice;
    if n > 1 {
      ActiveWithinTotal(x, n - 1);
    }
  }

  /** The coverage ratio never exceeds one, so its clamp never acts. */
  lemma CoverageFits(x: Input)
    requires Ready(x) && TotalWeight(x.cfg.weights, CLASSES) > 0
    ensures Quotient(ActiveWeight(x, CLASSES) * BASIS_POINTS, TotalWeight(x.cfg.weights, CLASSES)) <= BASIS_POINTS
    ensures ActiveWeight(x, CLASSES) * BASIS_POINTS <= MAX_U64
  {
    hide ActiveWeight, TotalWeight;
    ActiveWithinTotal(x, CLASSES);
    var a, t := ActiveWeight(x, CLASSES), TotalWeight(x.cfg.weights, CLASSES);
    TimesMonotone(a, t, BASIS_POINTS);
    DivBetween(a * BASIS_POINTS, 0, BASIS_POINTS, t);
  }

  // ---------------------------------------------------------------- the index

  function PriceColumn(x: Input): (r: seq<u64>)
    requires Ready(x)
    ensures |r| == CLASSES
  {
    seq(CLASSES, c requires 0 <= c < CLASSES =>
      if c >= 1 && ClassPrice(x, c).Some? then ClassPrice(x, c).value else 0)
  }

  function SampleColumn(x: Input): (r: seq<nat>)
    requires Ready(x)
    ensures |r| == CLASSES
  {
    seq(CLASSES, c requires 0 <= c < CLASSES => if c >= 1 then |PricesOf(x.obs, c)| else 0)
  }

  function TotalSamples(x: Input, n: nat): nat
    requires Ready(x) && n <= CLASSES
  {
    if n <= 1 then 0 else TotalSamples(x, n - 1) + |PricesOf(x.obs, n - 1)|
  }

  function Index(epoch: u64, x: Input): Fallible<Snapshot, IndexError>
    requires Shaped(x)
  {
    if !ValidConfig(epoch, x.cfg) || TotalWeight(x.cfg.weights, CLASSES) == 0 || !AllUsable(x.obs) then Err(InvalidIndex)
    else
      var weight := ActiveWeight(x, CLASSES);
      if weight == 0 then
        Ok(Snapshot(epoch, PriceColumn(x), SampleColumn(x), 0, 0, false, TotalSamples(x, CLASSES)))
      else
        BasketFits(x);
        var coverage := Quotient(weight * BASIS_POINTS, TotalWeight(x.cfg.weights, CLASSES));
        Ok(Snapshot(epoch, PriceColumn(x), SampleColumn(x), Quotient(WeightedPrice(x, CLASSES), weight), coverage,
                    coverage >= x.cfg.minCoverage, TotalSamples(x, CLASSES)))
  }

  /** The published basket lies between the published prices of the active classes, and coverage is a ratio. */
  lemma IndexBounds(epoch: u64, x: Input, low: nat, high: nat)
    requires Shaped(x) && Index(epoch, x).Ok? && Ready(x)
    requires forall c :: 1 <= c < CLASSES && ClassPrice(x, c).Some? ==>
               low <= Index(epoch, x).value.classPrices[c] <= high
    ensures ActiveWeight(x, CLASSES) > 0 ==> low <= Index(epoch, x).value.basket <= high
    ensures Index(epoch, x).value.coverage <= BASIS_POINTS
  {
    hide ClassPrice, ActiveWeight, WeightedPrice, TotalWeight, AllUsable;
    forall c | 1 <= c < CLASSES && ClassPrice(x, c).Some? ensures low <= ClassPrice(x, c).value <= high {
      assert Index(epoch, x).value.classPrices[c] == ClassPrice(x, c).value;
    }
    if ActiveWeight(x, CLASSES) > 0 {
      BasketBetween(x, low, high);
      CoverageFits(x);
    }
  }

  // ---------------------------------------------------------------- only the multiset matters

  /** One for every sample of class c priced v. */
  function Hits(c: nat, v: u64): VerifiedWork -> nat {
    (o: VerifiedWork) => if o.units != 0 && o.class_ == c && UnitPrice(o) == v then 1 else 0
  }

  lemma {:induction false} PricesCount(obs: seq<VerifiedWork>, c: nat, v: u64)
    requires AllUsable(obs)
    ensures multiset(PricesOf(obs, c))[v] == SumBy(obs, Hits(c, v))
  {
    if obs != [] {
      hide UnitPrice;
      var front, last := obs[..|obs| - 1], obs[|obs| - 1];
      PricesCount(front, c, v);
      assert Usable(last);
    }
  }

  lemma PricesPermuted(a: seq<VerifiedWork>, b: seq<VerifiedWork>, c: nat)
    requires AllUsable(a) && AllUsable(b) && multiset(a) == multiset(b)
    ensures multiset(PricesOf(a, c)) == multiset(PricesOf(b, c))
  {
    hide AllUsable, PricesOf;
    forall v: u64 ensures multiset(PricesOf(a, c))[v] == multiset(PricesOf(b, c))[v] {
      PricesCount(a, c, v);
      PricesCount(b, c, v);
      SumPermuted(a, b, Hits(c, v));
    }
  }

  lemma ClassPermuted(x: Input, y: Input, c: nat)
    requires Ready(x) && Ready(y) && c < CLASSES
    requires multiset(x.obs) == multiset(y.obs) && x.prior == y.prior && x.cfg == y.cfg
    ensures |PricesOf(x.obs, c)| == |PricesOf(y.obs, c)| && ClassPrice(x, c) == ClassPrice(y, c)
  {
    hide PricesOf, Usable;
    var p, q := PricesOf(x.obs, c), PricesOf(y.obs, c);
    PricesPermuted(x.obs, y.obs, c);
    SameElements(p, q);
    PricesOrder(p);
    SortCanonical(p, q, Cheaper);
  }

  lemma {:induction false} TotalsPermuted(x: Input, y: Input, n: nat)
    requires Ready(x) && Ready(y) && n <= CLASSES && x.cfg == y.cfg
    requires forall c :: 0 <= c < CLASSES ==> |PricesOf(x.obs, c)| == |PricesOf(y.obs, c)| && ClassPrice(x, c) == ClassPrice(y, c)
    ensures ActiveWeight(x, n) == ActiveWeight(y, n) && WeightedPrice(x, n) == WeightedPrice(y, n)
    ensures TotalSamples(x, n) == TotalSamples(y, n)
  {
    hide ClassPrice, PricesOf;
    if n > 1 {
      TotalsPermuted(x, y, n - 1);
    }
  }

  lemma UsablePermuted(a: seq<VerifiedWork>, b: seq<VerifiedWork>)
    requires multiset(a) == multiset(b) && AllUsable(a)
    ensures AllUsable(b)
  {
    SameElements(a, b);
    forall i | 0 <= i < |b| ensures Usable(b[i]) {
      assert b[i] in a;
    }
  }

  /** The index depends only on the multiset of observations. */
  lemma IndexIgnoresOrder(epoch: u64, x: Input, y: Input)
    requires Shaped(x) && Shaped(y) && multiset(x.obs) == multiset(y.obs) && x.prior == y.prior && x.cfg == y.cfg
    ensures Index(epoch, x) == Index(epoch, y)
  {
    hide AllUsable, ClassPrice, PricesOf, ActiveWeight, WeightedPrice, TotalSamples, TotalWeight;
    if AllUsable(x.obs) {
      UsablePermuted(x.obs, y.obs);
    }
    if AllUsable(y.obs) {
      UsablePermuted(y.obs, x.obs);
    }
    if ValidConfig(epoch, x.cfg) && AllUsable(x.obs) {
      forall c | 0 <= c < CLASSES ensures |PricesOf(x.obs, c)| == |PricesOf(y.obs, c)| && ClassPrice(x, c) == ClassPrice(y, c) {
        ClassPermuted(x, y, c);
      }
      TotalsPermuted(x, y, CLASSES);
      assert PriceColumn(x) == PriceColumn(y);
      assert SampleColumn(x) == SampleColumn(y);
    }
  }

  // ---------------------------------------------------------------- what is published

  /** For an even number of samples the median is the floor of the mean of the two middle ones. */
  lemma MedianOfTwo(sorted: seq<u64>)
    requires |sorted| > 0 && |sorted| % 2 == 0 && sorted[|sorted| / 2 - 1] <= sorted[|sorted| / 2]
    ensures var low: nat, high: nat := sorted[|sorted| / 2 - 1], sorted[|sorted| / 2];
            2 * Median(sorted) <= low + high < 2 * Median(sorted) + 2
  {
  }

  lemma {:induction false} WeightsPositive(weights: seq<u32>, n: nat)
    requires n <= |weights|
    ensures TotalWeight(weights, n) > 0 <==> exists c :: 1 <= c < n && weights[c] > 0
  {
    if n > 1 {
      WeightsPositive(weights, n - 1);
    }
  }

  /** An observation can be priced: a known class, work and payment, and a unit price of 64 bits. */
  ghost predicate Priceable(o: VerifiedWork) {
    1 <= o.class_ < CLASSES && o.units > 0 && o.paid > 0 && Times(o.paid, PRICE_SCALE) < Times(U64_LIMIT, o.units)
  }

  lemma PriceableIff(o: VerifiedWork)
    ensures Usable(o) <==> Priceable(o)
  {
    hide Times, Quotient;
    if o.units != 0 {
      FloorBounds(Times(o.paid, PRICE_SCALE), o.units);
    }
  }

  /** An index is built exactly for a sane configuration with some weight and priceable observations. */
  lemma IndexIff(epoch: u64, x: Input)
    requires Shaped(x)
    ensures Index(epoch, x).Ok? <==>
            && epoch != 0 && x.cfg.minSamples != 0 && x.cfg.minCoverage <= BASIS_POINTS && x.cfg.alpha <= BASIS_POINTS
            && (exists c :: 1 <= c < CLASSES && x.cfg.weights[c] > 0)
            && forall i :: 0 <= i < |x.obs| ==> Priceable(x.obs[i])
  {
    hide Usable, Priceable, TotalWeight, ActiveWeight, WeightedPrice, ClassPrice, PricesOf;
    WeightsPositive(x.cfg.weights, CLASSES);
    forall i | 0 <= i < |x.obs| ensures Usable(x.obs[i]) <==> Priceable(x.obs[i]) {
      PriceableIff(x.obs[i]);
    }
  }

  lemma {:induction false} SamplesSnoc(x: Input, n: nat)
    requires Ready(x) && x.obs != [] && n <= CLASSES
    ensures Ready(x.(obs := x.obs[..|x.obs| - 1]))
    ensures TotalSamples(x, n) ==
            TotalSamples(x.(obs := x.obs[..|x.obs| - 1]), n) + (if x.obs[|x.obs| - 1].class_ < n then 1 else 0)
  {
    hide UnitPrice;
    var last := x.obs[|x.obs| - 1];
    assert Usable(last);
    if n > 1 {
      SamplesSnoc(x, n - 1);
    }
  }

  /** Every observation is a sample of exactly one class. */
  lemma {:induction false} EverySampleCounts(x: Input)
    requires Ready(x)
    ensures TotalSamples(x, CLASSES) == |x.obs|
    decreases |x.obs|
  {
    if x.obs == [] {
      NoSamples(x, CLASSES);
    } else {
      SamplesSnoc(x, CLASSES);
      assert Usable(x.obs[|x.obs| - 1]);
      EverySampleCounts(x.(obs := x.obs[..|x.obs| - 1]));
    }
  }

  lemma {:induction false} NoSamples(x: Input, n: nat)
    requires Ready(x) && x.obs == [] && n <= CLASSES
    ensures TotalSamples(x, n) == 0
  {
    if n > 1 {
      NoSamples(x, n - 1);
    }
  }

  /** What an index publishes: per class its samples and, with enough of them and a weight, the smoothed median; the
      floor of the weighted mean of those prices; the floor of the covered share of the weight, and whether that
      share suffices. */
  lemma IndexMeans(epoch: u64, x: Input)
    requires Shaped(x) && Index(epoch, x).Ok?
    ensures Ready(x)
    ensures var r := Index(epoch, x).value;
            && r.epoch == epoch && r.totalSamples == |x.obs| && |r.classPrices| == |r.classSamples| == CLASSES
            && (forall c :: 1 <= c < CLASSES ==> r.classSamples[c] == |PricesOf(x.obs, c)|)
            && (forall c :: 1 <= c < CLASSES ==>
                  var samples := PricesOf(x.obs, c);
                  if |samples| % U32_LIMIT >= x.cfg.minSamples && x.cfg.weights[c] > 0 then
                    samples != [] && r.classPrices[c] == Blend(x.prior.classPrices[c], ClassMedian(x, c), x.cfg.alpha)
                  else r.classPrices[c] == 0)
    ensures var r, covered, all := Index(epoch, x).value, ActiveWeight(x, CLASSES), TotalWeight(x.cfg.weights, CLASSES);
            && (covered == 0 ==> r.basket == 0 && r.coverage == 0 && !r.reliable)
            && (covered > 0 ==>
                  && Times(r.basket, covered) <= WeightedPrice(x, CLASSES) < Times(r.basket + 1, covered)
                  && all > 0 && Times(r.coverage, all) <= Times(covered, BASIS_POINTS) < Times(r.coverage + 1, all)
                  && (r.reliable <==> r.coverage >= x.cfg.minCoverage))
  {
    hide Blend, PricesOf, ClassMedian, ActiveWeight, WeightedPrice, TotalWeight, AllUsable, TotalSamples;
    EverySampleCounts(x);
    forall c | 1 <= c < CLASSES && Active(x.cfg, |PricesOf(x.obs, c)|, c) ensures PricesOf(x.obs, c) != [] {
      ActiveSamples(x, c);
    }
    var covered := ActiveWeight(x, CLASSES);
    if covered > 0 {
      FloorBounds(WeightedPrice(x, CLASSES), covered);
      FloorBounds(covered * BASIS_POINTS, TotalWeight(x.cfg.weights, CLASSES));
    }
  }

  // ---------------------------------------------------------------- the loops

  /** How many divisors fit in the scaled value; None exactly when that is not a 64-bit number. */
  method ScaledRatio(value: u64, scale: nat, divisor: u64) returns (r: Option<u64>)
    ensures r.Some? <==> divisor != 0 && Times(value, scale) < Times(U64_LIMIT, divisor)
    ensures r.Some? ==> Times(r.value, divisor) <= Times(value, scale) < Times(r.value + 1, divisor)
  {
    if divisor == 0 {
      return None;
    }
    var ratio := Quotient(Times(value, scale), divisor);
    FloorBounds(Times(value, scale), divisor);
    return if ratio > MAX_U64 then None else Some(ratio);
  }

  /** A floor quotient stays below a bound exactly when the dividend stays below the bound's multiple. */
  lemma FloorBounds(n: nat, d: nat)
    requires d > 0
    ensures var q := Quotient(n, d); Times(q, d) <= n < Times(q + 1, d) && (q < U64_LIMIT <==> n < Times(U64_LIMIT, d))
  {
    var q := Quotient(n, d);
    assert n == q * d + n % d && (q + 1) * d == q * d + d;
    if q < U64_LIMIT {
      TimesMonotone(q + 1, U64_LIMIT, d);
    } else {
      TimesMonotone(U64_LIMIT, q, d);
    }
  }

  lemma FloorUnique(n: nat, d: nat, p: nat)
    requires d > 0 && Times(p, d) <= n < Times(p + 1, d)
    ensures p == Quotient(n, d)
  {
    hide Quotient;
    FloorBounds(n, d);
    var q := Quotient(n, d);
    if p < q {
      TimesMonotone(p + 1, q, d);
    } else if q < p {
      TimesMonotone(q + 1, p, d);
    }
  }

  /** For an observation the ratio is its unit price. */
  lemma RatioIsPrice(o: VerifiedWork, price: Option<u64>)
    requires o.units != 0
    requires price.Some? <==> Times(o.paid, PRICE_SCALE) < Times(U64_LIMIT, o.units)
    requires price.Some? ==> Times(price.value, o.units) <= Times(o.paid, PRICE_SCALE) < Times(price.value + 1, o.units)
    ensures price.Some? <==> UnitPrice(o) <= MAX_U64
    ensures price.Some? ==> price.value == UnitPrice(o)
  {
    hide Times, Quotient;
    FloorBounds(Times(o.paid, PRICE_SCALE), o.units);
    if price.Some? {
      FloorUnique(Times(o.paid, PRICE_SCALE), o.units, price.value);
    }
  }

  /** The overflow check of smoothing never fires. */
  method Ewma(prior: u64, current: u64, alpha: u32) returns (r: Option<u64>)
    requires alpha <= BASIS_POINTS
    ensures r.Some? && r.value == Blend(prior, current, alpha)
  {
    if prior == 0 || alpha == BASIS_POINTS {
      return Some(current);
    }
    if alpha == 0 {
      return Some(prior);
    }
    BlendBetween(prior, current, alpha);
    hide Mix;
    var left := Quotient(Mix(prior, BASIS_POINTS - alpha, current, alpha), BASIS_POINTS);
    if left > MAX_U64 {
      return None;
    }
    return Some(left);
  }

  /** The samples of every class, in observation order; None when an observation cannot be priced. */
  method CollectPrices(obs: seq<VerifiedWork>) returns (r: Option<seq<seq<u64>>>)
    ensures r.Some? <==> AllUsable(obs)
    ensures r.Some? ==> |r.value| == CLASSES && forall c :: 0 <= c < CLASSES ==> r.value[c] == PricesOf(obs, c)
  {
    hide PricesOf, UnitPrice, Times;
    var prices: seq<seq<u64>> := seq(CLASSES, c => []);
    var i := 0;
    NoPrices(obs);
    while i < |obs|
      invariant 0 <= i <= |obs| && AllUsable(obs[..i]) && |prices| == CLASSES
      invariant forall c :: 0 <= c < CLASSES ==> prices[c] == PricesOf(obs[..i], c)
    {
      var o := obs[i];
      if o.class_ <= 0 || o.class_ >= CLASSES || o.units == 0 || o.paid == 0 {
        assert !Usable(obs[i]);
        return None;
      }
      var price := ScaledRatio(o.paid, PRICE_SCALE, o.units);
      RatioIsPrice(o, price);
      if price.None? {
        assert !Usable(obs[i]);
        return None;
      }
      assert Usable(o);
      ghost var before := prices;
      prices := prices[o.class_ := prices[o.class_] + [price.value]];
      forall c | 0 <= c < CLASSES ensures prices[c] == PricesOf(obs[..i + 1], c) {
        PricesNext(obs, i, c);
      }
      UsableNext(obs, i);
      i := i + 1;
    }
    assert obs[..i] == obs;
    return Some(prices);
  }

  lemma NoPrices(obs: seq<VerifiedWork>)
    ensures AllUsable(obs[..0]) && forall c :: PricesOf(obs[..0], c) == []
  {
  }

  lemma UsableNext(obs: seq<VerifiedWork>, i: nat)
    requires i < |obs| && AllUsable(obs[..i]) && Usable(obs[i])
    ensures AllUsable(obs[..i + 1])
  {
    hide Usable;
    var all := obs[..i + 1];
    forall k | 0 <= k < |all| ensures Usable(all[k]) {
      if k < i {
        assert all[k] == obs[..i][k];
      }
    }
  }

  lemma PricesNext(obs: seq<VerifiedWork>, i: nat, c: nat)
    requires i < |obs| && AllUsable(obs[..i]) && Usable(obs[i])
    ensures AllUsable(obs[..i + 1])
    ensures PricesOf(obs[..i + 1], c) == PricesOf(obs[..i], c) + (if obs[i].class_ == c then [UnitPrice(obs[i])] else [])
  {
    UsableNext(obs, i);
    assert obs[..i + 1][..i] == obs[..i];
  }

  method SumWeights(weights: seq<u32>) returns (total: nat)
    requires |weights| == CLASSES
    ensures total == TotalWeight(weights, CLASSES)
  {
    total := 0;
    var c := 1;
    while c < CLASSES
      invariant 1 <= c <= CLASSES && total == TotalWeight(weights, c)
    {
      total := total + weights[c];
      c := c + 1;
    }
  }

  /** One class of the index: its smoothed price when it is active. */
  method PriceClass(x: Input, samples: seq<u64>, c: nat) returns (price: Option<u64>)
    requires Ready(x) && c < CLASSES && samples == PricesOf(x.obs, c)
    ensures price == ClassPrice(x, c)
  {
    hide PricesOf, Blend;
    if |samples| % U32_LIMIT < x.cfg.minSamples || x.cfg.weights[c] == 0 {
      return None;
    }
    ActiveSamples(x, c);
    var sorted := Sort(samples, Cheaper);
    PricesOrder(samples);
    ClassMedianFits(x, c);
    var median := Median(sorted);
    var current := Ewma(x.prior.classPrices[c], median, x.cfg.alpha);
    return current;
  }

  method BuildComputeIndex(epoch: u64, x: Input) returns (r: Fallible<Snapshot, IndexError>)
    requires Shaped(x)
    ensures r == Index(epoch, x)
  {
    hide AllUsable, ClassPrice, PricesOf, TotalWeight;
    if epoch == 0 || x.cfg.minSamples == 0 || x.cfg.minCoverage > BASIS_POINTS || x.cfg.alpha > BASIS_POINTS {
      return Err(InvalidIndex);
    }
    var totalWeight := SumWeights(x.cfg.weights);
    if totalWeight == 0 {
      return Err(InvalidIndex);
    }
    var table := CollectPrices(x.obs);
    if table.None? {
      return Err(InvalidIndex);
    }
    var prices, samples, total, weight, basket := PriceClasses(x, table.value);
    if weight == 0 {
      return Ok(Snapshot(epoch, prices, samples, 0, 0, false, total));
    }
    hide ActiveWeight, WeightedPrice;
    BasketFits(x);
    CoverageFits(x);
    var average := Quotient(basket, weight);
    if average > MAX_U64 {
      return Err(InvalidIndex);
    }
    var coverage := Quotient(weight * BASIS_POINTS, totalWeight);
    if coverage > BASIS_POINTS {
      coverage := BASIS_POINTS;
    }
    return Ok(Snapshot(epoch, prices, samples, average, coverage, coverage >= x.cfg.minCoverage, total));
  }

  method PriceClasses(x: Input, table: seq<seq<u64>>)
    returns (prices: seq<u64>, samples: seq<nat>, total: nat, weight: nat, basket: nat)
    requires Ready(x) && |table| == CLASSES && forall c :: 0 <= c < CLASSES ==> table[c] == PricesOf(x.obs, c)
    ensures prices == PriceColumn(x) && samples == SampleColumn(x) && total == TotalSamples(x, CLASSES)
    ensures weight == ActiveWeight(x, CLASSES) && basket == WeightedPrice(x, CLASSES)
  {
    hide ClassPrice, PricesOf;
    prices, samples, total, weight, basket := [0], [0], 0, 0, 0;
    var c := 1;
    while c < CLASSES
      invariant 1 <= c <= CLASSES && |prices| == |samples| == c
      invariant forall k :: 0 <= k < c ==> prices[k] == PriceColumn(x)[k] && samples[k] == SampleColumn(x)[k]
      invariant total == TotalSamples(x, c) && weight == ActiveWeight(x, c) && basket == WeightedPrice(x, c)
    {
      var price := PriceClass(x, table[c], c);
      samples := samples + [|table[c]|];
      total := total + |table[c]|;
      if price.Some? {
        prices := prices + [price.value];
        weight := weight + x.cfg.weights[c];
        basket := basket + Times(price.value, x.cfg.weights[c]);
      } else {
        prices := prices + [0];
      }
      c := c + 1;
    }
  }
}
