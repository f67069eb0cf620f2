/** Two independent reconstructions of what a settled job was paid, and the capital a job locks
    (internal/v2/compute/work.go, settled_work.go, internal/v2/economics/compute_capital_components.go). */
module ComputeWork {
  import opened Prelude
  import opened Sorting
  import opened Compute
  import opened ComputeSafety

  datatype WorkVector = WorkVector(
    cpu: u64, gpuFp32: u64, gpuFp64: u64, tensor: u64, memory: u64, vram: u64, storage: u64, network: u64)

  datatype WorkSpec = WorkSpec(
    version: nat, class_: nat, units: u64, workload: Bytes32, benchmark: Bytes32, vector: WorkVector)

  datatype VerifiedWork = VerifiedWork(
    jobId: Bytes32, class_: nat, units: u64, vector: WorkVector, paid: u64, verification: Mode, resultRoot: Bytes32)

  type Registry = map<Bytes32, WorkSpec>

  const WORK_SPEC_VERSION: nat := 1
  const WORK_CLASS_COUNT: nat := 12
  const NO_WORK: WorkVector := WorkVector(0, 0, 0, 0, 0, 0, 0, 0)

  predicate ValidSpec(s: WorkSpec) {
    && s.version == WORK_SPEC_VERSION && 0 < s.class_ < WORK_CLASS_COUNT && s.units != 0
    && s.workload != ZERO32 && s.benchmark != ZERO32 && s.vector != NO_WORK
  }

  predicate Approved(registry: Registry, workload: Bytes32) {
    workload in registry && ValidSpec(registry[workload])
  }

  function Work(r: OnChainJob, s: WorkSpec, paid: u64, root: Bytes32): VerifiedWork {
    VerifiedWork(r.id, s.class_, s.units, s.vector, paid, r.job.verification, root)
  }

  // ---------------------------------------------------------------- from the settlement

  ghost function ObserveVerified(r: OnChainJob, s: Settlement, registry: Registry): Outcome<VerifiedWork> {
    if r.status != Settled || s.jobId != r.id || s.resultRoot == ZERO32 || !Approved(registry, r.job.workload)
       || Sum(s.payments) > MAX_U64 || Sum(s.payments) == 0
    then Err(InvalidSettlement)
    else Ok(Work(r, registry[r.job.workload], Sum(s.payments), s.resultRoot))
  }

  /** The checked sum of a payment table, visited in any order. */
  method SumPayments(payments: map<Account, u64>) returns (total: Option<u64>)
    ensures total.None? <==> Sum(payments) > MAX_U64
    ensures total.Some? ==> total.value == Sum(payments)
  {
    ghost var m := Naturals(payments);
    var sum: u64 := 0;
    var left := payments.Keys;
    assert m.Keys == payments.Keys;
    while left != {}
      invariant left <= payments.Keys == m.Keys
      invariant sum + SumOver(m, left) == MapSum(m) == Sum(payments)
    {
      var p :| p in left;
      SumOverTake(m, left, p);
      if MAX_U64 - sum < payments[p] {
        return None;
      }
      sum := sum + payments[p];
      left := left - {p};
    }
    return Some(sum);
  }

  method ObserveVerifiedWork(r: OnChainJob, s: Settlement, registry: Registry) returns (out: Outcome<VerifiedWork>)
    ensures out == ObserveVerified(r, s, registry)
  {
    if r.status != Settled || s.jobId != r.id || s.resultRoot == ZERO32 {
      return Err(InvalidSettlement);
    }
    if !Approved(registry, r.job.workload) {
      return Err(InvalidSettlement);
    }
    var paid := SumPayments(s.payments);
    if paid.None? || paid.value == 0 {
      return Err(InvalidSettlement);
    }
    return Ok(Work(r, registry[r.job.workload], paid.value, s.resultRoot));
  }

  // ---------------------------------------------------------------- from the record alone

  /** The root a settled record must have been settled on. */
  function AcceptedRoot(r: OnChainJob): Option<Bytes32> {
    if r.job.verification == REPLICATED then MajorityRoot(r.results)
    else if Unanimous(r.results) then Some(r.results[0].resultRoot)
    else None
  }

  /** The assignments a record settled on `root` pays. */
  function PaidAssignments(r: OnChainJob, root: Bytes32): seq<Assignment> {
    if r.job.verification == REPLICATED then OnRoot(r.assignments, r.results, root, true) else r.assignments
  }

  ghost predicate ProperResults(r: OnChainJob) {
    && DistinctReporters(r.results)
    && forall i :: 0 <= i < |r.results| ==> ValidResult(r.results[i]) && r.results[i].jobId == r.id
  }

  ghost predicate ProperAssignments(r: OnChainJob) {
    && DistinctProviders(r.assignments)
    && forall i :: 0 <= i < |r.assignments| ==> r.assignments[i].price != 0 && Reported(r.results, r.assignments[i].provider)
  }

  ghost function ObserveSettled(r: OnChainJob, registry: Registry): Outcome<VerifiedWork> {
    if r.status != Settled || r.assignments == [] || r.results == [] || !Approved(registry, r.job.workload)
       || !ProperResults(r) || AcceptedRoot(r).None? || !ProperAssignments(r)
    then Err(InvalidSettlement)
    else
      var root := AcceptedRoot(r).value;
      var paid := TotalPrice(PaidAssignments(r, root));
      if paid == 0 || paid > r.escrow then Err(InvalidSettlement)
      else Ok(Work(r, registry[r.job.workload], paid, root))
  }

  method CheckResults(r: OnChainJob) returns (ok: bool, roots: map<Account, Bytes32>)
    ensures ok <==> ProperResults(r)
    ensures ok ==> forall p :: p in roots <==> Reported(r.results, p)
    ensures ok ==> forall p :: p in roots ==> roots[p] == RootOf(r.results, p)
  {
    hide ValidResult;
    roots := map[];
    var i := 0;
    while i < |r.results|
      invariant 0 <= i <= |r.results|
      invariant DistinctReporters(r.results[..i])
      invariant forall k :: 0 <= k < i ==> ValidResult(r.results[k]) && r.results[k].jobId == r.id
      invariant forall p :: p in roots <==> Reported(r.results[..i], p)
      invariant forall p :: p in roots ==> roots[p] == RootOf(r.results[..i], p)
    {
      var res := r.results[i];
      ReportedSnoc(r.results, i);
      if !ValidResult(res) || res.jobId != r.id {
        return false, roots;
      }
      if res.provider in roots {
        RepeatedReporter(r.results, i);
        return false, roots;
      }
      roots := roots[res.provider := res.resultRoot];
      i := i + 1;
    }
    assert r.results[..i] == r.results;
    return true, roots;
  }

  lemma ReportedSnoc(rs: seq<WorkResult>, i: nat)
    requires i < |rs|
    ensures forall p :: Reported(rs[..i + 1], p) <==> Reported(rs[..i], p) || p == rs[i].provider
    ensures forall p :: RootOf(rs[..i + 1], p) == if p == rs[i].provider then rs[i].resultRoot else RootOf(rs[..i], p)
    ensures DistinctReporters(rs[..i]) && !Reported(rs[..i], rs[i].provider) ==> DistinctReporters(rs[..i + 1])
  {
    var front, all := rs[..i], rs[..i + 1];
    assert all[..i] == front && all[i] == rs[i];
    assert forall k :: 0 <= k < i ==> all[k] == front[k];
    forall p | Reported(front, p) || p == rs[i].provider ensures Reported(all, p) {
      if p == rs[i].provider {
        assert all[i].provider == p;
      } else {
        var k :| 0 <= k < i && front[k].provider == p;
        assert all[k].provider == p;
      }
    }
    forall p | Reported(all, p) && p != rs[i].provider ensures Reported(front, p) {
      var k :| 0 <= k < |all| && all[k].provider == p;
      assert front[k].provider == p;
    }
    forall p ensures RootOf(all, p) == if p == rs[i].provider then rs[i].resultRoot else RootOf(front, p) {
      assert all[|all| - 1] == rs[i] && all[..|all| - 1] == front;
    }
  }

  lemma RepeatedReporter(rs: seq<WorkResult>, i: nat)
    requires i < |rs| && Reported(rs[..i], rs[i].provider)
    ensures !DistinctReporters(rs)
  {
    var k :| 0 <= k < i && rs[..i][k].provider == rs[i].provider;
    assert rs[k].provider == rs[i].provider;
  }

  /** The accepted root: any counting order finds it, or none. */
  method FindAcceptedRoot(r: OnChainJob) returns (root: Option<Bytes32>)
    requires r.results != [] && ProperResults(r)
    ensures root == AcceptedRoot(r)
  {
    hide CountRoot, MajorityRoot, Unanimous, ValidResult;
    var leader, count := Leading(r.results);
    CountedRootReported(r.results, leader);
    if leader == ZERO32 {
      LeaderNonzero(r, leader);
      return None;
    }
    UnanimousIff(r.results, leader, count);
    if r.job.verification == REPLICATED {
      return if 2 * count <= |r.results| then None else Some(leader);
    }
    return if count != |r.results| then None else Some(leader);
  }

  lemma LeaderNonzero(r: OnChainJob, root: Bytes32)
    requires ProperResults(r) && CountRoot(r.results, root) > 0
    ensures root != ZERO32
  {
    CountedRootReported(r.results, root);
    var i :| 0 <= i < |r.results| && r.results[i].resultRoot == root;
    assert ValidResult(r.results[i]);
  }

  lemma {:induction false} CountAll(rs: seq<WorkResult>, root: Bytes32)
    ensures CountRoot(rs, root) <= |rs|
    ensures CountRoot(rs, root) == |rs| <==> forall i :: 0 <= i < |rs| ==> rs[i].resultRoot == root
  {
    if rs != [] {
      var front := rs[..|rs| - 1];
      CountAll(front, root);
      assert forall i :: 0 <= i < |front| ==> front[i] == rs[i];
    }
  }

  lemma UnanimousIff(rs: seq<WorkResult>, leader: Bytes32, count: nat)
    requires rs != [] && count == CountRoot(rs, leader) && forall other :: CountRoot(rs, other) <= count
    ensures Unanimous(rs) <==> count == |rs|
    ensures Unanimous(rs) ==> rs[0].resultRoot == leader
  {
    hide CountRoot;
    CountAll(rs, leader);
    CountAll(rs, rs[0].resultRoot);
  }

  method CheckAssignments(r: OnChainJob, roots: map<Account, Bytes32>, root: Bytes32) returns (paid: Option<u64>)
    requires forall p :: p in roots <==> Reported(r.results, p)
    requires forall p :: p in roots ==> roots[p] == RootOf(r.results, p)
    ensures paid.Some? <==> ProperAssignments(r) && TotalPrice(PaidAssignments(r, root)) <= MAX_U64
    ensures paid.Some? ==> paid.value == TotalPrice(PaidAssignments(r, root))
  {
    hide TotalPrice, OnRoot, RootOf, Reported;
    var sum: u64 := 0;
    var seen: set<Account> := {};
    var xs := r.assignments;
    PaidNone(r, root);
    var i := 0;
    while i < |xs|
      invariant 0 <= i <= |xs|
      invariant DistinctProviders(xs[..i])
      invariant seen == set k | 0 <= k < i :: xs[k].provider
      invariant forall k :: 0 <= k < i ==> xs[k].price != 0 && Reported(r.results, xs[k].provider)
      invariant sum == TotalPrice(PaidAssignments(r.(assignments := xs[..i]), root))
    {
      PaidSnoc(r, root, i);
      if xs[i].provider in seen || xs[i].price == 0 {
        return None;
      }
      seen := seen + {xs[i].provider};
      if xs[i].provider !in roots {
        return None;
      }
      if r.job.verification != REPLICATED || roots[xs[i].provider] == root {
        if MAX_U64 - sum < xs[i].price {
          return None;
        }
        sum := sum + xs[i].price;
      }
      i := i + 1;
    }
    assert xs[..i] == xs && r.(assignments := xs) == r;
    return Some(sum);
  }

  lemma PaidNone(r: OnChainJob, root: Bytes32)
    ensures TotalPrice(PaidAssignments(r.(assignments := r.assignments[..0]), root)) == 0
  {
  }

  /** Paying one more assignment, and that the whole list pays at least as much. */
  lemma PaidSnoc(r: OnChainJob, root: Bytes32, i: nat)
    requires i < |r.assignments|
    ensures var before, after := r.(assignments := r.assignments[..i]), r.(assignments := r.assignments[..i + 1]);
            && TotalPrice(PaidAssignments(after, root)) <= TotalPrice(PaidAssignments(r, root))
            && TotalPrice(PaidAssignments(after, root)) == TotalPrice(PaidAssignments(before, root))
               + (if r.job.verification != REPLICATED || RootOf(r.results, r.assignments[i].provider) == root
                  then r.assignments[i].price else 0)
  {
    hide RootOf;
    var xs := r.assignments;
    OnRootSnoc(xs, r.results, root, true, i);
    SharesGrow(xs, r.results, root, i + 1);
    PriceGrows(xs, i + 1);
    assert xs[..i + 1] == xs[..i] + [xs[i]];
    TotalPriceSnoc(xs[..i], xs[i], 0);
    TotalPriceSnoc(OnRoot(xs[..i], r.results, root, true), xs[i], 0);
    assert OnRoot(xs[..i], r.results, root, true) + [] == OnRoot(xs[..i], r.results, root, true);
  }

  method ObserveSettledRecord(r: OnChainJob, registry: Registry) returns (out: Outcome<VerifiedWork>)
    ensures out == ObserveSettled(r, registry)
  {
    hide ProperResults, ProperAssignments, AcceptedRoot, PaidAssignments, TotalPrice, RootOf, Reported, ValidSpec;
    if r.status != Settled || |r.assignments| == 0 || |r.results| == 0 {
      return Err(InvalidSettlement);
    }
    if !Approved(registry, r.job.workload) {
      return Err(InvalidSettlement);
    }
    var ok, roots := CheckResults(r);
    if !ok {
      return Err(InvalidSettlement);
    }
    var root := FindAcceptedRoot(r);
    if root.None? {
      return Err(InvalidSettlement);
    }
    var paid := CheckAssignments(r, roots, root.value);
    if paid.None? || paid.value == 0 || paid.value > r.escrow {
      return Err(InvalidSettlement);
    }
    return Ok(Work(r, registry[r.job.workload], paid.value, root.value));
  }

  // ---------------------------------------------------------------- what is observed at all

  /** The registry holds a complete specification for the workload. */
  ghost predicate Specified(registry: Registry, workload: Bytes32) {
    && workload in registry
    && (var s := registry[workload];
        && s.version == 1 && 1 <= s.class_ <= 11 && s.units > 0 && s.workload != ZERO32 && s.benchmark != ZERO32
        && s.vector != WorkVector(0, 0, 0, 0, 0, 0, 0, 0))
  }

  /** Work is read off a settlement exactly for a settled job, its own settlement on a root, a specified workload, and
      payments of a positive 64-bit sum; it reports the specification, that sum and that root. */
  lemma ObserveVerifiedIff(r: OnChainJob, s: Settlement, registry: Registry)
    ensures ObserveVerified(r, s, registry).Ok? <==>
            && r.status == Settled && s.jobId == r.id && s.resultRoot != ZERO32 && Specified(registry, r.job.workload)
            && 0 < Sum(s.payments) <= MAX_U64
    ensures ObserveVerified(r, s, registry).Ok? ==>
              var w, spec := ObserveVerified(r, s, registry).value, registry[r.job.workload];
              && w.jobId == r.id && w.class_ == spec.class_ && w.units == spec.units && w.vector == spec.vector
              && w.paid == Sum(s.payments) && w.verification == r.job.verification && w.resultRoot == s.resultRoot
  {
    hide Sum;
  }

  /** Work is read off a record alone exactly for a settled job of a specified workload whose results are well-formed, of
      this job and of distinct providers, whose assignments are priced, of distinct providers that all reported, and on
      which one root won: by strict majority for replicated jobs, by unanimity otherwise; what its reporters were
      promised must be positive and in escrow. */
  lemma ObserveSettledIff(r: OnChainJob, registry: Registry)
    ensures ObserveSettled(r, registry).Ok? <==>
            && r.status == Settled && r.assignments != [] && r.results != [] && Specified(registry, r.job.workload)
            && (forall i :: 0 <= i < |r.results| ==> ValidResult(r.results[i]) && r.results[i].jobId == r.id)
            && (forall i, j :: 0 <= i < j < |r.results| ==> r.results[i].provider != r.results[j].provider)
            && (forall i :: 0 <= i < |r.assignments| ==>
                  r.assignments[i].price > 0 && Reported(r.results, r.assignments[i].provider))
            && (forall i, j :: 0 <= i < j < |r.assignments| ==> r.assignments[i].provider != r.assignments[j].provider)
            && exists root :: Won(r, root)
                              && 0 < TotalPrice(PaidAssignments(r, root)) <= r.escrow
    ensures ObserveSettled(r, registry).Ok? ==>
              var w, spec := ObserveSettled(r, registry).value, registry[r.job.workload];
              && w.jobId == r.id && w.class_ == spec.class_ && w.units == spec.units && w.vector == spec.vector
              && Won(r, w.resultRoot) && w.paid == TotalPrice(PaidAssignments(r, w.resultRoot))
              && w.verification == r.job.verification
  {
    hide TotalPrice, PaidAssignments, ValidResult, Reported, MajorityRoot, StrictMajority;
    forall root ensures AcceptedRoot(r) == Some(root) <==> Won(r, root) {
      MajorityIff(r.results, root);
    }
  }

  ghost predicate Won(r: OnChainJob, root: Bytes32) {
    if r.job.verification == REPLICATED then StrictMajority(r.results, root)
    else r.results != [] && forall i :: 0 <= i < |r.results| ==> r.results[i].resultRoot == root
  }

  // ---------------------------------------------------------------- the two agree

  lemma PositivePrice(xs: seq<Assignment>)
    requires xs != [] && forall a :: a in xs ==> a.price != 0
    ensures TotalPrice(xs) > 0
  {
    assert xs[|xs| - 1] in xs;
  }

  lemma SoundIsProper(r: OnChainJob)
    requires Sound(r) && r.status == AwaitingVerification
    ensures ProperResults(r.(status := Settled)) && ProperAssignments(r.(status := Settled))
    ensures r.assignments != [] && r.results != []
  {
    hide TotalPrice, ValidResult, AssignedTo;
    EveryoneReported(r);
  }

  lemma {:induction false} OnRootPrices(xs: seq<Assignment>, rs: seq<WorkResult>, root: Bytes32)
    requires forall i :: 0 <= i < |xs| ==> xs[i].price != 0
    ensures forall a :: a in OnRoot(xs, rs, root, true) ==> a.price != 0
  {
    hide RootOf;
    if xs != [] {
      OnRootPrices(xs[..|xs| - 1], rs, root);
    }
  }

  /** A job settled by plain finalization is observed alike from its settlement and from its record. */
  lemma FinalizedObservedAlike(r: OnChainJob, e: VerificationEvidence, registry: Registry)
    requires Sound(r) && Finalize(r, e).Ok?
    ensures var p := Finalize(r, e).value;
            && ObserveSettled(p.record, registry) == ObserveVerified(p.record, p.settlement, registry)
            && (ObserveSettled(p.record, registry).Ok? <==> Approved(registry, r.job.workload))
  {
    hide TotalPrice, Payments, Collateral, Sum, OnRoot, RootOf, MajorityRoot, Verified, ValidSpec, ProperResults,
      ProperAssignments;
    SoundIsProper(r);
    UnanimousRoots(r);
    PaymentsSum(r.assignments);
    assert GoodAssignment(r.assignments[0]);
    forall a | a in r.assignments ensures a.price != 0 {
      assert GoodAssignment(a);
    }
    PositivePrice(r.assignments);
  }

  /** So is a job settled by majority. */
  lemma ResolvedObservedAlike(r: OnChainJob, registry: Registry)
    requires Sound(r) && r.status == AwaitingVerification && Resolve(r).Ok?
    ensures var p := Resolve(r).value;
            && ObserveSettled(p.record, registry) == ObserveVerified(p.record, p.settlement, registry)
            && (ObserveSettled(p.record, registry).Ok? <==> Approved(registry, r.job.workload))
  {
    hide TotalPrice, Payments, Collateral, Sum, OnRoot, RootOf, MajorityRoot, ValidSpec, ProperResults, ProperAssignments;
    SoundIsProper(r);
    var root := MajorityRoot(r.results).value;
    var winners := OnRoot(r.assignments, r.results, root, true);
    OnRootDistinct(r.assignments, r.results, root, true);
    PaymentsSum(winners);
    MajorityRootFacts(r, root);
    assert forall i :: 0 <= i < |r.assignments| ==> GoodAssignment(r.assignments[i]);
    OnRootPrices(r.assignments, r.results, root);
    PositivePrice(winners);
  }

  /** The majority root is a reported, nonzero root, and somebody assigned reported it. */
  lemma MajorityRootFacts(r: OnChainJob, root: Bytes32)
    requires Sound(r) && r.status == AwaitingVerification && MajorityRoot(r.results) == Some(root)
    ensures root != ZERO32 && OnRoot(r.assignments, r.results, root, true) != []
  {
    hide TotalPrice, OnRoot, RootOf, MajorityRoot, CountRoot;
    MajorityIff(r.results, root);
    CountedRootReported(r.results, root);
    var i :| 0 <= i < |r.results| && r.results[i].resultRoot == root;
    assert ValidResult(r.results[i]);
    var p := r.results[i].provider;
    assert AssignedTo(r.assignments, p);
    var k :| 0 <= k < |r.assignments| && r.assignments[k].provider == p;
    DistinctRootOf(r.results, i);
    OnRootHas(r.assignments, r.results, root, k);
  }

  lemma {:induction false} DistinctRootOf(rs: seq<WorkResult>, i: nat)
    requires DistinctReporters(rs) && i < |rs|
    ensures RootOf(rs, rs[i].provider) == rs[i].resultRoot
  {
    if i < |rs| - 1 {
      DistinctRootOf(rs[..|rs| - 1], i);
    }
  }

  lemma {:induction false} OnRootHas(xs: seq<Assignment>, rs: seq<WorkResult>, root: Bytes32, k: nat)
    requires k < |xs| && RootOf(rs, xs[k].provider) == root
    ensures OnRoot(xs, rs, root, true) != []
  {
    if k < |xs| - 1 {
      OnRootHas(xs[..|xs| - 1], rs, root, k);
    }
  }

  // ---------------------------------------------------------------- locked capital

  datatype CapitalComponent = CapitalComponent(id: Bytes32, provider: Account, amount: u64)

  /** Component identities are hashes of the job, and of the job and provider. */
  datatype ComponentIds = ComponentIds(escrow: Bytes32 -> Bytes32, collateral: (Bytes32, Account) -> Bytes32)

  datatype ComponentSet = ComponentSet(
    jobId: Bytes32, escrowId: Bytes32, escrow: u64, collateral: seq<CapitalComponent>, totalLocked: u64)

  /** What the record's encoder accepts. */
  ghost predicate Encodable(r: OnChainJob) {
    && r.id != ZERO32 && r.escrow >= r.job.maxPrice && ValidJob(r.job)
    && (forall i :: 0 <= i < |r.assignments| ==> GoodAssignment(r.assignments[i]))
    && (forall i :: 0 <= i < |r.results| ==> ValidResult(r.results[i]))
  }

  ghost predicate Describes(ids: ComponentIds, r: OnChainJob, c: CapitalComponent, a: Assignment) {
    c == CapitalComponent(ids.collateral(r.id, a.provider), a.provider, r.job.collateralRequired)
  }

  ghost predicate Itemized(ids: ComponentIds, r: OnChainJob, components: seq<CapitalComponent>, a: Assignment) {
    exists k :: 0 <= k < |components| && Describes(ids, r, components[k], a)
  }

  /** One component for every assignment. */
  ghost predicate Itemizes(ids: ComponentIds, r: OnChainJob, components: seq<CapitalComponent>) {
    && |components| == |r.assignments|
    && forall i :: 0 <= i < |r.assignments| ==> Itemized(ids, r, components, r.assignments[i])
  }

  predicate InComponentOrder(a: CapitalComponent, b: CapitalComponent) {
    LexLess(a.provider, b.provider)
  }

  method CheckEncodable(r: OnChainJob) returns (ok: bool)
    ensures ok <==> Encodable(r)
  {
    hide ValidJob, ValidResult;
    if r.id == ZERO32 || r.escrow < r.job.maxPrice || !ValidJob(r.job) {
      return false;
    }
    var i := 0;
    while i < |r.assignments|
      invariant 0 <= i <= |r.assignments|
      invariant forall k :: 0 <= k < i ==> GoodAssignment(r.assignments[k])
    {
      if !GoodAssignment(r.assignments[i]) {
        return false;
      }
      i := i + 1;
    }
    i := 0;
    while i < |r.results|
      invariant 0 <= i <= |r.results|
      invariant forall k :: 0 <= k < i ==> ValidResult(r.results[k])
    {
      if !ValidResult(r.results[i]) {
        return false;
      }
      i := i + 1;
    }
    return true;
  }

  /** The collateral component of every assignment, in the record's order. */
  function Components(ids: ComponentIds, r: OnChainJob): (components: seq<CapitalComponent>)
    ensures |components| == |r.assignments|
    ensures forall i :: 0 <= i < |r.assignments| ==> Describes(ids, r, components[i], r.assignments[i])
  {
    seq(|r.assignments|, i requires 0 <= i < |r.assignments| =>
      CapitalComponent(ids.collateral(r.id, r.assignments[i].provider), r.assignments[i].provider, r.job.collateralRequired))
  }

  /** The capital a job locks, item by item. */
  ghost function Derive(ids: ComponentIds, r: OnChainJob): Outcome<ComponentSet> {
    if !Encodable(r) || r.escrow == 0 then Err(InvalidEconomics)
    else if r.job.collateralRequired == 0 then Ok(ComponentSet(r.id, ids.escrow(r.id), r.escrow, [], r.escrow))
    else if !DistinctProviders(r.assignments) || Locked(r) > MAX_U64 then Err(InvalidEconomics)
    else Ok(ComponentSet(r.id, ids.escrow(r.id), r.escrow, Sort(Components(ids, r), InComponentOrder), Locked(r)))
  }

  method CollateralComponents(ids: ComponentIds, r: OnChainJob) returns (out: Option<(seq<CapitalComponent>, u64)>)
    ensures out.Some? <==> DistinctProviders(r.assignments) && Locked(r) <= MAX_U64
    ensures out.Some? ==> out.value == (Components(ids, r), Locked(r))
  {
    hide Components;
    ghost var all := Components(ids, r);
    var each, xs := r.job.collateralRequired, r.assignments;
    var total := r.escrow;
    var seen: set<Account> := {};
    var components: seq<CapitalComponent> := [];
    var i := 0;
    while i < |xs|
      invariant 0 <= i <= |xs|
      invariant total == r.escrow + i * each
      invariant DistinctProviders(xs[..i])
      invariant seen == set k | 0 <= k < i :: xs[k].provider
      invariant components == all[..i]
    {
      if xs[i].provider in seen {
        return None;
      }
      OneMore(i, each);
      FewerCost(i + 1, |xs|, each);
      if MAX_U64 - total < each {
        return None;
      }
      seen := seen + {xs[i].provider};
      total := total + each;
      assert Describes(ids, r, all[i], xs[i]) && all[..i + 1] == all[..i] + [all[i]];
      components := components + [CapitalComponent(ids.collateral(r.id, xs[i].provider), xs[i].provider, each)];
      i := i + 1;
    }
    assert xs[..i] == xs && all[..i] == all;
    return Some((components, total));
  }

  method DeriveComputeCapitalComponents(ids: ComponentIds, r: OnChainJob) returns (out: Outcome<ComponentSet>)
    ensures out == Derive(ids, r)
  {
    hide Encodable, Sort, Components;
    var ok := CheckEncodable(r);
    if !ok || r.escrow == 0 {
      return Err(InvalidEconomics);
    }
    if r.job.collateralRequired == 0 {
      return Ok(ComponentSet(r.id, ids.escrow(r.id), r.escrow, [], r.escrow));
    }
    var parts := CollateralComponents(ids, r);
    if parts.None? {
      return Err(InvalidEconomics);
    }
    return Ok(ComponentSet(r.id, ids.escrow(r.id), r.escrow, Sort(parts.value.0, InComponentOrder), parts.value.1));
  }

  lemma ComponentsOrder(cs: seq<CapitalComponent>)
    requires forall i, j :: 0 <= i < j < |cs| ==> cs[i].provider != cs[j].provider
    ensures TotalOn(cs, InComponentOrder)
  {
    forall a, b | a in cs && b in cs
      ensures a != b ==> InComponentOrder(a, b) || InComponentOrder(b, a)
      ensures InComponentOrder(a, b) ==> !InComponentOrder(b, a)
    {
      LexTrichotomy(a.provider, b.provider);
    }
    forall a, b, c | a in cs && b in cs && c in cs && InComponentOrder(a, b) && InComponentOrder(b, c)
      ensures InComponentOrder(a, c) {
      LexTransitive(a.provider, b.provider, c.provider);
    }
  }

  lemma SortItemizes(ids: ComponentIds, r: OnChainJob)
    ensures Itemizes(ids, r, Sort(Components(ids, r), InComponentOrder))
  {
    hide Components, Sort;
    var components := Components(ids, r);
    var sorted := Sort(components, InComponentOrder);
    SameElements(sorted, components);
    forall i | 0 <= i < |r.assignments| ensures Itemized(ids, r, sorted, r.assignments[i]) {
      assert components[i] in sorted;
      var k :| 0 <= k < |sorted| && sorted[k] == components[i];
      assert Describes(ids, r, sorted[k], r.assignments[i]);
    }
  }

  /** Whatever is derived accounts for all the locked capital: the total is the escrow and one collateral per
      assignment, itemized once per assignment in provider order, or not at all when none is required. */
  lemma DeriveItemizes(ids: ComponentIds, r: OnChainJob)
    requires Derive(ids, r).Ok?
    ensures var s := Derive(ids, r).value;
            && s.jobId == r.id && s.escrowId == ids.escrow(r.id) && s.escrow == r.escrow && s.totalLocked == Locked(r)
            && (if r.job.collateralRequired == 0 then s.collateral == []
                else Itemizes(ids, r, s.collateral) && Sorted(s.collateral, InComponentOrder))
  {
    hide Encodable, Sort, Sorted, Components, Itemizes;
    if r.job.collateralRequired == 0 {
      assert Locked(r) == r.escrow + |r.assignments| * 0 == r.escrow;
    } else {
      var components := Components(ids, r);
      forall i, j | 0 <= i < j < |components| ensures components[i].provider != components[j].provider {
        assert Describes(ids, r, components[i], r.assignments[i]) && Describes(ids, r, components[j], r.assignments[j]);
      }
      ComponentsOrder(components);
      SortSorted(components, InComponentOrder);
      SortItemizes(ids, r);
    }
  }

  /** For every sound record the derivation succeeds exactly when the locked capital fits in 64 bits, and then
      totals it. */
  lemma SoundDerivesIff(ids: ComponentIds, r: OnChainJob)
    requires Sound(r)
    ensures Derive(ids, r).Ok? <==> Locked(r) <= MAX_U64
    ensures Derive(ids, r).Ok? ==> Derive(ids, r).value.totalLocked == Locked(r)
  {
    hide Sort, Components;
    SoundEncodable(r);
    if r.job.collateralRequired == 0 {
      assert Locked(r) == r.escrow + |r.assignments| * 0 == r.escrow;
    }
  }

  lemma SoundEncodable(r: OnChainJob)
    requires Sound(r)
    ensures Encodable(r) && r.escrow > 0 && DistinctProviders(r.assignments)
  {
    hide TotalPrice, ValidResult, AssignedTo;
  }

  /** Components are derived exactly from well-formed records with their budget in escrow, and, when collateral is
      required, of distinct providers within the 64-bit total. */
  lemma DeriveIff(ids: ComponentIds, r: OnChainJob)
    ensures Derive(ids, r).Ok? <==>
            && r.id != ZERO32 && r.escrow > 0 && r.escrow >= r.job.maxPrice && ValidJob(r.job)
            && (forall i :: 0 <= i < |r.assignments| ==> GoodAssignment(r.assignments[i]))
            && (forall i :: 0 <= i < |r.results| ==> ValidResult(r.results[i]))
            && (r.job.collateralRequired > 0 ==>
                  && r.escrow + |r.assignments| * r.job.collateralRequired <= MAX_U64
                  && forall i, j :: 0 <= i < j < |r.assignments| ==> r.assignments[i].provider != r.assignments[j].provider)
  {
    hide Sort, Components, ValidJob, ValidResult, GoodAssignment;
  }

  /** Each way of ending a job hands out exactly the capital derived for it. */
  lemma EndingsDistributeLocked(ids: ComponentIds, r: OnChainJob, e: VerificationEvidence, height: u64)
    requires Sound(r)
    ensures Derive(ids, r).Ok? ==> Derive(ids, r).value.totalLocked == Locked(r)
    ensures Finalize(r, e).Ok? ==>
              var s := Finalize(r, e).value.settlement;
              Conserves(r, s) && Sum(s.payments) + s.refund + Sum(s.collateralReturns) + s.slashReward == Locked(r)
    ensures Resolve(r).Ok? ==>
              var s := Resolve(r).value.settlement;
              Conserves(r, s) && Sum(s.payments) + s.refund + Sum(s.collateralReturns) + s.slashReward == Locked(r)
    ensures Expire(r, height).Ok? ==>
              var x := Expire(r, height).value;
              x.refund == r.escrow && x.refund + Sum(x.collateralReturns) == Locked(r)
  {
    hide Sound, Finalize, Resolve, Expire, Conserves, Sum, Derive;
    SoundDerivesIff(ids, r);
    if Finalize(r, e).Ok? {
      FinalizeConserves(r, e);
      ConservesLocked(r, Finalize(r, e).value.settlement);
    }
    if Resolve(r).Ok? {
      ResolveConserves(r);
      ConservesLocked(r, Resolve(r).value.settlement);
    }
    if Expire(r, height).Ok? {
      ExpireConserves(r, height);
    }
  }
}
