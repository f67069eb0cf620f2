/** Compute jobs as pure steps on a record: assignment, results, settlement, majority resolution and expiry
    (internal/v2/compute/model.go, state.go, market.go, onchain.go). */
module Compute {
  import opened Prelude
  import opened Sorting

  type Account = Bytes32

  /** Verification modes are one byte on the wire; values above HYBRID are never valid for a job. */
  type Mode = byte
  const DETERMINISTIC: Mode := 1
  const REPLICATED: Mode := 2
  const CHALLENGE: Mode := 3
  const ZERO_KNOWLEDGE: Mode := 4
  const TEE: Mode := 5
  const CLIENT_APPROVED: Mode := 6
  const HYBRID: Mode := 7

  datatype Resources = Resources(
    cpuCores: nat, memoryMiB: nat, gpuCount: nat, gpuMemoryMiB: nat, storageMiB: nat, bandwidthMbps: nat,
    capabilities: seq<Bytes>)

  datatype Offer = Offer(
    provider: Account, resources: Resources, price: u64, collateral: u64, modes: seq<Mode>, validUntil: u64)

  datatype Job = Job(
    owner: Account, workload: Bytes32, inputRoot: Bytes32, resources: Resources, maxPrice: u64,
    collateralRequired: u64, verification: Mode, deadline: u64, replicas: nat, isPrivate: bool)

  datatype WorkResult = WorkResult(
    jobId: Bytes32, provider: Account, resultRoot: Bytes32, proofHash: Bytes32, attestationHash: Bytes32,
    completedHeight: u64)

  datatype Assignment = Assignment(offerId: Bytes32, provider: Account, price: u64)

  datatype Status = Pending | Assigned | AwaitingVerification | Settled | Expired

  datatype OnChainJob = OnChainJob(
    id: Bytes32, job: Job, escrow: u64, status: Status, assignments: seq<Assignment>, results: seq<WorkResult>)

  datatype VerificationEvidence = VerificationEvidence(
    deterministicReplay: bool, proofVerified: bool, attestationVerified: bool, challengePassed: bool, clientApproved: bool)

  datatype Settlement = Settlement(
    jobId: Bytes32, resultRoot: Bytes32, payments: map<Account, u64>, refund: u64,
    collateralReturns: map<Account, u64>, slashed: map<Account, u64>, slashReward: u64)

  datatype Error =
    | NotFound | BadState | NoMatch | EscrowShort | VerificationFailed | Duplicate
    | InvalidOffer | InvalidJob | InvalidResult | InvalidSettlement | InvalidEconomics

  type Outcome<T> = Fallible<T, Error>

  // ---------------------------------------------------------------- validity

  /** ASCII white space only. */
  predicate Blank(s: Bytes) {
    forall i :: 0 <= i < |s| ==> s[i] == 32 || 9 <= s[i] <= 13
  }

  predicate ValidResources(r: Resources) {
    && (r.cpuCores != 0 || r.gpuCount != 0) && r.memoryMiB != 0 && |r.capabilities| <= 32
    && forall i :: 0 <= i < |r.capabilities| ==> !Blank(r.capabilities[i]) && |r.capabilities[i]| <= 64
  }

  predicate ValidOffer(o: Offer) {
    && o.provider != ZERO32 && o.price != 0 && o.validUntil != 0 && 0 < |o.modes| <= 7
    && ValidResources(o.resources)
  }

  predicate ValidJob(j: Job) {
    && j.owner != ZERO32 && j.workload != ZERO32 && j.inputRoot != ZERO32 && j.maxPrice != 0 && j.deadline != 0
    && DETERMINISTIC <= j.verification <= HYBRID
    && (j.verification == REPLICATED ==> j.replicas >= 2)
    && ValidResources(j.resources)
  }

  predicate ValidResult(r: WorkResult) {
    r.jobId != ZERO32 && r.provider != ZERO32 && r.resultRoot != ZERO32 && r.completedHeight != 0
  }

  function Required(j: Job): nat {
    if j.verification == REPLICATED then j.replicas else 1
  }

  predicate Supports(modes: seq<Mode>, target: Mode) {
    exists i :: 0 <= i < |modes| && (modes[i] == target || modes[i] == HYBRID)
  }

  predicate Covers(have: Resources, need: Resources) {
    && have.cpuCores >= need.cpuCores && have.memoryMiB >= need.memoryMiB && have.gpuCount >= need.gpuCount
    && have.gpuMemoryMiB >= need.gpuMemoryMiB && have.storageMiB >= need.storageMiB
    && have.bandwidthMbps >= need.bandwidthMbps
  }

  predicate Matches(o: Offer, j: Job) {
    && Covers(o.resources, j.resources)
    && o.collateral >= j.collateralRequired && Supports(o.modes, j.verification)
    && forall i :: 0 <= i < |j.resources.capabilities| ==> j.resources.capabilities[i] in o.resources.capabilities
  }

  method SupportsMode(modes: seq<Mode>, target: Mode) returns (ok: bool)
    ensures ok <==> Supports(modes, target)
  {
    var i := 0;
    while i < |modes|
      invariant 0 <= i <= |modes|
      invariant forall k :: 0 <= k < i ==> modes[k] != target && modes[k] != HYBRID
    {
      if modes[i] == target || modes[i] == HYBRID {
        return true;
      }
      i := i + 1;
    }
    return false;
  }

  method OfferMatchesJob(o: Offer, j: Job) returns (ok: bool)
    ensures ok <==> Matches(o, j)
  {
    if !Covers(o.resources, j.resources) || o.collateral < j.collateralRequired {
      return false;
    }
    var supported := SupportsMode(o.modes, j.verification);
    if !supported {
      return false;
    }
    var available := Elements(o.resources.capabilities);
    var i := 0;
    while i < |j.resources.capabilities|
      invariant 0 <= i <= |j.resources.capabilities|
      invariant forall k :: 0 <= k < i ==> j.resources.capabilities[k] in o.resources.capabilities
    {
      if j.resources.capabilities[i] !in available {
        return false;
      }
      i := i + 1;
    }
    return true;
  }

  // ---------------------------------------------------------------- assignments

  function TotalPrice(xs: seq<Assignment>): nat {
    if xs == [] then 0 else TotalPrice(xs[..|xs| - 1]) + xs[|xs| - 1].price
  }

  predicate AssignedTo(xs: seq<Assignment>, p: Account) {
    exists i :: 0 <= i < |xs| && xs[i].provider == p
  }

  datatype NewAssignment = NewAssignment(record: OnChainJob, assignment: Assignment, change: u64)

  /** Why a further assignment is refused, if it is. */
  function AssignObjection(j: Job, status: Status, xs: seq<Assignment>, escrow: u64, o: Offer, height: u64): Option<Error> {
    if status == Settled || status == Expired || height == 0 || height > j.deadline || height > o.validUntil
    then Some(BadState)
    else if !Matches(o, j) then Some(NoMatch)
    else if AssignedTo(xs, o.provider) then Some(Duplicate)
    else if |xs| >= Required(j) then Some(BadState)
    else if TotalPrice(xs) + o.price > j.maxPrice || TotalPrice(xs) + o.price > escrow then Some(EscrowShort)
    else None
  }

  function AssignedStatus(j: Job, status: Status, count: nat): Status {
    if count == Required(j) then Assigned else status
  }

  function Assign(r: OnChainJob, offerId: Bytes32, o: Offer, height: u64): Outcome<NewAssignment> {
    var objection := AssignObjection(r.job, r.status, r.assignments, r.escrow, o, height);
    if objection.Some? then Err(objection.value)
    else
      var a := Assignment(offerId, o.provider, o.price);
      Ok(NewAssignment(r.(assignments := r.assignments + [a],
                          status := AssignedStatus(r.job, r.status, |r.assignments| + 1)),
                       a, o.collateral - r.job.collateralRequired))
  }

  lemma {:induction false} PriceGrows(xs: seq<Assignment>, k: nat)
    requires k <= |xs|
    ensures TotalPrice(xs[..k]) <= TotalPrice(xs)
  {
    if k == |xs| {
      assert xs[..k] == xs;
    } else {
      assert xs[..|xs| - 1][..k] == xs[..k];
      PriceGrows(xs[..|xs| - 1], k);
    }
  }

  /** The checked sum of prices, None when it overflows. */
  method SumPrices(xs: seq<Assignment>) returns (total: Option<u64>)
    ensures total.None? <==> TotalPrice(xs) > MAX_U64
    ensures total.Some? ==> total.value == TotalPrice(xs)
  {
    var sum: u64 := 0;
    var i := 0;
    while i < |xs|
      invariant 0 <= i <= |xs|
      invariant sum == TotalPrice(xs[..i])
    {
      assert xs[..i + 1][..i] == xs[..i];
      PriceGrows(xs, i + 1);
      if MAX_U64 - sum < xs[i].price {
        return None;
      }
      sum := sum + xs[i].price;
      i := i + 1;
    }
    assert xs[..i] == xs;
    return Some(sum);
  }

  method FindAssigned(xs: seq<Assignment>, p: Account) returns (found: bool)
    ensures found <==> AssignedTo(xs, p)
  {
    var i := 0;
    while i < |xs|
      invariant 0 <= i <= |xs|
      invariant forall k :: 0 <= k < i ==> xs[k].provider != p
    {
      if xs[i].provider == p {
        return true;
      }
      i := i + 1;
    }
    return false;
  }

  /** The checks of an assignment, shared in wording by the market and the chain. */
  method CheckAssignment(j: Job, status: Status, xs: seq<Assignment>, escrow: u64, o: Offer, height: u64)
    returns (r: Option<Error>)
    ensures r == AssignObjection(j, status, xs, escrow, o, height)
  {
    hide Matches, AssignedTo, TotalPrice;
    if status == Settled || status == Expired || height == 0 || height > j.deadline || height > o.validUntil {
      return Some(BadState);
    }
    var matches := OfferMatchesJob(o, j);
    if !matches {
      return Some(NoMatch);
    }
    var duplicate := FindAssigned(xs, o.provider);
    if duplicate {
      return Some(Duplicate);
    }
    if |xs| >= Required(j) {
      return Some(BadState);
    }
    var committed := SumPrices(xs);
    if committed.None? || o.price > j.maxPrice || MAX_U64 - committed.value < o.price
       || committed.value + o.price > j.maxPrice || committed.value + o.price > escrow {
      return Some(EscrowShort);
    }
    return None;
  }

  method AssignOnChain(r: OnChainJob, offerId: Bytes32, o: Offer, height: u64) returns (out: Outcome<NewAssignment>)
    ensures out == Assign(r, offerId, o, height)
  {
    var objection := CheckAssignment(r.job, r.status, r.assignments, r.escrow, o, height);
    if objection.Some? {
      return Err(objection.value);
    }
    var a := Assignment(offerId, o.provider, o.price);
    var updated := r.(assignments := r.assignments + [a]);
    if |updated.assignments| == Required(r.job) {
      updated := updated.(status := Assigned);
    }
    return Ok(NewAssignment(updated, a, o.collateral - r.job.collateralRequired));
  }

  // ---------------------------------------------------------------- results

  predicate Reported(rs: seq<WorkResult>, p: Account) {
    exists i :: 0 <= i < |rs| && rs[i].provider == p
  }

  function SubmitObjection(j: Job, status: Status, xs: seq<Assignment>, reported: bool, res: WorkResult): Option<Error> {
    if status != Assigned && status != AwaitingVerification then Some(BadState)
    else if res.completedHeight > j.deadline then Some(BadState)
    else if !AssignedTo(xs, res.provider) then Some(NoMatch)
    else if reported then Some(Duplicate)
    else None
  }

  function SubmittedStatus(j: Job, status: Status, count: nat): Status {
    if count == Required(j) then AwaitingVerification else status
  }

  function Submit(r: OnChainJob, res: WorkResult): Outcome<OnChainJob> {
    if !ValidResult(res) || res.jobId != r.id then Err(InvalidResult)
    else
      var objection := SubmitObjection(r.job, r.status, r.assignments, Reported(r.results, res.provider), res);
      if objection.Some? then Err(objection.value)
      else Ok(r.(results := r.results + [res], status := SubmittedStatus(r.job, r.status, |r.results| + 1)))
  }

  method SubmitOnChainResult(r: OnChainJob, res: WorkResult) returns (out: Outcome<OnChainJob>)
    ensures out == Submit(r, res)
  {
    if !ValidResult(res) || res.jobId != r.id {
      return Err(InvalidResult);
    }
    if r.status != Assigned && r.status != AwaitingVerification {
      return Err(BadState);
    }
    if res.completedHeight > r.job.deadline {
      return Err(BadState);
    }
    var holds := FindAssigned(r.assignments, res.provider);
    if !holds {
      return Err(NoMatch);
    }
    var i := 0;
    while i < |r.results|
      invariant 0 <= i <= |r.results|
      invariant forall k :: 0 <= k < i ==> r.results[k].provider != res.provider
    {
      if r.results[i].provider == res.provider {
        return Err(Duplicate);
      }
      i := i + 1;
    }
    var updated := r.(results := r.results + [res]);
    if |updated.results| == Required(r.job) {
      updated := updated.(status := AwaitingVerification);
    }
    return Ok(updated);
  }

  // ---------------------------------------------------------------- settlement

  /** Map addition as Go performs it: missing entries are zero and sums wrap. */
  function AddTo(m: map<Account, u64>, k: Account, v: u64): map<Account, u64> {
    m[k := WrapAdd(if k in m then m[k] else 0, v)]
  }

  function Payments(xs: seq<Assignment>): map<Account, u64> {
    if xs == [] then map[] else AddTo(Payments(xs[..|xs| - 1]), xs[|xs| - 1].provider, xs[|xs| - 1].price)
  }

  function Collateral(xs: seq<Assignment>, each: u64): map<Account, u64> {
    if xs == [] then map[] else AddTo(Collateral(xs[..|xs| - 1], each), xs[|xs| - 1].provider, each)
  }

  function ByProvider(rs: seq<WorkResult>): map<Account, WorkResult> {
    if rs == [] then map[] else ByProvider(rs[..|rs| - 1])[rs[|rs| - 1].provider := rs[|rs| - 1]]
  }

  predicate Unanimous(rs: seq<WorkResult>) {
    |rs| > 0 && forall i :: 0 <= i < |rs| ==> rs[i].resultRoot == rs[0].resultRoot
  }

  predicate AllProven(results: map<Account, WorkResult>) {
    forall p :: p in results ==> results[p].proofHash != ZERO32
  }

  predicate AllAttested(results: map<Account, WorkResult>) {
    forall p :: p in results ==> results[p].attestationHash != ZERO32
  }

  predicate Verified(mode: Mode, matching: bool, results: map<Account, WorkResult>, e: VerificationEvidence) {
    if mode == DETERMINISTIC then e.deterministicReplay
    else if mode == REPLICATED then matching
    else if mode == CHALLENGE then e.challengePassed
    else if mode == ZERO_KNOWLEDGE then AllProven(results) && e.proofVerified
    else if mode == TEE then AllAttested(results) && e.attestationVerified
    else if mode == CLIENT_APPROVED then e.clientApproved
    else if mode == HYBRID then
      Point(e.deterministicReplay) + Point(matching && |results| > 1) + Point(AllProven(results) && e.proofVerified)
      + Point(AllAttested(results) && e.attestationVerified) + Point(e.challengePassed) + Point(e.clientApproved) >= 2
    else false
  }

  /** Go visits the results in no particular order. */
  method VerificationSatisfied(mode: Mode, matching: bool, results: map<Account, WorkResult>, e: VerificationEvidence)
    returns (ok: bool)
    ensures ok <==> Verified(mode, matching, results, e)
  {
    var hasProof, hasAttestation := true, true;
    var left := results.Keys;
    while left != {}
      invariant left <= results.Keys
      invariant hasProof <==> forall p :: p in results && p !in left ==> results[p].proofHash != ZERO32
      invariant hasAttestation <==> forall p :: p in results && p !in left ==> results[p].attestationHash != ZERO32
    {
      var p :| p in left;
      hasProof := hasProof && results[p].proofHash != ZERO32;
      hasAttestation := hasAttestation && results[p].attestationHash != ZERO32;
      left := left - {p};
    }
    assert hasProof == AllProven(results) && hasAttestation == AllAttested(results);
    if mode == HYBRID {
      var score := 0;
      if e.deterministicReplay { score := score + 1; }
      if matching && |results| > 1 { score := score + 1; }
      if hasProof && e.proofVerified { score := score + 1; }
      if hasAttestation && e.attestationVerified { score := score + 1; }
      if e.challengePassed { score := score + 1; }
      if e.clientApproved { score := score + 1; }
      return score >= 2;
    }
    return if mode == DETERMINISTIC then e.deterministicReplay
           else if mode == REPLICATED then matching
           else if mode == CHALLENGE then e.challengePassed
           else if mode == ZERO_KNOWLEDGE then hasProof && e.proofVerified
           else if mode == TEE then hasAttestation && e.attestationVerified
           else if mode == CLIENT_APPROVED then e.clientApproved
           else false;
  }

  datatype Payout = Payout(record: OnChainJob, settlement: Settlement)

  /** Plain settlement: every accepted job has one result root, and everybody assigned is paid. */
  function Finalize(r: OnChainJob, e: VerificationEvidence): Outcome<Payout> {
    if r.status != AwaitingVerification || |r.results| != Required(r.job) then Err(BadState)
    else if !Unanimous(r.results) || r.results[0].resultRoot == ZERO32
            || !Verified(r.job.verification, true, ByProvider(r.results), e) then Err(VerificationFailed)
    else if TotalPrice(r.assignments) > r.escrow then Err(EscrowShort)
    else
      Ok(Payout(r.(status := Settled),
                Settlement(r.id, r.results[0].resultRoot, Payments(r.assignments), r.escrow - TotalPrice(r.assignments),
                           Collateral(r.assignments, r.job.collateralRequired), map[], 0)))
  }

  predicate InProviderOrder(a: WorkResult, b: WorkResult) {
    LexLess(a.provider, b.provider)
  }

  /** The root of the first provider in order, and whether all roots agree. */
  method CommonResultRoot(rs: seq<WorkResult>) returns (root: Bytes32, matching: bool)
    ensures matching <==> Unanimous(rs)
    ensures matching ==> root == rs[0].resultRoot
    ensures rs == [] ==> root == ZERO32
    ensures rs != [] ==> exists i :: 0 <= i < |rs| && rs[i].resultRoot == root
  {
    hide Sort;
    if |rs| == 0 {
      return ZERO32, false;
    }
    var ordered := Sort(rs, InProviderOrder);
    SameElements(ordered, rs);
    root := ordered[0].resultRoot;
    assert ordered[0] in rs;
    var i := 1;
    while i < |ordered|
      invariant 1 <= i <= |ordered|
      invariant forall k :: 0 <= k < i ==> ordered[k].resultRoot == root
    {
      if ordered[i].resultRoot != root {
        assert ordered[i] in rs;
        return root, false;
      }
      i := i + 1;
    }
    forall k | 0 <= k < |rs| ensures rs[k].resultRoot == root {
      assert rs[k] in ordered;
    }
    return root, true;
  }

  method IndexResults(rs: seq<WorkResult>) returns (m: map<Account, WorkResult>)
    ensures m == ByProvider(rs)
  {
    m := map[];
    var i := 0;
    while i < |rs|
      invariant 0 <= i <= |rs|
      invariant m == ByProvider(rs[..i])
    {
      assert rs[..i + 1][..i] == rs[..i];
      m := m[rs[i].provider := rs[i]];
      i := i + 1;
    }
    assert rs[..i] == rs;
  }

  /** Payments, collateral returns and their checked sum, entry by entry. */
  method PayEveryone(xs: seq<Assignment>, each: u64)
    returns (r: Option<u64>, payments: map<Account, u64>, collateral: map<Account, u64>)
    ensures r.None? <==> TotalPrice(xs) > MAX_U64
    ensures r.Some? ==> r.value == TotalPrice(xs) && payments == Payments(xs) && collateral == Collateral(xs, each)
  {
    payments, collateral := map[], map[];
    var paid: u64 := 0;
    var i := 0;
    while i < |xs|
      invariant 0 <= i <= |xs|
      invariant paid == TotalPrice(xs[..i]) && payments == Payments(xs[..i]) && collateral == Collateral(xs[..i], each)
    {
      assert xs[..i + 1][..i] == xs[..i];
      PriceGrows(xs, i + 1);
      if MAX_U64 - paid < xs[i].price {
        r := None;
        return;
      }
      paid := paid + xs[i].price;
      payments := AddTo(payments, xs[i].provider, xs[i].price);
      collateral := AddTo(collateral, xs[i].provider, each);
      i := i + 1;
    }
    assert xs[..i] == xs;
    r := Some(paid);
  }

  lemma VerifiedNeedsUnanimity(r: OnChainJob, matching: bool, e: VerificationEvidence)
    requires |r.results| == Required(r.job) && matching == Unanimous(r.results)
    requires r.results != [] && Verified(r.job.verification, matching, ByProvider(r.results), e)
    ensures matching
  {
  }

  method FinalizeOnChain(r: OnChainJob, e: VerificationEvidence) returns (out: Outcome<Payout>)
    ensures out == Finalize(r, e)
  {
    hide Verified, ByProvider, Payments, Collateral, TotalPrice;
    if r.status != AwaitingVerification || |r.results| != Required(r.job) {
      return Err(BadState);
    }
    var results := IndexResults(r.results);
    var root, matching := CommonResultRoot(r.results);
    var verified := VerificationSatisfied(r.job.verification, matching, results, e);
    if root == ZERO32 || !verified {
      return Err(VerificationFailed);
    }
    VerifiedNeedsUnanimity(r, matching, e);
    var paid, payments, collateral := PayEveryone(r.assignments, r.job.collateralRequired);
    if paid.None? || paid.value > r.escrow {
      return Err(EscrowShort);
    }
    return Ok(Payout(r.(status := Settled),
                     Settlement(r.id, root, payments, r.escrow - paid.value, collateral, map[], 0)));
  }

  // ---------------------------------------------------------------- majority

  function CountRoot(rs: seq<WorkResult>, root: Bytes32): nat {
    if rs == [] then 0
    else CountRoot(rs[..|rs| - 1], root) + (if rs[|rs| - 1].resultRoot == root then 1 else 0)
  }

  predicate StrictMajority(rs: seq<WorkResult>, root: Bytes32) {
    2 * CountRoot(rs, root) > |rs|
  }

  /** The first reported root, among the first n results, that a strict majority of all results reports. */
  function MajorityAmong(rs: seq<WorkResult>, n: nat): (r: Option<Bytes32>)
    requires n <= |rs|
  {
    if n == 0 then None
    else
      var earlier := MajorityAmong(rs, n - 1);
      if earlier.Some? then earlier
      else if StrictMajority(rs, rs[n - 1].resultRoot) then Some(rs[n - 1].resultRoot) else None
  }

  function MajorityRoot(rs: seq<WorkResult>): Option<Bytes32> {
    MajorityAmong(rs, |rs|)
  }

  /** The root a provider reported last; zero when it reported nothing. */
  function RootOf(rs: seq<WorkResult>, p: Account): Bytes32 {
    if rs == [] then ZERO32
    else if rs[|rs| - 1].provider == p then rs[|rs| - 1].resultRoot
    else RootOf(rs[..|rs| - 1], p)
  }

  /** The assignments whose provider reported `root`, or those that did not. */
  function OnRoot(xs: seq<Assignment>, rs: seq<WorkResult>, root: Bytes32, agree: bool): seq<Assignment> {
    if xs == [] then []
    else
      var last := xs[|xs| - 1];
      OnRoot(xs[..|xs| - 1], rs, root, agree) + (if (RootOf(rs, last.provider) == root) == agree then [last] else [])
  }

  function Resolve(r: OnChainJob): Outcome<Payout> {
    if r.job.verification != REPLICATED || |r.results| < 3 || |r.results| != |r.assignments| then Err(VerificationFailed)
    else
      var majority := MajorityRoot(r.results);
      if majority.None? then Err(VerificationFailed)
      else
        var winners := OnRoot(r.assignments, r.results, majority.value, true);
        var losers := OnRoot(r.assignments, r.results, majority.value, false);
        if TotalPrice(winners) > r.escrow || |losers| * r.job.collateralRequired > MAX_U64 then Err(EscrowShort)
        else
          Ok(Payout(r.(status := Settled),
                    Settlement(r.id, majority.value, Payments(winners), r.escrow - TotalPrice(winners),
                               Collateral(winners, r.job.collateralRequired),
                               Collateral(losers, r.job.collateralRequired),
                               |losers| * r.job.collateralRequired)))
  }

  lemma {:induction false} RootsShare(rs: seq<WorkResult>, a: Bytes32, b: Bytes32)
    requires a != b
    ensures CountRoot(rs, a) + CountRoot(rs, b) <= |rs|
  {
    if rs != [] {
      RootsShare(rs[..|rs| - 1], a, b);
    }
  }

  lemma {:induction false} CountedRootReported(rs: seq<WorkResult>, root: Bytes32)
    requires CountRoot(rs, root) > 0
    ensures exists i :: 0 <= i < |rs| && rs[i].resultRoot == root
  {
    if rs[|rs| - 1].resultRoot != root {
      CountedRootReported(rs[..|rs| - 1], root);
      var i :| 0 <= i < |rs| - 1 && rs[..|rs| - 1][i].resultRoot == root;
      assert rs[i].resultRoot == root;
    }
  }

  lemma {:induction false} MajorityAmongFinds(rs: seq<WorkResult>, n: nat)
    requires n <= |rs|
    ensures MajorityAmong(rs, n).Some? ==> StrictMajority(rs, MajorityAmong(rs, n).value)
    ensures MajorityAmong(rs, n).None? ==> forall i :: 0 <= i < n ==> !StrictMajority(rs, rs[i].resultRoot)
  {
    if n > 0 {
      MajorityAmongFinds(rs, n - 1);
    }
  }

  /** A strict majority is unique, so there is exactly one candidate whatever the order of counting. */
  lemma MajorityIff(rs: seq<WorkResult>, root: Bytes32)
    ensures MajorityRoot(rs) == Some(root) <==> StrictMajority(rs, root)
  {
    MajorityAmongFinds(rs, |rs|);
    if StrictMajority(rs, root) {
      CountedRootReported(rs, root);
      var m := MajorityRoot(rs);
      if m.Some? && m.value != root {
        RootsShare(rs, m.value, root);
      }
    }
  }

  /** How often each root was reported. */
  method CountRoots(rs: seq<WorkResult>) returns (counts: map<Bytes32, nat>)
    ensures forall root :: root in counts <==> CountRoot(rs, root) > 0
    ensures forall root :: root in counts ==> counts[root] == CountRoot(rs, root)
  {
    counts := map[];
    var i := 0;
    while i < |rs|
      invariant 0 <= i <= |rs|
      invariant forall root :: root in counts <==> CountRoot(rs[..i], root) > 0
      invariant forall root :: root in counts ==> counts[root] == CountRoot(rs[..i], root)
    {
      assert rs[..i + 1][..i] == rs[..i];
      var root := rs[i].resultRoot;
      counts := counts[root := (if root in counts then counts[root] else 0) + 1];
      i := i + 1;
    }
    assert rs[..i] == rs;
  }

  /** Go visits the counters in no particular order; the strict majority found is the same in every order. */
  method Leading(rs: seq<WorkResult>) returns (root: Bytes32, count: nat)
    ensures rs != [] ==> count == CountRoot(rs, root) > 0
    ensures forall other :: CountRoot(rs, other) <= count
    ensures 2 * count > |rs| <==> MajorityRoot(rs).Some?
    ensures 2 * count > |rs| ==> MajorityRoot(rs) == Some(root)
  {
    hide CountRoot, MajorityRoot;
    var counts := CountRoots(rs);
    root, count := ZERO32, 0;
    var left := counts.Keys;
    while left != {}
      invariant left <= counts.Keys
      invariant count > 0 ==> root in counts && counts[root] == count
      invariant forall other :: other in counts && other !in left ==> counts[other] <= count
      invariant count == 0 ==> left == counts.Keys
    {
      var r :| r in left;
      if counts[r] > count {
        root, count := r, counts[r];
      }
      left := left - {r};
    }
    if |rs| > 0 {
      SomeRoot(rs);
    }
    LeadingIsMajority(rs, root, count);
  }

  lemma SomeRoot(rs: seq<WorkResult>)
    requires rs != []
    ensures CountRoot(rs, rs[|rs| - 1].resultRoot) > 0
  {
  }

  lemma LeadingIsMajority(rs: seq<WorkResult>, root: Bytes32, count: nat)
    requires forall other :: CountRoot(rs, other) <= count
    requires count > 0 ==> count == CountRoot(rs, root)
    ensures 2 * count > |rs| <==> MajorityRoot(rs).Some?
    ensures 2 * count > |rs| ==> MajorityRoot(rs) == Some(root)
  {
    hide CountRoot, MajorityRoot;
    if 2 * count > |rs| {
      MajorityIff(rs, root);
    } else if MajorityRoot(rs).Some? {
      MajorityIff(rs, MajorityRoot(rs).value);
    }
  }

  /** The accumulators of majority settlement. */
  datatype Shares = Shares(
    payments: map<Account, u64>, returned: map<Account, u64>, slashed: map<Account, u64>, paid: u64, reward: u64)

  ghost predicate Shared(s: Shares, xs: seq<Assignment>, rs: seq<WorkResult>, root: Bytes32, each: u64) {
    && s.payments == Payments(OnRoot(xs, rs, root, true))
    && s.returned == Collateral(OnRoot(xs, rs, root, true), each)
    && s.slashed == Collateral(OnRoot(xs, rs, root, false), each)
    && s.paid == TotalPrice(OnRoot(xs, rs, root, true))
    && s.reward == |OnRoot(xs, rs, root, false)| * each
  }

  lemma OnRootSnoc(xs: seq<Assignment>, rs: seq<WorkResult>, root: Bytes32, agree: bool, i: nat)
    requires i < |xs|
    ensures OnRoot(xs[..i + 1], rs, root, agree)
            == OnRoot(xs[..i], rs, root, agree) + (if (RootOf(rs, xs[i].provider) == root) == agree then [xs[i]] else [])
  {
    assert xs[..i + 1][..i] == xs[..i];
  }

  /** Longer lists only pay more and slash more. */
  lemma {:induction false} SharesGrow(xs: seq<Assignment>, rs: seq<WorkResult>, root: Bytes32, i: nat)
    requires i <= |xs|
    ensures TotalPrice(OnRoot(xs[..i], rs, root, true)) <= TotalPrice(OnRoot(xs, rs, root, true))
    ensures |OnRoot(xs[..i], rs, root, false)| <= |OnRoot(xs, rs, root, false)|
  {
    hide RootOf;
    if i == |xs| {
      assert xs[..i] == xs;
    } else {
      var n := |xs| - 1;
      assert xs[..n][..i] == xs[..i];
      SharesGrow(xs[..n], rs, root, i);
      var front := OnRoot(xs[..n], rs, root, true);
      assert (front + [xs[n]])[..|front|] == front && front + [] == front;
    }
  }

  lemma TotalPriceSnoc(xs: seq<Assignment>, a: Assignment, each: u64)
    ensures TotalPrice(xs + [a]) == TotalPrice(xs) + a.price
    ensures Payments(xs + [a]) == AddTo(Payments(xs), a.provider, a.price)
    ensures Collateral(xs + [a], each) == AddTo(Collateral(xs, each), a.provider, each)
  {
    assert (xs + [a])[..|xs|] == xs;
  }

  lemma OneMore(n: nat, each: u64)
    ensures (n + 1) * each == n * each + each
  {
  }

  lemma FewerCost(m: nat, n: nat, each: u64)
    requires m <= n
    ensures m * each <= n * each
  {
  }

  method Distribute(xs: seq<Assignment>, rs: seq<WorkResult>, root: Bytes32, each: u64) returns (out: Option<Shares>)
    ensures out.None? <==> TotalPrice(OnRoot(xs, rs, root, true)) > MAX_U64 || |OnRoot(xs, rs, root, false)| * each > MAX_U64
    ensures out.Some? ==> Shared(out.value, xs, rs, root, each)
  {
    hide OnRoot, RootOf, Payments, Collateral, TotalPrice, AddTo;
    SharedNone(xs, rs, root, each);
    var s := Shares(map[], map[], map[], 0, 0);
    var i := 0;
    while i < |xs|
      invariant 0 <= i <= |xs|
      invariant Shared(s, xs[..i], rs, root, each)
    {
      OnRootSnoc(xs, rs, root, true, i);
      OnRootSnoc(xs, rs, root, false, i);
      SharesGrow(xs, rs, root, i + 1);
      ghost var winners, losers := OnRoot(xs[..i], rs, root, true), OnRoot(xs[..i], rs, root, false);
      TotalPriceSnoc(winners, xs[i], each);
      TotalPriceSnoc(losers, xs[i], each);
      assert winners + [] == winners && losers + [] == losers;
      FewerCost(|OnRoot(xs[..i + 1], rs, root, false)|, |OnRoot(xs, rs, root, false)|, each);
      if RootOf(rs, xs[i].provider) == root {
        if MAX_U64 - s.paid < xs[i].price {
          return None;
        }
        s := s.(paid := s.paid + xs[i].price, payments := AddTo(s.payments, xs[i].provider, xs[i].price),
                returned := AddTo(s.returned, xs[i].provider, each));
      } else {
        OneMore(|losers|, each);
        if MAX_U64 - s.reward < each {
          return None;
        }
        s := s.(slashed := AddTo(s.slashed, xs[i].provider, each), reward := s.reward + each);
      }
      i := i + 1;
    }
    assert xs[..i] == xs;
    return Some(s);
  }

  lemma SharedNone(xs: seq<Assignment>, rs: seq<WorkResult>, root: Bytes32, each: u64)
    ensures Shared(Shares(map[], map[], map[], 0, 0), xs[..0], rs, root, each)
  {
  }

  method ResolveReplicatedMajority(r: OnChainJob) returns (out: Outcome<Payout>)
    ensures out == Resolve(r)
  {
    hide OnRoot, MajorityRoot, Payments, Collateral, TotalPrice, CountRoot;
    if r.job.verification != REPLICATED || |r.results| < 3 || |r.results| != |r.assignments| {
      return Err(VerificationFailed);
    }
    var majority, count := Leading(r.results);
    if count * 2 <= |r.results| {
      return Err(VerificationFailed);
    }
    var shares := Distribute(r.assignments, r.results, majority, r.job.collateralRequired);
    if shares.None? || shares.value.paid > r.escrow {
      return Err(EscrowShort);
    }
    var s := shares.value;
    return Ok(Payout(r.(status := Settled),
                     Settlement(r.id, majority, s.payments, r.escrow - s.paid, s.returned, s.slashed, s.reward)));
  }

  // ---------------------------------------------------------------- expiry

  datatype Expiry = Expiry(record: OnChainJob, refund: u64, collateralReturns: map<Account, u64>)

  predicate Expirable(status: Status, j: Job, height: u64) {
    status != Settled && status != Expired && height > j.deadline
  }

  function Expire(r: OnChainJob, height: u64): Outcome<Expiry> {
    if !Expirable(r.status, r.job, height) then Err(BadState)
    else Ok(Expiry(r.(status := Expired), r.escrow, Collateral(r.assignments, r.job.collateralRequired)))
  }

  method ExpireOnChain(r: OnChainJob, height: u64) returns (out: Outcome<Expiry>)
    ensures out == Expire(r, height)
  {
    if r.status == Settled || r.status == Expired || height <= r.job.deadline {
      return Err(BadState);
    }
    var collateral: map<Account, u64> := map[];
    var i := 0;
    while i < |r.assignments|
      invariant 0 <= i <= |r.assignments|
      invariant collateral == Collateral(r.assignments[..i], r.job.collateralRequired)
    {
      assert r.assignments[..i + 1][..i] == r.assignments[..i];
      collateral := AddTo(collateral, r.assignments[i].provider, r.job.collateralRequired);
      i := i + 1;
    }
    assert r.assignments[..i] == r.assignments;
    return Ok(Expiry(r.(status := Expired), r.escrow, collateral));
  }
}
