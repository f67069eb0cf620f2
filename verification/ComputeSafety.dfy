/** What every compute job keeps while it is assigned and worked on, and what each settlement distributes. */
module ComputeSafety {
  import opened Prelude
  import opened Compute

  // ---------------------------------------------------------------- the invariant

  ghost predicate DistinctProviders(xs: seq<Assignment>) {
    forall i, j :: 0 <= i < j < |xs| ==> xs[i].provider != xs[j].provider
  }

  ghost predicate DistinctReporters(rs: seq<WorkResult>) {
    forall i, j :: 0 <= i < j < |rs| ==> rs[i].provider != rs[j].provider
  }

  predicate GoodAssignment(a: Assignment) {
    a.offerId != ZERO32 && a.provider != ZERO32 && a.price != 0
  }

  ghost predicate Funded(r: OnChainJob) {
    r.id != ZERO32 && ValidJob(r.job) && r.escrow >= r.job.maxPrice
  }

  ghost predicate SoundAssignments(r: OnChainJob) {
    && DistinctProviders(r.assignments)
    && (forall i :: 0 <= i < |r.assignments| ==> GoodAssignment(r.assignments[i]))
    && TotalPrice(r.assignments) <= r.job.maxPrice
  }

  ghost predicate SoundResults(r: OnChainJob) {
    && DistinctReporters(r.results)
    && (forall i :: 0 <= i < |r.results| ==>
          ValidResult(r.results[i]) && r.results[i].jobId == r.id && AssignedTo(r.assignments, r.results[i].provider))
  }

  /** The status says how far assignment and reporting have come. */
  ghost predicate SoundStatus(r: OnChainJob) {
    match r.status
    case Pending => |r.assignments| < Required(r.job) && r.results == []
    case Assigned => |r.assignments| == Required(r.job) && |r.results| < Required(r.job)
    case AwaitingVerification => |r.assignments| == Required(r.job) && |r.results| == Required(r.job)
    case Settled => true
    case Expired => true
  }

  ghost predicate Sound(r: OnChainJob) {
    Funded(r) && SoundAssignments(r) && SoundResults(r) && SoundStatus(r)
  }

  /** A job as posted. */
  ghost predicate FreshJob(r: OnChainJob) {
    Funded(r) && r.status == Pending && r.assignments == [] && r.results == []
  }

  datatype JobEvent = Assigning(offerId: Bytes32, offer: Offer, height: u64) | Submitting(result: WorkResult)

  /** Offers reach a job only after they were validated and named by their hash. */
  ghost predicate Published(e: JobEvent) {
    e.Assigning? ==> ValidOffer(e.offer) && e.offerId != ZERO32
  }

  function JobStep(r: OnChainJob, e: JobEvent): OnChainJob {
    match e
    case Assigning(offerId, offer, height) =>
      var out := Assign(r, offerId, offer, height); if out.Ok? then out.value.record else r
    case Submitting(result) =>
      var out := Submit(r, result); if out.Ok? then out.value else r
  }

  function JobRun(r: OnChainJob, events: seq<JobEvent>): OnChainJob {
    if events == [] then r else JobStep(JobRun(r, events[..|events| - 1]), events[|events| - 1])
  }

  // ---------------------------------------------------------------- counting providers

  ghost function Assignees(xs: seq<Assignment>): set<Account> {
    set i | 0 <= i < |xs| :: xs[i].provider
  }

  ghost function Reporters(rs: seq<WorkResult>): set<Account> {
    set i | 0 <= i < |rs| :: rs[i].provider
  }

  lemma AssigneesSnoc(xs: seq<Assignment>)
    requires xs != [] && DistinctProviders(xs)
    ensures var front, last := xs[..|xs| - 1], xs[|xs| - 1];
            && DistinctProviders(front) && last.provider !in Assignees(front)
            && Assignees(xs) == Assignees(front) + {last.provider}
  {
    var front := xs[..|xs| - 1];
    assert forall i :: 0 <= i < |front| ==> front[i] == xs[i];
  }

  lemma {:induction false} AssigneesCount(xs: seq<Assignment>)
    requires DistinctProviders(xs)
    ensures |Assignees(xs)| == |xs|
  {
    if xs != [] {
      AssigneesSnoc(xs);
      AssigneesCount(xs[..|xs| - 1]);
    }
  }

  lemma ReportersSnoc(rs: seq<WorkResult>)
    requires rs != [] && DistinctReporters(rs)
    ensures var front, last := rs[..|rs| - 1], rs[|rs| - 1];
            && DistinctReporters(front) && last.provider !in Reporters(front)
            && Reporters(rs) == Reporters(front) + {last.provider}
  {
    var front := rs[..|rs| - 1];
    assert forall i :: 0 <= i < |front| ==> front[i] == rs[i];
  }

  lemma {:induction false} ReportersCount(rs: seq<WorkResult>)
    requires DistinctReporters(rs)
    ensures |Reporters(rs)| == |rs|
  {
    if rs != [] {
      ReportersSnoc(rs);
      ReportersCount(rs[..|rs| - 1]);
    }
  }

  lemma {:induction false} SubsetSize<T>(a: set<T>, b: set<T>)
    requires a <= b
    ensures |a| <= |b| && (|a| == |b| ==> a == b)
  {
    if a != {} {
      var x :| x in a;
      SubsetSize(a - {x}, b - {x});
      assert a == (a - {x}) + {x} && b == (b - {x}) + {x};
    }
  }

  lemma ReportersAssigned(r: OnChainJob)
    requires SoundResults(r)
    ensures Reporters(r.results) <= Assignees(r.assignments)
  {
    forall p | p in Reporters(r.results) ensures p in Assignees(r.assignments) {
      var i :| 0 <= i < |r.results| && r.results[i].provider == p;
      assert AssignedTo(r.assignments, r.results[i].provider);
    }
  }

  /** Once as many results as assignments are in, every assigned provider has reported. */
  lemma EveryoneReported(r: OnChainJob)
    requires SoundAssignments(r) && SoundResults(r) && |r.results| == |r.assignments|
    ensures forall i :: 0 <= i < |r.assignments| ==> Reported(r.results, r.assignments[i].provider)
  {
    AssigneesCount(r.assignments);
    ReportersCount(r.results);
    ReportersAssigned(r);
    SubsetSize(Reporters(r.results), Assignees(r.assignments));
    forall i | 0 <= i < |r.assignments| ensures Reported(r.results, r.assignments[i].provider) {
      assert r.assignments[i].provider in Reporters(r.results);
    }
  }

  // ---------------------------------------------------------------- every run is sound

  lemma AssignKeeps(r: OnChainJob, offerId: Bytes32, offer: Offer, height: u64)
    requires Sound(r) && ValidOffer(offer) && offerId != ZERO32 && Assign(r, offerId, offer, height).Ok?
    ensures Sound(Assign(r, offerId, offer, height).value.record)
  {
    hide ValidJob, Matches, ValidResult;
    var t := Assign(r, offerId, offer, height).value.record;
    var a := t.assignments[|r.assignments|];
    TotalPriceSnoc(r.assignments, a, 0);
    assert forall i :: 0 <= i < |r.assignments| ==> t.assignments[i] == r.assignments[i];
    assert r.results == [];
  }

  lemma SubmitKeeps(r: OnChainJob, res: WorkResult)
    requires Sound(r) && Submit(r, res).Ok?
    ensures Sound(Submit(r, res).value)
  {
    hide ValidJob, ValidResult, TotalPrice;
    var t := Submit(r, res).value;
    var k :| 0 <= k < |r.assignments| && r.assignments[k].provider == res.provider;
    assert !Reported(r.results, r.assignments[k].provider);
    if r.status == AwaitingVerification {
      EveryoneReported(r);
    }
    assert forall i :: 0 <= i < |r.results| ==> t.results[i] == r.results[i];
  }

  /** Every record reached from a posted job has distinct providers, affordable prices and honest results. */
  lemma {:induction false} EveryJobIsSound(r: OnChainJob, events: seq<JobEvent>)
    requires FreshJob(r) && forall i :: 0 <= i < |events| ==> Published(events[i])
    ensures Sound(JobRun(r, events))
  {
    if events == [] {
    } else {
      hide Assign, Submit, SoundAssignments, SoundResults, SoundStatus, ValidOffer, Funded;
      var front, last := events[..|events| - 1], events[|events| - 1];
      EveryJobIsSound(r, front);
      assert Published(last);
      JobStepSound(JobRun(r, front), last);
    }
  }

  lemma JobStepSound(r: OnChainJob, e: JobEvent)
    requires Sound(r) && Published(e)
    ensures Sound(JobStep(r, e))
  {
    hide Assign, Submit, SoundAssignments, SoundResults, SoundStatus, ValidOffer, Funded;
    match e
    case Assigning(offerId, offer, height) =>
      if Assign(r, offerId, offer, height).Ok? {
        AssignKeeps(r, offerId, offer, height);
      }
    case Submitting(result) =>
      if Submit(r, result).Ok? {
        SubmitKeeps(r, result);
      }
  }

  // ---------------------------------------------------------------- sums of payouts

  ghost function Naturals(m: map<Account, u64>): map<Account, nat> {
    map k | k in m :: m[k] as nat
  }

  ghost function Sum(m: map<Account, u64>): nat {
    MapSum(Naturals(m))
  }

  lemma SumPut(m: map<Account, u64>, k: Account, v: u64)
    requires k !in m
    ensures Sum(AddTo(m, k, v)) == Sum(m) + v
  {
    assert Naturals(AddTo(m, k, v)) == Naturals(m)[k := v];
    MapSumPut(Naturals(m), k, v);
  }

  lemma SumNothing()
    ensures Sum(map[]) == 0
  {
  }

  lemma {:induction false} PaymentsSum(xs: seq<Assignment>)
    requires DistinctProviders(xs)
    ensures Sum(Payments(xs)) == TotalPrice(xs) && Payments(xs).Keys == Assignees(xs)
  {
    if xs == [] {
      SumNothing();
    } else {
      hide Assignees, Sum, DistinctProviders;
      var front, last := xs[..|xs| - 1], xs[|xs| - 1];
      AssigneesSnoc(xs);
      PaymentsSum(front);
      SumPut(Payments(front), last.provider, last.price);
    }
  }

  lemma {:induction false} CollateralSum(xs: seq<Assignment>, each: u64)
    requires DistinctProviders(xs)
    ensures Sum(Collateral(xs, each)) == |xs| * each && Collateral(xs, each).Keys == Assignees(xs)
  {
    if xs == [] {
      SumNothing();
    } else {
      hide Assignees, Sum, DistinctProviders;
      var front, last := xs[..|xs| - 1], xs[|xs| - 1];
      AssigneesSnoc(xs);
      CollateralSum(front, each);
      SumPut(Collateral(front, each), last.provider, each);
      OneMore(|front|, each);
    }
  }

  /** Winners and losers partition the assignments. */
  lemma {:induction false} OnRootParts(xs: seq<Assignment>, rs: seq<WorkResult>, root: Bytes32)
    ensures |OnRoot(xs, rs, root, true)| + |OnRoot(xs, rs, root, false)| == |xs|
    ensures TotalPrice(OnRoot(xs, rs, root, true)) <= TotalPrice(xs)
  {
    hide RootOf;
    if xs != [] {
      var n := |xs| - 1;
      OnRootParts(xs[..n], rs, root);
      TotalPriceSnoc(OnRoot(xs[..n], rs, root, true), xs[n], 0);
      assert OnRoot(xs[..n], rs, root, true) + [] == OnRoot(xs[..n], rs, root, true);
    }
  }

  lemma {:induction false} OnRootWithin(xs: seq<Assignment>, rs: seq<WorkResult>, root: Bytes32, agree: bool)
    ensures forall a :: a in OnRoot(xs, rs, root, agree) ==> a in xs
  {
    hide RootOf;
    if xs != [] {
      OnRootWithin(xs[..|xs| - 1], rs, root, agree);
    }
  }

  lemma {:induction false} OnRootDistinct(xs: seq<Assignment>, rs: seq<WorkResult>, root: Bytes32, agree: bool)
    requires DistinctProviders(xs)
    ensures DistinctProviders(OnRoot(xs, rs, root, agree))
  {
    hide RootOf;
    if xs != [] {
      var front, last := xs[..|xs| - 1], xs[|xs| - 1];
      OnRootDistinct(front, rs, root, agree);
      OnRootWithin(front, rs, root, agree);
      var kept := OnRoot(front, rs, root, agree);
      forall i | 0 <= i < |kept| ensures kept[i].provider != last.provider {
        assert kept[i] in front;
        var k :| 0 <= k < |front| && front[k] == kept[i];
        assert xs[k] == front[k];
      }
    }
  }

  // ---------------------------------------------------------------- conservation

  /** Everything a job holds: the owner's escrow and one collateral per assignment. */
  function Locked(r: OnChainJob): nat {
    r.escrow + |r.assignments| * r.job.collateralRequired
  }

  /** A settlement returns the escrow as payments and refund, and every collateral as return or slash. */
  ghost predicate Conserves(r: OnChainJob, s: Settlement) {
    && Sum(s.payments) + s.refund == r.escrow
    && Sum(s.collateralReturns) + Sum(s.slashed) == |r.assignments| * r.job.collateralRequired
    && s.slashReward == Sum(s.slashed)
  }

  lemma ConservesLocked(r: OnChainJob, s: Settlement)
    requires Conserves(r, s)
    ensures Sum(s.payments) + s.refund + Sum(s.collateralReturns) + s.slashReward == Locked(r)
  {
  }

  lemma FinalizeConserves(r: OnChainJob, e: VerificationEvidence)
    requires Sound(r) && Finalize(r, e).Ok?
    ensures Conserves(r, Finalize(r, e).value.settlement)
  {
    hide Verified, TotalPrice, Payments, Collateral, Sum;
    PaymentsSum(r.assignments);
    CollateralSum(r.assignments, r.job.collateralRequired);
    SumNothing();
  }

  lemma Distributes(m: nat, n: nat, each: u64)
    ensures m * each + n * each == (m + n) * each
  {
  }

  lemma ResolveConserves(r: OnChainJob)
    requires Sound(r) && Resolve(r).Ok?
    ensures Conserves(r, Resolve(r).value.settlement)
  {
    hide TotalPrice, Payments, Collateral, Sum, OnRoot, MajorityRoot, RootOf;
    var root, each := MajorityRoot(r.results).value, r.job.collateralRequired;
    var winners, losers := OnRoot(r.assignments, r.results, root, true), OnRoot(r.assignments, r.results, root, false);
    OnRootParts(r.assignments, r.results, root);
    OnRootDistinct(r.assignments, r.results, root, true);
    OnRootDistinct(r.assignments, r.results, root, false);
    PaymentsSum(winners);
    CollateralSum(winners, each);
    CollateralSum(losers, each);
    Distributes(|winners|, |losers|, each);
  }

  lemma ExpireConserves(r: OnChainJob, height: u64)
    requires Sound(r) && Expire(r, height).Ok?
    ensures var out := Expire(r, height).value; out.refund == r.escrow && out.refund + Sum(out.collateralReturns) == Locked(r)
  {
    CollateralSum(r.assignments, r.job.collateralRequired);
  }

  /** Three or more replicas have all reported, a strict majority of them agrees and the slash fits in 64 bits. */
  ghost predicate HasMajority(r: OnChainJob) {
    && r.job.verification == REPLICATED && 3 <= |r.results| == |r.assignments|
    && exists root :: StrictMajority(r.results, root)
                      && |OnRoot(r.assignments, r.results, root, false)| * r.job.collateralRequired <= MAX_U64
  }

  /** A sound job resolves, in whatever status, exactly when it has such a majority: prices never stand in the way. */
  lemma ResolveIff(r: OnChainJob)
    requires Sound(r)
    ensures Resolve(r).Ok? <==> HasMajority(r)
    ensures r.status == AwaitingVerification && r.job.verification == REPLICATED ==>
              |r.results| == |r.assignments| == r.job.replicas
  {
    hide TotalPrice, OnRoot, MajorityRoot, RootOf, StrictMajority;
    forall root ensures MajorityRoot(r.results) == Some(root) <==> StrictMajority(r.results, root) {
      MajorityIff(r.results, root);
    }
    if MajorityRoot(r.results).Some? {
      OnRootParts(r.assignments, r.results, MajorityRoot(r.results).value);
    }
  }

  // ---------------------------------------------------------------- payouts happen once

  /** Settled and expired records accept nothing more. */
  lemma EndedIsFinal(r: OnChainJob, offerId: Bytes32, offer: Offer, height: u64, result: WorkResult, e: VerificationEvidence)
    requires r.status == Settled || r.status == Expired
    ensures Assign(r, offerId, offer, height).Err? && Submit(r, result).Err?
    ensures Finalize(r, e).Err? && Expire(r, height).Err?
  {
  }

  /** The majority rule does not look at the status: it succeeds alike, with the same settlement, in every status. */
  lemma ResolveIgnoresStatus(r: OnChainJob, status: Status)
    ensures Resolve(r.(status := status)).Ok? <==> Resolve(r).Ok?
    ensures Resolve(r).Ok? ==> Resolve(r.(status := status)).value.settlement == Resolve(r).value.settlement
    ensures Resolve(r).Err? ==> Resolve(r.(status := status)) == Resolve(r)
  {
    hide MajorityRoot, OnRoot, TotalPrice, Payments, Collateral;
  }

  /** So a record it has settled can be settled by it again, with the same payments. */
  lemma ResolvePaysAgain(r: OnChainJob)
    requires Resolve(r).Ok?
    ensures Resolve(Resolve(r).value.record).Ok?
    ensures Resolve(Resolve(r).value.record).value == Resolve(r).value
  {
    hide MajorityRoot, OnRoot, TotalPrice, Payments, Collateral;
    ResolveIgnoresStatus(r, Settled);
  }

  datatype LifeEvent =
    | Working(event: JobEvent)
    | Finalizing(evidence: VerificationEvidence)
    | Resolving
    | Expiring(height: u64)

  predicate Ended(r: OnChainJob) {
    r.status == Settled || r.status == Expired
  }

  /** One event of a job's life: the next record and the number of payouts made. */
  function LifeStep(r: OnChainJob, e: LifeEvent): (OnChainJob, nat) {
    match e
    case Working(event) => (JobStep(r, event), 0)
    case Finalizing(evidence) =>
      var out := Finalize(r, evidence); if out.Ok? then (out.value.record, 1) else (r, 0)
    case Resolving =>
      var out := Resolve(r); if out.Ok? then (out.value.record, 1) else (r, 0)
    case Expiring(height) =>
      var out := Expire(r, height); if out.Ok? then (out.value.record, 1) else (r, 0)
  }

  function Life(r: OnChainJob, events: seq<LifeEvent>): (OnChainJob, nat) {
    if events == [] then (r, 0)
    else
      var (before, paid) := Life(r, events[..|events| - 1]);
      var (after, pays) := LifeStep(before, events[|events| - 1]);
      (after, paid + pays)
  }

  /** The majority rule is applied to a record that has already ended, and succeeds. */
  predicate Repeats(r: OnChainJob, e: LifeEvent) {
    e.Resolving? && Ended(r) && Resolve(r).Ok?
  }

  function Repetitions(r: OnChainJob, events: seq<LifeEvent>): nat {
    if events == [] then 0
    else
      var front, last := events[..|events| - 1], events[|events| - 1];
      Repetitions(r, front) + (if Repeats(Life(r, front).0, last) then 1 else 0)
  }

  lemma EndedAssign(r: OnChainJob, e: JobEvent)
    requires Ended(r)
    ensures JobStep(r, e) == r
  {
  }

  lemma WorkingNeverEnds(r: OnChainJob, e: JobEvent)
    requires !Ended(r)
    ensures !Ended(JobStep(r, e))
  {
  }

  /** An event pays exactly when it ends the job or repeats the majority rule on an ended one. */
  lemma LifeStepPays(r: OnChainJob, e: LifeEvent)
    ensures LifeStep(r, e).1 == (if Repeats(r, e) then 1 else 0) + (if !Ended(r) && Ended(LifeStep(r, e).0) then 1 else 0)
    ensures Ended(r) ==> Ended(LifeStep(r, e).0)
  {
    hide JobStep, Verified, MajorityRoot, OnRoot, TotalPrice, Payments, Collateral, ByProvider, Unanimous;
    if e.Working? {
      if Ended(r) {
        EndedAssign(r, e.event);
      } else {
        WorkingNeverEnds(r, e.event);
      }
    }
  }

  /** Over every life of a job the payouts are one for its ending and one for every repetition. */
  lemma {:induction false} PayoutsCounted(r: OnChainJob, events: seq<LifeEvent>)
    ensures Life(r, events).1 == Repetitions(r, events) + (if !Ended(r) && Ended(Life(r, events).0) then 1 else 0)
    ensures Ended(r) || Repetitions(r, events) > 0 ==> Ended(Life(r, events).0)
  {
    hide LifeStep, Repeats;
    if events != [] {
      var front, last := events[..|events| - 1], events[|events| - 1];
      PayoutsCounted(r, front);
      LifeStepPays(Life(r, front).0, last);
      RepeatsEnded(Life(r, front).0, last);
    }
  }

  lemma RepeatsEnded(r: OnChainJob, e: LifeEvent)
    ensures Repeats(r, e) ==> Ended(r)
  {
  }

  ghost predicate PublishedLife(events: seq<LifeEvent>) {
    forall i :: 0 <= i < |events| && events[i].Working? ==> Published(events[i].event)
  }

  lemma EndingKeepsSound(r: OnChainJob, status: Status)
    requires Sound(r) && (status == Settled || status == Expired)
    ensures Sound(r.(status := status))
  {
    hide ValidJob, ValidResult, TotalPrice;
  }

  lemma LifeStepSound(r: OnChainJob, e: LifeEvent)
    requires Sound(r) && (e.Working? ==> Published(e.event))
    ensures Sound(LifeStep(r, e).0)
  {
    hide Assign, Submit, Sound, Published, Verified, MajorityRoot, OnRoot, TotalPrice, Payments, Collateral, ByProvider,
      Unanimous;
    EndingKeepsSound(r, Settled);
    EndingKeepsSound(r, Expired);
    if e.Working? {
      JobStepSound(r, e.event);
    }
  }

  lemma {:induction false} LifeSound(r: OnChainJob, events: seq<LifeEvent>)
    requires Sound(r) && PublishedLife(events)
    ensures Sound(Life(r, events).0)
  {
    hide Sound, LifeStep, Published;
    if events != [] {
      var front, last := events[..|events| - 1], events[|events| - 1];
      LifeSound(r, front);
      LifeStepSound(Life(r, front).0, last);
    }
  }

  /** The majority rule is applied, after the job has ended, to a record with a majority. */
  ghost predicate Repays(r: OnChainJob, events: seq<LifeEvent>, i: nat)
    requires i < |events|
  {
    events[i].Resolving? && Ended(Life(r, events[..i]).0) && HasMajority(Life(r, events[..i]).0)
  }

  lemma RepaysIff(r: OnChainJob, events: seq<LifeEvent>, i: nat)
    requires Sound(r) && PublishedLife(events) && i < |events|
    ensures Repays(r, events, i) <==> Repeats(Life(r, events[..i]).0, events[i])
  {
    hide Sound, Life, HasMajority, Resolve, Published;
    LifeSound(r, events[..i]);
    ResolveIff(Life(r, events[..i]).0);
  }

  lemma {:induction false} NoRepetitionsIff(r: OnChainJob, events: seq<LifeEvent>)
    requires Sound(r) && PublishedLife(events)
    ensures Repetitions(r, events) == 0 <==> forall i :: 0 <= i < |events| ==> !Repays(r, events, i)
  {
    hide Sound, Life, Repeats, Published, HasMajority, Ended;
    if events != [] {
      var n := |events| - 1;
      var front := events[..n];
      NoRepetitionsIff(r, front);
      RepaysIff(r, events, n);
      forall i | 0 <= i < n ensures Repays(r, front, i) <==> Repays(r, events, i) {
        assert front[..i] == events[..i];
      }
    }
  }

  /** A sound job that has not ended pays out at most once if and only if the majority rule never meets, after the
      job has ended, a record on which three or more replicas reported with a strict majority. */
  lemma PaysAtMostOnceIff(r: OnChainJob, events: seq<LifeEvent>)
    requires Sound(r) && !Ended(r) && PublishedLife(events)
    ensures Life(r, events).1 <= 1 <==> forall i :: 0 <= i < |events| ==> !Repays(r, events, i)
  {
    hide Sound, Life, Repetitions, Repays, PublishedLife;
    PayoutsCounted(r, events);
    NoRepetitionsIff(r, events);
  }

  /** Every application of the majority rule meets a record awaiting verification. */
  ghost predicate Guarded(r: OnChainJob, events: seq<LifeEvent>) {
    forall i :: 0 <= i < |events| && events[i].Resolving? ==> Life(r, events[..i]).0.status == AwaitingVerification
  }

  lemma {:induction false} GuardedNeverRepeats(r: OnChainJob, events: seq<LifeEvent>)
    requires Guarded(r, events)
    ensures Repetitions(r, events) == 0
  {
    hide Life, Resolve;
    if events != [] {
      var n := |events| - 1;
      var front := events[..n];
      forall i | 0 <= i < |front| && front[i].Resolving? ensures Life(r, front[..i]).0.status == AwaitingVerification {
        assert front[..i] == events[..i] && front[i] == events[i];
      }
      GuardedNeverRepeats(r, front);
      assert events[n].Resolving? ==> Life(r, events[..n]).0.status == AwaitingVerification;
    }
  }

  /** So a caller that applies the rule only to records awaiting verification never pays twice. */
  lemma PaysAtMostOnce(r: OnChainJob, events: seq<LifeEvent>)
    requires Guarded(r, events)
    ensures Life(r, events).1 <= 1
  {
    hide Life, Guarded, Repetitions;
    GuardedNeverRepeats(r, events);
    PayoutsCounted(r, events);
  }

  // ---------------------------------------------------------------- majority and plain settlement coincide

  lemma {:induction false} RootOfReporter(rs: seq<WorkResult>, p: Account)
    requires Reported(rs, p)
    ensures exists i :: 0 <= i < |rs| && rs[i].provider == p && rs[i].resultRoot == RootOf(rs, p)
  {
    var n := |rs| - 1;
    if rs[n].provider != p {
      var front := rs[..n];
      var k :| 0 <= k < |rs| && rs[k].provider == p;
      assert front[k].provider == p;
      RootOfReporter(front, p);
      var i :| 0 <= i < |front| && front[i].provider == p && front[i].resultRoot == RootOf(front, p);
      assert rs[i] == front[i];
    }
  }

  lemma {:induction false} EveryoneOnRoot(xs: seq<Assignment>, rs: seq<WorkResult>, root: Bytes32)
    requires forall i :: 0 <= i < |xs| ==> RootOf(rs, xs[i].provider) == root
    ensures OnRoot(xs, rs, root, true) == xs && OnRoot(xs, rs, root, false) == []
  {
    if xs != [] {
      var front := xs[..|xs| - 1];
      assert forall i :: 0 <= i < |front| ==> front[i] == xs[i];
      EveryoneOnRoot(front, rs, root);
      assert RootOf(rs, xs[|xs| - 1].provider) == root;
      assert xs == front + [xs[|xs| - 1]];
    }
  }

  lemma {:induction false} UnanimousCount(rs: seq<WorkResult>, root: Bytes32)
    requires forall i :: 0 <= i < |rs| ==> rs[i].resultRoot == root
    ensures CountRoot(rs, root) == |rs|
  {
    if rs != [] {
      UnanimousCount(rs[..|rs| - 1], root);
    }
  }

  lemma UnanimousRoots(r: OnChainJob)
    requires Sound(r) && r.status == AwaitingVerification && Unanimous(r.results)
    ensures var root := r.results[0].resultRoot;
            && MajorityRoot(r.results) == Some(root)
            && OnRoot(r.assignments, r.results, root, true) == r.assignments
            && OnRoot(r.assignments, r.results, root, false) == []
  {
    hide OnRoot, MajorityRoot, RootOf, TotalPrice, ValidJob;
    var root := r.results[0].resultRoot;
    UnanimousCount(r.results, root);
    MajorityIff(r.results, root);
    EveryoneReported(r);
    forall i | 0 <= i < |r.assignments| ensures RootOf(r.results, r.assignments[i].provider) == root {
      RootOfReporter(r.results, r.assignments[i].provider);
    }
    EveryoneOnRoot(r.assignments, r.results, root);
  }

  /** Three or more unanimous replicas settle the same way by majority as by plain finalization. */
  lemma UnanimousResolveIsFinalize(r: OnChainJob, e: VerificationEvidence)
    requires Sound(r) && r.status == AwaitingVerification
    requires r.job.verification == REPLICATED && r.job.replicas >= 3 && Unanimous(r.results)
    ensures Resolve(r) == Finalize(r, e) && Resolve(r).Ok?
  {
    hide OnRoot, MajorityRoot, RootOf, TotalPrice, Payments;
    UnanimousRoots(r);
    assert ValidResult(r.results[0]);
  }

  // ---------------------------------------------------------------- a job that is paid twice

  function TripleJob(): Job {
    Job(Name(1), Name(2), Name(3), Resources(1, 1, 0, 0, 0, 0, []), 3, 5, REPLICATED, 10, 3, false)
  }

  function Report(b: byte): WorkResult {
    WorkResult(Name(9), Name(b), Name(8), ZERO32, ZERO32, 1)
  }

  /** Three replicas reported one root and wait for verification. */
  function TripleRecord(): OnChainJob {
    OnChainJob(Name(9), TripleJob(), 3, AwaitingVerification,
               [Assignment(Name(7), Name(4), 1), Assignment(Name(7), Name(5), 1), Assignment(Name(7), Name(6), 1)],
               [Report(4), Report(5), Report(6)])
  }

  lemma TripleFunded()
    ensures Funded(TripleRecord())
  {
    hide Name;
    Named(1);
    Named(2);
    Named(3);
    Named(9);
  }

  lemma TripleAssigned()
    ensures SoundAssignments(TripleRecord())
  {
    hide Name;
    Named(4);
    Named(5);
    Named(6);
    Named(7);
    var xs := TripleRecord().assignments;
    assert xs[..2] == [xs[0], xs[1]] && [xs[0], xs[1]][..1] == [xs[0]] && [xs[0]][..0] == [];
    assert TotalPrice([xs[0]]) == 1 && TotalPrice([xs[0], xs[1]]) == 2;
  }

  lemma TripleReported()
    ensures SoundResults(TripleRecord()) && Unanimous(TripleRecord().results)
  {
    hide Name;
    Named(4);
    Named(5);
    Named(6);
    Named(8);
    Named(9);
    var r := TripleRecord();
    forall i | 0 <= i < |r.results| ensures AssignedTo(r.assignments, r.results[i].provider) {
      assert r.assignments[i].provider == r.results[i].provider;
    }
  }

  /** Applied twice, the majority rule pays this sound record twice. */
  lemma ResolvingTwicePaysTwice()
    ensures Sound(TripleRecord()) && !Ended(TripleRecord())
    ensures Life(TripleRecord(), [Resolving, Resolving]).1 == 2
  {
    hide Funded, SoundAssignments, SoundResults, Resolve, Unanimous, Name;
    var r := TripleRecord();
    TripleFunded();
    TripleAssigned();
    TripleReported();
    UnanimousResolveIsFinalize(r, VerificationEvidence(false, false, false, false, false));
    ResolvePaysAgain(r);
    var once, twice := [Resolving], [Resolving, Resolving];
    assert once[..0] == [] && twice[..1] == once;
    assert Life(r, once) == (Resolve(r).value.record, 1);
  }
}
