/** The in-memory compute market, run in lockstep with the on-chain steps (internal/v2/compute/market.go). */
module ComputeMarket {
  import opened Prelude
  import opened Sorting
  import opened Compute
  import opened ComputeSafety

  /** A job as the market keeps it: results are a table by provider. */
  datatype JobRecord = JobRecord(
    id: Bytes32, job: Job, escrow: u64, status: Status, assignments: seq<Assignment>, results: map<Account, WorkResult>)

  datatype MarketSettlement = MarketSettlement(
    jobId: Bytes32, resultRoot: Bytes32, payments: map<Account, u64>, refund: u64)

  /** Offer and job identities are hashes of their encodings. */
  datatype Identities = Identities(offerId: Offer -> Bytes32, jobId: Job -> Bytes32)

  /** The market's record and the on-chain record describe the same job. */
  ghost predicate Mirrors(m: JobRecord, r: OnChainJob) {
    && m.id == r.id && m.job == r.job && m.escrow == r.escrow && m.status == r.status
    && m.assignments == r.assignments
    && DistinctReporters(r.results) && m.results == ByProvider(r.results)
  }

  lemma {:induction false} TableKeys(rs: seq<WorkResult>)
    requires DistinctReporters(rs)
    ensures ByProvider(rs).Keys == Reporters(rs) && |ByProvider(rs)| == |rs|
  {
    if rs != [] {
      hide Reporters, DistinctReporters;
      ReportersSnoc(rs);
      TableKeys(rs[..|rs| - 1]);
    }
  }

  lemma {:induction false} TableEntry(rs: seq<WorkResult>, i: nat)
    requires DistinctReporters(rs) && i < |rs|
    ensures rs[i].provider in ByProvider(rs) && ByProvider(rs)[rs[i].provider] == rs[i]
  {
    if i < |rs| - 1 {
      TableEntry(rs[..|rs| - 1], i);
    }
  }

  lemma TableOf(rs: seq<WorkResult>)
    requires DistinctReporters(rs)
    ensures |ByProvider(rs)| == |rs|
    ensures forall p :: p in ByProvider(rs) <==> Reported(rs, p)
    ensures forall i :: 0 <= i < |rs| ==> rs[i].provider in ByProvider(rs) && ByProvider(rs)[rs[i].provider] == rs[i]
  {
    hide ByProvider, DistinctReporters;
    TableKeys(rs);
    forall p ensures p in ByProvider(rs) <==> Reported(rs, p) {
      assert p in ByProvider(rs).Keys <==> p in Reporters(rs);
    }
    forall i | 0 <= i < |rs| ensures rs[i].provider in ByProvider(rs) && ByProvider(rs)[rs[i].provider] == rs[i] {
      TableEntry(rs, i);
    }
  }

  lemma TableSnoc(rs: seq<WorkResult>, res: WorkResult)
    requires DistinctReporters(rs) && !Reported(rs, res.provider)
    ensures DistinctReporters(rs + [res]) && ByProvider(rs + [res]) == ByProvider(rs)[res.provider := res]
  {
    assert (rs + [res])[..|rs|] == rs;
    forall i | 0 <= i < |rs| ensures (rs + [res])[i].provider != res.provider {
      assert (rs + [res])[i] == rs[i];
    }
  }

  /** The root of whichever result Go visits first, and whether all agree. */
  method CommonRoot(results: map<Account, WorkResult>) returns (root: Bytes32, matching: bool)
    ensures results == map[] ==> root == ZERO32
    ensures results != map[] ==> exists p :: p in results && results[p].resultRoot == root
    ensures matching <==> results != map[]
                          && forall p, q :: p in results && q in results ==> results[p].resultRoot == results[q].resultRoot
  {
    root, matching := ZERO32, true;
    var first := true;
    var left := results.Keys;
    while left != {}
      invariant left <= results.Keys
      invariant first <==> left == results.Keys
      invariant first ==> root == ZERO32 && matching
      invariant !first ==> exists p :: p in results && p !in left && results[p].resultRoot == root
      invariant matching <==> forall p :: p in results && p !in left ==> results[p].resultRoot == root
    {
      var p :| p in left;
      left := left - {p};
      if first {
        root, first := results[p].resultRoot, false;
      } else if results[p].resultRoot != root {
        matching := false;
      }
    }
    if results == map[] {
      assert results.Keys == {};
    }
    matching := matching && !first;
  }

  lemma UnanimousTable(rs: seq<WorkResult>, results: map<Account, WorkResult>)
    requires DistinctReporters(rs) && results == ByProvider(rs)
    ensures Unanimous(rs) <==>
            results != map[] && forall p, q :: p in results && q in results ==> results[p].resultRoot == results[q].resultRoot
    ensures Unanimous(rs) ==> forall p :: p in results ==> results[p].resultRoot == rs[0].resultRoot
    ensures forall p :: p in results ==> results[p] in rs
  {
    hide ByProvider;
    TableOf(rs);
    forall p | p in results ensures results[p] in rs {
      var i :| 0 <= i < |rs| && rs[i].provider == p;
      assert results[p] == rs[i];
    }
    if results != map[] && forall p, q :: p in results && q in results ==> results[p].resultRoot == results[q].resultRoot {
      assert |results| > 0 by {
        var p :| p in results;
        assert p in results.Keys;
      }
      forall i | 0 <= i < |rs| ensures rs[i].resultRoot == rs[0].resultRoot {
        assert results[rs[i].provider] == rs[i] && results[rs[0].provider] == rs[0];
      }
    }
  }

  /** The market mirrors the chain, and no job ends twice. */
  ghost predicate InStep(jobs: map<Bytes32, JobRecord>, chain: map<Bytes32, OnChainJob>, endings: map<Bytes32, nat>) {
    && chain.Keys == jobs.Keys == endings.Keys
    && (forall id :: id in jobs ==> Mirrors(jobs[id], chain[id]) && jobs[id].id == id)
    && (forall id :: id in jobs ==> endings[id] <= 1 && (endings[id] == 1 ==> Ended(chain[id])))
  }

  lemma InStepPut(jobs: map<Bytes32, JobRecord>, chain: map<Bytes32, OnChainJob>, endings: map<Bytes32, nat>,
                  id: Bytes32, job: JobRecord, record: OnChainJob, n: nat)
    requires InStep(jobs, chain, endings) && Mirrors(job, record) && job.id == id
    requires n <= 1 && (n == 1 ==> Ended(record))
    ensures InStep(jobs[id := job], chain[id := record], endings[id := n])
  {
    hide Mirrors, Ended;
  }

  lemma InStepAt(jobs: map<Bytes32, JobRecord>, chain: map<Bytes32, OnChainJob>, endings: map<Bytes32, nat>, id: Bytes32)
    requires InStep(jobs, chain, endings) && id in jobs
    ensures id in chain && id in endings && Mirrors(jobs[id], chain[id]) && jobs[id].id == id
    ensures endings[id] <= 1 && (!Ended(chain[id]) ==> endings[id] == 0)
  {
    hide Mirrors;
  }

  // ---------------------------------------------------------------- one job

  method AssignJob(job: JobRecord, offerId: Bytes32, o: Offer, height: u64, ghost record: OnChainJob)
    returns (r: Outcome<(JobRecord, Assignment)>)
    requires Mirrors(job, record)
    ensures match Compute.Assign(record, offerId, o, height)
            case Err(error) => r == Err(error)
            case Ok(out) => r.Ok? && r.value.1 == out.assignment && Mirrors(r.value.0, out.record) && !Ended(record)
  {
    var objection := CheckAssignment(job.job, job.status, job.assignments, job.escrow, o, height);
    if objection.Some? {
      return Err(objection.value);
    }
    hide Matches, AssignedTo, TotalPrice, ByProvider, DistinctReporters;
    var a := Assignment(offerId, o.provider, o.price);
    var updated := job.(assignments := job.assignments + [a]);
    if |updated.assignments| == Required(job.job) {
      updated := updated.(status := Assigned);
    }
    return Ok((updated, a));
  }

  method SubmitToJob(job: JobRecord, res: WorkResult, ghost record: OnChainJob) returns (r: Outcome<JobRecord>)
    requires Mirrors(job, record) && ValidResult(res) && res.jobId == job.id
    ensures match Submit(record, res)
            case Err(error) => r == Err(error)
            case Ok(out) => r.Ok? && Mirrors(r.value, out) && !Ended(record)
  {
    hide AssignedTo, ByProvider, ValidResult, DistinctReporters, Reported;
    TableOf(record.results);
    if job.status != Assigned && job.status != AwaitingVerification {
      return Err(BadState);
    }
    if res.completedHeight > job.job.deadline {
      return Err(BadState);
    }
    var holds := FindAssigned(job.assignments, res.provider);
    if !holds {
      return Err(NoMatch);
    }
    if res.provider in job.results {
      return Err(Duplicate);
    }
    TableSnoc(record.results, res);
    TableOf(record.results + [res]);
    var updated := job.(results := job.results[res.provider := res]);
    if |updated.results| == Required(job.job) {
      updated := updated.(status := AwaitingVerification);
    }
    return Ok(updated);
  }

  method SettleJob(job: JobRecord, e: VerificationEvidence, ghost record: OnChainJob)
    returns (r: Outcome<(JobRecord, MarketSettlement)>)
    requires Mirrors(job, record)
    ensures match Finalize(record, e)
            case Err(error) => r == Err(error)
            case Ok(out) =>
              && r.Ok? && Mirrors(r.value.0, out.record) && !Ended(record) && Ended(out.record)
              && r.value.1 == MarketSettlement(out.settlement.jobId, out.settlement.resultRoot,
                                               out.settlement.payments, out.settlement.refund)
  {
    hide ByProvider, Verified, TotalPrice, Payments, Collateral, Unanimous, DistinctReporters;
    TableOf(record.results);
    if job.status != AwaitingVerification || |job.results| != Required(job.job) {
      return Err(BadState);
    }
    UnanimousTable(record.results, job.results);
    var root, matching := CommonRoot(job.results);
    var verified := VerificationSatisfied(job.job.verification, matching, job.results, e);
    VerdictAgrees(record, job.results, root, matching, e);
    if root == ZERO32 || !verified {
      return Err(VerificationFailed);
    }
    var paid, payments, _ := PayEveryone(job.assignments, job.job.collateralRequired);
    if paid.None? || paid.value > job.escrow {
      return Err(EscrowShort);
    }
    return Ok((job.(status := Settled), MarketSettlement(job.id, root, payments, job.escrow - paid.value)));
  }

  // ---------------------------------------------------------------- the market

  class Market {
    const ids: Identities
    var offers: map<Bytes32, Offer>
    var jobs: map<Bytes32, JobRecord>
    /** The same jobs, advanced by the on-chain steps, and how often each has paid out or expired. */
    ghost var chain: map<Bytes32, OnChainJob>
    ghost var endings: map<Bytes32, nat>

    ghost predicate Valid()
      reads this
    {
      InStep(jobs, chain, endings)
    }

    constructor (ids: Identities)
      ensures Valid() && this.ids == ids && offers == map[] && jobs == map[]
    {
      this.ids := ids;
      offers, jobs, chain, endings := map[], map[], map[], map[];
    }

    method PublishOffer(o: Offer, height: u64) returns (r: Outcome<Bytes32>)
      requires Valid()
      modifies this`offers
      ensures Valid()
      ensures r == (if !ValidOffer(o) || height == 0 || o.validUntil < height then Err(InvalidOffer)
                    else if ids.offerId(o) in old(offers) then Err(Duplicate) else Ok(ids.offerId(o)))
      ensures offers == if r.Ok? then old(offers)[r.value := o] else old(offers)
    {
      hide InStep, ValidOffer;
      if !ValidOffer(o) || height == 0 || o.validUntil < height {
        return Err(InvalidOffer);
      }
      var id := ids.offerId(o);
      if id in offers {
        return Err(Duplicate);
      }
      offers := offers[id := o];
      return Ok(id);
    }

    /** A posted job starts as a fresh on-chain record. */
    method PostJob(j: Job, escrow: u64, height: u64) returns (r: Outcome<Bytes32>)
      requires Valid()
      modifies this`jobs, this`chain, this`endings
      ensures Valid()
      ensures r == (if !ValidJob(j) || height == 0 || j.deadline < height then Err(InvalidJob)
                    else if escrow < j.maxPrice then Err(EscrowShort)
                    else if ids.jobId(j) in old(jobs) then Err(Duplicate) else Ok(ids.jobId(j)))
      ensures r.Ok? ==> chain == old(chain)[r.value := OnChainJob(r.value, j, escrow, Pending, [], [])]
      ensures r.Ok? && r.value != ZERO32 ==> FreshJob(chain[r.value])
      ensures r.Err? ==> chain == old(chain) && jobs == old(jobs)
    {
      hide ValidJob, InStep;
      if !ValidJob(j) || height == 0 || j.deadline < height {
        return Err(InvalidJob);
      }
      if escrow < j.maxPrice {
        return Err(EscrowShort);
      }
      var id := ids.jobId(j);
      if id in jobs {
        return Err(Duplicate);
      }
      var job := JobRecord(id, j, escrow, Pending, [], map[]);
      ghost var record := OnChainJob(id, j, escrow, Pending, [], []);
      InStepPut(jobs, chain, endings, id, job, record, 0);
      jobs, chain, endings := jobs[id := job], chain[id := record], endings[id := 0];
      return Ok(id);
    }

    /** Assigning succeeds exactly when the on-chain step does, with the same assignment and record. */
    method AssignOffer(jobId: Bytes32, offerId: Bytes32, height: u64) returns (r: Outcome<Assignment>)
      requires Valid()
      modifies this`jobs, this`chain
      ensures Valid()
      ensures jobId !in old(jobs) || offerId !in offers ==> r == Err(NotFound) && chain == old(chain)
      ensures jobId in old(jobs) && offerId in offers ==>
                jobId in old(chain)
                && match Compute.Assign(old(chain)[jobId], offerId, offers[offerId], height)
                   case Err(error) => r == Err(error) && chain == old(chain)
                   case Ok(out) => r == Ok(out.assignment) && chain == old(chain)[jobId := out.record]
    {
      hide InStep, Compute.Assign, Mirrors, Ended;
      if jobId !in jobs || offerId !in offers {
        return Err(NotFound);
      }
      InStepAt(jobs, chain, endings, jobId);
      var out := AssignJob(jobs[jobId], offerId, offers[offerId], height, chain[jobId]);
      if out.Err? {
        return Err(out.error);
      }
      ghost var record := Compute.Assign(chain[jobId], offerId, offers[offerId], height).value.record;
      MirrorsId(out.value.0, record);
      AssignKeepsId(chain[jobId], offerId, offers[offerId], height);
      MirrorsId(jobs[jobId], chain[jobId]);
      InStepPut(jobs, chain, endings, jobId, out.value.0, record, 0);
      assert endings[jobId := 0] == endings;
      jobs, chain := jobs[jobId := out.value.0], chain[jobId := record];
      return Ok(out.value.1);
    }

    /** Results are accepted exactly when the on-chain step accepts them. */
    method SubmitResult(res: WorkResult) returns (r: Outcome<bool>)
      requires Valid()
      modifies this`jobs, this`chain
      ensures Valid()
      ensures !ValidResult(res) ==> r == Err(InvalidResult) && chain == old(chain)
      ensures ValidResult(res) && res.jobId !in old(jobs) ==> r == Err(NotFound) && chain == old(chain)
      ensures ValidResult(res) && res.jobId in old(jobs) ==>
                res.jobId in old(chain)
                && match Submit(old(chain)[res.jobId], res)
                   case Err(error) => r == Err(error) && chain == old(chain)
                   case Ok(record) => r == Ok(true) && chain == old(chain)[res.jobId := record]
    {
      hide InStep, Submit, Mirrors, Ended, ValidResult;
      if !ValidResult(res) {
        return Err(InvalidResult);
      }
      if res.jobId !in jobs {
        return Err(NotFound);
      }
      InStepAt(jobs, chain, endings, res.jobId);
      var out := SubmitToJob(jobs[res.jobId], res, chain[res.jobId]);
      if out.Err? {
        return Err(out.error);
      }
      ghost var record := Submit(chain[res.jobId], res).value;
      MirrorsId(out.value, record);
      SubmitKeepsId(chain[res.jobId], res);
      MirrorsId(jobs[res.jobId], chain[res.jobId]);
      InStepPut(jobs, chain, endings, res.jobId, out.value, record, 0);
      assert endings[res.jobId := 0] == endings;
      jobs, chain := jobs[res.jobId := out.value], chain[res.jobId := record];
      return Ok(true);
    }

    /** Finalization pays exactly what the on-chain settlement pays, whatever order results are visited in. */
    method FinalizeJob(jobId: Bytes32, e: VerificationEvidence) returns (r: Outcome<MarketSettlement>)
      requires Valid()
      modifies this`jobs, this`chain, this`endings
      ensures Valid()
      ensures jobId !in old(jobs) ==> r == Err(NotFound) && chain == old(chain) && endings == old(endings)
      ensures jobId in old(jobs) ==>
                jobId in old(chain)
                && match Finalize(old(chain)[jobId], e)
                   case Err(error) => r == Err(error) && chain == old(chain) && endings == old(endings)
                   case Ok(out) =>
                     && r == Ok(MarketSettlement(out.settlement.jobId, out.settlement.resultRoot,
                                                 out.settlement.payments, out.settlement.refund))
                     && chain == old(chain)[jobId := out.record]
                     && jobId in old(endings) && old(endings)[jobId] == 0 && endings == old(endings)[jobId := 1]
    {
      hide InStep, Finalize, Mirrors, Ended;
      if jobId !in jobs {
        return Err(NotFound);
      }
      InStepAt(jobs, chain, endings, jobId);
      var out := SettleJob(jobs[jobId], e, chain[jobId]);
      if out.Err? {
        return Err(out.error);
      }
      ghost var record := Finalize(chain[jobId], e).value.record;
      MirrorsId(out.value.0, record);
      FinalizeKeepsId(chain[jobId], e);
      MirrorsId(jobs[jobId], chain[jobId]);
      InStepPut(jobs, chain, endings, jobId, out.value.0, record, 1);
      jobs, chain, endings := jobs[jobId := out.value.0], chain[jobId := record], endings[jobId := 1];
      return Ok(out.value.1);
    }

    /** Exactly the jobs the on-chain step would expire are expired, and their IDs are returned in order. */
    method ExpireJobs(height: u64) returns (expired: seq<Bytes32>)
      requires Valid()
      modifies this`jobs, this`chain, this`endings
      ensures Valid()
      ensures Swept(old(chain), old(endings), chain, endings, height, Elements(expired), old(chain).Keys)
      ensures Sorted(expired, (a, b) => LexLess(a, b)) && Distinct(expired)
    {
      hide InStep, Sort, Mirrors, Expire, Ended, Swept, Sorted, TotalOn;
      var found: seq<Bytes32> := [];
      var left := jobs.Keys;
      ghost var was, had := chain, endings;
      ghost var done: set<Bytes32> := {};
      InStepKeys(jobs, chain, endings);
      SweptStart(chain, endings, height);
      assert Elements(found) == {};
      while left != {}
        invariant left <= jobs.Keys == was.Keys && Valid() && done == was.Keys - left
        invariant Swept(was, had, chain, endings, height, Elements(found), done)
        invariant Distinct(found) && Elements(found) <= done
      {
        var id :| id in left;
        left := left - {id};
        InStepAt(jobs, chain, endings, id);
        var job := jobs[id];
        MirrorsStatus(job, chain[id], height);
        SweptUntouched(was, had, chain, endings, height, Elements(found), done, id);
        if job.status != Settled && job.status != Expired && height > job.job.deadline {
          ghost var record := Expire(chain[id], height).value.record;
          InStepPut(jobs, chain, endings, id, job.(status := Expired), record, 1);
          SweptExpire(was, had, chain, endings, height, Elements(found), done, id);
          assert Elements(found + [id]) == Elements(found) + {id};
          jobs, chain, endings := jobs[id := job.(status := Expired)], chain[id := record], endings[id := 1];
          found := found + [id];
        } else {
          SweptSkip(was, had, chain, endings, height, Elements(found), done, id);
        }
        done := done + {id};
        assert done == was.Keys - left;
        InStepKeys(jobs, chain, endings);
      }
      assert done == was.Keys;
      expired := Sort(found, (a, b) => LexLess(a, b));
      SameElements(expired, found);
      assert Elements(expired) == Elements(found);
      DistinctPermuted(expired, found);
      IdsOrder(found);
      SortSorted(found, (a, b) => LexLess(a, b));
    }
  }

  // ---------------------------------------------------------------- sweeping for expired jobs

  /** Of the jobs in `done`, exactly those in `expired` could expire and did; nothing else changed. */
  ghost predicate Swept(was: map<Bytes32, OnChainJob>, had: map<Bytes32, nat>, chain: map<Bytes32, OnChainJob>,
                        endings: map<Bytes32, nat>, height: u64, expired: set<Bytes32>, done: set<Bytes32>) {
    && was.Keys == chain.Keys == had.Keys == endings.Keys && expired <= done <= was.Keys
    && (forall id :: id in done ==> (id in expired <==> Expire(was[id], height).Ok?))
    && (forall id :: id in expired ==> chain[id] == Expire(was[id], height).value.record && had[id] == 0 && endings[id] == 1)
    && (forall id :: id in was && id !in expired ==> chain[id] == was[id] && endings[id] == had[id])
  }

  lemma SweptStart(chain: map<Bytes32, OnChainJob>, endings: map<Bytes32, nat>, height: u64)
    requires chain.Keys == endings.Keys
    ensures Swept(chain, endings, chain, endings, height, {}, {})
  {
  }

  lemma SweptUntouched(was: map<Bytes32, OnChainJob>, had: map<Bytes32, nat>, chain: map<Bytes32, OnChainJob>,
                       endings: map<Bytes32, nat>, height: u64, expired: set<Bytes32>, done: set<Bytes32>, id: Bytes32)
    requires Swept(was, had, chain, endings, height, expired, done) && id in was && id !in done
    ensures id in chain && id in had && id in endings && chain[id] == was[id] && endings[id] == had[id]
  {
    hide Expire;
  }

  lemma SweptExpire(was: map<Bytes32, OnChainJob>, had: map<Bytes32, nat>, chain: map<Bytes32, OnChainJob>,
                    endings: map<Bytes32, nat>, height: u64, expired: set<Bytes32>, done: set<Bytes32>, id: Bytes32)
    requires Swept(was, had, chain, endings, height, expired, done) && id in was && id !in done
    requires id in chain && id in endings && Expire(chain[id], height).Ok? && endings[id] == 0
    ensures Swept(was, had, chain[id := Expire(chain[id], height).value.record], endings[id := 1], height,
                  expired + {id}, done + {id})
  {
    hide Expire;
  }

  lemma SweptSkip(was: map<Bytes32, OnChainJob>, had: map<Bytes32, nat>, chain: map<Bytes32, OnChainJob>,
                  endings: map<Bytes32, nat>, height: u64, expired: set<Bytes32>, done: set<Bytes32>, id: Bytes32)
    requires Swept(was, had, chain, endings, height, expired, done) && id in was && id !in done
    requires id in chain && id in endings && Expire(chain[id], height).Err?
    ensures Swept(was, had, chain, endings, height, expired, done + {id})
  {
    hide Expire;
  }

  lemma InStepKeys(jobs: map<Bytes32, JobRecord>, chain: map<Bytes32, OnChainJob>, endings: map<Bytes32, nat>)
    requires InStep(jobs, chain, endings)
    ensures chain.Keys == jobs.Keys == endings.Keys
  {
  }

  lemma MirrorsStatus(m: JobRecord, r: OnChainJob, height: u64)
    requires Mirrors(m, r)
    ensures Expire(r, height).Ok? <==> m.status != Settled && m.status != Expired && height > m.job.deadline
    ensures Expire(r, height).Ok? ==>
              !Ended(r) && Ended(Expire(r, height).value.record) && Mirrors(m.(status := Expired), Expire(r, height).value.record)
  {
    hide ByProvider, Collateral, DistinctReporters;
  }

  lemma MirrorsId(m: JobRecord, r: OnChainJob)
    requires Mirrors(m, r)
    ensures m.id == r.id
  {
  }

  lemma AssignKeepsId(r: OnChainJob, offerId: Bytes32, o: Offer, height: u64)
    requires Compute.Assign(r, offerId, o, height).Ok?
    ensures Compute.Assign(r, offerId, o, height).value.record.id == r.id
  {
  }

  lemma SubmitKeepsId(r: OnChainJob, res: WorkResult)
    requires Submit(r, res).Ok?
    ensures Submit(r, res).value.id == r.id
  {
  }

  lemma FinalizeKeepsId(r: OnChainJob, e: VerificationEvidence)
    requires Finalize(r, e).Ok?
    ensures Finalize(r, e).value.record.id == r.id
  {
  }

  lemma IdsOrder(ids: seq<Bytes32>)
    ensures TotalOn(ids, (a, b) => LexLess(a, b))
  {
    forall a, b | a in ids && b in ids ensures (a != b ==> LexLess(a, b) || LexLess(b, a)) && (LexLess(a, b) ==> !LexLess(b, a)) {
      LexTrichotomy(a, b);
    }
    forall a, b, c | a in ids && b in ids && c in ids && LexLess(a, b) && LexLess(b, c) ensures LexLess(a, c) {
      LexTransitive(a, b, c);
    }
  }

  /** The market's verdict on an awaiting job is the chain's, whichever root it looked at first. */
  lemma VerdictAgrees(r: OnChainJob, results: map<Account, WorkResult>, root: Bytes32, matching: bool, e: VerificationEvidence)
    requires r.status == AwaitingVerification && |r.results| == Required(r.job)
    requires DistinctReporters(r.results) && results == ByProvider(r.results)
    requires results == map[] ==> root == ZERO32
    requires results != map[] ==> exists p :: p in results && results[p].resultRoot == root
    requires matching <==> Unanimous(r.results)
    ensures root != ZERO32 && Verified(r.job.verification, matching, results, e) ==>
              matching && r.results[0].resultRoot == root
    ensures root != ZERO32 && Verified(r.job.verification, matching, results, e) <==>
            Unanimous(r.results) && r.results[0].resultRoot != ZERO32
            && Verified(r.job.verification, true, ByProvider(r.results), e)
  {
    hide ByProvider, Verified;
    UnanimousTable(r.results, results);
    TableOf(r.results);
    if root != ZERO32 && Verified(r.job.verification, matching, results, e) {
      assert r.results != [];
      VerifiedNeedsUnanimity(r, matching, e);
    }
  }
}
