/** When each on-chain job step succeeds and whom it pays, said of the record's own fields. */
module ComputeDecisions {
  import opened Prelude
  import opened Compute
  import opened ComputeSafety

  // ---------------------------------------------------------------- assignment and results

  /** The offer has at least the resources, capabilities and collateral asked for, and a mode that serves the job. */
  ghost predicate Serves(o: Offer, j: Job) {
    && o.resources.cpuCores >= j.resources.cpuCores && o.resources.memoryMiB >= j.resources.memoryMiB
    && o.resources.gpuCount >= j.resources.gpuCount && o.resources.gpuMemoryMiB >= j.resources.gpuMemoryMiB
    && o.resources.storageMiB >= j.resources.storageMiB && o.resources.bandwidthMbps >= j.resources.bandwidthMbps
    && (forall c :: c in j.resources.capabilities ==> c in o.resources.capabilities)
    && o.collateral >= j.collateralRequired && (j.verification in o.modes || HYBRID in o.modes)
  }

  /** How many providers a job needs. */
  function Needed(j: Job): nat {
    if j.verification == REPLICATED then j.replicas else 1
  }

  /** An offer is assigned exactly to a job that has not ended and needs it, in time for both, when it serves the job, its
      provider is new, and the prices stay within budget and escrow. It becomes the last assignment at its price, the
      job is fully assigned when it was the last needed, and collateral beyond what is required goes back. */
  lemma AssignIff(r: OnChainJob, offerId: Bytes32, o: Offer, height: u64)
    ensures Assign(r, offerId, o, height).Ok? <==>
            && r.status != Settled && r.status != Expired
            && 0 < height <= r.job.deadline && height <= o.validUntil && Serves(o, r.job)
            && (forall i :: 0 <= i < |r.assignments| ==> r.assignments[i].provider != o.provider)
            && |r.assignments| < Needed(r.job)
            && TotalPrice(r.assignments) + o.price <= r.job.maxPrice && TotalPrice(r.assignments) + o.price <= r.escrow
    ensures Assign(r, offerId, o, height).Ok? ==>
              var out := Assign(r, offerId, o, height).value;
              && out.assignment == Assignment(offerId, o.provider, o.price)
              && out.record == r.(assignments := r.assignments + [out.assignment], status := out.record.status)
              && out.record.status == (if |r.assignments| + 1 == Needed(r.job) then Assigned else r.status)
              && out.change + r.job.collateralRequired == o.collateral
  {
    hide TotalPrice;
    assert Matches(o, r.job) <==> Serves(o, r.job) by {
      MatchesIff(o, r.job);
    }
  }

  lemma MatchesIff(o: Offer, j: Job)
    ensures Matches(o, j) <==> Serves(o, j)
  {
    assert Supports(o.modes, j.verification) <==> j.verification in o.modes || HYBRID in o.modes;
    if Matches(o, j) {
      forall c | c in j.resources.capabilities ensures c in o.resources.capabilities {
        var i :| 0 <= i < |j.resources.capabilities| && j.resources.capabilities[i] == c;
      }
    }
  }

  /** A result is taken exactly from an assigned provider that has not reported, for this job, well-formed and in time,
      once the job is fully assigned; the job awaits verification when it was the last one needed. */
  lemma SubmitIff(r: OnChainJob, res: WorkResult)
    ensures Submit(r, res).Ok? <==>
            && res.jobId == r.id != ZERO32 && res.provider != ZERO32 && res.resultRoot != ZERO32
            && 0 < res.completedHeight <= r.job.deadline && (r.status == Assigned || r.status == AwaitingVerification)
            && (exists i :: 0 <= i < |r.assignments| && r.assignments[i].provider == res.provider)
            && (forall i :: 0 <= i < |r.results| ==> r.results[i].provider != res.provider)
    ensures Submit(r, res).Ok? ==>
              var t := Submit(r, res).value;
              && t == r.(results := r.results + [res], status := t.status)
              && t.status == (if |r.results| + 1 == Needed(r.job) then AwaitingVerification else r.status)
  {
  }

  // ---------------------------------------------------------------- verification

  ghost predicate AnyTwo(kinds: seq<bool>) {
    exists i, j :: 0 <= i < j < |kinds| && kinds[i] && kinds[j]
  }

  lemma SixKinds(a: bool, b: bool, c: bool, d: bool, e: bool, f: bool)
    ensures Point(a) + Point(b) + Point(c) + Point(d) + Point(e) + Point(f) >= 2 <==> AnyTwo([a, b, c, d, e, f])
  {
    var k := [a, b, c, d, e, f];
    assert k[0] == a && k[1] == b && k[2] == c && k[3] == d && k[4] == e && k[5] == f;
  }

  ghost predicate Proven(results: map<Account, WorkResult>, e: VerificationEvidence) {
    e.proofVerified && forall p :: p in results ==> results[p].proofHash != ZERO32
  }

  ghost predicate Attested(results: map<Account, WorkResult>, e: VerificationEvidence) {
    e.attestationVerified && forall p :: p in results ==> results[p].attestationHash != ZERO32
  }

  /** What each mode asks for when all results agree; the hybrid mode asks for any two kinds of evidence. */
  lemma VerifiedIff(mode: Mode, results: map<Account, WorkResult>, e: VerificationEvidence)
    ensures mode == DETERMINISTIC ==> (Verified(mode, true, results, e) <==> e.deterministicReplay)
    ensures mode == REPLICATED ==> Verified(mode, true, results, e)
    ensures mode == CHALLENGE ==> (Verified(mode, true, results, e) <==> e.challengePassed)
    ensures mode == ZERO_KNOWLEDGE ==> (Verified(mode, true, results, e) <==> Proven(results, e))
    ensures mode == TEE ==> (Verified(mode, true, results, e) <==> Attested(results, e))
    ensures mode == CLIENT_APPROVED ==> (Verified(mode, true, results, e) <==> e.clientApproved)
    ensures mode == HYBRID ==>
              (Verified(mode, true, results, e) <==>
               AnyTwo([e.deterministicReplay, |results| > 1, Proven(results, e), Attested(results, e), e.challengePassed,
                       e.clientApproved]))
    ensures !(DETERMINISTIC <= mode <= HYBRID) ==> !Verified(mode, true, results, e)
  {
    hide AnyTwo, Point;
    SixKinds(e.deterministicReplay, |results| > 1, Proven(results, e), Attested(results, e), e.challengePassed,
             e.clientApproved);
  }

  /** A job awaiting verification is finalized exactly when every needed provider reported, all reported one non-zero root,
      the mode's evidence is there and the prices are in escrow. */
  lemma FinalizeIff(r: OnChainJob, e: VerificationEvidence)
    ensures Finalize(r, e).Ok? <==>
            && r.status == AwaitingVerification && |r.results| == Needed(r.job) > 0
            && (forall i :: 0 <= i < |r.results| ==> r.results[i].resultRoot == r.results[0].resultRoot != ZERO32)
            && Verified(r.job.verification, true, ByProvider(r.results), e) && TotalPrice(r.assignments) <= r.escrow
    ensures Finalize(r, e).Ok? ==>
              var p := Finalize(r, e).value;
              && p.record == r.(status := Settled) && p.settlement.jobId == r.id
              && p.settlement.resultRoot == r.results[0].resultRoot
              && p.settlement.slashed == map[] && p.settlement.slashReward == 0
  {
    hide TotalPrice, Verified, ByProvider, Payments, Collateral;
  }

  lemma ExpireIff(r: OnChainJob, height: u64)
    ensures Expire(r, height).Ok? <==> r.status != Settled && r.status != Expired && height > r.job.deadline
    ensures Expire(r, height).Ok? ==>
              Expire(r, height).value.record == r.(status := Expired) && Expire(r, height).value.refund == r.escrow
  {
    hide Collateral;
  }

  // ---------------------------------------------------------------- who gets what

  /** Every assigned provider is paid its own price, and nobody else is paid. */
  ghost predicate PaysPrices(payments: map<Account, u64>, xs: seq<Assignment>) {
    && (forall i :: 0 <= i < |xs| ==> xs[i].provider in payments && payments[xs[i].provider] == xs[i].price)
    && (forall p :: p in payments ==> AssignedTo(xs, p))
  }

  ghost predicate PaysEach(returns_: map<Account, u64>, xs: seq<Assignment>, each: u64) {
    && (forall i :: 0 <= i < |xs| ==> xs[i].provider in returns_ && returns_[xs[i].provider] == each)
    && (forall p :: p in returns_ ==> AssignedTo(xs, p))
  }

  lemma AssignedFront(xs: seq<Assignment>, p: Account)
    requires xs != []
    ensures AssignedTo(xs, p) <==> AssignedTo(xs[..|xs| - 1], p) || xs[|xs| - 1].provider == p
  {
    var front := xs[..|xs| - 1];
    assert forall i :: 0 <= i < |front| ==> front[i] == xs[i];
  }

  lemma {:induction false} PaymentsArePrices(xs: seq<Assignment>)
    requires DistinctProviders(xs)
    ensures PaysPrices(Payments(xs), xs)
  {
    if xs != [] {
      var n := |xs| - 1;
      var front := xs[..n];
      PaymentsArePrices(front);
      assert forall i :: 0 <= i < n ==> front[i] == xs[i];
      forall p ensures AssignedTo(xs, p) <==> AssignedTo(front, p) || xs[n].provider == p {
        AssignedFront(xs, p);
      }
      assert !AssignedTo(front, xs[n].provider);
    }
  }

  lemma {:induction false} CollateralIsEach(xs: seq<Assignment>, each: u64)
    requires DistinctProviders(xs)
    ensures PaysEach(Collateral(xs, each), xs, each)
  {
    if xs != [] {
      var n := |xs| - 1;
      var front := xs[..n];
      CollateralIsEach(front, each);
      assert forall i :: 0 <= i < n ==> front[i] == xs[i];
      forall p ensures AssignedTo(xs, p) <==> AssignedTo(front, p) || xs[n].provider == p {
        AssignedFront(xs, p);
      }
      assert !AssignedTo(front, xs[n].provider);
    }
  }

  /** Finalization and expiry return every collateral, and finalization pays everyone its price. */
  lemma FinalizePays(r: OnChainJob, e: VerificationEvidence)
    requires Sound(r) && Finalize(r, e).Ok?
    ensures var s := Finalize(r, e).value.settlement;
            PaysPrices(s.payments, r.assignments) && PaysEach(s.collateralReturns, r.assignments, r.job.collateralRequired)
  {
    hide TotalPrice, Verified, ByProvider, Payments, Collateral, Unanimous, PaysPrices, PaysEach;
    PaymentsArePrices(r.assignments);
    CollateralIsEach(r.assignments, r.job.collateralRequired);
  }

  lemma ExpirePays(r: OnChainJob, height: u64)
    requires Sound(r) && Expire(r, height).Ok?
    ensures PaysEach(Expire(r, height).value.collateralReturns, r.assignments, r.job.collateralRequired)
  {
    hide Collateral, PaysEach;
    CollateralIsEach(r.assignments, r.job.collateralRequired);
  }

  lemma {:induction false} OnRootIff(xs: seq<Assignment>, rs: seq<WorkResult>, root: Bytes32, agree: bool)
    ensures forall a :: a in OnRoot(xs, rs, root, agree) <==> a in xs && ((RootOf(rs, a.provider) == root) == agree)
  {
    hide RootOf;
    if xs != [] {
      OnRootIff(xs[..|xs| - 1], rs, root, agree);
      assert xs == xs[..|xs| - 1] + [xs[|xs| - 1]];
    }
  }

  /** The provider reported this root. */
  ghost predicate ReportedRoot(r: OnChainJob, p: Account, root: Bytes32) {
    exists i :: 0 <= i < |r.results| && r.results[i].provider == p && r.results[i].resultRoot == root
  }

  /** What majority resolution does for one assigned provider: with the majority it gets its price and its collateral,
      against it nothing, and its collateral is slashed. */
  ghost predicate Treated(r: OnChainJob, s: Settlement, a: Assignment) {
    if ReportedRoot(r, a.provider, s.resultRoot) then
      && a.provider in s.payments && s.payments[a.provider] == a.price
      && a.provider in s.collateralReturns && s.collateralReturns[a.provider] == r.job.collateralRequired
      && a.provider !in s.slashed
    else
      && a.provider !in s.payments && a.provider !in s.collateralReturns
      && a.provider in s.slashed && s.slashed[a.provider] == r.job.collateralRequired
  }

  /** Majority resolution settles on the root more than half of the results carry, and treats every assigned provider by
      what it reported. */
  lemma ResolveTreats(r: OnChainJob)
    requires Sound(r) && Resolve(r).Ok?
    ensures var s := Resolve(r).value.settlement;
            && StrictMajority(r.results, s.resultRoot) && s.jobId == r.id && Resolve(r).value.record == r.(status := Settled)
            && forall i :: 0 <= i < |r.assignments| ==> Treated(r, s, r.assignments[i])
  {
    hide TotalPrice, OnRoot, MajorityRoot, RootOf, StrictMajority, Payments, Collateral, PaysPrices, PaysEach, Treated;
    var s := Resolve(r).value.settlement;
    var root := s.resultRoot;
    MajorityIff(r.results, root);
    var winners, losers := OnRoot(r.assignments, r.results, root, true), OnRoot(r.assignments, r.results, root, false);
    OnRootDistinct(r.assignments, r.results, root, true);
    OnRootDistinct(r.assignments, r.results, root, false);
    PaymentsArePrices(winners);
    CollateralIsEach(winners, r.job.collateralRequired);
    CollateralIsEach(losers, r.job.collateralRequired);
    OnRootIff(r.assignments, r.results, root, true);
    OnRootIff(r.assignments, r.results, root, false);
    forall i | 0 <= i < |r.assignments| ensures Treated(r, s, r.assignments[i]) {
      OneTreated(r, s, winners, losers, i);
    }
  }

  lemma OneTreated(r: OnChainJob, s: Settlement, winners: seq<Assignment>, losers: seq<Assignment>, i: nat)
    requires Sound(r) && i < |r.assignments| && |r.results| == |r.assignments|
    requires forall a :: a in winners <==> a in r.assignments && RootOf(r.results, a.provider) == s.resultRoot
    requires forall a :: a in losers <==> a in r.assignments && RootOf(r.results, a.provider) != s.resultRoot
    requires PaysPrices(s.payments, winners) && PaysEach(s.collateralReturns, winners, r.job.collateralRequired)
    requires PaysEach(s.slashed, losers, r.job.collateralRequired)
    ensures Treated(r, s, r.assignments[i])
  {
    hide TotalPrice, RootOf, ValidResult;
    var a := r.assignments[i];
    EveryoneReported(r);
    RootOfReporter(r.results, a.provider);
    OneRoot(r, a.provider);
    if RootOf(r.results, a.provider) == s.resultRoot {
      var k :| 0 <= k < |winners| && winners[k] == a;
      NotAmong(r, losers, s.resultRoot, i);
    } else {
      var k :| 0 <= k < |losers| && losers[k] == a;
      NotAmong(r, winners, s.resultRoot, i);
    }
  }

  /** A provider's reported root is unique, since it reported once. */
  lemma OneRoot(r: OnChainJob, p: Account)
    requires DistinctReporters(r.results) && Reported(r.results, p)
    ensures forall root :: ReportedRoot(r, p, root) <==> root == RootOf(r.results, p)
  {
    RootOfReporter(r.results, p);
  }

  /** Of the two lists, the other one does not name this provider. */
  lemma NotAmong(r: OnChainJob, others: seq<Assignment>, root: Bytes32, i: nat)
    requires DistinctProviders(r.assignments) && i < |r.assignments| && r.assignments[i] !in others
    requires forall a :: a in others ==> a in r.assignments
    ensures !AssignedTo(others, r.assignments[i].provider)
  {
    forall k | 0 <= k < |others| ensures others[k].provider != r.assignments[i].provider {
      assert others[k] in others;
      var j :| 0 <= j < |r.assignments| && r.assignments[j] == others[k];
    }
  }
}
