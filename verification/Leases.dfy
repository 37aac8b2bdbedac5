/** Who holds a job, and when it can change hands. */
module Leases {
  import opened Options
  import opened Rows
  import opened BuildReport
  import opened PackageImport
  import opened ImportFacts
  import opened ReportFacts
  import opened Queue
  import opened Runs
  import opened Invariants

  /** The three lease columns are set or NULL together. */
  predicate Coherent(job: Job) {
    job.worker.Some? == job.startedAt.Some? == job.lastPing.Some?
  }

  ghost predicate AllCoherent(db: Db) {
    forall q :: q in db.queue ==> Coherent(db.queue[q])
  }

  predicate SameLease(a: Job, b: Job) {
    a.worker == b.worker && a.startedAt == b.startedAt && a.lastPing == b.lastPing && a.input == b.input
  }

  predicate Unheld(job: Job) {
    job.worker.None? && job.startedAt.None? && job.lastPing.None?
  }

  /** Rows keep their leases; new rows have fresh ids and no lease. */
  ghost predicate LeasesKept(before: Db, after: Db) {
    && before.nextJob <= after.nextJob
    && forall q :: q in after.queue ==>
         if q in before.queue then SameLease(before.queue[q], after.queue[q])
         else before.nextJob <= q < after.nextJob && Unheld(after.queue[q])
  }

  lemma LeasesKeptTransitive(a: Db, b: Db, c: Db)
    requires LeasesKept(a, b) && LeasesKept(b, c)
    requires forall q :: q in a.queue ==> q < a.nextJob
    ensures LeasesKept(a, c)
  {
  }

  lemma ImportOneKeepsLeases(db: Db, env: Env, p: PackageReport, c: Choice)
    requires Valid(db)
    ensures LeasesKept(db, ImportOne(db, env, p, c))
    ensures forall q :: q in db.queue ==> q in ImportOne(db, env, p, c).queue
  {
    hide ImportOne, AddsJob;
    ImportOneEffect(db, env, p, c);
  }

  lemma {:induction false} ImportAllKeepsLeases(db: Db, env: Env, choices: seq<Choice>)
    requires Valid(db) && |choices| <= |env.report.packages|
    ensures LeasesKept(db, ImportAll(db, env, choices))
    ensures forall q :: q in db.queue ==> q in ImportAll(db, env, choices).queue
  {
    hide ImportOne;
    if |choices| > 0 {
      var n := |choices| - 1;
      var before := ImportAll(db, env, choices[..n]);
      ImportAllIsValid(db, env, choices[..n]);
      ImportAllKeepsLeases(db, env, choices[..n]);
      ImportOneKeepsLeases(before, env, env.report.packages[n], choices[n]);
      LeasesKeptTransitive(db, before, ImportAll(db, env, choices));
    }
  }

  /** An import takes no job from a worker, and removes none that a worker holds. */
  lemma ImportKeepsLeases(db: Db, env: Env, choices: seq<Choice>)
    requires Valid(db) && |choices| == |env.report.packages|
    ensures LeasesKept(db, Imported(db, env, choices))
    ensures forall q :: q in db.queue && db.queue[q].worker.Some? ==> q in Imported(db, env, choices).queue
  {
    hide ImportAll;
    var marked := MarkUnseen(db, env.report);
    MarkUnseenIsValid(db, env.report);
    ImportAllKeepsLeases(marked, env, choices);
  }

  lemma ReportKeepsLeases(db: Db, cfg: Config, q: nat, rep: Report, now: Time, order: seq<nat>)
    requires Valid(db)
    requires q in db.queue ==> forall i :: i in order ==> i < |db.inputs|
    ensures LeasesKept(db, Reported(db, cfg, q, rep, now, order))
  {
    if q in db.queue {
      var stored := Stored(db, db.queue[q], rep, order);
      StoredIsValid(db, db.queue[q], rep, order);
      if rep.status != BuildStatus.Good {
        hide Rescheduled;
        FailedAttemptEffect(stored, cfg, q, rep.status, now);
      }
    }
  }

  lemma RequeueOneKeepsLeases(db: Db, req: RebuildRequest, now: Time, input: nat)
    requires Valid(db)
    ensures LeasesKept(db, RequeueOne(db, req, now, input))
  {
  }

  lemma {:induction false} RequeueAllKeepsLeases(db: Db, req: RebuildRequest, now: Time, order: seq<nat>)
    requires Valid(db)
    ensures LeasesKept(db, RequeueAll(db, req, now, order))
  {
    hide RequeueOne;
    if |order| > 0 {
      var n := |order| - 1;
      var before := RequeueAll(db, req, now, order[..n]);
      RequeueAllIsValid(db, req, now, order[..n]);
      RequeueAllKeepsLeases(db, req, now, order[..n]);
      RequeueOneKeepsLeases(before, req, now, order[n]);
      LeasesKeptTransitive(db, before, RequeueAll(db, req, now, order));
    }
  }

  /** Only handing out work and heartbeats touch leases. */
  lemma OtherStepsKeepLeases(db: Db, cfg: Config, e: Event)
    requires Valid(db) && Legal(db, cfg, e) && !e.RequestWork? && !e.Ping?
    ensures LeasesKept(db, Apply(db, cfg, e))
  {
    hide Imported, Reported, RequeueAll, LegalImport;
    match e
    case Import(packages, choices, now) =>
      if |choices| == |packages.packages| {
        ImportKeepsLeases(db, Env(cfg, packages, now), choices);
      }
    case SubmitReport(job, report, order, now) =>
      ReportKeepsLeases(db, cfg, job, report, now, order);
    case RequestRebuild(rebuild, order, now) =>
      RequeueAllKeepsLeases(db, rebuild, now, order);
    case _ =>
  }

  /** What a step may do to a row that survives it. */
  ghost predicate LeaseStep(before: Job, after: Job, e: Event) {
    || SameLease(before, after)
    || (e.Ping? && before.worker == Some(e.worker) && after == before.(lastPing := Some(e.now)))
    || (e.RequestWork? && (before.worker.None? || IsStale(before, e.now))
        && (Unheld(after) || (after.worker == Some(e.request.worker) && after.lastPing == Some(e.now))))
  }

  lemma StepKeepsLeases(db: Db, cfg: Config, e: Event)
    requires Valid(db) && AllCoherent(db) && Legal(db, cfg, e)
    ensures AllCoherent(Apply(db, cfg, e)) && db.nextJob <= Apply(db, cfg, e).nextJob
    ensures forall q :: q in Apply(db, cfg, e).queue ==>
              if q in db.queue then LeaseStep(db.queue[q], Apply(db, cfg, e).queue[q], e) else q >= db.nextJob
  {
    hide Imported, Reported, RequeueAll, LegalImport, Valid;
    if !e.RequestWork? && !e.Ping? {
      OtherStepsKeepLeases(db, cfg, e);
    }
  }

  /** In every reachable state the lease columns of each job are set or NULL together. */
  lemma {:induction false} LeasesAreCoherent(cfg: Config, es: seq<Event>)
    requires IsRun(cfg, es)
    ensures AllCoherent(Run(cfg, es))
  {
    hide Apply, Legal, Valid;
    if |es| > 0 {
      var n := |es| - 1;
      PrefixIsRun(cfg, es, n);
      RunIsValid(cfg, es[..n]);
      LeasesAreCoherent(cfg, es[..n]);
      StepKeepsLeases(Run(cfg, es[..n]), cfg, es[n]);
    }
  }

  /** Worker `w` holds row `q` after the first `n` events. */
  ghost predicate Holds(cfg: Config, es: seq<Event>, n: nat, q: nat, w: int) {
    n <= |es| && HeldBy(Run(cfg, es[..n]), q, w)
  }

  /** Event `k` is a request for work that found the lease of `w` on `q` expired. */
  ghost predicate ExpiredAt(cfg: Config, es: seq<Event>, k: nat, q: nat, w: int) {
    && k < |es| && es[k].RequestWork?
    && Holds(cfg, es, k, q, w)
    && Run(cfg, es[..k]).queue[q].lastPing.Some?
    && es[k].now - Run(cfg, es[..k]).queue[q].lastPing.value > PING_DEADLINE
  }

  lemma OneStepLease(cfg: Config, es: seq<Event>, k: nat, q: nat, w: int)
    requires IsRun(cfg, es) && k < |es| && Holds(cfg, es, k, q, w)
    ensures q in Run(cfg, es[..k + 1]).queue && !Holds(cfg, es, k + 1, q, w) ==> ExpiredAt(cfg, es, k, q, w)
    ensures Run(cfg, es[..k]).nextJob <= Run(cfg, es[..k + 1]).nextJob
    ensures q < Run(cfg, es[..k]).nextJob
  {
    hide Apply, Legal;
    assert es[..k + 1][..k] == es[..k];
    PrefixIsRun(cfg, es, k);
    RunIsValid(cfg, es[..k]);
    LeasesAreCoherent(cfg, es[..k]);
    StepKeepsLeases(Run(cfg, es[..k]), cfg, es[k]);
  }

  /** A removed row never comes back under the same id. */
  lemma {:induction false} RemovedStaysRemoved(cfg: Config, es: seq<Event>, m: nat, n: nat, q: nat)
    requires IsRun(cfg, es) && m <= n <= |es|
    requires q !in Run(cfg, es[..m]).queue && q < Run(cfg, es[..m]).nextJob
    ensures q !in Run(cfg, es[..n]).queue
    decreases n
  {
    hide Apply, Legal, Valid;
    if m < n {
      NextJobGrows(cfg, es, m, n - 1);
      RemovedStaysRemoved(cfg, es, m, n - 1, q);
      assert es[..n][..n - 1] == es[..n - 1];
      PrefixIsRun(cfg, es, n - 1);
      RunIsValid(cfg, es[..n - 1]);
      LeasesAreCoherent(cfg, es[..n - 1]);
      StepKeepsLeases(Run(cfg, es[..n - 1]), cfg, es[n - 1]);
    }
  }

  lemma {:induction false} NextJobGrows(cfg: Config, es: seq<Event>, m: nat, n: nat)
    requires IsRun(cfg, es) && m <= n <= |es|
    ensures Run(cfg, es[..m]).nextJob <= Run(cfg, es[..n]).nextJob
    decreases n
  {
    hide Apply, Legal, Valid;
    if m < n {
      NextJobGrows(cfg, es, m, n - 1);
      assert es[..n][..n - 1] == es[..n - 1];
      PrefixIsRun(cfg, es, n - 1);
      RunIsValid(cfg, es[..n - 1]);
      LeasesAreCoherent(cfg, es[..n - 1]);
      StepKeepsLeases(Run(cfg, es[..n - 1]), cfg, es[n - 1]);
    }
  }

  /**
   A job that `w` held after `m` events and that still exists after `n` events is still held by `w`,
   unless some request for work in between found the last ping of `w` more than the deadline ago.
   */
  lemma {:induction false} LeaseSafety(cfg: Config, es: seq<Event>, m: nat, n: nat, q: nat, w: int)
    requires IsRun(cfg, es) && m <= n <= |es|
    requires Holds(cfg, es, m, q, w) && q in Run(cfg, es[..n]).queue
    ensures Holds(cfg, es, n, q, w) || exists k :: m <= k < n && ExpiredAt(cfg, es, k, q, w)
    decreases n - m
  {
    hide Apply, Legal, Run;
    if m < n {
      OneStepLease(cfg, es, m, q, w);
      if !ExpiredAt(cfg, es, m, q, w) {
        if q !in Run(cfg, es[..m + 1]).queue {
          RemovedStaysRemoved(cfg, es, m + 1, n, q);
        } else {
          LeaseSafety(cfg, es, m + 1, n, q, w);
        }
      }
    }
  }

  // ----- pinging in time -----

  ghost predicate TimesOrdered(es: seq<Event>) {
    forall i, j :: 0 <= i <= j < |es| ==> es[i].now <= es[j].now
  }

  /** The event renews the lease of `w` on `q`: a ping of the holder, or handing the job out to it. */
  predicate IsRenewal(e: Event, q: nat, w: int) {
    || (e.Ping? && e.job == q && e.worker == w)
    || (e.RequestWork? && e.taken == Some(q) && e.request.worker == w)
  }

  ghost predicate HoldsFrom(cfg: Config, es: seq<Event>, m: nat, n: nat, q: nat, w: int) {
    forall k :: m <= k <= n ==> Holds(cfg, es, k, q, w)
  }

  lemma RenewalSetsLastPing(db: Db, cfg: Config, e: Event, q: nat, w: int)
    requires Legal(db, cfg, e) && IsRenewal(e, q, w) && HeldBy(Apply(db, cfg, e), q, w)
    ensures Apply(db, cfg, e).queue[q].lastPing == Some(e.now)
  {
  }

  /** While the lease lasts, its last ping is no earlier than any renewal. */
  lemma {:induction false} RenewalIsRemembered(cfg: Config, es: seq<Event>, j: nat, k: nat, q: nat, w: int)
    requires IsRun(cfg, es) && TimesOrdered(es) && j < k <= |es|
    requires HoldsFrom(cfg, es, j + 1, k, q, w) && IsRenewal(es[j], q, w)
    ensures q in Run(cfg, es[..k]).queue
    ensures Run(cfg, es[..k]).queue[q].lastPing.Some?
    ensures Run(cfg, es[..k]).queue[q].lastPing.value >= es[j].now
    decreases k
  {
    hide Legal, Apply, IsRenewal;
    var before := Run(cfg, es[..k - 1]);
    assert Holds(cfg, es, k, q, w);
    assert es[..k][..k - 1] == es[..k - 1];
    if j == k - 1 {
      RenewalSetsLastPing(before, cfg, es[j], q, w);
    } else {
      assert Holds(cfg, es, k - 1, q, w);
      RenewalIsRemembered(cfg, es, j, k - 1, q, w);
      PrefixIsRun(cfg, es, k - 1);
      RunIsValid(cfg, es[..k - 1]);
      LeasesAreCoherent(cfg, es[..k - 1]);
      StepKeepsLeases(before, cfg, es[k - 1]);
    }
  }

  /** Since event `m`, and before event `k`, the lease was renewed no more than the deadline ago. */
  ghost predicate RenewedInTime(es: seq<Event>, m: nat, k: nat, q: nat, w: int)
    requires k < |es|
  {
    exists j :: m <= j < k && IsRenewal(es[j], q, w) && es[k].now - es[j].now <= PING_DEADLINE
  }

  /**
   From the hand-out or any later ping on, a holder keeps its job for as long as the job exists, if every request
   for work comes within the deadline of some renewal of the lease.
   */
  lemma {:induction false} PingingKeepsLease(cfg: Config, es: seq<Event>, m: nat, n: nat, q: nat, w: int)
    requires IsRun(cfg, es) && TimesOrdered(es) && m < n <= |es|
    requires IsRenewal(es[m], q, w) && Holds(cfg, es, m + 1, q, w) && q in Run(cfg, es[..n]).queue
    requires forall k :: m < k < n && es[k].RequestWork? ==> RenewedInTime(es, m, k, q, w)
    ensures HoldsFrom(cfg, es, m + 1, n, q, w)
    decreases n
  {
    hide Run, IsRun, IsRenewal;
    if m + 1 < n {
      if q !in Run(cfg, es[..n - 1]).queue {
        NextJobGrows(cfg, es, m + 1, n - 1);
        OneStepLease(cfg, es, m + 1, q, w);
        assert q < Run(cfg, es[..m + 1]).nextJob;
        RemovedStaysRemoved(cfg, es, n - 1, n, q);
      }
      PingingKeepsLease(cfg, es, m, n - 1, q, w);
      OneStepLease(cfg, es, n - 1, q, w);
      if ExpiredAt(cfg, es, n - 1, q, w) {
        var j :| m <= j < n - 1 && IsRenewal(es[j], q, w) && es[n - 1].now - es[j].now <= PING_DEADLINE;
        RenewalIsRemembered(cfg, es, j, n - 1, q, w);
      }
    }
  }

  /** A worker that is handed a job holds it. */
  lemma HandOutGivesLease(cfg: Config, es: seq<Event>, m: nat, q: nat)
    requires IsRun(cfg, es) && m < |es| && es[m].RequestWork? && es[m].taken == Some(q)
    ensures Holds(cfg, es, m + 1, q, es[m].request.worker)
  {
    hide IsStale, RankLe;
    var db := Run(cfg, es[..m]);
    assert es[..m + 1][..m] == es[..m];
    assert Legal(db, cfg, es[m]);
  }
}
