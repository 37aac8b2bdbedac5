/**
 Runs of the daemon: every handler is one atomic step, and a run is a sequence of events.
 What the database leaves open (row orders, ties) is part of the event, so a run has one outcome.
 */
module Runs {
  import opened Options
  import opened Collections
  import opened Rows
  import opened Friends
  import opened BuildReport
  import opened PackageImport
  import opened Queue

  datatype Event =
    | Import(packages: ScopeReport, choices: seq<Choice>, now: Time)
    | RequestWork(request: WorkRequest, taken: Option<nat>, now: Time)
    | Ping(job: nat, worker: int, now: Time)
    | SubmitReport(job: nat, report: Report, order: seq<nat>, now: Time)
    | RequestRebuild(rebuild: RebuildRequest, order: seq<nat>, now: Time)
    | DropJobs(origin: OriginFilter, identity: IdentityFilter, now: Time)
    | DropOne(job: nat, now: Time)

  /** The job exists and the report counts as a failed attempt of the class. */
  predicate IsFailedAttempt(db: Db, e: Event, cls: Class) {
    e.SubmitReport? && e.report.status != BuildStatus.Good && QueuedIn(db, e.job, cls)
  }

  ghost predicate Legal(db: Db, cfg: Config, e: Event) {
    match e
    case Import(packages, choices, now) => LegalImport(db, Env(cfg, packages, now), choices)
    case RequestWork(request, taken, now) => LegalWork(db, request, now, taken)
    case Ping(_, _, _) => true
    case SubmitReport(job, _, order, _) =>
      job in db.queue && db.queue[job].input < |db.inputs| ==>
        Enumerates(order, FriendIds(db.inputs, db.inputs[db.queue[job].input].cls))
    case RequestRebuild(rebuild, order, _) => Enumerates(order, SelectedIds(db, rebuild))
    case DropJobs(_, _, _) => true
    case DropOne(_, _) => true
  }

  function Apply(db: Db, cfg: Config, e: Event): Db {
    match e
    case Import(packages, choices, now) =>
      if |choices| == |packages.packages| then Imported(db, Env(cfg, packages, now), choices) else db
    case RequestWork(request, taken, now) => WorkRequested(db, request, now, taken)
    case Ping(job, worker, now) => Pinged(db, job, worker, now)
    case SubmitReport(job, report, order, now) => Reported(db, cfg, job, report, now, order)
    case RequestRebuild(rebuild, order, now) => RequeueAll(db, rebuild, now, order)
    case DropJobs(origin, identity, _) => DropMatching(db, origin, identity)
    case DropOne(job, _) => DropJob(db, job)
  }

  /** The tables after all events, starting from the empty database. */
  function Run(cfg: Config, es: seq<Event>): Db {
    if |es| == 0 then EMPTY_DB
    else Apply(Run(cfg, es[..|es| - 1]), cfg, es[|es| - 1])
  }

  ghost predicate IsRun(cfg: Config, es: seq<Event>) {
    forall n {:trigger Run(cfg, es[..n])} :: 0 <= n < |es| ==> Legal(Run(cfg, es[..n]), cfg, es[n])
  }
}
