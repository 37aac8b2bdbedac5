/** In which runs friends always have the same rebuild history. */
module SharedHistories {
  import opened Rows
  import opened BuildReport
  import opened PackageImport
  import opened Queue
  import opened Runs
  import opened Invariants
  import opened Histories
  import opened LateJoins
  import opened Resets

  /** No package joins late, and resets treat friends alike. */
  ghost predicate KeepsHistories(db: Db, cfg: Config, e: Event) {
    match e
    case Import(packages, _, now) => !ReportJoinsLate(db, Env(cfg, packages, now))
    case RequestRebuild(rebuild, _, _) => ResetsFriendsAlike(db, rebuild)
    case _ => true
  }

  /** A step keeps the histories of all classes equal exactly under a condition on the tables and the request. */
  lemma StepKeepsHistoriesIff(db: Db, cfg: Config, e: Event)
    requires Valid(db) && Legal(db, cfg, e) && EqualHistories(db)
    ensures EqualHistories(Apply(db, cfg, e)) <==> KeepsHistories(db, cfg, e)
  {
    hide Imported, Reported, RequeueAll, LegalChoices, LegalWork, EqualHistories, ReportJoinsLate, ResetsFriendsAlike;
    match e
    case Import(packages, choices, now) =>
      ImportKeepsHistoriesIff(db, Env(cfg, packages, now), choices);
    case SubmitReport(job, report, order, now) =>
      ReportKeepsHistories(db, cfg, job, report, now, order);
    case RequestRebuild(rebuild, order, now) =>
      RequeueKeepsHistoriesIff(db, rebuild, now, order);
    case _ =>
      SameRebuildsSameHistories(db, Apply(db, cfg, e));
  }

  /** In such runs, friends always have the same rebuilds: times, log, status and artifacts. */
  lemma {:induction false} FriendsShareHistory(cfg: Config, es: seq<Event>)
    requires IsRun(cfg, es)
    requires forall n :: 0 <= n < |es| ==> KeepsHistories(Run(cfg, es[..n]), cfg, es[n])
    ensures EqualHistories(Run(cfg, es))
  {
    hide Apply, Legal, Valid, KeepsHistories;
    if |es| > 0 {
      var n := |es| - 1;
      PrefixIsRun(cfg, es, n);
      Prefixes(es, n);
      RunIsValid(cfg, es[..n]);
      FriendsShareHistory(cfg, es[..n]);
      StepKeepsHistoriesIff(Run(cfg, es[..n]), cfg, es[n]);
    }
  }
}
