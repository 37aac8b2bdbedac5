/** What a rebuild report does, row by row. */
module ReportEffects {
  import opened Options
  import opened Rows
  import opened Friends
  import opened BuildReport
  import opened ReportFacts
  import opened Runs
  import opened Invariants
  import opened Leases

  /** The build inputs with the url, backend and architecture of input `i`. */
  predicate IsFriend(db: Db, i: nat, j: nat) {
    && i < |db.inputs| && j < |db.inputs|
    && db.inputs[j].cls.url == db.inputs[i].cls.url
    && db.inputs[j].cls.backend == db.inputs[i].cls.backend
    && db.inputs[j].cls.architecture == db.inputs[i].cls.architecture
  }

  /** `m` is the greatest retry count among the friends of `i`. */
  ghost predicate IsGreatestRetry(db: Db, i: nat, m: int) {
    && (exists j: nat :: IsFriend(db, i, j) && db.inputs[j].retries == m)
    && (forall j: nat :: IsFriend(db, i, j) ==> db.inputs[j].retries <= m)
  }

  /** A report for a row that does not exist changes nothing. */
  lemma UnknownRowChangesNothing(db: Db, cfg: Config, q: nat, rep: Report, order: seq<nat>, now: Time)
    requires q !in db.queue
    ensures Apply(db, cfg, SubmitReport(q, rep, order, now)) == db
  {
  }

  /** What a report stores: its log, and one rebuild for each friend of the build input. */
  lemma ReportStores(db: Db, cfg: Config, q: nat, rep: Report, order: seq<nat>, now: Time)
    requires Valid(db) && Legal(db, cfg, SubmitReport(q, rep, order, now)) && q in db.queue
    ensures var out := Apply(db, cfg, SubmitReport(q, rep, order, now));
            && out.sources == db.sources && out.binaries == db.binaries
            && out.buildLogs == db.buildLogs + [rep.log]
            && |out.rebuilds| == |db.rebuilds| + |order| && out.rebuilds[..|db.rebuilds|] == db.rebuilds
            && forall f :: 0 <= f < |order| ==>
                 out.rebuilds[|db.rebuilds| + f]
                 == Rebuild(order[f], db.queue[q].startedAt, Some(rep.builtAt), |db.buildLogs|, Some(rep.status))
    ensures forall j: nat :: j in order <==> IsFriend(db, db.queue[q].input, j)
    ensures forall a, b :: 0 <= a < b < |order| ==> order[a] != order[b]
  {
    hide Stored, MaxRetries, IsQueued;
    var stored := Stored(db, db.queue[q], rep, order);
    ReportFansOut(db, db.queue[q], rep, order);
    StoredOnlyAdds(db, db.queue[q], rep, order);
    assert forall j: nat :: IsFriend(db, db.queue[q].input, j) <==>
        InClass(db.inputs, j, db.inputs[db.queue[q].input].cls);
  }

  lemma StoredOnlyAdds(db: Db, job: Job, rep: Report, order: seq<nat>)
    ensures var out := Stored(db, job, rep, order);
            && out.sources == db.sources && out.binaries == db.binaries && out.inputs == db.inputs
            && out.queue == db.queue && out.nextJob == db.nextJob
  {
    hide MemoOf;
  }

  /** Whatever the result, the reported row is gone. */
  lemma ReportedRowIsGone(db: Db, cfg: Config, q: nat, rep: Report, order: seq<nat>, now: Time)
    requires Valid(db)
    ensures q !in Apply(db, cfg, SubmitReport(q, rep, order, now)).queue
  {
    hide Stored, MaxRetries;
    if q in db.queue {
      StoredOnlyAdds(db, db.queue[q], rep, order);
    }
  }

  /** A GOOD result takes its row off the queue and changes nothing else there, and no build input. */
  lemma GoodReportEffect(db: Db, cfg: Config, q: nat, rep: Report, order: seq<nat>, now: Time)
    requires Valid(db) && rep.status == BuildStatus.Good
    ensures var out := Apply(db, cfg, SubmitReport(q, rep, order, now));
            out.queue == db.queue - {q} && out.inputs == db.inputs && out.nextJob == db.nextJob
  {
    hide Stored;
    if q in db.queue {
      StoredOnlyAdds(db, db.queue[q], rep, order);
    } else {
      assert db.queue - {q} == db.queue;
    }
  }

  /** Every friend counts the failure and gets the next retry `at`; all other build inputs stay as they are. */
  ghost predicate FriendsCount(db: Db, out: Db, i: nat, at: Option<Time>) {
    && |out.inputs| == |db.inputs|
    && forall j: nat :: j < |db.inputs| ==>
         out.inputs[j] == if IsFriend(db, i, j) then db.inputs[j].(retries := db.inputs[j].retries + 1, nextRetry := at)
                          else db.inputs[j]
  }

  /**
   Any other result counts for all friends.  If the greatest count has reached the limit, they are never retried and
   lose all their rows; otherwise they all wait for one base delay, in hours, per failure and one more, and only the
   reported build input is queued again, at the priority of retries.
   */
  lemma FailedReportEffect(db: Db, cfg: Config, q: nat, rep: Report, order: seq<nat>, now: Time, m: int)
    requires Valid(db) && Legal(db, cfg, SubmitReport(q, rep, order, now)) && q in db.queue
    requires rep.status != BuildStatus.Good && IsGreatestRetry(db, db.queue[q].input, m)
    ensures var out, i := Apply(db, cfg, SubmitReport(q, rep, order, now)), db.queue[q].input;
            if cfg.maxRetries.Some? && m + 1 >= cfg.maxRetries.value then
              && FriendsCount(db, out, i, None)
              && out.queue == (map p | p in db.queue && !IsFriend(db, i, db.queue[p].input) :: db.queue[p])
              && out.nextJob == db.nextJob
            else
              && FriendsCount(db, out, i, Some(now + (m + 2) * cfg.retryDelayBase * 3600))
              && out.queue == (db.queue - {q})[db.nextJob := Job(i, 2, now, None, None, None)]
              && out.nextJob == db.nextJob + 1
  {
    hide Stored, MaxRetries, Rescheduled, IsQueued;
    var i, cls := db.queue[q].input, db.inputs[db.queue[q].input].cls;
    var stored := Stored(db, db.queue[q], rep, order);
    assert forall j: nat :: IsFriend(db, i, j) <==> InClass(db.inputs, j, cls);
    StoredOnlyAdds(db, db.queue[q], rep, order);
    StoredIsValid(db, db.queue[q], rep, order);
    FailedAttemptEffect(stored, cfg, q, rep.status, now);
    GreatestAfter(db, i, cls, m);
    assert RetriesAfter(stored, cls) == m + 1;
  }

  lemma GreatestAfter(db: Db, i: nat, cls: Class, m: int)
    requires i < |db.inputs| && db.inputs[i].cls == cls && IsGreatestRetry(db, i, m)
    ensures RetriesAfter(db, cls) == m + 1
  {
    hide MaxRetries;
    var bumped := BumpRetries(db.inputs, cls);
    var j: nat :| IsFriend(db, i, j) && db.inputs[j].retries == m;
    assert InClass(bumped, j, cls) && bumped[j].retries == m + 1;
    assert forall k: nat :: InClass(bumped, k, cls) ==> IsFriend(db, i, k);
    MaxRetriesIs(bumped, cls, m + 1);
  }

  /** A row that was reported is never handed out again. */
  lemma ReportedRowIsNeverTaken(cfg: Config, es: seq<Event>, m: nat, n: nat)
    requires IsRun(cfg, es) && m < n < |es|
    requires es[m].SubmitReport? && es[m].job in Run(cfg, es[..m]).queue && es[n].RequestWork?
    ensures es[n].taken != Some(es[m].job)
  {
    hide Legal, Apply;
    var db, q := Run(cfg, es[..m]), es[m].job;
    PrefixIsRun(cfg, es, m);
    RunIsValid(cfg, es[..m]);
    assert es[..m + 1][..m] == es[..m];
    ReportedRowIsGone(db, cfg, q, es[m].report, es[m].order, es[m].now);
    PrefixIsRun(cfg, es, m + 1);
    NextJobGrows(cfg, es, m, m + 1);
    RemovedStaysRemoved(cfg, es, m + 1, n, q);
    assert Legal(Run(cfg, es[..n]), cfg, es[n]);
    if es[n].taken.Some? {
      TakenIsQueued(Run(cfg, es[..n]), cfg, es[n]);
    }
  }

  lemma TakenIsQueued(db: Db, cfg: Config, e: Event)
    requires e.RequestWork? && Legal(db, cfg, e) && e.taken.Some?
    ensures e.taken.value in db.queue
  {
  }
}
