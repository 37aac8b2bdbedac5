/** At most one member of a friend class is queued, unless administrators requeue friends. */
module Uniqueness {
  import opened Options
  import opened Rows
  import opened Friends
  import opened BuildReport
  import opened PackageImport
  import opened ImportFacts
  import opened ReportFacts
  import opened Queue
  import opened Runs
  import opened Invariants

  /** No two different friends among `ids`. */
  ghost predicate NoFriends(inputs: seq<Input>, ids: iset<nat>) {
    forall i, j :: i in ids && j in ids && i < |inputs| && j < |inputs| && inputs[i].cls == inputs[j].cls ==> i == j
  }

  ghost function QueuedInputs(db: Db): iset<nat> {
    iset i: nat | IsQueued(db.queue, i)
  }

  ghost predicate QueueUnique(db: Db) {
    NoFriends(db.inputs, QueuedInputs(db))
  }

  /** The queue loses rows or gains rows for `more`, and classes stay. */
  lemma QueueStaysUnique(before: Db, after: Db, more: iset<nat>)
    requires ReferencesHold(before) && |before.inputs| <= |after.inputs|
    requires forall i :: 0 <= i < |before.inputs| ==> after.inputs[i].cls == before.inputs[i].cls
    requires NoFriends(after.inputs, QueuedInputs(before) + more)
    requires forall q :: q in after.queue ==>
               (q in before.queue && after.queue[q].input == before.queue[q].input) || after.queue[q].input in more
    ensures QueueUnique(after)
  {
  }

  lemma GrowKeepsUnique(before: Db, after: Db)
    requires ReferencesHold(before) && QueueUnique(before)
    requires |before.inputs| <= |after.inputs|
    requires forall i :: 0 <= i < |before.inputs| ==> after.inputs[i].cls == before.inputs[i].cls
    requires forall q :: q in after.queue ==> q in before.queue && after.queue[q].input == before.queue[q].input
    ensures QueueUnique(after)
  {
  }

  lemma NewJobKeepsUnique(before: Db, after: Db, input: nat, cls: Class)
    requires ReferencesHold(before) && QueueUnique(before) && !HasQueuedFriend(before, cls)
    requires InClass(after.inputs, input, cls) && |before.inputs| <= |after.inputs|
    requires forall i :: 0 <= i < |before.inputs| ==> after.inputs[i].cls == before.inputs[i].cls
    requires forall q :: q in after.queue ==>
               (q in before.queue && after.queue[q].input == before.queue[q].input) || after.queue[q].input == input
    ensures QueueUnique(after)
  {
    forall i | i in QueuedInputs(before) ensures i < |before.inputs| && before.inputs[i].cls != cls {
      var q: nat :| q in before.queue && before.queue[q].input == i;
      assert !QueuedIn(before, q, cls);
    }
    QueueStaysUnique(before, after, iset{input});
  }

  lemma ImportOneKeepsUnique(db: Db, env: Env, p: PackageReport, c: Choice)
    requires Valid(db) && QueueUnique(db)
    ensures QueueUnique(ImportOne(db, env, p, c))
  {
    ImportOneEffect(db, env, p, c);
    if AddsJob(db, env, p, c) {
      NewJobKeepsUnique(db, ImportOne(db, env, p, c), InputOf(db, env, p), ClassOf(env, p));
    } else {
      GrowKeepsUnique(db, ImportOne(db, env, p, c));
    }
  }

  lemma {:induction false} ImportAllKeepsUnique(db: Db, env: Env, choices: seq<Choice>)
    requires Valid(db) && QueueUnique(db) && |choices| <= |env.report.packages|
    ensures QueueUnique(ImportAll(db, env, choices))
  {
    if |choices| > 0 {
      var n := |choices| - 1;
      ImportAllIsValid(db, env, choices[..n]);
      ImportAllKeepsUnique(db, env, choices[..n]);
      ImportOneKeepsUnique(ImportAll(db, env, choices[..n]), env, env.report.packages[n], choices[n]);
    }
  }

  lemma ImportKeepsUnique(db: Db, env: Env, choices: seq<Choice>)
    requires Valid(db) && QueueUnique(db) && |choices| == |env.report.packages|
    ensures QueueUnique(Imported(db, env, choices))
  {
    var marked := MarkUnseen(db, env.report);
    MarkUnseenIsValid(db, env.report);
    GrowKeepsUnique(db, marked);
    ImportAllIsValid(marked, env, choices);
    ImportAllKeepsUnique(marked, env, choices);
    GrowKeepsUnique(ImportAll(marked, env, choices), DropUnseen(ImportAll(marked, env, choices), env.report));
  }

  lemma ReportKeepsUnique(db: Db, cfg: Config, q: nat, rep: Report, now: Time, order: seq<nat>)
    requires Valid(db) && QueueUnique(db)
    requires q in db.queue ==> forall i :: i in order ==> i < |db.inputs|
    ensures QueueUnique(Reported(db, cfg, q, rep, now, order))
  {
    if q in db.queue {
      var stored, out := Stored(db, db.queue[q], rep, order), Reported(db, cfg, q, rep, now, order);
      StoredIsValid(db, db.queue[q], rep, order);
      var input := db.queue[q].input;
      if rep.status != BuildStatus.Good {
        FailedAttemptEffect(stored, cfg, q, rep.status, now);
      }
      assert input in QueuedInputs(db);
      assert QueuedInputs(db) + iset{input} == QueuedInputs(db);
      assert NoFriends(out.inputs, QueuedInputs(db) + iset{input});
      QueueStaysUnique(db, out, iset{input});
    }
  }

  ghost function Elements(order: seq<nat>): iset<nat> {
    iset i: nat | i in order
  }

  lemma RequeueOneQueues(db: Db, req: RebuildRequest, now: Time, input: nat)
    requires Valid(db) && input < |db.inputs|
    ensures QueuedInputs(RequeueOne(db, req, now, input)) == QueuedInputs(db) + iset{input}
  {
    hide KeysUnique, LastRebuild;
    var out := RequeueOne(db, req, now, input);
    forall i: nat ensures i in QueuedInputs(out) <==> i in QueuedInputs(db) || i == input {
      if q: nat :| q in out.queue && out.queue[q].input == i {
        assert q in db.queue ==> db.queue[q].input == i || i == input;
      }
      if q: nat :| q in db.queue && db.queue[q].input == i {
        assert q in out.queue && out.queue[q].input == i;
      }
      if i == input {
        var d := if req.reset then Reset(db, input) else db;
        ResetIsValid(db, input);
        RetryAtIsValid(d, input, Some(now - 60));
        UpsertJobEffect(d.(inputs := d.inputs[input := d.inputs[input].(nextRetry := Some(now - 60))]), input,
                        if req.priority.Some? then req.priority.value else PRIORITY_MANUAL, now);
      }
    }
  }

  lemma {:induction false} RequeueAllQueues(db: Db, req: RebuildRequest, now: Time, order: seq<nat>)
    requires Valid(db) && forall i :: i in order ==> i < |db.inputs|
    ensures QueuedInputs(RequeueAll(db, req, now, order)) == QueuedInputs(db) + Elements(order)
  {
    if |order| == 0 {
      assert QueuedInputs(db) + Elements(order) == QueuedInputs(db);
    } else {
      var n := |order| - 1;
      assert order[n] in order && forall i :: i in order[..n] ==> i in order;
      var before := RequeueAll(db, req, now, order[..n]);
      RequeueAllIsValid(db, req, now, order[..n]);
      RequeueAllQueues(db, req, now, order[..n]);
      RequeueOneQueues(before, req, now, order[n]);
      ElementsSnoc(order);
    }
  }

  lemma ElementsSnoc(order: seq<nat>)
    requires |order| > 0
    ensures Elements(order) == Elements(order[..|order| - 1]) + iset{order[|order| - 1]}
  {
  }

  /**
   A manual requeue keeps the queue unique exactly when no two friends are among the jobs queued before
   and the build inputs it selects.
   */
  lemma RequeueKeepsUniqueIff(db: Db, cfg: Config, req: RebuildRequest, order: seq<nat>, now: Time)
    requires Valid(db) && Legal(db, cfg, RequestRebuild(req, order, now))
    ensures QueueUnique(Apply(db, cfg, RequestRebuild(req, order, now)))
            <==> NoFriends(db.inputs, QueuedInputs(db) + Elements(order))
  {
    RequeueAllIsValid(db, req, now, order);
    RequeueAllQueues(db, req, now, order);
  }

  ghost predicate NoFriendRequeued(db: Db, e: Event) {
    e.RequestRebuild? ==> NoFriends(db.inputs, QueuedInputs(db) + Elements(e.order))
  }

  lemma StepKeepsUnique(db: Db, cfg: Config, e: Event)
    requires Valid(db) && Legal(db, cfg, e) && QueueUnique(db) && NoFriendRequeued(db, e)
    ensures QueueUnique(Apply(db, cfg, e))
  {
    match e
    case Import(packages, choices, now) =>
      ImportKeepsUnique(db, Env(cfg, packages, now), choices);
    case SubmitReport(job, report, order, now) =>
      ReportKeepsUnique(db, cfg, job, report, now, order);
    case RequestRebuild(rebuild, order, now) =>
      RequeueKeepsUniqueIff(db, cfg, rebuild, order, now);
    case _ =>
      GrowKeepsUnique(db, Apply(db, cfg, e));
  }

  /** In every run without a manual requeue of friends, at most one member of each class is queued. */
  lemma {:induction false} QueueIsUnique(cfg: Config, es: seq<Event>)
    requires IsRun(cfg, es)
    requires forall n :: 0 <= n < |es| ==> NoFriendRequeued(Run(cfg, es[..n]), es[n])
    ensures QueueUnique(Run(cfg, es))
  {
    if |es| > 0 {
      var n := |es| - 1;
      PrefixIsRun(cfg, es, n);
      Prefixes(es, n);
      RunIsValid(cfg, es[..n]);
      QueueIsUnique(cfg, es[..n]);
      StepKeepsUnique(Run(cfg, es[..n]), cfg, es[n]);
    } else {
      assert QueuedInputs(EMPTY_DB) == iset{};
    }
  }
}
