/** Every step of every run keeps the schema rules. */
module Invariants {
  import opened Options
  import opened Rows
  import opened Friends
  import opened BuildReport
  import opened PackageImport
  import opened ImportFacts
  import opened ReportFacts
  import opened Queue
  import opened Runs

  lemma {:induction false} ImportAllIsValid(db: Db, env: Env, choices: seq<Choice>)
    requires Valid(db) && |choices| <= |env.report.packages|
    ensures Valid(ImportAll(db, env, choices))
    ensures InputsGrow(db.inputs, ImportAll(db, env, choices).inputs)
  {
    hide ImportOne, KeysUnique, ReferencesHold, HasMember, ClassOf, InputOf, AddsJob;
    if |choices| > 0 {
      var n := |choices| - 1;
      ImportAllIsValid(db, env, choices[..n]);
      ImportOneEffect(ImportAll(db, env, choices[..n]), env, env.report.packages[n], choices[n]);
    }
  }

  lemma MarkUnseenIsValid(db: Db, report: ScopeReport)
    requires Valid(db)
    ensures Valid(MarkUnseen(db, report))
  {
    var out := MarkUnseen(db, report);
    assert forall b :: 0 <= b < |db.binaries| ==> out.binaries[b].SameKey(db.binaries[b]);
  }

  lemma ResetIsValid(db: Db, input: nat)
    requires Valid(db)
    ensures Valid(Reset(db, input))
  {
    var out := Reset(db, input);
    assert forall a :: 0 <= a < |db.artifacts| ==>
        && out.artifacts[a].rebuild == db.artifacts[a].rebuild
        && out.artifacts[a].diffoscope == db.artifacts[a].diffoscope
        && out.artifacts[a].attestation == db.artifacts[a].attestation;
    assert ReferencesHold(out);
  }

  lemma RetryAtIsValid(db: Db, input: nat, at: Option<Time>)
    requires Valid(db) && input < |db.inputs|
    ensures Valid(db.(inputs := db.inputs[input := db.inputs[input].(nextRetry := at)]))
  {
  }

  lemma RequeueOneIsValid(db: Db, req: RebuildRequest, now: Time, input: nat)
    requires Valid(db)
    ensures Valid(RequeueOne(db, req, now, input))
    ensures |RequeueOne(db, req, now, input).inputs| == |db.inputs|
    ensures InputsGrow(db.inputs, RequeueOne(db, req, now, input).inputs)
  {
    hide UpsertJob, Reset, KeysUnique, ReferencesHold;
    if input < |db.inputs| {
      var d := if req.reset then Reset(db, input) else db;
      ResetIsValid(db, input);
      RetryAtIsValid(d, input, Some(now - 60));
      var at := d.(inputs := d.inputs[input := d.inputs[input].(nextRetry := Some(now - 60))]);
      var priority := if req.priority.Some? then req.priority.value else PRIORITY_MANUAL;
      UpsertJobEffect(at, input, priority, now);
    }
  }

  lemma {:induction false} RequeueAllIsValid(db: Db, req: RebuildRequest, now: Time, order: seq<nat>)
    requires Valid(db)
    ensures Valid(RequeueAll(db, req, now, order))
    ensures |RequeueAll(db, req, now, order).inputs| == |db.inputs|
    ensures InputsGrow(db.inputs, RequeueAll(db, req, now, order).inputs)
  {
    if |order| > 0 {
      RequeueAllIsValid(db, req, now, order[..|order| - 1]);
      RequeueOneIsValid(RequeueAll(db, req, now, order[..|order| - 1]), req, now, order[|order| - 1]);
    }
  }

  lemma ImportIsValid(db: Db, env: Env, choices: seq<Choice>)
    requires Valid(db) && |choices| == |env.report.packages|
    ensures Valid(Imported(db, env, choices))
    ensures InputsGrow(db.inputs, Imported(db, env, choices).inputs)
  {
    hide ImportAll;
    MarkUnseenIsValid(db, env.report);
    ImportAllIsValid(MarkUnseen(db, env.report), env, choices);
  }

  lemma ReportIsValid(db: Db, cfg: Config, q: nat, rep: Report, now: Time, order: seq<nat>)
    requires Valid(db)
    requires q in db.queue ==> forall i :: i in order ==> i < |db.inputs|
    ensures Valid(Reported(db, cfg, q, rep, now, order))
  {
    hide Rescheduled;
    if q in db.queue {
      StoredIsValid(db, db.queue[q], rep, order);
      RescheduledIsValid(Stored(db, db.queue[q], rep, order), cfg, q, rep.status, now);
    }
  }

  lemma StepIsValid(db: Db, cfg: Config, e: Event)
    requires Valid(db) && Legal(db, cfg, e)
    ensures Valid(Apply(db, cfg, e))
  {
    hide Imported, Reported, RequeueAll, LegalImport, IsFirst, IsStale, Matches, KeysUnique;
    match e
    case Import(packages, choices, now) =>
      if |choices| == |packages.packages| {
        ImportIsValid(db, Env(cfg, packages, now), choices);
      }
    case SubmitReport(job, report, order, now) =>
      ReportIsValid(db, cfg, job, report, now, order);
    case RequestRebuild(rebuild, order, now) =>
      RequeueAllIsValid(db, rebuild, now, order);
    case _ =>
      FewerJobsIsValid(db, Apply(db, cfg, e).queue);
  }

  lemma Prefixes(es: seq<Event>, n: nat)
    requires n <= |es|
    ensures forall m :: 0 <= m <= n ==> es[..n][..m] == es[..m]
  {
  }

  lemma PrefixIsRun(cfg: Config, es: seq<Event>, n: nat)
    requires IsRun(cfg, es) && n <= |es|
    ensures IsRun(cfg, es[..n])
  {
    Prefixes(es, n);
  }

  /** One more legal event makes a longer run. */
  lemma RunContinues(cfg: Config, es: seq<Event>, e: Event)
    requires IsRun(cfg, es) && Legal(Run(cfg, es), cfg, e)
    ensures IsRun(cfg, es + [e]) && Run(cfg, es + [e]) == Apply(Run(cfg, es), cfg, e)
  {
    hide Legal, Apply;
    var all := es + [e];
    assert all[..|es|] == es;
    assert forall n :: 0 <= n <= |es| ==> all[..n] == es[..n];
  }

  /** Every reachable state has unique keys and no dangling reference. */
  lemma {:induction false} RunIsValid(cfg: Config, es: seq<Event>)
    requires IsRun(cfg, es)
    ensures Valid(Run(cfg, es))
  {
    if |es| > 0 {
      var n := |es| - 1;
      PrefixIsRun(cfg, es, n);
      RunIsValid(cfg, es[..n]);
      StepIsValid(Run(cfg, es[..n]), cfg, es[n]);
    }
  }
}
