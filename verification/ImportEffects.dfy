/** What a whole import does, row by row. */
module ImportEffects {
  import opened Options
  import opened Rows
  import opened Friends
  import opened PackageImport
  import opened Runs
  import opened Invariants
  import opened ImportFlags
  import opened Coverage
  import opened BuildReport
  import opened Queue
  import opened ReportEffects
  import opened RequeueEffects
  import opened ImportReads
  import opened ImportQueueRows
  import opened ImportListings
  import opened ImportHistories

  /** An unheld row of a build input in scope whose package the report does not list. */
  ghost predicate IsDropped(db: Db, env: Env, q: nat) {
    && q in db.queue && db.queue[q].worker == None && IsInScope(db, env.report, db.queue[q].input)
    && !IsListedSource(db, env.report, |env.report.packages|, db.inputs[db.queue[q].input].source)
  }

  ghost predicate OldRowsAre(db: Db, out: Db, env: Env) {
    forall q :: q in db.queue ==>
      && (q in out.queue <==> !IsDropped(db, env, q))
      && (q in out.queue ==> out.queue[q] == db.queue[q])
  }

  /** The source package of an unheld row is seen exactly if it is listed, unless it is out of scope. */
  lemma DroppedRow(db: Db, all: Db, env: Env, q: nat)
    requires Valid(db) && SameOrigins(db, all) && q in db.queue && q in all.queue && all.queue[q] == db.queue[q]
    requires SourceRowsAre(db, all, env, |env.report.packages|)
    ensures IsUnseenJob(all, env.report, q) <==> IsDropped(db, env, q)
  {
    hide IsLastListing, IsSourceOf;
    var s, n := db.inputs[db.queue[q].input].source, |env.report.packages|;
    forall k: nat | k < n
      ensures IsSourceOf(all, env.report, env.report.packages[k], s)
              <==> IsSourceOf(db, env.report, env.report.packages[k], s)
    {
      StaysSourceOf(db, all, env.report, env.report.packages[k], s);
    }
    if IsListedSource(all, env.report, n, s) {
      var k := LastListingExists(all, env, n, s);
      ListingExists(all, env, n, s, k);
    } else if IsInScope(db, env.report, db.queue[q].input) {
      assert HasInputInScope(db, env.report, s);
    }
  }

  lemma StaysSourceOf(before: Db, out: Db, report: ScopeReport, p: PackageReport, s: nat)
    requires SameOrigins(before, out) && s < |before.sources|
    ensures IsSourceOf(out, report, p, s) <==> IsSourceOf(before, report, p, s)
  {
  }

  /** A row of a listed package is not dropped. */
  lemma NewRowIsKept(db: Db, all: Db, env: Env, choices: seq<Choice>, q: nat, k: nat)
    requires Valid(all) && SourceRowsAre(db, all, env, |env.report.packages|) && IsRowFor(all, env, choices, q, k)
    ensures !IsUnseenJob(all, env.report, q)
  {
    hide IsLastListing;
    var s, n := all.inputs[all.queue[q].input].source, |env.report.packages|;
    assert IsListedSource(all, env.report, n, s);
    var m := LastListingExists(all, env, n, s);
    ListingExists(all, env, n, s, m);
  }

  lemma DropKeepsNewRow(db: Db, all: Db, env: Env, choices: seq<Choice>, q: nat)
    requires Valid(all) && |choices| == |env.report.packages| && SourceRowsAre(db, all, env, |choices|)
    requires q in all.queue && all.queue[q].input < |all.inputs|
    requires IsNewRow(db, all, env, choices, |choices|, q, all.inputs[all.queue[q].input].cls)
    ensures var out := DropUnseen(all, env.report);
            && q in out.queue && out.queue[q] == all.queue[q]
            && IsNewRow(db, out, env, choices, |choices|, q, all.inputs[all.queue[q].input].cls)
  {
    hide SourceRowsAre, IsUnseenJob, IsFirstFlawed, IsAtLimit, Valid, IsRowFor, IsClassQueued;
    var n, cls := |choices|, all.inputs[all.queue[q].input].cls;
    var k: nat :| IsFirstFlawed(env, choices, n, cls, k) && IsRowFor(all, env, choices, q, k);
    NewRowIsKept(db, all, env, choices, q, k);
    RowStaysFor(all, DropUnseen(all, env.report), env, choices, q, k);
  }

  lemma DropKeepsNewlyQueued(db: Db, all: Db, report: ScopeReport, cls: Class)
    requires Valid(db) && SameOrigins(db, all) && !IsClassQueued(db, cls) && IsClassQueued(all, cls)
    requires forall q :: q in db.queue ==> q in all.queue && all.queue[q] == db.queue[q]
    requires forall q :: q in all.queue && q !in db.queue ==> q in DropUnseen(all, report).queue
    ensures IsClassQueued(DropUnseen(all, report), cls)
  {
    hide IsUnseenJob;
    var q :| q in all.queue && all.queue[q].input < |all.inputs| && all.inputs[all.queue[q].input].cls == cls;
    assert DropUnseen(all, report).queue[q] == all.queue[q];
  }

  lemma DropKeepsNewRows(db: Db, all: Db, env: Env, choices: seq<Choice>)
    requires Valid(db) && Valid(all) && SameOrigins(db, all) && |choices| == |env.report.packages|
    requires SourceRowsAre(db, all, env, |choices|) && QueueRowsAre(db, all, env, choices, |choices|)
    ensures OldRowsAre(db, DropUnseen(all, env.report), env)
    ensures NewRowsAre(db, DropUnseen(all, env.report), env, choices, |choices|)
  {
    hide SourceRowsAre, IsUnseenJob, IsDropped, IsFirstFlawed, IsAtLimit, Valid, IsNewRow, IsClassQueued;
    var out, n := DropUnseen(all, env.report), |choices|;
    forall q | q in db.queue {
      DroppedRow(db, all, env, q);
    }
    forall q | q in all.queue && q !in db.queue
      ensures q in out.queue && out.queue[q] == all.queue[q]
      ensures IsNewRow(db, out, env, choices, n, q, all.inputs[all.queue[q].input].cls)
    {
      DropKeepsNewRow(db, all, env, choices, q);
    }
    forall cls, k: nat
      | IsFirstFlawed(env, choices, n, cls, k) && !IsClassQueued(db, cls) && !IsAtLimit(db, env.cfg, cls)
      ensures IsClassQueued(out, cls)
    {
      DropKeepsNewlyQueued(db, all, env.report, cls);
    }
  }

  lemma MarkedIsQueuedAlike(db: Db, report: ScopeReport, cfg: Config)
    ensures forall cls :: IsClassQueued(MarkUnseen(db, report), cls) <==> IsClassQueued(db, cls)
    ensures forall cls :: IsAtLimit(MarkUnseen(db, report), cfg, cls) <==> IsAtLimit(db, cfg, cls)
  {
  }

  /** The rows that the import adds do not depend on which packages are marked unseen first. */
  lemma MarkedGivesRows(db: Db, all: Db, env: Env, choices: seq<Choice>, n: nat)
    requires QueueRowsAre(MarkUnseen(db, env.report), all, env, choices, n)
    ensures QueueRowsAre(db, all, env, choices, n)
  {
    hide IsClassQueued, IsAtLimit, IsFirstFlawed, IsRowFor;
    MarkedIsQueuedAlike(db, env.report, env.cfg);
  }

  lemma MarkedGivesInputs(db: Db, all: Db, env: Env, choices: seq<Choice>, n: nat)
    requires InputRowsAre(MarkUnseen(db, env.report), all, env, choices, n)
    ensures InputRowsAre(db, all, env, choices, n)
  {
    hide IsClassQueued, IsAtLimit, IsFlawed, IsFirstListing, HasInput, GivesUp;
    var marked := MarkUnseen(db, env.report);
    forall k: nat, cls ensures GivesUp(marked, env, choices, k, n, cls) <==> GivesUp(db, env, choices, k, n, cls) {
      MarkedGivesUp(db, env, choices, k, n, cls);
    }
    forall i: nat | |db.inputs| <= i < |all.inputs| ensures WasAdded(db, all, env, choices, n, i) {
      assert WasAdded(marked, all, env, choices, n, i);
      var k: nat :| IsNewInput(marked, all, env, choices, n, i, k);
      assert IsNewInput(db, all, env, choices, n, i, k);
    }
  }

  lemma MarkedGivesUp(db: Db, env: Env, choices: seq<Choice>, k: nat, n: nat, cls: Class)
    ensures GivesUp(MarkUnseen(db, env.report), env, choices, k, n, cls) <==> GivesUp(db, env, choices, k, n, cls)
  {
    hide IsFlawed;
  }

  // ----- the drop leaves all other tables alone -----

  lemma SameTablesSameInputs(db: Db, all: Db, out: Db, env: Env, choices: seq<Choice>, n: nat)
    requires out.inputs == all.inputs && out.sources == all.sources && InputRowsAre(db, all, env, choices, n)
    ensures InputRowsAre(db, out, env, choices, n)
  {
    hide GivesUp;
    forall k: nat | k < n && k < |env.report.packages| ensures HasInput(out, env, k) {
      assert HasInput(all, env, k);
      var i: nat :| IsInputOf(all, env.report, env.report.packages[k], i);
      assert IsInputOf(out, env.report, env.report.packages[k], i);
    }
    forall i: nat | |db.inputs| <= i < |out.inputs| ensures WasAdded(db, out, env, choices, n, i) {
      assert WasAdded(db, all, env, choices, n, i);
      var k: nat :| IsNewInput(db, all, env, choices, n, i, k);
      assert IsNewInput(db, out, env, choices, n, i, k);
    }
  }

  lemma SameTablesSameSources(db: Db, all: Db, out: Db, env: Env, n: nat)
    requires out.inputs == all.inputs && out.sources == all.sources && SourceRowsAre(db, all, env, n)
    ensures SourceRowsAre(db, out, env, n)
  {
    forall s: nat, p ensures IsSourceOf(out, env.report, p, s) <==> IsSourceOf(all, env.report, p, s) {
    }
    forall s: nat, k: nat ensures IsLastListing(out, env, n, s, k) <==> IsLastListing(all, env, n, s, k) {
    }
    forall k: nat | k < n && k < |env.report.packages| ensures HasSource(out, env, k) {
      assert HasSource(all, env, k);
      var s: nat :| IsSourceOf(all, env.report, env.report.packages[k], s);
      assert IsSourceOf(out, env.report, env.report.packages[k], s);
    }
  }

  lemma SameTablesSameBinaries(db: Db, all: Db, out: Db, env: Env, n: nat)
    requires out == all.(queue := out.queue) && BinaryRowsAre(db, all, env, n)
    ensures BinaryRowsAre(db, out, env, n)
  {
    hide IsBinaryOf, IsInScope;
    forall k: nat, a: nat, b: Binary ensures IsBinaryOf(out, env, k, a, b) <==> IsBinaryOf(all, env, k, a, b) {
      SameBinaryOf(all, out, env, k, a, b);
    }
    forall b: Binary
      ensures HasLastUrl(out, env, n, b) <==> HasLastUrl(all, env, n, b)
      ensures IsBinaryListed(out, env, n, b) <==> IsBinaryListed(all, env, n, b)
    {
      assert forall k: nat, a: nat :: IsLastArtifact(out, env, n, b, k, a) <==> IsLastArtifact(all, env, n, b, k, a);
    }
    forall k: nat, a: nat | k < n && k < |env.report.packages| && a < |env.report.packages[k].artifacts|
      ensures HasBinary(out, env, k, a)
    {
      assert HasBinary(all, env, k, a);
    }
  }

  lemma SameBinaryOf(all: Db, out: Db, env: Env, k: nat, a: nat, b: Binary)
    requires out == all.(queue := out.queue)
    ensures IsBinaryOf(out, env, k, a, b) <==> IsBinaryOf(all, env, k, a, b)
  {
  }

  /** What an import does to every table; a history is the rebuilds of one build input with their artifacts. */
  lemma ImportEffect(db: Db, cfg: Config, report: ScopeReport, choices: seq<Choice>, now: Time)
    requires Valid(db) && NoneNegative(db) && Legal(db, cfg, Import(report, choices, now))
    ensures var out, env, n := Apply(db, cfg, Import(report, choices, now)), Env(cfg, report, now), |report.packages|;
            && SourceRowsAre(db, out, env, n) && BinaryRowsAre(db, out, env, n)
            && InputRowsAre(db, out, env, choices, n)
            && OldRowsAre(db, out, env) && NewRowsAre(db, out, env, choices, n)
            && OldRebuildsStay(db, out) && HistoriesAre(db, out)
  {
    hide ImportAll, SourceRowsAre, BinaryRowsAre, InputRowsAre, QueueRowsAre, OldRowsAre, NewRowsAre, Valid,
         LegalChoices, HistoriesAre;
    var env, n := Env(cfg, report, now), |report.packages|;
    var marked := MarkUnseen(db, report);
    var all := ImportAll(marked, env, choices);
    var out := DropUnseen(all, report);
    assert choices[..n] == choices;
    MarkUnseenIsValid(db, report);
    ImportAllIsValid(marked, env, choices);
    ImportAllListsJobs(marked, env, choices);
    ImportAllRows(db, env, choices);
    ImportAllQueue(marked, env, choices, n);
    MarkedGivesRows(db, all, env, choices, n);
    DropKeepsNewRows(db, all, env, choices);
    ImportAllInputRows(marked, env, choices, n);
    MarkedGivesInputs(db, all, env, choices, n);
    SameTablesSameInputs(db, all, out, env, choices, n);
    SameTablesSameSources(db, all, out, env, n);
    SameTablesSameBinaries(db, all, out, env, n);
    ImportAllRebuilds(marked, env, choices);
    ImportGivesHistories(db, env, choices);
  }

  /**
   A build input that was there before is queued only for a status other than GOOD of a rebuild that is newest by build
   time, or for having no rebuilds; at retry priority for BAD, at default priority otherwise.
   */
  lemma NewRowOfOldInput(db: Db, cfg: Config, report: ScopeReport, choices: seq<Choice>, now: Time, q: nat)
    requires Valid(db) && NoneNegative(db) && Legal(db, cfg, Import(report, choices, now))
    requires var out := Apply(db, cfg, Import(report, choices, now));
             q in out.queue && q !in db.queue && out.queue[q].input < |db.inputs|
    ensures var row := Apply(db, cfg, Import(report, choices, now)).queue[q];
            && (row.priority == 1 || row.priority == 2)
            && if row.priority == 2 then IsNewestStatus(db.rebuilds, row.input, BuildStatus.Bad)
               else || IsNewestStatus(db.rebuilds, row.input, BuildStatus.Fail)
                    || IsNewestStatus(db.rebuilds, row.input, BuildStatus.Unknown)
  {
    hide Apply, Valid, LegalImport, SourceRowsAre, BinaryRowsAre, InputRowsAre, OldRowsAre, IsAtLimit, IsClassQueued,
         IsNewestStatus;
    var env, out := Env(cfg, report, now), Apply(db, cfg, Import(report, choices, now));
    ImportEffect(db, cfg, report, choices, now);
    var cls := out.inputs[out.queue[q].input].cls;
    var k: nat :| IsFirstFlawed(env, choices, |report.packages|, cls, k) && IsRowFor(out, env, choices, q, k);
    ImportKeepsOrigins(db, cfg, report, choices, now);
    StaysInputOf(db, out, report, report.packages[k], out.queue[q].input);
    KnownInputStatus(db, env, choices, k, out.queue[q].input);
  }

  lemma ImportKeepsOrigins(db: Db, cfg: Config, report: ScopeReport, choices: seq<Choice>, now: Time)
    requires Valid(db) && Legal(db, cfg, Import(report, choices, now))
    ensures SameOrigins(db, Apply(db, cfg, Import(report, choices, now)))
  {
    hide ImportAll, Valid, LegalChoices;
    MarkUnseenIsValid(db, report);
    ImportAllListsJobs(MarkUnseen(db, report), Env(cfg, report, now), choices);
  }

  /** In every run no retry count is negative, so this describes every import of every run. */
  lemma {:induction false} NoneIsNegative(cfg: Config, es: seq<Event>)
    requires IsRun(cfg, es)
    ensures NoneNegative(Run(cfg, es))
  {
    hide Apply, Legal;
    if |es| > 0 {
      var n := |es| - 1;
      PrefixIsRun(cfg, es, n);
      NoneIsNegative(cfg, es[..n]);
      RunIsValid(cfg, es[..n]);
      StepNoneNegative(Run(cfg, es[..n]), cfg, es[n]);
    }
  }

  lemma StepNoneNegative(db: Db, cfg: Config, e: Event)
    requires Valid(db) && NoneNegative(db) && Legal(db, cfg, e)
    ensures NoneNegative(Apply(db, cfg, e))
  {
    hide ImportAll, Reported, RequeueAll, LegalChoices, KeysUnique;
    match e
    case Import(packages, choices, now) =>
      MarkUnseenIsValid(db, packages);
      ImportAllIsValid(MarkUnseen(db, packages), Env(cfg, packages, now), choices);
    case SubmitReport(job, report, order, now) => ReportNoneNegative(db, cfg, job, report, order, now);
    case RequestRebuild(rebuild, order, now) => RequeueAllEffect(db, rebuild, now, order);
    case _ =>
  }

  lemma ReportNoneNegative(db: Db, cfg: Config, q: nat, rep: Report, order: seq<nat>, now: Time)
    requires NoneNegative(db)
    ensures NoneNegative(Reported(db, cfg, q, rep, now, order))
  {
    hide Stored, MaxRetries, Rescheduled;
    if q in db.queue && db.queue[q].input < |db.inputs| {
      StoredOnlyAdds(db, db.queue[q], rep, order);
      RescheduledNoneNegative(Stored(db, db.queue[q], rep, order), cfg, q, rep.status, now);
    }
  }

  lemma RescheduledNoneNegative(db: Db, cfg: Config, q: nat, status: BuildStatus, now: Time)
    requires NoneNegative(db) && q in db.queue && db.queue[q].input < |db.inputs|
    ensures NoneNegative(Rescheduled(db, cfg, q, status, now))
  {
    hide MaxRetries, IsQueued, RetryDelay;
    var cls := db.inputs[db.queue[q].input].cls;
    assert forall i :: 0 <= i < |db.inputs| ==>
        BumpRetries(db.inputs, cls)[i].retries >= db.inputs[i].retries;
  }
}
