/** What an import reads: the status of the newest rebuild. */
module ImportReads {
  import opened Options
  import opened Rows
  import opened PackageImport
  import opened ImportFacts
  import opened Runs
  import opened Invariants
  import opened Dashboard
  import opened Coverage

  // ----- the status that an import reads -----

  predicate IsRebuildOf(rebuilds: seq<Rebuild>, i: nat, r: nat) {
    r < |rebuilds| && rebuilds[r].input == i
  }

  /** No rebuild of the build input was built later; if any has a build time, so has this one. */
  ghost predicate IsNewestBuilt(rebuilds: seq<Rebuild>, i: nat, r: nat) {
    && IsRebuildOf(rebuilds, i, r)
    && forall o: nat :: IsRebuildOf(rebuilds, i, o) && rebuilds[o].builtAt.Some? ==>
         rebuilds[r].builtAt.Some? && rebuilds[o].builtAt.value <= rebuilds[r].builtAt.value
  }

  /** The status of the rebuild, UNKWN for NULL. */
  predicate HasStatus(rebuild: Rebuild, status: BuildStatus) {
    rebuild.status == Some(status) || (rebuild.status == None && status == BuildStatus.Unknown)
  }

  /** The status is that of a rebuild with the latest build time, or UNKWN for an input without rebuilds. */
  ghost predicate IsNewestStatus(rebuilds: seq<Rebuild>, i: nat, status: BuildStatus) {
    || (exists r: nat :: IsNewestBuilt(rebuilds, i, r) && HasStatus(rebuilds[r], status))
    || ((forall r: nat :: !IsRebuildOf(rebuilds, i, r)) && status == BuildStatus.Unknown)
  }

  lemma CurrentStatusIff(rebuilds: seq<Rebuild>, i: nat, status: BuildStatus)
    ensures IsCurrentStatus(rebuilds, i, status) <==> IsNewestStatus(rebuilds, i, status)
  {
    assert forall r: nat :: r in RebuildIds(rebuilds, i) <==> IsRebuildOf(rebuilds, i, r);
    forall r: nat ensures IsNewestBuilt(rebuilds, i, r) <==> IsLatestBuilt(rebuilds, i, r) {
    }
  }

  /**
   With all build times set, the dashboard shows one rebuild of a build input that has any, and an import reads the
   status of that rebuild whatever the database picks, exactly if no other rebuild was built at the same time with
   another status.  Distinct build times are enough.
   */
  lemma ImportReadsDashboardIff(rebuilds: seq<Rebuild>, i: nat) returns (r: nat)
    requires exists o: nat :: IsRebuildOf(rebuilds, i, o)
    requires forall o: nat :: IsRebuildOf(rebuilds, i, o) ==> rebuilds[o].builtAt.Some?
    ensures LatestRows(rebuilds, i) == {Some(r)} && IsNewestBuilt(rebuilds, i, r)
    ensures (forall status :: IsNewestStatus(rebuilds, i, status) ==> HasStatus(rebuilds[r], status))
            <==> forall o: nat, status |
                     && IsRebuildOf(rebuilds, i, o) && rebuilds[o].builtAt == rebuilds[r].builtAt
                     && HasStatus(rebuilds[o], status) ::
                   HasStatus(rebuilds[r], status)
    ensures (forall o: nat :: IsRebuildOf(rebuilds, i, o) && rebuilds[o].builtAt == rebuilds[r].builtAt ==> o == r) ==>
              forall status :: IsNewestStatus(rebuilds, i, status) ==> HasStatus(rebuilds[r], status)
  {
    hide LatestRows, HasStatus;
    assert forall o: nat :: o in RebuildIds(rebuilds, i) <==> IsRebuildOf(rebuilds, i, o);
    r := LatestRowIsLatest(rebuilds, i);
    forall o: nat
      ensures IsNewestBuilt(rebuilds, i, o) <==>
                IsRebuildOf(rebuilds, i, o) && rebuilds[o].builtAt == rebuilds[r].builtAt
    {
      assert IsRebuildOf(rebuilds, i, o) ==> rebuilds[o].builtAt.Some?;
      assert rebuilds[r].builtAt.Some?;
    }
  }

  /** All of them are set in every run. */
  lemma RunReadsDashboard(cfg: Config, es: seq<Event>, i: nat)
    requires IsRun(cfg, es)
    ensures forall o: nat :: IsRebuildOf(Run(cfg, es).rebuilds, i, o) ==> Run(cfg, es).rebuilds[o].builtAt.Some?
  {
    hide Run, IsRun;
    RunKeepsBuilt(cfg, es);
    assert forall o: nat :: IsRebuildOf(Run(cfg, es).rebuilds, i, o) ==> Built(Run(cfg, es).rebuilds[o]);
  }

  // ----- the rows of one package -----

  /** Source row `s` has the name, version, distribution, release and component of the package. */
  predicate IsSourceOf(db: Db, report: ScopeReport, p: PackageReport, s: nat) {
    s < |db.sources| && db.sources[s].identity == Identity(p.name, p.version, report.scope)
  }

  /** Build input `i` belongs to the package and has its URL, the distribution as backend, and the architecture. */
  predicate IsInputOf(db: Db, report: ScopeReport, p: PackageReport, i: nat) {
    && i < |db.inputs| && IsSourceOf(db, report, p, db.inputs[i].source)
    && db.inputs[i].cls == Class(p.url, report.scope.distribution, report.architecture)
  }

  ghost predicate IsListedSource(db: Db, report: ScopeReport, n: nat, s: nat) {
    exists k :: 0 <= k < n && k < |report.packages| && IsSourceOf(db, report, report.packages[k], s)
  }

  // ----- the status of a known package -----

  /** Rebuilds are only added, and only for new build inputs. */
  ghost predicate OldRebuildsStay(before: Db, after: Db) {
    && |before.rebuilds| <= |after.rebuilds| && after.rebuilds[..|before.rebuilds|] == before.rebuilds
    && |before.inputs| <= |after.inputs|
    && forall r :: |before.rebuilds| <= r < |after.rebuilds| ==> after.rebuilds[r].input >= |before.inputs|
  }

  lemma {:induction false} CopiesGoTo(db: Db, ids: seq<nat>, to: nat)
    ensures forall r :: |db.rebuilds| <= r < |CopyRebuilds(db, ids, to).rebuilds| ==>
              CopyRebuilds(db, ids, to).rebuilds[r].input == to
  {
    if |ids| > 0 {
      CopiesGoTo(db, ids[..|ids| - 1], to);
    }
  }

  lemma NewPackageNewInput(db: Db, env: Env, p: PackageReport)
    requires Valid(db) && IsNewPackage(db, env, p)
    ensures InputOf(db, env, p) == |db.inputs|
  {
  }

  lemma ImportOneRebuilds(db: Db, env: Env, p: PackageReport, c: Choice)
    requires Valid(db)
    ensures OldRebuildsStay(db, ImportOne(db, env, p, c))
  {
    hide CopyRebuilds, InputOf, IsNewPackage, Valid, Enqueued, AddsJob;
    ImportOneEffect(db, env, p, c);
    CopiesGoTo(Registered(db, env, p), c.copyOrder, InputOf(db, env, p));
    if IsNewPackage(db, env, p) {
      NewPackageNewInput(db, env, p);
    }
    var copied := Inherited(Registered(db, env, p), IsNewPackage(db, env, p), c.copyOrder, InputOf(db, env, p));
    EnqueuedRebuilds(copied, env, InputOf(db, env, p), c.status);
  }

  lemma EnqueuedRebuilds(db: Db, env: Env, input: nat, status: BuildStatus)
    ensures Enqueued(db, env, input, status).rebuilds == db.rebuilds
  {
  }

  lemma {:induction false} ImportAllRebuilds(db: Db, env: Env, choices: seq<Choice>)
    requires Valid(db) && |choices| <= |env.report.packages|
    ensures OldRebuildsStay(db, ImportAll(db, env, choices))
  {
    hide ImportOne, Valid;
    if |choices| > 0 {
      var n := |choices| - 1;
      ImportAllIsValid(db, env, choices[..n]);
      ImportAllRebuilds(db, env, choices[..n]);
      ImportOneRebuilds(ImportAll(db, env, choices[..n]), env, env.report.packages[n], choices[n]);
    }
  }

  /** A package that is known under its URL: its build input is found, and its status read as before the import. */
  lemma KnownInputStatus(db: Db, env: Env, choices: seq<Choice>, k: nat, i: nat)
    requires Valid(db) && LegalImport(db, env, choices) && k < |choices|
    requires IsInputOf(db, env.report, env.report.packages[k], i)
    ensures IsNewestStatus(db.rebuilds, i, choices[k].status)
  {
    hide ImportAll, IsNewPackage, InputOf, Valid, IsCurrentStatus, IsNewestStatus;
    var marked, p := MarkUnseen(db, env.report), env.report.packages[k];
    var before := ImportAll(marked, env, choices[..k]);
    MarkUnseenIsValid(db, env.report);
    ImportAllIsValid(marked, env, choices[..k]);
    ImportAllRebuilds(marked, env, choices[..k]);
    ImportAllListsJobs(marked, env, choices[..k]);
    LegalChoiceAt(marked, env, choices, k);
    InputIsFound(before, env, p, i);
    SameCurrentStatus(db.rebuilds, before.rebuilds, i, choices[k].status);
  }

  lemma LegalChoiceAt(db: Db, env: Env, choices: seq<Choice>, k: nat)
    requires k < |choices| <= |env.report.packages| && LegalChoices(db, env, choices)
    ensures LegalChoice(ImportAll(db, env, choices[..k]), env, env.report.packages[k], choices[k])
    decreases |choices|
  {
    hide ImportAll, LegalChoice;
    var n := |choices| - 1;
    if k < n {
      LegalChoiceAt(db, env, choices[..n], k);
      assert choices[..n][..k] == choices[..k];
    }
  }

  lemma InputIsFound(db: Db, env: Env, p: PackageReport, i: nat)
    requires Valid(db) && IsInputOf(db, env.report, p, i)
    ensures !IsNewPackage(db, env, p) && InputOf(db, env, p) == i
  {
  }

  lemma SameCurrentStatus(before: seq<Rebuild>, after: seq<Rebuild>, i: nat, status: BuildStatus)
    requires |before| <= |after| && after[..|before|] == before
    requires forall r :: |before| <= r < |after| ==> after[r].input != i
    requires IsCurrentStatus(after, i, status)
    ensures IsNewestStatus(before, i, status)
  {
    hide IsCurrentStatus;
    CurrentStatusIff(after, i, status);
    assert forall r: nat :: r < |before| ==> after[r] == before[r];
    assert forall r: nat :: IsRebuildOf(after, i, r) <==> IsRebuildOf(before, i, r);
    forall r: nat ensures IsNewestBuilt(after, i, r) <==> IsNewestBuilt(before, i, r) {
    }
  }
}
