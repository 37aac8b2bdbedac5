/** Which reported packages end up with a queued friend. */
module Coverage {
  import opened Rows
  import opened Friends
  import opened PackageImport
  import opened ImportFacts
  import opened Runs
  import opened Invariants
  import opened RetryBudget
  import opened Leases
  import opened ImportFlags

  // ----- jobs during the import -----

  /** The source package of a queue row, if its references hold. */
  ghost predicate JobIsListed(db: Db, env: Env, n: nat, q: nat) {
    && q in db.queue && db.queue[q].input < |db.inputs|
    && db.inputs[db.queue[q].input].source < |db.sources|
    && IsListed(env, n, db.sources[db.inputs[db.queue[q].input].source].identity)
  }

  /** Rows that were not there before belong to listed packages, and only to classes without a job before. */
  ghost predicate NewJobsAreListed(before: Db, after: Db, env: Env, n: nat) {
    forall q :: q in after.queue && q !in before.queue ==>
      JobIsListed(after, env, n, q)
  }

  lemma ListedIsMonotone(before: Db, after: Db, env: Env, n: nat, q: nat)
    requires SameOrigins(before, after) && JobIsListed(before, env, n, q)
    requires q in after.queue && after.queue[q].input == before.queue[q].input
    ensures JobIsListed(after, env, n + 1, q)
  {
  }

  lemma ImportOneListsJobs(before: Db, db: Db, env: Env, n: nat, c: Choice)
    requires Valid(db) && n < |env.report.packages| && NewJobsAreListed(before, db, env, n)
    ensures NewJobsAreListed(before, ImportOne(db, env, env.report.packages[n], c), env, n + 1)
  {
    hide ImportOne, Valid, AddsJob;
    var p := env.report.packages[n];
    var out := ImportOne(db, env, p, c);
    ImportOneEffect(db, env, p, c);
    ImportOneOrigins(db, env, p, c);
    ImportOneKeepsLeases(db, env, p, c);
    forall q | q in out.queue && q !in before.queue
      ensures JobIsListed(out, env, n + 1, q)
    {
      if q in db.queue {
        ListedIsMonotone(db, out, env, n, q);
      } else {
        assert out.queue[q].input == InputOf(db, env, p);
        assert IdentityOf(env, env.report.packages[n]) == out.sources[SourceOf(db, env, p)].identity;
      }
    }
  }

  lemma {:induction false} ImportAllListsJobs(db: Db, env: Env, choices: seq<Choice>)
    requires Valid(db) && |choices| <= |env.report.packages|
    ensures NewJobsAreListed(db, ImportAll(db, env, choices), env, |choices|)
    ensures SameOrigins(db, ImportAll(db, env, choices))
  {
    hide ImportOne, Valid, JobIsListed;
    if |choices| > 0 {
      var n := |choices| - 1;
      ImportAllIsValid(db, env, choices[..n]);
      ImportAllListsJobs(db, env, choices[..n]);
      ImportOneListsJobs(db, ImportAll(db, env, choices[..n]), env, n, choices[n]);
      ImportOneOrigins(ImportAll(db, env, choices[..n]), env, env.report.packages[n], choices[n]);
    }
  }

  lemma ImportOneAddsNoSecondJob(db: Db, env: Env, p: PackageReport, c: Choice, cls: Class)
    requires Valid(db) && HasQueuedFriend(db, cls)
    ensures HasQueuedFriend(ImportOne(db, env, p, c), cls)
    ensures forall q :: QueuedIn(ImportOne(db, env, p, c), q, cls) ==> QueuedIn(db, q, cls)
  {
    hide ImportOne, InputOf, ClassOf;
    ImportOneEffect(db, env, p, c);
    var out: Db := ImportOne(db, env, p, c);
    var q: nat :| QueuedIn(db, q, cls);
    assert QueuedIn(out, q, cls);
  }

  lemma {:induction false} ImportAllAddsNoSecondJob(db: Db, env: Env, choices: seq<Choice>, cls: Class)
    requires Valid(db) && |choices| <= |env.report.packages| && HasQueuedFriend(db, cls)
    ensures HasQueuedFriend(ImportAll(db, env, choices), cls)
    ensures forall q :: QueuedIn(ImportAll(db, env, choices), q, cls) ==> QueuedIn(db, q, cls)
  {
    hide ImportOne, Valid, QueuedIn, HasQueuedFriend;
    if |choices| > 0 {
      var n := |choices| - 1;
      ImportAllIsValid(db, env, choices[..n]);
      ImportAllAddsNoSecondJob(db, env, choices[..n], cls);
      ImportOneAddsNoSecondJob(ImportAll(db, env, choices[..n]), env, env.report.packages[n], choices[n], cls);
    }
  }

  /** Importing a package that is not GOOD, below the retry limit, leaves its class with a job. */
  lemma ImportOneQueues(db: Db, env: Env, p: PackageReport, c: Choice, retries: nat)
    requires Valid(db) && c.status != BuildStatus.Good
    requires HasMember(db.inputs, ClassOf(env, p)) ==> IsMaxRetries(db.inputs, ClassOf(env, p), retries)
    requires !HasMember(db.inputs, ClassOf(env, p)) ==> retries == 0
    requires !Exhausted(env.cfg, retries)
    ensures HasQueuedFriend(ImportOne(db, env, p, c), ClassOf(env, p))
  {
    hide ImportOne, Registered, Valid, InputOf, ClassOf, Exhausted, MaxRetries;
    var out, cls, input := ImportOne(db, env, p, c), ClassOf(env, p), InputOf(db, env, p);
    ImportOneEffect(db, env, p, c);
    if HasQueuedFriend(db, cls) {
      ImportOneAddsNoSecondJob(db, env, p, c, cls);
    } else {
      var registered := Registered(db, env, p).inputs;
      RegisteredIsValid(db, env, p);
      GrowKeepsMax(db.inputs, registered, cls, retries);
      assert InClass(registered, input, cls);
      MaxRetriesIs(registered, cls, retries);
      assert QueuedIn(out, db.nextJob, cls);
    }
  }

  lemma {:induction false} ImportAllQueues(db: Db, env: Env, choices: seq<Choice>, k: nat, retries: nat)
    requires Valid(db) && k < |choices| <= |env.report.packages| && choices[k].status != BuildStatus.Good
    requires HasMember(db.inputs, ClassOf(env, env.report.packages[k])) ==>
               IsMaxRetries(db.inputs, ClassOf(env, env.report.packages[k]), retries)
    requires !HasMember(db.inputs, ClassOf(env, env.report.packages[k])) ==> retries == 0
    requires !Exhausted(env.cfg, retries)
    ensures HasQueuedFriend(ImportAll(db, env, choices), ClassOf(env, env.report.packages[k]))
  {
    hide ImportOne, Valid, HasQueuedFriend, IsMaxRetries, HasMember;
    var n, cls := |choices| - 1, ClassOf(env, env.report.packages[k]);
    var before := ImportAll(db, env, choices[..n]);
    ImportAllIsValid(db, env, choices[..n]);
    if k < n {
      ImportAllQueues(db, env, choices[..n], k, retries);
      ImportOneAddsNoSecondJob(before, env, env.report.packages[n], choices[n], cls);
    } else {
      GrowKeepsMax(db.inputs, before.inputs, cls, retries);
      ImportOneQueues(before, env, env.report.packages[k], choices[k], retries);
    }
  }

  // ----- the final drop -----

  /** An unheld job in scope whose package the report does not list. */
  ghost predicate IsDoomed(db: Db, env: Env, q: nat) {
    && q in db.queue && db.queue[q].worker.None?
    && InputInScope(db, env.report, db.queue[q].input)
    && !IsListed(env, |env.report.packages|, db.sources[db.inputs[db.queue[q].input].source].identity)
  }

  /** The class is queued before the import, but only with jobs that the import drops. */
  ghost predicate OnlyDoomedJobs(db: Db, env: Env, cls: Class) {
    HasQueuedFriend(db, cls) && forall q :: QueuedIn(db, q, cls) ==> IsDoomed(db, env, q)
  }

  /** The drop removes a job exactly if it is unheld, in scope and not listed. */
  lemma DroppedIff(db: Db, all: Db, env: Env, q: nat)
    requires Valid(all) && SourceFlags(db, all, env, |env.report.packages|) && q in all.queue
    ensures q in DropUnseen(all, env.report).queue <==> !IsDoomed(all, env, q)
  {
  }

  lemma MarkingKeepsDoomed(db: Db, env: Env, cls: Class)
    ensures OnlyDoomedJobs(MarkUnseen(db, env.report), env, cls) <==> OnlyDoomedJobs(db, env, cls)
  {
    var marked := MarkUnseen(db, env.report);
    assert forall q: nat :: QueuedIn(marked, q, cls) <==> QueuedIn(db, q, cls);
    assert forall q: nat :: IsDoomed(marked, env, q) <==> IsDoomed(db, env, q);
  }

  /** The class has a job after the drop exactly if it was not left with doomed jobs only. */
  lemma DropLeavesJobIff(db: Db, marked: Db, all: Db, env: Env, cls: Class)
    requires Valid(marked) && Valid(all) && SameOrigins(marked, all) && LeasesKept(marked, all)
    requires SourceFlags(db, all, env, |env.report.packages|)
    requires forall q :: q in marked.queue ==> q in all.queue
    requires NewJobsAreListed(marked, all, env, |env.report.packages|)
    requires HasQueuedFriend(marked, cls) ==> forall q :: QueuedIn(all, q, cls) ==> QueuedIn(marked, q, cls)
    requires HasQueuedFriend(all, cls)
    ensures HasQueuedFriend(DropUnseen(all, env.report), cls) <==> !OnlyDoomedJobs(marked, env, cls)
  {
    hide SourceFlags, Valid;
    var out := DropUnseen(all, env.report);
    forall q | q in all.queue
      ensures q in out.queue <==> !IsDoomed(all, env, q)
    {
      DroppedIff(db, all, env, q);
    }
    if OnlyDoomedJobs(marked, env, cls) {
      forall q | QueuedIn(all, q, cls) ensures q !in out.queue {
        OldJobIsDoomed(marked, all, env, q);
      }
    } else if HasQueuedFriend(marked, cls) {
      var q: nat :| QueuedIn(marked, q, cls) && !IsDoomed(marked, env, q);
      OldJobIsDoomed(marked, all, env, q);
      assert QueuedIn(out, q, cls);
    } else {
      var q: nat :| QueuedIn(all, q, cls);
      if q in marked.queue {
        OldJobQueued(marked, all, cls, q);
      }
      assert JobIsListed(all, env, |env.report.packages|, q);
      assert QueuedIn(out, q, cls);
    }
  }

  lemma OldJobIsDoomed(marked: Db, all: Db, env: Env, q: nat)
    requires Valid(marked) && SameOrigins(marked, all) && LeasesKept(marked, all)
    requires q in marked.queue && q in all.queue
    ensures IsDoomed(all, env, q) <==> IsDoomed(marked, env, q)
    ensures forall cls :: QueuedIn(all, q, cls) <==> QueuedIn(marked, q, cls)
  {
  }

  lemma OldJobQueued(marked: Db, all: Db, cls: Class, q: nat)
    requires Valid(marked) && SameOrigins(marked, all) && LeasesKept(marked, all)
    requires q in marked.queue && QueuedIn(all, q, cls)
    ensures QueuedIn(marked, q, cls)
  {
  }

  /**
   A reported package that is not GOOD, of a class below the retry limit, has a queued friend after the
   import, except exactly if before the import its class was queued, and only by unheld jobs of packages
   in the same scope that the report no longer lists.
   */
  lemma QueueCoverageIff(db: Db, env: Env, choices: seq<Choice>, k: nat)
    requires Valid(db) && |choices| == |env.report.packages| && k < |choices|
    requires choices[k].status != BuildStatus.Good
    requires MaxRetries(db.inputs, ClassOf(env, env.report.packages[k])) >= 0
    requires !Exhausted(env.cfg, MaxRetries(db.inputs, ClassOf(env, env.report.packages[k])))
    ensures HasQueuedFriend(Imported(db, env, choices), ClassOf(env, env.report.packages[k]))
            <==> !OnlyDoomedJobs(db, env, ClassOf(env, env.report.packages[k]))
  {
    hide ImportAll, OnlyDoomedJobs, SourceFlags, LeasesKept, SameOrigins, NewJobsAreListed, DropUnseen;
    var cls := ClassOf(env, env.report.packages[k]);
    var marked := MarkUnseen(db, env.report);
    var all := ImportAll(marked, env, choices);
    MarkUnseenIsValid(db, env.report);
    MarkingKeepsDoomed(db, env, cls);
    NoMemberNoRetries(db.inputs, cls);
    ImportAllIsValid(marked, env, choices);
    ImportAllQueues(marked, env, choices, k, MaxRetries(db.inputs, cls));
    ImportAllListsJobs(marked, env, choices);
    ImportAllKeepsLeases(marked, env, choices);
    if HasQueuedFriend(marked, cls) {
      ImportAllAddsNoSecondJob(marked, env, choices, cls);
    }
    MarkedFlags(db, env);
    ImportAllFlags(db, marked, env, choices);
    DropLeavesJobIff(db, marked, all, env, cls);
  }

  lemma {:induction false} NoMemberNoRetries(inputs: seq<Input>, cls: Class)
    ensures !HasMember(inputs, cls) ==> MaxRetries(inputs, cls) == 0
  {
    if |inputs| > 0 && !HasMember(inputs, cls) {
      var n := |inputs| - 1;
      assert !InClass(inputs, n, cls);
      assert forall i: nat :: InClass(inputs[..n], i, cls) ==> InClass(inputs, i, cls);
      NoMemberNoRetries(inputs[..n], cls);
    }
  }

  /** Build inputs of the class in the report's scope all belong to packages that the report lists. */
  ghost predicate UrlNotShared(db: Db, env: Env, cls: Class) {
    forall i :: 0 <= i < |db.inputs| && db.inputs[i].cls == cls && InputInScope(db, env.report, i) ==>
      IsListed(env, |env.report.packages|, db.sources[db.inputs[i].source].identity)
  }

  /** So no package loses its place in the queue when no unlisted package of its scope shares its URL. */
  lemma QueueCoverage(db: Db, env: Env, choices: seq<Choice>, k: nat)
    requires Valid(db) && |choices| == |env.report.packages| && k < |choices|
    requires choices[k].status != BuildStatus.Good
    requires MaxRetries(db.inputs, ClassOf(env, env.report.packages[k])) >= 0
    requires !Exhausted(env.cfg, MaxRetries(db.inputs, ClassOf(env, env.report.packages[k])))
    requires UrlNotShared(db, env, ClassOf(env, env.report.packages[k]))
    ensures HasQueuedFriend(Imported(db, env, choices), ClassOf(env, env.report.packages[k]))
  {
    hide Imported, Valid, MaxRetries;
    QueueCoverageIff(db, env, choices, k);
  }

  /** The same for an import at any point of any run, where retry counts are never negative. */
  lemma QueueCoverageInRuns(
      cfg: Config, es: seq<Event>, report: ScopeReport, choices: seq<Choice>, now: Time, k: nat, cls: Class)
    requires IsRun(cfg, es) && Legal(Run(cfg, es), cfg, Import(report, choices, now))
    requires k < |choices| && choices[k].status != BuildStatus.Good
    requires cls == ClassOf(Env(cfg, report, now), report.packages[k])
    requires !Exhausted(cfg, FailedAttempts(cfg, es, cls))
    ensures HasQueuedFriend(Apply(Run(cfg, es), cfg, Import(report, choices, now)), cls)
            <==> !OnlyDoomedJobs(Run(cfg, es), Env(cfg, report, now), cls)
  {
    hide Run, IsRun, Imported, OnlyDoomedJobs, Valid, MaxRetries, FailedAttempts, LegalChoices;
    RunIsValid(cfg, es);
    RetriesAreFailedAttempts(cfg, es, cls);
    NoMemberNoRetries(Run(cfg, es).inputs, cls);
    if !HasMember(Run(cfg, es).inputs, cls) {
      NoMemberNoFailures(cfg, es, cls);
    }
    QueueCoverageIff(Run(cfg, es), Env(cfg, report, now), choices, k);
  }

  lemma NoMemberNoFailures(cfg: Config, es: seq<Event>, cls: Class)
    requires IsRun(cfg, es) && !HasMember(Run(cfg, es).inputs, cls)
    ensures FailedAttempts(cfg, es, cls) == 0
  {
    hide Run, IsRun, FailedAttempts;
    RetriesAreFailedAttempts(cfg, es, cls);
  }
}
