/** How often a class can fail before the daemon stops retrying it. */
module RetryBudget {
  import opened Options
  import opened Rows
  import opened Friends
  import opened BuildReport
  import opened PackageImport
  import opened ImportFacts
  import opened ReportFacts
  import opened Queue
  import opened Runs
  import opened Invariants

  /** Accepted reports of the run for the class, other than GOOD. */
  ghost function FailedAttempts(cfg: Config, es: seq<Event>, cls: Class): nat {
    if |es| == 0 then 0
    else
      var n := |es| - 1;
      FailedAttempts(cfg, es[..n], cls) + if IsFailedAttempt(Run(cfg, es[..n]), es[n], cls) then 1 else 0
  }

  /** A manual requeue selects a member of the class. */
  ghost predicate SelectsClass(inputs: seq<Input>, ids: seq<nat>, cls: Class) {
    exists i :: i in ids && InClass(inputs, i, cls)
  }

  ghost predicate RequeuesClass(db: Db, e: Event, cls: Class) {
    e.RequestRebuild? && SelectsClass(db.inputs, e.order, cls)
  }

  /** Manual requeues of the run that select the class, each counted once however many friends it selects. */
  ghost function ManualRequeues(cfg: Config, es: seq<Event>, cls: Class): nat {
    if |es| == 0 then 0
    else
      var n := |es| - 1;
      ManualRequeues(cfg, es[..n], cls) + if RequeuesClass(Run(cfg, es[..n]), es[n], cls) then 1 else 0
  }

  function Budget(cfg: Config, manual: nat): int
    requires cfg.maxRetries.Some?
  {
    (if cfg.maxRetries.value > 0 then cfg.maxRetries.value else 0) + manual
  }

  /** The retry count of a class is its number of failed attempts, and a queued class can afford one more. */
  ghost predicate WithinBudget(db: Db, cfg: Config, cls: Class, failed: nat, manual: nat) {
    && (HasMember(db.inputs, cls) ==> IsMaxRetries(db.inputs, cls, failed))
    && (!HasMember(db.inputs, cls) ==> failed == 0)
    && (cfg.maxRetries.Some? ==> failed <= Budget(cfg, manual))
    && (cfg.maxRetries.Some? && HasQueuedFriend(db, cls) ==> failed < Budget(cfg, manual))
  }

  /** The class keeps its members and their retries; new members start without any. */
  ghost predicate ClassGrows(before: seq<Input>, after: seq<Input>, cls: Class) {
    && |before| <= |after|
    && (forall i :: 0 <= i < |before| ==> after[i].cls == before[i].cls)
    && (forall i :: 0 <= i < |before| && before[i].cls == cls ==> after[i].retries == before[i].retries)
    && (forall i :: |before| <= i < |after| ==> after[i].retries == 0)
  }

  lemma GrowKeepsMax(before: seq<Input>, after: seq<Input>, cls: Class, failed: nat)
    requires ClassGrows(before, after, cls)
    requires HasMember(before, cls) ==> IsMaxRetries(before, cls, failed)
    requires !HasMember(before, cls) ==> failed == 0
    ensures HasMember(after, cls) ==> IsMaxRetries(after, cls, failed)
    ensures !HasMember(after, cls) ==> failed == 0
  {
    if HasMember(before, cls) {
      var i: nat :| InClass(before, i, cls) && before[i].retries == failed;
      assert InClass(after, i, cls) && after[i].retries == failed;
    }
    forall i: nat | InClass(after, i, cls)
      ensures after[i].retries <= failed && (!HasMember(before, cls) ==> after[i].retries == 0)
    {
      if i < |before| {
        assert InClass(before, i, cls);
      }
    }
  }

  /** Steps that keep retries and do not make the class queued keep the budget. */
  lemma NoNewJobKeepsBudget(before: Db, after: Db, cfg: Config, cls: Class, failed: nat, manual: nat)
    requires WithinBudget(before, cfg, cls, failed, manual)
    requires ClassGrows(before.inputs, after.inputs, cls)
    requires HasQueuedFriend(after, cls) ==> HasQueuedFriend(before, cls)
    ensures WithinBudget(after, cfg, cls, failed, manual)
  {
    GrowKeepsMax(before.inputs, after.inputs, cls, failed);
  }

  /** A class that can afford a failed attempt may become queued. */
  lemma NewJobKeepsBudget(before: Db, after: Db, cfg: Config, cls: Class, failed: nat, manual: nat, more: nat)
    requires WithinBudget(before, cfg, cls, failed, manual)
    requires ClassGrows(before.inputs, after.inputs, cls)
    requires !Exhausted(cfg, failed) || more > 0
    ensures WithinBudget(after, cfg, cls, failed, manual + more)
  {
    GrowKeepsMax(before.inputs, after.inputs, cls, failed);
  }

  /** Rows of `after` were there before or are new rows for `input`. */
  lemma NoNewFriend(before: Db, after: Db, cls: Class, input: nat)
    requires ReferencesHold(before) && ClassGrows(before.inputs, after.inputs, cls)
    requires forall q :: q in after.queue ==>
               (q in before.queue && after.queue[q].input == before.queue[q].input) || after.queue[q].input == input
    requires !InClass(after.inputs, input, cls)
    ensures HasQueuedFriend(after, cls) ==> HasQueuedFriend(before, cls)
  {
    if HasQueuedFriend(after, cls) {
      var q: nat :| QueuedIn(after, q, cls);
      assert QueuedIn(before, q, cls);
    }
  }

  lemma SubQueue(before: Db, after: Db, cls: Class)
    requires after.inputs == before.inputs
    requires forall q :: q in after.queue ==> q in before.queue && after.queue[q].input == before.queue[q].input
    ensures HasQueuedFriend(after, cls) ==> HasQueuedFriend(before, cls)
  {
    if HasQueuedFriend(after, cls) {
      var q: nat :| QueuedIn(after, q, cls);
      assert QueuedIn(before, q, cls);
    }
  }

  lemma ImportOneKeepsBudget(db: Db, env: Env, p: PackageReport, c: Choice, cls: Class, failed: nat, manual: nat)
    requires Valid(db) && WithinBudget(db, env.cfg, cls, failed, manual)
    ensures WithinBudget(ImportOne(db, env, p, c), env.cfg, cls, failed, manual)
  {
    var out, input := ImportOne(db, env, p, c), InputOf(db, env, p);
    ImportOneEffect(db, env, p, c);
    if cls != ClassOf(env, p) {
      NoNewFriend(db, out, cls, input);
      NoNewJobKeepsBudget(db, out, env.cfg, cls, failed, manual);
    } else if AddsJob(db, env, p, c) {
      var registered := Registered(db, env, p).inputs;
      RegisteredIsValid(db, env, p);
      GrowKeepsMax(db.inputs, registered, cls, failed);
      assert InClass(registered, input, cls);
      MaxRetriesIs(registered, cls, failed);
      NewJobKeepsBudget(db, out, env.cfg, cls, failed, manual, 0);
    } else {
      var same := db.(inputs := out.inputs);
      FriendsQueuedUnchanged(db, same, cls);
      SubQueue(same, out, cls);
      NoNewJobKeepsBudget(db, out, env.cfg, cls, failed, manual);
    }
  }

  lemma {:induction false} ImportAllKeepsBudget(
      db: Db, env: Env, choices: seq<Choice>, cls: Class, failed: nat, manual: nat)
    requires Valid(db) && WithinBudget(db, env.cfg, cls, failed, manual)
    requires |choices| <= |env.report.packages|
    ensures WithinBudget(ImportAll(db, env, choices), env.cfg, cls, failed, manual)
  {
    if |choices| > 0 {
      var n := |choices| - 1;
      ImportAllIsValid(db, env, choices[..n]);
      ImportAllKeepsBudget(db, env, choices[..n], cls, failed, manual);
      ImportOneKeepsBudget(ImportAll(db, env, choices[..n]), env, env.report.packages[n], choices[n],
                           cls, failed, manual);
    }
  }

  lemma ImportKeepsBudget(db: Db, env: Env, choices: seq<Choice>, cls: Class, failed: nat, manual: nat)
    requires Valid(db) && WithinBudget(db, env.cfg, cls, failed, manual)
    requires |choices| == |env.report.packages|
    ensures WithinBudget(Imported(db, env, choices), env.cfg, cls, failed, manual)
  {
    var marked := MarkUnseen(db, env.report);
    MarkUnseenIsValid(db, env.report);
    SubQueue(db, marked, cls);
    NoNewJobKeepsBudget(db, marked, env.cfg, cls, failed, manual);
    ImportAllKeepsBudget(marked, env, choices, cls, failed, manual);
    var all := ImportAll(marked, env, choices);
    SubQueue(all, DropUnseen(all, env.report), cls);
    NoNewJobKeepsBudget(all, DropUnseen(all, env.report), env.cfg, cls, failed, manual);
  }

  lemma RequeueOneRows(db: Db, req: RebuildRequest, now: Time, input: nat, cls: Class)
    ensures ClassGrows(db.inputs, RequeueOne(db, req, now, input).inputs, cls)
    ensures forall q :: q in RequeueOne(db, req, now, input).queue ==>
              || (q in db.queue && RequeueOne(db, req, now, input).queue[q].input == db.queue[q].input)
              || RequeueOne(db, req, now, input).queue[q].input == input
  {
  }

  /** A manual requeue keeps retries, and new rows are for selected inputs. */
  lemma {:induction false} RequeueAllRows(db: Db, req: RebuildRequest, now: Time, order: seq<nat>, cls: Class)
    ensures ClassGrows(db.inputs, RequeueAll(db, req, now, order).inputs, cls)
    ensures |RequeueAll(db, req, now, order).inputs| == |db.inputs|
    ensures forall q :: q in RequeueAll(db, req, now, order).queue ==>
              || (q in db.queue && RequeueAll(db, req, now, order).queue[q].input == db.queue[q].input)
              || RequeueAll(db, req, now, order).queue[q].input in order
  {
    if |order| > 0 {
      var n := |order| - 1;
      RequeueAllRows(db, req, now, order[..n], cls);
      RequeueOneRows(RequeueAll(db, req, now, order[..n]), req, now, order[n], cls);
      assert forall i :: i in order[..n] ==> i in order;
    }
  }

  lemma RequeueAllKeepsBudget(
      db: Db, cfg: Config, req: RebuildRequest, now: Time, order: seq<nat>, cls: Class, failed: nat, manual: nat)
    requires Valid(db) && WithinBudget(db, cfg, cls, failed, manual)
    ensures WithinBudget(RequeueAll(db, req, now, order), cfg, cls, failed,
                         manual + if SelectsClass(db.inputs, order, cls) then 1 else 0)
  {
    hide RequeueAll, WithinBudget, KeysUnique;
    var out := RequeueAll(db, req, now, order);
    RequeueAllRows(db, req, now, order, cls);
    if SelectsClass(db.inputs, order, cls) {
      NewJobKeepsBudget(db, out, cfg, cls, failed, manual, 1);
    } else {
      if HasQueuedFriend(out, cls) {
        var q: nat :| QueuedIn(out, q, cls);
        assert QueuedIn(db, q, cls);
      }
      NoNewJobKeepsBudget(db, out, cfg, cls, failed, manual);
    }
  }

  lemma BumpRaisesMax(inputs: seq<Input>, cls: Class, failed: int)
    requires IsMaxRetries(inputs, cls, failed)
    ensures IsMaxRetries(BumpRetries(inputs, cls), cls, failed + 1)
  {
    var out := BumpRetries(inputs, cls);
    var i: nat :| InClass(inputs, i, cls) && inputs[i].retries == failed;
    assert InClass(out, i, cls) && out[i].retries == failed + 1;
    assert forall j: nat :: InClass(out, j, cls) ==> InClass(inputs, j, cls);
  }

  lemma FailedAttemptRaisesMax(before: seq<Input>, after: seq<Input>, cls: Class, at: Option<Time>, failed: int)
    requires IsMaxRetries(before, cls, failed) && OnlyClassRetries(before, after, cls, at)
    ensures IsMaxRetries(after, cls, failed + 1)
  {
  }

  /** A failed attempt uses up one retry of its own class and nothing of any other. */
  lemma FailedAttemptKeepsBudget(
      db: Db, cfg: Config, q: nat, status: BuildStatus, now: Time, cls: Class, failed: nat, manual: nat)
    requires Valid(db) && WithinBudget(db, cfg, cls, failed, manual)
    requires q in db.queue && status != BuildStatus.Good
    ensures WithinBudget(Rescheduled(db, cfg, q, status, now), cfg, cls,
                         failed + if QueuedIn(db, q, cls) then 1 else 0, manual)
  {
    hide Rescheduled, MaxRetries, KeysUnique;
    var own, input := JobClass(db, q), db.queue[q].input;
    FailedAttemptEffect(db, cfg, q, status, now);
    var out := Rescheduled(db, cfg, q, status, now);
    if cls != own {
      NoNewFriend(db, out, cls, input);
      NoNewJobKeepsBudget(db, out, cfg, cls, failed, manual);
    } else {
      assert QueuedIn(db, q, cls) && InClass(out.inputs, input, cls);
      BumpRaisesMax(db.inputs, cls, failed);
      MaxRetriesIs(BumpRetries(db.inputs, cls), cls, failed + 1);
      FailedAttemptRaisesMax(db.inputs, out.inputs, cls, out.inputs[input].nextRetry, failed);
      if Exhausted(cfg, failed + 1) {
        assert !HasQueuedFriend(out, cls);
      }
    }
  }

  lemma ReportKeepsBudget(
      db: Db, cfg: Config, q: nat, rep: Report, now: Time, order: seq<nat>, cls: Class, failed: nat, manual: nat)
    requires Valid(db) && WithinBudget(db, cfg, cls, failed, manual)
    requires q in db.queue ==> forall i :: i in order ==> i < |db.inputs|
    ensures WithinBudget(Reported(db, cfg, q, rep, now, order), cfg, cls,
                         failed + if rep.status != BuildStatus.Good && QueuedIn(db, q, cls) then 1 else 0, manual)
  {
    if q in db.queue {
      var stored := Stored(db, db.queue[q], rep, order);
      StoredIsValid(db, db.queue[q], rep, order);
      SubQueue(db, stored, cls);
      NoNewJobKeepsBudget(db, stored, cfg, cls, failed, manual);
      if rep.status == BuildStatus.Good {
        SubQueue(stored, Reported(db, cfg, q, rep, now, order), cls);
        NoNewJobKeepsBudget(stored, Reported(db, cfg, q, rep, now, order), cfg, cls, failed, manual);
      } else {
        FailedAttemptKeepsBudget(stored, cfg, q, rep.status, now, cls, failed, manual);
      }
    }
  }

  lemma StepKeepsBudget(db: Db, cfg: Config, e: Event, cls: Class, failed: nat, manual: nat)
    requires Valid(db) && Legal(db, cfg, e) && WithinBudget(db, cfg, cls, failed, manual)
    ensures WithinBudget(Apply(db, cfg, e), cfg, cls,
                         failed + if IsFailedAttempt(db, e, cls) then 1 else 0,
                         manual + if RequeuesClass(db, e, cls) then 1 else 0)
  {
    hide Imported, Reported, RequeueAll, LegalWork, WithinBudget;
    match e
    case Import(packages, choices, now) =>
      ImportKeepsBudget(db, Env(cfg, packages, now), choices, cls, failed, manual);
    case SubmitReport(job, report, order, now) =>
      ReportKeepsBudget(db, cfg, job, report, now, order, cls, failed, manual);
    case RequestRebuild(rebuild, order, now) =>
      RequeueAllKeepsBudget(db, cfg, rebuild, now, order, cls, failed, manual);
    case _ =>
      var out := Apply(db, cfg, e);
      SubQueue(db, out, cls);
      NoNewJobKeepsBudget(db, out, cfg, cls, failed, manual);
  }

  /**
   In every run, the retry count of a class is the number of failed attempts reported for it, and with
   a retry limit that number exceeds the limit by at most the number of manual requeues that select the class.
   */
  lemma {:induction false} RetriesAreFailedAttempts(cfg: Config, es: seq<Event>, cls: Class)
    requires IsRun(cfg, es)
    ensures HasMember(Run(cfg, es).inputs, cls) ==>
              MaxRetries(Run(cfg, es).inputs, cls) == FailedAttempts(cfg, es, cls)
    ensures cfg.maxRetries.Some? ==>
              FailedAttempts(cfg, es, cls) <= Budget(cfg, ManualRequeues(cfg, es, cls))
    ensures WithinBudget(Run(cfg, es), cfg, cls, FailedAttempts(cfg, es, cls), ManualRequeues(cfg, es, cls))
  {
    hide Apply, Legal, Valid;
    if |es| > 0 {
      var n := |es| - 1;
      PrefixIsRun(cfg, es, n);
      RunIsValid(cfg, es[..n]);
      RetriesAreFailedAttempts(cfg, es[..n], cls);
      StepKeepsBudget(Run(cfg, es[..n]), cfg, es[n], cls,
                      FailedAttempts(cfg, es[..n], cls), ManualRequeues(cfg, es[..n], cls));
    }
    if HasMember(Run(cfg, es).inputs, cls) {
      MaxRetriesIs(Run(cfg, es).inputs, cls, FailedAttempts(cfg, es, cls));
    }
  }

  /** What a failed attempt that is retried leaves in every build input of the class. */
  ghost predicate EveryFriendWaits(db: Db, cls: Class, until: Time) {
    forall i: nat :: InClass(db.inputs, i, cls) ==> db.inputs[i].nextRetry == Some(until)
  }

  ghost predicate NobodyRetries(db: Db, cls: Class) {
    && (forall i: nat :: InClass(db.inputs, i, cls) ==> db.inputs[i].nextRetry == None)
    && !HasQueuedFriend(db, cls)
  }

  /** What one failed attempt leaves behind, when it is the `failed`-th of its class. */
  lemma FailedAttemptDelay(
      db: Db, cfg: Config, q: nat, status: BuildStatus, now: Time, cls: Class, failed: int)
    requires Valid(db) && QueuedIn(db, q, cls) && status != BuildStatus.Good
    requires IsMaxRetries(db.inputs, cls, failed - 1)
    ensures !Exhausted(cfg, failed) ==>
              EveryFriendWaits(Rescheduled(db, cfg, q, status, now), cls, now + RetryDelay(cfg, failed))
    ensures Exhausted(cfg, failed) ==> NobodyRetries(Rescheduled(db, cfg, q, status, now), cls)
  {
    hide Rescheduled, MaxRetries, BumpRetries, KeysUnique;
    BumpRaisesMax(db.inputs, cls, failed - 1);
    MaxRetriesIs(BumpRetries(db.inputs, cls), cls, failed);
    FailedAttemptEffect(db, cfg, q, status, now);
    var out := Rescheduled(db, cfg, q, status, now);
    assert forall i: nat :: InClass(out.inputs, i, cls) ==> InClass(db.inputs, i, cls);
  }

  /** Either all friends wait, or nobody of the class is tried again. */
  ghost predicate DelayedOrEnded(db: Db, cfg: Config, cls: Class, failed: int, now: Time) {
    if Exhausted(cfg, failed) then NobodyRetries(db, cls)
    else EveryFriendWaits(db, cls, now + RetryDelay(cfg, failed))
  }

  lemma ReportDelay(db: Db, cfg: Config, e: Event, cls: Class, failed: int)
    requires Valid(db) && Legal(db, cfg, e) && IsFailedAttempt(db, e, cls)
    requires IsMaxRetries(db.inputs, cls, failed - 1)
    ensures DelayedOrEnded(Apply(db, cfg, e), cfg, cls, failed, e.now)
  {
    var stored := Stored(db, db.queue[e.job], e.report, e.order);
    StoredIsValid(db, db.queue[e.job], e.report, e.order);
    FailedAttemptDelay(stored, cfg, e.job, e.report.status, e.now, cls, failed);
  }

  /**
   The n-th failed attempt of a class either makes all friends wait n + 1 times the base delay, or,
   from the retry limit on, ends all retries and removes every job of the class.
   */
  lemma RetryDelays(cfg: Config, es: seq<Event>, n: nat, cls: Class)
    requires IsRun(cfg, es) && n < |es| && IsFailedAttempt(Run(cfg, es[..n]), es[n], cls)
    ensures FailedAttempts(cfg, es[..n + 1], cls) == FailedAttempts(cfg, es[..n], cls) + 1
    ensures DelayedOrEnded(Run(cfg, es[..n + 1]), cfg, cls, FailedAttempts(cfg, es[..n + 1], cls), es[n].now)
  {
    hide Apply, Valid, Exhausted, DelayedOrEnded;
    var db := Run(cfg, es[..n]);
    assert es[..n + 1][..n] == es[..n];
    PrefixIsRun(cfg, es, n);
    RunIsValid(cfg, es[..n]);
    RetriesAreFailedAttempts(cfg, es[..n], cls);
    assert InClass(db.inputs, db.queue[es[n].job].input, cls);
    ReportDelay(db, cfg, es[n], cls, FailedAttempts(cfg, es[..n], cls) + 1);
  }

  lemma RetryDelayStep(cfg: Config, retries: int)
    ensures RetryDelay(cfg, retries + 1) == RetryDelay(cfg, retries) + cfg.retryDelayBase * 3600
  {
  }

  /** Event `n` is a failed attempt of the class, and the class will be tried again. */
  ghost predicate RetriedAt(cfg: Config, es: seq<Event>, n: nat, cls: Class) {
    && n < |es|
    && IsFailedAttempt(Run(cfg, es[..n]), es[n], cls)
    && !Exhausted(cfg, FailedAttempts(cfg, es[..n + 1], cls))
  }

  ghost predicate WaitsAfter(cfg: Config, es: seq<Event>, n: nat, cls: Class, delay: int) {
    n < |es| && EveryFriendWaits(Run(cfg, es[..n + 1]), cls, es[n].now + delay)
  }

  ghost predicate NoAttemptBetween(cfg: Config, es: seq<Event>, m: nat, n: nat, cls: Class) {
    m < n <= |es| && FailedAttempts(cfg, es[..n], cls) == FailedAttempts(cfg, es[..m + 1], cls)
  }

  lemma RetryDelayOf(cfg: Config, es: seq<Event>, n: nat, cls: Class)
    requires IsRun(cfg, es) && RetriedAt(cfg, es, n, cls)
    ensures FailedAttempts(cfg, es[..n + 1], cls) == FailedAttempts(cfg, es[..n], cls) + 1
    ensures WaitsAfter(cfg, es, n, cls, RetryDelay(cfg, FailedAttempts(cfg, es[..n + 1], cls)))
  {
    hide Apply, RetryDelay;
    RetryDelays(cfg, es, n, cls);
  }

  /** From one retried attempt to the next, the delay of every friend grows by the base delay. */
  lemma RetryDelaysGrow(cfg: Config, es: seq<Event>, m: nat, n: nat, cls: Class) returns (delay: int)
    requires IsRun(cfg, es) && RetriedAt(cfg, es, m, cls) && RetriedAt(cfg, es, n, cls)
    requires NoAttemptBetween(cfg, es, m, n, cls)
    ensures WaitsAfter(cfg, es, m, cls, delay)
    ensures WaitsAfter(cfg, es, n, cls, delay + cfg.retryDelayBase * 3600)
  {
    hide Apply, Run, WaitsAfter, RetriedAt, IsFailedAttempt, FailedAttempts, RetryDelay, IsRun;
    RetryDelayOf(cfg, es, m, cls);
    RetryDelayOf(cfg, es, n, cls);
    delay := RetryDelay(cfg, FailedAttempts(cfg, es[..m + 1], cls));
    RetryDelayStep(cfg, FailedAttempts(cfg, es[..m + 1], cls));
  }
}
