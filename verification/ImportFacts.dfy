/** Frame facts of the import: what each part of it leaves alone, and the schema rules it keeps. */
module ImportFacts {
  import opened Options
  import opened Rows
  import opened Friends
  import opened PackageImport

  /** Build inputs are only appended, with no retries, and keep source, class and retries. */
  ghost predicate InputsGrow(before: seq<Input>, after: seq<Input>) {
    && |before| <= |after|
    && (forall i :: 0 <= i < |before| ==>
          && after[i].source == before[i].source
          && after[i].cls == before[i].cls
          && after[i].retries == before[i].retries)
    && (forall i :: |before| <= i < |after| ==> after[i].retries == 0)
  }

  ghost predicate BinaryKeysUnique(binaries: seq<Binary>) {
    forall a, b :: 0 <= a < b < |binaries| ==> !binaries[a].SameKey(binaries[b])
  }

  /** Existing rows keep their key; new rows belong to the given source and input. */
  lemma {:induction false} ListBinariesKeepsKeys(
      binaries: seq<Binary>, env: Env, source: nat, input: nat, arts: seq<BinaryReport>)
    requires BinaryKeysUnique(binaries)
    ensures var out := ListBinaries(binaries, env, source, input, arts);
            && BinaryKeysUnique(out)
            && (forall b :: 0 <= b < |binaries| ==> out[b].SameKey(binaries[b]))
            && (forall b :: |binaries| <= b < |out| ==> out[b].source == source && out[b].input == input)
  {
    if |arts| > 0 {
      ListBinariesKeepsKeys(binaries, env, source, input, arts[..|arts| - 1]);
    }
  }

  lemma RegisteredKeysUnique(db: Db, env: Env, p: PackageReport)
    requires Valid(db)
    ensures KeysUnique(Registered(db, env, p))
  {
    hide ListBinaries;
    ListBinariesKeepsKeys(db.binaries, env, SourceOf(db, env, p), InputOf(db, env, p), p.artifacts);
  }

  lemma RegisteredIsValid(db: Db, env: Env, p: PackageReport)
    requires Valid(db)
    ensures Valid(Registered(db, env, p))
    ensures InputOf(db, env, p) < |Registered(db, env, p).inputs|
    ensures Registered(db, env, p).inputs[InputOf(db, env, p)].cls == ClassOf(env, p)
    ensures Registered(db, env, p).inputs[InputOf(db, env, p)].source == SourceOf(db, env, p)
    ensures InputsGrow(db.inputs, Registered(db, env, p).inputs)
  {
    hide ListBinaries;
    var s, i := SourceOf(db, env, p), InputOf(db, env, p);
    ListBinariesKeepsKeys(db.binaries, env, s, i, p.artifacts);
    RegisteredKeysUnique(db, env, p);
    var out := Registered(db, env, p);
    assert ReferencesHold(out) by {
      forall b | 0 <= b < |out.binaries|
        ensures out.binaries[b].input < |out.inputs|
                && out.binaries[b].source == out.inputs[out.binaries[b].input].source
      {
        if b < |db.binaries| {
          assert out.binaries[b].SameKey(db.binaries[b]);
        }
      }
    }
  }

  ghost predicate LogsExist(db: Db, a: Artifact) {
    && (a.diffoscope.Some? ==> a.diffoscope.value < |db.diffoscopeLogs|)
    && (a.attestation.Some? ==> a.attestation.value < |db.attestationLogs|)
  }

  lemma CopiedArtifactsBelong(db: Db, artifacts: seq<Artifact>, from: nat, to: nat)
    requires forall a :: a in artifacts ==> LogsExist(db, a)
    ensures forall a :: a in CopiedArtifacts(artifacts, from, to) ==> a.rebuild == to && LogsExist(db, a)
  {
  }

  lemma {:induction false} CopyRebuildsIsValid(db: Db, ids: seq<nat>, to: nat)
    requires Valid(db) && to < |db.inputs|
    ensures Valid(CopyRebuilds(db, ids, to))
  {
    if |ids| > 0 {
      var d := CopyRebuilds(db, ids[..|ids| - 1], to);
      var id := ids[|ids| - 1];
      CopyRebuildsIsValid(db, ids[..|ids| - 1], to);
      if id < |db.rebuilds| {
        var more := CopiedArtifacts(db.artifacts, id, |d.rebuilds|);
        CopiedArtifactsBelong(db, db.artifacts, id, |d.rebuilds|);
        assert forall a :: 0 <= a < |more| ==> more[a] in more;
      }
    }
  }

  lemma GiveUpWithoutJobs(db: Db, cls: Class)
    requires !HasQueuedFriend(db, cls)
    ensures GiveUp(db, cls) == db.(inputs := SetNextRetry(db.inputs, cls, None))
  {
    forall q | q in db.queue ensures q in GiveUp(db, cls).queue {
      assert !QueuedIn(db, q, cls);
    }
    assert GiveUp(db, cls).queue == db.queue;
  }

  /** Importing one package adds at most one queue row, and only to a class without one. */
  ghost predicate AddsJob(db: Db, env: Env, p: PackageReport, c: Choice) {
    && c.status != BuildStatus.Good
    && !HasQueuedFriend(db, ClassOf(env, p))
    && !Exhausted(env.cfg, MaxRetries(Registered(db, env, p).inputs, ClassOf(env, p)))
  }

  function NewJob(env: Env, input: nat, c: Choice): Job {
    Job(input, if c.status == BuildStatus.Bad then PRIORITY_RETRY else PRIORITY_DEFAULT, env.now, None, None, None)
  }

  lemma FriendsQueuedUnchanged(db: Db, after: Db, cls: Class)
    requires ReferencesHold(db) && InputsGrow(db.inputs, after.inputs) && after.queue == db.queue
    ensures forall q: nat :: QueuedIn(after, q, cls) <==> QueuedIn(db, q, cls)
    ensures HasQueuedFriend(after, cls) <==> HasQueuedFriend(db, cls)
  {
  }

  /** Rows may disappear from the queue, or change without moving to another build input. */
  lemma FewerJobsIsValid(db: Db, queue: map<nat, Job>)
    requires Valid(db) && queue.Keys <= db.queue.Keys
    requires forall q :: q in queue ==> queue[q].input == db.queue[q].input
    ensures Valid(db.(queue := queue))
  {
  }

  /** An upsert either adds one fresh row or changes the priority of the one existing row. */
  lemma UpsertJobEffect(db: Db, input: nat, priority: int, now: Time)
    requires Valid(db) && input < |db.inputs|
    ensures Valid(UpsertJob(db, input, priority, now))
    ensures IsQueued(UpsertJob(db, input, priority, now).queue, input)
    ensures UpsertJob(db, input, priority, now).inputs == db.inputs
    ensures !IsQueued(db.queue, input) ==>
              && UpsertJob(db, input, priority, now).queue
                 == db.queue[db.nextJob := Job(input, priority, now, None, None, None)]
              && UpsertJob(db, input, priority, now).nextJob == db.nextJob + 1
  {
    var out := UpsertJob(db, input, priority, now);
    if IsQueued(db.queue, input) {
      var q :| q in db.queue && db.queue[q].input == input;
      assert q in out.queue && out.queue[q].input == input;
    } else {
      assert out.queue[db.nextJob].input == input;
      assert forall q | q in db.queue :: db.queue[q].input != input;
    }
  }

  lemma SetNextRetryIsValid(db: Db, cls: Class, at: Option<Time>)
    requires Valid(db)
    ensures Valid(db.(inputs := SetNextRetry(db.inputs, cls, at)))
    ensures InputsGrow(db.inputs, SetNextRetry(db.inputs, cls, at))
  {
  }

  lemma EnqueuedEffect(db: Db, env: Env, input: nat, c: Choice)
    requires Valid(db) && input < |db.inputs|
    ensures Valid(Enqueued(db, env, input, c.status))
    ensures InputsGrow(db.inputs, Enqueued(db, env, input, c.status).inputs)
    ensures var out := Enqueued(db, env, input, c.status);
            var cls := db.inputs[input].cls;
            && |out.inputs| == |db.inputs|
            && (if c.status != BuildStatus.Good && !HasQueuedFriend(db, cls)
                   && !Exhausted(env.cfg, MaxRetries(db.inputs, cls)) then
                  && out.queue == db.queue[db.nextJob := NewJob(env, input, c)]
                  && out.nextJob == db.nextJob + 1
                else out.queue == db.queue && out.nextJob == db.nextJob)
  {
    hide UpsertJob, MaxRetries, GiveUp;
    var cls := db.inputs[input].cls;
    assert (exists q | q in db.queue :: QueuedIn(db, q, cls)) <==> HasQueuedFriend(db, cls);
    if c.status != BuildStatus.Good && !HasQueuedFriend(db, cls) {
      if Exhausted(env.cfg, MaxRetries(db.inputs, cls)) {
        GiveUpWithoutJobs(db, cls);
        SetNextRetryIsValid(db, cls, None);
      } else {
        assert forall q | q in db.queue :: !QueuedIn(db, q, cls);
        UpsertJobEffect(db, input, if c.status == BuildStatus.Bad then PRIORITY_RETRY else PRIORITY_DEFAULT, env.now);
      }
    }
  }

  /** The whole effect of importing one package on inputs and queue. */
  lemma ImportOneEffect(db: Db, env: Env, p: PackageReport, c: Choice)
    requires Valid(db)
    ensures var out := ImportOne(db, env, p, c);
            && Valid(out)
            && InputsGrow(db.inputs, out.inputs)
            && HasMember(out.inputs, ClassOf(env, p))
            && InClass(out.inputs, InputOf(db, env, p), ClassOf(env, p))
            && (if AddsJob(db, env, p, c) then
                  && out.queue == db.queue[db.nextJob := NewJob(env, InputOf(db, env, p), c)]
                  && out.nextJob == db.nextJob + 1
                else out.queue == db.queue && out.nextJob == db.nextJob)
  {
    hide Registered, Enqueued, KeysUnique, ReferencesHold, MaxRetries, ClassOf, InputOf, CopyRebuilds;
    var input, cls := InputOf(db, env, p), ClassOf(env, p);
    var isNew := IsNewPackage(db, env, p);
    var registered := Registered(db, env, p);
    RegisteredIsValid(db, env, p);
    var inherited := Inherited(registered, isNew, c.copyOrder, input);
    CopyRebuildsIsValid(registered, c.copyOrder, input);
    FriendsQueuedUnchanged(db, inherited, cls);
    EnqueuedEffect(inherited, env, input, c);
    var out := Enqueued(inherited, env, input, c.status);
    assert InClass(out.inputs, input, cls);
  }
}
