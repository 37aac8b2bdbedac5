/**
 The handlers as methods over the tables.  Each method works through its rows the way the daemon does and is
 proved to make exactly the step that `Runs` assigns to it.
 */
module Handlers {
  import opened Options
  import opened Collections
  import opened Rows
  import opened Friends
  import opened BuildReport
  import opened PackageImport
  import opened Queue
  import opened Runs
  import opened ImportFacts
  import opened Invariants
  import opened WorkSelection

  // ----- log memo -----

  /** Works through a list of entries, starting from the memo `m`. */
  function RememberAll(m: Memo, arts: seq<ArtifactReport>, db: Db): (out: Memo)
    ensures forall x :: 0 <= x < |arts| ==> arts[x].name in out.ids
  {
    if |arts| == 0 then m
    else Remember(RememberAll(m, arts[..|arts| - 1], db), arts[|arts| - 1], db)
  }

  lemma {:induction false} MemoIsRememberAll(arts: seq<ArtifactReport>, db: Db)
    ensures RememberAll(EMPTY_MEMO, arts, db) == MemoOf(arts, db)
  {
    if |arts| > 0 {
      MemoIsRememberAll(arts[..|arts| - 1], db);
    }
  }

  /** The second and later friends find every name in the memo. */
  lemma {:induction false} NothingNewToRemember(m: Memo, arts: seq<ArtifactReport>, db: Db)
    requires forall x :: 0 <= x < |arts| ==> arts[x].name in m.ids
    ensures RememberAll(m, arts, db) == m
  {
    if |arts| > 0 {
      NothingNewToRemember(m, arts[..|arts| - 1], db);
    }
  }

  // ----- copies -----

  /** Copying appends artifact rows of new rebuilds only. */
  lemma {:induction false} CopyKeepsArtifacts(db: Db, ids: seq<nat>, to: nat, id: nat)
    requires id < |db.rebuilds|
    ensures ArtifactsOf(CopyRebuilds(db, ids, to).artifacts, id) == ArtifactsOf(db.artifacts, id)
  {
    if |ids| > 0 {
      var d := CopyRebuilds(db, ids[..|ids| - 1], to);
      CopyKeepsArtifacts(db, ids[..|ids| - 1], to, id);
      var from := ids[|ids| - 1];
      if from < |db.rebuilds| {
        var more := CopiedArtifacts(db.artifacts, from, |d.rebuilds|);
        ArtifactsOfUniform(more, |d.rebuilds|, id);
        ArtifactsOfAppend(d.artifacts, more, id);
      }
    }
  }

  lemma {:induction false} LatestBuiltExists(rebuilds: seq<Rebuild>, ids: set<nat>) returns (r: nat)
    requires ids != {} && forall o :: o in ids ==> o < |rebuilds|
    ensures r in ids && forall o :: o in ids ==> NullableLe(rebuilds[o].builtAt, rebuilds[r].builtAt)
    decreases ids
  {
    r :| r in ids;
    var rest := ids - {r};
    assert forall o :: o in ids ==> o == r || o in rest;
    if rest != {} {
      var s := LatestBuiltExists(rebuilds, rest);
      if !NullableLe(rebuilds[s].builtAt, rebuilds[r].builtAt) {
        r := s;
      }
    }
  }

  // ----- joined rows -----

  /** One row of the join of build inputs with the binary packages of their source package. */
  datatype Joined = Joined(input: nat, binary: nat)

  function JoinedRows(db: Db, req: RebuildRequest): set<Joined> {
    set i, b | 0 <= i < |db.inputs| && 0 <= b < |db.binaries|
        && Selected(db, req, i) && db.binaries[b].source == db.inputs[i].source :: Joined(i, b)
  }

  lemma JoinedInputs(db: Db, req: RebuildRequest)
    ensures forall i: nat :: i in SelectedIds(db, req) <==> exists row :: row in JoinedRows(db, req) && row.input == i
  {
    forall i: nat | i in SelectedIds(db, req)
      ensures exists row :: row in JoinedRows(db, req) && row.input == i
    {
      var b :| 0 <= b < |db.binaries| && db.binaries[b].source == db.inputs[i].source;
      assert Joined(i, b) in JoinedRows(db, req);
    }
  }

  /** Input ids in the order of their first row. */
  method Deduplicate(rows: seq<Joined>) returns (ids: seq<nat>)
    ensures Enumerates(ids, set row | row in rows :: row.input)
  {
    ids := [];
    var seen := {};
    for n := 0 to |rows|
      invariant seen == set row | row in rows[..n] :: row.input
      invariant Enumerates(ids, seen)
    {
      if rows[n].input !in seen {
        ids := ids + [rows[n].input];
      }
      seen := seen + {rows[n].input};
      assert rows[..n + 1] == rows[..n] + [rows[n]];
    }
    assert rows[..|rows|] == rows;
  }

  // ----- architectures -----

  function Members(names: seq<string>): set<string> {
    set a | a in names
  }

  lemma SupportedGrows(architectures: set<string>, a: string)
    ensures Supported(architectures + {a}) == Supported(architectures) + {a} + OtherNames(a)
  {
  }

  function OtherNames(a: string): set<string> {
    match Alias(a)
    case Some(other) => {other}
    case None => {}
  }

  /** Adds the other common name of every architecture that has one. */
  method StandardizeArchitectures(architectures: seq<string>) returns (all: set<string>)
    ensures all == Supported(Members(architectures))
  {
    all := {};
    for n := 0 to |architectures|
      invariant all == Supported(Members(architectures[..n]))
    {
      SupportedGrows(Members(architectures[..n]), architectures[n]);
      assert Members(architectures[..n + 1]) == Members(architectures[..n]) + {architectures[n]};
      if Alias(architectures[n]).Some? {
        all := all + {Alias(architectures[n]).value};
      }
      all := all + {architectures[n]};
    }
    assert architectures[..|architectures|] == architectures;
  }

  lemma RemovedCount(jobs: map<nat, Job>, ids: set<nat>)
    requires ids <= jobs.Keys
    ensures |jobs - ids| == |jobs| - |ids|
  {
  }

  /** Removing the matching rows is the drop of the specification. */
  lemma MatchingRemoved(db: Db, origin: OriginFilter, identity: IdentityFilter, ids: set<nat>)
    requires ids == set q | q in db.queue && Matches(db, origin, identity, db.queue[q].input)
    ensures DropMatching(db, origin, identity) == db.(queue := db.queue - ids)
    ensures |db.queue - ids| == |db.queue| - |ids|
  {
    hide Matches;
    RemovedCount(db.queue, ids);
  }

  lemma FirstIsQueued(db: Db, req: WorkRequest, now: Time, q: nat)
    requires IsFirst(db, req, now, q)
    ensures q in db.queue
  {
  }

  /** The tables, and the events that led to them. */
  class Database {
    const cfg: Config
    ghost var history: seq<Event>
    var sources: seq<Source>
    var inputs: seq<Input>
    var binaries: seq<Binary>
    var queue: map<nat, Job>
    var nextJob: nat
    var rebuilds: seq<Rebuild>
    var artifacts: seq<Artifact>
    var buildLogs: seq<Blob>
    var diffoscopeLogs: seq<Blob>
    var attestationLogs: seq<Blob>

    constructor (cfg: Config)
      ensures this.cfg == cfg && Tables() == EMPTY_DB && history == [] && Recorded()
    {
      this.cfg, history := cfg, [];
      sources, inputs, binaries, queue, nextJob := [], [], [], map[], 0;
      rebuilds, artifacts, buildLogs, diffoscopeLogs, attestationLogs := [], [], [], [], [];
    }

    function Tables(): Db
      reads this
    {
      Db(sources, inputs, binaries, queue, nextJob, rebuilds, artifacts, buildLogs, diffoscopeLogs, attestationLogs)
    }

    /** The events are a run of the daemon, and the tables are what that run leads to. */
    ghost predicate Recorded()
      reads this
    {
      IsRun(cfg, history) && Tables() == Run(cfg, history)
    }

    /** So everything proved about runs holds of the tables; keys and references, for example. */
    lemma RecordedIsValid()
      requires Recorded()
      ensures Valid(Tables())
    {
      RunIsValid(cfg, history);
    }

    // ----- single rows -----

    method InsertRebuild(row: Rebuild) returns (id: nat)
      modifies this`rebuilds
      ensures id == old(|rebuilds|) && rebuilds == old(rebuilds) + [row]
    {
      id := |rebuilds|;
      rebuilds := rebuilds + [row];
    }

    ghost predicate JobsUnique()
      reads this
    {
      forall p, q :: p in queue && q in queue && queue[p].input == queue[q].input ==> p == q
    }

    /** On conflict only the priority is written, so a held job stays with its worker. */
    method UpsertQueued(input: nat, priority: int, now: Time)
      requires JobsUnique()
      modifies this`queue, this`nextJob
      ensures Tables() == UpsertJob(old(Tables()), input, priority, now)
    {
      if q :| q in queue && queue[q].input == input {
        queue := queue[q := queue[q].(priority := priority)];
      } else {
        queue := queue[nextJob := Job(input, priority, now, None, None, None)];
        nextJob := nextJob + 1;
      }
    }

    method DeleteQueued(q: nat)
      modifies this`queue
      ensures queue == old(queue) - {q}
    {
      queue := queue - {q};
    }

    method UpsertSource(row: Source) returns (id: nat)
      modifies this`sources
      ensures id == FindSource(old(sources), row.identity) && sources == Put(old(sources), id, row)
    {
      id := FindSource(sources, row.identity);
      if id < |sources| {
        sources := sources[id := sources[id].(lastSeen := row.lastSeen, seen := row.seen, gitHash := row.gitHash,
                                              buildTime := row.buildTime, gitTime := row.gitTime)];
      } else {
        sources := sources + [row];
      }
    }

    /** On conflict nothing changes: retries and the next retry stay as they are. */
    method UpsertInput(row: Input) returns (id: nat)
      modifies this`inputs
      ensures id == FindInput(old(inputs), row.source, row.cls)
      ensures inputs == if id < |old(inputs)| then old(inputs) else old(inputs) + [row]
    {
      id := FindInput(inputs, row.source, row.cls);
      if id < |inputs| {
        inputs := inputs[id := inputs[id].(source := row.source, cls := row.cls)];
        assert inputs == old(inputs);
      } else {
        inputs := inputs + [row];
      }
    }

    method UpsertBinary(row: Binary)
      modifies this`binaries
      ensures binaries == Put(old(binaries), FindBinary(old(binaries), row), row)
    {
      var id := FindBinary(binaries, row);
      if id < |binaries| {
        binaries := binaries[id := binaries[id].(url := row.url, seen := row.seen)];
      } else {
        binaries := binaries + [row];
      }
    }

    // ----- rebuild reports -----

    /** The log tables hold what the memo holds, on top of the tables at `base`. */
    ghost predicate LogsAre(base: Db, m: Memo)
      reads this
    {
      && diffoscopeLogs == base.diffoscopeLogs + m.diffoscopes
      && attestationLogs == base.attestationLogs + m.attestations
    }

    /** The logs of one entry: found in the memo, or stored now. */
    method LogsFor(a: ArtifactReport, known: map<string, LogIds>, ghost base: Db, ghost m: Memo)
      returns (ids: map<string, LogIds>)
      requires known == m.ids && LogsAre(base, m)
      modifies this`diffoscopeLogs, this`attestationLogs
      ensures ids == Remember(m, a, base).ids && LogsAre(base, Remember(m, a, base))
    {
      ids := known;
      if a.name !in known {
        var diffoscope, attestation := None, None;
        if a.diffoscope.Some? {
          diffoscope := Some(|diffoscopeLogs|);
          diffoscopeLogs := diffoscopeLogs + [a.diffoscope.value];
        }
        if a.attestation.Some? {
          attestation := Some(|attestationLogs|);
          attestationLogs := attestationLogs + [a.attestation.value];
        }
        ids := known[a.name := LogIds(diffoscope, attestation)];
      }
    }

    /** The artifact rows of one new rebuild. */
    method StoreArtifacts(
      rebuild: nat, arts: seq<ArtifactReport>, known: map<string, LogIds>, ghost base: Db, ghost m: Memo)
      returns (ids: map<string, LogIds>)
      requires known == m.ids && LogsAre(base, m)
      modifies this`artifacts, this`diffoscopeLogs, this`attestationLogs
      ensures ids == RememberAll(m, arts, base).ids && LogsAre(base, RememberAll(m, arts, base))
      ensures artifacts == old(artifacts) + ArtifactRows(rebuild, arts, ids)
    {
      ids := known;
      for x := 0 to |arts|
        invariant ids == RememberAll(m, arts[..x], base).ids && LogsAre(base, RememberAll(m, arts[..x], base))
        invariant forall y :: 0 <= y < x ==> arts[..x][y].name in ids
        invariant artifacts == old(artifacts) + ArtifactRows(rebuild, arts[..x], ids)
      {
        assert arts[..x + 1][..x] == arts[..x];
        ids := LogsFor(arts[x], ids, base, RememberAll(m, arts[..x], base));
        var logs := ids[arts[x].name];
        artifacts := artifacts
          + [Artifact(rebuild, arts[x].name, logs.diffoscope, logs.attestation, Some(arts[x].status))];
      }
      assert arts[..|arts|] == arts;
    }

    /** One rebuild per friend; only the first friend's round stores artifact logs. */
    method StoreReport(job: Job, friends: seq<nat>, rep: Report)
      requires |friends| > 0
      modifies this`buildLogs, this`rebuilds, this`artifacts, this`diffoscopeLogs, this`attestationLogs
      ensures Tables() == Stored(old(Tables()), job, rep, friends)
    {
      hide MemoOf, RememberAll, ArtifactRows;
      ghost var base := Tables();
      ghost var memo := MemoOf(rep.artifacts, base);
      var log := |buildLogs|;
      buildLogs := buildLogs + [rep.log];
      ghost var logged := base.(buildLogs := buildLogs,
                                diffoscopeLogs := base.diffoscopeLogs + memo.diffoscopes,
                                attestationLogs := base.attestationLogs + memo.attestations);
      var ids: map<string, LogIds> := map[];
      MemoIsRememberAll(rep.artifacts, base);
      NothingNewToRemember(memo, rep.artifacts, base);
      for f := 0 to |friends|
        invariant buildLogs == logged.buildLogs
        invariant ids == (if f == 0 then EMPTY_MEMO else memo).ids
        invariant LogsAre(base, if f == 0 then EMPTY_MEMO else memo)
        invariant rebuilds == FanOut(logged, job, rep, log, memo.ids, friends[..f]).rebuilds
        invariant artifacts == FanOut(logged, job, rep, log, memo.ids, friends[..f]).artifacts
      {
        assert friends[..f + 1][..f] == friends[..f];
        var rebuild := InsertRebuild(RebuildRow(job, friends[f], rep, log));
        ids := StoreArtifacts(rebuild, rep.artifacts, ids, base, if f == 0 then EMPTY_MEMO else memo);
      }
      assert friends[..|friends|] == friends;
      assert Tables() == FanOut(logged, job, rep, log, memo.ids, friends);
    }

    method MarkFriendsNonRetriable(cls: Class)
      modifies this`inputs, this`queue
      ensures Tables() == GiveUp(old(Tables()), cls)
    {
      var friends := FriendIds(inputs, cls);
      queue := map q | q in queue && queue[q].input !in friends :: queue[q];
      inputs := seq(|inputs|, i requires 0 <= i < |inputs| reads this =>
        if i in friends then inputs[i].(nextRetry := None) else inputs[i]);
    }

    method IncrementRetries(friends: set<nat>, ghost cls: Class)
      requires friends == FriendIds(inputs, cls)
      modifies this`inputs
      ensures inputs == BumpRetries(old(inputs), cls)
    {
      inputs := seq(|inputs|, i requires 0 <= i < |inputs| reads this =>
        if i in friends then inputs[i].(retries := inputs[i].retries + 1) else inputs[i]);
    }

    method PostponeRetry(friends: set<nat>, at: Time, ghost cls: Class)
      requires friends == FriendIds(inputs, cls)
      modifies this`inputs
      ensures inputs == SetNextRetry(old(inputs), cls, Some(at))
    {
      inputs := seq(|inputs|, i requires 0 <= i < |inputs| reads this =>
        if i in friends then inputs[i].(nextRetry := Some(at)) else inputs[i]);
    }

    method Reschedule(cfg: Config, q: nat, status: BuildStatus, now: Time)
      requires JobsUnique() && q in queue && queue[q].input < |inputs|
      modifies this`inputs, this`queue, this`nextJob
      ensures Tables() == Rescheduled(old(Tables()), cfg, q, status, now)
    {
      var input := queue[q].input;
      var cls := inputs[input].cls;
      var friends := FriendIds(inputs, cls);
      DeleteQueued(q);
      if status != BuildStatus.Good {
        IncrementRetries(friends, cls);
        var retries := MaxRetries(inputs, cls);
        if Exhausted(cfg, retries) {
          MarkFriendsNonRetriable(cls);
        } else {
          assert FriendIds(inputs, cls) == friends;
          PostponeRetry(friends, now + RetryDelay(cfg, retries), cls);
          UpsertQueued(input, PRIORITY_RETRY, now);
        }
      }
    }

    /**
     A report for a queue row, held or not and by whomever: stores one log, fans the result out to all friends,
     and retries later or gives up.
     */
    method SubmitRebuildReport(q: nat, rep: Report, now: Time) returns (accepted: bool, ghost order: seq<nat>)
      requires Recorded()
      modifies this
      ensures Recorded() && history == old(history) + [SubmitReport(q, rep, order, now)]
      ensures Tables() == Reported(old(Tables()), cfg, q, rep, now, order)
      ensures accepted == (q in old(queue))
    {
      hide Stored, Rescheduled, Run, IsRun;
      RecordedIsValid();
      accepted := q in queue;
      order := [];
      if accepted {
        var job := queue[q];
        var cls := inputs[job.input].cls;
        var friends := InSomeOrder(FriendIds(inputs, cls));
        order := friends;
        assert job.input in FriendIds(inputs, cls);
        StoreReport(job, friends, rep);
        Reschedule(cfg, q, rep.status, now);
      }
      RunContinues(cfg, history, SubmitReport(q, rep, order, now));
      history := history + [SubmitReport(q, rep, order, now)];
    }

    // ----- package reports -----

    method MarkScopedPackagesUnseen(report: ScopeReport)
      modifies this`sources, this`binaries
      ensures Tables() == MarkUnseen(old(Tables()), report)
    {
      var scoped := set i | 0 <= i < |inputs| && InputInScope(Tables(), report, i);
      var scopedSources := set i | i in scoped :: inputs[i].source;
      ghost var before := Tables();
      sources := seq(|sources|, s requires 0 <= s < |sources| reads this =>
        if s in scopedSources then sources[s].(seen := false) else sources[s]);
      binaries := seq(|binaries|, b requires 0 <= b < |binaries| reads this =>
        if binaries[b].input in scoped then binaries[b].(seen := false) else binaries[b]);
      assert forall s :: 0 <= s < |before.sources| ==> (s in scopedSources <==> SourceInScope(before, report, s));
    }

    method RegisterBinaries(env: Env, source: nat, input: nat, arts: seq<BinaryReport>)
      modifies this`binaries
      ensures binaries == ListBinaries(old(binaries), env, source, input, arts)
    {
      for a := 0 to |arts|
        invariant binaries == ListBinaries(old(binaries), env, source, input, arts[..a])
      {
        assert arts[..a + 1][..a] == arts[..a];
        UpsertBinary(BinaryRow(env, source, input, arts[a]));
      }
      assert arts[..|arts|] == arts;
    }

    /** Copies the rebuilds of the lowest-id friend, row by row, reading from the tables that are being extended. */
    method CopyExistingRebuilds(input: nat) returns (ghost order: seq<nat>)
      requires input < |inputs|
      modifies this`rebuilds, this`artifacts
      ensures LegalCopyOrder(old(Tables()), true, order, input)
      ensures Tables() == CopyRebuilds(old(Tables()), order, input)
    {
      ghost var before := Tables();
      order := [];
      var friend := LowestFriend(inputs, inputs[input].cls, input);
      if friend < |inputs| {
        var ids := InSomeOrder(RebuildIds(rebuilds, friend));
        order := ids;
        for n := 0 to |ids|
          invariant Tables() == CopyRebuilds(before, ids[..n], input)
        {
          assert ids[..n + 1][..n] == ids[..n];
          assert ids[n] in RebuildIds(before.rebuilds, friend);
          CopyKeepsArtifacts(before, ids[..n], input, ids[n]);
          assert rebuilds[..|before.rebuilds|][ids[n]] == before.rebuilds[ids[n]];
          var rebuild := InsertRebuild(rebuilds[ids[n]].(input := input));
          artifacts := artifacts + CopiedArtifacts(artifacts, ids[n], rebuild);
        }
        assert ids[..|ids|] == ids;
      }
    }

    method CurrentStatus(input: nat) returns (status: BuildStatus)
      ensures IsCurrentStatus(rebuilds, input, status)
    {
      var ids := RebuildIds(rebuilds, input);
      status := BuildStatus.Unknown;
      if ids != {} {
        ghost var latest := LatestBuiltExists(rebuilds, ids);
        var r :| r in ids && forall o | o in ids :: NullableLe(rebuilds[o].builtAt, rebuilds[r].builtAt);
        assert IsLatestBuilt(rebuilds, input, r);
        if rebuilds[r].status.Some? {
          status := rebuilds[r].status.value;
        }
      }
    }

    /** Queues a package that is not GOOD, unless a friend is queued or the retries are used up. */
    method EnqueueUnlessQueued(env: Env, input: nat, status: BuildStatus)
      requires JobsUnique() && input < |inputs|
      modifies this`inputs, this`queue, this`nextJob
      ensures Tables() == Enqueued(old(Tables()), env, input, status)
    {
      var cls := inputs[input].cls;
      var hasQueuedFriend := exists q | q in queue :: QueuedIn(Tables(), q, cls);
      if status != BuildStatus.Good && !hasQueuedFriend {
        var retries := MaxRetries(inputs, cls);
        if Exhausted(env.cfg, retries) {
          MarkFriendsNonRetriable(cls);
        } else {
          var priority := PRIORITY_DEFAULT;
          if status == BuildStatus.Bad {
            priority := PRIORITY_RETRY;
          }
          UpsertQueued(input, priority, env.now);
        }
      }
    }

    method ImportPackage(env: Env, p: PackageReport) returns (ghost c: Choice)
      requires Valid(Tables())
      modifies this
      ensures history == old(history)
      ensures LegalChoice(old(Tables()), env, p, c)
      ensures Tables() == ImportOne(old(Tables()), env, p, c)
    {
      hide ListBinaries, CopyRebuilds, IsCurrentStatus, Enqueued, FindSource, FindInput, RebuildIds, ReferencesHold;
      ghost var before := Tables();
      RegisteredIsValid(before, env, p);
      var isNew := IsNewPackage(Tables(), env, p);
      var source := UpsertSource(SourceRow(env, p));
      var input := UpsertInput(Input(source, ClassOf(env, p), 0, InitialRetry(env)));
      RegisterBinaries(env, source, input, p.artifacts);
      ghost var registered := Tables();
      assert registered == Registered(before, env, p);
      ghost var order := [];
      if isNew {
        order := CopyExistingRebuilds(input);
      }
      assert Tables() == Inherited(registered, isNew, order, input);
      var status := CurrentStatus(input);
      EnqueueUnlessQueued(env, input, status);
      c := Choice(order, status);
    }

    method DropUnseenScopedJobs(report: ScopeReport)
      modifies this`queue
      ensures Tables() == DropUnseen(old(Tables()), report)
    {
      queue := map q | q in queue && !IsUnseenJob(Tables(), report, q) :: queue[q];
    }

    /** Imports a report inside one transaction: mark unseen, import each package, drop unseen jobs. */
    method SubmitPackageReport(report: ScopeReport, now: Time) returns (ghost choices: seq<Choice>)
      requires Recorded()
      modifies this
      ensures Recorded() && history == old(history) + [Import(report, choices, now)]
      ensures |choices| == |report.packages| && Tables() == Imported(old(Tables()), Env(cfg, report, now), choices)
    {
      hide ImportOne, LegalChoice, Run, IsRun;
      RecordedIsValid();
      var env := Env(cfg, report, now);
      ghost var marked := MarkUnseen(Tables(), report);
      MarkUnseenIsValid(Tables(), report);
      MarkScopedPackagesUnseen(report);
      choices := [];
      for n := 0 to |report.packages|
        invariant |choices| == n && history == old(history)
        invariant LegalChoices(marked, env, choices)
        invariant Tables() == ImportAll(marked, env, choices)
      {
        ImportAllIsValid(marked, env, choices);
        ghost var c := ImportPackage(env, report.packages[n]);
        assert (choices + [c])[..n] == choices;
        choices := choices + [c];
      }
      DropUnseenScopedJobs(report);
      RunContinues(cfg, history, Import(report, choices, now));
      history := history + [Import(report, choices, now)];
    }

    // ----- the queue -----

    method ClearStaleJobs(now: Time)
      modifies this`queue
      ensures Tables() == Swept(old(Tables()), now)
    {
      queue := map q | q in queue ::
        if IsStale(queue[q], now) then queue[q].(worker := None, startedAt := None, lastPing := None) else queue[q];
    }

    /** The conditions of the work query on one row. */
    predicate IsWanted(q: nat, backends: set<string>, architectures: set<string>, now: Time)
      requires Valid(Tables()) && q in queue
      reads this
    {
      var input := inputs[queue[q].input];
      && queue[q].worker.None? && IsDue(input, now)
      && input.cls.architecture in architectures && input.cls.backend in backends
    }

    /** The row the work query returns first, if it finds any. */
    method FirstJob(ghost req: WorkRequest, supported: set<string>, now: Time, backends: set<string>)
      returns (first: Option<nat>)
      requires Valid(Tables())
      requires supported == Supported(req.architectures) && backends == req.backends
      ensures first.Some? ==> IsFirst(Tables(), req, now, first.value)
      ensures first.None? ==> forall q: nat :: !Eligible(Tables(), req, now, q)
    {
      hide RankLe;
      var jobs := set q | q in queue && IsWanted(q, backends, supported, now);
      assert forall q: nat :: Eligible(Tables(), req, now, q) <==> q in jobs;
      first := None;
      if jobs != {} {
        ghost var f := FirstAmong(Tables(), jobs);
        var q :| q in jobs && forall o | o in jobs :: RankLe(RankOf(Tables(), q), RankOf(Tables(), o));
        first := Some(q);
      }
    }

    /** Sweeps and looks for work. */
    method SweepAndFind(ghost req: WorkRequest, backends: set<string>, supported: set<string>, now: Time)
      returns (taken: Option<nat>)
      requires Valid(Tables())
      requires supported == Supported(req.architectures) && backends == req.backends
      modifies this`queue
      ensures Tables() == Swept(old(Tables()), now)
      ensures LegalWork(old(Tables()), req, now, taken)
      ensures taken.Some? ==> taken.value in queue
    {
      hide Eligible, RankOf;
      ghost var before := Tables();
      ClearStaleJobs(now);
      FewerJobsIsValid(before, queue);
      taken := FirstJob(req, supported, now, backends);
      if taken.Some? {
        FirstIsQueued(Tables(), req, now, taken.value);
      }
    }

    method RequestWork(worker: int, backends: set<string>, architectures: seq<string>, now: Time)
      returns (taken: Option<nat>, ghost req: WorkRequest)
      requires Recorded()
      modifies this`queue, this`history
      ensures req == WorkRequest(worker, backends, Members(architectures))
      ensures Recorded() && history == old(history) + [Event.RequestWork(req, taken, now)]
      ensures Tables() == WorkRequested(old(Tables()), req, now, taken)
    {
      hide Run, IsRun, LegalWork, Valid;
      RecordedIsValid();
      req := WorkRequest(worker, backends, Members(architectures));
      var supported := StandardizeArchitectures(architectures);
      taken := SweepAndFind(req, backends, supported, now);
      if taken.Some? {
        var q := taken.value;
        queue := queue[q := queue[q].(startedAt := Some(now), worker := Some(worker), lastPing := Some(now))];
      }
      RunContinues(cfg, history, Event.RequestWork(req, taken, now));
      history := history + [Event.RequestWork(req, taken, now)];
    }

    /** Only the holder of a job extends its lease. */
    method PingJob(q: nat, worker: int, now: Time) returns (found: bool)
      requires Recorded()
      modifies this`queue, this`history
      ensures Recorded() && history == old(history) + [Ping(q, worker, now)]
      ensures Tables() == Pinged(old(Tables()), q, worker, now)
      ensures found == HeldBy(old(Tables()), q, worker)
    {
      hide Run, IsRun;
      found := q in queue && queue[q].worker == Some(worker);
      if found {
        queue := queue[q := queue[q].(lastPing := Some(now))];
      }
      RunContinues(cfg, history, Ping(q, worker, now));
      history := history + [Ping(q, worker, now)];
    }

    method ResetLastRebuild(input: nat)
      modifies this`rebuilds, this`artifacts
      ensures Tables() == Reset(old(Tables()), input)
    {
      var r := LastRebuild(rebuilds, input);
      if r < |rebuilds| {
        rebuilds := rebuilds[r := rebuilds[r].(status := None)];
        artifacts := seq(|artifacts|, a requires 0 <= a < |artifacts| reads this =>
          if artifacts[a].rebuild == r then artifacts[a].(status := None) else artifacts[a]);
      }
    }

    /**
     Queues every selected build input.  The answer counts joined rows, so an input is counted once for every
     binary package of its source package, while it is queued once.
     */
    method RequestRebuild(req: RebuildRequest, now: Time) returns (matched: nat, ghost order: seq<nat>)
      requires Recorded()
      modifies this
      ensures Recorded() && history == old(history) + [Event.RequestRebuild(req, order, now)]
      ensures Tables() == RequeueAll(old(Tables()), req, now, order)
      ensures matched == |JoinedRows(old(Tables()), req)|
    {
      hide Selected, Matches, RequeueOne, Run, IsRun;
      RecordedIsValid();
      ghost var before := Tables();
      var joined := InSomeOrder(JoinedRows(Tables(), req));
      matched := |joined|;
      EnumeratedSize(joined, JoinedRows(before, req));
      var ids := Deduplicate(joined);
      JoinedInputs(before, req);
      order := ids;
      for n := 0 to |ids|
        invariant history == old(history)
        invariant Tables() == RequeueAll(before, req, now, ids[..n])
      {
        assert ids[..n + 1][..n] == ids[..n];
        RequeueAllIsValid(before, req, now, ids[..n]);
        Requeue(req, now, ids[n]);
      }
      assert ids[..|ids|] == ids;
      RunContinues(cfg, history, Event.RequestRebuild(req, order, now));
      history := history + [Event.RequestRebuild(req, order, now)];
    }

    method Requeue(req: RebuildRequest, now: Time, input: nat)
      requires JobsUnique()
      modifies this
      ensures history == old(history)
      ensures Tables() == RequeueOne(old(Tables()), req, now, input)
    {
      if input < |inputs| {
        if req.reset {
          ResetLastRebuild(input);
        }
        inputs := inputs[input := inputs[input].(nextRetry := Some(now - 60))];
        UpsertQueued(input, if req.priority.Some? then req.priority.value else PRIORITY_MANUAL, now);
      }
    }

    method DropQueuedJobs(origin: OriginFilter, identity: IdentityFilter, now: Time) returns (dropped: nat)
      requires Recorded()
      modifies this`queue, this`history
      ensures Recorded() && history == old(history) + [DropJobs(origin, identity, now)]
      ensures Tables() == DropMatching(old(Tables()), origin, identity)
      ensures dropped == |old(queue)| - |queue|
    {
      hide Matches, Run, IsRun, DropMatching;
      var ids := set q | q in queue && Matches(Tables(), origin, identity, queue[q].input);
      MatchingRemoved(Tables(), origin, identity, ids);
      dropped := |ids|;
      queue := queue - ids;
      RunContinues(cfg, history, DropJobs(origin, identity, now));
      history := history + [DropJobs(origin, identity, now)];
    }

    method DropQueuedJob(q: nat, now: Time) returns (found: bool)
      requires Recorded()
      modifies this`queue, this`history
      ensures Recorded() && history == old(history) + [DropOne(q, now)]
      ensures Tables() == DropJob(old(Tables()), q)
      ensures found == (q in old(queue))
    {
      hide Run, IsRun;
      found := q in queue;
      queue := queue - {q};
      RunContinues(cfg, history, DropOne(q, now));
      history := history + [DropOne(q, now)];
    }
  }
}
