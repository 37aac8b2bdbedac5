/** Runs of the daemon in which something that one might expect does not hold. */
module Examples {
  import opened Options
  import opened Collections
  import opened Rows
  import opened Friends
  import opened BuildReport
  import opened PackageImport
  import opened ImportFacts
  import opened ReportFacts
  import opened Queue
  import opened Runs
  import opened Invariants
  import opened Uniqueness
  import opened ImportFlags
  import opened Coverage
  import opened Dashboard
  import opened Histories
  import opened LateJoins
  import opened Resets
  import opened SharedHistories
  import opened Pagination

  // ----- imports of new packages -----

  const CONFIG := Config(None, 24, 0)
  const SCOPE := Scope("debian", Some("sid"), Some("main"))
  const ARCHITECTURE := "amd64"
  const NOTHING := Choice([], BuildStatus.Unknown)

  /** A package with one binary. */
  function Package(name: string, version: string, url: string): PackageReport {
    PackageReport(name, version, url, [BinaryReport(name, version, "deb")], None, None, None)
  }

  function Listing(packages: seq<PackageReport>): ScopeReport {
    ScopeReport(SCOPE, ARCHITECTURE, packages)
  }

  function ClassAt(url: string): Class {
    Class(url, SCOPE.distribution, ARCHITECTURE)
  }

  predicate IsQueuedClass(db: Db, cls: Class) {
    exists q | q in db.queue :: QueuedIn(db, q, cls)
  }

  /** The tables with one more package, which is queued unless a friend is. */
  function WithPackage(db: Db, env: Env, p: PackageReport): Db
    requires |p.artifacts| == 1
  {
    var s, i := |db.sources|, |db.inputs|;
    var added := db.(sources := db.sources + [SourceRow(env, p)],
                     inputs := db.inputs + [Input(s, ClassOf(env, p), 0, None)],
                     binaries := db.binaries + [BinaryRow(env, s, i, p.artifacts[0])]);
    if IsQueuedClass(db, ClassOf(env, p)) then added
    else
      added.(queue := db.queue[db.nextJob := Job(i, PRIORITY_DEFAULT, env.now, None, None, None)],
             nextJob := db.nextJob + 1)
  }

  lemma NoFriendResults(db: Db, f: nat, cls: Class)
    requires InClass(db.inputs, f, cls) && !HasResults(db, cls)
    ensures RebuildIds(db.rebuilds, f) == {}
  {
  }

  /** With nothing to copy, an import is legal without copies and with an unknown status. */
  lemma NothingToCopy(db: Db, env: Env, p: PackageReport)
    requires Valid(db)
    requires IsNewPackage(db, env, p) ==> !HasResults(db, ClassOf(env, p))
    requires InputOf(db, env, p) < |db.inputs| ==> RebuildIds(db.rebuilds, InputOf(db, env, p)) == {}
    ensures LegalChoice(db, env, p, NOTHING)
  {
    hide ListBinaries;
    var input, registered := InputOf(db, env, p), Registered(db, env, p);
    RegisteredIsValid(db, env, p);
    var f := LowestFriend(registered.inputs, ClassOf(env, p), input);
    if IsNewPackage(db, env, p) && f < |registered.inputs| {
      NoFriendResults(db, f, ClassOf(env, p));
    }
    assert RebuildIds(registered.rebuilds, input) == {};
  }

  lemma NewPackage(db: Db, env: Env, p: PackageReport)
    requires Valid(db) && env.cfg == CONFIG && |p.artifacts| == 1
    requires !KnownSource(db, IdentityOf(env, p)) && !HasResults(db, ClassOf(env, p))
    ensures LegalChoice(db, env, p, NOTHING)
    ensures ImportOne(db, env, p, NOTHING) == WithPackage(db, env, p)
  {
    hide LegalChoice, KeysUnique, Enqueued, Registered, FindSource, FindInput, IsQueuedClass;
    NewKeys(db, env, p);
    NothingToCopy(db, env, p);
    NewRows(db, env, p);
    NewPackageIsQueued(db, Registered(db, env, p), env, p);
  }

  lemma NewKeys(db: Db, env: Env, p: PackageReport)
    requires Valid(db) && !KnownSource(db, IdentityOf(env, p))
    ensures IsNewPackage(db, env, p)
    ensures SourceOf(db, env, p) == |db.sources| && InputOf(db, env, p) == |db.inputs|
  {
    hide KeysUnique;
    KnownBefore(db, env, p);
  }

  /** The rows that a new package adds. */
  lemma NewRows(db: Db, env: Env, p: PackageReport)
    requires Valid(db) && env.cfg == CONFIG && |p.artifacts| == 1
    requires SourceOf(db, env, p) == |db.sources| && InputOf(db, env, p) == |db.inputs|
    ensures Registered(db, env, p)
            == db.(sources := db.sources + [SourceRow(env, p)],
                   inputs := db.inputs + [Input(|db.sources|, ClassOf(env, p), 0, None)],
                   binaries := db.binaries + [BinaryRow(env, |db.sources|, |db.inputs|, p.artifacts[0])])
  {
    hide KeysUnique, FindSource, FindInput;
    var row := BinaryRow(env, |db.sources|, |db.inputs|, p.artifacts[0]);
    assert p.artifacts[..0] == [];
    assert FindBinary(db.binaries, row) == |db.binaries|;
    assert ListBinaries(db.binaries, env, |db.sources|, |db.inputs|, p.artifacts) == db.binaries + [row];
  }

  lemma NewPackageIsQueued(db: Db, registered: Db, env: Env, p: PackageReport)
    requires Valid(db) && env.cfg == CONFIG && registered == db.(sources := registered.sources,
                                                                 inputs := registered.inputs,
                                                                 binaries := registered.binaries)
    requires registered.inputs == db.inputs + [Input(|db.sources|, ClassOf(env, p), 0, None)]
    ensures Enqueued(registered, env, |db.inputs|, BuildStatus.Unknown)
            == if IsQueuedClass(db, ClassOf(env, p)) then registered
               else registered.(queue := db.queue[db.nextJob := Job(|db.inputs|, PRIORITY_DEFAULT, env.now,
                                                                    None, None, None)],
                                nextJob := db.nextJob + 1)
  {
    hide KeysUnique, MaxRetries;
    assert forall q :: q in db.queue ==>
        (QueuedIn(registered, q, ClassOf(env, p)) <==> QueuedIn(db, q, ClassOf(env, p)));
    assert forall q :: q in db.queue ==> db.queue[q].input != |db.inputs|;
  }

  lemma NothingUnseen(db: Db, report: ScopeReport)
    requires forall s :: 0 <= s < |db.sources| ==> db.sources[s].seen
    ensures DropUnseen(db, report) == db
  {
  }

  lemma EmptyStart(report: ScopeReport)
    ensures Valid(EMPTY_DB) && MarkUnseen(EMPTY_DB, report) == EMPTY_DB
  {
  }

  lemma OneMoreChoice(db: Db, env: Env, choices: seq<Choice>, c: Choice)
    requires |choices| < |env.report.packages| && LegalChoices(db, env, choices)
    requires LegalChoice(ImportAll(db, env, choices), env, env.report.packages[|choices|], c)
    ensures LegalChoices(db, env, choices + [c])
    ensures ImportAll(db, env, choices + [c])
            == ImportOne(ImportAll(db, env, choices), env, env.report.packages[|choices|], c)
  {
    hide ImportOne, LegalChoice;
    assert (choices + [c])[..|choices + [c]| - 1] == choices;
  }

  /** The first report, with one package. */
  lemma FirstPackage(env: Env, p: PackageReport)
    requires env.cfg == CONFIG && env.report.packages == [p] && |p.artifacts| == 1
    ensures LegalImport(EMPTY_DB, env, [NOTHING])
    ensures Imported(EMPTY_DB, env, [NOTHING]) == WithPackage(EMPTY_DB, env, p)
  {
    hide ImportOne, LegalChoice, MarkUnseen, WithPackage, LegalChoices, ImportAll, Valid, KnownSource, HasResults,
      DropUnseen;
    EmptyStart(env.report);
    NothingKnown(env, p);
    NewPackage(EMPTY_DB, env, p);
    NothingChosen(EMPTY_DB, env);
    OneMoreChoice(EMPTY_DB, env, [], NOTHING);
    assert [] + [NOTHING] == [NOTHING];
    FirstIsSeen(env, p);
    NothingUnseen(WithPackage(EMPTY_DB, env, p), env.report);
  }

  lemma NothingChosen(db: Db, env: Env)
    ensures LegalChoices(db, env, []) && ImportAll(db, env, []) == db
  {
  }

  lemma FirstIsSeen(env: Env, p: PackageReport)
    requires |p.artifacts| == 1
    ensures WithPackage(EMPTY_DB, env, p).sources == [SourceRow(env, p)]
    ensures WithPackage(EMPTY_DB, env, p).rebuilds == []
  {
  }

  lemma NextIsSeen(db: Db, env: Env, p: PackageReport)
    requires |p.artifacts| == 1
    ensures WithPackage(db, env, p).sources == db.sources + [SourceRow(env, p)]
  {
  }

  lemma NothingKnown(env: Env, p: PackageReport)
    ensures !KnownSource(EMPTY_DB, IdentityOf(env, p)) && !HasResults(EMPTY_DB, ClassOf(env, p))
  {
  }

  lemma IsStillNew(db: Db, env: Env, p: PackageReport, q: PackageReport)
    requires db.sources == [SourceRow(env, p)] && db.rebuilds == [] && p.name != q.name
    ensures !KnownSource(db, IdentityOf(env, q)) && !HasResults(db, ClassOf(env, q))
  {
    assert db.sources[0].identity.name == p.name;
  }

  /** The first report, with two packages. */
  lemma FirstTwoPackages(env: Env, p: PackageReport, q: PackageReport)
    requires env.cfg == CONFIG && env.report.packages == [p, q] && |p.artifacts| == |q.artifacts| == 1
    requires p.name != q.name
    ensures LegalImport(EMPTY_DB, env, [NOTHING, NOTHING])
    ensures Imported(EMPTY_DB, env, [NOTHING, NOTHING]) == WithPackage(WithPackage(EMPTY_DB, env, p), env, q)
  {
    hide ImportOne, LegalChoice, MarkUnseen, WithPackage, LegalChoices, ImportAll, AddsJob, Valid, KnownSource,
      HasResults, InputsGrow, HasMember, DropUnseen;
    var one := WithPackage(EMPTY_DB, env, p);
    EmptyStart(env.report);
    NothingKnown(env, p);
    NewPackage(EMPTY_DB, env, p);
    ImportOneEffect(EMPTY_DB, env, p, NOTHING);
    NothingChosen(EMPTY_DB, env);
    OneMoreChoice(EMPTY_DB, env, [], NOTHING);
    assert [] + [NOTHING] == [NOTHING];
    FirstIsSeen(env, p);
    IsStillNew(one, env, p, q);
    NewPackage(one, env, q);
    OneMoreChoice(EMPTY_DB, env, [NOTHING], NOTHING);
    assert [NOTHING] + [NOTHING] == [NOTHING, NOTHING];
    NextIsSeen(one, env, q);
    NothingUnseen(WithPackage(one, env, q), env.report);
  }

  /** A first event. */
  lemma FirstEvent(e: Event)
    requires Legal(EMPTY_DB, CONFIG, e)
    ensures IsRun(CONFIG, [e]) && Run(CONFIG, [e]) == Apply(EMPTY_DB, CONFIG, e)
  {
    hide Legal, Apply;
    RunContinues(CONFIG, [], e);
    assert [] + [e] == [e];
  }

  // ----- a new version under the old URL -----

  const OLD := Package("a", "1", "u")
  const NEW := Package("a", "2", "u")

  function EnvFor(packages: seq<PackageReport>, now: Time): Env {
    Env(CONFIG, Listing(packages), now)
  }

  /** After the import of version 1. */
  const WITH_OLD := WithPackage(EMPTY_DB, EnvFor([OLD], 0), OLD)

  /** The reported package is not GOOD and retries are not limited, but after the import its class has no job. */
  lemma CoverageGapExample() returns (es: seq<Event>, cls: Class)
    ensures IsRun(CONFIG, es) && |es| == 2 && es[1].Import?
    ensures |es[1].packages.packages| == |es[1].choices| == 1 && es[1].choices[0].status != BuildStatus.Good
    ensures cls == ClassOf(Env(CONFIG, es[1].packages, es[1].now), es[1].packages.packages[0])
    ensures !HasQueuedFriend(Run(CONFIG, es), cls)
  {
    hide Run, IsRun, LegalImport, Imported, WithPackage, OnlyDoomedJobs;
    var first, second := Import(Listing([OLD]), [NOTHING], 0), Import(Listing([NEW]), [NOTHING], 1);
    FirstPackage(EnvFor([OLD], 0), OLD);
    FirstEvent(first);
    RunIsValid(CONFIG, [first]);
    assert Run(CONFIG, [first]) == WITH_OLD;
    NewVersionIsLegal();
    RunContinues(CONFIG, [first], second);
    es, cls := [first, second], ClassAt("u");
    assert [first] + [second] == es;
    OldVersionIsDoomed();
    QueueCoverageInRuns(CONFIG, [first], Listing([NEW]), [NOTHING], 1, 0, cls);
  }

  lemma NewVersionIsLegal()
    requires Valid(WITH_OLD)
    ensures LegalImport(WITH_OLD, EnvFor([NEW], 1), [NOTHING])
  {
    hide LegalChoice, ImportOne, Valid, IsQueuedClass;
    var env := EnvFor([NEW], 1);
    var marked := MarkUnseen(WITH_OLD, env.report);
    MarkUnseenIsValid(WITH_OLD, env.report);
    assert marked.rebuilds == [] && |marked.sources| == 1;
    assert marked.sources[0].identity.version == "1";
    NewPackage(marked, env, NEW);
    NothingChosen(marked, env);
    OneMoreChoice(marked, env, [], NOTHING);
    assert [] + [NOTHING] == [NOTHING];
  }

  lemma OldVersionIsDoomed()
    ensures OnlyDoomedJobs(WITH_OLD, EnvFor([NEW], 1), ClassAt("u"))
  {
    var db := WITH_OLD;
    assert db.queue == map[0 := Job(0, PRIORITY_DEFAULT, 0, None, None, None)];
    assert QueuedIn(db, 0, ClassAt("u"));
    assert db.sources[0].identity.version == "1" && NEW.version == "2";
  }

  // ----- several queued friends -----

  const FIRST := Package("a", "1", "u")
  const FRIEND := Package("b", "1", "u")

  /** Two friends, of which one is queued. */
  const FRIENDS := WithPackage(WithPackage(EMPTY_DB, EnvFor([FIRST, FRIEND], 0), FIRST),
                               EnvFor([FIRST, FRIEND], 0), FRIEND)

  function RequestFor(name: Option<string>, reset: bool): RebuildRequest {
    RebuildRequest(OriginFilter(None, None, None, None), IdentityFilter(name, Exact, None), None, None, reset)
  }

  lemma FriendsTables()
    ensures var env := EnvFor([FIRST, FRIEND], 0);
            FRIENDS.sources == [SourceRow(env, FIRST), SourceRow(env, FRIEND)]
    ensures FRIENDS.inputs == [Input(0, ClassAt("u"), 0, None), Input(1, ClassAt("u"), 0, None)]
    ensures |FRIENDS.binaries| == 2 && FRIENDS.binaries[0].source == 0 && FRIENDS.binaries[1].source == 1
    ensures FRIENDS.queue == map[0 := Job(0, PRIORITY_DEFAULT, 0, None, None, None)] && FRIENDS.nextJob == 1
    ensures FRIENDS == FRIENDS.(rebuilds := [], artifacts := [], buildLogs := [], diffoscopeLogs := [],
                                attestationLogs := [])
  {
    var env := EnvFor([FIRST, FRIEND], 0);
    var one := WithPackage(EMPTY_DB, env, FIRST);
    assert one.queue == map[0 := Job(0, PRIORITY_DEFAULT, 0, None, None, None)];
    assert QueuedIn(one, 0, ClassAt("u"));
  }

  lemma FriendsImported() returns (e: Event)
    ensures e == Import(Listing([FIRST, FRIEND]), [NOTHING, NOTHING], 0)
    ensures IsRun(CONFIG, [e]) && Run(CONFIG, [e]) == FRIENDS && Valid(FRIENDS)
  {
    hide Run, IsRun, LegalImport, Imported, WithPackage, Valid;
    e := Import(Listing([FIRST, FRIEND]), [NOTHING, NOTHING], 0);
    FirstTwoPackages(EnvFor([FIRST, FRIEND], 0), FIRST, FRIEND);
    FirstEvent(e);
    RunIsValid(CONFIG, [e]);
  }

  /** One manual requeue queues both members of a class. */
  lemma FriendsQueuedExample() returns (es: seq<Event>)
    ensures IsRun(CONFIG, es) && |es| == 2 && es[1].RequestRebuild?
    ensures QueueUnique(Run(CONFIG, es[..1])) && !QueueUnique(Run(CONFIG, es))
  {
    hide Run, IsRun, Valid, RequeueAll;
    var first := FriendsImported();
    var second := RequestRebuild(RequestFor(None, false), [0, 1], 1);
    es := [first, second];
    assert [first] + [second] == es && es[..1] == [first];
    AllFriendsSelected();
    RunContinues(CONFIG, [first], second);
    FriendsTables();
    RequeueKeepsUniqueIff(FRIENDS, CONFIG, RequestFor(None, false), [0, 1], 1);
    assert 0 in [0, 1] && 1 in [0, 1] && 0 in Elements([0, 1]) && 1 in Elements([0, 1]);
    assert forall i: nat :: i in QueuedInputs(FRIENDS) ==> i == 0;
  }

  lemma AllFriendsSelected()
    ensures Enumerates([0, 1], SelectedIds(FRIENDS, RequestFor(None, false)))
  {
    hide WithPackage;
    FriendsTables();
    var req := RequestFor(None, false);
    assert Selected(FRIENDS, req, 0) && Selected(FRIENDS, req, 1);
  }

  // ----- reports -----

  function Verdict(status: BuildStatus, builtAt: Time): Report {
    Report(builtAt, [], status, [])
  }

  /** A report without artifacts adds one rebuild per friend. */
  lemma VerdictStored(db: Db, job: Job, status: BuildStatus, builtAt: Time, order: seq<nat>)
    requires db.artifacts == []
    ensures var rep := Verdict(status, builtAt);
            && Stored(db, job, rep, order).artifacts == []
            && Stored(db, job, rep, order).rebuilds
               == db.rebuilds
                  + seq(|order|, f requires 0 <= f < |order| => RebuildRow(job, order[f], rep, |db.buildLogs|))
            && Stored(db, job, rep, order)
               == db.(rebuilds := Stored(db, job, rep, order).rebuilds,
                      artifacts := Stored(db, job, rep, order).artifacts,
                      buildLogs := Stored(db, job, rep, order).buildLogs,
                      diffoscopeLogs := Stored(db, job, rep, order).diffoscopeLogs,
                      attestationLogs := Stored(db, job, rep, order).attestationLogs)
  {
    ReportFansOut(db, job, Verdict(status, builtAt), order);
    assert |Stored(db, job, Verdict(status, builtAt), order).artifacts| == 0;
  }

  // ----- a reset of one friend -----

  lemma NamedFriendSelected(db: Db)
    requires db.inputs == FRIENDS.inputs && db.sources == FRIENDS.sources && db.binaries == FRIENDS.binaries
    ensures Enumerates([0], SelectedIds(db, RequestFor(Some("a"), true)))
    ensures Selected(db, RequestFor(Some("a"), true), 0) && !Selected(db, RequestFor(Some("a"), true), 1)
  {
    hide WithPackage;
    FriendsTables();
  }

  /** Resetting one of two friends with a common result gives them different histories. */
  lemma ResetExample() returns (es: seq<Event>)
    ensures IsRun(CONFIG, es) && |es| == 3 && es[2].RequestRebuild?
    ensures EqualHistories(Run(CONFIG, es[..2])) && !EqualHistories(Run(CONFIG, es))
  {
    hide Run, IsRun, Valid, RequeueAll, EqualHistories, KeepsHistories, ResetsFriendsAlike, Reported;
    var first := FriendsImported();
    var second := SubmitReport(0, Verdict(BuildStatus.Good, 1), [0, 1], 1);
    var third := RequestRebuild(RequestFor(Some("a"), true), [0], 2);
    FriendsTables();
    assert Enumerates([0, 1], FriendIds(FRIENDS.inputs, ClassAt("u")));
    RunContinues(CONFIG, [first], second);
    assert [first] + [second] == [first, second];
    var db := Run(CONFIG, [first, second]);
    RunIsValid(CONFIG, [first, second]);
    SharedAfterTwo(first, second);
    OneVerdictEach(db);
    NamedFriendSelected(db);
    RunContinues(CONFIG, [first, second], third);
    es := [first, second, third];
    assert [first, second] + [third] == es && es[..2] == [first, second];
    StepKeepsHistoriesIff(db, CONFIG, third);
    ResetsOnlyOne(db);
    assert !KeepsHistories(db, CONFIG, third) by { ResetIsNotAlike(db, third); }
  }

  lemma ResetIsNotAlike(db: Db, e: Event)
    requires e.RequestRebuild? && !ResetsFriendsAlike(db, e.rebuild)
    ensures !KeepsHistories(db, CONFIG, e)
  {
  }

  lemma OneVerdictEach(db: Db)
    requires db == Reported(FRIENDS, CONFIG, 0, Verdict(BuildStatus.Good, 1), 1, [0, 1])
    ensures db.inputs == FRIENDS.inputs && db.sources == FRIENDS.sources && db.binaries == FRIENDS.binaries
    ensures db.artifacts == [] && |db.rebuilds| == 2
    ensures db.rebuilds[0].input == 0 && db.rebuilds[1].input == 1
    ensures db.rebuilds[0].status == Some(BuildStatus.Good)
  {
    hide Stored, WithPackage;
    FriendsTables();
    VerdictStored(FRIENDS, FRIENDS.queue[0], BuildStatus.Good, 1, [0, 1]);
  }

  lemma ResetsOnlyOne(db: Db)
    requires db.inputs == FRIENDS.inputs && db.sources == FRIENDS.sources && db.binaries == FRIENDS.binaries
    requires db.artifacts == [] && |db.rebuilds| == 2
    requires db.rebuilds[0].input == 0 && db.rebuilds[1].input == 1
    requires db.rebuilds[0].status == Some(BuildStatus.Good)
    ensures !ResetsFriendsAlike(db, RequestFor(Some("a"), true))
  {
    hide WithPackage, Selected;
    FriendsTables();
    NamedFriendSelected(db);
    var req := RequestFor(Some("a"), true);
    assert LastRebuild(db.rebuilds, 0) == 0;
    assert LastEntry(db, 0).value.status == Some(BuildStatus.Good);
    assert ResetEntry(db, req, 0) != ResetEntry(db, req, 1);
  }

  /** Before any result there is nothing that friends could fail to share. */
  lemma SharedAfterTwo(first: Event, second: Event)
    requires IsRun(CONFIG, [first, second]) && first.Import? && second.SubmitReport?
    ensures EqualHistories(Run(CONFIG, [first, second]))
  {
    hide Apply, Legal;
    var es := [first, second];
    forall n | 0 <= n < |es| ensures KeepsHistories(Run(CONFIG, es[..n]), CONFIG, es[n]) {
      assert n == 0 ==> Run(CONFIG, es[..n]) == EMPTY_DB;
    }
    FriendsShareHistory(CONFIG, es);
  }

  // ----- a known package that moves to a URL with results -----

  const BUILT := Package("b", "1", "u2")
  const MOVING := Package("a", "1", "u1")
  const MOVED := Package("a", "1", "u2")

  const APART := WithPackage(WithPackage(EMPTY_DB, EnvFor([BUILT, MOVING], 0), BUILT),
                             EnvFor([BUILT, MOVING], 0), MOVING)

  lemma ApartTables()
    ensures var env := EnvFor([BUILT, MOVING], 0);
            APART.sources == [SourceRow(env, BUILT), SourceRow(env, MOVING)]
    ensures APART.inputs == [Input(0, ClassAt("u2"), 0, None), Input(1, ClassAt("u1"), 0, None)]
    ensures 0 in APART.queue && APART.queue[0] == Job(0, PRIORITY_DEFAULT, 0, None, None, None)
    ensures APART.rebuilds == [] && APART.artifacts == []
  {
    var one := WithPackage(EMPTY_DB, EnvFor([BUILT, MOVING], 0), BUILT);
    assert one.queue == map[0 := Job(0, PRIORITY_DEFAULT, 0, None, None, None)];
    assert !IsQueuedClass(one, ClassAt("u1"));
  }

  /** The moved package becomes a friend of a package with results, but starts without them. */
  lemma LateJoinExample() returns (es: seq<Event>)
    ensures IsRun(CONFIG, es) && |es| == 3 && es[2].Import?
    ensures EqualHistories(Run(CONFIG, es[..2])) && !EqualHistories(Run(CONFIG, es))
    ensures var inputs := Run(CONFIG, es).inputs;
            |inputs| == 3 && inputs[0].source == 0 && inputs[1].source == inputs[2].source == 1
  {
    hide Run, IsRun, Valid, EqualHistories, KeepsHistories, Reported, Imported, LegalImport, WithPackage;
    var first := Import(Listing([BUILT, MOVING]), [NOTHING, NOTHING], 0);
    var second := SubmitReport(0, Verdict(BuildStatus.Good, 1), [0], 1);
    var third := Import(Listing([MOVED]), [NOTHING], 2);
    FirstTwoPackages(EnvFor([BUILT, MOVING], 0), BUILT, MOVING);
    FirstEvent(first);
    RunIsValid(CONFIG, [first]);
    ApartTables();
    assert Enumerates([0], FriendIds(APART.inputs, ClassAt("u2")));
    RunContinues(CONFIG, [first], second);
    assert [first] + [second] == [first, second];
    var db := Run(CONFIG, [first, second]);
    RunIsValid(CONFIG, [first, second]);
    SharedAfterTwo(first, second);
    BuiltOnce(db);
    MovedIsLegal(db);
    MovedInputs(db);
    RunContinues(CONFIG, [first, second], third);
    es := [first, second, third];
    assert [first, second] + [third] == es && es[..2] == [first, second];
    StepKeepsHistoriesIff(db, CONFIG, third);
    MovedJoinsLate(db);
    assert !KeepsHistories(db, CONFIG, third) by { LateIsNotKept(db, third); }
  }

  lemma LateIsNotKept(db: Db, e: Event)
    requires e.Import? && ReportJoinsLate(db, Env(CONFIG, e.packages, e.now))
    ensures !KeepsHistories(db, CONFIG, e)
  {
  }

  lemma BuiltOnce(db: Db)
    requires db == Reported(APART, CONFIG, 0, Verdict(BuildStatus.Good, 1), 1, [0])
    ensures db.inputs == APART.inputs && db.sources == APART.sources
    ensures |db.rebuilds| == 1 && db.rebuilds[0].input == 0
  {
    hide Stored, WithPackage;
    ApartTables();
    VerdictStored(APART, APART.queue[0], BuildStatus.Good, 1, [0]);
  }

  lemma MovedIsLegal(db: Db)
    requires Valid(db) && db.inputs == APART.inputs && db.sources == APART.sources
    requires |db.rebuilds| == 1 && db.rebuilds[0].input == 0
    ensures LegalImport(db, EnvFor([MOVED], 2), [NOTHING])
  {
    hide WithPackage, LegalChoice, Valid;
    var env := EnvFor([MOVED], 2);
    var marked := MarkUnseen(db, env.report);
    MarkUnseenIsValid(db, env.report);
    ApartTables();
    assert marked.sources[1].identity == IdentityOf(env, MOVED);
    assert marked.inputs[0].cls != marked.inputs[1].cls;
    KnownBefore(marked, env, MOVED);
    assert KnownSource(marked, IdentityOf(env, MOVED));
    assert InputOf(marked, env, MOVED) == |db.inputs| by { MovedIsUnknown(marked); }
    NothingToCopy(marked, env, MOVED);
    NothingChosen(marked, env);
    OneMoreChoice(marked, env, [], NOTHING);
    assert [] + [NOTHING] == [NOTHING];
  }

  lemma MovedIsUnknown(db: Db)
    requires Valid(db) && db.inputs == APART.inputs && |db.sources| == 2
    requires db.sources[0].identity == APART.sources[0].identity && db.sources[1].identity == APART.sources[1].identity
    ensures !KnownInput(db, IdentityOf(EnvFor([MOVED], 2), MOVED), ClassAt("u2"))
    ensures InputOf(db, EnvFor([MOVED], 2), MOVED) == |db.inputs|
  {
    hide WithPackage, Valid;
    ApartTables();
    assert MOVED.name != BUILT.name && MOVED.url != MOVING.url;
    KnownBefore(db, EnvFor([MOVED], 2), MOVED);
  }

  lemma MovedJoinsLate(db: Db)
    requires Valid(db) && db.inputs == APART.inputs && db.sources == APART.sources
    requires |db.rebuilds| == 1 && db.rebuilds[0].input == 0
    ensures ReportJoinsLate(db, EnvFor([MOVED], 2))
  {
    hide WithPackage, Valid;
    var env := EnvFor([MOVED], 2);
    ApartTables();
    MovedIsUnknown(db);
    assert db.sources[1].identity == IdentityOf(env, MOVED);
    assert InClass(db.inputs, db.rebuilds[0].input, ClassAt("u2"));
    assert PackageJoinsLate(db, env, 0);
  }

  // ----- a listing that repeats a source package -----

  lemma MovedInputs(db: Db)
    requires Valid(db) && db.inputs == APART.inputs && db.sources == APART.sources
    ensures var out := Imported(db, EnvFor([MOVED], 2), [NOTHING]);
            |out.inputs| == 3 && out.inputs[0].source == 0 && out.inputs[1].source == out.inputs[2].source == 1
  {
    hide WithPackage, Valid, ImportOne, LegalChoice, DropUnseen;
    var env := EnvFor([MOVED], 2);
    var marked := MarkUnseen(db, env.report);
    MarkUnseenIsValid(db, env.report);
    ApartTables();
    assert marked.sources[1].identity == IdentityOf(env, MOVED) && marked.sources[0].identity.name == "b";
    MovedIsUnknown(marked);
    KnownBefore(marked, env, MOVED);
    ImportOneOrigins(marked, env, MOVED, NOTHING);
    ImportOneInputs(marked, env, MOVED, NOTHING);
    OnlyImport(marked, env);
  }

  lemma OnlyImport(db: Db, env: Env)
    requires |env.report.packages| == 1
    ensures ImportAll(db, env, [NOTHING]) == ImportOne(db, env, env.report.packages[0], NOTHING)
    ensures DropUnseen(ImportAll(db, env, [NOTHING]), env.report).inputs == ImportAll(db, env, [NOTHING]).inputs
  {
    hide ImportOne;
    assert [NOTHING][..0] == [];
  }

  /** A package with two build inputs is listed twice, and a walk by id with one row a page sees it once. */
  lemma SplitListingExample() returns (es: seq<Event>, page: Page)
    ensures IsRun(CONFIG, es) && LimitOf(page) == 1
    ensures var db := Run(CONFIG, es);
            var t := Table(map[], SourceListing(db, |db.inputs|));
            Listed(t, page) == [0, 1, 1] && Walked(t, page, false) == Walked(t, page, true) == [0, 1]
  {
    hide Run, IsRun, SourceListing;
    es := LateJoinExample();
    page := Page(Some(1), None, None, false, None);
    var db := Run(CONFIG, es);
    OneRowPerInput(CONFIG, es, 3);
    var t := Table(map[], SourceListing(db, |db.inputs|));
    assert t.rows == [0, 1, 1];
    ListingOfThree(t, page);
  }

  lemma OneRowPage(t: Table, page: Page, list: seq<nat>)
    requires LimitOf(page) == 1 && Listed(t, page) == list && list != []
    ensures Listed(t, NextPage(page, list[0])) == Filter(t, NextPage(page, list[0]), list[1..])
    ensures Walked(t, page, false) == [list[0]] + Walked(t, NextPage(page, list[0]), false)
  {
    hide Listed, Filter;
    assert PageOf(t, page) == [list[0]] && AfterPage(t, page) == list[1..];
    NextListed(t, page);
  }

  lemma ListingOfThree(t: Table, page: Page)
    requires t == Table(map[], [0, 1, 1]) && page == Page(Some(1), None, None, false, None)
    ensures Listed(t, page) == [0, 1, 1] && Walked(t, page, false) == Walked(t, page, true) == [0, 1]
  {
    hide InOrder, Listed, Insert, Walked, Filter, ValueOf;
    var second := NextPage(page, 0);
    var third := NextPage(second, 1);
    UnchangedList(t, page);
    OneRowPage(t, page, [0, 1, 1]);
    assert [0, 1, 1][1..] == [1, 1];
    FilterExtremes(t, second, [1, 1]);
    OneRowPage(t, second, [1, 1]);
    assert [1, 1][1..] == [1];
    FilterExtremes(t, third, [1]);
    NothingLeft(t, third);
    StoppingRulesAgree(t, page);
  }

  lemma NothingLeft(t: Table, page: Page)
    requires LimitOf(page) == 1 && Listed(t, page) == []
    ensures Walked(t, page, false) == []
  {
    hide Listed;
  }

  lemma ThreeInOrder(t: Table, page: Page)
    requires page == Page(Some(1), None, None, false, None)
    ensures IsOrdered(t, page, [0, 1, 1])
  {
    assert Comes(t, page, 0, 1);
  }

  lemma UnchangedList(t: Table, page: Page)
    requires t == Table(map[], [0, 1, 1]) && page == Page(Some(1), None, None, false, None)
    ensures Listed(t, page) == [0, 1, 1]
  {
    hide InOrder, Filter, Comes;
    FilterExtremes(t, page, t.rows);
    assert Passing(t, page) == [0, 1, 1];
    InOrderIsOrdered(t, page, [0, 1, 1]);
    ThreeInOrder(t, page);
    ListedIsUnique(t, page, Listed(t, page), [0, 1, 1]);
  }

  // ----- two rebuilds that are both the latest -----

  /** The dashboard shows BAD while manual requeues select the package as GOOD. */
  lemma LatestExample() returns (es: seq<Event>, input: nat)
    ensures IsRun(CONFIG, es) && input < |Run(CONFIG, es).inputs|
    ensures HasStatus(Run(CONFIG, es).rebuilds, input, BuildStatus.Good)
    ensures forall row :: row in LatestRows(Run(CONFIG, es).rebuilds, input) ==>
              StatusOf(Run(CONFIG, es), JoinRow(input, row)) == Some(BuildStatus.Bad)
  {
    hide Run, IsRun, Valid, Reported, Imported, LegalImport, WithPackage, HasStatus, LatestRows, StatusOf;
    var first := Import(Listing([OLD]), [NOTHING], 0);
    var second := SubmitReport(0, Verdict(BuildStatus.Bad, 10), [0], 20);
    var third := SubmitReport(1, Verdict(BuildStatus.Good, 5), [0], 30);
    FirstPackage(EnvFor([OLD], 0), OLD);
    FirstEvent(first);
    RunIsValid(CONFIG, [first]);
    OldTables();
    assert Enumerates([0], FriendIds(WITH_OLD.inputs, ClassAt("u")));
    RunContinues(CONFIG, [first], second);
    assert [first] + [second] == [first, second];
    var db := Run(CONFIG, [first, second]);
    AfterBad(db);
    assert Enumerates([0], FriendIds(db.inputs, ClassAt("u")));
    RunContinues(CONFIG, [first, second], third);
    es, input := [first, second, third], 0;
    assert [first, second] + [third] == es;
    AfterGood(db, Run(CONFIG, es));
    BadBeatsGood(Run(CONFIG, es));
  }

  lemma OldTables()
    ensures WITH_OLD.inputs == [Input(0, ClassAt("u"), 0, None)]
    ensures WITH_OLD.queue == map[0 := Job(0, PRIORITY_DEFAULT, 0, None, None, None)] && WITH_OLD.nextJob == 1
    ensures WITH_OLD.rebuilds == [] && WITH_OLD.artifacts == []
  {
  }

  lemma AfterBad(db: Db)
    requires Valid(WITH_OLD) && db == Reported(WITH_OLD, CONFIG, 0, Verdict(BuildStatus.Bad, 10), 20, [0])
    ensures |db.inputs| == 1 && db.inputs[0].cls == ClassAt("u")
    ensures 1 in db.queue && db.queue[1].input == 0
    ensures db.artifacts == [] && |db.rebuilds| == 1
    ensures db.rebuilds[0].input == 0 && db.rebuilds[0].builtAt == Some(10)
    ensures db.rebuilds[0].status == Some(BuildStatus.Bad)
  {
    hide Stored, WithPackage, Rescheduled, MaxRetries;
    OldTables();
    VerdictStored(WITH_OLD, WITH_OLD.queue[0], BuildStatus.Bad, 10, [0]);
    var stored := Stored(WITH_OLD, WITH_OLD.queue[0], Verdict(BuildStatus.Bad, 10), [0]);
    StoredIsValid(WITH_OLD, WITH_OLD.queue[0], Verdict(BuildStatus.Bad, 10), [0]);
    FailedAttemptEffect(stored, CONFIG, 0, BuildStatus.Bad, 20);
    ReschedulingKeepsRebuilds(stored, BuildStatus.Bad, 0, 20);
  }

  lemma ReschedulingKeepsRebuilds(db: Db, status: BuildStatus, q: nat, now: Time)
    requires q in db.queue && db.queue[q].input < |db.inputs|
    ensures Rescheduled(db, CONFIG, q, status, now).rebuilds == db.rebuilds
    ensures Rescheduled(db, CONFIG, q, status, now).artifacts == db.artifacts
    ensures |Rescheduled(db, CONFIG, q, status, now).inputs| == |db.inputs|
  {
    hide MaxRetries;
  }

  lemma AfterGood(db: Db, out: Db)
    requires 1 in db.queue && db.queue[1].input == 0 && |db.inputs| == 1
    requires db.artifacts == [] && |db.rebuilds| == 1
    requires out == Reported(db, CONFIG, 1, Verdict(BuildStatus.Good, 5), 30, [0])
    ensures |out.rebuilds| == 2 && out.rebuilds[0] == db.rebuilds[0] && |out.inputs| == 1
    ensures out.rebuilds[1].input == 0 && out.rebuilds[1].builtAt == Some(5)
    ensures out.rebuilds[1].status == Some(BuildStatus.Good)
  {
    hide Stored, Rescheduled;
    VerdictStored(db, db.queue[1], BuildStatus.Good, 5, [0]);
    ReschedulingKeepsRebuilds(Stored(db, db.queue[1], Verdict(BuildStatus.Good, 5), [0]), BuildStatus.Good, 1, 30);
  }

  lemma BadBeatsGood(db: Db)
    requires |db.rebuilds| == 2 && db.rebuilds[0].input == db.rebuilds[1].input == 0
    requires db.rebuilds[0].builtAt == Some(10) && db.rebuilds[0].status == Some(BuildStatus.Bad)
    requires db.rebuilds[1].builtAt == Some(5) && db.rebuilds[1].status == Some(BuildStatus.Good)
    ensures HasStatus(db.rebuilds, 0, BuildStatus.Good)
    ensures LatestRows(db.rebuilds, 0) == {Some(0)}
    ensures StatusOf(db, JoinRow(0, Some(0))) == Some(BuildStatus.Bad)
  {
    assert 0 in RebuildIds(db.rebuilds, 0) && 1 in RebuildIds(db.rebuilds, 0);
    var latest := LatestRowIsLatest(db.rebuilds, 0);
    assert Beaten(db.rebuilds, 1, 0);
  }
}
