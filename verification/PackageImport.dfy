/** What importing one package report does to the tables. */
module PackageImport {
  import opened Options
  import opened Collections
  import opened Rows
  import opened Friends

  datatype BinaryReport = BinaryReport(name: string, version: string, url: string)

  datatype PackageReport = PackageReport(
    name: string,
    version: string,
    url: string,
    artifacts: seq<BinaryReport>,
    gitHash: Option<string>,
    buildTime: Option<Time>,
    gitTime: Option<Time>)

  /** All packages of one distribution, release, component and architecture. */
  datatype ScopeReport = ScopeReport(scope: Scope, architecture: string, packages: seq<PackageReport>)

  /** What an import knows besides the tables. */
  datatype Env = Env(cfg: Config, report: ScopeReport, now: Time)

  /**
   What the database leaves open while one package is imported: the row order of the rebuilds
   that are copied, and the status read when several rebuilds share the latest build time.
   */
  datatype Choice = Choice(copyOrder: seq<nat>, status: BuildStatus)

  function IdentityOf(env: Env, p: PackageReport): Identity {
    Identity(p.name, p.version, env.report.scope)
  }

  function ClassOf(env: Env, p: PackageReport): Class {
    Class(p.url, env.report.scope.distribution, env.report.architecture)
  }

  /** Index of the source with this identity, or the number of sources. */
  function FindSource(sources: seq<Source>, identity: Identity): (i: nat)
    ensures i <= |sources|
    ensures i < |sources| ==> sources[i].identity == identity
    ensures i == |sources| ==> forall j :: 0 <= j < |sources| ==> sources[j].identity != identity
  {
    if |sources| == 0 then 0
    else if sources[|sources| - 1].identity == identity then |sources| - 1
    else
      var i := FindSource(sources[..|sources| - 1], identity);
      if i < |sources| - 1 then i else |sources|
  }

  /** Index of the build input with this key, or the number of inputs. */
  function FindInput(inputs: seq<Input>, source: nat, cls: Class): (i: nat)
    ensures i <= |inputs|
    ensures i < |inputs| ==> inputs[i].source == source && inputs[i].cls == cls
    ensures i == |inputs| ==>
              forall j :: 0 <= j < |inputs| ==> inputs[j].source != source || inputs[j].cls != cls
  {
    if |inputs| == 0 then 0
    else if inputs[|inputs| - 1].source == source && inputs[|inputs| - 1].cls == cls then |inputs| - 1
    else
      var i := FindInput(inputs[..|inputs| - 1], source, cls);
      if i < |inputs| - 1 then i else |inputs|
  }

  /** Index of the binary with the key of `b`, or the number of binaries. */
  function FindBinary(binaries: seq<Binary>, b: Binary): (i: nat)
    ensures i <= |binaries|
    ensures i < |binaries| ==> binaries[i].SameKey(b)
    ensures i == |binaries| ==> forall j :: 0 <= j < |binaries| ==> !binaries[j].SameKey(b)
  {
    if |binaries| == 0 then 0
    else if binaries[|binaries| - 1].SameKey(b) then |binaries| - 1
    else
      var i := FindBinary(binaries[..|binaries| - 1], b);
      if i < |binaries| - 1 then i else |binaries|
  }

  /** In-place update at `i`, or insertion when `i` is past the end. */
  function Put<T>(rows: seq<T>, i: nat, row: T): (out: seq<T>)
    requires i <= |rows|
    ensures |out| == if i < |rows| then |rows| else |rows| + 1
    ensures out[i] == row && forall j :: 0 <= j < |rows| && j != i ==> out[j] == rows[j]
  {
    if i < |rows| then rows[i := row] else rows + [row]
  }

  // ----- marking everything in scope unseen -----

  /** A build input whose package may be listed by the report. */
  predicate InputInScope(db: Db, report: ScopeReport, i: nat) {
    && i < |db.inputs|
    && db.inputs[i].source < |db.sources|
    && db.sources[db.inputs[i].source].identity.scope == report.scope
    && db.inputs[i].cls.architecture == report.architecture
  }

  predicate SourceInScope(db: Db, report: ScopeReport, s: nat) {
    exists i | 0 <= i < |db.inputs| :: InputInScope(db, report, i) && db.inputs[i].source == s
  }

  function MarkUnseen(db: Db, report: ScopeReport): (out: Db)
    ensures out == db.(sources := out.sources, binaries := out.binaries)
    ensures |out.sources| == |db.sources| && |out.binaries| == |db.binaries|
  {
    db.(sources := seq(|db.sources|, s requires 0 <= s < |db.sources| =>
                     if SourceInScope(db, report, s) then db.sources[s].(seen := false) else db.sources[s]),
        binaries := seq(|db.binaries|, b requires 0 <= b < |db.binaries| =>
                      if InputInScope(db, report, db.binaries[b].input) then db.binaries[b].(seen := false)
                      else db.binaries[b]))
  }

  // ----- one package -----

  function SourceRow(env: Env, p: PackageReport): Source {
    Source(IdentityOf(env, p), env.now, true, p.gitHash, p.buildTime, p.gitTime)
  }

  function InitialRetry(env: Env): Option<Time> {
    if env.cfg.initialDelay != 0 then Some(env.now + env.cfg.initialDelay) else None
  }

  predicate IsNewPackage(db: Db, env: Env, p: PackageReport) {
    FindSource(db.sources, IdentityOf(env, p)) == |db.sources|
  }

  /** Row ids of the source package and the build input once `p` has been imported. */
  function SourceOf(db: Db, env: Env, p: PackageReport): nat {
    FindSource(db.sources, IdentityOf(env, p))
  }

  function InputOf(db: Db, env: Env, p: PackageReport): nat {
    FindInput(db.inputs, SourceOf(db, env, p), ClassOf(env, p))
  }

  function BinaryRow(env: Env, source: nat, input: nat, a: BinaryReport): Binary {
    Binary(source, input, a.name, a.version, env.report.architecture, a.url, true)
  }

  /** Listing binaries: an existing row gets the new URL and becomes seen. */
  function ListBinaries(binaries: seq<Binary>, env: Env, source: nat, input: nat, arts: seq<BinaryReport>)
    : (out: seq<Binary>)
    ensures |out| >= |binaries|
  {
    if |arts| == 0 then binaries
    else
      var before := ListBinaries(binaries, env, source, input, arts[..|arts| - 1]);
      var row := BinaryRow(env, source, input, arts[|arts| - 1]);
      Put(before, FindBinary(before, row), row)
  }

  /** Upserts of the source package, the build input and the binary packages. */
  function Registered(db: Db, env: Env, p: PackageReport): (out: Db)
    ensures out == db.(sources := out.sources, inputs := out.inputs, binaries := out.binaries)
  {
    var s := SourceOf(db, env, p);
    var i := InputOf(db, env, p);
    db.(sources := Put(db.sources, s, SourceRow(env, p)),
        inputs := if i < |db.inputs| then db.inputs
                  else db.inputs + [Input(s, ClassOf(env, p), 0, InitialRetry(env))],
        binaries := ListBinaries(db.binaries, env, s, i, p.artifacts))
  }

  function RebuildIds(rebuilds: seq<Rebuild>, input: nat): set<nat> {
    set r: nat | 0 <= r < |rebuilds| && rebuilds[r].input == input
  }

  /** The member of the class with the lowest id, other than `self`; the number of inputs if none. */
  function LowestFriend(inputs: seq<Input>, cls: Class, self: nat): (i: nat)
    ensures i <= |inputs|
    ensures i < |inputs| ==> inputs[i].cls == cls && i != self
    ensures forall j :: 0 <= j < i && inputs[j].cls == cls ==> j == self
  {
    if |inputs| == 0 then 0
    else
      var i := LowestFriend(inputs[..|inputs| - 1], cls, self);
      if i < |inputs| - 1 then i
      else if inputs[|inputs| - 1].cls == cls && |inputs| - 1 != self then |inputs| - 1
      else |inputs|
  }

  /** Artifact rows of rebuild `from`, re-addressed to rebuild `to`. */
  function CopiedArtifacts(artifacts: seq<Artifact>, from: nat, to: nat): seq<Artifact> {
    var rows := ArtifactsOf(artifacts, from);
    seq(|rows|, a requires 0 <= a < |rows| => rows[a].(rebuild := to))
  }

  /** Copies the rebuilds listed in `ids`, with their artifact rows, to another build input. */
  function CopyRebuilds(db: Db, ids: seq<nat>, to: nat): (out: Db)
    ensures out == db.(rebuilds := out.rebuilds, artifacts := out.artifacts)
    ensures |out.rebuilds| >= |db.rebuilds| && |out.artifacts| >= |db.artifacts|
    ensures out.rebuilds[..|db.rebuilds|] == db.rebuilds
    ensures out.artifacts[..|db.artifacts|] == db.artifacts
  {
    if |ids| == 0 then db
    else
      var d := CopyRebuilds(db, ids[..|ids| - 1], to);
      var id := ids[|ids| - 1];
      if id >= |db.rebuilds| then d
      else
        d.(rebuilds := d.rebuilds + [db.rebuilds[id].(input := to)],
           artifacts := d.artifacts + CopiedArtifacts(db.artifacts, id, |d.rebuilds|))
  }

  /** A new package takes over the rebuilds of the lowest-id friend of its build input. */
  function Inherited(db: Db, isNew: bool, copyOrder: seq<nat>, input: nat): (out: Db)
    ensures out == db.(rebuilds := out.rebuilds, artifacts := out.artifacts)
    ensures |out.rebuilds| >= |db.rebuilds| && |out.artifacts| >= |db.artifacts|
    ensures out.rebuilds[..|db.rebuilds|] == db.rebuilds
    ensures out.artifacts[..|db.artifacts|] == db.artifacts
  {
    if isNew then CopyRebuilds(db, copyOrder, input) else db
  }

  ghost predicate LegalCopyOrder(db: Db, isNew: bool, copyOrder: seq<nat>, input: nat) {
    && input < |db.inputs|
    && var f := LowestFriend(db.inputs, db.inputs[input].cls, input);
       Enumerates(copyOrder, if isNew && f < |db.inputs| then RebuildIds(db.rebuilds, f) else {})
  }

  /** SQL order on nullable times: NULL is the smallest. */
  predicate NullableLe(a: Option<Time>, b: Option<Time>) {
    a.None? || (b.Some? && a.value <= b.value)
  }

  /** `r` may come first among the rebuilds of `input` ordered by build time, descending. */
  ghost predicate IsLatestBuilt(rebuilds: seq<Rebuild>, input: nat, r: nat) {
    && r in RebuildIds(rebuilds, input)
    && forall o: nat :: o in RebuildIds(rebuilds, input) ==> NullableLe(rebuilds[o].builtAt, rebuilds[r].builtAt)
  }

  ghost predicate IsCurrentStatus(rebuilds: seq<Rebuild>, input: nat, status: BuildStatus) {
    if RebuildIds(rebuilds, input) == {} then status == BuildStatus.Unknown
    else exists r: nat :: IsLatestBuilt(rebuilds, input, r)
                     && status == if rebuilds[r].status.Some? then rebuilds[r].status.value else BuildStatus.Unknown
  }

  /** Enqueues a package that is not GOOD, unless a friend is queued already or retries are used up. */
  function Enqueued(db: Db, env: Env, input: nat, status: BuildStatus): Db {
    if input >= |db.inputs| then db
    else
      var cls := db.inputs[input].cls;
      if status == BuildStatus.Good || (exists q | q in db.queue :: QueuedIn(db, q, cls)) then db
      else if Exhausted(env.cfg, MaxRetries(db.inputs, cls)) then GiveUp(db, cls)
      else UpsertJob(db, input, if status == BuildStatus.Bad then PRIORITY_RETRY else PRIORITY_DEFAULT, env.now)
  }

  function ImportOne(db: Db, env: Env, p: PackageReport, c: Choice): Db {
    var input := InputOf(db, env, p);
    Enqueued(Inherited(Registered(db, env, p), IsNewPackage(db, env, p), c.copyOrder, input),
             env, input, c.status)
  }

  ghost predicate LegalChoice(db: Db, env: Env, p: PackageReport, c: Choice) {
    var input := InputOf(db, env, p);
    var isNew := IsNewPackage(db, env, p);
    var registered := Registered(db, env, p);
    && LegalCopyOrder(registered, isNew, c.copyOrder, input)
    && IsCurrentStatus(Inherited(registered, isNew, c.copyOrder, input).rebuilds, input, c.status)
  }

  // ----- the whole report -----

  /** The first `|choices|` packages of the report. */
  function ImportAll(db: Db, env: Env, choices: seq<Choice>): Db
    requires |choices| <= |env.report.packages|
  {
    if |choices| == 0 then db
    else
      var n := |choices| - 1;
      ImportOne(ImportAll(db, env, choices[..n]), env, env.report.packages[n], choices[n])
  }

  ghost predicate LegalChoices(db: Db, env: Env, choices: seq<Choice>)
    requires |choices| <= |env.report.packages|
  {
    |choices| == 0 ||
    var n := |choices| - 1;
    && LegalChoices(db, env, choices[..n])
    && LegalChoice(ImportAll(db, env, choices[..n]), env, env.report.packages[n], choices[n])
  }

  /** An unheld job of an in-scope package that the report does not list any more. */
  predicate IsUnseenJob(db: Db, report: ScopeReport, q: nat) {
    && q in db.queue
    && db.queue[q].worker.None?
    && InputInScope(db, report, db.queue[q].input)
    && !db.sources[db.inputs[db.queue[q].input].source].seen
  }

  function DropUnseen(db: Db, report: ScopeReport): Db {
    db.(queue := map q | q in db.queue && !IsUnseenJob(db, report, q) :: db.queue[q])
  }

  function Imported(db: Db, env: Env, choices: seq<Choice>): Db
    requires |choices| == |env.report.packages|
  {
    DropUnseen(ImportAll(MarkUnseen(db, env.report), env, choices), env.report)
  }

  ghost predicate LegalImport(db: Db, env: Env, choices: seq<Choice>) {
    && |choices| == |env.report.packages|
    && LegalChoices(MarkUnseen(db, env.report), env, choices)
  }
}
