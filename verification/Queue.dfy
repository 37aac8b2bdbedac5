/** The queue handlers: handing out work, heartbeats, manual requeues and drops. */
module Queue {
  import opened Options
  import opened Rows
  import opened Friends
  import opened Search

  const PING_INTERVAL := 60
  const PING_DEADLINE := 9 * PING_INTERVAL
  const SECONDS_PER_DAY := 86400

  // ----- architectures -----

  /** The other common name of an architecture, if it has one. */
  function Alias(arch: string): Option<string> {
    match arch
    case "x86" => Some("i386")
    case "i386" => Some("x86")
    case "x86_64" => Some("amd64")
    case "amd64" => Some("x86_64")
    case "aarch64" => Some("arm64")
    case "arm64" => Some("aarch64")
    case "powerpc64" => Some("ppc64")
    case "ppc64" => Some("powerpc64")
    case _ => None
  }

  // ----- request_work -----

  predicate IsStale(job: Job, now: Time) {
    job.lastPing.Some? && job.lastPing.value < now - PING_DEADLINE
  }

  /** Takes stale jobs away from their workers. */
  function Swept(db: Db, now: Time): (out: Db)
    ensures out == db.(queue := out.queue) && out.queue.Keys == db.queue.Keys
  {
    db.(queue := map q | q in db.queue ::
        if IsStale(db.queue[q], now) then db.queue[q].(worker := None, startedAt := None, lastPing := None)
        else db.queue[q])
  }

  datatype WorkRequest = WorkRequest(worker: int, backends: set<string>, architectures: set<string>)

  function Supported(architectures: set<string>): set<string> {
    architectures + set a | a in architectures && Alias(a).Some? :: Alias(a).value
  }

  predicate IsDue(input: Input, now: Time) {
    input.nextRetry.None? || input.nextRetry.value <= now
  }

  predicate Eligible(db: Db, req: WorkRequest, now: Time, q: nat) {
    && q in db.queue
    && db.queue[q].worker.None?
    && db.queue[q].input < |db.inputs|
    && var input := db.inputs[db.queue[q].input];
       && IsDue(input, now)
       && input.cls.architecture in Supported(req.architectures)
       && input.cls.backend in req.backends
       && input.source < |db.sources|
  }

  /** What jobs are ordered by, most significant first. */
  datatype Rank = Rank(priority: int, day: int, gitTime: Option<Time>, source: nat)

  function RankOf(db: Db, q: nat): Rank
    requires q in db.queue && db.queue[q].input < |db.inputs|
    requires db.inputs[db.queue[q].input].source < |db.sources|
  {
    var source := db.inputs[db.queue[q].input].source;
    Rank(db.queue[q].priority, db.queue[q].queuedAt / SECONDS_PER_DAY, db.sources[source].gitTime, source)
  }

  /** NULL git timestamps come first. */
  predicate TimeLe(a: Option<Time>, b: Option<Time>) {
    a.None? || (b.Some? && a.value <= b.value)
  }

  predicate RankLe(a: Rank, b: Rank) {
    if a.priority != b.priority then a.priority < b.priority
    else if a.day != b.day then a.day < b.day
    else if a.gitTime != b.gitTime then TimeLe(a.gitTime, b.gitTime)
    else a.source <= b.source
  }

  /** `q` may be handed out: it is eligible and no eligible job ranks strictly before it. */
  ghost predicate IsFirst(db: Db, req: WorkRequest, now: Time, q: nat) {
    && Eligible(db, req, now, q)
    && forall o: nat :: Eligible(db, req, now, o) ==> RankLe(RankOf(db, q), RankOf(db, o))
  }

  /** `taken` is a possible answer: a first job, or nothing when no job is eligible. */
  ghost predicate LegalWork(db: Db, req: WorkRequest, now: Time, taken: Option<nat>) {
    var swept := Swept(db, now);
    if taken.Some? then IsFirst(swept, req, now, taken.value)
    else forall q: nat :: !Eligible(swept, req, now, q)
  }

  function Taken(db: Db, q: nat, worker: int, now: Time): (out: Db)
    requires q in db.queue
  {
    db.(queue := db.queue[q := db.queue[q].(startedAt := Some(now), worker := Some(worker), lastPing := Some(now))])
  }

  function WorkRequested(db: Db, req: WorkRequest, now: Time, taken: Option<nat>): Db {
    var swept := Swept(db, now);
    if taken.Some? && taken.value in swept.queue then Taken(swept, taken.value, req.worker, now) else swept
  }

  // ----- ping_job -----

  predicate HeldBy(db: Db, q: nat, worker: int) {
    q in db.queue && db.queue[q].worker == Some(worker)
  }

  function Pinged(db: Db, q: nat, worker: int, now: Time): Db {
    if HeldBy(db, q, worker) then db.(queue := db.queue[q := db.queue[q].(lastPing := Some(now))]) else db
  }

  // ----- request_rebuild -----

  datatype OriginFilter = OriginFilter(
    distribution: Option<string>,
    release: Option<string>,
    component: Option<string>,
    architecture: Option<string>)

  datatype SearchType = Exact | Contains | StartsWith

  datatype IdentityFilter = IdentityFilter(name: Option<string>, search: SearchType, version: Option<string>)

  datatype RebuildRequest = RebuildRequest(
    origin: OriginFilter,
    identity: IdentityFilter,
    status: Option<BuildStatus>,
    priority: Option<int>,
    reset: bool)

  predicate Wanted(filter: Option<string>, value: string) {
    filter.None? || filter.value == value
  }

  /** An empty filter, or one of the other given spellings, asks for NULL. */
  predicate WantedNullable(filter: Option<string>, value: Option<string>, nullNames: set<string>) {
    filter.None? || (if filter.value in nullNames then value.None? else value == filter)
  }

  /** Names are compared exactly, or searched for a part or a beginning. */
  predicate WantedName(filter: IdentityFilter, name: string) {
    filter.name.None? ||
    match filter.search
    case Exact => name == filter.name.value
    case Contains => Like("%" + filter.name.value + "%", name)
    case StartsWith => Like(filter.name.value + "%", name)
  }

  /** The origin and identity filters, applied to a build input and its source package. */
  predicate Matches(db: Db, origin: OriginFilter, identity: IdentityFilter, i: nat) {
    && i < |db.inputs|
    && db.inputs[i].source < |db.sources|
    && var id := db.sources[db.inputs[i].source].identity;
       && Wanted(origin.distribution, id.scope.distribution)
       && WantedNullable(origin.release, id.scope.release, {""})
       && WantedNullable(origin.component, id.scope.component, {"", "null"})
       && Wanted(origin.architecture, db.inputs[i].cls.architecture)
       && WantedName(identity, id.name)
       && Wanted(identity.version, id.version)
  }

  /** The rebuild of the input with the highest id, or the number of rebuilds. */
  function LastRebuild(rebuilds: seq<Rebuild>, input: nat): (r: nat)
    ensures r <= |rebuilds|
    ensures r < |rebuilds| ==> rebuilds[r].input == input
    ensures forall o :: 0 <= o < |rebuilds| && rebuilds[o].input == input ==> o <= r < |rebuilds|
  {
    if |rebuilds| == 0 then 0
    else if rebuilds[|rebuilds| - 1].input == input then |rebuilds| - 1
    else
      var r := LastRebuild(rebuilds[..|rebuilds| - 1], input);
      if r < |rebuilds| - 1 then r else |rebuilds|
  }

  /** UNKWN asks for inputs without a rebuild or with a NULL status; "UNKWN" text does not count. */
  predicate HasStatus(rebuilds: seq<Rebuild>, input: nat, status: BuildStatus) {
    var r := LastRebuild(rebuilds, input);
    if status == BuildStatus.Unknown then !(r < |rebuilds| && rebuilds[r].status.Some?)
    else r < |rebuilds| && rebuilds[r].status == Some(status)
  }

  predicate Selected(db: Db, req: RebuildRequest, i: nat) {
    && Matches(db, req.origin, req.identity, i)
    && (exists b | 0 <= b < |db.binaries| :: db.binaries[b].source == db.inputs[i].source)
    && (req.identity.name.None? ==> db.sources[db.inputs[i].source].seen)
    && (req.status.Some? ==> HasStatus(db.rebuilds, i, req.status.value))
  }

  function SelectedIds(db: Db, req: RebuildRequest): set<nat> {
    set i: nat | 0 <= i < |db.inputs| && Selected(db, req, i)
  }

  /** Forgets the verdict of the last rebuild of one input. */
  function Reset(db: Db, input: nat): (out: Db)
    ensures out == db.(rebuilds := out.rebuilds, artifacts := out.artifacts)
    ensures |out.rebuilds| == |db.rebuilds| && |out.artifacts| == |db.artifacts|
  {
    var r := LastRebuild(db.rebuilds, input);
    if r == |db.rebuilds| then db
    else
      db.(rebuilds := db.rebuilds[r := db.rebuilds[r].(status := None)],
          artifacts := seq(|db.artifacts|, a requires 0 <= a < |db.artifacts| =>
            if db.artifacts[a].rebuild == r then db.artifacts[a].(status := None) else db.artifacts[a]))
  }

  function RequeueOne(db: Db, req: RebuildRequest, now: Time, input: nat): Db
  {
    if input >= |db.inputs| then db
    else
      var d := if req.reset then Reset(db, input) else db;
      UpsertJob(d.(inputs := d.inputs[input := d.inputs[input].(nextRetry := Some(now - 60))]),
                input, if req.priority.Some? then req.priority.value else PRIORITY_MANUAL, now)
  }

  function RequeueAll(db: Db, req: RebuildRequest, now: Time, order: seq<nat>): Db {
    if |order| == 0 then db
    else RequeueOne(RequeueAll(db, req, now, order[..|order| - 1]), req, now, order[|order| - 1])
  }

  // ----- dropping jobs -----

  function DropMatching(db: Db, origin: OriginFilter, identity: IdentityFilter): Db {
    db.(queue := map q | q in db.queue && !Matches(db, origin, identity, db.queue[q].input) :: db.queue[q])
  }

  function DropJob(db: Db, q: nat): Db {
    db.(queue := db.queue - {q})
  }
}
