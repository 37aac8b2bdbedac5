/**
 The tables of the daemon as values.

 Rows of every table except the queue are only ever appended or updated, so those tables are
 sequences and a row's id is its index.  Queue rows are deleted too: the queue is a map from
 row id to row, and `nextJob` is its AUTOINCREMENT counter, so ids are never reused.
 Time is counted in seconds.
 */
module Rows {
  import opened Options

  type Time = int

  /** Contents of a stored log; compression is not modelled. */
  type Blob = seq<bv8>

  datatype BuildStatus = Good | Bad | Fail | Unknown

  datatype ArtifactStatus = Good | Bad | Unknown

  /** Where a report's packages live: distribution, release and component. */
  datatype Scope = Scope(distribution: string, release: Option<string>, component: Option<string>)

  /** What makes two source packages the same one. */
  datatype Identity = Identity(name: string, version: string, scope: Scope)

  datatype Source = Source(
    identity: Identity,
    lastSeen: Time,
    seen: bool,
    gitHash: Option<string>,
    buildTime: Option<Time>,
    gitTime: Option<Time>)

  /** Build inputs with equal class are "friends": they share results and retries. */
  datatype Class = Class(url: string, backend: string, architecture: string)

  datatype Input = Input(source: nat, cls: Class, retries: int, nextRetry: Option<Time>)

  datatype Binary = Binary(
    source: nat,
    input: nat,
    name: string,
    version: string,
    architecture: string,
    url: string,
    seen: bool)
  {
    predicate SameKey(other: Binary) {
      && source == other.source
      && input == other.input
      && name == other.name
      && version == other.version
      && architecture == other.architecture
    }
  }

  datatype Job = Job(
    input: nat,
    priority: int,
    queuedAt: Time,
    startedAt: Option<Time>,
    worker: Option<int>,
    lastPing: Option<Time>)

  datatype Rebuild = Rebuild(
    input: nat,
    startedAt: Option<Time>,
    builtAt: Option<Time>,
    log: nat,
    status: Option<BuildStatus>)

  datatype Artifact = Artifact(
    rebuild: nat,
    name: string,
    diffoscope: Option<nat>,
    attestation: Option<nat>,
    status: Option<ArtifactStatus>)

  datatype Db = Db(
    sources: seq<Source>,
    inputs: seq<Input>,
    binaries: seq<Binary>,
    queue: map<nat, Job>,
    nextJob: nat,
    rebuilds: seq<Rebuild>,
    artifacts: seq<Artifact>,
    buildLogs: seq<Blob>,
    diffoscopeLogs: seq<Blob>,
    attestationLogs: seq<Blob>)

  const EMPTY_DB: Db := Db([], [], [], map[], 0, [], [], [], [], [])

  /** The schedule section of the configuration; `retryDelayBase` counts hours. */
  datatype Config = Config(maxRetries: Option<int>, retryDelayBase: int, initialDelay: Time)

  const PRIORITY_MANUAL := 0
  const PRIORITY_DEFAULT := 1
  const PRIORITY_RETRY := 2

  /** The artifact rows of one rebuild, in id order. */
  function ArtifactsOf(artifacts: seq<Artifact>, rebuild: nat): (rows: seq<Artifact>)
    ensures forall a :: a in rows ==> a in artifacts && a.rebuild == rebuild
  {
    if |artifacts| == 0 then []
    else
      var rows := ArtifactsOf(artifacts[..|artifacts| - 1], rebuild);
      var last := artifacts[|artifacts| - 1];
      if last.rebuild == rebuild then rows + [last] else rows
  }

  lemma {:induction false} ArtifactsOfAppend(a: seq<Artifact>, b: seq<Artifact>, rebuild: nat)
    ensures ArtifactsOf(a + b, rebuild) == ArtifactsOf(a, rebuild) + ArtifactsOf(b, rebuild)
  {
    if |b| == 0 {
      assert a + b == a;
    } else {
      assert (a + b)[..|a + b| - 1] == a + b[..|b| - 1];
      ArtifactsOfAppend(a, b[..|b| - 1], rebuild);
    }
  }

  lemma {:induction false} ArtifactsOfUniform(rows: seq<Artifact>, rebuild: nat, other: nat)
    requires forall a :: a in rows ==> a.rebuild == rebuild
    ensures ArtifactsOf(rows, other) == if other == rebuild then rows else []
  {
    if |rows| > 0 {
      var last := rows[|rows| - 1];
      assert last in rows;
      ArtifactsOfUniform(rows[..|rows| - 1], rebuild, other);
      assert rows == rows[..|rows| - 1] + [last];
    }
  }

  /** Every stored reference names an existing row. */
  ghost predicate ReferencesHold(db: Db) {
    && (forall i :: 0 <= i < |db.inputs| ==> db.inputs[i].source < |db.sources|)
    && (forall b :: 0 <= b < |db.binaries| ==>
          && db.binaries[b].input < |db.inputs|
          && db.binaries[b].source == db.inputs[db.binaries[b].input].source)
    && (forall q :: q in db.queue ==> q < db.nextJob && db.queue[q].input < |db.inputs|)
    && (forall r :: 0 <= r < |db.rebuilds| ==>
          db.rebuilds[r].input < |db.inputs| && db.rebuilds[r].log < |db.buildLogs|)
    && (forall a :: 0 <= a < |db.artifacts| ==>
          && db.artifacts[a].rebuild < |db.rebuilds|
          && (db.artifacts[a].diffoscope.Some? ==> db.artifacts[a].diffoscope.value < |db.diffoscopeLogs|)
          && (db.artifacts[a].attestation.Some? ==> db.artifacts[a].attestation.value < |db.attestationLogs|))
  }

  /** The unique indexes of the schema. */
  ghost predicate KeysUnique(db: Db) {
    && (forall s, t :: 0 <= s < t < |db.sources| ==> db.sources[s].identity != db.sources[t].identity)
    && (forall i, j :: 0 <= i < j < |db.inputs| ==>
          db.inputs[i].source != db.inputs[j].source || db.inputs[i].cls != db.inputs[j].cls)
    && (forall a, b :: 0 <= a < b < |db.binaries| ==> !db.binaries[a].SameKey(db.binaries[b]))
    && (forall p, q :: p in db.queue && q in db.queue && db.queue[p].input == db.queue[q].input ==> p == q)
  }

  ghost predicate Valid(db: Db) {
    ReferencesHold(db) && KeysUnique(db)
  }
}
