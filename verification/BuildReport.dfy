/** What one rebuild report does to the tables. */
module BuildReport {
  import opened Options
  import opened Rows
  import opened Friends

  datatype ArtifactReport = ArtifactReport(
    name: string,
    diffoscope: Option<Blob>,
    attestation: Option<Blob>,
    status: ArtifactStatus)

  datatype Report = Report(
    builtAt: Time,
    log: Blob,
    status: BuildStatus,
    artifacts: seq<ArtifactReport>)

  datatype LogIds = LogIds(diffoscope: Option<nat>, attestation: Option<nat>)

  /** Log ids by artifact name, and the log rows that were inserted for them. */
  datatype Memo = Memo(ids: map<string, LogIds>, diffoscopes: seq<Blob>, attestations: seq<Blob>)

  const EMPTY_MEMO := Memo(map[], [], [])

  function AsRows<T>(blob: Option<T>): seq<T> {
    if blob.Some? then [blob.value] else []
  }

  function IdFrom<T>(blob: Option<T>, next: nat): Option<nat> {
    if blob.Some? then Some(next) else None
  }

  /** One artifact entry: the first of its name stores its logs, later ones reuse them. */
  function Remember(m: Memo, a: ArtifactReport, db: Db): Memo {
    if a.name in m.ids then m
    else
      Memo(m.ids[a.name := LogIds(
             IdFrom(a.diffoscope, |db.diffoscopeLogs| + |m.diffoscopes|),
             IdFrom(a.attestation, |db.attestationLogs| + |m.attestations|))],
           m.diffoscopes + AsRows(a.diffoscope),
           m.attestations + AsRows(a.attestation))
  }

  /** The memo of a whole list of entries, given the log tables of `db`. */
  function MemoOf(arts: seq<ArtifactReport>, db: Db): (m: Memo)
    ensures forall x :: 0 <= x < |arts| ==> arts[x].name in m.ids
  {
    if |arts| == 0 then EMPTY_MEMO
    else Remember(MemoOf(arts[..|arts| - 1], db), arts[|arts| - 1], db)
  }

  /** The artifact rows of one rebuild. */
  function ArtifactRows(rebuild: nat, arts: seq<ArtifactReport>, ids: map<string, LogIds>): (rows: seq<Artifact>)
    requires forall x :: 0 <= x < |arts| ==> arts[x].name in ids
    ensures |rows| == |arts|
  {
    seq(|arts|, x requires 0 <= x < |arts| =>
      Artifact(rebuild, arts[x].name, ids[arts[x].name].diffoscope, ids[arts[x].name].attestation,
               Some(arts[x].status)))
  }

  function RebuildRow(job: Job, friend: nat, rep: Report, log: nat): Rebuild {
    Rebuild(friend, job.startedAt, Some(rep.builtAt), log, Some(rep.status))
  }

  /** One rebuild per friend in `order`, each with its artifact rows. */
  function FanOut(db: Db, job: Job, rep: Report, log: nat, ids: map<string, LogIds>, order: seq<nat>): (out: Db)
    requires forall x :: 0 <= x < |rep.artifacts| ==> rep.artifacts[x].name in ids
    ensures out == db.(rebuilds := out.rebuilds, artifacts := out.artifacts)
  {
    if |order| == 0 then db
    else
      var d := FanOut(db, job, rep, log, ids, order[..|order| - 1]);
      d.(rebuilds := d.rebuilds + [RebuildRow(job, order[|order| - 1], rep, log)],
         artifacts := d.artifacts + ArtifactRows(|d.rebuilds|, rep.artifacts, ids))
  }

  /** The log, the artifact logs, and the fan-out to all friends. */
  function Stored(db: Db, job: Job, rep: Report, order: seq<nat>): Db {
    var memo := MemoOf(rep.artifacts, db);
    FanOut(db.(buildLogs := db.buildLogs + [rep.log],
               diffoscopeLogs := db.diffoscopeLogs + memo.diffoscopes,
               attestationLogs := db.attestationLogs + memo.attestations),
           job, rep, |db.buildLogs|, memo.ids, order)
  }

  function RetryDelay(cfg: Config, retries: int): int {
    (retries + 1) * cfg.retryDelayBase * 3600
  }

  /** Deletes the reported row; a result other than GOOD is retried later or given up. */
  function Rescheduled(db: Db, cfg: Config, q: nat, status: BuildStatus, now: Time): Db
    requires q in db.queue && db.queue[q].input < |db.inputs|
  {
    var input := db.queue[q].input;
    var cls := db.inputs[input].cls;
    var dequeued := db.(queue := db.queue - {q});
    if status == BuildStatus.Good then dequeued
    else
      var bumped := dequeued.(inputs := BumpRetries(db.inputs, cls));
      var retries := MaxRetries(bumped.inputs, cls);
      if Exhausted(cfg, retries) then GiveUp(bumped, cls)
      else
        UpsertJob(bumped.(inputs := SetNextRetry(bumped.inputs, cls, Some(now + RetryDelay(cfg, retries)))),
                  input, PRIORITY_RETRY, now)
  }

  /** The whole handler; a report for an unknown queue row changes nothing. */
  function Reported(db: Db, cfg: Config, q: nat, rep: Report, now: Time, order: seq<nat>): Db {
    if q !in db.queue || db.queue[q].input >= |db.inputs| then db
    else
      Rescheduled(Stored(db, db.queue[q], rep, order), cfg, q, rep.status, now)
  }
}
