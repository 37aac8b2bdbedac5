/** What a rebuild report stores, and the schema rules it keeps. */
module ReportFacts {
  import opened Options
  import opened Rows
  import opened Friends
  import opened BuildReport
  import opened ImportFacts

  /** `x` is the first entry of its name. */
  predicate IsFirstEntry(arts: seq<ArtifactReport>, x: nat) {
    x < |arts| && forall y :: 0 <= y < x ==> arts[y].name != arts[x].name
  }

  lemma {:induction false} MemoNames(arts: seq<ArtifactReport>, db: Db, name: string)
    ensures name in MemoOf(arts, db).ids <==> exists x :: 0 <= x < |arts| && arts[x].name == name
  {
    if |arts| > 0 {
      var n := |arts| - 1;
      MemoNames(arts[..n], db, name);
      assert name in MemoOf(arts, db).ids <==> name in MemoOf(arts[..n], db).ids || arts[n].name == name;
      if name in MemoOf(arts[..n], db).ids {
        var x :| 0 <= x < n && arts[..n][x].name == name;
        assert arts[x].name == name;
      }
      if x :| 0 <= x < |arts| && arts[x].name == name {
        assert x < n ==> arts[..n][x].name == name;
      }
    }
  }

  /** Ids and log rows of the memo come from the first entry of each name. */
  lemma {:induction false} MemoIsFirstEntry(arts: seq<ArtifactReport>, db: Db, x: nat)
    requires IsFirstEntry(arts, x)
    ensures arts[x].name in MemoOf(arts, db).ids
    ensures StoredAs(arts[x].diffoscope, MemoOf(arts, db).ids[arts[x].name].diffoscope,
                     db.diffoscopeLogs, MemoOf(arts, db).diffoscopes)
    ensures StoredAs(arts[x].attestation, MemoOf(arts, db).ids[arts[x].name].attestation,
                     db.attestationLogs, MemoOf(arts, db).attestations)
  {
    var n := |arts| - 1;
    var before := MemoOf(arts[..n], db);
    if x < n {
      MemoIsFirstEntry(arts[..n], db, x);
      assert arts[..n][x] == arts[x];
    } else {
      MemoNames(arts[..n], db, arts[n].name);
      assert arts[n].name !in before.ids;
    }
  }

  /** An optional log is stored exactly if there is one, as a new row with that id and content. */
  ghost predicate StoredAs(blob: Option<Blob>, id: Option<nat>, table: seq<Blob>, more: seq<Blob>) {
    && (id.Some? <==> blob.Some?)
    && (id.Some? ==> |table| <= id.value < |table| + |more| && more[id.value - |table|] == blob.value)
  }

  /** Every new diffoscope row was stored for the first entry of some name. */
  lemma {:induction false} DiffoscopeRowHasEntry(arts: seq<ArtifactReport>, db: Db, r: nat) returns (x: nat)
    requires |db.diffoscopeLogs| <= r < |db.diffoscopeLogs| + |MemoOf(arts, db).diffoscopes|
    ensures IsFirstEntry(arts, x) && MemoOf(arts, db).ids[arts[x].name].diffoscope == Some(r)
  {
    var n := |arts| - 1;
    var before := MemoOf(arts[..n], db);
    if r < |db.diffoscopeLogs| + |before.diffoscopes| {
      x := DiffoscopeRowHasEntry(arts[..n], db, r);
    } else {
      x := n;
    }
    MemoNames(arts[..n], db, arts[n].name);
  }

  /** Every new attestation row was stored for the first entry of some name. */
  lemma {:induction false} AttestationRowHasEntry(arts: seq<ArtifactReport>, db: Db, r: nat) returns (x: nat)
    requires |db.attestationLogs| <= r < |db.attestationLogs| + |MemoOf(arts, db).attestations|
    ensures IsFirstEntry(arts, x) && MemoOf(arts, db).ids[arts[x].name].attestation == Some(r)
  {
    var n := |arts| - 1;
    var before := MemoOf(arts[..n], db);
    if r < |db.attestationLogs| + |before.attestations| {
      x := AttestationRowHasEntry(arts[..n], db, r);
    } else {
      x := n;
    }
    MemoNames(arts[..n], db, arts[n].name);
  }

  /** Different names never share a log row. */
  lemma {:induction false} MemoIdsDistinct(arts: seq<ArtifactReport>, db: Db)
    ensures forall a, b :: a in MemoOf(arts, db).ids && b in MemoOf(arts, db).ids && a != b ==>
              DisjointIds(MemoOf(arts, db).ids[a], MemoOf(arts, db).ids[b])
    ensures forall a :: a in MemoOf(arts, db).ids ==> IdsBelow(db, MemoOf(arts, db), MemoOf(arts, db).ids[a])
  {
    if |arts| > 0 {
      MemoIdsDistinct(arts[..|arts| - 1], db);
    } else {
      assert MemoOf(arts, db) == EMPTY_MEMO;
    }
  }

  predicate DisjointIds(a: LogIds, b: LogIds) {
    && (a.diffoscope.Some? ==> a.diffoscope != b.diffoscope)
    && (a.attestation.Some? ==> a.attestation != b.attestation)
  }

  predicate IdsBelow(db: Db, m: Memo, ids: LogIds) {
    && (ids.diffoscope.Some? ==> ids.diffoscope.value < |db.diffoscopeLogs| + |m.diffoscopes|)
    && (ids.attestation.Some? ==> ids.attestation.value < |db.attestationLogs| + |m.attestations|)
  }

  /** One rebuild per friend, and friends times entries artifact rows. */
  lemma {:induction false} FanOutRows(
      db: Db, job: Job, rep: Report, log: nat, ids: map<string, LogIds>, order: seq<nat>)
    requires forall x :: 0 <= x < |rep.artifacts| ==> rep.artifacts[x].name in ids
    ensures FanOut(db, job, rep, log, ids, order).rebuilds
            == db.rebuilds + seq(|order|, f requires 0 <= f < |order| => RebuildRow(job, order[f], rep, log))
    ensures |FanOut(db, job, rep, log, ids, order).artifacts| == |db.artifacts| + |order| * |rep.artifacts|
  {
    if |order| > 0 {
      var n := |order| - 1;
      FanOutRows(db, job, rep, log, ids, order[..n]);
      assert |order| * |rep.artifacts| == n * |rep.artifacts| + |rep.artifacts|;
    }
  }

  /** Each new rebuild has exactly one artifact row per entry, and no earlier rebuild gains or loses any. */
  lemma {:induction false} FanOutArtifacts(
      db: Db, job: Job, rep: Report, log: nat, ids: map<string, LogIds>, order: seq<nat>, r: nat)
    requires forall x :: 0 <= x < |rep.artifacts| ==> rep.artifacts[x].name in ids
    requires forall a :: a in db.artifacts ==> a.rebuild < |db.rebuilds|
    ensures ArtifactsOf(FanOut(db, job, rep, log, ids, order).artifacts, r)
            == if |db.rebuilds| <= r < |db.rebuilds| + |order| then ArtifactRows(r, rep.artifacts, ids)
               else ArtifactsOf(db.artifacts, r)
  {
    hide ArtifactsOf;
    if |order| == 0 {
      if r >= |db.rebuilds| {
        NoArtifactsYet(db.artifacts, r);
      }
    } else {
      var n := |order| - 1;
      var before := FanOut(db, job, rep, log, ids, order[..n]);
      FanOutRows(db, job, rep, log, ids, order[..n]);
      FanOutArtifacts(db, job, rep, log, ids, order[..n], r);
      var rows := ArtifactRows(|before.rebuilds|, rep.artifacts, ids);
      ArtifactsOfAppend(before.artifacts, rows, r);
      ArtifactsOfUniform(rows, |before.rebuilds|, r);
      if r == |before.rebuilds| {
        NoArtifactsYet(db.artifacts, r);
      }
    }
  }

  /** New artifact rows belong to new rebuilds and refer to the remembered logs. */
  lemma {:induction false} FanOutReferences(
      db: Db, job: Job, rep: Report, log: nat, ids: map<string, LogIds>, order: seq<nat>)
    requires forall x :: 0 <= x < |rep.artifacts| ==> rep.artifacts[x].name in ids
    ensures forall a :: a in FanOut(db, job, rep, log, ids, order).artifacts ==>
              a in db.artifacts || (a.rebuild < |db.rebuilds| + |order| && UsesLogs(a, ids))
  {
    if |order| > 0 {
      FanOutReferences(db, job, rep, log, ids, order[..|order| - 1]);
      FanOutRows(db, job, rep, log, ids, order[..|order| - 1]);
    }
  }

  predicate UsesLogs(a: Artifact, ids: map<string, LogIds>) {
    a.name in ids && ids[a.name] == LogIds(a.diffoscope, a.attestation)
  }

  lemma NoArtifactsYet(artifacts: seq<Artifact>, r: nat)
    requires forall a :: a in artifacts ==> a.rebuild != r
    ensures ArtifactsOf(artifacts, r) == []
  {
  }

  /** The first entry with the name of entry `x`. */
  lemma {:induction false} FirstEntryOf(arts: seq<ArtifactReport>, x: nat) returns (y: nat)
    requires x < |arts|
    ensures y <= x && IsFirstEntry(arts, y) && arts[y].name == arts[x].name
    decreases x
  {
    if z :| 0 <= z < x && arts[z].name == arts[x].name {
      y := FirstEntryOf(arts, z);
    } else {
      y := x;
    }
  }

  /** The log a row points to. */
  function LogAt(table: seq<Blob>, id: Option<nat>): Option<Blob> {
    if id.Some? && id.value < |table| then Some(table[id.value]) else None
  }

  lemma StoredArtifacts(db: Db, job: Job, rep: Report, order: seq<nat>, f: nat)
    requires Valid(db) && f < |order|
    ensures ArtifactsOf(Stored(db, job, rep, order).artifacts, |db.rebuilds| + f)
            == ArtifactRows(|db.rebuilds| + f, rep.artifacts, MemoOf(rep.artifacts, db).ids)
    ensures Stored(db, job, rep, order).diffoscopeLogs == db.diffoscopeLogs + MemoOf(rep.artifacts, db).diffoscopes
    ensures Stored(db, job, rep, order).attestationLogs == db.attestationLogs + MemoOf(rep.artifacts, db).attestations
  {
    hide ArtifactsOf, ArtifactRows;
    var memo := MemoOf(rep.artifacts, db);
    var start := db.(buildLogs := db.buildLogs + [rep.log],
                     diffoscopeLogs := db.diffoscopeLogs + memo.diffoscopes,
                     attestationLogs := db.attestationLogs + memo.attestations);
    FanOutArtifacts(start, job, rep, |db.buildLogs|, memo.ids, order, |db.rebuilds| + f);
  }

  /**
   Whichever friend gets it, the artifact row of entry `x` carries that entry's name and status, and
   points at the diffoscope and attestation of the first entry of that name.
   */
  lemma ReportedArtifact(db: Db, job: Job, rep: Report, order: seq<nat>, f: nat, x: nat) returns (first: nat)
    requires Valid(db) && f < |order| && x < |rep.artifacts|
    ensures first <= x && IsFirstEntry(rep.artifacts, first) && rep.artifacts[first].name == rep.artifacts[x].name
    ensures |ArtifactsOf(Stored(db, job, rep, order).artifacts, |db.rebuilds| + f)| == |rep.artifacts|
    ensures var out := Stored(db, job, rep, order);
            var row := ArtifactsOf(out.artifacts, |db.rebuilds| + f)[x];
            && row.name == rep.artifacts[x].name
            && row.status == Some(rep.artifacts[x].status)
            && LogAt(out.diffoscopeLogs, row.diffoscope) == rep.artifacts[first].diffoscope
            && LogAt(out.attestationLogs, row.attestation) == rep.artifacts[first].attestation
  {
    hide Stored, ArtifactsOf, MemoOf, Valid;
    StoredArtifacts(db, job, rep, order, f);
    first := FirstEntryOf(rep.artifacts, x);
    MemoIsFirstEntry(rep.artifacts, db, first);
  }

  /** Names whose first entry brings a diffoscope. */
  function DiffoscopeEntries(arts: seq<ArtifactReport>): set<nat> {
    set x: nat | 0 <= x < |arts| && IsFirstEntry(arts, x) && arts[x].diffoscope.Some?
  }

  function AttestationEntries(arts: seq<ArtifactReport>): set<nat> {
    set x: nat | 0 <= x < |arts| && IsFirstEntry(arts, x) && arts[x].attestation.Some?
  }

  lemma EntriesGrow(arts: seq<ArtifactReport>)
    requires |arts| > 0
    ensures var n, first := |arts| - 1, IsFirstEntry(arts, |arts| - 1);
            && DiffoscopeEntries(arts)
               == DiffoscopeEntries(arts[..n]) + (if first && arts[n].diffoscope.Some? then {n} else {})
            && AttestationEntries(arts)
               == AttestationEntries(arts[..n]) + (if first && arts[n].attestation.Some? then {n} else {})
  {
  }

  lemma LastIsFirstEntryIff(arts: seq<ArtifactReport>, db: Db)
    requires |arts| > 0
    ensures IsFirstEntry(arts, |arts| - 1) <==> arts[|arts| - 1].name !in MemoOf(arts[..|arts| - 1], db).ids
  {
    hide MemoOf;
    var n := |arts| - 1;
    MemoNames(arts[..n], db, arts[n].name);
    assert forall x :: 0 <= x < n ==> arts[..n][x] == arts[x];
  }

  /** One log row per name whose first entry brings the log. */
  lemma {:induction false} MemoSize(arts: seq<ArtifactReport>, db: Db)
    ensures |MemoOf(arts, db).diffoscopes| == |DiffoscopeEntries(arts)|
    ensures |MemoOf(arts, db).attestations| == |AttestationEntries(arts)|
  {
    if |arts| == 0 {
      assert DiffoscopeEntries(arts) == {} && AttestationEntries(arts) == {};
    } else {
      var n := |arts| - 1;
      MemoSize(arts[..n], db);
      LastIsFirstEntryIff(arts, db);
      EntriesGrow(arts);
    }
  }

  /**
   One report stores one build log, one rebuild per friend, friends times entries artifact rows, and per distinct
   artifact name at most one diffoscope and one attestation.
   */
  lemma ReportFansOut(db: Db, job: Job, rep: Report, order: seq<nat>)
    ensures Stored(db, job, rep, order).buildLogs == db.buildLogs + [rep.log]
    ensures Stored(db, job, rep, order).rebuilds
            == db.rebuilds + seq(|order|, f requires 0 <= f < |order| => RebuildRow(job, order[f], rep, |db.buildLogs|))
    ensures |Stored(db, job, rep, order).artifacts| == |db.artifacts| + |order| * |rep.artifacts|
    ensures |Stored(db, job, rep, order).diffoscopeLogs| == |db.diffoscopeLogs| + |DiffoscopeEntries(rep.artifacts)|
    ensures |Stored(db, job, rep, order).attestationLogs| == |db.attestationLogs| + |AttestationEntries(rep.artifacts)|
  {
    hide FanOut, MemoOf, DiffoscopeEntries, AttestationEntries;
    var memo := MemoOf(rep.artifacts, db);
    var start := db.(buildLogs := db.buildLogs + [rep.log],
                     diffoscopeLogs := db.diffoscopeLogs + memo.diffoscopes,
                     attestationLogs := db.attestationLogs + memo.attestations);
    FanOutRows(start, job, rep, |db.buildLogs|, memo.ids, order);
    MemoSize(rep.artifacts, db);
  }

  lemma StoredIsValid(db: Db, job: Job, rep: Report, order: seq<nat>)
    requires Valid(db)
    requires forall i :: i in order ==> i < |db.inputs|
    ensures Valid(Stored(db, job, rep, order))
  {
    var memo := MemoOf(rep.artifacts, db);
    var start := db.(buildLogs := db.buildLogs + [rep.log],
                     diffoscopeLogs := db.diffoscopeLogs + memo.diffoscopes,
                     attestationLogs := db.attestationLogs + memo.attestations);
    var out := Stored(db, job, rep, order);
    FanOutRows(start, job, rep, |db.buildLogs|, memo.ids, order);
    FanOutReferences(start, job, rep, |db.buildLogs|, memo.ids, order);
    MemoIdsDistinct(rep.artifacts, db);
    assert ReferencesHold(out) by {
      assert forall f :: 0 <= f < |order| ==> order[f] in order;
      forall a | 0 <= a < |out.artifacts|
        ensures out.artifacts[a].rebuild < |out.rebuilds| && LogsExist(out, out.artifacts[a])
      {
        assert out.artifacts[a] in out.artifacts;
      }
    }
    assert KeysUnique(out);
  }

  lemma RescheduledIsValid(db: Db, cfg: Config, q: nat, status: BuildStatus, now: Time)
    requires Valid(db) && q in db.queue
    ensures Valid(Rescheduled(db, cfg, q, status, now))
  {
    hide UpsertJob, MaxRetries, SetNextRetry, BumpRetries, KeysUnique, Exhausted;
    var input := db.queue[q].input;
    var cls := db.inputs[input].cls;
    var bumped := db.(queue := db.queue - {q}, inputs := BumpRetries(db.inputs, cls));
    FewerJobsIsValid(db, db.queue - {q});
    BumpRetriesIsValid(db.(queue := db.queue - {q}), cls);
    var retries := MaxRetries(bumped.inputs, cls);
    if status != BuildStatus.Good && !Exhausted(cfg, retries) {
      var at := Some(now + RetryDelay(cfg, retries));
      SetNextRetryIsValid(bumped, cls, at);
      UpsertJobEffect(bumped.(inputs := SetNextRetry(bumped.inputs, cls, at)), input, PRIORITY_RETRY, now);
    } else if status != BuildStatus.Good {
      SetNextRetryIsValid(bumped, cls, None);
      FewerJobsIsValid(bumped.(inputs := SetNextRetry(bumped.inputs, cls, None)), GiveUp(bumped, cls).queue);
    }
  }

  lemma BumpRetriesIsValid(db: Db, cls: Class)
    requires Valid(db)
    ensures Valid(db.(inputs := BumpRetries(db.inputs, cls)))
  {
  }

  /** The class of the reported job. */
  function JobClass(db: Db, q: nat): Class
    requires q in db.queue && db.queue[q].input < |db.inputs|
  {
    db.inputs[db.queue[q].input].cls
  }

  /** Retries of the class after a failed attempt. */
  function RetriesAfter(db: Db, cls: Class): int {
    MaxRetries(BumpRetries(db.inputs, cls), cls)
  }

  ghost predicate OnlyClassRetries(before: seq<Input>, after: seq<Input>, cls: Class, at: Option<Time>) {
    && |after| == |before|
    && forall i :: 0 <= i < |before| ==>
         after[i] == if before[i].cls == cls then before[i].(retries := before[i].retries + 1, nextRetry := at)
                     else before[i]
  }

  /** A failed attempt counts for the whole class; then either all its jobs go, or only its own row is renewed. */
  lemma FailedAttemptEffect(db: Db, cfg: Config, q: nat, status: BuildStatus, now: Time)
    requires Valid(db) && q in db.queue && status != BuildStatus.Good
    ensures Exhausted(cfg, RetriesAfter(db, JobClass(db, q))) ==>
              && OnlyClassRetries(db.inputs, Rescheduled(db, cfg, q, status, now).inputs, JobClass(db, q), None)
              && Rescheduled(db, cfg, q, status, now).queue
                 == (map p | p in db.queue && !InClass(db.inputs, db.queue[p].input, JobClass(db, q)) :: db.queue[p])
              && Rescheduled(db, cfg, q, status, now).nextJob == db.nextJob
    ensures !Exhausted(cfg, RetriesAfter(db, JobClass(db, q))) ==>
              && OnlyClassRetries(db.inputs, Rescheduled(db, cfg, q, status, now).inputs, JobClass(db, q),
                                  Some(now + RetryDelay(cfg, RetriesAfter(db, JobClass(db, q)))))
              && Rescheduled(db, cfg, q, status, now).queue
                 == (db.queue - {q})[db.nextJob := Job(db.queue[q].input, PRIORITY_RETRY, now, None, None, None)]
              && Rescheduled(db, cfg, q, status, now).nextJob == db.nextJob + 1
  {
    hide MaxRetries;
    var out := Rescheduled(db, cfg, q, status, now);
    var cls, bumped := JobClass(db, q), BumpRetries(db.inputs, JobClass(db, q));
    assert InClass(db.inputs, db.queue[q].input, cls);
    if Exhausted(cfg, RetriesAfter(db, cls)) {
      assert out.inputs == SetNextRetry(bumped, cls, None);
      forall p | p in db.queue
        ensures p in out.queue <==> !InClass(db.inputs, db.queue[p].input, cls)
      {
      }
    } else {
      var rest := db.queue - {q};
      assert !IsQueued(rest, db.queue[q].input);
    }
  }
}
