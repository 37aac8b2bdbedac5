/** The latest rebuild of every build input, found by a self-anti-join, and the sums built on it. */
module Dashboard {
  import opened Options
  import opened Rows
  import opened Friends
  import opened BuildReport
  import opened PackageImport
  import opened ReportFacts
  import opened Queue
  import opened Runs
  import opened Invariants

  // ----- the anti-join -----

  /** The join condition between r1 and r2; a comparison with NULL is never true. */
  predicate Beaten(rebuilds: seq<Rebuild>, r1: nat, r2: nat)
    requires r1 < |rebuilds| && r2 < |rebuilds|
  {
    var a, b := rebuilds[r1].builtAt, rebuilds[r2].builtAt;
    a.Some? && b.Some? && (a.value < b.value || (a.value == b.value && r1 < r2))
  }

  /**
   The rows left for one build input: r1 is left-joined with the rebuilds of the input, r2 with those that
   beat r1, and only rows without an r2 are kept.  An input without rebuilds yields one row of NULLs.
   */
  function LatestRows(rebuilds: seq<Rebuild>, input: nat): set<Option<nat>> {
    var ids := RebuildIds(rebuilds, input);
    if ids == {} then {None}
    else set r | r in ids && (forall o | o in ids :: !Beaten(rebuilds, r, o)) :: Some(r)
  }

  /** `r` has the greatest (build time, id) among the rebuilds of the input. */
  ghost predicate IsLatest(rebuilds: seq<Rebuild>, input: nat, r: nat) {
    && r in RebuildIds(rebuilds, input)
    && forall o :: o in RebuildIds(rebuilds, input) ==> o == r || Beaten(rebuilds, o, r)
  }

  ghost predicate AllBuilt(rebuilds: seq<Rebuild>, ids: set<nat>) {
    forall r :: r in ids ==> r < |rebuilds| && rebuilds[r].builtAt.Some?
  }

  lemma {:induction false} LatestExists(rebuilds: seq<Rebuild>, ids: set<nat>) returns (r: nat)
    requires ids != {} && AllBuilt(rebuilds, ids)
    ensures r in ids && r < |rebuilds|
    ensures forall o :: o in ids ==> o < |rebuilds| && (o == r || Beaten(rebuilds, o, r))
    decreases ids
  {
    r :| r in ids;
    var rest := ids - {r};
    assert forall o :: o in ids ==> o == r || o in rest;
    if rest != {} {
      var s := LatestExists(rebuilds, rest);
      if Beaten(rebuilds, r, s) {
        r := s;
      }
    }
  }

  /** With all build times set, an input with rebuilds yields one row: its latest rebuild. */
  lemma LatestRowIsLatest(rebuilds: seq<Rebuild>, input: nat) returns (r: nat)
    requires RebuildIds(rebuilds, input) != {} && AllBuilt(rebuilds, RebuildIds(rebuilds, input))
    ensures LatestRows(rebuilds, input) == {Some(r)} && IsLatest(rebuilds, input, r)
  {
    var ids := RebuildIds(rebuilds, input);
    r := LatestExists(rebuilds, ids);
    forall o | o in ids ensures Some(o) in LatestRows(rebuilds, input) <==> o == r {
      assert o != r ==> Beaten(rebuilds, o, r);
    }
  }

  /** Every input yields at least one row. */
  lemma SomeLatestRow(rebuilds: seq<Rebuild>, input: nat)
    ensures LatestRows(rebuilds, input) != {}
  {
    var ids := RebuildIds(rebuilds, input);
    if ids != {} {
      if r :| r in ids && rebuilds[r].builtAt.None? {
        assert Some(r) in LatestRows(rebuilds, input);
      } else {
        var r := LatestRowIsLatest(rebuilds, input);
      }
    }
  }

  /** Exactly one row is left exactly if all build times are set or there is only one rebuild. */
  lemma OneLatestRowIff(rebuilds: seq<Rebuild>, input: nat)
    ensures |LatestRows(rebuilds, input)| == 1
            <==> AllBuilt(rebuilds, RebuildIds(rebuilds, input)) || |RebuildIds(rebuilds, input)| == 1
  {
    var ids, rows := RebuildIds(rebuilds, input), LatestRows(rebuilds, input);
    if ids == {} {
      assert rows == {None};
    } else if AllBuilt(rebuilds, ids) {
      var r := LatestRowIsLatest(rebuilds, input);
    } else {
      var r :| r in ids && rebuilds[r].builtAt.None?;
      assert Some(r) in rows;
      var rest := ids - {r};
      if rest == {} {
        assert ids == {r};
        assert rows == {Some(r)};
      } else {
        var s := AnotherLatest(rebuilds, ids, rest);
        assert Some(s) in rows && {Some(r), Some(s)} <= rows;
        SubsetSize({Some(r), Some(s)}, rows);
        assert s in ids && {r, s} <= ids;
        SubsetSize({r, s}, ids);
      }
    }
  }

  lemma SubsetSize<T>(a: set<T>, b: set<T>)
    requires a <= b
    ensures |a| <= |b|
  {
    assert b == a + (b - a);
  }

  /** Some rebuild of `rest` is not beaten, since the only one left out has no build time. */
  lemma AnotherLatest(rebuilds: seq<Rebuild>, ids: set<nat>, rest: set<nat>) returns (s: nat)
    requires forall o :: o in ids ==> o < |rebuilds|
    requires rest <= ids && rest != {} && forall o :: o in ids - rest ==> o < |rebuilds| && rebuilds[o].builtAt.None?
    ensures s in rest && forall o | o in ids :: !Beaten(rebuilds, s, o)
  {
    if o :| o in rest && rebuilds[o].builtAt.None? {
      s := o;
    } else {
      s := LatestExists(rebuilds, rest);
    }
  }

  /**
   The dashboard's latest rebuild has the latest build time; requests for rebuilds look at the highest id instead.
   Both are the same rebuild exactly if no other rebuild of the input was built later.
   */
  lemma LastIsLatestIff(rebuilds: seq<Rebuild>, input: nat)
    requires RebuildIds(rebuilds, input) != {} && AllBuilt(rebuilds, RebuildIds(rebuilds, input))
    ensures LastRebuild(rebuilds, input) in RebuildIds(rebuilds, input)
    ensures LatestRows(rebuilds, input) == {Some(LastRebuild(rebuilds, input))}
            <==> forall o :: o in RebuildIds(rebuilds, input) ==>
                   rebuilds[o].builtAt.value <= rebuilds[LastRebuild(rebuilds, input)].builtAt.value
  {
  }

  /** The rows of the listing of source packages for the first `n` build inputs: ids, repeated for every join row. */
  function SourceListing(db: Db, n: nat): seq<nat>
    requires n <= |db.inputs|
  {
    if n == 0 then []
    else
      SourceListing(db, n - 1)
      + seq(|LatestRows(db.rebuilds, n - 1)|, _ => db.inputs[n - 1].source)
  }

  /** In every run, a source package is listed once for each of its build inputs. */
  lemma {:induction false} OneRowPerInput(cfg: Config, es: seq<Event>, n: nat)
    requires IsRun(cfg, es) && n <= |Run(cfg, es).inputs|
    ensures SourceListing(Run(cfg, es), n)
            == seq(n, i requires 0 <= i < n => Run(cfg, es).inputs[i].source)
  {
    hide Run, IsRun, LatestRows;
    if n > 0 {
      var db := Run(cfg, es);
      OneRowPerInput(cfg, es, n - 1);
      RunKeepsBuilt(cfg, es);
      OneLatestRowIff(db.rebuilds, n - 1);
      assert AllBuilt(db.rebuilds, RebuildIds(db.rebuilds, n - 1));
    }
  }

  // ----- the sums -----

  /** A seen package that passes the origin filter. */
  predicate Counted(db: Db, origin: OriginFilter, i: nat) {
    && i < |db.inputs|
    && db.inputs[i].source < |db.sources|
    && db.sources[db.inputs[i].source].seen
    && Matches(db, origin, IdentityFilter(None, Exact, None), i)
  }

  datatype JoinRow = JoinRow(input: nat, rebuild: Option<nat>)

  function Tagged(input: nat, latest: set<Option<nat>>): set<JoinRow> {
    set r | r in latest :: JoinRow(input, r)
  }

  /** The rows of the query for the first `n` build inputs. */
  function JoinRows(db: Db, origin: OriginFilter, n: nat): set<JoinRow> {
    if n == 0 then {}
    else
      JoinRows(db, origin, n - 1)
      + if Counted(db, origin, n - 1) then Tagged(n - 1, LatestRows(db.rebuilds, n - 1)) else {}
  }

  function CountedInputs(db: Db, origin: OriginFilter, n: nat): set<nat> {
    set i: nat | 0 <= i < n && Counted(db, origin, i)
  }

  function StatusOf(db: Db, row: JoinRow): Option<BuildStatus> {
    if row.rebuild.Some? && row.rebuild.value < |db.rebuilds| then db.rebuilds[row.rebuild.value].status else None
  }

  datatype RebuildState = RebuildState(good: nat, bad: nat, fail: nat, unknown: nat)

  datatype JobState = JobState(running: nat, available: nat, pending: nat)

  function WithStatus(db: Db, rows: set<JoinRow>, status: Option<BuildStatus>): set<JoinRow> {
    set row | row in rows && StatusOf(db, row) == status
  }

  function RebuildSums(db: Db, origin: OriginFilter): RebuildState {
    var rows := JoinRows(db, origin, |db.inputs|);
    RebuildState(
      |WithStatus(db, rows, Some(BuildStatus.Good))|,
      |WithStatus(db, rows, Some(BuildStatus.Bad))|,
      |WithStatus(db, rows, Some(BuildStatus.Fail))|,
      |WithStatus(db, rows, Some(BuildStatus.Unknown)) + WithStatus(db, rows, None)|)
  }

  predicate CountedJob(db: Db, origin: OriginFilter, q: nat) {
    q in db.queue && Counted(db, origin, db.queue[q].input)
  }

  function JobCounts(db: Db, origin: OriginFilter, now: Time): JobState {
    JobState(
      |set q | q in db.queue && CountedJob(db, origin, q) && db.queue[q].worker.Some?|,
      |set q | q in db.queue && CountedJob(db, origin, q) && db.queue[q].worker.None?
          && IsDue(db.inputs[db.queue[q].input], now)|,
      |set q | q in db.queue && CountedJob(db, origin, q) && db.queue[q].worker.None?
          && db.inputs[db.queue[q].input].nextRetry.Some? && db.inputs[db.queue[q].input].nextRetry.value > now|)
  }

  ghost predicate OneRowEach(db: Db, origin: OriginFilter, n: nat) {
    forall i: nat :: i < n && Counted(db, origin, i) ==> |LatestRows(db.rebuilds, i)| == 1
  }

  /** There are at least as many rows as build inputs, and as many exactly if each input yields one. */
  lemma {:induction false} RowsPerInput(db: Db, origin: OriginFilter, n: nat)
    ensures forall row :: row in JoinRows(db, origin, n) ==> row.input < n
    ensures |JoinRows(db, origin, n)| >= |CountedInputs(db, origin, n)|
    ensures |JoinRows(db, origin, n)| == |CountedInputs(db, origin, n)| <==> OneRowEach(db, origin, n)
  {
    hide Counted, LatestRows;
    if n == 0 {
      assert CountedInputs(db, origin, 0) == {};
    } else {
      var m := n - 1;
      RowsPerInput(db, origin, m);
      if Counted(db, origin, m) {
        CountOneMore(db, origin, m);
      } else {
        assert CountedInputs(db, origin, n) == CountedInputs(db, origin, m);
        assert OneRowEach(db, origin, n) <==> OneRowEach(db, origin, m);
      }
    }
  }

  lemma CountOneMore(db: Db, origin: OriginFilter, m: nat)
    requires Counted(db, origin, m)
    requires forall row :: row in JoinRows(db, origin, m) ==> row.input < m
    ensures forall row :: row in JoinRows(db, origin, m + 1) ==> row.input < m + 1
    ensures |JoinRows(db, origin, m + 1)| == |JoinRows(db, origin, m)| + |LatestRows(db.rebuilds, m)|
    ensures |LatestRows(db.rebuilds, m)| >= 1
    ensures |CountedInputs(db, origin, m + 1)| == |CountedInputs(db, origin, m)| + 1
    ensures OneRowEach(db, origin, m + 1) <==> OneRowEach(db, origin, m) && |LatestRows(db.rebuilds, m)| == 1
  {
    hide Counted, LatestRows;
    var latest := LatestRows(db.rebuilds, m);
    SomeLatestRow(db.rebuilds, m);
    TaggedSize(m, latest);
    assert JoinRows(db, origin, m) !! Tagged(m, latest);
    assert CountedInputs(db, origin, m + 1) == CountedInputs(db, origin, m) + {m};
  }

  lemma {:induction false} TaggedSize(i: nat, rs: set<Option<nat>>)
    ensures |Tagged(i, rs)| == |rs|
    decreases rs
  {
    if rs != {} {
      var r :| r in rs;
      TaggedSize(i, rs - {r});
      assert Tagged(i, rs) == Tagged(i, rs - {r}) + {JoinRow(i, r)};
    }
  }

  /**
   The four sums add up to the number of rows; that is the number of seen build inputs in the filter
   exactly if each of them has all build times set, or has a single rebuild.
   */
  lemma SumsCountEveryInputOnceIff(db: Db, origin: OriginFilter)
    ensures var s := RebuildSums(db, origin);
            s.good + s.bad + s.fail + s.unknown == |CountedInputs(db, origin, |db.inputs|)|
            <==> forall i: nat :: i < |db.inputs| && Counted(db, origin, i) ==>
                   AllBuilt(db.rebuilds, RebuildIds(db.rebuilds, i)) || |RebuildIds(db.rebuilds, i)| == 1
  {
    hide JoinRows, CountedInputs, LatestRows, Counted, WithStatus;
    var rows := JoinRows(db, origin, |db.inputs|);
    StatusPartition(db, rows);
    RowsPerInput(db, origin, |db.inputs|);
    forall i: nat { OneLatestRowIff(db.rebuilds, i); }
  }

  lemma StatusPartition(db: Db, rows: set<JoinRow>)
    ensures |WithStatus(db, rows, Some(BuildStatus.Good))| + |WithStatus(db, rows, Some(BuildStatus.Bad))|
            + |WithStatus(db, rows, Some(BuildStatus.Fail))|
            + |WithStatus(db, rows, Some(BuildStatus.Unknown)) + WithStatus(db, rows, None)|
            == |rows|
  {
    hide StatusOf;
    forall row: JoinRow ensures IsStatus(StatusOf(db, row)) {
      StatusesAreFour(StatusOf(db, row));
    }
    FourParts(
      rows,
      WithStatus(db, rows, Some(BuildStatus.Good)),
      WithStatus(db, rows, Some(BuildStatus.Bad)),
      WithStatus(db, rows, Some(BuildStatus.Fail)),
      WithStatus(db, rows, Some(BuildStatus.Unknown)) + WithStatus(db, rows, None));
  }

  predicate IsStatus(s: Option<BuildStatus>) {
    || s == Some(BuildStatus.Good) || s == Some(BuildStatus.Bad) || s == Some(BuildStatus.Fail)
    || s == Some(BuildStatus.Unknown) || s == None
  }

  lemma StatusesAreFour(s: Option<BuildStatus>)
    ensures IsStatus(s)
  {
    match s
    case None =>
    case Some(Good) =>
    case Some(Bad) =>
    case Some(Fail) =>
    case Some(Unknown) =>
  }

  lemma FourParts<T>(all: set<T>, a: set<T>, b: set<T>, c: set<T>, d: set<T>)
    requires forall x :: x in all <==> x in a || x in b || x in c || x in d
    requires a !! b !! c !! d
    ensures |all| == |a| + |b| + |c| + |d|
  {
    assert all == a + b + c + d;
  }

  lemma CountedJobsHaveInputs(db: Db, origin: OriginFilter)
    ensures forall q :: CountedJob(db, origin, q) ==> db.queue[q].input < |db.inputs|
  {
  }

  /** Every job of a seen package in the filter is counted as exactly one of running, available, pending. */
  lemma JobCountsAddUp(db: Db, origin: OriginFilter, now: Time)
    ensures var s := JobCounts(db, origin, now);
            s.running + s.available + s.pending == |set q | q in db.queue && CountedJob(db, origin, q)|
  {
    hide Matches, Counted;
    assert forall q :: CountedJob(db, origin, q) ==> db.queue[q].input < |db.inputs| by {
      CountedJobsHaveInputs(db, origin);
    }
    var all := set q | q in db.queue && CountedJob(db, origin, q);
    var running := set q | q in db.queue && CountedJob(db, origin, q) && db.queue[q].worker.Some?;
    var available := set q | q in db.queue && CountedJob(db, origin, q) && db.queue[q].worker.None?
        && IsDue(db.inputs[db.queue[q].input], now);
    var pending := set q | q in db.queue && CountedJob(db, origin, q) && db.queue[q].worker.None?
        && db.inputs[db.queue[q].input].nextRetry.Some? && db.inputs[db.queue[q].input].nextRetry.value > now;
    FourParts(all, running, available, pending, {});
  }

  // ----- every reachable state -----

  predicate Built(r: Rebuild) {
    r.builtAt.Some?
  }

  ghost predicate EveryRebuildBuilt(rebuilds: seq<Rebuild>) {
    forall r :: 0 <= r < |rebuilds| ==> Built(rebuilds[r])
  }

  lemma {:induction false} CopyKeepsBuilt(db: Db, ids: seq<nat>, to: nat)
    requires EveryRebuildBuilt(db.rebuilds)
    ensures EveryRebuildBuilt(CopyRebuilds(db, ids, to).rebuilds)
  {
    if |ids| > 0 {
      CopyKeepsBuilt(db, ids[..|ids| - 1], to);
    }
  }

  lemma {:induction false} ImportKeepsBuilt(db: Db, env: Env, choices: seq<Choice>)
    requires EveryRebuildBuilt(db.rebuilds) && |choices| <= |env.report.packages|
    ensures EveryRebuildBuilt(ImportAll(db, env, choices).rebuilds)
  {
    hide Registered, InputOf, CopyRebuilds;
    if |choices| > 0 {
      var n := |choices| - 1;
      ImportKeepsBuilt(db, env, choices[..n]);
      var before := ImportAll(db, env, choices[..n]);
      var p := env.report.packages[n];
      CopyKeepsBuilt(Registered(before, env, p), choices[n].copyOrder, InputOf(before, env, p));
    }
  }

  lemma {:induction false} RequeueKeepsBuilt(db: Db, req: RebuildRequest, now: Time, order: seq<nat>)
    requires EveryRebuildBuilt(db.rebuilds)
    ensures EveryRebuildBuilt(RequeueAll(db, req, now, order).rebuilds)
  {
    hide IsQueued;
    if |order| > 0 {
      RequeueKeepsBuilt(db, req, now, order[..|order| - 1]);
    }
  }

  lemma ReportKeepsBuilt(db: Db, cfg: Config, q: nat, rep: Report, now: Time, order: seq<nat>)
    requires EveryRebuildBuilt(db.rebuilds)
    ensures EveryRebuildBuilt(Reported(db, cfg, q, rep, now, order).rebuilds)
  {
    hide FanOut, MaxRetries, IsQueued;
    if q in db.queue {
      var memo := MemoOf(rep.artifacts, db);
      var logged := db.(buildLogs := db.buildLogs + [rep.log],
                        diffoscopeLogs := db.diffoscopeLogs + memo.diffoscopes,
                        attestationLogs := db.attestationLogs + memo.attestations);
      FanOutRows(logged, db.queue[q], rep, |db.buildLogs|, memo.ids, order);
      assert EveryRebuildBuilt(Stored(db, db.queue[q], rep, order).rebuilds);
    }
  }

  /** Every rebuild of every reachable state has a build time, so the anti-join never leaves two rows. */
  lemma {:induction false} RunKeepsBuilt(cfg: Config, es: seq<Event>)
    requires IsRun(cfg, es)
    ensures EveryRebuildBuilt(Run(cfg, es).rebuilds)
  {
    if |es| > 0 {
      var n := |es| - 1;
      PrefixIsRun(cfg, es, n);
      RunKeepsBuilt(cfg, es[..n]);
      StepKeepsBuilt(Run(cfg, es[..n]), cfg, es[n]);
    }
  }

  lemma StepKeepsBuilt(db: Db, cfg: Config, e: Event)
    requires EveryRebuildBuilt(db.rebuilds)
    ensures EveryRebuildBuilt(Apply(db, cfg, e).rebuilds)
  {
    hide ImportAll, Reported, RequeueAll, EveryRebuildBuilt;
    match e
    case Import(packages, choices, now) =>
      if |choices| == |packages.packages| {
        ImportKeepsBuilt(MarkUnseen(db, packages), Env(cfg, packages, now), choices);
      }
    case SubmitReport(job, report, order, now) => ReportKeepsBuilt(db, cfg, job, report, now, order);
    case RequestRebuild(rebuild, order, now) => RequeueKeepsBuilt(db, rebuild, now, order);
    case _ =>
  }

  /** In every run the dashboard counts each seen build input in the filter exactly once. */
  lemma DashboardCountsEveryInputOnce(cfg: Config, es: seq<Event>, origin: OriginFilter)
    requires IsRun(cfg, es)
    ensures var db := Run(cfg, es);
            var s := RebuildSums(db, origin);
            s.good + s.bad + s.fail + s.unknown == |CountedInputs(db, origin, |db.inputs|)|
  {
    hide Run, CountedInputs, RebuildSums, Counted;
    var db := Run(cfg, es);
    RunKeepsBuilt(cfg, es);
    forall i: nat ensures AllBuilt(db.rebuilds, RebuildIds(db.rebuilds, i)) {
    }
    SumsCountEveryInputOnceIff(db, origin);
  }
}
