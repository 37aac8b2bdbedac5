/** What each number on the dashboard counts. */
module DashboardSums {
  import opened Options
  import opened Rows
  import opened PackageImport
  import opened Queue
  import opened Runs
  import opened Dashboard
  import opened ImportReads
  import opened RequeueEffects

  /** A build input of a seen package that fits the origin filter. */
  predicate IsShown(db: Db, origin: OriginFilter, i: nat) {
    FitsOrigin(db, origin, i) && db.sources[db.inputs[i].source].seen
  }

  /** The last rebuild to be built, the one with the highest id if several were built at that time. */
  ghost predicate IsShownRebuild(rebuilds: seq<Rebuild>, i: nat, r: nat) {
    && IsRebuildOf(rebuilds, i, r) && rebuilds[r].builtAt.Some?
    && forall o: nat :: IsRebuildOf(rebuilds, i, o) && rebuilds[o].builtAt.Some? ==>
         || rebuilds[o].builtAt.value < rebuilds[r].builtAt.value
         || (rebuilds[o].builtAt == rebuilds[r].builtAt && o <= r)
  }

  ghost predicate ShowsStatus(db: Db, i: nat, status: Option<BuildStatus>) {
    || (exists r: nat :: IsShownRebuild(db.rebuilds, i, r) && db.rebuilds[r].status == status)
    || (status == None && forall r: nat :: !IsRebuildOf(db.rebuilds, i, r))
  }

  /** The first `n` build inputs, as far as they are shown with this status. */
  ghost function Showing(db: Db, origin: OriginFilter, n: nat, status: Option<BuildStatus>): set<nat> {
    set i: nat | 0 <= i < n && IsShown(db, origin, i) && ShowsStatus(db, i, status)
  }

  lemma ShownIsCounted(db: Db, origin: OriginFilter, i: nat)
    ensures Counted(db, origin, i) <==> IsShown(db, origin, i)
  {
    FitsIsMatch(db, origin, IdentityFilter(None, Exact, None), i);
  }

  lemma OneRowShown(db: Db, i: nat) returns (row: JoinRow)
    requires EveryRebuildBuilt(db.rebuilds)
    ensures Tagged(i, LatestRows(db.rebuilds, i)) == {row} && row.input == i
    ensures forall status :: StatusOf(db, row) == status <==> ShowsStatus(db, i, status)
  {
    var ids := RebuildIds(db.rebuilds, i);
    assert forall r: nat :: r in ids <==> IsRebuildOf(db.rebuilds, i, r);
    assert forall r: nat :: r in ids ==> Built(db.rebuilds[r]);
    if ids == {} {
      row := JoinRow(i, None);
    } else {
      var r := LatestRowIsLatest(db.rebuilds, i);
      row := JoinRow(i, Some(r));
      assert forall o: nat :: IsShownRebuild(db.rebuilds, i, o) <==> o == r;
    }
  }

  lemma AddedRow(db: Db, rows: set<JoinRow>, row: JoinRow, status: Option<BuildStatus>)
    requires row !in rows
    ensures |WithStatus(db, rows + {row}, status)|
            == |WithStatus(db, rows, status)| + if StatusOf(db, row) == status then 1 else 0
  {
    hide StatusOf;
    var before, after := WithStatus(db, rows, status), WithStatus(db, rows + {row}, status);
    if StatusOf(db, row) == status {
      assert after == before + {row} && row !in before;
    } else {
      assert after == before;
    }
  }

  lemma ShowingOneMore(db: Db, origin: OriginFilter, m: nat, status: Option<BuildStatus>)
    ensures |Showing(db, origin, m + 1, status)|
            == |Showing(db, origin, m, status)| + if IsShown(db, origin, m) && ShowsStatus(db, m, status) then 1 else 0
  {
    hide IsShown, ShowsStatus;
    var before, after := Showing(db, origin, m, status), Showing(db, origin, m + 1, status);
    if IsShown(db, origin, m) && ShowsStatus(db, m, status) {
      assert after == before + {m} && m !in before;
    } else {
      assert after == before;
    }
  }

  lemma {:induction false} RowsWithStatus(db: Db, origin: OriginFilter, n: nat, status: Option<BuildStatus>)
    requires EveryRebuildBuilt(db.rebuilds)
    ensures |WithStatus(db, JoinRows(db, origin, n), status)| == |Showing(db, origin, n, status)|
    ensures forall row :: row in JoinRows(db, origin, n) ==> row.input < n
  {
    hide Counted, IsShown, LatestRows, StatusOf, ShowsStatus, Tagged;
    if n == 0 {
      assert WithStatus(db, JoinRows(db, origin, n), status) == {} && Showing(db, origin, n, status) == {};
    } else {
      var m := n - 1;
      var rows := JoinRows(db, origin, m);
      hide Showing, WithStatus;
      RowsWithStatus(db, origin, m, status);
      ShownIsCounted(db, origin, m);
      var row := OneRowShown(db, m);
      ShowingOneMore(db, origin, m, status);
      assert row !in rows;
      AddedRow(db, rows, row, status);
      assert JoinRows(db, origin, n) == if Counted(db, origin, m) then rows + {row} else rows;
    }
  }

  /** In every run each sum counts the seen build inputs in the filter whose last rebuild has that status. */
  lemma SumsAre(cfg: Config, es: seq<Event>, origin: OriginFilter)
    requires IsRun(cfg, es)
    ensures var db, n := Run(cfg, es), |Run(cfg, es).inputs|;
            var s := RebuildSums(db, origin);
            && s.good == |Showing(db, origin, n, Some(BuildStatus.Good))|
            && s.bad == |Showing(db, origin, n, Some(BuildStatus.Bad))|
            && s.fail == |Showing(db, origin, n, Some(BuildStatus.Fail))|
            && s.unknown == |Showing(db, origin, n, Some(BuildStatus.Unknown))| + |Showing(db, origin, n, None)|
  {
    hide Run, IsRun, JoinRows, Showing, StatusOf;
    var db, n := Run(cfg, es), |Run(cfg, es).inputs|;
    RunKeepsBuilt(cfg, es);
    RowsWithStatus(db, origin, n, Some(BuildStatus.Good));
    RowsWithStatus(db, origin, n, Some(BuildStatus.Bad));
    RowsWithStatus(db, origin, n, Some(BuildStatus.Fail));
    RowsWithStatus(db, origin, n, Some(BuildStatus.Unknown));
    RowsWithStatus(db, origin, n, None);
    assert WithStatus(db, JoinRows(db, origin, n), Some(BuildStatus.Unknown)) !!
           WithStatus(db, JoinRows(db, origin, n), None);
  }

  /** Jobs of shown build inputs that are held; that may be handed out; that wait for their next retry. */
  ghost predicate IsRunning(db: Db, origin: OriginFilter, now: Time, q: nat) {
    q in db.queue && IsShown(db, origin, db.queue[q].input) && db.queue[q].worker.Some?
  }

  ghost predicate IsWaiting(db: Db, origin: OriginFilter, now: Time, q: nat) {
    && q in db.queue && IsShown(db, origin, db.queue[q].input) && db.queue[q].worker == None
    && db.queue[q].input < |db.inputs| && db.inputs[db.queue[q].input].nextRetry.Some?
    && now < db.inputs[db.queue[q].input].nextRetry.value
  }

  lemma JobCountsAre(db: Db, origin: OriginFilter, now: Time)
    ensures var s := JobCounts(db, origin, now);
            && s.running == |set q | q in db.queue && IsRunning(db, origin, now, q)|
            && s.pending == |set q | q in db.queue && IsWaiting(db, origin, now, q)|
            && s.available == |set q | q in db.queue && IsShown(db, origin, db.queue[q].input)
                                       && !IsRunning(db, origin, now, q) && !IsWaiting(db, origin, now, q)|
  {
    hide Counted, IsShown;
    forall i: nat {
      ShownIsCounted(db, origin, i);
    }
    CountedJobsHaveInputs(db, origin);
    var s := JobCounts(db, origin, now);
    assert (set q | q in db.queue && CountedJob(db, origin, q) && db.queue[q].worker.Some?)
        == set q | q in db.queue && IsRunning(db, origin, now, q);
    assert (set q | q in db.queue && CountedJob(db, origin, q) && db.queue[q].worker.None?
                && db.inputs[db.queue[q].input].nextRetry.Some? && db.inputs[db.queue[q].input].nextRetry.value > now)
        == set q | q in db.queue && IsWaiting(db, origin, now, q);
    assert (set q | q in db.queue && CountedJob(db, origin, q) && db.queue[q].worker.None?
                && IsDue(db.inputs[db.queue[q].input], now))
        == set q | q in db.queue && IsShown(db, origin, db.queue[q].input)
               && !IsRunning(db, origin, now, q) && !IsWaiting(db, origin, now, q);
  }
}
