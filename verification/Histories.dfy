/** Friends share their rebuild results: every member of a class has the same rebuild history. */
module Histories {
  import opened Options
  import opened Collections
  import opened Rows
  import opened Friends
  import opened BuildReport
  import opened PackageImport
  import opened ImportFacts
  import opened ReportFacts

  /** An artifact row without its address. */
  datatype File = File(
    name: string,
    diffoscope: Option<nat>,
    attestation: Option<nat>,
    status: Option<ArtifactStatus>)

  /** A rebuild row without its address, with its artifact rows. */
  datatype Entry = Entry(
    startedAt: Option<Time>,
    builtAt: Option<Time>,
    log: nat,
    status: Option<BuildStatus>,
    files: seq<File>)

  function FilesOf(rows: seq<Artifact>): seq<File> {
    seq(|rows|, a requires 0 <= a < |rows| =>
      File(rows[a].name, rows[a].diffoscope, rows[a].attestation, rows[a].status))
  }

  function EntryOf(r: Rebuild, rows: seq<Artifact>): Entry {
    Entry(r.startedAt, r.builtAt, r.log, r.status, FilesOf(rows))
  }

  /** The rebuilds of one build input, in id order. */
  function History(rebuilds: seq<Rebuild>, artifacts: seq<Artifact>, input: nat): seq<Entry> {
    if |rebuilds| == 0 then []
    else
      var n := |rebuilds| - 1;
      var before := History(rebuilds[..n], artifacts, input);
      if rebuilds[n].input == input then before + [EntryOf(rebuilds[n], ArtifactsOf(artifacts, n))] else before
  }

  ghost function HistoryOf(db: Db, input: nat): multiset<Entry> {
    multiset(History(db.rebuilds, db.artifacts, input))
  }

  ghost predicate EqualHistories(db: Db) {
    forall i, j :: 0 <= i < |db.inputs| && 0 <= j < |db.inputs| && db.inputs[i].cls == db.inputs[j].cls ==>
      HistoryOf(db, i) == HistoryOf(db, j)
  }

  // ----- appending rebuilds -----

  lemma {:induction false} SameArtifactsSameHistory(
      rebuilds: seq<Rebuild>, a: seq<Artifact>, b: seq<Artifact>, input: nat)
    requires forall r: nat :: r < |rebuilds| ==> ArtifactsOf(a, r) == ArtifactsOf(b, r)
    ensures History(rebuilds, a, input) == History(rebuilds, b, input)
  {
    if |rebuilds| > 0 {
      SameArtifactsSameHistory(rebuilds[..|rebuilds| - 1], a, b, input);
    }
  }

  ghost predicate ArtifactsBelong(rebuilds: seq<Rebuild>, artifacts: seq<Artifact>) {
    forall a :: a in artifacts ==> a.rebuild < |rebuilds|
  }

  /** One more rebuild with its artifact rows is one more entry for its input, and nothing for others. */
  lemma AppendRebuild(
      rebuilds: seq<Rebuild>, artifacts: seq<Artifact>, r: Rebuild, rows: seq<Artifact>, input: nat)
    requires ArtifactsBelong(rebuilds, artifacts)
    requires forall a :: a in rows ==> a.rebuild == |rebuilds|
    ensures ArtifactsBelong(rebuilds + [r], artifacts + rows)
    ensures History(rebuilds + [r], artifacts + rows, input)
            == History(rebuilds, artifacts, input) + if r.input == input then [EntryOf(r, rows)] else []
  {
    hide EntryOf;
    var n := |rebuilds|;
    forall k: nat ensures ArtifactsOf(artifacts + rows, k) == ArtifactsOf(artifacts, k) + if k == n then rows else [] {
      ArtifactsOfAppend(artifacts, rows, k);
      ArtifactsOfUniform(rows, n, k);
    }
    NoArtifactsYet(artifacts, n);
    assert ArtifactsOf(artifacts + rows, n) == rows;
    assert (rebuilds + [r])[..n] == rebuilds;
    SameArtifactsSameHistory(rebuilds, artifacts, artifacts + rows, input);
  }

  // ----- reports -----

  function ReportedEntry(job: Job, rep: Report, log: nat, ids: map<string, LogIds>): Entry
    requires forall x :: 0 <= x < |rep.artifacts| ==> rep.artifacts[x].name in ids
  {
    EntryOf(RebuildRow(job, 0, rep, log), ArtifactRows(0, rep.artifacts, ids))
  }

  lemma {:induction false} FanOutHistory(
      db: Db, job: Job, rep: Report, log: nat, ids: map<string, LogIds>, order: seq<nat>, input: nat)
    requires forall x :: 0 <= x < |rep.artifacts| ==> rep.artifacts[x].name in ids
    requires ArtifactsBelong(db.rebuilds, db.artifacts)
    requires forall i, j :: 0 <= i < j < |order| ==> order[i] != order[j]
    ensures ArtifactsBelong(FanOut(db, job, rep, log, ids, order).rebuilds,
                            FanOut(db, job, rep, log, ids, order).artifacts)
    ensures HistoryOf(FanOut(db, job, rep, log, ids, order), input)
            == HistoryOf(db, input) + if input in order then multiset{ReportedEntry(job, rep, log, ids)} else multiset{}
  {
    hide History, ArtifactsOf;
    if |order| > 0 {
      var n := |order| - 1;
      var before := FanOut(db, job, rep, log, ids, order[..n]);
      FanOutHistory(db, job, rep, log, ids, order[..n], input);
      var r, rows := RebuildRow(job, order[n], rep, log), ArtifactRows(|before.rebuilds|, rep.artifacts, ids);
      AppendRebuild(before.rebuilds, before.artifacts, r, rows, input);
      assert EntryOf(r, rows) == ReportedEntry(job, rep, log, ids);
      assert input in order <==> input in order[..n] || input == order[n];
      assert order[n] !in order[..n];
    }
  }

  lemma ReportKeepsHistories(db: Db, cfg: Config, q: nat, rep: Report, now: Time, order: seq<nat>)
    requires Valid(db) && EqualHistories(db)
    requires q in db.queue ==> Enumerates(order, FriendIds(db.inputs, JobClass(db, q)))
    ensures EqualHistories(Reported(db, cfg, q, rep, now, order))
  {
    hide Rescheduled, HistoryOf, FanOut, ReportedEntry;
    if q in db.queue {
      var job := db.queue[q];
      var memo := MemoOf(rep.artifacts, db);
      var start := db.(buildLogs := db.buildLogs + [rep.log],
                       diffoscopeLogs := db.diffoscopeLogs + memo.diffoscopes,
                       attestationLogs := db.attestationLogs + memo.attestations);
      var out := Reported(db, cfg, q, rep, now, order);
      ReschedulingKeepsHistories(Stored(db, job, rep, order), cfg, q, rep.status, now);
      StoringAddsRebuilds(db, job, rep, order);
      forall i | 0 <= i < |db.inputs|
        ensures HistoryOf(out, i) == HistoryOf(db, i)
                + if db.inputs[i].cls == JobClass(db, q) then
                    multiset{ReportedEntry(job, rep, |db.buildLogs|, memo.ids)}
                  else multiset{}
      {
        FanOutHistory(start, job, rep, |db.buildLogs|, memo.ids, order, i);
        SameTablesSameHistory(start, db, i);
        SameTablesSameHistory(out, Stored(db, job, rep, order), i);
      }
    }
  }

  lemma SameTablesSameHistory(a: Db, b: Db, input: nat)
    requires a.rebuilds == b.rebuilds && a.artifacts == b.artifacts
    ensures HistoryOf(a, input) == HistoryOf(b, input)
  {
  }

  /** Counting a failure, giving up and requeueing leave rebuilds, artifacts and classes alone. */
  lemma ReschedulingKeepsHistories(db: Db, cfg: Config, q: nat, status: BuildStatus, now: Time)
    requires q in db.queue && db.queue[q].input < |db.inputs|
    ensures Rescheduled(db, cfg, q, status, now).rebuilds == db.rebuilds
    ensures Rescheduled(db, cfg, q, status, now).artifacts == db.artifacts
    ensures |Rescheduled(db, cfg, q, status, now).inputs| == |db.inputs|
    ensures forall i :: 0 <= i < |db.inputs| ==> Rescheduled(db, cfg, q, status, now).inputs[i].cls == db.inputs[i].cls
  {
    hide MaxRetries, IsQueued;
  }

  lemma StoringAddsRebuilds(db: Db, job: Job, rep: Report, order: seq<nat>)
    ensures Stored(db, job, rep, order).inputs == db.inputs && Stored(db, job, rep, order).queue == db.queue
  {
    hide MemoOf;
  }

  // ----- copying -----

  ghost predicate AllBelow(ids: seq<nat>, n: nat) {
    forall k :: 0 <= k < |ids| ==> ids[k] < n
  }

  function EntryAt(rebuilds: seq<Rebuild>, artifacts: seq<Artifact>, id: nat): Entry
    requires id < |rebuilds|
  {
    EntryOf(rebuilds[id], ArtifactsOf(artifacts, id))
  }

  /** The entries of the listed rebuilds. */
  ghost function Entries(rebuilds: seq<Rebuild>, artifacts: seq<Artifact>, ids: seq<nat>): (es: seq<Entry>)
    requires AllBelow(ids, |rebuilds|)
    ensures |es| == |ids|
    ensures forall k :: 0 <= k < |ids| ==> es[k] == EntryAt(rebuilds, artifacts, ids[k])
  {
    seq(|ids|, k requires 0 <= k < |ids| => EntryAt(rebuilds, artifacts, ids[k]))
  }

  lemma EntriesRemove(rebuilds: seq<Rebuild>, artifacts: seq<Artifact>, ids: seq<nat>, k: nat)
    requires AllBelow(ids, |rebuilds|) && k < |ids|
    ensures AllBelow(ids[..k] + ids[k + 1..], |rebuilds|)
    ensures multiset(Entries(rebuilds, artifacts, ids))
            == multiset(Entries(rebuilds, artifacts, ids[..k] + ids[k + 1..]))
               + multiset{EntryAt(rebuilds, artifacts, ids[k])}
  {
    hide EntryAt;
    var es := Entries(rebuilds, artifacts, ids);
    assert Entries(rebuilds, artifacts, ids[..k] + ids[k + 1..]) == es[..k] + es[k + 1..];
    assert es == es[..k] + [es[k]] + es[k + 1..];
  }

  lemma EntriesPrefix(rebuilds: seq<Rebuild>, artifacts: seq<Artifact>, ids: seq<nat>, n: nat)
    requires n <= |rebuilds| && AllBelow(ids, n)
    ensures AllBelow(ids, |rebuilds|) && Entries(rebuilds[..n], artifacts, ids) == Entries(rebuilds, artifacts, ids)
  {
  }

  /** Whatever the order in which they are listed, the rebuilds of an input make up its history. */
  lemma {:induction false} EntriesAreHistory(
      rebuilds: seq<Rebuild>, artifacts: seq<Artifact>, ids: seq<nat>, input: nat)
    requires Enumerates(ids, RebuildIds(rebuilds, input))
    ensures AllBelow(ids, |rebuilds|)
    ensures multiset(Entries(rebuilds, artifacts, ids)) == multiset(History(rebuilds, artifacts, input))
  {
    hide EntryOf, Entries;
    assert forall k :: 0 <= k < |ids| ==> ids[k] in RebuildIds(rebuilds, input);
    if |rebuilds| > 0 {
      var n := |rebuilds| - 1;
      if rebuilds[n].input != input {
        assert RebuildIds(rebuilds[..n], input) == RebuildIds(rebuilds, input);
        EntriesAreHistory(rebuilds[..n], artifacts, ids, input);
        EntriesPrefix(rebuilds, artifacts, ids, n);
      } else {
        assert n in RebuildIds(rebuilds, input);
        var k :| 0 <= k < |ids| && ids[k] == n;
        var rest := ids[..k] + ids[k + 1..];
        RemoveOne(ids, k, RebuildIds(rebuilds, input));
        assert RebuildIds(rebuilds[..n], input) == RebuildIds(rebuilds, input) - {n};
        EntriesAreHistory(rebuilds[..n], artifacts, rest, input);
        EntriesPrefix(rebuilds, artifacts, rest, n);
        EntriesRemove(rebuilds, artifacts, ids, k);
      }
    }
  }

  lemma RemoveOne(ids: seq<nat>, k: nat, all: set<nat>)
    requires Enumerates(ids, all) && k < |ids|
    ensures Enumerates(ids[..k] + ids[k + 1..], all - {ids[k]})
  {
  }

  lemma {:induction false} CopyHistory(db: Db, ids: seq<nat>, to: nat, input: nat)
    requires ArtifactsBelong(db.rebuilds, db.artifacts) && AllBelow(ids, |db.rebuilds|)
    ensures ArtifactsBelong(CopyRebuilds(db, ids, to).rebuilds, CopyRebuilds(db, ids, to).artifacts)
    ensures History(CopyRebuilds(db, ids, to).rebuilds, CopyRebuilds(db, ids, to).artifacts, input)
            == History(db.rebuilds, db.artifacts, input)
               + if input == to then Entries(db.rebuilds, db.artifacts, ids) else []
  {
    hide History, ArtifactsOf;
    if |ids| > 0 {
      var n := |ids| - 1;
      var before := CopyRebuilds(db, ids[..n], to);
      CopyHistory(db, ids[..n], to, input);
      var r, rows := db.rebuilds[ids[n]].(input := to), CopiedArtifacts(db.artifacts, ids[n], |before.rebuilds|);
      AppendRebuild(before.rebuilds, before.artifacts, r, rows, input);
      assert EntryOf(r, rows) == EntryAt(db.rebuilds, db.artifacts, ids[n]);
      assert Entries(db.rebuilds, db.artifacts, ids)
          == Entries(db.rebuilds, db.artifacts, ids[..n]) + [EntryOf(r, rows)];
    }
  }

  // ----- imports -----

  ghost predicate HasResults(db: Db, cls: Class) {
    exists r :: 0 <= r < |db.rebuilds| && InClass(db.inputs, db.rebuilds[r].input, cls)
  }

  /** A class that has results already gains a build input, but not through a new source package. */
  ghost predicate JoinsLate(db: Db, env: Env, p: PackageReport) {
    && !IsNewPackage(db, env, p)
    && InputOf(db, env, p) == |db.inputs|
    && HasResults(db, ClassOf(env, p))
  }

  lemma ReferencesGiveArtifacts(db: Db)
    requires ReferencesHold(db)
    ensures ArtifactsBelong(db.rebuilds, db.artifacts)
  {
  }

  lemma {:induction false} NoRebuildNoHistory(rebuilds: seq<Rebuild>, artifacts: seq<Artifact>, input: nat)
    ensures History(rebuilds, artifacts, input) == [] <==> RebuildIds(rebuilds, input) == {}
  {
    if |rebuilds| > 0 {
      var n := |rebuilds| - 1;
      NoRebuildNoHistory(rebuilds[..n], artifacts, input);
      if rebuilds[n].input == input {
        assert n in RebuildIds(rebuilds, input);
      } else {
        assert RebuildIds(rebuilds[..n], input) == RebuildIds(rebuilds, input);
      }
    }
  }

  /** After the upserts: old inputs keep their history, and a new input has none. */
  lemma RegisteredHistories(db: Db, env: Env, p: PackageReport, i: nat)
    requires Valid(db)
    ensures HistoryOf(Registered(db, env, p), i) == HistoryOf(db, i)
    ensures i >= |db.inputs| ==> HistoryOf(db, i) == multiset{}
  {
    if i >= |db.inputs| {
      NoRebuildNoHistory(db.rebuilds, db.artifacts, i);
      assert RebuildIds(db.rebuilds, i) == {};
    }
  }

  lemma EmptyEnumeration(order: seq<nat>)
    requires Enumerates(order, {})
    ensures order == []
  {
    FirstListed(order, {});
  }

  lemma FirstListed(order: seq<nat>, ids: set<nat>)
    requires Enumerates(order, ids)
    ensures order == [] || order[0] in ids
  {
  }

  lemma EnqueuedKeepsRebuilds(db: Db, env: Env, input: nat, status: BuildStatus)
    ensures Enqueued(db, env, input, status).rebuilds == db.rebuilds
    ensures Enqueued(db, env, input, status).artifacts == db.artifacts
  {
  }

  /** The import of one package changes at most the history of its own build input. */
  lemma ImportOneHistories(db: Db, env: Env, p: PackageReport, c: Choice, i: nat)
    requires Valid(db) && LegalChoice(db, env, p, c)
    ensures HistoryOf(ImportOne(db, env, p, c), i)
            == if i == InputOf(db, env, p) && IsNewPackage(db, env, p)
                  && LowestFriend(Registered(db, env, p).inputs, ClassOf(env, p), i) < |Registered(db, env, p).inputs|
               then HistoryOf(db, LowestFriend(Registered(db, env, p).inputs, ClassOf(env, p), i))
               else HistoryOf(db, i)
  {
    hide History, EntryAt, Enqueued, LowestFriend, Registered;
    var input, isNew := InputOf(db, env, p), IsNewPackage(db, env, p);
    var registered := Registered(db, env, p);
    var f := LowestFriend(registered.inputs, ClassOf(env, p), input);
    RegisteredIsValid(db, env, p);
    RegisteredHistories(db, env, p, i);
    ReferencesGiveArtifacts(registered);
    var out := Inherited(registered, isNew, c.copyOrder, input);
    EnqueuedKeepsRebuilds(out, env, input, c.status);
    assert HistoryOf(ImportOne(db, env, p, c), i) == HistoryOf(out, i);
    if isNew {
      if f < |registered.inputs| {
        EntriesAreHistory(registered.rebuilds, registered.artifacts, c.copyOrder, f);
      } else {
        EmptyEnumeration(c.copyOrder);
      }
      CopyHistory(registered, c.copyOrder, input, i);
      if i == input {
        assert input == |db.inputs|;
        RegisteredHistories(db, env, p, f);
      }
    }
  }

  lemma SomeRebuildSomeHistory(db: Db, r: nat)
    requires r < |db.rebuilds|
    ensures HistoryOf(db, db.rebuilds[r].input) != multiset{}
  {
    var input := db.rebuilds[r].input;
    NoRebuildNoHistory(db.rebuilds, db.artifacts, input);
    assert r in RebuildIds(db.rebuilds, input);
    assert History(db.rebuilds, db.artifacts, input)[0] in HistoryOf(db, input);
  }

  lemma NoClassRebuildNoHistory(db: Db, cls: Class, i: nat)
    requires InClass(db.inputs, i, cls) && !HasResults(db, cls)
    ensures HistoryOf(db, i) == multiset{}
  {
    NoRebuildNoHistory(db.rebuilds, db.artifacts, i);
    assert RebuildIds(db.rebuilds, i) == {};
  }

  /** The history that a newly added build input starts with. */
  lemma NewInputHistory(db: Db, env: Env, p: PackageReport, c: Choice, j: nat)
    requires Valid(db) && LegalChoice(db, env, p, c) && EqualHistories(db) && !JoinsLate(db, env, p)
    requires InputOf(db, env, p) == |db.inputs| && InClass(db.inputs, j, ClassOf(env, p))
    ensures HistoryOf(ImportOne(db, env, p, c), |db.inputs|) == HistoryOf(db, j)
  {
    hide ImportOne, LegalChoice, HistoryOf;
    var n, cls := |db.inputs|, ClassOf(env, p);
    var registered := Registered(db, env, p);
    ImportOneHistories(db, env, p, c, n);
    if IsNewPackage(db, env, p) {
      var f := LowestFriend(registered.inputs, cls, n);
      assert registered.inputs[j].cls == cls;
      assert f < n && db.inputs[f].cls == cls;
    } else {
      NoClassRebuildNoHistory(db, cls, j);
      RegisteredHistories(db, env, p, n);
    }
  }

  /** Importing a package keeps the histories of all classes equal exactly if it does not join late. */
  lemma ImportOneKeepsHistoriesIff(db: Db, env: Env, p: PackageReport, c: Choice)
    requires Valid(db) && LegalChoice(db, env, p, c) && EqualHistories(db)
    ensures EqualHistories(ImportOne(db, env, p, c)) <==> !JoinsLate(db, env, p)
  {
    hide ImportOne, LegalChoice, HistoryOf, Valid, AddsJob;
    var out, n, cls := ImportOne(db, env, p, c), |db.inputs|, ClassOf(env, p);
    ImportOneEffect(db, env, p, c);
    RegisteredIsValid(db, env, p);
    ImportOneInputs(db, env, p, c);
    forall i | 0 <= i < n ensures HistoryOf(out, i) == HistoryOf(db, i) {
      ImportOneHistories(db, env, p, c, i);
    }
    if JoinsLate(db, env, p) {
      var r :| 0 <= r < |db.rebuilds| && InClass(db.inputs, db.rebuilds[r].input, cls);
      SomeRebuildSomeHistory(db, r);
      ImportOneHistories(db, env, p, c, n);
      RegisteredHistories(db, env, p, n);
      assert out.inputs[n].cls == out.inputs[db.rebuilds[r].input].cls;
    } else if InputOf(db, env, p) == n {
      forall j | 0 <= j < n && db.inputs[j].cls == cls ensures HistoryOf(out, n) == HistoryOf(out, j) {
        NewInputHistory(db, env, p, c, j);
      }
    }
  }

  lemma ImportOneInputs(db: Db, env: Env, p: PackageReport, c: Choice)
    requires Valid(db)
    ensures |ImportOne(db, env, p, c).inputs| == |db.inputs| + if InputOf(db, env, p) == |db.inputs| then 1 else 0
    ensures InClass(ImportOne(db, env, p, c).inputs, InputOf(db, env, p), ClassOf(env, p))
    ensures IsNewPackage(db, env, p) ==> InputOf(db, env, p) == |db.inputs|
  {
    RegisteredIsValid(db, env, p);
  }

  lemma SameRebuildsSameHistories(before: Db, after: Db)
    requires EqualHistories(before)
    requires after.rebuilds == before.rebuilds && after.artifacts == before.artifacts
    requires |after.inputs| == |before.inputs|
    requires forall i :: 0 <= i < |before.inputs| ==> after.inputs[i].cls == before.inputs[i].cls
    ensures EqualHistories(after)
  {
  }

  lemma SameRebuildsSameHistoriesIff(before: Db, after: Db)
    requires after.rebuilds == before.rebuilds && after.artifacts == before.artifacts
    requires |after.inputs| == |before.inputs|
    requires forall i :: 0 <= i < |before.inputs| ==> after.inputs[i].cls == before.inputs[i].cls
    ensures EqualHistories(after) <==> EqualHistories(before)
  {
    if EqualHistories(before) {
      SameRebuildsSameHistories(before, after);
    } else {
      var i, j :| 0 <= i < |before.inputs| && 0 <= j < |before.inputs| && before.inputs[i].cls == before.inputs[j].cls
                  && HistoryOf(before, i) != HistoryOf(before, j);
      assert HistoryOf(after, i) != HistoryOf(after, j);
    }
  }
}
