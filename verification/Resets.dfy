/** What manual requeues do to rebuild histories. */
module Resets {
  import opened Options
  import opened Collections
  import opened Rows
  import opened Friends
  import opened Queue
  import opened Histories

  /** An entry whose verdict has been forgotten. */
  function Cleared(e: Entry): Entry {
    e.(status := None, files := seq(|e.files|, f requires 0 <= f < |e.files| => e.files[f].(status := None)))
  }

  function ClearedRows(artifacts: seq<Artifact>, r: nat): (out: seq<Artifact>)
    ensures |out| == |artifacts|
  {
    seq(|artifacts|, a requires 0 <= a < |artifacts| =>
      if artifacts[a].rebuild == r then artifacts[a].(status := None) else artifacts[a])
  }

  /** The artifact rows of a rebuild after those of rebuild `r` were cleared. */
  lemma {:induction false} ArtifactsAfterClear(artifacts: seq<Artifact>, r: nat, k: nat)
    ensures ArtifactsOf(ClearedRows(artifacts, r), k)
            == if k == r then ClearedRows(ArtifactsOf(artifacts, k), r) else ArtifactsOf(artifacts, k)
  {
    if |artifacts| > 0 {
      var n := |artifacts| - 1;
      ArtifactsAfterClear(artifacts[..n], r, k);
      assert ClearedRows(artifacts, r)[..n] == ClearedRows(artifacts[..n], r);
    }
  }

  lemma ClearedEntryOf(rebuilds: seq<Rebuild>, artifacts: seq<Artifact>, r: nat)
    requires r < |rebuilds|
    ensures EntryOf(rebuilds[r].(status := None), ArtifactsOf(ClearedRows(artifacts, r), r))
            == Cleared(EntryAt(rebuilds, artifacts, r))
  {
    ArtifactsAfterClear(artifacts, r, r);
    var rows := ArtifactsOf(artifacts, r);
    assert forall a :: 0 <= a < |rows| ==> rows[a] in rows;
    assert FilesOf(ClearedRows(rows, r)) == Cleared(EntryOf(rebuilds[r], rows)).files;
  }

  lemma HistorySplits(rebuilds: seq<Rebuild>, artifacts: seq<Artifact>, input: nat)
    requires |rebuilds| > 0
    ensures var n := |rebuilds| - 1;
            History(rebuilds, artifacts, input)
            == History(rebuilds[..n], artifacts, input)
               + if rebuilds[n].input == input then [EntryOf(rebuilds[n], ArtifactsOf(artifacts, n))] else []
  {
    hide EntryOf, ArtifactsOf;
  }

  /** One entry `e` is cleared if `hit`, and nothing else changes but the order. */
  ghost predicate Replaced(before: seq<Entry>, after: seq<Entry>, e: Entry, hit: bool) {
    if hit then e in before && multiset(after) == multiset(before) - multiset{e} + multiset{Cleared(e)}
    else multiset(after) == multiset(before)
  }

  lemma ReplacedLast(history: seq<Entry>, e: Entry)
    ensures Replaced(history + [e], history + [Cleared(e)], e, true)
  {
    hide Cleared;
    assert (history + [e])[|history|] == e;
  }

  lemma ReplacedBefore(before: seq<Entry>, after: seq<Entry>, more: seq<Entry>, e: Entry, hit: bool)
    requires Replaced(before, after, e, hit)
    ensures Replaced(before + more, after + more, e, hit)
  {
    hide Cleared;
    assert multiset(before + more) == multiset(before) + multiset(more);
  }

  /** Clearing rebuild `r` replaces its entry in the history of its build input, and nothing else. */
  lemma {:induction false} HistoryAfterClear(rebuilds: seq<Rebuild>, artifacts: seq<Artifact>, r: nat, input: nat)
    requires r < |rebuilds|
    ensures Replaced(History(rebuilds, artifacts, input),
                     History(rebuilds[r := rebuilds[r].(status := None)], ClearedRows(artifacts, r), input),
                     EntryAt(rebuilds, artifacts, r), rebuilds[r].input == input)
  {
    hide EntryOf, ClearedRows, Cleared, ArtifactsOf, History, Replaced;
    var n := |rebuilds| - 1;
    var cleared, rows := rebuilds[r := rebuilds[r].(status := None)], ClearedRows(artifacts, r);
    HistorySplits(rebuilds, artifacts, input);
    HistorySplits(cleared, rows, input);
    var before := History(rebuilds[..n], artifacts, input);
    if r == n {
      forall k: nat | k != r ensures ArtifactsOf(rows, k) == ArtifactsOf(artifacts, k) {
        ArtifactsAfterClear(artifacts, r, k);
      }
      SameArtifactsSameHistory(rebuilds[..n], rows, artifacts, input);
      assert cleared[..n] == rebuilds[..n];
      ClearedEntryOf(rebuilds, artifacts, r);
      ReplacedLast(before, EntryAt(rebuilds, artifacts, r));
      NothingReplaced(before, EntryAt(rebuilds, artifacts, r));
    } else {
      HistoryAfterClear(rebuilds[..n], artifacts, r, input);
      assert cleared[..n] == rebuilds[..n][r := rebuilds[r].(status := None)];
      ArtifactsAfterClear(artifacts, r, n);
      var last := EntryOf(rebuilds[n], ArtifactsOf(artifacts, n));
      ReplacedBefore(before, History(cleared[..n], rows, input), if rebuilds[n].input == input then [last] else [],
                     EntryAt(rebuilds, artifacts, r), rebuilds[r].input == input);
    }
  }

  lemma NothingReplaced(history: seq<Entry>, e: Entry)
    ensures Replaced(history + [], history + [], e, false)
  {
  }

  // ----- one requeue -----

  /** The entry of the newest rebuild of a build input. */
  function LastEntry(db: Db, input: nat): Option<Entry> {
    var r := LastRebuild(db.rebuilds, input);
    if r < |db.rebuilds| then Some(EntryAt(db.rebuilds, db.artifacts, r)) else None
  }

  /** A history in which one entry, if any, is cleared. */
  ghost function WithCleared(history: multiset<Entry>, e: Option<Entry>): multiset<Entry> {
    if e.Some? then history - multiset{e.value} + multiset{Cleared(e.value)} else history
  }

  lemma ResetHistory(db: Db, input: nat, j: nat)
    ensures HistoryOf(Reset(db, input), j)
            == if j == input then WithCleared(HistoryOf(db, j), LastEntry(db, j)) else HistoryOf(db, j)
    ensures LastEntry(db, input).Some? ==> LastEntry(db, input).value in HistoryOf(db, input)
  {
    hide History, Cleared, LastRebuild, EntryAt;
    var r := LastRebuild(db.rebuilds, input);
    if r < |db.rebuilds| {
      assert Reset(db, input).artifacts == ClearedRows(db.artifacts, r);
      HistoryAfterClear(db.rebuilds, db.artifacts, r, j);
      HistoryAfterClear(db.rebuilds, db.artifacts, r, input);
    }
  }

  lemma ResetKeepsLastEntry(db: Db, input: nat, j: nat)
    requires j != input
    ensures LastEntry(Reset(db, input), j) == LastEntry(db, j)
  {
    hide LastRebuild, ArtifactsOf;
    var r, s := LastRebuild(db.rebuilds, input), LastRebuild(db.rebuilds, j);
    if r < |db.rebuilds| {
      LastRebuildAfterClear(db.rebuilds, r, j);
      assert Reset(db, input).artifacts == ClearedRows(db.artifacts, r);
      ArtifactsAfterClear(db.artifacts, r, s);
    }
  }

  lemma RequeueOneHistory(db: Db, req: RebuildRequest, now: Time, input: nat, j: nat)
    requires input < |db.inputs|
    ensures HistoryOf(RequeueOne(db, req, now, input), j)
            == if req.reset && j == input then WithCleared(HistoryOf(db, j), LastEntry(db, j)) else HistoryOf(db, j)
    ensures LastEntry(db, input).Some? ==> LastEntry(db, input).value in HistoryOf(db, input)
    ensures j != input ==> LastEntry(RequeueOne(db, req, now, input), j) == LastEntry(db, j)
    ensures |RequeueOne(db, req, now, input).inputs| == |db.inputs|
    ensures forall i :: 0 <= i < |db.inputs| ==> RequeueOne(db, req, now, input).inputs[i].cls == db.inputs[i].cls
  {
    hide History, IsQueued, WithCleared, LastRebuild, EntryAt, Reset;
    var d := if req.reset then Reset(db, input) else db;
    var out := RequeueOne(db, req, now, input);
    assert out.rebuilds == d.rebuilds && out.artifacts == d.artifacts;
    ResetHistory(db, input, j);
    ResetHistory(db, input, input);
    if j != input {
      ResetKeepsLastEntry(db, input, j);
    }
  }

  lemma {:induction false} LastRebuildAfterClear(rebuilds: seq<Rebuild>, r: nat, input: nat)
    requires r < |rebuilds|
    ensures LastRebuild(rebuilds[r := rebuilds[r].(status := None)], input) == LastRebuild(rebuilds, input)
  {
    var after := rebuilds[r := rebuilds[r].(status := None)];
    var a, b := LastRebuild(after, input), LastRebuild(rebuilds, input);
    assert forall k :: 0 <= k < |rebuilds| ==> after[k].input == rebuilds[k].input;
  }

  // ----- all of them -----

  /** After a requeue with reset, the newest entry of every selected input is cleared, and nothing else. */
  lemma {:induction false} RequeueAllHistory(db: Db, req: RebuildRequest, now: Time, order: seq<nat>, j: nat)
    requires forall i :: i in order ==> i < |db.inputs|
    requires forall a, b :: 0 <= a < b < |order| ==> order[a] != order[b]
    ensures |RequeueAll(db, req, now, order).inputs| == |db.inputs|
    ensures forall i :: 0 <= i < |db.inputs| ==>
              RequeueAll(db, req, now, order).inputs[i].cls == db.inputs[i].cls
    ensures HistoryOf(RequeueAll(db, req, now, order), j)
            == if req.reset && j in order then WithCleared(HistoryOf(db, j), LastEntry(db, j)) else HistoryOf(db, j)
    ensures j !in order ==> LastEntry(RequeueAll(db, req, now, order), j) == LastEntry(db, j)
  {
    hide HistoryOf, LastEntry, WithCleared, RequeueOne;
    if |order| > 0 {
      var n := |order| - 1;
      var before := RequeueAll(db, req, now, order[..n]);
      assert order == order[..n] + [order[n]] && order[n] !in order[..n];
      assert forall i :: i in order[..n] ==> i in order;
      RequeueAllHistory(db, req, now, order[..n], j);
      assert order[n] in order;
      RequeueOneHistory(before, req, now, order[n], j);
    }
  }

  /** The entry that a requeue really changes for this input. */
  function ResetEntry(db: Db, req: RebuildRequest, input: nat): Option<Entry> {
    var e := LastEntry(db, input);
    if req.reset && Selected(db, req, input) && e.Some? && Cleared(e.value) != e.value then e else None
  }

  /** The request changes the same entry for all friends, or nothing for any of them. */
  ghost predicate ResetsFriendsAlike(db: Db, req: RebuildRequest) {
    forall i, j :: 0 <= i < |db.inputs| && 0 <= j < |db.inputs| && db.inputs[i].cls == db.inputs[j].cls ==>
      ResetEntry(db, req, i) == ResetEntry(db, req, j)
  }

  /** Clearing different entries of one history gives different histories. */
  lemma ClearedAlikeIff(history: multiset<Entry>, a: Option<Entry>, b: Option<Entry>)
    requires a.Some? ==> a.value in history && Cleared(a.value) != a.value
    requires b.Some? ==> b.value in history && Cleared(b.value) != b.value
    ensures WithCleared(history, a) == WithCleared(history, b) <==> a == b
  {
    hide Cleared;
    if a.Some? && a != b {
      assert WithCleared(history, a)[a.value] == history[a.value] - 1;
      assert WithCleared(history, b)[a.value] >= history[a.value];
    }
    if b.Some? && a != b {
      assert WithCleared(history, b)[b.value] == history[b.value] - 1;
      assert WithCleared(history, a)[b.value] >= history[b.value];
    }
  }

  lemma RequeuedHistory(db: Db, req: RebuildRequest, now: Time, order: seq<nat>, j: nat)
    requires Enumerates(order, SelectedIds(db, req)) && j < |db.inputs|
    ensures HistoryOf(RequeueAll(db, req, now, order), j) == WithCleared(HistoryOf(db, j), ResetEntry(db, req, j))
    ensures ResetEntry(db, req, j).Some? ==> ResetEntry(db, req, j).value in HistoryOf(db, j)
    ensures |RequeueAll(db, req, now, order).inputs| == |db.inputs|
    ensures forall i :: 0 <= i < |db.inputs| ==>
              RequeueAll(db, req, now, order).inputs[i].cls == db.inputs[i].cls
  {
    hide HistoryOf, Cleared, Selected;
    RequeueAllHistory(db, req, now, order, j);
    RequeueOneHistory(db, req, now, j, j);
    assert j in order <==> Selected(db, req, j);
  }

  /** A manual requeue keeps the histories of all classes equal exactly if it changes the same entry for all friends. */
  lemma RequeueKeepsHistoriesIff(db: Db, req: RebuildRequest, now: Time, order: seq<nat>)
    requires EqualHistories(db) && Enumerates(order, SelectedIds(db, req))
    ensures EqualHistories(RequeueAll(db, req, now, order)) <==> ResetsFriendsAlike(db, req)
  {
    hide HistoryOf, ResetEntry, WithCleared, RequeueAll, SelectedIds, Cleared;
    var out := RequeueAll(db, req, now, order);
    forall i, j | 0 <= i < |db.inputs| && 0 <= j < |db.inputs| && db.inputs[i].cls == db.inputs[j].cls
      ensures HistoryOf(out, i) == HistoryOf(out, j) <==> ResetEntry(db, req, i) == ResetEntry(db, req, j)
    {
      FriendsAfterRequeue(db, req, now, order, i, j);
    }
    if |db.inputs| > 0 {
      RequeuedHistory(db, req, now, order, 0);
    } else {
      NothingToRequeue(db, req, now, order);
    }
  }

  lemma FriendsAfterRequeue(db: Db, req: RebuildRequest, now: Time, order: seq<nat>, i: nat, j: nat)
    requires Enumerates(order, SelectedIds(db, req)) && i < |db.inputs| && j < |db.inputs|
    requires HistoryOf(db, i) == HistoryOf(db, j)
    ensures HistoryOf(RequeueAll(db, req, now, order), i) == HistoryOf(RequeueAll(db, req, now, order), j)
            <==> ResetEntry(db, req, i) == ResetEntry(db, req, j)
  {
    hide HistoryOf, WithCleared, RequeueAll, SelectedIds, Selected, Cleared;
    RequeuedHistory(db, req, now, order, i);
    RequeuedHistory(db, req, now, order, j);
    ClearedAlikeIff(HistoryOf(db, i), ResetEntry(db, req, i), ResetEntry(db, req, j));
  }

  lemma NothingToRequeue(db: Db, req: RebuildRequest, now: Time, order: seq<nat>)
    requires |db.inputs| == 0 && Enumerates(order, SelectedIds(db, req))
    ensures RequeueAll(db, req, now, order) == db
  {
    FirstListed(order, SelectedIds(db, req));
  }
}
