/** What manual requeues and drops do, row by row. */
module RequeueEffects {
  import opened Options
  import opened Rows
  import opened Friends
  import opened Search
  import opened Queue
  import opened Runs
  import opened Invariants
  import opened WorkEffects

  // ----- what a request selects -----

  /** No rebuild of the build input has a higher id. */
  ghost predicate IsNewest(db: Db, i: nat, r: nat) {
    && r < |db.rebuilds| && db.rebuilds[r].input == i
    && forall o :: r < o < |db.rebuilds| ==> db.rebuilds[o].input != i
  }

  predicate FitsOrigin(db: Db, origin: OriginFilter, i: nat) {
    && i < |db.inputs| && db.inputs[i].source < |db.sources|
    && var scope := db.sources[db.inputs[i].source].identity.scope;
       && (origin.distribution.Some? ==> scope.distribution == origin.distribution.value)
       && (origin.release == Some("") ==> scope.release == None)
       && (origin.release.Some? && origin.release != Some("") ==> scope.release == origin.release)
       && (origin.component == Some("") || origin.component == Some("null") ==> scope.component == None)
       && (origin.component.Some? && origin.component != Some("") && origin.component != Some("null") ==>
             scope.component == origin.component)
       && (origin.architecture.Some? ==> db.inputs[i].cls.architecture == origin.architecture.value)
  }

  predicate FitsIdentity(db: Db, identity: IdentityFilter, i: nat) {
    && i < |db.inputs| && db.inputs[i].source < |db.sources|
    && var found := db.sources[db.inputs[i].source].identity;
       && (identity.version.Some? ==> found.version == identity.version.value)
       && (identity.name.Some? && identity.search == Exact ==> found.name == identity.name.value)
       && (identity.name.Some? && identity.search == StartsWith ==> Like(identity.name.value + "%", found.name))
       && (identity.name.Some? && identity.search == SearchType.Contains ==>
             Like("%" + identity.name.value + "%", found.name))
  }

  /** UNKWN asks for inputs whose newest rebuild, if any, has no status. */
  ghost predicate FitsStatus(db: Db, status: Option<BuildStatus>, i: nat) {
    && (status == Some(BuildStatus.Unknown) ==> forall r: nat :: IsNewest(db, i, r) ==> db.rebuilds[r].status == None)
    && (status.Some? && status != Some(BuildStatus.Unknown) ==>
          exists r: nat :: IsNewest(db, i, r) && db.rebuilds[r].status == status)
  }

  ghost predicate IsRequested(db: Db, req: RebuildRequest, i: nat) {
    && FitsOrigin(db, req.origin, i) && FitsIdentity(db, req.identity, i) && FitsStatus(db, req.status, i)
    && (req.identity.name == None ==> db.sources[db.inputs[i].source].seen)
    && exists b :: 0 <= b < |db.binaries| && db.binaries[b].source == db.inputs[i].source
  }

  lemma NewestIsLast(db: Db, i: nat)
    ensures forall r: nat :: IsNewest(db, i, r) <==> r == LastRebuild(db.rebuilds, i) && r < |db.rebuilds|
  {
    hide LastRebuild;
  }

  lemma FitsIsMatch(db: Db, origin: OriginFilter, identity: IdentityFilter, i: nat)
    ensures Matches(db, origin, identity, i) <==> FitsOrigin(db, origin, i) && FitsIdentity(db, identity, i)
  {
    hide Like;
  }

  lemma RequestedIsSelected(db: Db, req: RebuildRequest, i: nat)
    ensures i < |db.inputs| && Selected(db, req, i) <==> IsRequested(db, req, i)
  {
    hide Matches, LastRebuild, FitsOrigin, FitsIdentity;
    FitsIsMatch(db, req.origin, req.identity, i);
    FitsHasInput(db, req, i);
    NewestIsLast(db, i);
  }

  lemma FitsHasInput(db: Db, req: RebuildRequest, i: nat)
    ensures FitsOrigin(db, req.origin, i) ==> i < |db.inputs| && db.inputs[i].source < |db.sources|
  {
  }

  // ----- what it changes -----

  function PriorityOf(req: RebuildRequest): int {
    if req.priority.Some? then req.priority.value else 0
  }

  ghost predicate InputsRequeued(db: Db, out: Db, ids: seq<nat>, now: Time) {
    && |out.inputs| == |db.inputs|
    && forall i :: 0 <= i < |db.inputs| ==>
         out.inputs[i] == if i in ids then db.inputs[i].(nextRetry := Some(now - 60)) else db.inputs[i]
  }

  /** Rows stay, those of requested inputs at the new priority; requested inputs without a row get a free one. */
  ghost predicate RowsRequeued(db: Db, out: Db, ids: seq<nat>, priority: int, now: Time) {
    && db.nextJob <= out.nextJob
    && (forall q :: q in db.queue ==>
          && q in out.queue
          && out.queue[q] == if db.queue[q].input in ids then db.queue[q].(priority := priority) else db.queue[q])
    && (forall q :: q in out.queue && q !in db.queue ==>
          && db.nextJob <= q && out.queue[q].input in ids && !IsQueued(db.queue, out.queue[q].input)
          && out.queue[q] == Job(out.queue[q].input, priority, now, None, None, None))
    && (forall i :: i in ids ==> IsQueued(out.queue, i))
  }

  lemma UpsertEffect(db: Db, input: nat, priority: int, now: Time)
    requires forall q :: q in db.queue ==> q < db.nextJob
    ensures RowsRequeued(db, UpsertJob(db, input, priority, now), [input], priority, now)
  {
    var out := UpsertJob(db, input, priority, now);
    if IsQueued(db.queue, input) {
      var q: nat :| q in db.queue && db.queue[q].input == input;
      assert q in out.queue && out.queue[q].input == input;
    } else {
      assert out.queue[db.nextJob].input == input;
      assert forall q :: q in db.queue ==> db.queue[q].input != input;
    }
  }

  lemma RequeueOneEffect(db: Db, req: RebuildRequest, now: Time, input: nat)
    requires Valid(db) && input < |db.inputs|
    ensures InputsRequeued(db, RequeueOne(db, req, now, input), [input], now)
    ensures RowsRequeued(db, RequeueOne(db, req, now, input), [input], PriorityOf(req), now)
  {
    hide Reset, KeysUnique, IsQueued;
    var at := db.(inputs := db.inputs[input := db.inputs[input].(nextRetry := Some(now - 60))]);
    UpsertEffect(at, input, PriorityOf(req), now);
    var out, same := RequeueOne(db, req, now, input), UpsertJob(at, input, PriorityOf(req), now);
    assert out.queue == same.queue && out.nextJob == same.nextJob;
  }

  lemma {:induction false} RequeueAllEffect(db: Db, req: RebuildRequest, now: Time, order: seq<nat>)
    requires Valid(db) && forall i :: i in order ==> i < |db.inputs|
    ensures InputsRequeued(db, RequeueAll(db, req, now, order), order, now)
    ensures RowsRequeued(db, RequeueAll(db, req, now, order), order, PriorityOf(req), now)
  {
    hide RequeueOne, Valid, RowsRequeued, PriorityOf;
    if |order| == 0 {
      NothingRequeued(db, order, PriorityOf(req), now);
    } else {
      var n := |order| - 1;
      var before := RequeueAll(db, req, now, order[..n]);
      assert order == order[..n] + [order[n]] && order[n] in order;
      assert forall i :: i in order[..n] ==> i in order;
      RequeueAllIsValid(db, req, now, order[..n]);
      RequeueAllEffect(db, req, now, order[..n]);
      RequeueOneEffect(before, req, now, order[n]);
      RowsRequeuedTwice(db, before, RequeueAll(db, req, now, order), order[..n], order[n], PriorityOf(req), now);
    }
  }

  lemma NothingRequeued(db: Db, order: seq<nat>, priority: int, now: Time)
    requires order == []
    ensures RowsRequeued(db, db, order, priority, now)
  {
  }

  lemma RowsRequeuedTwice(a: Db, b: Db, c: Db, ids: seq<nat>, id: nat, priority: int, now: Time)
    requires RowsRequeued(a, b, ids, priority, now) && RowsRequeued(b, c, [id], priority, now)
    ensures RowsRequeued(a, c, ids + [id], priority, now)
  {
    hide IsQueued;
    QueuedStays(a, b, ids, priority, now);
    QueuedStays(b, c, [id], priority, now);
  }

  lemma QueuedStays(a: Db, b: Db, ids: seq<nat>, priority: int, now: Time)
    requires RowsRequeued(a, b, ids, priority, now)
    ensures forall i :: IsQueued(a.queue, i) ==> IsQueued(b.queue, i)
  {
    forall i | IsQueued(a.queue, i) ensures IsQueued(b.queue, i) {
      var q: nat :| q in a.queue && a.queue[q].input == i;
      assert q in b.queue && b.queue[q].input == i;
    }
  }

  /**
   A manual requeue makes every requested build input due a minute ago and gives it a row at the requested priority,
   0 if none is given; rows that are there keep their id, queueing time and lease.  Nothing else changes in the queue
   or the build inputs.
   */
  lemma RequestRebuildEffect(db: Db, cfg: Config, req: RebuildRequest, order: seq<nat>, now: Time)
    requires Valid(db) && Legal(db, cfg, RequestRebuild(req, order, now))
    ensures forall i: nat :: i in order <==> IsRequested(db, req, i)
    ensures InputsRequeued(db, Apply(db, cfg, RequestRebuild(req, order, now)), order, now)
    ensures RowsRequeued(db, Apply(db, cfg, RequestRebuild(req, order, now)), order, PriorityOf(req), now)
  {
    hide RequeueAll, InputsRequeued, RowsRequeued, IsRequested, Selected;
    forall i: nat ensures i in order <==> IsRequested(db, req, i) {
      RequestedIsSelected(db, req, i);
    }
    RequeueAllEffect(db, req, now, order);
  }

  /** The newest rebuild of one of the inputs. */
  ghost predicate IsNewestOf(db: Db, ids: seq<nat>, r: nat) {
    r < |db.rebuilds| && db.rebuilds[r].input in ids && IsNewest(db, db.rebuilds[r].input, r)
  }

  /** The newest rebuilds of the inputs have lost their status, and so have their artifacts; all else is as before. */
  ghost predicate NewestCleared(db: Db, out: Db, ids: seq<nat>) {
    && |out.rebuilds| == |db.rebuilds| && |out.artifacts| == |db.artifacts|
    && (forall r: nat :: r < |db.rebuilds| ==>
          out.rebuilds[r] == if IsNewestOf(db, ids, r) then db.rebuilds[r].(status := None) else db.rebuilds[r])
    && (forall a: nat :: a < |db.artifacts| ==>
          out.artifacts[a] == if IsNewestOf(db, ids, db.artifacts[a].rebuild) then db.artifacts[a].(status := None)
                              else db.artifacts[a])
  }

  lemma RequeueOneClears(db: Db, req: RebuildRequest, now: Time, input: nat)
    requires input < |db.inputs|
    ensures var out := RequeueOne(db, req, now, input);
            && NewestCleared(db, out, if req.reset then [input] else [])
            && out == db.(inputs := out.inputs, queue := out.queue, nextJob := out.nextJob, rebuilds := out.rebuilds,
                          artifacts := out.artifacts)
            && |out.inputs| == |db.inputs|
  {
    hide IsQueued, LastRebuild, IsNewest;
    NewestIsLast(db, input);
  }

  lemma ClearedTwice(a: Db, b: Db, c: Db, ids: seq<nat>, more: seq<nat>)
    requires NewestCleared(a, b, ids) && NewestCleared(b, c, more)
    ensures NewestCleared(a, c, ids + more)
  {
    forall r: nat ensures IsNewestOf(b, more, r) <==> IsNewestOf(a, more, r) {
    }
  }

  lemma {:induction false} RequeueAllClears(db: Db, req: RebuildRequest, now: Time, order: seq<nat>)
    requires forall i :: i in order ==> i < |db.inputs|
    ensures var out := RequeueAll(db, req, now, order);
            && NewestCleared(db, out, if req.reset then order else [])
            && out == db.(inputs := out.inputs, queue := out.queue, nextJob := out.nextJob, rebuilds := out.rebuilds,
                          artifacts := out.artifacts)
            && |out.inputs| == |db.inputs|
  {
    hide RequeueOne, NewestCleared;
    if |order| == 0 {
      NothingCleared(db, order);
      NothingCleared(db, []);
    } else {
      var n := |order| - 1;
      var before := RequeueAll(db, req, now, order[..n]);
      assert order == order[..n] + [order[n]] && order[n] in order;
      assert forall i :: i in order[..n] ==> i in order;
      RequeueAllClears(db, req, now, order[..n]);
      RequeueOneClears(before, req, now, order[n]);
      if req.reset {
        ClearedTwice(db, before, RequeueAll(db, req, now, order), order[..n], [order[n]]);
      } else {
        ClearedTwice(db, before, RequeueAll(db, req, now, order), [], []);
        assert [] + [] == order[..0];
      }
    }
  }

  lemma NothingCleared(db: Db, ids: seq<nat>)
    requires ids == []
    ensures NewestCleared(db, db, ids)
  {
  }

  /** With reset, exactly the newest rebuilds of all requested inputs lose their status, and so do their artifacts. */
  lemma RequestResetEffect(db: Db, cfg: Config, req: RebuildRequest, order: seq<nat>, now: Time)
    requires Legal(db, cfg, RequestRebuild(req, order, now))
    ensures NewestCleared(db, Apply(db, cfg, RequestRebuild(req, order, now)), if req.reset then order else [])
    ensures var out := Apply(db, cfg, RequestRebuild(req, order, now));
            out == db.(inputs := out.inputs, queue := out.queue, nextJob := out.nextJob, rebuilds := out.rebuilds,
                       artifacts := out.artifacts)
  {
    hide RequeueAll, NewestCleared, Selected;
    RequeueAllClears(db, req, now, order);
  }

  /** After the request, a poll that supports the input's class is not turned away while its row is free. */
  lemma RequestedIsOffered(
      db: Db, cfg: Config, req: RebuildRequest, order: seq<nat>, now: Time, i: nat, q: nat,
      work: WorkRequest, taken: Option<nat>)
    requires Valid(db) && Legal(db, cfg, RequestRebuild(req, order, now)) && IsRequested(db, req, i)
    requires var out := Apply(db, cfg, RequestRebuild(req, order, now));
             && Legal(out, cfg, RequestWork(work, taken, now))
             && q in out.queue && out.queue[q].input == i && out.queue[q].worker == None
    requires db.inputs[i].cls.backend in work.backends
    requires exists a :: a in work.architectures && SameArchitecture(a, db.inputs[i].cls.architecture)
    ensures taken.Some?
  {
    hide Apply, Legal, IsRequested, RowsRequeued, Valid, SameArchitecture;
    var out := Apply(db, cfg, RequestRebuild(req, order, now));
    RequestRebuildEffect(db, cfg, req, order, now);
    RequestedHasSource(db, req, i);
    RequestResetEffect(db, cfg, req, order, now);
    assert i in order;
    assert IsAvailable(out, work, now, q);
    WorkRequestAnswer(out, cfg, work, taken, now);
  }

  lemma RequestedHasSource(db: Db, req: RebuildRequest, i: nat)
    requires IsRequested(db, req, i)
    ensures i < |db.inputs| && db.inputs[i].source < |db.sources|
  {
  }

  // ----- drops -----

  /** A drop removes exactly the rows of build inputs that fit both filters. */
  lemma DropEffect(db: Db, cfg: Config, origin: OriginFilter, identity: IdentityFilter, now: Time)
    ensures var out := Apply(db, cfg, DropJobs(origin, identity, now));
            && out == db.(queue := out.queue)
            && (forall q :: q in out.queue ==> q in db.queue && out.queue[q] == db.queue[q])
            && (forall q :: q in db.queue ==>
                  (q in out.queue <==>
                     !(FitsOrigin(db, origin, db.queue[q].input) && FitsIdentity(db, identity, db.queue[q].input))))
  {
    hide FitsOrigin, FitsIdentity, Matches;
    forall i: nat {
      FitsIsMatch(db, origin, identity, i);
    }
  }

  lemma DropOneEffect(db: Db, cfg: Config, q: nat, now: Time)
    ensures Apply(db, cfg, DropOne(q, now)) == db.(queue := db.queue - {q})
  {
  }
}
