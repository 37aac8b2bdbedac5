/** What asking for work and heartbeats do, row by row. */
module WorkEffects {
  import opened Options
  import opened Rows
  import opened Queue
  import opened Runs

  /** The two names of one architecture. */
  const SAME_ARCHITECTURES: set<(string, string)> :=
    {("x86", "i386"), ("x86_64", "amd64"), ("aarch64", "arm64"), ("powerpc64", "ppc64")}

  predicate SameArchitecture(a: string, b: string) {
    a == b || (a, b) in SAME_ARCHITECTURES || (b, a) in SAME_ARCHITECTURES
  }

  /** The holder was last heard of more than nine minutes ago. */
  predicate IsExpired(job: Job, now: Time) {
    job.lastPing.Some? && job.lastPing.value < now - 540
  }

  /** A job that the request may get: free or expired, due, and of a backend and an architecture that are supported. */
  ghost predicate IsAvailable(db: Db, req: WorkRequest, now: Time, q: nat) {
    && q in db.queue && db.queue[q].input < |db.inputs| && db.inputs[db.queue[q].input].source < |db.sources|
    && (db.queue[q].worker.None? || IsExpired(db.queue[q], now))
    && var input := db.inputs[db.queue[q].input];
       && (input.nextRetry == None || input.nextRetry.value <= now)
       && input.cls.backend in req.backends
       && exists a :: a in req.architectures && SameArchitecture(a, input.cls.architecture)
  }

  /** Job `p` comes no later than job `q`: by priority, then day queued, then git time, NULL first, then source. */
  predicate ComesNoLater(db: Db, p: nat, q: nat)
    requires p in db.queue && db.queue[p].input < |db.inputs| && db.inputs[db.queue[p].input].source < |db.sources|
    requires q in db.queue && db.queue[q].input < |db.inputs| && db.inputs[db.queue[q].input].source < |db.sources|
  {
    var a, b := db.queue[p], db.queue[q];
    var s, t := db.inputs[a.input].source, db.inputs[b.input].source;
    var v, w := db.sources[s].gitTime, db.sources[t].gitTime;
    || a.priority < b.priority
    || (a.priority == b.priority
        && (|| a.queuedAt / 86400 < b.queuedAt / 86400
            || (a.queuedAt / 86400 == b.queuedAt / 86400
                && (|| (v.None? && w.Some?)
                    || (v.Some? && w.Some? && v.value < w.value)
                    || (v == w && s <= t)))))
  }

  /**
   Asking for work changes the queue only.  Every expired row is free afterwards, unless it is the one handed out,
   which belongs to the asking worker from now on; all other rows stay as they are.
   */
  lemma WorkRequestEffect(db: Db, cfg: Config, req: WorkRequest, taken: Option<nat>, now: Time)
    requires Legal(db, cfg, RequestWork(req, taken, now))
    ensures var out := Apply(db, cfg, RequestWork(req, taken, now));
            && out == db.(queue := out.queue) && out.queue.Keys == db.queue.Keys
            && forall q :: q in db.queue ==>
                 out.queue[q]
                 == if taken == Some(q) then
                      db.queue[q].(worker := Some(req.worker), startedAt := Some(now), lastPing := Some(now))
                    else if IsExpired(db.queue[q], now) then
                      db.queue[q].(worker := None, startedAt := None, lastPing := None)
                    else db.queue[q]
    ensures forall q :: q in Apply(db, cfg, RequestWork(req, taken, now)).queue ==>
              !IsExpired(Apply(db, cfg, RequestWork(req, taken, now)).queue[q], now)
  {
    hide RankLe, Supported;
  }

  /** Which job is handed out: none exactly if none is available, else one that comes no later than any other. */
  lemma WorkRequestAnswer(db: Db, cfg: Config, req: WorkRequest, taken: Option<nat>, now: Time)
    requires Legal(db, cfg, RequestWork(req, taken, now))
    ensures taken.None? <==> forall q: nat :: !IsAvailable(db, req, now, q)
    ensures taken.Some? ==>
              && IsAvailable(db, req, now, taken.value)
              && forall q: nat :: IsAvailable(db, req, now, q) ==> ComesNoLater(db, taken.value, q)
  {
    hide Apply, RankLe, RankOf;
    forall q: nat
      ensures IsAvailable(db, req, now, q) <==> Eligible(Swept(db, now), req, now, q)
    {
      AvailableIsEligible(db, req, now, q);
    }
    forall p: nat, q: nat | IsAvailable(db, req, now, p) && IsAvailable(db, req, now, q)
      ensures RankLe(RankOf(Swept(db, now), p), RankOf(Swept(db, now), q)) <==> ComesNoLater(db, p, q)
    {
      RankIsOrder(db, now, p, q);
    }
  }

  lemma AvailableIsEligible(db: Db, req: WorkRequest, now: Time, q: nat)
    ensures IsAvailable(db, req, now, q) <==> Eligible(Swept(db, now), req, now, q)
  {
    if q in db.queue && db.queue[q].input < |db.inputs| {
      SupportedIsSame(req.architectures, db.inputs[db.queue[q].input].cls.architecture);
    }
  }

  lemma SupportedIsSame(architectures: set<string>, name: string)
    ensures name in Supported(architectures) <==> exists a :: a in architectures && SameArchitecture(a, name)
  {
    forall a: string ensures Alias(a) == Some(name) <==> a != name && SameArchitecture(a, name) {
      AliasIsOther(a, name);
    }
  }

  lemma AliasIsOther(a: string, b: string)
    ensures Alias(a) == Some(b) <==> a != b && SameArchitecture(a, b)
  {
  }

  lemma RankIsOrder(db: Db, now: Time, p: nat, q: nat)
    requires p in db.queue && db.queue[p].input < |db.inputs| && db.inputs[db.queue[p].input].source < |db.sources|
    requires q in db.queue && db.queue[q].input < |db.inputs| && db.inputs[db.queue[q].input].source < |db.sources|
    ensures RankLe(RankOf(Swept(db, now), p), RankOf(Swept(db, now), q)) <==> ComesNoLater(db, p, q)
  {
  }

  /** A heartbeat renews the lease of the worker that holds the job, and changes nothing else. */
  lemma PingEffect(db: Db, cfg: Config, q: nat, worker: int, now: Time)
    ensures Apply(db, cfg, Ping(q, worker, now))
            == if q in db.queue && db.queue[q].worker == Some(worker) then
                 db.(queue := db.queue[q := db.queue[q].(lastPing := Some(now))])
               else db
  {
  }
}
