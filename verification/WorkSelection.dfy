/** In which order jobs are handed out. */
module WorkSelection {
  import opened Options
  import opened Rows
  import opened Queue

  // ----- architectures -----

  // ----- the order of jobs -----

  lemma RankIsTotal(a: Rank, b: Rank, c: Rank)
    ensures RankLe(a, a)
    ensures RankLe(a, b) || RankLe(b, a)
    ensures RankLe(a, b) && RankLe(b, c) ==> RankLe(a, c)
    ensures RankLe(a, b) && RankLe(b, a) ==> a == b
  {
  }

  ghost predicate Ranked(db: Db, q: nat) {
    && q in db.queue && db.queue[q].input < |db.inputs|
    && db.inputs[db.queue[q].input].source < |db.sources|
  }

  /** Some job ranks before all others. */
  lemma {:induction false} FirstAmong(db: Db, ids: set<nat>) returns (q: nat)
    requires ids != {}
    requires forall o :: o in ids ==> Ranked(db, o)
    ensures q in ids && Ranked(db, q)
    ensures forall o :: o in ids ==> Ranked(db, o) && RankLe(RankOf(db, q), RankOf(db, o))
    decreases ids
  {
    q :| q in ids;
    var rest := ids - {q};
    if rest != {} {
      var r := FirstAmong(db, rest);
      assert forall o :: o in ids ==> o == q || o in rest;
      forall o | o in rest {
        RankIsTotal(RankOf(db, q), RankOf(db, r), RankOf(db, o));
      }
      RankIsTotal(RankOf(db, q), RankOf(db, r), RankOf(db, r));
      RankIsTotal(RankOf(db, r), RankOf(db, q), RankOf(db, q));
      if !RankLe(RankOf(db, q), RankOf(db, r)) {
        q := r;
      }
    } else {
      assert forall o :: o in ids ==> o == q || o in rest;
      RankIsTotal(RankOf(db, q), RankOf(db, q), RankOf(db, q));
    }
  }

  function EligibleIds(db: Db, req: WorkRequest, now: Time): set<nat> {
    set q | q in db.queue && Eligible(db, req, now, q)
  }

  /** Nothing is handed out only when there is nothing to hand out. */
  lemma NothingIffNoneEligible(db: Db, req: WorkRequest, now: Time)
    ensures LegalWork(db, req, now, None) <==> EligibleIds(Swept(db, now), req, now) == {}
    ensures EligibleIds(Swept(db, now), req, now) != {} ==>
              exists q: nat :: LegalWork(db, req, now, Some(q)) && IsFirst(Swept(db, now), req, now, q)
  {
    var swept := Swept(db, now);
    var ids := EligibleIds(swept, req, now);
    assert forall q: nat :: Eligible(swept, req, now, q) <==> q in ids;
    if ids != {} {
      var q := FirstAmong(swept, ids);
      assert IsFirst(swept, req, now, q);
      assert LegalWork(db, req, now, Some(q));
    }
  }

  // ----- polling until there is no work left -----

  datatype Take = Take(job: nat, worker: int)

  /** The tables after the jobs were handed out one by one, all at the same time. */
  ghost function Drained(db: Db, req: WorkRequest, now: Time, takes: seq<Take>): Db {
    if |takes| == 0 then db
    else
      var n := |takes| - 1;
      WorkRequested(Drained(db, req, now, takes[..n]), req.(worker := takes[n].worker), now, Some(takes[n].job))
  }

  ghost predicate LegalDrain(db: Db, req: WorkRequest, now: Time, takes: seq<Take>) {
    |takes| == 0 ||
    var n := |takes| - 1;
    && LegalDrain(db, req, now, takes[..n])
    && LegalWork(Drained(db, req, now, takes[..n]), req.(worker := takes[n].worker), now, Some(takes[n].job))
  }

  ghost predicate Handed(takes: seq<Take>, q: nat) {
    exists k :: 0 <= k < |takes| && takes[k].job == q
  }

  /** The same job, up to its lease. */
  ghost predicate SameRank(a: Db, b: Db, q: nat) {
    Ranked(a, q) && Ranked(b, q) && RankOf(a, q) == RankOf(b, q)
  }

  /** Handing out one job makes it ineligible and changes nothing for the others. */
  lemma HandOutOne(db: Db, req: WorkRequest, now: Time, take: Take, q: nat)
    requires Eligible(Swept(db, now), req, now, take.job)
    ensures Eligible(Swept(WorkRequested(db, req.(worker := take.worker), now, Some(take.job)), now), req, now, q)
            <==> Eligible(Swept(db, now), req, now, q) && q != take.job
    ensures Ranked(Swept(db, now), q) ==>
              SameRank(Swept(db, now),
                       Swept(WorkRequested(db, req.(worker := take.worker), now, Some(take.job)), now), q)
  {
  }

  lemma FirstIsEligible(db: Db, req: WorkRequest, now: Time, take: Take)
    requires LegalWork(db, req.(worker := take.worker), now, Some(take.job))
    ensures Eligible(Swept(db, now), req, now, take.job)
  {
  }

  lemma EligibleIsRanked(db: Db, req: WorkRequest, now: Time, q: nat)
    requires Eligible(db, req, now, q)
    ensures Ranked(db, q)
  {
  }

  /** After some jobs were handed out, the others are as eligible as before, with the same ranks. */
  lemma {:induction false} DrainRemovesTaken(db: Db, req: WorkRequest, now: Time, takes: seq<Take>, q: nat)
    requires LegalDrain(db, req, now, takes)
    ensures Eligible(Swept(Drained(db, req, now, takes), now), req, now, q)
            <==> Eligible(Swept(db, now), req, now, q) && !Handed(takes, q)
    ensures Eligible(Swept(db, now), req, now, q) ==>
              SameRank(Swept(db, now), Swept(Drained(db, req, now, takes), now), q)
    ensures Handed(takes, q) ==> Eligible(Swept(db, now), req, now, q)
  {
    hide Eligible, Swept, WorkRequested, RankOf, LegalWork;
    if Eligible(Swept(db, now), req, now, q) {
      EligibleIsRanked(Swept(db, now), req, now, q);
    }
    if |takes| > 0 {
      var n := |takes| - 1;
      var before := Drained(db, req, now, takes[..n]);
      DrainRemovesTaken(db, req, now, takes[..n], q);
      DrainRemovesTaken(db, req, now, takes[..n], takes[n].job);
      FirstIsEligible(before, req, now, takes[n]);
      HandOutOne(before, req, now, takes[n], q);
      assert Handed(takes, q) <==> Handed(takes[..n], q) || takes[n].job == q;
    }
  }

  lemma {:induction false} LegalPrefix(db: Db, req: WorkRequest, now: Time, takes: seq<Take>, n: nat)
    requires LegalDrain(db, req, now, takes) && n <= |takes|
    ensures LegalDrain(db, req, now, takes[..n])
    ensures n < |takes| ==>
              LegalWork(Drained(db, req, now, takes[..n]), req.(worker := takes[n].worker), now, Some(takes[n].job))
    decreases |takes|
  {
    hide LegalWork;
    if n < |takes| {
      LegalPrefix(db, req, now, takes[..|takes| - 1], n);
      assert takes[..|takes| - 1][..n] == takes[..n];
    } else {
      assert takes[..n] == takes;
    }
  }

  /**
   Workers that keep asking at one point in time until there is nothing left get every eligible job
   exactly once, in non-decreasing order of priority, day queued, git timestamp and source id.
   */
  lemma PollingDrainsInOrder(db: Db, req: WorkRequest, now: Time, takes: seq<Take>)
    requires LegalDrain(db, req, now, takes)
    requires LegalWork(Drained(db, req, now, takes), req, now, None)
    ensures forall q: nat :: Eligible(Swept(db, now), req, now, q) <==> Handed(takes, q)
    ensures forall a, b :: 0 <= a < b < |takes| ==>
              && takes[a].job != takes[b].job
              && Ranked(Swept(db, now), takes[a].job) && Ranked(Swept(db, now), takes[b].job)
              && RankLe(RankOf(Swept(db, now), takes[a].job), RankOf(Swept(db, now), takes[b].job))
  {
    forall q: nat ensures Eligible(Swept(db, now), req, now, q) <==> Handed(takes, q) {
      DrainRemovesTaken(db, req, now, takes, q);
    }
    forall a, b | 0 <= a < b < |takes|
      ensures && takes[a].job != takes[b].job
              && Ranked(Swept(db, now), takes[a].job) && Ranked(Swept(db, now), takes[b].job)
              && RankLe(RankOf(Swept(db, now), takes[a].job), RankOf(Swept(db, now), takes[b].job))
    {
      LaterRanksNoLower(db, req, now, takes, a, b);
    }
  }

  lemma LaterRanksNoLower(db: Db, req: WorkRequest, now: Time, takes: seq<Take>, a: nat, b: nat)
    requires LegalDrain(db, req, now, takes) && a < b < |takes|
    ensures takes[a].job != takes[b].job
    ensures Ranked(Swept(db, now), takes[a].job) && Ranked(Swept(db, now), takes[b].job)
    ensures RankLe(RankOf(Swept(db, now), takes[a].job), RankOf(Swept(db, now), takes[b].job))
  {
    if Handed(takes[..a], takes[b].job) {
      HandedMonotone(takes, a, b, takes[b].job);
    }
    LegalPrefix(db, req, now, takes, a);
    LegalPrefix(db, req, now, takes, b);
    DrainRemovesTaken(db, req, now, takes[..b], takes[b].job);
    DrainRemovesTaken(db, req, now, takes[..a], takes[b].job);
    DrainRemovesTaken(db, req, now, takes[..a], takes[a].job);
    assert takes[..b][a].job == takes[a].job;
  }

  lemma HandedMonotone(takes: seq<Take>, a: nat, b: nat, q: nat)
    requires a <= b <= |takes| && Handed(takes[..a], q)
    ensures Handed(takes[..b], q)
  {
  }
}
