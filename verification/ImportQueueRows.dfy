/** What an import does to the queue and to the build inputs, package by package. */
module ImportQueueRows {
  import opened Options
  import opened Rows
  import opened Friends
  import opened PackageImport
  import opened ImportFacts
  import opened Invariants
  import opened ImportFlags
  import opened Coverage
  import opened Leases
  import opened ImportReads

  // ----- the queue -----

  ghost predicate IsClassQueued(db: Db, cls: Class) {
    exists q :: q in db.queue && db.queue[q].input < |db.inputs| && db.inputs[db.queue[q].input].cls == cls
  }

  /** A member of the class has failed as often as the limit allows; a limit of 0 allows nothing. */
  ghost predicate IsAtLimit(db: Db, cfg: Config, cls: Class) {
    && cfg.maxRetries.Some?
    && (|| cfg.maxRetries.value <= 0
        || exists i :: 0 <= i < |db.inputs| && db.inputs[i].cls == cls && db.inputs[i].retries >= cfg.maxRetries.value)
  }

  /** Package `k` is not GOOD, and all earlier packages of its class are. */
  ghost predicate IsFirstFlawed(env: Env, choices: seq<Choice>, n: nat, cls: Class, k: nat) {
    && k < n && k < |choices| && k < |env.report.packages|
    && ClassAt(env, k) == cls && choices[k].status != BuildStatus.Good
    && forall m :: 0 <= m < k && ClassAt(env, m) == cls ==> choices[m].status == BuildStatus.Good
  }

  function ClassAt(env: Env, k: nat): Class
    requires k < |env.report.packages|
  {
    Class(env.report.packages[k].url, env.report.scope.distribution, env.report.architecture)
  }

  /** A free row, at retry priority for BAD and at default priority otherwise. */
  function NewRow(input: nat, status: BuildStatus, now: Time): Job {
    Job(input, if status == BuildStatus.Bad then 2 else 1, now, None, None, None)
  }

  /** The row is that of the build input of package `k`. */
  ghost predicate IsRowFor(out: Db, env: Env, choices: seq<Choice>, q: nat, k: nat) {
    && q in out.queue && k < |choices| && k < |env.report.packages|
    && IsInputOf(out, env.report, env.report.packages[k], out.queue[q].input)
    && out.queue[q] == NewRow(out.queue[q].input, choices[k].status, env.now)
  }

  ghost predicate IsNewRow(db: Db, out: Db, env: Env, choices: seq<Choice>, n: nat, q: nat, cls: Class) {
    && !IsClassQueued(db, cls) && !IsAtLimit(db, env.cfg, cls)
    && exists k: nat :: IsFirstFlawed(env, choices, n, cls, k) && IsRowFor(out, env, choices, q, k)
  }

  ghost predicate QueueRowsAre(db: Db, out: Db, env: Env, choices: seq<Choice>, n: nat) {
    && (forall q :: q in db.queue ==> q in out.queue && out.queue[q] == db.queue[q])
    && NewRowsAre(db, out, env, choices, n)
  }

  /**
   Every new row has a fresh id and is for the first package of its class that is not GOOD, of a class that was not
   queued and is not at the limit; and each such class is queued now, with only one new row.
   */
  ghost predicate NewRowsAre(db: Db, out: Db, env: Env, choices: seq<Choice>, n: nat) {
    && (forall q :: q in out.queue && q !in db.queue ==>
          && db.nextJob <= q && out.queue[q].input < |out.inputs|
          && IsNewRow(db, out, env, choices, n, q, out.inputs[out.queue[q].input].cls))
    && (forall p, q | p in out.queue && p !in db.queue && q in out.queue && q !in db.queue ::
          && out.queue[p].input < |out.inputs| && out.queue[q].input < |out.inputs|
          && (out.inputs[out.queue[p].input].cls == out.inputs[out.queue[q].input].cls ==> p == q))
    && (forall cls, k: nat ::
          IsFirstFlawed(env, choices, n, cls, k) && !IsClassQueued(db, cls) && !IsAtLimit(db, env.cfg, cls) ==>
            IsClassQueued(out, cls))
  }

  ghost predicate NoneNegative(db: Db) {
    forall i :: 0 <= i < |db.inputs| ==> db.inputs[i].retries >= 0
  }

  lemma ExhaustedIff(db: Db, cfg: Config, after: seq<Input>, cls: Class)
    requires NoneNegative(db) && InputsGrow(db.inputs, after) && HasMember(after, cls)
    ensures Exhausted(cfg, MaxRetries(after, cls)) <==> IsAtLimit(db, cfg, cls)
  {
    var m := MaxRetries(after, cls);
    var i: nat :| InClass(after, i, cls) && after[i].retries == m;
    assert IsMaxRetries(after, cls, m);
    if cfg.maxRetries.Some? && m >= cfg.maxRetries.value {
      assert i < |db.inputs| ==> db.inputs[i].cls == cls && db.inputs[i].retries == m;
    }
    if j :| 0 <= j < |db.inputs| && db.inputs[j].cls == cls
            && cfg.maxRetries.Some? && db.inputs[j].retries >= cfg.maxRetries.value {
      assert InClass(after, j, cls);
    }
  }

  lemma {:induction false} FirstFlawedExists(env: Env, choices: seq<Choice>, n: nat, cls: Class, m: nat)
    returns (k: nat)
    requires m < n && m < |choices| && m < |env.report.packages|
    requires ClassAt(env, m) == cls && choices[m].status != BuildStatus.Good
    ensures IsFirstFlawed(env, choices, n, cls, k)
  {
    if o: nat :| o < m && ClassAt(env, o) == cls && choices[o].status != BuildStatus.Good {
      k := FirstFlawedExists(env, choices, n, cls, o);
    } else {
      k := m;
    }
  }

  lemma FlawedOneMore(env: Env, choices: seq<Choice>, n: nat, cls: Class, k: nat)
    requires IsFirstFlawed(env, choices, n + 1, cls, k)
    ensures if k < n then IsFirstFlawed(env, choices, n, cls, k)
            else k == n && cls == ClassAt(env, n) && choices[n].status != BuildStatus.Good
  {
  }

  lemma RowStaysFor(before: Db, out: Db, env: Env, choices: seq<Choice>, q: nat, k: nat)
    requires Valid(before) && SameOrigins(before, out) && IsRowFor(before, env, choices, q, k)
    requires q in out.queue && out.queue[q] == before.queue[q]
    ensures IsRowFor(out, env, choices, q, k)
  {
  }

  lemma ClassStaysQueued(before: Db, out: Db, cls: Class)
    requires Valid(before) && SameOrigins(before, out) && IsClassQueued(before, cls)
    requires forall q :: q in before.queue ==> q in out.queue && out.queue[q] == before.queue[q]
    ensures IsClassQueued(out, cls)
  {
    var q :| q in before.queue && before.queue[q].input < |before.inputs|
             && before.inputs[before.queue[q].input].cls == cls;
    assert out.queue[q] == before.queue[q];
  }

  /** What the queue holds after one more package. */
  lemma OneMoreRow(db: Db, before: Db, out: Db, env: Env, choices: seq<Choice>, n: nat)
    requires Valid(db) && Valid(before) && SameOrigins(before, out) && QueueRowsAre(db, before, env, choices, n)
    requires SameOrigins(db, before) && db.nextJob <= before.nextJob
    requires n < |choices| && n < |env.report.packages|
    requires out.queue == before.queue
    requires choices[n].status == BuildStatus.Good || IsClassQueued(before, ClassAt(env, n))
             || IsAtLimit(db, env.cfg, ClassAt(env, n))
    ensures QueueRowsAre(db, out, env, choices, n + 1)
  {
    hide IsAtLimit, IsClassQueued, IsRowFor, Valid, IsFirstFlawed;
    var m := n + 1;
    forall q | q in out.queue && q !in db.queue
      ensures IsNewRow(db, out, env, choices, n + 1, q, out.inputs[out.queue[q].input].cls)
    {
      NewRowStays(db, before, out, env, choices, n, q);
    }
    forall cls, k: nat
      | IsFirstFlawed(env, choices, m, cls, k) && !IsClassQueued(db, cls) && !IsAtLimit(db, env.cfg, cls)
      ensures IsClassQueued(out, cls)
    {
      FlawedOneMore(env, choices, n, cls, k);
      ClassStaysQueued(before, out, cls);
    }
  }

  lemma NewRowStays(db: Db, before: Db, out: Db, env: Env, choices: seq<Choice>, n: nat, q: nat)
    requires Valid(before) && SameOrigins(before, out) && q in before.queue && before.queue[q].input < |before.inputs|
    requires IsNewRow(db, before, env, choices, n, q, before.inputs[before.queue[q].input].cls)
    requires q in out.queue && out.queue[q] == before.queue[q]
    ensures out.queue[q].input < |out.inputs|
    ensures IsNewRow(db, out, env, choices, n + 1, q, out.inputs[out.queue[q].input].cls)
  {
    hide IsAtLimit, IsClassQueued, IsRowFor, Valid;
    var cls := before.inputs[before.queue[q].input].cls;
    var k: nat :| IsFirstFlawed(env, choices, n, cls, k) && IsRowFor(before, env, choices, q, k);
    RowStaysFor(before, out, env, choices, q, k);
    assert IsFirstFlawed(env, choices, n + 1, cls, k);
  }

  lemma OneNewRow(db: Db, before: Db, out: Db, env: Env, choices: seq<Choice>, n: nat, input: nat)
    requires Valid(db) && Valid(before) && SameOrigins(before, out) && QueueRowsAre(db, before, env, choices, n)
    requires SameOrigins(db, before) && db.nextJob <= before.nextJob
    requires n < |choices| && n < |env.report.packages|
    requires choices[n].status != BuildStatus.Good && !IsClassQueued(before, ClassAt(env, n))
             && !IsAtLimit(db, env.cfg, ClassAt(env, n))
    requires IsInputOf(out, env.report, env.report.packages[n], input)
    requires out.queue == before.queue[before.nextJob := NewRow(input, choices[n].status, env.now)]
    ensures QueueRowsAre(db, out, env, choices, n + 1)
  {
    hide IsAtLimit, IsClassQueued, IsRowFor, Valid, IsFirstFlawed;
    var cls, added, next := ClassAt(env, n), before.nextJob, n + 1;
    NextIsNew(db, before);
    assert !IsClassQueued(db, cls) by {
      if IsClassQueued(db, cls) {
        ClassStaysQueued(db, before, cls);
      }
    }
    AllGoodBefore(db, before, env, choices, n);
    AddedRowFor(out, env, choices, n, added);
    forall q | q in out.queue && q !in db.queue
      ensures out.queue[q].input < |out.inputs|
      ensures IsNewRow(db, out, env, choices, next, q, out.inputs[out.queue[q].input].cls)
      ensures q != added ==> out.inputs[out.queue[q].input].cls == before.inputs[before.queue[q].input].cls != cls
    {
      if q != added {
        NewRowStays(db, before, out, env, choices, n, q);
        RowMakesQueued(before, q);
      }
    }
    forall c, k: nat
      | IsFirstFlawed(env, choices, next, c, k) && !IsClassQueued(db, c) && !IsAtLimit(db, env.cfg, c)
      ensures IsClassQueued(out, c)
    {
      FlawedOneMore(env, choices, n, c, k);
      if k < n {
        ClassStaysQueued(before, out, c);
      } else {
        RowMakesQueued(out, added);
      }
    }
  }

  /** Had an earlier package of the class not been GOOD, the class would be queued. */
  lemma AllGoodBefore(db: Db, before: Db, env: Env, choices: seq<Choice>, n: nat)
    requires QueueRowsAre(db, before, env, choices, n) && n < |choices| && n < |env.report.packages|
    requires choices[n].status != BuildStatus.Good && !IsClassQueued(before, ClassAt(env, n))
    requires !IsClassQueued(db, ClassAt(env, n)) && !IsAtLimit(db, env.cfg, ClassAt(env, n))
    ensures IsFirstFlawed(env, choices, n + 1, ClassAt(env, n), n)
  {
    hide IsAtLimit, IsClassQueued;
    var cls := ClassAt(env, n);
    forall m: nat | m < n && ClassAt(env, m) == cls ensures choices[m].status == BuildStatus.Good {
      if choices[m].status != BuildStatus.Good {
        var k := FirstFlawedExists(env, choices, n, cls, m);
      }
    }
  }

  lemma NextIsNew(db: Db, before: Db)
    requires Valid(db) && Valid(before) && db.nextJob <= before.nextJob
    ensures before.nextJob !in before.queue && before.nextJob !in db.queue
  {
  }

  lemma RowMakesQueued(db: Db, q: nat)
    requires q in db.queue && db.queue[q].input < |db.inputs|
    ensures IsClassQueued(db, db.inputs[db.queue[q].input].cls)
  {
  }

  lemma AddedRowFor(out: Db, env: Env, choices: seq<Choice>, k: nat, q: nat)
    requires q in out.queue && k < |choices| && k < |env.report.packages|
    requires IsInputOf(out, env.report, env.report.packages[k], out.queue[q].input)
    requires out.queue[q] == NewRow(out.queue[q].input, choices[k].status, env.now)
    ensures IsRowFor(out, env, choices, q, k)
    ensures out.queue[q].input < |out.inputs| && out.inputs[out.queue[q].input].cls == ClassAt(env, k)
  {
  }

  lemma ImportOneQueue(db: Db, before: Db, env: Env, choices: seq<Choice>, n: nat)
    requires Valid(db) && NoneNegative(db) && Valid(before) && InputsGrow(db.inputs, before.inputs)
    requires SameOrigins(db, before) && db.nextJob <= before.nextJob
    requires n < |choices| && n < |env.report.packages| && QueueRowsAre(db, before, env, choices, n)
    ensures QueueRowsAre(db, ImportOne(before, env, env.report.packages[n], choices[n]), env, choices, n + 1)
  {
    hide ImportOne, Valid, IsAtLimit, QueueRowsAre, Registered, MaxRetries, InputOf, SourceOf;
    var p, c := env.report.packages[n], choices[n];
    var cls, input, out := ClassAt(env, n), InputOf(before, env, p), ImportOne(before, env, p, c);
    ImportOneEffect(before, env, p, c);
    ImportOneOrigins(before, env, p, c);
    RegisteredIsValid(before, env, p);
    var registered := Registered(before, env, p).inputs;
    assert InClass(registered, input, cls);
    ExhaustedIff(db, env.cfg, registered, cls);
    QueuedIsQueued(before, cls);
    if AddsJob(before, env, p, c) {
      OneNewRow(db, before, out, env, choices, n, input);
    } else {
      OneMoreRow(db, before, out, env, choices, n);
    }
  }

  lemma QueuedIsQueued(db: Db, cls: Class)
    ensures HasQueuedFriend(db, cls) <==> IsClassQueued(db, cls)
  {
    if IsClassQueued(db, cls) {
      var q: nat :| q in db.queue && db.queue[q].input < |db.inputs| && db.inputs[db.queue[q].input].cls == cls;
      assert QueuedIn(db, q, cls);
    }
  }

  lemma {:induction false} ImportAllQueue(db: Db, env: Env, choices: seq<Choice>, n: nat)
    requires Valid(db) && NoneNegative(db) && n <= |choices| <= |env.report.packages|
    ensures QueueRowsAre(db, ImportAll(db, env, choices[..n]), env, choices, n)
  {
    hide ImportOne, Valid, QueueRowsAre;
    if n == 0 {
      NoNewRows(db, env, choices);
    } else {
      var before := ImportAll(db, env, choices[..n - 1]);
      assert choices[..n][..n - 1] == choices[..n - 1];
      ImportAllIsValid(db, env, choices[..n - 1]);
      ImportAllKeepsLeases(db, env, choices[..n - 1]);
      ImportAllListsJobs(db, env, choices[..n - 1]);
      ImportAllQueue(db, env, choices, n - 1);
      ImportOneQueue(db, before, env, choices, n - 1);
    }
  }

  lemma NoNewRows(db: Db, env: Env, choices: seq<Choice>)
    ensures QueueRowsAre(db, db, env, choices, 0)
  {
  }

  // ----- the build inputs -----

  /** Some package of the class from `k` on is not GOOD, but the class is at the limit and has no row. */
  ghost predicate GivesUp(db: Db, env: Env, choices: seq<Choice>, k: nat, n: nat, cls: Class) {
    && !IsClassQueued(db, cls) && IsAtLimit(db, env.cfg, cls)
    && exists m: nat :: IsFlawed(env, choices, cls, m) && k <= m < n
  }

  predicate IsFlawed(env: Env, choices: seq<Choice>, cls: Class, m: nat) {
    && m < |choices| && m < |env.report.packages|
    && ClassAt(env, m) == cls && choices[m].status != BuildStatus.Good
  }

  /** Package `k` is the first of the report that lists the build input. */
  ghost predicate IsFirstListing(out: Db, env: Env, n: nat, i: nat, k: nat) {
    && k < n && k < |env.report.packages| && IsInputOf(out, env.report, env.report.packages[k], i)
    && forall m :: 0 <= m < k ==> !IsInputOf(out, env.report, env.report.packages[m], i)
  }

  ghost predicate IsNewInput(db: Db, out: Db, env: Env, choices: seq<Choice>, n: nat, i: nat, k: nat) {
    && IsFirstListing(out, env, n, i, k)
    && out.inputs[i]
       == Input(out.inputs[i].source, ClassAt(env, k), 0,
                if env.cfg.initialDelay == 0 || GivesUp(db, env, choices, k, n, ClassAt(env, k)) then None
                else Some(env.now + env.cfg.initialDelay))
  }

  ghost predicate WasAdded(db: Db, out: Db, env: Env, choices: seq<Choice>, n: nat, i: nat) {
    exists k: nat :: IsNewInput(db, out, env, choices, n, i, k)
  }

  /**
   Build inputs lose their next retry if their class gives up, and stay as they are otherwise.  A new one has no
   retries, and waits for the initial delay unless that is 0 or its class gives up later.  Every package has one.
   */
  ghost predicate InputRowsAre(db: Db, out: Db, env: Env, choices: seq<Choice>, n: nat) {
    && |db.inputs| <= |out.inputs|
    && (forall i :: 0 <= i < |db.inputs| ==>
          out.inputs[i] == if GivesUp(db, env, choices, 0, n, db.inputs[i].cls) then db.inputs[i].(nextRetry := None)
                           else db.inputs[i])
    && (forall i :: |db.inputs| <= i < |out.inputs| ==> WasAdded(db, out, env, choices, n, i))
    && (forall k: nat :: k < n && k < |env.report.packages| ==> HasInput(out, env, k))
  }

  ghost predicate HasInput(out: Db, env: Env, k: nat)
    requires k < |env.report.packages|
  {
    exists i: nat :: IsInputOf(out, env.report, env.report.packages[k], i)
  }

  /** What one package does to the build inputs. */
  lemma ImportOneInputRows(before: Db, env: Env, p: PackageReport, c: Choice)
    requires Valid(before)
    ensures var input, cls, out := InputOf(before, env, p), ClassOf(env, p), ImportOne(before, env, p, c);
            var registered := Registered(before, env, p);
            out.inputs == if c.status != BuildStatus.Good && !HasQueuedFriend(before, cls)
                             && Exhausted(env.cfg, MaxRetries(registered.inputs, cls)) then
                            SetNextRetry(registered.inputs, cls, None)
                          else registered.inputs
  {
    hide MaxRetries, SetNextRetry, ClassOf, InputOf, IsQueued, Registered, CopyRebuilds, IsNewPackage, KeysUnique;
    var input, cls, registered := InputOf(before, env, p), ClassOf(env, p), Registered(before, env, p);
    RegisteredIsValid(before, env, p);
    var inherited := Inherited(registered, IsNewPackage(before, env, p), c.copyOrder, input);
    FriendsQueuedUnchanged(before, inherited, cls);
    assert (exists q | q in inherited.queue :: QueuedIn(inherited, q, cls)) <==> HasQueuedFriend(inherited, cls);
  }

  lemma GivesUpOneMore(db: Db, env: Env, choices: seq<Choice>, k: nat, n: nat, cls: Class)
    requires n < |choices| && n < |env.report.packages|
    ensures GivesUp(db, env, choices, k, n + 1, cls)
            <==> GivesUp(db, env, choices, k, n, cls)
                 || (k <= n && !IsClassQueued(db, cls) && IsAtLimit(db, env.cfg, cls) && IsFlawed(env, choices, cls, n))
  {
    hide IsClassQueued, IsAtLimit, IsFlawed;
  }

  lemma StaysInputOf(before: Db, out: Db, report: ScopeReport, p: PackageReport, i: nat)
    requires Valid(before) && SameOrigins(before, out) && i < |before.inputs|
    ensures IsInputOf(out, report, p, i) <==> IsInputOf(before, report, p, i)
  {
  }

  lemma FirstListingStays(before: Db, out: Db, env: Env, n: nat, i: nat, k: nat)
    requires Valid(before) && SameOrigins(before, out) && i < |before.inputs| && IsFirstListing(before, env, n, i, k)
    ensures IsFirstListing(out, env, n + 1, i, k)
  {
    hide IsInputOf, Valid, SameOrigins;
    forall m: nat | m <= k {
      StaysInputOf(before, out, env.report, env.report.packages[m], i);
    }
  }

  /** A row that stays as it is, but for the next retry if the class gives up at package `n`. */
  lemma OldInputRow(db: Db, before: Db, out: Db, env: Env, choices: seq<Choice>, n: nat, i: nat)
    requires Valid(before) && SameOrigins(before, out) && SameOrigins(db, before) && i < |before.inputs|
    requires InputRowsAre(db, before, env, choices, n) && n < |choices| && n < |env.report.packages|
    requires var cls := before.inputs[i].cls;
             out.inputs[i]
             == if !IsClassQueued(db, cls) && IsAtLimit(db, env.cfg, cls) && IsFlawed(env, choices, cls, n) then
                  before.inputs[i].(nextRetry := None)
                else before.inputs[i]
    ensures i < |db.inputs| ==>
              out.inputs[i] == if GivesUp(db, env, choices, 0, n + 1, db.inputs[i].cls) then
                                 db.inputs[i].(nextRetry := None)
                               else db.inputs[i]
    ensures i >= |db.inputs| ==> WasAdded(db, out, env, choices, n + 1, i)
  {
    hide IsClassQueued, IsAtLimit, IsFlawed, GivesUp, Valid, IsInputOf;
    if i < |db.inputs| {
      GivesUpOneMore(db, env, choices, 0, n, db.inputs[i].cls);
    } else {
      assert WasAdded(db, before, env, choices, n, i);
      var k: nat :| IsNewInput(db, before, env, choices, n, i, k);
      FirstListingStays(before, out, env, n, i, k);
      GivesUpOneMore(db, env, choices, k, n, ClassAt(env, k));
      assert IsNewInput(db, out, env, choices, n + 1, i, k);
    }
  }

  /** The row that package `n` adds. */
  lemma NewInputRow(db: Db, before: Db, out: Db, env: Env, choices: seq<Choice>, n: nat)
    requires Valid(before) && Valid(out) && SameOrigins(before, out) && InputRowsAre(db, before, env, choices, n)
    requires n < |choices| && n < |env.report.packages| && |out.inputs| == |before.inputs| + 1
    requires IsInputOf(out, env.report, env.report.packages[n], |before.inputs|)
    requires out.inputs[|before.inputs|]
             == Input(out.inputs[|before.inputs|].source, ClassAt(env, n), 0,
                      if env.cfg.initialDelay == 0
                         || (!IsClassQueued(db, ClassAt(env, n)) && IsAtLimit(db, env.cfg, ClassAt(env, n))
                             && IsFlawed(env, choices, ClassAt(env, n), n)) then None
                      else Some(env.now + env.cfg.initialDelay))
    ensures WasAdded(db, out, env, choices, n + 1, |before.inputs|)
  {
    hide IsClassQueued, IsAtLimit, IsFlawed;
    GivesUpOneMore(db, env, choices, n, n, ClassAt(env, n));
    var i := |before.inputs|;
    forall m: nat | m < n ensures !IsInputOf(out, env.report, env.report.packages[m], i) {
      assert HasInput(before, env, m);
      var j: nat :| IsInputOf(before, env.report, env.report.packages[m], j);
      StaysInputOf(before, out, env.report, env.report.packages[m], j);
      assert j != i;
    }
    assert IsNewInput(db, out, env, choices, n + 1, i, n);
  }

  /** Package `n` makes its class give up, or leaves all inputs as they are; it may add one. */
  lemma ImportOneGivesUp(db: Db, before: Db, env: Env, choices: seq<Choice>, n: nat)
    requires Valid(db) && NoneNegative(db) && Valid(before) && InputsGrow(db.inputs, before.inputs)
    requires SameOrigins(db, before) && n < |choices| && n < |env.report.packages|
    requires QueueRowsAre(db, before, env, choices, n)
    ensures var cls, out := ClassAt(env, n), ImportOne(before, env, env.report.packages[n], choices[n]);
            && |before.inputs| <= |out.inputs| <= |before.inputs| + 1
            && (forall i: nat :: i < |before.inputs| ==>
                  out.inputs[i]
                  == if !IsClassQueued(db, before.inputs[i].cls) && IsAtLimit(db, env.cfg, before.inputs[i].cls)
                        && IsFlawed(env, choices, before.inputs[i].cls, n) then before.inputs[i].(nextRetry := None)
                     else before.inputs[i])
            && (|out.inputs| > |before.inputs| ==>
                  out.inputs[|before.inputs|]
                  == Input(out.inputs[|before.inputs|].source, cls, 0,
                           if env.cfg.initialDelay == 0
                              || (!IsClassQueued(db, cls) && IsAtLimit(db, env.cfg, cls)
                                  && IsFlawed(env, choices, cls, n)) then None
                           else Some(env.now + env.cfg.initialDelay)))
  {
    hide ImportOne, Valid, IsAtLimit, MaxRetries, InputOf, SourceOf, IsClassQueued;
    var p, c := env.report.packages[n], choices[n];
    var cls, input := ClassAt(env, n), InputOf(before, env, p);
    ImportOneInputRows(before, env, p, c);
    RegisteredIsValid(before, env, p);
    assert InClass(Registered(before, env, p).inputs, input, cls);
    ExhaustedIff(db, env.cfg, Registered(before, env, p).inputs, cls);
    QueuedIsQueued(before, cls);
    SameQueuedAtLimit(db, before, env, choices, n, cls);
  }

  lemma ImportOneInputRowsAre(db: Db, before: Db, env: Env, choices: seq<Choice>, n: nat)
    requires Valid(db) && NoneNegative(db) && Valid(before) && InputsGrow(db.inputs, before.inputs)
    requires SameOrigins(db, before) && n < |choices| && n < |env.report.packages|
    requires QueueRowsAre(db, before, env, choices, n) && InputRowsAre(db, before, env, choices, n)
    ensures InputRowsAre(db, ImportOne(before, env, env.report.packages[n], choices[n]), env, choices, n + 1)
  {
    hide ImportOne, Valid, IsAtLimit, InputOf, SourceOf, IsClassQueued, AddsJob, WasAdded, GivesUp, QueueRowsAre,
         IsFlawed;
    var p, c := env.report.packages[n], choices[n];
    var input, out, m := InputOf(before, env, p), ImportOne(before, env, p, c), n + 1;
    ImportOneEffect(before, env, p, c);
    ImportOneOrigins(before, env, p, c);
    ImportOneGivesUp(db, before, env, choices, n);
    forall i: nat | i < |before.inputs|
      ensures i < |db.inputs| ==>
                out.inputs[i] == if GivesUp(db, env, choices, 0, m, db.inputs[i].cls) then
                                   db.inputs[i].(nextRetry := None)
                                 else db.inputs[i]
      ensures i >= |db.inputs| ==> WasAdded(db, out, env, choices, m, i)
    {
      OldInputRow(db, before, out, env, choices, n, i);
    }
    if |out.inputs| > |before.inputs| {
      NewInputRow(db, before, out, env, choices, n);
    }
    forall k: nat | k <= n ensures HasInput(out, env, k) {
      if k < n {
        HasInputStays(before, out, env, k);
      } else {
        assert IsInputOf(out, env.report, p, input);
      }
    }
  }

  lemma HasInputStays(before: Db, out: Db, env: Env, k: nat)
    requires Valid(before) && SameOrigins(before, out) && k < |env.report.packages| && HasInput(before, env, k)
    ensures HasInput(out, env, k)
  {
    var i: nat :| IsInputOf(before, env.report, env.report.packages[k], i);
    StaysInputOf(before, out, env.report, env.report.packages[k], i);
  }

  lemma SameQueuedAtLimit(db: Db, before: Db, env: Env, choices: seq<Choice>, n: nat, cls: Class)
    requires Valid(db) && SameOrigins(db, before) && QueueRowsAre(db, before, env, choices, n)
    ensures IsAtLimit(db, env.cfg, cls) ==> (IsClassQueued(before, cls) <==> IsClassQueued(db, cls))
  {
    if IsClassQueued(db, cls) {
      ClassStaysQueued(db, before, cls);
    }
  }

  lemma {:induction false} ImportAllInputRows(db: Db, env: Env, choices: seq<Choice>, n: nat)
    requires Valid(db) && NoneNegative(db) && n <= |choices| <= |env.report.packages|
    ensures InputRowsAre(db, ImportAll(db, env, choices[..n]), env, choices, n)
  {
    hide ImportOne, Valid, InputRowsAre, QueueRowsAre;
    if n == 0 {
      NoInputRows(db, env, choices, n);
    } else {
      var before := ImportAll(db, env, choices[..n - 1]);
      assert choices[..n][..n - 1] == choices[..n - 1];
      ImportAllIsValid(db, env, choices[..n - 1]);
      ImportAllListsJobs(db, env, choices[..n - 1]);
      ImportAllQueue(db, env, choices, n - 1);
      ImportAllInputRows(db, env, choices, n - 1);
      ImportOneInputRowsAre(db, before, env, choices, n - 1);
    }
  }

  lemma NoInputRows(db: Db, env: Env, choices: seq<Choice>, n: nat)
    requires n == 0
    ensures InputRowsAre(db, db, env, choices, n)
  {
  }
}
