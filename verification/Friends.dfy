/** Friend classes: build inputs that share url, backend and architecture. */
module Friends {
  import opened Options
  import opened Rows

  predicate InClass(inputs: seq<Input>, i: nat, cls: Class) {
    i < |inputs| && inputs[i].cls == cls
  }

  ghost predicate HasMember(inputs: seq<Input>, cls: Class) {
    exists i: nat :: InClass(inputs, i, cls)
  }

  function FriendIds(inputs: seq<Input>, cls: Class): (ids: set<nat>) {
    set i: nat | 0 <= i < |inputs| && inputs[i].cls == cls
  }

  /** A queue row that belongs to a member of the class. */
  predicate QueuedIn(db: Db, q: nat, cls: Class) {
    q in db.queue && InClass(db.inputs, db.queue[q].input, cls)
  }

  ghost predicate HasQueuedFriend(db: Db, cls: Class) {
    exists q :: QueuedIn(db, q, cls)
  }

  /** `m` is the maximum of the retry counts of the class. */
  ghost predicate IsMaxRetries(inputs: seq<Input>, cls: Class, m: int) {
    && (exists i: nat :: InClass(inputs, i, cls) && inputs[i].retries == m)
    && (forall i: nat :: InClass(inputs, i, cls) ==> inputs[i].retries <= m)
  }

  /** The SQL aggregate; 0 stands for the NULL of a class without members. */
  function MaxRetries(inputs: seq<Input>, cls: Class): (m: int)
    ensures HasMember(inputs, cls) ==> IsMaxRetries(inputs, cls, m)
  {
    if |inputs| == 0 then 0
    else
      var last := inputs[|inputs| - 1];
      var rest := inputs[..|inputs| - 1];
      var m := MaxRetries(rest, cls);
      assert forall i: nat :: InClass(inputs, i, cls) && i != |inputs| - 1 ==> InClass(rest, i, cls);
      assert forall i: nat :: InClass(rest, i, cls) ==> InClass(inputs, i, cls);
      assert last.cls == cls ==> InClass(inputs, |inputs| - 1, cls);
      if last.cls != cls then m
      else if FriendIds(rest, cls) == {} || last.retries > m then
        assert FriendIds(rest, cls) == {} ==> forall i: nat | InClass(rest, i, cls) :: i in FriendIds(rest, cls);
        last.retries
      else
        assert forall i | i in FriendIds(rest, cls) :: InClass(rest, i, cls);
        m
  }

  lemma MaxRetriesIs(inputs: seq<Input>, cls: Class, m: int)
    requires IsMaxRetries(inputs, cls, m)
    ensures MaxRetries(inputs, cls) == m
  {
  }

  function SetNextRetry(inputs: seq<Input>, cls: Class, at: Option<Time>): (out: seq<Input>)
    ensures |out| == |inputs|
  {
    seq(|inputs|, i requires 0 <= i < |inputs| =>
      if inputs[i].cls == cls then inputs[i].(nextRetry := at) else inputs[i])
  }

  function BumpRetries(inputs: seq<Input>, cls: Class): (out: seq<Input>)
    ensures |out| == |inputs|
  {
    seq(|inputs|, i requires 0 <= i < |inputs| =>
      if inputs[i].cls == cls then inputs[i].(retries := inputs[i].retries + 1) else inputs[i])
  }

  /** No further retries: clears `next_retry` of the class and drops all its queue rows, held or not. */
  function GiveUp(db: Db, cls: Class): Db {
    db.(inputs := SetNextRetry(db.inputs, cls, None),
        queue := map q | q in db.queue && !InClass(db.inputs, db.queue[q].input, cls) :: db.queue[q])
  }

  predicate Exhausted(cfg: Config, retries: int) {
    cfg.maxRetries.Some? && retries >= cfg.maxRetries.value
  }

  /** Some queue row belongs to this build input. */
  predicate IsQueued(queue: map<nat, Job>, input: nat) {
    exists q | q in queue :: queue[q].input == input
  }

  /**
   Insert-or-update of a queue row.  On conflict only the priority changes: the row keeps its id,
   its queueing time and its lease.
   */
  function UpsertJob(db: Db, input: nat, priority: int, now: Time): Db {
    if IsQueued(db.queue, input) then
      db.(queue := map q | q in db.queue ::
          if db.queue[q].input == input then db.queue[q].(priority := priority) else db.queue[q])
    else
      db.(queue := db.queue[db.nextJob := Job(input, priority, now, None, None, None)],
          nextJob := db.nextJob + 1)
  }
}
