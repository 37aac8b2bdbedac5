/** Capturing the output of a build: size limit, timeout, and the signals sent to the process group. */
module ProcessCapture {
  import opened Options

  /** Nanoseconds. */
  type Instant = int

  const NANOS_PER_SECOND := 1_000_000_000
  const SIGKILL_DELAY := 10 * NANOS_PER_SECOND

  datatype Limits = Limits(timeout: nat, sizeLimit: Option<nat>, killAtSizeLimit: bool)

  datatype Signal = Sigterm(at: Instant) | Sigkill(at: Instant)

  /** One character of `output` is one byte of the log. */
  datatype State = State(output: string, sigtermSent: Option<Instant>, truncated: bool, sent: seq<Signal>)

  /**
   What the event loop reacts to.  `alive` says whether the child still has a process id, which it loses when
   its exit status has been collected.
   */
  datatype Event = Chunk(bytes: string, alive: bool, now: Instant) | Wakeup(alive: bool, now: Instant)

  // ----- messages -----

  function Decimal(n: nat): (digits: string)
    ensures |digits| > 0
  {
    var last := ['0' + (n % 10) as char];
    if n < 10 then last else Decimal(n / 10) + last
  }

  predicate AllDigits(s: string) {
    forall i :: 0 <= i < |s| ==> '0' <= s[i] <= '9'
  }

  /** The number that a reader of the log sees. */
  function Reading(digits: string): nat
    requires AllDigits(digits)
  {
    if digits == "" then 0 else Reading(digits[..|digits| - 1]) * 10 + (digits[|digits| - 1] - '0') as nat
  }

  /** The text of a message holds the number, without leading zeros. */
  lemma {:induction false} DecimalReads(n: nat)
    ensures AllDigits(Decimal(n)) && Reading(Decimal(n)) == n
    ensures n > 0 ==> Decimal(n)[0] != '0'
  {
    if n >= 10 {
      DecimalReads(n / 10);
      assert Decimal(n)[..|Decimal(n)| - 1] == Decimal(n / 10);
    }
  }

  function Message(reason: string): string {
    "\n\n" + reason + "\n\n"
  }

  function SizeMessage(limits: Limits): string {
    if limits.sizeLimit.Some? then Message("TRUNCATED DUE TO SIZE LIMIT: " + Decimal(limits.sizeLimit.value) + " bytes")
    else ""
  }

  function TimeoutMessage(limits: Limits): string {
    Message("TRUNCATED DUE TO TIMEOUT: " + Decimal(limits.timeout / NANOS_PER_SECOND) + " seconds")
  }

  // ----- steps -----

  /** The SIGTERM is recorded even when there is no process left to send it to. */
  function Truncated(s: State, message: string, kill: bool, alive: bool, now: Instant): State {
    State(s.output + message,
          if kill then Some(now) else s.sigtermSent,
          true,
          if kill && alive then s.sent + [Sigterm(now)] else s.sent)
  }

  predicate WithinLimit(limits: Limits, output: string) {
    limits.sizeLimit.Some? ==> |output| <= limits.sizeLimit.value
  }

  predicate LimitReached(limits: Limits, output: string) {
    limits.sizeLimit.Some? && |output| >= limits.sizeLimit.value
  }

  function Prefix(limits: Limits, bytes: string): string {
    if limits.sizeLimit.Some? && limits.sizeLimit.value < |bytes| then bytes[..limits.sizeLimit.value] else bytes
  }

  function Pushed(s: State, limits: Limits, bytes: string, alive: bool, now: Instant): State {
    if s.truncated then s
    else if limits.sizeLimit.Some? && (bytes == "" || LimitReached(limits, s.output)) then
      Truncated(s, SizeMessage(limits), limits.killAtSizeLimit, alive, now)
    else
      s.(output := Prefix(limits, s.output + bytes))
  }

  predicate KillDue(s: State, alive: bool, now: Instant) {
    s.sigtermSent.Some? && now - s.sigtermSent.value > SIGKILL_DELAY && alive
  }

  predicate TimedOut(limits: Limits, start: Instant, now: Instant) {
    now - start > limits.timeout
  }

  function Woken(s: State, limits: Limits, start: Instant, alive: bool, now: Instant): State {
    var killed := if KillDue(s, alive, now) then s.(sent := s.sent + [Sigkill(now)]) else s;
    if TimedOut(limits, start, now) && s.sigtermSent.None? then
      Truncated(killed, TimeoutMessage(limits), true, alive, now)
    else killed
  }

  function Step(s: State, limits: Limits, start: Instant, e: Event): State {
    match e
    case Chunk(bytes, alive, now) => Pushed(s, limits, bytes, alive, now)
    case Wakeup(alive, now) => Woken(s, limits, start, alive, now)
  }

  function Run(log: string, limits: Limits, start: Instant, es: seq<Event>): State {
    if |es| == 0 then State(log, None, false, [])
    else Step(Run(log, limits, start, es[..|es| - 1]), limits, start, es[|es| - 1])
  }

  // ----- what the log contains in the end -----

  /** Everything that was read, in order. */
  function AllBytes(es: seq<Event>): string {
    if |es| == 0 then ""
    else
      var last := es[|es| - 1];
      AllBytes(es[..|es| - 1]) + if last.Chunk? then last.bytes else ""
  }

  /** The event finds the limit reached by what was read before it (or is an empty chunk). */
  predicate HitsLimit(log: string, limits: Limits, es: seq<Event>, n: nat)
    requires n < |es|
  {
    && es[n].Chunk?
    && limits.sizeLimit.Some?
    && (es[n].bytes == "" || LimitReached(limits, log + AllBytes(es[..n])))
  }

  predicate HitsTimeout(limits: Limits, start: Instant, e: Event) {
    e.Wakeup? && TimedOut(limits, start, e.now)
  }

  /** `n` is the first event that stops the capture, or the number of events if none does. */
  ghost predicate IsStop(log: string, limits: Limits, start: Instant, es: seq<Event>, n: nat) {
    && n <= |es|
    && (n < |es| ==> HitsLimit(log, limits, es, n) || HitsTimeout(limits, start, es[n]))
    && forall m :: 0 <= m < n ==> !HitsLimit(log, limits, es, m) && !HitsTimeout(limits, start, es[m])
  }

  ghost predicate TimesOutAfter(limits: Limits, start: Instant, es: seq<Event>, n: nat) {
    exists m :: n <= m < |es| && HitsTimeout(limits, start, es[m])
  }

  /** The messages that follow the captured bytes when event `n` is the first to stop the capture. */
  ghost function Ending(log: string, limits: Limits, start: Instant, es: seq<Event>, n: nat): string
    requires n <= |es|
  {
    if n == |es| then ""
    else if HitsTimeout(limits, start, es[n]) then TimeoutMessage(limits)
    else
      SizeMessage(limits)
      + if !limits.killAtSizeLimit && TimesOutAfter(limits, start, es, n + 1) then TimeoutMessage(limits) else ""
  }

  lemma StopOfPrefix(log: string, limits: Limits, start: Instant, es: seq<Event>, n: nat)
    requires |es| > 0 && IsStop(log, limits, start, es, n)
    ensures IsStop(log, limits, start, es[..|es| - 1], if n < |es| then n else n - 1)
    ensures n < |es| ==> es[..|es| - 1][..n] == es[..n]
  {
    var rest := es[..|es| - 1];
    assert forall m :: 0 <= m <= |rest| ==> rest[..m] == es[..m];
    assert forall m :: 0 <= m < |rest| ==> (HitsLimit(log, limits, rest, m) <==> HitsLimit(log, limits, es, m));
  }

  lemma {:induction false} BeforeStop(log: string, limits: Limits, start: Instant, es: seq<Event>)
    requires WithinLimit(limits, log) && IsStop(log, limits, start, es, |es|)
    ensures Run(log, limits, start, es) == State(Prefix(limits, log + AllBytes(es)), None, false, [])
  {
    if |es| > 0 {
      var k := |es| - 1;
      StopOfPrefix(log, limits, start, es, |es|);
      BeforeStop(log, limits, start, es[..k]);
      assert !HitsLimit(log, limits, es, k);
      assert log + AllBytes(es) == log + AllBytes(es[..k]) + if es[k].Chunk? then es[k].bytes else "";
    } else {
      assert log + AllBytes(es) == log;
    }
  }

  lemma AtStop(log: string, limits: Limits, start: Instant, es: seq<Event>)
    requires |es| > 0 && WithinLimit(limits, log) && IsStop(log, limits, start, es, |es| - 1)
    ensures var s := Run(log, limits, start, es);
            && s.output == Prefix(limits, log + AllBytes(es[..|es| - 1])) + Ending(log, limits, start, es, |es| - 1)
            && s.truncated
            && (s.sigtermSent.Some? <==> limits.killAtSizeLimit || TimesOutAfter(limits, start, es, |es| - 1))
  {
    hide SizeMessage, TimeoutMessage;
    var k := |es| - 1;
    StopOfPrefix(log, limits, start, es, k);
    BeforeStop(log, limits, start, es[..k]);
    TimesOutOneMore(limits, start, es, k);
    TimesOutOneMore(limits, start, es, k + 1);
  }

  /**
   The log holds the first bytes of what was read before the capture stopped, however they were chunked,
   followed by at most one size message and at most one timeout message.
   */
  lemma {:induction false} LogIsPrefixAndEnding(log: string, limits: Limits, start: Instant, es: seq<Event>, n: nat)
    requires WithinLimit(limits, log)
    requires IsStop(log, limits, start, es, n)
    ensures Run(log, limits, start, es).output
            == Prefix(limits, log + AllBytes(es[..n])) + Ending(log, limits, start, es, n)
    ensures Run(log, limits, start, es).truncated <==> n < |es|
    ensures Run(log, limits, start, es).sigtermSent.Some? <==>
              n < |es| && (limits.killAtSizeLimit || TimesOutAfter(limits, start, es, n))
  {
    hide SizeMessage, TimeoutMessage, HitsLimit, TimesOutAfter, Prefix;
    if n == |es| {
      assert es[..n] == es;
      BeforeStop(log, limits, start, es);
    } else if n == |es| - 1 {
      AtStop(log, limits, start, es);
    } else {
      var rest := es[..|es| - 1];
      StopOfPrefix(log, limits, start, es, n);
      LogIsPrefixAndEnding(log, limits, start, rest, n);
      assert HitsTimeout(limits, start, es[n]) ==> TimesOutAfter(limits, start, rest, n) by {
        StopTimesOut(limits, start, rest, n);
      }
      TimesOutOneMore(limits, start, es, n);
      TimesOutOneMore(limits, start, es, n + 1);
      StopTimesOut(limits, start, rest, n);
    }
  }

  lemma StopTimesOut(limits: Limits, start: Instant, es: seq<Event>, n: nat)
    requires n < |es|
    ensures HitsTimeout(limits, start, es[n]) ==> TimesOutAfter(limits, start, es, n)
    ensures TimesOutAfter(limits, start, es, n) <==>
              HitsTimeout(limits, start, es[n]) || TimesOutAfter(limits, start, es, n + 1)
  {
  }

  lemma TimesOutOneMore(limits: Limits, start: Instant, es: seq<Event>, n: nat)
    requires |es| > 0
    ensures TimesOutAfter(limits, start, es, n)
            <==> TimesOutAfter(limits, start, es[..|es| - 1], n)
                 || (n < |es| && HitsTimeout(limits, start, es[|es| - 1]))
  {
  }

  /** The event finds the limit reached by what was read before, or the timeout passed. */
  predicate StopsAt(log: string, limits: Limits, start: Instant, es: seq<Event>, n: nat)
    requires n < |es|
  {
    match es[n]
    case Chunk(bytes, _, _) =>
      limits.sizeLimit.Some? && (bytes == "" || |log| + |AllBytes(es[..n])| >= limits.sizeLimit.value)
    case Wakeup(_, now) => now - start > limits.timeout
  }

  /** With an empty line before and behind. */
  function OnOwnLines(text: string): string {
    "\n\n" + text + "\n\n"
  }

  lemma StopsIff(log: string, limits: Limits, start: Instant, es: seq<Event>, n: nat)
    requires n < |es|
    ensures StopsAt(log, limits, start, es, n) <==> HitsLimit(log, limits, es, n) || HitsTimeout(limits, start, es[n])
    ensures HitsLimit(log, limits, es, n) ==> es[n].Chunk? && limits.sizeLimit.Some?
  {
  }

  /** The same with the messages written out. */
  lemma LogIs(log: string, limits: Limits, start: Instant, es: seq<Event>, n: nat)
    requires limits.sizeLimit.Some? ==> |log| <= limits.sizeLimit.value
    requires n <= |es| && (n < |es| ==> StopsAt(log, limits, start, es, n))
    requires forall m :: 0 <= m < n ==> !StopsAt(log, limits, start, es, m)
    ensures var all := log + AllBytes(es[..n]);
            var kept := if limits.sizeLimit.Some? && limits.sizeLimit.value < |all| then all[..limits.sizeLimit.value]
                        else all;
            var late := exists m :: n < m < |es| && es[m].Wakeup? && es[m].now - start > limits.timeout;
            Run(log, limits, start, es).output
            == kept
               + (if n < |es| && es[n].Chunk? then
                    OnOwnLines("TRUNCATED DUE TO SIZE LIMIT: " + Decimal(limits.sizeLimit.value) + " bytes")
                  else "")
               + if n < |es| && (es[n].Wakeup? || (!limits.killAtSizeLimit && late)) then
                   OnOwnLines("TRUNCATED DUE TO TIMEOUT: " + Decimal(limits.timeout / 1_000_000_000) + " seconds")
                 else ""
  {
    hide Run, Decimal, StopsAt, HitsLimit, AllBytes;
    forall m | 0 <= m < |es|
      ensures StopsAt(log, limits, start, es, m) <==> HitsLimit(log, limits, es, m) || HitsTimeout(limits, start, es[m])
    {
      StopsIff(log, limits, start, es, m);
    }
    if n < |es| {
      StopsIff(log, limits, start, es, n);
    }
    LogIsPrefixAndEnding(log, limits, start, es, n);
  }

  /** A chunk that crosses the size limit is cut, and nothing in the log tells. */
  lemma SilentCutExample() returns (limits: Limits, es: seq<Event>)
    ensures LoopShaped(es) && |Run("", limits, 0, es).output| < |AllBytes(es)|
    ensures Run("", limits, 0, es).output == AllBytes(es)[..|Run("", limits, 0, es).output|]
    ensures !Run("", limits, 0, es).truncated
  {
    limits := Limits(60 * NANOS_PER_SECOND, Some(1), false);
    es := [Wakeup(true, 0), Chunk("ab", true, 0)];
    var first := es[..1];
    assert first == [Wakeup(true, 0)] && first[..0] == [];
    assert Run("", limits, 0, first) == State("", None, false, []);
    assert AllBytes(first) == "" && AllBytes(es) == "" + "ab";
    assert Run("", limits, 0, es).output == "a";
  }

  lemma {:induction false} StopExists(log: string, limits: Limits, start: Instant, es: seq<Event>) returns (n: nat)
    ensures IsStop(log, limits, start, es, n)
  {
    if |es| == 0 {
      n := 0;
    } else {
      var k := |es| - 1;
      var rest := es[..k];
      n := StopExists(log, limits, start, rest);
      assert forall m :: 0 <= m <= k ==> rest[..m] == es[..m];
      assert forall m :: 0 <= m < k ==> (HitsLimit(log, limits, rest, m) <==> HitsLimit(log, limits, es, m));
      if n == k && !HitsLimit(log, limits, es, k) && !HitsTimeout(limits, start, es[k]) {
        n := |es|;
      }
    }
  }

  // ----- signals -----

  /** Every signal so far belongs to the one recorded SIGTERM. */
  ghost predicate SignalsOrderly(s: State) {
    && (forall i, j :: 0 <= i < j < |s.sent| && s.sent[i].Sigterm? ==> s.sent[j].Sigkill?)
    && (s.sigtermSent.None? ==> s.sent == [])
    && (forall i :: 0 <= i < |s.sent| && s.sent[i].Sigterm? ==> s.sigtermSent == Some(s.sent[i].at))
    && (forall i :: 0 <= i < |s.sent| && s.sent[i].Sigkill? ==>
          s.sigtermSent.Some? && s.sent[i].at - s.sigtermSent.value > SIGKILL_DELAY)
    && (s.sigtermSent.Some? ==> s.truncated)
  }

  /**
   At most one SIGTERM is sent, and SIGKILL only more than SIGKILL_DELAY after a recorded SIGTERM.
   The time of the SIGTERM is recorded once and never changes.
   */
  lemma {:induction false} SignalSafety(log: string, limits: Limits, start: Instant, es: seq<Event>)
    ensures SignalsOrderly(Run(log, limits, start, es))
    ensures |es| > 0 && Run(log, limits, start, es[..|es| - 1]).sigtermSent.Some? ==>
              Run(log, limits, start, es).sigtermSent == Run(log, limits, start, es[..|es| - 1]).sigtermSent
  {
    hide SizeMessage, TimeoutMessage, Prefix;
    if |es| > 0 {
      SignalSafety(log, limits, start, es[..|es| - 1]);
    }
  }

  /** Event `k` is the first that calls for SIGTERM, or none does; `n` is the first that stops the capture. */
  ghost predicate IsSigterm(limits: Limits, start: Instant, es: seq<Event>, n: nat, k: nat) {
    && n <= k <= |es|
    && if n < |es| && limits.killAtSizeLimit then k == n
       else (forall m :: n <= m < k ==> !HitsTimeout(limits, start, es[m]))
            && (k < |es| ==> HitsTimeout(limits, start, es[k]))
  }

  /** One SIGKILL for each wakeup after event `k` that finds the child there more than ten seconds after `at`. */
  function LateKills(es: seq<Event>, k: nat, at: Instant): seq<Signal> {
    if |es| <= k + 1 then []
    else
      var last := es[|es| - 1];
      LateKills(es[..|es| - 1], k, at)
      + if last.Wakeup? && last.alive && last.now - at > 10_000_000_000 then [Sigkill(last.now)] else []
  }

  /**
   Which signals are sent: SIGTERM when the capture stops for the first time for a reason that kills, if there is a
   process left, and SIGKILL at every wakeup that finds one more than ten seconds later.
   */
  lemma {:induction false} SignalsAre(log: string, limits: Limits, start: Instant, es: seq<Event>, n: nat, k: nat)
    requires WithinLimit(limits, log) && IsStop(log, limits, start, es, n) && IsSigterm(limits, start, es, n, k)
    ensures var s := Run(log, limits, start, es);
            if k == |es| then s.sigtermSent == None && s.sent == []
            else
              && s.sigtermSent == Some(es[k].now)
              && s.sent == (if es[k].alive then [Sigterm(es[k].now)] else []) + LateKills(es, k, es[k].now)
  {
    hide SizeMessage, TimeoutMessage, HitsLimit, Prefix, IsStop;
    if n == |es| {
      BeforeStop(log, limits, start, es);
    } else if n == |es| - 1 {
      SignalAtStop(log, limits, start, es);
    } else {
      var rest := es[..|es| - 1];
      StopOfPrefix(log, limits, start, es, n);
      LogIsPrefixAndEnding(log, limits, start, rest, n);
      SigtermOfPrefix(limits, start, es, n, k);
      SignalsAre(log, limits, start, rest, n, if k < |rest| then k else |rest|);
    }
  }

  lemma SignalAtStop(log: string, limits: Limits, start: Instant, es: seq<Event>)
    requires |es| > 0 && WithinLimit(limits, log) && IsStop(log, limits, start, es, |es| - 1)
    ensures var s, last := Run(log, limits, start, es), es[|es| - 1];
            if limits.killAtSizeLimit || HitsTimeout(limits, start, last) then
              s.sigtermSent == Some(last.now) && s.sent == if last.alive then [Sigterm(last.now)] else []
            else s.sigtermSent == None && s.sent == []
  {
    hide SizeMessage, TimeoutMessage;
    StopOfPrefix(log, limits, start, es, |es| - 1);
    BeforeStop(log, limits, start, es[..|es| - 1]);
  }

  lemma SigtermOfPrefix(limits: Limits, start: Instant, es: seq<Event>, n: nat, k: nat)
    requires |es| > 0 && n < |es| && IsSigterm(limits, start, es, n, k)
    ensures var m := |es| - 1;
            IsSigterm(limits, start, es[..m], if n < m then n else m, if k < m then k else m)
  {
  }

  // ----- the capture object and its event loop -----

  class Child {
    var alive: bool
    var sent: seq<Signal>

    constructor ()
      ensures alive && sent == []
    {
      alive, sent := true, [];
    }

    method Kill(signal: Signal)
      modifies this`sent
      ensures sent == old(sent) + [signal]
    {
      sent := sent + [signal];
    }
  }

  class Capture {
    const limits: Limits
    const start: Instant
    var output: string
    var sigtermSent: Option<Instant>
    var truncated: bool

    constructor (log: string, limits: Limits, start: Instant)
      ensures this.limits == limits && this.start == start
      ensures output == log && sigtermSent == None && !truncated
    {
      this.limits, this.start := limits, start;
      output, sigtermSent, truncated := log, None, false;
    }

    ghost function StateWith(child: Child): State
      reads this, child
    {
      State(output, sigtermSent, truncated, child.sent)
    }

    method PushBytes(child: Child, bytes: string, now: Instant)
      requires !truncated ==> WithinLimit(limits, output)
      modifies this, child`sent
      ensures StateWith(child) == Pushed(old(StateWith(child)), limits, bytes, child.alive, now)
      ensures !truncated ==> WithinLimit(limits, output)
    {
      var slice := bytes;
      if !truncated {
        if limits.sizeLimit.Some? {
          var room := limits.sizeLimit.value - |output|;
          var n := if room < |slice| then room else |slice|;
          if n < 1 {
            Truncate(child, SizeMessage(limits), limits.killAtSizeLimit, now);
            return;
          }
          slice := slice[..n];
        }
        output := output + slice;
      }
    }

    method Truncate(child: Child, message: string, kill: bool, now: Instant)
      modifies this, child`sent
      ensures StateWith(child) == Truncated(old(StateWith(child)), message, kill, child.alive, now)
    {
      if kill {
        if child.alive {
          child.Kill(Sigterm(now));
        }
        sigtermSent := Some(now);
      }
      output := output + message;
      truncated := true;
    }

    /** Sends what is due; `killed` tells the loop to stop reading. */
    method NextWakeup(child: Child, now: Instant) returns (remaining: int, killed: bool)
      modifies this, child`sent
      ensures StateWith(child) == Woken(old(StateWith(child)), limits, start, child.alive, now)
      ensures killed == KillDue(old(StateWith(child)), child.alive, now)
      ensures !truncated ==> !old(truncated) && output == old(output)
      ensures remaining == if TimedOut(limits, start, now) then SIGKILL_DELAY else limits.timeout - (now - start)
    {
      killed := sigtermSent.Some? && now - sigtermSent.value > SIGKILL_DELAY && child.alive;
      if killed {
        child.Kill(Sigkill(now));
      }
      if limits.timeout >= now - start {
        return limits.timeout - (now - start), killed;
      } else if sigtermSent.None? {
        Truncate(child, TimeoutMessage(limits), true, now);
      }
      return SIGKILL_DELAY, killed;
    }
  }

  /** What one round of the event loop sees: an empty read means the stream was closed. */
  datatype Happening = Stdout(bytes: string) | Stderr(bytes: string) | Exited(success: bool) | Slept

  datatype Round = Round(wokenAt: Instant, readAt: Instant, alive: bool, happening: Happening)

  /** Every chunk is non-empty and was read right after a wakeup. */
  ghost predicate LoopShaped(es: seq<Event>) {
    forall n :: 0 <= n < |es| && es[n].Chunk? ==> es[n].bytes != "" && n > 0 && es[n - 1].Wakeup?
  }

  /** The event sends SIGKILL. */
  predicate Kills(log: string, limits: Limits, start: Instant, es: seq<Event>, n: nat)
    requires n < |es|
  {
    es[n].Wakeup? && KillDue(Run(log, limits, start, es[..n]), es[n].alive, es[n].now)
  }

  ghost predicate NoneKills(log: string, limits: Limits, start: Instant, es: seq<Event>) {
    forall n :: 0 <= n < |es| ==> !Kills(log, limits, start, es, n)
  }

  /** Once SIGKILL has been sent, nothing more is captured. */
  ghost predicate SilentAfterKill(log: string, limits: Limits, start: Instant, es: seq<Event>) {
    forall n :: 0 <= n < |es| && es[n].Chunk? ==> NoneKills(log, limits, start, es[..n])
  }

  lemma OneMoreEvent(log: string, limits: Limits, start: Instant, es: seq<Event>, e: Event)
    ensures Run(log, limits, start, es + [e]) == Step(Run(log, limits, start, es), limits, start, e)
    ensures AllBytes(es + [e]) == AllBytes(es) + if e.Chunk? then e.bytes else ""
    ensures forall n :: 0 <= n < |es| ==> (Kills(log, limits, start, es + [e], n) <==> Kills(log, limits, start, es, n))
    ensures Kills(log, limits, start, es + [e], |es|) <==>
              e.Wakeup? && KillDue(Run(log, limits, start, es), e.alive, e.now)
  {
    hide Step, KillDue;
    var all := es + [e];
    assert all[..|es|] == es;
    assert forall n :: 0 <= n <= |es| ==> all[..n] == es[..n];
  }

  lemma StaysQuiet(log: string, limits: Limits, start: Instant, es: seq<Event>, e: Event)
    requires LoopShaped(es) && SilentAfterKill(log, limits, start, es)
    requires e.Chunk? ==> NoneKills(log, limits, start, es) && e.bytes != "" && |es| > 0 && es[|es| - 1].Wakeup?
    ensures LoopShaped(es + [e]) && SilentAfterKill(log, limits, start, es + [e])
    ensures NoneKills(log, limits, start, es) && !Kills(log, limits, start, es + [e], |es|) ==>
              NoneKills(log, limits, start, es + [e])
  {
    hide Run, Kills;
    OneMoreEvent(log, limits, start, es, e);
    var all := es + [e];
    forall n | 0 <= n < |all| && all[n].Chunk? ensures NoneKills(log, limits, start, all[..n]) {
      assert all[..n] == es[..n];
    }
  }

  lemma StartsQuietly(log: string, limits: Limits, start: Instant)
    ensures Run(log, limits, start, []) == State(log, None, false, [])
    ensures AllBytes([]) == "" && AllReads([]) == ""
    ensures LoopShaped([]) && SilentAfterKill(log, limits, start, []) && NoneKills(log, limits, start, [])
  {
  }

  /** What the streams delivered, in order. */
  function AllReads(rounds: seq<Round>): string {
    if |rounds| == 0 then ""
    else
      var last := rounds[|rounds| - 1].happening;
      AllReads(rounds[..|rounds| - 1]) + if last.Stdout? || last.Stderr? then last.bytes else ""
  }

  lemma OneMoreRound(rounds: seq<Round>, r: nat)
    requires r < |rounds|
    ensures var last := rounds[r].happening;
            AllReads(rounds[..r + 1]) == AllReads(rounds[..r]) + if last.Stdout? || last.Stderr? then last.bytes else ""
  {
    assert rounds[..r + 1][..r] == rounds[..r];
  }

  // ----- how far the loop listens -----

  /** What the first `n` rounds make of the capture when it hears the first `heard` of them: wakeups and reads. */
  function Trace(rounds: seq<Round>, heard: nat, n: nat): seq<Event>
    requires n <= |rounds|
  {
    if n == 0 then []
    else
      var round := rounds[n - 1];
      Trace(rounds, heard, n - 1) + [Wakeup(round.alive, round.wokenAt)]
      + if n <= heard && (round.happening.Stdout? || round.happening.Stderr?) && round.happening.bytes != "" then
          [Chunk(round.happening.bytes, round.alive, round.readAt)]
        else []
  }

  /** Among the first `n` rounds both streams deliver an empty read. */
  ghost predicate BothEnded(rounds: seq<Round>, n: nat)
    requires n <= |rounds|
  {
    Ended(rounds, n, Stdout("")) && Ended(rounds, n, Stderr(""))
  }

  ghost predicate Ended(rounds: seq<Round>, n: nat, end: Happening)
    requires n <= |rounds|
  {
    exists r :: 0 <= r < n && rounds[r].happening == end
  }

  /**
   The wakeup of round `r` sends SIGKILL: the child is there more than ten seconds after the SIGTERM recorded for
   what the rounds before have delivered.
   */
  predicate RoundKills(log: string, limits: Limits, start: Instant, rounds: seq<Round>, r: nat)
    requires r < |rounds|
  {
    var s := Run(log, limits, start, Trace(rounds, r, r));
    s.sigtermSent.Some? && rounds[r].alive && rounds[r].wokenAt - s.sigtermSent.value > 10_000_000_000
  }

  /** The loop hears every round until both streams have ended, or SIGKILL is sent. */
  ghost predicate HearsAll(log: string, limits: Limits, start: Instant, rounds: seq<Round>, heard: nat) {
    && heard <= |rounds|
    && (forall r :: 0 <= r < heard ==> !BothEnded(rounds, r) && !RoundKills(log, limits, start, rounds, r))
    && (heard == |rounds| || BothEnded(rounds, heard) || RoundKills(log, limits, start, rounds, heard))
  }

  /** The answer is that of the first exit after the last round heard; None if there is none. */
  ghost predicate IsAnswer(rounds: seq<Round>, heard: nat, took: nat, success: Option<bool>) {
    && heard <= took <= |rounds|
    && (forall r :: heard <= r < took - 1 ==> !rounds[r].happening.Exited?)
    && if success.Some? then heard < took && rounds[took - 1].happening == Exited(success.value)
       else took == |rounds| && (heard < took ==> !rounds[took - 1].happening.Exited?)
  }

  lemma EndedOneMore(rounds: seq<Round>, n: nat, end: Happening)
    requires n < |rounds|
    ensures Ended(rounds, n + 1, end) <==> Ended(rounds, n, end) || rounds[n].happening == end
  {
  }

  /** Where the loop is before round `r`. */
  ghost predicate Listens(
      log: string, limits: Limits, start: Instant, rounds: seq<Round>, r: nat, heard: nat, stdout: bool, stderr: bool)
  {
    && heard <= r <= |rounds|
    && (forall n :: 0 <= n < heard ==> !BothEnded(rounds, n) && !RoundKills(log, limits, start, rounds, n))
    && (if stdout || stderr then
          heard == r && stdout == !Ended(rounds, r, Stdout("")) && stderr == !Ended(rounds, r, Stderr(""))
        else BothEnded(rounds, heard) || (heard < r && RoundKills(log, limits, start, rounds, heard)))
    && (forall n :: heard <= n < r ==> !rounds[n].happening.Exited?)
  }

  lemma StartsListening(log: string, limits: Limits, start: Instant, rounds: seq<Round>)
    ensures Trace(rounds, 0, 0) == [] && Listens(log, limits, start, rounds, 0, 0, true, true)
  {
  }

  /** Round `r` is heard. */
  lemma ListensOn(
      log: string, limits: Limits, start: Instant, rounds: seq<Round>, r: nat, heard: nat, stdout: bool, stderr: bool)
    requires r < |rounds| && Listens(log, limits, start, rounds, r, heard, stdout, stderr) && (stdout || stderr)
    requires !RoundKills(log, limits, start, rounds, r)
    ensures heard == r
    ensures Listens(log, limits, start, rounds, r + 1, r + 1, stdout && rounds[r].happening != Stdout(""),
                    stderr && rounds[r].happening != Stderr(""))
  {
    hide RoundKills, Ended;
    EndedOneMore(rounds, r, Stdout(""));
    EndedOneMore(rounds, r, Stderr(""));
  }

  /** Round `r` is not heard: both streams are closed already, or its wakeup closes them. */
  lemma ListensNoMore(
      log: string, limits: Limits, start: Instant, rounds: seq<Round>, r: nat, heard: nat, stdout: bool, stderr: bool)
    requires r < |rounds| && Listens(log, limits, start, rounds, r, heard, stdout, stderr)
    requires stdout || stderr ==> RoundKills(log, limits, start, rounds, r)
    ensures if rounds[r].happening.Exited? then
              && HearsAll(log, limits, start, rounds, heard)
              && IsAnswer(rounds, heard, r + 1, Some(rounds[r].happening.success))
            else Listens(log, limits, start, rounds, r + 1, heard, false, false)
  {
    hide RoundKills, Ended;
  }

  lemma ListenedToAll(
      log: string, limits: Limits, start: Instant, rounds: seq<Round>, heard: nat, stdout: bool, stderr: bool)
    requires Listens(log, limits, start, rounds, |rounds|, heard, stdout, stderr)
    ensures HearsAll(log, limits, start, rounds, heard) && IsAnswer(rounds, heard, |rounds|, None)
  {
    hide RoundKills, Ended;
  }

  lemma {:induction false} SameWhileHeard(rounds: seq<Round>, heard: nat, more: nat, n: nat)
    requires n <= |rounds| && n <= heard && n <= more
    ensures Trace(rounds, heard, n) == Trace(rounds, more, n)
  {
    if n > 0 {
      SameWhileHeard(rounds, heard, more, n - 1);
    }
  }

  /** What round `r` adds to the trace, depending on whether it is heard. */
  lemma TraceOneMore(rounds: seq<Round>, heard: nat, r: nat)
    requires heard <= r < |rounds|
    ensures var round := rounds[r];
            var woken := Trace(rounds, heard, r) + [Wakeup(round.alive, round.wokenAt)];
            && Trace(rounds, heard, r + 1) == woken
            && (heard == r ==>
                  Trace(rounds, r + 1, r + 1)
                  == if (round.happening.Stdout? || round.happening.Stderr?) && round.happening.bytes != "" then
                       woken + [Chunk(round.happening.bytes, round.alive, round.readAt)]
                     else woken)
  {
    SameWhileHeard(rounds, r, r + 1, r);
  }

  /**
   The event loop around the capture, for any sequence of happenings, of which it takes the first `took`; None if they
   end before the child does.  The capture sees the reads of the first `heard` rounds as its chunks.
   */
  method CaptureOutput(log: string, limits: Limits, start: Instant, rounds: seq<Round>)
    returns (success: Option<bool>, output: string, es: seq<Event>, heard: nat, took: nat)
    requires WithinLimit(limits, log)
    ensures output == Run(log, limits, start, es).output
    ensures HearsAll(log, limits, start, rounds, heard) && IsAnswer(rounds, heard, took, success)
    ensures took <= |rounds| && es == Trace(rounds, heard, took)
    ensures heard <= |rounds| && AllBytes(es) == AllReads(rounds[..heard])
    ensures LoopShaped(es) && SilentAfterKill(log, limits, start, es)
    ensures SignalsOrderly(Run(log, limits, start, es))
  {
    hide Run, KillDue, Woken, Pushed, Kills, SilentAfterKill, NoneKills, SignalsOrderly, AllBytes, AllReads, Listens,
         RoundKills, Trace, HearsAll, IsAnswer, LoopShaped, SizeMessage;
    StartsQuietly(log, limits, start);
    StartsListening(log, limits, start, rounds);
    var child := new Child();
    var cap := new Capture(log, limits, start);
    var stdoutOpen, stderrOpen := true, true;
    success, es, heard, took := None, [], 0, 0;
    for r := 0 to |rounds|
      invariant cap.limits == limits && cap.start == start
      invariant cap.StateWith(child) == Run(log, limits, start, es)
      invariant !cap.truncated ==> WithinLimit(limits, cap.output)
      invariant LoopShaped(es) && SilentAfterKill(log, limits, start, es)
      invariant stdoutOpen || stderrOpen ==> NoneKills(log, limits, start, es) && heard == r
      invariant heard <= r && AllBytes(es) == AllReads(rounds[..heard])
      invariant took == r && success.None? && es == Trace(rounds, heard, r)
      invariant Listens(log, limits, start, rounds, r, heard, stdoutOpen, stderrOpen)
    {
      var round := rounds[r];
      child.alive := round.alive;
      var woken := Wakeup(round.alive, round.wokenAt);
      OneMoreEvent(log, limits, start, es, woken);
      StaysQuiet(log, limits, start, es, woken);
      KillsAtRound(log, limits, start, rounds, r);
      TraceOneMore(rounds, heard, r);
      var remaining, killed := cap.NextWakeup(child, round.wokenAt);
      es, took := es + [woken], r + 1;
      if (stdoutOpen || stderrOpen) && !killed {
        ListensOn(log, limits, start, rounds, r, heard, stdoutOpen, stderrOpen);
      } else {
        ListensNoMore(log, limits, start, rounds, r, heard, stdoutOpen, stderrOpen);
      }
      if killed {
        stdoutOpen, stderrOpen := false, false;
      }
      if stdoutOpen || stderrOpen {
        OneMoreRound(rounds, r);
        heard := r + 1;
        if round.happening.Stdout? || round.happening.Stderr? {
          if round.happening.bytes != "" {
            var chunk := Chunk(round.happening.bytes, round.alive, round.readAt);
            OneMoreEvent(log, limits, start, es, chunk);
            StaysQuiet(log, limits, start, es, chunk);
            cap.PushBytes(child, round.happening.bytes, round.readAt);
            es := es + [chunk];
          } else if round.happening.Stdout? {
            stdoutOpen := false;
          } else {
            stderrOpen := false;
          }
        }
      } else if round.happening.Exited? {
        success := Some(round.happening.success);
        break;
      }
    }
    if success.None? {
      ListenedToAll(log, limits, start, rounds, heard, stdoutOpen, stderrOpen);
    }
    output := cap.output;
    SignalSafety(log, limits, start, es);
  }

  lemma KillsAtRound(log: string, limits: Limits, start: Instant, rounds: seq<Round>, r: nat)
    requires r < |rounds|
    ensures RoundKills(log, limits, start, rounds, r) <==>
              KillDue(Run(log, limits, start, Trace(rounds, r, r)), rounds[r].alive, rounds[r].wokenAt)
  {
  }
}
