/** The live relay loop of src/nostr_listener.rs: a silence watchdog, recovery from closed
    subscriptions, and a sliding-window budget for relay-driven recoveries. Times are milliseconds
    of the monotonic clock. */
module Listener {
  import opened Redis

  const RATE_LIMIT_RECOVERY_BACKOFF := 5000
  const CLOSED_RECOVERY_GRACE := 5000
  const MAX_CLOSED_RECOVERIES_PER_WINDOW := 3

  /** The two subscriptions the listener owns. */
  datatype Subscription = Notifications | NotifyLists

  datatype Notification =
    | Event(fromService: bool)
    | Closed(subscription: Option<Subscription>, rateLimited: bool)
    | Message
    | Shutdown
    | Lagged
    | Disconnected

  datatype Signal = Cancel | Receive(notification: Notification)

  /** How a resubscription or a send to the event handler ends. */
  datatype Answer = Proceeds | Stops | Fails

  /** What one turn of the loop meets: the next signal is ready from `arrival` on, the loop runs
      `lag` late, and a resubscription or send takes `took`. */
  datatype Turn = Turn(arrival: nat, lag: nat, signal: Signal, took: nat, answer: Answer, cancelledInBackoff: bool)

  datatype ClosedRecovery =
      ClosedRecovery(trigger: Subscription, startedAt: nat, siblingClosed: bool, flowResumed: bool)

  /** What the loop does to the outside. A recovery carries the subscription whose closure caused
      it, or none when silence did. */
  datatype Entry =
    | Forwarded(at: nat)
    | Recovered(triggered: nat, at: nat, cause: Option<Subscription>)
    | IgnoredSibling(at: nat, subscription: Subscription)

  datatype Exit = StillRunning | Stopped | ResubscribeFailed | SilencePersists | ClosedAfterRecovery |
      ClosedDuringRecovery | ClosedTooOften

  // ---------- Reading a log ----------

  /** A resubscription has not yet been followed by a forwarded event. */
  function Awaiting(log: seq<Entry>): bool {
    if log == [] then false
    else match log[|log| - 1]
      case Forwarded(_) => false
      case Recovered(_, _, _) => true
      case IgnoredSibling(_, _) => Awaiting(log[..|log| - 1])
  }

  function LastForward(log: seq<Entry>, start: nat): nat {
    if log == [] then start
    else if log[|log| - 1].Forwarded? then log[|log| - 1].at
    else LastForward(log[..|log| - 1], start)
  }

  /** When closures triggered a recovery. */
  function ClosureTimes(log: seq<Entry>): seq<nat> {
    if log == [] then []
    else
      var last := log[|log| - 1];
      ClosureTimes(log[..|log| - 1]) + (if last.Recovered? && last.cause.Some? then [last.triggered] else [])
  }

  /** The latest closure recovery and what happened since. */
  function LastClosure(log: seq<Entry>): Option<ClosedRecovery> {
    if log == [] then None
    else
      var before := LastClosure(log[..|log| - 1]);
      match log[|log| - 1]
      case Recovered(_, at, Some(trigger)) => Some(ClosedRecovery(trigger, at, false, false))
      case Recovered(_, _, None) => before
      case Forwarded(_) => if before.Some? then Some(before.value.(flowResumed := true)) else None
      case IgnoredSibling(_, _) => if before.Some? then Some(before.value.(siblingClosed := true)) else None
  }

  // ---------- What the log of every run obeys ----------

  predicate MayFollow(log: seq<Entry>, e: Entry, silence: nat) {
    match e
    case Forwarded(_) => true
    case Recovered(triggered, _, cause) =>
      && !Awaiting(log)
      && (cause.Some? ==>
            var times := ClosureTimes(log);
            |times| >= MAX_CLOSED_RECOVERIES_PER_WINDOW ==>
              triggered - times[|times| - MAX_CLOSED_RECOVERIES_PER_WINDOW] >= silence)
    case IgnoredSibling(at, subscription) =>
      && LastClosure(log).Some?
      && var c := LastClosure(log).value;
      !c.siblingClosed && subscription != c.trigger && c.startedAt <= at < c.startedAt + CLOSED_RECOVERY_GRACE
  }

  predicate Obeys(log: seq<Entry>, silence: nat) {
    log == [] || (Obeys(log[..|log| - 1], silence) && MayFollow(log[..|log| - 1], log[|log| - 1], silence))
  }

  lemma {:induction false} ObeysPrefix(log: seq<Entry>, silence: nat, n: nat)
    requires Obeys(log, silence) && n <= |log|
    ensures Obeys(log[..n], silence)
    decreases |log|
  {
    if n < |log| {
      ObeysPrefix(log[..|log| - 1], silence, n);
      assert log[..|log| - 1][..n] == log[..n];
    } else {
      assert log[..n] == log;
    }
  }

  /** Consecutive resubscriptions of any kind are separated by a forwarded event. */
  lemma RecoveriesSeparated(log: seq<Entry>, silence: nat, i: nat, j: nat)
    requires Obeys(log, silence) && i < j < |log| && log[i].Recovered? && log[j].Recovered?
    ensures exists k :: i < k < j && log[k].Forwarded?
  {
    ObeysPrefix(log, silence, j + 1);
    assert log[..j + 1][..j] == log[..j];
    assert !Awaiting(log[..j]);
    var k := ForwardedSince(log, i, j);
  }

  lemma {:induction false} ForwardedSince(log: seq<Entry>, i: nat, j: nat) returns (k: nat)
    requires i < j <= |log| && log[i].Recovered? && !Awaiting(log[..j])
    ensures i < k < j && log[k].Forwarded?
    decreases j
  {
    assert log[..j][..j - 1] == log[..j - 1];
    if log[j - 1].Forwarded? {
      k := j - 1;
    } else {
      k := ForwardedSince(log, i, j - 1);
    }
  }

  lemma {:induction false} TimesPrefix(log: seq<Entry>, n: nat)
    requires n <= |log|
    ensures |ClosureTimes(log[..n])| <= |ClosureTimes(log)|
    ensures ClosureTimes(log)[..|ClosureTimes(log[..n])|] == ClosureTimes(log[..n])
    decreases |log|
  {
    if n < |log| {
      TimesPrefix(log[..|log| - 1], n);
      assert log[..|log| - 1][..n] == log[..n];
    } else {
      assert log[..n] == log;
    }
  }

  /** Any four consecutive recoveries from closures span at least the silence timeout. */
  lemma {:induction false} FourClosuresSpan(log: seq<Entry>, silence: nat, n: nat)
    requires Obeys(log, silence) && MAX_CLOSED_RECOVERIES_PER_WINDOW <= n < |ClosureTimes(log)|
    ensures ClosureTimes(log)[n] - ClosureTimes(log)[n - MAX_CLOSED_RECOVERIES_PER_WINDOW] >= silence
    decreases |log|
  {
    var before := log[..|log| - 1];
    if n < |ClosureTimes(before)| {
      FourClosuresSpan(before, silence, n);
    }
  }

  /** Between two ignored sibling closures there is another closure recovery. */
  lemma SiblingIgnoredOnce(log: seq<Entry>, silence: nat, i: nat, j: nat)
    requires Obeys(log, silence) && i < j < |log| && log[i].IgnoredSibling? && log[j].IgnoredSibling?
    ensures exists k :: i < k < j && log[k].Recovered? && log[k].cause.Some?
  {
    ObeysPrefix(log, silence, j + 1);
    assert log[..j + 1][..j] == log[..j];
    var k := RecoveredSince(log, i, j);
  }

  lemma {:induction false} RecoveredSince(log: seq<Entry>, i: nat, j: nat) returns (k: nat)
    requires i < j <= |log| && log[i].IgnoredSibling? && LastClosure(log[..j]).Some?
      && !LastClosure(log[..j]).value.siblingClosed
    ensures i < k < j && log[k].Recovered? && log[k].cause.Some?
    decreases j
  {
    assert log[..j][..j - 1] == log[..j - 1];
    if log[j - 1].Recovered? && log[j - 1].cause.Some? {
      k := j - 1;
    } else {
      k := RecoveredSince(log, i, j - 1);
    }
  }

  // ---------- The sliding window of closure recoveries ----------

  function Recent(times: seq<nat>, now: nat, silence: nat): seq<nat> {
    if times == [] then []
    else (if now - times[0] < silence then [times[0]] else []) + Recent(times[1..], now, silence)
  }

  ghost predicate Ascending(times: seq<nat>, now: nat) {
    && (forall i, j :: 0 <= i < j < |times| ==> times[i] <= times[j])
    && forall i :: 0 <= i < |times| ==> times[i] <= now
  }

  /** The window keeps exactly the tail of the history that is still young. */
  lemma {:induction false} RecentIsTail(times: seq<nat>, now: nat, silence: nat) returns (k: nat)
    requires Ascending(times, now)
    ensures k <= |times| && Recent(times, now, silence) == times[k..]
    ensures forall i :: 0 <= i < k ==> now - times[i] >= silence
    ensures k < |times| ==> now - times[k] < silence
    decreases |times|
  {
    if times == [] {
      k := 0;
    } else {
      var rest := times[1..];
      assert forall i :: 0 <= i < |rest| ==> rest[i] == times[i + 1];
      assert rest != [] ==> rest[0] >= times[0];
      var dropped := RecentIsTail(rest, now, silence);
      if now - times[0] < silence {
        k := 0;
        assert [times[0]] + rest[0..] == times;
      } else {
        k := dropped + 1;
        assert rest[dropped..] == times[k..];
        assert k < |times| ==> times[k] == rest[dropped];
      }
    }
  }

  lemma RecentStep(times: seq<nat>, i: nat, now: nat, silence: nat)
    requires i < |times|
    ensures Recent(times[i..], now, silence) ==
      (if now - times[i] < silence then [times[i]] else []) + Recent(times[i + 1..], now, silence)
  {
    assert times[i..][0] == times[i] && times[i..][1..] == times[i + 1..];
  }

  method Retain(times: seq<nat>, now: nat, silence: nat) returns (kept: seq<nat>)
    requires Ascending(times, now)
    ensures kept == Recent(times, now, silence)
  {
    kept := [];
    var i := 0;
    while i < |times|
      invariant i <= |times|
      invariant kept + Recent(times[i..], now, silence) == Recent(times, now, silence)
    {
      RecentStep(times, i, now, silence);
      hide Recent, Ascending;
      if now - times[i] < silence { kept := kept + [times[i]]; }
      i := i + 1;
    }
  }

  // ---------- Time ----------

  /** When the watchdog fires next: a timeout after the last forwarded event or resubscription. */
  function SilenceDeadline(log: seq<Entry>, start: nat, silence: nat): nat {
    if log == [] then start + silence
    else match log[|log| - 1]
      case Forwarded(at) => at + silence
      case Recovered(_, at, _) => at + silence
      case IgnoredSibling(_, _) => SilenceDeadline(log[..|log| - 1], start, silence)
  }

  /** Late scheduling and slow calls, summed up. */
  function Delays(turns: seq<Turn>): nat {
    if turns == [] then 0 else Delays(turns[..|turns| - 1]) + turns[|turns| - 1].lag + turns[|turns| - 1].took
  }

  lemma {:induction false} DelaysGrow(turns: seq<Turn>, n: nat)
    requires n <= |turns|
    ensures Delays(turns[..n]) <= Delays(turns)
    decreases |turns|
  {
    if n < |turns| {
      DelaysGrow(turns[..|turns| - 1], n);
      assert turns[..|turns| - 1][..n] == turns[..n];
    } else {
      assert turns[..n] == turns;
    }
  }

  /** What a longer log reads. */
  lemma Appended(log: seq<Entry>, e: Entry, start: nat, silence: nat)
    ensures var after := log + [e];
      && Awaiting(after) == (e.Recovered? || (e.IgnoredSibling? && Awaiting(log)))
      && LastForward(after, start) == (if e.Forwarded? then e.at else LastForward(log, start))
      && ClosureTimes(after) == ClosureTimes(log) + (if e.Recovered? && e.cause.Some? then [e.triggered] else [])
      && SilenceDeadline(after, start, silence) ==
         (if e.IgnoredSibling? then SilenceDeadline(log, start, silence) else e.at + silence)
      && (Obeys(after, silence) <==> Obeys(log, silence) && MayFollow(log, e, silence))
  {
    assert (log + [e])[..|log|] == log;
  }

  lemma AppendedClosure(log: seq<Entry>, e: Entry)
    ensures LastClosure(log + [e]) ==
      if e.Recovered? && e.cause.Some? then Some(ClosedRecovery(e.cause.value, e.at, false, false))
      else if e.Recovered? || LastClosure(log).None? then LastClosure(log)
      else if e.Forwarded? then Some(LastClosure(log).value.(flowResumed := true))
      else Some(LastClosure(log).value.(siblingClosed := true))
  {
    assert (log + [e])[..|log|] == log;
  }

  /** Since the last forwarded event the watchdog allows one timeout, one recovery with its
      back-off, and one more timeout, plus the delays of the environment. */
  predicate InTime(log: seq<Entry>, start: nat, silence: nat, now: nat, delays: nat) {
    now <= LastForward(log, start) + 2 * silence + RATE_LIMIT_RECOVERY_BACKOFF + delays
  }

  predicate DeadlineInTime(log: seq<Entry>, start: nat, silence: nat, delays: nat) {
    SilenceDeadline(log, start, silence) <= LastForward(log, start)
      + (if Awaiting(log) then 2 * silence + RATE_LIMIT_RECOVERY_BACKOFF else silence) + delays
  }

  predicate ProvedHealthy(c: ClosedRecovery, now: nat) {
    c.flowResumed && now - c.startedAt >= CLOSED_RECOVERY_GRACE
  }

  /** Each error exit has its cause in the log. */
  predicate Justified(exit: Exit, log: seq<Entry>, start: nat, silence: nat, now: nat) {
    match exit
    case SilencePersists => Awaiting(log) && now >= SilenceDeadline(log, start, silence)
    case ClosedAfterRecovery => LastClosure(log).Some? && !ProvedHealthy(LastClosure(log).value, now)
    case ClosedDuringRecovery => Awaiting(log)
    case ClosedTooOften =>
      var times := ClosureTimes(log);
      |times| >= MAX_CLOSED_RECOVERIES_PER_WINDOW && now - times[|times| - MAX_CLOSED_RECOVERIES_PER_WINDOW] < silence
    case _ => true
  }

  /** The attempts still remembered are a tail of all closure recoveries; the rest are old. */
  ghost predicate Remembers(attempts: seq<nat>, log: seq<Entry>, now: nat, silence: nat) {
    && Ascending(ClosureTimes(log), now)
    && exists k :: IsTail(attempts, ClosureTimes(log), k, now, silence)
  }

  ghost predicate IsTail(attempts: seq<nat>, times: seq<nat>, k: int, now: nat, silence: nat) {
    0 <= k <= |times| && attempts == times[k..] && forall i :: 0 <= i < k ==> now - times[i] >= silence
  }

  lemma RemembersLater(attempts: seq<nat>, log: seq<Entry>, now: nat, later: nat, silence: nat)
    requires Remembers(attempts, log, now, silence) && now <= later
    ensures Remembers(attempts, log, later, silence) && Ascending(attempts, later)
  {
    var k :| IsTail(attempts, ClosureTimes(log), k, now, silence);
    assert IsTail(attempts, ClosureTimes(log), k, later, silence);
    assert forall i :: 0 <= i < |attempts| ==> attempts[i] == ClosureTimes(log)[k + i];
  }

  lemma KeptIsTail(attempts: seq<nat>, times: seq<nat>, k: nat, now: nat, silence: nat) returns (t: nat)
    requires Ascending(times, now) && IsTail(attempts, times, k, now, silence)
    ensures IsTail(Recent(attempts, now, silence), times, t, now, silence)
    ensures t < |times| ==> now - times[t] < silence
  {
    assert forall i :: 0 <= i < |attempts| ==> attempts[i] == times[k + i];
    var d := RecentIsTail(attempts, now, silence);
    t := k + d;
    hide Recent;
    assert attempts[d..] == times[t..];
    forall i | 0 <= i < t ensures now - times[i] >= silence {
      if i >= k { assert times[i] == attempts[i - k]; }
    }
    assert t < |times| ==> times[t] == attempts[d];
  }

  /** After dropping the old attempts: three left means three recoveries within the timeout, fewer
      means the third last is old enough. */
  lemma WindowDecides(attempts: seq<nat>, log: seq<Entry>, now: nat, silence: nat)
    requires Remembers(attempts, log, now, silence)
    ensures var kept, times := Recent(attempts, now, silence), ClosureTimes(log);
      && Remembers(kept, log, now, silence)
      && (|kept| >= MAX_CLOSED_RECOVERIES_PER_WINDOW <==>
            |times| >= MAX_CLOSED_RECOVERIES_PER_WINDOW
              && now - times[|times| - MAX_CLOSED_RECOVERIES_PER_WINDOW] < silence)
  {
    var times := ClosureTimes(log);
    var k :| IsTail(attempts, times, k, now, silence);
    var t := KeptIsTail(attempts, times, k, now, silence);
    hide Recent, ClosureTimes;
    var third := |times| - MAX_CLOSED_RECOVERIES_PER_WINDOW;
    if third >= t {
      assert times[t] <= times[third];
    }
  }

  lemma RemembersAppended(attempts: seq<nat>, log: seq<Entry>, now: nat, later: nat, silence: nat, e: Entry)
    requires Remembers(attempts, log, now, silence) && now <= later
    requires e.Recovered? && e.cause.Some? ==> e.triggered == now
    ensures Remembers(if e.Recovered? && e.cause.Some? then attempts + [now] else attempts, log + [e], later, silence)
  {
    Appended(log, e, 0, silence);
    RemembersLater(attempts, log, now, later, silence);
    var times := ClosureTimes(log);
    var k :| IsTail(attempts, times, k, later, silence);
    hide ClosureTimes, Awaiting, LastForward, SilenceDeadline, Obeys, MayFollow;
    if e.Recovered? && e.cause.Some? {
      assert (times + [now])[k..] == times[k..] + [now];
      assert IsTail(attempts + [now], times + [now], k, later, silence);
    } else {
      assert times + [] == times;
    }
  }

  // ---------- The loop ----------

  /** The loop's variables against its log, with `delays` used up so far. */
  ghost predicate Tracks(v: Loop, log: seq<Entry>, start: nat, silence: nat, delays: nat) {
    && Obeys(log, silence)
    && v.recoveryAttempted == Awaiting(log) && v.closedRecovery == LastClosure(log)
    && v.deadline == SilenceDeadline(log, start, silence) && v.now <= v.deadline
    && DeadlineInTime(log, start, silence, delays)
    && Remembers(v.attempts, log, v.now, silence)
    && (v.closedRecovery.Some? ==> v.closedRecovery.value.startedAt <= v.now)
  }

  datatype Loop = Loop(now: nat, recoveryAttempted: bool, closedRecovery: Option<ClosedRecovery>, attempts: seq<nat>,
      deadline: nat)

  lemma Begins(start: nat, silence: nat)
    ensures Tracks(Loop(start, false, None, [], start + silence), [], start, silence, 0)
  {
    assert IsTail([], ClosureTimes([]), 0, start, silence);
  }

  lemma Waits(v: Loop, log: seq<Entry>, start: nat, silence: nat, delays: nat, at: nat)
    requires Tracks(v, log, start, silence, delays) && v.now <= at <= v.deadline
    ensures Tracks(v.(now := at), log, start, silence, delays)
  {
    RemembersLater(v.attempts, log, v.now, at, silence);
  }

  /** Wherever the turn ends, it ends in time. */
  lemma EndsInTime(v: Loop, log: seq<Entry>, start: nat, silence: nat, delays: nat, end: nat, more: nat, total: nat)
    requires Tracks(v, log, start, silence, delays) && delays + more <= total
    requires end <= v.deadline + more + (if v.recoveryAttempted then 0 else RATE_LIMIT_RECOVERY_BACKOFF)
    ensures InTime(log, start, silence, end, total)
  {
  }

  lemma Forwards(v: Loop, log: seq<Entry>, start: nat, silence: nat, delays: nat, done: nat)
    requires Tracks(v, log, start, silence, delays) && v.now <= done
    ensures var resumed := if v.closedRecovery.Some? then Some(v.closedRecovery.value.(flowResumed := true)) else None;
      Tracks(Loop(done, false, resumed, v.attempts, done + silence), log + [Forwarded(done)], start, silence, delays)
  {
    Appended(log, Forwarded(done), start, silence);
    AppendedClosure(log, Forwarded(done));
    RemembersAppended(v.attempts, log, v.now, done, silence, Forwarded(done));
  }

  lemma RecoversFromSilence(v: Loop, log: seq<Entry>, start: nat, silence: nat, delays: nat, at: nat, done: nat,
      more: nat)
    requires Tracks(v, log, start, silence, delays) && !v.recoveryAttempted
    requires v.now <= at <= done && at <= done <= v.deadline + more
    ensures Tracks(v.(now := done, recoveryAttempted := true, deadline := done + silence),
      log + [Recovered(at, done, None)], start, silence, delays + more)
  {
    var entry := Recovered(at, done, None);
    Appended(log, entry, start, silence);
    AppendedClosure(log, entry);
    RemembersAppended(v.attempts, log, v.now, done, silence, entry);
  }

  lemma RecoversFromClosure(v: Loop, log: seq<Entry>, start: nat, silence: nat, delays: nat, trigger: Subscription,
      done: nat, more: nat)
    requires Tracks(v, log, start, silence, delays) && !v.recoveryAttempted
    requires |Recent(v.attempts, v.now, silence)| < MAX_CLOSED_RECOVERIES_PER_WINDOW
    requires v.now <= done <= v.now + RATE_LIMIT_RECOVERY_BACKOFF + more
    ensures Tracks(Loop(done, true, Some(ClosedRecovery(trigger, done, false, false)),
      Recent(v.attempts, v.now, silence) + [v.now], done + silence),
                   log + [Recovered(v.now, done, Some(trigger))], start, silence, delays + more)
  {
    var entry := Recovered(v.now, done, Some(trigger));
    WindowDecides(v.attempts, log, v.now, silence);
    var kept := Recent(v.attempts, v.now, silence);
    Appended(log, entry, start, silence);
    AppendedClosure(log, entry);
    RemembersAppended(kept, log, v.now, done, silence, entry);
    hide Remembers, Recent;
  }

  lemma IgnoresSibling(v: Loop, log: seq<Entry>, start: nat, silence: nat, delays: nat, subscription: Subscription)
    requires Tracks(v, log, start, silence, delays) && v.closedRecovery.Some?
    requires var c := v.closedRecovery.value;
      v.now - c.startedAt < CLOSED_RECOVERY_GRACE && subscription != c.trigger && !c.siblingClosed
    ensures Tracks(v.(closedRecovery := Some(v.closedRecovery.value.(siblingClosed := true))),
      log + [IgnoredSibling(v.now, subscription)], start, silence, delays)
  {
    var entry := IgnoredSibling(v.now, subscription);
    Appended(log, entry, start, silence);
    AppendedClosure(log, entry);
    RemembersAppended(v.attempts, log, v.now, v.now, silence, entry);
  }

  lemma TurnDelays(turns: seq<Turn>, i: nat)
    requires i < |turns|
    ensures Delays(turns[..i + 1]) == Delays(turns[..i]) + turns[i].lag + turns[i].took <= Delays(turns)
  {
    assert turns[..i + 1][..i] == turns[..i];
    DelaysGrow(turns, i + 1);
  }

  lemma TracksReads(v: Loop, log: seq<Entry>, start: nat, silence: nat, delays: nat)
    requires Tracks(v, log, start, silence, delays)
    ensures Obeys(log, silence) && v.now <= v.deadline
    ensures v.recoveryAttempted == Awaiting(log) && v.closedRecovery == LastClosure(log)
      && v.deadline == SilenceDeadline(log, start, silence)
  {
  }

  lemma WindowOf(v: Loop, log: seq<Entry>, start: nat, silence: nat, delays: nat)
    requires Tracks(v, log, start, silence, delays)
    ensures Ascending(v.attempts, v.now)
    ensures |Recent(v.attempts, v.now, silence)| >= MAX_CLOSED_RECOVERIES_PER_WINDOW ==>
      Justified(ClosedTooOften, log, start, silence, v.now)
  {
    RemembersLater(v.attempts, log, v.now, v.now, silence);
    WindowDecides(v.attempts, log, v.now, silence);
  }

  // ---------- What each turn does, told from the log before it ----------

  /** The loop wakes for the signal or the watchdog, whichever is first, a little late. */
  function WakeAt(now: nat, turn: Turn, deadline: nat): nat {
    var due := if turn.arrival < deadline then turn.arrival else deadline;
    (if now < due then due else now) + turn.lag
  }

  /** A turn, and what the loop has done and what time it is before it. */
  datatype Moment = Moment(log: seq<Entry>, start: nat, silence: nat, from: nat, turn: Turn)
  {
    function Deadline(): nat { SilenceDeadline(log, start, silence) }

    function Wake(): nat { WakeAt(from, turn, Deadline()) }

    /** Cancellation comes before everything else, the watchdog before any notification. */
    predicate CutOff() { turn.signal.Cancel? && turn.arrival <= Wake() }

    predicate WatchdogFires() { !CutOff() && Wake() >= Deadline() }

    predicate Hears() { !CutOff() && !WatchdogFires() && turn.signal.Receive? }

    /** An event of somebody other than the service reaches the loop. */
    predicate TakesEvent() { Hears() && turn.signal.notification == Event(false) }

    /** One of the two owned subscriptions is closed. */
    predicate HearsClosure() {
      Hears() && turn.signal.notification.Closed? && turn.signal.notification.subscription.Some?
    }

    function Subject(): Subscription
      requires HearsClosure()
    {
      turn.signal.notification.subscription.value
    }

    /** The last closure recovery has not proved healthy. */
    predicate Standing() { LastClosure(log).Some? && !ProvedHealthy(LastClosure(log).value, Wake()) }

    /** The other subscription's closure, shortly after the recovery and for the first time. */
    predicate IsSibling() {
      && HearsClosure() && Standing()
      && var c := LastClosure(log).value;
      Wake() - c.startedAt < CLOSED_RECOVERY_GRACE && Subject() != c.trigger && !c.siblingClosed
    }

    /** Three closure recoveries within the timeout. */
    predicate UsedUp() {
      var times := ClosureTimes(log);
      && |times| >= MAX_CLOSED_RECOVERIES_PER_WINDOW
      && Wake() - times[|times| - MAX_CLOSED_RECOVERIES_PER_WINDOW] < silence
    }

    predicate MayRecover() { HearsClosure() && !Standing() && !Awaiting(log) && !UsedUp() }

    predicate BacksOff() { MayRecover() && turn.signal.notification.rateLimited }

    /** The loop asks for its subscriptions again: after a silence, or after a closure. */
    predicate Resubscribes() {
      (WatchdogFires() && !Awaiting(log)) || (MayRecover() && !(BacksOff() && turn.cancelledInBackoff))
    }

    function Done(): nat { Wake() + (if BacksOff() then RATE_LIMIT_RECOVERY_BACKOFF else 0) + turn.took }

    /** What the turn adds to the log. */
    predicate Writes(entries: seq<Entry>) {
      && |entries| <= 1
      && (entries != [] && entries[0].Forwarded? <==> TakesEvent() && turn.answer.Proceeds?)
      && (entries != [] && entries[0].Recovered? <==> Resubscribes() && turn.answer.Proceeds?)
      && (entries != [] && entries[0].IgnoredSibling? <==> IsSibling())
      && (entries != [] ==>
            match entries[0]
            case Forwarded(at) => at == Wake() + turn.took
            case Recovered(triggered, at, cause) =>
              && triggered == Wake() && at == Done()
              && cause == (if WatchdogFires() then None else Some(Subject()))
            case IgnoredSibling(at, subscription) => at == Wake() && subscription == Subject())
    }

    /** How the turn ends the loop, if it does. */
    predicate Ends(exit: Exit) {
      && (exit.Stopped? <==>
            || CutOff()
            || (Resubscribes() && turn.answer.Stops?)
            || (TakesEvent() && !turn.answer.Proceeds?)
            || (BacksOff() && turn.cancelledInBackoff)
            || (Hears() && (turn.signal.notification.Shutdown? || turn.signal.notification.Disconnected?)))
      && (exit.ResubscribeFailed? <==> Resubscribes() && turn.answer.Fails?)
      && (exit.SilencePersists? <==> WatchdogFires() && Awaiting(log))
      && (exit.ClosedAfterRecovery? <==> HearsClosure() && Standing() && !IsSibling())
      && (exit.ClosedDuringRecovery? <==> HearsClosure() && !Standing() && Awaiting(log))
      && (exit.ClosedTooOften? <==> HearsClosure() && !Standing() && !Awaiting(log) && UsedUp())
    }

    function After(entries: seq<Entry>): nat {
      if entries == [] then Wake()
      else match entries[0]
        case Forwarded(at) => at
        case Recovered(_, at, _) => at
        case IgnoredSibling(at, _) => at
    }
  }

  /** How long the log was, and what time it was, before a turn. */
  datatype Mark = Mark(length: nat, now: nat)

  /** The log is what the turns so far wrote, one after the other. */
  ghost predicate Told(start: nat, silence: nat, turns: seq<Turn>, marks: seq<Mark>, log: seq<Entry>, now: nat)
    decreases |marks|
  {
    && 0 < |marks| <= |turns| + 1
    && var last := |marks| - 1;
    && marks[last] == Mark(|log|, now)
    && if last == 0 then log == [] && now == start
       else
         && marks[last - 1].length <= |log|
         && var before, from := log[..marks[last - 1].length], marks[last - 1].now;
         var m := Moment(before, start, silence, from, turns[last - 1]);
         && Told(start, silence, turns, marks[..last], before, from)
         && m.Writes(log[|before|..]) && m.Ends(StillRunning) && now == m.After(log[|before|..])
  }

  /** A finished loop was told by its turns, and the last one ended it and wrote nothing. */
  ghost predicate Finished(
    start: nat, silence: nat, turns: seq<Turn>, marks: seq<Mark>, log: seq<Entry>, exit: Exit, now: nat)
  {
    && |marks| > 0
    && var from := marks[|marks| - 1].now;
    && Told(start, silence, turns, marks, log, from)
    && if exit.StillRunning? then |marks| == |turns| + 1 && now == from
       else
         && |marks| <= |turns|
         && var m := Moment(log, start, silence, from, turns[|marks| - 1]);
         m.Writes([]) && m.Ends(exit)
  }

  lemma TellsOneMore(
    start: nat, silence: nat, turns: seq<Turn>, marks: seq<Mark>, log: seq<Entry>, from: nat, entries: seq<Entry>)
    requires Told(start, silence, turns, marks, log, from) && |marks| <= |turns|
    requires var m := Moment(log, start, silence, from, turns[|marks| - 1]); m.Writes(entries) && m.Ends(StillRunning)
    ensures var now := Moment(log, start, silence, from, turns[|marks| - 1]).After(entries);
      Told(start, silence, turns, marks + [Mark(|log + entries|, now)], log + entries, now)
  {
    var now := Moment(log, start, silence, from, turns[|marks| - 1]).After(entries);
    var longer := marks + [Mark(|log + entries|, now)];
    assert longer[..|marks|] == marks && longer[|marks| - 1] == marks[|marks| - 1];
    assert (log + entries)[..|log|] == log && (log + entries)[|log|..] == entries;
  }

  // ---------- Events are handed on ----------

  function ForwardTimes(log: seq<Entry>): seq<nat> {
    if log == [] then []
    else
      var last := log[|log| - 1];
      ForwardTimes(log[..|log| - 1]) + (if last.Forwarded? then [last.at] else [])
  }

  /** When each turn that took an event of somebody else, and could hand it on, was done. */
  ghost function EventTimes(
    start: nat, silence: nat, turns: seq<Turn>, marks: seq<Mark>, log: seq<Entry>): seq<nat>
    decreases |marks|
  {
    var last := |marks| - 1;
    if last < 1 || last > |turns| || marks[last - 1].length > |log| then []
    else
      var before := log[..marks[last - 1].length];
      var m := Moment(before, start, silence, marks[last - 1].now, turns[last - 1]);
      EventTimes(start, silence, turns, marks[..last], before)
      + (if m.TakesEvent() && m.turn.answer.Proceeds? then [m.Wake() + m.turn.took] else [])
  }

  /** So exactly the events of others that reach the loop and can be sent are handed on, in order. */
  lemma {:induction false} EventsAreHandedOn(
    start: nat, silence: nat, turns: seq<Turn>, marks: seq<Mark>, log: seq<Entry>, now: nat)
    requires Told(start, silence, turns, marks, log, now)
    ensures ForwardTimes(log) == EventTimes(start, silence, turns, marks, log)
    decreases |marks|
  {
    var last := |marks| - 1;
    if last > 0 {
      var before, from := log[..marks[last - 1].length], marks[last - 1].now;
      var m, entries := Moment(before, start, silence, from, turns[last - 1]), log[|before|..];
      EventsAreHandedOn(start, silence, turns, marks[..last], before, from);
      if entries == [] {
        assert log == before;
      } else {
        assert log[..|log| - 1] == before && log[|log| - 1] == entries[0];
      }
    }
  }

  // ---------- The loop itself ----------

  // Each turn's entries and exit, case by case.

  lemma CutOffTurn(m: Moment)
    requires m.CutOff()
    ensures m.Writes([]) && m.Ends(Stopped)
  {
  }

  lemma SilentTurn(m: Moment)
    requires m.WatchdogFires()
    ensures Awaiting(m.log) ==> m.Writes([]) && m.Ends(SilencePersists)
    ensures !Awaiting(m.log) ==>
      match m.turn.answer
      case Fails => m.Writes([]) && m.Ends(ResubscribeFailed)
      case Stops => m.Writes([]) && m.Ends(Stopped)
      case Proceeds => m.Writes([Recovered(m.Wake(), m.Wake() + m.turn.took, None)]) && m.Ends(StillRunning)
  {
    hide Awaiting, ClosureTimes, LastClosure, SilenceDeadline, WakeAt;
  }

  lemma EventTurn(m: Moment)
    requires m.Hears() && m.turn.signal.notification == Event(false)
    ensures !m.turn.answer.Proceeds? ==> m.Writes([]) && m.Ends(Stopped)
    ensures m.turn.answer.Proceeds? ==> m.Writes([Forwarded(m.Wake() + m.turn.took)]) && m.Ends(StillRunning)
  {
    hide Awaiting, ClosureTimes, LastClosure, SilenceDeadline, WakeAt;
  }

  lemma ClosureTurn(m: Moment)
    requires m.HearsClosure()
    ensures m.IsSibling() ==> m.Writes([IgnoredSibling(m.Wake(), m.Subject())]) && m.Ends(StillRunning)
    ensures m.Standing() && !m.IsSibling() ==> m.Writes([]) && m.Ends(ClosedAfterRecovery)
    ensures !m.Standing() && Awaiting(m.log) ==> m.Writes([]) && m.Ends(ClosedDuringRecovery)
    ensures !m.Standing() && !Awaiting(m.log) && m.UsedUp() ==> m.Writes([]) && m.Ends(ClosedTooOften)
    ensures m.BacksOff() && m.turn.cancelledInBackoff ==> m.Writes([]) && m.Ends(Stopped)
    ensures m.MayRecover() && !(m.BacksOff() && m.turn.cancelledInBackoff) ==>
      match m.turn.answer
      case Fails => m.Writes([]) && m.Ends(ResubscribeFailed)
      case Stops => m.Writes([]) && m.Ends(Stopped)
      case Proceeds => m.Writes([Recovered(m.Wake(), m.Done(), Some(m.Subject()))]) && m.Ends(StillRunning)
  {
    hide Awaiting, ClosureTimes, LastClosure, SilenceDeadline, WakeAt, Moment.UsedUp;
  }

  /** Whatever else is heard: the end of the channel stops the loop, the rest is passed over. */
  lemma OtherTurn(m: Moment)
    requires m.Hears() && m.turn.signal.notification != Event(false) && !m.HearsClosure()
    ensures var n := m.turn.signal.notification;
      m.Writes([]) && m.Ends(if n.Shutdown? || n.Disconnected? then Stopped else StillRunning)
  {
    hide Awaiting, ClosureTimes, LastClosure, SilenceDeadline, WakeAt;
  }

  lemma EndsHere(
    start: nat, silence: nat, turns: seq<Turn>, marks: seq<Mark>, log: seq<Entry>, from: nat, exit: Exit, now: nat)
    requires Told(start, silence, turns, marks, log, from) && |marks| <= |turns| && !exit.StillRunning?
    requires var m := Moment(log, start, silence, from, turns[|marks| - 1]); m.Writes([]) && m.Ends(exit)
    ensures Finished(start, silence, turns, marks, log, exit, now)
  {
    MarkedNow(start, silence, turns, marks, log, from);
    hide Told;
  }

  /** What a turn finds in the log, told by the loop's variables. */
  ghost predicate Reads(m: Moment, v: Loop, wake: nat) {
    && m.Wake() == wake
    && (m.CutOff() <==> m.turn.signal.Cancel? && m.turn.arrival <= wake)
    && (m.WatchdogFires() <==> !m.CutOff() && wake >= v.deadline)
    && (m.Hears() <==> !m.CutOff() && !m.WatchdogFires())
    && v.recoveryAttempted == Awaiting(m.log)
    && (m.Standing() <==> v.closedRecovery.Some? && !ProvedHealthy(v.closedRecovery.value, wake))
    && (m.IsSibling() <==>
          && m.HearsClosure() && m.Standing()
          && wake - v.closedRecovery.value.startedAt < CLOSED_RECOVERY_GRACE
          && m.Subject() != v.closedRecovery.value.trigger && !v.closedRecovery.value.siblingClosed)
    && (m.UsedUp() <==> |Recent(v.attempts, wake, m.silence)| >= MAX_CLOSED_RECOVERIES_PER_WINDOW)
  }

  lemma UsedUpByVariables(v: Loop, m: Moment, wake: nat)
    requires Remembers(v.attempts, m.log, v.now, m.silence) && v.now <= wake && m.Wake() == wake
    ensures m.UsedUp() <==> |Recent(v.attempts, wake, m.silence)| >= MAX_CLOSED_RECOVERIES_PER_WINDOW
  {
    hide Remembers, Recent, ClosureTimes, SilenceDeadline, WakeAt;
    RemembersLater(v.attempts, m.log, v.now, wake, m.silence);
    WindowDecides(v.attempts, m.log, wake, m.silence);
  }

  lemma MomentOf(v: Loop, log: seq<Entry>, start: nat, silence: nat, delays: nat, turn: Turn)
    requires Tracks(v, log, start, silence, delays)
    ensures Reads(Moment(log, start, silence, v.now, turn), v, WakeAt(v.now, turn, v.deadline))
  {
    var m, wake := Moment(log, start, silence, v.now, turn), WakeAt(v.now, turn, v.deadline);
    TracksReads(v, log, start, silence, delays);
    WakesInTime(v.now, turn, v.deadline);
    TracksWindow(v, log, start, silence, delays);
    hide Tracks, Remembers, Recent, ClosureTimes, SilenceDeadline, LastClosure, ProvedHealthy, WakeAt, Awaiting;
    UsedUpByVariables(v, m, wake);
    hide Moment.UsedUp;
  }

  lemma TracksWindow(v: Loop, log: seq<Entry>, start: nat, silence: nat, delays: nat)
    requires Tracks(v, log, start, silence, delays)
    ensures Remembers(v.attempts, log, v.now, silence)
  {
  }

  /** What is told before a turn, and the loop's variables then. */
  datatype Telling = Telling(
    start: nat, silence: nat, turns: seq<Turn>, marks: seq<Mark>, v: Loop, log: seq<Entry>)
  {
    ghost predicate Ready(wake: nat) {
      && 0 < |marks| <= |turns|
      && Told(start, silence, turns, marks, log, v.now)
      && Reads(Now(), v, wake)
    }

    function Now(): Moment
      requires 0 < |marks| <= |turns|
    {
      Moment(log, start, silence, v.now, turns[|marks| - 1])
    }

    /** The loop may end here. */
    ghost predicate EndsWith(exit: Exit, same: seq<Mark>) {
      same == marks && forall now :: Finished(start, silence, turns, marks, log, exit, now)
    }

    /** The loop goes on, with one more entry or none. */
    ghost predicate GoesOnTo(longer: seq<Mark>, entries: seq<Entry>, now: nat) {
      && |longer| == |marks| + 1
      && Told(start, silence, turns, longer, if entries == [] then log else log + entries, now)
    }
  }

  lemma Ended(t: Telling, wake: nat, exit: Exit)
    requires t.Ready(wake) && !exit.StillRunning? && t.Now().Writes([]) && t.Now().Ends(exit)
    ensures t.EndsWith(exit, t.marks)
  {
    hide Told, Reads, Moment.Writes, Moment.Ends;
    forall now ensures Finished(t.start, t.silence, t.turns, t.marks, t.log, exit, now) {
      EndsHere(t.start, t.silence, t.turns, t.marks, t.log, t.v.now, exit, now);
    }
  }

  lemma Went(t: Telling, wake: nat, entries: seq<Entry>) returns (longer: seq<Mark>)
    requires t.Ready(wake) && t.Now().Writes(entries) && t.Now().Ends(StillRunning)
    ensures t.GoesOnTo(longer, entries, t.Now().After(entries))
  {
    hide Told, Reads, Moment.Writes, Moment.Ends;
    assert t.log + [] == t.log;
    longer := Goes(t.start, t.silence, t.turns, t.marks, t.log, t.v.now, entries);
  }

  lemma CutsOff(t: Telling, wake: nat)
    requires t.Ready(wake) && t.Now().turn.signal.Cancel? && t.Now().turn.arrival <= wake
    ensures t.EndsWith(Stopped, t.marks)
  {
    CutOffTurn(t.Now());
    hide Moment.Writes, Moment.Ends, Told;
    Ended(t, wake, Stopped);
  }

  lemma FallsSilent(t: Telling, wake: nat) returns (marks: seq<Mark>)
    requires t.Ready(wake) && wake >= t.v.deadline
    requires !(t.Now().turn.signal.Cancel? && t.Now().turn.arrival <= wake)
    ensures var turn := t.Now().turn;
      if t.v.recoveryAttempted then t.EndsWith(SilencePersists, marks)
      else if turn.answer.Fails? then t.EndsWith(ResubscribeFailed, marks)
      else if turn.answer.Stops? then t.EndsWith(Stopped, marks)
      else t.GoesOnTo(marks, [Recovered(wake, wake + turn.took, None)], wake + turn.took)
  {
    var m := t.Now();
    SilentTurn(m);
    hide Moment.Writes, Moment.Ends, Told, Telling.EndsWith, Telling.GoesOnTo;
    marks := t.marks;
    if t.v.recoveryAttempted {
      Ended(t, wake, SilencePersists);
    } else if m.turn.answer.Fails? {
      Ended(t, wake, ResubscribeFailed);
    } else if m.turn.answer.Stops? {
      Ended(t, wake, Stopped);
    } else {
      marks := Went(t, wake, [Recovered(wake, wake + m.turn.took, None)]);
    }
  }

  lemma TakesEvent(t: Telling, wake: nat) returns (marks: seq<Mark>)
    requires t.Ready(wake) && wake < t.v.deadline
    requires t.Now().turn.signal.Receive? && t.Now().turn.signal.notification.Event?
    ensures var turn := t.Now().turn;
      if turn.signal.notification.fromService then t.GoesOnTo(marks, [], wake)
      else if !turn.answer.Proceeds? then t.EndsWith(Stopped, marks)
      else t.GoesOnTo(marks, [Forwarded(wake + turn.took)], wake + turn.took)
  {
    var m := t.Now();
    marks := t.marks;
    if m.turn.signal.notification.fromService {
      OtherTurn(m);
      marks := Went(t, wake, []);
    } else {
      EventTurn(m);
      hide Moment.Writes, Moment.Ends, Told;
      if m.turn.answer.Proceeds? {
        marks := Went(t, wake, [Forwarded(wake + m.turn.took)]);
      } else {
        Ended(t, wake, Stopped);
      }
    }
  }

  lemma PassesOver(t: Telling, wake: nat) returns (marks: seq<Mark>)
    requires t.Ready(wake) && wake < t.v.deadline && t.Now().turn.signal.Receive?
    requires var n := t.Now().turn.signal.notification; !n.Event? && !(n.Closed? && n.subscription.Some?)
    ensures var n := t.Now().turn.signal.notification;
      if n.Shutdown? || n.Disconnected? then t.EndsWith(Stopped, marks) else t.GoesOnTo(marks, [], wake)
  {
    var m := t.Now();
    OtherTurn(m);
    hide Moment.Writes, Moment.Ends, Told;
    marks := t.marks;
    if m.turn.signal.notification.Shutdown? || m.turn.signal.notification.Disconnected? {
      Ended(t, wake, Stopped);
    } else {
      marks := Went(t, wake, []);
    }
  }

  lemma Closes(t: Telling, wake: nat) returns (marks: seq<Mark>)
    requires t.Ready(wake) && wake < t.v.deadline && t.Now().turn.signal.Receive?
    requires var n := t.Now().turn.signal.notification; n.Closed? && n.subscription.Some?
    ensures var turn := t.Now().turn;
      var subject := turn.signal.notification.subscription.value;
      var backoff := if turn.signal.notification.rateLimited then RATE_LIMIT_RECOVERY_BACKOFF else 0;
      var done := wake + backoff + turn.took;
      var c := t.v.closedRecovery;
      if c.Some? && !ProvedHealthy(c.value, wake) then
        if wake - c.value.startedAt < CLOSED_RECOVERY_GRACE && subject != c.value.trigger && !c.value.siblingClosed
        then t.GoesOnTo(marks, [IgnoredSibling(wake, subject)], wake)
        else t.EndsWith(ClosedAfterRecovery, marks)
      else if t.v.recoveryAttempted then t.EndsWith(ClosedDuringRecovery, marks)
      else if |Recent(t.v.attempts, wake, t.silence)| >= MAX_CLOSED_RECOVERIES_PER_WINDOW
      then t.EndsWith(ClosedTooOften, marks)
      else if backoff > 0 && turn.cancelledInBackoff then t.EndsWith(Stopped, marks)
      else if turn.answer.Fails? then t.EndsWith(ResubscribeFailed, marks)
      else if turn.answer.Stops? then t.EndsWith(Stopped, marks)
      else t.GoesOnTo(marks, [Recovered(wake, done, Some(subject))], done)
  {
    var m := t.Now();
    assert m.HearsClosure() && m.Wake() == wake;
    ClosureTurn(m);
    hide Moment.Writes, Moment.Ends, Told, Telling.EndsWith, Telling.GoesOnTo, Recent, ProvedHealthy, Moment.Standing,
      Moment.UsedUp, Awaiting, Moment.Wake, Moment.CutOff, Moment.WatchdogFires, Moment.Hears;
    marks := t.marks;
    if m.IsSibling() {
      marks := Went(t, wake, [IgnoredSibling(wake, m.Subject())]);
    } else if m.Standing() {
      Ended(t, wake, ClosedAfterRecovery);
    } else if t.v.recoveryAttempted {
      Ended(t, wake, ClosedDuringRecovery);
    } else if m.UsedUp() {
      Ended(t, wake, ClosedTooOften);
    } else if m.BacksOff() && m.turn.cancelledInBackoff {
      Ended(t, wake, Stopped);
    } else if m.turn.answer.Fails? {
      Ended(t, wake, ResubscribeFailed);
    } else if m.turn.answer.Stops? {
      Ended(t, wake, Stopped);
    } else {
      marks := Went(t, wake, [Recovered(wake, m.Done(), Some(m.Subject()))]);
    }
  }

  lemma RunsOn(start: nat, silence: nat, turns: seq<Turn>, marks: seq<Mark>, log: seq<Entry>, now: nat)
    requires Told(start, silence, turns, marks, log, now) && |marks| == |turns| + 1
    ensures Finished(start, silence, turns, marks, log, StillRunning, now)
  {
    MarkedNow(start, silence, turns, marks, log, now);
    hide Told;
  }

  /** A turn may be taken: the loop's variables track its log, and the loop wakes at `wake`. */
  ghost predicate Taking(t: Telling, used: nat, wake: nat) {
    && Tracks(t.v, t.log, t.start, t.silence, used)
    && t.Ready(wake) && wake == WakeAt(t.v.now, t.Now().turn, t.v.deadline)
    && used + t.Now().turn.lag + t.Now().turn.took <= Delays(t.turns)
  }

  /** The turn was taken: the loop goes on with its variables tracking its log, or it ended for a reason
      and in time. */
  ghost predicate Taken(
    t: Telling, used: nat, exit: Exit, v: Loop, log: seq<Entry>, marks: seq<Mark>, more: nat)
  {
    if exit.StillRunning? then
      && Tracks(v, log, t.start, t.silence, used + more)
      && 0 < |t.marks| <= |t.turns| && more <= t.Now().turn.lag + t.Now().turn.took
      && |marks| == |t.marks| + 1 && Told(t.start, t.silence, t.turns, marks, log, v.now)
    else
      && Obeys(log, t.silence)
      && InTime(log, t.start, t.silence, v.now, Delays(t.turns))
      && Justified(exit, log, t.start, t.silence, v.now)
      && Finished(t.start, t.silence, t.turns, marks, log, exit, v.now)
  }

  /** What a turn needs to know whatever it meets. */
  lemma TakesTurn(t: Telling, used: nat, wake: nat)
    requires Taking(t, used, wake)
    ensures Tracks(t.v, t.log, t.start, t.silence, used) && t.Ready(wake) && 0 < |t.marks| <= |t.turns|
    ensures used + t.Now().turn.lag + t.Now().turn.took <= Delays(t.turns)
    ensures Obeys(t.log, t.silence) && t.v.now <= wake && t.v.now <= t.v.deadline
      && wake <= t.v.deadline + t.Now().turn.lag
    ensures t.v.recoveryAttempted == Awaiting(t.log) && t.v.closedRecovery == LastClosure(t.log)
    ensures t.v.deadline == SilenceDeadline(t.log, t.start, t.silence)
    ensures wake <= t.v.deadline ==> Tracks(t.v.(now := wake), t.log, t.start, t.silence, used)
  {
    TracksReads(t.v, t.log, t.start, t.silence, used);
    WakesInTime(t.v.now, t.Now().turn, t.v.deadline);
    hide Tracks, Telling.Ready, WakeAt, Obeys, Awaiting, LastClosure, SilenceDeadline;
    if wake <= t.v.deadline { Waits(t.v, t.log, t.start, t.silence, used, wake); }
  }

  /** The watchdog fires: resubscribe once, and give up the second time. */
  method OnSilence(ghost t: Telling, ghost used: nat, v: Loop, log: seq<Entry>, silence: nat, turn: Turn, wake: nat)
    returns (exit: Exit, v': Loop, log': seq<Entry>, ghost marks: seq<Mark>, ghost more: nat)
    requires Taking(t, used, wake) && v == t.v && log == t.log && silence == t.silence && turn == t.Now().turn
    requires wake >= v.deadline && !(turn.signal.Cancel? && turn.arrival <= wake)
    ensures Taken(t, used, exit, v', log', marks, more)
  {
    hide Taking, Telling.Ready, Tracks, Obeys, Delays, Awaiting, LastClosure, SilenceDeadline, LastForward, InTime,
      Told, Finished, Reads, WakeAt, ProvedHealthy, Recent, ClosureTimes, Ascending, MayFollow, Remembers,
      DeadlineInTime;
    var start, total := t.start, Delays(t.turns);
    exit, v', log', more := StillRunning, v.(now := wake), log, turn.lag + turn.took;
    TakesTurn(t, used, wake);
    marks := FallsSilent(t, wake);
    EndsInTime(v, log, start, silence, used, wake, turn.lag, total);
    if v.recoveryAttempted { return SilencePersists, v', log, marks, more; }
    v' := v'.(now := wake + turn.took);
    EndsInTime(v, log, start, silence, used, v'.now, turn.lag + turn.took, total);
    if turn.answer.Fails? { return ResubscribeFailed, v', log, marks, more; }
    if turn.answer.Stops? { return Stopped, v', log, marks, more; }
    RecoversFromSilence(v, log, start, silence, used, wake, v'.now, more);
    v', log' := v'.(recoveryAttempted := true, deadline := v'.now + silence), log + [Recovered(wake, v'.now, None)];
  }

  /** An event: skip the service's own, hand on any other, and with it the flow has resumed. */
  method OnEvent(ghost t: Telling, ghost used: nat, v: Loop, log: seq<Entry>, silence: nat, turn: Turn, wake: nat)
    returns (exit: Exit, v': Loop, log': seq<Entry>, ghost marks: seq<Mark>, ghost more: nat)
    requires Taking(t, used, wake) && v == t.v && log == t.log && silence == t.silence && turn == t.Now().turn
    requires wake < v.deadline && turn.signal.Receive? && turn.signal.notification.Event?
    ensures Taken(t, used, exit, v', log', marks, more)
  {
    hide Taking, Telling.Ready, Tracks, Obeys, Delays, Awaiting, LastClosure, SilenceDeadline, LastForward, InTime,
      Told, Finished, Reads, WakeAt, ProvedHealthy, Recent, ClosureTimes, Ascending, MayFollow, Remembers,
      DeadlineInTime;
    var start, total := t.start, Delays(t.turns);
    exit, v', log', more := StillRunning, v.(now := wake), log, 0;
    TakesTurn(t, used, wake);
    marks := TakesEvent(t, wake);
    if turn.signal.notification.fromService { return; }
    ghost var waited := v';
    v' := v'.(now := wake + turn.took);
    EndsInTime(waited, log, start, silence, used, v'.now, turn.took, total);
    if !turn.answer.Proceeds? { return Stopped, v', log, marks, more; }
    Forwards(waited, log, start, silence, used, v'.now);
    log' := log + [Forwarded(v'.now)];
    v' := v'.(recoveryAttempted := false, deadline := v'.now + silence);
    if v'.closedRecovery.Some? {
      v' := v'.(closedRecovery := Some(v'.closedRecovery.value.(flowResumed := true)));
    }
  }

  /** An owned subscription was closed: recover from it, unless it is the stale closure of its sibling, the
      last recovery has not proved healthy, or too many came within the timeout. */
  method OnClosed(ghost t: Telling, ghost used: nat, v: Loop, log: seq<Entry>, silence: nat, turn: Turn, wake: nat)
    returns (exit: Exit, v': Loop, log': seq<Entry>, ghost marks: seq<Mark>, ghost more: nat)
    requires Taking(t, used, wake) && v == t.v && log == t.log && silence == t.silence && turn == t.Now().turn
    requires wake < v.deadline && turn.signal.Receive?
    requires turn.signal.notification.Closed? && turn.signal.notification.subscription.Some?
    ensures Taken(t, used, exit, v', log', marks, more)
  {
    hide Taking, Telling.Ready, Tracks, Obeys, Delays, Awaiting, LastClosure, SilenceDeadline, LastForward, InTime,
      Told, Finished, Reads, WakeAt, ProvedHealthy, Recent, ClosureTimes, Ascending, MayFollow, Remembers,
      DeadlineInTime;
    var start, total := t.start, Delays(t.turns);
    var subscription := turn.signal.notification.subscription.value;
    exit, v', log', more := StillRunning, v.(now := wake), log, 0;
    ghost var waited := v';
    TakesTurn(t, used, wake);
    marks := Closes(t, wake);
    WindowOf(waited, log, start, silence, used);
    EndsInTime(waited, log, start, silence, used, wake, 0, total);
    if v'.closedRecovery.Some? && ProvedHealthy(v'.closedRecovery.value, wake) { v' := v'.(closedRecovery := None); }
    if v'.closedRecovery.Some? {
      var c := v'.closedRecovery.value;
      if wake - c.startedAt < CLOSED_RECOVERY_GRACE && subscription != c.trigger && !c.siblingClosed {
        IgnoresSibling(waited, log, start, silence, used, subscription);
        log' := log + [IgnoredSibling(wake, subscription)];
        v' := v'.(closedRecovery := Some(c.(siblingClosed := true)));
        return;
      }
      return ClosedAfterRecovery, v', log, marks, more;
    }
    if v.recoveryAttempted { return ClosedDuringRecovery, v', log, marks, more; }
    var kept := Retain(v.attempts, wake, silence);
    if |kept| >= MAX_CLOSED_RECOVERIES_PER_WINDOW { return ClosedTooOften, v', log, marks, more; }
    var done := wake;
    if turn.signal.notification.rateLimited {
      if turn.cancelledInBackoff { return Stopped, v', log, marks, more; }
      done := done + RATE_LIMIT_RECOVERY_BACKOFF;
    }
    done := done + turn.took;
    v', more := v'.(now := done), turn.took;
    EndsInTime(waited, log, start, silence, used, done, turn.took, total);
    if turn.answer.Fails? { return ResubscribeFailed, v', log, marks, more; }
    if turn.answer.Stops? { return Stopped, v', log, marks, more; }
    RecoversFromClosure(waited, log, start, silence, used, subscription, done, turn.took);
    log' := log + [Recovered(wake, done, Some(subscription))];
    v' := Loop(done, true, Some(ClosedRecovery(subscription, done, false, false)), kept + [wake], done + silence);
  }

  /** Anything else: the end of the channel stops the loop. */
  method OnOther(ghost t: Telling, ghost used: nat, v: Loop, log: seq<Entry>, turn: Turn, wake: nat)
    returns (exit: Exit, v': Loop, ghost marks: seq<Mark>)
    requires Taking(t, used, wake) && v == t.v && log == t.log && turn == t.Now().turn
    requires wake < v.deadline && turn.signal.Receive?
    requires var n := turn.signal.notification; !n.Event? && !(n.Closed? && n.subscription.Some?)
    ensures Taken(t, used, exit, v', log, marks, 0)
  {
    exit, v' := StillRunning, v.(now := wake);
    TakesTurn(t, used, wake);
    marks := PassesOver(t, wake);
    EndsInTime(v', log, t.start, t.silence, used, wake, 0, Delays(t.turns));
    match turn.signal.notification
    case Shutdown => exit := Stopped;
    case Disconnected => exit := Stopped;
    case _ =>
  }

  /** Cancelled before anything else. */
  lemma OnCancel(t: Telling, used: nat, wake: nat)
    requires Taking(t, used, wake) && t.Now().turn.signal.Cancel? && t.Now().turn.arrival <= wake
    ensures Taken(t, used, Stopped, t.v.(now := wake), t.log, t.marks, 0)
  {
    TakesTurn(t, used, wake);
    CutsOff(t, wake);
    EndsInTime(t.v, t.log, t.start, t.silence, used, wake, t.Now().turn.lag, Delays(t.turns));
    hide Tracks, Obeys, Delays, Awaiting, LastClosure, SilenceDeadline, LastForward, InTime, Told, Finished, Reads,
      WakeAt;
  }

  lemma StartsTurn(t: Telling, used: nat, i: nat)
    requires i < |t.turns| && |t.marks| == i + 1 && used <= Delays(t.turns[..i])
    requires Tracks(t.v, t.log, t.start, t.silence, used)
    requires Told(t.start, t.silence, t.turns, t.marks, t.log, t.v.now)
    ensures var wake := WakeAt(t.v.now, t.turns[i], t.v.deadline);
      Taking(t, used, wake) && (t.turns[i].signal.Cancel? && wake < t.v.deadline ==> t.turns[i].arrival <= wake)
    ensures used + t.turns[i].lag + t.turns[i].took <= Delays(t.turns[..i + 1])
  {
    TurnDelays(t.turns, i);
    MomentOf(t.v, t.log, t.start, t.silence, used, t.turns[i]);
    WakesInTime(t.v.now, t.turns[i], t.v.deadline);
    hide Tracks, Told, Reads, WakeAt, Delays;
  }

  lemma Opens(start: nat, silence: nat, turns: seq<Turn>)
    ensures Tracks(Loop(start, false, None, [], start + silence), [], start, silence, 0)
    ensures Told(start, silence, turns, [Mark(0, start)], [], start) && Delays(turns[..0]) == 0
  {
    Begins(start, silence);
    hide Tracks;
  }

  /** The loop ends for the reasons the source gives, and however the relay behaves: its log obeys
      the separation, budget and sibling rules, it never outlives the watchdog's bound after the
      last forwarded event, and every error exit is justified. Each turn writes what it should and
      nothing else, and the loop goes on unless its last turn ended it. */
  method RunLiveLoop(start: nat, silence: nat, turns: seq<Turn>)
    returns (exit: Exit, now: nat, log: seq<Entry>, ghost marks: seq<Mark>)
    requires 0 < silence
    ensures Obeys(log, silence)
    ensures InTime(log, start, silence, now, Delays(turns))
    ensures Justified(exit, log, start, silence, now)
    ensures Finished(start, silence, turns, marks, log, exit, now)
  {
    hide Tracks, Obeys, Delays, Awaiting, LastClosure, SilenceDeadline, LastForward, InTime, Told, Finished, Reads,
      WakeAt, Taking, Telling.Ready, Justified, MayFollow, ProvedHealthy, ClosureTimes;
    var v := Loop(start, false, None, [], start + silence);
    exit, log, marks := StillRunning, [], [Mark(0, start)];
    ghost var used: nat, more: nat := 0, 0;
    Opens(start, silence, turns);
    var i := 0;
    while i < |turns|
      invariant i <= |turns| && exit.StillRunning? && |marks| == i + 1
      invariant used <= Delays(turns[..i])
      invariant Tracks(v, log, start, silence, used)
      invariant Told(start, silence, turns, marks, log, v.now)
    {
      var turn := turns[i];
      ghost var t := Telling(start, silence, turns, marks, v, log);
      var wake := WakeAt(v.now, turn, v.deadline);
      StartsTurn(t, used, i);
      i := i + 1;
      if turn.signal.Cancel? && turn.arrival <= wake {
        OnCancel(t, used, wake);
        return Stopped, wake, log, marks;
      }
      if wake >= v.deadline {
        exit, v, log, marks, more := OnSilence(t, used, v, log, silence, turn, wake);
      } else {
        match turn.signal.notification
        case Event(_) =>
          exit, v, log, marks, more := OnEvent(t, used, v, log, silence, turn, wake);
        case Closed(Some(_), _) =>
          exit, v, log, marks, more := OnClosed(t, used, v, log, silence, turn, wake);
        case _ =>
          exit, v, marks := OnOther(t, used, v, log, turn, wake);
          more := 0;
      }
      if !exit.StillRunning? { return exit, v.now, log, marks; }
      used := used + more;
    }
    now := v.now;
    assert turns[..i] == turns;
    RunsOn(start, silence, turns, marks, log, now);
    StillInTime(v, log, start, silence, used, Delays(turns));
  }

  lemma StillInTime(v: Loop, log: seq<Entry>, start: nat, silence: nat, used: nat, total: nat)
    requires Tracks(v, log, start, silence, used) && used <= total
    ensures Obeys(log, silence) && InTime(log, start, silence, v.now, total)
    ensures Justified(StillRunning, log, start, silence, v.now)
  {
    TracksReads(v, log, start, silence, used);
    EndsInTime(v, log, start, silence, used, v.now, 0, total);
    hide Tracks, Obeys;
  }

  lemma WakesInTime(now: nat, turn: Turn, deadline: nat)
    ensures turn.signal.Cancel? && turn.arrival > WakeAt(now, turn, deadline) ==>
      WakeAt(now, turn, deadline) >= deadline
    ensures now <= WakeAt(now, turn, deadline)
    ensures now <= deadline ==> WakeAt(now, turn, deadline) <= deadline + turn.lag
  {
  }

  lemma MarkedNow(start: nat, silence: nat, turns: seq<Turn>, marks: seq<Mark>, log: seq<Entry>, now: nat)
    requires Told(start, silence, turns, marks, log, now)
    ensures |marks| > 0 && marks[|marks| - 1].now == now
  {
  }

  lemma Goes(
    start: nat, silence: nat, turns: seq<Turn>, marks: seq<Mark>, log: seq<Entry>, from: nat, entries: seq<Entry>)
    returns (longer: seq<Mark>)
    requires Told(start, silence, turns, marks, log, from) && |marks| <= |turns|
    requires var m := Moment(log, start, silence, from, turns[|marks| - 1]); m.Writes(entries) && m.Ends(StillRunning)
    ensures |longer| == |marks| + 1
    ensures var now := Moment(log, start, silence, from, turns[|marks| - 1]).After(entries);
      Told(start, silence, turns, longer, log + entries, now)
  {
    longer := marks + [Mark(|log + entries|, Moment(log, start, silence, from, turns[|marks| - 1]).After(entries))];
    TellsOneMore(start, silence, turns, marks, log, from, entries);
  }
}
