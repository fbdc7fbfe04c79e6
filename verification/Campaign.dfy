/** Campaign delivery (src/campaign_delivery.rs): one attempt under a claim, the batch loop under an
    engagement lease, and the quiet-hours retry instant. Instants of campaigns and devices are whole
    seconds; lease arithmetic is in nanoseconds. */
module Campaign {
  import opened Redis
  import Account
  import opened CampaignClaims

  // ---------- Quiet hours (src/notification_delivery.rs) ----------

  datatype Quiet = Quiet(startHour: nat, endHour: nat)

  predicate ValidQuiet(q: Quiet) { q.startHour <= 23 && q.endHour <= 23 }

  /** The second of the device's local day. */
  function LocalSecond(offsetMinutes: int, now: int): int { (now + offsetMinutes * 60) % 86400 }

  predicate InQuietHours(offsetMinutes: int, now: int, q: Quiet) {
    var hour := LocalSecond(offsetMinutes, now) / 3600;
    if q.startHour > q.endHour then hour >= q.startHour || hour < q.endHour else q.startHour <= hour < q.endHour
  }

  /** When a device in quiet hours wakes up, or none when it is awake. */
  function QuietHoursRetryAfter(offsetMinutes: int, now: int, q: Quiet): Option<int> {
    if !InQuietHours(offsetMinutes, now, q) then None
    else Some(now + (q.endHour * 3600 - LocalSecond(offsetMinutes, now)) % 86400)
  }

  lemma LocalLater(offsetMinutes: int, now: int, wait: nat)
    requires wait <= 86400
    ensures var s := LocalSecond(offsetMinutes, now);
      LocalSecond(offsetMinutes, now + wait) ==
        if s + wait < 86400 then s + wait else if s + wait < 2 * 86400 then s + wait - 86400 else 0
  {
  }

  /** The retry instant is the first awake second: the device is quiet at every second before it
      and awake at it, across midnight and whichever way the quiet window wraps. */
  lemma RetryIsFirstAwakeSecond(offsetMinutes: int, now: int, q: Quiet, u: int)
    requires ValidQuiet(q) && QuietHoursRetryAfter(offsetMinutes, now, q).Some?
    ensures var retry := QuietHoursRetryAfter(offsetMinutes, now, q).value;
      && now < retry < now + 86400
      && !InQuietHours(offsetMinutes, retry, q)
      && (now <= u < retry ==> InQuietHours(offsetMinutes, u, q))
  {
    var s, end := LocalSecond(offsetMinutes, now), q.endHour * 3600;
    var wait := (end - s) % 86400;
    assert wait == if s < end then end - s else end - s + 86400;
    LocalLater(offsetMinutes, now, wait);
    if now <= u < now + wait {
      LocalLater(offsetMinutes, now, u - now);
    }
  }

  /** When the quiet window of a day opens, by the device's own clock, which is ahead of UTC by its offset. */
  function OpensAt(day: int, offsetMinutes: int, q: Quiet): int {
    day * 86400 + q.startHour * 3600 - offsetMinutes * 60
  }

  function QuietSeconds(q: Quiet): int { (q.endHour - q.startHour) % 24 * 3600 }

  ghost predicate WithinWindow(day: int, offsetMinutes: int, now: int, q: Quiet) {
    OpensAt(day, offsetMinutes, q) <= now < OpensAt(day, offsetMinutes, q) + QuietSeconds(q)
  }

  /** A second is quiet exactly when it lies in the window that opened at the local start hour of some
      day and lasts until the next end hour; equal hours leave no window. */
  lemma QuietExactly(offsetMinutes: int, now: int, q: Quiet)
    requires ValidQuiet(q)
    ensures InQuietHours(offsetMinutes, now, q) <==> exists day :: WithinWindow(day, offsetMinutes, now, q)
  {
    var local := now + offsetMinutes * 60;
    var today, s := local / 86400, LocalSecond(offsetMinutes, now);
    assert local == today * 86400 + s && 0 <= s < 86400;
    var length := QuietSeconds(q);
    assert length == (if q.endHour < q.startHour then q.endHour - q.startHour + 24 else q.endHour - q.startHour) * 3600;
    if InQuietHours(offsetMinutes, now, q) {
      var day := if s / 3600 >= q.startHour then today else today - 1;
      assert WithinWindow(day, offsetMinutes, now, q);
    }
    if day :| WithinWindow(day, offsetMinutes, now, q) {
      DayOf(local, today, s, day, q.startHour * 3600, length);
    }
  }

  lemma DayOf(local: int, today: int, s: int, day: int, opens: nat, length: nat)
    requires local == today * 86400 + s && 0 <= s < 86400 && opens < 86400 && length < 86400
    requires day * 86400 + opens <= local < day * 86400 + opens + length
    ensures day == today || day == today - 1
  {
  }

  /** A quiet device wakes when the window it is in closes. */
  lemma WakesWhenWindowCloses(offsetMinutes: int, now: int, q: Quiet, day: int)
    requires ValidQuiet(q) && WithinWindow(day, offsetMinutes, now, q)
    ensures QuietHoursRetryAfter(offsetMinutes, now, q) == Some(OpensAt(day, offsetMinutes, q) + QuietSeconds(q))
  {
    QuietExactly(offsetMinutes, now, q);
    var local := now + offsetMinutes * 60;
    var today, s := local / 86400, LocalSecond(offsetMinutes, now);
    var length := QuietSeconds(q);
    assert length == (if q.endHour < q.startHour then q.endHour - q.startHour + 24 else q.endHour - q.startHour) * 3600;
    DayOf(local, today, s, day, q.startHour * 3600, length);
    var wait := (q.endHour * 3600 - s) % 86400;
    assert wait == if s < q.endHour * 3600 then q.endHour * 3600 - s else q.endHour * 3600 - s + 86400;
  }

  // ---------- One attempt ----------

  datatype Status = Delivered | Deferred(retryAfter: int) | Suppressed | PermanentFailure | RetryableFailure

  datatype SendResult = Accepted | NotRegistered | Refused

  /** A device token and its timezone offset in minutes, when known. */
  datatype Device = Device(token: string, offset: Option<int>)

  /** Everything a delivery attempt asks; no expiry never expires, an unreadable one always has. */
  datatype World = World(
    now: int,
    expiry: Option<Result<int>>,
    recipientParses: bool,
    generation: Result<nat>,
    allowed: bool,
    unverifiedConsent: bool,
    consent: Result<bool>,
    claimed: Result<bool>,
    devices: Result<seq<Device>>,
    quiet: Quiet,
    budget: Result<Account.BudgetDecision>,
    valid: Result<bool>,
    provider: map<string, SendResult>)

  predicate IsExpired(w: World) {
    w.expiry.Some? && (w.expiry.value.Err? || w.expiry.value.value <= w.now)
  }

  /** The attempt gets as far as asking for the claim. */
  predicate AsksForClaim(w: World) {
    && !IsExpired(w) && w.recipientParses && w.generation.Ok? && w.allowed
    && (w.unverifiedConsent || w.consent == Ok(true))
  }

  predicate Holds(w: World) { AsksForClaim(w) && w.claimed == Ok(true) }

  /** A device may be sent to now. */
  predicate IsAwake(w: World, d: Device) {
    w.unverifiedConsent || (d.offset.Some? && !InQuietHours(d.offset.value, w.now, w.quiet))
  }

  function AwakeTokens(w: World, devices: seq<Device>): seq<string> {
    if devices == [] then []
    else
      var last := devices[|devices| - 1];
      AwakeTokens(w, devices[..|devices| - 1]) + (if IsAwake(w, last) then [last.token] else [])
  }

  /** Some device is in quiet hours and none wakes before this instant. */
  ghost predicate IsEarliestWake(w: World, devices: seq<Device>, at: int) {
    && (exists i :: 0 <= i < |devices| && Wakes(w, devices[i]) == Some(at))
    && forall i :: 0 <= i < |devices| && Wakes(w, devices[i]).Some? ==> at <= Wakes(w, devices[i]).value
  }

  function Wakes(w: World, d: Device): Option<int> {
    if w.unverifiedConsent || d.offset.None? then None else QuietHoursRetryAfter(d.offset.value, w.now, w.quiet)
  }

  function Targets(w: World): seq<string> {
    if w.devices.Ok? then AwakeTokens(w, w.devices.value) else []
  }

  /** Every gate up to the provider request holds. */
  predicate MaySend(w: World) {
    Holds(w) && Targets(w) != [] && w.budget == Ok(Account.Allowed) && w.valid == Ok(true)
  }

  function ResultFor(w: World, token: string): SendResult {
    if token in w.provider then w.provider[token] else Refused
  }

  predicate Reached(w: World) {
    MaySend(w) && exists t :: t in Targets(w) && ResultFor(w, t).Accepted?
  }

  predicate AsksConsent(w: World) { !IsExpired(w) && w.recipientParses && w.generation.Ok? && w.allowed }

  predicate HasTargets(w: World) { Holds(w) && w.devices.Ok? && Targets(w) != [] }

  predicate SomeWake(w: World)
    requires w.devices.Ok?
  {
    exists i :: 0 <= i < |w.devices.value| && Wakes(w, w.devices.value[i]).Some?
  }

  /** A policy turned the notification away: it is too late, not allowed, not consented to, claimed
      already, without an awake or waking device, or refused by the budget. */
  predicate IsSuppressed(w: World) {
    || IsExpired(w)
    || (w.recipientParses && w.generation.Ok? && !w.allowed)
    || (AsksConsent(w) && !w.unverifiedConsent && w.consent == Ok(false))
    || (AsksForClaim(w) && w.claimed == Ok(false))
    || (Holds(w) && w.devices.Ok? && w.devices.value != [] && Targets(w) == [] && !SomeWake(w))
    || (HasTargets(w) && w.budget.Ok? && w.budget.value != Account.Allowed)
    || (HasTargets(w) && w.budget == Ok(Account.Allowed) && w.valid == Ok(false))
  }

  /** Trying again cannot help: nobody to send to, or every device is gone. */
  predicate HasFailed(w: World) {
    || (!IsExpired(w) && !w.recipientParses)
    || (Holds(w) && w.devices == Ok([]))
    || (MaySend(w) && !Reached(w) && forall t :: t in Targets(w) ==> !ResultFor(w, t).Refused?)
  }

  /** An answer is missing, or a device that was not reached may still be. */
  predicate MayRetry(w: World) {
    || (!IsExpired(w) && w.recipientParses && w.generation.Err?)
    || (AsksConsent(w) && !w.unverifiedConsent && w.consent.Err?)
    || (AsksForClaim(w) && w.claimed.Err?)
    || (Holds(w) && w.devices.Err?)
    || (HasTargets(w) && w.budget.Err?)
    || (HasTargets(w) && w.budget == Ok(Account.Allowed) && w.valid.Err?)
    || (MaySend(w) && !Reached(w) && exists t :: t in Targets(w) && ResultFor(w, t).Refused?)
  }

  /** The time-zone filter: tokens awake now, and the earliest instant a quiet one wakes. */
  method SelectDevices(w: World, devices: seq<Device>)
      returns (tokens: seq<string>, earliest: Option<int>, timezoneUnknown: bool)
    ensures tokens == AwakeTokens(w, devices)
    ensures earliest.Some? ==> IsEarliestWake(w, devices, earliest.value)
    ensures earliest.None? ==> forall i :: 0 <= i < |devices| ==> Wakes(w, devices[i]).None?
    ensures timezoneUnknown <==> !w.unverifiedConsent && exists i :: 0 <= i < |devices| && devices[i].offset.None?
  {
    hide InQuietHours, LocalSecond;
    tokens, earliest, timezoneUnknown := [], None, false;
    var i := 0;
    while i < |devices|
      invariant i <= |devices|
      invariant tokens == AwakeTokens(w, devices[..i])
      invariant earliest.Some? ==> exists k :: 0 <= k < i && Wakes(w, devices[k]) == earliest
      invariant forall k :: 0 <= k < i && Wakes(w, devices[k]).Some? ==>
        earliest.Some? && earliest.value <= Wakes(w, devices[k]).value
      invariant timezoneUnknown <==> !w.unverifiedConsent && exists k :: 0 <= k < i && devices[k].offset.None?
    {
      var device := devices[i];
      assert devices[..i + 1][..i] == devices[..i];
      i := i + 1;
      if w.unverifiedConsent {
        tokens := tokens + [device.token];
        continue;
      }
      if device.offset.None? {
        timezoneUnknown := true;
        continue;
      }
      var retryAfter := QuietHoursRetryAfter(device.offset.value, w.now, w.quiet);
      if retryAfter.Some? {
        if earliest.None? || retryAfter.value < earliest.value { earliest := retryAfter; }
      } else {
        tokens := tokens + [device.token];
      }
    }
    assert devices[..i] == devices;
  }

  /** The devices to send to are exactly the awake ones, each as often as it is registered. */
  lemma {:induction false} AwakeExactly(w: World, devices: seq<Device>, token: string)
    ensures token in AwakeTokens(w, devices) <==>
      exists i :: 0 <= i < |devices| && devices[i].token == token && IsAwake(w, devices[i])
    ensures |AwakeTokens(w, devices)| <= |devices|
    decreases |devices|
  {
    if devices != [] {
      var rest, last := devices[..|devices| - 1], devices[|devices| - 1];
      AwakeExactly(w, rest, token);
      assert forall i :: 0 <= i < |rest| ==> rest[i] == devices[i];
      hide AwakeTokens, IsAwake;
    }
  }

  /** Ask the provider for each distinct token; the answers come back in any order. */
  method SendBatch(w: World, tokens: seq<string>) returns (accepted: set<string>, retryable: bool)
    ensures accepted == set t | t in tokens && ResultFor(w, t).Accepted?
    ensures retryable <==> exists t :: t in tokens && ResultFor(w, t).Refused?
  {
    accepted, retryable := {}, false;
    var rest := set t | t in tokens;
    while rest != {}
      invariant forall t :: t in rest ==> t in tokens
      invariant forall t :: t in accepted <==> t in tokens && t !in rest && ResultFor(w, t).Accepted?
      invariant retryable <==> exists t :: t in tokens && t !in rest && ResultFor(w, t).Refused?
      decreases rest
    {
      var t :| t in rest;
      rest := rest - {t};
      match ResultFor(w, t)
      case Accepted => accepted := accepted + {t};
      case NotRegistered =>
      case Refused => retryable := true;
    }
  }

  /** Deliver one campaign notification, or say why not. The log is what the attempt did to its
      claim and the provider: an attempt that takes the claim sends to the awake devices exactly
      when every gate holds, and on every return promotes the claim for the longer of the two
      windows exactly when a device was reached and releases it otherwise. */
  method Deliver(w: World, claimTtl: nat, dedupTtl: nat) returns (status: Status, log: seq<Act>, sent: seq<string>)
    ensures log ==
      if !Holds(w) then []
      else
        [Claim(Larger(claimTtl, 1))] + (if MaySend(w) then [Send] else [])
        + [if Reached(w) then Promote(Larger(dedupTtl, claimTtl)) else Release]
    ensures IsAttempt(log)
    ensures sent == if MaySend(w) then Targets(w) else []
    ensures status.Delivered? <==> Reached(w)
    ensures status.Deferred? <==> Holds(w) && w.devices.Ok? && Targets(w) == [] && SomeWake(w)
    ensures status.Deferred? ==> IsEarliestWake(w, w.devices.value, status.retryAfter)
    ensures status.Suppressed? <==> IsSuppressed(w)
    ensures status.PermanentFailure? <==> HasFailed(w)
    ensures status.RetryableFailure? <==> MayRetry(w)
  {
    log, sent := [], [];
    if IsExpired(w) { return Suppressed, log, sent; }
    if !w.recipientParses { return PermanentFailure, log, sent; }
    if w.generation.Err? { return RetryableFailure, log, sent; }
    if !w.allowed { return Suppressed, log, sent; }
    if !w.unverifiedConsent {
      if w.consent.Err? { return RetryableFailure, log, sent; }
      if !w.consent.value { return Suppressed, log, sent; }
    }
    if w.claimed.Err? { return RetryableFailure, log, sent; }
    if !w.claimed.value { return Suppressed, log, sent; }
    assert AsksForClaim(w) && AsksConsent(w) && !IsExpired(w);
    hide IsExpired;
    log := [Claim(Larger(claimTtl, 1))];
    if w.devices.Err? { return RetryableFailure, log + [Release], sent; }
    if w.devices.value == [] { return PermanentFailure, log + [Release], sent; }
    var tokens, earliest, timezoneUnknown := SelectDevices(w, w.devices.value);
    hide Wakes, AwakeTokens;
    if tokens == [] {
      log := log + [Release];
      if earliest.Some? { return Deferred(earliest.value), log, sent; }
      return Suppressed, log, sent;
    }
    if w.budget.Err? { return RetryableFailure, log + [Release], sent; }
    if w.budget.value != Account.Allowed { return Suppressed, log + [Release], sent; }
    if w.valid.Err? { return RetryableFailure, log + [Release], sent; }
    if !w.valid.value { return Suppressed, log + [Release], sent; }
    sent, log := tokens, log + [Send];
    var accepted, retryable := SendBatch(w, tokens);
    assert MaySend(w);
    assert tokens == Targets(w);
    assert forall t :: t in accepted <==> t in Targets(w) && ResultFor(w, t).Accepted?;
    assert Reached(w) <==> exists t :: t in accepted;
    if accepted != {} {
      status, log := Delivered, log + [Promote(Larger(dedupTtl, claimTtl))];
    } else {
      status, log := if retryable then RetryableFailure else PermanentFailure, log + [Release];
    }
  }

  // ---------- The batch ----------

  /** A batch item: when the loop gets to it, and how long its delivery would take. */
  datatype Item = Item(reachedAt: nat, takes: nat)

  datatype Attempt = Attempt(start: nat, end: nat, remaining: nat, claimTtl: nat)

  /** The lease clock starts before the request goes out; a lease too long to represent is an
      error. */
  function LeaseDeadline(startedAt: nat, leaseSeconds: nat, lastInstant: nat): Result<nat> {
    if startedAt + leaseSeconds * SECOND > lastInstant then Err else Ok(startedAt + leaseSeconds * SECOND)
  }

  /** The attempts of a batch fit one after the other into the lease with the reserve to spare. */
  ghost predicate FitLease(attempts: seq<Attempt>, deadline: nat) {
    && (forall i :: 0 <= i < |attempts| ==>
          var a := attempts[i];
          && RESULT_REPORT_RESERVE < a.remaining == deadline - a.start
          && a.start <= a.end <= deadline - RESULT_REPORT_RESERVE
          && a.claimTtl == ClaimTtl(a.remaining)
          && a.start + a.claimTtl * SECOND >= deadline >= a.end + RESULT_REPORT_RESERVE)
    && forall i, j :: 0 <= i < j < |attempts| ==> attempts[i].end <= attempts[j].start
  }

  /** Each attempt is its item's: it starts when the one before is over and the loop gets to it, and ends when
      it is done or at its budget. */
  predicate AttemptsFollow(startedAt: nat, items: seq<Item>, attempts: seq<Attempt>) {
    && |attempts| <= |items|
    && forall i :: 0 <= i < |attempts| ==> Follows(FreeAt(startedAt, attempts[..i]), items[i], attempts[i])
  }

  /** When the loop is done with these attempts. */
  function FreeAt(startedAt: nat, attempts: seq<Attempt>): nat {
    if attempts == [] then startedAt else attempts[|attempts| - 1].end
  }

  predicate Follows(free: nat, item: Item, a: Attempt) {
    && a.start == Larger(free, item.reachedAt) && a.remaining > RESULT_REPORT_RESERVE
    && a.end == a.start
       + (if item.takes < a.remaining - RESULT_REPORT_RESERVE then item.takes else a.remaining - RESULT_REPORT_RESERVE)
  }

  lemma FollowsOn(startedAt: nat, items: seq<Item>, attempts: seq<Attempt>, a: Attempt)
    requires AttemptsFollow(startedAt, items, attempts) && |attempts| < |items|
    requires Follows(FreeAt(startedAt, attempts), items[|attempts|], a)
    ensures AttemptsFollow(startedAt, items, attempts + [a]) && FreeAt(startedAt, attempts + [a]) == a.end
  {
    var longer := attempts + [a];
    hide Follows, FreeAt;
    forall i | 0 <= i < |longer| ensures Follows(FreeAt(startedAt, longer[..i]), items[i], longer[i]) {
      if i < |attempts| {
        assert longer[..i] == attempts[..i];
      } else {
        assert longer[..i] == attempts;
      }
    }
    EndsAt(startedAt, attempts, a);
  }

  lemma EndsAt(startedAt: nat, attempts: seq<Attempt>, a: Attempt)
    ensures FreeAt(startedAt, attempts + [a]) == a.end
  {
  }

  lemma FitsOn(attempts: seq<Attempt>, a: Attempt, deadline: nat, free: nat)
    requires FitLease(attempts, deadline) && FitLease([a], deadline)
    requires a.start >= free && forall i :: 0 <= i < |attempts| ==> attempts[i].end <= free
    ensures FitLease(attempts + [a], deadline)
  {
    var one := [a];
    assert one[0] == a;
  }

  lemma NoAttempts(startedAt: nat, items: seq<Item>, deadline: nat)
    ensures FitLease([], deadline) && AttemptsFollow(startedAt, items, []) && FreeAt(startedAt, []) == startedAt
  {
  }

  lemma OneMoreAttempt(startedAt: nat, items: seq<Item>, attempts: seq<Attempt>, deadline: nat, a: Attempt)
    requires AttemptsFollow(startedAt, items, attempts) && FitLease(attempts, deadline) && |attempts| < |items|
    requires forall i :: 0 <= i < |attempts| ==> attempts[i].end <= FreeAt(startedAt, attempts)
    requires a.start == Larger(FreeAt(startedAt, attempts), items[|attempts|].reachedAt)
    requires a.remaining == deadline - a.start > RESULT_REPORT_RESERVE && a.claimTtl == ClaimTtl(a.remaining)
    requires var budget := a.remaining - RESULT_REPORT_RESERVE;
      a.end == a.start + (if items[|attempts|].takes < budget then items[|attempts|].takes else budget)
    ensures AttemptsFollow(startedAt, items, attempts + [a]) && FitLease(attempts + [a], deadline)
    ensures FreeAt(startedAt, attempts + [a]) == a.end
    ensures forall i :: 0 <= i < |attempts + [a]| ==> (attempts + [a])[i].end <= a.end
  {
    FitsAlone(a, deadline);
    assert Follows(FreeAt(startedAt, attempts), items[|attempts|], a);
    hide *;
    FollowsOn(startedAt, items, attempts, a);
    FitsOn(attempts, a, deadline, FreeAt(startedAt, attempts));
    LastIsLatest(attempts, a, FreeAt(startedAt, attempts));
  }

  lemma LastIsLatest(attempts: seq<Attempt>, a: Attempt, free: nat)
    requires free <= a.start <= a.end && forall i :: 0 <= i < |attempts| ==> attempts[i].end <= free
    ensures forall i :: 0 <= i < |attempts + [a]| ==> (attempts + [a])[i].end <= a.end
  {
  }

  lemma FitsAlone(a: Attempt, deadline: nat)
    requires a.remaining == deadline - a.start > RESULT_REPORT_RESERVE && a.claimTtl == ClaimTtl(a.remaining)
    requires a.start <= a.end <= a.start + (a.remaining - RESULT_REPORT_RESERVE)
    ensures FitLease([a], deadline)
  {
    ClaimOutlivesBudget(a.remaining);
    hide ClaimTtl;
    var one := [a];
    assert one[0] == a;
  }

  /** Poll once: work through the offered batch under its lease, counted from before the request
      went out. No delivery starts without the reserve in hand, each is cut off at its budget, and a
      cut-off ends the batch. */
  method PollOnce(startedAt: nat, leaseSeconds: nat, lastInstant: nat, items: seq<Item>)
    returns (processed: Result<nat>, attempts: seq<Attempt>, stoppedAt: nat)
    ensures FitLease(attempts, startedAt + leaseSeconds * SECOND)
    ensures processed.Err? <==> items != [] && (leaseSeconds == 0 || startedAt + leaseSeconds * SECOND > lastInstant)
    ensures processed.Err? ==> attempts == []
    ensures processed.Ok? ==> processed.value <= |attempts| <= processed.value + 1
    ensures AttemptsFollow(startedAt, items, attempts)
    ensures processed.Ok? && |attempts| == processed.value + 1 ==>
      items[processed.value].takes > attempts[processed.value].remaining - RESULT_REPORT_RESERVE
    ensures processed.Ok? ==> forall i :: 0 <= i < processed.value ==>
      items[i].takes <= attempts[i].remaining - RESULT_REPORT_RESERVE
    ensures processed.Ok? && processed.value < |items| ==>
      var deadline := startedAt + leaseSeconds * SECOND;
      || (|attempts| == processed.value + 1 && attempts[processed.value].end == deadline - RESULT_REPORT_RESERVE)
      || (|attempts| == processed.value && stoppedAt >= items[processed.value].reachedAt
         && deadline <= stoppedAt + RESULT_REPORT_RESERVE)
  {
    hide FitLease, AttemptsFollow, FreeAt, Follows, ClaimTtl;
    NoAttempts(startedAt, items, startedAt + leaseSeconds * SECOND);
    attempts, stoppedAt := [], startedAt;
    if items == [] { return Ok(0), attempts, stoppedAt; }
    if leaseSeconds == 0 { return Err, attempts, stoppedAt; }
    var lease := LeaseDeadline(startedAt, leaseSeconds, lastInstant);
    if lease.Err? { return Err, attempts, stoppedAt; }
    var deadline := lease.value;
    var count, now: nat := 0, startedAt;
    while count < |items|
      invariant count <= |items| && |attempts| == count
      invariant FitLease(attempts, deadline)
      invariant forall i :: 0 <= i < |attempts| ==> attempts[i].end <= now
      invariant AttemptsFollow(startedAt, items, attempts) && now == FreeAt(startedAt, attempts)
      invariant forall i :: 0 <= i < count ==> items[i].takes <= attempts[i].remaining - RESULT_REPORT_RESERVE
    {
      var item := items[count];
      now := Larger(now, item.reachedAt);
      stoppedAt := now;
      var remaining := if now < deadline then deadline - now else 0;
      if remaining <= RESULT_REPORT_RESERVE { return Ok(count), attempts, stoppedAt; }
      var claimTtl := ClaimTtl(remaining);
      var budget := remaining - RESULT_REPORT_RESERVE;
      var took := if item.takes < budget then item.takes else budget;
      OneMoreAttempt(startedAt, items, attempts, deadline, Attempt(now, now + took, remaining, claimTtl));
      attempts := attempts + [Attempt(now, now + took, remaining, claimTtl)];
      now := now + took;
      if item.takes > budget { return Ok(count), attempts, stoppedAt; }
      count := count + 1;
    }
    processed := Ok(count);
  }
}
