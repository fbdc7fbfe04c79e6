/** One flush of a claimed group (`flush_group` in src/coalesce.rs): every gate, the recipient
    charge and its refund, the provider batch, and the completion that ends the claim.

    Everything a flush asks another component is an answer in a `World`; the method records what
    it does to the outside in a `Ledger`. Other replicas may act between any two questions, so
    no answer constrains another. */
module Flush {
  import opened Redis
  import Limiter
  import Account
  import Outbox

  const ACTIVITY_DIGEST := "activityDigest"

  /** The wire names of the notification types. */
  const KNOWN_TYPES := {"like", "comment", "mention", "repost", "directMessage", "newPost"}

  datatype Snapshot = Snapshot(kind: string, owner: string, generation: nat, expiresAt: nat, pending: nat,
      likes: nat, reposts: nat, actorCount: nat)

  datatype SendResult = Delivered | NotRegistered | Retryable(after: nat) | Failed

  datatype World = World(
    claimedAt: nat,
    retrySecs: nat,
    allowlist: set<string>,
    snapshot: Result<Option<Snapshot>>,
    ownerParses: bool,
    tokens: Result<seq<string>>,
    enabled: Result<set<string>>,
    cancelled: bool,
    spend: Result<Limiter.SpendOutcome>,
    budget: Result<Account.BudgetDecision>,
    awake: Result<seq<string>>,
    now: Result<nat>,
    valid: Result<bool>,
    provider: map<string, SendResult>,
    refund: Result<()>,
    completion: Result<Outbox.CompleteOutcome>)

  datatype FlushOutcome =
    | Sent(delivered: nat, failed: nat, actorCount: nat)
    | RetryQueued
    | Throttled
    | Expired
    | Suppressed(reason: string)
    | Empty(reason: string)

  datatype FlushResult = Done(outcome: FlushOutcome) | Cancelled | Error

  datatype Completion = Finish | Requeue(delay: nat)

  datatype Batch = Batch(tokens: seq<string>, likes: nat, reposts: nat)

  /** What the flush has done so far: whether it asked for the recipient's charge and got it, how
      often it asked for a refund, the batch, the completion. `ordered` tells whether every effect
      came while the claim was still open, a refund only after a charge, and at most one of each. */
  datatype Ledger = Ledger(
    asked: bool,
    charged: bool,
    refunds: nat,
    batch: Option<Batch>,
    completion: Option<Completion>,
    ordered: bool)
  {
    predicate Open() { ordered && completion.None? }

    function Ask(): Ledger {
      Ledger(true, charged, refunds, batch, completion, Open() && !asked && batch.None?)
    }

    function Charge(): Ledger {
      Ledger(asked, true, refunds, batch, completion, Open() && asked && !charged && batch.None?)
    }

    function Refund(): Ledger {
      Ledger(asked, charged, refunds + 1, batch, completion, Open() && charged && refunds == 0)
    }

    function Ship(b: Batch): Ledger {
      Ledger(asked, charged, refunds, Some(b), completion, Open() && batch.None? && refunds == 0)
    }

    function Complete(how: Completion): Ledger {
      Ledger(asked, charged, refunds, batch, Some(how), Open())
    }
  }

  const NOTHING_DONE := Ledger(false, false, 0, None, None, true)

  // ---------- The gates, in the order a flush meets them ----------

  function Group(w: World): Option<Snapshot> {
    if w.snapshot.Ok? then w.snapshot.value else None
  }

  predicate IsDigest(w: World) {
    Group(w).Some? && Group(w).value.kind == ACTIVITY_DIGEST
  }

  /** There is a live group of a known type with something to summarise. */
  predicate HasWork(w: World) {
    && Group(w).Some?
    && var g := Group(w).value;
    && (g.expiresAt == 0 || w.claimedAt < g.expiresAt)
    && (IsDigest(w) || g.kind in KNOWN_TYPES)
    && g.pending > 0 && (IsDigest(w) || g.actorCount > 0)
    && w.ownerParses
  }

  function LikesSent(w: World): nat {
    if Group(w).None? || (IsDigest(w) && w.enabled.Ok? && "like" !in w.enabled.value) then 0 else Group(w).value.likes
  }

  function RepostsSent(w: World): nat {
    if Group(w).None? || (IsDigest(w) && w.enabled.Ok? && "repost" !in w.enabled.value) then 0
    else Group(w).value.reposts
  }

  predicate AsksTokens(w: World) {
    HasWork(w) && (w.allowlist == {} || Group(w).value.owner in w.allowlist)
  }

  predicate AsksPreferences(w: World) {
    AsksTokens(w) && w.tokens.Ok? && w.tokens.value != []
  }

  /** The recipient's preferences leave something to send. */
  predicate Wanted(w: World) {
    && AsksPreferences(w) && w.enabled.Ok?
    && (if IsDigest(w) then LikesSent(w) > 0 || RepostsSent(w) > 0 else Group(w).value.kind in w.enabled.value)
  }

  /** The recipient still wants the summary and has an awake device. */
  predicate Welcome(w: World) { Wanted(w) && !w.cancelled }

  /** The group holds its charge; digests are not charged. */
  predicate Paid(w: World) {
    Welcome(w) && (IsDigest(w) || w.spend == Ok(Limiter.Spent))
  }

  function Remaining(tokens: seq<string>, awake: seq<string>): (r: seq<string>)
    ensures forall t :: t in r <==> t in tokens && t in awake
  {
    if tokens == [] then []
    else (if tokens[0] in awake then [tokens[0]] else []) + Remaining(tokens[1..], awake)
  }

  /** The devices awake at both reads. */
  function Targets(w: World): seq<string> {
    if w.tokens.Ok? && w.awake.Ok? then Remaining(w.tokens.value, w.awake.value) else []
  }

  /** Every gate up to the provider request holds. */
  predicate MaySend(w: World) {
    && Paid(w)
    && w.budget == Ok(Account.Allowed)
    && Targets(w) != []
    && (Group(w).value.expiresAt == 0 || (w.now.Ok? && w.now.value < Group(w).value.expiresAt))
    && w.valid == Ok(true)
  }

  /** The provider's answer for each distinct token of the batch; a send that panics is a failure. */
  function Results(w: World): map<string, SendResult> {
    map t | t in Targets(w) :: if t in w.provider then w.provider[t] else Failed
  }

  function DeliveredTokens(results: map<string, SendResult>): set<string> {
    set t | t in results && results[t] == Delivered
  }

  function ReachedCount(w: World): nat { |DeliveredTokens(Results(w))| }

  function DeviceCount(w: World): nat { |Results(w)| }

  /** The batch went out and some device took it. */
  predicate Reached(w: World) {
    MaySend(w) && ReachedCount(w) > 0
  }

  // ---------- The flush ----------

  /** The delay that clears the bound which refused the group, if one did. */
  function DeferredFor(w: World): Option<nat> {
    if !Welcome(w) then None
    else if !IsDigest(w) && w.spend.Ok? && w.spend.value.BucketEmpty? then Some(w.spend.value.retryAfter)
    else if !IsDigest(w) && w.spend.Ok? && w.spend.value.DailyCapped? then Some(w.spend.value.retryAfter)
    else if Paid(w) && w.budget.Ok? && w.budget.value.Cooldown? then Some(w.budget.value.retryAfter)
    else None
  }

  /** A delay the provider asked for, raised to the configured minimum. */
  predicate IsRetryDelay(w: World, delay: nat) {
    exists t :: t in Results(w) && Results(w)[t].Retryable? && delay == Larger(Results(w)[t].after, w.retrySecs)
  }

  predicate AnyRetryable(w: World) {
    exists t :: t in Results(w) && Results(w)[t].Retryable?
  }

  method FilterAwake(tokens: seq<string>, awake: seq<string>) returns (r: seq<string>)
    ensures r == Remaining(tokens, awake)
  {
    r := [];
    var i := 0;
    while i < |tokens|
      invariant i <= |tokens|
      invariant Remaining(tokens, awake) == r + Remaining(tokens[i..], awake)
    {
      assert tokens[i..][0] == tokens[i] && tokens[i..][1..] == tokens[i + 1..];
      if tokens[i] in awake { r := r + [tokens[i]]; }
      i := i + 1;
    }
  }

  /** Walk the provider's answers in whatever order the hash map yields them. */
  method Tally(results: map<string, SendResult>) returns (delivered: set<string>, failed: nat, retryable: Option<nat>)
    ensures delivered == DeliveredTokens(results)
    ensures |delivered| + failed == |results|
    ensures retryable.None? ==> forall t :: t in results ==> !results[t].Retryable?
    ensures retryable.Some? ==> exists t :: t in results && results[t] == Retryable(retryable.value)
  {
    delivered, failed, retryable := {}, 0, None;
    var rest := results.Keys;
    while rest != {}
      invariant rest <= results.Keys
      invariant forall t :: t in delivered <==> t in results && t !in rest && results[t] == Delivered
      invariant |delivered| + failed + |rest| == |results.Keys|
      invariant retryable.None? ==> forall t :: t in results && t !in rest ==> !results[t].Retryable?
      invariant retryable.Some? ==> exists t :: t in results && results[t] == Retryable(retryable.value)
      decreases rest
    {
      var t :| t in rest;
      rest := rest - {t};
      match results[t]
      case Delivered => delivered := delivered + {t};
      case Retryable(after) => failed := failed + 1; retryable := Some(after);
      case _ => failed := failed + 1;
    }
  }

  // ---------- What a flush guarantees ----------

  /** Every normal return has completed the claim exactly once, every other at most once, and
      nothing happened after that; a cancelled flush did nothing at all. */
  predicate ClaimEnded(result: FlushResult, l: Ledger) {
    && l.ordered
    && (result.Done? ==> l.completion.Some?)
    && (result.Cancelled? ==> l == NOTHING_DONE)
  }

  /** One batch when every gate holds, to the devices awake at both reads; otherwise none. */
  predicate ShipsExactly(w: World, l: Ledger) {
    l.batch == if MaySend(w) then Some(Batch(Targets(w), LikesSent(w), RepostsSent(w))) else None
  }

  /** The budget is asked exactly for a welcome legacy summary, which is charged exactly when the
      budget grants it. A normal return had the budget's answer, and refunded the charge once exactly
      when nobody was reached; a refund that failed is forgiven only after the batch. */
  predicate ChargeSettled(w: World, result: FlushResult, l: Ledger) {
    && (l.asked <==> Welcome(w) && !IsDigest(w))
    && (l.charged <==> Paid(w) && !IsDigest(w))
    && l.refunds <= (if l.charged && !Reached(w) then 1 else 0)
    && (result.Done? && l.asked ==> w.spend.Ok?)
    && (result.Done? && l.charged && !Reached(w) ==> l.refunds == 1 && (w.refund.Ok? || MaySend(w)))
  }

  /** A delivered summary is finished; a deferred one waits for the bound that refused it; a batch
      that reached nobody waits for the provider when any answer allows it and is dropped
      otherwise. */
  predicate Reported(w: World, result: FlushResult, l: Ledger) {
    && (Reached(w) && w.completion.Ok? ==>
          result.Done? && result.outcome.Sent? && result.outcome.actorCount == Group(w).value.actorCount
          && result.outcome.delivered == ReachedCount(w)
          && result.outcome.delivered + result.outcome.failed == DeviceCount(w))
    && (result.Done? && l.completion.Some? ==>
          var how := l.completion.value;
          if DeferredFor(w).Some? then
            how == Requeue(DeferredFor(w).value) && (result.outcome.Throttled? || result.outcome.Expired?)
          else if MaySend(w) && !Reached(w) && AnyRetryable(w) then
            how.Requeue? && IsRetryDelay(w, how.delay) && (result.outcome.RetryQueued? || result.outcome.Expired?)
          else if MaySend(w) && !Reached(w) then
            how == Finish && result.outcome == Sent(0, DeviceCount(w), Group(w).value.actorCount)
          else
            how == Finish && !result.outcome.Throttled? && !result.outcome.RetryQueued?
            && (result.outcome.Sent? <==> Reached(w)))
  }

  // ---------- How a flush concludes ----------

  predicate AsksAwake(w: World) { Paid(w) && w.budget == Ok(Account.Allowed) }

  /** Some device is awake at both reads. */
  predicate HasTargets(w: World) { AsksAwake(w) && w.awake.Ok? && Targets(w) != [] }

  /** A group with a lifetime is checked against the clock once more. */
  predicate AsksClock(w: World) { HasTargets(w) && Group(w).value.expiresAt > 0 }

  predicate AsksValid(w: World) {
    HasTargets(w) && (AsksClock(w) ==> w.now.Ok? && w.now.value < Group(w).value.expiresAt)
  }

  /** A gate after the charge turns the summary away, and the charge goes back before anything else. */
  predicate ReturnsCharge(w: World) {
    !IsDigest(w) && Paid(w) && !MaySend(w) && !(AsksClock(w) && w.now.Err?)
  }

  /** An answer the flush got to ask for is missing. */
  predicate Unanswered(w: World) {
    || w.snapshot.Err?
    || (AsksTokens(w) && w.tokens.Err?)
    || (AsksPreferences(w) && w.enabled.Err?)
    || (Welcome(w) && !IsDigest(w) && w.spend.Err?)
    || (Paid(w) && w.budget.Err?)
    || (AsksAwake(w) && w.awake.Err?)
    || (AsksClock(w) && w.now.Err?)
    || (AsksValid(w) && w.valid.Err?)
    || (ReturnsCharge(w) && w.refund.Err?)
  }

  /** The group's lifetime is over, at its claim or just before the batch. */
  predicate IsOver(w: World) {
    && Group(w).Some? && Group(w).value.expiresAt > 0
    && (Group(w).value.expiresAt <= w.claimedAt
        || (AsksClock(w) && w.now.Ok? && w.now.value >= Group(w).value.expiresAt))
  }

  /** The work goes back to the queue. */
  predicate Returns(w: World) {
    DeferredFor(w).Some? || (MaySend(w) && !Reached(w) && AnyRetryable(w))
  }

  /** The completion's answer is one the flush's ending takes: an expired group must have been deleted by
      its owner, returned work was queued again or found expired, anything else ends with any answer. */
  predicate Accepted(w: World) {
    if IsOver(w) then w.completion == Ok(Outbox.Completed)
    else if Returns(w) then w.completion == Ok(Outbox.Requeued) || w.completion == Ok(Outbox.Expired)
    else w.completion.Ok?
  }

  /** A live group of a known type. */
  predicate Known(w: World) {
    Group(w).Some? && !IsOver(w) && (IsDigest(w) || Group(w).value.kind in KNOWN_TYPES)
  }

  predicate EmptyFor(w: World, reason: string) {
    || (reason == "missing_group" && Group(w).None?)
    || (reason == "unknown_type" && Group(w).Some? && !IsOver(w) && !Known(w))
    || (reason == "no_pending" && Known(w) && Group(w).value.pending == 0)
    || (reason == "missing_actor_count"
        && Known(w) && Group(w).value.pending > 0 && !IsDigest(w) && Group(w).value.actorCount == 0)
    || (reason == "unparseable_owner"
        && Known(w) && Group(w).value.pending > 0 && (IsDigest(w) || Group(w).value.actorCount > 0) && !w.ownerParses)
  }

  predicate SuppressedFor(w: World, reason: string) {
    || (reason == "not_allowlisted" && HasWork(w) && !AsksTokens(w))
    || (reason == "no_tokens" && AsksTokens(w) && w.tokens == Ok([]))
    || (reason == "preference_disabled" && AsksPreferences(w) && w.enabled.Ok? && !Wanted(w))
    || (reason == "active" && Paid(w) && w.budget == Ok(Account.Active))
    || (reason == "stale_visit" && Paid(w) && w.budget == Ok(Account.StaleVisit))
    || (reason == "allowance_exhausted" && Paid(w) && w.budget == Ok(Account.AllowanceExhausted))
    || (reason == "frequency_capped" && Paid(w) && w.budget == Ok(Account.Capped))
    || (reason == "quiet_hours" && AsksAwake(w) && w.awake.Ok? && Targets(w) == [])
    || (reason == "activity_changed" && AsksValid(w) && w.valid == Ok(false))
  }

  /** What a flush that ended normally reports. */
  predicate Explains(w: World, outcome: FlushOutcome) {
    match outcome
    case Empty(reason) => EmptyFor(w, reason)
    case Suppressed(reason) => SuppressedFor(w, reason)
    case Expired => IsOver(w) || (Returns(w) && w.completion == Ok(Outbox.Expired))
    case Throttled => DeferredFor(w).Some? && w.completion == Ok(Outbox.Requeued)
    case RetryQueued => MaySend(w) && !Reached(w) && AnyRetryable(w) && w.completion == Ok(Outbox.Requeued)
    case Sent(_, _, _) => MaySend(w) && (Reached(w) || !AnyRetryable(w))
  }

  /** A flush is cut off exactly when it finds its cancellation before the charge, and fails exactly when
      an answer it asked for is missing or its completion is not accepted; otherwise it ends
      normally and reports the one gate that stopped it, or the batch. */
  predicate Concludes(w: World, result: FlushResult) {
    && (result.Cancelled? <==> Wanted(w) && w.cancelled)
    && (result.Error? <==> Unanswered(w) || (!(Wanted(w) && w.cancelled) && !Accepted(w)))
    && (result.Done? ==> Explains(w, result.outcome))
  }

  /** The claim is completed exactly when no answer is missing and the flush is not cut off: put back for
      the delay of the bound or the provider that refused it, and finished otherwise. The charge is
      returned exactly when a gate after it turns the summary away or the batch reaches nobody. */
  predicate Completes(w: World, l: Ledger) {
    && l.refunds == (if ReturnsCharge(w) || (!IsDigest(w) && MaySend(w) && !Reached(w)) then 1 else 0)
    && (l.completion.None? <==> Unanswered(w) || (Wanted(w) && w.cancelled))
    && (l.completion.Some? ==>
          && (l.completion.value.Requeue? <==> Returns(w))
          && (Returns(w) ==>
                if DeferredFor(w).Some? then l.completion.value.delay == DeferredFor(w).value
                else IsRetryDelay(w, l.completion.value.delay)))
  }

  /** The gates exclude one another, so there is one report. */
  lemma OneReport(w: World, a: FlushOutcome, b: FlushOutcome)
    requires Explains(w, a) && Explains(w, b)
    ensures a == b || (a.Sent? && b.Sent?)
  {
    assert Paid(w) ==> Welcome(w) && Wanted(w) && AsksPreferences(w) && AsksTokens(w) && HasWork(w);
    assert HasWork(w) ==> Known(w) || (AsksClock(w) && IsOver(w));
    hide Remaining, Results, DeliveredTokens, ReachedCount, AnyRetryable, LikesSent, RepostsSent;
  }

  lemma SentConclusion(w: World)
    requires MaySend(w)
    ensures !Unanswered(w) && !IsOver(w) && Wanted(w) && !w.cancelled && DeferredFor(w).None? && !ReturnsCharge(w)
    ensures Returns(w) <==> !Reached(w) && AnyRetryable(w)
  {
    hide Remaining, Results, DeliveredTokens, ReachedCount, AnyRetryable, LikesSent, RepostsSent;
  }

  method FlushGroup(w: World) returns (result: FlushResult, ledger: Ledger)
    ensures Concludes(w, result) && Completes(w, ledger)
    ensures ClaimEnded(result, ledger)
    ensures ShipsExactly(w, ledger)
    ensures ChargeSettled(w, result, ledger)
    ensures Reported(w, result, ledger)
  {
    ledger := NOTHING_DONE;
    if w.snapshot.Err? { return Error, ledger; }
    if w.snapshot.value.None? {
      result, ledger := CompleteFlush(w, ledger, Empty("missing_group"));
      return;
    }
    var snapshot := w.snapshot.value.value;
    if snapshot.expiresAt > 0 && snapshot.expiresAt <= w.claimedAt {
      result, ledger := DropExpired(w, ledger);
      return;
    }
    var digest := snapshot.kind == ACTIVITY_DIGEST;
    if snapshot.kind !in KNOWN_TYPES && !digest {
      result, ledger := CompleteFlush(w, ledger, Empty("unknown_type"));
      return;
    }
    if snapshot.pending == 0 {
      result, ledger := CompleteFlush(w, ledger, Empty("no_pending"));
      return;
    }
    if !digest && snapshot.actorCount == 0 {
      result, ledger := CompleteFlush(w, ledger, Empty("missing_actor_count"));
      return;
    }
    if !w.ownerParses {
      result, ledger := CompleteFlush(w, ledger, Empty("unparseable_owner"));
      return;
    }
    if w.allowlist != {} && snapshot.owner !in w.allowlist {
      result, ledger := CompleteFlush(w, ledger, Suppressed("not_allowlisted"));
      return;
    }
    if w.tokens.Err? { return Error, ledger; }
    if w.tokens.value == [] {
      result, ledger := CompleteFlush(w, ledger, Suppressed("no_tokens"));
      return;
    }
    if w.enabled.Err? { return Error, ledger; }
    if digest {
      if "like" !in w.enabled.value { snapshot := snapshot.(likes := 0); }
      if "repost" !in w.enabled.value { snapshot := snapshot.(reposts := 0); }
    }
    if if digest then snapshot.likes == 0 && snapshot.reposts == 0 else snapshot.kind !in w.enabled.value {
      result, ledger := CompleteFlush(w, ledger, Suppressed("preference_disabled"));
      return;
    }
    if w.cancelled { return Cancelled, ledger; }
    if !digest {
      ledger := ledger.Ask();
      if w.spend.Err? { return Error, ledger; }
      if w.spend.value != Limiter.Spent {
        result, ledger := RequeueOrExpire(w, ledger, Throttled, w.spend.value.retryAfter);
        return;
      }
      ledger := ledger.Charge();
    }
    assert Paid(w) && snapshot.likes == LikesSent(w) && snapshot.reposts == RepostsSent(w);
    hide Welcome, HasWork;
    result, ledger := Deliver(w, snapshot, digest, ledger);
  }

  /** `complete_group` for a finished group: any answer ends the flush normally. */
  method CompleteFlush(w: World, before: Ledger, outcome: FlushOutcome) returns (result: FlushResult, ledger: Ledger)
    ensures ledger == before.Complete(Finish)
    ensures result == if w.completion.Ok? then Done(outcome) else Error
  {
    ledger := before.Complete(Finish);
    result := if w.completion.Err? then Error else Done(outcome);
  }

  /** Deleting an expired group must find the claim still owned. */
  method DropExpired(w: World, before: Ledger) returns (result: FlushResult, ledger: Ledger)
    ensures ledger == before.Complete(Finish)
    ensures result == if w.completion == Ok(Outbox.Completed) then Done(Expired) else Error
  {
    ledger := before.Complete(Finish);
    if w.completion.Err? { return Error, ledger; }
    match w.completion.value
    case Completed => result := Done(Expired);
    case _ => result := Error;
  }

  /** Return the group to the due queue, or learn that the retry would cross its lifetime. */
  method RequeueOrExpire(w: World, before: Ledger, outcome: FlushOutcome, delay: nat)
      returns (result: FlushResult, ledger: Ledger)
    ensures ledger == before.Complete(Requeue(delay))
    ensures result ==
      if w.completion == Ok(Outbox.Requeued) then Done(outcome)
      else if w.completion == Ok(Outbox.Expired) then Done(Expired) else Error
  {
    ledger := before.Complete(Requeue(delay));
    if w.completion.Err? { return Error, ledger; }
    match w.completion.value
    case Requeued => result := Done(outcome);
    case Expired => result := Done(Expired);
    case _ => result := Error;
  }

  /** From the charge to the provider batch. */
  method Deliver(w: World, snapshot: Snapshot, digest: bool, before: Ledger)
      returns (result: FlushResult, ledger: Ledger)
    requires Paid(w) && digest == IsDigest(w)
    requires snapshot == Group(w).value.(likes := LikesSent(w), reposts := RepostsSent(w))
    requires before == Ledger(!digest, !digest, 0, None, None, true)
    ensures Concludes(w, result) && Completes(w, ledger)
    ensures ClaimEnded(result, ledger)
    ensures ShipsExactly(w, ledger)
    ensures ChargeSettled(w, result, ledger)
    ensures Reported(w, result, ledger)
  {
    assert w.tokens.Ok? && Group(w).Some?;
    hide Welcome, HasWork, Results, DeliveredTokens, ReachedCount, DeviceCount, AnyRetryable, IsRetryDelay,
      LikesSent, RepostsSent;
    ledger := before;
    if !digest && w.budget != Ok(Account.Allowed) {
      ledger := ledger.Refund();
      if w.refund.Err? { return Error, ledger; }
    }
    if w.budget.Err? { return Error, ledger; }
    if w.budget.value.Cooldown? {
      result, ledger := RequeueOrExpire(w, ledger, Throttled, w.budget.value.retryAfter);
      return;
    }
    if w.budget.value != Account.Allowed {
      result, ledger := CompleteFlush(w, ledger, Suppressed(RefusalReason(w.budget.value)));
      return;
    }
    if !digest && w.awake.Err? {
      ledger := ledger.Refund();
      if w.refund.Err? { return Error, ledger; }
    }
    if w.awake.Err? { return Error, ledger; }
    var tokens := FilterAwake(w.tokens.value, w.awake.value);
    if tokens == [] {
      if !digest {
        ledger := ledger.Refund();
        if w.refund.Err? { return Error, ledger; }
      }
      result, ledger := CompleteFlush(w, ledger, Suppressed("quiet_hours"));
      return;
    }
    if snapshot.expiresAt > 0 {
      if w.now.Err? { return Error, ledger; }
      if w.now.value >= snapshot.expiresAt {
        if !digest {
          ledger := ledger.Refund();
          if w.refund.Err? { return Error, ledger; }
        }
        result, ledger := DropExpired(w, ledger);
        return;
      }
    }
    if !digest && w.valid != Ok(true) {
      ledger := ledger.Refund();
      if w.refund.Err? { return Error, ledger; }
    }
    if w.valid.Err? { return Error, ledger; }
    if !w.valid.value {
      result, ledger := CompleteFlush(w, ledger, Suppressed("activity_changed"));
      return;
    }
    assert MaySend(w);
    result, ledger := SendBatch(w, snapshot, digest, ledger, tokens);
  }

  /** The provider batch and what its answers lead to. */
  method SendBatch(w: World, snapshot: Snapshot, digest: bool, before: Ledger, tokens: seq<string>)
      returns (result: FlushResult, ledger: Ledger)
    requires MaySend(w) && digest == IsDigest(w)
    requires snapshot == Group(w).value.(likes := LikesSent(w), reposts := RepostsSent(w))
    requires tokens == Targets(w)
    requires before == Ledger(!digest, !digest, 0, None, None, true)
    ensures Concludes(w, result) && Completes(w, ledger)
    ensures ClaimEnded(result, ledger)
    ensures ShipsExactly(w, ledger)
    ensures ChargeSettled(w, result, ledger)
    ensures Reported(w, result, ledger)
  {
    assert w.tokens.Ok? && Group(w).Some? && Paid(w);
    SentConclusion(w);
    hide Welcome, HasWork, DeferredFor, Remaining, Results, DeliveredTokens, AnyRetryable, IsRetryDelay, LikesSent,
      RepostsSent, MaySend, Paid, Reached, ReachedCount, DeviceCount, Targets, Unanswered, IsOver, Returns, Wanted,
      ReturnsCharge, EmptyFor, SuppressedFor;
    ledger := before.Ship(Batch(tokens, snapshot.likes, snapshot.reposts));
    var delivered, failed, retryable := AskProvider(w);
    if delivered == 0 {
      if !digest { ledger := ledger.Refund(); }
      if retryable.Some? {
        result, ledger := RequeueOrExpire(w, ledger, RetryQueued, Larger(retryable.value, w.retrySecs));
        return;
      }
      result, ledger := CompleteFlush(w, ledger, Sent(0, failed, snapshot.actorCount));
      return;
    }
    result, ledger := CompleteFlush(w, ledger, Sent(delivered, failed, snapshot.actorCount));
  }

  method AskProvider(w: World) returns (delivered: nat, failed: nat, retryable: Option<nat>)
    requires MaySend(w)
    ensures delivered == ReachedCount(w) && delivered + failed == DeviceCount(w)
    ensures delivered > 0 <==> Reached(w)
    ensures retryable.Some? <==> AnyRetryable(w)
    ensures retryable.Some? ==> IsRetryDelay(w, Larger(retryable.value, w.retrySecs))
  {
    var results := Results(w);
    var reached, lost, delay := Tally(results);
    hide MaySend;
    delivered, failed, retryable := |reached|, lost, delay;
  }

  function RefusalReason(decision: Account.BudgetDecision): string {
    match decision
    case Active => "active"
    case StaleVisit => "stale_visit"
    case AllowanceExhausted => "allowance_exhausted"
    case Capped => "frequency_capped"
    case Cooldown(_) => "cooldown"
    case Allowed => "allowed"
  }
}
