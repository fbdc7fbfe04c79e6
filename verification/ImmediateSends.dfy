/** The immediate push of a like or repost (`send_notification_trigger_to_user` in
    src/event_handler.rs, from the ingest decision on): its claim on the event, its last gates, the
    batch, and what becomes of the charge that the ingest took for it. */
module ImmediateSends {
  import opened Redis
  import Limiter
  import Account
  import Outbox
  import Flush
  import FlushCharges

  /** What one delivery gets answered. The cancellation token is looked at again and again; once set it
      stays set, so `cancelledAt` is the number of the first look that sees it: look 0 while the copy
      is resolved, look 1 while the request is out, then one look for each result and for each token
      to be removed. A request cut off may have reached a device. */
  datatype World = World(
    decision: Result<Outbox.Decision>,
    tokens: seq<string>,
    cancelledAt: Option<nat>,
    awake: Result<seq<string>>,
    budget: Result<Account.BudgetDecision>,
    valid: Result<bool>,
    refund: Result<()>,
    release: Result<()>,
    provider: map<string, Flush.SendResult>,
    cutReached: bool)

  datatype Outcome = Finished | Cancelled | Error | RetryLater(delay: nat)

  /** How often the charge was returned, whether the event's claim was released, and the batch. */
  datatype Ledger = Ledger(refunds: nat, released: bool, batch: Option<seq<string>>)

  const NOTHING_DONE := Ledger(0, false, None)

  predicate Immediate(w: World) { w.decision.Ok? && w.decision.value.Immediate? }

  predicate CancelledBy(w: World, look: nat) { w.cancelledAt.Some? && w.cancelledAt.value <= look }

  /** The devices to send to; none when a gate suppresses the push, an error when one cannot tell. */
  function Preflight(w: World): Result<seq<string>> {
    if w.awake.Err? then Err
    else if Flush.Remaining(w.tokens, w.awake.value) == [] then Ok([])
    else if w.budget.Err? then Err
    else if w.budget.value != Account.Allowed then Ok([])
    else if w.valid.Err? then Err
    else if !w.valid.value then Ok([])
    else Ok(Flush.Remaining(w.tokens, w.awake.value))
  }

  predicate Prepared(w: World) { Immediate(w) && !CancelledBy(w, 0) }

  /** A gate before the provider turned the push away. */
  predicate Suppressed(w: World) { Prepared(w) && Preflight(w) == Ok([]) }

  /** A gate could not be asked. */
  predicate Blocked(w: World) { Prepared(w) && Preflight(w).Err? }

  predicate Sends(w: World) { Prepared(w) && Preflight(w).Ok? && Preflight(w).value != [] }

  function Results(w: World): map<string, Flush.SendResult> {
    if Sends(w) then map t | t in Preflight(w).value :: if t in w.provider then w.provider[t] else Flush.Failed
    else map[]
  }

  function Gone(results: map<string, Flush.SendResult>): set<string> {
    set t | t in results && results[t] == Flush.NotRegistered
  }

  /** Some device took the push. */
  predicate Reached(w: World) {
    Sends(w) && (if CancelledBy(w, 1) then w.cutReached else Flush.DeliveredTokens(Results(w)) != {})
  }

  predicate AnyRetryable(w: World) {
    exists t :: t in Results(w) && Results(w)[t].Retryable?
  }

  /** The batch was answered and the delivery ran to its end. */
  predicate Settles(w: World) {
    Sends(w) && !CancelledBy(w, 1 + |Results(w)| + |Gone(Results(w))|)
  }

  // ---------- The delivery ----------

  /** One batch exactly when every gate holds, to the devices awake at both reads; one refund exactly
      for a push that a gate turned away. */
  predicate Acts(w: World, l: Ledger) {
    && l.batch == (if Sends(w) then Some(Preflight(w).value) else None)
    && l.refunds == (if Suppressed(w) then 1 else 0)
  }

  /** The event's claim is released, so that it can be delivered again, exactly when nothing was decided
      or sent, or every device failed and the provider allows a retry; never once a device took it. */
  predicate ClaimSettled(w: World, l: Ledger) {
    && (l.released <==>
          || w.decision.Err?
          || (Immediate(w) && CancelledBy(w, 0))
          || Blocked(w)
          || (Settles(w) && !Reached(w) && AnyRetryable(w)))
    && (l.released ==> !Reached(w))
  }

  /** A batch that reached nobody and may be retried is handed back with a delay the provider asked for;
      a delivery that was cut off says so; an answer that is missing is an error; all else is done. */
  predicate Reported(w: World, outcome: Outcome) {
    var again := Settles(w) && !Reached(w) && AnyRetryable(w);
    && (outcome.RetryLater? <==> again && w.release.Ok?)
    && (outcome.RetryLater? ==> exists t :: t in Results(w) && Results(w)[t] == Flush.Retryable(outcome.delay))
    && (outcome.Cancelled? <==> (Immediate(w) && CancelledBy(w, 0)) || (Sends(w) && !Settles(w)))
    && (outcome.Error? <==>
          || w.decision.Err? || Blocked(w)
          || (Suppressed(w) && w.refund.Err?) || (again && w.release.Err?))
  }

  method Deliver(w: World) returns (outcome: Outcome, ledger: Ledger)
    ensures Acts(w, ledger)
    ensures ClaimSettled(w, ledger)
    ensures Reported(w, outcome)
  {
    ledger := NOTHING_DONE;
    if w.decision.Err? { return Error, ledger.(released := true); }
    if !w.decision.value.Immediate? { return Finished, ledger; }
    if CancelledBy(w, 0) { return Cancelled, ledger.(released := true); }
    var preflight := AskGates(w);
    if preflight == Ok([]) {
      ledger := ledger.(refunds := 1);
      return if w.refund.Err? then Error else Finished, ledger;
    }
    if preflight.Err? { return Error, ledger.(released := true); }
    ledger := ledger.(batch := Some(preflight.value));
    if CancelledBy(w, 1) { return Cancelled, ledger; }
    assert preflight.value[0] in Results(w);
    var stopped, delivered, gone, retryable := WalkResults(w);
    hide Preflight, Results, Gone;
    if stopped { return Cancelled, ledger; }
    var cut := RemoveTokens(w, gone);
    if cut { return Cancelled, ledger; }
    if delivered == {} && retryable.Some? {
      ledger := ledger.(released := true);
      return if w.release.Err? then Error else RetryLater(retryable.value), ledger;
    }
    outcome := Finished;
  }

  /** The last gates: the devices still awake, the shared budget, and its revalidation. */
  method AskGates(w: World) returns (r: Result<seq<string>>)
    ensures r == Preflight(w)
  {
    if w.awake.Err? { return Err; }
    var eligible := Flush.FilterAwake(w.tokens, w.awake.value);
    if eligible == [] { return Ok([]); }
    if w.budget.Err? { return Err; }
    if w.budget.value != Account.Allowed { return Ok([]); }
    if w.valid.Err? { return Err; }
    if !w.valid.value { return Ok([]); }
    r := Ok(eligible);
  }

  /** Walk the provider's answers in whatever order the hash map yields them, looking at the
      cancellation token before each. */
  method WalkResults(w: World)
    returns (stopped: bool, delivered: set<string>, gone: set<string>, retryable: Option<nat>)
    requires !CancelledBy(w, 1)
    ensures stopped <==> CancelledBy(w, 1 + |Results(w)|)
    ensures !stopped ==>
      && delivered == Flush.DeliveredTokens(Results(w))
      && gone == Gone(Results(w))
      && (retryable.None? ==> forall t :: t in Results(w) ==> !Results(w)[t].Retryable?)
      && (retryable.Some? ==> exists t :: t in Results(w) && Results(w)[t] == Flush.Retryable(retryable.value))
  {
    var results := Results(w);
    hide Results;
    stopped, delivered, gone, retryable := false, {}, {}, None;
    var rest, look := results.Keys, 2;
    while rest != {}
      invariant rest <= results.Keys && look == 2 + |results.Keys| - |rest|
      invariant !CancelledBy(w, look - 1)
      invariant forall t :: t in delivered <==> t in results && t !in rest && results[t] == Flush.Delivered
      invariant forall t :: t in gone <==> t in results && t !in rest && results[t] == Flush.NotRegistered
      invariant retryable.None? ==> forall t :: t in results && t !in rest ==> !results[t].Retryable?
      invariant retryable.Some? ==> exists t :: t in results && results[t] == Flush.Retryable(retryable.value)
      decreases rest
    {
      if CancelledBy(w, look) {
        return true, delivered, gone, retryable;
      }
      var t :| t in rest;
      rest, look := rest - {t}, look + 1;
      match results[t]
      case Delivered => delivered := delivered + {t};
      case NotRegistered => gone := gone + {t};
      case Retryable(after) => retryable := Some(after);
      case Failed =>
    }
  }

  /** Removing the tokens that are no longer registered, one look before each. */
  method RemoveTokens(w: World, gone: set<string>) returns (stopped: bool)
    requires gone == Gone(Results(w)) && !CancelledBy(w, 1 + |Results(w)|)
    ensures stopped <==> CancelledBy(w, 1 + |Results(w)| + |gone|)
  {
    stopped := false;
    var rest, look := gone, 2 + |Results(w)|;
    while rest != {}
      invariant rest <= gone && look >= 2 && look == 2 + |Results(w)| + |gone| - |rest|
      invariant !CancelledBy(w, look - 1)
      decreases rest
    {
      if CancelledBy(w, look) { return true; }
      var t :| t in rest;
      rest, look := rest - {t}, look + 1;
    }
  }

  // ---------- The charge ----------

  /** An immediate decision is either a replay, which changes nothing, or was made by the emission that
      took the charge. */
  lemma ImmediateIsCharged(c: Outbox.Settings, s: Outbox.State, e: Outbox.Event, current: nat, expected: nat)
    requires Outbox.ValidSettings(c) && Outbox.Ingest(c, s, e, current, expected).1.Immediate?
    ensures var t := Outbox.Ingest(c, s, e, current, expected).0;
      && ((e.id, e.owner) in s.dispositions ==> t == s)
      && ((e.id, e.owner) !in s.dispositions ==>
            && e.owner in t.limiters
            && Limiter.Emit(c.limits, Outbox.LimiterOf(s, e.owner), e.id) == (t.limiters[e.owner], true))
  {
    hide Limiter.Emit, Outbox.DueAt, Outbox.Opened;
  }

  /** Between two points of a run of the recipient's budget the delivery takes its steps for its event,
      and nobody else acts for that event, which it has claimed. A fresh decision charged it at step
      `p`; a refund that answered was executed, as step `q`, and one that did not may have been. */
  ghost predicate Performs(
    c: Limiter.Limits, ss: seq<Limiter.State>, ops: seq<Limiter.Op>, from: nat, to: nat, g: string,
    w: World, p: Option<nat>, q: Option<nat>)
  {
    && Limiter.Run(c, ss, ops) && from <= to <= |ops|
    && (p.Some? ==>
          && from <= p.value < to && ops[p.value] == Limiter.OpEmit(g)
          && Limiter.Emit(c, ss[p.value], g).1)
    && (q.Some? ==>
          && Suppressed(w)
          && (if p.Some? then p.value else from - 1) < q.value < to && ops[q.value] == Limiter.OpRefund(g))
    && (Suppressed(w) && w.refund.Ok? ==> q.Some?)
    && forall k :: from <= k < to && FlushCharges.Touches(ops[k], g) ==> p == Some(k) || q == Some(k)
  }

  /** The charge that goes with the decision: the one it took, or the one it found. */
  predicate Charged(c: Limiter.Limits, ss: seq<Limiter.State>, from: nat, g: string, p: Option<nat>)
    requires from < |ss|
  {
    p.Some? || FlushCharges.Held(c, ss[from], g)
  }

  predicate AgedOut(
    c: Limiter.Limits, ss: seq<Limiter.State>, from: nat, to: nat, g: string, p: Option<nat>)
    requires from < |ss| && to < |ss| && (p.Some? ==> p.value < |ss|)
  {
    var stamp := if p.Some? then Limiter.Now(ss[p.value]) else FlushCharges.Stamp(c, ss[from], g);
    Limiter.Now(ss[to]) - stamp >= c.dailyWindow
  }

  lemma EmitStep(c: Limiter.Limits, s: Limiter.State, g: string)
    requires Limiter.ValidLimits(c) && Limiter.Emit(c, s, g).1
    ensures FlushCharges.Slot(c, Limiter.Emit(c, s, g).0, g, Limiter.Now(s))
  {
    hide Limiter.Level;
  }

  /** After an immediate delivery its charge counts exactly when it came with one that was not returned
      and has not aged out. */
  lemma ChargeAfter(
    c: Limiter.Limits, ss: seq<Limiter.State>, ops: seq<Limiter.Op>, from: nat, to: nat, g: string,
    w: World, p: Option<nat>, q: Option<nat>)
    requires Performs(c, ss, ops, from, to, g, w, p, q)
    ensures FlushCharges.Held(c, ss[to], g) <==>
      Charged(c, ss, from, g, p) && q.None? && !AgedOut(c, ss, from, to, g, p)
  {
    hide Suppressed, FlushCharges.Held, FlushCharges.Slot, Limiter.Emit, Limiter.Refund;
    if q.Some? {
      FlushCharges.RefundStep(c, ss[q.value], g);
      Limiter.StepOf(c, ss, ops, q.value);
      FlushCharges.Untouched(c, ss, ops, g, 0, q.value + 1, to);
    } else if p.Some? {
      EmitStep(c, ss[p.value], g);
      Limiter.StepOf(c, ss, ops, p.value);
      FlushCharges.Untouched(c, ss, ops, g, Limiter.Now(ss[p.value]), p.value + 1, to);
      FlushCharges.SlotHeldAt(c, ss[to], g, Limiter.Now(ss[p.value]));
    } else {
      var stamp := FlushCharges.Stamp(c, ss[from], g);
      if FlushCharges.Held(c, ss[from], g) { FlushCharges.HeldSlot(c, ss[from], g); }
      FlushCharges.Untouched(c, ss, ops, g, stamp, from, to);
      FlushCharges.SlotHeldAt(c, ss[to], g, stamp);
    }
  }

  /** So it counts exactly for a delivery, except in these cases and no other: no device was reached and
      the charge was not returned, because no gate had turned the push away (it was cut off, a gate
      failed, or every device did) or because the refund was lost; or a device was reached without a
      charge, or on one that has since left the window. */
  lemma ChargeClaimExactly(
    c: Limiter.Limits, ss: seq<Limiter.State>, ops: seq<Limiter.Op>, from: nat, to: nat, g: string,
    w: World, p: Option<nat>, q: Option<nat>)
    requires Performs(c, ss, ops, from, to, g, w, p, q)
    ensures (FlushCharges.Held(c, ss[to], g) <==> Reached(w)) <==>
      var standing := Charged(c, ss, from, g, p) && !AgedOut(c, ss, from, to, g, p);
      && !(!Reached(w) && standing && (!Suppressed(w) || q.None?))
      && !(Reached(w) && !standing)
  {
    ChargeAfter(c, ss, ops, from, to, g, w, p, q);
    hide FlushCharges.Held, AgedOut, Limiter.Run;
  }

  /** A push that is decided afresh and over within the window, its refund not lost, is charged exactly
      for a delivery if and only if a gate turned it away or a device took it. */
  lemma FreshChargeExactly(
    c: Limiter.Limits, ss: seq<Limiter.State>, ops: seq<Limiter.Op>, from: nat, to: nat, g: string,
    w: World, p: Option<nat>, q: Option<nat>)
    requires Performs(c, ss, ops, from, to, g, w, p, q) && p.Some? && w.refund.Ok?
    requires Limiter.Now(ss[to]) - Limiter.Now(ss[from]) < c.dailyWindow
    ensures (FlushCharges.Held(c, ss[to], g) <==> Reached(w)) <==> Suppressed(w) || Reached(w)
  {
    ChargeClaimExactly(c, ss, ops, from, to, g, w, p, q);
    FlushCharges.NowNeverFalls(c, ss, ops, from, p.value);
    hide FlushCharges.Held, Limiter.Run;
  }

  /** A recipient whose one device rejects the push for good. */
  function Rejected(gid: Outbox.Gid): World {
    World(Ok(Outbox.Immediate(gid)), ["device"], None, Ok(["device"]), Ok(Account.Allowed), Ok(true), Ok(()), Ok(()),
      map["device" := Flush.Failed], false)
  }

  /** Under any limits: a push is charged and every device fails for good. It ends normally, keeps its
      claim, so it is not tried again, and leaves its charge although nothing was delivered. */
  lemma StrandedSend(c: Limiter.Limits, g: string, gid: Outbox.Gid, clock: nat)
    returns (ss: seq<Limiter.State>, ops: seq<Limiter.Op>, l: Ledger)
    requires Limiter.ValidLimits(c)
    ensures ops == [Limiter.OpEmit(g)] && Limiter.Run(c, ss, ops) && ss[0].clock == clock
    ensures Performs(c, ss, ops, 0, 1, g, Rejected(gid), Some(0), None)
    ensures Acts(Rejected(gid), l) && ClaimSettled(Rejected(gid), l) && Reported(Rejected(gid), Finished)
    ensures !l.released && !Reached(Rejected(gid)) && FlushCharges.Held(c, ss[1], g)
  {
    var w := Rejected(gid);
    var start := Limiter.State(clock, None, Zset(map[], 0));
    ops := [Limiter.OpEmit(g)];
    assert Limiter.Live(c, start).scores == map[];
    assert |Limiter.Live(c, start).scores| == 0;
    ss := [start, Limiter.Next(c, start, ops[0])];
    assert ["device"][1..] == [] && ["device"] + [] == ["device"];
    assert Flush.Remaining(["device"], ["device"]) == ["device"];
    assert Preflight(w) == Ok(["device"]);
    assert Results(w) == map["device" := Flush.Failed];
    assert Flush.DeliveredTokens(Results(w)) == {};
    l := Ledger(0, false, Some(["device"]));
  }
}
