/** What a flush leaves in the recipient's budget (src/coalesce.rs): the charge of its group, read
    off the rolling emission window of a run that other groups and the clock also move. */
module FlushCharges {
  import opened Redis
  import Limiter
  import Flush
  import Outbox

  /** The group's charge counts against the cap: it is in the live emission window. */
  predicate Held(c: Limiter.Limits, s: Limiter.State, g: string) {
    g in Limiter.Live(c, s).scores
  }

  /** When the charge that a spend now would use was taken. */
  function Stamp(c: Limiter.Limits, s: Limiter.State, g: string): int {
    if Held(c, s, g) then s.emitted.scores[g] else Limiter.Now(s)
  }

  predicate Touches(op: Limiter.Op, g: string) { !op.OpTick? && op.member == g }

  // ---------- One group's slot ----------

  /** The charge taken at `stamp` is in the window for as long as it counts, and no other is. */
  predicate Slot(c: Limiter.Limits, s: Limiter.State, g: string, stamp: int) {
    && (g in s.emitted.scores ==> s.emitted.scores[g] == stamp)
    && (g !in s.emitted.scores ==> Limiter.Now(s) - stamp >= c.dailyWindow)
  }

  lemma SlotHeld(c: Limiter.Limits, s: Limiter.State, g: string, stamp: int)
    requires Slot(c, s, g, stamp)
    ensures Held(c, s, g) <==> Limiter.Now(s) - stamp < c.dailyWindow
  {
  }

  lemma UntouchedStep(c: Limiter.Limits, s: Limiter.State, op: Limiter.Op, g: string, stamp: int)
    requires Limiter.Kept(c, s) && !Touches(op, g)
    ensures Slot(c, s, g, stamp) ==> Slot(c, Limiter.Next(c, s, op), g, stamp)
    ensures !Held(c, s, g) ==> !Held(c, Limiter.Next(c, s, op), g)
  {
    hide Limiter.Level, Limiter.Refilled;
    match op
    case OpTick(ms) =>
    case OpSpend(m) =>
      var t := Limiter.Next(c, s, op);
      var live := Limiter.Live(c, s).scores;
      assert t.emitted.scores == live || t.emitted.scores == live[m := Limiter.Now(s)];
    case _ =>
  }

  lemma {:induction false} Untouched(
    c: Limiter.Limits, ss: seq<Limiter.State>, ops: seq<Limiter.Op>, g: string, stamp: int, i: nat, j: nat)
    requires Limiter.Run(c, ss, ops) && i <= j < |ss|
    requires forall k :: i <= k < j ==> !Touches(ops[k], g)
    ensures Slot(c, ss[i], g, stamp) ==> Slot(c, ss[j], g, stamp)
    ensures !Held(c, ss[i], g) ==> !Held(c, ss[j], g)
    decreases j
  {
    if i < j {
      Untouched(c, ss, ops, g, stamp, i, j - 1);
      Limiter.RunKeeps(c, ss, ops, j - 1);
      Limiter.StepOf(c, ss, ops, j - 1);
      hide Limiter.Next, Limiter.Kept, Slot, Held;
      UntouchedStep(c, ss[j - 1], ops[j - 1], g, stamp);
    }
  }

  /** A granted spend leaves the charge in its slot, reused or new; a refused one means there was
      none, and leaves none. */
  lemma SpendStep(c: Limiter.Limits, s: Limiter.State, g: string)
    requires Limiter.ValidLimits(c)
    ensures var (t, outcome) := Limiter.Spend(c, s, g);
      if outcome == Limiter.Spent then Slot(c, t, g, Stamp(c, s, g)) else !Held(c, s, g) && !Held(c, t, g)
  {
    hide Limiter.Level;
  }

  lemma RefundStep(c: Limiter.Limits, s: Limiter.State, g: string)
    requires Limiter.ValidLimits(c)
    ensures !Held(c, Limiter.Refund(c, s, g), g)
  {
  }

  // ---------- A flush within a run ----------

  /** Between two points of a run the flush takes its steps on the recipient's budget, and nobody
      else acts for its group, whose claim it owns. The spend is step `p`. A refund that answered was
      executed, as step `q`; one that did not answer may have been. */
  ghost predicate Performs(
    c: Limiter.Limits, ss: seq<Limiter.State>, ops: seq<Limiter.Op>, from: nat, to: nat, g: string,
    w: Flush.World, l: Flush.Ledger, p: nat, q: Option<nat>)
  {
    && Limiter.Run(c, ss, ops) && from <= to <= |ops|
    && (l.asked ==>
          && from <= p < to && ops[p] == Limiter.OpSpend(g)
          && (w.spend.Ok? ==> w.spend.value == Limiter.Spend(c, ss[p], g).1))
    && (q.Some? ==> l.asked && l.refunds > 0 && p < q.value < to && ops[q.value] == Limiter.OpRefund(g))
    && (l.refunds > 0 && w.refund.Ok? ==> q.Some?)
    && forall k :: from <= k < to && Touches(ops[k], g) ==> (l.asked && k == p) || (q.Some? && k == q.value)
  }

  /** A normal return of a flush, as `Flush.FlushGroup` guarantees it. */
  predicate Returned(w: Flush.World, result: Flush.FlushResult, l: Flush.Ledger) {
    && result.Done?
    && Flush.ClaimEnded(result, l) && Flush.ShipsExactly(w, l)
    && Flush.ChargeSettled(w, result, l) && Flush.Reported(w, result, l)
  }

  /** The charge in question left the rolling window while the flush ran. */
  predicate AgedOut(
    c: Limiter.Limits, ss: seq<Limiter.State>, from: nat, to: nat, g: string, l: Flush.Ledger, p: nat)
    requires from < |ss| && to < |ss| && (l.asked ==> p < |ss|)
  {
    Limiter.Now(ss[to]) - Stamp(c, ss[if l.asked then p else from], g) >= c.dailyWindow
  }

  /** After a normal return of a legacy flush its charge counts exactly when the flush got it and
      did not return it, or never asked and found it standing; and it has not aged out. */
  lemma ChargeAfter(
    c: Limiter.Limits, ss: seq<Limiter.State>, ops: seq<Limiter.Op>, from: nat, to: nat, g: string,
    w: Flush.World, result: Flush.FlushResult, l: Flush.Ledger, p: nat, q: Option<nat>)
    requires Performs(c, ss, ops, from, to, g, w, l, p, q) && Returned(w, result, l) && !Flush.IsDigest(w)
    ensures Held(c, ss[to], g) <==>
      && (if Flush.Welcome(w) then Flush.Paid(w) && q.None? else Held(c, ss[from], g))
      && !AgedOut(c, ss, from, to, g, l, p)
  {
    LedgerSays(w, result, l, q.Some?);
    hide Flush.Welcome, Flush.Paid, Returned, AgedOut, Held, Limiter.Run;
    if l.asked {
      if q.Some? {
        RefundedSlot(c, ss, ops, from, to, g, w, l, p, q);
      } else {
        SpentSlot(c, ss, ops, from, to, g, w, l, p);
      }
    } else {
      UnaskedSlot(c, ss, ops, from, to, g, w, l, p);
    }
  }

  /** What a normal return says about its budget steps. */
  lemma LedgerSays(w: Flush.World, result: Flush.FlushResult, l: Flush.Ledger, refunded: bool)
    requires Returned(w, result, l) && !Flush.IsDigest(w) && (refunded ==> l.asked && l.refunds > 0)
    ensures l.asked <==> Flush.Welcome(w)
    ensures l.asked ==> w.spend.Ok? && (Flush.Paid(w) <==> w.spend.value == Limiter.Spent)
    ensures refunded ==> Flush.Paid(w)
  {
    hide Flush.ClaimEnded, Flush.ShipsExactly, Flush.Reported;
  }

  /** A flush that never asks leaves a standing charge to age. */
  lemma UnaskedSlot(
    c: Limiter.Limits, ss: seq<Limiter.State>, ops: seq<Limiter.Op>, from: nat, to: nat, g: string,
    w: Flush.World, l: Flush.Ledger, p: nat)
    requires Performs(c, ss, ops, from, to, g, w, l, p, None) && !l.asked
    ensures Held(c, ss[to], g) <==> Held(c, ss[from], g) && !AgedOut(c, ss, from, to, g, l, p)
  {
    var stamp := Stamp(c, ss[from], g);
    hide Held;
    if Held(c, ss[from], g) { HeldSlot(c, ss[from], g); }
    Untouched(c, ss, ops, g, stamp, from, to);
    SlotHeldAt(c, ss[to], g, stamp);
  }

  /** One that asks and returns nothing leaves what the spend left. */
  lemma SpentSlot(
    c: Limiter.Limits, ss: seq<Limiter.State>, ops: seq<Limiter.Op>, from: nat, to: nat, g: string,
    w: Flush.World, l: Flush.Ledger, p: nat)
    requires Performs(c, ss, ops, from, to, g, w, l, p, None) && l.asked && w.spend.Ok?
    ensures Held(c, ss[to], g) <==> w.spend.value == Limiter.Spent && !AgedOut(c, ss, from, to, g, l, p)
  {
    SpendStep(c, ss[p], g);
    Limiter.StepOf(c, ss, ops, p);
    hide Limiter.Run, Limiter.Spend, Slot, Held;
    Untouched(c, ss, ops, g, Stamp(c, ss[p], g), p + 1, to);
    SlotHeldAt(c, ss[to], g, Stamp(c, ss[p], g));
  }

  /** One that asks and returns its charge leaves none. */
  lemma RefundedSlot(
    c: Limiter.Limits, ss: seq<Limiter.State>, ops: seq<Limiter.Op>, from: nat, to: nat, g: string,
    w: Flush.World, l: Flush.Ledger, p: nat, q: Option<nat>)
    requires Performs(c, ss, ops, from, to, g, w, l, p, q) && q.Some?
    ensures !Held(c, ss[to], g)
  {
    RefundStep(c, ss[q.value], g);
    Limiter.StepOf(c, ss, ops, q.value);
    hide Limiter.Run, Limiter.Refund, Held;
    Untouched(c, ss, ops, g, 0, q.value + 1, to);
  }

  lemma HeldSlot(c: Limiter.Limits, s: Limiter.State, g: string)
    requires Held(c, s, g)
    ensures Slot(c, s, g, Stamp(c, s, g))
  {
  }

  lemma SlotHeldAt(c: Limiter.Limits, s: Limiter.State, g: string, stamp: int)
    ensures Slot(c, s, g, stamp) ==> (Held(c, s, g) <==> Limiter.Now(s) - stamp < c.dailyWindow)
  {
    if Slot(c, s, g, stamp) { SlotHeld(c, s, g, stamp); }
  }

  /** A legacy flush that returns normally leaves a charge exactly when a device was reached, except
      in three cases and no other: it returned before asking for its charge while an earlier
      attempt's still stood; its batch reached nobody and the refund was lost; it reached a device
      and the charge it reused has since left the window. */
  lemma ChargeClaimExactly(
    c: Limiter.Limits, ss: seq<Limiter.State>, ops: seq<Limiter.Op>, from: nat, to: nat, g: string,
    w: Flush.World, result: Flush.FlushResult, l: Flush.Ledger, p: nat, q: Option<nat>)
    requires Performs(c, ss, ops, from, to, g, w, l, p, q) && Returned(w, result, l) && !Flush.IsDigest(w)
    ensures (Held(c, ss[to], g) <==> Flush.Reached(w)) <==>
      var aged := AgedOut(c, ss, from, to, g, l, p);
      && !(!Flush.Welcome(w) && Held(c, ss[from], g) && !aged)
      && !(Flush.MaySend(w) && !Flush.Reached(w) && q.None? && !aged)
      && !(Flush.Reached(w) && aged)
  {
    ChargeAfter(c, ss, ops, from, to, g, w, result, l, p, q);
    hide Flush.Welcome, Flush.ClaimEnded, Flush.ShipsExactly, Flush.Reported, Limiter.Run, Held, AgedOut;
  }

  /** An attempt that finds no charge, whose refunds are not lost, and that is over within the
      window, leaves a charge exactly for a delivery. */
  lemma SettledAttempt(
    c: Limiter.Limits, ss: seq<Limiter.State>, ops: seq<Limiter.Op>, from: nat, to: nat, g: string,
    w: Flush.World, result: Flush.FlushResult, l: Flush.Ledger, p: nat, q: Option<nat>)
    requires Performs(c, ss, ops, from, to, g, w, l, p, q) && Returned(w, result, l) && !Flush.IsDigest(w)
    requires !Held(c, ss[from], g) && w.refund.Ok? && Limiter.Now(ss[to]) - Limiter.Now(ss[from]) < c.dailyWindow
    ensures Held(c, ss[to], g) <==> Flush.Reached(w)
  {
    ChargeClaimExactly(c, ss, ops, from, to, g, w, result, l, p, q);
    if l.asked {
      Untouched(c, ss, ops, g, 0, from, p);
      NowNeverFalls(c, ss, ops, from, p);
    }
    hide Flush.Welcome, Flush.ClaimEnded, Flush.ShipsExactly, Flush.Reported, Limiter.Run, Held;
  }

  lemma {:induction false} NowNeverFalls(
    c: Limiter.Limits, ss: seq<Limiter.State>, ops: seq<Limiter.Op>, i: nat, j: nat)
    requires Limiter.Run(c, ss, ops) && i <= j < |ss|
    ensures Limiter.Now(ss[i]) <= Limiter.Now(ss[j])
    decreases j
  {
    if i < j {
      NowNeverFalls(c, ss, ops, i, j - 1);
      Limiter.StepOf(c, ss, ops, j - 1);
    }
  }

  // ---------- A stranded charge ----------

  /** The answers a retry gets from a recipient who has turned the type off. */
  function TypeDisabled(): Flush.World {
    var g := Flush.Snapshot("like", "owner", 1, 0, 3, 0, 0, 2);
    Flush.World(0, 60, {}, Ok(Some(g)), true, Ok(["device"]), Ok({}), false, Err, Err, Err, Err, Err, map[], Ok(()),
      Ok(Outbox.Completed))
  }

  /** Under any limits: an attempt charges its group and dies. At any later time within the window
      a retry finds the type disabled, returns normally without a single budget step, and the charge
      still stands although nothing was or will be sent. */
  lemma StrandedCharge(c: Limiter.Limits, g: string, clock: nat, ms: nat)
    returns (ss: seq<Limiter.State>, ops: seq<Limiter.Op>, result: Flush.FlushResult, l: Flush.Ledger)
    requires Limiter.ValidLimits(c) && Seconds(clock + ms) - Seconds(clock) < c.dailyWindow
    ensures ops == [Limiter.OpSpend(g), Limiter.OpTick(ms)] && Limiter.Run(c, ss, ops) && ss[0].clock == clock
    ensures Limiter.Charges(c, ss[0], ops[0])
    ensures Performs(c, ss, ops, 2, 2, g, TypeDisabled(), l, 0, None)
    ensures Returned(TypeDisabled(), result, l) && !Flush.IsDigest(TypeDisabled())
    ensures Held(c, ss[2], g) && !Flush.Reached(TypeDisabled())
      && result == Flush.Done(Flush.Suppressed("preference_disabled"))
  {
    var w := TypeDisabled();
    var start := Limiter.State(clock, None, Zset(map[], 0));
    ops := [Limiter.OpSpend(g), Limiter.OpTick(ms)];
    var s1 := Limiter.Next(c, start, ops[0]);
    assert Limiter.Live(c, start).scores == map[];
    assert |Limiter.Live(c, start).scores| == 0;
    var s2 := Limiter.Next(c, s1, ops[1]);
    ss := [start, s1, s2];
    result := Flush.Done(Flush.Suppressed("preference_disabled"));
    l := Flush.NOTHING_DONE.Complete(Flush.Finish);
    assert !Flush.Welcome(w);
  }
}
