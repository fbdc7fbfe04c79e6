/** The Redis claim on one campaign idempotency key: SET NX EX, compare-and-delete, and
    compare-and-expire (src/redis_store.rs), used by delivery attempts that live inside a lease
    budget (src/campaign_delivery.rs). Times are nanoseconds; the server clock and the attempts'
    clocks are assumed to run at one rate. */
module CampaignClaims {
  import opened Redis

  const SECOND := 1_000_000_000
  const RESULT_REPORT_RESERVE := 30 * SECOND

  /** Whole seconds of the remaining lease, rounded up and never zero. */
  function ClaimTtl(remaining: nat): nat {
    var secs := remaining / SECOND + (if remaining % SECOND > 0 then 1 else 0);
    if secs < 1 then 1 else secs
  }

  /** The claim always outlives the attempt's time budget by at least the reserve. */
  lemma ClaimOutlivesBudget(remaining: nat)
    ensures ClaimTtl(remaining) >= 1 && ClaimTtl(remaining) * SECOND >= remaining
    ensures ClaimTtl(remaining) * SECOND < remaining + SECOND || remaining == 0
  {
    assert remaining == (remaining / SECOND) * SECOND + remaining % SECOND;
  }

  // ---------- The key ----------

  datatype Holder = Holder(owner: string, deadline: nat)

  datatype State = State(clock: nat, holder: Option<Holder>)

  datatype Act = Claim(ttl: nat) | Send | Release | Promote(ttl: nat)

  datatype Op = OpTick(elapsed: nat) | OpAct(owner: string, act: Act)

  function Owns(s: State, owner: string): bool { s.holder.Some? && s.holder.value.owner == owner }

  /** The new state and whether the command took effect. A send never touches the key. */
  function Perform(s: State, owner: string, act: Act): (State, bool) {
    match act
    case Claim(ttl) =>
      if s.holder.Some? then (s, false)
      else (s.(holder := Some(Holder(owner, s.clock + ttl * SECOND))), true)
    case Send => (s, true)
    case Release => if Owns(s, owner) then (s.(holder := None), true) else (s, false)
    case Promote(ttl) =>
      if Owns(s, owner) then (s.(holder := Some(Holder(owner, s.clock + ttl * SECOND))), true)
      else (s, false)
  }

  function Tick(s: State, elapsed: nat): State {
    var clock := s.clock + elapsed;
    State(clock, if s.holder.Some? && clock > s.holder.value.deadline then None else s.holder)
  }

  function Next(s: State, op: Op): State {
    match op
    case OpTick(elapsed) => Tick(s, elapsed)
    case OpAct(owner, act) => Perform(s, owner, act).0
  }

  ghost predicate Run(ss: seq<State>, ops: seq<Op>) {
    && |ss| == |ops| + 1 && ss[0].holder == None
    && forall i {:trigger Next(ss[i], ops[i])} :: 0 <= i < |ops| ==> ss[i + 1] == Next(ss[i], ops[i])
  }

  predicate By(op: Op, owner: string) { op.OpAct? && op.owner == owner }

  predicate Ends(act: Act) { act.Release? || act.Promote? }

  ghost predicate Claimed(ss: seq<State>, ops: seq<Op>, i: nat, owner: string)
    requires |ss| == |ops| + 1
  {
    i < |ops| && By(ops[i], owner) && ops[i].act.Claim? && Perform(ss[i], owner, ops[i].act).1
  }

  // ---------- Attempts ----------

  /** What one owner did among the first `n` steps. */
  function Acts(ops: seq<Op>, owner: string, n: nat): seq<Act>
    requires n <= |ops|
  {
    if n == 0 then [] else Acts(ops, owner, n - 1) + (if By(ops[n - 1], owner) then [ops[n - 1].act] else [])
  }

  /** An attempt claims, sends at most once, and promotes or releases last; a cancelled attempt
      stops anywhere on the way. */
  predicate IsAttempt(acts: seq<Act>) {
    && |acts| <= 3
    && (|acts| > 0 ==> acts[0].Claim?)
    && (|acts| == 2 ==> acts[1].Send? || Ends(acts[1]))
    && (|acts| == 3 ==> acts[1].Send? && Ends(acts[2]))
  }

  /** When an attempt started and how much of its lease was left then. */
  datatype Budget = Budget(start: nat, remaining: nat)

  /** Every owner is one attempt, which acts only within its budget, claims for what was left of
      its lease, and goes on only after its claim succeeded. */
  ghost predicate Disciplined(ss: seq<State>, ops: seq<Op>, budgets: map<string, Budget>)
    requires |ss| == |ops| + 1
  {
    && (forall owner :: IsAttempt(Acts(ops, owner, |ops|)))
    && forall k :: 0 <= k < |ops| && ops[k].OpAct? ==>
         && ops[k].owner in budgets
         && var b := budgets[ops[k].owner];
         && b.remaining > RESULT_REPORT_RESERVE
         && b.start <= ss[k].clock <= b.start + b.remaining - RESULT_REPORT_RESERVE
         && (ops[k].act.Claim? ==> ops[k].act.ttl == ClaimTtl(b.remaining))
         && (!ops[k].act.Claim? ==> exists i :: 0 <= i < k && Claimed(ss, ops, i, ops[k].owner))
  }

  lemma {:induction false} ActAt(ops: seq<Op>, owner: string, n: nat, k: nat)
    requires k < n <= |ops| && By(ops[k], owner)
    ensures |Acts(ops, owner, k)| < |Acts(ops, owner, n)|
    ensures Acts(ops, owner, n)[|Acts(ops, owner, k)|] == ops[k].act
    decreases n
  {
    if k < n - 1 {
      ActAt(ops, owner, n - 1, k);
    }
  }

  lemma ActsGrow(ops: seq<Op>, owner: string, n: nat, k: nat)
    requires k < n <= |ops| && By(ops[k], owner)
    ensures |Acts(ops, owner, n)| > |Acts(ops, owner, k)|
  {
    ActAt(ops, owner, n, k);
  }

  /** The later of two acts of one owner is no claim, and the earlier one no end. */
  lemma ActsInOrder(ss: seq<State>, ops: seq<Op>, budgets: map<string, Budget>, owner: string, i: nat, k: nat)
    requires |ss| == |ops| + 1 && Disciplined(ss, ops, budgets)
    requires i < k < |ops| && By(ops[i], owner) && By(ops[k], owner)
    ensures !ops[k].act.Claim? && !Ends(ops[i].act)
  {
    ActAt(ops, owner, |ops|, i);
    ActAt(ops, owner, |ops|, k);
    ActsGrow(ops, owner, k, i);
  }

  lemma {:induction false} ClockNeverFalls(ss: seq<State>, ops: seq<Op>, i: nat, j: nat)
    requires Run(ss, ops) && i <= j < |ss|
    ensures ss[i].clock <= ss[j].clock
    decreases j
  {
    if i < j {
      ClockNeverFalls(ss, ops, i, j - 1);
      assert ss[j] == Next(ss[j - 1], ops[j - 1]);
    }
  }

  /** Held under this owner until the deadline, or the deadline has passed. */
  predicate Stands(s: State, owner: string, deadline: nat) {
    s.holder == Some(Holder(owner, deadline)) || s.clock > deadline
  }

  /** Nobody else can disturb a standing key. */
  lemma StandsStep(s: State, op: Op, owner: string, deadline: nat)
    requires Stands(s, owner, deadline) && !(By(op, owner) && Ends(op.act))
    ensures Stands(Next(s, op), owner, deadline)
  {
  }

  lemma {:induction false} StandsOn(ss: seq<State>, ops: seq<Op>, owner: string, deadline: nat, i: nat, j: nat)
    requires Run(ss, ops) && i <= j < |ss| && Stands(ss[i], owner, deadline)
    requires forall k :: i <= k < j ==> !(By(ops[k], owner) && Ends(ops[k].act))
    ensures Stands(ss[j], owner, deadline)
    decreases j
  {
    if i < j {
      StandsOn(ss, ops, owner, deadline, i, j - 1);
      StandsStep(ss[j - 1], ops[j - 1], owner, deadline);
      assert ss[j] == Next(ss[j - 1], ops[j - 1]);
    }
  }

  /** A claim that is not ended stands, and outlives everything its attempt does. */
  lemma ClaimStands(ss: seq<State>, ops: seq<Op>, budgets: map<string, Budget>, owner: string, i: nat, j: nat)
    requires Run(ss, ops) && Disciplined(ss, ops, budgets)
    requires Claimed(ss, ops, i, owner) && i < j < |ss|
    requires forall k :: i <= k < j ==> !(By(ops[k], owner) && Ends(ops[k].act))
    ensures owner in budgets
    ensures ss[j].clock <= budgets[owner].start + budgets[owner].remaining ==> Owns(ss[j], owner)
  {
    var b := budgets[owner];
    var deadline := ss[i].clock + ops[i].act.ttl * SECOND;
    ClaimOutlivesBudget(b.remaining);
    assert ss[i + 1] == Next(ss[i], ops[i]);
    StandsOn(ss, ops, owner, deadline, i + 1, j);
  }

  /** No two attempts on one key overlap: once a later claim succeeds the earlier attempt does
      nothing any more. */
  lemma AttemptsNeverOverlap(ss: seq<State>, ops: seq<Op>, budgets: map<string, Budget>, a: string, b: string,
      i: nat, j: nat, k: nat)
    requires Run(ss, ops) && Disciplined(ss, ops, budgets)
    requires Claimed(ss, ops, i, a) && Claimed(ss, ops, j, b) && i < j <= k < |ops|
    ensures !By(ops[k], a)
  {
    if !By(ops[k], a) {
    } else if e :| i <= e < j && By(ops[e], a) && Ends(ops[e].act) {
      if e < k {
        ActsInOrder(ss, ops, budgets, a, e, k);
      }
    } else {
      ClaimStands(ss, ops, budgets, a, i, j);
      ClockNeverFalls(ss, ops, j, k);
    }
  }

  /** An attempt that promotes or releases always still owns its claim. */
  lemma EndsOwnClaim(ss: seq<State>, ops: seq<Op>, budgets: map<string, Budget>, owner: string, k: nat)
    requires Run(ss, ops) && Disciplined(ss, ops, budgets)
    requires k < |ops| && By(ops[k], owner) && Ends(ops[k].act)
    ensures Perform(ss[k], owner, ops[k].act).1
  {
    var i :| 0 <= i < k && Claimed(ss, ops, i, owner);
    forall e | i <= e < k ensures !(By(ops[e], owner) && Ends(ops[e].act)) {
      if By(ops[e], owner) {
        ActsInOrder(ss, ops, budgets, owner, e, k);
      }
    }
    ClaimStands(ss, ops, budgets, owner, i, k);
  }

  /** After a promoted delivery no attempt on the key sends anything within the promoted window. */
  lemma PromotedSilences(ss: seq<State>, ops: seq<Op>, budgets: map<string, Budget>, p: nat, k: nat)
    requires Run(ss, ops) && Disciplined(ss, ops, budgets)
    requires p < k < |ops| && ops[p].OpAct? && ops[p].act.Promote? && ops[k].OpAct? && ops[k].act.Send?
    ensures ss[k].clock > ss[p].clock + ops[p].act.ttl * SECOND
  {
    var a, b := ops[p].owner, ops[k].owner;
    var i :| 0 <= i < p && Claimed(ss, ops, i, a);
    var j :| 0 <= j < k && Claimed(ss, ops, j, b);
    EndsOwnClaim(ss, ops, budgets, a, p);
    if a == b {
      ActsInOrder(ss, ops, budgets, a, p, k);
    }
    if j < i {
      AttemptsNeverOverlap(ss, ops, budgets, b, a, j, i, k);
    } else if j < p {
      assert j != i;
      AttemptsNeverOverlap(ss, ops, budgets, a, b, i, j, p);
    }
    var deadline := ss[p].clock + ops[p].act.ttl * SECOND;
    assert ss[p + 1] == Next(ss[p], ops[p]);
    forall e | p + 1 <= e < j ensures !(By(ops[e], a) && Ends(ops[e].act)) {
      if By(ops[e], a) {
        ActsInOrder(ss, ops, budgets, a, p, e);
      }
    }
    StandsOn(ss, ops, a, deadline, p + 1, j);
    ClockNeverFalls(ss, ops, j, k);
  }
}
