/** The interruption budget over every run: rolling windows, the cooldown, the absence allowance. */
module BudgetRuns {
  import opened Redis
  import opened Account
  import opened AccountInvariants

  function SentKey(op: Op): (Class, string)
    requires op.OpReserve? || op.OpValidate?
  {
    (op.lane, op.identity)
  }

  // ---------- A send is remembered for a day ----------

  ghost predicate Remembers(s: State, lane: Class, id: string, sent: int) {
    (id in Own(s, lane).budget.scores && Own(s, lane).budget.scores[id] >= sent) || Now(s) - sent >= DAY
  }

  lemma TickRemembers(s: State, ms: nat, lane: Class, id: string, sent: int)
    requires WindowKept(Own(s, lane), s.clock)
    requires Remembers(s, lane, id, sent)
    ensures Remembers(Tick(s, ms), lane, id, sent)
  {
  }

  /** A reservation only forgets what is a day old and at most sends one identity now. */
  lemma ReserveShape(s: State, cfg: Settings, lane: Class, id: string, expected: Option<nat>)
    ensures var t := Reserve(s, cfg, lane, id, expected).0;
      var p := Pruned(s);
      && t.clock == s.clock
      && Other(t, lane) == Other(p, lane)
      && (Own(t, lane).budget.scores == Own(p, lane).budget.scores
         || Own(t, lane).budget.scores == Own(p, lane).budget.scores[id := Now(s)])
  {
    var p := Pruned(s);
    var t := Reserve(s, cfg, lane, id, expected).0;
    if t != p {
      assert t == WithOwn(p, lane, Touch(Own(p, lane), id, p.clock)) || t == Granted(p, lane, id);
    }
  }

  lemma ValidateShape(s: State, cfg: Settings, lane: Class, id: string, expected: Option<nat>)
    ensures var t := Validate(s, cfg, lane, id, expected).0;
      && t.clock == s.clock
      && Other(t, lane) == Other(s, lane)
      && (Own(t, lane).budget.scores == Own(s, lane).budget.scores
         || Own(t, lane).budget.scores == Own(s, lane).budget.scores[id := Now(s)])
  {
  }

  lemma ReserveRemembers(s: State, cfg: Settings, op: Op, lane: Class, id: string, sent: int)
    requires BudgetKept(s, cfg) && op.OpReserve?
    requires Remembers(s, lane, id, sent)
    ensures Remembers(Next(s, cfg, op), lane, id, sent)
  {
    var p := Pruned(s);
    assert id in Own(s, lane).budget.scores && Own(s, lane).budget.scores[id] > Now(s) - DAY ==>
        id in Own(p, lane).budget.scores && Own(p, lane).budget.scores[id] == Own(s, lane).budget.scores[id];
    ReserveShape(s, cfg, op.lane, op.identity, op.expected);
  }

  lemma NextRemembers(s: State, cfg: Settings, op: Op, lane: Class, id: string, sent: int)
    requires Kept(s, cfg)
    requires Remembers(s, lane, id, sent)
    ensures Remembers(Next(s, cfg, op), lane, id, sent)
  {
    match op
    case OpTick(ms) => TickRemembers(s, ms, lane, id, sent);
    case OpReserve(l, i, expected) =>
      ReserveRemembers(s, cfg, op, lane, id, sent);
      hide Next, Remembers, Kept;
    case OpValidate(l, i, expected) =>
      ValidateShape(s, cfg, l, i, expected);
      hide Validate, Kept;
    case OpRecord(u, micros) => assert Own(Record(s, u, micros).0, lane) == Own(s, lane);
    case OpBind(i, retention, micros) => assert Own(Bind(s, i, retention, micros).0, lane) == Own(s, lane);
    case _ =>
  }

  lemma AuthorisedNow(s: State, cfg: Settings, op: Op)
    requires Authorises(s, cfg, op)
    ensures var t := Next(s, cfg, op);
      && t.clock == s.clock
      && op.identity in Own(t, op.lane).budget.scores
      && Own(t, op.lane).budget.scores[op.identity] == Now(s)
  {
    if op.OpReserve? {
      ReserveAuthorised(s, cfg, op.lane, op.identity, op.expected);
      hide Reserve;
    }
  }

  lemma ReserveAuthorised(s: State, cfg: Settings, lane: Class, id: string, expected: Option<nat>)
    requires Reserve(s, cfg, lane, id, expected).1 == Allowed
    ensures var t := Reserve(s, cfg, lane, id, expected).0;
      t.clock == s.clock && id in Own(t, lane).budget.scores && Own(t, lane).budget.scores[id] == Now(s)
  {
    var p := Pruned(s);
    assert p.clock == s.clock;
    assert Reserve(s, cfg, lane, id, expected).0 == WithOwn(p, lane, Touch(Own(p, lane), id, p.clock))
      || Reserve(s, cfg, lane, id, expected).0 == Granted(p, lane, id);
    hide Reserve, Pruned;
  }

  lemma {:induction false} RunRemembers(cfg: Settings, ss: seq<State>, ops: seq<Op>, i: nat, j: nat)
    requires Run(cfg, ss, ops) && i < j < |ss|
    requires Authorises(ss[i], cfg, ops[i])
    ensures Remembers(ss[j], ops[i].lane, ops[i].identity, Now(ss[i]))
    decreases j
  {
    StepOf(cfg, ss, ops, j - 1);
    hide Run, Next;
    if j == i + 1 {
      AuthorisedNow(ss[i], cfg, ops[i]);
    } else {
      hide Authorises, Kept, Remembers;
      RunRemembers(cfg, ss, ops, i, j - 1);
      RunKeeps(cfg, ss, ops, j - 1);
      NextRemembers(ss[j - 1], cfg, ops[j - 1], ops[i].lane, ops[i].identity, Now(ss[i]));
    }
  }

  // ---------- Rolling windows ----------

  /** The distinct (class, identity) pairs authorised by the first `end` steps of a run at a
      server time in [from, from + span). */
  ghost function Authorised(cfg: Settings, ss: seq<State>, ops: seq<Op>, from: int, span: nat, end: nat)
    : set<(Class, string)>
    requires end <= |ops| < |ss|
  {
    set i | 0 <= i < end && Authorises(ss[i], cfg, ops[i]) && from <= Now(ss[i]) < from + span :: SentKey(ops[i])
  }

  function Recent(s: State, span: nat): set<(Class, string)> {
    (set id | id in Within(s.nonurgent.budget.scores, Now(s), span) :: (Nonurgent, id))
    + (set id | id in Within(s.direct.budget.scores, Now(s), span) :: (DirectMessage, id))
  }

  lemma RecentCount(s: State, span: nat)
    ensures |Recent(s, span)| ==
      |Within(s.nonurgent.budget.scores, Now(s), span)| + |Within(s.direct.budget.scores, Now(s), span)|
  {
    var a := Within(s.nonurgent.budget.scores, Now(s), span);
    var b := Within(s.direct.budget.scores, Now(s), span);
    var n := set id | id in a :: (Nonurgent, id);
    var d := set id | id in b :: (DirectMessage, id);
    ImageCardinality(a, id => (Nonurgent, id), n);
    ImageCardinality(b, id => (DirectMessage, id), d);
    assert n !! d && Recent(s, span) == n + d;
  }

  /** Everything authorised in a window that reaches up to a state is still counted there. */
  lemma AuthorisedIsRecent(cfg: Settings, ss: seq<State>, ops: seq<Op>, from: int, span: nat, end: nat)
    requires Run(cfg, ss, ops) && end < |ss|
    requires span <= DAY && Now(ss[end]) < from + span
    ensures Authorised(cfg, ss, ops, from, span, end) <= Recent(ss[end], span)
  {
    hide Next, Reserve, Validate;
    forall i | 0 <= i < end && Authorises(ss[i], cfg, ops[i]) && from <= Now(ss[i]) < from + span
      ensures SentKey(ops[i]) in Recent(ss[end], span)
    {
      RunRemembers(cfg, ss, ops, i, end);
      var w := Own(ss[end], ops[i].lane).budget.scores;
      assert ops[i].identity in Within(w, Now(ss[end]), span);
    }
  }

  ghost predicate NeverCountsOver(ss: seq<State>, span: nat, cap: nat) {
    forall i :: 0 <= i < |ss| ==> |Recent(ss[i], span)| <= cap
  }

  lemma CountAt(ss: seq<State>, span: nat, cap: nat, i: nat)
    requires NeverCountsOver(ss, span, cap) && i < |ss|
    ensures |Recent(ss[i], span)| <= cap
  {
    hide Recent;
  }

  /** In any run mixing both classes, retries and revalidations, at most `cap` distinct pairs are
      authorised in any window of the span, where `cap` bounds what one state counts. */
  lemma {:induction false} WindowCapUpTo(cfg: Settings, ss: seq<State>, ops: seq<Op>, from: int, span: nat, cap: nat,
      end: nat)
    requires Run(cfg, ss, ops) && end <= |ops|
    requires span <= DAY
    requires NeverCountsOver(ss, span, cap)
    ensures |Authorised(cfg, ss, ops, from, span, end)| <= cap
    decreases end
  {
    hide NeverCountsOver;
    if end == 0 {
    } else if Authorises(ss[end - 1], cfg, ops[end - 1]) && from <= Now(ss[end - 1]) < from + span {
      AuthorisedNow(ss[end - 1], cfg, ops[end - 1]);
      StepOf(cfg, ss, ops, end - 1);
      hide Authorises, Next, Authorised, Recent;
      AuthorisedIsRecent(cfg, ss, ops, from, span, end);
      CountAt(ss, span, cap, end);
      CardinalityMonotone(Authorised(cfg, ss, ops, from, span, end), Recent(ss[end], span));
    } else {
      QuietStep(cfg, ss, ops, from, span, end);
      hide Authorises, Next, Authorised, Recent;
      WindowCapUpTo(cfg, ss, ops, from, span, cap, end - 1);
    }
  }

  lemma QuietStep(cfg: Settings, ss: seq<State>, ops: seq<Op>, from: int, span: nat, end: nat)
    requires 0 < end <= |ops| < |ss|
    requires !(Authorises(ss[end - 1], cfg, ops[end - 1]) && from <= Now(ss[end - 1]) < from + span)
    ensures Authorised(cfg, ss, ops, from, span, end) == Authorised(cfg, ss, ops, from, span, end - 1)
  {
    hide Authorises;
  }

  /** Hourly and daily caps hold over every window of every run. */
  lemma WindowCaps(cfg: Settings, ss: seq<State>, ops: seq<Op>, from: int)
    requires Run(cfg, ss, ops)
    ensures |Authorised(cfg, ss, ops, from, HOUR, |ops|)| <= cfg.hourlyCap
    ensures |Authorised(cfg, ss, ops, from, DAY, |ops|)| <= cfg.dailyCap
  {
    forall i | 0 <= i < |ss| ensures |Recent(ss[i], HOUR)| <= cfg.hourlyCap && |Recent(ss[i], DAY)| <= cfg.dailyCap {
      RunKeeps(cfg, ss, ops, i);
      RecentCount(ss[i], HOUR);
      RecentCount(ss[i], DAY);
    }
    WindowCapUpTo(cfg, ss, ops, from, HOUR, cfg.hourlyCap, |ops|);
    WindowCapUpTo(cfg, ss, ops, from, DAY, cfg.dailyCap, |ops|);
  }

  // ---------- Cooldown ----------

  /** Authorising a nonurgent identity means every other remembered nonurgent send is old enough. */
  lemma AuthorisedAfterGap(s: State, cfg: Settings, op: Op, id: string, sent: int)
    requires Authorises(s, cfg, op) && op.lane == Nonurgent && op.identity != id
    requires Remembers(s, Nonurgent, id, sent)
    ensures Now(s) - sent >= cfg.minInterval || Now(s) - sent >= DAY
  {
    if op.OpReserve? {
      var scores := Pruned(s).nonurgent.budget.scores;
      if id in scores {
        assert id in scores - {op.identity};
      }
    } else {
      assert id in s.nonurgent.budget.scores ==> id in s.nonurgent.budget.scores - {op.identity};
    }
  }

  /** Two authorisations of distinct nonurgent identities are a full gap apart, or a full day when
      the configured gap is longer than the remembered day. */
  lemma Spacing(cfg: Settings, ss: seq<State>, ops: seq<Op>, i: nat, j: nat)
    requires Run(cfg, ss, ops) && i < j < |ops|
    requires Authorises(ss[i], cfg, ops[i]) && Authorises(ss[j], cfg, ops[j])
    requires ops[i].lane == ops[j].lane == Nonurgent && ops[i].identity != ops[j].identity
    ensures Now(ss[j]) - Now(ss[i]) >= if cfg.minInterval < DAY then cfg.minInterval else DAY
  {
    RunRemembers(cfg, ss, ops, i, j);
    AuthorisedAfterGap(ss[j], cfg, ops[j], ops[i].identity, Now(ss[i]));
  }

  // ---------- Absence allowance ----------

  /** Activity has been reported and the account hash is still retained. */
  predicate Reported(s: State) { s.profile.Some? && s.profile.value.reported }

  function Used(s: State): nat { ProfileOrNew(s).absenceUsed.GetOr(0) }

  ghost function GrantCount(cfg: Settings, ss: seq<State>, ops: seq<Op>, from: nat, to: nat): nat
    requires from <= to <= |ops| < |ss|
  {
    if from == to then 0
    else GrantCount(cfg, ss, ops, from, to - 1) + (if Grants(ss[to - 1], cfg, ops[to - 1], Nonurgent) then 1 else 0)
  }

  lemma AllowanceStep(s: State, cfg: Settings, op: Op)
    requires Kept(s, cfg) && Reported(s) && Reported(Next(s, cfg, op)) && !Visits(s, op)
    ensures Used(Next(s, cfg, op)) == Used(s) + (if Grants(s, cfg, op, Nonurgent) then 1 else 0)
  {
    match op
    case OpReserve(lane, id, expected) => ReserveAllowance(s, cfg, op);
    case OpValidate(lane, id, expected) => ValidateFrame(s, cfg, lane, id, expected);
    case _ =>
  }

  lemma ReserveAllowance(s: State, cfg: Settings, op: Op)
    requires ProfileKept(s, cfg) && Reported(s) && op.OpReserve?
    ensures Used(Next(s, cfg, op)) == Used(s) + (if Grants(s, cfg, op, Nonurgent) then 1 else 0)
  {
    var p := Pruned(s);
    assert p.profile == s.profile;
    assert AllowanceUsed(p, op.lane) == Used(s);
    hide Pruned, AllowanceUsed, Remaining, HourCount;
  }

  /** A stretch of a run without a visit, over which the reported account hash is retained. */
  ghost predicate Absent(ss: seq<State>, ops: seq<Op>, from: nat, to: nat)
    requires from <= to <= |ops| < |ss|
  {
    && (forall i :: from <= i <= to ==> Reported(ss[i]))
    && (forall i :: from <= i < to ==> !Visits(ss[i], ops[i]))
  }

  lemma AllowanceStepAt(cfg: Settings, ss: seq<State>, ops: seq<Op>, k: nat)
    requires Run(cfg, ss, ops) && k < |ops|
    requires Reported(ss[k]) && Reported(ss[k + 1]) && !Visits(ss[k], ops[k])
    ensures Used(ss[k + 1]) == Used(ss[k]) + (if Grants(ss[k], cfg, ops[k], Nonurgent) then 1 else 0)
  {
    RunKeeps(cfg, ss, ops, k);
    AllowanceStep(ss[k], cfg, ops[k]);
  }

  lemma {:induction false} AllowanceTracksGrants(cfg: Settings, ss: seq<State>, ops: seq<Op>, from: nat, to: nat)
    requires Run(cfg, ss, ops) && from <= to <= |ops|
    requires Absent(ss, ops, from, to)
    ensures Used(ss[to]) == Used(ss[from]) + GrantCount(cfg, ss, ops, from, to)
    decreases (to)
  {
    if from < to {
      hide Next, Visits, Grants;
      AllowanceTracksGrants(cfg, ss, ops, from, to - 1);
      AllowanceStepAt(cfg, ss, ops, to - 1);
    }
  }

  /** When the reported account hash lapses unless a message is accepted first. */
  function LapsesAt(s: State): int {
    if s.profile.Some? && s.profile.value.deadline.Some? then s.profile.value.deadline.value else 0
  }

  lemma RetainedStep(s: State, cfg: Settings, op: Op)
    requires ProfileKept(s, cfg) && Reported(s) && Next(s, cfg, op).clock <= LapsesAt(s)
    ensures Reported(Next(s, cfg, op)) && LapsesAt(s) <= LapsesAt(Next(s, cfg, op))
  {
    match op
    case OpReserve(lane, id, expected) => ReserveFrame(s, cfg, lane, id, expected);
    case OpValidate(lane, id, expected) => ValidateFrame(s, cfg, lane, id, expected);
    case _ =>
  }

  /** The account hash of a state is retained as long as the clock has not passed its deadline. */
  lemma {:induction false} RetainedUntilDeadline(cfg: Settings, ss: seq<State>, ops: seq<Op>, from: nat, k: nat)
    requires Run(cfg, ss, ops) && from <= k <= |ops|
    requires Reported(ss[from]) && ss[k].clock <= LapsesAt(ss[from])
    ensures Reported(ss[k]) && LapsesAt(ss[from]) <= LapsesAt(ss[k])
    decreases k
  {
    if from < k {
      ClockNeverFalls(cfg, ss, ops, k - 1, k);
      RetainedUntilDeadline(cfg, ss, ops, from, k - 1);
      RunKeeps(cfg, ss, ops, k - 1);
      StepOf(cfg, ss, ops, k - 1);
      hide Next, Run, BudgetKept, GenerationKept, ProfileKept;
      RetainedStep(ss[k - 1], cfg, ops[k - 1]);
    }
  }

  /** From any point at which activity has been reported, until the deadline the account hash has
      there, at most `absenceCap` new nonurgent reservations are granted without a visit between;
      heartbeats, retries, revalidations and direct messages neither spend nor restore the
      allowance. */
  lemma AbsenceAllowance(cfg: Settings, ss: seq<State>, ops: seq<Op>, from: nat, to: nat)
    requires Run(cfg, ss, ops) && from <= to <= |ops|
    requires Reported(ss[from]) && ss[to].clock <= LapsesAt(ss[from])
    requires forall i :: from <= i < to ==> !Visits(ss[i], ops[i])
    ensures GrantCount(cfg, ss, ops, from, to) <= cfg.absenceCap
  {
    forall i | from <= i <= to ensures Reported(ss[i]) {
      ClockNeverFalls(cfg, ss, ops, i, to);
      RetainedUntilDeadline(cfg, ss, ops, from, i);
    }
    AllowanceTracksGrants(cfg, ss, ops, from, to);
    RunKeeps(cfg, ss, ops, to);
  }

  /** A visit restores the whole allowance. */
  lemma VisitRestores(s: State, cfg: Settings, op: Op)
    requires Visits(s, op)
    ensures Reported(Next(s, cfg, op)) && Next(s, cfg, op).profile.value.absenceUsed == Some(0)
  {
  }

  /** The reported account hash is retained until 90 days pass without an accepted message. */
  lemma RetainedWhileRecent(s: State, cfg: Settings, op: Op)
    requires Reported(s)
    ensures Reported(Next(s, cfg, op))
      || (op.OpTick? && s.profile.value.deadline.Some? && s.clock + op.ms > s.profile.value.deadline.value)
  {
    match op
    case OpReserve(lane, id, expected) => ReserveFrame(s, cfg, lane, id, expected);
    case OpValidate(lane, id, expected) => ValidateFrame(s, cfg, lane, id, expected);
    case _ =>
  }

  /** Direct messages leave the nonurgent sends, the allowance and so the cooldown as they were,
      apart from forgetting what no longer counts. */
  lemma DirectMessagesSpendNothing(s: State, cfg: Settings, id: string, expected: Option<nat>)
    ensures var t := Reserve(s, cfg, DirectMessage, id, expected).0;
      t.nonurgent == Prune(s.nonurgent, Now(s)) && t.profile == s.profile
    ensures var t := Validate(s, cfg, DirectMessage, id, expected).0;
      t.nonurgent == s.nonurgent && t.profile == s.profile
  {
  }

  // ---------- What each decision means ----------

  /** The identity was sent within the last day, so a retry needs no new slot. */
  predicate HasSlot(s: State, lane: Class, id: string) {
    id in Within(Own(s, lane).budget.scores, Now(s), DAY)
  }

  /** No other nonurgent identity of the given sends is younger than the gap. */
  predicate GapOver(sends: map<string, int>, id: string, now: int, gap: nat, horizon: nat) {
    forall other :: other in sends && other != id && sends[other] > now - horizon ==> now - sends[other] >= gap
  }

  /** Nonurgent sends still allowed before the next visit; an account that never reported activity
      counts its nonurgent sends of the last day instead. */
  predicate HasAllowance(s: State, cfg: Settings) {
    (if Reported(s) then Used(s) else |Within(s.nonurgent.budget.scores, Now(s), DAY)|) < cfg.absenceCap
  }

  /** A reservation is allowed exactly when the work is not stale, nobody is present, the shared
      windows have room, and a nonurgent identity keeps its gap and (when new) has allowance. */
  ghost predicate MayReserve(s: State, cfg: Settings, lane: Class, id: string, expected: Option<nat>) {
    && (expected.Some? ==> expected.value == Generation(s))
    && !IsActive(s).1
    && (lane.Nonurgent? ==> GapOver(s.nonurgent.budget.scores, id, Now(s), cfg.minInterval, DAY))
    && (if HasSlot(s, lane, id)
        then
          && ReservedUnder(Own(s, lane), id) == Generation(s)
          && (id in Within(Own(s, lane).budget.scores, Now(s), HOUR) || HourCount(s) < cfg.hourlyCap)
        else
          && (lane.Nonurgent? ==> HasAllowance(s, cfg))
          && HourCount(s) < cfg.hourlyCap && DayCount(s) < cfg.dailyCap)
  }

  /** Waiting for the newest send waits for all of them. */
  lemma RemainingExactly(sends: map<string, int>, gap: nat, now: int)
    ensures Remaining(sends, gap, now) <= 0 <==> forall k :: k in sends ==> now - sends[k] >= gap
    ensures Remaining(sends, gap, now) > 0 ==>
      exists k :: k in sends && sends[k] + gap == now + Remaining(sends, gap, now)
  {
  }

  lemma PrunedAgrees(s: State, cfg: Settings, lane: Class, id: string)
    requires BudgetKept(s, cfg)
    ensures var p := Pruned(s);
      && BudgetKept(p, cfg)
      && (id in Own(p, lane).budget.scores <==> HasSlot(s, lane, id))
      && (HasSlot(s, lane, id) ==> Own(p, lane).budget.scores[id] == Own(s, lane).budget.scores[id])
      && ReservedUnder(Own(p, lane), id) == (if HasSlot(s, lane, id) then ReservedUnder(Own(s, lane), id) else 0)
      && HourCount(p) == HourCount(s)
      && |p.nonurgent.budget.scores| + |p.direct.budget.scores| == DayCount(s)
      && |p.nonurgent.budget.scores| == |Within(s.nonurgent.budget.scores, Now(s), DAY)|
      && p.profile == s.profile && p.clock == s.clock
      && (p.presence.scores.Keys != {} <==> IsActive(s).1)
      && (forall k :: k in p.nonurgent.budget.scores <==>
         k in s.nonurgent.budget.scores && s.nonurgent.budget.scores[k] > Now(s) - DAY)
      && (forall k :: k in p.nonurgent.budget.scores ==> p.nonurgent.budget.scores[k] == s.nonurgent.budget.scores[k])
  {
    PrunedKeeps(s, cfg);
    PruneKeeps(s.nonurgent, s.clock);
    PruneKeeps(s.direct, s.clock);
    var p := Pruned(s);
    assert p.nonurgent == Prune(s.nonurgent, Now(s)) && p.direct == Prune(s.direct, Now(s));
    assert |p.nonurgent.budget.scores| == |p.nonurgent.budget.scores.Keys|;
  }

  lemma GapAgrees(s: State, cfg: Settings, id: string)
    requires BudgetKept(s, cfg)
    ensures var scores := Pruned(s).nonurgent.budget.scores;
      && (Remaining(scores - {id}, cfg.minInterval, Now(s)) <= 0 <==>
         GapOver(s.nonurgent.budget.scores, id, Now(s), cfg.minInterval, DAY))
      && (id !in scores ==> scores - {id} == scores)
  {
    PrunedAgrees(s, cfg, Nonurgent, id);
    var scores := Pruned(s).nonurgent.budget.scores;
    hide Pruned, BudgetKept;
    assert forall k :: k in scores - {id} <==> k in scores && k != id;
    assert forall k :: k in scores - {id} ==> (scores - {id})[k] == s.nonurgent.budget.scores[k];
    RemainingExactly(scores - {id}, cfg.minInterval, Now(s));
  }

  /** A retry of the identity fits the hour: it was sent in it, or there is room for one more. */
  predicate FitsHour(s: State, cfg: Settings, lane: Class, id: string) {
    id in Within(Own(s, lane).budget.scores, Now(s), HOUR) || HourCount(s) < cfg.hourlyCap
  }

  /** The work belongs to the account's generation, as far as it and its slot name one, and nobody is
      present. */
  predicate Current(s: State, lane: Class, id: string, expected: Option<nat>) {
    && (expected.Some? ==> expected.value == Generation(s))
    && !IsActive(s).1
    && (HasSlot(s, lane, id) ==> ReservedUnder(Own(s, lane), id) == Generation(s))
  }

  /** What a retry of current work is told. */
  ghost predicate AgainAs(s: State, cfg: Settings, lane: Class, id: string, d: BudgetDecision) {
    var gap := lane.Nonurgent? ==> GapOver(s.nonurgent.budget.scores, id, Now(s), cfg.minInterval, DAY);
    && (d.Capped? <==> !FitsHour(s, cfg, lane, id))
    && (d.Cooldown? <==> FitsHour(s, cfg, lane, id) && !gap)
    && (d.Allowed? <==> FitsHour(s, cfg, lane, id) && gap)
  }

  /** What new current work is told: first about the allowance, then the gap, then the caps. */
  ghost predicate FreshAs(s: State, cfg: Settings, lane: Class, id: string, d: BudgetDecision) {
    var allowance := lane.Nonurgent? ==> HasAllowance(s, cfg);
    var gap := lane.Nonurgent? ==> GapOver(s.nonurgent.budget.scores, id, Now(s), cfg.minInterval, DAY);
    var room := HourCount(s) < cfg.hourlyCap && DayCount(s) < cfg.dailyCap;
    && (d.AllowanceExhausted? <==> !allowance)
    && (d.Cooldown? <==> allowance && !gap)
    && (d.Capped? <==> allowance && gap && !room)
    && (d.Allowed? <==> allowance && gap && room)
  }

  /** A retry's decision in terms of what is left after pruning. */
  lemma AgainDecision(p: State, cfg: Settings, lane: Class, id: string)
    requires id in Own(p, lane).budget.scores
    ensures var d := ReserveAgain(p, cfg, lane, id).1;
      var fits := Own(p, lane).budget.scores[id] > Now(p) - HOUR || HourCount(p) < cfg.hourlyCap;
      var gap := lane.Nonurgent? ==> Remaining(p.nonurgent.budget.scores - {id}, cfg.minInterval, Now(p)) <= 0;
      if ReservedUnder(Own(p, lane), id) != Generation(p) then d == StaleVisit
      else
        && (d.Capped? <==> !fits)
        && (d.Cooldown? <==> fits && !gap)
        && (d.Allowed? <==> fits && gap)
        && (d.Capped? || d.Cooldown? || d.Allowed?)
  {
    hide HourCount, Remaining, Touch;
  }

  lemma AgainRefusals(s: State, cfg: Settings, lane: Class, id: string)
    requires BudgetKept(s, cfg) && HasSlot(s, lane, id)
    ensures id in Own(Pruned(s), lane).budget.scores
    ensures var d := ReserveAgain(Pruned(s), cfg, lane, id).1;
      if ReservedUnder(Own(s, lane), id) != Generation(s) then d == StaleVisit
      else !d.StaleVisit? && !d.Active? && !d.AllowanceExhausted? && AgainAs(s, cfg, lane, id, d)
  {
    var p := Pruned(s);
    PrunedAgrees(s, cfg, lane, id);
    GapAgrees(s, cfg, id);
    assert Generation(p) == Generation(s) && Now(p) == Now(s);
    AgainDecision(p, cfg, lane, id);
    hide ReserveAgain, Prune, Pruned, BudgetKept, HourCount, DayCount, Generation, Now, Remaining, GapOver, IsActive,
      Granted, Touch;
  }

  /** A new identity's decision in terms of what is left after pruning. */
  lemma FreshDecision(p: State, cfg: Settings, lane: Class, id: string)
    ensures var d := ReserveFresh(p, cfg, lane, id).1;
      var allowance := lane.Nonurgent? ==> AllowanceUsed(p, lane) < cfg.absenceCap;
      var gap := lane.Nonurgent? ==> Remaining(p.nonurgent.budget.scores, cfg.minInterval, Now(p)) <= 0;
      var room := HourCount(p) < cfg.hourlyCap
        && |p.nonurgent.budget.scores| + |p.direct.budget.scores| < cfg.dailyCap;
      && !d.StaleVisit? && !d.Active?
      && (d.AllowanceExhausted? <==> !allowance)
      && (d.Cooldown? <==> allowance && !gap)
      && (d.Capped? <==> allowance && gap && !room)
      && (d.Allowed? <==> allowance && gap && room)
  {
    hide Granted, HourCount, Remaining, AllowanceUsed;
  }

  lemma FreshRefusals(s: State, cfg: Settings, lane: Class, id: string)
    requires BudgetKept(s, cfg) && !HasSlot(s, lane, id)
    ensures var d := ReserveFresh(Pruned(s), cfg, lane, id).1;
      !d.StaleVisit? && !d.Active? && FreshAs(s, cfg, lane, id, d)
  {
    var p := Pruned(s);
    PrunedAgrees(s, cfg, lane, id);
    GapAgrees(s, cfg, id);
    assert Generation(p) == Generation(s) && Now(p) == Now(s);
    assert lane.Nonurgent? ==> (AllowanceUsed(p, lane) < cfg.absenceCap <==> HasAllowance(s, cfg));
    FreshDecision(p, cfg, lane, id);
    hide ReserveFresh, Prune, Pruned, BudgetKept, HourCount, DayCount, Generation, Now, Remaining, GapOver, IsActive,
      Granted, Touch, HasSlot, HasAllowance, AllowanceUsed;
  }

  /** Every decision, exactly: stale work is refused first, then everything while somebody is present,
      then a slot of another generation; current work is told why it must wait, or may go. */
  lemma DecidedExactly(s: State, cfg: Settings, lane: Class, id: string, expected: Option<nat>)
    requires BudgetKept(s, cfg)
    ensures var d := Reserve(s, cfg, lane, id, expected).1;
      var named := expected.Some? ==> expected.value == Generation(s);
      && (d.StaleVisit? <==> !named || (!IsActive(s).1 && !Current(s, lane, id, expected)))
      && (d.Active? <==> named && IsActive(s).1)
      && (Current(s, lane, id, expected) ==>
            if HasSlot(s, lane, id) then !d.AllowanceExhausted? && AgainAs(s, cfg, lane, id, d)
            else FreshAs(s, cfg, lane, id, d))
  {
    PrunedAgrees(s, cfg, lane, id);
    if HasSlot(s, lane, id) {
      AgainRefusals(s, cfg, lane, id);
    } else {
      FreshRefusals(s, cfg, lane, id);
    }
    hide ReserveAgain, ReserveFresh, Pruned, BudgetKept, HasSlot, HasAllowance, AgainAs, FreshAs, IsActive;
  }

  /** So a cooldown is given exactly to current nonurgent work inside the gap that nothing else stops
      before it. */
  lemma CooldownExactly(s: State, cfg: Settings, lane: Class, id: string, expected: Option<nat>)
    requires BudgetKept(s, cfg)
    ensures Reserve(s, cfg, lane, id, expected).1.Cooldown? <==>
      && Current(s, lane, id, expected) && lane.Nonurgent?
      && !GapOver(s.nonurgent.budget.scores, id, Now(s), cfg.minInterval, DAY)
      && (if HasSlot(s, lane, id) then FitsHour(s, cfg, lane, id) else HasAllowance(s, cfg))
  {
    DecidedExactly(s, cfg, lane, id, expected);
    hide Reserve, BudgetKept, GapOver, HasSlot, HasAllowance, FitsHour;
  }

  lemma AllowedExactly(s: State, cfg: Settings, lane: Class, id: string, expected: Option<nat>)
    requires BudgetKept(s, cfg)
    ensures Reserve(s, cfg, lane, id, expected).1 == Allowed <==> MayReserve(s, cfg, lane, id, expected)
  {
    DecidedExactly(s, cfg, lane, id, expected);
    hide Reserve, BudgetKept, HourCount, DayCount, GapOver, HasSlot, HasAllowance, IsActive;
  }

  /** A revalidation passes exactly when the slot is live, reserved in the current generation, fits
      the current hour, and nobody is present; a nonurgent one also keeps its gap to every send
      the key still holds, however old. */
  lemma ValidatedExactly(s: State, cfg: Settings, lane: Class, id: string, expected: Option<nat>)
    ensures Validate(s, cfg, lane, id, expected).1 <==>
      && (expected.Some? ==> expected.value == Generation(s))
      && !IsActive(s).1
      && HasSlot(s, lane, id)
      && ReservedUnder(Own(s, lane), id) == Generation(s)
      && (id in Within(Own(s, lane).budget.scores, Now(s), HOUR) || HourCount(s) < cfg.hourlyCap)
      && (lane.Nonurgent? ==> forall other :: other in s.nonurgent.budget.scores && other != id ==>
            Now(s) - s.nonurgent.budget.scores[other] >= cfg.minInterval)
  {
    var scores := s.nonurgent.budget.scores;
    assert forall k :: k in scores - {id} <==> k in scores && k != id;
    RemainingExactly(scores - {id}, cfg.minInterval, Now(s));
    hide Remaining, HourCount, Touch;
  }

  lemma CooldownIsRemaining(s: State, cfg: Settings, lane: Class, id: string, expected: Option<nat>)
    requires BudgetKept(s, cfg)
    requires Reserve(s, cfg, lane, id, expected).1.Cooldown?
    ensures lane.Nonurgent?
    ensures Reserve(s, cfg, lane, id, expected).1.retryAfter ==
      Remaining(Pruned(s).nonurgent.budget.scores - {id}, cfg.minInterval, Now(s)) > 0
  {
    GapAgrees(s, cfg, id);
    assert Now(Pruned(s)) == Now(s);
    hide Pruned, Remaining, BudgetKept, HourCount, GapOver, AllowanceUsed;
  }

  /** A cooldown names the newest other nonurgent send of the last day and the wait that clears it. */
  lemma CooldownSource(s: State, cfg: Settings, lane: Class, id: string, expected: Option<nat>) returns (other: string)
    requires BudgetKept(s, cfg)
    requires Reserve(s, cfg, lane, id, expected).1.Cooldown?
    ensures var r := Reserve(s, cfg, lane, id, expected).1.retryAfter;
      && lane.Nonurgent? && r > 0 && other != id && other in s.nonurgent.budget.scores
      && s.nonurgent.budget.scores[other] > Now(s) - DAY
      && s.nonurgent.budget.scores[other] + cfg.minInterval == Now(s) + r
      && GapOver(s.nonurgent.budget.scores, id, Now(s) + r, cfg.minInterval, DAY + r)
  {
    var r := Reserve(s, cfg, lane, id, expected).1.retryAfter;
    PrunedAgrees(s, cfg, lane, id);
    CooldownIsRemaining(s, cfg, lane, id, expected);
    var sends := Pruned(s).nonurgent.budget.scores - {id};
    hide Reserve, Pruned, BudgetKept, Remaining;
    RemainingExactly(sends, cfg.minInterval, Now(s));
    RemainingExactly(sends, cfg.minInterval, Now(s) + r);
    other :| other in sends && sends[other] + cfg.minInterval == Now(s) + r;
    forall k | k in s.nonurgent.budget.scores && k != id && s.nonurgent.budget.scores[k] > Now(s) - DAY
      ensures Now(s) + r - s.nonurgent.budget.scores[k] >= cfg.minInterval
    {
      assert k in sends;
    }
  }

  /** When a cooldown that advertises `retryAfter` really ends: a gap longer than the remembered day is
      over once the send that caused it is a day old and forgotten. */
  function CooldownEnds(cfg: Settings, retryAfter: nat): int {
    if cfg.minInterval > DAY then retryAfter - (cfg.minInterval - DAY) else retryAfter
  }

  /** With nothing else happening no earlier retry is allowed, and from then the cooldown is over. The
      advertised wait is that moment exactly when the gap is at most a day, and later than it otherwise. */
  lemma CooldownIsExact(s: State, cfg: Settings, lane: Class, id: string, expected: Option<nat>, wait: nat)
    requires BudgetKept(s, cfg)
    requires Reserve(s, cfg, lane, id, expected).1.Cooldown?
    ensures var end := CooldownEnds(cfg, Reserve(s, cfg, lane, id, expected).1.retryAfter);
      && 0 < end <= Reserve(s, cfg, lane, id, expected).1.retryAfter
      && (wait < end ==> Reserve(Tick(s, 1000 * wait), cfg, lane, id, expected).1 != Allowed)
      && (wait >= end ==> !Reserve(Tick(s, 1000 * wait), cfg, lane, id, expected).1.Cooldown?)
  {
    var other := CooldownSource(s, cfg, lane, id, expected);
    var r := Reserve(s, cfg, lane, id, expected).1.retryAfter;
    var t, end := Tick(s, 1000 * wait), CooldownEnds(cfg, r);
    TickKeepsBudget(s, cfg, 1000 * wait);
    hide Reserve;
    assert Now(t) == Now(s) + wait;
    if wait < end {
      assert t.nonurgent.budget.scores == s.nonurgent.budget.scores;
      AllowedExactly(t, cfg, lane, id, expected);
      assert !GapOver(t.nonurgent.budget.scores, id, Now(t), cfg.minInterval, DAY);
    } else if Reserve(t, cfg, lane, id, expected).1.Cooldown? {
      var late := CooldownSource(t, cfg, lane, id, expected);
      assert false;
    }
  }

  // ---------- The allowance after the account hash has lapsed ----------

  /** Activity is not known of, nobody is present, and only nonurgent sends are remembered. */
  predicate Dormant(s: State) {
    && !Reported(s) && s.presence.scores == map[]
    && s.direct.budget.scores == map[]
  }

  /** A day later such an account is granted a new reservation, and is such an account again. */
  lemma DailyReservation(s: State, cfg: Settings, id: string)
    requires Dormant(s) && BudgetKept(s, cfg)
    requires 0 < cfg.hourlyCap && 0 < cfg.dailyCap && 0 < cfg.absenceCap
    ensures var t := Tick(s, 1000 * DAY);
      && Grants(t, cfg, OpReserve(Nonurgent, id, None), Nonurgent)
      && Dormant(Reserve(t, cfg, Nonurgent, id, None).0)
  {
    var t := Tick(s, 1000 * DAY);
    TickKeepsBudget(s, cfg, 1000 * DAY);
    assert Now(t) == Now(s) + DAY;
    assert Within(t.nonurgent.budget.scores, Now(t), DAY) == {}
      && Within(t.nonurgent.budget.scores, Now(t), HOUR) == {};
    assert Within(t.direct.budget.scores, Now(t), DAY) == {} && Within(t.direct.budget.scores, Now(t), HOUR) == {};
    AllowedExactly(t, cfg, Nonurgent, id, None);
    PrunedAgrees(t, cfg, Nonurgent, id);
    DormantAfter(t, cfg, id);
    hide Reserve, Pruned;
  }

  lemma DormantAfter(t: State, cfg: Settings, id: string)
    requires Dormant(t)
    ensures Dormant(Reserve(t, cfg, Nonurgent, id, None).0)
  {
    ReserveFrame(t, cfg, Nonurgent, id, None);
    ReserveShape(t, cfg, Nonurgent, id, None);
    ReservePresence(t, cfg, Nonurgent, id, None);
    hide Reserve;
  }

  lemma ReservePresence(s: State, cfg: Settings, lane: Class, id: string, expected: Option<nat>)
    ensures Reserve(s, cfg, lane, id, expected).0.presence == s.presence.Above(Now(s))
  {
    hide Remaining, HourCount, AllowanceUsed, Generation;
  }

  /** The steps of an account that reports one visit, lets its hash lapse, and is then offered one new
      identity a day. */
  function LapsedOps(m: nat): seq<Op> {
    if m == 0 then [OpRecord(Update("phone", 1, 1, false), 0), OpTick(1000 * STATE_TTL_SECS + 1)]
    else LapsedOps(m - 1) + [OpTick(1000 * DAY), OpReserve(Nonurgent, seq(m, _ => 'a'), None)]
  }

  lemma {:induction false} LapsedSteps(m: nat, i: nat)
    requires i < |LapsedOps(m)|
    ensures |LapsedOps(m)| == 2 + 2 * m && LapsedOps(m)[0].OpRecord? && (i > 0 ==> !LapsedOps(m)[i].OpRecord?)
  {
    if m > 0 {
      LapsedLength(m - 1);
      if i < |LapsedOps(m - 1)| { LapsedSteps(m - 1, i); } else { LapsedSteps(m - 1, 0); }
    }
  }

  lemma {:induction false} LapsedLength(m: nat)
    ensures |LapsedOps(m)| == 2 + 2 * m
  {
    if m > 0 { LapsedLength(m - 1); }
  }

  lemma {:induction false} GrantCountPrefix(cfg: Settings, ss: seq<State>, ops: seq<Op>, ss': seq<State>,
      ops': seq<Op>, from: nat, k: nat)
    requires from <= k <= |ops| < |ss| && ss <= ss' && ops <= ops' && |ops'| < |ss'|
    ensures GrantCount(cfg, ss', ops', from, k) == GrantCount(cfg, ss, ops, from, k)
    decreases k
  {
    if from < k {
      GrantCountPrefix(cfg, ss, ops, ss', ops', from, k - 1);
      hide Grants;
      assert ss'[k - 1] == ss[k - 1] && ops'[k - 1] == ops[k - 1];
    }
  }

  lemma ExtendRun(cfg: Settings, ss: seq<State>, ops: seq<Op>, op: Op)
    requires Run(cfg, ss, ops)
    ensures Run(cfg, ss + [Next(ss[|ops|], cfg, op)], ops + [op])
  {
    var more, steps := ss + [Next(ss[|ops|], cfg, op)], ops + [op];
    hide Next, Init;
    forall i | 0 <= i < |steps| ensures more[i + 1] == Next(more[i], cfg, steps[i]) {
      if i < |ops| { StepOf(cfg, ss, ops, i); }
    }
    assert more[0] == ss[0];
  }

  /** One more such day: one more grant. */
  lemma LapsedDay(cfg: Settings, before: seq<State>, ops: seq<Op>, id: string) returns (ss: seq<State>, steps: seq<Op>)
    requires 0 < cfg.hourlyCap && 0 < cfg.dailyCap && 0 < cfg.absenceCap
    requires Run(cfg, before, ops) && 1 <= |ops| && Dormant(before[|ops|])
    ensures steps == ops + [OpTick(1000 * DAY), OpReserve(Nonurgent, id, None)]
    ensures Run(cfg, ss, steps) && before <= ss && Dormant(ss[|steps|])
    ensures GrantCount(cfg, ss, steps, 1, |steps|) == GrantCount(cfg, before, ops, 1, |ops|) + 1
  {
    var n := |ops|;
    var tick, reserve := OpTick(1000 * DAY), OpReserve(Nonurgent, id, None);
    RunKeeps(cfg, before, ops, n);
    DailyReservation(before[n], cfg, id);
    TickGrantsNothing(before[n], cfg, tick);
    assert Next(before[n], cfg, tick) == Tick(before[n], 1000 * DAY);
    var rested := Next(before[n], cfg, tick);
    assert Next(rested, cfg, reserve) == Reserve(rested, cfg, Nonurgent, id, None).0;
    hide Next, Grants, Dormant, BudgetKept, GenerationKept, ProfileKept, Init;
    ExtendRun(cfg, before, ops, tick);
    var mid := before + [rested];
    ExtendRun(cfg, mid, ops + [tick], reserve);
    ss, steps := mid + [Next(rested, cfg, reserve)], ops + [tick] + [reserve];
    hide Run;
    GrantCountPrefix(cfg, before, ops, ss, steps, 1, n);
    assert GrantCount(cfg, ss, steps, 1, n + 1) == GrantCount(cfg, ss, steps, 1, n);
  }

  /** The deadline is needed, under every valid cap and without any bound: 90 days after its last
      message the account counts only the nonurgent sends of the last day, and without any further
      visit it is granted a new reservation every day. */
  lemma {:induction false} AllowanceLapses(cfg: Settings, m: nat) returns (ss: seq<State>)
    requires 0 < cfg.hourlyCap && 0 < cfg.dailyCap && 0 < cfg.absenceCap
    ensures |LapsedOps(m)| == 2 + 2 * m && Run(cfg, ss, LapsedOps(m))
    ensures Reported(ss[1]) && Dormant(ss[2 + 2 * m])
    ensures forall i :: 1 <= i < |LapsedOps(m)| ==> !Visits(ss[i], LapsedOps(m)[i])
    ensures GrantCount(cfg, ss, LapsedOps(m), 1, |LapsedOps(m)|) == m
    decreases m
  {
    LapsedLength(m);
    hide Next, Grants, Dormant, Visits, Reported, Init;
    if m == 0 {
      ss := LapsedOnce(cfg);
    } else {
      LapsedLength(m - 1);
      var before := AllowanceLapses(cfg, m - 1);
      var steps;
      ss, steps := LapsedDay(cfg, before, LapsedOps(m - 1), seq(m, _ => 'a'));
      assert steps == LapsedOps(m);
      assert ss[1] == before[1];
      hide Run;
      forall i | 1 <= i < |LapsedOps(m)| ensures !Visits(ss[i], LapsedOps(m)[i]) {
        LapsedSteps(m, i);
        OnlyMessagesVisit(ss[i], LapsedOps(m)[i]);
      }
    }
  }

  lemma OnlyMessagesVisit(s: State, op: Op)
    requires !op.OpRecord?
    ensures !Visits(s, op)
  {
  }

  lemma TickGrantsNothing(s: State, cfg: Settings, op: Op)
    requires op.OpTick?
    ensures !Grants(s, cfg, op, Nonurgent)
  {
  }

  lemma LapsedOnce(cfg: Settings) returns (ss: seq<State>)
    ensures |LapsedOps(0)| == 2 && Run(cfg, ss, LapsedOps(0))
    ensures Reported(ss[1]) && Dormant(ss[2]) && !Visits(ss[1], LapsedOps(0)[1])
    ensures GrantCount(cfg, ss, LapsedOps(0), 1, 2) == 0
  {
    var none := Window(Zset(map[], 0), map[], 0);
    var start := State(0, true, None, None, Zset(map[], 0), Zset(map[], 0), map[], map[], none, none);
    var ops := LapsedOps(0);
    FirstVisit(start);
    var s1 := Next(start, cfg, ops[0]);
    var s2 := Next(s1, cfg, ops[1]);
    TickGrantsNothing(s1, cfg, ops[1]);
    hide Record, Grants;
    ss := [start, s1, s2];
  }

  lemma FirstVisit(s: State)
    requires s.registered && s.clock == 0 && s.profile == None && s.presence.scores == map[]
      && s.direct.budget.scores == map[]
    requires s.sessions.scores == map[] && s.records == map[]
    ensures var t := Record(s, Update("phone", 1, 1, false), 0).0;
      && t.clock == 0 && Reported(t) && LapsesAt(t) == 1000 * STATE_TTL_SECS
      && t.presence.scores == map[] && t.direct.budget.scores == map[]
  {
  }
}
