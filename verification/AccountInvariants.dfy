/** What every script keeps, whatever order scripts, ticks and other accounts run in. */
module AccountInvariants {
  import opened Redis
  import opened Account

  /** A class's two keys name the same identities, were last written together, and outlive every
      send that still counts. */
  ghost predicate WindowKept(w: Window, clock: nat) {
    && w.budget.scores.Keys == w.generations.Keys
    && w.budget.deadline == w.generationsDeadline
    && forall id :: id in w.budget.scores ==>
       w.budget.scores[id] <= Seconds(clock) && w.budget.scores[id] * 1000 + 1000 * DAY <= w.budget.deadline
  }

  function DayCount(s: State): nat {
    |Within(s.nonurgent.budget.scores, Now(s), DAY)| + |Within(s.direct.budget.scores, Now(s), DAY)|
  }

  ghost predicate BudgetKept(s: State, cfg: Settings) {
    && WindowKept(s.nonurgent, s.clock)
    && WindowKept(s.direct, s.clock)
    && HourCount(s) <= cfg.hourlyCap
    && DayCount(s) <= cfg.dailyCap
  }

  ghost predicate GenerationKept(s: State) {
    && (s.profile.Some? && s.profile.value.generation.Some? ==> 0 < s.profile.value.generation.value <= Ceiling(s))
    && forall id :: id in s.markers ==> 0 < s.markers[id].generation <= Ceiling(s)
  }

  /** A live session record implies a live, reported account hash: the hash outlives every record. */
  ghost predicate ProfileKept(s: State, cfg: Settings) {
    && (forall k :: k in s.records ==>
          && s.records[k].deadline <= Deadline(s.clock, SESSION_TTL_SECS)
          && s.profile.Some? && s.profile.value.reported
          && s.profile.value.deadline.Some? && s.records[k].deadline <= s.profile.value.deadline.value)
    && (s.profile.Some? && s.profile.value.reported ==>
          && s.profile.value.absenceUsed.Some? && s.profile.value.absenceUsed.value <= cfg.absenceCap
          && s.profile.value.deadline.Some? && s.profile.value.deadline.value <= Deadline(s.clock, STATE_TTL_SECS))
  }

  ghost predicate Kept(s: State, cfg: Settings) {
    BudgetKept(s, cfg) && GenerationKept(s) && ProfileKept(s, cfg) && |s.sessions.scores| <= MAX_SESSIONS_PER_ACCOUNT
  }

  // ---------- Counting ----------

  lemma FewerWithin(a: map<string, int>, b: map<string, int>, nowA: int, nowB: int, span: nat)
    requires forall k :: k in a && a[k] > nowA - span ==> k in b && b[k] > nowB - span
    ensures |Within(a, nowA, span)| <= |Within(b, nowB, span)|
  {
    CardinalityMonotone(Within(a, nowA, span), Within(b, nowB, span));
  }

  /** Sending an identity now adds at most that one identity to a window. */
  lemma PutAdds(z: map<string, int>, id: string, now: int, span: nat)
    requires 0 < span
    ensures |Within(z[id := now], now, span)| <= |Within(z, now, span)| + 1
    ensures id in z && z[id] > now - span ==> |Within(z[id := now], now, span)| == |Within(z, now, span)|
  {
    assert Within(z[id := now], now, span) == Within(z, now, span) + {id};
    if id in z && z[id] > now - span {
      assert Within(z, now, span) + {id} == Within(z, now, span);
    }
  }

  lemma PruneKeeps(w: Window, clock: nat)
    requires WindowKept(w, clock)
    ensures var p := Prune(w, Seconds(clock));
      && WindowKept(p, clock)
      && p.budget.scores.Keys == Within(w.budget.scores, Seconds(clock), DAY)
      && Within(p.budget.scores, Seconds(clock), DAY) == Within(w.budget.scores, Seconds(clock), DAY)
      && Within(p.budget.scores, Seconds(clock), HOUR) == Within(w.budget.scores, Seconds(clock), HOUR)
      && (forall id :: id in p.budget.scores ==> ReservedUnder(p, id) == ReservedUnder(w, id))
  {
    var p := Prune(w, Seconds(clock));
    assert p.budget.scores.Keys == Within(w.budget.scores, Seconds(clock), DAY);
    assert p.generations.Keys == p.budget.scores.Keys;
  }

  lemma PrunedKeeps(s: State, cfg: Settings)
    requires BudgetKept(s, cfg)
    ensures BudgetKept(Pruned(s), cfg)
    ensures HourCount(Pruned(s)) == HourCount(s)
    ensures |Pruned(s).nonurgent.budget.scores| + |Pruned(s).direct.budget.scores| == DayCount(s) == DayCount(Pruned(s))
  {
    var p := Pruned(s);
    assert p.nonurgent == Prune(s.nonurgent, Now(s)) && p.direct == Prune(s.direct, Now(s));
    PruneKeeps(s.nonurgent, s.clock);
    PruneKeeps(s.direct, s.clock);
    assert |p.nonurgent.budget.scores| == |p.nonurgent.budget.scores.Keys|;
    assert |p.direct.budget.scores| == |p.direct.budget.scores.Keys|;
  }

  lemma TickWindowKeeps(w: Window, before: nat, clock: nat)
    requires WindowKept(w, before) && before <= clock
    ensures WindowKept(WindowAt(w, clock), clock)
    ensures |Within(WindowAt(w, clock).budget.scores, Seconds(clock), HOUR)| <=
      |Within(w.budget.scores, Seconds(before), HOUR)|
    ensures |Within(WindowAt(w, clock).budget.scores, Seconds(clock), DAY)| <=
      |Within(w.budget.scores, Seconds(before), DAY)|
  {
    FewerWithin(WindowAt(w, clock).budget.scores, w.budget.scores, Seconds(clock), Seconds(before), HOUR);
    FewerWithin(WindowAt(w, clock).budget.scores, w.budget.scores, Seconds(clock), Seconds(before), DAY);
  }

  // ---------- Each script keeps them ----------

  lemma TickKeepsBudget(s: State, cfg: Settings, ms: nat)
    requires BudgetKept(s, cfg)
    ensures BudgetKept(Tick(s, ms), cfg)
  {
    TickWindowKeeps(s.nonurgent, s.clock, s.clock + ms);
    TickWindowKeeps(s.direct, s.clock, s.clock + ms);
  }

  lemma TouchKeeps(w: Window, id: string, clock: nat)
    requires WindowKept(w, clock) && id in w.budget.scores
    ensures WindowKept(Touch(w, id, clock), clock)
  {
    var t := Touch(w, id, clock);
    assert t.budget.scores.Keys == w.budget.scores.Keys;
  }

  /** Renewing a slot that is still within the day, and within the hour or with an hour slot free. */
  lemma RenewKeeps(p: State, cfg: Settings, lane: Class, id: string)
    requires BudgetKept(p, cfg)
    requires id in Own(p, lane).budget.scores && Own(p, lane).budget.scores[id] > Now(p) - DAY
    requires Own(p, lane).budget.scores[id] > Now(p) - HOUR || HourCount(p) < cfg.hourlyCap
    ensures BudgetKept(WithOwn(p, lane, Touch(Own(p, lane), id, p.clock)), cfg)
  {
    TouchKeeps(Own(p, lane), id, p.clock);
    PutAdds(Own(p, lane).budget.scores, id, Now(p), HOUR);
    PutAdds(Own(p, lane).budget.scores, id, Now(p), DAY);
  }

  lemma GrantKeeps(p: State, cfg: Settings, lane: Class, id: string)
    requires BudgetKept(p, cfg)
    requires id !in Own(p, lane).budget.scores
    requires DayCount(p) < cfg.dailyCap && HourCount(p) < cfg.hourlyCap
    ensures BudgetKept(Granted(p, lane, id), cfg)
  {
    var own := Own(p, lane);
    var g := Own(Granted(p, lane, id), lane);
    assert g.budget.scores.Keys == g.generations.Keys;
    assert WindowKept(g, p.clock);
    PutAdds(own.budget.scores, id, Now(p), HOUR);
    PutAdds(own.budget.scores, id, Now(p), DAY);
  }

  lemma ReserveKeepsBudget(s: State, cfg: Settings, lane: Class, id: string, expected: Option<nat>)
    requires BudgetKept(s, cfg)
    ensures BudgetKept(Reserve(s, cfg, lane, id, expected).0, cfg)
  {
    var p := Pruned(s);
    PrunedKeeps(s, cfg);
    if Reserve(s, cfg, lane, id, expected).1 == Allowed {
      if id in Own(p, lane).budget.scores {
        RenewKeeps(p, cfg, lane, id);
      } else {
        GrantKeeps(p, cfg, lane, id);
      }
    }
  }

  lemma ValidateKeepsBudget(s: State, cfg: Settings, lane: Class, id: string, expected: Option<nat>)
    requires BudgetKept(s, cfg)
    ensures BudgetKept(Validate(s, cfg, lane, id, expected).0, cfg)
  {
    var p := s.(presence := s.presence.Above(Now(s)));
    if Validate(s, cfg, lane, id, expected).1 {
      RenewKeeps(p, cfg, lane, id);
    }
  }

  lemma NextKeepsBudget(s: State, cfg: Settings, op: Op)
    requires BudgetKept(s, cfg)
    ensures BudgetKept(Next(s, cfg, op), cfg)
  {
    match op
    case OpTick(ms) => TickKeepsBudget(s, cfg, ms);
    case OpReserve(lane, id, expected) => ReserveKeepsBudget(s, cfg, lane, id, expected);
    case OpValidate(lane, id, expected) => ValidateKeepsBudget(s, cfg, lane, id, expected);
    case _ =>
      var t := Next(s, cfg, op);
      assert t.nonurgent == s.nonurgent && t.direct == s.direct && t.clock == s.clock;
  }

  lemma RecordKeepsGeneration(s: State, u: Update, micros: nat)
    requires GenerationKept(s)
    ensures GenerationKept(Record(s, u, micros).0) && Ceiling(s) <= Ceiling(Record(s, u, micros).0)
  {
    var t := Record(s, u, micros).0;
    assert t.markers == s.markers && t.clock == s.clock;
    assert t.counter == s.counter || t.counter == Some(Minted(s, micros));
  }

  lemma BindKeepsGeneration(s: State, id: string, retention: nat, micros: nat)
    requires GenerationKept(s)
    ensures GenerationKept(Bind(s, id, retention, micros).0) && Ceiling(s) <= Ceiling(Bind(s, id, retention, micros).0)
  {
    var t := Bind(s, id, retention, micros).0;
    assert t.counter == s.counter || t.counter == Some(Minted(s, micros));
    assert forall k :: k in t.markers && k != id ==> k in s.markers && t.markers[k] == s.markers[k];
  }

  /** What a reservation or a revalidation leaves alone. */
  ghost predicate SameActivity(s: State, t: State) {
    && t.clock == s.clock && t.registered == s.registered && t.counter == s.counter
    && t.sessions == s.sessions && t.records == s.records && t.markers == s.markers
    && (t.profile.Some? <==> s.profile.Some?)
    && (t.profile.Some? ==>
          && t.profile.value.generation == s.profile.value.generation
          && t.profile.value.reported == s.profile.value.reported
          && (s.profile.value.deadline.Some? ==> t.profile.value.deadline == s.profile.value.deadline))
  }

  lemma ReserveFrame(s: State, cfg: Settings, lane: Class, id: string, expected: Option<nat>)
    ensures SameActivity(s, Reserve(s, cfg, lane, id, expected).0)
  {
    assert SameActivity(s, Pruned(s));
    assert SameActivity(s, Granted(Pruned(s), lane, id));
  }

  lemma ValidateFrame(s: State, cfg: Settings, lane: Class, id: string, expected: Option<nat>)
    ensures SameActivity(s, Validate(s, cfg, lane, id, expected).0)
    ensures Validate(s, cfg, lane, id, expected).0.profile == s.profile
  {
  }

  lemma NextKeepsGeneration(s: State, cfg: Settings, op: Op)
    requires GenerationKept(s)
    ensures GenerationKept(Next(s, cfg, op)) && Ceiling(s) <= Ceiling(Next(s, cfg, op))
  {
    match op
    case OpTick(ms) => assert forall k :: k in Tick(s, ms).markers ==>
      k in s.markers && Tick(s, ms).markers[k] == s.markers[k];
    case OpRecord(u, micros) => RecordKeepsGeneration(s, u, micros);
    case OpBind(id, retention, micros) => BindKeepsGeneration(s, id, retention, micros);
    case OpReserve(lane, id, expected) => ReserveFrame(s, cfg, lane, id, expected);
    case OpValidate(lane, id, expected) => ValidateFrame(s, cfg, lane, id, expected);
    case _ =>
  }

  lemma ReserveKeepsAllowance(s: State, cfg: Settings, lane: Class, id: string, expected: Option<nat>)
    requires ProfileKept(s, cfg)
    ensures ProfileKept(Reserve(s, cfg, lane, id, expected).0, cfg)
  {
    ReserveFrame(s, cfg, lane, id, expected);
    var p := Pruned(s);
    assert p.profile == s.profile;
  }

  lemma RecordKeepsProfile(s: State, cfg: Settings, u: Update, micros: nat)
    requires ProfileKept(s, cfg)
    ensures ProfileKept(Record(s, u, micros).0, cfg)
  {
    var t := Record(s, u, micros).0;
    assert forall k :: k in t.records && k != u.session ==> k in s.records && t.records[k] == s.records[k];
  }

  lemma NextKeepsProfile(s: State, cfg: Settings, op: Op)
    requires ProfileKept(s, cfg)
    ensures ProfileKept(Next(s, cfg, op), cfg)
  {
    match op
    case OpTick(ms) => TickKeepsProfile(s, cfg, ms);
    case OpRecord(u, micros) => RecordKeepsProfile(s, cfg, u, micros);
    case OpReserve(lane, id, expected) => ReserveKeepsAllowance(s, cfg, lane, id, expected);
    case OpValidate(lane, id, expected) => ValidateFrame(s, cfg, lane, id, expected);
    case _ =>
  }

  lemma TickKeepsProfile(s: State, cfg: Settings, ms: nat)
    requires ProfileKept(s, cfg)
    ensures ProfileKept(Tick(s, ms), cfg)
  {
    assert forall k :: k in Tick(s, ms).records ==>
      k in s.records && Tick(s, ms).records[k] == s.records[k] && s.clock + ms <= s.records[k].deadline;
  }

  lemma NextKeeps(s: State, cfg: Settings, op: Op)
    requires Kept(s, cfg)
    ensures Kept(Next(s, cfg, op), cfg)
  {
    NextKeepsBudget(s, cfg, op);
    NextKeepsGeneration(s, cfg, op);
    NextKeepsProfile(s, cfg, op);
    NextKeepsSessions(s, cfg, op);
  }

  lemma NextKeepsSessions(s: State, cfg: Settings, op: Op)
    requires |s.sessions.scores| <= MAX_SESSIONS_PER_ACCOUNT
    ensures |Next(s, cfg, op).sessions.scores| <= MAX_SESSIONS_PER_ACCOUNT
  {
    match op
    case OpRecord(u, micros) => RecordKeepsSessions(s, u, micros);
    case OpReserve(lane, id, expected) => ReserveFrame(s, cfg, lane, id, expected);
    case OpValidate(lane, id, expected) => ValidateFrame(s, cfg, lane, id, expected);
    case _ =>
  }

  lemma RecordKeepsSessions(s: State, u: Update, micros: nat)
    requires |s.sessions.scores| <= MAX_SESSIONS_PER_ACCOUNT
    ensures |Record(s, u, micros).0.sessions.scores| <= MAX_SESSIONS_PER_ACCOUNT
  {
    var z := s.sessions.Above(Now(s)).scores;
    CardinalityMonotone(z.Keys, s.sessions.scores.Keys);
    var score := Now(s) + SESSION_TTL_SECS;
    assert z[u.session := score].Keys == z.Keys + {u.session};
  }

  /** In every run, every state keeps the invariants. */
  lemma {:induction false} RunKeeps(cfg: Settings, ss: seq<State>, ops: seq<Op>, i: nat)
    requires Run(cfg, ss, ops) && i < |ss|
    ensures Kept(ss[i], cfg)
    decreases i
  {
    if i == 0 {
      assert Within(map[], Now(ss[0]), HOUR) == {} && Within(map[], Now(ss[0]), DAY) == {};
    } else {
      RunKeeps(cfg, ss, ops, i - 1);
      NextKeeps(ss[i - 1], cfg, ops[i - 1]);
    }
  }

  lemma NextClock(s: State, cfg: Settings, op: Op)
    ensures s.clock <= Next(s, cfg, op).clock
  {
    match op
    case OpReserve(lane, id, expected) => ReserveFrame(s, cfg, lane, id, expected);
    case OpValidate(lane, id, expected) => ValidateFrame(s, cfg, lane, id, expected);
    case _ =>
  }

  lemma {:induction false} ClockNeverFalls(cfg: Settings, ss: seq<State>, ops: seq<Op>, i: nat, j: nat)
    requires Run(cfg, ss, ops) && i <= j < |ss|
    ensures ss[i].clock <= ss[j].clock && Now(ss[i]) <= Now(ss[j])
    decreases j
  {
    if i < j {
      ClockNeverFalls(cfg, ss, ops, i, j - 1);
      NextClock(ss[j - 1], cfg, ops[j - 1]);
      assert ss[j] == Next(ss[j - 1], cfg, ops[j - 1]);
      hide Next;
    }
  }
}
