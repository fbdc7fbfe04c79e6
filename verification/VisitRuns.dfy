/** Visit generations and presence over every run: a superseded generation never recurs, so a visit
    fences the work bound before it; presence is exactly the unexpired foreground leases. */
module VisitRuns {
  import opened Redis
  import opened Account
  import opened AccountInvariants

  // ---------- Generations never recur ----------

  /** One step keeps the generation, loses it with the expired account hash, or mints one above
      everything handed out before. */
  lemma GenerationStep(s: State, cfg: Settings, op: Op)
    requires GenerationKept(s)
    ensures var g := Generation(Next(s, cfg, op));
      g == Generation(s) || g == 0 || g > Ceiling(s)
    ensures Visits(s, op) ==> Generation(Next(s, cfg, op)) > Ceiling(s)
  {
    match op
    case OpReserve(lane, id, expected) => ReserveFrame(s, cfg, lane, id, expected);
    case OpValidate(lane, id, expected) => ValidateFrame(s, cfg, lane, id, expected);
    case _ =>
  }

  lemma GenerationStepAt(cfg: Settings, ss: seq<State>, ops: seq<Op>, k: nat)
    requires Run(cfg, ss, ops) && k < |ops|
    ensures Ceiling(ss[k]) <= Ceiling(ss[k + 1])
    ensures var g := Generation(ss[k + 1]); g == Generation(ss[k]) || g == 0 || g > Ceiling(ss[k])
  {
    RunKeeps(cfg, ss, ops, k);
    assert ss[k + 1] == Next(ss[k], cfg, ops[k]);
    hide Next, Ceiling, Generation, BudgetKept, GenerationKept, ProfileKept, Visits;
    NextKeepsGeneration(ss[k], cfg, ops[k]);
    GenerationStep(ss[k], cfg, ops[k]);
  }

  lemma {:induction false} CeilingNeverFalls(cfg: Settings, ss: seq<State>, ops: seq<Op>, i: nat, j: nat)
    requires Run(cfg, ss, ops) && i <= j < |ss|
    ensures Ceiling(ss[i]) <= Ceiling(ss[j])
    decreases j
  {
    assert |ss| == |ops| + 1;
    hide *;
    if i < j {
      CeilingNeverFalls(cfg, ss, ops, i, j - 1);
      GenerationStepAt(cfg, ss, ops, j - 1);
    }
  }

  lemma {:induction false} GenerationLater(cfg: Settings, ss: seq<State>, ops: seq<Op>, i: nat, j: nat)
    requires Run(cfg, ss, ops) && i <= j < |ss|
    ensures var g := Generation(ss[j]);
      g == Generation(ss[i]) || g == 0 || g > Ceiling(ss[i])
    decreases j
  {
    assert |ss| == |ops| + 1;
    hide *;
    if i < j {
      GenerationLater(cfg, ss, ops, i, j - 1);
      CeilingNeverFalls(cfg, ss, ops, i, j - 1);
      GenerationStepAt(cfg, ss, ops, j - 1);
    }
  }

  lemma GenerationBelowCeiling(cfg: Settings, ss: seq<State>, ops: seq<Op>, i: nat)
    requires Run(cfg, ss, ops) && i < |ss|
    ensures Generation(ss[i]) <= Ceiling(ss[i])
  {
    RunKeeps(cfg, ss, ops, i);
  }

  /** If the account is in the same non-zero generation at two points of a run, it was in it all
      the way between. */
  lemma GenerationNeverRecurs(cfg: Settings, ss: seq<State>, ops: seq<Op>, i: nat, k: nat, j: nat)
    requires Run(cfg, ss, ops) && i <= k <= j < |ss|
    requires Generation(ss[i]) == Generation(ss[j]) != 0
    ensures Generation(ss[k]) == Generation(ss[i])
  {
    GenerationLater(cfg, ss, ops, k, j);
    CeilingNeverFalls(cfg, ss, ops, i, k);
    GenerationBelowCeiling(cfg, ss, ops, i);
  }

  /** After a visit the account is never again in a generation handed out before it. */
  lemma VisitSupersedes(cfg: Settings, ss: seq<State>, ops: seq<Op>, k: nat, j: nat, earlier: nat)
    requires Run(cfg, ss, ops) && k < j < |ss|
    requires Visits(ss[k], ops[k]) && 0 < earlier <= Ceiling(ss[k])
    ensures Generation(ss[j]) != earlier
  {
    hide Visits, Next, Ceiling, Generation;
    RunKeeps(cfg, ss, ops, k);
    GenerationStep(ss[k], cfg, ops[k]);
    assert ss[k + 1] == Next(ss[k], cfg, ops[k]);
    GenerationLater(cfg, ss, ops, k + 1, j);
    CeilingNeverFalls(cfg, ss, ops, k, k + 1);
  }

  // ---------- Reservations are fenced ----------

  /** The generation a slot was reserved under is the account's generation when it was granted. */
  ghost predicate ReservedAt(cfg: Settings, ss: seq<State>, ops: seq<Op>, i: nat, lane: Class, id: string,
      generation: nat)
    requires i < |ops| < |ss|
  {
    && Grants(ss[i], cfg, ops[i], lane)
    && ops[i].identity == id
    && Generation(ss[i]) == generation
  }

  lemma SlotOrigin(s: State, cfg: Settings, op: Op, lane: Class, id: string)
    requires BudgetKept(s, cfg)
    requires id in Own(Next(s, cfg, op), lane).generations
    ensures var g := Own(Next(s, cfg, op), lane).generations[id];
      || (id in Own(s, lane).generations && Own(s, lane).generations[id] == g)
      || (Grants(s, cfg, op, lane) && op.identity == id && Generation(s) == g)
  {
    match op
    case OpTick(ms) =>
    case OpReserve(l, i, expected) => ReserveSlotOrigin(s, cfg, op, lane, id);
    case OpValidate(l, i, expected) =>
    case OpRecord(u, micros) => assert Own(Record(s, u, micros).0, lane) == Own(s, lane);
    case OpBind(i, retention, micros) => assert Own(Bind(s, i, retention, micros).0, lane) == Own(s, lane);
    case _ =>
  }

  /** A reservation writes a generation only when it grants a new slot. */
  lemma ReserveGenerations(s: State, cfg: Settings, op: Op)
    requires op.OpReserve?
    ensures var p := Pruned(s);
      var t := Next(s, cfg, op);
      && Other(t, op.lane).generations == Other(p, op.lane).generations
      && (|| Own(t, op.lane).generations == Own(p, op.lane).generations
          || (Grants(s, cfg, op, op.lane)
             && Own(t, op.lane).generations == Own(p, op.lane).generations[op.identity := Generation(s)]))
  {
    var p := Pruned(s);
    var t := Next(s, cfg, op);
    assert Generation(p) == Generation(s);
    if op.identity in Own(p, op.lane).budget.scores { RenewedGenerations(p, cfg, op.lane, op.identity); }
    GrantedGenerations(p, cfg, op.lane, op.identity);
    hide ReserveAgain, ReserveFresh, Pruned, Generation;
  }

  lemma RenewedGenerations(p: State, cfg: Settings, lane: Class, id: string)
    requires id in Own(p, lane).budget.scores
    ensures var t := ReserveAgain(p, cfg, lane, id).0;
      Other(t, lane).generations == Other(p, lane).generations && Own(t, lane).generations == Own(p, lane).generations
  {
    hide Remaining, HourCount, Generation;
  }

  lemma GrantedGenerations(p: State, cfg: Settings, lane: Class, id: string)
    ensures var (t, decision) := ReserveFresh(p, cfg, lane, id);
      && Other(t, lane).generations == Other(p, lane).generations
      && Own(t, lane).generations ==
           if decision == Allowed then Own(p, lane).generations[id := Generation(p)] else Own(p, lane).generations
  {
    hide Remaining, HourCount, Generation, AllowanceUsed;
  }

  lemma ReserveSlotOrigin(s: State, cfg: Settings, op: Op, lane: Class, id: string)
    requires op.OpReserve?
    requires id in Own(Next(s, cfg, op), lane).generations
    ensures var g := Own(Next(s, cfg, op), lane).generations[id];
      || (id in Own(s, lane).generations && Own(s, lane).generations[id] == g)
      || (Grants(s, cfg, op, lane) && op.identity == id && Generation(s) == g)
  {
    hide Next, Grants, Reserve;
    ReserveGenerations(s, cfg, op);
  }

  lemma {:induction false} SlotHistory(cfg: Settings, ss: seq<State>, ops: seq<Op>, j: nat, lane: Class, id: string)
      returns (i: nat)
    requires Run(cfg, ss, ops) && j < |ss|
    requires id in Own(ss[j], lane).generations
    ensures i < j && ReservedAt(cfg, ss, ops, i, lane, id, Own(ss[j], lane).generations[id])
    decreases j
  {
    hide Next, Grants;
    assert j > 0;
    RunKeeps(cfg, ss, ops, j - 1);
    SlotOrigin(ss[j - 1], cfg, ops[j - 1], lane, id);
    assert ss[j] == Next(ss[j - 1], cfg, ops[j - 1]);
    if id in Own(ss[j - 1], lane).generations
      && Own(ss[j - 1], lane).generations[id] == Own(ss[j], lane).generations[id] {
      i := SlotHistory(cfg, ss, ops, j - 1, lane, id);
    } else {
      i := j - 1;
    }
  }

  /** A revalidation that passes finds no live presence lease, and the account's non-zero
      generation unchanged ever since that identity was reserved: no visit came between. */
  lemma ValidationFence(cfg: Settings, ss: seq<State>, ops: seq<Op>, j: nat) returns (i: nat)
    requires Run(cfg, ss, ops) && j < |ops|
    requires ops[j].OpValidate? && Authorises(ss[j], cfg, ops[j])
    ensures !IsActive(ss[j]).1
    ensures i < j && ReservedAt(cfg, ss, ops, i, ops[j].lane, ops[j].identity, Generation(ss[j]))
    ensures Generation(ss[j]) != 0 ==> forall k :: i <= k <= j ==> Generation(ss[k]) == Generation(ss[j])
    ensures Generation(ss[j]) != 0 ==> forall k :: i <= k < j ==> !Visits(ss[k], ops[k])
  {
    var lane, id := ops[j].lane, ops[j].identity;
    ValidatedSlot(cfg, ss, ops, j);
    hide Next, Grants, Authorises, Visits;
    i := SlotHistory(cfg, ss, ops, j, lane, id);
    if Generation(ss[j]) != 0 {
      forall k | i <= k <= j ensures Generation(ss[k]) == Generation(ss[j]) {
        GenerationNeverRecurs(cfg, ss, ops, i, k, j);
      }
      forall k | i <= k < j ensures !Visits(ss[k], ops[k]) {
        if Visits(ss[k], ops[k]) {
          GenerationBelowCeiling(cfg, ss, ops, k);
          VisitSupersedes(cfg, ss, ops, k, j, Generation(ss[k]));
        }
      }
    }
  }

  lemma ValidatedSlot(cfg: Settings, ss: seq<State>, ops: seq<Op>, j: nat)
    requires Run(cfg, ss, ops) && j < |ops|
    requires ops[j].OpValidate? && Authorises(ss[j], cfg, ops[j])
    ensures !IsActive(ss[j]).1
    ensures ops[j].identity in Own(ss[j], ops[j].lane).generations
    ensures Own(ss[j], ops[j].lane).generations[ops[j].identity] == Generation(ss[j])
  {
    RunKeeps(cfg, ss, ops, j);
  }

  // ---------- What each message is answered ----------

  /** The sessions heard of within their seven days. */
  function LiveSessions(s: State): set<string> {
    set k | k in s.sessions.scores && s.sessions.scores[k] > Now(s)
  }

  /** The message is news of its session, from a registered account. */
  predicate IsNews(s: State, u: Update) {
    && IsValid(u) && s.registered
    && (u.session in s.records ==>
          u.sequence > s.records[u.session].sequence && u.visit >= s.records[u.session].visit)
  }

  predicate IsCrowdedOut(s: State, u: Update) {
    u.session !in LiveSessions(s) && |LiveSessions(s)| >= MAX_SESSIONS_PER_ACCOUNT
  }

  /** Every answer, exactly, and what an accepted message leaves: its session live for seven days and the
      reported hash for ninety, with the other live sessions as they were. */
  lemma RecordedExactly(s: State, u: Update, micros: nat)
    ensures var (t, d) := Record(s, u, micros);
      && (d.Invalid? <==> !IsValid(u))
      && (d.SessionLimit? <==> IsNews(s, u) && IsCrowdedOut(s, u))
      && (d.Visit? <==>
            && IsNews(s, u) && !IsCrowdedOut(s, u)
            && (u.session in s.records ==> u.visit > s.records[u.session].visit))
    ensures var t := Record(s, u, micros).0;
      IsNews(s, u) && !IsCrowdedOut(s, u) ==>
        && u.session in t.records && u.session in t.sessions.scores
        && t.sessions.scores[u.session] == Now(s) + SESSION_TTL_SECS
        && t.records[u.session].deadline == Deadline(s.clock, SESSION_TTL_SECS)
        && t.profile.Some? && t.profile.value.reported
        && t.profile.value.deadline == Some(Deadline(s.clock, STATE_TTL_SECS))
        && LiveSessions(t) == LiveSessions(s) + {u.session}
  {
    var live := s.sessions.Above(Now(s)).scores;
    assert live.Keys == LiveSessions(s) && |live| == |live.Keys|;
  }

  // ---------- Work bound before a visit ----------

  /** Once bound, a marker keeps its generation for as long as it is retained. */
  lemma MarkerStep(s: State, cfg: Settings, op: Op, id: string)
    requires id in s.markers
    ensures id in Next(s, cfg, op).markers ==> Next(s, cfg, op).markers[id].generation == s.markers[id].generation
    ensures id !in Next(s, cfg, op).markers ==> op.OpTick? && s.clock + op.ms > s.markers[id].deadline
  {
    match op
    case OpReserve(lane, i, expected) => ReserveFrame(s, cfg, lane, i, expected);
    case OpValidate(lane, i, expected) => ValidateFrame(s, cfg, lane, i, expected);
    case OpRecord(u, micros) => assert Record(s, u, micros).0.markers == s.markers;
    case _ =>
  }

  ghost predicate Retained(ss: seq<State>, id: string, from: nat, to: nat) {
    forall k :: from <= k <= to < |ss| ==> id in ss[k].markers
  }

  lemma {:induction false} MarkerStays(cfg: Settings, ss: seq<State>, ops: seq<Op>, id: string, i: nat, j: nat)
    requires Run(cfg, ss, ops) && i <= j < |ss|
    requires Retained(ss, id, i, j)
    ensures ss[j].markers[id].generation == ss[i].markers[id].generation
    decreases j
  {
    if i < j {
      hide Next;
      MarkerStays(cfg, ss, ops, id, i, j - 1);
      assert id in ss[j - 1].markers && id in ss[j].markers;
      MarkerStep(ss[j - 1], cfg, ops[j - 1], id);
      assert ss[j] == Next(ss[j - 1], cfg, ops[j - 1]);
    }
  }

  /** Binding hands out the marker's generation when it leaves one, none above the ceiling, and a
      non-zero one to a registered account. */
  lemma BoundIsMarked(s: State, op: Op)
    requires op.OpBind? && GenerationKept(s)
    ensures var (t, g) := Bind(s, op.identity, op.retention, op.micros);
      && (op.identity in t.markers ==> t.markers[op.identity].generation == g)
      && g <= Ceiling(t) && (s.registered ==> op.identity in t.markers && 0 < g)
  {
    BindKeepsGeneration(s, op.identity, op.retention, op.micros);
  }

  /** Work that carries another generation than the account's is refused by both gates, which
      charge, grant and refresh nothing. */
  lemma StaleWorkRefused(s: State, cfg: Settings, lane: Class, id: string, expected: nat)
    requires expected != Generation(s)
    ensures Reserve(s, cfg, lane, id, Some(expected)) == (Pruned(s), StaleVisit)
    ensures Validate(s, cfg, lane, id, Some(expected)) == (s.(presence := s.presence.Above(Now(s))), false)
  {
  }

  /** Work bound at step i is refused at every point after a later visit, whether it carries the bound
      generation or binds again while its marker is retained. The one exception is work bound to no
      generation at all, by an account not registered then, once the account is in none again. */
  lemma WorkFence(cfg: Settings, ss: seq<State>, ops: seq<Op>, i: nat, k: nat, j: nat)
    requires Run(cfg, ss, ops) && i < k < j < |ss|
    requires ops[i].OpBind? && Visits(ss[k], ops[k])
    ensures var id := ops[i].identity;
      var bound := Bind(ss[i], id, ops[i].retention, ops[i].micros).1;
      && (Generation(ss[j]) != bound <==> bound != 0 || Generation(ss[j]) != 0)
      && (ss[i].registered ==> bound != 0)
      && (Generation(ss[j]) != bound ==> forall lane :: RefusedAt(ss[j], cfg, lane, id, bound))
      && (Retained(ss, id, i + 1, j) ==> forall retention, micros :: Bind(ss[j], id, retention, micros).1 == bound)
  {
    var id := ops[i].identity;
    var bound := Bind(ss[i], id, ops[i].retention, ops[i].micros).1;
    RunKeeps(cfg, ss, ops, i);
    BoundIsMarked(ss[i], ops[i]);
    StepOf(cfg, ss, ops, i);
    assert ss[i + 1] == Bind(ss[i], id, ops[i].retention, ops[i].micros).0;
    hide Next, Visits, Bind, Ceiling, RefusedAt;
    CeilingNeverFalls(cfg, ss, ops, i + 1, k);
    if bound != 0 { VisitSupersedes(cfg, ss, ops, k, j, bound); }
    if Generation(ss[j]) != bound {
      forall lane ensures RefusedAt(ss[j], cfg, lane, id, bound) {
        StaleIsRefused(ss[j], cfg, lane, id, bound);
      }
    }
    if Retained(ss, id, i + 1, j) {
      MarkerStays(cfg, ss, ops, id, i + 1, j);
      forall retention, micros ensures Bind(ss[j], id, retention, micros).1 == bound {
        assert id in ss[j].markers && id in ss[i + 1].markers;
        RetainedBinds(ss[j], id, retention, micros);
      }
    }
  }

  function AtLeastSecond(retention: nat): nat { if retention < 1 then 1 else retention }

  /** Binding leaves a registered account's marker for at least the retention asked for, up to the half
      second by which TTL rounds, and never shortens one; no other marker changes. */
  lemma BindRetains(s: State, id: string, retention: nat, micros: nat)
    ensures var t := Bind(s, id, retention, micros).0;
      && (s.registered ==>
            && id in t.markers
            && t.markers[id].deadline + 500 >= Deadline(s.clock, AtLeastSecond(retention))
            && (id !in s.markers ==> t.markers[id].deadline == Deadline(s.clock, AtLeastSecond(retention))))
      && (id in s.markers ==> id in t.markers && s.markers[id].deadline <= t.markers[id].deadline)
      && (id in s.markers && t.markers[id].deadline != s.markers[id].deadline ==>
            t.markers[id].deadline == Deadline(s.clock, AtLeastSecond(retention)))
      && forall k :: k != id ==>
           (k in t.markers <==> k in s.markers) && (k in s.markers ==> t.markers[k] == s.markers[k])
  {
  }

  /** New work is bound to the account's own generation, which binding mints only when there is none. */
  lemma BindsCurrent(s: State, id: string, retention: nat, micros: nat)
    ensures var (t, bound) := Bind(s, id, retention, micros);
      && (id !in s.markers ==> bound == Generation(t))
      && (id in s.markers ==> bound == s.markers[id].generation)
      && (t.profile != s.profile ==>
            && s.registered && (s.profile.None? || s.profile.value.generation.None?) && t.profile.Some?
            && t.profile.value.reported == ProfileOrNew(s).reported
            && t.profile.value.absenceUsed == ProfileOrNew(s).absenceUsed)
  {
  }

  lemma MarkerLasts(s: State, cfg: Settings, op: Op, id: string)
    requires id in s.markers && Next(s, cfg, op).clock <= s.markers[id].deadline
    ensures var t := Next(s, cfg, op); id in t.markers && s.markers[id].deadline <= t.markers[id].deadline
  {
    match op
    case OpReserve(lane, i, expected) => ReserveFrame(s, cfg, lane, i, expected);
    case OpValidate(lane, i, expected) => ValidateFrame(s, cfg, lane, i, expected);
    case OpRecord(u, micros) => assert Record(s, u, micros).0.markers == s.markers;
    case OpBind(i, retention, micros) =>
      BindRetains(s, i, retention, micros);
      hide Bind;
    case _ =>
  }

  /** A marker is retained until the deadline it has. */
  lemma {:induction false} RetainedUntil(cfg: Settings, ss: seq<State>, ops: seq<Op>, id: string, i: nat, j: nat)
    requires Run(cfg, ss, ops) && i <= j < |ss|
    requires id in ss[i].markers && ss[j].clock <= ss[i].markers[id].deadline
    ensures Retained(ss, id, i, j)
    ensures id in ss[j].markers && ss[i].markers[id].deadline <= ss[j].markers[id].deadline
    decreases j
  {
    if i < j {
      ClockNeverFalls(cfg, ss, ops, j - 1, j);
      RetainedUntil(cfg, ss, ops, id, i, j - 1);
      StepOf(cfg, ss, ops, j - 1);
      hide Run, Next;
      MarkerLasts(ss[j - 1], cfg, ops[j - 1], id);
    }
  }

  /** So work bound by a registered account binds to the same generation again, whatever visits come
      between, for as long as it asked to be retained. */
  lemma BoundForRetention(
    cfg: Settings, ss: seq<State>, ops: seq<Op>, i: nat, j: nat, retention: nat, micros: nat)
    requires Run(cfg, ss, ops) && i < j < |ss| && ops[i].OpBind? && ss[i].registered
    requires ss[j].clock + 500 <= Deadline(ss[i].clock, AtLeastSecond(ops[i].retention))
    ensures Bind(ss[j], ops[i].identity, retention, micros).1 ==
      Bind(ss[i], ops[i].identity, ops[i].retention, ops[i].micros).1
  {
    var id := ops[i].identity;
    RunKeeps(cfg, ss, ops, i);
    BoundIsMarked(ss[i], ops[i]);
    BindRetains(ss[i], id, ops[i].retention, ops[i].micros);
    StepOf(cfg, ss, ops, i);
    assert ss[i + 1] == Bind(ss[i], id, ops[i].retention, ops[i].micros).0;
    hide Next, Bind, Run, Kept, Ceiling;
    RetainedUntil(cfg, ss, ops, id, i + 1, j);
    MarkerStays(cfg, ss, ops, id, i + 1, j);
    RetainedBinds(ss[j], id, retention, micros);
  }

  /** Both gates refuse the identity under this generation; the reservation only prunes. */
  ghost predicate RefusedAt(s: State, cfg: Settings, lane: Class, id: string, generation: nat) {
    && Reserve(s, cfg, lane, id, Some(generation)) == (Pruned(s), StaleVisit)
    && !Validate(s, cfg, lane, id, Some(generation)).1
  }

  lemma StaleIsRefused(s: State, cfg: Settings, lane: Class, id: string, generation: nat)
    requires generation != Generation(s)
    ensures RefusedAt(s, cfg, lane, id, generation)
  {
    StaleWorkRefused(s, cfg, lane, id, generation);
    hide Reserve, Validate;
  }

  lemma RetainedBinds(s: State, id: string, retention: nat, micros: nat)
    requires id in s.markers
    ensures Bind(s, id, retention, micros).1 == s.markers[id].generation
  {
  }

  // ---------- Presence ----------

  ghost predicate Accepted(s: State, op: Op) {
    && op.OpRecord? && IsValid(op.update) && s.registered
    && Accepts(PreviousRecord(s, op.update.session), op.update)
    && Record(s, op.update, op.micros).1 != SessionLimit
  }

  /** The time of a session's last accepted message among the first `j` steps, when that message
      was a foreground one. */
  ghost function LastForeground(ss: seq<State>, ops: seq<Op>, j: nat, session: string): Option<nat>
    requires j <= |ops| < |ss|
  {
    if j == 0 then None
    else HeardFrom(ss[j - 1], ops[j - 1], session, LastForeground(ss, ops, j - 1, session))
  }

  /** A lease is in the presence set or too old to count. */
  ghost predicate Leased(s: State, session: string, last: Option<nat>) {
    && (session in s.presence.scores ==>
          && last.Some? && s.presence.scores[session] == last.value + PRESENCE_TTL_SECS
          && s.presence.scores[session] * 1000 <= s.presence.deadline)
    && (session !in s.presence.scores && last.Some? ==> Now(s) >= last.value + PRESENCE_TTL_SECS)
  }

  lemma SamePresence(s: State, t: State, session: string, last: Option<nat>)
    requires t.clock == s.clock && (t.presence == s.presence || t.presence == s.presence.Above(Now(s)))
    requires Leased(s, session, last)
    ensures Leased(t, session, last)
  {
  }

  /** What a step other than an accepted message does to presence. */
  lemma PresenceFrame(s: State, cfg: Settings, op: Op)
    requires !Accepted(s, op) && !op.OpTick?
    ensures var t := Next(s, cfg, op);
      t.clock == s.clock && (t.presence == s.presence || t.presence == s.presence.Above(Now(s)))
  {
    match op
    case OpReserve(lane, id, expected) =>
      var p := Pruned(s);
      var t := Reserve(s, cfg, lane, id, expected).0;
      if t != p {
        assert t == WithOwn(p, lane, Touch(Own(p, lane), id, p.clock)) || t == Granted(p, lane, id);
      }
    case _ =>
  }

  lemma AcceptedPresence(s: State, cfg: Settings, op: Op)
    requires Accepted(s, op)
    ensures var t := Next(s, cfg, op);
      var live := s.presence.Above(Now(s));
      && t.clock == s.clock
      && t.presence == if op.update.foreground
                       then live.Put(op.update.session, Now(s) + PRESENCE_TTL_SECS,
                          Deadline(s.clock, PRESENCE_TTL_SECS))
                       else live.(scores := live.scores - {op.update.session})
  {
  }

  lemma {:induction false} PresenceTracks(cfg: Settings, ss: seq<State>, ops: seq<Op>, j: nat, session: string)
    requires Run(cfg, ss, ops) && j <= |ops|
    ensures Leased(ss[j], session, LastForeground(ss, ops, j, session))
    ensures LastForeground(ss, ops, j, session).Some? ==> LastForeground(ss, ops, j, session).value <= Now(ss[j])
    decreases j
  {
    if j > 0 {
      PresenceTracks(cfg, ss, ops, j - 1, session);
      ClockNeverFalls(cfg, ss, ops, j - 1, j);
      StepOf(cfg, ss, ops, j - 1);
      hide Run, Next, Accepted, Leased;
      PresenceStep(ss[j - 1], cfg, ops[j - 1], session, LastForeground(ss, ops, j - 1, session));
    }
  }

  /** The session's last foreground message after one more step. */
  ghost function HeardFrom(s: State, op: Op, session: string, last: Option<nat>): Option<nat> {
    if Accepted(s, op) && op.update.session == session then if op.update.foreground then Some(Now(s)) else None
    else last
  }

  lemma PresenceStep(s: State, cfg: Settings, op: Op, session: string, last: Option<nat>)
    requires Leased(s, session, last) && (last.Some? ==> last.value <= Now(s))
    ensures Leased(Next(s, cfg, op), session, HeardFrom(s, op, session, last))
  {
    if op.OpTick? {
      assert Next(s, cfg, op).presence == s.presence.At(s.clock + op.ms);
    } else if Accepted(s, op) {
      hide Accepted, Next;
      AcceptedPresence(s, cfg, op);
    } else {
      hide Accepted, Next;
      PresenceFrame(s, cfg, op);
      SamePresence(s, Next(s, cfg, op), session, last);
    }
  }

  /** The account counts as active exactly when some session's last accepted message was a
      foreground one less than the presence lease ago. */
  lemma ActiveExactly(cfg: Settings, ss: seq<State>, ops: seq<Op>, j: nat)
    requires Run(cfg, ss, ops) && j <= |ops|
    ensures IsActive(ss[j]).1 <==>
      exists session :: LastForeground(ss, ops, j, session).Some?
        && Now(ss[j]) < LastForeground(ss, ops, j, session).value + PRESENCE_TTL_SECS
  {
    var live := ss[j].presence.Above(Now(ss[j])).scores;
    hide Run, LastForeground;
    if IsActive(ss[j]).1 {
      var session :| session in live.Keys;
      PresenceTracks(cfg, ss, ops, j, session);
      assert LastForeground(ss, ops, j, session).Some?;
    }
    if session :|
      LastForeground(ss, ops, j, session).Some?
      && Now(ss[j]) < LastForeground(ss, ops, j, session).value + PRESENCE_TTL_SECS
    {
      PresenceTracks(cfg, ss, ops, j, session);
      assert session in live.Keys;
    }
  }

  // ---------- One session's messages ----------

  /** The record a session holds after a stream of its messages, with no lapse of its key. */
  function Fold(previous: Option<SessionRecord>, us: seq<Update>): Option<SessionRecord> {
    if us == [] then previous else Folded(Fold(previous, us[..|us| - 1]), us[|us| - 1])
  }

  function Folded(before: Option<SessionRecord>, u: Update): Option<SessionRecord> {
    if Accepts(before, u) then Some(SessionRecord(u.sequence, u.visit, u.foreground, 0)) else before
  }

  predicate Bumped(before: Option<SessionRecord>, u: Update) {
    Accepts(before, u) && (before.None? || u.visit > before.value.visit)
  }

  /** How often the stream bumps the visit generation. */
  function Bumps(us: seq<Update>): set<nat> {
    if us == [] then {}
    else
      var before := Fold(None, us[..|us| - 1]);
      var u := us[|us| - 1];
      Bumps(us[..|us| - 1])
      + (if Bumped(before, u) then {|us| - 1} else {})
  }

  /** Messages of one session: sequence numbers identify them and visits never fall as the
      sequence rises. */
  ghost predicate OneSession(us: seq<Update>) {
    && (forall i :: 0 <= i < |us| ==> IsValid(us[i]))
    && (forall i, j :: 0 <= i < |us| && 0 <= j < |us| && us[i].sequence == us[j].sequence ==> us[i] == us[j])
    && (forall i, j :: 0 <= i < |us| && 0 <= j < |us| && us[i].sequence < us[j].sequence ==> us[i].visit <= us[j].visit)
  }

  ghost predicate IsNewest(us: seq<Update>, u: Update) {
    u in us && forall v :: v in us ==> v.sequence <= u.sequence
  }

  lemma {:induction false} FoldKeepsNewest(us: seq<Update>) returns (u: Update)
    requires us != [] && OneSession(us)
    ensures IsNewest(us, u)
    ensures Fold(None, us) == Some(SessionRecord(u.sequence, u.visit, u.foreground, 0))
  {
    var head, last := us[..|us| - 1], us[|us| - 1];
    assert forall v :: v in us <==> v in head || v == last;
    if head == [] {
      u := last;
    } else {
      u := FoldKeepsNewest(head);
      assert exists i :: 0 <= i < |us| && us[i] == u;
      if last.sequence > u.sequence {
        u := last;
      }
    }
  }

  /** However the network reorders or repeats a session's messages, its record ends as the message
      with the highest sequence. */
  lemma OrderIndependent(us: seq<Update>, vs: seq<Update>)
    requires OneSession(us) && OneSession(vs)
    requires forall u :: u in us <==> u in vs
    ensures Fold(None, us) == Fold(None, vs)
  {
    assert us != [] ==> us[0] in vs;
    assert vs != [] ==> vs[0] in us;
    if us != [] {
      var a := FoldKeepsNewest(us);
      var b := FoldKeepsNewest(vs);
      assert a in vs && b in us;
      assert a.sequence == b.sequence;
      assert a == b by {
        var i :| 0 <= i < |us| && us[i] == a;
        var j :| 0 <= j < |us| && us[j] == b;
      }
    }
  }

  lemma {:induction false} BumpsRise(us: seq<Update>)
    ensures forall b :: b in Bumps(us) ==>
      0 <= b < |us| && Fold(None, us).Some? && us[b].visit <= Fold(None, us).value.visit
    ensures forall b, c :: b in Bumps(us) && c in Bumps(us) && b < c ==> us[b].visit < us[c].visit
    decreases |us|
  {
    if us != [] {
      BumpsRise(us[..|us| - 1]);
    }
  }

  /** A stream bumps the generation at most once per distinct visit, in any order. */
  lemma BumpsOncePerVisit(us: seq<Update>)
    ensures |Bumps(us)| <= |set i | 0 <= i < |us| :: us[i].visit|
  {
    BumpsRise(us);
    var visits := set i | 0 <= i < |us| :: us[i].visit;
    var bumped := set b | b in Bumps(us) :: us[b].visit;
    ImageCardinality(Bumps(us), (b: nat) => if b < |us| then us[b].visit else 0, bumped);
    CardinalityMonotone(bumped, visits);
  }

  /** The script applies exactly that fold to the session's own record. */
  lemma RecordFolds(s: State, u: Update, micros: nat)
    requires IsValid(u) && s.registered && Record(s, u, micros).1 != SessionLimit
    ensures var before := PreviousRecord(s, u.session);
      var after := PreviousRecord(Record(s, u, micros).0, u.session);
      && (Accepts(before, u) ==>
         after.Some? && after.value.(deadline := 0) == SessionRecord(u.sequence, u.visit, u.foreground, 0))
      && (!Accepts(before, u) ==> Record(s, u, micros) == (s, RenewedOrStale))
      && (Visits(s, OpRecord(u, micros)) <==> Bumped(before, u))
    ensures forall k :: k != u.session ==> PreviousRecord(Record(s, u, micros).0, k) == PreviousRecord(s, k)
  {
  }

  // ---------- One session's messages in a run ----------

  /** The session's well-formed messages among the first `j` steps, in order of arrival. */
  function Messages(ops: seq<Op>, session: string, j: nat): seq<Update>
    requires j <= |ops|
  {
    if j == 0 then []
    else Messages(ops, session, j - 1) + (if SentBy(ops[j - 1], session) then [ops[j - 1].update] else [])
  }

  predicate SentBy(op: Op, session: string) {
    op.OpRecord? && op.update.session == session && IsValid(op.update)
  }

  /** The account is registered whenever the session reports, the session is never refused for the
      account's session limit, and its record never lapses. */
  ghost predicate Undisturbed(ss: seq<State>, ops: seq<Op>, session: string, j: nat)
    requires j <= |ops| < |ss|
  {
    forall k :: 0 <= k < j ==> UndisturbedAt(ss[k], ss[k + 1], ops[k], session)
  }

  ghost predicate UndisturbedAt(s: State, t: State, op: Op, session: string) {
    && (SentBy(op, session) ==> s.registered && Record(s, op.update, op.micros).1 != SessionLimit)
    && (session in s.records ==> session in t.records)
  }

  /** The record as far as it is about messages. */
  function Told(s: State, session: string): Option<SessionRecord> {
    if session in s.records then Some(s.records[session].(deadline := 0)) else None
  }

  lemma MessageStep(s: State, cfg: Settings, op: Op, session: string)
    requires UndisturbedAt(s, Next(s, cfg, op), op, session)
    ensures Told(Next(s, cfg, op), session) ==
      if SentBy(op, session) then Folded(Told(s, session), op.update) else Told(s, session)
    ensures SentBy(op, session) ==> (Visits(s, op) <==> Bumped(Told(s, session), op.update))
  {
    match op
    case OpRecord(u, micros) =>
      if IsValid(u) && s.registered && Record(s, u, micros).1 != SessionLimit {
        RecordFolds(s, u, micros);
        hide Record;
        assert PreviousRecord(Next(s, cfg, op), session) == PreviousRecord(s, session) || u.session == session;
      } else {
        assert Record(s, u, micros).0.records == s.records;
      }
    case OpReserve(lane, id, expected) => ReserveFrame(s, cfg, lane, id, expected);
    case OpValidate(lane, id, expected) => ValidateFrame(s, cfg, lane, id, expected);
    case _ =>
  }

  /** The steps at which the session's messages bump the generation. */
  ghost function VisitSteps(ss: seq<State>, ops: seq<Op>, session: string, j: nat): set<nat>
    requires j <= |ops| < |ss|
  {
    set k: nat | k < j && VisitsAt(ss, ops, session, k)
  }

  ghost predicate VisitsAt(ss: seq<State>, ops: seq<Op>, session: string, k: nat)
    requires k < |ops| < |ss|
  {
    SentBy(ops[k], session) && Visits(ss[k], ops[k])
  }

  /** In a run the session's record is the fold of its messages, and its visits are the fold's bumps. */
  lemma {:induction false} RunFolds(cfg: Settings, ss: seq<State>, ops: seq<Op>, session: string, j: nat)
    requires Run(cfg, ss, ops) && j <= |ops| && Undisturbed(ss, ops, session, j)
    ensures Told(ss[j], session) == Fold(None, Messages(ops, session, j))
    ensures |VisitSteps(ss, ops, session, j)| == |Bumps(Messages(ops, session, j))|
    decreases j
  {
    if j == 0 {
      assert VisitSteps(ss, ops, session, 0) == {};
    } else {
      assert Undisturbed(ss, ops, session, j - 1);
      RunFolds(cfg, ss, ops, session, j - 1);
      StepFolds(cfg, ss, ops, session, j);
      hide Run, Undisturbed, Told, Fold, Folded, Bumps, Bumped, VisitSteps, VisitsAt;
      var us := Messages(ops, session, j - 1);
      VisitStepsGrow(ss, ops, session, j);
      if SentBy(ops[j - 1], session) {
        assert Messages(ops, session, j) == us + [ops[j - 1].update];
        FoldsOneMore(us, ops[j - 1].update);
      } else {
        assert Messages(ops, session, j) == us;
      }
    }
  }

  lemma StepFolds(cfg: Settings, ss: seq<State>, ops: seq<Op>, session: string, j: nat)
    requires Run(cfg, ss, ops) && 0 < j <= |ops| && Undisturbed(ss, ops, session, j)
    ensures Told(ss[j], session) ==
      if SentBy(ops[j - 1], session) then Folded(Told(ss[j - 1], session), ops[j - 1].update)
      else Told(ss[j - 1], session)
    ensures VisitsAt(ss, ops, session, j - 1) <==>
      SentBy(ops[j - 1], session) && Bumped(Told(ss[j - 1], session), ops[j - 1].update)
  {
    StepOf(cfg, ss, ops, j - 1);
    assert UndisturbedAt(ss[j - 1], ss[j], ops[j - 1], session);
    hide Run, Undisturbed, Next, Visits, Folded, Bumped, Told;
    MessageStep(ss[j - 1], cfg, ops[j - 1], session);
  }

  lemma VisitStepsGrow(ss: seq<State>, ops: seq<Op>, session: string, j: nat)
    requires 0 < j <= |ops| < |ss|
    ensures |VisitSteps(ss, ops, session, j)| ==
      |VisitSteps(ss, ops, session, j - 1)| + (if VisitsAt(ss, ops, session, j - 1) then 1 else 0)
  {
    hide VisitsAt;
    var before, after := VisitSteps(ss, ops, session, j - 1), VisitSteps(ss, ops, session, j);
    if VisitsAt(ss, ops, session, j - 1) {
      assert after == before + {j - 1} && j - 1 !in before;
    } else {
      assert after == before;
    }
  }

  lemma FoldsOneMore(us: seq<Update>, u: Update)
    ensures Fold(None, us + [u]) == Folded(Fold(None, us), u)
    ensures |Bumps(us + [u])| == |Bumps(us)| + (if Bumped(Fold(None, us), u) then 1 else 0)
  {
    assert (us + [u])[..|us|] == us;
    BumpsRise(us);
  }

  /** However the network reorders or repeats a session's messages, its record in a run is the message
      with the highest sequence that arrived. */
  lemma RecordIsNewest(cfg: Settings, ss: seq<State>, ops: seq<Op>, session: string, j: nat) returns (u: Update)
    requires Run(cfg, ss, ops) && j <= |ops| && Undisturbed(ss, ops, session, j)
    requires OneSession(Messages(ops, session, j)) && Messages(ops, session, j) != []
    ensures IsNewest(Messages(ops, session, j), u)
    ensures session in ss[j].records
    ensures ss[j].records[session].(deadline := 0) == SessionRecord(u.sequence, u.visit, u.foreground, 0)
  {
    RunFolds(cfg, ss, ops, session, j);
    u := FoldKeepsNewest(Messages(ops, session, j));
  }

  /** Two runs in which the same messages of a session arrived, in any order and as often as they
      like, among any other steps, end with the same record. */
  lemma OrderIndependentRuns(cfg: Settings, ss: seq<State>, ops: seq<Op>, session: string, j: nat,
                             cfg': Settings, ss': seq<State>, ops': seq<Op>, j': nat)
    requires Run(cfg, ss, ops) && j <= |ops| && Undisturbed(ss, ops, session, j)
    requires Run(cfg', ss', ops') && j' <= |ops'| && Undisturbed(ss', ops', session, j')
    requires OneSession(Messages(ops, session, j)) && OneSession(Messages(ops', session, j'))
    requires forall u :: u in Messages(ops, session, j) <==> u in Messages(ops', session, j')
    ensures Told(ss[j], session) == Told(ss'[j'], session)
  {
    RunFolds(cfg, ss, ops, session, j);
    RunFolds(cfg', ss', ops', session, j');
    OrderIndependent(Messages(ops, session, j), Messages(ops', session, j'));
  }

  /** In a run a session bumps the generation at most once per distinct visit it reported. */
  lemma VisitsOncePerVisit(cfg: Settings, ss: seq<State>, ops: seq<Op>, session: string, j: nat)
    requires Run(cfg, ss, ops) && j <= |ops| && Undisturbed(ss, ops, session, j)
    ensures var us := Messages(ops, session, j);
      |VisitSteps(ss, ops, session, j)| <= |set i | 0 <= i < |us| :: us[i].visit|
  {
    RunFolds(cfg, ss, ops, session, j);
    BumpsOncePerVisit(Messages(ops, session, j));
  }
}
