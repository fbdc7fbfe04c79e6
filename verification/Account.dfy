/** One account's activity and interruption-budget keys, and the Lua scripts that act on them
    (src/activity.rs, src/notification_delivery.rs). Each script is one atomic function from
    state to state; `AccountKeys` in AccountKeys.dfy performs the same scripts in place.

    Expired keys are invisible to every Redis command, so `Tick` removes them. */
module Account {
  import opened Redis

  const PRESENCE_TTL_SECS := 180
  const SESSION_TTL_SECS := 604800
  const STATE_TTL_SECS := 7776000
  const MAX_SESSIONS_PER_ACCOUNT := 128
  const HOUR := 3600
  const DAY := 86400

  datatype Settings = Settings(hourlyCap: nat, dailyCap: nat, minInterval: nat, absenceCap: nat)

  datatype Class = Nonurgent | DirectMessage

  /** The account hash: visit generation, absence allowance, and whether activity was ever
      reported. A hash without EXPIRE has no deadline. */
  datatype Profile = Profile(generation: Option<nat>, absenceUsed: Option<nat>, reported: bool, deadline: Option<int>)

  datatype SessionRecord = SessionRecord(sequence: nat, visit: nat, foreground: bool, deadline: int)

  datatype Marker = Marker(generation: nat, deadline: int)

  /** The send times of one delivery class and the generation each identity was reserved under. */
  datatype Window = Window(budget: Zset, generations: map<string, nat>, generationsDeadline: int)

  datatype State = State(
    clock: nat,
    registered: bool,
    counter: Option<nat>,
    profile: Option<Profile>,
    presence: Zset,
    sessions: Zset,
    records: map<string, SessionRecord>,
    markers: map<string, Marker>,
    nonurgent: Window,
    direct: Window)

  function Now(s: State): nat { Seconds(s.clock) }

  // ---------- Time ----------

  function WindowAt(w: Window, clock: nat): Window {
    Window(
      w.budget.At(clock),
      if clock > w.generationsDeadline then map[] else w.generations,
      w.generationsDeadline)
  }

  function ProfileAt(p: Option<Profile>, clock: nat): Option<Profile> {
    if p.Some? && p.value.deadline.Some? && clock > p.value.deadline.value then None else p
  }

  function RecordsAt(records: map<string, SessionRecord>, clock: nat): map<string, SessionRecord> {
    map k | k in records && clock <= records[k].deadline :: records[k]
  }

  function MarkersAt(markers: map<string, Marker>, clock: nat): map<string, Marker> {
    map k | k in markers && clock <= markers[k].deadline :: markers[k]
  }

  /** The server clock moves on and every key whose deadline has passed is gone. */
  function Tick(s: State, ms: nat): State {
    var clock := s.clock + ms;
    s.(clock := clock,
       profile := ProfileAt(s.profile, clock),
       presence := s.presence.At(clock),
       sessions := s.sessions.At(clock),
       records := RecordsAt(s.records, clock),
       markers := MarkersAt(s.markers, clock),
       nonurgent := WindowAt(s.nonurgent, clock),
       direct := WindowAt(s.direct, clock))
  }

  // ---------- Activity (src/activity.rs) ----------

  datatype Update = Update(session: string, sequence: nat, visit: nat, foreground: bool)

  predicate IsValid(u: Update) {
    1 <= u.sequence <= 0x7fff_ffff && 0 < u.visit <= u.sequence
  }

  datatype ActivityOutcome = Invalid | SessionLimit | RenewedOrStale | Visit

  function Generation(s: State): nat {
    if s.profile.Some? then s.profile.value.generation.GetOr(0) else 0
  }

  function ProfileOrNew(s: State): Profile {
    s.profile.GetOr(Profile(None, None, false, None))
  }

  /** SET NX seeds the shared visit counter from the clock in microseconds; INCR then yields the
      next generation. */
  function Minted(s: State, micros: nat): nat {
    s.counter.GetOr(s.clock * 1000 + micros) + 1
  }

  /** What one message does to its own session: nothing when it is stale, otherwise it becomes
      the session's record. */
  function Accepts(previous: Option<SessionRecord>, u: Update): bool {
    previous.None? || (u.sequence > previous.value.sequence && u.visit >= previous.value.visit)
  }

  function PreviousRecord(s: State, session: string): Option<SessionRecord> {
    if session in s.records then Some(s.records[session]) else None
  }

  function Record(s: State, u: Update, micros: nat): (State, ActivityOutcome) {
    var previous := PreviousRecord(s, u.session);
    var now := Now(s);
    var sessions := s.sessions.Above(now);
    if !IsValid(u) then (s, Invalid)
    else if !s.registered || !Accepts(previous, u) then (s, RenewedOrStale)
    else if u.session !in sessions.scores && |sessions.scores| >= MAX_SESSIONS_PER_ACCOUNT then
      (s.(sessions := sessions), SessionLimit)
    else
      var visit := previous.None? || u.visit > previous.value.visit;
      (Applied(s.(sessions := sessions), u, visit, micros), if visit then Visit else RenewedOrStale)
  }

  /** An accepted message becomes its session's record and moves its presence lease; a visit mints
      a generation and restores the allowance. */
  function Applied(s: State, u: Update, visit: bool, micros: nat): State {
    var now := Now(s);
    var presence := s.presence.Above(now);
    var generation := Minted(s, micros);
    var profile := if visit then ProfileOrNew(s).(generation := Some(generation), absenceUsed := Some(0))
      else ProfileOrNew(s);
    s.(counter := if visit then Some(generation) else s.counter,
       sessions := s.sessions.Put(u.session, now + SESSION_TTL_SECS, Deadline(s.clock, SESSION_TTL_SECS)),
       records := s.records[u.session :=
         SessionRecord(u.sequence, u.visit, u.foreground, Deadline(s.clock, SESSION_TTL_SECS))],
       presence := if u.foreground
                   then presence.Put(u.session, now + PRESENCE_TTL_SECS, Deadline(s.clock, PRESENCE_TTL_SECS))
                   else presence.(scores := presence.scores - {u.session}),
       profile := Some(profile.(reported := true, deadline := Some(Deadline(s.clock, STATE_TTL_SECS)))))
  }

  /** Bind a work identity to a generation before fallible preflight. */
  function Bind(s: State, identity: string, retention: nat, micros: nat): (State, nat) {
    var kept := if retention < 1 then 1 else retention;
    var mint := s.registered && (s.profile.None? || s.profile.value.generation.None?);
    var profile := ProfileOrNew(s);
    var t := if mint then
               s.(counter := Some(Minted(s, micros)),
                  profile := Some(profile.(
                    generation := Some(Minted(s, micros)),
                    deadline := if profile.deadline.Some? then profile.deadline
                      else Some(Deadline(s.clock, STATE_TTL_SECS)))))
             else s;
    if identity in s.markers then
      var marker := s.markers[identity];
      (if s.registered && TtlSeconds(marker.deadline, s.clock) < kept
       then t.(markers := t.markers[identity := marker.(deadline := Deadline(s.clock, kept))])
       else t,
       marker.generation)
    else
      (if s.registered
       then t.(markers := t.markers[identity := Marker(Generation(t), Deadline(s.clock, kept))])
       else t,
       Generation(t))
  }

  /** Account-wide presence: true while any lease is live. */
  function IsActive(s: State): (State, bool) {
    var presence := s.presence.Above(Now(s));
    (s.(presence := presence), presence.scores.Keys != {})
  }

  // ---------- Interruption budget (src/notification_delivery.rs) ----------

  datatype BudgetDecision =
    | Allowed
    | Active
    | StaleVisit
    | AllowanceExhausted
    | Cooldown(retryAfter: nat)
    | Capped

  function Own(s: State, lane: Class): Window {
    if lane.Nonurgent? then s.nonurgent else s.direct
  }

  function Other(s: State, lane: Class): Window {
    if lane.Nonurgent? then s.direct else s.nonurgent
  }

  function WithOwn(s: State, lane: Class, w: Window): State {
    if lane.Nonurgent? then s.(nonurgent := w) else s.(direct := w)
  }

  /** Drop the identities at or below the cut from both keys of a class. */
  function Prune(w: Window, now: int): Window {
    w.(budget := w.budget.Above(now - DAY),
       generations := map k | k in w.generations && !(k in w.budget.scores && w.budget.scores[k] <= now - DAY) ::
          w.generations[k])
  }

  /** ZCOUNT of both classes over the last hour. */
  function HourCount(s: State): nat {
    |Within(s.nonurgent.budget.scores, Now(s), HOUR)| + |Within(s.direct.budget.scores, Now(s), HOUR)|
  }

  /** Seconds until the newest of the given sends is `gap` old; not positive when it already is. */
  ghost function Remaining(sends: map<string, int>, gap: nat, now: int): int {
    if sends.Keys == {} then 0 else Latest(sends) + gap - now
  }

  function Touch(w: Window, identity: string, clock: nat): Window {
    Window(w.budget.Put(identity, Seconds(clock), Deadline(clock, DAY)), w.generations, Deadline(clock, DAY))
  }

  function ReservedUnder(w: Window, identity: string): nat {
    if identity in w.generations then w.generations[identity] else 0
  }

  function Pruned(s: State): State {
    s.(nonurgent := Prune(s.nonurgent, Now(s)),
       direct := Prune(s.direct, Now(s)),
       presence := s.presence.Above(Now(s)))
  }

  ghost function Reserve(s: State, cfg: Settings, lane: Class, identity: string, expected: Option<nat>)
    : (State, BudgetDecision)
  {
    var p := Pruned(s);
    if expected.Some? && expected.value != Generation(s) then (p, StaleVisit)
    else if p.presence.scores.Keys != {} then (p, Active)
    else if identity in Own(p, lane).budget.scores then (ReserveAgain(p, cfg, lane, identity))
    else (ReserveFresh(p, cfg, lane, identity))
  }

  /** A retry of an identity that still holds its slot. */
  ghost function ReserveAgain(p: State, cfg: Settings, lane: Class, identity: string): (State, BudgetDecision)
    requires identity in Own(p, lane).budget.scores
  {
    var own := Own(p, lane);
    var wait := Remaining(own.budget.scores - {identity}, cfg.minInterval, Now(p));
    if ReservedUnder(own, identity) != Generation(p) then (p, StaleVisit)
    else if own.budget.scores[identity] <= Now(p) - HOUR && HourCount(p) >= cfg.hourlyCap then (p, Capped)
    else if lane.Nonurgent? && wait > 0 then (p, Cooldown(wait))
    else (WithOwn(p, lane, Touch(own, identity, p.clock)), Allowed)
  }

  function AllowanceUsed(p: State, lane: Class): nat {
    if ProfileOrNew(p).reported then ProfileOrNew(p).absenceUsed.GetOr(0) else |Own(p, lane).budget.scores|
  }

  /** A new identity needs allowance, a cooldown gap and a free slot in both windows. */
  ghost function ReserveFresh(p: State, cfg: Settings, lane: Class, identity: string): (State, BudgetDecision) {
    var own := Own(p, lane);
    var wait := Remaining(own.budget.scores, cfg.minInterval, Now(p));
    if lane.Nonurgent? && AllowanceUsed(p, lane) >= cfg.absenceCap then (p, AllowanceExhausted)
    else if lane.Nonurgent? && wait > 0 then (p, Cooldown(wait))
    else if |own.budget.scores| + |Other(p, lane).budget.scores| >= cfg.dailyCap then (p, Capped)
    else if HourCount(p) >= cfg.hourlyCap then (p, Capped)
    else (Granted(p, lane, identity), Allowed)
  }

  function Granted(p: State, lane: Class, identity: string): State {
    var own := Own(p, lane);
    var granted := Touch(own, identity, p.clock).(generations := own.generations[identity := Generation(p)]);
    var profile := ProfileOrNew(p);
    var charged := profile.(
      absenceUsed := Some(AllowanceUsed(p, lane) + 1),
      deadline := if profile.deadline.Some? then profile.deadline else Some(Deadline(p.clock, STATE_TTL_SECS)));
    WithOwn(if lane.Nonurgent? && profile.reported then p.(profile := Some(charged)) else p, lane, granted)
  }

  /** Revalidate a reservation immediately before a provider request. */
  ghost function Validate(s: State, cfg: Settings, lane: Class, identity: string, expected: Option<nat>)
    : (State, bool)
  {
    var p := s.(presence := s.presence.Above(Now(s)));
    var own := Own(p, lane);
    var now := Now(p);
    if p.presence.scores.Keys != {} then (p, false)
    else if expected.Some? && expected.value != Generation(p) then (p, false)
    else if identity !in own.budget.scores || own.budget.scores[identity] <= now - DAY then (p, false)
    else if own.budget.scores[identity] <= now - HOUR && HourCount(p) >= cfg.hourlyCap then (p, false)
    else if ReservedUnder(own, identity) != Generation(p) then (p, false)
    else if lane.Nonurgent? && Remaining(own.budget.scores - {identity}, cfg.minInterval, now) > 0 then (p, false)
    else (WithOwn(p, lane, Touch(own, identity, p.clock)), true)
  }

  // ---------- Steps and runs ----------

  datatype Op =
    | OpTick(ms: nat)
    | OpRegister(registered: bool)
    | OpElsewhere(visits: nat, micros: nat)
    | OpRecord(update: Update, micros: nat)
    | OpBind(identity: string, retention: nat, micros: nat)
    | OpIsActive
    | OpReserve(lane: Class, identity: string, expected: Option<nat>)
    | OpValidate(lane: Class, identity: string, expected: Option<nat>)

  /** Other accounts share the visit counter: each of their visits increments it. */
  function Elsewhere(s: State, visits: nat, micros: nat): State {
    if visits == 0 then s else s.(counter := Some(Minted(s, micros) + visits - 1))
  }

  ghost function Next(s: State, cfg: Settings, op: Op): State {
    match op
    case OpTick(ms) => Tick(s, ms)
    case OpRegister(registered) => s.(registered := registered)
    case OpElsewhere(visits, micros) => Elsewhere(s, visits, micros)
    case OpRecord(update, micros) => Record(s, update, micros).0
    case OpBind(identity, retention, micros) => Bind(s, identity, retention, micros).0
    case OpIsActive => IsActive(s).0
    case OpReserve(lane, identity, expected) => Reserve(s, cfg, lane, identity, expected).0
    case OpValidate(lane, identity, expected) => Validate(s, cfg, lane, identity, expected).0
  }

  /** Everything a fresh account starts from; a generation written by an older release is below
      the clock in microseconds. */
  ghost predicate Init(s: State) {
    && (s.profile.Some? ==>
          && !s.profile.value.reported
          && s.profile.value.absenceUsed.None?
          && (s.profile.value.generation.Some? ==> 0 < s.profile.value.generation.value <= Ceiling(s)))
    && s.presence.scores == map[] && s.sessions.scores == map[] && s.records == map[] && s.markers == map[]
    && s.nonurgent.budget.scores == map[] && s.nonurgent.generations == map[]
    && s.direct.budget.scores == map[] && s.direct.generations == map[]
    && s.nonurgent.budget.deadline == s.nonurgent.generationsDeadline
    && s.direct.budget.deadline == s.direct.generationsDeadline
  }

  /** No generation handed out so far exceeds this, and the next one does. */
  function Ceiling(s: State): nat { s.counter.GetOr(s.clock * 1000) }

  ghost predicate Run(cfg: Settings, ss: seq<State>, ops: seq<Op>) {
    && |ss| == |ops| + 1
    && Init(ss[0])
    && forall i {:trigger Next(ss[i], cfg, ops[i])} :: 0 <= i < |ops| ==> ss[i + 1] == Next(ss[i], cfg, ops[i])
  }

  lemma StepOf(cfg: Settings, ss: seq<State>, ops: seq<Op>, k: nat)
    requires Run(cfg, ss, ops) && k < |ops|
    ensures ss[k + 1] == Next(ss[k], cfg, ops[k])
  {
    var next := Next(ss[k], cfg, ops[k]);
  }

  /** The step lets this class send this identity: a reservation granted or renewed, or a
      revalidation that passed. */
  ghost predicate Authorises(s: State, cfg: Settings, op: Op) {
    match op
    case OpReserve(lane, identity, expected) => Reserve(s, cfg, lane, identity, expected).1 == Allowed
    case OpValidate(lane, identity, expected) => Validate(s, cfg, lane, identity, expected).1
    case _ => false
  }

  /** The step is a new reservation, not a retry of one that still holds its slot. */
  ghost predicate Grants(s: State, cfg: Settings, op: Op, lane: Class) {
    && op.OpReserve? && op.lane == lane
    && Authorises(s, cfg, op)
    && op.identity !in Own(Pruned(s), lane).budget.scores
  }

  ghost predicate Visits(s: State, op: Op) {
    op.OpRecord? && Record(s, op.update, op.micros).1 == Visit
  }
}
