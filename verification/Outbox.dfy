/** The leased coalescing outbox of src/coalesce.rs: ingest into buckets, the due and lease
    indexes, claim with lease recovery, and token-guarded completion, one atomic script each. */
module Outbox {
  import opened Redis
  import Limiter

  const MAX_ACTIONS_PER_CATEGORY := 1024
  const MAX_RECOVERY_PER_CLAIM := 64
  const MAX_DANGLING_SKIPS := 8

  /** The coalescing part of ServiceSettings; `limits` is the recipient budget. */
  datatype Settings = Settings(window: nat, immediateLimit: nat, groupTtl: nat, grace: nat, lease: nat,
      flushTimeout: nat, limits: Limiter.Limits)

  predicate ValidSettings(c: Settings) {
    && 0 < c.window && 0 < c.groupTtl && 0 < c.grace && 0 < c.lease && 0 < c.flushTimeout
    && c.groupTtl > c.window + c.lease
    && c.lease > 2 * c.flushTimeout
    && Limiter.ValidLimits(c.limits)
  }

  /** Only likes and reposts are coalesced. */
  datatype Category = Like | Repost

  datatype Gid =
    | Digest(owner: string, generation: nat, bucket: nat)
    | Legacy(category: Category, owner: string, target: string, bucket: nat)

  /** The hashed (category, actor, target) identity a digest counts once. */
  datatype Action = Action(category: Category, actor: string, target: string)

  datatype Event = Event(id: string, owner: string, category: Category, actor: string, target: string, createdAt: nat)

  datatype Group = Group(
    due: nat,
    expiresAt: nat,
    generation: nat,
    pending: nat,
    immediate: nat,
    likes: nat,
    reposts: nat,
    likesBound: bool,
    repostsBound: bool,
    actions: set<Action>,
    firstActor: Option<string>,
    firstEvent: Option<string>,
    lastAt: nat,
    lease: Option<string>,
    deadline: int)

  datatype Actors = Actors(members: set<string>, deadline: int)

  datatype Disposition = Disposition(immediate: bool, gid: Gid, deadline: int)

  datatype State = State(
    clock: nat,
    groups: map<Gid, Group>,
    actors: map<Gid, Actors>,
    dispositions: map<(string, string), Disposition>,
    due: map<Gid, nat>,
    leases: map<Gid, nat>,
    limiters: map<string, Limiter.State>)

  function Now(s: State): nat { Seconds(s.clock) }

  /** The bucket deadline. */
  function DueAt(c: Settings, gid: Gid): nat { (gid.bucket + 1) * c.window }

  function PhysicalTtl(c: Settings): nat { c.groupTtl + c.grace }

  function DispositionTtl(c: Settings): nat {
    if c.immediateLimit == 0 then PhysicalTtl(c) else c.window + c.grace
  }

  // ---------- Time ----------

  function GroupsAt(groups: map<Gid, Group>, clock: nat): map<Gid, Group> {
    map g | g in groups && clock <= groups[g].deadline :: groups[g]
  }

  function ActorsAt(actors: map<Gid, Actors>, clock: nat): map<Gid, Actors> {
    map g | g in actors && clock <= actors[g].deadline :: actors[g]
  }

  function DispositionsAt(dispositions: map<(string, string), Disposition>, clock: nat)
    : map<(string, string), Disposition>
  {
    map k | k in dispositions && clock <= dispositions[k].deadline :: dispositions[k]
  }

  function LimitersAfter(limiters: map<string, Limiter.State>, ms: nat): map<string, Limiter.State> {
    map o | o in limiters :: Limiter.Tick(limiters[o], ms)
  }

  /** The server clock moves on and every key whose deadline has passed is gone. */
  function Tick(s: State, ms: nat): State {
    var clock := s.clock + ms;
    State(clock, GroupsAt(s.groups, clock), ActorsAt(s.actors, clock), DispositionsAt(s.dispositions, clock), s.due,
      s.leases, LimitersAfter(s.limiters, ms))
  }

  // ---------- Ingest ----------

  datatype Decision = Immediate(gid: Gid) | Buffered(gid: Gid) | StaleVisit

  function Replayed(d: Disposition): Decision {
    if d.immediate then Immediate(d.gid) else Buffered(d.gid)
  }

  function GidFor(c: Settings, e: Event, generation: nat, now: nat): Gid
    requires ValidSettings(c)
  {
    if c.immediateLimit == 0 then Digest(e.owner, generation, now / c.window)
    else Legacy(e.category, e.owner, e.target, now / c.window)
  }

  /** The group with its HSETNX fields present. */
  function Opened(c: Settings, s: State, gid: Gid, generation: nat): Group {
    if gid in s.groups then s.groups[gid]
    else Group(DueAt(c, gid), Now(s) + c.groupTtl, generation, 0, 0, 0, 0, false, false, {}, None, None, 0, None, 0)
  }

  function LimiterOf(s: State, owner: string): Limiter.State {
    if owner in s.limiters then s.limiters[owner] else Limiter.State(s.clock, None, Zset(map[], 0))
  }

  /** One event's decision. The fence and the replay precede every read of the clock and every
      write. */
  function Ingest(c: Settings, s: State, e: Event, current: nat, expected: nat): (State, Decision)
    requires ValidSettings(c)
  {
    if current != expected then (s, StaleVisit)
    else if (e.id, e.owner) in s.dispositions then (s, Replayed(s.dispositions[(e.id, e.owner)]))
    else
      var gid := GidFor(c, e, current, Now(s));
      var g := Opened(c, s, gid, current);
      if c.immediateLimit == 0 then IngestDigest(c, s, e, gid, g)
      else if g.immediate < c.immediateLimit then
        var (limiter, sent) := Limiter.Emit(c.limits, LimiterOf(s, e.owner), e.id);
        var t := s.(limiters := s.limiters[e.owner := limiter]);
        if sent then (SendNow(c, t, e, gid, g), Immediate(gid)) else (Buffer(c, t, e, gid, g), Buffered(gid))
      else (Buffer(c, s, e, gid, g), Buffered(gid))
  }

  function Dispose(c: Settings, s: State, e: Event, immediate: bool, gid: Gid): State {
    s.(dispositions :=
      s.dispositions[(e.id, e.owner) := Disposition(immediate, gid, Deadline(s.clock, DispositionTtl(c)))])
  }

  function SendNow(c: Settings, s: State, e: Event, gid: Gid, g: Group): State {
    var ttl := if g.pending > 0 then PhysicalTtl(c) else DispositionTtl(c);
    Dispose(c, s.(groups := s.groups[gid := g.(immediate := g.immediate + 1, deadline := Deadline(s.clock, ttl))]),
      e, true, gid)
  }

  function Total(g: Group, category: Category): nat {
    if category.Like? then g.likes else g.reposts
  }

  /** An account digest counts each action once and stops storing identities at saturation, where
      it keeps a lower bound instead. */
  function IngestDigest(c: Settings, s: State, e: Event, gid: Gid, g: Group): (State, Decision) {
    var action := Action(e.category, e.actor, e.target);
    if action in g.actions then (Dispose(c, s, e, false, gid), Buffered(gid))
    else if Total(g, e.category) < MAX_ACTIONS_PER_CATEGORY then
      var counted := if e.category.Like? then g.(actions := g.actions + {action}, likes := g.likes + 1)
        else g.(actions := g.actions + {action}, reposts := g.reposts + 1);
      (Enqueue(c, s, e, gid, counted.(pending := g.pending + 1)), Buffered(gid))
    else
      (Enqueue(c, s, e, gid, if e.category.Like? then g.(likesBound := true) else g.(repostsBound := true)),
        Buffered(gid))
  }

  /** A legacy group counts every buffered event, its first actor and its distinct actors. */
  function Buffer(c: Settings, s: State, e: Event, gid: Gid, g: Group): State {
    var known := if gid in s.actors then s.actors[gid].members else {};
    var t := s.(actors := s.actors[gid := Actors(known + {e.actor}, Deadline(s.clock, PhysicalTtl(c)))]);
    Enqueue(c, t, e, gid, g.(pending := g.pending + 1, firstActor := Some(g.firstActor.GetOr(e.actor))))
  }

  function Enqueue(c: Settings, s: State, e: Event, gid: Gid, g: Group): State {
    var group := g.(
      firstEvent := Some(g.firstEvent.GetOr(e.id)),
      lastAt := if e.createdAt > g.lastAt then e.createdAt else g.lastAt,
      deadline := Deadline(s.clock, PhysicalTtl(c)));
    Dispose(c, s.(groups := s.groups[gid := group],
                  due := if gid in s.due then s.due else s.due[gid := DueAt(c, gid)]), e, false, gid)
  }

  // ---------- Claim ----------

  /** ZRANGEBYSCORE key -inf now LIMIT 0 limit: the lowest-scored due members in score order, in
      any order among equal scores. */
  ghost predicate IsRange(z: map<Gid, nat>, now: nat, limit: nat, r: seq<Gid>) {
    && |r| <= limit
    && (forall i :: 0 <= i < |r| ==> r[i] in z && z[r[i]] <= now)
    && (forall i, j :: 0 <= i < j < |r| ==> r[i] != r[j] && z[r[i]] <= z[r[j]])
    && (forall k :: k in z && z[k] <= now && k !in r ==> |r| == limit && forall i :: 0 <= i < |r| ==> z[r[i]] <= z[k])
  }

  function Removed(s: State, gid: Gid): State {
    s.(groups := s.groups - {gid}, actors := s.actors - {gid})
  }

  /** Reconcile one expired lease: drop finished or expired groups, requeue live work. */
  function RecoverOne(s: State, gid: Gid): State {
    var t := s.(leases := s.leases - {gid});
    if gid in s.groups && s.groups[gid].pending > 0 then
      var g := s.groups[gid];
      if g.expiresAt > 0 && Now(s) >= g.expiresAt then Removed(t, gid)
      else if gid !in s.due then t.(due := s.due[gid := if g.due <= 0 then Now(s) else g.due])
      else t
    else Removed(t, gid)
  }

  function Recover(s: State, expired: seq<Gid>): State
    decreases |expired|
  {
    if expired == [] then s else Recover(RecoverOne(s, expired[0]), expired[1..])
  }

  /** Lease the first candidate whose hash still exists; forget the dangling ones before it. */
  function Take(c: Settings, s: State, candidates: seq<Gid>, token: string): (State, Option<Gid>)
    decreases |candidates|
  {
    if candidates == [] then (s, None)
    else
      var gid := candidates[0];
      var t := s.(due := s.due - {gid});
      if gid !in s.groups then Take(c, t, candidates[1..], token)
      else (t.(leases := s.leases[gid := Now(s) + c.lease],
        groups := s.groups[gid := s.groups[gid].(lease := Some(token))]), Some(gid))
  }

  function Claim(c: Settings, s: State, token: string, expired: seq<Gid>, candidates: seq<Gid>): (State, Option<Gid>) {
    Take(c, Recover(s, expired), candidates, token)
  }

  ghost predicate ClaimReads(s: State, expired: seq<Gid>, candidates: seq<Gid>) {
    && IsRange(s.leases, Now(s), MAX_RECOVERY_PER_CLAIM, expired)
    && IsRange(Recover(s, expired).due, Now(s), MAX_DANGLING_SKIPS, candidates)
  }

  // ---------- Completion ----------

  datatype CompleteOutcome = Completed | Requeued | Expired | NotOwner

  function Complete(s: State, gid: Gid, token: string, requeueAfter: Option<nat>): (State, CompleteOutcome) {
    if gid !in s.groups || s.groups[gid].lease != Some(token) then (s, NotOwner)
    else
      var t := s.(leases := s.leases - {gid});
      var g := s.groups[gid];
      if requeueAfter.None? then (Removed(t, gid), Completed)
      else if g.expiresAt > 0 && Now(s) + requeueAfter.value >= g.expiresAt then (Removed(t, gid), Expired)
      else (t.(groups := s.groups[gid := g.(lease := None)], due := s.due[gid := Now(s) + requeueAfter.value]),
        Requeued)
  }

  // ---------- Steps and runs ----------

  /** `current` is the account generation the ingest script reads; `OpLimiter` is a flush spending
      or refunding a recipient's budget. */
  datatype Op =
    | OpTick(ms: nat)
    | OpIngest(event: Event, current: nat, expected: nat)
    | OpClaim(token: string, expired: seq<Gid>, candidates: seq<Gid>)
    | OpComplete(gid: Gid, token: string, requeueAfter: Option<nat>)
    | OpLimiter(owner: string, op: Limiter.Op)

  ghost function Next(c: Settings, s: State, op: Op): State
    requires ValidSettings(c)
  {
    match op
    case OpTick(ms) => Tick(s, ms)
    case OpIngest(e, current, expected) => Ingest(c, s, e, current, expected).0
    case OpClaim(token, expired, candidates) => Claim(c, s, token, expired, candidates).0
    case OpComplete(gid, token, requeueAfter) => Complete(s, gid, token, requeueAfter).0
    case OpLimiter(owner, lop) =>
      if lop.OpTick? then s else s.(limiters := s.limiters[owner := Limiter.Next(c.limits, LimiterOf(s, owner), lop)])
  }

  ghost predicate Enabled(s: State, op: Op) {
    op.OpClaim? ==> ClaimReads(s, op.expired, op.candidates)
  }

  ghost predicate Run(c: Settings, ss: seq<State>, ops: seq<Op>) {
    && ValidSettings(c)
    && |ss| == |ops| + 1
    && ss[0].groups == map[] && ss[0].actors == map[] && ss[0].dispositions == map[]
    && ss[0].due == map[] && ss[0].leases == map[] && ss[0].limiters == map[]
    && forall i {:trigger Next(c, ss[i], ops[i])} :: 0 <= i < |ops| ==>
       Enabled(ss[i], ops[i]) && ss[i + 1] == Next(c, ss[i], ops[i])
  }

  lemma StepOf(c: Settings, ss: seq<State>, ops: seq<Op>, k: nat)
    requires Run(c, ss, ops) && k < |ops|
    ensures Enabled(ss[k], ops[k]) && ss[k + 1] == Next(c, ss[k], ops[k])
  {
    var next := Next(c, ss[k], ops[k]);
  }
}
