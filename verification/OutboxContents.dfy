/** What the outbox's groups and dispositions hold over every run: closed groups are frozen, and
    replays change nothing. */
module OutboxContents {
  import opened Redis
  import Limiter
  import opened Outbox
  import opened OutboxInvariants
  import opened OutboxRuns

  // ---------- Closed groups are frozen ----------

  lemma TickContent(s: State, ms: nat, gid: Gid)
    ensures var t := Tick(s, ms);
      && (gid in t.groups ==> gid in s.groups && t.groups[gid] == s.groups[gid])
      && (gid in t.actors ==> gid in s.actors && t.actors[gid] == s.actors[gid])
      && (gid in s.actors && t.clock <= s.actors[gid].deadline ==> gid in t.actors)
      && (gid in s.actors && gid !in t.actors ==> s.actors[gid].deadline < t.clock)
  {
  }

  /** Actors seen now are the actors seen then, unless their key's deadline passed in between. */
  ghost predicate ActorsSince(before: Option<Actors>, now: Option<Actors>, clock: nat) {
    || now == before
    || (before.Some? && now.None? && before.value.deadline < clock)
  }

  lemma ClosedStep(c: Settings, s: State, op: Op, gid: Gid)
    requires ValidSettings(c) && DueAt(c, gid) <= Now(s) && gid in Next(c, s, op).groups
    ensures gid in s.groups && SameContent(s.groups[gid], Next(c, s, op).groups[gid])
    ensures ActorsSince(Lookup(s.actors, gid), Lookup(Next(c, s, op).actors, gid), Next(c, s, op).clock)
    ensures s.clock <= Next(c, s, op).clock
  {
    if op.OpTick? {
      TickContent(s, op.ms, gid);
    } else {
      if FreshInto(c, s, op, gid) {
        CurrentBucket(c, op.event, op.current, Now(s));
      }
      hide DueAt;
      ContentStep(c, s, op, gid);
      NextClock(c, s, op);
    }
  }

  lemma NextClock(c: Settings, s: State, op: Op)
    requires ValidSettings(c)
    ensures s.clock <= Next(c, s, op).clock && (!op.OpTick? ==> Next(c, s, op).clock == s.clock)
  {
    match op
    case OpIngest(e, current, expected) => IngestClock(c, s, e, current, expected);
    case OpClaim(token, expired, candidates) =>
      RecoverClock(s, expired);
      TakeClock(c, Recover(s, expired), candidates, token);
    case _ =>
  }

  lemma {:induction false} TakeClock(c: Settings, s: State, candidates: seq<Gid>, token: string)
    ensures Take(c, s, candidates, token).0.clock == s.clock
    decreases |candidates|
  {
    if candidates != [] && candidates[0] !in s.groups {
      TakeClock(c, s.(due := s.due - {candidates[0]}), candidates[1..], token);
    }
  }

  /** From one state to a later one, the group is the same apart from its token, and its actors
      are the same unless they expired. */
  ghost predicate Frozen(s: State, t: State, gid: Gid) {
    && gid in s.groups && gid in t.groups && SameContent(s.groups[gid], t.groups[gid])
    && ActorsSince(Lookup(s.actors, gid), Lookup(t.actors, gid), t.clock)
    && s.clock <= t.clock
  }

  lemma FrozenReflexive(s: State, gid: Gid)
    requires gid in s.groups
    ensures Frozen(s, s, gid)
  {
  }

  lemma FrozenTransitive(s: State, t: State, u: State, gid: Gid)
    requires Frozen(s, t, gid) && Frozen(t, u, gid)
    ensures Frozen(s, u, gid)
  {
  }

  lemma ClosedStepAt(c: Settings, ss: seq<State>, ops: seq<Op>, k: nat, gid: Gid)
    requires Run(c, ss, ops) && k < |ops|
    requires DueAt(c, gid) <= Now(ss[k]) && gid in ss[k + 1].groups
    ensures gid in ss[k].groups && Frozen(ss[k], ss[k + 1], gid)
  {
    hide DueAt, Next, Enabled;
    ClosedStep(c, ss[k], ops[k], gid);
  }

  /** Once its bucket is over, a group changes in nothing but its token for as long as it exists,
      and its actors change only by expiring. */
  lemma {:induction false} ClosedIsFrozen(c: Settings, ss: seq<State>, ops: seq<Op>, i: nat, j: nat, gid: Gid)
    requires Run(c, ss, ops) && i <= j < |ss|
    requires DueAt(c, gid) <= Now(ss[i]) && gid in ss[j].groups
    ensures Frozen(ss[i], ss[j], gid)
    decreases j
  {
    hide DueAt, Next, Enabled, Frozen;
    if i == j {
      FrozenReflexive(ss[i], gid);
    } else {
      ClockNeverFalls(c, ss, ops, i, j - 1);
      ClosedStepAt(c, ss, ops, j - 1, gid);
      ClosedIsFrozen(c, ss, ops, i, j - 1, gid);
      FrozenTransitive(ss[i], ss[j - 1], ss[j], gid);
    }
  }

  function ActorCount(s: State, gid: Gid): nat {
    if gid in s.actors then |s.actors[gid].members| else 0
  }

  /** No claim hands out a group before its bucket deadline. */
  lemma ClaimedIsClosed(c: Settings, ss: seq<State>, ops: seq<Op>, k: nat, gid: Gid)
    requires Run(c, ss, ops) && k < |ops| && Claims(c, ss[k], ops[k], gid)
    ensures DueAt(c, gid) <= Now(ss[k])
  {
    var s, op := ss[k], ops[k];
    RunKeeps(c, ss, ops, k);
    StepOf(c, ss, ops, k);
    var r := Recover(s, op.expired);
    RecoverKeeps(c, s, op.expired);
    TakeLeases(c, r, op.candidates, op.token, gid);
    assert gid in op.candidates && r.due[gid] <= Now(s);
    assert ViewKept(c, gid, r.clock, ViewOf(r, gid));
  }

  /** A key that can be read has not passed its deadline. */
  ghost predicate ActorsLive(s: State) {
    forall gid :: gid in s.actors ==> s.clock <= s.actors[gid].deadline
  }

  lemma ActorsLiveStep(c: Settings, s: State, op: Op)
    requires ValidSettings(c) && ActorsLive(s)
    ensures ActorsLive(Next(c, s, op))
  {
    var t := Next(c, s, op);
    NextClock(c, s, op);
    forall gid | gid in t.actors ensures t.clock <= t.actors[gid].deadline {
      if op.OpTick? {
      } else if op.OpClaim? {
        ClaimActors(c, s, op, gid);
      } else if op.OpIngest? {
        IngestActors(c, s, op.event, op.current, op.expected, gid);
      }
    }
  }

  lemma ClaimActors(c: Settings, s: State, op: Op, gid: Gid)
    requires ValidSettings(c) && op.OpClaim? && gid in Next(c, s, op).actors
    ensures gid in s.actors && Next(c, s, op).actors[gid] == s.actors[gid]
  {
    RecoverActors(s, op.expired, gid);
    TakeContent(c, Recover(s, op.expired), op.candidates, op.token, gid);
  }

  lemma {:induction false} RecoverActors(s: State, expired: seq<Gid>, gid: Gid)
    ensures gid in Recover(s, expired).actors ==> gid in s.actors && Recover(s, expired).actors[gid] == s.actors[gid]
    decreases |expired|
  {
    if expired != [] { RecoverActors(RecoverOne(s, expired[0]), expired[1..], gid); }
  }

  lemma IngestActors(c: Settings, s: State, e: Event, current: nat, expected: nat, gid: Gid)
    requires ValidSettings(c) && gid in Ingest(c, s, e, current, expected).0.actors
    ensures var a := Ingest(c, s, e, current, expected).0.actors[gid];
      (gid in s.actors && a == s.actors[gid]) || a.deadline == Deadline(s.clock, PhysicalTtl(c))
  {
    hide IngestDigest, Buffer, SendNow, Limiter.Emit, Opened, DueAt;
    if current == expected && (e.id, e.owner) !in s.dispositions {
      var own := GidFor(c, e, current, Now(s));
      var g := Opened(c, s, own, current);
      var t := s.(limiters := s.limiters[e.owner := Limiter.Emit(c.limits, LimiterOf(s, e.owner), e.id).0]);
      WrittenActors(c, s, e, own, g);
      WrittenActors(c, t, e, own, g);
    }
  }

  /** A fresh ingest charges the recipient at most, and then writes its group in one of three ways; it is
      sent at once when the bucket allows it and the recipient's budget is charged. */
  lemma FreshWrites(c: Settings, s: State, op: Op, gid: Gid) returns (m: State, sent: bool)
    requires ValidSettings(c) && FreshInto(c, s, op, gid)
    ensures op.OpIngest? && m == s.(limiters := m.limiters)
    ensures var g := Opened(c, s, gid, op.current);
      Next(c, s, op) ==
        if c.immediateLimit == 0 then IngestDigest(c, m, op.event, gid, g).0
        else if sent then SendNow(c, m, op.event, gid, g)
        else Buffer(c, m, op.event, gid, g)
    ensures gid.Digest? <==> c.immediateLimit == 0
    ensures Ingest(c, s, op.event, op.current, op.expected).1 == if sent then Immediate(gid) else Buffered(gid)
    ensures sent <==>
      && c.immediateLimit > 0 && (gid in s.groups ==> s.groups[gid].immediate < c.immediateLimit)
      && Limiter.Emit(c.limits, LimiterOf(s, op.event.owner), op.event.id).1
  {
    var e, g := op.event, Opened(c, s, gid, op.current);
    assert g.immediate == if gid in s.groups then s.groups[gid].immediate else 0;
    DigestIsBuffered(c, s, e, gid, g);
    hide IngestDigest, Buffer, SendNow, Opened, Limiter.Emit, DueAt;
    m, sent := s, false;
    if c.immediateLimit > 0 && g.immediate < c.immediateLimit {
      var emitted := Limiter.Emit(c.limits, LimiterOf(s, e.owner), e.id);
      m, sent := s.(limiters := s.limiters[e.owner := emitted.0]), emitted.1;
    }
  }

  lemma DigestIsBuffered(c: Settings, s: State, e: Event, gid: Gid, g: Group)
    ensures IngestDigest(c, s, e, gid, g).1 == Buffered(gid)
  {
  }

  lemma WrittenActors(c: Settings, s: State, e: Event, own: Gid, g: Group)
    ensures SendNow(c, s, e, own, g).actors == IngestDigest(c, s, e, own, g).0.actors == s.actors
    ensures exists a :: Buffer(c, s, e, own, g).actors == s.actors[own := Actors(a, Deadline(s.clock, PhysicalTtl(c)))]
  {
  }

  lemma {:induction false} ActorsAlive(c: Settings, ss: seq<State>, ops: seq<Op>, j: nat, gid: Gid)
    requires Run(c, ss, ops) && j < |ss|
    ensures ActorsLive(ss[j])
    decreases j
  {
    if j > 0 {
      ActorsAlive(c, ss, ops, j - 1, gid);
      ActorsLiveStep(c, ss[j - 1], ops[j - 1]);
    }
  }

  // ---------- Replays ----------

  /** A fresh ingest stores its own decision, and no other disposition. */
  lemma IngestDispositions(c: Settings, s: State, e: Event, current: nat)
    requires ValidSettings(c) && (e.id, e.owner) !in s.dispositions
    ensures var (t, decision) := Ingest(c, s, e, current, current);
      var gid := GidFor(c, e, current, Now(s));
      && (decision == Immediate(gid) || decision == Buffered(gid))
      && t.dispositions == s.dispositions[(e.id, e.owner) :=
         Disposition(decision.Immediate?, gid, Deadline(s.clock, DispositionTtl(c)))]
  {
    var gid := GidFor(c, e, current, Now(s));
    var g := Opened(c, s, gid, current);
    hide IngestDigest, Buffer, SendNow, Limiter.Emit, Opened, DueAt;
    if c.immediateLimit == 0 {
      DigestDispositions(c, s, e, gid, g);
    } else if g.immediate < c.immediateLimit {
      var (limiter, sent) := Limiter.Emit(c.limits, LimiterOf(s, e.owner), e.id);
      var t := s.(limiters := s.limiters[e.owner := limiter]);
      BufferDispositions(c, t, e, gid, g);
      SendNowDispositions(c, t, e, gid, g);
    } else {
      BufferDispositions(c, s, e, gid, g);
    }
  }

  lemma SendNowDispositions(c: Settings, s: State, e: Event, gid: Gid, g: Group)
    ensures SendNow(c, s, e, gid, g).dispositions ==
      s.dispositions[(e.id, e.owner) := Disposition(true, gid, Deadline(s.clock, DispositionTtl(c)))]
  {
  }

  lemma DigestDispositions(c: Settings, s: State, e: Event, gid: Gid, g: Group)
    ensures var (t, decision) := IngestDigest(c, s, e, gid, g);
      decision == Buffered(gid)
      && t.dispositions ==
         s.dispositions[(e.id, e.owner) := Disposition(false, gid, Deadline(s.clock, DispositionTtl(c)))]
  {
  }

  lemma BufferDispositions(c: Settings, s: State, e: Event, gid: Gid, g: Group)
    ensures Buffer(c, s, e, gid, g).dispositions ==
      s.dispositions[(e.id, e.owner) := Disposition(false, gid, Deadline(s.clock, DispositionTtl(c)))]
  {
  }

  lemma DispositionStep(c: Settings, s: State, op: Op, key: (string, string))
    requires ValidSettings(c) && key in s.dispositions
    ensures var t := Next(c, s, op);
      if key in t.dispositions then t.dispositions[key] == s.dispositions[key]
      else op.OpTick? && t.clock > s.dispositions[key].deadline
  {
    match op
    case OpIngest(e, current, expected) =>
      if Fresh(s, op) { IngestDispositions(c, s, e, current); hide Ingest; }
    case OpClaim(token, expired, candidates) => ClaimDispositions(c, s, token, expired, candidates);
    case _ =>
  }

  lemma ClaimDispositions(c: Settings, s: State, token: string, expired: seq<Gid>, candidates: seq<Gid>)
    ensures Claim(c, s, token, expired, candidates).0.dispositions == s.dispositions
  {
    RecoverDispositions(s, expired);
    TakeDispositions(c, Recover(s, expired), candidates, token);
  }

  lemma {:induction false} RecoverDispositions(s: State, expired: seq<Gid>)
    ensures Recover(s, expired).dispositions == s.dispositions
    decreases |expired|
  {
    if expired != [] { RecoverDispositions(RecoverOne(s, expired[0]), expired[1..]); }
  }

  lemma {:induction false} TakeDispositions(c: Settings, s: State, candidates: seq<Gid>, token: string)
    ensures Take(c, s, candidates, token).0.dispositions == s.dispositions
    decreases |candidates|
  {
    if candidates != [] && candidates[0] !in s.groups {
      TakeDispositions(c, s.(due := s.due - {candidates[0]}), candidates[1..], token);
    }
  }

  lemma {:induction false} DispositionLives(c: Settings, ss: seq<State>, ops: seq<Op>, i: nat, j: nat,
      key: (string, string))
    requires Run(c, ss, ops) && i <= j < |ss|
    requires key in ss[i].dispositions && ss[j].clock <= ss[i].dispositions[key].deadline
    ensures key in ss[j].dispositions && ss[j].dispositions[key] == ss[i].dispositions[key]
    decreases j
  {
    if i < j {
      NextClock(c, ss[j - 1], ops[j - 1]);
      assert ss[j] == Next(c, ss[j - 1], ops[j - 1]);
      hide Next;
      DispositionLives(c, ss, ops, i, j - 1, key);
      DispositionStep(c, ss[j - 1], ops[j - 1], key);
    }
  }

  /** While an event's disposition lives and the generation matches, ingesting it again returns the
      original decision, whatever else happened since, and changes nothing. */
  lemma ReplayReproduces(c: Settings, ss: seq<State>, ops: seq<Op>, i: nat, j: nat, again: Event, current: nat)
    requires Run(c, ss, ops) && i < j < |ss| && i < |ops|
    requires Fresh(ss[i], ops[i]) && again.id == ops[i].event.id && again.owner == ops[i].event.owner
    requires ss[j].clock <= Deadline(ss[i].clock, DispositionTtl(c))
    ensures Ingest(c, ss[j], again, current, current) ==
      (ss[j], Ingest(c, ss[i], ops[i].event, ops[i].current, ops[i].expected).1)
  {
    IngestDispositions(c, ss[i], ops[i].event, ops[i].current);
    StepOf(c, ss, ops, i);
    assert ss[i + 1] == Ingest(c, ss[i], ops[i].event, ops[i].current, ops[i].expected).0;
    DispositionLives(c, ss, ops, i + 1, j, (again.id, again.owner));
    hide IngestDigest, Buffer, SendNow, Limiter.Emit;
  }

  /** Work from a superseded generation changes nothing, even when it would replay. */
  lemma StaleIngestRefused(c: Settings, s: State, e: Event, current: nat, expected: nat)
    requires ValidSettings(c) && current != expected
    ensures Ingest(c, s, e, current, expected) == (s, StaleVisit)
  {
  }
}
