/** The outbox's counters refine the sets they stand for: distinct events of a legacy group,
    distinct actions of a digest, strictly later requeues of one group. */
module OutboxCounts {
  import opened Redis
  import Limiter
  import opened Outbox
  import opened OutboxInvariants
  import opened OutboxRuns
  import opened OutboxContents

  // ---------- What an ingest adds to its group ----------

  /** The group a legacy ingest leaves: one more event, buffered or sent at once. */
  ghost predicate AddsOne(g: Group, s: State, gid: Gid, sent: bool) {
    && gid in s.groups
    && s.groups[gid].pending == g.pending + (if sent then 0 else 1)
    && s.groups[gid].immediate == g.immediate + (if sent then 1 else 0)
  }

  lemma EnqueueStores(c: Settings, s: State, e: Event, gid: Gid, g: Group)
    ensures gid in Enqueue(c, s, e, gid, g).groups
    ensures var h := Enqueue(c, s, e, gid, g).groups[gid];
      h == g.(firstEvent := h.firstEvent, lastAt := h.lastAt, deadline := h.deadline)
  {
    hide DueAt;
  }

  lemma BufferAdds(c: Settings, s: State, e: Event, gid: Gid, g: Group)
    ensures AddsOne(g, Buffer(c, s, e, gid, g), gid, false)
  {
    var known := if gid in s.actors then s.actors[gid].members else {};
    var t := s.(actors := s.actors[gid := Actors(known + {e.actor}, Deadline(s.clock, PhysicalTtl(c)))]);
    EnqueueStores(c, t, e, gid, g.(pending := g.pending + 1, firstActor := Some(g.firstActor.GetOr(e.actor))));
    hide Enqueue;
  }

  lemma SendNowAdds(c: Settings, s: State, e: Event, gid: Gid, g: Group)
    ensures AddsOne(g, SendNow(c, s, e, gid, g), gid, true)
  {
  }

  lemma LegacyAdds(c: Settings, s: State, e: Event, current: nat)
    requires ValidSettings(c) && c.immediateLimit > 0 && (e.id, e.owner) !in s.dispositions
    ensures var gid := GidFor(c, e, current, Now(s));
      var g := Opened(c, s, gid, current);
      var t := Ingest(c, s, e, current, current).0;
      AddsOne(g, t, gid, false) || (AddsOne(g, t, gid, true) && g.immediate < c.immediateLimit)
  {
    var gid := GidFor(c, e, current, Now(s));
    var g := Opened(c, s, gid, current);
    hide IngestDigest, Buffer, SendNow, Limiter.Emit, Opened, DueAt, AddsOne, GidFor;
    BufferAdds(c, s, e, gid, g);
    if g.immediate < c.immediateLimit {
      var (limiter, sent) := Limiter.Emit(c.limits, LimiterOf(s, e.owner), e.id);
      var t := s.(limiters := s.limiters[e.owner := limiter]);
      BufferAdds(c, t, e, gid, g);
      SendNowAdds(c, t, e, gid, g);
    }
  }

  /** The stored identities of one category. */
  function Stored(g: Group, category: Category): set<Action> {
    set a | a in g.actions && a.category == category
  }

  function Bound(g: Group, category: Category): bool {
    if category.Like? then g.likesBound else g.repostsBound
  }

  /** A digest that already counts the action is left as it is; below saturation the action is
      stored and counted; at saturation only the lower-bound flag is set. */
  ghost predicate Counts(g: Group, h: Group, action: Action, category: Category) {
    && Stored(h, category) ==
       Stored(g, category)
       + (if action.category == category && Total(g, category) < MAX_ACTIONS_PER_CATEGORY then {action} else {})
    && Total(h, category) ==
       Total(g, category)
       + (if action.category == category && action !in g.actions
         && Total(g, category) < MAX_ACTIONS_PER_CATEGORY then 1 else 0)
    && (Bound(h, category) <==>
        Bound(g, category)
        || (action.category == category && action !in g.actions && Total(g, category) >= MAX_ACTIONS_PER_CATEGORY))
  }

  /** The group a digest enqueues for an action it does not hold yet. */
  function Counted(g: Group, action: Action): Group {
    if Total(g, action.category) < MAX_ACTIONS_PER_CATEGORY then
      if action.category.Like? then g.(actions := g.actions + {action}, likes := g.likes + 1, pending := g.pending + 1)
      else g.(actions := g.actions + {action}, reposts := g.reposts + 1, pending := g.pending + 1)
    else if action.category.Like? then g.(likesBound := true) else g.(repostsBound := true)
  }

  lemma DigestEnqueues(c: Settings, s: State, e: Event, gid: Gid, g: Group)
    ensures var action := Action(e.category, e.actor, e.target);
      IngestDigest(c, s, e, gid, g).0 ==
        if action in g.actions then Dispose(c, s, e, false, gid)
        else Enqueue(c, s, e, gid, Counted(g, action))
  {
    hide Enqueue, Dispose;
  }

  lemma DigestCounts(c: Settings, s: State, e: Event, gid: Gid, g: Group, category: Category)
    requires gid in s.groups ==> g == s.groups[gid]
    requires gid !in s.groups ==> g.actions == {}
    ensures var t := IngestDigest(c, s, e, gid, g).0;
      var action := Action(e.category, e.actor, e.target);
      gid in t.groups && (action in g.actions ==> t.groups == s.groups)
        && (action !in g.actions ==> Counts(g, t.groups[gid], action, category))
  {
    var action := Action(e.category, e.actor, e.target);
    DigestEnqueues(c, s, e, gid, g);
    if action !in g.actions {
      var after := Counted(g, action);
      EnqueueStores(c, s, e, gid, after);
      hide Enqueue, IngestDigest, Counts, Counted;
      CountedCounts(g, Enqueue(c, s, e, gid, after).groups[gid], action, category);
    }
  }

  /** Storing the action, or flagging the category at saturation, is counting it. */
  lemma CountedCounts(g: Group, h: Group, action: Action, category: Category)
    requires action !in g.actions
    requires h == Counted(g, action).(firstEvent := h.firstEvent, lastAt := h.lastAt, deadline := h.deadline)
    ensures Counts(g, h, action, category)
  {
    var room := Total(g, action.category) < MAX_ACTIONS_PER_CATEGORY;
    assert h.actions == if room then g.actions + {action} else g.actions;
    assert Stored(h, category) == Stored(g, category) + if room && action.category == category then {action} else {};
  }

  lemma DigestAdds(c: Settings, s: State, e: Event, current: nat, category: Category)
    requires ValidSettings(c) && c.immediateLimit == 0 && (e.id, e.owner) !in s.dispositions
    ensures var gid := GidFor(c, e, current, Now(s));
      var g := Opened(c, s, gid, current);
      var t := Ingest(c, s, e, current, current).0;
      var action := Action(e.category, e.actor, e.target);
      && gid in t.groups
      && (action in g.actions ==> t.groups[gid] == g)
      && (action !in g.actions ==> Counts(g, t.groups[gid], action, category))
  {
    var gid := GidFor(c, e, current, Now(s));
    DigestCounts(c, s, e, gid, Opened(c, s, gid, current), category);
    hide IngestDigest, Counts, DueAt;
  }

  // ---------- Legacy groups count distinct events ----------

  /** The distinct events the first `j` steps ingested into the group. */
  ghost function EventsOf(c: Settings, ss: seq<State>, ops: seq<Op>, gid: Gid, j: nat): set<string>
    requires ValidSettings(c) && j <= |ops| < |ss|
  {
    set i | 0 <= i < j && FreshInto(c, ss[i], ops[i], gid) :: ops[i].event.id
  }

  /** While the bucket is open every event ingested into it still has its disposition. */
  ghost predicate Disposed(c: Settings, s: State, gid: Gid, events: set<string>) {
    Now(s) < DueAt(c, gid) ==>
      forall id :: id in events ==>
        var key := (id, gid.owner);
        key in s.dispositions && 1000 * DueAt(c, gid) <= s.dispositions[key].deadline
  }

  ghost predicate LegacyCounted(c: Settings, s: State, gid: Gid, events: set<string>) {
    && Disposed(c, s, gid, events)
    && (gid in s.groups ==>
          s.groups[gid].pending + s.groups[gid].immediate == |events|
          && s.groups[gid].immediate <= c.immediateLimit)
    && (gid !in s.groups && Now(s) < DueAt(c, gid) ==> events == {})
  }

  lemma DisposedStep(c: Settings, s: State, op: Op, gid: Gid, events: set<string>)
    requires ValidSettings(c) && Disposed(c, s, gid, events)
    ensures Disposed(c, Next(c, s, op), gid, events)
  {
    var t := Next(c, s, op);
    NextClock(c, s, op);
    hide DueAt;
    if Now(t) < DueAt(c, gid) {
      forall id | id in events
        ensures (id, gid.owner) in t.dispositions && 1000 * DueAt(c, gid) <= t.dispositions[(id, gid.owner)].deadline
      {
        DispositionStep(c, s, op, (id, gid.owner));
        hide Next;
      }
    }
  }

  lemma FreshDisposed(c: Settings, s: State, op: Op, gid: Gid, events: set<string>)
    requires ValidSettings(c) && Disposed(c, s, gid, events) && FreshInto(c, s, op, gid)
    ensures op.event.id !in events
    ensures Disposed(c, Next(c, s, op), gid, events + {op.event.id})
  {
    CurrentBucket(c, op.event, op.current, Now(s));
    IngestDispositions(c, s, op.event, op.current);
    IngestClock(c, s, op.event, op.current, op.expected);
    DisposedStep(c, s, op, gid, events);
    hide Ingest, DueAt;
  }

  /** A step that is not a fresh ingest into the group leaves it as it was, or it is gone. */
  lemma OtherStep(c: Settings, s: State, op: Op, gid: Gid)
    requires ValidSettings(c) && Kept(c, s) && Enabled(s, op) && !FreshInto(c, s, op, gid)
    ensures var t := Next(c, s, op);
      && (gid in t.groups ==> gid in s.groups && SameContent(s.groups[gid], t.groups[gid]))
      && (gid !in t.groups && Now(t) < DueAt(c, gid) ==> gid !in s.groups)
      && s.clock <= t.clock
  {
    NextClock(c, s, op);
    if op.OpTick? { TickContent(s, op.ms, gid); } else { ContentStep(c, s, op, gid); }
    if gid in s.groups && gid !in Next(c, s, op).groups {
      RemovedOnlyAfterDue(c, s, op, gid);
    }
  }

  lemma LegacyStep(c: Settings, s: State, op: Op, gid: Gid, events: set<string>)
    requires ValidSettings(c) && Kept(c, s) && Enabled(s, op) && c.immediateLimit > 0
    requires LegacyCounted(c, s, gid, events)
    ensures LegacyCounted(c, Next(c, s, op), gid, if FreshInto(c, s, op, gid) then events + {op.event.id} else events)
  {
    if FreshInto(c, s, op, gid) {
      FreshDisposed(c, s, op, gid, events);
      CurrentBucket(c, op.event, op.current, Now(s));
      LegacyAdds(c, s, op.event, op.current);
      hide Ingest, Disposed, DueAt;
    } else {
      DisposedStep(c, s, op, gid, events);
      OtherStep(c, s, op, gid);
      hide Next, Disposed, DueAt;
    }
  }

  lemma {:induction false} LegacyRun(c: Settings, ss: seq<State>, ops: seq<Op>, gid: Gid, j: nat)
    requires Run(c, ss, ops) && j <= |ops| && c.immediateLimit > 0
    ensures LegacyCounted(c, ss[j], gid, EventsOf(c, ss, ops, gid, j))
    decreases j
  {
    hide Next, FreshInto, DueAt, Enabled;
    if j == 0 {
      assert EventsOf(c, ss, ops, gid, 0) == {};
    } else {
      LegacyRun(c, ss, ops, gid, j - 1);
      RunKeeps(c, ss, ops, j - 1);
      StepOf(c, ss, ops, j - 1);
      if FreshInto(c, ss[j - 1], ops[j - 1], gid) { FreshIsIngest(c, ss[j - 1], ops[j - 1], gid); }
      LegacyStep(c, ss[j - 1], ops[j - 1], gid, EventsOf(c, ss, ops, gid, j - 1));
      assert EventsOf(c, ss, ops, gid, j) ==
        if FreshInto(c, ss[j - 1], ops[j - 1], gid) then EventsOf(c, ss, ops, gid, j - 1) + {ops[j - 1].event.id}
        else EventsOf(c, ss, ops, gid, j - 1);
    }
  }

  /** In every run every live legacy group's pending and immediate counts add up to its distinct
      events, and immediate sends never exceed the limit. */
  lemma LegacyCountsEvents(c: Settings, ss: seq<State>, ops: seq<Op>, gid: Gid, j: nat)
    requires Run(c, ss, ops) && j <= |ops| && c.immediateLimit > 0 && gid in ss[j].groups
    ensures ss[j].groups[gid].pending + ss[j].groups[gid].immediate == |EventsOf(c, ss, ops, gid, j)|
    ensures ss[j].groups[gid].immediate <= c.immediateLimit
  {
    LegacyRun(c, ss, ops, gid, j);
  }

  // ---------- Digests count distinct actions ----------

  /** The distinct actions of one category the first `j` steps ingested into the group. */
  ghost function ActionsOf(c: Settings, ss: seq<State>, ops: seq<Op>, gid: Gid, category: Category, j: nat): set<Action>
    requires ValidSettings(c) && j <= |ops| < |ss|
  {
    set i | 0 <= i < j && FreshInto(c, ss[i], ops[i], gid) && ops[i].event.category == category ::
      Action(category, ops[i].event.actor, ops[i].event.target)
  }

  /** A category's stored identities and total against all actions seen. */
  ghost predicate Refines(g: Group, category: Category, seen: set<Action>) {
    && Stored(g, category) <= seen
    && |Stored(g, category)| == Total(g, category) <= MAX_ACTIONS_PER_CATEGORY
    && (Total(g, category) < MAX_ACTIONS_PER_CATEGORY ==> Stored(g, category) == seen)
    && (Bound(g, category) <==> Stored(g, category) != seen)
    && forall a :: a in seen ==> a.category == category
  }

  ghost predicate DigestCounted(c: Settings, s: State, gid: Gid, category: Category, seen: set<Action>) {
    && (gid in s.groups ==> Refines(s.groups[gid], category, seen))
    && (gid !in s.groups && Now(s) < DueAt(c, gid) ==> seen == {})
  }

  lemma CountsRefine(g: Group, h: Group, action: Action, category: Category, seen: set<Action>)
    requires Refines(g, category, seen) && action !in g.actions && Counts(g, h, action, category)
    ensures Refines(h, category, if action.category == category then seen + {action} else seen)
  {
    assert action !in Stored(g, category);
    if action.category == category && Total(g, category) == MAX_ACTIONS_PER_CATEGORY {
      assert Stored(h, category) == Stored(g, category);
    } else if action.category != category {
      assert Stored(h, category) == Stored(g, category);
    }
  }

  lemma FreshRefines(c: Settings, s: State, op: Op, gid: Gid, category: Category, seen: set<Action>)
    requires ValidSettings(c) && c.immediateLimit == 0 && FreshInto(c, s, op, gid)
    requires DigestCounted(c, s, gid, category, seen)
    ensures var action := Action(op.event.category, op.event.actor, op.event.target);
      DigestCounted(c, Next(c, s, op), gid, category, if action.category == category then seen + {action} else seen)
  {
    var e := op.event;
    var g := Opened(c, s, gid, op.current);
    var action := Action(e.category, e.actor, e.target);
    CurrentBucket(c, e, op.current, Now(s));
    assert Refines(g, category, seen) by {
      if gid !in s.groups { assert Stored(g, category) == {}; }
    }
    DigestAdds(c, s, e, op.current, category);
    hide Ingest, Refines, Counts, DueAt;
    if action in g.actions {
      if action.category == category { SeenAlready(g, category, seen, action); }
    } else {
      CountsRefine(g, Next(c, s, op).groups[gid], action, category, seen);
    }
  }

  lemma SeenAlready(g: Group, category: Category, seen: set<Action>, action: Action)
    requires Refines(g, category, seen) && action in g.actions && action.category == category
    ensures seen + {action} == seen
  {
    assert action in Stored(g, category);
  }

  lemma DigestStep(c: Settings, s: State, op: Op, gid: Gid, category: Category, seen: set<Action>)
    requires ValidSettings(c) && c.immediateLimit == 0 && Kept(c, s) && Enabled(s, op)
    requires !FreshInto(c, s, op, gid) && DigestCounted(c, s, gid, category, seen)
    ensures DigestCounted(c, Next(c, s, op), gid, category, seen)
  {
    OtherStep(c, s, op, gid);
    hide Next, DueAt, FreshInto;
    var t := Next(c, s, op);
    if gid in t.groups {
      assert t.groups[gid].actions == s.groups[gid].actions
        && Total(t.groups[gid], category) == Total(s.groups[gid], category)
        && Bound(t.groups[gid], category) == Bound(s.groups[gid], category);
      assert Stored(t.groups[gid], category) == Stored(s.groups[gid], category);
    }
  }

  lemma {:induction false} DigestRun(c: Settings, ss: seq<State>, ops: seq<Op>, gid: Gid, category: Category, j: nat)
    requires Run(c, ss, ops) && j <= |ops| && c.immediateLimit == 0
    ensures DigestCounted(c, ss[j], gid, category, ActionsOf(c, ss, ops, gid, category, j))
    decreases j
  {
    hide Next, FreshInto, DueAt, Enabled, Refines;
    if j == 0 {
      assert ActionsOf(c, ss, ops, gid, category, 0) == {};
    } else {
      DigestRun(c, ss, ops, gid, category, j - 1);
      RunKeeps(c, ss, ops, j - 1);
      StepOf(c, ss, ops, j - 1);
      var s, op := ss[j - 1], ops[j - 1];
      var seen := ActionsOf(c, ss, ops, gid, category, j - 1);
      if FreshInto(c, s, op, gid) {
        FreshRefines(c, s, op, gid, category, seen);
        FreshIsIngest(c, s, op, gid);
        var action := Action(op.event.category, op.event.actor, op.event.target);
        assert ActionsOf(c, ss, ops, gid, category, j) == if action.category == category then seen + {action} else seen;
      } else {
        DigestStep(c, s, op, gid, category, seen);
        assert ActionsOf(c, ss, ops, gid, category, j) == seen;
      }
    }
  }

  lemma FreshIsIngest(c: Settings, s: State, op: Op, gid: Gid)
    requires ValidSettings(c) && FreshInto(c, s, op, gid)
    ensures op.OpIngest?
  {
  }

  /** In every run each category of a live digest reads min(1024, distinct actions), its lower-bound
      flag is set exactly when more than 1024 were seen, and pending is likes plus reposts. */
  lemma DigestCountsActions(c: Settings, ss: seq<State>, ops: seq<Op>, gid: Gid, category: Category, j: nat)
    requires Run(c, ss, ops) && j <= |ops| && c.immediateLimit == 0 && gid in ss[j].groups
    ensures var seen := |ActionsOf(c, ss, ops, gid, category, j)|;
      && Total(ss[j].groups[gid], category) ==
         (if seen < MAX_ACTIONS_PER_CATEGORY then seen else MAX_ACTIONS_PER_CATEGORY)
      && (Bound(ss[j].groups[gid], category) <==> seen > MAX_ACTIONS_PER_CATEGORY)
    ensures gid.Digest? ==> ss[j].groups[gid].pending == ss[j].groups[gid].likes + ss[j].groups[gid].reposts
  {
    DigestRun(c, ss, ops, gid, category, j);
    RunKeeps(c, ss, ops, j);
    var seen := ActionsOf(c, ss, ops, gid, category, j);
    var stored := Stored(ss[j].groups[gid], category);
    hide Run, DueAt, ActionsOf;
    assert ViewKept(c, gid, ss[j].clock, ViewOf(ss[j], gid));
    CardinalityMonotone(stored, seen);
    if |stored| == |seen| {
      EqualCardinality(stored, seen);
    }
  }

  // ---------- The generation a group carries ----------

  lemma WritesKeepGeneration(c: Settings, s: State, e: Event, gid: Gid, g: Group)
    requires gid in s.groups ==> g == s.groups[gid]
    requires gid !in s.groups ==> g.actions == {}
    ensures var t := IngestDigest(c, s, e, gid, g).0; gid in t.groups && t.groups[gid].generation == g.generation
    ensures var t := SendNow(c, s, e, gid, g); gid in t.groups && t.groups[gid].generation == g.generation
    ensures var t := Buffer(c, s, e, gid, g); gid in t.groups && t.groups[gid].generation == g.generation
  {
    DigestKeepsGeneration(c, s, e, gid, g);
    BufferKeepsGeneration(c, s, e, gid, g);
    hide IngestDigest, Buffer;
  }

  lemma DigestKeepsGeneration(c: Settings, s: State, e: Event, gid: Gid, g: Group)
    requires gid in s.groups ==> g == s.groups[gid]
    requires gid !in s.groups ==> g.actions == {}
    ensures var t := IngestDigest(c, s, e, gid, g).0; gid in t.groups && t.groups[gid].generation == g.generation
  {
    var action := Action(e.category, e.actor, e.target);
    DigestEnqueues(c, s, e, gid, g);
    EnqueueStores(c, s, e, gid, Counted(g, action));
    hide Enqueue, IngestDigest;
  }

  lemma BufferKeepsGeneration(c: Settings, s: State, e: Event, gid: Gid, g: Group)
    ensures var t := Buffer(c, s, e, gid, g); gid in t.groups && t.groups[gid].generation == g.generation
  {
    var known := if gid in s.actors then s.actors[gid].members else {};
    var t := s.(actors := s.actors[gid := Actors(known + {e.actor}, Deadline(s.clock, PhysicalTtl(c)))]);
    EnqueueStores(c, t, e, gid, g.(pending := g.pending + 1, firstActor := Some(g.firstActor.GetOr(e.actor))));
    hide Enqueue;
  }

  /** A fresh ingest gives a new group its own generation and leaves an existing one's. */
  lemma FreshGeneration(c: Settings, s: State, op: Op, gid: Gid)
    requires ValidSettings(c) && FreshInto(c, s, op, gid)
    ensures gid in Next(c, s, op).groups
    ensures Next(c, s, op).groups[gid].generation == if gid in s.groups then s.groups[gid].generation else op.current
  {
    var m, sent := FreshWrites(c, s, op, gid);
    WritesKeepGeneration(c, m, op.event, gid, Opened(c, s, gid, op.current));
    hide Next, IngestDigest, Buffer, SendNow, DueAt, FreshInto;
  }

  /** A group carries, as long as it exists, the generation the ingest that created it had read. */
  lemma {:induction false} CreatedBy(c: Settings, ss: seq<State>, ops: seq<Op>, gid: Gid, j: nat) returns (i: nat)
    requires Run(c, ss, ops) && j < |ss| && gid in ss[j].groups
    ensures i < j && FreshInto(c, ss[i], ops[i], gid) && gid !in ss[i].groups
    ensures ops[i].OpIngest? && ss[j].groups[gid].generation == ops[i].current
    decreases j
  {
    StepOf(c, ss, ops, j - 1);
    var s, op := ss[j - 1], ops[j - 1];
    if gid !in s.groups {
      CreatedOnlyBeforeDue(c, s, op, gid);
      FreshGeneration(c, s, op, gid);
      i := j - 1;
    } else {
      i := CreatedBy(c, ss, ops, gid, j - 1);
      if FreshInto(c, s, op, gid) {
        FreshGeneration(c, s, op, gid);
      } else {
        RunKeeps(c, ss, ops, j - 1);
        OtherStep(c, s, op, gid);
      }
      hide Next, FreshInto, DueAt;
    }
  }

  ghost predicate CarriesGeneration(s: State, gid: Gid) {
    gid.Digest? && gid in s.groups ==> s.groups[gid].generation == gid.generation
  }

  /** In every run a digest carries the generation of the visit period its id names, so a flush
      presents exactly that generation to the budget. */
  lemma DigestGeneration(c: Settings, ss: seq<State>, ops: seq<Op>, gid: Gid, j: nat)
    requires Run(c, ss, ops) && j < |ss|
    ensures CarriesGeneration(ss[j], gid)
  {
    if gid.Digest? && gid in ss[j].groups {
      var i := CreatedBy(c, ss, ops, gid, j);
    }
  }

  /** A group seen at two points of a run was created before the first. */
  lemma CreatedBefore(c: Settings, ss: seq<State>, ops: seq<Op>, gid: Gid, m: nat, n: nat) returns (i: nat)
    requires Run(c, ss, ops) && m <= n < |ss| && gid in ss[m].groups && gid in ss[n].groups
    ensures i < m && ops[i].OpIngest? && ss[n].groups[gid].generation == ops[i].current
  {
    i := CreatedBy(c, ss, ops, gid, n);
    if i >= m {
      var k := Leaves(ss, m, i, gid);
      RemovedAfterDue(c, ss, ops, k, gid);
      GoneStaysGone(c, ss, ops, k + 1, n, gid);
    }
  }

  // ---------- The lifetime a group gets ----------

  lemma WritesKeepLifetime(c: Settings, s: State, e: Event, gid: Gid, g: Group)
    requires gid in s.groups ==> g == s.groups[gid]
    requires gid !in s.groups ==> g.actions == {}
    ensures var t := IngestDigest(c, s, e, gid, g).0; gid in t.groups && t.groups[gid].expiresAt == g.expiresAt
    ensures var t := SendNow(c, s, e, gid, g); gid in t.groups && t.groups[gid].expiresAt == g.expiresAt
    ensures var t := Buffer(c, s, e, gid, g); gid in t.groups && t.groups[gid].expiresAt == g.expiresAt
  {
    var known := if gid in s.actors then s.actors[gid].members else {};
    var t := s.(actors := s.actors[gid := Actors(known + {e.actor}, Deadline(s.clock, PhysicalTtl(c)))]);
    EnqueueStores(c, t, e, gid, g.(pending := g.pending + 1, firstActor := Some(g.firstActor.GetOr(e.actor))));
    DigestEnqueues(c, s, e, gid, g);
    EnqueueStores(c, s, e, gid, Counted(g, Action(e.category, e.actor, e.target)));
    hide Enqueue, IngestDigest;
  }

  lemma FreshLifetime(c: Settings, s: State, op: Op, gid: Gid)
    requires ValidSettings(c) && FreshInto(c, s, op, gid)
    ensures gid in Next(c, s, op).groups
    ensures Next(c, s, op).groups[gid].expiresAt ==
      if gid in s.groups then s.groups[gid].expiresAt else Now(s) + c.groupTtl
  {
    var m, sent := FreshWrites(c, s, op, gid);
    WritesKeepLifetime(c, m, op.event, gid, Opened(c, s, gid, op.current));
    hide Next, IngestDigest, Buffer, SendNow, DueAt, FreshInto;
  }

  /** A group lives, in every run, for the configured lifetime from the ingest that created it. */
  lemma {:induction false} LivesFromCreation(c: Settings, ss: seq<State>, ops: seq<Op>, gid: Gid, j: nat)
    returns (i: nat)
    requires Run(c, ss, ops) && j < |ss| && gid in ss[j].groups
    ensures i < j && FreshInto(c, ss[i], ops[i], gid) && gid !in ss[i].groups
    ensures ss[j].groups[gid].expiresAt == Now(ss[i]) + c.groupTtl
    decreases j
  {
    StepOf(c, ss, ops, j - 1);
    var s, op := ss[j - 1], ops[j - 1];
    if gid !in s.groups {
      CreatedOnlyBeforeDue(c, s, op, gid);
      FreshLifetime(c, s, op, gid);
      i := j - 1;
    } else {
      i := LivesFromCreation(c, ss, ops, gid, j - 1);
      if FreshInto(c, s, op, gid) {
        FreshLifetime(c, s, op, gid);
      } else {
        RunKeeps(c, ss, ops, j - 1);
        OtherStep(c, s, op, gid);
      }
      hide Next, FreshInto, DueAt;
    }
  }

  // ---------- Requeues are finitely many ----------

  /** The step returns the group to the due queue for `delay` seconds. */
  ghost predicate Requeues(s: State, op: Op, gid: Gid) {
    op.OpComplete? && op.gid == gid && Complete(s, gid, op.token, op.requeueAfter).1 == Requeued
  }

  /** Until second `until` the group, if it still exists, waits unowned in the due queue. */
  ghost predicate Waits(s: State, gid: Gid, until: nat) {
    || (gid in s.groups ==> s.groups[gid].lease.None? && gid in s.due && s.due[gid] >= until && gid !in s.leases)
    || Now(s) >= until
  }

  lemma WaitStep(c: Settings, s: State, op: Op, gid: Gid, until: nat)
    requires ValidSettings(c) && Kept(c, s) && Enabled(s, op)
    requires DueAt(c, gid) <= Now(s) && Waits(s, gid, until)
    ensures Waits(Next(c, s, op), gid, until)
  {
    NextClock(c, s, op);
    var t := Next(c, s, op);
    if Now(s) < until && gid in t.groups {
      if gid !in s.groups {
        CreatedOnlyBeforeDue(c, s, op, gid);
      } else {
        match op
        case OpTick(ms) =>
        case OpIngest(e, current, expected) =>
          if Fresh(s, op) {
            CurrentBucket(c, e, current, Now(s));
            IngestFrame(c, s, e, current);
            hide Ingest, DueAt;
            assert ViewOf(t, gid) == ViewOf(s, gid);
          }
        case OpClaim(token, expired, candidates) => NotYetDue(c, s, op, gid);
        case OpComplete(g, token, requeueAfter) => hide DueAt;
        case OpLimiter(owner, lop) => hide Limiter.Next, DueAt;
      }
    }
  }

  lemma NotYetDue(c: Settings, s: State, op: Op, gid: Gid)
    requires ValidSettings(c) && Kept(c, s) && op.OpClaim? && Enabled(s, op)
    requires gid !in s.leases && gid in s.due && s.due[gid] > Now(s)
    ensures ViewOf(Next(c, s, op), gid) == ViewOf(s, gid)
  {
    var r := Recover(s, op.expired);
    RecoverKeeps(c, s, op.expired);
    assert ViewOf(r, gid) == ViewOf(s, gid);
    hide Recover, DueAt;
    TakeKeeps(c, r, op.candidates, op.token);
  }

  lemma {:induction false} WaitsOn(c: Settings, ss: seq<State>, ops: seq<Op>, i: nat, j: nat, gid: Gid)
    requires Run(c, ss, ops) && i < j < |ss| && Requeues(ss[i], ops[i], gid)
    ensures Waits(ss[j], gid, Now(ss[i]) + ops[i].requeueAfter.value)
    ensures DueAt(c, gid) <= Now(ss[i])
    decreases j
  {
    RunKeeps(c, ss, ops, i);
    StepOf(c, ss, ops, i);
    assert ViewKept(c, gid, ss[i].clock, ViewOf(ss[i], gid));
    if j > i + 1 {
      hide DueAt, Enabled, Requeues, Waits;
      WaitsOn(c, ss, ops, i, j - 1, gid);
      ClockNeverFalls(c, ss, ops, i, j - 1);
      RunKeeps(c, ss, ops, j - 1);
      StepOf(c, ss, ops, j - 1);
      WaitStep(c, ss[j - 1], ops[j - 1], gid, Now(ss[i]) + ops[i].requeueAfter.value);
    }
  }

  /** Two requeues of one group are at least the first one's delay apart, whatever claims, lease
      recoveries and late completions come between. */
  lemma RequeuesApart(c: Settings, ss: seq<State>, ops: seq<Op>, i: nat, j: nat, gid: Gid)
    requires Run(c, ss, ops) && i < j < |ops|
    requires Requeues(ss[i], ops[i], gid) && Requeues(ss[j], ops[j], gid)
    ensures Now(ss[j]) >= Now(ss[i]) + ops[i].requeueAfter.value
  {
    WaitsOn(c, ss, ops, i, j, gid);
  }

  /** A requeue happens between the bucket deadline and the logical lifetime. */
  lemma RequeueInLifetime(c: Settings, ss: seq<State>, ops: seq<Op>, i: nat, gid: Gid)
    requires Run(c, ss, ops) && i < |ops| && Requeues(ss[i], ops[i], gid)
    ensures DueAt(c, gid) <= Now(ss[i])
    ensures Now(ss[i]) + ops[i].requeueAfter.value < ss[i].groups[gid].expiresAt < DueAt(c, gid) + c.groupTtl
  {
    RunKeeps(c, ss, ops, i);
    assert ViewKept(c, gid, ss[i].clock, ViewOf(ss[i], gid));
  }

  ghost function RequeueTimes(ss: seq<State>, ops: seq<Op>, gid: Gid, j: nat): seq<nat>
    requires j <= |ops| < |ss|
  {
    if j == 0 then []
    else RequeueTimes(ss, ops, gid, j - 1) + (if Requeues(ss[j - 1], ops[j - 1], gid) then [Now(ss[j - 1])] else [])
  }

  lemma {:induction false} RequeueSeries(c: Settings, ss: seq<State>, ops: seq<Op>, gid: Gid, j: nat)
      returns (last: nat)
    requires Run(c, ss, ops) && j <= |ops|
    requires forall i :: 0 <= i < |ops| && ops[i].OpComplete? && ops[i].requeueAfter.Some? ==>
      ops[i].requeueAfter.value >= 1
    ensures RequeueTimes(ss, ops, gid, j) != [] ==>
      && last < j && Requeues(ss[last], ops[last], gid)
      && |RequeueTimes(ss, ops, gid, j)| <= Now(ss[last]) - DueAt(c, gid) + 1
    decreases j
  {
    last := 0;
    if j > 0 {
      hide Next, DueAt, Enabled, Requeues;
      last := RequeueSeries(c, ss, ops, gid, j - 1);
      if Requeues(ss[j - 1], ops[j - 1], gid) {
        RequeueInLifetime(c, ss, ops, j - 1, gid);
        if RequeueTimes(ss, ops, gid, j - 1) != [] {
          RequeuesApart(c, ss, ops, last, j - 1, gid);
          RequeueHasDelay(ss[last], ops[last], gid);
        }
        last := j - 1;
      }
    }
  }

  lemma RequeueHasDelay(s: State, op: Op, gid: Gid)
    requires Requeues(s, op, gid)
    ensures op.OpComplete? && op.requeueAfter.Some?
  {
  }

  /** When every requeue waits at least a second, one group is requeued fewer times than its
      logical lifetime has seconds. */
  lemma RequeuesBounded(c: Settings, ss: seq<State>, ops: seq<Op>, gid: Gid)
    requires Run(c, ss, ops)
    requires forall i :: 0 <= i < |ops| && ops[i].OpComplete? && ops[i].requeueAfter.Some? ==>
      ops[i].requeueAfter.value >= 1
    ensures |RequeueTimes(ss, ops, gid, |ops|)| < c.groupTtl
  {
    var last := RequeueSeries(c, ss, ops, gid, |ops|);
    if RequeueTimes(ss, ops, gid, |ops|) != [] {
      RequeueInLifetime(c, ss, ops, last, gid);
    }
  }

  // ---------- The oldest due group is claimed ----------

  /** The i-th candidate is the group, and the first that still exists. */
  ghost predicate FirstLive(s: State, candidates: seq<Gid>, i: int, gid: Gid) {
    && 0 <= i < |candidates| && candidates[i] == gid && gid in s.groups
    && forall k :: 0 <= k < i ==> candidates[k] !in s.groups
  }

  lemma {:induction false} TakeFirst(c: Settings, s: State, candidates: seq<Gid>, token: string)
    ensures var claimed := Take(c, s, candidates, token).1;
      && (claimed.None? <==> forall i :: 0 <= i < |candidates| ==> candidates[i] !in s.groups)
      && (claimed.Some? ==> exists i :: FirstLive(s, candidates, i, claimed.value))
    decreases |candidates|
  {
    if candidates != [] && candidates[0] in s.groups {
      assert FirstLive(s, candidates, 0, candidates[0]);
    } else if candidates != [] {
      var t := s.(due := s.due - {candidates[0]});
      TakeFirst(c, t, candidates[1..], token);
      var claimed := Take(c, t, candidates[1..], token).1;
      assert forall i :: 1 <= i < |candidates| ==> candidates[i] == candidates[1..][i - 1];
      if claimed.Some? {
        var i :| FirstLive(t, candidates[1..], i, claimed.value);
        assert FirstLive(s, candidates, i + 1, claimed.value);
      }
    }
  }

  /** A claim hands out a live group with the least due score of all, and comes back empty only
      when no live group is due or the skips were used up on dangling members. */
  lemma ClaimsOldest(c: Settings, s: State, op: Op)
    requires ValidSettings(c) && op.OpClaim? && Enabled(s, op)
    ensures var r := Recover(s, op.expired);
      var claimed := Claim(c, s, op.token, op.expired, op.candidates).1;
      && (claimed.Some? ==>
            && claimed.value in r.due && claimed.value in r.groups && r.due[claimed.value] <= Now(s)
            && forall gid :: gid in r.due && gid in r.groups ==> r.due[claimed.value] <= r.due[gid])
      && (claimed.None? ==>
            || (forall gid :: gid in r.due && gid in r.groups ==> r.due[gid] > Now(s))
            || (|op.candidates| == MAX_DANGLING_SKIPS
                && forall i :: 0 <= i < MAX_DANGLING_SKIPS ==> op.candidates[i] !in r.groups))
  {
    var r := Recover(s, op.expired);
    RecoverClock(s, op.expired);
    TakeFirst(c, r, op.candidates, op.token);
    hide Recover, Take;
    var claimed := Claim(c, s, op.token, op.expired, op.candidates).1;
    if claimed.Some? {
      var i :| FirstLive(r, op.candidates, i, claimed.value);
      forall gid | gid in r.due && gid in r.groups ensures r.due[claimed.value] <= r.due[gid] {
        if gid in op.candidates {
          var k :| 0 <= k < |op.candidates| && op.candidates[k] == gid;
        }
      }
    }
  }
}
