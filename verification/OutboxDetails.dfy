/** What a group says of the events that wait in it: who acted, who was first, which event was first and
    how recent the last one is (src/coalesce.rs). */
module OutboxDetails {
  import opened Redis
  import Limiter
  import opened Outbox
  import opened OutboxInvariants
  import opened OutboxRuns
  import opened OutboxContents
  import opened OutboxCounts
  import opened OutboxSnapshots

  /** The step adds its event to the group's waiting ones: it is not sent at once, and a digest does not
      count its action already. */
  ghost predicate Queues(c: Settings, s: State, op: Op, gid: Gid)
    requires ValidSettings(c)
  {
    && FreshInto(c, s, op, gid)
    && Ingest(c, s, op.event, op.current, op.expected).1.Buffered?
    && (gid.Digest? && gid in s.groups ==>
          Action(op.event.category, op.event.actor, op.event.target) !in s.groups[gid].actions)
  }

  /** The events waiting in the group after the first `j` steps, in order of arrival. */
  ghost function Waiting(c: Settings, ss: seq<State>, ops: seq<Op>, gid: Gid, j: nat): seq<Event>
    requires ValidSettings(c) && j <= |ops| < |ss|
  {
    if j == 0 then []
    else Waiting(c, ss, ops, gid, j - 1) + (if Queues(c, ss[j - 1], ops[j - 1], gid) then [ops[j - 1].event] else [])
  }

  function Actors(q: seq<Event>): set<string> { set e | e in q :: e.actor }

  /** Nothing is as recent as zero, and otherwise the most recent event. */
  ghost predicate IsMostRecent(q: seq<Event>, at: nat) {
    && (forall e :: e in q ==> e.createdAt <= at)
    && (at != 0 ==> exists e :: e in q && e.createdAt == at)
  }

  /** The group's hash and actor key against the events that wait in it. */
  ghost predicate Summarises(c: Settings, s: State, gid: Gid, q: seq<Event>) {
    && (gid in s.groups ==> Describes(s.groups[gid], gid, q))
    && (gid in s.actors ==> gid.Legacy? && s.actors[gid].members == Actors(q))
    && (gid !in s.groups && Now(s) < DueAt(c, gid) ==> q == [])
  }

  ghost predicate Describes(g: Group, gid: Gid, q: seq<Event>) {
    && g.firstEvent == (if q == [] then None else Some(q[0].id))
    && g.firstActor == (if q == [] || gid.Digest? then None else Some(q[0].actor))
    && IsMostRecent(q, g.lastAt)
    && (gid.Legacy? ==> g.pending == |q|)
  }

  // ---------- What each ingest writes ----------

  lemma EnqueueDescribes(c: Settings, s: State, e: Event, gid: Gid, g: Group, q: seq<Event>)
    requires g.firstEvent == (if q == [] then None else Some(q[0].id)) && IsMostRecent(q, g.lastAt)
    ensures var t := Enqueue(c, s, e, gid, g);
      && gid in t.groups
      && t.groups[gid].firstEvent == Some((q + [e])[0].id)
      && t.groups[gid].firstActor == g.firstActor
      && IsMostRecent(q + [e], t.groups[gid].lastAt)
      && t.groups[gid].pending == g.pending
      && t.actors == s.actors
  {
    hide DueAt;
    var at := Enqueue(c, s, e, gid, g).groups[gid].lastAt;
    assert e in q + [e];
    if at != 0 && at == g.lastAt {
      var was :| was in q && was.createdAt == at;
      assert was in q + [e];
    }
  }

  lemma ActorsStep(q: seq<Event>, e: Event)
    ensures Actors(q + [e]) == Actors(q) + {e.actor}
  {
    assert forall x :: x in q + [e] <==> x in q || x == e;
  }

  lemma BufferDescribes(c: Settings, s: State, e: Event, gid: Gid, g: Group, q: seq<Event>)
    requires gid.Legacy? && Describes(g, gid, q)
    requires Actors(q) == if gid in s.actors then s.actors[gid].members else {}
    ensures var t := Buffer(c, s, e, gid, g);
      && gid in t.groups && Describes(t.groups[gid], gid, q + [e])
      && gid in t.actors && t.actors[gid].members == Actors(q + [e])
  {
    var known := if gid in s.actors then s.actors[gid].members else {};
    var t := s.(actors := s.actors[gid := Outbox.Actors(known + {e.actor}, Deadline(s.clock, PhysicalTtl(c)))]);
    ActorsStep(q, e);
    EnqueueDescribes(c, t, e, gid, g.(pending := g.pending + 1, firstActor := Some(g.firstActor.GetOr(e.actor))), q);
    hide Enqueue, IsMostRecent, Actors;
  }

  lemma SendNowDescribes(c: Settings, s: State, e: Event, gid: Gid, g: Group, q: seq<Event>)
    requires Describes(g, gid, q)
    ensures var t := SendNow(c, s, e, gid, g);
      gid in t.groups && Describes(t.groups[gid], gid, q) && t.actors == s.actors
  {
    hide IsMostRecent;
  }

  lemma DigestDescribes(c: Settings, s: State, e: Event, gid: Gid, g: Group, q: seq<Event>)
    requires gid.Digest? && Describes(g, gid, q)
    requires gid in s.groups ==> g == s.groups[gid]
    requires gid !in s.groups ==> g.actions == {}
    ensures var t := IngestDigest(c, s, e, gid, g).0;
      && gid in t.groups && t.actors == s.actors
      && Describes(t.groups[gid], gid,
                   if Action(e.category, e.actor, e.target) in g.actions then q else q + [e])
  {
    var action := Action(e.category, e.actor, e.target);
    DigestEnqueues(c, s, e, gid, g);
    CountedKeeps(g, action);
    hide IngestDigest, Counted, IsMostRecent;
    if action !in g.actions {
      EnqueueDescribes(c, s, e, gid, Counted(g, action), q);
      hide Enqueue;
    } else {
      assert gid in s.groups;
    }
  }

  lemma CountedKeeps(g: Group, action: Action)
    ensures var h := Counted(g, action);
      h.firstEvent == g.firstEvent && h.firstActor == g.firstActor && h.lastAt == g.lastAt
  {
  }

  // ---------- In every run ----------

  lemma FreshSummarises(c: Settings, s: State, op: Op, gid: Gid, q: seq<Event>)
    requires ValidSettings(c) && FreshInto(c, s, op, gid) && Summarises(c, s, gid, q)
    requires ActorsFollow(c, s, gid)
      && (gid.Legacy? && gid in s.groups && s.groups[gid].pending > 0 ==> gid in s.actors)
    ensures Summarises(c, Next(c, s, op), gid, if Queues(c, s, op, gid) then q + [op.event] else q)
  {
    var g := Opened(c, s, gid, op.current);
    CurrentBucket(c, op.event, op.current, Now(s));
    assert Describes(g, gid, q);
    var m, sent := FreshWrites(c, s, op, gid);
    hide IngestDigest, Buffer, SendNow, DueAt, Next, Ingest, FreshInto, Describes;
    if gid.Digest? {
      DigestDescribes(c, m, op.event, gid, g, q);
    } else if sent {
      SendNowDescribes(c, m, op.event, gid, g, q);
    } else {
      assert Actors(q) == if gid in s.actors then s.actors[gid].members else {};
      BufferDescribes(c, m, op.event, gid, g, q);
    }
  }

  lemma OtherSummarises(c: Settings, s: State, op: Op, gid: Gid, q: seq<Event>)
    requires ValidSettings(c) && Kept(c, s) && Enabled(s, op) && !FreshInto(c, s, op, gid)
    requires Summarises(c, s, gid, q) && ActorsFollow(c, Next(c, s, op), gid)
    ensures Summarises(c, Next(c, s, op), gid, q)
  {
    OtherStep(c, s, op, gid);
    if gid in Next(c, s, op).actors {
      if op.OpTick? { TickContent(s, op.ms, gid); } else { ContentStep(c, s, op, gid); }
    }
    hide Next, FreshInto, DueAt, IsMostRecent, Actors;
  }

  lemma StepSummarises(c: Settings, s: State, op: Op, gid: Gid, q: seq<Event>)
    requires ValidSettings(c) && Kept(c, s) && Enabled(s, op) && Summarises(c, s, gid, q)
    requires ActorsKept(c, s, gid) && ActorsFollow(c, s, gid) && ActorsFollow(c, Next(c, s, op), gid)
    ensures Summarises(c, Next(c, s, op), gid, if Queues(c, s, op, gid) then q + [op.event] else q)
  {
    hide Next, Enabled, Summarises, ActorsFollow, Ingest, FreshInto, Kept, ActorsKept;
    if FreshInto(c, s, op, gid) {
      WorkIsCounted(c, s, op, gid);
      FreshSummarises(c, s, op, gid, q);
    } else {
      OtherSummarises(c, s, op, gid, q);
    }
  }

  lemma {:induction false} RunSummarises(c: Settings, ss: seq<State>, ops: seq<Op>, gid: Gid, j: nat)
    requires Run(c, ss, ops) && j <= |ops|
    ensures Summarises(c, ss[j], gid, Waiting(c, ss, ops, gid, j))
    decreases j
  {
    if j > 0 {
      hide Next, Enabled, Kept, Summarises, ActorsFollow, ActorsKept, Queues;
      RunSummarises(c, ss, ops, gid, j - 1);
      RunKeeps(c, ss, ops, j - 1);
      StepOf(c, ss, ops, j - 1);
      ActorsFollowHash(c, ss, ops, j - 1, gid);
      ActorsFollowHash(c, ss, ops, j, gid);
      ActorsOutliveWork(c, ss, ops, j - 1, gid);
      StepSummarises(c, ss[j - 1], ops[j - 1], gid, Waiting(c, ss, ops, gid, j - 1));
      WaitingStep(c, ss, ops, gid, j);
      hide Run, Waiting;
    }
  }

  lemma WaitingStep(c: Settings, ss: seq<State>, ops: seq<Op>, gid: Gid, j: nat)
    requires ValidSettings(c) && 0 < j <= |ops| < |ss|
    ensures var q := Waiting(c, ss, ops, gid, j - 1);
      Waiting(c, ss, ops, gid, j) == if Queues(c, ss[j - 1], ops[j - 1], gid) then q + [ops[j - 1].event] else q
  {
    hide Queues;
  }

  /** While its bucket is open a legacy group with pending work has its actor key. */
  lemma WorkIsCounted(c: Settings, s: State, op: Op, gid: Gid)
    requires ValidSettings(c) && Kept(c, s) && FreshInto(c, s, op, gid) && ActorsKept(c, s, gid)
    ensures gid.Legacy? && gid in s.groups && s.groups[gid].pending > 0 ==> gid in s.actors
  {
    CurrentBucket(c, op.event, op.current, Now(s));
    assert ViewKept(c, gid, s.clock, ViewOf(s, gid));
    hide DueAt;
  }

  /** In every run a group names the first event that waits in it and, when legacy, its actor; it is as
      recent as the most recent of them; a legacy group's pending count is their number and its
      actor count, up to the end of its lifetime and grace, the number of their distinct actors. */
  lemma GroupSummarises(c: Settings, ss: seq<State>, ops: seq<Op>, gid: Gid, j: nat)
    requires Run(c, ss, ops) && j <= |ops| && gid in ss[j].groups
    ensures var q := Waiting(c, ss, ops, gid, j);
      && Describes(ss[j].groups[gid], gid, q)
      && (gid in ss[j].actors ==> ss[j].actors[gid].members == Actors(q))
      && (gid.Legacy? && ss[j].clock <= LifeEnd(c, ss[j].groups[gid]) ==> ActorCount(ss[j], gid) == |Actors(q)|)
  {
    RunSummarises(c, ss, ops, gid, j);
    ActorsOutliveWork(c, ss, ops, j, gid);
    ActorsFollowHash(c, ss, ops, j, gid);
    hide Run, Waiting, IsMostRecent;
    var q := Waiting(c, ss, ops, gid, j);
    assert q == [] ==> Actors(q) == {};
  }

  // ---------- How long the keys are kept ----------

  /** The step writes the group's hash: it queues its event or sends it at once. */
  ghost predicate Renews(c: Settings, s: State, op: Op, gid: Gid)
    requires ValidSettings(c)
  {
    Queues(c, s, op, gid) || (FreshInto(c, s, op, gid) && Ingest(c, s, op.event, op.current, op.expected).1.Immediate?)
  }

  /** How long the hash is to be kept: from each write for the lifetime and grace while anything waits in
      the group, and otherwise just past its bucket. */
  ghost function HashUntil(c: Settings, ss: seq<State>, ops: seq<Op>, gid: Gid, j: nat): int
    requires ValidSettings(c) && j <= |ops| < |ss|
  {
    if j == 0 then 0
    else if Renews(c, ss[j - 1], ops[j - 1], gid) then
      Deadline(ss[j - 1].clock,
               if Waiting(c, ss, ops, gid, j) == [] then c.window + c.grace else c.groupTtl + c.grace)
    else HashUntil(c, ss, ops, gid, j - 1)
  }

  /** And the actor key: from each event that queues. */
  ghost function ActorsUntil(c: Settings, ss: seq<State>, ops: seq<Op>, gid: Gid, j: nat): int
    requires ValidSettings(c) && j <= |ops| < |ss|
  {
    if j == 0 then 0
    else if Queues(c, ss[j - 1], ops[j - 1], gid) then Deadline(ss[j - 1].clock, c.groupTtl + c.grace)
    else ActorsUntil(c, ss, ops, gid, j - 1)
  }

  ghost predicate KeptUntil(s: State, gid: Gid, hash: int, counted: int) {
    && (gid in s.groups ==> s.groups[gid].deadline == hash)
    && (gid in s.actors ==> s.actors[gid].deadline == counted)
  }

  lemma EnqueueKeepsUntil(c: Settings, s: State, e: Event, gid: Gid, g: Group)
    ensures var t := Enqueue(c, s, e, gid, g);
      && gid in t.groups && t.groups[gid].deadline == Deadline(s.clock, c.groupTtl + c.grace)
      && t.actors == s.actors
  {
    hide DueAt;
  }

  lemma WritesKeepUntil(c: Settings, s: State, e: Event, gid: Gid, g: Group)
    requires gid in s.groups ==> g == s.groups[gid]
    requires gid !in s.groups ==> g.actions == {}
    ensures var t := IngestDigest(c, s, e, gid, g).0;
      && gid in t.groups && t.actors == s.actors
      && (if Action(e.category, e.actor, e.target) in g.actions then t.groups == s.groups
          else t.groups[gid].deadline == Deadline(s.clock, c.groupTtl + c.grace))
    ensures var t := SendNow(c, s, e, gid, g);
      && gid in t.groups && t.actors == s.actors
      && (g.pending > 0 ==> t.groups[gid].deadline == Deadline(s.clock, c.groupTtl + c.grace))
      && (g.pending == 0 && c.immediateLimit > 0 ==> t.groups[gid].deadline == Deadline(s.clock, c.window + c.grace))
    ensures var t := Buffer(c, s, e, gid, g);
      && gid in t.groups && t.groups[gid].deadline == Deadline(s.clock, c.groupTtl + c.grace)
      && gid in t.actors && t.actors[gid].deadline == Deadline(s.clock, c.groupTtl + c.grace)
  {
    var known := if gid in s.actors then s.actors[gid].members else {};
    var t := s.(actors := s.actors[gid := Outbox.Actors(known + {e.actor}, Deadline(s.clock, PhysicalTtl(c)))]);
    EnqueueKeepsUntil(c, t, e, gid, g.(pending := g.pending + 1, firstActor := Some(g.firstActor.GetOr(e.actor))));
    DigestEnqueues(c, s, e, gid, g);
    EnqueueKeepsUntil(c, s, e, gid, Counted(g, Action(e.category, e.actor, e.target)));
    hide Enqueue, IngestDigest, Counted;
  }

  lemma FreshKeptUntil(c: Settings, s: State, op: Op, gid: Gid, q: seq<Event>, hash: int, counted: int)
    requires ValidSettings(c) && FreshInto(c, s, op, gid) && KeptUntil(s, gid, hash, counted)
    requires Summarises(c, s, gid, q) && (gid.Digest? ==> gid !in s.actors)
    ensures var t := Next(c, s, op);
      var until := Deadline(s.clock, c.groupTtl + c.grace);
      KeptUntil(t, gid,
        if !Renews(c, s, op, gid) then hash
        else if q == [] && !Queues(c, s, op, gid) then Deadline(s.clock, c.window + c.grace) else until,
        if Queues(c, s, op, gid) then until else counted)
  {
    hide IngestDigest, Buffer, SendNow, DueAt, Next, Ingest, FreshInto, Queues, Renews, Summarises, Opened;
    var g, m, sent := FreshDetails(c, s, op, gid, q);
    WritesKeepUntil(c, m, op.event, gid, g);
  }

  /** What a fresh ingest writes and whether it queues or sends, in one place. */
  lemma FreshDetails(c: Settings, s: State, op: Op, gid: Gid, q: seq<Event>) returns (g: Group, m: State, sent: bool)
    requires ValidSettings(c) && FreshInto(c, s, op, gid) && Summarises(c, s, gid, q)
    ensures op.OpIngest? && m == s.(limiters := m.limiters)
    ensures gid in s.groups ==> g == s.groups[gid]
    ensures gid !in s.groups ==> g.actions == {}
    ensures gid.Legacy? ==> g.pending == |q|
    ensures Next(c, s, op) ==
      if gid.Digest? then IngestDigest(c, m, op.event, gid, g).0
      else if sent then SendNow(c, m, op.event, gid, g)
      else Buffer(c, m, op.event, gid, g)
    ensures var counted := Action(op.event.category, op.event.actor, op.event.target) in g.actions;
      && (Queues(c, s, op, gid) <==> !sent && (gid.Digest? ==> !counted))
      && (Renews(c, s, op, gid) <==> sent || Queues(c, s, op, gid))
    ensures sent ==> gid.Legacy?
    ensures gid.Legacy? <==> c.immediateLimit > 0
  {
    g := Opened(c, s, gid, op.current);
    CurrentBucket(c, op.event, op.current, Now(s));
    assert gid.Legacy? ==> g.pending == |q|;
    m, sent := FreshWrites(c, s, op, gid);
    hide IngestDigest, Buffer, SendNow, DueAt, Next, Ingest, FreshInto, Describes, Summarises;
  }

  lemma OtherKeptUntil(c: Settings, s: State, op: Op, gid: Gid, hash: int, counted: int)
    requires ValidSettings(c) && Kept(c, s) && Enabled(s, op) && !FreshInto(c, s, op, gid)
    requires KeptUntil(s, gid, hash, counted) && ActorsFollow(c, Next(c, s, op), gid)
    ensures KeptUntil(Next(c, s, op), gid, hash, counted)
  {
    OtherStep(c, s, op, gid);
    if gid in Next(c, s, op).actors {
      if op.OpTick? { TickContent(s, op.ms, gid); } else { ContentStep(c, s, op, gid); }
    }
    hide Next, FreshInto, DueAt;
  }

  lemma StepKeptUntil(c: Settings, s: State, op: Op, gid: Gid, q: seq<Event>, hash: int, counted: int)
    requires ValidSettings(c) && Kept(c, s) && Enabled(s, op) && KeptUntil(s, gid, hash, counted)
    requires Summarises(c, s, gid, q) && (gid.Digest? ==> gid !in s.actors) && ActorsFollow(c, Next(c, s, op), gid)
    ensures var until := Deadline(s.clock, c.groupTtl + c.grace);
      KeptUntil(Next(c, s, op), gid,
        if !Renews(c, s, op, gid) then hash
        else if q == [] && !Queues(c, s, op, gid) then Deadline(s.clock, c.window + c.grace) else until,
        if Queues(c, s, op, gid) then until else counted)
  {
    hide Next, Enabled, Kept, Summarises, ActorsFollow, Queues, KeptUntil, Renews, FreshInto;
    if FreshInto(c, s, op, gid) {
      FreshKeptUntil(c, s, op, gid, q, hash, counted);
    } else {
      NothingWritten(c, s, op, gid);
      OtherKeptUntil(c, s, op, gid, hash, counted);
    }
  }

  lemma UntilStep(c: Settings, ss: seq<State>, ops: seq<Op>, gid: Gid, j: nat)
    requires ValidSettings(c) && 0 < j <= |ops| < |ss|
    ensures var s, op, q := ss[j - 1], ops[j - 1], Waiting(c, ss, ops, gid, j - 1);
      var until := Deadline(s.clock, c.groupTtl + c.grace);
      && HashUntil(c, ss, ops, gid, j) ==
         (if !Renews(c, s, op, gid) then HashUntil(c, ss, ops, gid, j - 1)
          else if q == [] && !Queues(c, s, op, gid) then Deadline(s.clock, c.window + c.grace) else until)
      && ActorsUntil(c, ss, ops, gid, j) ==
         (if Queues(c, s, op, gid) then until else ActorsUntil(c, ss, ops, gid, j - 1))
  {
    hide Renews, Queues;
  }

  /** In every run a group's hash and actor key have the deadlines their last writes gave them. */
  lemma {:induction false} KeysAreKept(c: Settings, ss: seq<State>, ops: seq<Op>, gid: Gid, j: nat)
    requires Run(c, ss, ops) && j <= |ops|
    ensures KeptUntil(ss[j], gid, HashUntil(c, ss, ops, gid, j), ActorsUntil(c, ss, ops, gid, j))
    decreases j
  {
    if j == 0 {
      hide Next, Enabled;
    } else {
      assert |ss| == |ops| + 1 && ValidSettings(c);
      hide *;
      KeysAreKept(c, ss, ops, gid, j - 1);
      RunKeeps(c, ss, ops, j - 1);
      StepOf(c, ss, ops, j - 1);
      ActorsFollowHash(c, ss, ops, j, gid);
      RunSummarises(c, ss, ops, gid, j - 1);
      NoDigestActors(c, ss, ops, j - 1, gid);
      UntilStep(c, ss, ops, gid, j);
      StepKeptUntil(c, ss[j - 1], ops[j - 1], gid, Waiting(c, ss, ops, gid, j - 1),
        HashUntil(c, ss, ops, gid, j - 1), ActorsUntil(c, ss, ops, gid, j - 1));
    }
  }

  lemma NothingWritten(c: Settings, s: State, op: Op, gid: Gid)
    requires ValidSettings(c) && !FreshInto(c, s, op, gid)
    ensures !Renews(c, s, op, gid) && !Queues(c, s, op, gid)
  {
  }

  lemma NoDigestActors(c: Settings, ss: seq<State>, ops: seq<Op>, j: nat, gid: Gid)
    requires Run(c, ss, ops) && j < |ss|
    ensures gid.Digest? ==> gid !in ss[j].actors
  {
    ActorsOutliveWork(c, ss, ops, j, gid);
  }

  /** A new event's disposition is kept past its bucket and the grace, and a digest's for as long as the
      digest is pending: past its lifetime and the grace. */
  lemma DispositionCovers(c: Settings, s: State, op: Op, gid: Gid)
    requires ValidSettings(c) && Kept(c, s) && FreshInto(c, s, op, gid)
    ensures op.OpIngest?
    ensures var t, key := Next(c, s, op), (op.event.id, op.event.owner);
      && key in t.dispositions && gid in t.groups
      && t.dispositions[key].deadline ==
         Deadline(s.clock, if gid.Digest? then c.groupTtl + c.grace else c.window + c.grace)
      && 1000 * (DueAt(c, gid) + c.grace) <= t.dispositions[key].deadline
      && (gid.Digest? ==> 1000 * (t.groups[gid].expiresAt + c.grace) <= t.dispositions[key].deadline)
  {
    CurrentBucket(c, op.event, op.current, Now(s));
    IngestDispositions(c, s, op.event, op.current);
    FreshLifetime(c, s, op, gid);
    assert ViewKept(c, gid, s.clock, ViewOf(s, gid));
    var m, sent := FreshWrites(c, s, op, gid);
    hide IngestDigest, Buffer, SendNow, DueAt, Next, FreshInto, Ingest, Kept;
  }

  // ---------- Sent at once or not ----------

  /** An event is sent at once exactly when it was before, or when it is new, its bucket has not used up
      its immediate sends and the recipient's budget has room. */
  lemma SentAtOnceExactly(c: Settings, s: State, e: Event, current: nat, expected: nat)
    requires ValidSettings(c)
    ensures var gid := GidFor(c, e, current, Now(s));
      Ingest(c, s, e, current, expected).1.Immediate? <==>
        && current == expected
        && (if (e.id, e.owner) in s.dispositions then s.dispositions[(e.id, e.owner)].immediate
            else
              && c.immediateLimit > 0 && (gid in s.groups ==> s.groups[gid].immediate < c.immediateLimit)
              && Limiter.HasRoom(c.limits, LimiterOf(s, e.owner)))
  {
    if current == expected && (e.id, e.owner) !in s.dispositions {
      var op := OpIngest(e, current, expected);
      var m, sent := FreshWrites(c, s, op, GidFor(c, e, current, Now(s)));
    }
    hide DueAt, Opened, IngestDigest, Buffer, SendNow, LimiterOf, Limiter.Level, Limiter.Live;
  }
}
