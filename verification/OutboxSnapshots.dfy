/** The flush's two reads of a claimed group (`load_group` in src/coalesce.rs): the hash, later the
    actor count. When they equal one atomic read, and a run in which they do not. */
module OutboxSnapshots {
  import opened Redis
  import Limiter
  import opened Outbox
  import opened OutboxInvariants
  import opened OutboxRuns
  import opened OutboxContents

  /** The end of a group's lifetime and grace, in milliseconds. */
  function LifeEnd(c: Settings, g: Group): nat { 1000 * (g.expiresAt + c.grace) }

  /** A legacy group with pending work has counted actors, kept to the end of its lifetime and grace;
      a digest has none at all. */
  ghost predicate ActorsKept(c: Settings, s: State, gid: Gid) {
    && (gid.Digest? ==> gid !in s.actors)
    && (gid.Legacy? && gid in s.groups && s.groups[gid].pending > 0 && s.clock <= LifeEnd(c, s.groups[gid]) ==>
          gid in s.actors && s.actors[gid].members != {} && LifeEnd(c, s.groups[gid]) <= s.actors[gid].deadline)
  }

  // ---------- Every script keeps the actors ----------

  /** Buffering counts its actor and renews the actor key with the hash. */
  lemma BufferActors(c: Settings, s: State, e: Event, gid: Gid, g: Group)
    ensures var t := Buffer(c, s, e, gid, g);
      && gid in t.groups && t.groups[gid].expiresAt == g.expiresAt
      && gid in t.actors && e.actor in t.actors[gid].members
      && t.actors[gid].deadline == Deadline(s.clock, PhysicalTtl(c))
  {
    hide DueAt;
  }

  lemma SendNowActors(c: Settings, s: State, e: Event, gid: Gid, g: Group)
    ensures var t := SendNow(c, s, e, gid, g);
      && gid in t.groups && t.groups[gid].expiresAt == g.expiresAt && t.groups[gid].pending == g.pending
      && t.actors == s.actors
  {
  }

  lemma FreshActors(c: Settings, s: State, op: Op, gid: Gid)
    requires ValidSettings(c) && Kept(c, s) && FreshInto(c, s, op, gid) && ActorsKept(c, s, gid)
    ensures ActorsKept(c, Next(c, s, op), gid)
  {
    var e, g := op.event, Opened(c, s, gid, op.current);
    OpenedIsOpen(c, s, e, op.current);
    assert g.expiresAt <= Now(s) + c.groupTtl;
    assert gid !in s.groups ==> g.pending == 0;
    var m, sent := FreshWrites(c, s, op, gid);
    WrittenActors(c, m, e, gid, g);
    BufferActors(c, m, e, gid, g);
    SendNowActors(c, m, e, gid, g);
    WritesKeepClock(c, m, e, gid, g);
    hide Buffer, SendNow, IngestDigest, DueAt, Kept, Next, FreshInto, StillOpen;
  }

  lemma ActorsStep(c: Settings, s: State, op: Op, gid: Gid)
    requires ValidSettings(c) && Kept(c, s) && ActorsKept(c, s, gid)
    ensures ActorsKept(c, Next(c, s, op), gid)
  {
    if FreshInto(c, s, op, gid) {
      FreshActors(c, s, op, gid);
    } else if op.OpTick? {
      TickContent(s, op.ms, gid);
    } else {
      ContentStep(c, s, op, gid);
      NextClock(c, s, op);
      if gid in Next(c, s, op).actors { NoNewActors(c, s, op, gid); }
      hide Next, FreshInto;
    }
  }

  lemma NoNewActors(c: Settings, s: State, op: Op, gid: Gid)
    requires ValidSettings(c) && !FreshInto(c, s, op, gid) && gid in Next(c, s, op).actors
    ensures gid in s.actors
  {
    match op
    case OpIngest(e, current, expected) =>
      if Fresh(s, op) {
        IngestFrame(c, s, e, current);
        hide Ingest;
        assert Lookup(Next(c, s, op).actors, gid) == Lookup(s.actors, gid);
      }
    case OpClaim(token, expired, candidates) => ClaimActors(c, s, op, gid);
    case _ =>
  }

  /** In every run a legacy group with pending work keeps a non-empty actor key to the end of its
      lifetime and grace. */
  lemma {:induction false} ActorsOutliveWork(c: Settings, ss: seq<State>, ops: seq<Op>, j: nat, gid: Gid)
    requires Run(c, ss, ops) && j < |ss|
    ensures ActorsKept(c, ss[j], gid)
    decreases j
  {
    if j > 0 {
      ActorsOutliveWork(c, ss, ops, j - 1, gid);
      RunKeeps(c, ss, ops, j - 1);
      StepOf(c, ss, ops, j - 1);
      hide Next, Kept, ActorsKept, Enabled;
      ActorsStep(c, ss[j - 1], ops[j - 1], gid);
    }
  }

  /** An actor key is there only beside a hash with pending work, counts somebody, and goes no later
      than the hash does. */
  ghost predicate ActorsFollow(c: Settings, s: State, gid: Gid) {
    gid in s.actors ==>
      && gid in s.groups && s.groups[gid].pending > 0
      && s.actors[gid].members != {}
      && s.actors[gid].deadline <= s.groups[gid].deadline
      && s.actors[gid].deadline <= Deadline(s.clock, PhysicalTtl(c))
  }

  /** A buffered event renews both keys alike, an immediate push beside pending work the hash alone. */
  lemma WrittenDeadlines(c: Settings, s: State, e: Event, gid: Gid, g: Group)
    ensures var t := Buffer(c, s, e, gid, g);
      t.groups[gid].pending > 0 && t.groups[gid].deadline == Deadline(s.clock, PhysicalTtl(c))
    ensures var t := SendNow(c, s, e, gid, g);
      g.pending > 0 ==> t.groups[gid].deadline == Deadline(s.clock, PhysicalTtl(c))
  {
    hide DueAt;
  }

  lemma FreshFollow(c: Settings, s: State, op: Op, gid: Gid)
    requires ValidSettings(c) && FreshInto(c, s, op, gid) && ActorsFollow(c, s, gid)
    requires gid.Digest? ==> gid !in s.actors
    ensures ActorsFollow(c, Next(c, s, op), gid)
  {
    var e, g := op.event, Opened(c, s, gid, op.current);
    assert gid in s.groups ==> g.pending == s.groups[gid].pending;
    var m, sent := FreshWrites(c, s, op, gid);
    WrittenActors(c, m, e, gid, g);
    BufferActors(c, m, e, gid, g);
    SendNowActors(c, m, e, gid, g);
    WrittenDeadlines(c, m, e, gid, g);
    WritesKeepClock(c, m, e, gid, g);
    hide Buffer, SendNow, IngestDigest, DueAt, Next, FreshInto;
  }

  lemma {:induction false} RecoverRemovesBoth(s: State, expired: seq<Gid>, gid: Gid)
    requires gid in s.groups && gid in Recover(s, expired).actors
    ensures gid in Recover(s, expired).groups
    decreases |expired|
  {
    if expired != [] {
      var t := RecoverOne(s, expired[0]);
      RecoverActors(t, expired[1..], gid);
      RecoverRemovesBoth(t, expired[1..], gid);
    }
  }

  /** No script removes a hash and leaves its actor key. */
  lemma RemovedTogether(c: Settings, s: State, op: Op, gid: Gid)
    requires ValidSettings(c) && !op.OpTick? && gid in s.groups && gid in Next(c, s, op).actors
    ensures gid in Next(c, s, op).groups
  {
    match op
    case OpIngest(e, current, expected) => IngestRemovesNothing(c, s, op, gid);
    case OpClaim(token, expired, candidates) =>
      TakeContent(c, Recover(s, expired), candidates, token, gid);
      RecoverRemovesBoth(s, expired, gid);
      hide Recover, Take;
    case OpComplete(g, token, requeueAfter) =>
    case OpLimiter(owner, lop) => hide Limiter.Next;
  }

  lemma FollowStep(c: Settings, s: State, op: Op, gid: Gid)
    requires ValidSettings(c) && ActorsFollow(c, s, gid) && (gid.Digest? ==> gid !in s.actors)
    ensures ActorsFollow(c, Next(c, s, op), gid)
  {
    if FreshInto(c, s, op, gid) {
      FreshFollow(c, s, op, gid);
    } else if op.OpTick? {
      TickExpires(s, op.ms, gid);
      hide Tick;
    } else if gid in Next(c, s, op).actors {
      NoNewActors(c, s, op, gid);
      RemovedTogether(c, s, op, gid);
      ContentStep(c, s, op, gid);
      NextClock(c, s, op);
      hide Next, FreshInto;
    }
  }

  /** So in every run an actor key expires with its group's hash or before it. */
  lemma {:induction false} ActorsFollowHash(c: Settings, ss: seq<State>, ops: seq<Op>, j: nat, gid: Gid)
    requires Run(c, ss, ops) && j < |ss|
    ensures ActorsFollow(c, ss[j], gid)
    decreases j
  {
    if j > 0 {
      ActorsFollowHash(c, ss, ops, j - 1, gid);
      ActorsOutliveWork(c, ss, ops, j - 1, gid);
      StepOf(c, ss, ops, j - 1);
      hide Next, ActorsFollow, Enabled, Run;
      FollowStep(c, ss[j - 1], ops[j - 1], gid);
    }
  }

  // ---------- A claimed group stays ----------

  /** The owner of the claim taken at step `claim` has not completed it before step `j`. */
  ghost predicate StillOwned(ss: seq<State>, ops: seq<Op>, claim: nat, j: nat, gid: Gid)
    requires claim < |ops| && j <= |ops| < |ss| && ops[claim].OpClaim?
  {
    forall k :: claim < k < j ==> !(Effective(ss[k], ops[k]) && ops[k].gid == gid && ops[k].token == ops[claim].token)
  }

  /** Two points of a flush: after its claim, before its completion, while the lease runs. */
  ghost predicate UnderLease(c: Settings, ss: seq<State>, ops: seq<Op>, claim: nat, j: nat, gid: Gid) {
    && Run(c, ss, ops) && claim < j < |ss|
    && Claims(c, ss[claim], ops[claim], gid)
    && StillOwned(ss, ops, claim, j, gid)
    && Now(ss[j]) < Now(ss[claim]) + c.lease
  }

  lemma ClaimedExists(c: Settings, ss: seq<State>, ops: seq<Op>, claim: nat, gid: Gid)
    requires Run(c, ss, ops) && claim < |ops| && Claims(c, ss[claim], ops[claim], gid)
    ensures gid in ss[claim].groups && gid in ss[claim + 1].groups
    ensures SameContent(ss[claim].groups[gid], ss[claim + 1].groups[gid])
  {
    var s, op := ss[claim], ops[claim];
    StepOf(c, ss, ops, claim);
    RecoverContent(s, op.expired, gid);
    TakeLeases(c, Recover(s, op.expired), op.candidates, op.token, gid);
    TakeContent(c, Recover(s, op.expired), op.candidates, op.token, gid);
    hide Recover, Take;
  }

  /** What is still there when the clock has reached a point: nothing past its deadline. */
  function GroupAt(g: Option<Group>, clock: nat): Option<Group> {
    if g.Some? && clock <= g.value.deadline then g else None
  }

  function CountedAt(a: Option<Actors>, clock: nat): Option<Actors> {
    if a.Some? && clock <= a.value.deadline then a else None
  }

  ghost predicate SameButToken(g: Option<Group>, h: Option<Group>) {
    (g.Some? <==> h.Some?) && (g.Some? ==> SameContent(g.value, h.value))
  }

  lemma {:induction false} OthersRecovered(s: State, expired: seq<Gid>, gid: Gid)
    requires gid !in expired
    ensures var t := Recover(s, expired);
      Lookup(t.groups, gid) == Lookup(s.groups, gid) && Lookup(t.actors, gid) == Lookup(s.actors, gid)
    decreases |expired|
  {
    if expired != [] {
      assert gid != expired[0] && gid !in expired[1..];
      OthersRecovered(RecoverOne(s, expired[0]), expired[1..], gid);
    }
  }

  /** Nothing happens to the group but expiry. */
  ghost predicate OnlyExpires(s: State, t: State, gid: Gid) {
    && SameButToken(Lookup(t.groups, gid), GroupAt(Lookup(s.groups, gid), t.clock))
    && Lookup(t.actors, gid) == CountedAt(Lookup(s.actors, gid), t.clock)
  }

  lemma TickExpires(s: State, ms: nat, gid: Gid)
    ensures OnlyExpires(s, Tick(s, ms), gid)
  {
    hide DispositionsAt, LimitersAfter;
  }

  /** A step that leaves the group's hash, up to the token, and its actors alone, at the same second. */
  lemma LeftAlone(c: Settings, s: State, t: State, gid: Gid)
    requires Kept(c, s) && ActorsLive(s) && t.clock == s.clock
    requires SameButToken(Lookup(t.groups, gid), Lookup(s.groups, gid))
      && Lookup(t.actors, gid) == Lookup(s.actors, gid)
    ensures OnlyExpires(s, t, gid)
  {
    assert ViewKept(c, gid, s.clock, ViewOf(s, gid));
    hide DueAt;
  }

  lemma ClaimLeavesAlone(c: Settings, s: State, op: Op, gid: Gid)
    requires op.OpClaim? && gid !in op.expired && ValidSettings(c)
    ensures var t := Next(c, s, op);
      && SameButToken(Lookup(t.groups, gid), Lookup(s.groups, gid)) && Lookup(t.actors, gid) == Lookup(s.actors, gid)
  {
    OthersRecovered(s, op.expired, gid);
    TakeContent(c, Recover(s, op.expired), op.candidates, op.token, gid);
    hide Recover, Take;
  }

  lemma CompleteLeavesAlone(s: State, g: Gid, token: string, requeueAfter: Option<nat>, gid: Gid)
    requires g != gid || g !in s.groups || s.groups[g].lease != Some(token)
    ensures var t := Complete(s, g, token, requeueAfter).0;
      Lookup(t.groups, gid) == Lookup(s.groups, gid) && Lookup(t.actors, gid) == Lookup(s.actors, gid)
  {
    var t := Complete(s, g, token, requeueAfter).0;
    assert || t == s
           || (t.groups == s.groups - {g} && t.actors == s.actors - {g} && g != gid)
           || (g in s.groups && t.groups == s.groups[g := s.groups[g].(lease := None)] && t.actors == s.actors
              && g != gid);
    hide Complete;
  }

  lemma IngestLeavesAlone(c: Settings, s: State, op: Op, gid: Gid)
    requires ValidSettings(c) && op.OpIngest? && !FreshInto(c, s, op, gid)
    ensures var t := Next(c, s, op);
      Lookup(t.groups, gid) == Lookup(s.groups, gid) && Lookup(t.actors, gid) == Lookup(s.actors, gid)
  {
    if Fresh(s, op) {
      IngestFrame(c, s, op.event, op.current);
      hide Ingest;
      assert ViewOf(Next(c, s, op), gid) == ViewOf(s, gid);
    }
  }

  /** Under a live lease, whose owner does not complete it, nothing happens to a group but expiry. */
  lemma LeasedStep(c: Settings, s: State, op: Op, gid: Gid, token: string, at: nat)
    requires ValidSettings(c) && Kept(c, s) && ActorsLive(s) && Enabled(s, op)
    requires LeaseStands(c, s, gid, token, at) && Now(s) < at + c.lease
    requires !(Effective(s, op) && op.gid == gid && op.token == token)
    ensures OnlyExpires(s, Next(c, s, op), gid)
  {
    NextClock(c, s, op);
    match op
    case OpTick(ms) => TickExpires(s, ms, gid);
    case OpIngest(e, current, expected) =>
      LeasedBucketClosed(c, s, e, current, gid);
      IngestLeavesAlone(c, s, op, gid);
      hide Next, Kept, ActorsLive, OnlyExpires;
      LeftAlone(c, s, Next(c, s, op), gid);
    case OpClaim(t, expired, candidates) =>
      assert gid !in expired;
      ClaimLeavesAlone(c, s, op, gid);
      hide Next, Kept, ActorsLive, OnlyExpires;
      LeftAlone(c, s, Next(c, s, op), gid);
    case OpComplete(g, t, requeueAfter) =>
      CompleteLeavesAlone(s, g, t, requeueAfter, gid);
      hide Complete, Kept, ActorsLive, OnlyExpires;
      LeftAlone(c, s, Next(c, s, op), gid);
    case OpLimiter(owner, lop) =>
      hide Limiter.Next, Kept, ActorsLive, OnlyExpires;
      LeftAlone(c, s, Next(c, s, op), gid);
  }

  /** So what a claim finds is there, unchanged, until its own deadline. */
  lemma {:induction false} LeasedReads(c: Settings, ss: seq<State>, ops: seq<Op>, claim: nat, j: nat, gid: Gid)
    requires UnderLease(c, ss, ops, claim, j, gid)
    ensures OnlyExpires(ss[claim], ss[j], gid)
    decreases j
  {
    if j == claim + 1 {
      ClaimedReads(c, ss, ops, claim, gid);
    } else {
      ClockNeverFalls(c, ss, ops, j - 1, j);
      LeasedReads(c, ss, ops, claim, j - 1, gid);
      LeaseHolds(c, ss, ops, claim, j - 1, gid);
      RunKeeps(c, ss, ops, j - 1);
      ActorsAlive(c, ss, ops, j - 1, gid);
      StepOf(c, ss, ops, j - 1);
      hide Next, Kept, Enabled, Claims, LeaseStands, ActorsLive, Run;
      LeasedStep(c, ss[j - 1], ops[j - 1], gid, ops[claim].token, Now(ss[claim]));
    }
  }

  lemma ClaimedReads(c: Settings, ss: seq<State>, ops: seq<Op>, claim: nat, gid: Gid)
    requires Run(c, ss, ops) && claim < |ops| && Claims(c, ss[claim], ops[claim], gid)
    ensures OnlyExpires(ss[claim], ss[claim + 1], gid)
  {
    var s, op := ss[claim], ops[claim];
    StepOf(c, ss, ops, claim);
    NextClock(c, s, op);
    RunKeeps(c, ss, ops, claim);
    ActorsAlive(c, ss, ops, claim, gid);
    assert ViewKept(c, gid, s.clock, ViewOf(s, gid));
    RecoverContent(s, op.expired, gid);
    TakeLeases(c, Recover(s, op.expired), op.candidates, op.token, gid);
    TakeContent(c, Recover(s, op.expired), op.candidates, op.token, gid);
    hide Recover, Take, DueAt;
  }

  // ---------- The two reads ----------

  /** What a flush learns of its group: the hash, apart from its ownership token, and the number of
      distinct actors. */
  datatype Snapshot = Snapshot(group: Group, actorCount: nat)

  /** The hash as read in one state with the actors counted in another; without a hash nobody is
      counted. */
  function ReadIn(first: State, second: State, gid: Gid): Option<Snapshot> {
    if gid in first.groups then Some(Snapshot(first.groups[gid].(lease := None), ActorCount(second, gid))) else None
  }

  /** Reading the hash at step `i` and the actors at step `j` gives what one atomic read would have given
      at some step from `i` to `j`. */
  ghost predicate OneRead(ss: seq<State>, i: nat, j: nat, gid: Gid)
    requires i <= j < |ss|
  {
    exists t :: i <= t <= j && ReadAtomically(ss, t, gid) == ReadIn(ss[i], ss[j], gid)
  }

  function ReadAtomically(ss: seq<State>, t: nat, gid: Gid): Option<Snapshot>
    requires t < |ss|
  {
    ReadIn(ss[t], ss[t], gid)
  }

  /** Both keys expire between the two reads, and no step of the run falls after the actor key's
      deadline but not after the hash's. The deadlines are those found at the claim. */
  ghost predicate BothExpireBetween(ss: seq<State>, claim: nat, i: nat, j: nat, gid: Gid)
    requires claim < |ss| && i <= j < |ss| && gid in ss[claim].groups
  {
    && gid in ss[claim].actors
    && var hash, counted := ss[claim].groups[gid].deadline, ss[claim].actors[gid].deadline;
    && ss[i].clock <= hash < ss[j].clock
    && ss[i].clock <= counted < ss[j].clock
    && forall t :: i <= t <= j ==> !(counted < ss[t].clock <= hash)
  }

  /** What two reads under a lease give, by the deadlines found at the claim. */
  lemma ReadUnderLease(
    c: Settings, ss: seq<State>, ops: seq<Op>, claim: nat, i: nat, j: nat, gid: Gid)
    requires UnderLease(c, ss, ops, claim, j, gid) && claim < i <= j
    ensures gid in ss[claim].groups && ss[i].clock <= ss[j].clock
    ensures gid in ss[claim].actors ==> ss[claim].actors[gid].members != {}
    ensures gid in ss[i].groups <==> ss[i].clock <= ss[claim].groups[gid].deadline
    ensures gid in ss[i].groups ==> SameContent(ss[claim].groups[gid], ss[i].groups[gid])
    ensures ActorCount(ss[j], gid) ==
      if gid in ss[claim].actors && ss[j].clock <= ss[claim].actors[gid].deadline then ActorCount(ss[claim], gid) else 0
  {
    ClaimedExists(c, ss, ops, claim, gid);
    ClockNeverFalls(c, ss, ops, i, j);
    assert UnderLease(c, ss, ops, claim, i, gid);
    LeasedReads(c, ss, ops, claim, i, gid);
    LeasedReads(c, ss, ops, claim, j, gid);
    ActorsFollowHash(c, ss, ops, claim, gid);
    hide Run, Claims, StillOwned;
  }

  /** Exactly when the owner's two reads equal one atomic read between them, for every group it claims
      and all along its lease. The hash is there until its own deadline, the same but for its token. */
  lemma SnapshotExactly(c: Settings, ss: seq<State>, ops: seq<Op>, claim: nat, i: nat, j: nat, gid: Gid)
    requires UnderLease(c, ss, ops, claim, j, gid) && claim < i <= j
    ensures gid in ss[claim].groups
    ensures gid in ss[i].groups <==> ss[i].clock <= ss[claim].groups[gid].deadline
    ensures gid in ss[i].groups ==> SameContent(ss[claim].groups[gid], ss[i].groups[gid])
    ensures OneRead(ss, i, j, gid) <==> !BothExpireBetween(ss, claim, i, j, gid)
  {
    ReadUnderLease(c, ss, ops, claim, i, j, gid);
    forall t | i <= t <= j
      ensures ReadAtomically(ss, t, gid) == ReadIn(ss[i], ss[j], gid) <==>
        AtomicAt(ss, claim, i, j, t, gid)
    {
      AgreesAt(c, ss, ops, claim, i, j, t, gid);
    }
    hide UnderLease, ReadAtomically, ReadIn, ActorCount;
    if !BothExpireBetween(ss, claim, i, j, gid) {
      var t := AtomicSomewhere(ss, claim, i, j, gid);
      assert ReadAtomically(ss, t, gid) == ReadIn(ss[i], ss[j], gid);
    }
  }

  lemma AtomicSomewhere(ss: seq<State>, claim: nat, i: nat, j: nat, gid: Gid) returns (t: nat)
    requires claim < |ss| && i <= j < |ss| && gid in ss[claim].groups && ss[i].clock <= ss[j].clock
    requires !BothExpireBetween(ss, claim, i, j, gid)
    ensures i <= t <= j && AtomicAt(ss, claim, i, j, t, gid)
  {
    if AtomicAt(ss, claim, i, j, i, gid) {
      t := i;
    } else if AtomicAt(ss, claim, i, j, j, gid) {
      t := j;
    } else {
      var hash, counted := ss[claim].groups[gid].deadline, ss[claim].actors[gid].deadline;
      t :| i <= t <= j && counted < ss[t].clock <= hash;
    }
  }

  /** A read at step `t` finds the hash and the actors that were found at `i` and `j`. */
  ghost predicate AtomicAt(ss: seq<State>, claim: nat, i: nat, j: nat, t: nat, gid: Gid)
    requires claim < |ss| && i <= t <= j < |ss| && gid in ss[claim].groups
  {
    var hash := ss[claim].groups[gid].deadline;
    && (ss[t].clock <= hash <==> ss[i].clock <= hash)
    && (ss[i].clock <= hash && gid in ss[claim].actors ==>
          !(ss[t].clock <= ss[claim].actors[gid].deadline < ss[j].clock))
  }

  lemma AgreesAt(c: Settings, ss: seq<State>, ops: seq<Op>, claim: nat, i: nat, j: nat, t: nat, gid: Gid)
    requires UnderLease(c, ss, ops, claim, j, gid) && claim < i <= t <= j && gid in ss[claim].groups
    ensures ReadAtomically(ss, t, gid) == ReadIn(ss[i], ss[j], gid) <==> AtomicAt(ss, claim, i, j, t, gid)
  {
    ClockNeverFalls(c, ss, ops, t, j);
    assert UnderLease(c, ss, ops, claim, t, gid);
    ReadUnderLease(c, ss, ops, claim, i, t, gid);
    ReadUnderLease(c, ss, ops, claim, i, j, gid);
    ReadUnderLease(c, ss, ops, claim, t, t, gid);
    hide UnderLease, Run;
  }

  /** Where every millisecond is a step of the run the condition is known at the claim: the reads are
      torn exactly when the two keys share one deadline and it falls between them. */
  lemma SnapshotByTheMillisecond(
    c: Settings, ss: seq<State>, ops: seq<Op>, claim: nat, i: nat, j: nat, gid: Gid)
    requires UnderLease(c, ss, ops, claim, j, gid) && claim < i <= j
    requires forall k :: i <= k < j && ops[k].OpTick? ==> ops[k].ms <= 1
    ensures gid in ss[claim].groups
    ensures !OneRead(ss, i, j, gid) <==>
      && gid in ss[claim].actors
      && ss[i].clock <= ss[claim].actors[gid].deadline == ss[claim].groups[gid].deadline < ss[j].clock
  {
    SnapshotExactly(c, ss, ops, claim, i, j, gid);
    ActorsFollowHash(c, ss, ops, claim, gid);
    if gid in ss[claim].actors {
      var counted := ss[claim].actors[gid].deadline;
      if ss[i].clock <= counted < ss[j].clock {
        var t := Reaches(c, ss, ops, i, j, counted + 1);
      }
    }
    hide UnderLease, OneRead;
  }

  lemma {:induction false} Reaches(c: Settings, ss: seq<State>, ops: seq<Op>, i: nat, j: nat, clock: nat)
    returns (t: nat)
    requires Run(c, ss, ops) && i <= j < |ss| && ss[i].clock <= clock <= ss[j].clock
    requires forall k :: i <= k < j && ops[k].OpTick? ==> ops[k].ms <= 1
    ensures i <= t <= j && ss[t].clock == clock
    decreases j
  {
    if ss[j].clock == clock {
      t := j;
    } else {
      StepOf(c, ss, ops, j - 1);
      NextClock(c, ss[j - 1], ops[j - 1]);
      hide Run, Enabled;
      t := Reaches(c, ss, ops, i, j - 1, clock);
    }
  }

  /** While its lease runs and up to the end of the group's lifetime and grace, the owner's two reads
      equal one atomic read: the hash is there at both points and the same but for its token, and the
      actors are the same, at least one of them for a legacy group. */
  lemma SnapshotIsAtomic(c: Settings, ss: seq<State>, ops: seq<Op>, claim: nat, i: nat, j: nat, gid: Gid)
    requires UnderLease(c, ss, ops, claim, j, gid) && claim < i <= j
    requires gid in ss[claim].groups ==> ss[j].clock <= LifeEnd(c, ss[claim].groups[gid])
    ensures gid in ss[i].groups && gid in ss[j].groups && SameContent(ss[i].groups[gid], ss[j].groups[gid])
    ensures Lookup(ss[i].actors, gid) == Lookup(ss[j].actors, gid) && (gid.Legacy? ==> ActorCount(ss[j], gid) > 0)
    ensures OneRead(ss, i, j, gid)
  {
    SnapshotExactly(c, ss, ops, claim, i, j, gid);
    SnapshotExactly(c, ss, ops, claim, j, j, gid);
    ClockNeverFalls(c, ss, ops, claim, i);
    ClockNeverFalls(c, ss, ops, i, j);
    ClaimedIsPending(c, ss, ops, claim, gid);
    ActorsOutliveWork(c, ss, ops, claim, gid);
    assert UnderLease(c, ss, ops, claim, i, gid);
    LeasedReads(c, ss, ops, claim, i, gid);
    LeasedReads(c, ss, ops, claim, j, gid);
    hide Run, Claims, StillOwned, DueAt, OneRead;
  }

  /** A claimed group has pending work, and its hash lives to the end of its lifetime and grace. */
  lemma ClaimedIsPending(c: Settings, ss: seq<State>, ops: seq<Op>, claim: nat, gid: Gid)
    requires Run(c, ss, ops) && claim < |ops| && Claims(c, ss[claim], ops[claim], gid)
    ensures gid in ss[claim].groups && ss[claim].groups[gid].pending > 0
    ensures LifeEnd(c, ss[claim].groups[gid]) <= ss[claim].groups[gid].deadline
  {
    var s, op := ss[claim], ops[claim];
    ClaimedExists(c, ss, ops, claim, gid);
    StepOf(c, ss, ops, claim);
    RunKeeps(c, ss, ops, claim);
    RunKeeps(c, ss, ops, claim + 1);
    TakeLeases(c, Recover(s, op.expired), op.candidates, op.token, gid);
    assert ViewKept(c, gid, ss[claim + 1].clock, ViewOf(ss[claim + 1], gid));
    hide Recover, Take, DueAt;
    assert ViewKept(c, gid, s.clock, ViewOf(s, gid));
  }

  /** A flush that goes on after its claim, because the group had not reached its lifetime, reads
      atomically throughout its lease when the lease is no longer than the grace. */
  lemma SnapshotUnderLease(c: Settings, ss: seq<State>, ops: seq<Op>, claim: nat, i: nat, j: nat, gid: Gid)
    requires UnderLease(c, ss, ops, claim, j, gid) && claim < i <= j && c.lease <= c.grace
    requires gid in ss[claim].groups ==> Now(ss[claim]) < ss[claim].groups[gid].expiresAt
    ensures gid in ss[i].groups && gid in ss[j].groups && SameContent(ss[i].groups[gid], ss[j].groups[gid])
    ensures Lookup(ss[i].actors, gid) == Lookup(ss[j].actors, gid) && (gid.Legacy? ==> ActorCount(ss[j], gid) > 0)
    ensures OneRead(ss, i, j, gid)
  {
    ClaimedExists(c, ss, ops, claim, gid);
    SnapshotIsAtomic(c, ss, ops, claim, i, j, gid);
  }

  // ---------- Reads that differ ----------

  /** A lease longer than the grace, one immediate push a bucket, one token a second. */
  const TEARING := Settings(10, 1, 20, 1, 5, 2, Limiter.Limits(1, 1, 1000, 10, 10, 1))

  const LIKE := Event("a", "owner", Like, "ann", "target", 1)

  const TORN := Legacy(Like, "owner", "target", 0)

  /** Nothing yet, but the recipient's one token is spent. */
  ghost predicate TokenSpent(s: State) {
    && s.clock == 0 && s.groups == map[] && s.actors == map[] && s.dispositions == map[]
    && s.due == map[] && s.leases == map[]
    && "owner" in s.limiters
    && var l := s.limiters["owner"];
    l.clock == 0 && l.bucket == Some(Limiter.Bucket(0.0, 0, 11000)) && l.emitted == Zset(map["x" := 0], 1001000)
  }

  /** One buffered like, its hash and its actor key to be kept until the same time. */
  ghost predicate OneBuffered(s: State, clock: nat) {
    && s.clock == clock && s.leases == map[] && s.due == map[TORN := 10]
    && TORN in s.groups && TORN in s.actors
    && s.actors[TORN] == Actors({"ann"}, 21000)
    && s.groups[TORN].deadline == 21000 && s.groups[TORN].expiresAt == 20 && s.groups[TORN].pending == 1
  }

  lemma TearSpend(s: State)
    requires s == State(0, map[], map[], map[], map[], map[], map[])
    ensures TokenSpent(Next(TEARING, s, OpLimiter("owner", Limiter.OpSpend("x"))))
  {
    var l := LimiterOf(s, "owner");
    assert Limiter.Live(TEARING.limits, l).scores == map[];
    assert |Limiter.Live(TEARING.limits, l).scores| == 0;
    assert Limiter.BucketTtl(TEARING.limits) == 11;
  }

  lemma TearBuffer(s: State)
    requires TokenSpent(s)
    ensures OneBuffered(Next(TEARING, s, OpIngest(LIKE, 1, 1)), 0)
  {
    var l := s.limiters["owner"];
    assert GidFor(TEARING, LIKE, 1, 0) == TORN;
    assert Limiter.Level(TEARING.limits, l) == 0.0;
    var (m, sent) := Limiter.Emit(TEARING.limits, l, "a");
    assert !sent;
    var t := s.(limiters := s.limiters["owner" := m]);
    var g := Opened(TEARING, s, TORN, 1);
    assert Ingest(TEARING, s, LIKE, 1, 1).0 == Buffer(TEARING, t, LIKE, TORN, g);
    hide Ingest, Limiter.Emit;
  }

  lemma TearWait(s: State, ms: nat)
    requires OneBuffered(s, 0) && ms <= 21000
    ensures OneBuffered(Next(TEARING, s, OpTick(ms)), ms)
  {
    hide LimitersAfter, DispositionsAt;
  }

  lemma TearClaim(s: State)
    requires OneBuffered(s, 19500)
    ensures var op := OpClaim("token", [], [TORN]);
      && Enabled(s, op) && Claims(TEARING, s, op, TORN) && Now(s) == 19
      && OneLeased(Next(TEARING, s, op))
  {
    assert Recover(s, []) == s;
    assert IsRange(s.leases, 19, MAX_RECOVERY_PER_CLAIM, []);
    assert IsRange(s.due, 19, MAX_DANGLING_SKIPS, [TORN]);
  }

  ghost predicate OneLeased(s: State) {
    && s.clock == 19500
    && TORN in s.groups && s.groups[TORN].deadline == 21000
    && TORN in s.actors && s.actors[TORN] == Actors({"ann"}, 21000)
  }

  lemma TearApart(s: State)
    requires OneLeased(s)
    ensures var t := Next(TEARING, s, OpTick(1501));
      && t.clock == 21001 && TORN in s.groups && TORN !in t.groups
      && ActorCount(s, TORN) == 1 && ActorCount(t, TORN) == 0
  {
    hide LimitersAfter, DispositionsAt;
  }

  /** With a lease longer than the grace the two reads can be torn within one flush timeout and under a
      live lease, although the claim came within the group's lifetime: one buffered event, a late
      claim, and both keys expire between the reads. The flush sees the group with nobody in it, as
      no atomic read at any moment would have. */
  lemma ReadsTear() returns (ss: seq<State>, ops: seq<Op>)
    ensures Run(TEARING, ss, ops) && |ops| == 5 && UnderLease(TEARING, ss, ops, 3, 5, TORN)
    ensures TORN in ss[3].groups && Now(ss[3]) < ss[3].groups[TORN].expiresAt
    ensures TORN in ss[3].actors && ss[3].actors[TORN].deadline == ss[3].groups[TORN].deadline
    ensures ss[5].clock - ss[4].clock <= 1000 * TEARING.flushTimeout
    ensures TORN in ss[4].groups && ActorCount(ss[4], TORN) == 1
    ensures TORN !in ss[5].groups && ActorCount(ss[5], TORN) == 0
    ensures !OneRead(ss, 4, 5, TORN)
  {
    hide Next, Enabled, Claims, TokenSpent, ActorCount, Run, OneLeased;
    var s0 := State(0, map[], map[], map[], map[], map[], map[]);
    ops := [
      OpLimiter("owner", Limiter.OpSpend("x")),
      OpIngest(LIKE, 1, 1),
      OpTick(19500),
      OpClaim("token", [], [TORN]),
      OpTick(1501)];
    TearSpend(s0);
    var s1 := Next(TEARING, s0, ops[0]);
    TearBuffer(s1);
    var s2 := Next(TEARING, s1, ops[1]);
    TearWait(s2, 19500);
    var s3 := Next(TEARING, s2, ops[2]);
    TearClaim(s3);
    var s4 := Next(TEARING, s3, ops[3]);
    NextClock(TEARING, s3, ops[3]);
    TearApart(s4);
    var s5 := Next(TEARING, s4, ops[4]);
    ss := [s0, s1, s2, s3, s4, s5];
    AllSteps(ss, ops);
    assert UnderLease(TEARING, ss, ops, 3, 5, TORN);
    assert ReadIn(s4, s5, TORN) != ReadIn(s4, s4, TORN) && ReadIn(s4, s5, TORN) != ReadIn(s5, s5, TORN);
  }

  /** A five-step run, step by step. */
  lemma AllSteps(ss: seq<State>, ops: seq<Op>)
    requires |ops| == 5 && |ss| == 6 && ss[0] == State(0, map[], map[], map[], map[], map[], map[])
    requires forall i :: 0 <= i < 5 ==> !ops[i].OpClaim? || i == 3
    requires Enabled(ss[3], ops[3])
    requires ss[1] == Next(TEARING, ss[0], ops[0]) && ss[2] == Next(TEARING, ss[1], ops[1])
    requires ss[3] == Next(TEARING, ss[2], ops[2]) && ss[4] == Next(TEARING, ss[3], ops[3])
    requires ss[5] == Next(TEARING, ss[4], ops[4])
    ensures Run(TEARING, ss, ops)
  {
    hide Next, ClaimReads;
    forall i | 0 <= i < |ops| ensures Enabled(ss[i], ops[i]) && ss[i + 1] == Next(TEARING, ss[i], ops[i]) {
      assert i == 0 || i == 1 || i == 2 || i == 3 || i == 4;
    }
  }
}
