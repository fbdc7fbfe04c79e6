/** The coalescing outbox over every run: groups leave once, tokens complete once, leases exclude
    each other. */
module OutboxRuns {
  import opened Redis
  import Limiter
  import opened Outbox
  import opened OutboxInvariants

  // ---------- What one step can do to one group ----------

  /** The ingest reaches the clock: not stale and not a replay. */
  predicate Fresh(s: State, op: Op) {
    op.OpIngest? && op.current == op.expected && (op.event.id, op.event.owner) !in s.dispositions
  }

  predicate FreshInto(c: Settings, s: State, op: Op, gid: Gid)
    requires ValidSettings(c)
  {
    Fresh(s, op) && GidFor(c, op.event, op.current, Now(s)) == gid
  }

  /** Everything but the ownership token. */
  predicate SameContent(g: Group, h: Group) { g.(lease := None) == h.(lease := None) }

  /** Groups the step keeps are kept as they were, up to the token; so are their actors. */
  ghost predicate ContentKept(s: State, t: State, gid: Gid) {
    && (gid in t.groups ==> gid in s.groups && SameContent(s.groups[gid], t.groups[gid]))
    && (gid in t.groups ==> Lookup(t.actors, gid) == Lookup(s.actors, gid))
  }

  /** An ingest only writes to its own group, never to a lease or an ownership token. */
  ghost predicate WritesOnly(s: State, t: State, gid: Gid, token: Option<string>) {
    && OnlyTouches(s, t, gid)
    && t.leases == s.leases
    && gid in t.groups && t.groups[gid].lease == token
    && forall k :: k != gid ==> Lookup(t.actors, k) == Lookup(s.actors, k)
  }

  lemma EnqueueFrame(c: Settings, s: State, e: Event, gid: Gid, g: Group)
    ensures WritesOnly(s, Enqueue(c, s, e, gid, g), gid, g.lease)
  {
    hide DueAt;
  }

  lemma BufferFrame(c: Settings, s: State, e: Event, gid: Gid, g: Group)
    ensures WritesOnly(s, Buffer(c, s, e, gid, g), gid, g.lease)
  {
    hide Enqueue, WritesOnly;
    var known := if gid in s.actors then s.actors[gid].members else {};
    var t := s.(actors := s.actors[gid := Actors(known + {e.actor}, Deadline(s.clock, PhysicalTtl(c)))]);
    EnqueueFrame(c, t, e, gid, g.(pending := g.pending + 1, firstActor := Some(g.firstActor.GetOr(e.actor))));
    ActorsFrame(s, t, Buffer(c, s, e, gid, g), gid, g.lease);
  }

  /** A step that first changes only the group's actors touches nothing else either. */
  lemma ActorsFrame(s: State, t: State, u: State, gid: Gid, token: Option<string>)
    requires t == s.(actors := t.actors) && WritesOnly(t, u, gid, token)
    requires forall k :: k != gid ==> Lookup(t.actors, k) == Lookup(s.actors, k)
    ensures WritesOnly(s, u, gid, token)
  {
    assert forall k :: ViewOf(t, k) == ViewOf(s, k);
  }

  lemma SendNowFrame(c: Settings, s: State, e: Event, gid: Gid, g: Group)
    ensures WritesOnly(s, SendNow(c, s, e, gid, g), gid, g.lease)
  {
  }

  lemma DigestFrame(c: Settings, s: State, e: Event, gid: Gid, g: Group)
    requires gid in s.groups ==> g == s.groups[gid]
    requires gid !in s.groups ==> g.actions == {}
    ensures WritesOnly(s, IngestDigest(c, s, e, gid, g).0, gid, g.lease)
  {
    var action := Action(e.category, e.actor, e.target);
    var t := IngestDigest(c, s, e, gid, g).0;
    if action in g.actions {
      assert t == Dispose(c, s, e, false, gid);
    } else {
      hide WritesOnly, Enqueue;
      var counted := if e.category.Like? then g.(actions := g.actions + {action}, likes := g.likes + 1)
        else g.(actions := g.actions + {action}, reposts := g.reposts + 1);
      var flagged := if e.category.Like? then g.(likesBound := true) else g.(repostsBound := true);
      EnqueueFrame(c, s, e, gid, counted.(pending := g.pending + 1));
      EnqueueFrame(c, s, e, gid, flagged);
      assert t == Enqueue(c, s, e, gid, counted.(pending := g.pending + 1)) || t == Enqueue(c, s, e, gid, flagged);
    }
  }

  lemma LimiterFrame(s: State, t: State, u: State, gid: Gid, token: Option<string>)
    requires t == s.(limiters := t.limiters) && WritesOnly(t, u, gid, token)
    ensures WritesOnly(s, u, gid, token)
  {
    assert forall k :: ViewOf(t, k) == ViewOf(s, k);
  }

  lemma IngestFrame(c: Settings, s: State, e: Event, current: nat)
    requires ValidSettings(c) && (e.id, e.owner) !in s.dispositions
    ensures var gid := GidFor(c, e, current, Now(s));
      WritesOnly(s, Ingest(c, s, e, current, current).0, gid, Opened(c, s, gid, current).lease)
  {
    var gid := GidFor(c, e, current, Now(s));
    var g := Opened(c, s, gid, current);
    var u := Ingest(c, s, e, current, current).0;
    if c.immediateLimit == 0 {
      DigestFrame(c, s, e, gid, g);
    } else {
      hide WritesOnly, Buffer, SendNow;
      BufferFrame(c, s, e, gid, g);
      if g.immediate < c.immediateLimit {
        var (limiter, sent) := Limiter.Emit(c.limits, LimiterOf(s, e.owner), e.id);
        var t := s.(limiters := s.limiters[e.owner := limiter]);
        hide Limiter.Emit;
        BufferFrame(c, t, e, gid, g);
        SendNowFrame(c, t, e, gid, g);
        LimiterFrame(s, t, u, gid, g.lease);
      }
    }
  }

  lemma {:induction false} RecoverContent(s: State, expired: seq<Gid>, gid: Gid)
    ensures gid in Recover(s, expired).groups ==>
      && gid in s.groups && Recover(s, expired).groups[gid] == s.groups[gid]
      && Lookup(Recover(s, expired).actors, gid) == Lookup(s.actors, gid)
    decreases |expired|
  {
    if expired != [] {
      RecoverContent(RecoverOne(s, expired[0]), expired[1..], gid);
    }
  }

  lemma {:induction false} TakeContent(c: Settings, s: State, candidates: seq<Gid>, token: string, gid: Gid)
    ensures var t := Take(c, s, candidates, token).0;
      && (gid in t.groups <==> gid in s.groups)
      && (gid in s.groups ==> SameContent(s.groups[gid], t.groups[gid]))
      && t.actors == s.actors
    decreases |candidates|
  {
    if candidates != [] && candidates[0] !in s.groups {
      TakeContent(c, s.(due := s.due - {candidates[0]}), candidates[1..], token, gid);
    }
  }

  lemma ContentStep(c: Settings, s: State, op: Op, gid: Gid)
    requires ValidSettings(c) && !FreshInto(c, s, op, gid) && !op.OpTick?
    ensures ContentKept(s, Next(c, s, op), gid)
  {
    match op
    case OpIngest(e, current, expected) =>
      if Fresh(s, op) {
        IngestFrame(c, s, e, current);
        hide Ingest;
        assert ViewOf(Next(c, s, op), gid) == ViewOf(s, gid);
      }
    case OpClaim(token, expired, candidates) =>
      RecoverContent(s, expired, gid);
      TakeContent(c, Recover(s, expired), candidates, token, gid);
      hide Recover, Take;
    case OpComplete(g, token, requeueAfter) => CompleteContent(s, g, token, requeueAfter, gid);
    case OpLimiter(owner, lop) => hide Limiter.Next;
  }

  lemma CompleteContent(s: State, g: Gid, token: string, requeueAfter: Option<nat>, gid: Gid)
    ensures ContentKept(s, Complete(s, g, token, requeueAfter).0, gid)
  {
    var t := Complete(s, g, token, requeueAfter).0;
    assert || (t.groups == s.groups && t.actors == s.actors)
           || (t.groups == s.groups - {g} && t.actors == s.actors - {g})
           || (g in s.groups && t.groups == s.groups[g := s.groups[g].(lease := None)] && t.actors == s.actors);
    hide Complete;
  }

  // ---------- A group leaves once ----------

  lemma IngestRemovesNothing(c: Settings, s: State, op: Op, gid: Gid)
    requires ValidSettings(c) && op.OpIngest? && gid in s.groups
    ensures gid in Next(c, s, op).groups
  {
    if Fresh(s, op) {
      IngestFrame(c, s, op.event, op.current);
      hide Ingest;
      assert ViewOf(Next(c, s, op), gid) == ViewOf(s, gid) || gid == GidFor(c, op.event, op.current, Now(s));
    }
  }

  lemma RemovedOnlyAfterDue(c: Settings, s: State, op: Op, gid: Gid)
    requires ValidSettings(c) && Kept(c, s) && Enabled(s, op)
    requires gid in s.groups && gid !in Next(c, s, op).groups
    ensures DueAt(c, gid) <= Now(Next(c, s, op))
  {
    hide DueAt;
    assert ViewKept(c, gid, s.clock, ViewOf(s, gid));
    match op
    case OpTick(ms) =>
    case OpIngest(e, current, expected) => IngestRemovesNothing(c, s, op, gid);
    case OpClaim(token, expired, candidates) =>
      TakeContent(c, Recover(s, expired), candidates, token, gid);
      RecoverKeeps(c, s, expired);
      assert ViewOf(Recover(s, expired), gid) == ViewOf(s, gid) || gid in expired;
      TakeKeeps(c, Recover(s, expired), candidates, token);
      hide Recover, Take;
    case OpComplete(g, token, requeueAfter) =>
    case OpLimiter(owner, lop) => hide Limiter.Next;
  }

  lemma CreatedOnlyBeforeDue(c: Settings, s: State, op: Op, gid: Gid)
    requires ValidSettings(c) && gid !in s.groups && gid in Next(c, s, op).groups
    ensures Now(s) < DueAt(c, gid) && FreshInto(c, s, op, gid)
  {
    if FreshInto(c, s, op, gid) {
      CurrentBucket(c, op.event, op.current, Now(s));
    } else if !op.OpTick? {
      ContentStep(c, s, op, gid);
    }
  }

  /** The group's hash exists before step k and not after it. */
  ghost predicate Removes(ss: seq<State>, k: nat, gid: Gid)
    requires k + 1 < |ss|
  {
    gid in ss[k].groups && gid !in ss[k + 1].groups
  }

  lemma GoneStep(c: Settings, s: State, op: Op, gid: Gid)
    requires ValidSettings(c) && gid !in s.groups && DueAt(c, gid) <= Now(s)
    ensures gid !in Next(c, s, op).groups
  {
    hide Next, DueAt, FreshInto;
    if gid in Next(c, s, op).groups {
      CreatedOnlyBeforeDue(c, s, op, gid);
    }
  }

  lemma {:induction false} GoneStaysGone(c: Settings, ss: seq<State>, ops: seq<Op>, i: nat, j: nat, gid: Gid)
    requires Run(c, ss, ops) && i <= j < |ss|
    requires gid !in ss[i].groups && DueAt(c, gid) <= Now(ss[i])
    ensures gid !in ss[j].groups
    decreases j
  {
    if i < j {
      GoneStaysGone(c, ss, ops, i, j - 1, gid);
      ClockNeverFalls(c, ss, ops, i, j - 1);
      GoneStep(c, ss[j - 1], ops[j - 1], gid);
      hide Next, DueAt;
    }
  }

  /** A group's hash is removed at most once in any run, and never before its bucket deadline. */
  lemma RemovedOnce(c: Settings, ss: seq<State>, ops: seq<Op>, i: nat, j: nat, gid: Gid)
    requires Run(c, ss, ops) && i < j && j + 1 < |ss|
    requires Removes(ss, i, gid)
    ensures !Removes(ss, j, gid) && DueAt(c, gid) <= Now(ss[i + 1])
  {
    RunKeeps(c, ss, ops, i);
    StepOf(c, ss, ops, i);
    RemovedOnlyAfterDue(c, ss[i], ops[i], gid);
    GoneStaysGone(c, ss, ops, i + 1, j, gid);
  }

  /** The physical TTL is the last resort: no hash is left once the bucket deadline is a whole
      lifetime and grace past. */
  lemma GoneByTtl(c: Settings, ss: seq<State>, ops: seq<Op>, j: nat, gid: Gid)
    requires Run(c, ss, ops) && j < |ss| && Now(ss[j]) >= DueAt(c, gid) + PhysicalTtl(c)
    ensures gid !in ss[j].groups
  {
    RunKeeps(c, ss, ops, j);
    assert ViewKept(c, gid, ss[j].clock, ViewOf(ss[j], gid));
  }

  lemma {:induction false} Leaves(ss: seq<State>, i: nat, j: nat, gid: Gid) returns (k: nat)
    requires i <= j < |ss| && gid in ss[i].groups && gid !in ss[j].groups
    ensures i <= k < j && Removes(ss, k, gid)
    decreases j
  {
    if gid in ss[j - 1].groups {
      k := j - 1;
    } else {
      k := Leaves(ss, i, j - 1, gid);
    }
  }

  /** A group's hash is removed exactly once in any run that reaches the end of its physical life:
      after some step between, by then, and after no other step of the run. */
  lemma RemovedExactlyOnce(c: Settings, ss: seq<State>, ops: seq<Op>, i: nat, j: nat, gid: Gid) returns (k: nat)
    requires Run(c, ss, ops) && i <= j < |ss| && gid in ss[i].groups
    requires Now(ss[j]) >= DueAt(c, gid) + PhysicalTtl(c)
    ensures i <= k < j && Removes(ss, k, gid) && DueAt(c, gid) <= Now(ss[k + 1])
    ensures forall m :: 0 <= m && m + 1 < |ss| && Removes(ss, m, gid) ==> m == k
  {
    GoneByTtl(c, ss, ops, j, gid);
    k := Leaves(ss, i, j, gid);
    hide Next, DueAt, Removes;
    forall m | 0 <= m && m + 1 < |ss| && Removes(ss, m, gid) ensures m == k {
      if m < k {
        RemovedOnce(c, ss, ops, m, k, gid);
      } else if k < m {
        RemovedOnce(c, ss, ops, k, m, gid);
      }
    }
    RemovedAfterDue(c, ss, ops, k, gid);
  }

  lemma RemovedAfterDue(c: Settings, ss: seq<State>, ops: seq<Op>, k: nat, gid: Gid)
    requires Run(c, ss, ops) && k + 1 < |ss| && Removes(ss, k, gid)
    ensures DueAt(c, gid) <= Now(ss[k + 1])
  {
    RunKeeps(c, ss, ops, k);
    StepOf(c, ss, ops, k);
    RemovedOnlyAfterDue(c, ss[k], ops[k], gid);
  }

  /** How a group with pending work can leave: its owner completes it, a script finds it at or past
      its logical lifetime, or its key outlives that lifetime by the whole grace. */
  lemma PendingLeaves(c: Settings, s: State, op: Op, gid: Gid)
    requires ValidSettings(c) && Kept(c, s) && Enabled(s, op)
    requires gid in s.groups && s.groups[gid].pending > 0 && gid !in Next(c, s, op).groups
    ensures var g := s.groups[gid];
      || (op.OpComplete? && op.gid == gid && g.lease == Some(op.token)
          && (op.requeueAfter.None? || Now(s) + op.requeueAfter.value >= g.expiresAt))
      || (op.OpClaim? && gid in s.leases && s.leases[gid] <= Now(s) && Now(s) >= g.expiresAt)
      || (op.OpTick? && Next(c, s, op).clock > 1000 * (g.expiresAt + c.grace))
  {
    hide DueAt;
    assert ViewKept(c, gid, s.clock, ViewOf(s, gid));
    match op
    case OpTick(ms) =>
    case OpIngest(e, current, expected) => IngestRemovesNothing(c, s, op, gid);
    case OpClaim(token, expired, candidates) =>
      TakeContent(c, Recover(s, expired), candidates, token, gid);
      RecoveryDropsExpired(s, expired, gid);
      hide Recover, Take;
    case OpComplete(g, token, requeueAfter) =>
    case OpLimiter(owner, lop) => hide Limiter.Next;
  }

  lemma {:induction false} RecoveryDropsExpired(s: State, expired: seq<Gid>, gid: Gid)
    requires gid in s.groups && s.groups[gid].pending > 0 && gid !in Recover(s, expired).groups
    ensures gid in expired && Now(s) >= s.groups[gid].expiresAt
    decreases |expired|
  {
    if expired != [] {
      var t := RecoverOne(s, expired[0]);
      if gid in t.groups {
        RecoveryDropsExpired(t, expired[1..], gid);
      }
    }
  }

  // ---------- Ownership tokens ----------

  /** The completion finds its own token on the group. */
  predicate Effective(s: State, op: Op) {
    op.OpComplete? && op.gid in s.groups && s.groups[op.gid].lease == Some(op.token)
  }

  /** Each claim mints its own token. */
  ghost predicate FreshTokens(ops: seq<Op>) {
    forall i, j :: 0 <= i < j < |ops| && ops[i].OpClaim? && ops[j].OpClaim? ==> ops[i].token != ops[j].token
  }

  ghost predicate Unheld(s: State, token: string) {
    forall gid :: gid in s.groups ==> s.groups[gid].lease != Some(token)
  }

  ghost predicate OneHolder(s: State, token: string) {
    forall g, h ::
      g in s.groups && h in s.groups && s.groups[g].lease == Some(token) && s.groups[h].lease == Some(token) ==>
        g == h
  }

  /** Only a claim puts a token on a group. */
  lemma TokenStep(c: Settings, s: State, op: Op, gid: Gid)
    requires ValidSettings(c) && gid in Next(c, s, op).groups && Next(c, s, op).groups[gid].lease.Some?
    ensures || (gid in s.groups && Next(c, s, op).groups[gid].lease == s.groups[gid].lease)
            || (op.OpClaim? && Next(c, s, op).groups[gid].lease == Some(op.token)
               && Claim(c, s, op.token, op.expired, op.candidates).1 == Some(gid))
  {
    match op
    case OpTick(ms) =>
    case OpIngest(e, current, expected) =>
      if Fresh(s, op) {
        IngestFrame(c, s, e, current);
        hide Ingest;
        assert ViewOf(Next(c, s, op), gid) == ViewOf(s, gid) || gid == GidFor(c, e, current, Now(s));
      }
    case OpClaim(token, expired, candidates) =>
      RecoverContent(s, expired, gid);
      TakeToken(c, Recover(s, expired), candidates, token, gid);
    case OpComplete(g, token, requeueAfter) =>
    case OpLimiter(owner, lop) => hide Limiter.Next;
  }

  lemma {:induction false} TakeToken(c: Settings, s: State, candidates: seq<Gid>, token: string, gid: Gid)
    requires gid in Take(c, s, candidates, token).0.groups
    ensures var (t, claimed) := Take(c, s, candidates, token);
      && gid in s.groups
      && (if claimed == Some(gid) then t.groups[gid].lease == Some(token) else t.groups[gid] == s.groups[gid])
    decreases |candidates|
  {
    if candidates != [] && candidates[0] !in s.groups {
      TakeToken(c, s.(due := s.due - {candidates[0]}), candidates[1..], token, gid);
    }
  }

  lemma UnheldStep(c: Settings, s: State, op: Op, token: string)
    requires ValidSettings(c) && Unheld(s, token)
    ensures !(op.OpClaim? && op.token == token) ==> Unheld(Next(c, s, op), token)
    ensures OneHolder(Next(c, s, op), token)
  {
    var t := Next(c, s, op);
    forall gid | gid in t.groups && t.groups[gid].lease == Some(token)
      ensures op.OpClaim? && op.token == token && Claim(c, s, op.token, op.expired, op.candidates).1 == Some(gid)
    {
      TokenStep(c, s, op, gid);
    }
  }

  lemma OneHolderStep(c: Settings, s: State, op: Op, token: string)
    requires ValidSettings(c) && OneHolder(s, token) && !(op.OpClaim? && op.token == token)
    ensures OneHolder(Next(c, s, op), token)
    ensures Effective(s, op) && op.token == token ==> Unheld(Next(c, s, op), token)
  {
    var t := Next(c, s, op);
    forall gid | gid in t.groups && t.groups[gid].lease == Some(token)
      ensures gid in s.groups && s.groups[gid].lease == Some(token) && !(Effective(s, op) && op.gid == gid)
    {
      TokenStep(c, s, op, gid);
    }
  }

  lemma {:induction false} RunTokens(c: Settings, ss: seq<State>, ops: seq<Op>, j: nat, token: string)
    requires Run(c, ss, ops) && FreshTokens(ops) && j < |ss|
    ensures OneHolder(ss[j], token)
    ensures (forall i :: 0 <= i < j ==> !(ops[i].OpClaim? && ops[i].token == token)) ==> Unheld(ss[j], token)
    decreases j
  {
    if j > 0 {
      RunTokens(c, ss, ops, j - 1, token);
      hide Next, Unheld, OneHolder;
      if ops[j - 1].OpClaim? && ops[j - 1].token == token {
        UnheldStep(c, ss[j - 1], ops[j - 1], token);
      } else {
        OneHolderStep(c, ss[j - 1], ops[j - 1], token);
        if forall i :: 0 <= i < j ==> !(ops[i].OpClaim? && ops[i].token == token) {
          UnheldStep(c, ss[j - 1], ops[j - 1], token);
        }
      }
      assert ss[j] == Next(c, ss[j - 1], ops[j - 1]);
    }
  }

  lemma {:induction false} StaysUnheld(c: Settings, ss: seq<State>, ops: seq<Op>, i: nat, j: nat, token: string)
    requires Run(c, ss, ops) && i <= j < |ss| && Unheld(ss[i], token)
    requires forall k :: i <= k < j ==> !(ops[k].OpClaim? && ops[k].token == token)
    ensures Unheld(ss[j], token)
    decreases j
  {
    if i < j {
      StaysUnheld(c, ss, ops, i, j - 1, token);
      UnheldStep(c, ss[j - 1], ops[j - 1], token);
    }
  }

  /** Each claim token completes at most once. */
  lemma CompletesOnce(c: Settings, ss: seq<State>, ops: seq<Op>, i: nat, j: nat)
    requires Run(c, ss, ops) && FreshTokens(ops) && i < j < |ops|
    requires Effective(ss[i], ops[i]) && ops[j].OpComplete? && ops[j].token == ops[i].token
    ensures !Effective(ss[j], ops[j])
  {
    var token := ops[i].token;
    RunTokens(c, ss, ops, i, token);
    assert !Unheld(ss[i], token);
    var a :| 0 <= a < i && ops[a].OpClaim? && ops[a].token == token;
    OneHolderStep(c, ss[i], ops[i], token);
    assert ss[i + 1] == Next(c, ss[i], ops[i]);
    hide Next, Run;
    StaysUnheld(c, ss, ops, i + 1, j, token);
  }

  /** A completion by anyone but the owner changes nothing at all. */
  lemma NonOwnerChangesNothing(s: State, gid: Gid, token: string, requeueAfter: Option<nat>)
    ensures Complete(s, gid, token, requeueAfter).1 == NotOwner <==> !Effective(s, OpComplete(gid, token, requeueAfter))
    ensures Complete(s, gid, token, requeueAfter).1 == NotOwner ==> Complete(s, gid, token, requeueAfter).0 == s
  {
  }

  // ---------- Leases exclude each other ----------

  ghost predicate Claims(c: Settings, s: State, op: Op, gid: Gid) {
    op.OpClaim? && Claim(c, s, op.token, op.expired, op.candidates).1 == Some(gid)
  }

  /** The lease taken at second `at` under this token still stands, or has run out. */
  ghost predicate LeaseStands(c: Settings, s: State, gid: Gid, token: string, at: nat) {
    || (gid in s.leases && s.leases[gid] == at + c.lease && (gid in s.groups ==> s.groups[gid].lease == Some(token)))
    || Now(s) >= at + c.lease
  }

  lemma {:induction false} TakeLeases(c: Settings, s: State, candidates: seq<Gid>, token: string, gid: Gid)
    requires Take(c, s, candidates, token).1 == Some(gid)
    ensures var t := Take(c, s, candidates, token).0;
      && gid in candidates && gid in s.groups && t.clock == s.clock
      && gid in t.leases && t.leases[gid] == Now(s) + c.lease && gid in t.groups && t.groups[gid].lease == Some(token)
    decreases |candidates|
  {
    if candidates[0] !in s.groups {
      TakeLeases(c, s.(due := s.due - {candidates[0]}), candidates[1..], token, gid);
    }
  }

  lemma {:induction false} RecoverClock(s: State, expired: seq<Gid>)
    ensures Recover(s, expired).clock == s.clock
    decreases |expired|
  {
    if expired != [] { RecoverClock(RecoverOne(s, expired[0]), expired[1..]); }
  }

  /** A claim cannot touch a group whose lease is live. */
  lemma LiveLeaseUntouched(c: Settings, s: State, op: Op, gid: Gid)
    requires ValidSettings(c) && Kept(c, s) && op.OpClaim? && Enabled(s, op)
    requires gid in s.leases && s.leases[gid] > Now(s)
    ensures ViewOf(Next(c, s, op), gid) == ViewOf(s, gid) && !Claims(c, s, op, gid)
  {
    var r := Recover(s, op.expired);
    RecoverKeeps(c, s, op.expired);
    assert ViewOf(r, gid) == ViewOf(s, gid);
    assert ViewKept(c, gid, r.clock, ViewOf(r, gid));
    hide Recover, DueAt;
    TakeKeeps(c, r, op.candidates, op.token);
    if Claims(c, s, op, gid) {
      TakeLeases(c, r, op.candidates, op.token, gid);
    }
  }

  lemma LeaseStep(c: Settings, s: State, op: Op, gid: Gid, token: string, at: nat)
    requires ValidSettings(c) && Kept(c, s) && Enabled(s, op)
    requires LeaseStands(c, s, gid, token, at) && !(Effective(s, op) && op.gid == gid && op.token == token)
    ensures LeaseStands(c, Next(c, s, op), gid, token, at)
  {
    NextKeeps(c, s, op);
    hide DueAt;
    if Now(s) < at + c.lease {
      assert ViewKept(c, gid, s.clock, ViewOf(s, gid));
      match op
      case OpTick(ms) =>
      case OpIngest(e, current, expected) =>
        if Fresh(s, op) {
          LeasedBucketClosed(c, s, e, current, gid);
          IngestFrame(c, s, e, current);
          hide Ingest;
          assert ViewOf(Next(c, s, op), gid) == ViewOf(s, gid);
        }
      case OpClaim(t, expired, candidates) => LiveLeaseUntouched(c, s, op, gid); hide Claim;
      case OpComplete(g, t, requeueAfter) =>
        if g == gid { hide Kept; }
        else {
          CompleteKeeps(c, s, g, t, requeueAfter);
          assert ViewOf(Next(c, s, op), gid) == ViewOf(s, gid);
        }
      case OpLimiter(owner, lop) => hide Limiter.Next;
    }
  }

  lemma LeasedBucketClosed(c: Settings, s: State, e: Event, current: nat, gid: Gid)
    requires ValidSettings(c) && Kept(c, s) && gid in s.leases
    ensures GidFor(c, e, current, Now(s)) != gid
  {
    assert ViewKept(c, gid, s.clock, ViewOf(s, gid));
    CurrentBucket(c, e, current, Now(s));
  }

  lemma {:induction false} LeaseHolds(c: Settings, ss: seq<State>, ops: seq<Op>, i: nat, j: nat, gid: Gid)
    requires Run(c, ss, ops) && i < j < |ss|
    requires Claims(c, ss[i], ops[i], gid)
    requires forall k :: i < k < j ==> !(Effective(ss[k], ops[k]) && ops[k].gid == gid && ops[k].token == ops[i].token)
    ensures LeaseStands(c, ss[j], gid, ops[i].token, Now(ss[i]))
    decreases j
  {
    StepOf(c, ss, ops, j - 1);
    if j == i + 1 {
      RecoverClock(ss[i], ops[i].expired);
      TakeLeases(c, Recover(ss[i], ops[i].expired), ops[i].candidates, ops[i].token, gid);
    } else {
      hide Next, Enabled, LeaseStands, Claims;
      LeaseHolds(c, ss, ops, i, j - 1, gid);
      RunKeeps(c, ss, ops, j - 1);
      LeaseStep(c, ss[j - 1], ops[j - 1], gid, ops[i].token, Now(ss[i]));
    }
  }

  /** A group is claimed again only after its owner completed the earlier claim, or after that
      lease ran out. */
  lemma LeaseExcludes(c: Settings, ss: seq<State>, ops: seq<Op>, i: nat, j: nat, gid: Gid)
    requires Run(c, ss, ops) && i < j < |ops|
    requires Claims(c, ss[i], ops[i], gid) && Claims(c, ss[j], ops[j], gid)
    ensures || (exists k :: i < k < j && Effective(ss[k], ops[k]) && ops[k].gid == gid && ops[k].token == ops[i].token)
            || Now(ss[j]) >= Now(ss[i]) + c.lease
  {
    if forall k :: i < k < j ==> !(Effective(ss[k], ops[k]) && ops[k].gid == gid && ops[k].token == ops[i].token) {
      LeaseHolds(c, ss, ops, i, j, gid);
      RunKeeps(c, ss, ops, j);
      StepOf(c, ss, ops, j);
      if Now(ss[j]) < Now(ss[i]) + c.lease {
        LiveLeaseUntouched(c, ss[j], ops[j], gid);
      }
    }
  }

  /** Two flushes of one group never overlap: when the claim reply takes at most one flush timeout
      and the flush is cut off after another, it is over before the next claim unless its own
      completion already ended it. */
  lemma FlushesNeverOverlap(c: Settings, ss: seq<State>, ops: seq<Op>, i: nat, j: nat, gid: Gid, start: nat, end: nat)
    requires Run(c, ss, ops) && i < j < |ops|
    requires Claims(c, ss[i], ops[i], gid) && Claims(c, ss[j], ops[j], gid)
    requires start <= ss[i].clock + 1000 * c.flushTimeout && end <= start + 1000 * c.flushTimeout
    ensures || end < ss[j].clock
            || exists k :: i < k < j && Effective(ss[k], ops[k]) && ops[k].gid == gid && ops[k].token == ops[i].token
  {
    LeaseExcludes(c, ss, ops, i, j, gid);
  }
}
