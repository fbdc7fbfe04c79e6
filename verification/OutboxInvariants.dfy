/** What every outbox script keeps about each group, whatever ingests, claims, lease recoveries,
    late completions and key expiries interleave. */
module OutboxInvariants {
  import opened Redis
  import Limiter
  import opened Outbox

  /** Everything the scripts hold about one group id. */
  datatype View = View(group: Option<Group>, due: Option<nat>, lease: Option<nat>)

  function Lookup<K, V>(m: map<K, V>, k: K): Option<V> {
    if k in m then Some(m[k]) else None
  }

  function ViewOf(s: State, gid: Gid): View {
    View(Lookup(s.groups, gid), Lookup(s.due, gid), Lookup(s.leases, gid))
  }

  /** A live group's hash: its bucket deadline, lifetimes, counters and place in the indexes. */
  ghost predicate HashKept(c: Settings, gid: Gid, clock: nat, g: Group, v: View) {
    && g.due == DueAt(c, gid)
    && DueAt(c, gid) + c.lease < g.expiresAt <= Seconds(clock) + c.groupTtl
    && g.expiresAt < DueAt(c, gid) + c.groupTtl
    && clock <= g.deadline < 1000 * (DueAt(c, gid) + PhysicalTtl(c))
    && 1000 * (if g.pending > 0 then g.expiresAt + c.grace else DueAt(c, gid)) <= g.deadline
    && (g.pending > 0 <==> v.due.Some? || v.lease.Some?)
    && (g.lease.Some? ==> DueAt(c, gid) <= Seconds(clock) && g.pending > 0)
    && (v.lease.Some? ==> g.lease.Some?)
    && (gid.Digest? ==> g.pending == g.likes + g.reposts)
  }

  /** At most one index holds a group, none before its bucket deadline, and an entry without a hash
      belongs to a bucket that is over. */
  ghost predicate ViewKept(c: Settings, gid: Gid, clock: nat, v: View) {
    && (v.group.Some? ==> HashKept(c, gid, clock, v.group.value, v))
    && !(v.due.Some? && v.lease.Some?)
    && (v.due.Some? ==> DueAt(c, gid) <= v.due.value && (v.group.None? ==> DueAt(c, gid) <= Seconds(clock)))
    && (v.lease.Some? ==> DueAt(c, gid) <= Seconds(clock))
  }

  ghost predicate Kept(c: Settings, s: State) {
    forall gid :: ViewKept(c, gid, s.clock, ViewOf(s, gid))
  }

  // ---------- Bucket arithmetic ----------

  lemma BucketBounds(window: nat, now: nat)
    requires 0 < window
    ensures (now / window) * window <= now < (now / window + 1) * window <= now + window
  {
  }

  /** Ingest at any time joins the bucket whose deadline is next. */
  lemma CurrentBucket(c: Settings, e: Event, generation: nat, now: nat)
    requires ValidSettings(c)
    ensures now < DueAt(c, GidFor(c, e, generation, now)) <= now + c.window
  {
    BucketBounds(c.window, now);
  }

  // ---------- Frames: each script touches one group at a time ----------

  /** The states agree on every group but one. */
  ghost predicate OnlyTouches(s: State, t: State, gid: Gid) {
    && t.clock == s.clock
    && forall k :: k != gid ==> ViewOf(t, k) == ViewOf(s, k)
  }

  lemma TouchKeeps(c: Settings, s: State, t: State, gid: Gid)
    requires Kept(c, s) && OnlyTouches(s, t, gid)
    requires ViewKept(c, gid, t.clock, ViewOf(t, gid))
    ensures Kept(c, t)
  {
    forall k ensures ViewKept(c, k, t.clock, ViewOf(t, k)) {
      if k != gid {
        assert ViewOf(t, k) == ViewOf(s, k);
      }
    }
  }

  /** A group an ingest may still change: its bucket is open, so nobody has claimed it. */
  ghost predicate StillOpen(c: Settings, s: State, gid: Gid, g: Group) {
    && Now(s) < DueAt(c, gid)
    && g.due == DueAt(c, gid) && DueAt(c, gid) + c.lease < g.expiresAt <= Now(s) + c.groupTtl
    && g.expiresAt < DueAt(c, gid) + c.groupTtl
    && g.lease.None?
    && (gid.Digest? ==> g.pending == g.likes + g.reposts)
  }

  lemma OpenedIsOpen(c: Settings, s: State, e: Event, generation: nat)
    requires ValidSettings(c) && Kept(c, s)
    ensures var gid := GidFor(c, e, generation, Now(s)); StillOpen(c, s, gid, Opened(c, s, gid, generation))
  {
    CurrentBucket(c, e, generation, Now(s));
    var gid := GidFor(c, e, generation, Now(s));
    assert ViewKept(c, gid, s.clock, ViewOf(s, gid));
  }

  lemma EnqueueKeeps(c: Settings, s: State, e: Event, gid: Gid, g: Group)
    requires ValidSettings(c) && Kept(c, s) && StillOpen(c, s, gid, g) && g.pending > 0
    ensures Kept(c, Enqueue(c, s, e, gid, g))
  {
    var t := Enqueue(c, s, e, gid, g);
    assert ViewKept(c, gid, s.clock, ViewOf(s, gid));
    hide DueAt;
    TouchKeeps(c, s, t, gid);
  }

  lemma SendNowKeeps(c: Settings, s: State, e: Event, gid: Gid, g: Group)
    requires ValidSettings(c) && Kept(c, s) && StillOpen(c, s, gid, g) && DueAt(c, gid) <= Now(s) + c.window
    requires c.immediateLimit > 0 && (gid in s.groups ==> g.pending == s.groups[gid].pending)
      && (gid !in s.groups ==> g.pending == 0)
    ensures Kept(c, SendNow(c, s, e, gid, g))
  {
    var t := SendNow(c, s, e, gid, g);
    assert ViewKept(c, gid, s.clock, ViewOf(s, gid));
    hide DueAt;
    TouchKeeps(c, s, t, gid);
  }

  lemma IngestKeeps(c: Settings, s: State, e: Event, current: nat, expected: nat)
    requires ValidSettings(c) && Kept(c, s)
    ensures Kept(c, Ingest(c, s, e, current, expected).0)
  {
    if current == expected && (e.id, e.owner) !in s.dispositions {
      var gid := GidFor(c, e, current, Now(s));
      var g := Opened(c, s, gid, current);
      OpenedIsOpen(c, s, e, current);
      CurrentBucket(c, e, current, Now(s));
      assert ViewKept(c, gid, s.clock, ViewOf(s, gid));
      if c.immediateLimit == 0 {
        DigestKeeps(c, s, e, gid, g);
      } else {
        var (limiter, sent) := Limiter.Emit(c.limits, LimiterOf(s, e.owner), e.id);
        var t := s.(limiters := s.limiters[e.owner := limiter]);
        assert forall k :: ViewOf(t, k) == ViewOf(s, k);
        BufferKeeps(c, s, e, gid, g);
        BufferKeeps(c, t, e, gid, g);
        SendNowKeeps(c, t, e, gid, g);
        hide Buffer, SendNow, Kept;
      }
    }
  }

  lemma DigestKeeps(c: Settings, s: State, e: Event, gid: Gid, g: Group)
    requires ValidSettings(c) && Kept(c, s) && StillOpen(c, s, gid, g) && gid.Digest?
    ensures Kept(c, IngestDigest(c, s, e, gid, g).0)
  {
    var action := Action(e.category, e.actor, e.target);
    if action in g.actions {
      var t := IngestDigest(c, s, e, gid, g).0;
      assert forall k :: ViewOf(t, k) == ViewOf(s, k);
    } else if Total(g, e.category) < MAX_ACTIONS_PER_CATEGORY {
      var counted := if e.category.Like? then g.(actions := g.actions + {action}, likes := g.likes + 1)
        else g.(actions := g.actions + {action}, reposts := g.reposts + 1);
      EnqueueKeeps(c, s, e, gid, counted.(pending := g.pending + 1));
    } else {
      EnqueueKeeps(c, s, e, gid, if e.category.Like? then g.(likesBound := true) else g.(repostsBound := true));
    }
  }

  lemma BufferKeeps(c: Settings, s: State, e: Event, gid: Gid, g: Group)
    requires ValidSettings(c) && Kept(c, s) && StillOpen(c, s, gid, g) && gid.Legacy?
    ensures Kept(c, Buffer(c, s, e, gid, g))
  {
    var known := if gid in s.actors then s.actors[gid].members else {};
    var t := s.(actors := s.actors[gid := Actors(known + {e.actor}, Deadline(s.clock, PhysicalTtl(c)))]);
    assert forall k :: ViewOf(t, k) == ViewOf(s, k);
    EnqueueKeeps(c, t, e, gid, g.(pending := g.pending + 1, firstActor := Some(g.firstActor.GetOr(e.actor))));
  }

  // ---------- Time, claims, completions ----------

  lemma TickKeeps(c: Settings, s: State, ms: nat)
    requires ValidSettings(c) && Kept(c, s)
    ensures Kept(c, Tick(s, ms))
  {
    var t := Tick(s, ms);
    hide DueAt;
    forall gid ensures ViewKept(c, gid, t.clock, ViewOf(t, gid)) {
      assert ViewKept(c, gid, s.clock, ViewOf(s, gid));
    }
  }

  lemma UnleasedView(s: State, gid: Gid)
    ensures var t := s.(leases := s.leases - {gid});
      OnlyTouches(s, t, gid) && ViewOf(t, gid) == ViewOf(s, gid).(lease := None)
  {
  }

  lemma RemovedView(s: State, gid: Gid)
    ensures OnlyTouches(s, Removed(s, gid), gid) && ViewOf(Removed(s, gid), gid) == ViewOf(s, gid).(group := None)
  {
  }

  lemma RequeuedView(s: State, gid: Gid, score: nat)
    ensures var t := s.(due := s.due[gid := score]);
      OnlyTouches(s, t, gid) && ViewOf(t, gid) == ViewOf(s, gid).(due := Some(score))
  {
  }

  lemma RecoverOneKeeps(c: Settings, s: State, gid: Gid)
    requires ValidSettings(c) && Kept(c, s) && gid in s.leases
    ensures Kept(c, RecoverOne(s, gid))
    ensures OnlyTouches(s, RecoverOne(s, gid), gid)
  {
    assert ViewKept(c, gid, s.clock, ViewOf(s, gid));
    DuePositive(c, gid);
    UnleasedView(s, gid);
    var t := s.(leases := s.leases - {gid});
    assert t.due == s.due;
    hide DueAt, Kept, OnlyTouches;
    if gid in s.groups && s.groups[gid].pending > 0 && Now(s) < s.groups[gid].expiresAt {
      RequeuedView(t, gid, s.groups[gid].due);
      TouchKeeps2(c, s, t, RecoverOne(s, gid), gid);
    } else {
      RemovedView(t, gid);
      TouchKeeps2(c, s, t, RecoverOne(s, gid), gid);
    }
  }

  lemma TouchKeeps2(c: Settings, s: State, m: State, t: State, gid: Gid)
    requires Kept(c, s) && OnlyTouches(s, m, gid) && OnlyTouches(m, t, gid)
    requires ViewKept(c, gid, t.clock, ViewOf(t, gid))
    ensures Kept(c, t) && OnlyTouches(s, t, gid)
  {
    TouchKeeps(c, s, t, gid);
  }

  lemma DuePositive(c: Settings, gid: Gid)
    requires ValidSettings(c)
    ensures DueAt(c, gid) >= c.window > 0
  {
  }

  lemma {:induction false} RecoverKeeps(c: Settings, s: State, expired: seq<Gid>)
    requires ValidSettings(c) && Kept(c, s)
    requires forall i :: 0 <= i < |expired| ==> expired[i] in s.leases
    requires forall i, j :: 0 <= i < j < |expired| ==> expired[i] != expired[j]
    ensures var t := Recover(s, expired);
      && Kept(c, t) && t.clock == s.clock
      && (forall k :: k !in expired ==> ViewOf(t, k) == ViewOf(s, k))
    decreases |expired|
  {
    if expired != [] {
      var first := RecoverOne(s, expired[0]);
      RecoverOneKeeps(c, s, expired[0]);
      forall i | 0 <= i < |expired[1..]| ensures expired[1..][i] in first.leases {
        assert expired[1..][i] == expired[i + 1] != expired[0];
      }
      hide RecoverOne;
      RecoverKeeps(c, first, expired[1..]);
      forall k | k !in expired ensures ViewOf(Recover(s, expired), k) == ViewOf(s, k) {
        assert k != expired[0] && k !in expired[1..];
      }
    }
  }

  lemma {:induction false} TakeKeeps(c: Settings, s: State, candidates: seq<Gid>, token: string)
    requires ValidSettings(c) && Kept(c, s)
    requires forall i :: 0 <= i < |candidates| ==> candidates[i] in s.due && s.due[candidates[i]] <= Now(s)
    requires forall i, j :: 0 <= i < j < |candidates| ==> candidates[i] != candidates[j]
    ensures var (t, claimed) := Take(c, s, candidates, token);
      && Kept(c, t) && t.clock == s.clock
      && (forall k :: k !in candidates ==> ViewOf(t, k) == ViewOf(s, k))
    decreases |candidates|
  {
    if candidates != [] {
      var gid := candidates[0];
      assert ViewKept(c, gid, s.clock, ViewOf(s, gid));
      var t := s.(due := s.due - {gid});
      hide DueAt;
      if gid !in s.groups {
        TouchKeeps(c, s, t, gid);
        forall i | 0 <= i < |candidates[1..]|
          ensures candidates[1..][i] in t.due && t.due[candidates[1..][i]] <= Now(t) {
          assert candidates[1..][i] == candidates[i + 1] != candidates[0];
        }
        TakeKeeps(c, t, candidates[1..], token);
        forall k | k !in candidates ensures ViewOf(Take(c, s, candidates, token).0, k) == ViewOf(s, k) {
          assert k != candidates[0] && k !in candidates[1..];
        }
      } else {
        TouchKeeps(c, s, Take(c, s, candidates, token).0, gid);
      }
    }
  }

  lemma ClaimKeeps(c: Settings, s: State, token: string, expired: seq<Gid>, candidates: seq<Gid>)
    requires ValidSettings(c) && Kept(c, s) && ClaimReads(s, expired, candidates)
    ensures Kept(c, Claim(c, s, token, expired, candidates).0)
  {
    RecoverKeeps(c, s, expired);
    TakeKeeps(c, Recover(s, expired), candidates, token);
  }

  lemma CompleteKeeps(c: Settings, s: State, gid: Gid, token: string, requeueAfter: Option<nat>)
    requires ValidSettings(c) && Kept(c, s)
    ensures Kept(c, Complete(s, gid, token, requeueAfter).0)
    ensures OnlyTouches(s, Complete(s, gid, token, requeueAfter).0, gid)
  {
    assert ViewKept(c, gid, s.clock, ViewOf(s, gid));
    hide DueAt;
    TouchKeeps(c, s, Complete(s, gid, token, requeueAfter).0, gid);
  }

  lemma NextKeeps(c: Settings, s: State, op: Op)
    requires ValidSettings(c) && Kept(c, s) && Enabled(s, op)
    ensures Kept(c, Next(c, s, op)) && s.clock <= Next(c, s, op).clock
  {
    match op
    case OpTick(ms) => TickKeeps(c, s, ms);
    case OpIngest(e, current, expected) => IngestKeeps(c, s, e, current, expected);
      IngestClock(c, s, e, current, expected);
    case OpClaim(token, expired, candidates) =>
      ClaimKeeps(c, s, token, expired, candidates);
      RecoverKeeps(c, s, expired);
      TakeKeeps(c, Recover(s, expired), candidates, token);
    case OpComplete(gid, token, requeueAfter) => CompleteKeeps(c, s, gid, token, requeueAfter);
    case OpLimiter(owner, lop) => assert forall k :: ViewOf(Next(c, s, op), k) == ViewOf(s, k);
  }

  lemma IngestClock(c: Settings, s: State, e: Event, current: nat, expected: nat)
    requires ValidSettings(c)
    ensures Ingest(c, s, e, current, expected).0.clock == s.clock
  {
    hide IngestDigest, Buffer, SendNow, Limiter.Emit, Opened;
    if current == expected && (e.id, e.owner) !in s.dispositions {
      var gid := GidFor(c, e, current, Now(s));
      var g := Opened(c, s, gid, current);
      var t := s.(limiters := s.limiters[e.owner := Limiter.Emit(c.limits, LimiterOf(s, e.owner), e.id).0]);
      WritesKeepClock(c, s, e, gid, g);
      WritesKeepClock(c, t, e, gid, g);
    }
  }

  lemma WritesKeepClock(c: Settings, s: State, e: Event, gid: Gid, g: Group)
    ensures Buffer(c, s, e, gid, g).clock == s.clock
    ensures SendNow(c, s, e, gid, g).clock == s.clock
    ensures IngestDigest(c, s, e, gid, g).0.clock == s.clock
  {
    BufferKeepsClock(c, s, e, gid, g);
    SendNowKeepsClock(c, s, e, gid, g);
    DigestKeepsClock(c, s, e, gid, g);
    hide Buffer, SendNow, IngestDigest;
  }

  lemma BufferKeepsClock(c: Settings, s: State, e: Event, gid: Gid, g: Group)
    ensures Buffer(c, s, e, gid, g).clock == s.clock
  {
    hide DueAt, PhysicalTtl, DispositionTtl;
  }

  lemma SendNowKeepsClock(c: Settings, s: State, e: Event, gid: Gid, g: Group)
    ensures SendNow(c, s, e, gid, g).clock == s.clock
  {
    hide PhysicalTtl, DispositionTtl;
  }

  lemma EnqueueKeepsClock(c: Settings, s: State, e: Event, gid: Gid, g: Group)
    ensures Enqueue(c, s, e, gid, g).clock == s.clock
  {
    hide DueAt, PhysicalTtl, DispositionTtl;
  }

  lemma DigestKeepsClock(c: Settings, s: State, e: Event, gid: Gid, g: Group)
    ensures IngestDigest(c, s, e, gid, g).0.clock == s.clock
  {
    forall h ensures Enqueue(c, s, e, gid, h).clock == s.clock {
      EnqueueKeepsClock(c, s, e, gid, h);
    }
    hide Enqueue, Total;
  }

  lemma {:induction false} RunKeeps(c: Settings, ss: seq<State>, ops: seq<Op>, i: nat)
    requires Run(c, ss, ops) && i < |ss|
    ensures Kept(c, ss[i])
    decreases i
  {
    if i > 0 {
      RunKeeps(c, ss, ops, i - 1);
      StepOf(c, ss, ops, i - 1);
      hide Next, Enabled, Kept;
      NextKeeps(c, ss[i - 1], ops[i - 1]);
    }
  }

  lemma {:induction false} ClockNeverFalls(c: Settings, ss: seq<State>, ops: seq<Op>, i: nat, j: nat)
    requires Run(c, ss, ops) && i <= j < |ss|
    ensures ss[i].clock <= ss[j].clock && Now(ss[i]) <= Now(ss[j])
    decreases j
  {
    if i < j {
      ClockNeverFalls(c, ss, ops, i, j - 1);
      RunKeeps(c, ss, ops, j - 1);
      StepOf(c, ss, ops, j - 1);
      hide Next, Enabled, Kept;
      NextKeeps(c, ss[j - 1], ops[j - 1]);
    }
  }

  /** In every state of every run: each live group with pending work is in exactly one index, the
      indexes are disjoint, no due score precedes its bucket deadline, and neither index holds a
      live group without pending work. */
  lemma IndexesPartition(c: Settings, ss: seq<State>, ops: seq<Op>, i: nat)
    requires Run(c, ss, ops) && i < |ss|
    ensures var s := ss[i];
      && s.due.Keys !! s.leases.Keys
      && (forall gid :: gid in s.groups ==> (s.groups[gid].pending > 0 <==> gid in s.due || gid in s.leases))
      && (forall gid :: gid in s.due ==> s.due[gid] >= DueAt(c, gid))
  {
    RunKeeps(c, ss, ops, i);
    var s := ss[i];
    hide DueAt, Run;
    forall gid ensures !(gid in s.due && gid in s.leases)
      && (gid in s.groups ==> (s.groups[gid].pending > 0 <==> gid in s.due || gid in s.leases))
      && (gid in s.due ==> s.due[gid] >= DueAt(c, gid)) {
      assert ViewKept(c, gid, s.clock, ViewOf(s, gid));
    }
  }
}
