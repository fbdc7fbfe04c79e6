/** The outbox's Redis keys, updated in place by the scripts of src/coalesce.rs. Every method is
    proved to do exactly what the corresponding function of `Outbox` says, so the theorems about
    runs are theorems about these keys. */
module OutboxStore {
  import opened Redis
  import Limiter
  import opened Outbox

  /** ZRANGEBYSCORE key -inf now LIMIT 0 limit */
  method ZRangeByScore(z: map<Gid, nat>, now: nat, limit: nat) returns (r: seq<Gid>)
    ensures IsRange(z, now, limit, r)
  {
    r := [];
    var rest := map k | k in z && z[k] <= now :: z[k];
    while |r| < limit && rest.Keys != {}
      invariant |r| <= limit
      invariant forall k :: k in rest ==> k in z && rest[k] == z[k] <= now && k !in r
      invariant forall i :: 0 <= i < |r| ==> r[i] in z && z[r[i]] <= now
      invariant forall i, j :: 0 <= i < j < |r| ==> r[i] != r[j] && z[r[i]] <= z[r[j]]
      invariant forall k, i :: k in rest && 0 <= i < |r| ==> z[r[i]] <= rest[k]
      invariant forall k :: k in z && z[k] <= now && k !in rest ==> k in r
      decreases limit - |r|
    {
      LowestExists(rest);
      var gid :| gid in rest && forall k :: k in rest ==> rest[gid] <= rest[k];
      rest := rest - {gid};
      r := r + [gid];
    }
  }

  lemma LowestExists(z: map<Gid, nat>)
    requires z.Keys != {}
    ensures exists gid :: gid in z && forall k :: k in z ==> z[gid] <= z[k]
    decreases |z.Keys|
  {
    var gid :| gid in z;
    var rest := z - {gid};
    assert forall k :: k in z ==> k == gid || k in rest;
    if rest.Keys != {} {
      CardinalityMonotone(rest.Keys, z.Keys - {gid});
      LowestExists(rest);
      var low :| low in rest && forall k :: k in rest ==> rest[low] <= rest[k];
      var least := if z[low] < z[gid] then low else gid;
      assert least in z && forall k :: k in z ==> z[least] <= z[k];
    }
  }

  class Store {
    var clock: nat
    var groups: map<Gid, Group>
    var actors: map<Gid, Actors>
    var dispositions: map<(string, string), Disposition>
    var due: map<Gid, nat>
    var leases: map<Gid, nat>
    var limiters: map<string, Limiter.State>

    ghost function Value(): State reads this { State(clock, groups, actors, dispositions, due, leases, limiters) }

    constructor (clock: nat)
      ensures Value() == State(clock, map[], map[], map[], map[], map[], map[])
    {
      this.clock := clock;
      groups, actors, dispositions, due, leases, limiters := map[], map[], map[], map[], map[], map[];
    }

    method Advance(ms: nat)
      modifies this
      ensures Value() == Tick(old(Value()), ms)
    {
      clock := clock + ms;
      groups, actors := GroupsAt(groups, clock), ActorsAt(actors, clock);
      dispositions, limiters := DispositionsAt(dispositions, clock), LimitersAfter(limiters, ms);
    }

    // ---------- Ingest ----------

    method IngestEvent(c: Settings, e: Event, current: nat, expected: nat) returns (decision: Decision)
      requires ValidSettings(c)
      modifies this
      ensures (Value(), decision) == Ingest(c, old(Value()), e, current, expected)
    {
      if current != expected { return StaleVisit; }
      if (e.id, e.owner) in dispositions {
        var stored := dispositions[(e.id, e.owner)];
        return if stored.immediate then Immediate(stored.gid) else Buffered(stored.gid);
      }
      var now := Seconds(clock);
      var bucket := now / c.window;
      var digest := c.immediateLimit == 0;
      var gid := if digest then Digest(e.owner, current, bucket) else Legacy(e.category, e.owner, e.target, bucket);
      assert gid == GidFor(c, e, current, now);
      var group := Group((bucket + 1) * c.window, now + c.groupTtl, current, 0, 0, 0, 0, false, false, {}, None,
        None, 0, None, 0);
      if gid in groups { group := groups[gid]; }
      assert group == Opened(c, Value(), gid, current);
      hide Outbox.IngestDigest, Outbox.Buffer, Outbox.SendNow, Limiter.Emit, Opened, DueAt;
      if digest {
        decision := CountAction(c, e, gid, group);
        return;
      }
      if group.immediate < c.immediateLimit {
        var sent := EmitNow(c, e.owner, e.id);
        if sent {
          SendEvent(c, e, gid, group);
          return Immediate(gid);
        }
      }
      BufferEvent(c, e, gid, group);
      decision := Buffered(gid);
    }

    /** Charge the recipient's bucket and emission window for an immediate push. */
    method EmitNow(c: Settings, owner: string, id: string) returns (sent: bool)
      requires ValidSettings(c)
      modifies this`limiters
      ensures var (limiter, taken) := Limiter.Emit(c.limits, LimiterOf(old(Value()), owner), id);
        sent == taken && limiters == old(limiters)[owner := limiter]
    {
      var keys := if owner in limiters then limiters[owner] else Limiter.State(clock, None, Zset(map[], 0));
      var taken := Limiter.Emit(c.limits, keys, id);
      limiters := limiters[owner := taken.0];
      sent := taken.1;
    }

    method SendEvent(c: Settings, e: Event, gid: Gid, group: Group)
      modifies this`groups, this`dispositions
      ensures Value() == SendNow(c, old(Value()), e, gid, group)
    {
      var ttl := if group.pending > 0 then PhysicalTtl(c) else DispositionTtl(c);
      groups := groups[gid := group.(immediate := group.immediate + 1, deadline := Deadline(clock, ttl))];
      StoreDisposition(c, e, true, gid);
    }

    method StoreDisposition(c: Settings, e: Event, immediate: bool, gid: Gid)
      modifies this`dispositions
      ensures Value() == Dispose(c, old(Value()), e, immediate, gid)
    {
      dispositions := dispositions[(e.id, e.owner) := Disposition(immediate, gid, Deadline(clock, DispositionTtl(c)))];
    }

    method CountAction(c: Settings, e: Event, gid: Gid, group: Group) returns (decision: Decision)
      modifies this`groups, this`dispositions, this`due
      ensures (Value(), decision) == IngestDigest(c, old(Value()), e, gid, group)
    {
      hide Outbox.Enqueue, DueAt;
      var action := Action(e.category, e.actor, e.target);
      decision := Buffered(gid);
      if action in group.actions {
        StoreDisposition(c, e, false, gid);
        return;
      }
      var g := group;
      var total := if e.category.Like? then g.likes else g.reposts;
      if total < MAX_ACTIONS_PER_CATEGORY {
        g := g.(actions := g.actions + {action}, pending := g.pending + 1);
        g := if e.category.Like? then g.(likes := total + 1) else g.(reposts := total + 1);
      } else {
        g := if e.category.Like? then g.(likesBound := true) else g.(repostsBound := true);
      }
      EnqueueGroup(c, e, gid, g);
    }

    method BufferEvent(c: Settings, e: Event, gid: Gid, group: Group)
      modifies this`groups, this`actors, this`dispositions, this`due
      ensures Value() == Buffer(c, old(Value()), e, gid, group)
    {
      var known := if gid in actors then actors[gid].members else {};
      actors := actors[gid := Actors(known + {e.actor}, Deadline(clock, PhysicalTtl(c)))];
      var first := if group.firstActor.Some? then group.firstActor else Some(e.actor);
      hide Outbox.Enqueue;
      EnqueueGroup(c, e, gid, group.(pending := group.pending + 1, firstActor := first));
    }

    method EnqueueGroup(c: Settings, e: Event, gid: Gid, group: Group)
      modifies this`groups, this`dispositions, this`due
      ensures Value() == Enqueue(c, old(Value()), e, gid, group)
    {
      var g := group;
      if g.firstEvent.None? { g := g.(firstEvent := Some(e.id)); }
      if e.createdAt > g.lastAt { g := g.(lastAt := e.createdAt); }
      groups := groups[gid := g.(deadline := Deadline(clock, PhysicalTtl(c)))];
      if gid !in due { due := due[gid := DueAt(c, gid)]; }
      StoreDisposition(c, e, false, gid);
    }

    // ---------- Claim ----------

    /** Claim the oldest due group, reconciling expired leases first. The reads the two range
        commands returned are reported as ghosts. */
    method ClaimDue(c: Settings, token: string)
        returns (claimed: Option<Gid>, ghost expired: seq<Gid>, ghost candidates: seq<Gid>)
      modifies this`groups, this`actors, this`due, this`leases
      ensures ClaimReads(old(Value()), expired, candidates)
      ensures (Value(), claimed) == Claim(c, old(Value()), token, expired, candidates)
    {
      var lapsed := ZRangeByScore(leases, Seconds(clock), MAX_RECOVERY_PER_CLAIM);
      RecoverLeases(lapsed);
      var ready := ZRangeByScore(due, Seconds(clock), MAX_DANGLING_SKIPS);
      expired, candidates := lapsed, ready;
      hide Recover, Take, IsRange;
      claimed := TakeFirst(c, ready, token);
    }

    method RecoverLeases(lapsed: seq<Gid>)
      modifies this`groups, this`actors, this`due, this`leases
      ensures Value() == Recover(old(Value()), lapsed)
    {
      var i := 0;
      while i < |lapsed|
        invariant i <= |lapsed|
        invariant Recover(Value(), lapsed[i..]) == Recover(old(Value()), lapsed)
      {
        hide RecoverOne;
        assert lapsed[i..][0] == lapsed[i] && lapsed[i..][1..] == lapsed[i + 1..];
        RecoverLease(lapsed[i]);
        i := i + 1;
      }
    }

    method TakeFirst(c: Settings, ready: seq<Gid>, token: string) returns (claimed: Option<Gid>)
      modifies this`groups, this`due, this`leases
      ensures (Value(), claimed) == Take(c, old(Value()), ready, token)
    {
      claimed := None;
      var i := 0;
      while i < |ready|
        invariant i <= |ready| && claimed.None?
        invariant Take(c, Value(), ready[i..], token) == Take(c, old(Value()), ready, token)
      {
        assert ready[i..][0] == ready[i] && ready[i..][1..] == ready[i + 1..];
        var gid := ready[i];
        due := due - {gid};
        if gid in groups {
          leases := leases[gid := Seconds(clock) + c.lease];
          groups := groups[gid := groups[gid].(lease := Some(token))];
          claimed := Some(gid);
          return;
        }
        i := i + 1;
      }
    }

    method RecoverLease(gid: Gid)
      modifies this`groups, this`actors, this`due, this`leases
      ensures Value() == RecoverOne(old(Value()), gid)
    {
      var now := Seconds(clock);
      var pending := if gid in groups then groups[gid].pending else 0;
      leases := leases - {gid};
      if pending > 0 {
        var expiresAt := groups[gid].expiresAt;
        if expiresAt > 0 && now >= expiresAt {
          groups, actors := groups - {gid}, actors - {gid};
        } else if gid !in due && gid !in leases {
          var dueAt := groups[gid].due;
          if dueAt <= 0 { dueAt := now; }
          due := due[gid := dueAt];
        }
      } else {
        groups, actors := groups - {gid}, actors - {gid};
      }
    }

    // ---------- Completion and snapshots ----------

    method CompleteGroup(gid: Gid, token: string, requeueAfter: Option<nat>) returns (outcome: CompleteOutcome)
      modifies this`groups, this`actors, this`due, this`leases
      ensures (Value(), outcome) == Complete(old(Value()), gid, token, requeueAfter)
    {
      if gid !in groups || groups[gid].lease != Some(token) { return NotOwner; }
      leases := leases - {gid};
      var now := Seconds(clock);
      if requeueAfter.Some? {
        var expiresAt := groups[gid].expiresAt;
        var nextScore := now + requeueAfter.value;
        groups := groups[gid := groups[gid].(lease := None)];
        if expiresAt > 0 && nextScore >= expiresAt {
          groups, actors := groups - {gid}, actors - {gid};
          assert Value() == Complete(old(Value()), gid, token, requeueAfter).0;
          return Expired;
        }
        due := due[gid := nextScore];
        return Requeued;
      }
      groups, actors := groups - {gid}, actors - {gid};
      outcome := Completed;
    }

    /** The first read of a flush. */
    method ReadHash(gid: Gid) returns (hash: Option<Group>)
      ensures hash.Some? <==> gid in groups
      ensures hash.Some? ==> hash.value == groups[gid]
    {
      hash := if gid in groups then Some(groups[gid]) else None;
    }

    /** The second read, made later when the first found the hash; a missing key counts nobody. */
    method CountActors(gid: Gid) returns (count: nat)
      ensures count == if gid in actors then |actors[gid].members| else 0
    {
      count := if gid in actors then |actors[gid].members| else 0;
    }
  }
}
