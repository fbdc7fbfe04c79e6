/** When pending work is handed out: each group waits in the place its history in the run gives it,
    and a claim finds it from exactly then on (src/coalesce.rs). */
module OutboxSchedule {
  import opened Redis
  import Limiter
  import opened Outbox
  import opened OutboxInvariants
  import opened OutboxRuns
  import opened OutboxContents
  import opened OutboxCounts

  /** Waiting in the due queue from a second on, or leased until one. */
  datatype Place = DueFrom(at: nat) | LeasedUntil(at: nat)

  /** Where the run so far has put the group: its bucket deadline at first; a lease from each claim; the
      delay its owner asked for with each requeue; its bucket deadline again when a claim recovers it. */
  ghost function PlaceOf(c: Settings, ss: seq<State>, ops: seq<Op>, gid: Gid, j: nat): Place
    requires j <= |ops| < |ss|
  {
    if j == 0 then DueFrom(DueAt(c, gid)) else NextPlace(c, ss[j - 1], ops[j - 1], gid, PlaceOf(c, ss, ops, gid, j - 1))
  }

  ghost function NextPlace(c: Settings, s: State, op: Op, gid: Gid, place: Place): Place {
    if Claims(c, s, op, gid) then LeasedUntil(Now(s) + c.lease)
    else if Requeues(s, op, gid) && op.requeueAfter.Some? then DueFrom(Now(s) + op.requeueAfter.value)
    else if op.OpClaim? && gid in op.expired then DueFrom(DueAt(c, gid))
    else place
  }

  /** Pending work is in its place, and before its bucket deadline the place is that deadline. */
  ghost predicate InPlace(c: Settings, s: State, gid: Gid, place: Place) {
    && (gid in s.groups && s.groups[gid].pending > 0 ==> IsAt(s, gid, place))
    && (Now(s) < DueAt(c, gid) ==> place == DueFrom(DueAt(c, gid)))
  }

  ghost predicate IsAt(s: State, gid: Gid, place: Place) {
    match place
    case DueFrom(at) => gid in s.due && s.due[gid] == at
    case LeasedUntil(at) => gid in s.leases && s.leases[gid] == at
  }

  // ---------- Every step keeps the place ----------

  lemma EnqueueDue(c: Settings, s: State, e: Event, gid: Gid, g: Group)
    ensures var t := Enqueue(c, s, e, gid, g);
      gid in t.due && t.due[gid] == if gid in s.due then s.due[gid] else DueAt(c, gid)
  {
  }

  lemma WritesDue(c: Settings, s: State, e: Event, gid: Gid, g: Group)
    requires gid in s.due ==> s.due[gid] == DueAt(c, gid)
    ensures var t := IngestDigest(c, s, e, gid, g).0; gid in t.due ==> t.due[gid] == DueAt(c, gid)
    ensures var t := SendNow(c, s, e, gid, g); gid in t.due ==> t.due[gid] == DueAt(c, gid)
    ensures var t := Buffer(c, s, e, gid, g); gid in t.due ==> t.due[gid] == DueAt(c, gid)
  {
    hide DueAt;
  }

  lemma FreshPlace(c: Settings, s: State, op: Op, gid: Gid, place: Place)
    requires ValidSettings(c) && Kept(c, s) && Enabled(s, op) && FreshInto(c, s, op, gid) && InPlace(c, s, gid, place)
    ensures InPlace(c, Next(c, s, op), gid, place)
  {
    CurrentBucket(c, op.event, op.current, Now(s));
    assert place == DueFrom(DueAt(c, gid));
    assert ViewKept(c, gid, s.clock, ViewOf(s, gid));
    NextKeeps(c, s, op);
    NextClock(c, s, op);
    assert ViewKept(c, gid, s.clock, ViewOf(Next(c, s, op), gid));
    var m, sent := FreshWrites(c, s, op, gid);
    hide DueAt, FreshInto, Next, Kept;
    WritesDue(c, m, op.event, gid, Opened(c, s, gid, op.current));
  }

  lemma OthersUnrecovered(s: State, other: Gid, gid: Gid)
    requires gid != other
    ensures ViewOf(RecoverOne(s, other), gid) == ViewOf(s, gid) && RecoverOne(s, other).clock == s.clock
  {
  }

  /** What recovery makes of one group. */
  function RecoveredAs(v: View, now: nat): View {
    if v.group.Some? && v.group.value.pending > 0 then
      var g := v.group.value;
      if g.expiresAt > 0 && now >= g.expiresAt then View(None, v.due, None)
      else View(v.group, if v.due.Some? then v.due else Some(if g.due <= 0 then now else g.due), None)
    else View(None, v.due, None)
  }

  lemma RecoverOneView(s: State, gid: Gid)
    ensures ViewOf(RecoverOne(s, gid), gid) == RecoveredAs(ViewOf(s, gid), Now(s))
  {
  }

  lemma RecoveredAlike(s: State, t: State, gid: Gid)
    requires ViewOf(t, gid) == ViewOf(s, gid) && t.clock == s.clock
    ensures ViewOf(RecoverOne(t, gid), gid) == ViewOf(RecoverOne(s, gid), gid)
  {
    hide RecoverOne, ViewOf, RecoveredAs;
    RecoverOneView(s, gid);
    RecoverOneView(t, gid);
  }

  lemma {:induction false} RecoveredView(s: State, expired: seq<Gid>, gid: Gid)
    requires forall i, j :: 0 <= i < j < |expired| ==> expired[i] != expired[j]
    ensures ViewOf(Recover(s, expired), gid) == ViewOf(if gid in expired then RecoverOne(s, gid) else s, gid)
    decreases |expired|
  {
    if expired != [] {
      var first, rest := expired[0], expired[1..];
      assert forall i :: 0 <= i < |rest| ==> rest[i] == expired[i + 1];
      assert gid in expired <==> gid == first || gid in rest;
      assert Recover(s, expired) == Recover(RecoverOne(s, first), rest);
      hide RecoverOne, ViewOf, Recover;
      RecoveredView(RecoverOne(s, first), rest, gid);
      if gid == first {
        assert gid !in rest;
      } else {
        OthersUnrecovered(s, first, gid);
        RecoveredAlike(s, RecoverOne(s, first), gid);
      }
    }
  }

  /** Recovery puts live work whose lease ran out back in the queue at its bucket deadline, before its
      lifetime, and drops it after. */
  lemma RecoveredIsDue(c: Settings, s: State, expired: seq<Gid>, gid: Gid)
    requires ValidSettings(c) && Kept(c, s) && IsRange(s.leases, Now(s), MAX_RECOVERY_PER_CLAIM, expired)
    requires gid in expired && gid in s.groups && s.groups[gid].pending > 0
    ensures var r := Recover(s, expired);
      if Now(s) < s.groups[gid].expiresAt then
        && gid in r.groups && r.groups[gid] == s.groups[gid]
        && gid !in r.leases && gid in r.due && r.due[gid] == DueAt(c, gid)
      else gid !in r.groups
  {
    hide Recover, RecoverOne, DueAt;
    assert ViewKept(c, gid, s.clock, ViewOf(s, gid));
    hide Kept;
    RecoveredView(s, expired, gid);
    RecoverOneView(s, gid);
    var r := Recover(s, expired);
    assert ViewOf(r, gid) == RecoveredAs(ViewOf(s, gid), Now(s));
    BucketOver(c, gid);
  }

  lemma BucketOver(c: Settings, gid: Gid)
    requires ValidSettings(c)
    ensures DueAt(c, gid) > 0
  {
  }

  lemma {:induction false} TakeView(c: Settings, s: State, candidates: seq<Gid>, token: string, gid: Gid)
    requires gid in s.groups && Take(c, s, candidates, token).1 != Some(gid)
    ensures var t := Take(c, s, candidates, token).0;
      Lookup(t.due, gid) == Lookup(s.due, gid) && Lookup(t.leases, gid) == Lookup(s.leases, gid)
    decreases |candidates|
  {
    if candidates != [] && candidates[0] !in s.groups {
      TakeView(c, s.(due := s.due - {candidates[0]}), candidates[1..], token, gid);
    }
  }

  lemma ClaimPlace(c: Settings, s: State, op: Op, gid: Gid, place: Place)
    requires ValidSettings(c) && Kept(c, s) && op.OpClaim? && Enabled(s, op) && InPlace(c, s, gid, place)
    ensures InPlace(c, Next(c, s, op), gid, NextPlace(c, s, op, gid, place))
  {
    var r := Recover(s, op.expired);
    NextClock(c, s, op);
    RecoverClock(s, op.expired);
    assert ViewKept(c, gid, s.clock, ViewOf(s, gid));
    if Claims(c, s, op, gid) {
      TakeLeases(c, r, op.candidates, op.token, gid);
      RecoverKeeps(c, s, op.expired);
      assert ViewKept(c, gid, r.clock, ViewOf(r, gid));
      hide Recover, Take, DueAt, Kept;
    } else {
      TakeContent(c, r, op.candidates, op.token, gid);
      RecoverContent(s, op.expired, gid);
      RecoveredView(s, op.expired, gid);
      if gid in r.groups { TakeView(c, r, op.candidates, op.token, gid); }
      if gid in op.expired && gid in s.groups && s.groups[gid].pending > 0 {
        RecoveredIsDue(c, s, op.expired, gid);
      }
      hide Recover, Take, DueAt, Kept;
    }
  }

  lemma CompletedElsewhere(s: State, g: Gid, token: string, requeueAfter: Option<nat>, gid: Gid)
    ensures Complete(s, g, token, requeueAfter).0.clock == s.clock
    ensures g != gid ==> ViewOf(Complete(s, g, token, requeueAfter).0, gid) == ViewOf(s, gid)
  {
  }

  /** The owner's completion puts its group where it asked to, or ends it; anybody else's does nothing. */
  lemma CompletedHere(s: State, gid: Gid, token: string, requeueAfter: Option<nat>)
    ensures var (t, outcome) := Complete(s, gid, token, requeueAfter);
      && (outcome == Requeued ==>
            requeueAfter.Some? && gid in t.due && t.due[gid] == Now(s) + requeueAfter.value)
      && (outcome == NotOwner ==> t == s)
      && (outcome == Completed || outcome == Expired ==> gid !in t.groups)
  {
  }

  lemma CompletePlace(c: Settings, s: State, op: Op, gid: Gid, place: Place)
    requires ValidSettings(c) && Kept(c, s) && op.OpComplete? && InPlace(c, s, gid, place)
    ensures InPlace(c, Next(c, s, op), gid, NextPlace(c, s, op, gid, place))
  {
    hide DueAt, Claim, Complete, Kept;
    CompletedElsewhere(s, op.gid, op.token, op.requeueAfter, gid);
    CompletedHere(s, op.gid, op.token, op.requeueAfter);
    if Requeues(s, op, gid) { AfterDue(c, s, op, gid); }
    if op.gid != gid {
      assert ViewOf(Next(c, s, op), gid) == ViewOf(s, gid);
    }
  }

  lemma AfterDue(c: Settings, s: State, op: Op, gid: Gid)
    requires Kept(c, s) && Requeues(s, op, gid)
    ensures DueAt(c, gid) <= Now(s)
  {
    hide DueAt;
    assert ViewKept(c, gid, s.clock, ViewOf(s, gid));
  }

  lemma OtherPlace(c: Settings, s: State, op: Op, gid: Gid, place: Place)
    requires ValidSettings(c) && Kept(c, s) && !op.OpClaim? && !op.OpComplete? && !FreshInto(c, s, op, gid)
    requires InPlace(c, s, gid, place)
    ensures InPlace(c, Next(c, s, op), gid, place)
  {
    NextClock(c, s, op);
    match op
    case OpTick(ms) =>
    case OpIngest(e, current, expected) =>
      if Fresh(s, op) {
        IngestFrame(c, s, e, current);
        hide Ingest, DueAt;
        assert ViewOf(Next(c, s, op), gid) == ViewOf(s, gid);
      }
    case OpLimiter(owner, lop) => hide Limiter.Next;
  }

  lemma PlaceStep(c: Settings, s: State, op: Op, gid: Gid, place: Place)
    requires ValidSettings(c) && Kept(c, s) && Enabled(s, op) && InPlace(c, s, gid, place)
    ensures InPlace(c, Next(c, s, op), gid, NextPlace(c, s, op, gid, place))
  {
    if op.OpClaim? {
      ClaimPlace(c, s, op, gid, place);
    } else if op.OpComplete? {
      CompletePlace(c, s, op, gid, place);
    } else if FreshInto(c, s, op, gid) {
      FreshPlace(c, s, op, gid, place);
    } else {
      OtherPlace(c, s, op, gid, place);
    }
    hide InPlace, Next, FreshInto, Enabled, Kept, Claim, Complete;
  }

  /** In every run pending work is where its history puts it. */
  lemma {:induction false} WaitsInPlace(c: Settings, ss: seq<State>, ops: seq<Op>, gid: Gid, j: nat)
    requires Run(c, ss, ops) && j < |ss|
    ensures InPlace(c, ss[j], gid, PlaceOf(c, ss, ops, gid, j))
    decreases j
  {
    if j > 0 {
      WaitsInPlace(c, ss, ops, gid, j - 1);
      RunKeeps(c, ss, ops, j - 1);
      StepOf(c, ss, ops, j - 1);
      hide InPlace, Next, Enabled, Kept, Run, NextPlace;
      PlaceStep(c, ss[j - 1], ops[j - 1], gid, PlaceOf(c, ss, ops, gid, j - 1));
    }
  }

  // ---------- A claim finds it from then on ----------

  /** No other work is due and no other lease has run out. */
  ghost predicate Alone(s: State, gid: Gid) {
    && (forall other :: other in s.due && other != gid ==> s.due[other] > Now(s))
    && (forall other :: other in s.leases && other != gid ==> s.leases[other] > Now(s))
  }

  /** The group's place lets a claim have it now: it is due, or its lease has run out within its lifetime. */
  ghost predicate Ready(s: State, gid: Gid, place: Place)
    requires gid in s.groups
  {
    match place
    case DueFrom(at) => at <= Now(s)
    case LeasedUntil(at) => at <= Now(s) < s.groups[gid].expiresAt
  }

  /** A reply to a range that matches at most one member. */
  lemma SingleRange(z: map<Gid, nat>, now: nat, limit: nat, r: seq<Gid>, gid: Gid)
    requires IsRange(z, now, limit, r) && limit >= 2
    requires forall other :: other in z && other != gid ==> z[other] > now
    ensures r == if gid in z && z[gid] <= now then [gid] else []
  {
    var members := set x | x in r;
    DistinctMembers(r);
    CardinalityMonotone(members, {gid});
    assert |r| >= 1 ==> r[0] in z && z[r[0]] <= now;
    assert gid in z && z[gid] <= now ==> gid in r;
  }

  /** With nothing else to do a claim hands the group out exactly when its place says so: at its
      bucket deadline for the first time, the requeue's delay after a requeue, and a lease after a
      worker that died, in the very claim that recovers it. */
  lemma ClaimedFromThen(c: Settings, ss: seq<State>, ops: seq<Op>, gid: Gid, k: nat)
    requires Run(c, ss, ops) && k < |ops| && ops[k].OpClaim?
    requires gid in ss[k].groups && ss[k].groups[gid].pending > 0 && Alone(ss[k], gid)
    ensures Claims(c, ss[k], ops[k], gid) <==> Ready(ss[k], gid, PlaceOf(c, ss, ops, gid, k))
  {
    var s, op := ss[k], ops[k];
    WaitsInPlace(c, ss, ops, gid, k);
    RunKeeps(c, ss, ops, k);
    StepOf(c, ss, ops, k);
    assert ViewKept(c, gid, s.clock, ViewOf(s, gid));
    SingleRange(s.leases, Now(s), MAX_RECOVERY_PER_CLAIM, op.expired, gid);
    hide DueAt, Run, Next, Alone;
    var r := Recover(s, op.expired);
    if op.expired == [] {
      assert r == s;
    } else {
      RecoveredIsDue(c, s, op.expired, gid);
      assert r == RecoverOne(s, gid);
    }
    hide Recover;
    AloneStays(s, r, gid);
    SingleRange(r.due, Now(s), MAX_DANGLING_SKIPS, op.candidates, gid);
    TakeSingle(c, r, op.candidates, op.token, gid);
  }

  lemma AloneStays(s: State, r: State, gid: Gid)
    requires Alone(s, gid) && (r == s || r == RecoverOne(s, gid))
    ensures forall other :: other in r.due && other != gid ==> r.due[other] > Now(s)
  {
  }

  lemma TakeSingle(c: Settings, s: State, candidates: seq<Gid>, token: string, gid: Gid)
    requires candidates == [gid] || candidates == []
    ensures Take(c, s, candidates, token).1 == if candidates == [gid] && gid in s.groups then Some(gid) else None
  {
  }

  /** Recovered work is never passed over: the claim that recovers it hands out a group that has been due
      no later than its bucket deadline, unless all its skips went to dangling members. */
  lemma RecoveredIsNext(c: Settings, s: State, op: Op, gid: Gid)
    requires ValidSettings(c) && Kept(c, s) && op.OpClaim? && Enabled(s, op)
    requires gid in op.expired && gid in s.groups && s.groups[gid].pending > 0 && Now(s) < s.groups[gid].expiresAt
    ensures var (r, claimed) := (Recover(s, op.expired), Claim(c, s, op.token, op.expired, op.candidates).1);
      && (claimed.Some? ==> claimed.value in r.due && r.due[claimed.value] <= DueAt(c, gid))
      && (claimed.None? ==>
            && |op.candidates| == MAX_DANGLING_SKIPS
            && forall i :: 0 <= i < MAX_DANGLING_SKIPS ==> op.candidates[i] !in r.groups)
  {
    assert ViewKept(c, gid, s.clock, ViewOf(s, gid));
    RecoveredIsDue(c, s, op.expired, gid);
    ClaimsOldest(c, s, op);
    hide Recover, Claim, DueAt;
  }

  /** A worker that dies loses its group for exactly one lease: with nothing else to do and no claim in
      between, a claim within the group's lifetime hands it out again if and only if the lease is over. */
  lemma AbandonedIsClaimedAgain(c: Settings, ss: seq<State>, ops: seq<Op>, gid: Gid, i: nat, k: nat)
    requires Run(c, ss, ops) && i < k < |ops| && Claims(c, ss[i], ops[i], gid) && ops[k].OpClaim?
    requires forall m :: i < m < k ==> !ops[m].OpClaim? && !(ops[m].OpComplete? && ops[m].gid == gid)
    requires gid in ss[k].groups && ss[k].groups[gid].pending > 0 && Now(ss[k]) < ss[k].groups[gid].expiresAt
    requires Alone(ss[k], gid)
    ensures Claims(c, ss[k], ops[k], gid) <==> Now(ss[k]) >= Now(ss[i]) + c.lease
  {
    PlaceStays(c, ss, ops, gid, i + 1, k);
    ClaimedFromThen(c, ss, ops, gid, k);
    hide Claims, Alone, Run;
  }

  /** A requeued group waits exactly the delay its owner asked for. */
  lemma RequeuedIsClaimedAgain(c: Settings, ss: seq<State>, ops: seq<Op>, gid: Gid, i: nat, k: nat)
    requires Run(c, ss, ops) && i < k < |ops| && Requeues(ss[i], ops[i], gid) && ops[k].OpClaim?
    requires forall m :: i < m < k ==> !ops[m].OpClaim? && !(ops[m].OpComplete? && ops[m].gid == gid)
    requires gid in ss[k].groups && ss[k].groups[gid].pending > 0 && Alone(ss[k], gid)
    ensures ops[i].requeueAfter.Some?
    ensures Claims(c, ss[k], ops[k], gid) <==> Now(ss[k]) >= Now(ss[i]) + ops[i].requeueAfter.value
  {
    PlaceStays(c, ss, ops, gid, i + 1, k);
    ClaimedFromThen(c, ss, ops, gid, k);
    hide Alone, Run, Take, Recover;
  }

  /** Work never claimed before is claimed exactly from its bucket deadline on. */
  lemma FirstClaimedWhenDue(c: Settings, ss: seq<State>, ops: seq<Op>, gid: Gid, k: nat)
    requires Run(c, ss, ops) && k < |ops| && ops[k].OpClaim?
    requires forall m :: 0 <= m < k ==> !ops[m].OpClaim? && !(ops[m].OpComplete? && ops[m].gid == gid)
    requires gid in ss[k].groups && ss[k].groups[gid].pending > 0 && Alone(ss[k], gid)
    ensures Claims(c, ss[k], ops[k], gid) <==> Now(ss[k]) >= DueAt(c, gid)
  {
    PlaceStays(c, ss, ops, gid, 0, k);
    ClaimedFromThen(c, ss, ops, gid, k);
    hide Claims, Alone, Run, DueAt;
  }

  lemma {:induction false} PlaceStays(c: Settings, ss: seq<State>, ops: seq<Op>, gid: Gid, i: nat, k: nat)
    requires i <= k <= |ops| < |ss|
    requires forall m :: i <= m < k ==> !ops[m].OpClaim? && !(ops[m].OpComplete? && ops[m].gid == gid)
    ensures PlaceOf(c, ss, ops, gid, k) == PlaceOf(c, ss, ops, gid, i)
    decreases k
  {
    if i < k {
      PlaceStays(c, ss, ops, gid, i, k - 1);
    }
  }
}
