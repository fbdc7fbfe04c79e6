/** One account's Redis keys, updated in place by the Lua scripts of src/activity.rs and
    src/notification_delivery.rs. Every method is proved to do exactly what the corresponding
    function of `Account` says, so the theorems about runs are theorems about these keys. */
module AccountKeys {
  import opened Redis
  import opened Account

  /** ZREVRANGE key 0 n-1 WITHSCORES: the `n` highest members, highest first. */
  ghost predicate IsTop(z: map<string, int>, n: nat, top: seq<(string, int)>) {
    && |top| <= n
    && (forall i :: 0 <= i < |top| ==> top[i].0 in z && z[top[i].0] == top[i].1)
    && (forall i, j :: 0 <= i < j < |top| ==> top[i].0 != top[j].0 && top[i].1 >= top[j].1)
    && (forall k, i :: k in z && (forall j :: 0 <= j < |top| ==> top[j].0 != k) && 0 <= i < |top| ==> z[k] <= top[i].1)
    && (|top| < n ==> forall k :: k in z ==> exists i :: 0 <= i < |top| && top[i].0 == k)
  }

  method ZRevRangeWithScores(z: map<string, int>, n: nat) returns (top: seq<(string, int)>)
    ensures IsTop(z, n, top)
  {
    top := [];
    var rest := z;
    while |top| < n && rest.Keys != {}
      invariant |top| <= n
      invariant rest.Keys <= z.Keys && forall k :: k in rest ==> rest[k] == z[k]
      invariant forall i :: 0 <= i < |top| ==> top[i].0 in z && z[top[i].0] == top[i].1 && top[i].0 !in rest
      invariant forall i, j :: 0 <= i < j < |top| ==> top[i].0 != top[j].0 && top[i].1 >= top[j].1
      invariant forall k, i :: k in rest && 0 <= i < |top| ==> rest[k] <= top[i].1
      invariant forall k :: k in z && k !in rest ==> exists i :: 0 <= i < |top| && top[i].0 == k
      decreases n - |top|
    {
      LatestExists(rest);
      var member :| member in rest && forall k :: k in rest ==> rest[k] <= rest[member];
      ghost var before := top;
      top := top + [(member, rest[member])];
      rest := rest - {member};
      assert forall i :: 0 <= i < |before| ==> top[i] == before[i];
      assert top[|before|].0 == member;
    }
  }

  /** The newest member other than `id` is the first of the top two that is not `id`. */
  lemma FirstOther(z: map<string, int>, id: string, top: seq<(string, int)>, i: nat)
    requires IsTop(z, 2, top) && i < |top| && top[i].0 != id && (i == 0 || top[0].0 == id)
    ensures IsLatest(z - {id}, top[i].1)
  {
    assert top[i].0 in z - {id};
    forall k | k in z - {id} ensures z[k] <= top[i].1 {
      if top[0].0 != k && i == 1 && top[1].0 != k {
        assert forall j :: 0 <= j < |top| ==> top[j].0 != k;
      }
    }
  }

  lemma NoOther(z: map<string, int>, id: string, top: seq<(string, int)>)
    requires IsTop(z, 2, top) && |top| <= 1 && forall j :: 0 <= j < |top| ==> top[j].0 == id
    ensures (z - {id}).Keys == {}
  {
    assert forall k :: k in z ==> k == id;
  }

  class Keys {
    var clock: nat
    var registered: bool
    var counter: Option<nat>
    var profile: Option<Profile>
    var presence: Zset
    var sessions: Zset
    var records: map<string, SessionRecord>
    var markers: map<string, Marker>
    var nonurgent: Window
    var direct: Window

    ghost function Value(): State reads this {
      State(clock, registered, counter, profile, presence, sessions, records, markers, nonurgent, direct)
    }

    constructor (clock: nat)
      ensures Value() == State(clock, false, None, None, Zset(map[], 0), Zset(map[], 0), map[], map[],
                               Window(Zset(map[], 0), map[], 0), Window(Zset(map[], 0), map[], 0))
      ensures Init(Value())
    {
      this.clock := clock;
      registered, counter, profile := false, None, None;
      presence, sessions, records, markers := Zset(map[], 0), Zset(map[], 0), map[], map[];
      nonurgent, direct := Window(Zset(map[], 0), map[], 0), Window(Zset(map[], 0), map[], 0);
    }

    method Advance(ms: nat)
      modifies this
      ensures Value() == Tick(old(Value()), ms)
    {
      clock := clock + ms;
      profile := ProfileAt(profile, clock);
      presence, sessions := presence.At(clock), sessions.At(clock);
      records, markers := RecordsAt(records, clock), MarkersAt(markers, clock);
      nonurgent, direct := WindowAt(nonurgent, clock), WindowAt(direct, clock);
    }

    method RecordActivity(u: Update, micros: nat) returns (outcome: ActivityOutcome)
      modifies this
      ensures (Value(), outcome) == Record(old(Value()), u, micros)
    {
      if !IsValid(u) { return Invalid; }
      if !registered { return RenewedOrStale; }
      var previousSequence, previousVisit := 0, 0;
      if u.session in records {
        previousSequence, previousVisit := records[u.session].sequence, records[u.session].visit;
      }
      if u.sequence <= previousSequence || u.visit < previousVisit { return RenewedOrStale; }
      sessions := sessions.Above(Seconds(clock));
      if u.session !in sessions.scores && |sessions.scores| >= MAX_SESSIONS_PER_ACCOUNT { return SessionLimit; }
      outcome := if u.session !in records || u.visit > previousVisit then Visit else RenewedOrStale;
      ApplyUpdate(u, outcome == Visit, micros);
    }

    method ApplyUpdate(u: Update, visit: bool, micros: nat)
      modifies this
      ensures Value() == Applied(old(Value()), u, visit, micros)
    {
      var now := Seconds(clock);
      sessions := sessions.Put(u.session, now + SESSION_TTL_SECS, Deadline(clock, SESSION_TTL_SECS));
      records := records[u.session :=
        SessionRecord(u.sequence, u.visit, u.foreground, Deadline(clock, SESSION_TTL_SECS))];
      presence := presence.Above(now);
      var hash := profile.GetOr(Profile(None, None, false, None));
      if visit {
        counter := Some(counter.GetOr(clock * 1000 + micros) + 1);
        hash := hash.(generation := counter, absenceUsed := Some(0));
      }
      if u.foreground {
        presence := presence.Put(u.session, now + PRESENCE_TTL_SECS, Deadline(clock, PRESENCE_TTL_SECS));
      } else {
        presence := presence.(scores := presence.scores - {u.session});
      }
      profile := Some(hash.(reported := true, deadline := Some(Deadline(clock, STATE_TTL_SECS))));
    }

    method GenerationForWork(identity: string, retention: nat, micros: nat) returns (generation: nat)
      modifies this
      ensures (Value(), generation) == Bind(old(Value()), identity, retention, micros)
    {
      var kept := if retention < 1 then 1 else retention;
      var hash := profile.GetOr(Profile(None, None, false, None));
      var current := hash.generation;
      if registered && current.None? {
        counter := Some(counter.GetOr(clock * 1000 + micros) + 1);
        current := counter;
        hash := hash.(generation := current);
        if hash.deadline.None? {
          hash := hash.(deadline := Some(Deadline(clock, STATE_TTL_SECS)));
        }
        profile := Some(hash);
      }
      if identity !in markers {
        generation := current.GetOr(0);
        if registered {
          markers := markers[identity := Marker(generation, Deadline(clock, kept))];
        }
      } else {
        generation := markers[identity].generation;
        if registered && TtlSeconds(markers[identity].deadline, clock) < kept {
          markers := markers[identity := markers[identity].(deadline := Deadline(clock, kept))];
        }
      }
    }

    method IsActiveNow() returns (active: bool)
      modifies this`presence
      ensures (Value(), active) == IsActive(old(Value()))
    {
      presence := presence.Above(Seconds(clock));
      active := presence.scores.Keys != {};
    }

    /** The generations of every expired send are deleted one by one, then the sends themselves. */
    method PruneClass(w: Window) returns (pruned: Window)
      ensures pruned == Prune(w, Seconds(clock))
    {
      var cut := Seconds(clock) - DAY;
      var expired := set k | k in w.budget.scores && w.budget.scores[k] <= cut;
      var generations := w.generations;
      var rest := expired;
      while rest != {}
        invariant rest <= expired
        invariant generations == map k | k in w.generations && k !in expired - rest :: w.generations[k]
        decreases rest
      {
        var id :| id in rest;
        generations := generations - {id};
        rest := rest - {id};
      }
      pruned := Window(w.budget.Above(cut), generations, w.generationsDeadline);
      assert pruned.generations == Prune(w, Seconds(clock)).generations;
    }

    /** Atomically reserve one recipient-wide delivery slot. */
    method ReserveBudget(cfg: Settings, lane: Class, identity: string, expected: Option<nat>)
        returns (decision: BudgetDecision)
      modifies this
      ensures (Value(), decision) == Reserve(old(Value()), cfg, lane, identity, expected)
    {
      nonurgent := PruneClass(nonurgent);
      direct := PruneClass(direct);
      presence := presence.Above(Seconds(clock));
      assert Value() == Pruned(old(Value()));
      hide Prune, ReserveAgain, ReserveFresh;
      if expected.Some? && expected.value != profile.GetOr(Profile(None, None, false, None)).generation.GetOr(0) {
        return StaleVisit;
      }
      if presence.scores.Keys != {} { return Active; }
      if identity in (if lane.Nonurgent? then nonurgent else direct).budget.scores {
        decision := RenewSlot(cfg, lane, identity);
      } else {
        decision := GrantSlot(cfg, lane, identity);
      }
    }

    method RenewSlot(cfg: Settings, lane: Class, identity: string) returns (decision: BudgetDecision)
      requires identity in Own(Value(), lane).budget.scores
      modifies this
      ensures (Value(), decision) == ReserveAgain(old(Value()), cfg, lane, identity)
    {
      var now := Seconds(clock);
      var generation := profile.GetOr(Profile(None, None, false, None)).generation.GetOr(0);
      var own, other := if lane.Nonurgent? then nonurgent else direct, if lane.Nonurgent? then direct else nonurgent;
      var hourCount := |Within(own.budget.scores, now, HOUR)| + |Within(other.budget.scores, now, HOUR)|;
      assert hourCount == HourCount(Value());
      hide HourCount, Remaining, Within;
      if (if identity in own.generations then own.generations[identity] else 0) != generation { return StaleVisit; }
      if own.budget.scores[identity] <= now - HOUR && hourCount >= cfg.hourlyCap { return Capped; }
      if lane.Nonurgent? {
        var wait := CooldownLeft(own.budget.scores, identity, cfg.minInterval, now);
        if wait > 0 { return Cooldown(wait); }
      }
      if lane.Nonurgent? { nonurgent := Touch(own, identity, clock); } else { direct := Touch(own, identity, clock); }
      decision := Allowed;
    }

    method GrantSlot(cfg: Settings, lane: Class, identity: string) returns (decision: BudgetDecision)
      requires identity !in Own(Value(), lane).budget.scores
      modifies this
      ensures (Value(), decision) == ReserveFresh(old(Value()), cfg, lane, identity)
    {
      var now := Seconds(clock);
      var hash := profile.GetOr(Profile(None, None, false, None));
      var own, other := if lane.Nonurgent? then nonurgent else direct, if lane.Nonurgent? then direct else nonurgent;
      var hourCount := |Within(own.budget.scores, now, HOUR)| + |Within(other.budget.scores, now, HOUR)|;
      assert hourCount == HourCount(Value());
      hide HourCount, Remaining, Within;
      var used := if hash.reported then hash.absenceUsed.GetOr(0) else |own.budget.scores|;
      assert used == AllowanceUsed(Value(), lane);
      if lane.Nonurgent? {
        if used >= cfg.absenceCap { return AllowanceExhausted; }
        assert own.budget.scores - {identity} == own.budget.scores;
        var wait := CooldownLeft(own.budget.scores, identity, cfg.minInterval, now);
        if wait > 0 { return Cooldown(wait); }
      }
      if |own.budget.scores| + |other.budget.scores| >= cfg.dailyCap { return Capped; }
      if hourCount >= cfg.hourlyCap { return Capped; }
      var generation := hash.generation.GetOr(0);
      own := Touch(own, identity, clock).(generations := own.generations[identity := generation]);
      if lane.Nonurgent? { nonurgent := own; } else { direct := own; }
      if lane.Nonurgent? && hash.reported {
        hash := hash.(absenceUsed := Some(used + 1));
        if hash.deadline.None? {
          hash := hash.(deadline := Some(Deadline(clock, STATE_TTL_SECS)));
        }
        profile := Some(hash);
      }
      decision := Allowed;
    }

    /** Walk the two newest sends and report how long the first other one still blocks. */
    method CooldownLeft(sends: map<string, int>, identity: string, gap: nat, now: nat) returns (wait: nat)
      ensures var left := Remaining(sends - {identity}, gap, now); wait == if left > 0 then left else 0
    {
      var latest := ZRevRangeWithScores(sends, 2);
      var i := 0;
      while i < |latest| && latest[i].0 == identity
        invariant i <= |latest| && i <= 1
        invariant i == 1 ==> latest[0].0 == identity
      {
        i := i + 1;
      }
      if i < |latest| {
        FirstOther(sends, identity, latest, i);
        assert Latest(sends - {identity}) == latest[i].1;
        var left := latest[i].1 + gap - now;
        wait := if left > 0 then left else 0;
      } else {
        NoOther(sends, identity, latest);
        wait := 0;
      }
    }

    /** Recheck presence, visit fencing, the hour bound and the nonurgent gap before a send. */
    method ValidateReservation(cfg: Settings, lane: Class, identity: string, expected: Option<nat>)
        returns (valid: bool)
      modifies this
      ensures (Value(), valid) == Validate(old(Value()), cfg, lane, identity, expected)
    {
      var now := Seconds(clock);
      presence := presence.Above(now);
      if presence.scores.Keys != {} { return false; }
      var generation := profile.GetOr(Profile(None, None, false, None)).generation.GetOr(0);
      if expected.Some? && expected.value != generation { return false; }
      var own, other := if lane.Nonurgent? then nonurgent else direct, if lane.Nonurgent? then direct else nonurgent;
      if identity !in own.budget.scores || own.budget.scores[identity] <= now - DAY { return false; }
      if own.budget.scores[identity] <= now - HOUR {
        var hourCount := |Within(own.budget.scores, now, HOUR)| + |Within(other.budget.scores, now, HOUR)|;
        if hourCount >= cfg.hourlyCap { return false; }
      }
      if (if identity in own.generations then own.generations[identity] else 0) != generation { return false; }
      if lane.Nonurgent? {
        var wait := CooldownLeft(own.budget.scores, identity, cfg.minInterval, now);
        if wait > 0 { return false; }
      }
      if lane.Nonurgent? { nonurgent := Touch(own, identity, clock); } else { direct := Touch(own, identity, clock); }
      valid := true;
    }
  }
}
