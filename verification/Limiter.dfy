/** The per-recipient budget of src/coalesce.rs: a lazily refilled token bucket inside a rolling
    emission window. A spend charges both; a refund returns both. */
module Limiter {
  import opened Redis

  datatype Limits = Limits(capacity: nat, refill: nat, dailyWindow: nat, dailyCap: nat, coalesceWindow: nat, grace: nat)

  predicate ValidLimits(c: Limits) {
    0 < c.capacity && 0 < c.refill && 0 < c.dailyWindow && 0 < c.dailyCap && 0 < c.coalesceWindow && 0 < c.grace
  }

  function BucketTtl(c: Limits): nat {
    if c.capacity * c.refill * 2 > c.coalesceWindow + c.grace then c.capacity * c.refill * 2
    else c.coalesceWindow + c.grace
  }

  function EmittedTtl(c: Limits): nat { c.dailyWindow + c.grace }

  datatype Bucket = Bucket(tokens: real, ts: nat, deadline: int)

  datatype State = State(clock: nat, bucket: Option<Bucket>, emitted: Zset)

  datatype SpendOutcome = Spent | BucketEmpty(retryAfter: nat) | DailyCapped(retryAfter: nat)

  function Now(s: State): nat { Seconds(s.clock) }

  function Capped(c: Limits, x: real): real {
    if x > c.capacity as real then c.capacity as real else x
  }

  /** What a bucket of level `x` holds `elapsed` seconds later. */
  function Refilled(c: Limits, x: real, elapsed: nat): real
    requires 0 < c.refill
  {
    Capped(c, x + elapsed as real / c.refill as real)
  }

  /** The tokens a read sees now: an absent bucket reads full. */
  function Level(c: Limits, s: State): real
    requires 0 < c.refill
  {
    match s.bucket
    case None => c.capacity as real
    case Some(b) => Refilled(c, b.tokens, if Now(s) < b.ts then 0 else Now(s) - b.ts)
  }

  function Stored(c: Limits, s: State, tokens: real): Option<Bucket> {
    Some(Bucket(tokens, Now(s), Deadline(s.clock, BucketTtl(c))))
  }

  function Live(c: Limits, s: State): Zset { s.emitted.Above(Now(s) - c.dailyWindow) }

  function Charged(c: Limits, s: State, member: string): State
    requires 0 < c.refill
  {
    s.(bucket := Stored(c, s, Level(c, s) - 1.0),
       emitted := Live(c, s).Put(member, Now(s), Deadline(s.clock, EmittedTtl(c))))
  }

  ghost predicate IsOldest(z: map<string, int>, score: int) {
    (exists k :: k in z && z[k] == score) && forall k :: k in z ==> score <= z[k]
  }

  lemma OldestExists(z: map<string, int>)
    requires z.Keys != {}
    ensures exists score :: IsOldest(z, score)
  {
    var mirror := map k | k in z :: -z[k];
    assert mirror.Keys == z.Keys;
    LatestExists(mirror);
    var m :| IsLatest(mirror, m);
    assert forall k :: k in z ==> mirror[k] == -z[k];
    assert IsOldest(z, -m);
  }

  ghost function Oldest(z: map<string, int>): (score: int)
    requires z.Keys != {}
    ensures IsOldest(z, score)
  {
    OldestExists(z);
    var score :| IsOldest(z, score);
    score
  }

  /** The flush path: one token and one window slot for a summary. */
  ghost function Spend(c: Limits, s: State, member: string): (State, SpendOutcome)
    requires ValidLimits(c)
  {
    var live := Live(c, s);
    var p := s.(emitted := live);
    if member in live.scores then (p, Spent)
    else if |live.scores| >= c.dailyCap then
      (p, DailyCapped(AtLeastOne(Oldest(live.scores) + c.dailyWindow - Now(s))))
    else if Level(c, s) >= 1.0 then (Charged(c, s, member), Spent)
    else (p.(bucket := Stored(c, s, Level(c, s))), BucketEmpty(c.refill))
  }

  function AtLeastOne(x: int): nat { if x < 1 then 1 else x }

  /** Return a charge that reached no device. */
  function Refund(c: Limits, s: State, member: string): State
    requires ValidLimits(c)
  {
    s.(bucket := Stored(c, s, Capped(c, Level(c, s) + 1.0)),
       emitted := s.emitted.(scores := s.emitted.scores - {member}))
  }

  /** The immediate path inside ingest: the window is the outer bound, the bucket the inner one,
      and the refilled level is written back either way. */
  function Emit(c: Limits, s: State, event: string): (State, bool)
    requires ValidLimits(c)
  {
    var live := Live(c, s);
    if |live.scores| < c.dailyCap && Level(c, s) >= 1.0 then (Charged(c, s, event), true)
    else (s.(emitted := live, bucket := Stored(c, s, Level(c, s))), false)
  }

  function Tick(s: State, ms: nat): State {
    var clock := s.clock + ms;
    State(clock,
          if s.bucket.Some? && clock > s.bucket.value.deadline then None else s.bucket,
          s.emitted.At(clock))
  }

  // ---------- Steps and runs ----------

  datatype Op = OpTick(ms: nat) | OpSpend(member: string) | OpRefund(member: string) | OpEmit(member: string)

  ghost function Next(c: Limits, s: State, op: Op): State
    requires ValidLimits(c)
  {
    match op
    case OpTick(ms) => Tick(s, ms)
    case OpSpend(member) => Spend(c, s, member).0
    case OpRefund(member) => Refund(c, s, member)
    case OpEmit(member) => Emit(c, s, member).0
  }

  /** The step takes a token and a slot: an immediate send, or a spend that is not the reuse of an
      outstanding reservation. */
  ghost predicate Charges(c: Limits, s: State, op: Op)
    requires ValidLimits(c)
  {
    match op
    case OpSpend(member) => Spend(c, s, member).1 == Spent && member !in Live(c, s).scores
    case OpEmit(member) => Emit(c, s, member).1
    case _ => false
  }

  ghost predicate Run(c: Limits, ss: seq<State>, ops: seq<Op>) {
    && ValidLimits(c)
    && |ss| == |ops| + 1
    && ss[0].bucket == None && ss[0].emitted.scores == map[]
    && forall i {:trigger Next(c, ss[i], ops[i])} :: 0 <= i < |ops| ==> ss[i + 1] == Next(c, ss[i], ops[i])
  }

  lemma StepOf(c: Limits, ss: seq<State>, ops: seq<Op>, k: nat)
    requires Run(c, ss, ops) && k < |ops|
    ensures ss[k + 1] == Next(c, ss[k], ops[k]) && Now(ss[k]) <= Now(ss[k + 1])
  {
    var next := Next(c, ss[k], ops[k]);
  }

  // ---------- What every step keeps ----------

  ghost predicate Kept(c: Limits, s: State) {
    && ValidLimits(c)
    && (s.bucket.Some? ==>
          && 0.0 <= s.bucket.value.tokens <= c.capacity as real
          && s.bucket.value.ts <= Now(s)
          && s.bucket.value.ts * 1000 + 1000 * BucketTtl(c) <= s.bucket.value.deadline)
    && (forall k :: k in s.emitted.scores ==>
          && s.emitted.scores[k] <= Now(s)
          && s.emitted.scores[k] * 1000 + 1000 * EmittedTtl(c) <= s.emitted.deadline)
    && |Within(s.emitted.scores, Now(s), c.dailyWindow)| <= c.dailyCap
  }

  lemma LevelInRange(c: Limits, s: State)
    requires Kept(c, s)
    ensures 0.0 <= Level(c, s) <= c.capacity as real
  {
    if s.bucket.Some? {
      assert (Now(s) - s.bucket.value.ts) as real / c.refill as real >= 0.0;
    }
  }

  lemma LiveKeys(c: Limits, s: State)
    ensures Live(c, s).scores.Keys == Within(s.emitted.scores, Now(s), c.dailyWindow)
    ensures Within(Live(c, s).scores, Now(s), c.dailyWindow) == Within(s.emitted.scores, Now(s), c.dailyWindow)
    ensures |Live(c, s).scores| == |Within(s.emitted.scores, Now(s), c.dailyWindow)|
  {
    assert |Live(c, s).scores| == |Live(c, s).scores.Keys|;
  }

  lemma ChargeKeeps(c: Limits, s: State, member: string)
    requires Kept(c, s) && Level(c, s) >= 1.0 && |Live(c, s).scores| < c.dailyCap
    ensures Kept(c, Charged(c, s, member))
  {
    LevelInRange(c, s);
    LiveKeys(c, s);
    var t := Charged(c, s, member);
    assert Within(t.emitted.scores, Now(s), c.dailyWindow) ==
      Within(s.emitted.scores, Now(s), c.dailyWindow) + {member};
  }

  lemma TickKeeps(c: Limits, s: State, ms: nat)
    requires Kept(c, s)
    ensures Kept(c, Tick(s, ms))
  {
    var t := Tick(s, ms);
    CardinalityMonotone(Within(t.emitted.scores, Now(t), c.dailyWindow),
      Within(s.emitted.scores, Now(s), c.dailyWindow));
  }

  lemma NextKeeps(c: Limits, s: State, op: Op)
    requires Kept(c, s)
    ensures Kept(c, Next(c, s, op))
  {
    LevelInRange(c, s);
    LiveKeys(c, s);
    var t := Next(c, s, op);
    match op
    case OpTick(ms) => TickKeeps(c, s, ms);
    case OpSpend(member) => if Charges(c, s, op) { ChargeKeeps(c, s, member); }
    case OpEmit(member) => if Charges(c, s, op) { ChargeKeeps(c, s, member); }
    case OpRefund(member) =>
      CardinalityMonotone(Within(t.emitted.scores, Now(t), c.dailyWindow),
        Within(s.emitted.scores, Now(s), c.dailyWindow));
  }

  lemma {:induction false} RunKeeps(c: Limits, ss: seq<State>, ops: seq<Op>, i: nat)
    requires Run(c, ss, ops) && i < |ss|
    ensures Kept(c, ss[i])
    ensures 0.0 <= Level(c, ss[i]) <= c.capacity as real
    decreases i
  {
    if i == 0 {
      assert Within(ss[0].emitted.scores, Now(ss[0]), c.dailyWindow) == {};
    } else {
      RunKeeps(c, ss, ops, i - 1);
      NextKeeps(c, ss[i - 1], ops[i - 1]);
    }
    LevelInRange(c, ss[i]);
  }

  // ---------- Lazy refill is a continuously refilled bucket ----------

  lemma RefillAdds(c: Limits, a: nat, b: nat)
    requires 0 < c.refill
    ensures (a + b) as real / c.refill as real == a as real / c.refill as real + b as real / c.refill as real
  {
  }

  /** Reading and writing back in between changes nothing. */
  lemma RefillComposes(c: Limits, x: real, a: nat, b: nat)
    requires 0 < c.refill
    ensures Refilled(c, Refilled(c, x, a), b) == Refilled(c, x, a + b)
  {
    RefillAdds(c, a, b);
    assert b as real / c.refill as real >= 0.0;
  }

  /** A bucket key that has expired would have read full. */
  lemma ExpiredWasFull(c: Limits, b: Bucket, now: nat)
    requires ValidLimits(c) && 0.0 <= b.tokens && b.ts <= now
    requires now - b.ts >= BucketTtl(c)
    ensures Refilled(c, b.tokens, now - b.ts) == c.capacity as real
  {
    var e, r, k := (now - b.ts) as real, c.refill as real, c.capacity as real;
    ProductAsReal(c.capacity, c.refill);
    assert now - b.ts >= c.capacity * c.refill;
    Divide(e, r, k);
  }

  lemma {:induction false} ProductAsReal(a: nat, b: nat)
    ensures (a * b) as real == a as real * b as real
    decreases a
  {
    if a > 0 {
      ProductAsReal(a - 1, b);
      assert a * b == (a - 1) * b + b;
    }
  }

  lemma Divide(e: real, r: real, k: real)
    requires r > 0.0 && e >= k * r
    ensures e / r >= k
  {
  }

  /** The reference bucket: filled every second, with no timestamps, reads, writes or expiry. */
  ghost function Ideal(c: Limits, ss: seq<State>, ops: seq<Op>, j: nat): real
    requires Run(c, ss, ops) && j < |ss|
  {
    if j == 0 then c.capacity as real
    else
      var before := Ideal(c, ss, ops, j - 1);
      if ops[j - 1].OpTick? then Refilled(c, before, Now(Next(c, ss[j - 1], ops[j - 1])) - Now(ss[j - 1]))
      else if ops[j - 1].OpRefund? then Capped(c, before + 1.0)
      else if Charges(c, ss[j - 1], ops[j - 1]) then before - 1.0
      else before
  }

  lemma LevelStep(c: Limits, s: State, op: Op)
    requires Kept(c, s)
    ensures Level(c, Next(c, s, op)) ==
      if op.OpTick? then Refilled(c, Level(c, s), Now(Next(c, s, op)) - Now(s))
      else if op.OpRefund? then Capped(c, Level(c, s) + 1.0)
      else if Charges(c, s, op) then Level(c, s) - 1.0
      else Level(c, s)
  {
    LevelInRange(c, s);
    if op.OpTick? { LevelAfter(c, s, op.ms); }
    hide Tick, Refilled;
    if !op.OpTick? {
      var level := Level(c, s);
      StoredLevel(c, Next(c, s, op));
    }
  }

  /** A level just written is read back at the same second. */
  lemma StoredLevel(c: Limits, s: State)
    requires 0 < c.refill
    ensures s.bucket.Some? && s.bucket.value.ts == Now(s) ==> Level(c, s) == Capped(c, s.bucket.value.tokens)
  {
  }

  lemma LevelAfter(c: Limits, s: State, ms: nat)
    requires Kept(c, s)
    ensures Now(s) <= Now(Tick(s, ms)) && Level(c, Tick(s, ms)) == Refilled(c, Level(c, s), Now(Tick(s, ms)) - Now(s))
  {
    var t := Tick(s, ms);
    if s.bucket.Some? {
      var b := s.bucket.value;
      RefillComposes(c, b.tokens, Now(s) - b.ts, Now(t) - Now(s));
      if t.clock > b.deadline {
        assert Now(t) - b.ts >= BucketTtl(c);
        ExpiredWasFull(c, b, Now(t));
      }
    } else {
      assert (Now(t) - Now(s)) as real / c.refill as real >= 0.0;
    }
    hide Refilled, Kept;
  }

  /** At every point of every run the lazily refilled, possibly expired bucket holds what the
      reference bucket holds. */
  lemma {:induction false} LazyIsContinuous(c: Limits, ss: seq<State>, ops: seq<Op>, j: nat)
    requires Run(c, ss, ops) && j < |ss|
    ensures Level(c, ss[j]) == Ideal(c, ss, ops, j)
    decreases j
  {
    if j > 0 {
      LazyIsContinuous(c, ss, ops, j - 1);
      RunKeeps(c, ss, ops, j - 1);
      LevelStep(c, ss[j - 1], ops[j - 1]);
    }
  }

  ghost function ChargeCount(c: Limits, ss: seq<State>, ops: seq<Op>, i: nat, j: nat): nat
    requires ValidLimits(c) && i <= j <= |ops| < |ss|
  {
    if i == j then 0 else ChargeCount(c, ss, ops, i, j - 1) + (if Charges(c, ss[j - 1], ops[j - 1]) then 1 else 0)
  }

  ghost function RefundCount(ops: seq<Op>, i: nat, j: nat): nat
    requires i <= j <= |ops|
  {
    if i == j then 0 else RefundCount(ops, i, j - 1) + (if ops[j - 1].OpRefund? then 1 else 0)
  }

  /** Over any stretch, charges less refunds are at most the level it started with, less the level
      it ended with, plus the refill of the elapsed time. */
  lemma {:induction false} Conservation(c: Limits, ss: seq<State>, ops: seq<Op>, i: nat, j: nat)
    requires Run(c, ss, ops) && i <= j <= |ops|
    ensures Now(ss[i]) <= Now(ss[j])
    ensures ChargeCount(c, ss, ops, i, j) as real - RefundCount(ops, i, j) as real
         <= Level(c, ss[i]) - Level(c, ss[j]) + (Now(ss[j]) - Now(ss[i])) as real / c.refill as real
    decreases j
  {
    if i < j {
      Conservation(c, ss, ops, i, j - 1);
      RunKeeps(c, ss, ops, j - 1);
      LevelStep(c, ss[j - 1], ops[j - 1]);
      assert Now(ss[j - 1]) <= Now(ss[j]);
      RefillAdds(c, Now(ss[j - 1]) - Now(ss[i]), Now(ss[j]) - Now(ss[j - 1]));
      hide Charges, Next, Level, Run;
    }
  }

  // ---------- The rolling emission window ----------

  ghost predicate Remembers(c: Limits, s: State, member: string, sent: int) {
    (member in s.emitted.scores && s.emitted.scores[member] >= sent) || Now(s) - sent >= c.dailyWindow
  }

  lemma NextRemembers(c: Limits, s: State, op: Op, member: string, sent: int)
    requires Kept(c, s) && op != OpRefund(member)
    requires Remembers(c, s, member, sent)
    ensures Remembers(c, Next(c, s, op), member, sent)
  {
    hide Level;
    match op
    case OpTick(ms) =>
    case OpSpend(m) => assert Next(c, s, op).emitted.scores == Live(c, s).scores
      || Next(c, s, op).emitted.scores == Live(c, s).scores[m := Now(s)];
    case _ =>
  }

  /** Charged at step i and not refunded in the steps up to `end`. */
  ghost predicate Outstanding(c: Limits, ss: seq<State>, ops: seq<Op>, i: nat, end: nat)
    requires ValidLimits(c) && i < end <= |ops| < |ss|
  {
    && Charges(c, ss[i], ops[i])
    && forall k :: i < k < end ==> ops[k] != OpRefund(ops[i].member)
  }

  lemma {:induction false} RunRemembers(c: Limits, ss: seq<State>, ops: seq<Op>, i: nat, j: nat)
    requires Run(c, ss, ops) && i < j <= |ops| && Outstanding(c, ss, ops, i, j)
    ensures Remembers(c, ss[j], ops[i].member, Now(ss[i]))
    decreases j
  {
    StepOf(c, ss, ops, j - 1);
    if j > i + 1 {
      RunRemembers(c, ss, ops, i, j - 1);
      RunKeeps(c, ss, ops, j - 1);
      StepOf(c, ss, ops, j - 1);
      NextRemembers(c, ss[j - 1], ops[j - 1], ops[i].member, Now(ss[i]));
    }
  }

  /** The distinct members charged at a time in [from, from + dailyWindow) and not refunded by the
      end of the run's first `end` steps. */
  ghost function Paid(c: Limits, ss: seq<State>, ops: seq<Op>, from: int, end: nat): set<string>
    requires ValidLimits(c) && end <= |ops| < |ss|
  {
    set i | 0 <= i < end && Outstanding(c, ss, ops, i, end) && from <= Now(ss[i]) < from + c.dailyWindow ::
      ops[i].member
  }

  /** Everything charged in the window that is open now and not refunded is still in it. */
  lemma PaidIsLive(c: Limits, ss: seq<State>, ops: seq<Op>, from: int, end: nat)
    requires Run(c, ss, ops) && end <= |ops| && Now(ss[end]) < from + c.dailyWindow
    ensures Paid(c, ss, ops, from, end) <= Within(ss[end].emitted.scores, Now(ss[end]), c.dailyWindow)
  {
    forall i | 0 <= i < end && Outstanding(c, ss, ops, i, end) && from <= Now(ss[i]) < from + c.dailyWindow
      ensures ops[i].member in Within(ss[end].emitted.scores, Now(ss[end]), c.dailyWindow)
    {
      RunRemembers(c, ss, ops, i, end);
      hide Run, Outstanding;
    }
  }

  /** A step that charges nothing in the window adds nothing to it. */
  lemma PaidShrinks(c: Limits, ss: seq<State>, ops: seq<Op>, from: int, end: nat)
    requires ValidLimits(c) && 0 < end <= |ops| < |ss|
    requires !(Charges(c, ss[end - 1], ops[end - 1]) && from <= Now(ss[end - 1]) < from + c.dailyWindow)
    ensures Paid(c, ss, ops, from, end) <= Paid(c, ss, ops, from, end - 1)
  {
    hide Spend, Refund, Emit;
    forall i | 0 <= i < end && Outstanding(c, ss, ops, i, end) && from <= Now(ss[i]) < from + c.dailyWindow
      ensures ops[i].member in Paid(c, ss, ops, from, end - 1)
    {
      assert Outstanding(c, ss, ops, i, end - 1);
    }
  }

  /** In any run at most `dailyCap` distinct notifications are charged and kept in any rolling
      window. */
  lemma {:induction false} EmissionCap(c: Limits, ss: seq<State>, ops: seq<Op>, from: int, end: nat)
    requires Run(c, ss, ops) && end <= |ops|
    ensures |Paid(c, ss, ops, from, end)| <= c.dailyCap
    decreases end
  {
    if end == 0 {
    } else if Charges(c, ss[end - 1], ops[end - 1]) && from <= Now(ss[end - 1]) < from + c.dailyWindow {
      RunKeeps(c, ss, ops, end);
      StepOf(c, ss, ops, end - 1);
      assert Now(ss[end]) == Now(ss[end - 1]);
      hide Run, Next, Charges, Paid;
      PaidIsLive(c, ss, ops, from, end);
      CardinalityMonotone(
        Paid(c, ss, ops, from, end), Within(ss[end].emitted.scores, Now(ss[end]), c.dailyWindow));
    } else {
      hide Run, Paid;
      EmissionCap(c, ss, ops, from, end - 1);
      PaidShrinks(c, ss, ops, from, end);
      CardinalityMonotone(Paid(c, ss, ops, from, end), Paid(c, ss, ops, from, end - 1));
    }
  }

  /** The budget has a free slot and a whole token. */
  predicate HasRoom(c: Limits, s: State)
    requires ValidLimits(c)
  {
    |Live(c, s).scores| < c.dailyCap && Level(c, s) >= 1.0
  }

  /** A spend is granted exactly to a member that still holds its slot or when there is room; the window
      refuses before the bucket does, and an emission has no slot to reuse. */
  lemma GrantedExactly(c: Limits, s: State, member: string)
    requires ValidLimits(c)
    ensures var d := Spend(c, s, member).1;
      var held := member in Live(c, s).scores;
      && (d.Spent? <==> held || HasRoom(c, s))
      && (d.DailyCapped? <==> !held && |Live(c, s).scores| >= c.dailyCap)
      && (d.BucketEmpty? <==> !held && |Live(c, s).scores| < c.dailyCap && Level(c, s) < 1.0)
    ensures Emit(c, s, member).1 <==> HasRoom(c, s)
  {
  }

  /** When a token is back in an empty bucket, exactly; the wait an empty bucket names is the least that
      is enough whatever was left in it. */
  lemma EmptyBucketWaitIsLeast(c: Limits, s: State, member: string, wait: nat)
    requires Kept(c, s) && Spend(c, s, member).1.BucketEmpty?
    ensures Level(c, Tick(s, 1000 * wait)) >= 1.0 <==> Level(c, s) + wait as real / c.refill as real >= 1.0
    ensures Level(c, s) == 0.0 ==>
      (Level(c, Tick(s, 1000 * wait)) >= 1.0 <==> wait >= Spend(c, s, member).1.retryAfter)
  {
    assert Spend(c, s, member).1.retryAfter == c.refill;
    assert Level(c, s) < 1.0;
    hide Spend;
    LevelInRange(c, s);
    LevelStep(c, s, OpTick(1000 * wait));
    assert Now(Tick(s, 1000 * wait)) == Now(s) + wait;
    hide Tick, Kept, Level;
    RefilledAfter(c, Level(c, s), wait);
  }

  lemma RefilledAfter(c: Limits, x: real, wait: nat)
    requires ValidLimits(c) && 0.0 <= x < 1.0
    ensures Refilled(c, x, wait) >= 1.0 <==> x + wait as real / c.refill as real >= 1.0
    ensures wait as real / c.refill as real >= 1.0 <==> wait >= c.refill
  {
    assert c.refill as real / c.refill as real == 1.0;
    if wait >= c.refill {
      assert wait as real / c.refill as real >= c.refill as real / c.refill as real;
    } else {
      assert wait as real / c.refill as real < c.refill as real / c.refill as real;
    }
  }

  /** A retry of a reservation that still counts pays nothing: neither token nor slot. */
  lemma ReservationReused(c: Limits, s: State, member: string)
    requires ValidLimits(c) && member in Within(s.emitted.scores, Now(s), c.dailyWindow)
    ensures Spend(c, s, member) == (s.(emitted := Live(c, s)), Spent)
  {
  }

  /** A summary's member is charged again only after a refund or after its first charge has left
      the rolling window: a recovered lease never pays twice. */
  lemma NeverPaysTwice(c: Limits, ss: seq<State>, ops: seq<Op>, i: nat, j: nat)
    requires Run(c, ss, ops) && i < j < |ops|
    requires Charges(c, ss[i], ops[i]) && Charges(c, ss[j], ops[j])
    requires ops[j].OpSpend? && ops[j].member == ops[i].member
    ensures Now(ss[j]) - Now(ss[i]) >= c.dailyWindow || exists k :: i < k < j && ops[k] == OpRefund(ops[i].member)
  {
    if forall k :: i < k < j ==> ops[k] != OpRefund(ops[i].member) {
      RunRemembers(c, ss, ops, i, j);
      LiveKeys(c, ss[j]);
    }
  }

  /** A refund undoes a charge: the slot is free again and the level is what it was. */
  lemma RefundUndoes(c: Limits, s: State, member: string)
    requires Kept(c, s) && Level(c, s) >= 1.0 && member !in s.emitted.scores
    ensures var t := Refund(c, Charged(c, s, member), member);
      Level(c, t) == Level(c, s) && t.emitted.scores == Live(c, s).scores
  {
    LevelInRange(c, s);
  }

  /** The wait a full window names is exact: refused as full until then, a slot free from then. */
  lemma CapWaitIsExact(c: Limits, s: State, member: string, wait: nat)
    requires Kept(c, s) && Spend(c, s, member).1.DailyCapped?
    ensures wait < Spend(c, s, member).1.retryAfter ==> Spend(c, Tick(s, 1000 * wait), member).1.DailyCapped?
    ensures wait >= Spend(c, s, member).1.retryAfter ==> |Live(c, Tick(s, 1000 * wait)).scores| < c.dailyCap
  {
    CappedWait(c, s, Tick(s, 1000 * wait), wait, Spend(c, s, member).1.retryAfter);
    hide Level, Live, Tick, Kept;
  }

  /** With nothing else happening an empty bucket holds a token from the wait it names on. */
  lemma EmptyBucketWaitSuffices(c: Limits, s: State, member: string, wait: nat)
    requires Kept(c, s) && Spend(c, s, member).1.BucketEmpty?
    requires wait >= Spend(c, s, member).1.retryAfter
    ensures Level(c, Tick(s, 1000 * wait)) >= 1.0
  {
    assert Spend(c, s, member).1.retryAfter == c.refill;
    hide Spend;
    LevelInRange(c, s);
    LevelStep(c, s, OpTick(1000 * wait));
    assert Now(Tick(s, 1000 * wait)) == Now(s) + wait;
    hide Tick, Kept, Level;
    OneTokenRefilled(c, Level(c, s), wait);
  }

  lemma OneTokenRefilled(c: Limits, x: real, wait: nat)
    requires ValidLimits(c) && x >= 0.0 && wait >= c.refill
    ensures Refilled(c, x, wait) >= 1.0
  {
    assert c.refill as real / c.refill as real == 1.0;
    assert wait as real / c.refill as real >= c.refill as real / c.refill as real;
  }

  lemma CappedWait(c: Limits, s: State, t: State, wait: nat, full: nat)
    requires Kept(c, s) && t == Tick(s, 1000 * wait)
    requires |Live(c, s).scores| >= c.dailyCap
    requires full == AtLeastOne(Oldest(Live(c, s).scores) + c.dailyWindow - Now(s))
    ensures wait < full ==> Live(c, t).scores == Live(c, s).scores
    ensures wait >= full ==> |Live(c, t).scores| < c.dailyCap
  {
    var live := Live(c, s).scores;
    var oldest := Oldest(live);
    var k :| k in live && live[k] == oldest;
    assert full == oldest + c.dailyWindow - Now(s);
    LiveKeys(c, s);
    LiveKeys(c, t);
    if wait < full {
      assert s.emitted.At(t.clock) == s.emitted;
      assert Live(c, t).scores == live;
    } else {
      assert k !in Live(c, t).scores;
      assert Live(c, t).scores.Keys <= live.Keys - {k};
      CardinalityMonotone(Live(c, t).scores.Keys, live.Keys - {k});
    }
  }

  // ---------- The keys themselves ----------

  /** One recipient's throttle hash and emission window, updated in place. */
  class RecipientKeys {
    var clock: nat
    var bucket: Option<Bucket>
    var emitted: Zset

    ghost function Value(): State reads this { State(clock, bucket, emitted) }

    constructor (clock: nat)
      ensures Value() == State(clock, None, Zset(map[], 0))
    {
      this.clock, bucket, emitted := clock, None, Zset(map[], 0);
    }

    method Advance(ms: nat)
      modifies this
      ensures Value() == Tick(old(Value()), ms)
    {
      clock := clock + ms;
      if bucket.Some? && clock > bucket.value.deadline { bucket := None; }
      emitted := emitted.At(clock);
    }

    /** The refilled level: HGET tokens and ts, with absent fields read as a full bucket now. */
    method ReadTokens(c: Limits) returns (tokens: real)
      requires ValidLimits(c)
      ensures tokens == Level(c, Value())
    {
      var now := Seconds(clock);
      tokens := if bucket.Some? then bucket.value.tokens else c.capacity as real;
      var ts := if bucket.Some? then bucket.value.ts else now;
      var elapsed := if now < ts then 0 else now - ts;
      tokens := tokens + elapsed as real / c.refill as real;
      if tokens > c.capacity as real { tokens := c.capacity as real; }
    }

    method ConsumeToken(c: Limits, member: string) returns (outcome: SpendOutcome)
      requires ValidLimits(c)
      modifies this
      ensures (Value(), outcome) == Spend(c, old(Value()), member)
    {
      var now := Seconds(clock);
      var tokens := ReadTokens(c);
      emitted := emitted.Above(now - c.dailyWindow);
      if member in emitted.scores { return Spent; }
      if |emitted.scores| >= c.dailyCap {
        assert emitted.scores.Keys != {} by { assert |emitted.scores| == |emitted.scores.Keys|; }
        OldestExists(emitted.scores);
        var oldest :| oldest in emitted.scores
          && forall k :: k in emitted.scores ==> emitted.scores[oldest] <= emitted.scores[k];
        assert Oldest(emitted.scores) == emitted.scores[oldest];
        return DailyCapped(AtLeastOne(emitted.scores[oldest] + c.dailyWindow - now));
      }
      if tokens >= 1.0 {
        tokens := tokens - 1.0;
        emitted := emitted.Put(member, now, Deadline(clock, EmittedTtl(c)));
        outcome := Spent;
      } else {
        outcome := BucketEmpty(c.refill);
      }
      bucket := Some(Bucket(tokens, now, Deadline(clock, BucketTtl(c))));
    }

    method RefundToken(c: Limits, member: string)
      requires ValidLimits(c)
      modifies this
      ensures Value() == Refund(c, old(Value()), member)
    {
      var tokens := ReadTokens(c);
      tokens := tokens + 1.0;
      if tokens > c.capacity as real { tokens := c.capacity as real; }
      bucket := Some(Bucket(tokens, Seconds(clock), Deadline(clock, BucketTtl(c))));
      emitted := emitted.(scores := emitted.scores - {member});
    }
  }
}
