/** Delivery of video events and their edits (src/event_handler.rs): a coordinate is announced to a
    recipient at most once as a mention and at most once as a new post, and never as a new post
    after a mention. Deliveries are atomic here: those of one replica do not overlap. */
module VideoDedup {
  import opened Redis
  import opened VideoKeys

  const KIND_VIDEO := "34236"

  datatype Settings = Settings(dedupTtl: nat, rateLimit: nat, eventTtl: nat)

  /** A video event. Edits keep the author and the d-tag and change the id. */
  datatype Video = Video(id: string, author: string, dtag: Option<string>)

  predicate IsVideo(v: Video) { IsPubkey(v.author) && |v.id| == 64 && ':' !in v.id }

  /** One delivery to one recipient and what the lookups, gates and the provider answer. */
  datatype Request = Request(
    video: Video,
    recipient: string,
    wanted: Kind,
    enabled: set<Kind>,
    watcher: bool,
    gates: Result<bool>,
    delivered: bool,
    retryable: bool)

  predicate IsRequest(r: Request) {
    IsVideo(r.video) && IsPubkey(r.recipient) && (r.wanted == Mention || r.wanted == NewPost)
  }

  /** Redis strings and when each expires: coordinate and event claims, and the per-creator
      new-post windows. */
  datatype State = State(clock: nat, claims: map<string, nat>, windows: map<(string, string), nat>)

  datatype Outcome =
    | NotWanted | NoCoordinate | AlreadyNotified | RateLimited | AlreadyClaimed | Withheld | Undelivered
    | Pushed(as_: Kind)

  /** A muted mention falls back to the bell for a watcher who has it enabled. */
  function DeliveryType(r: Request): Option<Kind> {
    if r.wanted in r.enabled then Some(r.wanted)
    else if r.wanted == Mention && NewPost in r.enabled && r.watcher then Some(NewPost)
    else None
  }

  function KeyOf(v: Video, recipient: string, t: Kind): string
    requires v.dtag.Some?
  {
    TypedKey(KIND_VIDEO, t, v.author, v.dtag.value, recipient)
  }

  function LegacyOf(v: Video, recipient: string): string
    requires v.dtag.Some?
  {
    LegacyKey(KIND_VIDEO, v.author, v.dtag.value, recipient)
  }

  /** A mention names the video, so it also settles the bell. */
  function Satisfied(t: Kind): seq<Kind> {
    if t == Mention then [Mention, NewPost] else [t]
  }

  function WithClaims(claims: map<string, nat>, v: Video, recipient: string, ts: seq<Kind>, deadline: nat)
    : map<string, nat>
    requires v.dtag.Some?
    decreases |ts|
  {
    if ts == [] then claims
    else WithClaims(claims[KeyOf(v, recipient, ts[0]) := deadline], v, recipient, ts[1..], deadline)
  }

  function Recorded(c: Settings, s: State, r: Request, t: Kind): State
    requires r.video.dtag.Some?
  {
    s.(claims := WithClaims(s.claims, r.video, r.recipient, Satisfied(t), Deadline(s.clock, c.dedupTtl)))
  }

  function Deliver(c: Settings, s: State, r: Request): (State, Outcome) {
    if DeliveryType(r).None? then (s, NotWanted)
    else if r.video.dtag.None? then (s, NoCoordinate)
    else
      var t := DeliveryType(r).value;
      var event := EventKey(r.video.id, r.recipient);
      if KeyOf(r.video, r.recipient, t) in s.claims || LegacyOf(r.video, r.recipient) in s.claims then
        (s, AlreadyNotified)
      else if t == NewPost && (r.recipient, r.video.author) in s.windows then (Recorded(c, s, r, t), RateLimited)
      else if event in s.claims then (s, AlreadyClaimed)
      else
        var held := s.(claims := s.claims[event := Deadline(s.clock, c.eventTtl)]);
        if r.gates.Err? then (s, Undelivered)
        else if !r.gates.value then (held, Withheld)
        else if !r.delivered then (if r.retryable then s else held, Undelivered)
        else
          var limited := s.windows[(r.recipient, r.video.author) := Deadline(s.clock, c.rateLimit)];
          (Recorded(c, if t == NewPost then held.(windows := limited) else held, r, t), Pushed(t))
  }

  function Tick(s: State, ms: nat): State {
    var clock := s.clock + ms;
    State(clock,
      map k | k in s.claims && clock <= s.claims[k] :: s.claims[k],
      map k | k in s.windows && clock <= s.windows[k] :: s.windows[k])
  }

  datatype Op = OpTick(ms: nat) | OpDeliver(request: Request)

  function Next(c: Settings, s: State, op: Op): State {
    match op
    case OpTick(ms) => Tick(s, ms)
    case OpDeliver(r) => Deliver(c, s, r).0
  }

  /** A run starts with nothing but legacy claims. */
  ghost predicate Run(c: Settings, ss: seq<State>, ops: seq<Op>) {
    && |ss| == |ops| + 1
    && (forall k :: k in ss[0].claims ==> IsLegacy(k))
    && (forall i {:trigger Next(c, ss[i], ops[i])} :: 0 <= i < |ops| ==>
       (ops[i].OpDeliver? ==> IsRequest(ops[i].request)) && ss[i + 1] == Next(c, ss[i], ops[i]))
  }

  lemma StepOf(c: Settings, ss: seq<State>, ops: seq<Op>, k: nat)
    requires Run(c, ss, ops) && k < |ops|
    ensures ss[k + 1] == Next(c, ss[k], ops[k]) && (ops[k].OpDeliver? ==> IsRequest(ops[k].request))
  {
    var next := Next(c, ss[k], ops[k]);
  }

  ghost predicate IsLegacy(key: string) {
    exists author, dtag, recipient :: IsPubkey(author) && IsPubkey(recipient)
      && key == LegacyKey(KIND_VIDEO, author, dtag, recipient)
  }

  // ---------- Claims persist ----------

  ghost predicate Lives(s: State, key: string, deadline: nat) {
    (key in s.claims && s.claims[key] >= deadline) || s.clock > deadline
  }

  predicate KeyAmong(v: Video, recipient: string, ts: seq<Kind>, key: string)
    requires v.dtag.Some?
  {
    exists i :: 0 <= i < |ts| && key == KeyOf(v, recipient, ts[i])
  }

  lemma {:induction false} WithClaimsKeeps(claims: map<string, nat>, v: Video, recipient: string, ts: seq<Kind>,
      deadline: nat, key: string)
    requires v.dtag.Some?
    ensures var after := WithClaims(claims, v, recipient, ts, deadline);
      && (key in claims ==> key in after)
      && (key in after ==>
            || (key in claims && after[key] == claims[key])
            || (after[key] == deadline && KeyAmong(v, recipient, ts, key)))
      && (forall i :: 0 <= i < |ts| ==>
         KeyOf(v, recipient, ts[i]) in after && after[KeyOf(v, recipient, ts[i])] == deadline)
    decreases |ts|
  {
    if ts != [] {
      var once := claims[KeyOf(v, recipient, ts[0]) := deadline];
      WithClaimsKeeps(once, v, recipient, ts[1..], deadline, key);
      assert forall i :: 1 <= i < |ts| ==> ts[i] == ts[1..][i - 1];
      WithClaimsKeeps(once, v, recipient, ts[1..], deadline, KeyOf(v, recipient, ts[0]));
    }
  }

  /** What a delivery may do to a claim: write it afresh when the outcome settles it. */
  lemma DeliverClaims(c: Settings, s: State, r: Request, key: string)
    requires IsRequest(r) && r.video.dtag.Some? && key != EventKey(r.video.id, r.recipient)
    ensures var (u, outcome) := Deliver(c, s, r);
      && (key in s.claims ==> key in u.claims)
      && (key in u.claims ==>
            || (key in s.claims && u.claims[key] == s.claims[key])
            || (u.claims[key] == Deadline(s.clock, c.dedupTtl) && SettledBy(r, outcome).Some?
                && KeyAmong(r.video, r.recipient, Satisfied(SettledBy(r, outcome).value), key)))
  {
    if DeliveryType(r).Some? {
      var t := DeliveryType(r).value;
      var held := s.claims[EventKey(r.video.id, r.recipient) := Deadline(s.clock, c.eventTtl)];
      WithClaimsKeeps(s.claims, r.video, r.recipient, Satisfied(t), Deadline(s.clock, c.dedupTtl), key);
      WithClaimsKeeps(held, r.video, r.recipient, Satisfied(t), Deadline(s.clock, c.dedupTtl), key);
      hide WithClaims, KeyOf, LegacyOf, EventKey;
      var after := Deliver(c, s, r).0.claims;
      assert || after == s.claims || after == held
             || after == WithClaims(s.claims, r.video, r.recipient, Satisfied(t), Deadline(s.clock, c.dedupTtl))
             || after == WithClaims(held, r.video, r.recipient, Satisfied(t), Deadline(s.clock, c.dedupTtl));
    }
  }

  /** The type whose claims the outcome records: a push, or a bell dropped by the rate limit. */
  function SettledBy(r: Request, outcome: Outcome): Option<Kind> {
    match outcome
    case Pushed(t) => Some(t)
    case RateLimited => Some(NewPost)
    case _ => None
  }

  lemma DeliverTypes(c: Settings, s: State, r: Request)
    ensures var outcome := Deliver(c, s, r).1;
      && (SettledBy(r, outcome).Some? ==> r.video.dtag.Some? && DeliveryType(r) == SettledBy(r, outcome))
      && Deliver(c, s, r).0.clock == s.clock
  {
    hide WithClaims, KeyOf, LegacyOf, EventKey;
  }

  lemma SettledIsClaimed(c: Settings, s: State, r: Request, t: Kind)
    requires SettledBy(r, Deliver(c, s, r).1).Some? && t in Satisfied(SettledBy(r, Deliver(c, s, r).1).value)
    ensures r.video.dtag.Some?
    ensures Lives(Deliver(c, s, r).0, KeyOf(r.video, r.recipient, t), Deadline(s.clock, c.dedupTtl))
  {
    DeliverTypes(c, s, r);
    var u := DeliveryType(r).value;
    var held := s.claims[EventKey(r.video.id, r.recipient) := Deadline(s.clock, c.eventTtl)];
    WithClaimsKeeps(s.claims, r.video, r.recipient, Satisfied(u), Deadline(s.clock, c.dedupTtl), "");
    WithClaimsKeeps(held, r.video, r.recipient, Satisfied(u), Deadline(s.clock, c.dedupTtl), "");
    var i :| 0 <= i < |Satisfied(u)| && Satisfied(u)[i] == t;
    hide WithClaims, KeyOf, LegacyOf, EventKey;
  }

  lemma LivesStep(c: Settings, s: State, op: Op, v: Video, recipient: string, t: Kind, deadline: nat)
    requires IsVideo(v) && v.dtag.Some? && IsPubkey(recipient) && (op.OpDeliver? ==> IsRequest(op.request))
    requires Lives(s, KeyOf(v, recipient, t), deadline) && deadline <= Deadline(s.clock, c.dedupTtl)
    ensures Lives(Next(c, s, op), KeyOf(v, recipient, t), deadline) && s.clock <= Next(c, s, op).clock
  {
    if op.OpDeliver? {
      var r := op.request;
      DeliverTypes(c, s, r);
      if r.video.dtag.Some? {
        VideoIsNotEvent(KIND_VIDEO, t, v.author, v.dtag.value, recipient, r.video.id, r.recipient);
        DeliverClaims(c, s, r, KeyOf(v, recipient, t));
      }
      hide Deliver;
    }
  }

  lemma {:induction false} ClaimLives(c: Settings, ss: seq<State>, ops: seq<Op>, i: nat, j: nat, t: Kind)
    requires Run(c, ss, ops) && i < j < |ss| && ops[i].OpDeliver?
    requires var r := ops[i].request;
      SettledBy(r, Deliver(c, ss[i], r).1).Some? && t in Satisfied(SettledBy(r, Deliver(c, ss[i], r).1).value)
    ensures ops[i].request.video.dtag.Some? && ss[i].clock <= ss[j].clock
    ensures Lives(ss[j], KeyOf(ops[i].request.video, ops[i].request.recipient, t), Deadline(ss[i].clock, c.dedupTtl))
    decreases j
  {
    var r := ops[i].request;
    StepOf(c, ss, ops, i);
    StepOf(c, ss, ops, j - 1);
    SettledIsClaimed(c, ss[i], r, t);
    DeliverTypes(c, ss[i], r);
    hide Deliver, Satisfied, KeyOf, Lives;
    if j > i + 1 {
      ClaimLives(c, ss, ops, i, j - 1, t);
      LivesStep(c, ss[j - 1], ops[j - 1], r.video, r.recipient, t, Deadline(ss[i].clock, c.dedupTtl));
      assert ss[j] == Next(c, ss[j - 1], ops[j - 1]);
    } else {
      assert ss[j] == Next(c, ss[i], ops[i]);
    }
  }

  // ---------- What a recipient is told ----------

  predicate SameCoordinate(a: Request, b: Request) {
    a.video.author == b.video.author && a.video.dtag == b.video.dtag && a.recipient == b.recipient
  }

  ghost predicate Settles(c: Settings, s: State, op: Op, t: Kind) {
    op.OpDeliver? && SettledBy(op.request, Deliver(c, s, op.request).1) == Some(t)
  }

  ghost predicate Pushes(c: Settings, s: State, op: Op, t: Kind) {
    op.OpDeliver? && Deliver(c, s, op.request).1 == Pushed(t)
  }

  /** Within the dedup window of a settled delivery, a later delivery of any edit to the same
      recipient pushes only what the first did not settle: after a mention nothing, after a new
      post (sent or rate-limited away) only a mention. */
  lemma PushedOnlyOnce(c: Settings, ss: seq<State>, ops: seq<Op>, i: nat, j: nat, t: Kind, u: Kind)
    requires Run(c, ss, ops) && i < j < |ops|
    requires Settles(c, ss[i], ops[i], t) && Pushes(c, ss[j], ops[j], u)
    requires SameCoordinate(ops[i].request, ops[j].request) && ss[j].clock <= Deadline(ss[i].clock, c.dedupTtl)
    ensures t == NewPost && u == Mention
  {
    var r := ops[j].request;
    StepOf(c, ss, ops, i);
    StepOf(c, ss, ops, j);
    DeliverTypes(c, ss[i], ops[i].request);
    DeliverTypes(c, ss[j], r);
    if u in Satisfied(t) {
      ClaimLives(c, ss, ops, i, j, u);
      ClaimedIsSkipped(c, ss[j], r, u);
    }
  }

  lemma ClaimedIsSkipped(c: Settings, s: State, r: Request, t: Kind)
    requires r.video.dtag.Some? && KeyOf(r.video, r.recipient, t) in s.claims
    ensures Deliver(c, s, r).1 != Pushed(t)
  {
    hide WithClaims, TypedKey, LegacyKey, EventKey;
  }

  /** So no coordinate reaches a recipient three times within one window. */
  lemma AtMostTwoPushes(c: Settings, ss: seq<State>, ops: seq<Op>, i: nat, j: nat, k: nat, t: Kind, u: Kind, w: Kind)
    requires Run(c, ss, ops) && i < j < k < |ops|
    requires Pushes(c, ss[i], ops[i], t) && Pushes(c, ss[j], ops[j], u) && Pushes(c, ss[k], ops[k], w)
    requires SameCoordinate(ops[i].request, ops[j].request) && SameCoordinate(ops[j].request, ops[k].request)
    ensures ss[k].clock > Deadline(ss[i].clock, c.dedupTtl)
  {
    if ss[k].clock <= Deadline(ss[i].clock, c.dedupTtl) {
      hide Deliver;
      ClockNeverFalls(c, ss, ops, i, j);
      ClockNeverFalls(c, ss, ops, j, k);
      PushedOnlyOnce(c, ss, ops, i, j, t, u);
      PushedOnlyOnce(c, ss, ops, j, k, u, w);
    }
  }

  lemma {:induction false} ClockNeverFalls(c: Settings, ss: seq<State>, ops: seq<Op>, i: nat, j: nat)
    requires Run(c, ss, ops) && i <= j < |ss|
    ensures ss[i].clock <= ss[j].clock
    decreases j
  {
    if i < j {
      ClockNeverFalls(c, ss, ops, i, j - 1);
      assert ss[j] == Next(c, ss[j - 1], ops[j - 1]);
      if ops[j - 1].OpDeliver? { DeliverTypes(c, ss[j - 1], ops[j - 1].request); }
    }
  }

  // ---------- What a claim comes from ----------

  /** A typed claim stands only because an earlier delivery of the same coordinate to the same
      recipient settled it: colons in d-tags never let one coordinate silence another. */
  lemma {:induction false} ClaimOrigin(c: Settings, ss: seq<State>, ops: seq<Op>, j: nat, v: Video,
      recipient: string, t: Kind) returns (i: nat, u: Kind)
    requires Run(c, ss, ops) && j < |ss|
    requires IsVideo(v) && v.dtag.Some? && IsPubkey(recipient) && KeyOf(v, recipient, t) in ss[j].claims
    ensures i < j && Settles(c, ss[i], ops[i], u) && t in Satisfied(u)
    ensures ops[i].request.video.author == v.author && ops[i].request.video.dtag == v.dtag
      && ops[i].request.recipient == recipient
    decreases j
  {
    var key := KeyOf(v, recipient, t);
    if j == 0 {
      NotLegacyKey(v, recipient, t);
      assert false;
    } else if key in ss[j - 1].claims {
      i, u := ClaimOrigin(c, ss, ops, j - 1, v, recipient, t);
    } else {
      i := j - 1;
      StepOf(c, ss, ops, i);
      u := FreshClaim(c, ss[i], ops[i], v, recipient, t);
    }
  }

  lemma NotLegacyKey(v: Video, recipient: string, t: Kind)
    requires v.dtag.Some?
    ensures !IsLegacy(KeyOf(v, recipient, t))
  {
    if IsLegacy(KeyOf(v, recipient, t)) {
      var author, dtag, other :| IsPubkey(author) && IsPubkey(other)
        && KeyOf(v, recipient, t) == LegacyKey(KIND_VIDEO, author, dtag, other);
      TypedIsNotLegacy(KIND_VIDEO, t, v.author, v.dtag.value, recipient, KIND_VIDEO, author, dtag, other);
    }
  }

  lemma FreshClaim(c: Settings, s: State, op: Op, v: Video, recipient: string, t: Kind) returns (u: Kind)
    requires IsVideo(v) && v.dtag.Some? && IsPubkey(recipient) && (op.OpDeliver? ==> IsRequest(op.request))
    requires KeyOf(v, recipient, t) !in s.claims && KeyOf(v, recipient, t) in Next(c, s, op).claims
    ensures Settles(c, s, op, u) && t in Satisfied(u)
    ensures op.request.video.author == v.author && op.request.video.dtag == v.dtag && op.request.recipient == recipient
  {
    var r := op.request;
    VideoIsNotEvent(KIND_VIDEO, t, v.author, v.dtag.value, recipient, r.video.id, r.recipient);
    DeliverClaims(c, s, r, KeyOf(v, recipient, t));
    u := SettledBy(r, Deliver(c, s, r).1).value;
    hide Deliver;
    var i :| 0 <= i < |Satisfied(u)| && KeyOf(v, recipient, t) == KeyOf(r.video, r.recipient, Satisfied(u)[i]);
    TypedKeyInjective(KIND_VIDEO, t, v.author, v.dtag.value, recipient,
      KIND_VIDEO, Satisfied(u)[i], r.video.author, r.video.dtag.value, r.recipient);
  }

  /** A delivery is skipped as already notified only after an earlier one of the same coordinate to
      the same recipient settled its type, or under a legacy claim. */
  lemma SilencedOnlyByItself(c: Settings, ss: seq<State>, ops: seq<Op>, j: nat)
    requires Run(c, ss, ops) && j < |ops| && ops[j].OpDeliver?
    requires Deliver(c, ss[j], ops[j].request).1 == AlreadyNotified
    ensures var r := ops[j].request;
      && r.video.dtag.Some? && DeliveryType(r).Some?
      && (|| LegacyOf(r.video, r.recipient) in ss[j].claims
          || exists i, u ::
               0 <= i < j && Settles(c, ss[i], ops[i], u) && SameCoordinate(ops[i].request, r)
               && DeliveryType(r).value in Satisfied(u))
  {
    var r := ops[j].request;
    var t := DeliveryType(r).value;
    StepOf(c, ss, ops, j);
    if LegacyOf(r.video, r.recipient) !in ss[j].claims {
      assert KeyOf(r.video, r.recipient, t) in ss[j].claims;
      hide Deliver, KeyOf;
      var i, u := ClaimOrigin(c, ss, ops, j, r.video, r.recipient, t);
      assert SameCoordinate(ops[i].request, r);
    }
  }

  // ---------- What each delivery ends in ----------

  /** The recipient wants the video, it can be identified, and nobody was notified of it before. */
  predicate IsNew(s: State, r: Request) {
    && DeliveryType(r).Some? && r.video.dtag.Some?
    && KeyOf(r.video, r.recipient, DeliveryType(r).value) !in s.claims
    && LegacyOf(r.video, r.recipient) !in s.claims
  }

  /** A bell within its creator's window. */
  predicate IsLimited(s: State, r: Request) {
    DeliveryType(r) == Some(NewPost) && (r.recipient, r.video.author) in s.windows
  }

  /** The delivery takes its event's claim. */
  predicate Attempts(s: State, r: Request) {
    IsNew(s, r) && !IsLimited(s, r) && EventKey(r.video.id, r.recipient) !in s.claims
  }

  predicate Arrives(s: State, r: Request) { Attempts(s, r) && r.gates == Ok(true) && r.delivered }

  /** The event may be delivered again: a gate could not be asked, or every device failed and one may be
      retried. */
  predicate ReleasesEvent(r: Request) {
    r.gates.Err? || (r.gates.value && !r.delivered && r.retryable)
  }

  /** Every outcome, exactly; the event's claim is kept exactly by an attempt that is not to be repeated,
      and only a bell that arrived opens its creator's window. */
  lemma DeliveredExactly(c: Settings, s: State, r: Request)
    requires IsRequest(r)
    ensures var (u, d) := Deliver(c, s, r);
      && (d.NotWanted? <==> DeliveryType(r).None?)
      && (d.NoCoordinate? <==> DeliveryType(r).Some? && r.video.dtag.None?)
      && (d.AlreadyNotified? <==> DeliveryType(r).Some? && r.video.dtag.Some? && !IsNew(s, r))
      && (d.RateLimited? <==> IsNew(s, r) && IsLimited(s, r))
      && (d.AlreadyClaimed? <==> IsNew(s, r) && !IsLimited(s, r) && !Attempts(s, r))
      && (d.Withheld? <==> Attempts(s, r) && r.gates == Ok(false))
      && (d.Undelivered? <==> Attempts(s, r) && (r.gates.Err? || (r.gates.value && !r.delivered)))
      && (d.Pushed? <==> Arrives(s, r)) && (d.Pushed? ==> Some(d.as_) == DeliveryType(r))
    ensures DeliveryType(r).None? <==>
      r.wanted !in r.enabled && !(r.wanted == Mention && NewPost in r.enabled && r.watcher)
    ensures DeliveryType(r).Some? ==>
      DeliveryType(r).value == (if r.wanted in r.enabled then r.wanted else NewPost)
    ensures var u := Deliver(c, s, r).0;
      var event := EventKey(r.video.id, r.recipient);
      && (event in u.claims <==> event in s.claims || (Attempts(s, r) && !ReleasesEvent(r)))
      && (event in s.claims ==> u.claims[event] == s.claims[event])
      && (event in u.claims && event !in s.claims ==> u.claims[event] == Deadline(s.clock, c.eventTtl))
    ensures Deliver(c, s, r).0.windows ==
      if Arrives(s, r) && DeliveryType(r) == Some(NewPost)
      then s.windows[(r.recipient, r.video.author) := Deadline(s.clock, c.rateLimit)] else s.windows
  {
    if DeliveryType(r).Some? && r.video.dtag.Some? {
      var t, event := DeliveryType(r).value, EventKey(r.video.id, r.recipient);
      var held := s.claims[event := Deadline(s.clock, c.eventTtl)];
      NoneIsEvent(r, Satisfied(t));
      WithClaimsKeeps(s.claims, r.video, r.recipient, Satisfied(t), Deadline(s.clock, c.dedupTtl), event);
      WithClaimsKeeps(held, r.video, r.recipient, Satisfied(t), Deadline(s.clock, c.dedupTtl), event);
    }
    hide WithClaims, KeyOf, LegacyOf, EventKey, KeyAmong;
  }

  lemma NoneIsEvent(r: Request, ts: seq<Kind>)
    requires IsRequest(r) && r.video.dtag.Some?
    ensures !KeyAmong(r.video, r.recipient, ts, EventKey(r.video.id, r.recipient))
  {
    forall t ensures KeyOf(r.video, r.recipient, t) != EventKey(r.video.id, r.recipient) {
      VideoIsNotEvent(KIND_VIDEO, t, r.video.author, r.video.dtag.value, r.recipient, r.video.id, r.recipient);
    }
    hide KeyOf, EventKey;
  }

  // ---------- The keys themselves ----------

  /** The Redis strings behind video deliveries, updated in place. */
  class Keys {
    var clock: nat
    var claims: map<string, nat>
    var windows: map<(string, string), nat>

    ghost function Value(): State reads this { State(clock, claims, windows) }

    constructor (clock: nat)
      ensures Value() == State(clock, map[], map[])
    {
      this.clock, claims, windows := clock, map[], map[];
    }

    method HasVideoClaim(v: Video, recipient: string, t: Kind) returns (notified: bool)
      ensures notified <==> v.dtag.None? || KeyOf(v, recipient, t) in claims || LegacyOf(v, recipient) in claims
    {
      if v.dtag.None? { return true; }
      if TypedKey(KIND_VIDEO, t, v.author, v.dtag.value, recipient) in claims { return true; }
      notified := LegacyKey(KIND_VIDEO, v.author, v.dtag.value, recipient) in claims;
    }

    method RecordVideoClaims(c: Settings, r: Request, t: Kind)
      requires r.video.dtag.Some?
      modifies this`claims
      ensures Value() == Recorded(c, old(Value()), r, t)
    {
      var satisfied := Satisfied(t);
      var deadline := Deadline(clock, c.dedupTtl);
      var i := 0;
      while i < |satisfied|
        invariant i <= |satisfied|
        invariant WithClaims(claims, r.video, r.recipient, satisfied[i..], deadline) ==
          WithClaims(old(claims), r.video, r.recipient, satisfied, deadline)
      {
        assert satisfied[i..][0] == satisfied[i] && satisfied[i..][1..] == satisfied[i + 1..];
        claims := claims[KeyOf(r.video, r.recipient, satisfied[i]) := deadline];
        i := i + 1;
      }
    }

    method DeliverVideo(c: Settings, r: Request) returns (outcome: Outcome)
      modifies this
      ensures (Value(), outcome) == Deliver(c, old(Value()), r)
    {
      hide WithClaims, TypedKey, LegacyKey, EventKey;
      var t := r.wanted;
      if t !in r.enabled {
        if t != Mention || NewPost !in r.enabled || !r.watcher { return NotWanted; }
        t := NewPost;
      }
      var notified := HasVideoClaim(r.video, r.recipient, t);
      if notified { return if r.video.dtag.None? then NoCoordinate else AlreadyNotified; }
      if t == NewPost && (r.recipient, r.video.author) in windows {
        RecordVideoClaims(c, r, t);
        return RateLimited;
      }
      var event := EventKey(r.video.id, r.recipient);
      if event in claims { return AlreadyClaimed; }
      ghost var before := claims;
      claims := claims[event := Deadline(clock, c.eventTtl)];
      if r.gates.Err? {
        claims := claims - {event};
        assert claims == before;
        return Undelivered;
      }
      if !r.gates.value { return Withheld; }
      if r.delivered {
        if t == NewPost { windows := windows[(r.recipient, r.video.author) := Deadline(clock, c.rateLimit)]; }
        RecordVideoClaims(c, r, t);
        return Pushed(t);
      }
      if r.retryable {
        claims := claims - {event};
        assert claims == before;
      }
      outcome := Undelivered;
    }
  }
}
