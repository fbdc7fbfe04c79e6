/** Visit fencing across components: the account's generation (src/activity.rs) fences the budget
    (src/notification_delivery.rs), the outbox's ingest and its flushes (src/coalesce.rs). */
module Fencing {
  import opened Redis
  import Account
  import VisitRuns
  import Outbox
  import OutboxContents
  import OutboxCounts
  import Limiter
  import Flush
  import FlushCharges

  /** Work bound before a visit does nothing after it: whatever the outbox holds, its ingest is
      refused without a write, even a replay of a stored decision, and both delivery gates refuse
      the reservation. The one exception is that of `VisitRuns.WorkFence`. */
  lemma BoundWorkDies(
    cfg: Account.Settings, ss: seq<Account.State>, ops: seq<Account.Op>, i: nat, k: nat, j: nat,
    c: Outbox.Settings, s: Outbox.State, e: Outbox.Event, lane: Account.Class)
    requires Account.Run(cfg, ss, ops) && i < k < j < |ss|
    requires ops[i].OpBind? && Account.Visits(ss[k], ops[k])
    requires Outbox.ValidSettings(c)
    ensures var bound := Account.Bind(ss[i], ops[i].identity, ops[i].retention, ops[i].micros).1;
      bound != 0 || Account.Generation(ss[j]) != 0 ==>
        && Outbox.Ingest(c, s, e, Account.Generation(ss[j]), bound) == (s, Outbox.StaleVisit)
        && VisitRuns.RefusedAt(ss[j], cfg, lane, ops[i].identity, bound)
    ensures ss[i].registered ==> Account.Bind(ss[i], ops[i].identity, ops[i].retention, ops[i].micros).1 != 0
  {
    VisitRuns.WorkFence(cfg, ss, ops, i, k, j);
    hide Account.Bind, Account.Run, Account.Visits, Outbox.Ingest, VisitRuns.RefusedAt;
    var bound := Account.Bind(ss[i], ops[i].identity, ops[i].retention, ops[i].micros).1;
    if bound != 0 || Account.Generation(ss[j]) != 0 {
      OutboxContents.StaleIngestRefused(c, s, e, Account.Generation(ss[j]), bound);
    }
  }

  /** The outbox's run beside the account's: outbox state `x` goes with account state `at[x]`, time only
      moves on, and each ingest reads the account's generation. */
  ghost predicate Beside(os: seq<Outbox.State>, oops: seq<Outbox.Op>, ss: seq<Account.State>, at: seq<nat>) {
    && |at| == |os| == |oops| + 1
    && (forall x :: 0 <= x < |at| ==> at[x] < |ss|)
    && (forall x, y :: 0 <= x <= y < |at| ==> at[x] <= at[y])
    && forall x :: 0 <= x < |oops| && oops[x].OpIngest? ==> oops[x].current == Account.Generation(ss[at[x]])
  }

  /** A group is in the outbox, the account visits, and the group is later flushed: its snapshot's
      generation is stale at the budget, and nothing is sent. A legacy flush that returns normally
      leaves no charge it asked for. The one exception is again that of `VisitRuns.WorkFence`: a group
      created in no generation, and an account in none again. */
  lemma BufferedWorkDies(
    cfg: Account.Settings, ss: seq<Account.State>, ops: seq<Account.Op>, k: nat, j: nat,
    c: Outbox.Settings, os: seq<Outbox.State>, oops: seq<Outbox.Op>, at: seq<nat>, m: nat, n: nat, gid: Outbox.Gid,
    w: Flush.World, identity: string)
    requires Account.Run(cfg, ss, ops) && Outbox.Run(c, os, oops) && Beside(os, oops, ss, at)
    requires m <= n < |os| && gid in os[m].groups && gid in os[n].groups
    requires at[m] <= k < j < |ss| && Account.Visits(ss[k], ops[k])
    requires Flush.Group(w).Some? && Flush.Group(w).value.generation == os[n].groups[gid].generation
    requires w.budget ==
      Ok(Account.Reserve(ss[j], cfg, Account.Nonurgent, identity, Some(os[n].groups[gid].generation)).1)
    requires os[n].groups[gid].generation != 0 || Account.Generation(ss[j]) != 0
    ensures w.budget == Ok(Account.StaleVisit) && !Flush.MaySend(w)
  {
    var i := OutboxCounts.CreatedBefore(c, os, oops, gid, m, n);
    var g := os[n].groups[gid].generation;
    assert g == Account.Generation(ss[at[i]]) && at[i] <= k;
    hide Outbox.Run, Beside;
    if g != 0 {
      VisitRuns.GenerationBelowCeiling(cfg, ss, ops, at[i]);
      VisitRuns.CeilingNeverFalls(cfg, ss, ops, at[i], k);
      VisitRuns.VisitSupersedes(cfg, ss, ops, k, j, g);
    }
    VisitRuns.StaleWorkRefused(ss[j], cfg, Account.Nonurgent, identity, g);
    hide Account.Reserve, Account.Run, Account.Visits, Account.Generation, Flush.Welcome;
  }

  /** A legacy flush turned away by the budget returns its charge: after a normal return none counts
      that it asked for. */
  lemma RefusedWorkIsRefunded(
    c: Limiter.Limits, ss: seq<Limiter.State>, ops: seq<Limiter.Op>, from: nat, to: nat, g: string,
    w: Flush.World, result: Flush.FlushResult, l: Flush.Ledger, p: nat, q: Option<nat>)
    requires FlushCharges.Performs(c, ss, ops, from, to, g, w, l, p, q) && FlushCharges.Returned(w, result, l)
    requires !Flush.IsDigest(w) && Flush.Welcome(w) && !Flush.MaySend(w)
    ensures !FlushCharges.Held(c, ss[to], g)
  {
    FlushCharges.ChargeAfter(c, ss, ops, from, to, g, w, result, l, p, q);
    hide Flush.Welcome, Flush.ClaimEnded, Flush.ShipsExactly, Flush.Reported, Limiter.Run, FlushCharges.Held;
  }
}
