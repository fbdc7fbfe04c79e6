/** The durable new-post fan-out of src/event_handler.rs: one job per page of watchers, retried with
    a capped back-off, handed on to the next page when it is done or its attempts are used up. */
module Fanout {
  import opened Redis
  import opened VideoKeys

  const MAX_FANOUT_ATTEMPTS := 12
  const MAX_RETRY_DELAY := 300
  const U64_MAX := 0xffff_ffff_ffff_ffff

  datatype Job = Job(cursor: nat, attempt: nat, expiresAt: nat)

  datatype Failure = PageRead | Delivery(providerDelay: nat)

  /** How a turn of the worker ends: the page was processed, a failure was scheduled for retry, the
      worker itself failed or was cancelled and put the same page back, or nothing was put back and
      the lease ran out. */
  datatype Ending = Processed | Failed(failure: Failure) | Broken | Cancelled | LeaseLapsed

  /** What a turn leaves in the queue. Only a retry spends an attempt. */
  datatype Step =
    | Finished
    | HandedOn(next: Job, delay: nat)
    | Retried(next: Job, delay: nat)
    | Preserved(next: Job, delay: nat)

  function Min(a: nat, b: nat): nat { if a < b then a else b }

  function Left(until: nat, now: nat): nat { if until > now then until - now else 0 }

  function PowerOfTwo(n: nat): nat {
    if n == 0 then 1 else 2 * PowerOfTwo(n - 1)
  }

  /** Doubling with the attempt, capped, but never below what the provider asked for. */
  function RetryDelay(base: nat, attempt: nat, minimum: nat): nat {
    var exponent := Min(if attempt > 0 then attempt - 1 else 0, 6);
    Larger(Min(Min(base * PowerOfTwo(exponent), U64_MAX), MAX_RETRY_DELAY), minimum)
  }

  function NextRetry(job: Job, base: nat, minimum: nat, now: nat): Option<(Job, nat)> {
    if job.attempt + 1 >= MAX_FANOUT_ATTEMPTS then None
    else
      var retry := job.(attempt := job.attempt + 1);
      Some((retry, Min(RetryDelay(base, retry.attempt, minimum), Left(job.expiresAt, now))))
  }

  /** One turn. The lifetime is checked once, at `checked`, before the page is read; whatever the turn
      leaves in the queue it leaves at `ended`. `nextCursor` is zero on the last page. */
  function Process(job: Job, base: nat, checked: nat, ended: nat, nextCursor: nat, ending: Ending): Step {
    match ending
    case Broken => Preserved(job, base)
    case Cancelled => Preserved(job, 0)
    case LeaseLapsed => Preserved(job, 0)
    case Processed =>
      if checked >= job.expiresAt || nextCursor == 0 then Finished
      else HandedOn(Job(nextCursor, 0, job.expiresAt), 0)
    case Failed(failure) =>
      if checked >= job.expiresAt then Finished else ScheduleRetry(job, base, ended, nextCursor, failure)
  }

  /** `schedule_fanout_retry`: another attempt, or the next page when a delivery used them up. */
  function ScheduleRetry(job: Job, base: nat, now: nat, nextCursor: nat, failure: Failure): Step {
    var minimum := if failure.Delivery? then failure.providerDelay else 0;
    match NextRetry(job, base, minimum, now)
    case Some(retry) => Retried(retry.0, retry.1)
    case None =>
      if failure.PageRead? || nextCursor == 0 then Finished
      else
        var delay := Min(RetryDelay(base, MAX_FANOUT_ATTEMPTS, minimum), Left(job.expiresAt, now));
        HandedOn(Job(nextCursor, 0, job.expiresAt), delay)
  }

  // ---------- Back-off ----------

  lemma {:induction false} PowersGrow(a: nat, b: nat)
    requires a <= b
    ensures 1 <= PowerOfTwo(a) <= PowerOfTwo(b)
    decreases b
  {
    if a < b {
      PowersGrow(a, b - 1);
    } else if b > 0 {
      PowersGrow(a - 1, b - 1);
    }
  }

  /** The back-off never shrinks from one attempt to the next, never exceeds the local cap except
      at the provider's word, and never undercuts the provider. */
  lemma BackoffGrows(base: nat, a: nat, b: nat, minimum: nat)
    requires a <= b && base >= 1
    ensures RetryDelay(base, a, minimum) <= RetryDelay(base, b, minimum)
    ensures 1 <= RetryDelay(base, a, minimum) <= Larger(MAX_RETRY_DELAY, minimum)
      && RetryDelay(base, a, minimum) >= minimum
  {
    var x, y := Min(if a > 0 then a - 1 else 0, 6), Min(if b > 0 then b - 1 else 0, 6);
    PowersGrow(x, y);
    Scaled(base, PowerOfTwo(x), PowerOfTwo(y));
  }

  /** Without a word from the provider the delay is the base at first, doubles with each attempt up to the
      seventh, and stops at the cap; the provider can only lengthen it. */
  lemma BackoffDoubles(base: nat, a: nat, minimum: nat)
    ensures RetryDelay(base, 1, 0) == Min(base, MAX_RETRY_DELAY)
    ensures 1 <= a < 7 ==> RetryDelay(base, a + 1, 0) == Min(2 * RetryDelay(base, a, 0), MAX_RETRY_DELAY)
    ensures a >= 7 ==> RetryDelay(base, a, 0) == RetryDelay(base, 7, 0)
    ensures RetryDelay(base, a, minimum) == Larger(RetryDelay(base, a, 0), minimum)
  {
    assert PowerOfTwo(0) == 1;
    if 1 <= a < 7 {
      assert PowerOfTwo(a) == 2 * PowerOfTwo(a - 1);
      Doubled(base, PowerOfTwo(a - 1));
    }
  }

  lemma Doubled(base: nat, x: nat)
    ensures base * (2 * x) == 2 * (base * x)
  {
  }

  lemma Scaled(base: nat, x: nat, y: nat)
    requires 1 <= x <= y && base >= 1
    ensures 1 <= base * x <= base * y
  {
  }

  // ---------- The life of a job ----------

  function NextJob(s: Step): Option<Job> {
    match s
    case Finished => None
    case HandedOn(next, _) => Some(next)
    case Retried(next, _) => Some(next)
    case Preserved(next, _) => Some(next)
  }

  function DelayOf(s: Step): nat {
    match s
    case Finished => 0
    case HandedOn(_, delay) => delay
    case Retried(_, delay) => delay
    case Preserved(_, delay) => delay
  }

  lemma FloorHolds(base: nat, attempt: nat, minimum: nat)
    ensures RetryDelay(base, attempt, minimum) >= minimum
  {
  }

  /** A scheduled retry or hand-on waits no longer than the event's lifetime, and not at all once that is
      over; it honours a provider's delay unless the lifetime ends first. A retry keeps its page and
      spends an attempt, a hand-on starts the next page afresh. */
  lemma ScheduledInLifetime(job: Job, base: nat, now: nat, nextCursor: nat, failure: Failure)
    requires NextJob(ScheduleRetry(job, base, now, nextCursor, failure)).Some?
    ensures var s := ScheduleRetry(job, base, now, nextCursor, failure);
      && NextJob(s).value.expiresAt == job.expiresAt
      && now + DelayOf(s) <= Larger(now, job.expiresAt)
      && (s.Retried? ==> s.next.cursor == job.cursor && job.attempt < s.next.attempt < MAX_FANOUT_ATTEMPTS)
      && (s.HandedOn? ==> s.next.attempt == 0 && s.next.cursor == nextCursor)
      && (failure.Delivery? ==> DelayOf(s) >= Min(failure.providerDelay, Left(job.expiresAt, now)))
  {
    hide RetryDelay;
    var minimum := if failure.Delivery? then failure.providerDelay else 0;
    FloorHolds(base, job.attempt + 1, minimum);
    FloorHolds(base, MAX_FANOUT_ATTEMPTS, minimum);
  }

  /** What a failure leads to, exactly: another attempt of the page while there is one, then the next page
      when the attempts were used up on delivery, and otherwise the end. */
  lemma ScheduledExactly(job: Job, base: nat, now: nat, nextCursor: nat, failure: Failure)
    ensures var s := ScheduleRetry(job, base, now, nextCursor, failure);
      var minimum := if failure.Delivery? then failure.providerDelay else 0;
      var again := job.attempt + 1 < MAX_FANOUT_ATTEMPTS;
      && (s.Retried? <==> again)
      && (s.HandedOn? <==> !again && failure.Delivery? && nextCursor != 0)
      && (s.Finished? <==> !again && (failure.PageRead? || nextCursor == 0))
      && (s.Retried? ==>
            && s.next == Job(job.cursor, job.attempt + 1, job.expiresAt)
            && s.delay == Min(RetryDelay(base, job.attempt + 1, minimum), Left(job.expiresAt, now)))
      && (s.HandedOn? ==>
            && s.next == Job(nextCursor, 0, job.expiresAt)
            && s.delay == Min(RetryDelay(base, MAX_FANOUT_ATTEMPTS, minimum), Left(job.expiresAt, now)))
  {
    hide RetryDelay;
  }

  /** A page that was worked on in time and did not fail is followed by the next one at once, and ends the
      fan-out when it was the last. */
  lemma FinishedPage(job: Job, base: nat, checked: nat, ended: nat, nextCursor: nat)
    ensures var s := Process(job, base, checked, ended, nextCursor, Processed);
      s == if checked < job.expiresAt && nextCursor != 0 then HandedOn(Job(nextCursor, 0, job.expiresAt), 0)
        else Finished
  {
  }

  /** The worker as a whole puts a page back past the event's lifetime exactly when its turn ends past it
      or it fails too late for its fixed delay: a turn checks the lifetime only when it starts. A turn
      that starts past the lifetime and gets to process the page drops it. */
  lemma PutBackInLifetime(job: Job, base: nat, checked: nat, ended: nat, nextCursor: nat, ending: Ending)
    requires NextJob(Process(job, base, checked, ended, nextCursor, ending)).Some?
    ensures ended + DelayOf(Process(job, base, checked, ended, nextCursor, ending)) > job.expiresAt <==>
      ended > job.expiresAt || (ending.Broken? && ended + base > job.expiresAt)
    ensures checked >= job.expiresAt ==>
      Process(job, base, checked, ended, nextCursor, ending) == Preserved(job, if ending.Broken? then base else 0)
  {
    if ending.Failed? { ScheduledInLifetime(job, base, ended, nextCursor, ending.failure); }
    hide ScheduleRetry;
  }

  datatype Turn = Turn(checked: nat, ended: nat, nextCursor: nat, ending: Ending)

  function StepOf(base: nat, job: Job, turn: Turn): Step {
    Process(job, base, turn.checked, turn.ended, turn.nextCursor, turn.ending)
  }

  /** The jobs one fan-out goes through. */
  ghost predicate Chain(base: nat, jobs: seq<Job>, turns: seq<Turn>) {
    && |jobs| == |turns| + 1
    && forall i :: 0 <= i < |turns| ==> NextJob(StepOf(base, jobs[i], turns[i])) == Some(jobs[i + 1])
  }

  lemma ChainStep(base: nat, jobs: seq<Job>, turns: seq<Turn>, k: nat)
    requires Chain(base, jobs, turns) && k < |turns|
    ensures NextJob(StepOf(base, jobs[k], turns[k])) == Some(jobs[k + 1])
  {
    hide StepOf;
  }

  /** The turns from `i` to `j` stay on one page. */
  ghost predicate OnePage(base: nat, jobs: seq<Job>, turns: seq<Turn>, i: nat, j: nat)
    requires i <= j <= |turns| < |jobs|
  {
    forall k :: i <= k < j ==> !StepOf(base, jobs[k], turns[k]).HandedOn?
  }

  /** How many of those turns ended in a scheduled retry. */
  ghost function RetryCount(base: nat, jobs: seq<Job>, turns: seq<Turn>, i: nat, j: nat): nat
    requires i <= j <= |turns| < |jobs|
  {
    if i == j then 0
    else RetryCount(base, jobs, turns, i, j - 1) + (if StepOf(base, jobs[j - 1], turns[j - 1]).Retried? then 1 else 0)
  }

  /** On one page the attempt counts exactly the scheduled retries; broken, cancelled and lapsed turns
      leave it. */
  lemma {:induction false} AttemptsCount(base: nat, jobs: seq<Job>, turns: seq<Turn>, i: nat, j: nat)
    requires Chain(base, jobs, turns) && i <= j <= |turns| && OnePage(base, jobs, turns, i, j)
    ensures jobs[j].attempt == jobs[i].attempt + RetryCount(base, jobs, turns, i, j)
    ensures jobs[j].cursor == jobs[i].cursor && jobs[j].expiresAt == jobs[i].expiresAt
    ensures jobs[i].attempt < MAX_FANOUT_ATTEMPTS ==> jobs[j].attempt < MAX_FANOUT_ATTEMPTS
    decreases j
  {
    if i < j {
      AttemptsCount(base, jobs, turns, i, j - 1);
      hide RetryDelay;
      assert NextJob(StepOf(base, jobs[j - 1], turns[j - 1])) == Some(jobs[j]);
    }
  }

  /** A page is scheduled for retry at most eleven times, so its failures are worked on at most twelve
      times, before the fan-out moves on or ends. */
  lemma PageAttemptsBounded(base: nat, jobs: seq<Job>, turns: seq<Turn>, i: nat, j: nat)
    requires Chain(base, jobs, turns) && i <= j <= |turns| && OnePage(base, jobs, turns, i, j)
    requires jobs[i].attempt < MAX_FANOUT_ATTEMPTS
    ensures RetryCount(base, jobs, turns, i, j) < MAX_FANOUT_ATTEMPTS - jobs[i].attempt
  {
    AttemptsCount(base, jobs, turns, i, j);
  }

  /** Turns themselves are not bounded: a worker that keeps failing, or that is cut off again and
      again, keeps the page and its attempt for ever. */
  lemma PreservedForever(base: nat, job: Job, now: nat, n: nat)
    returns (jobs: seq<Job>, turns: seq<Turn>)
    ensures |turns| == n && Chain(base, jobs, turns) && OnePage(base, jobs, turns, 0, n)
    ensures forall k :: 0 <= k <= n ==> jobs[k] == job
  {
    jobs, turns := seq(n + 1, _ => job), seq(n, _ => Turn(now, now, 0, Broken));
  }

  /** A turn takes its time, and a job is taken no earlier than it was put back for. */
  ghost predicate InTime(base: nat, jobs: seq<Job>, turns: seq<Turn>) {
    && |jobs| == |turns| + 1
    && (forall i :: 0 <= i < |turns| ==> turns[i].checked <= turns[i].ended)
    && forall i {:trigger StepOf(base, jobs[i], turns[i])} :: 0 <= i < |turns| - 1 ==>
       turns[i].ended + DelayOf(StepOf(base, jobs[i], turns[i])) <= turns[i + 1].checked
  }

  /** Two turns of a fan-out, in the order of their time. */
  lemma {:induction false} TurnsFollow(base: nat, jobs: seq<Job>, turns: seq<Turn>, i: nat, j: nat)
    requires InTime(base, jobs, turns) && i < j < |turns|
    ensures turns[i].ended + DelayOf(StepOf(base, jobs[i], turns[i])) <= turns[j].checked
    decreases j
  {
    if i < j - 1 {
      TurnsFollow(base, jobs, turns, i, j - 1);
    }
    var s := StepOf(base, jobs[j - 1], turns[j - 1]);
    hide StepOf, DelayOf;
  }

  lemma {:induction false} LifetimeKept(base: nat, jobs: seq<Job>, turns: seq<Turn>, j: nat)
    requires Chain(base, jobs, turns) && j < |jobs|
    ensures jobs[j].expiresAt == jobs[0].expiresAt
    decreases j
  {
    if j > 0 {
      LifetimeKept(base, jobs, turns, j - 1);
      assert NextJob(StepOf(base, jobs[j - 1], turns[j - 1])) == Some(jobs[j]);
      hide RetryDelay;
    }
  }

  lemma LateStep(base: nat, job: Job, turn: Turn)
    requires turn.checked >= job.expiresAt && NextJob(StepOf(base, job, turn)).Some?
    ensures StepOf(base, job, turn).Preserved? && NextJob(StepOf(base, job, turn)) == Some(job)
  {
    PutBackInLifetime(job, base, turn.checked, turn.ended, turn.nextCursor, turn.ending);
    hide Process;
  }

  /** A page put back past the event's lifetime is never worked on again: at every later turn it is the
      same job, and the worker can only drop it or put it back as it is. */
  lemma {:induction false} NothingPastLifetime(base: nat, jobs: seq<Job>, turns: seq<Turn>, i: nat, j: nat)
    requires Chain(base, jobs, turns) && InTime(base, jobs, turns) && i < j < |turns|
    requires turns[i].ended + DelayOf(StepOf(base, jobs[i], turns[i])) >= jobs[0].expiresAt
    ensures jobs[j] == jobs[i + 1] == jobs[j + 1]
    ensures StepOf(base, jobs[j], turns[j]).Preserved?
    decreases j
  {
    if i + 1 < j { NothingPastLifetime(base, jobs, turns, i, j - 1); }
    TurnsFollow(base, jobs, turns, i, j);
    LifetimeKept(base, jobs, turns, j);
    ChainStep(base, jobs, turns, j);
    LateStep(base, jobs[j], turns[j]);
    hide StepOf, Chain, InTime, DelayOf, NextJob, Process;
  }

  /** A turn that starts in time can end late: a page that expires at 100, found alive at 99 and failing
      to be read at 101, is scheduled for another attempt there and then. */
  lemma LateTurn()
    ensures Process(Job(0, 0, 100), 10, 99, 101, 0, Failed(PageRead)) == Retried(Job(0, 1, 100), 0)
    ensures Process(Job(0, 0, 100), 10, 99, 101, 7, Processed) == HandedOn(Job(7, 0, 100), 0)
  {
    var delay := RetryDelay(10, 1, 0);
  }

  // ---------- Who is told what ----------

  datatype Target = Target(recipient: string, kind: Kind)

  /** A page's watchers, without the author and without those the mention pass covers. */
  function WatcherPageTargets(watchers: seq<string>, author: string, mentioned: set<string>): seq<Target> {
    if watchers == [] then []
    else
      var rest := WatcherPageTargets(watchers[1..], author, mentioned);
      if watchers[0] != author && watchers[0] !in mentioned then [Target(watchers[0], NewPost)] + rest else rest
  }

  /** Mention wins on overlap: a page announces the post to exactly its watchers that are neither
      the author nor mentioned, each as often as the page lists it. */
  lemma {:induction false} MentionWins(watchers: seq<string>, author: string, mentioned: set<string>, t: Target)
    ensures t in WatcherPageTargets(watchers, author, mentioned) <==>
      t.kind == NewPost && t.recipient in watchers && t.recipient != author && t.recipient !in mentioned
    ensures multiset(WatcherPageTargets(watchers, author, mentioned))[t] <= multiset(watchers)[t.recipient]
  {
    if watchers != [] {
      MentionWins(watchers[1..], author, mentioned, t);
      assert watchers == [watchers[0]] + watchers[1..];
    }
  }
}
