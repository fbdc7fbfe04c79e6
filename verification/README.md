# A verified model of the push service's notification protocol

The service decides, across replicas, which push notifications a person receives. Its decisions live
in Redis: Lua scripts, each atomic, over hashes, sorted sets and expiring keys, driven by Rust loops
that claim work, ask the provider and report back. This project models those scripts and loops and
proves what they guarantee over every run, whatever order scripts, clock ticks, retries, crashes and
other replicas come in.

`dafny verify dfyconfig.toml` checks the whole project. How it is laid out:

- **Scripts are functions, keys are classes.** `Account`, `Limiter`, `Outbox`, `CampaignClaims` and
  `VideoDedup` give each script as one function from state to state, and a run as a sequence of
  states joined by steps. `AccountKeys.Keys`, `Limiter.RecipientKeys`, `OutboxStore.Store` and
  `VideoDedup.Keys` perform the same scripts in place, statement by statement, and are proved equal
  to those functions, so a theorem about runs is a theorem about the keys.
- **History is the run.** Retries move scores and keys expire, so the interesting facts are not
  readable off one state. The theorems speak about positions in a run: authorised at step i,
  refused at step j.
- **Loops around the scripts** (`Flush`, `Listener`, `Paging`, `Campaign`) are methods. Everything
  they ask another component is an input, so their contracts hold for every answer.
- **Time.** The server clock counts milliseconds and never falls; `TIME[1]` is its whole seconds. A
  key given a TTL is gone once the clock has passed its deadline, and an advance of the clock removes
  it, which no Redis command can tell from lazy expiry. `Redis` holds these notions.

Modules, from the source they model: `Account`, `AccountInvariants`, `AccountKeys`, `BudgetRuns`,
`VisitRuns` (src/activity.rs, src/notification_delivery.rs); `Limiter`, `Outbox`,
`OutboxInvariants`, `OutboxRuns`, `OutboxContents`, `OutboxSnapshots`, `OutboxCounts`, `OutboxDetails`,
`OutboxSchedule`, `OutboxStore`, `Framing`, `Flush`, `FlushCharges` (src/coalesce.rs); `ImmediateSends` (src/event_handler.rs); `Fencing` (across those); `Listener`, `Paging` (src/nostr_listener.rs);
`CampaignClaims`, `Campaign` (src/campaign_delivery.rs, src/redis_store.rs); `VideoKeys`,
`VideoDedup`, `Fanout` (src/event_handler.rs).

## Where the code does less than is said of it

- **The absence allowance** is promised between visits. It holds from any point at which activity has
  been reported until the deadline the account hash has there (`BudgetRuns.AbsenceAllowance`), and an
  accepted message moves that deadline 90 days on. After it the allowance restarts without a visit,
  under every cap and without any bound: `BudgetRuns.AllowanceLapses` is such a run for any number of
  grants.
- **The advertised cooldown** is the moment the cooldown ends only for gaps of at most a day. The
  settings bound the gap from below alone (src/config.rs:558), and a longer one ends as soon as the send
  that caused it is a day old and forgotten (`BudgetRuns.CooldownIsExact`).
- **Charging only for what was delivered** (src/coalesce.rs:326-332) fails in three cases and no other
  (`FlushCharges.ChargeClaimExactly`): a flush returns before asking for its charge while an earlier
  attempt's still stands, a batch reaches nobody and its refund is lost, or a device is reached on a
  reused charge that leaves the window before the flush is over. `FlushCharges.StrandedCharge` is a run
  of the first, under any limits.
- **Work bound to a generation** dies with it. An account that is not registered can be bound to none,
  and such work passes again once the account is in none again; `VisitRuns.WorkFence` says that this is
  the only exception.
- **The history replay** pages backward so as not to depend on one limited reply
  (src/nostr_listener.rs:66-69). It misses lists exactly when some second holds more lists than a
  page, or holds a full page while older lists exist (`Paging.ProcessHistoricalNotifyLists`).
- **The group snapshot's two reads** (src/coalesce.rs:925-929) are said to equal one because a claimed
  group cannot change. Under a live lease the group indeed only expires. The two reads are torn, equal
  to no atomic read between them, exactly when both the hash and the actor key expire between them and
  no step of the run falls after the actor key's deadline but not after the hash's
  (`OutboxSnapshots.SnapshotExactly`). The actor key never outlives the hash
  (`OutboxSnapshots.ActorsFollowHash`), so where every millisecond is a step this means one common
  deadline, known at the claim, between the reads (`OutboxSnapshots.SnapshotByTheMillisecond`). It
  cannot happen up to the group's lifetime and grace (`OutboxSnapshots.SnapshotIsAtomic`), which covers
  every lease no longer than the grace (`OutboxSnapshots.SnapshotUnderLease`); under a longer lease it
  can, and the flush then sees a group with nobody in it (`OutboxSnapshots.ReadsTear`).
- **The immediate push's charge** is returned only when a gate turns the push away
  (src/event_handler.rs:2029-2040). It stays when the push is cut off, when a gate cannot be asked and
  when every device fails (`ImmediateSends.FreshChargeExactly`); `ImmediateSends.StrandedSend` is a run
  in which the event is not even tried again.
- **The fan-out's attempt budget** bounds scheduled retries only. A worker that fails or is cut off puts
  its page back with the attempt it had (src/event_handler.rs:870-883), as often as that happens
  (`Fanout.PreservedForever`). The event's lifetime is checked once, when a turn starts: a turn that
  starts in time and ends late, or fails too late for its delay, puts its page back past it
  (`Fanout.PutBackInLifetime`, `Fanout.LateTurn`). Such a page is never worked on again
  (`Fanout.NothingPastLifetime`).

## Model

| member | source | states |
|---|---|---|
| `AccountKeys.Keys.RecordActivity` | src/activity.rs:48-134 | the activity script on the keys: stale messages change nothing, a new session over the limit is refused after pruning, a visit mints a generation and restores the allowance, presence follows the state |
| `AccountKeys.Keys.ApplyUpdate` | src/activity.rs:74-101 | an accepted message on the keys: record, session list, presence, generation and allowance |
| `AccountKeys.Keys.GenerationForWork` | src/activity.rs:155-203 | binding work to a generation: mints one for a registered account without any, keeps an existing marker's generation, only ever prolongs the marker |
| `AccountKeys.Keys.IsActiveNow` | src/activity.rs:206-220 | active exactly when a presence lease is unexpired, after pruning |
| `AccountKeys.Keys.PruneClass` | src/notification_delivery.rs:178-182 | deleting the expired sends' generations one by one, then the sends, leaves exactly the sends of the last day with their generations |
| `AccountKeys.Keys.ReserveBudget` | src/notification_delivery.rs:162-258 | the reserve script on the keys, every decision and the whole new state |
| `AccountKeys.Keys.RenewSlot` | src/notification_delivery.rs:189-211 | a retry refreshes its slot or is refused with nothing written |
| `AccountKeys.Keys.GrantSlot` | src/notification_delivery.rs:212-233 | a new identity takes a slot, its generation and, when activity was reported, one unit of allowance, or is refused with nothing written |
| `AccountKeys.Keys.CooldownLeft` | src/notification_delivery.rs:199-205 | walking the two newest sends finds how long the newest send of any other identity still blocks |
| `AccountKeys.ZRevRangeWithScores` | src/notification_delivery.rs:199 | the reply lists the highest-scored members, highest first, and leaves out only lower ones |
| `AccountKeys.Keys.ValidateReservation` | src/notification_delivery.rs:282-323 | the revalidation script on the keys, verdict and whole new state |
| `AccountInvariants.NextKeeps` | src/notification_delivery.rs:175-233 | every script and every clock advance keeps: both keys of a class name the same identities and outlive what counts, hour and day counts stay within the caps, no generation exceeds the visit counter, session records outlive nothing they need, at most 128 sessions |
| `AccountInvariants.RunKeeps` | src/notification_delivery.rs:187-233 | so every state of every run has these invariants |
| `BudgetRuns.RunRemembers` | src/notification_delivery.rs:207-226 | an authorised identity is still counted, no older than its authorisation, until a day has passed, however retries move scores and keys expire |
| `BudgetRuns.WindowCaps` | src/notification_delivery.rs:175-234 | in every run mixing both classes, retries and revalidations, distinct (class, identity) pairs authorised in any 3600 s window number at most the hourly cap and in any 86400 s window at most the daily cap |
| `BudgetRuns.Spacing` | src/notification_delivery.rs:196-221 | any two authorisations of distinct nonurgent identities are at least the smaller of the configured gap and a day apart, in reserve and in revalidate |
| `BudgetRuns.AbsenceAllowance` | src/notification_delivery.rs:212-232 | from any point at which activity has been reported until the deadline the account hash has there, at most the absence cap of new nonurgent reservations is granted while there is no visit |
| `BudgetRuns.RetainedUntilDeadline` | src/activity.rs:99-101 | in every run the reported hash of a state is there until the clock passes the deadline it had, and that deadline only moves on |
| `BudgetRuns.RetainedWhileRecent` | src/activity.rs:99-101 | the reported account hash leaves only when its 90-day deadline passes |
| `BudgetRuns.AllowanceLapses` | src/notification_delivery.rs:212-216 | under every valid cap and for any number m, a run in which m new reservations are granted with no visit between, after the hash lapsed |
| `BudgetRuns.DirectMessagesSpendNothing` | src/notification_delivery.rs:160-161 | direct messages leave the nonurgent sends, so the cooldown, and the allowance as they were |
| `BudgetRuns.AllowedExactly` | src/notification_delivery.rs:183-233 | a reservation is allowed if and only if the work is current, nobody is present, the nonurgent gap is over, and a live slot fits the hour or a new one has allowance and room in both windows |
| `BudgetRuns.DecidedExactly` | src/notification_delivery.rs:175-233 | each refusal exactly: stale work first, then everything while somebody is present, then a slot of another generation; a current retry is capped out of a full hour, then cooled down; new work lacks allowance, then gap, then room in the hour or the day |
| `BudgetRuns.CooldownExactly` | src/notification_delivery.rs:196-221 | a cooldown is given if and only if current nonurgent work is inside the gap and neither the hour (for a retry) nor the allowance (for new work) stops it before |
| `BudgetRuns.ValidatedExactly` | src/notification_delivery.rs:298-322 | a revalidation passes if and only if the slot is live, of the current generation, fits the hour, nobody is present, and a nonurgent one keeps its gap to every other send |
| `BudgetRuns.CooldownSource` | src/notification_delivery.rs:198-206 | a cooldown names the newest other nonurgent send and the wait after which every send of the last day is old enough |
| `BudgetRuns.CooldownIsExact` | src/notification_delivery.rs:196-221 | with nothing else happening no retry is allowed before the cooldown ends and none is refused for it at any time from then; it ends at the advertised wait for a gap of at most a day, and for a longer gap when the send that caused it is a day old, which is never later |
| `VisitRuns.GenerationNeverRecurs` | src/activity.rs:80-92 | an account in the same non-zero generation at two points of a run was in it throughout |
| `VisitRuns.VisitSupersedes` | src/activity.rs:80-92 | after a visit the account is never again in a generation handed out before it, even after its hash expired and other accounts advanced the shared counter |
| `VisitRuns.ValidationFence` | src/notification_delivery.rs:298-310 | a passing revalidation finds no live presence lease and the non-zero generation unchanged ever since that identity was reserved, with no visit between |
| `VisitRuns.MarkerStays` | src/activity.rs:155-188 | a retained marker keeps its generation through every step |
| `VisitRuns.WorkFence` | src/activity.rs:165-188 | work bound before a visit is refused by both gates at every later point, whether it carries its generation or binds again while its marker is retained; the one exception is work bound to no generation by an account not registered then, once the account is in none again |
| `VisitRuns.BindRetains` | src/activity.rs:165-188 | binding leaves the marker of a registered account for at least the retention asked for, up to the half second by which TTL rounds, never shortens one and changes no other |
| `VisitRuns.RetainedUntil` | src/activity.rs:165-188 | in every run a marker is retained until the deadline it has |
| `VisitRuns.BoundForRetention` | src/activity.rs:165-188 | work bound by a registered account binds to the same generation again, whatever visits come between, for as long as it asked to be retained |
| `VisitRuns.BindsCurrent` | src/activity.rs:155-188 | new work is bound to the account's own generation, minted only when there is none, and neither the allowance nor the reported flag changes |
| `VisitRuns.RecordedExactly` | src/activity.rs:48-101 | each answer to a message exactly: invalid, stale, refused only when 128 other sessions are live, a visit or a heartbeat; an accepted one leaves its session live for seven days and the reported hash for ninety |
| `VisitRuns.PresenceTracks` | src/activity.rs:78-98 | a presence entry is the session's last accepted foreground message plus the lease, and is missing only when there is none or it has run out |
| `VisitRuns.ActiveExactly` | src/activity.rs:206-216 | the account is active if and only if some session's last accepted message was a foreground one less than 180 s ago |
| `VisitRuns.RunFolds` | src/activity.rs:63-98 | in every run a session that is registered at its messages, never refused and never lapsed has the fold of its messages as its record, and its visit steps are the fold's bumps |
| `VisitRuns.RecordIsNewest` | src/activity.rs:63-78 | so however its messages are reordered or repeated, the record is the message with the highest sequence that arrived, provided its visits never fall as sequence rises |
| `VisitRuns.OrderIndependentRuns` | src/activity.rs:63-78 | two runs in which the same messages of a session arrived, in any order and as often as they like, among any other steps, end with the same record |
| `VisitRuns.VisitsOncePerVisit` | src/activity.rs:80-92 | in a run a session bumps the generation at most once per distinct visit it reported, in whatever order |
| `VisitRuns.RecordFolds` | src/activity.rs:63-98 | the script folds each message into its own session's record and no other, and bumps exactly when the fold says so |
| `Limiter.RecipientKeys.ReadTokens` | src/coalesce.rs:276-282 | the refilled level, an absent bucket reading full |
| `Limiter.RecipientKeys.ConsumeToken` | src/coalesce.rs:239-325 | the spend script on the keys: outcome, retry delay and whole new state |
| `Limiter.RecipientKeys.RefundToken` | src/coalesce.rs:333-379 | the refund script on the keys |
| `Limiter.RunKeeps` | src/coalesce.rs:256-294 | in every run the level stays within [0, capacity] and the live window within the cap |
| `Limiter.RefillComposes` | src/coalesce.rs:276-282 | reading and writing back in between refills nothing more or less |
| `Limiter.ExpiredWasFull` | src/coalesce.rs:184-198 | an expired bucket key would have read full |
| `Limiter.LazyIsContinuous` | src/coalesce.rs:276-293 | under any pattern of reads, writes and expiry the stored bucket equals a bucket filled every second |
| `Limiter.Conservation` | src/coalesce.rs:276-293 | over any stretch, charges less refunds are at most the starting level less the final level plus elapsed over refill |
| `Limiter.EmissionCap` | src/coalesce.rs:262-275 | members charged and not refunded within any rolling window number at most the daily cap |
| `Limiter.NeverPaysTwice` | src/coalesce.rs:263-269 | one group is charged again only after a refund or after its charge left the window |
| `Limiter.RefundUndoes` | src/coalesce.rs:339-360 | a refund returns the slot and the token of the charge |
| `Limiter.CapWaitIsExact` | src/coalesce.rs:270-275 | with nothing else happening a full window refuses before the wait it names and has a free slot at any time from then |
| `Limiter.EmptyBucketWaitSuffices` | src/coalesce.rs:291-293 | with nothing else happening an empty bucket holds a token at any time from the wait it names |
| `Limiter.EmptyBucketWaitIsLeast` | src/coalesce.rs:291-293 | the instant a token is back, exactly, and that the wait named is the least that is enough whatever was left |
| `Limiter.GrantedExactly` | src/coalesce.rs:262-294 | a spend is granted if and only if the member still holds its slot or there are both a free slot and a whole token, a full window being named before an empty bucket; an immediate send if and only if there are both |
| `OutboxStore.Store.IngestEvent` | src/coalesce.rs:400-578 | the ingest script on the keys: fence, replay, bucket, immediate send, digest counting, buffering, in the script's order |
| `OutboxStore.Store.CountAction` | src/coalesce.rs:508-532 | the digest branch on the keys |
| `OutboxStore.Store.ClaimDue` | src/coalesce.rs:691-795 | the claim script on the keys, for the replies its two range commands gave |
| `OutboxStore.ZRangeByScore` | src/coalesce.rs:708-740 | the reply holds the lowest-scored due members in order, up to the limit |
| `OutboxStore.Store.RecoverLease` | src/coalesce.rs:709-737 | one expired lease: live work returns to the queue once, finished or expired groups go |
| `OutboxStore.Store.CompleteGroup` | src/coalesce.rs:822-885 | the completion script on the keys |
| `OutboxInvariants.NextKeeps` | src/coalesce.rs:502-578 | every script and every expiry keeps, for each group: its deadline and lifetimes, physical life past the logical one plus grace while work is pending and past its bucket otherwise, its place in the indexes, tokens only after the deadline, digest totals |
| `OutboxInvariants.IndexesPartition` | src/coalesce.rs:713-755 | in every run the due and lease indexes are disjoint, a live group is in one exactly when it has pending work, and no due score precedes its bucket deadline |
| `OutboxRuns.RemovedOnce` | src/coalesce.rs:713-737 | a group's hash is removed at most once in any run and never before its bucket deadline |
| `OutboxRuns.GoneByTtl` | src/coalesce.rs:555-575 | no hash is left in any run once its bucket deadline is a whole lifetime and grace past |
| `OutboxRuns.RemovedExactlyOnce` | src/coalesce.rs:713-737 | in every run that reaches that time a group that exists is removed by exactly one step, at or after its bucket deadline |
| `OutboxRuns.PendingLeaves` | src/coalesce.rs:836-858 | pending work leaves only by its owner's completion, by a script at its logical lifetime, or by the physical TTL more than the whole grace after it |
| `OutboxRuns.CompletesOnce` | src/coalesce.rs:836-857 | each claim token has at most one effective completion |
| `OutboxRuns.LeaseExcludes` | src/coalesce.rs:745-751 | a group is claimed again only after its owner completed or its lease ran out, under any lease recovery |
| `OutboxRuns.FlushesNeverOverlap` | src/config.rs:710-717 | with a lease over twice the flush timeout and a claim reply within one, a flush is over before the next claim of its group |
| `OutboxContents.ClosedIsFrozen` | src/coalesce.rs:925-929 | after its bucket deadline nothing changes a group but its token, for as long as it exists |
| `OutboxContents.ClaimedIsClosed` | src/coalesce.rs:739-755 | no claim in any run hands out a group before its bucket deadline |
| `OutboxSnapshots.ActorsOutliveWork` | src/coalesce.rs:556-575 | in every run a legacy group with pending work keeps a non-empty actor key to the end of its lifetime and grace, and a digest never has one |
| `OutboxSnapshots.ActorsFollowHash` | src/coalesce.rs:548-575 | in every run an actor key is there only beside a hash with pending work, counts somebody, and expires with the hash or before it |
| `OutboxSnapshots.SnapshotExactly` | src/coalesce.rs:925-954 | under a live lease the hash is there exactly until its deadline and changes in its token only, and the owner's two reads equal one atomic read at some step between them unless both keys expire between them with no step of the run after the actor key's deadline and not after the hash's; then they equal none |
| `OutboxSnapshots.SnapshotByTheMillisecond` | src/coalesce.rs:925-954 | where every millisecond is a step the reads are torn if and only if the two keys share one deadline, known at the claim, that falls between them |
| `OutboxSnapshots.SnapshotIsAtomic` | src/coalesce.rs:925-954 | under a live lease and up to the group's lifetime and grace the two reads equal one atomic read, with the hash there and at least one actor of a legacy group |
| `OutboxSnapshots.SnapshotUnderLease` | src/coalesce.rs:925-954 | with a lease no longer than the grace that holds for every flush of a group claimed within its lifetime |
| `OutboxSnapshots.ReadsTear` | src/coalesce.rs:925-954 | a run in which the reads equal no atomic read, within one flush timeout and a live lease: one buffered event, a late claim, both keys expiring between the reads |
| `OutboxContents.ReplayReproduces` | src/coalesce.rs:447-453 | while its disposition lives and the generation matches, ingesting an event again returns the original decision and leaves all state unchanged |
| `OutboxContents.DispositionLives` | src/coalesce.rs:469-473 | a disposition stays as written until its deadline |
| `OutboxCounts.LegacyCountsEvents` | src/coalesce.rs:548-578 | in every run a legacy group's pending and immediate counts add up to its distinct events, and immediate sends never exceed the limit |
| `OutboxCounts.DigestCountsActions` | src/coalesce.rs:508-532 | in every run each category of a digest is the smaller of 1024 and the distinct actions seen, its lower-bound flag is set exactly above 1024, and pending is likes plus reposts |
| `OutboxCounts.CreatedBy` | src/coalesce.rs:507 | in every run a group carries the generation read by the ingest that created it |
| `OutboxCounts.CreatedBefore` | src/coalesce.rs:507 | a group seen at two points of a run was created before the first, so its generation was read before it |
| `OutboxCounts.DigestGeneration` | src/coalesce.rs:460-464 | a digest carries the generation its id names |
| `OutboxCounts.RequeuesApart` | src/coalesce.rs:843-853 | two requeues of one group are at least the first one's delay apart, although recovery resets the due score |
| `OutboxCounts.RequeueInLifetime` | src/coalesce.rs:843-853 | a requeue lies between the bucket deadline and the logical lifetime |
| `OutboxCounts.RequeuesBounded` | src/coalesce.rs:843-853 | with delays of a second or more, a group is requeued fewer times than its lifetime has seconds |
| `OutboxCounts.ClaimsOldest` | src/coalesce.rs:739-755 | a claim hands out a live group of least due score, and nothing only when none is due or the dangling skips are used up |
| `OutboxCounts.LivesFromCreation` | src/coalesce.rs:505 | in every run a group lives for the configured lifetime from the ingest that created it |
| `OutboxDetails.GroupSummarises` | src/coalesce.rs:562-571 | in every run a group names the first event that waits in it and, when legacy, its actor, is as recent as the most recent of them, counts them, and its actor key holds exactly their distinct actors |
| `OutboxDetails.KeysAreKept` | src/coalesce.rs:548-575 | in every run a group's hash has the deadline of its last write: its lifetime and grace while anything waits in it, just past its bucket otherwise; its actor key that of the last event that queued |
| `OutboxDetails.DispositionCovers` | src/coalesce.rs:455-467 | a new event's disposition is kept past its bucket and the grace, and a digest's for as long as the digest may be pending, past its lifetime and the grace |
| `OutboxDetails.SentAtOnceExactly` | src/coalesce.rs:444-506 | an event is sent at once if and only if it was before, or it is new, its bucket has sends left and the recipient's budget has a slot and a token |
| `OutboxSchedule.WaitsInPlace` | src/coalesce.rs:691-885 | in every run pending work is where its history puts it: due at its bucket deadline, leased for the lease from each claim, due after the delay of each requeue, due at its bucket deadline again when a claim recovers it |
| `OutboxSchedule.ClaimedFromThen` | src/coalesce.rs:691-795 | with nothing else to do a claim hands a pending group out if and only if that place says so |
| `OutboxSchedule.FirstClaimedWhenDue` | src/coalesce.rs:739-755 | work never claimed before is claimed exactly from its bucket deadline on |
| `OutboxSchedule.RequeuedIsClaimedAgain` | src/coalesce.rs:843-853 | a requeued group waits exactly the delay its owner asked for |
| `OutboxSchedule.AbandonedIsClaimedAgain` | src/coalesce.rs:709-755 | a worker that dies loses its group for exactly one lease, and the claim that recovers it hands it out |
| `OutboxSchedule.RecoveredIsDue` | src/coalesce.rs:713-737 | live work whose lease ran out is due at its bucket deadline after the recovery, and gone when its lifetime is over |
| `OutboxSchedule.RecoveredIsNext` | src/coalesce.rs:709-755 | a claim that recovers such work hands out a group due no later, unless all its skips went to dangling members |
| `Framing.HashedBytes` | src/coalesce.rs:595-605 | the bytes fed to the hash parse back to the components |
| `Framing.BigEndianRoundTrip` | src/coalesce.rs:602 | eight big-endian bytes give the length back |
| `Framing.FrameRoundTrip` | src/coalesce.rs:597-604 | parsing inverts framing for any list of components |
| `Framing.FrameInjective` | src/coalesce.rs:597-604 | two actions with the same hashed bytes are the same action |
| `Flush.FlushGroup` | src/coalesce.rs:1253-1734 | one flush, for every combination of answers: it fails exactly when an answer it got to ask for is missing or its completion is not one its ending takes, is cut off exactly before the charge, and otherwise reports the one gate that stopped it; it completes its claim exactly when no answer is missing, for the delay of the bound that refused it; one batch exactly when every gate holds and to the devices awake at both reads; one refund exactly when a gate after the charge turns it away or the batch reaches nobody |
| `Flush.OneReport` | src/coalesce.rs:1253-1734 | the causes a flush can report exclude one another |
| `Flush.Deliver` | src/coalesce.rs:1454-1618 | the same from the charge on: each gate's refund and ending |
| `Flush.SendBatch` | src/coalesce.rs:1619-1734 | the same from the provider batch on |
| `Flush.Tally` | src/coalesce.rs:1621-1644 | delivered devices, the number that failed, and a retry delay exactly when some answer asked for one, in any iteration order |
| `Flush.FilterAwake` | src/coalesce.rs:1551-1554 | the first read's devices that the second read still has, in order |
| `FlushCharges.ChargeAfter` | src/coalesce.rs:1412-1690 | in every run of the recipient's budget, after a normal legacy flush its charge is in the rolling window exactly when the flush got it and did not return it, or never asked and found it standing, and it has not aged out |
| `FlushCharges.ChargeClaimExactly` | src/coalesce.rs:326-332 | so it is there exactly when a device was reached, but for three cases and no other: it returned before asking while an earlier charge stood, its batch reached nobody and the refund was lost, or it reached a device on a reused charge that has left the window |
| `FlushCharges.SettledAttempt` | src/coalesce.rs:1667-1690 | an attempt that finds no charge, loses no refund and is over within the window leaves a charge exactly for a delivery |
| `FlushCharges.StrandedCharge` | src/coalesce.rs:1385-1397 | under any limits, a run in which an attempt charges and dies and a retry finds the type disabled: it returns normally without a budget step and the charge stands |
| `ImmediateSends.Deliver` | src/event_handler.rs:1902-2283 | the immediate push from the ingest decision on: one batch exactly when every gate holds, to the devices awake at both reads; one refund exactly when a gate turns it away; the claim released exactly when nothing was decided or sent or every device failed and one may be retried, and never once a device took it; the outcome for every combination of answers and point of cancellation |
| `ImmediateSends.WalkResults` | src/event_handler.rs:2116-2155 | the devices reached, those to remove and a retry delay, in any iteration order, unless the walk is cut off |
| `ImmediateSends.ImmediateIsCharged` | src/coalesce.rs:447-496 | an immediate decision is a replay that changes nothing or comes with the emission that took its charge |
| `ImmediateSends.ChargeAfter` | src/event_handler.rs:2029-2040 | in every run of the recipient's budget, after an immediate delivery its charge counts exactly when it took or found one, did not return it, and it has not aged out |
| `ImmediateSends.ChargeClaimExactly` | src/event_handler.rs:2029-2065 | so it counts exactly for a delivery, but for these cases and no other: nobody was reached and it was not returned, or a device was reached without a charge or on one that has left the window |
| `ImmediateSends.FreshChargeExactly` | src/event_handler.rs:2029-2065 | a push decided afresh, over within the window and its refund not lost, is charged exactly for a delivery if and only if a gate turned it away or a device took it |
| `ImmediateSends.StrandedSend` | src/event_handler.rs:2262-2283 | under any limits, a run in which every device rejects a push: it ends normally, keeps its claim and leaves its charge |
| `Fencing.BoundWorkDies` | src/coalesce.rs:396-445 | work bound before a visit: ingest and both delivery gates refuse it at every later point, the ingest without any write; registered accounts always, others unless bound to no generation and in none again |
| `Fencing.BufferedWorkDies` | src/coalesce.rs:1463-1480 | in an outbox run beside an account run, a group that is in the outbox before a visit is refused by the budget after it and never sent, because it carries the generation its creating ingest read |
| `Fencing.RefusedWorkIsRefunded` | src/coalesce.rs:1463-1480 | a legacy flush turned away after its charge leaves none: after a normal return no charge counts |
| `Listener.RunLiveLoop` | src/nostr_listener.rs:550-753 | however the relay behaves, each turn writes to the loop's log exactly what its signal, the watchdog and the log so far call for, and the loop ends with a turn exactly for that turn's cause, `Stopped` included; the log obeys the rules below, and the loop ends no later than twice the timeout plus the back-off after the last forwarded event plus the environment's delays |
| `Listener.OnEvent` | src/nostr_listener.rs:594-624 | one event: the service's own is skipped, any other is handed on, and the loop stops when that cannot be done |
| `Listener.OnSilence` | src/nostr_listener.rs:571-587 | the watchdog: one resubscription, and the end of the loop the second time |
| `Listener.OnClosed` | src/nostr_listener.rs:625-713 | one closure of an owned subscription: ignored, recovered from after its back-off, or the end of the loop |
| `Listener.EventsAreHandedOn` | src/nostr_listener.rs:594-624 | the forwarded entries of every log are, in order, exactly one for each turn that took an event of somebody else before the watchdog fired and whose send proceeded |
| `Listener.RecoveriesSeparated` | src/nostr_listener.rs:571-587 | consecutive resubscriptions of any kind are separated by a forwarded event |
| `Listener.FourClosuresSpan` | src/nostr_listener.rs:659-672 | any four consecutive closure recoveries span at least the silence timeout |
| `Listener.SiblingIgnoredOnce` | src/nostr_listener.rs:638-656 | one sibling closure is ignored per recovery |
| `Listener.Retain` | src/nostr_listener.rs:660-662 | the window keeps the attempts younger than the timeout |
| `Listener.WindowDecides` | src/nostr_listener.rs:659-672 | three attempts are left exactly when three of all recoveries so far are younger than the timeout |
| `Paging.ProcessHistoricalNotifyLists` | src/nostr_listener.rs:307-402 | the replay ends, hands on each list of another author once, and, when no query failed, has fetched every stored list if and only if no second holds more lists than a page and only the oldest second fills one; it is cut short only by the query or the send that was cancelled or failed |
| `Paging.ForwardPage` | src/nostr_listener.rs:346-383 | one page: its oldest time, the number of lists not fetched before, and those of other authors handed on in page order, each once; a first part of them when the receiver is gone |
| `Paging.NothingNewMeansAll` | src/nostr_listener.rs:389-397 | in such a store a full page without anything new means everything was fetched |
| `Paging.StaysHidden` | src/nostr_listener.rs:389-399 | otherwise some list is on no page the loop can ask for |
| `CampaignClaims.ClaimOutlivesBudget` | src/campaign_delivery.rs:772-776 | the claim TTL exceeds the attempt's budget by at least the 30 s reserve, and the lease by less than a second |
| `CampaignClaims.AttemptsNeverOverlap` | src/redis_store.rs:396-419 | in every run of owner-checked claims, once a later claim succeeds the earlier attempt does nothing more |
| `CampaignClaims.EndsOwnClaim` | src/redis_store.rs:433-480 | an attempt within its budget always still owns the claim it releases or promotes |
| `CampaignClaims.PromotedSilences` | src/campaign_delivery.rs:578-601 | after a promoted delivery no attempt on the key sends within the promoted window |
| `Campaign.Deliver` | src/campaign_delivery.rs:324-623 | every return after claiming releases, or promotes for the longer of the two windows exactly when a device was reached; it sends exactly when every gate holds, to the awake devices; suppression, permanent and retryable failure each exactly for its causes; a deferral names the earliest wake-up |
| `Campaign.SelectDevices` | src/campaign_delivery.rs:438-463 | the devices awake now, the least instant at which a quiet one wakes, and whether a time zone is unknown |
| `Campaign.AwakeExactly` | src/campaign_delivery.rs:438-463 | the tokens selected are exactly those of the devices that are awake |
| `Campaign.SendBatch` | src/campaign_delivery.rs:531-551 | who accepted, and whether a failure may be retried |
| `Campaign.RetryIsFirstAwakeSecond` | src/campaign_delivery.rs:264-279 | the retry instant is the first awake second, across midnight and for every quiet window |
| `Campaign.QuietExactly` | src/notification_delivery.rs:43-50 | a second is quiet if and only if it lies in the window that opened at the local start hour of some day and lasts until the next end hour, local time being ahead of UTC by the offset |
| `Campaign.WakesWhenWindowCloses` | src/campaign_delivery.rs:264-279 | a quiet device wakes when the window it is in closes |
| `Campaign.PollOnce` | src/campaign_delivery.rs:714-801 | the attempts of a batch follow one another inside the lease with the reserve in hand, each starting when its item is reached and ending when it is done or at its budget, each claim reaching to its end; the batch stops early only for a cut-off attempt or a used-up lease |
| `VideoKeys.TypedKeyInjective` | src/event_handler.rs:1438-1451 | claim keys are injective in kind, type, author, d-tag and recipient, colons in the d-tag included |
| `VideoKeys.LegacyKeyInjective` | src/event_handler.rs:1459-1467 | so are legacy keys |
| `VideoKeys.TypedIsNotLegacy` | src/event_handler.rs:1438-1467 | a typed key never equals a legacy key |
| `VideoKeys.VideoIsNotEvent` | src/redis_store.rs:611-636 | neither equals a per-event claim |
| `VideoDedup.Keys.DeliverVideo` | src/event_handler.rs:1691-2283 | one video delivery on the keys: fallback type, claim checks, rate limit, event claim and its release, records |
| `VideoDedup.DeliveredExactly` | src/event_handler.rs:1740-2283 | each outcome exactly; the event's claim stays exactly with an attempt that is not to be repeated; only a bell that arrived opens its creator's window; a muted mention falls back to the bell exactly for a watcher who has it on |
| `VideoDedup.Keys.HasVideoClaim` | src/event_handler.rs:1501-1544 | notified under the typed or the legacy key, or without a d-tag |
| `VideoDedup.Keys.RecordVideoClaims` | src/event_handler.rs:1556-1595 | every claim the decision satisfies is written with the full TTL |
| `VideoDedup.PushedOnlyOnce` | src/event_handler.rs:1494-1499 | within the window of a settled delivery any edit pushes only a mention, and only after a new post: never two mentions, two new posts, or a new post after a mention |
| `VideoDedup.AtMostTwoPushes` | src/event_handler.rs:1494-1499 | a coordinate reaches a recipient at most twice in one window |
| `VideoDedup.ClaimOrigin` | src/event_handler.rs:1556-1595 | a typed claim was settled by an earlier delivery of the same coordinate to the same recipient |
| `VideoDedup.SilencedOnlyByItself` | src/event_handler.rs:1501-1544 | a delivery is skipped as already notified only because of such a delivery or a legacy claim |
| `Fanout.BackoffGrows` | src/event_handler.rs:1099-1109 | the back-off never shrinks, stays within its cap except at the provider's word, and never undercuts the provider |
| `Fanout.BackoffDoubles` | src/event_handler.rs:1099-1109 | the back-off is the base at first, doubles with each attempt up to the seventh, stops at the cap, and the provider can only lengthen it |
| `Fanout.ScheduledExactly` | src/event_handler.rs:1039-1097 | a failure leads to another attempt exactly while there is one, then to the next page exactly when delivery used them up, with the delay of each |
| `Fanout.ScheduledInLifetime` | src/event_handler.rs:1039-1097 | whenever a failure is seen, what it schedules waits no longer than the event's lifetime, and not at all once that is over, and honours a provider's delay unless the lifetime ends first; a retry keeps its page and spends an attempt, a hand-on starts the next page afresh |
| `Fanout.PutBackInLifetime` | src/event_handler.rs:858-1016 | a turn puts a page back past the lifetime exactly when it ends past it or itself fails too late for its fixed delay, whenever it started; one that starts past the lifetime can only put the page back as it is |
| `Fanout.LateTurn` | src/event_handler.rs:937-1016 | a page found alive at 99, expiring at 100 and failing or finished at 101 leaves a retry or a successor behind |
| `Fanout.NothingPastLifetime` | src/event_handler.rs:937-942 | a page put back past the lifetime is never worked on again: at every later turn of the fan-out it is the same job, only put back |
| `Fanout.AttemptsCount` | src/event_handler.rs:1080-1097 | on one page the attempt counts exactly the scheduled retries; broken, cancelled and lapsed turns leave it |
| `Fanout.PageAttemptsBounded` | src/event_handler.rs:1080-1097 | a page is scheduled for retry at most eleven times before the fan-out moves on or ends |
| `Fanout.PreservedForever` | src/event_handler.rs:870-883 | turns themselves are not bounded: for any number of them a failing worker keeps the page and its attempt |
| `Fanout.MentionWins` | src/event_handler.rs:1408-1422 | a page announces the post to exactly its watchers that are neither the author nor mentioned |

## Left out

- AccountInvariants.NextKeeps: one account's keys; other accounts appear only through the visit counter they share.
- Limiter.LazyIsContinuous: token counts are real numbers, so Lua's rounding is not modelled.
- Limiter.ExpiredWasFull: TTL products are unbounded integers; saturation near 2^64 and Redis's own TTL range are not modelled.
- OutboxCounts.LegacyCountsEvents: distinct actors are an exact set, so the estimation error of HyperLogLog is not modelled.
- OutboxSnapshots.SnapshotExactly: the reads fall under the owner's live lease, which a flush's timeout keeps it in (OutboxRuns.FlushesNeverOverlap); later reads are not covered.
- FlushCharges.ChargeClaimExactly: a run in which the group's own flush is the only one to spend or refund for it, as OutboxRuns.FlushesNeverOverlap has it.
- Fencing.BufferedWorkDies: the outbox's ingests read the account's generation; a flush whose account is unregistered and back in no generation, for a group created in none, is the exception stated there.
- ImmediateSends.Deliver: likes and reposts with a target, the pushes that are charged; payload, event copy, token refresh and removal themselves are not modelled.
- ImmediateSends.ChargeClaimExactly: a run in which the delivery that holds the event's claim is the only one to emit or refund for it.
- Framing.FrameInjective: BLAKE3 itself is taken to be injective; digests store actions by their components.
- OutboxSchedule.ClaimedFromThen: with other work due the order is that of OutboxCounts.ClaimsOldest and OutboxSchedule.RecoveredIsNext.
- Flush.FlushGroup: routing fields, summary copy, the actor's display name, token pruning and activity refresh are not modelled; an error return is retried by the worker, whose timeout appears in OutboxRuns.FlushesNeverOverlap.
- Listener.RunLiveLoop: the content of forwarded events and the lookback of the new subscription are not modelled; a cancelled back-off ends at its start.
- Paging.ProcessHistoricalNotifyLists: the relay's store does not change during the replay.
- CampaignClaims.AttemptsNeverOverlap: a cut-off attempt stops at its deadline; a command already sent but not yet executed when it stops is not modelled.
- Campaign.Deliver: expiry and retry instants are integers, so RFC 3339 text and its ordering are not modelled; removal of unregistered tokens is not either.
- VideoDedup.PushedOnlyOnce: deliveries are atomic, claim writes succeed and no cancellation falls between the send and its record; two replicas handling two edits at once can both send.
- Fanout.NothingPastLifetime: turns follow one another in time; a worker that goes on after its lease lapsed is not modelled.
- Fanout.PageAttemptsBounded: counts scheduled retries; the durable queue's own claim, lease and swap commands and the paging of watcher sets are not modelled.
- Server clocks that go backward and settings that change during a run.
- FCM transport, OAuth, payload building, HTTP, metrics, logging, health and start-up wiring: input and output around the protocol.
- NIP-44 cryptography, signatures, bech32 and profile lookup: library code.
- Roster building, preference storage, token registration and the staleness sweep: they would add single-step facts.
