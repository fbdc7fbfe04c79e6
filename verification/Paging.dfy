/** The historical notify-list replay of src/nostr_listener.rs: page backward with `until`, keep
    every id once, stop on a short page or on no progress. The relay answers as section "From
    client to relay: sending events and creating subscriptions" of NIP-01 says. */
module Paging {
  import opened Redis

  datatype Event = Event(id: nat, createdAt: nat, author: string)

  /** Newest first; equal times by lowest id. */
  predicate Before(a: Event, b: Event) {
    a.createdAt > b.createdAt || (a.createdAt == b.createdAt && a.id < b.id)
  }

  predicate Matches(e: Event, until: Option<nat>) {
    until.None? || e.createdAt <= until.value
  }

  /** The answer to a filter with `until` and `limit`: the first `limit` matching events in order. */
  ghost predicate IsPage(store: set<Event>, until: Option<nat>, limit: nat, page: seq<Event>) {
    && |page| <= limit
    && (forall i :: 0 <= i < |page| ==> page[i] in store && Matches(page[i], until))
    && (forall i, j :: 0 <= i < j < |page| ==> page[i] != page[j])
    && (forall e, i :: e in store && Matches(e, until) && e !in page && 0 <= i < |page| ==> Before(page[i], e))
    && (|page| < limit ==> forall e :: e in store && Matches(e, until) ==> e in page)
  }

  /** An event id is a hash of the event. */
  ghost predicate IdsIdentify(store: set<Event>) {
    forall a, b :: a in store && b in store && a.id == b.id ==> a == b
  }

  function Stamped(store: set<Event>, at: nat): set<Event> {
    set e | e in store && e.createdAt == at
  }

  function Older(store: set<Event>, at: nat): set<Event> {
    set e | e in store && e.createdAt < at
  }

  /** No second holds more lists than a page, and only the oldest second fills one. */
  ghost predicate PageableBy(store: set<Event>, limit: nat) {
    forall e :: e in store ==>
      |Stamped(store, e.createdAt)| < limit
        || (|Stamped(store, e.createdAt)| == limit && Older(store, e.createdAt) == {})
  }

  // ---------- Pages ----------

  /** A set that a page contains, together with another of its events, is smaller than the limit. */
  lemma PageHolds(page: seq<Event>, inside: set<Event>, other: Event, limit: nat)
    requires |page| <= limit && (forall i, j :: 0 <= i < j < |page| ==> page[i] != page[j])
    requires (forall e :: e in inside ==> e in page) && other in page && other !in inside
    ensures |inside| < limit
  {
    DistinctMembers(page);
    var all := set e | e in page;
    CardinalityMonotone(inside + {other}, all);
    assert |inside + {other}| == |inside| + 1;
  }

  ghost predicate IsOldest(page: seq<Event>, oldest: Option<nat>) {
    && (oldest.None? <==> page == [])
    && (oldest.Some? ==>
          (exists i :: 0 <= i < |page| && page[i].createdAt == oldest.value)
          && forall i :: 0 <= i < |page| ==> oldest.value <= page[i].createdAt)
  }

  /** Everything newer than a page's oldest event is in the page. */
  lemma NewerIsPaged(store: set<Event>, until: Option<nat>, limit: nat, page: seq<Event>, oldest: nat, e: Event)
    requires IsPage(store, until, limit, page) && IsOldest(page, Some(oldest))
    requires e in store && Matches(e, until) && e.createdAt > oldest
    ensures e in page
  {
    var i :| 0 <= i < |page| && page[i].createdAt == oldest;
    assert !Before(page[i], e);
  }

  // ---------- When a page repeats, the store is exhausted ----------

  /** The pages so far reach down to `until` and no further. */
  ghost predicate Reaches(store: set<Event>, fetched: set<Event>, until: Option<nat>) {
    && fetched <= store
    && (until.None? ==> fetched == {})
    && (until.Some? ==>
          && (forall e :: e in store && e.createdAt > until.value ==> e in fetched)
          && (forall e :: e in fetched ==> e.createdAt >= until.value))
  }

  lemma NothingNewMeansAll(store: set<Event>, fetched: set<Event>, until: Option<nat>, limit: nat, page: seq<Event>,
      oldest: nat)
    requires PageableBy(store, limit) && 0 < limit
    requires Reaches(store, fetched, until) && IsPage(store, until, limit, page) && IsOldest(page, Some(oldest))
    requires |page| == limit && forall i :: 0 <= i < |page| ==> page[i] in fetched
    ensures fetched == store
  {
    var low :| 0 <= low < |page| && page[low].createdAt == oldest;
    assert page[low] in fetched && until.Some? && oldest == until.value;
    var here := Stamped(store, oldest);
    var all := set e | e in page;
    DistinctMembers(page);
    forall e | e in all ensures e in here {
      var i :| 0 <= i < |page| && page[i] == e;
    }
    CardinalityMonotone(all, here);
    assert page[low] in store;
    EqualCardinality(all, here);
    forall e | e in store ensures e in fetched {
      assert e.createdAt == oldest ==> e in here;
      assert e.createdAt < oldest ==> e in Older(store, oldest);
    }
  }

  // ---------- What a crowded second hides ----------

  /** At least a page's worth of lists of one second come before this one. */
  ghost predicate Hidden(store: set<Event>, limit: nat, at: nat, blockers: set<Event>, e: Event) {
    && e in store && blockers <= Stamped(store, at) && |blockers| >= limit
    && e.createdAt <= at && e !in blockers
    && forall b :: b in blockers ==> Before(b, e)
  }

  lemma LastExists(events: set<Event>)
    requires events != {}
    ensures exists last :: last in events && forall e :: e in events ==> e.id <= last.id
    decreases |events|
  {
    var x :| x in events;
    var rest := events - {x};
    if rest == {} {
      assert forall e :: e in events ==> e == x || e in rest;
      assert x in events && forall e :: e in events ==> e.id <= x.id;
    } else {
      LastExists(rest);
      var m :| m in rest && forall e :: e in rest ==> e.id <= m.id;
      var last := if m.id < x.id then x else m;
      assert forall e :: e in events ==> e == x || e in rest;
      assert last in events && forall e :: e in events ==> e.id <= last.id;
    }
  }

  lemma FindHidden(store: set<Event>, limit: nat) returns (at: nat, blockers: set<Event>, e: Event)
    requires IdsIdentify(store) && 0 < limit && !PageableBy(store, limit)
    ensures Hidden(store, limit, at, blockers, e)
  {
    var x :| x in store
      && !(|Stamped(store, x.createdAt)| < limit
         || (|Stamped(store, x.createdAt)| == limit && Older(store, x.createdAt) == {}));
    at := x.createdAt;
    var crowd := Stamped(store, at);
    if Older(store, at) != {} {
      e :| e in Older(store, at);
      blockers := crowd;
    } else {
      LastExists(crowd);
      e :| e in crowd && forall o :: o in crowd ==> o.id <= e.id;
      blockers := crowd - {e};
    }
  }

  /** No page whose `until` is not before the crowded second shows a hidden list, nor anything
      older than that second. */
  lemma StaysHidden(store: set<Event>, until: Option<nat>, limit: nat, page: seq<Event>, at: nat,
      blockers: set<Event>, e: Event)
    requires IsPage(store, until, limit, page) && Hidden(store, limit, at, blockers, e)
    requires until.None? || at <= until.value
    ensures e !in page
    ensures forall i :: 0 <= i < |page| ==> page[i].createdAt >= at
  {
    if p :| p in page && (p == e || p.createdAt < at) {
      var k :| 0 <= k < |page| && page[k] == p;
      forall b | b in blockers ensures b in page {
        assert Before(b, e) && !Before(page[k], b);
      }
      PageHolds(page, blockers, p, limit);
    }
    assert forall i :: 0 <= i < |page| ==> page[i] in page;
  }

  // ---------- The replay ----------

  datatype Fetch = Page(events: seq<Event>) | FetchFailed | FetchCancelled

  datatype Send = Accepted | SendCancelled | ChannelClosed

  datatype Outcome = Finished | Partial | Cancelled | Failed

  /** The lists handed on: fetched lists of other authors, each once. */
  ghost predicate ForwardedOnly(fetched: set<Event>, service: string, forwarded: seq<Event>) {
    && (forall e :: e in forwarded ==> e in fetched && e.author != service)
    && forall i, j :: 0 <= i < j < |forwarded| ==> forwarded[i] != forwarded[j]
  }

  function Events(page: seq<Event>): set<Event> { set e | e in page }

  lemma EventsStep(page: seq<Event>, event: Event)
    ensures Events(page + [event]) == Events(page) + {event}
  {
  }

  ghost predicate ForwardedAll(fetched: set<Event>, service: string, forwarded: seq<Event>) {
    forall e :: e in fetched && e.author != service ==> e in forwarded
  }

  /** The ids seen are the ids of the events fetched. */
  ghost predicate Tracks(store: set<Event>, fetched: set<Event>, seen: set<nat>) {
    fetched <= store && forall e :: e in store ==> (e.id in seen <==> e in fetched)
  }

  lemma NothingPaged()
    ensures Events([]) == {} && IsOldest([], None)
  {
  }

  lemma OldestStep(page: seq<Event>, event: Event, oldest: Option<nat>)
    requires IsOldest(page, oldest)
    ensures IsOldest(page + [event], if oldest.Some? && oldest.value <= event.createdAt then oldest
      else Some(event.createdAt))
  {
    assert (page + [event])[|page|] == event;
    assert forall i :: 0 <= i < |page| ==> (page + [event])[i] == page[i];
  }

  lemma TracksStep(store: set<Event>, fetched: set<Event>, seen: set<nat>, event: Event)
    requires IdsIdentify(store) && event in store && Tracks(store, fetched, seen)
    ensures event.id in seen <==> event in fetched
    ensures Tracks(store, fetched + {event}, seen + {event.id})
  {
  }

  /** Handing on a list fetched for the first time, or not handing on the service's own. */
  lemma ForwardStep(fetched: set<Event>, service: string, forwarded: seq<Event>, event: Event)
    requires ForwardedOnly(fetched, service, forwarded) && ForwardedAll(fetched, service, forwarded)
      && event !in fetched
    ensures ForwardedOnly(fetched + {event}, service, forwarded)
    ensures event.author == service ==> ForwardedAll(fetched + {event}, service, forwarded)
    ensures event.author != service ==>
      ForwardedOnly(fetched + {event}, service, forwarded + [event])
      && ForwardedAll(fetched + {event}, service, forwarded + [event])
  {
  }

  /** A page's events that were not fetched before it, in page order, each once. */
  ghost function FirstSeen(page: seq<Event>, before: set<Event>): seq<Event> {
    if page == [] then []
    else
      var prefix, event := page[..|page| - 1], page[|page| - 1];
      FirstSeen(prefix, before) + (if event in before + Events(prefix) then [] else [event])
  }

  /** Those of other authors, in order. */
  ghost function Others(es: seq<Event>, service: string): seq<Event> {
    if es == [] then []
    else
      var prefix, event := es[..|es| - 1], es[|es| - 1];
      Others(prefix, service) + (if event.author == service then [] else [event])
  }

  /** What was sent before, followed by the new events of other authors in page order. */
  ghost predicate HandedOn(
    page: seq<Event>, before: set<Event>, service: string, sent: seq<Event>, forwarded: seq<Event>)
  {
    forwarded == sent + Others(FirstSeen(page, before), service)
  }

  lemma HandedNothing(before: set<Event>, service: string, sent: seq<Event>)
    ensures HandedOn([], before, service, sent, sent)
  {
  }

  lemma HandedStep(
    prefix: seq<Event>, event: Event, before: set<Event>, service: string, sent: seq<Event>, forwarded: seq<Event>)
    requires HandedOn(prefix, before, service, sent, forwarded)
    ensures HandedOn(prefix + [event], before, service, sent,
      if event in before + Events(prefix) || event.author == service then forwarded else forwarded + [event])
  {
    var known := FirstSeen(prefix, before);
    FirstSeenStep(prefix, event, before);
    hide FirstSeen;
    OthersStep(known, event, service);
    hide Others;
    assert known + [] == known && forwarded + [] == forwarded;
    assert Others(known, service) + [] == Others(known, service);
    assert sent + (Others(known, service) + [event]) == sent + Others(known, service) + [event];
  }

  lemma FirstSeenStep(prefix: seq<Event>, event: Event, before: set<Event>)
    ensures FirstSeen(prefix + [event], before) ==
      FirstSeen(prefix, before) + (if event in before + Events(prefix) then [] else [event])
  {
    assert (prefix + [event])[..|prefix|] == prefix;
  }

  lemma OthersStep(es: seq<Event>, event: Event, service: string)
    ensures Others(es + [event], service) == Others(es, service) + (if event.author == service then [] else [event])
  {
    assert (es + [event])[..|es|] == es;
  }

  /** The number of events fetched since `before`. */
  ghost predicate Counts(before: set<Event>, fetched: set<Event>, unseen: nat) {
    before <= fetched && unseen == |fetched - before|
  }

  lemma CountStep(before: set<Event>, fetched: set<Event>, unseen: nat, event: Event)
    requires Counts(before, fetched, unseen) && event !in fetched
    ensures Counts(before, fetched + {event}, unseen + 1)
  {
    assert fetched + {event} - before == fetched - before + {event};
  }

  lemma CountsNothing(before: set<Event>, fetched: set<Event>, unseen: nat)
    ensures Counts(before, before, 0)
    ensures Counts(before, fetched, unseen) ==> (unseen == 0 <==> fetched == before)
  {
    assert before - before == {};
    if Counts(before, fetched, 0) {
      assert fetched - before == {};
    }
  }

  /** The first entries of a page are done: what they brought is fetched, seen, counted and, in order,
      handed on. */
  ghost predicate Done(
    store: set<Event>, before: set<Event>, prefix: seq<Event>, service: string, sent: seq<Event>,
    fetched: set<Event>, seen: set<nat>, forwarded: seq<Event>, unseen: nat)
  {
    && fetched == before + Events(prefix)
    && Tracks(store, fetched, seen)
    && ForwardedOnly(fetched, service, forwarded) && ForwardedAll(fetched, service, forwarded)
    && HandedOn(prefix, before, service, sent, forwarded)
    && Counts(before, fetched, unseen)
  }

  lemma NothingDone(store: set<Event>, before: set<Event>, service: string, sent: seq<Event>, known: set<nat>)
    requires Tracks(store, before, known) && ForwardedOnly(before, service, sent) && ForwardedAll(before, service, sent)
    ensures Done(store, before, [], service, sent, before, known, sent, 0)
  {
    NothingPaged();
    HandedNothing(before, service, sent);
    CountsNothing(before, before, 0);
    hide Tracks, ForwardedOnly, ForwardedAll, HandedOn, Counts;
  }

  /** One more entry: nothing to do when it was seen, and otherwise one more that is handed on unless it
      is the service's own. */
  lemma OneMoreDone(
    store: set<Event>, before: set<Event>, prefix: seq<Event>, event: Event, service: string, sent: seq<Event>,
    fetched: set<Event>, seen: set<nat>, forwarded: seq<Event>, unseen: nat)
    requires IdsIdentify(store) && event in store
    requires Done(store, before, prefix, service, sent, fetched, seen, forwarded, unseen)
    ensures event.id in seen ==>
      Done(store, before, prefix + [event], service, sent, fetched, seen, forwarded, unseen)
    ensures HandedOn(prefix, before, service, sent, forwarded)
    ensures event.id !in seen ==>
      && Tracks(store, fetched + {event}, seen + {event.id})
      && ForwardedOnly(fetched + {event}, service, forwarded)
      && Done(store, before, prefix + [event], service, sent, fetched + {event}, seen + {event.id},
              if event.author == service then forwarded else forwarded + [event], unseen + 1)
  {
    FetchedStep(before, prefix, event);
    TracksStep(store, fetched, seen, event);
    HandedStep(prefix, event, before, service, sent, forwarded);
    hide Tracks, ForwardedOnly, ForwardedAll, HandedOn, Counts, IdsIdentify, Events, FirstSeen, Others;
    if event.id !in seen {
      ForwardStep(fetched, service, forwarded, event);
      CountStep(before, fetched, unseen, event);
    }
  }

  lemma FetchedStep(before: set<Event>, prefix: seq<Event>, event: Event)
    ensures before + Events(prefix + [event]) == before + Events(prefix) + {event}
    ensures event in before + Events(prefix) ==> before + Events(prefix + [event]) == before + Events(prefix)
  {
    EventsStep(prefix, event);
    hide Events;
  }

  lemma EntryDone(
    store: set<Event>, before: set<Event>, page: seq<Event>, i: nat, service: string, sent: seq<Event>,
    fetched: set<Event>, seen: set<nat>, forwarded: seq<Event>, oldest: Option<nat>, unseen: nat)
    requires i < |page| && IdsIdentify(store) && page[i] in store && IsOldest(page[..i], oldest)
    requires Done(store, before, page[..i], service, sent, fetched, seen, forwarded, unseen)
    ensures var e := page[i];
      && HandedOn(page[..i], before, service, sent, forwarded)
      && IsOldest(page[..i + 1], if oldest.Some? && oldest.value <= e.createdAt then oldest else Some(e.createdAt))
      && (e.id in seen ==> Done(store, before, page[..i + 1], service, sent, fetched, seen, forwarded, unseen))
      && (e.id !in seen ==>
            && Tracks(store, fetched + {e}, seen + {e.id})
            && ForwardedOnly(fetched + {e}, service, forwarded)
            && Done(store, before, page[..i + 1], service, sent, fetched + {e}, seen + {e.id},
                    if e.author == service then forwarded else forwarded + [e], unseen + 1))
  {
    hide *;
    var prefix, event := page[..i], page[i];
    assert page[..i + 1] == prefix + [event];
    OneMoreDone(store, before, prefix, event, service, sent, fetched, seen, forwarded, unseen);
    OldestStep(prefix, event, oldest);
  }

  lemma AllDone(
    store: set<Event>, before: set<Event>, page: seq<Event>, service: string, sent: seq<Event>,
    fetched: set<Event>, seen: set<nat>, forwarded: seq<Event>, unseen: nat)
    requires Done(store, before, page, service, sent, fetched, seen, forwarded, unseen)
    requires forall i :: 0 <= i < |page| ==> page[i] in store
    ensures fetched == before + Events(page) && Tracks(store, fetched, seen)
    ensures ForwardedOnly(fetched, service, forwarded) && ForwardedAll(fetched, service, forwarded)
    ensures HandedOn(page, before, service, sent, forwarded)
    ensures Counts(before, fetched, unseen) && (unseen == 0 <==> fetched == before)
    ensures forall i :: 0 <= i < |page| ==> page[i].id in seen
  {
    CountsNothing(before, fetched, unseen);
    PageIsSeen(store, fetched, seen, page);
    hide Tracks, ForwardedOnly, ForwardedAll, HandedOn;
  }

  /** One page: note its oldest time, skip what was seen, hand on the rest. Everything new of other
      authors is handed on in page order, or, when the receiver is gone, a first part of it. */
  method ForwardPage(ghost store: set<Event>, ghost before: set<Event>, page: seq<Event>, service: string,
      channel: nat -> Send, sent: seq<Event>, known: set<nat>)
    returns (answer: Send, forwarded: seq<Event>, seen: set<nat>, oldest: Option<nat>, unseen: nat,
      ghost fetched: set<Event>, ghost handled: nat)
    requires IdsIdentify(store) && forall i :: 0 <= i < |page| ==> page[i] in store
    requires Tracks(store, before, known) && ForwardedOnly(before, service, sent) && ForwardedAll(before, service, sent)
    ensures Tracks(store, fetched, seen) && ForwardedOnly(fetched, service, forwarded)
    ensures answer.Accepted? ==> forall i :: 0 <= i < |page| ==> page[i].id in seen
    ensures answer.Accepted? ==>
      && fetched == before + Events(page)
      && ForwardedAll(fetched, service, forwarded)
      && IsOldest(page, oldest)
      && handled == |page|
      && Counts(before, fetched, unseen) && (unseen == 0 <==> fetched == before)
    ensures handled <= |page| && HandedOn(page[..handled], before, service, sent, forwarded)
    ensures !answer.Accepted? ==> answer == channel(|forwarded|)
  {
    hide *;
    answer, forwarded, seen, oldest, unseen, fetched := Accepted, sent, known, None, 0, before;
    handled := 0;
    var i := 0;
    NothingPaged();
    NothingDone(store, before, service, sent, known);
    while i < |page|
      invariant handled == i <= |page| && answer.Accepted?
      invariant IsOldest(page[..i], oldest)
      invariant Done(store, before, page[..i], service, sent, fetched, seen, forwarded, unseen)
    {
      var event := page[i];
      EntryDone(store, before, page, i, service, sent, fetched, seen, forwarded, oldest, unseen);
      oldest := if oldest.Some? && oldest.value <= event.createdAt then oldest else Some(event.createdAt);
      i := i + 1;
      if event.id !in seen {
        seen, fetched, unseen := seen + {event.id}, fetched + {event}, unseen + 1;
        if event.author != service {
          answer := channel(|forwarded|);
          if !answer.Accepted? {
            return;
          }
          forwarded := forwarded + [event];
        }
      }
      handled := i;
    }
    assert page[..i] == page;
    AllDone(store, before, page, service, sent, fetched, seen, forwarded, unseen);
  }

  lemma PageIsSeen(store: set<Event>, fetched: set<Event>, seen: set<nat>, page: seq<Event>)
    requires Tracks(store, fetched, seen) && Events(page) <= fetched && forall i :: 0 <= i < |page| ==> page[i] in store
    ensures forall i :: 0 <= i < |page| ==> page[i].id in seen
  {
    assert forall i :: 0 <= i < |page| ==> page[i] in Events(page);
  }

  /** Replay the store page by page. `relay` answers the n-th query, `channel` the n-th send.
      The loop ends because every page but the last brings an unseen list. When it ends without a
      failed or cancelled query or send, it has fetched every stored list exactly when the store
      can be paged by the limit. */
  method ProcessHistoricalNotifyLists(ghost store: set<Event>, limit: nat, service: string,
      relay: (nat, Option<nat>) -> Fetch, channel: nat -> Send)
    returns (outcome: Outcome, forwarded: seq<Event>, seen: set<nat>, ghost asked: Fetch)
    requires 0 < limit && IdsIdentify(store)
    requires forall n, until :: relay(n, until).Page? ==> IsPage(store, until, limit, relay(n, until).events)
    ensures forall e :: e in forwarded ==> e in store && e.author != service && e.id in seen
    ensures forall i, j :: 0 <= i < j < |forwarded| ==> forwarded[i] != forwarded[j]
    ensures outcome == Finished || outcome == Partial ==>
      forall e :: e in store && e.id in seen && e.author != service ==> e in forwarded
    ensures outcome == Partial ==> asked.FetchFailed?
    ensures outcome == Failed ==> channel(|forwarded|).ChannelClosed?
    ensures outcome == Cancelled ==> asked.FetchCancelled? || (asked.Page? && channel(|forwarded|).SendCancelled?)
    ensures outcome == Finished ==> asked.Page?
    ensures exists n: nat, until: Option<nat> :: asked == relay(n, until)
    ensures outcome == Finished ==> ((forall e :: e in store ==> e.id in seen) <==> PageableBy(store, limit))
  {
    hide *;
    ghost var fetched: set<Event> := {};
    ghost var handled := 0;
    ghost var at, blockers, hidden := 0, {}, Event(0, 0, "");
    ghost var pageable := PageableBy(store, limit);
    if !pageable { at, blockers, hidden := FindHidden(store, limit); }
    var until: Option<nat> := None;
    var queries := 0;
    outcome, forwarded, seen := Finished, [], {};
    asked := relay(0, None);
    NothingFetched(store, service);
    while true
      invariant outcome == Finished
      invariant Reaches(store, fetched, until)
      invariant Tracks(store, fetched, seen) && ForwardedOnly(fetched, service, forwarded)
        && ForwardedAll(fetched, service, forwarded)
      invariant !pageable ==> hidden !in fetched && (until.None? || at <= until.value)
      decreases |store - fetched|
    {
      var answer := relay(queries, until);
      asked := answer;
      queries := queries + 1;
      Verdict(store, fetched, seen, service, forwarded);
      if answer.FetchCancelled? { return Cancelled, forwarded, seen, asked; }
      if answer.FetchFailed? { return Partial, forwarded, seen, asked; }
      var page := answer.events;
      assert IsPage(store, until, limit, page);
      if !pageable { StaysHidden(store, until, limit, page, at, blockers, hidden); }
      if |page| == 0 {
        ExhaustedIsAll(store, fetched, until, limit, page);
        return;
      }
      var sent, oldest, unseen;
      ghost var before := fetched;
      PageIsStored(store, until, limit, page);
      sent, forwarded, seen, oldest, unseen, fetched, handled :=
        ForwardPage(store, before, page, service, channel, forwarded, seen);
      Verdict(store, fetched, seen, service, forwarded);
      if sent.SendCancelled? { return Cancelled, forwarded, seen, asked; }
      if sent.ChannelClosed? { return Failed, forwarded, seen, asked; }
      assert !pageable ==> hidden !in fetched by { EventsIn(page, hidden); }
      if |page| < limit {
        ExhaustedIsAll(store, before, until, limit, page);
        return;
      }
      OldestExists(page, oldest);
      if unseen == 0 {
        if pageable { RepeatedIsAll(store, fetched, until, limit, page, oldest.value); }
        return;
      }
      PageReaches(store, before, fetched, until, limit, page, oldest.value);
      PageIsNew(store, before, fetched, page, until, limit);
      until := oldest;
    }
  }

  lemma NothingFetched(store: set<Event>, service: string)
    ensures Reaches(store, {}, None) && Tracks(store, {}, {}) && ForwardedOnly({}, service, [])
      && ForwardedAll({}, service, [])
  {
  }

  lemma PageIsStored(store: set<Event>, until: Option<nat>, limit: nat, page: seq<Event>)
    requires IsPage(store, until, limit, page)
    ensures |page| <= limit && forall i :: 0 <= i < |page| ==> page[i] in store
  {
  }

  lemma EventsIn(page: seq<Event>, e: Event)
    ensures e in Events(page) <==> e in page
  {
  }

  lemma OldestExists(page: seq<Event>, oldest: Option<nat>)
    requires IsOldest(page, oldest) && page != []
    ensures oldest.Some? && exists i :: 0 <= i < |page| && page[i].createdAt == oldest.value
  {
  }

  /** What the caller sees of the fetched set. */
  lemma Verdict(store: set<Event>, fetched: set<Event>, seen: set<nat>, service: string, forwarded: seq<Event>)
    requires Tracks(store, fetched, seen) && ForwardedOnly(fetched, service, forwarded)
    ensures forall e :: e in forwarded ==> e in store && e.author != service && e.id in seen
    ensures forall i, j :: 0 <= i < j < |forwarded| ==> forwarded[i] != forwarded[j]
    ensures ForwardedAll(fetched, service, forwarded) ==>
      forall e :: e in store && e.id in seen && e.author != service ==> e in forwarded
    ensures (forall e :: e in store ==> e.id in seen) <==> fetched == store
  {
  }

  lemma RepeatedIsAll(store: set<Event>, fetched: set<Event>, until: Option<nat>, limit: nat, page: seq<Event>,
      oldest: nat)
    requires PageableBy(store, limit) && 0 < limit
    requires Reaches(store, fetched, until) && IsPage(store, until, limit, page) && IsOldest(page, Some(oldest))
    requires |page| == limit && Events(page) <= fetched
    ensures fetched == store
  {
    assert forall i :: 0 <= i < |page| ==> page[i] in Events(page);
    NothingNewMeansAll(store, fetched, until, limit, page, oldest);
  }

  lemma PageIsNew(store: set<Event>, before: set<Event>, fetched: set<Event>, page: seq<Event>, until: Option<nat>,
      limit: nat)
    requires Reaches(store, before, until) && IsPage(store, until, limit, page)
    requires fetched == before + Events(page) && fetched != before
    ensures |store - fetched| < |store - before|
  {
    Shrinks(store, before, fetched);
  }

  lemma Shrinks(store: set<Event>, before: set<Event>, fetched: set<Event>)
    requires before <= fetched <= store && before != fetched
    ensures |store - fetched| < |store - before|
  {
    var e :| e in fetched && e !in before;
    CardinalityMonotone(store - fetched, store - before - {e});
  }

  /** A short page is the end of the store. */
  lemma ExhaustedIsAll(store: set<Event>, before: set<Event>, until: Option<nat>, limit: nat, page: seq<Event>)
    requires Reaches(store, before, until) && IsPage(store, until, limit, page) && |page| < limit
    ensures before + Events(page) == store
    ensures page == [] ==> before == store
  {
    assert forall i :: 0 <= i < |page| ==> page[i] in store;
  }

  lemma PageReaches(store: set<Event>, before: set<Event>, fetched: set<Event>, until: Option<nat>, limit: nat,
      page: seq<Event>, oldest: nat)
    requires Reaches(store, before, until) && IsPage(store, until, limit, page) && IsOldest(page, Some(oldest))
    requires fetched == before + Events(page)
    ensures Reaches(store, fetched, Some(oldest))
  {
    forall e | e in store && e.createdAt > oldest ensures e in fetched {
      if Matches(e, until) {
        NewerIsPaged(store, until, limit, page, oldest, e);
      }
    }
    var low :| 0 <= low < |page| && page[low].createdAt == oldest;
    forall e | e in fetched ensures e.createdAt >= oldest && e in store {
      if e in page {
        var i :| 0 <= i < |page| && page[i] == e;
      }
    }
  }
}
