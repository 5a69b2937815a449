/** The same search, page by page, against a remote server.

    The client knows nothing of the store: it asks for a window of events, moves a cursor past
    what it saw, filters locally and stops at end_id, at the limit or when the server says that
    there is no more. */
module NestedEventStore {
  import opened Wrappers
  import opened MinMax
  import opened EventStoreSearch

  ghost predicate Ordered(events: seq<Event>) {
    forall i, j :: 0 <= i < j < |events| ==> events[i].id < events[j].id
  }

  function InRange(lo: int, hi: Option<int>): EventFilter {
    (e: Event) => lo <= e.id && (hi.None? || e.id <= hi.value)
  }

  /** Where the events at or after an id begin. */
  function FirstFrom(store: seq<Event>, lo: int): (j: nat)
    ensures j <= |store|
  {
    if store == [] || lo <= store[0].id then 0 else 1 + FirstFrom(store[1..], lo)
  }

  lemma {:induction false} FirstFromSplits(store: seq<Event>, lo: int)
    ensures forall i :: 0 <= i < FirstFrom(store, lo) ==> store[i].id < lo
    ensures FirstFrom(store, lo) < |store| ==> lo <= store[FirstFrom(store, lo)].id
  {
    if store != [] && store[0].id < lo {
      FirstFromSplits(store[1..], lo);
    }
  }

  /** The stored events with lo <= id <= hi: in an ordered store, a slice. */
  function Range(store: seq<Event>, lo: int, hi: Option<int>): seq<Event> {
    var j := FirstFrom(store, lo);
    var m := if hi.None? then |store| else FirstFrom(store, hi.value + 1);
    if j <= m then store[j..m] else []
  }

  lemma {:induction false} SliceIsMatching(store: seq<Event>, lo: int, hi: Option<int>, j: nat, m: nat)
    requires j <= m <= |store|
    requires forall i :: 0 <= i < |store| ==> (j <= i < m <==> InRange(lo, hi)(store[i]))
    ensures Matching(Some(InRange(lo, hi)), store) == store[j..m]
    decreases |store|
  {
    if store != [] {
      var last := |store| - 1;
      assert j <= last < m <==> Includes(Some(InRange(lo, hi)), store[last]);
      if m == |store| && j <= last {
        SliceIsMatching(store[..last], lo, hi, j, last);
        assert store[j..m] == store[..last][j..last] + [store[last]];
      } else if j == |store| {
        SliceIsMatching(store[..last], lo, hi, last, last);
      } else {
        SliceIsMatching(store[..last], lo, hi, j, m);
        assert store[j..m] == store[..last][j..m];
      }
    }
  }

  /** An event is in the range exactly if it is behind all smaller ids and before all larger ones. */
  lemma SplitAt(store: seq<Event>, lo: int, i: nat)
    requires Ordered(store) && i < |store|
    ensures FirstFrom(store, lo) <= i <==> lo <= store[i].id
  {
    FirstFromSplits(store, lo);
  }

  lemma InRangeIff(store: seq<Event>, lo: int, hi: Option<int>, i: nat)
    requires Ordered(store) && i < |store|
    ensures InRange(lo, hi)(store[i])
       <==> FirstFrom(store, lo) <= i < if hi.None? then |store| else FirstFrom(store, hi.value + 1)
  {
    SplitAt(store, lo, i);
    if hi.Some? {
      SplitAt(store, hi.value + 1, i);
    }
  }

  lemma RangeIsMatching(store: seq<Event>, lo: int, hi: Option<int>)
    requires Ordered(store)
    ensures Range(store, lo, hi) == Matching(Some(InRange(lo, hi)), store)
  {
    var j := FirstFrom(store, lo);
    var m := if hi.None? then |store| else FirstFrom(store, hi.value + 1);
    var end := if j <= m then m else j;
    forall i | 0 <= i < |store| ensures j <= i < end <==> InRange(lo, hi)(store[i]) {
      InRangeIff(store, lo, hi, i);
    }
    SliceIsMatching(store, lo, hi, j, end);
  }

  /** The events a request is about, in the order it asks for. */
  function Available(store: seq<Event>, lo: int, hi: Option<int>, reverse: bool): seq<Event> {
    var events := Range(store, lo, hi);
    if reverse then Reversed(events) else events
  }

  /** What the client relies on: a window is a prefix of what is available, not empty unless it
      must be, no longer than the limit, and has_more is the truth. */
  ghost predicate IsWindow(available: seq<Event>, limit: Option<int>, window: seq<Event>, hasMore: bool) {
    && window <= available
    && (hasMore <==> |window| < |available|)
    && (available != [] && (limit.Some? ==> 0 < limit.value) ==> window != [])
    && (limit.Some? && 0 <= limit.value ==> |window| <= limit.value)
  }

  /** The server: any window sizes will do. */
  class Server {
    const store: seq<Event>

    constructor (store: seq<Event>)
      ensures this.store == store
    {
      this.store := store;
    }

    method Get(startId: int, endId: Option<int>, reverse: bool, limit: Option<int>)
      returns (window: seq<Event>, hasMore: bool)
      requires limit.Some? ==> 0 < limit.value
      ensures IsWindow(Available(store, startId, endId, reverse), limit, window, hasMore)
    {
      var available := Available(store, startId, endId, reverse);
      var size: int := *;
      if size < 1 || (limit.Some? && limit.value < size) {
        size := 1;
      }
      if |available| < size {
        size := |available|;
      }
      window, hasMore := available[..size], size < |available|;
    }
  }

  /** The events up to and including the one with the given id, all of them if there is none. */
  function UpTo(events: seq<Event>, endId: Option<int>): seq<Event> {
    if events == [] then []
    else if endId == Some(events[0].id) then [events[0]]
    else [events[0]] + UpTo(events[1..], endId)
  }

  ghost predicate NotAmong(endId: Option<int>, events: seq<Event>) {
    forall i :: 0 <= i < |events| ==> endId != Some(events[i].id)
  }

  function Answer(all: seq<Event>, endId: Option<int>, filter: Option<EventFilter>, limit: Option<int>): seq<Event> {
    Limited(Matching(filter, UpTo(all, endId)), limit)
  }

  /** What the paginated search returns: matches up to end_id, up to the limit. */
  function PagedSearch(store: seq<Event>, startId: int, endId: Option<int>, reverse: bool,
                       filter: Option<EventFilter>, limit: Option<int>): seq<Event>
  {
    Answer(Available(store, startId, None, reverse), endId, filter, limit)
  }

  lemma {:induction false} UpToSplit(a: seq<Event>, b: seq<Event>, endId: Option<int>)
    requires NotAmong(endId, a)
    ensures UpTo(a + b, endId) == a + UpTo(b, endId)
  {
    if a == [] {
      assert a + b == b;
    } else {
      assert (a + b)[1..] == a[1..] + b;
      UpToSplit(a[1..], b, endId);
    }
  }

  lemma {:induction false} FirstFromIs(store: seq<Event>, lo: int, j: nat)
    requires j <= |store|
    requires forall i :: 0 <= i < j ==> store[i].id < lo
    requires j < |store| ==> lo <= store[j].id
    ensures FirstFrom(store, lo) == j
  {
    if j > 0 {
      FirstFromIs(store[1..], lo, j - 1);
    }
  }

  /** After k events, the cursor asks for exactly the rest. */
  lemma ForwardCursorAsksForRest(store: seq<Event>, startId: int, k: nat)
    requires Ordered(store) && 0 < k <= |Range(store, startId, None)|
    ensures var all := Range(store, startId, None);
            all[k..] == Range(store, all[k - 1].id + 1, None)
  {
    var j := FirstFrom(store, startId);
    FirstFromIs(store, store[j + k - 1].id + 1, j + k);
  }

  lemma ReverseCursorAsksForRest(store: seq<Event>, startId: int, k: nat)
    requires Ordered(store) && 0 < k <= |Range(store, startId, None)|
    ensures var all := Range(store, startId, None);
            all[..|all| - k] == Range(store, startId, Some(all[|all| - k].id - 1))
  {
    var m := |store| - k;
    FirstFromIs(store, store[m].id, m);
  }

  lemma ReversedTail(events: seq<Event>, k: nat)
    requires 0 < k <= |events|
    ensures Reversed(events)[k - 1] == events[|events| - k]
    ensures Reversed(events)[k..] == Reversed(events[..|events| - k])
  {
  }

  lemma CursorAsksForRest(store: seq<Event>, startId: int, reverse: bool, k: nat)
    requires Ordered(store) && 0 < k <= |Available(store, startId, None, reverse)|
    ensures var all := Available(store, startId, None, reverse);
            all[k..] == if reverse then Available(store, startId, Some(all[k - 1].id - 1), true)
                        else Available(store, all[k - 1].id + 1, None, false)
  {
    if reverse {
      ReverseAsksForRest(store, startId, k);
    } else {
      ForwardCursorAsksForRest(store, startId, k);
    }
  }

  lemma ReverseAsksForRest(store: seq<Event>, startId: int, k: nat)
    requires Ordered(store) && 0 < k <= |Range(store, startId, None)|
    ensures var all := Reversed(Range(store, startId, None));
            all[k..] == Reversed(Range(store, startId, Some(all[k - 1].id - 1)))
  {
    ReverseCursorAsksForRest(store, startId, k);
    ReversedTail(Range(store, startId, None), k);
  }

  /** One more event seen. */
  lemma SeeNext(filter: Option<EventFilter>, all: seq<Event>, k: nat)
    requires k < |all|
    ensures Matching(filter, all[..k + 1])
         == Matching(filter, all[..k]) + if Includes(filter, all[k]) then [all[k]] else []
  {
    assert all[..k + 1][..k] == all[..k];
  }

  /** The search stops at end_id, or at the limit: what it has is the answer. */
  lemma StopsRight(filter: Option<EventFilter>, endId: Option<int>, limit: Option<int>, all: seq<Event>, k: nat)
    requires 0 < k <= |all| && NotAmong(endId, all[..k - 1])
    requires limit.Some? ==> 0 < limit.value && |Matching(filter, all[..k])| <= limit.value
    requires endId == Some(all[k - 1].id) || (limit.Some? && |Matching(filter, all[..k])| == limit.value)
    ensures Answer(all, endId, filter, limit) == Matching(filter, all[..k])
  {
    assert all == all[..k - 1] + all[k - 1..];
    UpToSplit(all[..k - 1], all[k - 1..], endId);
    if endId == Some(all[k - 1].id) {
      assert UpTo(all, endId) == all[..k];
    } else {
      var rest := UpTo(all[k - 1..][1..], endId);
      assert UpTo(all, endId) == all[..k] + rest;
      MatchingConcat(filter, all[..k], rest);
    }
  }

  /** The state of the client between two events: k of them seen, none of them end_id. */
  ghost predicate Progress(filter: Option<EventFilter>, endId: Option<int>, limit: Option<int>, all: seq<Event>,
                           k: nat, results: seq<Event>, remaining: Option<int>)
  {
    && k <= |all|
    && results == Matching(filter, all[..k])
    && NotAmong(endId, all[..k])
    && (limit.Some? <==> remaining.Some?)
    && (limit.Some? ==> 0 < remaining.value == limit.value - |results|)
  }

  /** What seeing the next event does: it stops the search with the right answer, or leaves it in
      progress one event further. */
  lemma SeeEvent(filter: Option<EventFilter>, endId: Option<int>, limit: Option<int>, all: seq<Event>,
                 k: nat, results: seq<Event>, remaining: Option<int>)
    requires Progress(filter, endId, limit, all, k, results, remaining) && k < |all|
    ensures var e := all[k];
            var more := if Includes(filter, e) then results + [e] else results;
            var left := if remaining.Some? && Includes(filter, e) then Some(remaining.value - 1) else remaining;
            if endId == Some(e.id) || left == Some(0)
            then more == Answer(all, endId, filter, limit)
            else Progress(filter, endId, limit, all, k + 1, more, left)
  {
    SeeNext(filter, all, k);
    assert all[..k + 1][..k] == all[..k];
    var e := all[k];
    if endId == Some(e.id) || (remaining == Some(1) && Includes(filter, e)) {
      StopsRight(filter, endId, limit, all, k + 1);
    }
  }

  /** The ids move one way, from the cursor on. */
  ghost predicate InOrder(window: seq<Event>, reverse: bool, startCursor: int) {
    && (forall i, j :: 0 <= i < j < |window| ==>
          if reverse then window[j].id < window[i].id else window[i].id < window[j].id)
    && (forall i :: 0 <= i < |window| && !reverse ==> startCursor <= window[i].id)
  }

  /** The end of the loop's body: the event is left out or yielded, and the search may stop at it. */
  method YieldEvent(event: Event, endId: Option<int>, filter: Option<EventFilter>, limit: Option<int>,
                    soFar: seq<Event>, left: Option<int>, ghost all: seq<Event>, ghost k: nat)
    returns (results: seq<Event>, remaining: Option<int>, stopped: bool)
    requires Progress(filter, endId, limit, all, k, soFar, left) && k < |all| && event == all[k]
    ensures stopped ==> results == Answer(all, endId, filter, limit)
    ensures !stopped ==> Progress(filter, endId, limit, all, k + 1, results, remaining)
  {
    SeeEvent(filter, endId, limit, all, k, soFar, left);
    results, remaining := soFar, left;
    if endId == Some(event.id) {
      if Includes(filter, event) {
        results := results + [event];
      }
      return results, remaining, true;
    }
    if !Includes(filter, event) {
      return results, remaining, false;
    }
    results := results + [event];
    if remaining.Some? {
      remaining := Some(remaining.value - 1);
      if remaining.value <= 0 {
        return results, remaining, true;
      }
    }
    stopped := false;
  }

  /** What the loop over a window leaves for the cursors: the last id of the window, if there is one. */
  ghost predicate Noticed(window: seq<Event>, reverse: bool, startCursor: int, pageMinId: Option<int>,
                          forwardNextStart: int)
  {
    if window == [] then pageMinId == None && forwardNextStart == startCursor
    else if reverse then pageMinId == Some(window[|window| - 1].id)
    else forwardNextStart == window[|window| - 1].id + 1
  }

  /** The loop over one window. */
  method ConsumeWindow(window: seq<Event>, startCursor: int, endId: Option<int>, reverse: bool,
                       filter: Option<EventFilter>, limit: Option<int>, soFar: seq<Event>, left: Option<int>,
                       ghost all: seq<Event>, ghost k: nat)
    returns (results: seq<Event>, remaining: Option<int>, pageMinId: Option<int>, forwardNextStart: int, stopped: bool)
    requires Progress(filter, endId, limit, all, k, soFar, left)
    requires window <= all[k..]
    requires InOrder(window, reverse, startCursor)
    ensures stopped ==> results == Answer(all, endId, filter, limit)
    ensures !stopped ==> Progress(filter, endId, limit, all, k + |window|, results, remaining)
    ensures !stopped ==> Noticed(window, reverse, startCursor, pageMinId, forwardNextStart)
  {
    results, remaining, pageMinId, forwardNextStart, stopped := soFar, left, None, startCursor, false;
    for i := 0 to |window|
      invariant Progress(filter, endId, limit, all, k + i, results, remaining)
      invariant reverse && i > 0 ==> pageMinId == Some(window[i - 1].id)
      invariant i == 0 ==> pageMinId == None
      invariant !reverse ==> forwardNextStart == if i == 0 then startCursor else window[i - 1].id + 1
      invariant reverse ==> forwardNextStart == startCursor
    {
      var event := window[i];
      assert event == all[k..][i] == all[k + i];
      if reverse {
        pageMinId := Some(if pageMinId.None? then event.id else Min(pageMinId.value, event.id));
      } else {
        forwardNextStart := Max(forwardNextStart, event.id + 1);
      }
      results, remaining, stopped := YieldEvent(event, endId, filter, limit, results, remaining, all, k + i);
      if stopped {
        return;
      }
    }
  }

  /** The cursors ask for what is left after k events. */
  ghost predicate Asks(store: seq<Event>, startId: int, reverse: bool, all: seq<Event>, k: nat,
                       startCursor: int, endCursor: Option<int>)
  {
    && k <= |all|
    && Available(store, startCursor, endCursor, reverse) == all[k..]
    && (if reverse then startCursor == startId else endCursor == None)
  }

  method Request(server: Server, startId: int, reverse: bool, startCursor: int, endCursor: Option<int>,
                 left: Option<int>, ghost all: seq<Event>, ghost k: nat)
    returns (window: seq<Event>, hasMore: bool)
    requires Ordered(server.store) && all == Available(server.store, startId, None, reverse)
    requires left.Some? ==> 0 < left.value
    requires Asks(server.store, startId, reverse, all, k, startCursor, endCursor)
    ensures window <= all[k..]
    ensures hasMore <==> k + |window| < |all|
    ensures hasMore ==> window != []
    ensures InOrder(window, reverse, startCursor)
  {
    var requestLimit := if left.None? then None else Some(Min(100, left.value));
    window, hasMore := server.Get(startCursor, endCursor, reverse, requestLimit);
    WindowMoves(server.store, startId, reverse, all, k, startCursor, endCursor, window);
  }

  /** One request and the loop over its window. */
  method SeeWindow(server: Server, startId: int, endId: Option<int>, reverse: bool,
                   filter: Option<EventFilter>, limit: Option<int>, startCursor: int, endCursor: Option<int>,
                   soFar: seq<Event>, left: Option<int>, ghost all: seq<Event>, ghost k: nat)
    returns (results: seq<Event>, remaining: Option<int>, pageMinId: Option<int>, forwardNextStart: int,
             stopped: bool, hasMore: bool, ghost window: seq<Event>)
    requires Ordered(server.store) && all == Available(server.store, startId, None, reverse)
    requires Progress(filter, endId, limit, all, k, soFar, left)
    requires Asks(server.store, startId, reverse, all, k, startCursor, endCursor)
    ensures stopped ==> results == Answer(all, endId, filter, limit)
    ensures !stopped ==> Progress(filter, endId, limit, all, k + |window|, results, remaining)
    ensures !stopped ==> Noticed(window, reverse, startCursor, pageMinId, forwardNextStart)
    ensures window <= all[k..]
    ensures hasMore <==> k + |window| < |all|
    ensures hasMore ==> window != []
  {
    var events;
    events, hasMore := Request(server, startId, reverse, startCursor, endCursor, left, all, k);
    window := events;
    results, remaining, pageMinId, forwardNextStart, stopped :=
      ConsumeWindow(events, startCursor, endId, reverse, filter, limit, soFar, left, all, k);
  }

  /** Where the cursors are after a window. */
  function NextStart(reverse: bool, startCursor: int, forwardNextStart: int): int {
    if reverse then startCursor else forwardNextStart
  }

  function NextEnd(reverse: bool, endCursor: Option<int>, pageMinId: Option<int>): Option<int> {
    if reverse && pageMinId.Some? then Some(pageMinId.value - 1) else endCursor
  }

  method MoveCursors(reverse: bool, startCursor: int, endCursor: Option<int>, pageMinId: Option<int>,
                     forwardNextStart: int)
    returns (nextStart: int, nextEnd: Option<int>)
    ensures nextStart == NextStart(reverse, startCursor, forwardNextStart)
    ensures nextEnd == NextEnd(reverse, endCursor, pageMinId)
  {
    nextStart, nextEnd := startCursor, endCursor;
    if reverse && pageMinId.Some? {
      nextEnd := Some(pageMinId.value - 1);
    } else if !reverse {
      nextStart := forwardNextStart;
    }
  }

  /** One round: a request, the loop over its window, the move of the cursors. */
  method NextWindow(server: Server, startId: int, endId: Option<int>, reverse: bool,
                    filter: Option<EventFilter>, limit: Option<int>, startCursor: int, endCursor: Option<int>,
                    soFar: seq<Event>, left: Option<int>, ghost all: seq<Event>, ghost k: nat)
    returns (results: seq<Event>, remaining: Option<int>, nextStart: int, nextEnd: Option<int>, done: bool,
             ghost seen: nat)
    requires Ordered(server.store) && all == Available(server.store, startId, None, reverse)
    requires Progress(filter, endId, limit, all, k, soFar, left)
    requires Asks(server.store, startId, reverse, all, k, startCursor, endCursor)
    ensures done ==> results == Answer(all, endId, filter, limit)
    ensures !done ==> k < seen && Progress(filter, endId, limit, all, seen, results, remaining)
    ensures !done ==> Asks(server.store, startId, reverse, all, seen, nextStart, nextEnd)
  {
    var pageMinId, forwardNextStart, hasMore;
    ghost var window;
    nextStart, nextEnd := startCursor, endCursor;
    results, remaining, pageMinId, forwardNextStart, done, hasMore, window :=
      SeeWindow(server, startId, endId, reverse, filter, limit, startCursor, endCursor, soFar, left, all, k);
    seen := k + |window|;
    if done {
      return;
    }
    nextStart, nextEnd := MoveCursors(reverse, startCursor, endCursor, pageMinId, forwardNextStart);
    CursorMoves(server.store, startId, reverse, all, k, startCursor, endCursor, window, pageMinId, forwardNextStart,
                nextStart, nextEnd);
    if !hasMore {
      NothingLeft(filter, endId, limit, all, seen, results, remaining);
      done := true;
    }
  }

  method SearchEvents(server: Server, startId: int, endId: Option<int>, reverse: bool,
                      filter: Option<EventFilter>, limit: Option<int>)
    returns (results: seq<Event>)
    requires Ordered(server.store)
    requires limit.Some? ==> 0 < limit.value
    ensures results == PagedSearch(server.store, startId, endId, reverse, filter, limit)
  {
    ghost var all := Available(server.store, startId, None, reverse);
    ghost var k := 0;
    var startCursor, endCursor: Option<int> := startId, None;
    var remaining := limit;
    var done := false;
    results := [];
    while !done
      invariant done ==> results == Answer(all, endId, filter, limit)
      invariant !done ==> Progress(filter, endId, limit, all, k, results, remaining)
      invariant !done ==> Asks(server.store, startId, reverse, all, k, startCursor, endCursor)
      decreases !done, |all| - k
    {
      results, remaining, startCursor, endCursor, done, k :=
        NextWindow(server, startId, endId, reverse, filter, limit, startCursor, endCursor, results, remaining, all, k);
    }
  }

  lemma NothingLeft(filter: Option<EventFilter>, endId: Option<int>, limit: Option<int>, all: seq<Event>,
                    k: nat, results: seq<Event>, remaining: Option<int>)
    requires Progress(filter, endId, limit, all, k, results, remaining) && k == |all|
    ensures results == Answer(all, endId, filter, limit)
  {
    assert all[..|all|] == all && all + [] == all;
    UpToSplit(all, [], endId);
  }

  lemma CursorAsks(store: seq<Event>, startId: int, reverse: bool, all: seq<Event>, k: nat,
                   startCursor: int, endCursor: Option<int>)
    requires Ordered(store) && all == Available(store, startId, None, reverse) && 0 < k <= |all|
    requires if reverse then startCursor == startId && endCursor == Some(all[k - 1].id - 1)
             else startCursor == all[k - 1].id + 1 && endCursor == None
    ensures Asks(store, startId, reverse, all, k, startCursor, endCursor)
  {
    CursorAsksForRest(store, startId, reverse, k);
    AsksIs(store, startId, reverse, all, k, startCursor, endCursor);
  }

  lemma AsksIs(store: seq<Event>, startId: int, reverse: bool, all: seq<Event>, k: nat,
               startCursor: int, endCursor: Option<int>)
    requires k <= |all| && Available(store, startCursor, endCursor, reverse) == all[k..]
    requires if reverse then startCursor == startId else endCursor == None
    ensures Asks(store, startId, reverse, all, k, startCursor, endCursor)
  {
  }

  lemma LastOfWindow(all: seq<Event>, k: nat, window: seq<Event>)
    requires k <= |all| && window <= all[k..] && window != []
    ensures k + |window| <= |all| && window[|window| - 1] == all[k + |window| - 1]
  {
    assert window[|window| - 1] == all[k..][|window| - 1];
  }

  lemma CursorMoves(store: seq<Event>, startId: int, reverse: bool, all: seq<Event>, k: nat,
                    startCursor: int, endCursor: Option<int>, window: seq<Event>,
                    pageMinId: Option<int>, forwardNextStart: int, nextStart: int, nextEnd: Option<int>)
    requires Ordered(store) && all == Available(store, startId, None, reverse)
    requires Asks(store, startId, reverse, all, k, startCursor, endCursor) && window <= all[k..]
    requires Noticed(window, reverse, startCursor, pageMinId, forwardNextStart)
    requires nextStart == NextStart(reverse, startCursor, forwardNextStart)
    requires nextEnd == NextEnd(reverse, endCursor, pageMinId)
    ensures Asks(store, startId, reverse, all, k + |window|, nextStart, nextEnd)
  {
    if window == [] {
      assert k + |window| == k && nextStart == startCursor && nextEnd == endCursor;
    } else {
      LastOfWindow(all, k, window);
      CursorFollows(startId, reverse, all, k, startCursor, endCursor, window, pageMinId, forwardNextStart);
      CursorAsks(store, startId, reverse, all, k + |window|, nextStart, nextEnd);
    }
  }

  lemma CursorFollows(startId: int, reverse: bool, all: seq<Event>, k: nat, startCursor: int, endCursor: Option<int>,
                      window: seq<Event>, pageMinId: Option<int>, forwardNextStart: int)
    requires window != [] && k + |window| <= |all| && window[|window| - 1] == all[k + |window| - 1]
    requires if reverse then startCursor == startId && pageMinId == Some(window[|window| - 1].id)
             else endCursor == None && forwardNextStart == window[|window| - 1].id + 1
    ensures var last := all[k + |window| - 1].id;
            var nextStart, nextEnd := NextStart(reverse, startCursor, forwardNextStart),
                                      NextEnd(reverse, endCursor, pageMinId);
            if reverse then nextStart == startId && nextEnd == Some(last - 1)
            else nextStart == last + 1 && nextEnd == None
  {
  }

  lemma WindowMoves(store: seq<Event>, startId: int, reverse: bool, all: seq<Event>, k: nat,
                    startCursor: int, endCursor: Option<int>, window: seq<Event>)
    requires Ordered(store) && all == Available(store, startId, None, reverse)
    requires Asks(store, startId, reverse, all, k, startCursor, endCursor)
    requires window <= Available(store, startCursor, endCursor, reverse)
    ensures window <= all[k..]
    ensures InOrder(window, reverse, startCursor)
  {
    RangeIsOrdered(store, startCursor, endCursor);
    PrefixMoves(Range(store, startCursor, endCursor), reverse, window);
  }

  lemma PrefixMoves(range: seq<Event>, reverse: bool, window: seq<Event>)
    requires Ordered(range) && window <= if reverse then Reversed(range) else range
    ensures forall i, j :: 0 <= i < j < |window| ==>
      if reverse then window[j].id < window[i].id else window[i].id < window[j].id
    ensures !reverse ==> forall i :: 0 <= i < |window| ==> window[i] == range[i]
  {
    forall i, j | 0 <= i < j < |window|
      ensures if reverse then window[j].id < window[i].id else window[i].id < window[j].id
    {
      if reverse {
        assert window[i] == Reversed(range)[i] && window[j] == Reversed(range)[j];
      }
    }
  }

  lemma RangeIsOrdered(store: seq<Event>, lo: int, hi: Option<int>)
    requires Ordered(store)
    ensures Ordered(Range(store, lo, hi))
    ensures forall i :: 0 <= i < |Range(store, lo, hi)| ==> lo <= Range(store, lo, hi)[i].id
  {
    FirstFromSplits(store, lo);
    var j := FirstFrom(store, lo);
    if j < |store| {
      assert forall i :: j < i < |store| ==> store[j].id < store[i].id;
    }
  }
}
