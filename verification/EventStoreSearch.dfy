/** What a search of the event log means: a naive scan of the event files. */
module EventStoreSearch {
  import opened Wrappers

  /** The dictionary form of an event; payload stands for everything but its id. */
  datatype Event = Event(id: int, payload: string)

  type EventFilter = Event -> bool

  predicate Includes(filter: Option<EventFilter>, e: Event) {
    filter.None? || filter.value(e)
  }

  function Matching(filter: Option<EventFilter>, events: seq<Event>): seq<Event> {
    if events == [] then []
    else Matching(filter, events[..|events| - 1]) +
         (if Includes(filter, events[|events| - 1]) then [events[|events| - 1]] else [])
  }

  function Reversed(events: seq<Event>): seq<Event> {
    seq(|events|, i requires 0 <= i < |events| => events[|events| - 1 - i])
  }

  /** The first events up to the limit: zero and None are no limit, and a negative limit stops
      after the first result. */
  function Limited(events: seq<Event>, limit: Option<int>): seq<Event> {
    if limit.None? || limit.value == 0 then events
    else
      var n := if limit.value < 0 then 1 else limit.value;
      if |events| <= n then events else events[..n]
  }

  /** The stored events with lo <= id < hi, in order of id. */
  function Existing(files: map<int, Event>, lo: int, hi: int): seq<Event>
    decreases hi - lo
  {
    if hi <= lo then []
    else Existing(files, lo, hi - 1) + if hi - 1 in files then [files[hi - 1]] else []
  }

  function Scan(files: map<int, Event>, lo: int, hi: int, reverse: bool): seq<Event> {
    if reverse then Reversed(Existing(files, lo, hi)) else Existing(files, lo, hi)
  }

  /** search_events over the half-open range of ids [lo, hi). */
  function Search(files: map<int, Event>, lo: int, hi: int, reverse: bool,
                  filter: Option<EventFilter>, limit: Option<int>): seq<Event>
  {
    Limited(Matching(filter, Scan(files, lo, hi, reverse)), limit)
  }

  /*** The laws of these functions. ***/

  lemma {:induction false} MatchingConcat(filter: Option<EventFilter>, a: seq<Event>, b: seq<Event>)
    ensures Matching(filter, a + b) == Matching(filter, a) + Matching(filter, b)
    decreases |b|
  {
    if b == [] {
      assert a + b == a;
    } else {
      var m := |b| - 1;
      assert (a + b)[..|a + b| - 1] == a + b[..m];
      MatchingConcat(filter, a, b[..m]);
    }
  }

  lemma ReversedConcat(a: seq<Event>, b: seq<Event>)
    ensures Reversed(a + b) == Reversed(b) + Reversed(a)
  {
  }

  lemma {:induction false} MatchingReversed(filter: Option<EventFilter>, events: seq<Event>)
    ensures Matching(filter, Reversed(events)) == Reversed(Matching(filter, events))
  {
    if events != [] {
      MatchingReversed(filter, events[1..]);
      MatchingConcat(filter, Reversed(events[1..]), [events[0]]);
      MatchingConcat(filter, [events[0]], events[1..]);
      assert [events[0]] + events[1..] == events;
      assert Reversed(events) == Reversed(events[1..]) + [events[0]];
      assert [events[0]][..0] == [];
      assert Reversed(Matching(filter, [events[0]])) == Matching(filter, [events[0]]);
      ReversedConcat(Matching(filter, [events[0]]), Matching(filter, events[1..]));
    }
  }

  lemma {:induction false} ExistingSplit(files: map<int, Event>, lo: int, mid: int, hi: int)
    requires lo <= mid <= hi
    ensures Existing(files, lo, hi) == Existing(files, lo, mid) + Existing(files, mid, hi)
    decreases hi - mid
  {
    if mid < hi {
      ExistingSplit(files, lo, mid, hi - 1);
    }
  }

  /** An unlimited reverse search is the reversal of the forward one. */
  lemma ReverseSearchReverses(files: map<int, Event>, lo: int, hi: int, filter: Option<EventFilter>)
    ensures Search(files, lo, hi, true, filter, None) == Reversed(Search(files, lo, hi, false, filter, None))
  {
    MatchingReversed(filter, Existing(files, lo, hi));
  }

  /** A reverse search limited to n gives the last n matches of the forward one, newest first. */
  lemma LimitedReverseSearchIsLast(files: map<int, Event>, lo: int, hi: int, filter: Option<EventFilter>, n: nat)
    requires 0 < n
    ensures var all := Search(files, lo, hi, false, filter, None);
            Search(files, lo, hi, true, filter, Some(n))
            == Reversed(if |all| <= n then all else all[|all| - n..])
  {
    var all := Search(files, lo, hi, false, filter, None);
    MatchingReversed(filter, Existing(files, lo, hi));
  }
}
