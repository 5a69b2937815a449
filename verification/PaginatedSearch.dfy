/** Paginated search against direct search. */
module PaginatedSearch {
  import opened Wrappers
  import opened EventStoreSearch
  import opened NestedEventStore

  /** The files of a quiescent store whose next id is cur. */
  ghost predicate Numbered(files: map<int, Event>, cur: int) {
    0 <= cur && forall id :: id in files ==> 0 <= id < cur && files[id].id == id
  }

  function EndOf(hi: Option<int>, cur: int): int {
    if hi.Some? && hi.value + 1 < cur then hi.value + 1 else cur
  }

  lemma {:induction false} ExistingIsOrdered(files: map<int, Event>, cur: int, hi: int)
    requires Numbered(files, cur) && 0 <= hi
    ensures Ordered(Existing(files, 0, hi))
    ensures forall e :: e in Existing(files, 0, hi) ==> e.id < hi
    decreases hi
  {
    if 0 < hi {
      ExistingIsOrdered(files, cur, hi - 1);
    }
  }

  /** The one id by which a scan grows, if it is in the range. */
  function Kept(files: map<int, Event>, id: int, lo: int, hi: Option<int>): seq<Event> {
    if id in files && lo <= id && (hi.None? || id <= hi.value) then [files[id]] else []
  }

  lemma RangeGrows(files: map<int, Event>, cur: int, b: int, lo: int, hi: Option<int>)
    requires Numbered(files, cur) && 0 < b <= cur
    ensures Existing(files, lo, EndOf(hi, b)) == Existing(files, lo, EndOf(hi, b - 1)) + Kept(files, b - 1, lo, hi)
  {
  }

  lemma KeepOne(files: map<int, Event>, cur: int, id: int, lo: int, hi: Option<int>)
    requires Numbered(files, cur)
    ensures Matching(Some(InRange(lo, hi)), if id in files then [files[id]] else []) == Kept(files, id, lo, hi)
  {
    if id in files {
      assert [files[id]][..0] == [];
    }
  }

  /** Keeping a range of ids of a scan is scanning that range. */
  lemma {:induction false} KeepRange(files: map<int, Event>, cur: int, b: int, lo: int, hi: Option<int>)
    requires Numbered(files, cur) && 0 <= b <= cur
    ensures Matching(Some(InRange(lo, hi)), Existing(files, 0, b)) == Existing(files, lo, EndOf(hi, b))
    decreases b
  {
    if b == 0 {
      NothingBelowZero(files, cur, lo, EndOf(hi, b));
    } else {
      var f := Some(InRange(lo, hi));
      KeepRange(files, cur, b - 1, lo, hi);
      var next := if b - 1 in files then [files[b - 1]] else [];
      MatchingConcat(f, Existing(files, 0, b - 1), next);
      KeepOne(files, cur, b - 1, lo, hi);
      RangeGrows(files, cur, b, lo, hi);
    }
  }

  lemma {:induction false} NothingBelowZero(files: map<int, Event>, cur: int, lo: int, hi: int)
    requires Numbered(files, cur) && hi <= 0
    ensures Existing(files, lo, hi) == []
    decreases hi - lo
  {
    if lo < hi {
      NothingBelowZero(files, cur, lo, hi - 1);
    }
  }

  lemma AvailableIsScan(files: map<int, Event>, cur: int, lo: int, hi: Option<int>, reverse: bool)
    requires Numbered(files, cur)
    ensures Available(Existing(files, 0, cur), lo, hi, reverse) == Scan(files, lo, EndOf(hi, cur), reverse)
  {
    ExistingIsOrdered(files, cur, cur);
    RangeIsMatching(Existing(files, 0, cur), lo, hi);
    KeepRange(files, cur, cur, lo, hi);
  }

  lemma {:induction false} UpToNone(events: seq<Event>)
    ensures UpTo(events, None) == events
  {
    if events != [] {
      UpToNone(events[1..]);
    }
  }

  /** Without end_id, in both directions, for every start, filter and limit: the two searches agree. */
  lemma PaginationRefinesSearch(files: map<int, Event>, cur: int, startId: int, reverse: bool,
                                filter: Option<EventFilter>, limit: Option<int>)
    requires Numbered(files, cur)
    ensures PagedSearch(Existing(files, 0, cur), startId, None, reverse, filter, limit)
         == Search(files, startId, cur, reverse, filter, limit)
  {
    AvailableIsScan(files, cur, startId, None, reverse);
    UpToNone(Scan(files, startId, cur, reverse));
  }

  /** The scan up to a stored event and the one from it on. */
  lemma AroundStored(files: map<int, Event>, cur: int, startId: int, endId: int)
    requires Numbered(files, cur) && endId in files && startId <= endId
    ensures Existing(files, startId, endId + 1) == Existing(files, startId, endId) + [files[endId]]
    ensures Existing(files, startId, cur)
         == Existing(files, startId, endId) + ([files[endId]] + Existing(files, endId + 1, cur))
  {
    ExistingSplit(files, startId, endId + 1, cur);
    JoinOnce(Existing(files, startId, endId), files[endId], Existing(files, endId + 1, cur));
  }

  lemma JoinOnce(before: seq<Event>, e: Event, rest: seq<Event>)
    ensures before + [e] + rest == before + ([e] + rest)
  {
  }

  lemma UpToStored(files: map<int, Event>, cur: int, startId: int, endId: int)
    requires Numbered(files, cur) && endId in files && startId <= endId
    ensures UpTo(Existing(files, startId, cur), Some(endId)) == Existing(files, startId, endId + 1)
  {
    var before, rest := Existing(files, startId, endId), Existing(files, endId + 1, cur);
    AroundStored(files, cur, startId, endId);
    ExistingIds(files, cur, startId, endId);
    assert NotAmong(Some(endId), before);
    UpToSplit(before, [files[endId]] + rest, Some(endId));
  }

  lemma UpToMissing(files: map<int, Event>, cur: int, startId: int, endId: int)
    requires Numbered(files, cur) && !(endId in files && startId <= endId)
    ensures UpTo(Existing(files, startId, cur), Some(endId)) == Existing(files, startId, cur)
  {
    var all := Existing(files, startId, cur);
    ExistingIds(files, cur, startId, cur);
    assert NotAmong(Some(endId), all) && all + [] == all;
    UpToSplit(all, [], Some(endId));
  }

  /** What a forward search up to end_id sees. */
  lemma ForwardUpTo(files: map<int, Event>, cur: int, startId: int, endId: int)
    requires Numbered(files, cur)
    ensures UpTo(Existing(files, startId, cur), Some(endId))
         == if endId in files && startId <= endId then Existing(files, startId, endId + 1)
            else Existing(files, startId, cur)
  {
    if endId in files && startId <= endId {
      UpToStored(files, cur, startId, endId);
    } else {
      UpToMissing(files, cur, startId, endId);
    }
  }

  lemma {:induction false} ExistingIds(files: map<int, Event>, cur: int, lo: int, hi: int)
    requires Numbered(files, cur)
    ensures forall e :: e in Existing(files, lo, hi) <==> e.id in files && files[e.id] == e && lo <= e.id < hi
    decreases hi - lo
  {
    if lo < hi {
      ExistingIds(files, cur, lo, hi - 1);
    }
  }

  predicate BoundedSearchesAgree(files: map<int, Event>, cur: int, startId: int, endId: int,
                                 filter: Option<EventFilter>, limit: Option<int>)
  {
    PagedSearch(Existing(files, 0, cur), startId, Some(endId), false, filter, limit)
    == Search(files, startId, endId + 1, false, filter, limit)
  }

  /** With an end_id that exists at or after start, the forward searches agree. */
  lemma PaginationRefinesBoundedSearch(files: map<int, Event>, cur: int, startId: int, endId: int,
                                       filter: Option<EventFilter>, limit: Option<int>)
    requires Numbered(files, cur) && endId in files && startId <= endId
    ensures BoundedSearchesAgree(files, cur, startId, endId, filter, limit)
  {
    AvailableIsScan(files, cur, startId, None, false);
    ForwardUpTo(files, cur, startId, endId);
  }

  lemma AgreeAtTheEnd(files: map<int, Event>, cur: int, startId: int, endId: int,
                      filter: Option<EventFilter>, limit: Option<int>)
    requires Numbered(files, cur) && !(endId in files && startId <= endId)
    requires forall id :: id in files && startId <= id ==> id <= endId
    ensures BoundedSearchesAgree(files, cur, startId, endId, filter, limit)
  {
    AvailableIsScan(files, cur, startId, None, false);
    ForwardUpTo(files, cur, startId, endId);
    NothingAfter(files, cur, startId, endId);
  }

  lemma ScanGoesFurther(files: map<int, Event>, cur: int, startId: int, endId: int, id: int)
    requires Numbered(files, cur) && id in files && startId <= id && endId < id
    ensures Existing(files, startId, cur) != Existing(files, startId, endId + 1)
  {
    ExistingIds(files, cur, startId, cur);
    ExistingIds(files, cur, startId, endId + 1);
    assert files[id] in Existing(files, startId, cur) && files[id] !in Existing(files, startId, endId + 1);
  }

  lemma DifferBeyondTheEnd(files: map<int, Event>, cur: int, startId: int, endId: int, id: int)
    requires Numbered(files, cur) && !(endId in files && startId <= endId)
    requires id in files && startId <= id && endId < id
    ensures !BoundedSearchesAgree(files, cur, startId, endId, None, None)
  {
    AvailableIsScan(files, cur, startId, None, false);
    ForwardUpTo(files, cur, startId, endId);
    ScanGoesFurther(files, cur, startId, endId, id);
    MatchingAll(Existing(files, startId, cur));
    MatchingAll(Existing(files, startId, endId + 1));
  }

  /** The exact line for a forward end_id: the paginated search stops only at the event itself,
      so the two agree if and only if that event is there or nothing comes after it. */
  lemma BoundedSearchesAgreeIff(files: map<int, Event>, cur: int, startId: int, endId: int)
    requires Numbered(files, cur)
    ensures (forall filter, limit :: BoundedSearchesAgree(files, cur, startId, endId, filter, limit))
        <==> (endId in files && startId <= endId) || (forall id :: id in files && startId <= id ==> id <= endId)
  {
    if endId in files && startId <= endId {
      forall filter, limit { PaginationRefinesBoundedSearch(files, cur, startId, endId, filter, limit); }
    } else if id :| id in files && startId <= id && endId < id {
      DifferBeyondTheEnd(files, cur, startId, endId, id);
    } else {
      forall filter, limit { AgreeAtTheEnd(files, cur, startId, endId, filter, limit); }
    }
  }

  lemma {:induction false} MatchingAll(events: seq<Event>)
    ensures Matching(None, events) == events
    decreases |events|
  {
    if events != [] {
      MatchingAll(events[..|events| - 1]);
    }
  }

  lemma NothingAfter(files: map<int, Event>, cur: int, startId: int, endId: int)
    requires Numbered(files, cur)
    requires forall id :: id in files && startId <= id ==> id <= endId
    ensures Existing(files, startId, endId + 1) == Existing(files, startId, cur)
  {
    var lo, hi := if endId + 1 < cur then endId + 1 else cur, if endId + 1 < cur then cur else endId + 1;
    if startId <= lo {
      ExistingSplit(files, startId, lo, hi);
      EmptyRange(files, lo, hi);
    } else {
      EmptyRange(files, startId, hi);
    }
  }

  lemma {:induction false} EmptyRange(files: map<int, Event>, lo: int, hi: int)
    requires forall id :: lo <= id < hi ==> id !in files
    ensures Existing(files, lo, hi) == []
    decreases hi - lo
  {
    if lo < hi {
      EmptyRange(files, lo, hi - 1);
    }
  }

  /** The response of the /events route: one event more than asked for tells whether there is more. */
  function Route(files: map<int, Event>, cur: int, startId: int, endId: Option<int>, reverse: bool, limit: int)
    : (seq<Event>, bool)
  {
    var events := Search(files, startId, if endId.Some? then endId.value + 1 else cur, reverse, None, Some(limit + 1));
    (if 0 <= limit < |events| then events[..limit] else events, limit < |events|)
  }

  /** For every request the client makes, the route answers with a window: the whole of what is
      available, or as much of it as was asked for. */
  lemma RouteAnswersWithWindow(files: map<int, Event>, cur: int, startId: int, endId: Option<int>, reverse: bool,
                               limit: int)
    requires Numbered(files, cur) && 1 <= limit <= 100
    requires endId.Some? ==> endId.value < cur
    ensures var (window, hasMore) := Route(files, cur, startId, endId, reverse, limit);
            var available := Available(Existing(files, 0, cur), startId, endId, reverse);
            && IsWindow(available, Some(limit), window, hasMore)
            && window == if |available| <= limit then available else available[..limit]
  {
    AvailableIsScan(files, cur, startId, endId, reverse);
    var scan := Scan(files, startId, EndOf(endId, cur), reverse);
    MatchingAll(scan);
    assert Search(files, startId, EndOf(endId, cur), reverse, None, Some(limit + 1)) == Limited(scan, Some(limit + 1));
    OneMoreIsWindow(scan, limit);
  }

  lemma OneMoreIsWindow(available: seq<Event>, limit: nat)
    requires 1 <= limit
    ensures var events := Limited(available, Some(limit + 1));
            var window := if limit < |events| then events[..limit] else events;
            && IsWindow(available, Some(limit), window, limit < |events|)
            && window == if |available| <= limit then available else available[..limit]
  {
  }

  /** Asked for no events, the route gives none and says that there are more as long as there is
      one: the cursors of a client with limit 0 stay where they are, and it asks again for ever. */
  lemma ZeroLimitGetsNothing(files: map<int, Event>, cur: int, startId: int, endId: Option<int>, reverse: bool)
    requires Numbered(files, cur)
    requires endId.Some? ==> endId.value < cur
    ensures var (window, hasMore) := Route(files, cur, startId, endId, reverse, 0);
            window == [] && (hasMore <==> Available(Existing(files, 0, cur), startId, endId, reverse) != [])
  {
    AvailableIsScan(files, cur, startId, endId, reverse);
    var scan := Scan(files, startId, EndOf(endId, cur), reverse);
    MatchingAll(scan);
    FirstOnly(scan);
    assert Search(files, startId, EndOf(endId, cur), reverse, None, Some(1)) == Limited(scan, Some(1));
  }

  lemma FirstOnly(events: seq<Event>)
    ensures |Limited(events, Some(1))| == if events == [] then 0 else 1
    ensures Limited(events, Some(1))[..0] == []
  {
  }
}
