/** Reading the event log through its page cache. */
module EventStore {
  import opened Wrappers
  import opened EventStoreSearch

  /** The id after the highest of the ids, or zero if none of them is a valid id. */
  predicate IsNextId(ids: set<int>, next: int) {
    && 0 <= next
    && (forall i :: i in ids ==> i < next)
    && (next == 0 || next - 1 in ids)
  }

  /** The number of events of a page, 25 unless an instance is given another. */
  type PageSize = n: int | 0 < n witness 25

  datatype CachePage = CachePage(events: Option<seq<Event>>, start: int, end: int) {
    predicate Covers(index: int) {
      start <= index < end
    }
  }

  const DUMMY_PAGE := CachePage(None, 1, -1)

  /** Every page a reader can ask for holds the stored events of its ids.  Pages that start
      elsewhere are never read, and a page may be missing. */
  ghost predicate ValidPages(files: map<int, Event>, cache: map<int, seq<Event>>, size: PageSize) {
    forall start :: start in cache && start % size == 0 ==>
      PageAgrees(files, cache[start], start, size)
  }

  ghost predicate PageAgrees(files: map<int, Event>, page: seq<Event>, start: int, size: PageSize) {
    && |page| == size
    && forall id :: start <= id < start + size ==> id in files && files[id] == page[id - start]
  }

  /** Every page a reader can ask for is a whole one. */
  predicate PagesAreWhole(cache: map<int, seq<Event>>, size: PageSize) {
    forall start :: start in cache && start % size == 0 ==> |cache[start]| == size
  }

  /** What a reader is given for an id: the event of the page around it if there is one, whatever the
      files say, and the stored event otherwise. */
  function ReadThrough(files: map<int, Event>, cache: map<int, seq<Event>>, size: PageSize, id: int): Option<Event> {
    var start := id - id % size;
    if start in cache && id - start < |cache[start]| then Some(cache[start][id - start])
    else if id in files then Some(files[id])
    else None
  }

  /** With valid pages, that is the stored event. */
  lemma ValidPagesAreRead(files: map<int, Event>, cache: map<int, seq<Event>>, size: PageSize, id: int)
    requires ValidPages(files, cache, size)
    ensures PagesAreWhole(cache, size)
    ensures ReadThrough(files, cache, size, id) == if id in files then Some(files[id]) else None
  {
    AlignedStart(id, size);
    var start := id - id % size;
    if start in cache {
      assert PageAgrees(files, cache[start], start, size);
    }
  }

  lemma OnlyAlignedStart(index: int, start: int, size: PageSize)
    requires start % size == 0 && start <= index < start + size
    ensures start == index - index % size
  {
    AlignedStart(index, size);
    var aligned := index - index % size;
    var q, r := start / size, aligned / size;
    assert start == size * q && aligned == size * r;
    assert size * (r - q) == aligned - start && size * (q - r) == start - aligned;
    if q < r {
      Multiples(size, r - q);
    } else if r < q {
      Multiples(size, q - r);
    }
  }

  /** Rounding an index down, negative ones included, gives the start of the page around it. */
  lemma AlignedStart(index: int, size: PageSize)
    ensures (index - index % size) % size == 0
    ensures index - index % size <= index < index - index % size + size
  {
    var start := index - index % size;
    var q, d, r := index / size, start / size, start % size;
    assert start == size * q == size * d + r;
    assert size * (q - d) == r;
    Multiples(size, q - d);
  }

  lemma Multiples(size: PageSize, m: int)
    ensures 1 <= m ==> size <= size * m
    ensures m <= -1 ==> size * m + size <= 0
  {
    if 1 <= m {
      assert 0 <= size * (m - 1);
    } else if m <= -1 {
      assert 0 <= size * (-1 - m);
    }
  }

  /** What the first k indices of a range contribute. */
  function Visited(files: map<int, Event>, lo: int, hi: int, reverse: bool, k: int): seq<Event> {
    if reverse then Scan(files, hi - k, hi, true) else Scan(files, lo, lo + k, false)
  }

  lemma VisitNext(files: map<int, Event>, lo: int, hi: int, reverse: bool, k: nat)
    ensures var index := if reverse then hi - 1 - k else lo + k;
            Visited(files, lo, hi, reverse, k + 1) ==
            Visited(files, lo, hi, reverse, k) + if index in files then [files[index]] else []
  {
    if reverse {
      var index := hi - 1 - k;
      ExistingSplit(files, index, index + 1, hi);
      assert Existing(files, index, index) == [];
      ReversedConcat(Existing(files, index, index + 1), Existing(files, index + 1, hi));
    }
  }

  lemma MatchNext(files: map<int, Event>, lo: int, hi: int, reverse: bool, k: nat, filter: Option<EventFilter>)
    ensures var index := if reverse then hi - 1 - k else lo + k;
            Matching(filter, Visited(files, lo, hi, reverse, k + 1)) ==
            Matching(filter, Visited(files, lo, hi, reverse, k)) +
            if index in files && Includes(filter, files[index]) then [files[index]] else []
  {
    var index := if reverse then hi - 1 - k else lo + k;
    VisitNext(files, lo, hi, reverse, k);
    if index in files {
      MatchingConcat(filter, Visited(files, lo, hi, reverse, k), [files[index]]);
      assert [files[index]][..0] == [];
    } else {
      assert Visited(files, lo, hi, reverse, k + 1) == Visited(files, lo, hi, reverse, k);
    }
  }

  lemma VisitedIsPrefix(files: map<int, Event>, lo: int, hi: int, reverse: bool, k: nat)
    requires k <= hi - lo
    ensures Visited(files, lo, hi, reverse, k) <= Scan(files, lo, hi, reverse)
  {
    if reverse {
      ExistingSplit(files, lo, hi - k, hi);
      ReversedConcat(Existing(files, lo, hi - k), Existing(files, hi - k, hi));
    } else {
      ExistingSplit(files, lo, lo + k, hi);
    }
  }

  /** The first results that reach the limit are all the search returns. */
  lemma LimitReached(filter: Option<EventFilter>, limit: Option<int>, visited: seq<Event>, all: seq<Event>)
    requires visited <= all
    requires limit.Some? && limit.value != 0
    requires |Matching(filter, visited)| == if limit.value < 0 then 1 else limit.value
    ensures Limited(Matching(filter, all), limit) == Matching(filter, visited)
  {
    assert all == visited + all[|visited|..];
    MatchingConcat(filter, visited, all[|visited|..]);
  }

  lemma StopsAtLimit(files: map<int, Event>, lo: int, hi: int, reverse: bool, k: nat,
                     filter: Option<EventFilter>, limit: Option<int>)
    requires k <= hi - lo && limit.Some? && limit.value != 0
    requires |Matching(filter, Visited(files, lo, hi, reverse, k))| == if limit.value < 0 then 1 else limit.value
    ensures Matching(filter, Visited(files, lo, hi, reverse, k)) == Search(files, lo, hi, reverse, filter, limit)
  {
    VisitedIsPrefix(files, lo, hi, reverse, k);
    LimitReached(filter, limit, Visited(files, lo, hi, reverse, k), Scan(files, lo, hi, reverse));
  }

  lemma StopsAtEnd(files: map<int, Event>, lo: int, hi: int, reverse: bool, k: nat,
                   filter: Option<EventFilter>, limit: Option<int>)
    requires k == if lo <= hi then hi - lo else 0
    requires limit.Some? && limit.value != 0 ==>
      |Matching(filter, Visited(files, lo, hi, reverse, k))| < if limit.value < 0 then 1 else limit.value
    ensures Matching(filter, Visited(files, lo, hi, reverse, k)) == Search(files, lo, hi, reverse, filter, limit)
  {
  }

  class EventStore {
    var files: map<int, Event>         // events/<id>.json
    var cache: map<int, seq<Event>>    // event_cache/<start>-<end>.json
    const cacheSize: PageSize
    var curIdCached: Option<int>

    constructor (files: map<int, Event>, cache: map<int, seq<Event>>, cacheSize: PageSize)
      ensures this.files == files && this.cache == cache && this.cacheSize == cacheSize && curIdCached == None
    {
      this.files, this.cache, this.cacheSize, curIdCached := files, cache, cacheSize, None;
    }

    /** The loop of _calculate_cur_id over the names in the events directory, in any order. */
    method CalculateCurId(listing: seq<int>) returns (next: int)
      ensures IsNextId((set i | i in listing), next)
    {
      if listing == [] {
        return 0;
      }
      var maxId := -1;
      for i := 0 to |listing|
        invariant -1 <= maxId
        invariant forall j :: 0 <= j < i ==> listing[j] <= maxId
        invariant maxId == -1 || maxId in listing[..i]
      {
        if listing[i] >= maxId {
          maxId := listing[i];
        }
      }
      next := maxId + 1;
    }

    /** The cur_id property: computed on the first read, cached from then on. */
    method CurId(listing: seq<int>) returns (id: int)
      requires (set i | i in listing) == files.Keys
      modifies `curIdCached
      ensures curIdCached == Some(id)
      ensures if old(curIdCached).Some? then id == old(curIdCached).value else IsNextId(files.Keys, id)
    {
      if curIdCached.None? {
        id := CalculateCurId(listing);
        curIdCached := Some(id);
      } else {
        id := curIdCached.value;
      }
    }

    ghost predicate PageLoaded(page: CachePage)
      reads this
    {
      || page == DUMMY_PAGE
      || (page.start % cacheSize == 0 && page.end == page.start + cacheSize
          && page.events == if page.start in cache then Some(cache[page.start]) else None)
    }

    method LoadCachePageForIndex(index: int) returns (page: CachePage)
      ensures PageLoaded(page) && page.Covers(index)
    {
      var offset := index % cacheSize;
      AlignedStart(index, cacheSize);
      var start := index - offset;
      page := CachePage(if start in cache then Some(cache[start]) else None, start, start + cacheSize);
    }

    /** The event of an index, from the page if there is one and from its file otherwise. */
    method ReadEvent(page: CachePage, index: int) returns (event: Option<Event>)
      requires PagesAreWhole(cache, cacheSize)
      requires PageLoaded(page) && page.Covers(index)
      ensures event == ReadThrough(files, cache, cacheSize, index)
      ensures ValidPages(files, cache, cacheSize) ==> event == if index in files then Some(files[index]) else None
    {
      if ValidPages(files, cache, cacheSize) {
        ValidPagesAreRead(files, cache, cacheSize, index);
      }
      OnlyAlignedStart(index, page.start, cacheSize);
      if page.events.Some? && page.events.value != [] {
        assert page.start in cache;
        event := Some(page.events.value[index - page.start]);
      } else if index in files {
        event := Some(files[index]);
      } else {
        event := None;
      }
    }

    /** Reads an index, loading its page first unless the page at hand covers it. */
    method EventAt(page: CachePage, index: int) returns (covering: CachePage, event: Option<Event>)
      requires PagesAreWhole(cache, cacheSize) && PageLoaded(page)
      ensures PageLoaded(covering)
      ensures event == ReadThrough(files, cache, cacheSize, index)
    {
      covering := page;
      if !page.Covers(index) {
        covering := LoadCachePageForIndex(index);
      }
      event := ReadEvent(covering, index);
    }

    /** search_events: with valid pages, whichever of them are present, the results are those of
        the naive scan. */
    method SearchEvents(startId: int, endId: Option<int>, reverse: bool,
                        filter: Option<EventFilter>, limit: Option<int>, listing: seq<int>)
      returns (results: seq<Event>)
      requires ValidPages(files, cache, cacheSize)
      requires (set i | i in listing) == files.Keys
      modifies `curIdCached
      ensures endId.Some? ==>
        results == Search(files, startId, endId.value + 1, reverse, filter, limit)
        && curIdCached == old(curIdCached)
      ensures endId.None? ==>
        && curIdCached.Some?
        && results == Search(files, startId, curIdCached.value, reverse, filter, limit)
        && if old(curIdCached).Some? then curIdCached == old(curIdCached)
           else IsNextId(files.Keys, curIdCached.value)
    {
      var end;
      if endId.None? {
        end := CurId(listing);
      } else {
        end := endId.value + 1;  // from inclusive to exclusive
      }
      results := SearchRange(startId, end, reverse, filter, limit);
    }

    /** The loop of search_events over range(start, end), or over that range backwards. */
    method SearchRange(startId: int, end: int, reverse: bool,
                       filter: Option<EventFilter>, limit: Option<int>)
      returns (results: seq<Event>)
      requires ValidPages(files, cache, cacheSize)
      ensures results == Search(files, startId, end, reverse, filter, limit)
    {
      var index, stop, step := startId, end, 1;
      if reverse {
        index, stop, step := end - 1, startId - 1, -1;
      }

      ghost var k := 0;
      var page := DUMMY_PAGE;
      var numResults := 0;
      results := [];
      while if reverse then index > stop else index < stop
        invariant 0 <= k && (startId <= end ==> k <= end - startId)
        invariant index == if reverse then end - 1 - k else startId + k
        invariant k == 0 || k <= end - startId
        invariant PageLoaded(page)
        invariant results == Matching(filter, Visited(files, startId, end, reverse, k))
        invariant numResults == |results|
        invariant limit.Some? && limit.value != 0 ==>
          numResults < if limit.value < 0 then 1 else limit.value
        decreases if reverse then index - stop else stop - index
      {
        var event;
        ValidPagesAreRead(files, cache, cacheSize, index);
        page, event := EventAt(page, index);
        MatchNext(files, startId, end, reverse, k, filter);
        k := k + 1;
        if event.Some? {
          if Includes(filter, event.value) {
            results := results + [event.value];
            numResults := numResults + 1;
            if limit.Some? && limit.value != 0 && limit.value <= numResults {
              StopsAtLimit(files, startId, end, reverse, k, filter, limit);
              return;
            }
          }
        }
        index := index + step;
      }
      StopsAtEnd(files, startId, end, reverse, k, filter, limit);
    }
  }
}
