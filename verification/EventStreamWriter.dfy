/** add_event itself: an object whose calls share one page list by reference.

    A call keeps a reference to the write page it appended to, so a page that other calls fill
    after it has left the lock is the page it stores.  Each segment of the call is proved to be
    the corresponding step of EventStream. */
module EventStreamWriter {
  import opened Wrappers
  import opened EventStoreSearch
  import opened EventStore
  import Protocol = EventStream

  /** A Python list of event dictionaries, appended to in place. */
  class PageList {
    var events: seq<Event>

    constructor ()
      ensures events == []
    {
      events := [];
    }
  }

  class EventStream {
    const cacheSize: PageSize
    var files: map<int, Event>
    var cache: map<int, seq<Event>>
    var curId: Option<int>
    var writePage: PageList
    ghost var lists: seq<PageList>                                    // every list of this stream, in order
    ghost var writers: map<Protocol.ThreadId, Protocol.Writer>        // the calls in progress
    ghost var issued: map<int, Event>

    ghost predicate Valid()
      reads this
    {
      && lists != [] && writePage == lists[|lists| - 1]
      && forall i, j :: 0 <= i < j < |lists| ==> lists[i] != lists[j]
    }

    ghost function View(): Protocol.Log
      reads this, lists
    {
      Protocol.Log(cacheSize, files, cache, curId, Contents(lists), writers, issued)
    }

    static ghost function Contents(lists: seq<PageList>): (pages: seq<seq<Event>>)
      reads lists
      ensures |pages| == |lists|
      ensures forall i :: 0 <= i < |lists| ==> pages[i] == lists[i].events
    {
      seq(|lists|, i requires 0 <= i < |lists| reads lists => lists[i].events)
    }

    constructor (cacheSize: PageSize, files: map<int, Event>, cache: map<int, seq<Event>>)
      ensures Valid() && fresh(writePage)
      ensures View() == Protocol.Initial(cacheSize).(files := files, cache := cache, issued := files)
    {
      this.cacheSize, this.files, this.cache, curId := cacheSize, files, cache, None;
      var page := new PageList();
      writePage, lists, writers, issued := page, [page], map[], files;
      new;
      assert Contents(lists) == [[]];
    }

    /** Reading cur_id. */
    method NextId(listing: seq<int>) returns (id: int)
      requires (set i | i in listing) == files.Keys
      ensures Protocol.YieldsId(View(), id)
    {
      if curId.Some? {
        id := curId.value;
      } else {
        var store := new EventStore(files, cache, cacheSize);
        id := store.CalculateCurId(listing);
      }
    }

    /** The part of add_event under the lock. */
    method AppendLocked(ghost t: Protocol.ThreadId, payload: string, listing: seq<int>)
      returns (event: Event, page: PageList)
      requires Valid() && t !in writers && (set i | i in listing) == files.Keys
      modifies this, writePage
      ensures Valid() && page == old(writePage)
      ensures old(lists) <= lists && page == lists[|old(lists)| - 1]
      ensures Protocol.Enabled(old(View()), Protocol.Append(t, event.id, payload))
      ensures View() == Protocol.Apply(old(View()), Protocol.Append(t, event.id, payload))
      ensures event == Event(event.id, payload)
    {
      var id := NextId(listing);
      event := Event(id, payload);
      page := AppendNumbered(t, event);
    }

    /** The page lists with one event more. */
    static ghost function Appended(pages: seq<seq<Event>>, event: Event, size: PageSize): seq<seq<Event>>
      requires pages != []
    {
      var w := |pages| - 1;
      var page := pages[w] + [event];
      pages[w := page] + (if |page| == size then [[]] else [])
    }

    /** The rest of the locked part, once the id is known. */
    method AppendNumbered(ghost t: Protocol.ThreadId, event: Event) returns (page: PageList)
      requires Valid() && t !in writers && Protocol.YieldsId(View(), event.id)
      modifies this, writePage
      ensures Valid() && page == old(writePage)
      ensures old(lists) <= lists && page == lists[|old(lists)| - 1]
      ensures View() == Protocol.Apply(old(View()), Protocol.Append(t, event.id, event.payload))
    {
      ghost var before := View();
      page := AppendToPage(event);
      AppendIs(before, t, event);
      Issue(t, event, |before.pages| - 1);
    }

    /** The id is taken, and the call is in progress. */
    method Issue(ghost t: Protocol.ThreadId, event: Event, ghost page: nat)
      requires Valid()
      modifies `curId, `writers, `issued
      ensures Valid()
      ensures View() == old(View()).(curId := Some(event.id + 1), issued := old(issued)[event.id := event],
                                     writers := old(writers)[t := Protocol.Writer(event, page, false)])
    {
      curId := Some(event.id + 1);
      writers := writers[t := Protocol.Writer(event, page, false)];
      issued := issued[event.id := event];
    }

    /** The state after the locked part, field by field. */
    static lemma AppendIs(s: Protocol.Log, t: Protocol.ThreadId, event: Event)
      requires Protocol.Enabled(s, Protocol.Append(t, event.id, event.payload))
      ensures Protocol.Apply(s, Protocol.Append(t, event.id, event.payload))
           == s.(curId := Some(event.id + 1), pages := Appended(s.pages, event, s.size),
                 writers := s.writers[t := Protocol.Writer(event, |s.pages| - 1, false)],
                 issued := s.issued[event.id := event])
    {
      assert Event(event.id, event.payload) == event;
    }

    /** Appends to the write page, and swaps in a new one if that fills it. */
    method AppendToPage(event: Event) returns (page: PageList)
      requires Valid()
      modifies `writePage, `lists, writePage
      ensures Valid() && page == old(writePage)
      ensures old(lists) <= lists && page == lists[|old(lists)| - 1]
      ensures Contents(lists) == Appended(old(Contents(lists)), event, cacheSize)
    {
      page := writePage;
      page.events := page.events + [event];
      assert Contents(lists) == old(Contents(lists))[|lists| - 1 := page.events];
      if |page.events| == cacheSize {
        ghost var filled := Contents(lists);
        var next := new PageList();
        writePage := next;
        lists := lists + [next];
        assert Contents(lists) == filled + [[]];
      }
    }

    /** The write of the event file. */
    method WriteEventFile(ghost t: Protocol.ThreadId, event: Event)
      requires Valid() && t in writers && writers[t].event == event && !writers[t].filed
      modifies `files, `writers
      ensures Valid() && View() == Protocol.Apply(old(View()), Protocol.WriteFile(t))
    {
      files := files[event.id := event];
      writers := writers[t := writers[t].(filed := true)];
    }

    /** _store_cache_page, on the list the call took a reference to. */
    method StoreCachePage(ghost t: Protocol.ThreadId, page: PageList)
      requires Valid() && t in writers && writers[t].filed
      requires writers[t].page < |lists| && page == lists[writers[t].page]
      modifies `cache, `writers
      ensures Valid() && View() == Protocol.Apply(old(View()), Protocol.StorePage(t))
    {
      writers := writers - {t};
      if |page.events| < cacheSize {
        return;
      }
      cache := cache[page.events[0].id := page.events];
    }

    /** A whole call that no other call interrupts; an event that already has an id is refused. */
    method AddEvent(ghost t: Protocol.ThreadId, presetId: int, payload: string, listing: seq<int>)
      returns (added: bool)
      requires Valid() && t !in writers && (set i | i in listing) == files.Keys
      modifies this, writePage
      ensures Valid() && added == (presetId == -1)
      ensures !added ==> View() == old(View())
      ensures added ==> exists id :: Protocol.Adds(old(View()), View(), t, id, payload)
    {
      if presetId != -1 {
        return false;
      }
      var event, page := AppendLocked(t, payload, listing);
      WriteEventFile(t, event);
      StoreCachePage(t, page);
      assert Protocol.Adds(old(View()), View(), t, event.id, payload);
      added := true;
    }
  }
}
