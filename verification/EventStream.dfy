/** Writing the event log: any number of concurrent add_event calls over one shared page list.

    add_event takes an id, appends to the shared write page and swaps the page when it is full,
    all under a lock; then, without the lock, it writes the event file and stores the page if it
    is full by now.  A stream is opened by reading the highest stored id; it may be reopened, and
    the process may crash with calls in progress. */
module EventStream {
  import opened Wrappers
  import opened EventStoreSearch
  import opened EventStore

  type ThreadId = int

  /** A call of add_event after its locked part: its event, the page list it took a reference to
      (an index into pages) and whether the event file is written. */
  datatype Writer = Writer(event: Event, page: nat, filed: bool)

  /** pages holds every page list ever created, the last being the current write page; issued
      records, for each id, the event it was last given to. */
  datatype Log = Log(
    size: PageSize,
    files: map<int, Event>,
    cache: map<int, seq<Event>>,
    curId: Option<int>,
    pages: seq<seq<Event>>,
    writers: map<ThreadId, Writer>,
    issued: map<int, Event>
  )

  function Initial(size: PageSize): Log {
    Log(size, map[], map[], None, [[]], map[], map[])
  }

  datatype Step =
    | Append(t: ThreadId, id: int, payload: string)  // the locked part of add_event, given id
    | WriteFile(t: ThreadId)
    | StorePage(t: ThreadId)                         // _store_cache_page, the end of add_event
    | ReadCurId(id: int)                             // a search reads cur_id
    | Reopen                                         // a new stream over the same files
    | Crash                                          // all calls in progress are lost, then a new stream

  /** id is what cur_id yields: the cached value, or else the one computed from the files. */
  predicate YieldsId(s: Log, id: int) {
    if s.curId.Some? then s.curId.value == id else IsNextId(s.files.Keys, id)
  }

  predicate Enabled(s: Log, step: Step) {
    match step
    case Append(t, id, _) => s.pages != [] && t !in s.writers && YieldsId(s, id)
    case WriteFile(t) => t in s.writers && !s.writers[t].filed
    case StorePage(t) => t in s.writers && s.writers[t].filed && s.writers[t].page < |s.pages|
    case ReadCurId(id) => YieldsId(s, id)
    case Reopen => true
    case Crash => true
  }

  function Apply(s: Log, step: Step): Log
    requires Enabled(s, step)
  {
    match step
    case Append(t, id, payload) =>
      var event, w := Event(id, payload), |s.pages| - 1;
      var page := s.pages[w] + [event];
      s.(curId := Some(id + 1),
         pages := s.pages[w := page] + (if |page| == s.size then [[]] else []),
         writers := s.writers[t := Writer(event, w, false)],
         issued := s.issued[id := event])
    case WriteFile(t) =>
      var w := s.writers[t];
      s.(files := s.files[w.event.id := w.event], writers := s.writers[t := w.(filed := true)])
    case StorePage(t) =>
      var page := s.pages[s.writers[t].page];
      s.(writers := s.writers - {t},
         cache := if |page| < s.size then s.cache else s.cache[page[0].id := page])
    case ReadCurId(id) => s.(curId := Some(id))
    case Reopen => s.(curId := None, pages := s.pages + [[]])
    case Crash => s.(curId := None, pages := s.pages + [[]], writers := map[], issued := s.files)
  }

  /** A call of add_event that no other step interrupts takes s to s'. */
  predicate Adds(s: Log, s': Log, t: ThreadId, id: int, payload: string) {
    && Enabled(s, Append(t, id, payload))
    && var s1 := Apply(s, Append(t, id, payload));
       Enabled(s1, WriteFile(t)) && Enabled(Apply(s1, WriteFile(t)), StorePage(t))
       && s' == Apply(Apply(s1, WriteFile(t)), StorePage(t))
  }

  /** One live stream at a time: a stream is reopened once its calls have finished. */
  predicate Allowed(s: Log, step: Step) {
    Enabled(s, step) && (step.Reopen? ==> s.writers == map[])
  }

  predicate IsRun(s: Log, steps: seq<Step>)
    decreases |steps|
  {
    steps == [] || (Allowed(s, steps[0]) && IsRun(Apply(s, steps[0]), steps[1..]))
  }

  function After(s: Log, steps: seq<Step>): Log
    requires IsRun(s, steps)
    decreases |steps|
  {
    if steps == [] then s else After(Apply(s, steps[0]), steps[1..])
  }

  /*** No event file is ever overwritten, whatever crashes. ***/

  ghost predicate IdsInv(s: Log) {
    && s.pages != []
    && (forall id :: id in s.files ==> id in s.issued && s.issued[id] == s.files[id] && s.files[id].id == id)
    && (forall t :: t in s.writers ==> WriterInv(s, t))
    && (forall t1, t2 :: t1 in s.writers && t2 in s.writers && s.writers[t1].event.id == s.writers[t2].event.id
          ==> t1 == t2)
    && (forall id :: id in s.issued ==> id in s.files || InProgress(s, id))
    && (s.curId.None? ==> s.writers == map[])
    && (s.curId.Some? ==> forall id :: id in s.issued ==> id < s.curId.value)
  }

  predicate InProgress(s: Log, id: int) {
    exists t :: t in s.writers && s.writers[t].event.id == id
  }

  predicate WriterInv(s: Log, t: ThreadId)
    requires t in s.writers
  {
    var w := s.writers[t];
    && w.event.id in s.issued && s.issued[w.event.id] == w.event
    && (w.filed <==> w.event.id in s.files)
  }

  lemma StepKeepsIds(s: Log, step: Step)
    requires IdsInv(s) && Allowed(s, step)
    ensures IdsInv(Apply(s, step))
  {
    var s' := Apply(s, step);
    forall t | t in s'.writers ensures WriterInv(s', t) {
      assert t in s.writers ==> WriterInv(s, t);
    }
    forall id | id in s'.issued ensures id in s'.files || InProgress(s', id) {
      if step.Append? && id == step.id {
        assert s'.writers[step.t].event.id == id;
      } else if id !in s'.files {
        var t :| t in s.writers && s.writers[t].event.id == id;
        assert WriterInv(s, t);
        assert t in s'.writers && s'.writers[t].event.id == id;
      }
    }
  }

  lemma {:induction false} RunKeepsIds(s: Log, steps: seq<Step>)
    requires IdsInv(s) && IsRun(s, steps)
    ensures IdsInv(After(s, steps))
    decreases |steps|
  {
    if steps != [] {
      StepKeepsIds(s, steps[0]);
      RunKeepsIds(Apply(s, steps[0]), steps[1..]);
    }
  }

  /** Over all runs of concurrent calls, crashes and reopenings, every write of an event file
      creates it, and the id handed out next is above every stored one. */
  lemma NoEventFileOverwritten(size: PageSize, steps: seq<Step>, step: Step)
    requires IsRun(Initial(size), steps) && Allowed(After(Initial(size), steps), step)
    ensures var s := After(Initial(size), steps);
            && (step.WriteFile? ==> s.writers[step.t].event.id !in s.files)
            && (step.Append? ==> forall id :: id in s.files ==> id < step.id)
  {
    RunKeepsIds(Initial(size), steps);
  }

  /** So a stored event stays as it is for ever. */
  lemma {:induction false} EventFilesArePermanent(s: Log, steps: seq<Step>, id: int)
    requires IdsInv(s) && IsRun(s, steps) && id in s.files
    ensures id in After(s, steps).files && After(s, steps).files[id] == s.files[id]
    decreases |steps|
  {
    if steps != [] {
      StepKeepsIds(s, steps[0]);
      EventFilesArePermanent(Apply(s, steps[0]), steps[1..], id);
    }
  }

  /** The ids a run hands out. */
  function Issues(steps: seq<Step>): seq<int> {
    if steps == [] then [] else (if steps[0].Append? then [steps[0].id] else []) + Issues(steps[1..])
  }

  /** Within one stream the ids are consecutive, so distinct and increasing. */
  lemma {:induction false} IdsAreConsecutive(s: Log, steps: seq<Step>)
    requires IsRun(s, steps) && forall i :: 0 <= i < |steps| ==> !steps[i].Reopen? && !steps[i].Crash?
    ensures forall i :: 0 < i < |Issues(steps)| ==> Issues(steps)[i] == Issues(steps)[i - 1] + 1
    ensures Issues(steps) != [] && s.curId.Some? ==> Issues(steps)[0] == s.curId.value
    decreases |steps|
  {
    if steps != [] {
      IdsAreConsecutive(Apply(s, steps[0]), steps[1..]);
    }
  }
}
