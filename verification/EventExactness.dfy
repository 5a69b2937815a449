/** What searching and writing the event log come to, event by event. */
module EventExactness {
  import opened Wrappers
  import opened MinMax
  import opened EventStoreSearch
  import opened EventStore
  import opened EventStream
  import NestedEventStore

  /*** Searching. ***/

  /** Every file holds the event of its own id. */
  ghost predicate FilesOk(files: map<int, Event>) {
    forall id :: id in files ==> files[id].id == id
  }

  predicate IdsIncrease(events: seq<Event>) {
    forall i, j :: 0 <= i < j < |events| ==> events[i].id < events[j].id
  }

  lemma {:induction false} ExistingIs(files: map<int, Event>, lo: int, hi: int)
    requires FilesOk(files)
    ensures forall e :: e in Existing(files, lo, hi) <==> lo <= e.id < hi && e.id in files && files[e.id] == e
    ensures IdsIncrease(Existing(files, lo, hi))
    decreases hi - lo
  {
    if lo < hi {
      ExistingIs(files, lo, hi - 1);
    }
  }

  lemma {:induction false} MatchingIs(filter: Option<EventFilter>, events: seq<Event>)
    ensures forall e :: e in Matching(filter, events) <==> e in events && (filter.Some? ==> filter.value(e))
    ensures IdsIncrease(events) ==> IdsIncrease(Matching(filter, events))
    decreases |events|
  {
    if events != [] {
      var front := events[..|events| - 1];
      MatchingIs(filter, front);
      assert events == front + [events[|events| - 1]];
      if IdsIncrease(events) {
        forall e | e in Matching(filter, front) ensures e.id < events[|events| - 1].id {
          var i :| 0 <= i < |front| && front[i] == e;
          assert events[i] == e;
        }
      }
    }
  }

  /** An unlimited forward search yields exactly the stored events of the range that the filter
      includes, in the order of their ids. */
  lemma SearchIsExact(files: map<int, Event>, lo: int, hi: int, filter: Option<EventFilter>)
    requires FilesOk(files)
    ensures var found := Search(files, lo, hi, false, filter, None);
            && IdsIncrease(found)
            && forall e :: e in found <==> && lo <= e.id < hi && e.id in files && files[e.id] == e
                                           && (filter.Some? ==> filter.value(e))
  {
    ExistingIs(files, lo, hi);
    MatchingIs(filter, Existing(files, lo, hi));
  }

  /** A limited search yields the first events of the unlimited one: as many as the limit says, all if
      it is zero, and one if it is negative. */
  lemma LimitIsPrefix(files: map<int, Event>, lo: int, hi: int, reverse: bool, filter: Option<EventFilter>, limit: int)
    ensures var all := Search(files, lo, hi, reverse, filter, None);
            var found := Search(files, lo, hi, reverse, filter, Some(limit));
            && found <= all
            && |found| == if limit > 0 then Min(limit, |all|) else if limit == 0 then |all| else Min(1, |all|)
  {
  }

  /** The paginated search sees the events up to the one with end_id, or all if there is none. */
  lemma {:induction false} UpToIs(events: seq<Event>, endId: Option<int>)
    ensures var seen := NestedEventStore.UpTo(events, endId);
            && seen <= events
            && (forall i :: 0 <= i < |seen| - 1 ==> endId != Some(seen[i].id))
            && (|seen| < |events| ==> seen != [] && endId == Some(seen[|seen| - 1].id))
  {
    if events != [] && endId != Some(events[0].id) {
      var rest := NestedEventStore.UpTo(events[1..], endId);
      UpToIs(events[1..], endId);
      var seen := NestedEventStore.UpTo(events, endId);
      assert seen == [events[0]] + rest;
      assert forall i :: 0 < i < |seen| ==> seen[i] == rest[i - 1];
      assert events == [events[0]] + events[1..];
    }
  }

  /*** Writing. ***/

  /** A call that nothing interrupts stores its event under the id it was given, and no other. */
  lemma AddedEventIs(s: Log, s': Log, t: ThreadId, id: int, payload: string)
    requires Adds(s, s', t, id, payload)
    ensures s'.files == s.files[id := Event(id, payload)] && s'.curId == Some(id + 1)
    ensures s'.writers == s.writers && s'.issued == s.issued[id := Event(id, payload)]
  {
    assert s'.writers == s.writers;
  }

  /** A call may begin with the id that cur_id yields; it writes its file, then stores its page; and at
      any time the process may crash, or a stream be opened once no call is in progress. */
  lemma StepsArePossible(s: Log, t: ThreadId, id: int, payload: string)
    requires s.pages != [] && (t in s.writers ==> s.writers[t].page < |s.pages|)
    ensures Allowed(s, Append(t, id, payload)) <==> t !in s.writers && YieldsId(s, id)
    ensures Allowed(s, WriteFile(t)) <==> t in s.writers && !s.writers[t].filed
    ensures Allowed(s, StorePage(t)) <==> t in s.writers && s.writers[t].filed
    ensures Allowed(s, Crash) && (Allowed(s, Reopen) <==> s.writers == map[])
  {
  }

  /** The call has yet to store its page. */
  predicate IsStoring(s: Log, p: nat) {
    exists t :: t in s.writers && s.writers[t].page == p
  }

  predicate IsStored(s: Log, p: nat)
    requires p < |s.pages|
  {
    s.pages[p] != [] && s.pages[p][0].id in s.cache
  }

  ghost predicate FullAreStored(s: Log) {
    && (forall p :: 0 <= p < |s.pages| && |s.pages[p]| >= s.size ==> IsStoring(s, p) || IsStored(s, p))
    && (forall t :: t in s.writers ==> s.writers[t].page < |s.pages|)
  }

  lemma AppendKeepsFull(s: Log, step: Step)
    requires FullAreStored(s) && Allowed(s, step) && step.Append?
    ensures FullAreStored(Apply(s, step))
  {
    var s' := Apply(s, step);
    var w := |s.pages| - 1;
    assert step.t in s'.writers && s'.writers[step.t].page == w;
    forall p | 0 <= p < |s'.pages| && |s'.pages[p]| >= s'.size ensures IsStoring(s', p) || IsStored(s', p) {
      if p < w {
        assert s'.pages[p] == s.pages[p];
        if IsStoring(s, p) {
          var t :| t in s.writers && s.writers[t].page == p;
          assert t in s'.writers && s'.writers[t].page == p;
        }
      }
    }
  }

  lemma StoreKeepsFull(s: Log, step: Step)
    requires FullAreStored(s) && Allowed(s, step) && step.StorePage?
    ensures FullAreStored(Apply(s, step))
  {
    var s' := Apply(s, step);
    forall p | 0 <= p < |s'.pages| && |s'.pages[p]| >= s'.size ensures IsStoring(s', p) || IsStored(s', p) {
      if p != s.writers[step.t].page && IsStoring(s, p) {
        var t :| t in s.writers && s.writers[t].page == p;
        assert t in s'.writers && s'.writers[t].page == p;
      }
    }
  }

  lemma StepKeepsFull(s: Log, step: Step)
    requires FullAreStored(s) && Allowed(s, step) && !step.Crash?
    ensures FullAreStored(Apply(s, step))
  {
    match step
    case Append(_, _, _) => AppendKeepsFull(s, step);
    case StorePage(_) => StoreKeepsFull(s, step);
    case WriteFile(t) =>
      var s' := Apply(s, step);
      forall p | 0 <= p < |s.pages| && IsStoring(s, p) ensures IsStoring(s', p) {
        var u :| u in s.writers && s.writers[u].page == p;
        assert u in s'.writers && s'.writers[u].page == p;
      }
    case ReadCurId(_) => OthersKeepFull(s, step);
    case Reopen => OthersKeepFull(s, step);
  }

  lemma OthersKeepFull(s: Log, step: Step)
    requires FullAreStored(s) && Allowed(s, step) && (step.ReadCurId? || step.Reopen?)
    ensures FullAreStored(Apply(s, step))
  {
    var s' := Apply(s, step);
    forall p | 0 <= p < |s'.pages| && |s'.pages[p]| >= s'.size ensures IsStoring(s', p) || IsStored(s', p) {
      assert p < |s.pages| && s'.pages[p] == s.pages[p];
      assert IsStoring(s, p) ==> IsStoring(s', p);
    }
  }

  lemma {:induction false} RunKeepsFull(s: Log, steps: seq<Step>)
    requires FullAreStored(s) && IsRun(s, steps) && forall i :: 0 <= i < |steps| ==> !steps[i].Crash?
    ensures FullAreStored(After(s, steps))
    decreases |steps|
  {
    if steps != [] {
      StepKeepsFull(s, steps[0]);
      RunKeepsFull(Apply(s, steps[0]), steps[1..]);
    }
  }

  /** Over every run without a crash, once no call is in progress, every page list that is full has
      been stored, under the id of its first event. */
  lemma FullPagesAreStored(size: PageSize, steps: seq<Step>)
    requires IsRun(Initial(size), steps) && forall i :: 0 <= i < |steps| ==> !steps[i].Crash?
    ensures var s := After(Initial(size), steps);
            s.writers == map[] ==>
              forall p :: 0 <= p < |s.pages| && |s.pages[p]| >= s.size ==>
                s.pages[p] != [] && s.pages[p][0].id in s.cache
  {
    RunKeepsFull(Initial(size), steps);
    var s := After(Initial(size), steps);
    if s.writers == map[] {
      forall p | 0 <= p < |s.pages| && |s.pages[p]| >= s.size ensures s.pages[p] != [] && s.pages[p][0].id in s.cache {
        assert !IsStoring(s, p) && (IsStoring(s, p) || IsStored(s, p));
      }
    }
  }
}
