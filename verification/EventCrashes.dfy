/** What a crash at a bad moment leaves behind: pages are permanent over every run, so a page that
    was ahead of the event files stays so. */
module EventCrashes {
  import opened Wrappers
  import opened EventStoreSearch
  import opened EventStore
  import opened EventStream
  import opened EventPages

  /*** Stored pages never change. ***/

  /** A page list that add_event can still extend or store. */
  predicate IsLive(s: Log, p: nat) {
    p < |s.pages| && (p == |s.pages| - 1 || exists t :: t in s.writers && s.writers[t].page == p)
  }

  predicate HasFirst(s: Log, p: nat) {
    IsLive(s, p) && s.pages[p] != []
  }

  /** Ids handed out from now on are above the start of the stored page, and only its own list can
      be stored over it. */
  ghost predicate IsFenced(s: Log, start: int) {
    && start in s.cache
    && (exists id :: id in s.files && start <= id)
    && (forall p: nat :: HasFirst(s, p) && s.pages[p][0].id == start ==>
          |s.pages[p]| == s.size && s.pages[p] == s.cache[start])
  }

  predicate WriterHasPage(s: Log, t: ThreadId)
    requires t in s.writers
  {
    var w := s.writers[t];
    0 <= w.event.id && w.page < |s.pages| && s.pages[w.page] != [] && s.pages[w.page][0].id <= w.event.id
  }

  ghost predicate ListsInv(s: Log) {
    && s.pages != [] && |s.pages[|s.pages| - 1]| < s.size
    && (s.curId.Some? ==> 0 <= s.curId.value)
    && (forall t :: t in s.writers ==> WriterHasPage(s, t))
    && (forall p: nat :: HasFirst(s, p) ==>
          |s.pages[p]| <= s.size && s.curId.Some? && s.pages[p][0].id < s.curId.value)
    && (forall p: nat, q: nat :: HasFirst(s, p) && HasFirst(s, q) && s.pages[p][0].id == s.pages[q][0].id ==> p == q)
  }

  ghost predicate FenceInv(s: Log) {
    IdsInv(s) && ListsInv(s) && forall start :: start in s.cache ==> IsFenced(s, start)
  }

  lemma NewIdIsAbove(s: Log, id: int, start: int)
    requires FenceInv(s) && YieldsId(s, id) && start in s.cache
    ensures start < id
  {
    assert IsFenced(s, start);
    var stored :| stored in s.files && start <= stored;
  }

  lemma AppendLists(s: Log, step: Step, p: nat)
    requires FenceInv(s) && Allowed(s, step) && step.Append? && HasFirst(Apply(s, step), p)
    ensures var s' := Apply(s, step);
            && p < |s.pages|
            && (if HasFirst(s, p) then s'.pages[p][0] == s.pages[p][0]
                else p == |s.pages| - 1 && s'.pages[p][0].id == step.id)
            && (p != |s.pages| - 1 ==> HasFirst(s, p) && s'.pages[p] == s.pages[p])
  {
  }

  lemma AppendKeepsLists(s: Log, step: Step)
    requires FenceInv(s) && Allowed(s, step) && step.Append?
    ensures ListsInv(Apply(s, step))
  {
    var s' := Apply(s, step);
    forall t | t in s'.writers ensures WriterHasPage(s', t) {
      if t == step.t {
        assert s.pages[|s.pages| - 1] != [] ==> HasFirst(s, |s.pages| - 1);
      } else {
        assert WriterHasPage(s, t);
      }
    }
    forall p: nat | HasFirst(s', p)
      ensures |s'.pages[p]| <= s'.size && s'.curId.Some? && s'.pages[p][0].id < s'.curId.value
    {
      AppendLists(s, step, p);
    }
    forall p: nat, q: nat | HasFirst(s', p) && HasFirst(s', q) && s'.pages[p][0].id == s'.pages[q][0].id
      ensures p == q
    {
      AppendLists(s, step, p);
      AppendLists(s, step, q);
    }
  }

  lemma AppendKeepsFence(s: Log, step: Step, start: int)
    requires FenceInv(s) && Allowed(s, step) && step.Append? && start in s.cache
    ensures IsFenced(Apply(s, step), start)
  {
    var s' := Apply(s, step);
    assert IsFenced(s, start);
    NewIdIsAbove(s, step.id, start);
    forall p: nat | HasFirst(s', p) && s'.pages[p][0].id == start
      ensures |s'.pages[p]| == s'.size && s'.pages[p] == s'.cache[start]
    {
      AppendLists(s, step, p);
    }
  }

  lemma StoreKeepsFence(s: Log, step: Step, start: int)
    requires FenceInv(s) && Allowed(s, step) && step.StorePage? && start in Apply(s, step).cache
    ensures IsFenced(Apply(s, step), start)
    ensures start in s.cache ==> Apply(s, step).cache[start] == s.cache[start]
  {
    var s' := Apply(s, step);
    var w := s.writers[step.t];
    assert WriterHasPage(s, step.t) && WriterInv(s, step.t) && HasFirst(s, w.page);
    assert start in s.cache ==> IsFenced(s, start);
    forall p: nat | HasFirst(s', p) ensures HasFirst(s, p) {
    }
  }

  lemma StoreKeepsLists(s: Log, step: Step)
    requires FenceInv(s) && Allowed(s, step) && step.StorePage?
    ensures ListsInv(Apply(s, step))
  {
    var s' := Apply(s, step);
    forall p: nat | HasFirst(s', p) ensures HasFirst(s, p) {
    }
    forall t | t in s'.writers ensures WriterHasPage(s', t) {
      assert WriterHasPage(s, t);
    }
  }

  lemma OtherKeepsFences(s: Log, step: Step)
    requires FenceInv(s) && Allowed(s, step) && !step.Append? && !step.StorePage?
    ensures FenceInv(Apply(s, step))
  {
    var s' := Apply(s, step);
    StepKeepsIds(s, step);
    forall p: nat | HasFirst(s', p) ensures HasFirst(s, p) && s'.pages[p] == s.pages[p] {
    }
    forall t | t in s'.writers ensures WriterHasPage(s', t) {
      assert WriterHasPage(s, t);
    }
    forall start | start in s'.cache ensures IsFenced(s', start) {
      assert IsFenced(s, start);
    }
  }

  predicate KeepsPages(s: Log, s': Log) {
    forall start :: start in s.cache ==> start in s'.cache && s'.cache[start] == s.cache[start]
  }

  lemma StepKeepsFences(s: Log, step: Step)
    requires FenceInv(s) && Allowed(s, step)
    ensures FenceInv(Apply(s, step)) && KeepsPages(s, Apply(s, step))
  {
    var s' := Apply(s, step);
    if step.Append? {
      StepKeepsIds(s, step);
      AppendKeepsLists(s, step);
      forall start | start in s'.cache ensures IsFenced(s', start) {
        AppendKeepsFence(s, step, start);
      }
    } else if step.StorePage? {
      StepKeepsIds(s, step);
      StoreKeepsLists(s, step);
      forall start | start in s'.cache
        ensures IsFenced(s', start) && (start in s.cache ==> s'.cache[start] == s.cache[start])
      {
        StoreKeepsFence(s, step, start);
      }
    } else {
      OtherKeepsFences(s, step);
    }
  }

  /** Whatever crashes, and whenever: a stored page stays as it is for ever. */
  lemma {:induction false} StoredPagesArePermanent(s: Log, steps: seq<Step>)
    requires FenceInv(s) && IsRun(s, steps)
    ensures FenceInv(After(s, steps)) && KeepsPages(s, After(s, steps))
    decreases |steps|
  {
    if steps != [] {
      StepKeepsFences(s, steps[0]);
      StoredPagesArePermanent(Apply(s, steps[0]), steps[1..]);
    }
  }

  /*** What a reader of the cache is told. ***/

  function Read(s: Log, id: int): Option<Event> {
    ReadThrough(s.files, s.cache, s.size, id)
  }

  lemma InitialIsFenced(size: PageSize)
    ensures FenceInv(Initial(size)) && PagesInv(Initial(size))
  {
  }

  /** A page around the id that has its event gives it back as long as the page is there. */
  lemma PageIsRead(s: Log, s': Log, id: int)
    requires PagesInv(s) && KeepsPages(s, s') && s'.size == s.size
    requires id - id % s.size in s.cache
    ensures id in s.issued && Read(s', id) == Some(s.issued[id])
  {
    var start := id - id % s.size;
    AlignedStart(id, s.size);
    assert PageAgrees(s.issued, s.cache[start], start, s.size);
  }

  lemma {:induction false} SizeStays(s: Log, steps: seq<Step>)
    requires IsRun(s, steps)
    ensures After(s, steps).size == s.size
    decreases |steps|
  {
    if steps != [] {
      SizeStays(Apply(s, steps[0]), steps[1..]);
    }
  }

  /** The id has no file and no call, and a later one has. */
  predicate IsSkipped(s: Log, id: int) {
    id !in s.files && !InProgress(s, id) && exists later :: later in s.files && id < later
  }

  lemma StepSkips(s: Log, step: Step, id: int)
    requires IdsInv(s) && Allowed(s, step) && IsSkipped(s, id)
    ensures IsSkipped(Apply(s, step), id)
  {
    var s' := Apply(s, step);
    var later :| later in s.files && id < later;
    assert later in s'.files;
    forall t | t in s'.writers ensures s'.writers[t].event.id != id {
      if t in s.writers {
        assert s.writers[t].event.id != id;
      }
    }
  }

  lemma {:induction false} SkippedIdStaysSkipped(s: Log, steps: seq<Step>, id: int)
    requires IdsInv(s) && IsRun(s, steps) && IsSkipped(s, id)
    ensures IsSkipped(After(s, steps), id)
    decreases |steps|
  {
    if steps != [] {
      StepKeepsIds(s, steps[0]);
      StepSkips(s, steps[0], id);
      SkippedIdStaysSkipped(Apply(s, steps[0]), steps[1..], id);
    }
  }

  /** The call is late for the page that readers ask for. */
  predicate IsLateForReaders(s: Log, t: ThreadId) {
    t in s.writers && IsLate(s, t, s.writers[t].event.id - s.writers[t].event.id % s.size)
  }

  lemma PagesSurviveCrash(s: Log, more: seq<Step>)
    requires FenceInv(s) && IsRun(Apply(s, Crash), more)
    ensures KeepsPages(s, After(Apply(s, Crash), more)) && After(Apply(s, Crash), more).size == s.size
  {
    StepKeepsFences(s, Crash);
    StoredPagesArePermanent(Apply(s, Crash), more);
    SizeStays(Apply(s, Crash), more);
  }

  lemma LateCallHasNoFile(s: Log, t: ThreadId)
    requires IdsInv(s) && IsLateForReaders(s, t)
    ensures s.writers[t].event.id !in s.files
    ensures s.writers[t].event.id in s.issued && s.issued[s.writers[t].event.id] == s.writers[t].event
  {
    assert WriterInv(s, t);
  }

  lemma LostEventIsRead(s: Log, t: ThreadId, s': Log)
    requires PagesInv(s) && IsLateForReaders(s, t) && KeepsPages(s, s') && s'.size == s.size
    ensures Read(s', s.writers[t].event.id) == Some(s.writers[t].event)
  {
    PageIsRead(s, s', s.writers[t].event.id);
    LateCallHasNoFile(s, t);
  }

  lemma LostIdIsReissuedOrSkipped(s: Log, lost: int, more: seq<Step>)
    requires IdsInv(s) && 0 <= lost && lost !in s.files && s.writers == map[] && s.curId.None? && IsRun(s, more)
    ensures if forall id :: id in s.files ==> id < lost
            then forall next :: YieldsId(s, next) ==> next <= lost
            else lost !in After(s, more).files
  {
    if id :| id in s.files && id >= lost {
      assert IsSkipped(s, lost);
      SkippedIdStaysSkipped(s, more, lost);
    }
  }

  /** If the process crashes while a call is late for a page that readers ask for, its event has no
      file, and yet every search yields it from then on, over any further run. If no later event has
      a file, the ids handed out start again at its id or below; otherwise it never has a file. */
  lemma LostEventIsReadForGood(size: PageSize, steps: seq<Step>, t: ThreadId, more: seq<Step>)
    requires IsRun(Initial(size), steps) && CrashesSafely(Initial(size), steps)
    requires IsLateForReaders(After(Initial(size), steps), t)
    requires IsRun(Apply(After(Initial(size), steps), Crash), more)
    ensures var s := After(Initial(size), steps);
            var lost := s.writers[t].event;
            var s' := After(Apply(s, Crash), more);
            && lost.id !in s.files && Read(s', lost.id) == Some(lost)
            && (if forall id :: id in s.files ==> id < lost.id
                then forall next :: YieldsId(Apply(s, Crash), next) ==> next <= lost.id
                else lost.id !in s'.files)
  {
    var s := After(Initial(size), steps);
    InitialIsFenced(size);
    RunKeepsPages(Initial(size), steps);
    StoredPagesArePermanent(Initial(size), steps);
    PagesSurviveCrash(s, more);
    LostEventIsRead(s, t, After(Apply(s, Crash), more));
    LateCallHasNoFile(s, t);
    StepKeepsIds(s, Crash);
    assert WriterHasPage(s, t);
    LostIdIsReissuedOrSkipped(Apply(s, Crash), s.writers[t].event.id, more);
  }

  /** The event file says otherwise than the search. */
  predicate IsShadowed(s: Log, id: int) {
    id in s.files && Read(s, id).Some? && Read(s, id).value != s.files[id]
  }

  /** With pages of two, thread 0 stores the page before thread 1 has written its event, the process
      crashes, and the id is given to another event: its file is there, but is never read. */
  lemma LostEventShadowsItsSuccessor()
    ensures exists steps :: IsRun(Initial(2), steps) && IsShadowed(After(Initial(2), steps), 1)
  {
    var steps := PageAheadOfFile();
    steps := Go(2, steps, Crash);
    steps := Go(2, steps, Append(0, 1, "c"));
    steps := Go(2, steps, WriteFile(0));
    var s := After(Initial(2), steps);
    assert s.files[1].payload == "c" && s.cache[0][1].payload == "b";
  }
}
