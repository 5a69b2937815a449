/** The page cache of the event log agrees with the events, under every interleaving. */
module EventPages {
  import opened Wrappers
  import opened EventStoreSearch
  import opened EventStore
  import opened EventStream

  /** The call has still to write the file of an event of that page, which another thread stored. */
  predicate IsLate(s: Log, t: ThreadId, start: int) {
    && t in s.writers && !s.writers[t].filed
    && start in s.cache && start <= s.writers[t].event.id < start + s.size
  }

  /** No call in progress is late for a stored page. */
  ghost predicate SafeToCrash(s: Log) {
    forall t, start :: !IsLate(s, t, start)
  }

  /** No crash of the run strikes between the store of a page and the write of one of its files. */
  ghost predicate CrashesSafely(s: Log, steps: seq<Step>)
    requires IsRun(s, steps)
    decreases |steps|
  {
    steps == [] || ((steps[0].Crash? ==> SafeToCrash(s)) && CrashesSafely(Apply(s, steps[0]), steps[1..]))
  }

  /** A page list holds the events issued from its first id on, each at index id - start. */
  predicate PageHolds(s: Log, page: seq<Event>) {
    && |page| <= s.size
    && forall i :: 0 <= i < |page| ==>
         var id := page[0].id + i;
         page[i].id == id && id in s.issued && s.issued[id] == page[i]
  }

  ghost predicate PagesInv(s: Log) {
    IdsInv(s) && PagesOk(s)
  }

  ghost predicate PagesOk(s: Log) {
    && s.pages != []
    && |s.pages[|s.pages| - 1]| < s.size
    && PageHolds(s, s.pages[|s.pages| - 1])
    && (s.pages[|s.pages| - 1] != [] ==> s.curId == Some(s.pages[|s.pages| - 1][0].id + |s.pages[|s.pages| - 1]|))
    && (forall t :: t in s.writers ==>
          s.writers[t].page < |s.pages| && PageHolds(s, s.pages[s.writers[t].page]))
    && (forall start :: start in s.cache ==> PageAgrees(s.issued, s.cache[start], start, s.size))
  }

  /** Issuing a fresh id disturbs no page. */
  lemma HoldsAfterIssue(s: Log, t: Log, page: seq<Event>)
    requires PageHolds(s, page) && t.size == s.size
    requires forall id :: id in s.issued ==> id in t.issued && t.issued[id] == s.issued[id]
    ensures PageHolds(t, page)
  {
  }

  lemma HoldsOneMore(t: Log, page: seq<Event>, event: Event)
    requires PageHolds(t, page) && |page| < t.size
    requires page != [] ==> event.id == page[0].id + |page|
    requires event.id in t.issued && t.issued[event.id] == event
    ensures PageHolds(t, page + [event])
  {
    var longer := page + [event];
    forall i | 0 <= i < |longer|
      ensures longer[i].id == longer[0].id + i && longer[i].id in t.issued && t.issued[longer[i].id] == longer[i] {
      if i < |page| {
        assert longer[i] == page[i] && longer[0] == page[0];
      }
    }
  }

  lemma AppendedIdIsNew(s: Log, step: Step)
    requires PagesInv(s) && Allowed(s, step) && step.Append?
    ensures step.id !in s.issued
    ensures s.pages[|s.pages| - 1] != [] ==> step.id == s.pages[|s.pages| - 1][0].id + |s.pages[|s.pages| - 1]|
  {
  }

  lemma AppendExtendsPage(s: Log, step: Step)
    requires PagesInv(s) && Allowed(s, step) && step.Append?
    ensures var s' := Apply(s, step);
            var w := |s.pages| - 1;
            step.id !in s.issued && PageHolds(s', s'.pages[w]) && PageHolds(s', s'.pages[|s'.pages| - 1])
  {
    var s' := Apply(s, step);
    var w := |s.pages| - 1;
    AppendedIdIsNew(s, step);
    HoldsAfterIssue(s, s', s.pages[w]);
    HoldsOneMore(s', s.pages[w], Event(step.id, step.payload));
  }

  /** Every call in progress still refers to a page that holds issued events. */
  lemma AppendKeepsReferences(s: Log, step: Step)
    requires PagesInv(s) && Allowed(s, step) && step.Append?
    ensures var s' := Apply(s, step);
            forall t :: t in s'.writers ==>
              s'.writers[t].page < |s'.pages| && PageHolds(s', s'.pages[s'.writers[t].page])
  {
    var s' := Apply(s, step);
    AppendExtendsPage(s, step);
    forall t | t in s'.writers
      ensures s'.writers[t].page < |s'.pages| && PageHolds(s', s'.pages[s'.writers[t].page])
    {
      if s'.writers[t].page != |s.pages| - 1 {
        HoldsAfterIssue(s, s', s.pages[s.writers[t].page]);
      }
    }
  }

  /** The new write page is short, and the next id is the one behind it. */
  lemma AppendLeavesRoom(s: Log, step: Step)
    requires PagesInv(s) && Allowed(s, step) && step.Append?
    ensures var s' := Apply(s, step);
            var last := s'.pages[|s'.pages| - 1];
            |last| < s'.size && (last != [] ==> s'.curId == Some(last[0].id + |last|))
  {
    AppendedIdIsNew(s, step);
  }

  lemma AppendKeepsPages(s: Log, step: Step)
    requires PagesInv(s) && Allowed(s, step) && step.Append?
    ensures PagesInv(Apply(s, step))
  {
    StepKeepsIds(s, step);
    AppendExtendsPage(s, step);
    AppendKeepsReferences(s, step);
    AppendLeavesRoom(s, step);
    IssueKeepsAgreement(s.issued, s.cache, s.size, Apply(s, step).issued);
  }

  lemma IssueKeepsAgreement(issued: map<int, Event>, cache: map<int, seq<Event>>, size: PageSize, more: map<int, Event>)
    requires forall start :: start in cache ==> PageAgrees(issued, cache[start], start, size)
    requires forall id :: id in issued ==> id in more && more[id] == issued[id]
    ensures forall start :: start in cache ==> PageAgrees(more, cache[start], start, size)
  {
  }

  lemma FullPageAgrees(s: Log, page: seq<Event>)
    requires PageHolds(s, page) && |page| == s.size
    ensures PageAgrees(s.issued, page, page[0].id, s.size)
  {
    forall id | page[0].id <= id < page[0].id + s.size
      ensures id in s.issued && s.issued[id] == page[id - page[0].id] {
      assert page[id - page[0].id].id == id;
    }
  }

  lemma StoreKeepsAgreement(s: Log, step: Step, start: int)
    requires PagesInv(s) && Allowed(s, step) && step.StorePage? && start in Apply(s, step).cache
    ensures PageAgrees(s.issued, Apply(s, step).cache[start], start, s.size)
  {
    var page := s.pages[s.writers[step.t].page];
    assert PageHolds(s, page);
    if |page| == s.size && start == page[0].id {
      FullPageAgrees(s, page);
    } else {
      assert PageAgrees(s.issued, s.cache[start], start, s.size);
    }
  }

  lemma HoldsInBoth(s: Log, t: Log, page: seq<Event>)
    requires PageHolds(s, page) && t.size == s.size && t.issued == s.issued
    ensures PageHolds(t, page)
  {
  }

  /** A stored page is the issued events of its ids, whichever thread stores it. */
  lemma StoreKeepsPages(s: Log, step: Step)
    requires PagesInv(s) && Allowed(s, step) && step.StorePage?
    ensures PagesInv(Apply(s, step))
  {
    var s' := Apply(s, step);
    StepKeepsIds(s, step);
    HoldsInBoth(s, s', s.pages[|s.pages| - 1]);
    forall t | t in s'.writers
      ensures s'.writers[t].page < |s'.pages| && PageHolds(s', s'.pages[s'.writers[t].page]) {
      HoldsInBoth(s, s', s.pages[s.writers[t].page]);
    }
    forall start | start in s'.cache ensures PageAgrees(s'.issued, s'.cache[start], start, s'.size) {
      StoreKeepsAgreement(s, step, start);
    }
  }

  /** An event of a stored page has its file, or the call that has to write it is late. */
  lemma FiledUnlessLate(s: Log, start: int, id: int)
    requires PagesInv(s) && start in s.cache && start <= id < start + s.size
    ensures id in s.files || exists t :: IsLate(s, t, start) && s.writers[t].event.id == id
  {
    assert PageAgrees(s.issued, s.cache[start], start, s.size);
    if id !in s.files {
      assert InProgress(s, id);
      var t :| t in s.writers && s.writers[t].event.id == id;
      assert WriterInv(s, t) && IsLate(s, t, start);
    }
  }

  lemma PageWithoutLateCallsAgrees(s: Log, start: int)
    requires PagesInv(s) && start in s.cache && forall t :: !IsLate(s, t, start)
    ensures PageAgrees(s.files, s.cache[start], start, s.size)
  {
    assert PageAgrees(s.issued, s.cache[start], start, s.size);
    forall id | start <= id < start + s.size ensures id in s.files && s.files[id] == s.cache[start][id - start] {
      FiledUnlessLate(s, start, id);
    }
  }

  lemma CrashKeepsPages(s: Log)
    requires PagesInv(s) && SafeToCrash(s)
    ensures PagesInv(Apply(s, Crash))
  {
    StepKeepsIds(s, Crash);
    var s' := Apply(s, Crash);
    forall start | start in s'.cache ensures PageAgrees(s'.issued, s'.cache[start], start, s'.size) {
      PageWithoutLateCallsAgrees(s, start);
    }
  }

  lemma StepKeepsPages(s: Log, step: Step)
    requires PagesInv(s) && Allowed(s, step)
    requires step.Crash? ==> SafeToCrash(s)
    ensures PagesInv(Apply(s, step))
  {
    match step
    case Append(_, _, _) => AppendKeepsPages(s, step);
    case StorePage(_) => StoreKeepsPages(s, step);
    case Crash => CrashKeepsPages(s);
    case Reopen => StepKeepsIds(s, step);
    case ReadCurId(_) => StepKeepsIds(s, step);
    case WriteFile(t) => WriteKeepsPages(s, t);
  }

  lemma WriteKeepsPages(s: Log, t: ThreadId)
    requires PagesInv(s) && Enabled(s, WriteFile(t))
    ensures PagesInv(Apply(s, WriteFile(t)))
  {
    StepKeepsIds(s, WriteFile(t));
    SamePagesKept(s, Apply(s, WriteFile(t)));
  }

  lemma SamePagesKept(s: Log, s': Log)
    requires PagesOk(s)
    requires s'.size == s.size && s'.pages == s.pages && s'.cache == s.cache && s'.curId == s.curId
    requires s'.issued == s.issued && s'.writers.Keys == s.writers.Keys
    requires forall t :: t in s.writers ==> s'.writers[t].page == s.writers[t].page
    ensures PagesOk(s')
  {
    HoldsInBoth(s, s', s.pages[|s.pages| - 1]);
    forall t | t in s'.writers
      ensures s'.writers[t].page < |s'.pages| && PageHolds(s', s'.pages[s'.writers[t].page]) {
      HoldsInBoth(s, s', s.pages[s.writers[t].page]);
    }
  }

  lemma {:induction false} RunKeepsPages(s: Log, steps: seq<Step>)
    requires PagesInv(s) && IsRun(s, steps) && CrashesSafely(s, steps)
    ensures PagesInv(After(s, steps))
    decreases |steps|
  {
    if steps != [] {
      StepKeepsPages(s, steps[0]);
      RunKeepsPages(Apply(s, steps[0]), steps[1..]);
    }
  }

  /** Each stored page file holds exactly the events issued for its ids, and once all calls have
      finished it agrees with the event files: reading through the cache is reading the files. */
  lemma PagesAgreeWithEvents(size: PageSize, steps: seq<Step>)
    requires IsRun(Initial(size), steps) && CrashesSafely(Initial(size), steps)
    ensures var s := After(Initial(size), steps);
            && (forall start :: start in s.cache ==> PageAgrees(s.issued, s.cache[start], start, s.size))
            && (s.writers == map[] ==> ValidPages(s.files, s.cache, s.size))
  {
    RunKeepsPages(Initial(size), steps);
    var s := After(Initial(size), steps);
    if s.writers == map[] {
      forall id | id in s.issued ensures id in s.files { assert !InProgress(s, id); }
      forall start | start in s.cache ensures PageAgrees(s.files, s.cache[start], start, s.size) {
        assert PageAgrees(s.issued, s.cache[start], start, s.size);
      }
    }
  }

  lemma StoringAgainChangesNothing(s: Log, step: Step, start: int)
    requires PagesInv(s) && Allowed(s, step) && step.StorePage? && start in s.cache
    ensures Apply(s, step).cache[start] == s.cache[start]
  {
    StoreKeepsAgreement(s, step, start);
    assert PageAgrees(s.issued, s.cache[start], start, s.size);
    SamePage(s.issued, s.cache[start], Apply(s, step).cache[start], start, s.size);
  }

  lemma SamePage(issued: map<int, Event>, page: seq<Event>, other: seq<Event>, start: int, size: PageSize)
    requires PageAgrees(issued, page, start, size) && PageAgrees(issued, other, start, size)
    ensures page == other
  {
    forall i | 0 <= i < size ensures page[i] == other[i] {
      assert issued[start + i] == page[start + i - start];
    }
  }

  /** A page list that is full never changes again, and storing it again writes what is there. */
  lemma FullPagesAreFrozen(size: PageSize, steps: seq<Step>, step: Step)
    requires IsRun(Initial(size), steps) && CrashesSafely(Initial(size), steps)
    requires Allowed(After(Initial(size), steps), step)
    ensures var s := After(Initial(size), steps);
            var s' := Apply(s, step);
            && (forall p :: 0 <= p < |s.pages| && |s.pages[p]| == s.size ==> s'.pages[p] == s.pages[p])
            && (forall start :: start in s.cache ==> start in s'.cache && s'.cache[start] == s.cache[start])
  {
    RunKeepsPages(Initial(size), steps);
    var s := After(Initial(size), steps);
    if step.StorePage? {
      forall start | start in s.cache ensures Apply(s, step).cache[start] == s.cache[start] {
        StoringAgainChangesNothing(s, step, start);
      }
    }
  }

  /** A crash leaves a stored page in agreement with the files exactly if no call is late for it. */
  lemma CrashAgreesIffSafe(size: PageSize, steps: seq<Step>)
    requires IsRun(Initial(size), steps) && CrashesSafely(Initial(size), steps)
    ensures var s := After(Initial(size), steps);
            var s' := Apply(s, Crash);
            && (forall start :: start in s'.cache ==>
                  (PageAgrees(s'.files, s'.cache[start], start, s'.size) <==> forall t :: !IsLate(s, t, start)))
            && ((forall start :: start in s'.cache ==> PageAgrees(s'.files, s'.cache[start], start, s'.size))
                <==> SafeToCrash(s))
  {
    RunKeepsPages(Initial(size), steps);
    var s := After(Initial(size), steps);
    forall start | start in s.cache
      ensures PageAgrees(s.files, s.cache[start], start, s.size) <==> forall t :: !IsLate(s, t, start)
    {
      if forall t :: !IsLate(s, t, start) {
        PageWithoutLateCallsAgrees(s, start);
      } else {
        var t :| IsLate(s, t, start);
        assert WriterInv(s, t);
      }
    }
  }

  lemma Go(size: PageSize, steps: seq<Step>, step: Step) returns (longer: seq<Step>)
    requires IsRun(Initial(size), steps) && Allowed(After(Initial(size), steps), step)
    ensures IsRun(Initial(size), longer)
    ensures After(Initial(size), longer) == Apply(After(Initial(size), steps), step)
  {
    Extend(Initial(size), steps, step);
    longer := steps + [step];
  }

  lemma {:induction false} Extend(s: Log, steps: seq<Step>, step: Step)
    requires IsRun(s, steps) && Allowed(After(s, steps), step)
    ensures IsRun(s, steps + [step]) && After(s, steps + [step]) == Apply(After(s, steps), step)
    decreases |steps|
  {
    var longer := steps + [step];
    if steps == [] {
      assert longer[1..] == [];
    } else {
      assert longer[1..] == steps[1..] + [step];
      Extend(Apply(s, steps[0]), steps[1..], step);
    }
  }

  const FIRST := Event(0, "a")
  const SECOND := Event(1, "b")

  /** Two calls of two threads share a page of two. */
  lemma TwoCallsShareAPage() returns (steps: seq<Step>)
    ensures IsRun(Initial(2), steps)
    ensures After(Initial(2), steps)
         == Log(2, map[], map[], Some(2), [[FIRST, SECOND], []],
                map[0 := Writer(FIRST, 0, false), 1 := Writer(SECOND, 0, false)], map[0 := FIRST, 1 := SECOND])
  {
    var none: seq<Event> := [];
    assert none + [FIRST] == [FIRST] && [none][0 := [FIRST]] + [] == [[FIRST]];
    assert [FIRST] + [SECOND] == [FIRST, SECOND];
    assert [[FIRST]][0 := [FIRST, SECOND]] + [none] == [[FIRST, SECOND], none];
    steps := Go(2, [], Append(0, 0, "a"));
    steps := Go(2, steps, Append(1, 1, "b"));
  }

  lemma PageAheadOfFile() returns (steps: seq<Step>)
    ensures IsRun(Initial(2), steps)
    ensures After(Initial(2), steps)
         == Log(2, map[0 := FIRST], map[0 := [FIRST, SECOND]], Some(2), [[FIRST, SECOND], []],
                map[1 := Writer(SECOND, 0, false)], map[0 := FIRST, 1 := SECOND])
  {
    steps := TwoCallsShareAPage();
    steps := Go(2, steps, WriteFile(0));
    steps := Go(2, steps, StorePage(0));
    assert After(Initial(2), steps).writers == map[1 := Writer(SECOND, 0, false)];
  }

  /** The condition matters: with pages of two, thread 0 may store the page that thread 1 has
      completed before thread 1 writes its file. */
  lemma PageMayPrecedeItsFile()
    ensures exists steps :: IsRun(Initial(2), steps) && !SafeToCrash(After(Initial(2), steps))
  {
    var steps := PageAheadOfFile();
    assert IsLate(After(Initial(2), steps), 1, 0);
  }

  /** Reopened at once, the stream lets thread 1 write the file of an event, which thread 0 then
      overwrites. */
  predicate OverwrittenAfterReopening(s: Log) {
    && Enabled(Apply(s, Reopen), Append(1, 0, "b"))
    && var s1 := Apply(Apply(s, Reopen), Append(1, 0, "b"));
       Enabled(s1, WriteFile(1))
       && Enabled(Apply(s1, WriteFile(1)), WriteFile(0))
       && Apply(s1, WriteFile(1)).files != Apply(Apply(s1, WriteFile(1)), WriteFile(0)).files
  }

  /** So does waiting for the calls before reopening: a stream opened over a call in progress
      hands out its id again, and one of the two event files overwrites the other. */
  lemma ReopeningOverACallOverwrites()
    ensures exists steps :: IsRun(Initial(25), steps) && OverwrittenAfterReopening(After(Initial(25), steps))
  {
    var steps := Go(25, [], Append(0, 0, "a"));
    var s := Apply(After(Initial(25), steps), Reopen);
    var s1 := Apply(s, Append(1, 0, "b"));
    var s2 := Apply(s1, WriteFile(1));
    assert s2.files[0].payload == "b" && Apply(s2, WriteFile(0)).files[0].payload == "a";
  }
}
