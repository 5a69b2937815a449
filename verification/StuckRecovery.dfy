/** What the detector finds, and what is left of a history that recovers from it. */
module StuckRecovery {
  import opened Wrappers
  import opened Text
  import opened StuckPatterns

  /*** All events of a kind are found, in their order. ***/

  lemma {:induction false} PlacesIncrease(f: seq<Event>, kind: Kind, i: nat, j: nat)
    requires i < j < |Places(f, kind)|
    ensures Places(f, kind)[i] < Places(f, kind)[j]
  {
    var n := |f| - 1;
    if j < |Places(f[..n], kind)| {
      PlacesIncrease(f[..n], kind, i, j);
    }
  }

  lemma {:induction false} PlacesAreAll(f: seq<Event>, kind: Kind, k: nat) returns (i: nat)
    requires k < |f| && Is(kind, f[k])
    ensures i < |Places(f, kind)| && Places(f, kind)[i] == k
  {
    var n := |f| - 1;
    if k == n {
      i := |Places(f[..n], kind)|;
    } else {
      i := PlacesAreAll(f[..n], kind, k);
    }
  }

  lemma PlacesOrder(f: seq<Event>, kind: Kind, i: nat, j: nat)
    requires i < |Places(f, kind)| && j < |Places(f, kind)|
    ensures i < j <==> Places(f, kind)[i] < Places(f, kind)[j]
  {
    if i < j {
      PlacesIncrease(f, kind, i, j);
    } else if j < i {
      PlacesIncrease(f, kind, j, i);
    }
  }

  /** Nothing of a kind lies between two neighbours of that kind. */
  lemma NoneBetween(f: seq<Event>, kind: Kind, i: nat, k: nat)
    requires i + 1 < |Places(f, kind)| && Places(f, kind)[i] < k < Places(f, kind)[i + 1]
    ensures !Is(kind, f[k])
  {
    if Is(kind, f[k]) {
      var j := PlacesAreAll(f, kind, k);
      PlacesOrder(f, kind, i, j);
      PlacesOrder(f, kind, j, i + 1);
    }
  }

  lemma OlderIsBefore(f: seq<Event>, kind: Kind, i: nat, j: nat)
    requires 1 <= i <= j <= |Places(f, kind)|
    ensures FromEnd(f, kind, j) <= FromEnd(f, kind, i)
  {
    if i < j {
      PlacesIncrease(f, kind, |Places(f, kind)| - j, |Places(f, kind)| - i);
    }
  }

  /** The i-th condensation and the next one, next to each other. */
  predicate Adjacent(f: seq<Event>, i: nat)
    requires i + 1 < |Places(f, Condensations)|
  {
    Places(f, Condensations)[i + 1] == Places(f, Condensations)[i] + 1
  }

  lemma CondensedAgainIff(f: seq<Event>, i: nat)
    requires i + 1 < |Places(f, Condensations)|
    ensures CondensedAgain(f, i) <==> Adjacent(f, i)
  {
    PlacesIncrease(f, Condensations, i, i + 1);
    var older, newer := Places(f, Condensations)[i], Places(f, Condensations)[i + 1];
    if older + 1 < newer {
      NoneBetween(f, Condensations, i, older + 1);
    }
  }

  lemma {:induction false} FirstCondensedAgainIsAdjacent(f: seq<Event>, i: nat)
    requires i < |Places(f, Condensations)|
    ensures FirstCondensedAgain(f, i).Some?
       <==> exists k :: i <= k < |Places(f, Condensations)| - 1 && Adjacent(f, k)
    decreases |Places(f, Condensations)| - i
  {
    if i + 1 < |Places(f, Condensations)| {
      CondensedAgainIff(f, i);
      if !CondensedAgain(f, i) {
        FirstCondensedAgainIsAdjacent(f, i + 1);
      }
    }
  }

  /** The fifth scenario is two condensations next to each other among the last ten: one such pair
      is enough. */
  lemma CondensationLoopIff(f: seq<Event>)
    ensures RepeatsCondensation(f)
       <==> exists i :: 0 <= |Places(f, Condensations)| - 10 <= i < |Places(f, Condensations)| - 1 && Adjacent(f, i)
  {
    var n := |Places(f, Condensations)|;
    if n >= 10 {
      FirstCondensedAgainIsAdjacent(f, n - 10);
    }
  }

  /*** The comparison is not reflexive. ***/

  predicate IsShortEdit(e: Event) {
    e.body.CellAction? && Contains(e.body.code, EDIT) && |Split(e.body.code, '\n')| <= 2
  }

  lemma ShortEditIsUnlike(a: Event, b: Event)
    requires IsShortEdit(a)
    ensures !EqNoPid(a, b)
  {
  }

  lemma ShortEditFirst(events: seq<Event>)
    requires events != [] && IsShortEdit(events[0])
    ensures !AllLikeFirst(events)
  {
    ShortEditIsUnlike(events[0], events[0]);
  }

  /** An agent that repeats a short edit is never found to repeat an action. */
  lemma ShortEditsAreNotFound(f: seq<Event>)
    requires |Places(f, Actions)| >= 1 && IsShortEdit(f[FromEnd(f, Actions, 1)])
    ensures !RepeatsActionObservation(f) && !RepeatsError(f) && !RepeatsPattern(f)
  {
    var four, six := Last(f, Actions, 4), Last(f, Actions, 6);
    LastIsShortEdit(f, 4);
    LastIsShortEdit(f, 6);
    ShortEditFirst(four);
    if |four| >= 3 {
      ShortEditFirst(four[..3]);
    }
    if |six| == 6 {
      ShortEditIsUnlike(six[0], six[2]);
      assert !Alternates(six);
    }
  }

  lemma LastIsShortEdit(f: seq<Event>, n: nat)
    requires n >= 1 && |Places(f, Actions)| >= 1 && IsShortEdit(f[FromEnd(f, Actions, 1)])
    ensures Last(f, Actions, n) != [] && IsShortEdit(Last(f, Actions, n)[0])
  {
    assert Last(f, Actions, n)[0] == f[FromEnd(f, Actions, 1)];
  }

  /*** From the filtered history back to the history. ***/

  /** Where the filtered events were. */
  function RawPlaces(events: seq<Event>): (places: seq<nat>)
    ensures |places| == |Filtered(events)|
    ensures forall k :: 0 <= k < |places| ==> k <= places[k] < |events| && events[places[k]] == Filtered(events)[k]
  {
    if events == [] then []
    else
      var n := |events| - 1;
      var front := RawPlaces(events[..n]);
      assert |front| <= n by { FilteredIsShorter(events[..n]); }
      front + if IsLooked(events[n]) then [n] else []
  }

  lemma {:induction false} FilteredIsShorter(events: seq<Event>)
    ensures |Filtered(events)| <= |events|
  {
    if events != [] {
      FilteredIsShorter(events[..|events| - 1]);
    }
  }

  function RawPlace(history: seq<Event>, headless: bool, k: nat): (place: nat)
    requires k < |Looked(history, headless)|
    ensures Offset(history, headless) + k <= place < |history| && history[place] == Looked(history, headless)[k]
  {
    var from := Offset(history, headless);
    assert history[from..][RawPlaces(history[from..])[k]] == history[from + RawPlaces(history[from..])[k]];
    from + RawPlaces(history[from..])[k]
  }

  /*** The events that are repeated. ***/

  function Count(t: LoopType): nat {
    match t
    case RepeatingActionObservation => 4
    case RepeatingActionError => 3
    case Monologue => 3
    case ActionObservationPattern => 6
    case ContextWindowError => 2
  }

  predicate Enough(f: seq<Event>, t: LoopType) {
    match t
    case Monologue => |Places(f, AgentMessages)| >= 3
    case ContextWindowError => RepeatsCondensation(f)
    case _ => |Places(f, Actions)| >= Count(t)
  }

  /** The newer or the older one of a pair of condensations. */
  function CondensationAt(f: seq<Event>, r: nat, i: nat): (k: nat)
    requires r + 1 < |Places(f, Condensations)| && 1 <= i <= 2
    ensures k < |f|
  {
    Places(f, Condensations)[r + 2 - i]
  }

  /** The i-th newest of the repeated actions, messages or condensations. */
  function Repeated(f: seq<Event>, t: LoopType, i: nat): (k: nat)
    requires Enough(f, t) && 1 <= i <= Count(t)
    ensures k < |f|
  {
    match t
    case Monologue => FromEnd(f, AgentMessages, i)
    case ContextWindowError => CondensationAt(f, CondensationLoop(f).value, i)
    case _ => FromEnd(f, Actions, i)
  }

  lemma StartOfActionsIsBefore(f: seq<Event>, n: nat, i: nat)
    requires 1 <= i <= |Last(f, Actions, n)|
    ensures StartOfActions(f, n) <= FromEnd(f, Actions, i)
  {
    var oldest := FromEnd(f, Actions, |Last(f, Actions, n)|);
    assert Last(f, Actions, n)[|Last(f, Actions, n)| - 1] == f[oldest];
    OlderIsBefore(f, Actions, i, |Last(f, Actions, n)|);
  }

  /** What is reported as the start of a loop of a type. */
  predicate StartsAt(f: seq<Event>, t: LoopType, start: nat) {
    match t
    case Monologue => |Places(f, AgentMessages)| >= 3 && start == FromEnd(f, AgentMessages, 3)
    case ContextWindowError =>
      RepeatsCondensation(f) && start == StartOfCondensations(f)
    case ActionObservationPattern => |Last(f, Actions, 6)| == 6 && start == StartOfActions(f, 6)
    case _ => |Last(f, Actions, 4)| >= Count(t) && start == StartOfActions(f, 4)
  }

  lemma AnalysisStartsAt(f: seq<Event>)
    requires Analyze(f, 0).Some?
    ensures StartsAt(f, Analyze(f, 0).value.loopType, Analyze(f, 0).value.loopStart)
  {
  }

  lemma MonologueStart(f: seq<Event>, start: nat, i: nat)
    requires StartsAt(f, Monologue, start) && 1 <= i <= 3
    ensures Enough(f, Monologue) && start <= Repeated(f, Monologue, i)
  {
    OlderIsBefore(f, AgentMessages, i, 3);
  }

  lemma CondensationStart(f: seq<Event>, start: nat, i: nat)
    requires StartsAt(f, ContextWindowError, start) && 1 <= i <= 2
    ensures Enough(f, ContextWindowError) && start <= Repeated(f, ContextWindowError, i)
  {
    PlacesIncrease(f, Condensations, CondensationLoop(f).value, CondensationLoop(f).value + 1);
  }

  lemma EnoughActions(f: seq<Event>, n: nat)
    ensures |Places(f, Actions)| >= |Last(f, Actions, n)|
  {
  }

  lemma ActionsStart(f: seq<Event>, t: LoopType, start: nat, i: nat)
    requires t != Monologue && t != ContextWindowError && StartsAt(f, t, start) && 1 <= i <= Count(t)
    ensures Enough(f, t) && start <= Repeated(f, t, i)
  {
    var n := if t == ActionObservationPattern then 6 else 4;
    EnoughActions(f, n);
    StartOfActionsIsBefore(f, n, i);
  }

  /** The reported start is not behind any of them. */
  lemma StartIsBefore(f: seq<Event>, t: LoopType, start: nat, i: nat)
    requires StartsAt(f, t, start) && 1 <= i <= Count(t)
    ensures Enough(f, t) && start <= Repeated(f, t, i)
  {
    if t == Monologue {
      MonologueStart(f, start, i);
    } else if t == ContextWindowError {
      CondensationStart(f, start, i);
    } else {
      ActionsStart(f, t, start, i);
    }
  }

  lemma OffsetIsAdded(f: seq<Event>, offset: nat)
    ensures Analyze(f, offset).Some? <==> Analyze(f, 0).Some?
    ensures Analyze(f, 0).Some? ==>
              && Analyze(f, offset).value.loopType == Analyze(f, 0).value.loopType
              && Analyze(f, offset).value.loopStart == Analyze(f, 0).value.loopStart + offset
  {
  }

  /** Where the loop that was found starts in the filtered history. */
  lemma FoundStartsAt(history: seq<Event>, headless: bool)
    requires IsStuck(history, headless)
    ensures Found(history, headless).value.loopStart >= Offset(history, headless)
    ensures StartsAt(Looked(history, headless), Found(history, headless).value.loopType,
                     Found(history, headless).value.loopStart - Offset(history, headless))
  {
    OffsetIsAdded(Looked(history, headless), Offset(history, headless));
    AnalysisStartsAt(Looked(history, headless));
  }

  /** Recovery removes the loop: the history that is left is a proper prefix, and none of the
      repeated actions, messages or condensations is in it. */
  lemma RecoveryRemovesLoop(history: seq<Event>, headless: bool, i: nat)
    requires IsStuck(history, headless)
    requires 1 <= i <= Count(Found(history, headless).value.loopType)
    ensures var found := Found(history, headless).value;
            var f := Looked(history, headless);
            && Enough(f, found.loopType)
            && found.loopStart <= RawPlace(history, headless, Repeated(f, found.loopType, i)) < |history|
            && history[..found.loopStart] < history
  {
    var found := Found(history, headless).value;
    FoundStartsAt(history, headless);
    StartIsBefore(Looked(history, headless), found.loopType, found.loopStart - Offset(history, headless), i);
  }

  /** The oldest of the repeated events. */
  function Oldest(f: seq<Event>, t: LoopType): (k: nat)
    requires Enough(f, t)
    ensures k < |f|
  {
    Repeated(f, t, Count(t))
  }
}
