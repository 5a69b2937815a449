/** What recovery from a loop cuts off besides the loop. */
module StuckLoss {
  import opened Wrappers
  import opened MinMax
  import opened StuckPatterns
  import opened StuckRecovery

  /*** Events that are not looked at. ***/

  /** How many events are left out of what is looked at. */
  function LeftOut(events: seq<Event>): nat {
    if events == [] then 0
    else LeftOut(events[..|events| - 1]) + if IsLooked(events[|events| - 1]) then 0 else 1
  }

  lemma {:induction false} LeftOutCounts(events: seq<Event>)
    ensures |Filtered(events)| + LeftOut(events) == |events|
  {
    if events != [] {
      LeftOutCounts(events[..|events| - 1]);
    }
  }

  predicate AllLooked(events: seq<Event>) {
    forall j :: 0 <= j < |events| ==> IsLooked(events[j])
  }

  lemma {:induction false} NoneLeftOutIff(events: seq<Event>)
    ensures LeftOut(events) == 0 <==> AllLooked(events)
  {
    if events != [] {
      NoneLeftOutIff(events[..|events| - 1]);
    }
  }

  function UserMessages(events: seq<Event>): nat {
    if events == [] then 0
    else UserMessages(events[..|events| - 1]) + if IsUserMessage(events[|events| - 1]) then 1 else 0
  }

  predicate HasNoNulls(events: seq<Event>) {
    forall j :: 0 <= j < |events| ==> !events[j].body.NullAction? && !events[j].body.NullObservation?
  }

  /** In a history without null events, they are the messages of the user. */
  lemma {:induction false} LeftOutAreUserMessages(events: seq<Event>)
    requires HasNoNulls(events)
    ensures LeftOut(events) == UserMessages(events)
  {
    if events != [] {
      LeftOutAreUserMessages(events[..|events| - 1]);
    }
  }

  /** A filtered event was as much later in the history as events before it were left out. */
  lemma {:induction false} RawPlaceCounts(events: seq<Event>, k: nat)
    requires k < |Filtered(events)|
    ensures RawPlaces(events)[k] == k + LeftOut(events[..RawPlaces(events)[k]])
  {
    var n := |events| - 1;
    if k < |Filtered(events[..n])| {
      RawPlaceCounts(events[..n], k);
      assert events[..n][..RawPlaces(events)[k]] == events[..RawPlaces(events)[k]];
    } else {
      LeftOutCounts(events[..n]);
    }
  }

  /** The events before a filtered event, from where the detector begins to look. */
  function Preceding(history: seq<Event>, headless: bool, k: nat): seq<Event>
    requires k < |Looked(history, headless)|
  {
    history[Offset(history, headless)..RawPlace(history, headless, k)]
  }

  lemma RawPlaceIs(history: seq<Event>, headless: bool, k: nat)
    requires k < |Looked(history, headless)|
    ensures RawPlace(history, headless, k)
         == Offset(history, headless) + k + LeftOut(Preceding(history, headless, k))
  {
    var from := Offset(history, headless);
    RawPlaceCounts(history[from..], k);
    var r := RawPlaces(history[from..])[k];
    assert history[from..][..r] == history[from..from + r];
  }

  /*** Where the cut is. ***/

  /** The action that is looked up, for the loops of actions: for repeated errors it is the fourth
      action from the end, if there are that many, though three are compared. */
  function Indexed(f: seq<Event>, t: LoopType): (k: nat)
    requires Enough(f, t)
    ensures k < |f|
  {
    if t == RepeatingActionError && |Places(f, Actions)| > 3 then FromEnd(f, Actions, 4) else Oldest(f, t)
  }

  predicate IsIndexed(t: LoopType) {
    t != Monologue && t != ContextWindowError
  }

  /** The cut in the filtered history. */
  function Cut(f: seq<Event>, t: LoopType): (k: nat)
    requires Enough(f, t)
    ensures k < |f|
  {
    if IsIndexed(t) then FirstLike(f, f[Indexed(f, t)]) else Oldest(f, t)
  }

  lemma StartOfActionsIs(f: seq<Event>, n: nat)
    requires 1 <= n && 1 <= |Places(f, Actions)|
    ensures Last(f, Actions, n) != []
    ensures StartOfActions(f, n) == FirstLike(f, f[FromEnd(f, Actions, Min(n, |Places(f, Actions)|))])
  {
  }

  lemma StartIsCut(f: seq<Event>, t: LoopType, start: nat)
    requires StartsAt(f, t, start)
    ensures Enough(f, t) && start == Cut(f, t)
  {
    StartIsBefore(f, t, start, 1);
    if t == ActionObservationPattern {
      StartOfActionsIs(f, 6);
    } else if IsIndexed(t) {
      StartOfActionsIs(f, 4);
    }
  }

  predicate NoneLikeBefore(f: seq<Event>, k: nat)
    requires k < |f|
  {
    forall j :: 0 <= j < k ==> f[j].body != f[k].body
  }

  /** The filtered history is cut right before the loop. */
  predicate CutIsClean(f: seq<Event>, t: LoopType)
    requires Enough(f, t)
  {
    match t
    case Monologue => true
    case ContextWindowError => true
    case RepeatingActionError => |Places(f, Actions)| == 3 && NoneLikeBefore(f, Oldest(f, t))
    case _ => NoneLikeBefore(f, Oldest(f, t))
  }

  lemma CutIsCleanIff(f: seq<Event>, t: LoopType)
    requires Enough(f, t)
    ensures Cut(f, t) <= Oldest(f, t)
    ensures Cut(f, t) == Oldest(f, t) <==> CutIsClean(f, t)
  {
    if t == RepeatingActionError && |Places(f, Actions)| > 3 {
      PlacesIncrease(f, Actions, |Places(f, Actions)| - 4, |Places(f, Actions)| - 3);
    }
  }

  /*** What is lost. ***/

  lemma LostAt(history: seq<Event>, headless: bool, cut: nat, k: nat)
    requires cut <= k < |Looked(history, headless)|
    ensures RawPlace(history, headless, k) - (Offset(history, headless) + cut)
         == LeftOut(Preceding(history, headless, k)) + (k - cut)
    ensures RawPlace(history, headless, k) == Offset(history, headless) + cut
       <==> AllLooked(Preceding(history, headless, k)) && k == cut
  {
    RawPlaceIs(history, headless, k);
    NoneLeftOutIff(Preceding(history, headless, k));
  }

  /** A loop of type t was found, and the history is to be cut at loopStart. */
  predicate IsFound(history: seq<Event>, headless: bool, t: LoopType, loopStart: nat) {
    match Found(history, headless)
    case Some(found) => found.loopType == t && found.loopStart == loopStart
    case None => false
  }

  lemma CutIsFound(history: seq<Event>, headless: bool, t: LoopType, loopStart: nat)
    requires IsFound(history, headless, t, loopStart)
    ensures Enough(Looked(history, headless), t)
    ensures loopStart == Offset(history, headless) + Cut(Looked(history, headless), t)
  {
    FoundStartsAt(history, headless);
    StartIsCut(Looked(history, headless), t, loopStart - Offset(history, headless));
  }

  /** Where the oldest repeated event is in the history. */
  function LoopBegins(history: seq<Event>, headless: bool, t: LoopType): nat
    requires Enough(Looked(history, headless), t)
  {
    RawPlace(history, headless, Oldest(Looked(history, headless), t))
  }

  /** The events before the loop, from where the detector begins to look. */
  function BeforeLoop(history: seq<Event>, headless: bool, t: LoopType): seq<Event>
    requires Enough(Looked(history, headless), t)
  {
    Preceding(history, headless, Oldest(Looked(history, headless), t))
  }

  /** What is cut off besides the loop: as many events as are left out before it, and those from the
      event that is looked up to the loop. */
  lemma EventsLost(history: seq<Event>, headless: bool, t: LoopType, loopStart: nat)
    requires IsFound(history, headless, t, loopStart)
    ensures var f := Looked(history, headless);
            && Enough(f, t)
            && LoopBegins(history, headless, t) - loopStart
               == LeftOut(BeforeLoop(history, headless, t)) + (Oldest(f, t) - Cut(f, t))
  {
    CutIsFound(history, headless, t, loopStart);
    CutIsCleanIff(Looked(history, headless), t);
    LostAt(history, headless, Cut(Looked(history, headless), t), Oldest(Looked(history, headless), t));
  }

  /** Recovery keeps everything before the loop if and only if every event there is looked at, and,
      for the loops of actions, no event before it equals its first action; and a loop of errors
      must have been found with three actions only. */
  lemma RecoveryIsExactIff(history: seq<Event>, headless: bool, t: LoopType, loopStart: nat)
    requires IsFound(history, headless, t, loopStart)
    ensures Enough(Looked(history, headless), t)
    ensures LoopBegins(history, headless, t) == loopStart
       <==> AllLooked(BeforeLoop(history, headless, t)) && CutIsClean(Looked(history, headless), t)
  {
    CutIsFound(history, headless, t, loopStart);
    CutIsCleanIff(Looked(history, headless), t);
    LostAt(history, headless, Cut(Looked(history, headless), t), Oldest(Looked(history, headless), t));
  }

  /** In headless mode, each message of the user before a loop that is cut off cleanly otherwise
      costs one event. */
  lemma UserMessagesCostEvents(history: seq<Event>, t: LoopType, loopStart: nat)
    requires IsFound(history, true, t, loopStart) && HasNoNulls(history)
    ensures Enough(Looked(history, true), t)
    ensures CutIsClean(Looked(history, true), t) ==>
              LoopBegins(history, true, t) - loopStart == UserMessages(history[..LoopBegins(history, true, t)])
  {
    EventsLost(history, true, t, loopStart);
    CutIsCleanIff(Looked(history, true), t);
    assert BeforeLoop(history, true, t) == history[..LoopBegins(history, true, t)];
    LeftOutAreUserMessages(BeforeLoop(history, true, t));
  }
}
