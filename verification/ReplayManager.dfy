/** Replaying the actions of a recorded trajectory. */
module ReplayManager {
  import opened Wrappers
  import opened ControllerState

  predicate IsKept(e: Event) {
    e.source != EnvironmentSource && !e.body.NullObservation?
  }

  function Kept(events: seq<Event>): seq<Event> {
    if events == [] then [] else (if IsKept(events[0]) then [events[0]] else []) + Kept(events[1..])
  }

  function NotWaiting(e: Event): Event {
    if e.body.Message? then e.(body := Message(false)) else e
  }

  /** Only the last event may still wait for a response. */
  function Unattended(events: seq<Event>): seq<Event> {
    seq(|events|, i requires 0 <= i < |events| => if i < |events| - 1 then NotWaiting(events[i]) else events[i])
  }

  function ActionsOf(events: seq<Event>): seq<Event> {
    if events == [] then [] else (if IsObservation(events[0]) then [] else [events[0]]) + ActionsOf(events[1..])
  }

  /** The actions of a trajectory that are to be replayed. */
  function Selected(events: seq<Event>): seq<Event> {
    if events == [] then []
    else
      (if events[0].source != EnvironmentSource && !IsObservation(events[0]) then [events[0]] else [])
      + Selected(events[1..])
  }

  lemma KeptNext(events: seq<Event>, kept: seq<Event>, i: nat)
    requires i < |events|
    ensures kept + Kept(events[i..]) == (if IsKept(events[i]) then kept + [events[i]] else kept) + Kept(events[i + 1..])
  {
    assert events[i..][0] == events[i] && events[i..][1..] == events[i + 1..];
  }

  lemma KeptEnds(events: seq<Event>)
    ensures [] + Kept(events[0..]) == Kept(events) && Kept(events[|events|..]) == []
  {
    assert events[0..] == events;
  }

  /** The first loop of the constructor. */
  method KeepEvents(events: seq<Event>) returns (kept: seq<Event>)
    ensures kept == Kept(events)
  {
    kept := [];
    KeptEnds(events);
    for i := 0 to |events|
      invariant kept + Kept(events[i..]) == Kept(events)
    {
      KeptNext(events, kept, i);
      if events[i].source == EnvironmentSource {
        continue;
      }
      if events[i].body.NullObservation? {
        continue;
      }
      kept := kept + [events[i]];
    }
  }

  /** The second loop of the constructor. */
  method StopWaiting(kept: seq<Event>) returns (events: seq<Event>)
    requires |kept| > 0
    ensures events == Unattended(kept)
  {
    events := kept;
    for index := 0 to |kept| - 1
      invariant |events| == |kept|
      invariant forall k :: 0 <= k < |kept| ==> events[k] == if k < index then NotWaiting(kept[k]) else kept[k]
    {
      var event := events[index];
      if event.body.Message? && event.body.waits {
        events := events[index := event.(body := Message(false))];
      }
    }
  }

  class ReplayManager {
    var replayEvents: seq<Event>
    var replayMode: bool
    var replayIndex: nat

    ghost predicate Valid()
      reads this
    {
      replayIndex <= |replayEvents| && replayMode == (replayEvents != [])
    }

    /** What is still to be replayed. */
    ghost function Remaining(): seq<Event>
      requires Valid()
      reads this
    {
      ActionsOf(replayEvents[replayIndex..])
    }

    constructor (events: Option<seq<Event>>)
      ensures Valid()
      ensures Remaining() == ActionsOf(Unattended(Kept(if events.Some? then events.value else [])))
    {
      var kept := KeepEvents(if events.Some? then events.value else []);
      if |kept| > 0 {
        kept := StopWaiting(kept);
      }
      replayEvents := kept;
      replayMode := kept != [];
      replayIndex := 0;
      new;
      assert replayEvents[0..] == replayEvents;
    }

    predicate Replayable()
      reads this
    {
      replayIndex < |replayEvents| && !IsObservation(replayEvents[replayIndex])
    }

    /** should_replay: whether something is left to replay; asking does not change what. */
    method ShouldReplay() returns (b: bool)
      requires Valid()
      modifies this`replayIndex
      ensures Valid() && Remaining() == old(Remaining())
      ensures b == (Remaining() != []) && b == Replayable()
    {
      if !replayMode {
        return false;
      }
      while replayIndex < |replayEvents| && !Replayable()
        invariant Valid() && Remaining() == old(Remaining())
        decreases |replayEvents| - replayIndex
      {
        assert replayEvents[replayIndex..][1..] == replayEvents[replayIndex + 1..];
        replayIndex := replayIndex + 1;
      }
      b := Replayable();
    }

    /** step: the next action that is left. */
    method Step() returns (event: Event)
      requires Valid() && Replayable()
      modifies this`replayIndex
      ensures Valid() && old(Remaining()) == [event] + Remaining()
    {
      event := replayEvents[replayIndex];
      assert replayEvents[replayIndex..][1..] == replayEvents[replayIndex + 1..];
      replayIndex := replayIndex + 1;
    }
  }

  /** A whole replay, as the controller does it: ask and step until nothing is left to replay; and
      nothing is, however often it is asked again. */
  method ReplayAll(events: Option<seq<Event>>, again: nat) returns (played: seq<Event>)
    ensures played == ActionsOf(Unattended(Kept(if events.Some? then events.value else [])))
  {
    var manager := new ReplayManager(events);
    ghost var all := manager.Remaining();
    played := [];
    var more := manager.ShouldReplay();
    while more
      invariant manager.Valid() && all == played + manager.Remaining()
      invariant more == (manager.Remaining() != []) && more == manager.Replayable()
      decreases |manager.Remaining()|
    {
      var event := manager.Step();
      PlayedThenRest(played, event, manager.Remaining());
      played := played + [event];
      more := manager.ShouldReplay();
    }
    PlayedAll(played);
    AskAgain(manager, again);
  }

  lemma PlayedThenRest(played: seq<Event>, event: Event, rest: seq<Event>)
    ensures played + ([event] + rest) == played + [event] + rest
  {
  }

  lemma PlayedAll(played: seq<Event>)
    ensures played + [] == played
  {
  }

  /** Once nothing is left, asking finds nothing. */
  method AskAgain(manager: ReplayManager, again: nat)
    requires manager.Valid() && manager.Remaining() == []
    modifies manager`replayIndex
    ensures manager.Valid() && manager.Remaining() == []
  {
    for i := 0 to again
      invariant manager.Valid() && manager.Remaining() == []
    {
      var more := manager.ShouldReplay();
      assert !more;
    }
  }

  /*** What is replayed. ***/

  lemma {:induction false} KeptActions(events: seq<Event>)
    ensures ActionsOf(Kept(events)) == Selected(events)
  {
    if events != [] {
      KeptActions(events[1..]);
      if IsKept(events[0]) {
        assert Kept(events)[1..] == Kept(events[1..]);
      } else {
        assert Kept(events) == Kept(events[1..]);
      }
    }
  }

  lemma TailOfBoth(a: seq<Event>, b: seq<Event>)
    requires a != []
    ensures (a + b)[0] == a[0] && (a + b)[1..] == a[1..] + b
  {
  }

  lemma {:induction false} SelectedConcat(a: seq<Event>, b: seq<Event>)
    ensures Selected(a + b) == Selected(a) + Selected(b)
  {
    if a == [] {
      assert a + b == b;
    } else {
      TailOfBoth(a, b);
      SelectedConcat(a[1..], b);
    }
  }

  /** An event is selected if it is an action that the environment did not issue, and the selection of
      a trajectory is that of its parts, in order. */
  lemma SelectedIs(a: seq<Event>, b: seq<Event>, e: Event)
    ensures Selected(a + b) == Selected(a) + Selected(b)
    ensures Selected([e]) == if e.source == EnvironmentSource || IsObservation(e) then [] else [e]
    ensures Selected([]) == []
  {
    SelectedConcat(a, b);
    assert [e][1..] == [];
  }

  /** At each place the same event, but for waiting. */
  predicate SameButWaiting(a: seq<Event>, b: seq<Event>) {
    |a| == |b| && forall i :: 0 <= i < |a| ==> NotWaiting(a[i]) == NotWaiting(b[i])
  }

  lemma {:induction false} ActionsAreAlike(a: seq<Event>, b: seq<Event>)
    requires SameButWaiting(a, b)
    ensures SameButWaiting(ActionsOf(a), ActionsOf(b))
  {
    if a != [] {
      assert forall i :: 0 <= i < |a[1..]| ==> a[1..][i] == a[i + 1] && b[1..][i] == b[i + 1];
      ActionsAreAlike(a[1..], b[1..]);
      assert NotWaiting(a[0]) == NotWaiting(b[0]);
    }
  }

  predicate Waits(e: Event) {
    e.body.Message? && e.body.waits
  }

  lemma {:induction false} OnlyLastWaits(events: seq<Event>, i: nat)
    requires forall k :: 0 <= k < |events| - 1 ==> !Waits(events[k])
    requires i < |ActionsOf(events)| && Waits(ActionsOf(events)[i])
    ensures i == |ActionsOf(events)| - 1 && ActionsOf(events)[i] == events[|events| - 1]
  {
    assert forall k :: 0 <= k < |events[1..]| ==> events[1..][k] == events[k + 1];
    if IsObservation(events[0]) {
      OnlyLastWaits(events[1..], i);
    } else if i > 0 {
      OnlyLastWaits(events[1..], i - 1);
    }
  }

  /*** The last event that counts. ***/

  predicate Counts(e: Event) {
    e.source != EnvironmentSource && !e.body.NullObservation?
  }

  predicate IsLast(events: seq<Event>, j: nat) {
    j < |events| && Counts(events[j]) && forall k :: j < k < |events| ==> !Counts(events[k])
  }

  /** The last event that was not left out is an action. */
  ghost predicate EndsInAction(events: seq<Event>) {
    exists j: nat :: IsLast(events, j) && !IsObservation(events[j])
  }

  lemma {:induction false} NothingKept(events: seq<Event>)
    requires Kept(events) == []
    ensures forall k :: 0 <= k < |events| ==> !Counts(events[k])
  {
    if events != [] {
      NothingKept(events[1..]);
      assert forall k :: 0 < k < |events| ==> events[k] == events[1..][k - 1];
    }
  }

  lemma {:induction false} LastKept(events: seq<Event>) returns (j: nat)
    requires Kept(events) != []
    ensures IsLast(events, j) && events[j] == Kept(events)[|Kept(events)| - 1]
  {
    var rest := Kept(events[1..]);
    if rest == [] {
      NothingKept(events[1..]);
      j := 0;
    } else {
      var i := LastKept(events[1..]);
      j := i + 1;
      assert Kept(events)[|Kept(events)| - 1] == rest[|rest| - 1];
    }
    assert forall k :: 0 < k < |events| ==> events[k] == events[1..][k - 1];
  }

  lemma EndsInActionIff(events: seq<Event>)
    ensures EndsInAction(events) <==> Kept(events) != [] && !IsObservation(Kept(events)[|Kept(events)| - 1])
  {
    if Kept(events) == [] {
      NothingKept(events);
    } else {
      var j := LastKept(events);
      if EndsInAction(events) {
        var i: nat :| IsLast(events, i) && !IsObservation(events[i]);
        assert i == j;
      }
    }
  }

  lemma {:induction false} LastActionIs(events: seq<Event>)
    requires events != [] && !IsObservation(events[|events| - 1])
    ensures var actions := ActionsOf(events);
            actions != [] && actions[|actions| - 1] == events[|events| - 1]
  {
    if |events| > 1 {
      LastActionIs(events[1..]);
    }
  }

  /** What is played for an action: it does not wait for a response, unless it comes last. */
  predicate IsPlayed(e: Event, comesLast: bool, played: Event) {
    if comesLast || !e.body.Message? then played == e
    else played == Event(e.id, e.source, e.cause, e.tool, e.hidden, Message(false))
  }

  lemma EndIsPlayed(kept: seq<Event>)
    requires kept != [] && !IsObservation(kept[|kept| - 1])
    ensures var played, actions := ActionsOf(Unattended(kept)), ActionsOf(kept);
            && played != [] && actions != []
            && played[|played| - 1] == actions[|actions| - 1]
  {
    LastActionIs(kept);
    LastActionIs(Unattended(kept));
  }

  lemma OthersArePlayed(kept: seq<Event>, i: nat)
    requires i < |ActionsOf(kept)|
    requires i < |ActionsOf(kept)| - 1 || IsObservation(kept[|kept| - 1])
    ensures var played := ActionsOf(Unattended(kept));
            |played| == |ActionsOf(kept)| && played[i] == NotWaiting(ActionsOf(kept)[i])
  {
    var played := ActionsOf(Unattended(kept));
    assert SameButWaiting(Unattended(kept), kept);
    ActionsAreAlike(Unattended(kept), kept);
    AreActions(Unattended(kept), i);
    if Waits(played[i]) {
      OnlyLastWaits(Unattended(kept), i);
    }
    assert NotWaiting(played[i]) == NotWaiting(ActionsOf(kept)[i]);
  }

  lemma {:induction false} AreActions(events: seq<Event>, i: nat)
    requires i < |ActionsOf(events)|
    ensures !IsObservation(ActionsOf(events)[i])
  {
    if IsObservation(events[0]) {
      AreActions(events[1..], i);
    } else if i > 0 {
      AreActions(events[1..], i - 1);
    }
  }

  /** The replay plays exactly the actions of the trajectory that the environment did not issue, in
      their order, once each; none of them waits for a response, except that the last one is played as
      it is if nothing that counts comes behind it. */
  lemma ReplayIsFaithful(events: seq<Event>)
    ensures var played, selected := ActionsOf(Unattended(Kept(events))), Selected(events);
            && |played| == |selected|
            && forall i :: 0 <= i < |played| ==>
                 IsPlayed(selected[i], i == |played| - 1 && EndsInAction(events), played[i])
  {
    var kept := Kept(events);
    var played := ActionsOf(Unattended(kept));
    KeptActions(events);
    EndsInActionIff(events);
    assert SameButWaiting(Unattended(kept), kept);
    ActionsAreAlike(Unattended(kept), kept);
    forall i | 0 <= i < |played|
      ensures IsPlayed(Selected(events)[i], i == |played| - 1 && EndsInAction(events), played[i])
    {
      if i == |played| - 1 && EndsInAction(events) {
        EndIsPlayed(kept);
      } else {
        OthersArePlayed(kept, i);
      }
    }
  }
}
