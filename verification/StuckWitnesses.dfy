/** Histories from which recovery cuts off more than the loop. */
module StuckWitnesses {
  import opened StuckPatterns
  import opened StuckRecovery
  import opened StuckLoss
  import opened StuckExactness

  const FIRST := Event(AgentSource, OtherAction(0))
  const SECOND := Event(AgentSource, OtherAction(1))
  const OUTPUT := Event(EnvironmentSource, OtherObservation(0))
  const FAILURE := Event(EnvironmentSource, ErrorObservation(0))
  const REQUEST := Event(UserSource, Message("", 0))

  /** One more event. */
  lemma PlacesOfNext(f: seq<Event>, e: Event, kind: Kind)
    ensures Places(f + [e], kind) == Places(f, kind) + if Is(kind, e) then [|f|] else []
  {
    assert (f + [e])[..|f|] == f;
  }

  /** One more action with its observation. */
  lemma PlacesOfPair(f: seq<Event>, a: Event, b: Event, kind: Kind, places: seq<nat>, k: nat)
    requires Places(f, kind) == places && IsAction(a) && !IsAction(b)
    requires (kind == Actions && k == 0) || (kind == Observations && k == 1)
    ensures Places(f + [a, b], kind) == places + [|f| + k]
  {
    assert f + [a, b] == f + [a] + [b];
    PlacesOfNext(f, a, kind);
    PlacesOfNext(f + [a], b, kind);
  }

  /** Four actions, each with its observation. */
  function Pairs(a: Event, b: Event, c: Event, d: Event, w: Event, x: Event, y: Event, z: Event): seq<Event> {
    [] + [a, w] + [b, x] + [c, y] + [d, z]
  }

  lemma PlacesOfPairs(a: Event, b: Event, c: Event, d: Event, w: Event, x: Event, y: Event, z: Event)
    requires IsAction(a) && IsAction(b) && IsAction(c) && IsAction(d)
    requires !IsAction(w) && !IsAction(x) && !IsAction(y) && !IsAction(z)
    ensures var f := Pairs(a, b, c, d, w, x, y, z);
            && f == [a, w, b, x, c, y, d, z]
            && Places(f, Actions) == [0, 2, 4, 6] && Places(f, Observations) == [1, 3, 5, 7]
  {
    PlacesOfPairsOf(a, b, c, d, w, x, y, z, Actions);
    PlacesOfPairsOf(a, b, c, d, w, x, y, z, Observations);
  }

  lemma PlacesOfPairsOf(
    a: Event, b: Event, c: Event, d: Event, w: Event, x: Event, y: Event, z: Event, kind: Kind)
    requires IsAction(a) && IsAction(b) && IsAction(c) && IsAction(d)
    requires !IsAction(w) && !IsAction(x) && !IsAction(y) && !IsAction(z)
    requires kind == Actions || kind == Observations
    ensures var k := if kind == Actions then 0 else 1;
            Places(Pairs(a, b, c, d, w, x, y, z), kind) == [k, 2 + k, 4 + k, 6 + k]
  {
    var one := [] + [a, w];
    var two := one + [b, x];
    var three := two + [c, y];
    assert |one| == 2 && |two| == 4 && |three| == 6;
    var k := if kind == Actions then 0 else 1;
    PlacesOfPair([], a, w, kind, [], k);
    PlacesOfPair(one, b, x, kind, [k], k);
    PlacesOfPair(two, c, y, kind, [k, 2 + k], k);
    PlacesOfPair(three, d, z, kind, [k, 2 + k, 4 + k], k);
  }

  lemma LastFour(f: seq<Event>, kind: Kind)
    requires |Places(f, kind)| == 4
    ensures var p := Places(f, kind);
            Last(f, kind, 4) == [f[p[3]], f[p[2]], f[p[1]], f[p[0]]]
  {
  }

  lemma {:induction false} FilteredKeepsAll(events: seq<Event>)
    requires AllLooked(events)
    ensures Filtered(events) == events
  {
    if events != [] {
      FilteredKeepsAll(events[..|events| - 1]);
    }
  }

  /*** A fourth action. ***/

  function AfterAnotherAction(): seq<Event> {
    Pairs(FIRST, SECOND, SECOND, SECOND, OUTPUT, FAILURE, FAILURE, FAILURE)
  }

  lemma AnotherActionIsIndexed()
    ensures var f := AfterAnotherAction();
            && |f| == 8 && !RepeatsActionObservation(f) && RepeatsError(f)
            && StartOfActions(f, 4) == 0 && FromEnd(f, Actions, 3) == 2
  {
    var f := AfterAnotherAction();
    PlacesOfPairs(FIRST, SECOND, SECOND, SECOND, OUTPUT, FAILURE, FAILURE, FAILURE);
    LastFour(f, Actions);
    LastFour(f, Observations);
    var actions := Last(f, Actions, 4);
    assert !EqNoPid(actions[0], actions[3]);
    assert actions[..3] == [SECOND, SECOND, SECOND];
    assert Last(f, Observations, 4)[..3] == [FAILURE, FAILURE, FAILURE];
  }

  lemma LookedWhole(f: seq<Event>)
    requires AllLooked(f)
    ensures Looked(f, true) == f
  {
    assert f[0..] == f;
    FilteredKeepsAll(f);
  }

  lemma {:induction false} RawOfWhole(events: seq<Event>)
    requires AllLooked(events)
    ensures RawPlaces(events) == seq(|events|, i => i)
  {
    if events != [] {
      RawOfWhole(events[..|events| - 1]);
    }
  }

  lemma WholeIsInPlace(h: seq<Event>, k: nat)
    requires AllLooked(h) && k < |h|
    ensures k < |Looked(h, true)| && RawPlace(h, true, k) == k
  {
    assert h[0..] == h;
    LookedWhole(h);
    RawOfWhole(h);
  }

  lemma AnotherActionIsFound()
    ensures var h := AfterAnotherAction();
            Looked(h, true) == h && IsFound(h, true, RepeatingActionError, 0)
  {
    AnotherActionIsIndexed();
    LookedWhole(AfterAnotherAction());
  }

  /** The same action fails three times, after another action that succeeded: the other action and
      its observation are cut off too. */
  lemma AnotherActionIsLost()
    ensures IsFound(AfterAnotherAction(), true, RepeatingActionError, 0)
    ensures Enough(Looked(AfterAnotherAction(), true), RepeatingActionError)
    ensures LoopBegins(AfterAnotherAction(), true, RepeatingActionError) == 2
  {
    AnotherActionIsIndexed();
    AnotherActionIsFound();
    WholeIsInPlace(AfterAnotherAction(), 2);
  }

  /*** A message of the user. ***/

  function AfterRequest(): seq<Event> {
    [REQUEST] + Pairs(FIRST, FIRST, FIRST, FIRST, OUTPUT, OUTPUT, OUTPUT, OUTPUT)
  }

  lemma {:induction false} FilteredBehindRequest(events: seq<Event>)
    requires AllLooked(events)
    ensures Filtered([REQUEST] + events) == events
  {
    if events == [] {
      assert [REQUEST] + events == [REQUEST] && [REQUEST][..0] == [];
    } else {
      var n := |events| - 1;
      assert ([REQUEST] + events)[..n + 1] == [REQUEST] + events[..n];
      FilteredBehindRequest(events[..n]);
    }
  }

  lemma RawPlacesNext(events: seq<Event>, e: Event)
    requires IsLooked(e)
    ensures RawPlaces(events + [e]) == RawPlaces(events) + [|events|]
  {
    assert (events + [e])[..|events|] == events;
  }

  /** 1, 2, and so on up to n. */
  function OneOnwards(n: nat): seq<nat> {
    seq(n, i requires 0 <= i => i + 1)
  }

  lemma OneOnwardsNext(n: nat)
    ensures OneOnwards(n + 1) == OneOnwards(n) + [n + 1]
  {
  }

  lemma {:induction false} RawBehindRequest(events: seq<Event>)
    requires AllLooked(events)
    ensures RawPlaces([REQUEST] + events) == OneOnwards(|events|)
  {
    if events == [] {
      assert [REQUEST] + events == [REQUEST] && [REQUEST][..0] == [];
    } else {
      var n := |events| - 1;
      RawBehindRequest(events[..n]);
      RawPlacesNext([REQUEST] + events[..n], events[n]);
      LastBehind(REQUEST, events);
      OneOnwardsNext(n);
    }
  }

  lemma LastBehind(e: Event, events: seq<Event>)
    requires events != []
    ensures var n := |events| - 1; [e] + events == [e] + events[..n] + [events[n]]
  {
  }

  lemma PairsRepeat()
    ensures var f := Pairs(FIRST, FIRST, FIRST, FIRST, OUTPUT, OUTPUT, OUTPUT, OUTPUT);
            && |f| == 8 && AllLooked(f) && RepeatsActionObservation(f)
            && StartOfActions(f, 4) == 0 && FromEnd(f, Actions, 4) == 0
  {
    var f := Pairs(FIRST, FIRST, FIRST, FIRST, OUTPUT, OUTPUT, OUTPUT, OUTPUT);
    PlacesOfPairs(FIRST, FIRST, FIRST, FIRST, OUTPUT, OUTPUT, OUTPUT, OUTPUT);
    LastFour(f, Actions);
    LastFour(f, Observations);
  }

  lemma RequestIsNotLooked()
    ensures Looked(AfterRequest(), true) == Pairs(FIRST, FIRST, FIRST, FIRST, OUTPUT, OUTPUT, OUTPUT, OUTPUT)
    ensures RawPlace(AfterRequest(), true, 0) == 1
  {
    var h, f := AfterRequest(), Pairs(FIRST, FIRST, FIRST, FIRST, OUTPUT, OUTPUT, OUTPUT, OUTPUT);
    PairsRepeat();
    assert h[0..] == h;
    FilteredBehindRequest(f);
    RawBehindRequest(f);
  }

  /** A request of the user and a loop right behind it: in headless mode the request is cut off too,
      and nothing is left. */
  lemma RequestIsLost()
    ensures IsFound(AfterRequest(), true, RepeatingActionObservation, 0)
    ensures Enough(Looked(AfterRequest(), true), RepeatingActionObservation)
    ensures LoopBegins(AfterRequest(), true, RepeatingActionObservation) == 1
  {
    RequestIsNotLooked();
    PairsRepeat();
  }

  /*** The same command, failing and not. ***/

  function Ran(exitCode: int, pid: int): Event {
    Event(EnvironmentSource, CommandOutput("make", exitCode, pid))
  }

  lemma NthOfPairs(f: seq<Event>, kind: Kind)
    requires |Places(f, kind)| == 4
    ensures Nth(f, kind, 1) == f[Places(f, kind)[3]].body && Nth(f, kind, 2) == f[Places(f, kind)[2]].body
    ensures Nth(f, kind, 3) == f[Places(f, kind)[1]].body && Nth(f, kind, 4) == f[Places(f, kind)[0]].body
  {
  }

  lemma NoMessages(f: seq<Event>)
    requires forall i :: 0 <= i < |f| ==> !f[i].body.Message?
    ensures Places(f, AgentMessages) == []
  {
  }

  function FourRuns(w: int, x: int, y: int, z: int, pids: (int, int, int, int)): seq<Event> {
    Pairs(FIRST, FIRST, FIRST, FIRST, Ran(w, pids.0), Ran(x, pids.1), Ran(y, pids.2), Ran(z, pids.3))
  }

  lemma FourRunsAre(w: int, x: int, y: int, z: int, pids: (int, int, int, int))
    ensures var h := FourRuns(w, x, y, z, pids);
            && h == [FIRST, Ran(w, pids.0), FIRST, Ran(x, pids.1), FIRST, Ran(y, pids.2), FIRST, Ran(z, pids.3)]
            && Places(h, Actions) == [0, 2, 4, 6] && Places(h, Observations) == [1, 3, 5, 7]
  {
    PlacesOfPairs(FIRST, FIRST, FIRST, FIRST, Ran(w, pids.0), Ran(x, pids.1), Ran(y, pids.2), Ran(z, pids.3));
  }

  lemma SameActions(h: seq<Event>)
    requires |h| == 8 && Places(h, Actions) == [0, 2, 4, 6]
    requires h[0] == h[2] == h[4] == h[6] == FIRST
    ensures LastAlike(h, Actions, 4)
  {
    NthOfPairs(h, Actions);
  }

  lemma RunsAre(h: seq<Event>, w: int, x: int, y: int, z: int)
    requires |h| == 8 && Places(h, Observations) == [1, 3, 5, 7]
    requires h[1].body.CommandOutput? && h[1].body.command == "make" && h[1].body.exitCode == w
    requires h[3].body.CommandOutput? && h[3].body.command == "make" && h[3].body.exitCode == x
    requires h[5].body.CommandOutput? && h[5].body.command == "make" && h[5].body.exitCode == y
    requires h[7].body.CommandOutput? && h[7].body.command == "make" && h[7].body.exitCode == z
    ensures LastAlike(h, Observations, 4) <==> w == x == y == z
    ensures Nth(h, Observations, 1).CommandOutput?
  {
    NthOfPairs(h, Observations);
    RunsAlikeIff(h, w, x, y, z);
  }

  lemma FourRunsShow(h: seq<Event>, t: LoopType)
    requires |h| == 8 && Places(h, AgentMessages) == []
    requires |Places(h, Actions)| == 4 && |Places(h, Observations)| == 4
    requires LastAlike(h, Actions, 4) && Nth(h, Observations, 1).CommandOutput?
    ensures IsReported(h, t) <==> t == RepeatingActionObservation && LastAlike(h, Observations, 4)
  {
  }

  lemma RunsAlikeIff(h: seq<Event>, w: int, x: int, y: int, z: int)
    requires |Places(h, Observations)| == 4
    requires Nth(h, Observations, 4).CommandOutput? && Nth(h, Observations, 4).exitCode == w
    requires Nth(h, Observations, 3).CommandOutput? && Nth(h, Observations, 3).exitCode == x
    requires Nth(h, Observations, 2).CommandOutput? && Nth(h, Observations, 2).exitCode == y
    requires Nth(h, Observations, 1).CommandOutput? && Nth(h, Observations, 1).exitCode == z
    requires forall i :: 1 <= i <= 4 ==> Nth(h, Observations, i).command == Nth(h, Observations, 1).command
    ensures LastAlike(h, Observations, 4) <==> w == x == y == z
  {
    if LastAlike(h, Observations, 4) {
      assert Alike(Nth(h, Observations, 1), Nth(h, Observations, 2));
      assert Alike(Nth(h, Observations, 1), Nth(h, Observations, 3));
      assert Alike(Nth(h, Observations, 1), Nth(h, Observations, 4));
    }
  }

  lemma RunsAreLooked(h: seq<Event>, w: Event, x: Event, y: Event, z: Event)
    requires h == [FIRST, w, FIRST, x, FIRST, y, FIRST, z]
    requires w.body.CommandOutput? && x.body.CommandOutput? && y.body.CommandOutput? && z.body.CommandOutput?
    ensures AllLooked(h) && Places(h, AgentMessages) == []
  {
    NoMessages(h);
  }

  lemma RunsAreStuckIff(h: seq<Event>, w: Event, x: Event, y: Event, z: Event)
    requires h == [FIRST, w, FIRST, x, FIRST, y, FIRST, z]
    requires w.body.CommandOutput? && w.body.command == "make" && x.body.CommandOutput? && x.body.command == "make"
    requires y.body.CommandOutput? && y.body.command == "make" && z.body.CommandOutput? && z.body.command == "make"
    requires Places(h, Actions) == [0, 2, 4, 6] && Places(h, Observations) == [1, 3, 5, 7]
    ensures IsStuck(h, true) <==> w.body.exitCode == x.body.exitCode == y.body.exitCode == z.body.exitCode
  {
    SameActions(h);
    RunsAre(h, w.body.exitCode, x.body.exitCode, y.body.exitCode, z.body.exitCode);
    RunsAreLooked(h, w, x, y, z);
    StuckIfAlike(h);
  }

  /** The same command four times: it is a loop if and only if the exit codes agree, whatever the
      process ids are. */
  lemma FourRunsAreStuckIff(w: int, x: int, y: int, z: int, pids: (int, int, int, int))
    ensures IsStuck(FourRuns(w, x, y, z, pids), true) <==> w == x == y == z
  {
    FourRunsAre(w, x, y, z, pids);
    RunsAreStuckIff(FourRuns(w, x, y, z, pids), Ran(w, pids.0), Ran(x, pids.1), Ran(y, pids.2), Ran(z, pids.3));
  }

  lemma StuckIfAlike(h: seq<Event>)
    requires |h| == 8 && AllLooked(h) && Places(h, AgentMessages) == []
    requires |Places(h, Actions)| == 4 && |Places(h, Observations)| == 4
    requires LastAlike(h, Actions, 4) && Nth(h, Observations, 1).CommandOutput?
    ensures IsStuck(h, true) <==> LastAlike(h, Observations, 4)
  {
    FourRunsShow(h, RepeatingActionObservation);
    LookedWhole(h);
    FoundIff(h, true, RepeatingActionObservation);
    if IsStuck(h, true) {
      var t := Found(h, true).value.loopType;
      FoundIff(h, true, t);
      FourRunsShow(h, t);
    }
  }
}
