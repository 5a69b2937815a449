/** What loop recovery leaves in the controller's history, and that it is free of the loop. */
module ControllerRecovery {
  import opened Wrappers
  import opened MinMax
  import opened ControllerState
  import opened ControllerInvariants
  import opened ControllerRuns
  import opened ControllerInterleaving
  import opened ControllerOutcomes
  import StuckPatterns
  import StuckRecovery

  /*** Recovery, field by field. ***/

  /** The first events of a history, up to a point. */
  predicate IsCut(before: seq<Event>, point: nat, after: seq<Event>) {
    && |after| == Min(point, |before|)
    && forall i :: 0 <= i < |after| ==> after[i] == before[i]
  }

  /** Restarting from before the loop: the history up to the point is kept, the agent waits for the
      user, what is pending stays so, and the user is told. */
  lemma PerformedRecoveryIs(s: State, point: nat)
    requires Inv(s)
    ensures var t := PerformLoopRecovery(s, point);
            && IsCut(s.history, point, t.history) && t.agentState == AWAITING_USER_INPUT
            && t.pending == s.pending && t.loopStart == s.loopStart
            && EndsWith(t, NewEvent(EnvironmentSource, LoopDetection))
  {
    var u := Truncate(s, point);
    TruncateKeeps(s, point);
    ChangeIsAnnounced(u, AWAITING_USER_INPUT);
    SetAgentStateKeeps(u, AWAITING_USER_INPUT);
    EmitKeeps(SetAgentState(u, AWAITING_USER_INPUT), NewEvent(EnvironmentSource, LoopDetection));
  }

  lemma HandledMessageIs(s: State)
    requires Coherent(s)
    ensures var t := HandleUserMessage(s);
            && t.history == s.history && t.agentState == RUNNING && t.loopStart == s.loopStart
            && t.pending.Some? && t.pending.value.body == Recall && t.pending.value.source == UserSource
  {
    RetrievingIsCoherent(s);
    ChangeIsAnnounced(Retrieving(s), RUNNING);
  }

  /** Restarting with the last message of the user, if the history has one: the history up to the
      point is kept, and the agent runs with the retrieval for the message pending. Without one it is
      the other recovery. */
  lemma RestartIs(s: State, point: nat)
    requires Inv(s)
    ensures var t := RestartWithLastUserMessage(s, point);
            && IsCut(s.history, point, t.history)
            && (if exists i :: 0 <= i < |s.history| && IsUserMessage(s.history[i])
                then t.agentState == RUNNING && t.pending.Some? && t.pending.value.body == Recall
                else t.agentState == AWAITING_USER_INPUT && t.pending == s.pending)
  {
    if HasUserMessage(s.history) {
      var u := Truncate(s, point);
      var v := SetAgentState(u, RUNNING);
      TruncateKeeps(s, point);
      SetAgentStateKeeps(u, RUNNING);
      EmitKeeps(v, NewEvent(EnvironmentSource, LoopDetection));
      HandledMessageIs(Emit(v, NewEvent(EnvironmentSource, LoopDetection)));
    } else {
      PerformedRecoveryIs(s, point);
    }
  }

  /** The three options; without an analysis, and for any other option, nothing happens. */
  lemma LoopRecoveryIs(s: State, option: int)
    requires Inv(s)
    ensures var t := HandleLoopRecovery(s, option);
            && (s.loopStart.None? || !(1 <= option <= 3) ==> t == s)
            && (s.loopStart.Some? && 1 <= option <= 2 ==> IsCut(s.history, s.loopStart.value, t.history))
            && (s.loopStart.Some? && option == 1 ==>
                  t.agentState == AWAITING_USER_INPUT && t.pending == s.pending)
            && (s.loopStart.Some? && option == 2 && HasUserMessage(s.history) ==>
                  t.agentState == RUNNING && t.pending.Some? && t.pending.value.body == Recall)
            && (s.loopStart.Some? && option == 2 && !HasUserMessage(s.history) ==>
                  t.agentState == AWAITING_USER_INPUT && t.pending == s.pending)
            && (s.loopStart.Some? && option == 3 ==>
                  t.agentState == STOPPED && t.history == s.history && t.pending.None?)
  {
    if s.loopStart.Some? {
      PerformedRecoveryIs(s, s.loopStart.value);
      RestartIs(s, s.loopStart.value);
      ChangeIsAnnounced(s, STOPPED);
      SetAgentStateKeepsSlotEmpty(s);
    }
  }

  lemma SetAgentStateKeepsSlotEmpty(s: State)
    requires Inv(s)
    ensures SetAgentState(s, STOPPED).pending.None?
  {
    SetAgentStateKeeps(s, STOPPED);
  }

  /*** Between the detection of a loop and the recovery. ***/

  /** The move starts no step, and handles no recovery that cuts the history. */
  predicate LeavesHistory(s: State, m: Move)
    requires Enabled(s, m)
  {
    && (HasStep(s, m) ==> !Starts(BeforeStep(s, m)))
    && (m.OnEvent? && s.stream[s.handled].body.LoopRecovery? ==> !(1 <= s.stream[s.handled].body.option <= 2))
  }

  predicate AllLeaveHistory(s: State, config: Config, moves: seq<Move>)
    requires IsRun(s, config, moves)
    decreases |moves|
  {
    moves == []
    || (LeavesHistory(s, moves[0]) && AllLeaveHistory(Apply(s, config, moves[0]), config, moves[1..]))
  }

  predicate OnlyGrew(s: State, t: State) {
    s.history <= t.history && t.loopStart == s.loopStart
  }

  lemma ObservingGrows(s: State, e: Event)
    requires Inv(s)
    ensures OnlyGrew(s, HandleObservation(s, e))
  {
    var v := s.(pending := None);
    if s.agentState == USER_CONFIRMED {
      ChangeIsAnnounced(v, RUNNING);
    } else if s.agentState == USER_REJECTED {
      ChangeIsAnnounced(v, AWAITING_USER_INPUT);
    }
  }

  lemma ActingGrows(s: State, e: Event)
    requires Inv(s)
    requires e.body.LoopRecovery? ==> !(1 <= e.body.option <= 2)
    ensures OnlyGrew(s, HandleAction(s, e))
  {
    if IsUserMessage(e) {
      HandledMessageIs(s);
    } else if e.body.LoopRecovery? {
      ChangeIsAnnounced(s, STOPPED);
    } else {
      ChangeIsAnnounced(s, StateFor(s, e));
    }
  }

  lemma SeeingGrows(s: State, e: Event)
    requires Inv(s) && OnStream(s.stream, e)
    ensures Inv(AddHistory(s, e)) && OnlyGrew(s, AddHistory(s, e))
  {
  }

  lemma HandlingGrows(s: State, e: Event)
    requires Inv(s) && OnStream(s.stream, e)
    requires e.body.LoopRecovery? ==> !(1 <= e.body.option <= 2)
    ensures OnlyGrew(s, Handle(s, e))
  {
    SeeingGrows(s, e);
    if IsObservation(e) {
      ObservingGrows(AddHistory(s, e), e);
    } else {
      ActingGrows(AddHistory(s, e), e);
    }
  }

  lemma HandleNextGrows(s: State)
    requires Inv(s) && s.handled < |s.stream|
    requires var e := s.stream[s.handled]; e.body.LoopRecovery? ==> !(1 <= e.body.option <= 2)
    ensures OnlyGrew(s, HandleNext(s))
  {
    if s.stream[s.handled].hidden {
      GrewSinceNotified(s, Notified(s));
    } else {
      NextGrows(s, Notified(s), s.stream[s.handled]);
    }
  }

  lemma NextGrows(s: State, t: State, e: Event)
    requires Inv(s) && s.handled < |s.stream| && t == Notified(s) && e == s.stream[s.handled]
    requires e.body.LoopRecovery? ==> !(1 <= e.body.option <= 2)
    ensures OnlyGrew(s, Handle(t, e))
  {
    NotifiedKeeps(s);
    HandlingGrows(t, e);
    GrewSinceNotified(s, Handle(t, e));
  }

  lemma GrewSinceNotified(s: State, u: State)
    requires OnlyGrew(Notified(s), u)
    ensures OnlyGrew(s, u)
  {
  }

  lemma MoveGrows(s: State, config: Config, m: Move)
    requires Inv(s) && Enabled(s, m) && LeavesHistory(s, m)
    ensures OnlyGrew(s, Apply(s, config, m))
  {
    match m
    case Others(_) =>
    case Set(to) => ChangeIsAnnounced(s, to);
    case StepNow(_, _) =>
    case OnEvent(_, _) => HandleNextGrows(s);
  }

  lemma {:induction false} RunGrows(s: State, config: Config, moves: seq<Move>)
    requires Inv(s) && IsRun(s, config, moves) && AllLeaveHistory(s, config, moves)
    ensures Inv(After(s, config, moves)) && OnlyGrew(s, After(s, config, moves))
    decreases |moves|
  {
    if moves != [] {
      MoveGrows(s, config, moves[0]);
      MoveKeeps(s, config, moves[0]);
      RunGrows(Apply(s, config, moves[0]), config, moves[1..]);
    }
  }

  /*** With the detector. ***/

  /** The history as the detector sees it, for any way of seeing an event. */
  function Shown(look: Event -> StuckPatterns.Event, history: seq<Event>): seq<StuckPatterns.Event> {
    seq(|history|, i requires 0 <= i < |history| => look(history[i]))
  }

  /** Where the detector says the loop starts. */
  function StartOf(shown: seq<StuckPatterns.Event>, headless: bool): nat
    requires StuckPatterns.IsStuck(shown, headless)
  {
    StuckPatterns.Found(shown, headless).value.loopStart
  }

  /** No event that the loop repeats is among the first n. */
  predicate IsFreeOfLoop(shown: seq<StuckPatterns.Event>, headless: bool, n: nat)
    requires StuckPatterns.IsStuck(shown, headless)
  {
    var t := StuckPatterns.Found(shown, headless).value.loopType;
    var f := StuckPatterns.Looked(shown, headless);
    && StuckRecovery.Enough(f, t)
    && forall i :: 1 <= i <= StuckRecovery.Count(t) ==>
         n <= StuckRecovery.RawPlace(shown, headless, StuckRecovery.Repeated(f, t, i))
  }

  lemma StartIsFree(shown: seq<StuckPatterns.Event>, headless: bool)
    requires StuckPatterns.IsStuck(shown, headless)
    ensures StartOf(shown, headless) < |shown|
    ensures IsFreeOfLoop(shown, headless, StartOf(shown, headless))
  {
    var t := StuckPatterns.Found(shown, headless).value.loopType;
    StuckRecovery.RecoveryRemovesLoop(shown, headless, 1);
    forall i | 1 <= i <= StuckRecovery.Count(t)
      ensures StartOf(shown, headless)
           <= StuckRecovery.RawPlace(shown, headless,
                                     StuckRecovery.Repeated(StuckPatterns.Looked(shown, headless), t, i))
    {
      StuckRecovery.RecoveryRemovesLoop(shown, headless, i);
    }
  }

  /** The next event is a loop recovery by option 1 or 2. */
  predicate RecoversNext(s: State) {
    s.handled < |s.stream|
    && (var e := s.stream[s.handled]; !e.hidden && e.body.LoopRecovery? && 1 <= e.body.option <= 2)
  }

  lemma RecoveryCutsTo(s: State, seen: seq<Event>)
    requires Inv(s) && RecoversNext(s) && seen <= s.history
    requires s.loopStart.Some? && s.loopStart.value <= |seen|
    ensures HandleNext(s).history == seen[..s.loopStart.value]
  {
    var e := s.stream[s.handled];
    NotifiedKeeps(s);
    var u := AddHistory(Notified(s), e);
    assert Inv(u) && seen <= u.history;
    LoopRecoveryIs(u, e.body.option);
  }

  /** A step finds the agent stuck; whatever comes in between, if no other step and no recovery does,
      the recovery leaves exactly the events before the reported start of the loop: fewer than there
      were, and none of those that the loop repeats. */
  lemma RecoveryFreesHistory(s: State, config: Config, moves: seq<Move>, look: Event -> StuckPatterns.Event,
                             headless: bool)
    requires IsIdle(s) && StuckPatterns.IsStuck(Shown(look, s.history), headless)
    requires var t := Step(s, config, Stuck, Some(StartOf(Shown(look, s.history), headless)));
             && IsRun(t, config, moves) && AllLeaveHistory(t, config, moves)
             && RecoversNext(After(t, config, moves))
    ensures var start := StartOf(Shown(look, s.history), headless);
            var u := After(Step(s, config, Stuck, Some(start)), config, moves);
            && start < |s.history| && HandleNext(u).history == s.history[..start]
            && IsFreeOfLoop(Shown(look, s.history), headless, |HandleNext(u).history|)
  {
    var start := StartOf(Shown(look, s.history), headless);
    var t := Step(s, config, Stuck, Some(start));
    StartIsFree(Shown(look, s.history), headless);
    FailuresAre(s, config, Stuck, Some(start));
    StepKeeps(s, config, Stuck, Some(start));
    RunGrows(t, config, moves);
    RecoveryCutsTo(After(t, config, moves), s.history);
  }
}
