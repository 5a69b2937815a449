/** When a pending tool call is dropped, and when what was pending is acknowledged. */
module ControllerCalls {
  import opened Wrappers
  import opened ControllerState
  import opened ControllerInvariants
  import opened ControllerRuns

  /*** What the controller adds when it is interrupted. ***/

  predicate NoObservationArrives(s: State) {
    forall i, j :: 0 <= i < |s.arrivals| && 0 <= j < |s.arrivals[i]| ==> !IsObservation(s.arrivals[i][j])
  }

  predicate IsNotice(e: Event) {
    IsObservation(e) ==> e.tool.None? && e.cause.None?
  }

  /** No observation came that answers an action. */
  predicate OnlyNotices(s: State, t: State) {
    && Extends(s, t) && NoObservationArrives(t)
    && forall i :: |s.stream| <= i < |t.stream| ==> IsNotice(t.stream[i])
  }

  lemma OnlyNoticesThen(s: State, t: State, u: State)
    requires OnlyNotices(s, t) && OnlyNotices(t, u)
    ensures OnlyNotices(s, u)
  {
  }

  lemma EmitNotices(s: State, e: Event)
    requires NoObservationArrives(s) && IsNotice(e)
    ensures OnlyNotices(s, Emit(s, e))
  {
    var t := NextArrivals(s);
    if s.arrivals != [] {
      assert forall j :: 0 <= j < |s.arrivals[0]| ==> !IsObservation(s.arrivals[0][j]);
      assert forall i, j :: 0 <= i < |t.arrivals| && 0 <= j < |t.arrivals[i]| ==>
                              t.arrivals[i][j] == s.arrivals[i + 1][j];
    }
  }

  lemma RunningNotices(s: State)
    requires NoObservationArrives(s)
    ensures OnlyNotices(s, SetAgentState(s, RUNNING))
  {
    EmitNotices(s.(agentState := RUNNING), NewEvent(EnvironmentSource, StateChanged(RUNNING)));
  }

  lemma UserMessageNotices(s: State)
    requires NoObservationArrives(s)
    ensures OnlyNotices(s, HandleUserMessage(s))
  {
    EmitNotices(s, NewEvent(UserSource, Recall));
    RunningNotices(Retrieving(s));
    OnlyNoticesThen(s, Retrieving(s), HandleUserMessage(s));
  }

  lemma RestartNotices(s: State, point: nat)
    requires NoObservationArrives(s) && HasUserMessage(s.history)
    ensures OnlyNotices(s, RestartWithLastUserMessage(s, point))
  {
    var t := SetAgentState(Truncate(s, point), RUNNING);
    var u := Emit(t, NewEvent(EnvironmentSource, LoopDetection));
    RunningNotices(Truncate(s, point));
    EmitNotices(t, NewEvent(EnvironmentSource, LoopDetection));
    UserMessageNotices(u);
    OnlyNoticesThen(s, t, u);
    OnlyNoticesThen(s, u, HandleUserMessage(u));
  }

  lemma HandlingNotices(s: State, e: Event)
    requires StartsRetrieval(s, e) && NoObservationArrives(s)
    ensures OnlyNotices(s, Handle(s, e))
  {
    var t := AddHistory(s, e);
    if IsUserMessage(e) {
      UserMessageNotices(t);
    } else {
      RestartNotices(t, t.loopStart.value);
    }
  }

  lemma StepNeedsEmptySlot(s: State, config: Config, outcome: Outcome, analysis: Option<nat>)
    requires s.pending.Some?
    ensures Step(s, config, outcome, analysis) == s
  {
  }

  lemma InterruptionNotices(s: State, config: Config, m: Move)
    requires Inv(s) && Enabled(s, m) && Interrupts(s, m) && NoObservationArrives(s)
    ensures OnlyNotices(s, Apply(s, config, m))
  {
    HandlingNotices(Notified(s), s.stream[s.handled]);
    InterruptionIsHandled(s, config, m);
  }

  lemma InterruptionIsHandled(s: State, config: Config, m: Move)
    requires Inv(s) && Enabled(s, m) && Interrupts(s, m)
    ensures Apply(s, config, m) == Handle(Notified(s), s.stream[s.handled])
  {
    HandleNextKeeps(s);
    StepNeedsEmptySlot(HandleNext(s), config, m.outcome, m.analysis);
  }

  lemma NoticesDoNotAnswer(s: State, t: State, tool: Option<int>)
    requires Inv(s) && OnlyNotices(s, t) && tool.Some? && Answered(t.stream, tool)
    ensures Answered(s.stream, tool)
  {
    var i :| 0 <= i < |t.stream| && Answers(t.stream, i, tool);
    assert i < |s.stream| && EventOk(s.stream, i);
    assert Answers(s.stream, i, tool);
  }

  /*** Dropped calls. ***/

  /** A pending tool call is dropped without an answer only when a message of the user (or a restart
      with the last one) is handled while the call is pending and has no answer on the stream. If no
      observation arrives in the middle of that very move, it then is. In particular, stopping the
      agent or its failing never drops one. */
  lemma CallIsDroppedIff(s: State, config: Config, m: Move)
    requires Inv(s) && Enabled(s, m) && HasCall(s)
    ensures !KeepsCall(s, Apply(s, config, m)) ==> Interrupts(s, m) && !Answered(s.stream, s.pending.value.tool)
    ensures NoObservationArrives(s) ==>
              (!KeepsCall(s, Apply(s, config, m))
               <==> Interrupts(s, m) && !Answered(s.stream, s.pending.value.tool))
  {
    var t := Apply(s, config, m);
    MoveKeeps(s, config, m);
    if Answered(s.stream, s.pending.value.tool) {
      AnswerStays(s, t, s.pending.value.tool);
    } else if Interrupts(s, m) && NoObservationArrives(s) && Answered(t.stream, s.pending.value.tool) {
      InterruptionNotices(s, config, m);
      NoticesDoNotAnswer(s, t, s.pending.value.tool);
    }
  }

  /*** Over a run. ***/

  predicate NeverInterrupted(s: State, config: Config, moves: seq<Move>)
    requires IsRun(s, config, moves)
    decreases |moves|
  {
    moves == []
    || ((HasCall(s) ==> !Interrupts(s, moves[0])) && NeverInterrupted(Apply(s, config, moves[0]), config, moves[1..]))
  }

  /** If no message of the user interrupts a pending call, then every call that was ever pending is
      still pending or has an answer on the stream; so another one is made only when it has. */
  lemma {:induction false} CallsAreAnswered(s: State, config: Config, moves: seq<Move>)
    requires Inv(s) && IsRun(s, config, moves) && NeverInterrupted(s, config, moves)
    ensures KeepsCall(s, After(s, config, moves))
    decreases |moves|
  {
    if moves != [] {
      var t := Apply(s, config, moves[0]);
      MoveKeeps(s, config, moves[0]);
      CallsAreAnswered(t, config, moves[1..]);
      RunKeeps(t, config, moves[1..]);
      if HasCall(s) {
        KeepsCallThen(s, t, After(t, config, moves[1..]));
      }
    }
  }

  /** While an action with this metadata is pending, no message of the user interrupts it, and no
      observation that lacks the metadata answers it. */
  predicate Undisturbed(s: State, config: Config, moves: seq<Move>, tool: Option<int>)
    requires IsRun(s, config, moves)
    decreases |moves|
  {
    moves == []
    || (&& (PendingCall(s, tool) ==> !Interrupts(s, moves[0]) && !HandlesBareAnswer(s, moves[0]))
        && Undisturbed(Apply(s, config, moves[0]), config, moves[1..], tool))
  }

  lemma MoveHolds(s: State, config: Config, m: Move, tool: Option<int>)
    requires Inv(s) && Enabled(s, m) && Held(s, tool)
    requires PendingCall(s, tool) ==> !Interrupts(s, m) && !HandlesBareAnswer(s, m)
    ensures Held(Apply(s, config, m), tool)
  {
    MoveKeeps(s, config, m);
    if HasObservation(s.stream, tool) {
      ObservationStays(s, Apply(s, config, m), tool);
    }
  }

  lemma {:induction false} RunHolds(s: State, config: Config, moves: seq<Move>, tool: Option<int>)
    requires Inv(s) && IsRun(s, config, moves) && Held(s, tool) && Undisturbed(s, config, moves, tool)
    ensures Held(After(s, config, moves), tool)
    decreases |moves|
  {
    if moves != [] {
      MoveKeeps(s, config, moves[0]);
      MoveHolds(s, config, moves[0], tool);
      RunHolds(Apply(s, config, moves[0]), config, moves[1..], tool);
    }
  }

  /** Over any such run, what was pending is still pending, or an observation with its metadata is on
      the stream; and the latter holds whenever the agent has stopped or failed. */
  lemma ActionsAreAcknowledged(s: State, config: Config, moves: seq<Move>)
    requires Inv(s) && IsRun(s, config, moves) && s.pending.Some?
    requires Undisturbed(s, config, moves, s.pending.value.tool)
    ensures Holds(s, After(s, config, moves))
    ensures Ends(After(s, config, moves).agentState) ==>
              HasObservation(After(s, config, moves).stream, s.pending.value.tool)
  {
    RunKeeps(s, config, moves);
    RunHolds(s, config, moves, s.pending.value.tool);
  }
}
