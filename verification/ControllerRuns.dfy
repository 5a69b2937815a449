/** What holds over every run of the controller. */
module ControllerRuns {
  import opened Wrappers
  import opened ControllerState
  import opened ControllerInvariants

  /*** Handling one event. ***/

  /** The events whose handling gives the slot to the retrieval for a message of the user. */
  predicate StartsRetrieval(s: State, e: Event) {
    || IsUserMessage(e)
    || (e.body.LoopRecovery? && e.body.option == 2 && s.loopStart.Some? && HasUserMessage(AddHistory(s, e).history))
  }

  predicate RetrievalIsPending(s: State) {
    s.pending.Some? && s.pending.value.body.Recall? && s.pending.value.tool.None?
  }

  /** The state in which a message of the user has given the slot to its retrieval. */
  function Retrieving(s: State): State {
    var t := Emit(s, NewEvent(UserSource, Recall));
    t.(pending := Some(NewEvent(UserSource, Recall).(id := |t.stream| - 1)))
  }

  lemma RetrievingIsCoherent(s: State)
    requires Coherent(s)
    ensures var t := Retrieving(s);
            Coherent(t) && Extends(s, t) && t.handled == s.handled && t.pending.value.id >= |s.stream|
  {
    EmitKeeps(s, NewEvent(UserSource, Recall));
  }

  lemma HandleUserMessageKeeps(s: State)
    requires Coherent(s)
    ensures var t := HandleUserMessage(s);
            Inv(t) && Follows(s, t) && RetrievalIsPending(t)
  {
    var t := Retrieving(s);
    RetrievingIsCoherent(s);
    SetAgentStateKeeps(t, RUNNING);
    RunningKeepsSlot(t);
  }

  lemma RunningKeepsSlot(s: State)
    ensures SetAgentState(s, RUNNING).pending == s.pending
  {
  }

  lemma TruncateKeeps(s: State, point: nat)
    requires Inv(s)
    ensures Inv(Truncate(s, point)) && Follows(s, Truncate(s, point)) && Holds(s, Truncate(s, point))
  {
    var t := Truncate(s, point);
    forall i | 0 <= i < |t.history| ensures OnStream(t.stream, t.history[i]) {
      assert OnStream(s.stream, s.history[i]);
    }
  }

  lemma PerformLoopRecoveryKeeps(s: State, point: nat)
    requires Inv(s)
    ensures var t := PerformLoopRecovery(s, point);
            Inv(t) && Follows(s, t) && Holds(s, t)
  {
    var t := Truncate(s, point);
    var u := SetAgentState(t, AWAITING_USER_INPUT);
    TruncateKeeps(s, point);
    SetAgentStateKeeps(t, AWAITING_USER_INPUT);
    EmitKeeps(u, NewEvent(EnvironmentSource, LoopDetection));
    HoldsThen(s, t, u);
    HoldsThen(s, u, PerformLoopRecovery(s, point));
  }

  lemma HandleLoopRecoveryKeeps(s: State, option: int)
    requires Inv(s)
    ensures var t := HandleLoopRecovery(s, option);
            && Inv(t) && Follows(s, t)
            && (if option == 2 && s.loopStart.Some? && HasUserMessage(s.history)
                then RetrievalIsPending(t) else Holds(s, t))
  {
    if s.loopStart.Some? {
      if option == 2 && HasUserMessage(s.history) {
        var t := Truncate(s, s.loopStart.value);
        var u := SetAgentState(t, RUNNING);
        TruncateKeeps(s, s.loopStart.value);
        SetAgentStateKeeps(t, RUNNING);
        EmitKeeps(u, NewEvent(EnvironmentSource, LoopDetection));
        HandleUserMessageKeeps(Emit(u, NewEvent(EnvironmentSource, LoopDetection)));
      } else if option == 1 || option == 2 {
        PerformLoopRecoveryKeeps(s, s.loopStart.value);
      } else {
        SetAgentStateKeeps(s, STOPPED);
      }
    }
  }

  /** The observation vacates the slot. */
  predicate Vacates(s: State, e: Event) {
    && IsObservation(e) && s.pending.Some? && e.cause == Some(s.pending.value.id)
    && s.agentState != AWAITING_USER_CONFIRMATION
  }

  /** It does so without the metadata of what was pending. */
  predicate IsBareAnswer(s: State, e: Event) {
    Vacates(s, e) && e.tool != s.pending.value.tool
  }

  lemma HandleObservationKeeps(s: State, e: Event)
    requires Inv(s) && OnStream(s.stream, e) && IsObservation(e)
    ensures var t := HandleObservation(s, e);
            Inv(t) && Follows(s, t) && KeepsCall(s, t) && (!IsBareAnswer(s, e) ==> Holds(s, t))
  {
    if Vacates(s, e) {
      VacatingFollows(s, e);
      assert Answers(s.stream, e.id, s.pending.value.tool);
      AnswerStays(s, HandleObservation(s, e), s.pending.value.tool);
      if e.tool == s.pending.value.tool {
        assert HasObservation(s.stream, e.tool);
        ObservationStays(s, HandleObservation(s, e), e.tool);
      }
    }
  }

  lemma VacatingFollows(s: State, e: Event)
    requires Inv(s) && Vacates(s, e)
    ensures var t := HandleObservation(s, e);
            Inv(t) && Follows(s, t) && t.pending.None?
  {
    var t := s.(pending := None);
    SetAgentStateKeeps(t, RUNNING);
    SetAgentStateKeeps(t, AWAITING_USER_INPUT);
  }

  lemma HandleActionKeeps(s: State, e: Event)
    requires Inv(s) && OnStream(s.stream, e) && !IsObservation(e)
    ensures var t := HandleAction(s, e);
            && Inv(t) && Follows(s, t)
            && (if || IsUserMessage(e)
                   || (e.body.LoopRecovery? && e.body.option == 2 && s.loopStart.Some? && HasUserMessage(s.history))
                then RetrievalIsPending(t) else Holds(s, t))
  {
    match e.body
    case ChangeAgentState(to) => SetAgentStateKeeps(s, to);
    case Message(_) =>
      if e.source == UserSource {
        HandleUserMessageKeeps(s);
      } else {
        SetAgentStateKeeps(s, AWAITING_USER_INPUT);
      }
    case Finish => SetAgentStateKeeps(s, FINISHED);
    case Reject => SetAgentStateKeeps(s, REJECTED);
    case LoopRecovery(option) => HandleLoopRecoveryKeeps(s, option);
    case _ =>
  }

  lemma HandleKeeps(s: State, e: Event)
    requires Inv(s) && OnStream(s.stream, e)
    ensures var t := Handle(s, e);
            && Inv(t) && Follows(s, t)
            && (if StartsRetrieval(s, e) then RetrievalIsPending(t)
                else KeepsCall(s, t) && (!IsBareAnswer(s, e) ==> Holds(s, t)))
  {
    var t := AddHistory(s, e);
    assert Inv(t) && Follows(s, t);
    if IsObservation(e) {
      HandleObservationKeeps(t, e);
    } else {
      HandleActionKeeps(t, e);
      if !StartsRetrieval(s, e) {
        HoldsKeepsCall(t, Handle(s, e));
      }
    }
  }

  /*** Steps. ***/

  /** The controller steps only when the agent is running and the slot is empty, and a runnable
      action that it puts on the stream takes the slot. */
  lemma StepKeeps(s: State, config: Config, outcome: Outcome, analysis: Option<nat>)
    requires Inv(s) && GivesAction(outcome)
    ensures var t := Step(s, config, outcome, analysis);
            && Inv(t) && Follows(s, t) && Holds(s, t)
            && (t != s ==> s.agentState == RUNNING && s.pending.None?)
            && (s.agentState == RUNNING && s.pending.None? && outcome.Acts? && IsRunnable(outcome.action) ==>
                  && t.pending.Some? && t.pending.value.id == |t.stream| - 1
                  && t.pending.value.tool == outcome.action.tool)
  {
    if s.agentState == RUNNING && s.pending.None? {
      var t := s.(loopStart := analysis);
      match outcome
      case Stuck => SetAgentStateKeeps(t, ERROR);
      case Raises(retrying) => SetAgentStateKeeps(t, if retrying then RATE_LIMITED else ERROR);
      case NoAction => EmitKeeps(t, NewEvent(AgentSource, ErrorObservation));
      case ContextWindowExceeded => EmitKeeps(t, NewEvent(AgentSource, RequestCondensation));
      case Acts(action, analyzed) => ActKeeps(t, config, action, analyzed);
    }
  }

  lemma ActKeeps(s: State, config: Config, e: Event, analyzed: Risk)
    requires Inv(s) && s.agentState == RUNNING && s.pending.None? && !IsObservation(e)
    ensures var t := Act(s, config, e, analyzed);
            && Inv(t) && Follows(s, t)
            && (IsRunnable(e) ==>
                  t.pending.Some? && t.pending.value.id == |t.stream| - 1 && t.pending.value.tool == e.tool)
  {
    var action := WithConfirmation(config, e, analyzed);
    if !action.body.NullAction? {
      SetAgentStateKeeps(s, AWAITING_USER_CONFIRMATION);
      EmitKeeps(if AsksNow(action) then SetAgentState(s, AWAITING_USER_CONFIRMATION) else s, action);
    }
  }

  /*** Moves. ***/

  /** The move handles an event that starts a retrieval. */
  predicate Interrupts(s: State, m: Move)
    requires Enabled(s, m)
  {
    && m.OnEvent? && !s.stream[s.handled].hidden
    && StartsRetrieval(s.(handled := s.handled + 1), s.stream[s.handled])
  }

  predicate HandlesBareAnswer(s: State, m: Move)
    requires Enabled(s, m)
  {
    m.OnEvent? && !s.stream[s.handled].hidden && IsBareAnswer(s, s.stream[s.handled])
  }

  function Notified(s: State): State {
    s.(handled := s.handled + 1)
  }

  lemma NotifiedKeeps(s: State)
    requires Inv(s) && s.handled < |s.stream|
    ensures Inv(Notified(s)) && OnStream(s.stream, s.stream[s.handled])
  {
    assert EventOk(s.stream, s.handled);
  }

  lemma FromNotified(s: State, u: State)
    requires Follows(Notified(s), u)
    ensures Extends(s, u) && PendingIsSameOrNew(s, u)
    ensures (KeepsCall(Notified(s), u) ==> KeepsCall(s, u)) && (Holds(Notified(s), u) ==> Holds(s, u))
  {
  }

  /** What a move does with what is pending. */
  predicate Treats(s: State, m: Move, t: State)
    requires Enabled(s, m)
  {
    if Interrupts(s, m) then RetrievalIsPending(t)
    else KeepsCall(s, t) && (!HandlesBareAnswer(s, m) ==> Holds(s, t))
  }

  lemma HandleNextKeeps(s: State)
    requires Inv(s) && s.handled < |s.stream|
    ensures var t := HandleNext(s);
            && Inv(t) && Extends(s, t) && PendingIsSameOrNew(s, t)
            && Treats(s, OnEvent(NoAction, None), t)
  {
    var e := s.stream[s.handled];
    NotifiedKeeps(s);
    if !e.hidden {
      HandleKeeps(Notified(s), e);
      FromNotified(s, Handle(Notified(s), e));
    }
  }

  predicate LeadsTo(s: State, t: State) {
    Inv(t) && Extends(s, t) && PendingIsSameOrNew(s, t)
  }

  lemma LeadsToThen(s: State, t: State, u: State)
    requires LeadsTo(s, t) && LeadsTo(t, u)
    ensures LeadsTo(s, u)
  {
  }

  lemma TreatsThen(s: State, m: Move, t: State, u: State)
    requires Enabled(s, m) && Treats(s, m, t) && Holds(t, u) && Extends(t, u)
    requires RetrievalIsPending(t) ==> u == t
    ensures Treats(s, m, u)
  {
    if !Interrupts(s, m) {
      HoldsKeepsCall(t, u);
      KeepsCallThen(s, t, u);
      if !HandlesBareAnswer(s, m) {
        HoldsThen(s, t, u);
      }
    }
  }

  lemma MoveKeeps(s: State, config: Config, m: Move)
    requires Inv(s) && Enabled(s, m)
    ensures LeadsTo(s, Apply(s, config, m)) && Treats(s, m, Apply(s, config, m))
  {
    match m
    case Others(es) => ArriveKeeps(s, es);
    case Set(to) =>
      SetAgentStateKeeps(s, to);
      HoldsKeepsCall(s, Apply(s, config, m));
    case StepNow(outcome, analysis) =>
      StepKeeps(s, config, outcome, analysis);
      HoldsKeepsCall(s, Apply(s, config, m));
    case OnEvent(outcome, analysis) =>
      HandleNextKeeps(s);
      var t := HandleNext(s);
      StepKeeps(t, config, outcome, analysis);
      LeadsToThen(s, t, Step(t, config, outcome, analysis));
      TreatsThen(s, m, t, Step(t, config, outcome, analysis));
  }

  /*** Runs. ***/

  predicate IsRun(s: State, config: Config, moves: seq<Move>)
    decreases |moves|
  {
    moves == [] || (Enabled(s, moves[0]) && IsRun(Apply(s, config, moves[0]), config, moves[1..]))
  }

  function After(s: State, config: Config, moves: seq<Move>): State
    requires IsRun(s, config, moves)
    decreases |moves|
  {
    if moves == [] then s else After(Apply(s, config, moves[0]), config, moves[1..])
  }

  lemma {:induction false} RunKeeps(s: State, config: Config, moves: seq<Move>)
    requires Inv(s) && IsRun(s, config, moves)
    ensures LeadsTo(s, After(s, config, moves))
    decreases |moves|
  {
    if moves != [] {
      var t := Apply(s, config, moves[0]);
      MoveKeeps(s, config, moves[0]);
      RunKeeps(t, config, moves[1..]);
      LeadsToThen(s, t, After(t, config, moves[1..]));
    }
  }

  lemma InitialIsCoherent(s: State)
    requires Initial(s)
    ensures Inv(s)
  {
    forall i | 0 <= i < |s.stream| ensures EventOk(s.stream, i) {
      assert Numbered(s.stream[i], i) == s.stream[i];
    }
    assert forall i :: 0 <= i < |s.history| ==> s.history[i] in s.history;
  }

  /** Whatever the environment, the user and the agent do: an action is pending only while the
      agent is neither stopped nor failed, it is the event on the stream with its id, and the
      history of the agent is on the stream. */
  lemma SlotIsEmptyWhenStopped(s: State, config: Config, moves: seq<Move>)
    requires Initial(s) && IsRun(s, config, moves)
    ensures var t := After(s, config, moves);
            && (t.pending.Some? ==>
                  t.agentState != STOPPED && t.agentState != ERROR && OnStream(t.stream, t.pending.value))
            && (forall i :: 0 <= i < |t.history| ==> OnStream(t.stream, t.history[i]))
  {
    InitialIsCoherent(s);
    RunKeeps(s, config, moves);
  }

  /*** Confirmation. ***/

  /** A confirmed or rejected action is put on the stream again, under an id that none had. */
  lemma AnsweredActionIsReissued(s: State, to: AgentState)
    requires Inv(s) && s.pending.Some? && to != s.agentState && (to == USER_CONFIRMED || to == USER_REJECTED)
    ensures var t := SetAgentState(s, to);
            && t.pending.Some? && t.pending.value.id >= |s.stream| && OnStream(t.stream, t.pending.value)
            && t.pending.value.tool == s.pending.value.tool
            && (s.pending.value.body.Command? ==>
                  t.pending.value.body == Command(if to == USER_CONFIRMED then Confirmed else Rejected))
  {
    var u := s.(agentState := to);
    ReissueKeeps(u, to);
    SetAgentStateKeeps(s, to);
    EmitKeeps(Reissue(u, to), NewEvent(EnvironmentSource, StateChanged(to)));
  }

  function PendingId(s: State): Option<int> {
    if s.pending.Some? then Some(s.pending.value.id) else None
  }

  /** From then on, no observation that is caused by an event of before vacates the slot, whatever
      comes after: only what is caused by the pending action itself does. */
  lemma StaleObservationKeepsSlot(s: State, config: Config, moves: seq<Move>)
    requires Inv(s) && IsRun(s, config, moves)
    requires var t := After(s, config, moves);
             t.handled < |t.stream| && IsObservation(t.stream[t.handled])
    ensures var t := After(s, config, moves);
            var e := t.stream[t.handled];
            && (e.cause.Some? && e.cause.value < |s.stream| && e.cause != PendingId(s) ==>
                  HandleNext(t).pending == t.pending)
            && (HandleNext(t).pending != t.pending ==>
                  t.pending.Some? && e.cause == Some(t.pending.value.id) && e.id > t.pending.value.id)
  {
    RunKeeps(s, config, moves);
    var t := After(s, config, moves);
    var e := t.stream[t.handled];
    assert EventOk(t.stream, t.handled);
  }

  lemma RunFrom(s: State, config: Config, m: Move, rest: seq<Move>, t: State, u: State)
    requires Enabled(s, m) && Apply(s, config, m) == t && IsRun(t, config, rest) && After(t, config, rest) == u
    ensures IsRun(s, config, [m] + rest) && After(s, config, [m] + rest) == u
  {
    assert ([m] + rest)[1..] == rest;
  }
}
