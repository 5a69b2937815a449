/** The controller itself: each of its methods does what the state machine says. */
module AgentController {
  import opened Wrappers
  import opened ControllerState

  class AgentController {
    const config: Config
    var stream: seq<Event>
    var arrivals: seq<seq<Event>>
    var handled: nat
    var history: seq<Event>
    var pending: Option<Event>
    var agentState: AgentState
    var loopStart: Option<nat>

    constructor (config: Config, restored: State)
      requires Initial(restored)
      ensures View() == restored && this.config == config
    {
      this.config := config;
      stream := restored.stream;
      arrivals := restored.arrivals;
      handled := restored.handled;
      history := restored.history;
      pending := None;
      agentState := restored.agentState;
      loopStart := restored.loopStart;
    }

    ghost function View(): State
      reads this
    {
      State(stream, arrivals, handled, history, pending, agentState, loopStart)
    }

    /** event_stream.add_event, with what others add before it */
    method AddEvent(e: Event) returns (added: Event)
      modifies this`stream, this`arrivals
      ensures View() == Emit(old(View()), e)
      ensures added == e.(id := |stream| - 1)
    {
      if arrivals != [] {
        stream := stream + NumberedAll(arrivals[0], |stream|);
        arrivals := arrivals[1..];
      }
      added := e.(id := |stream|);
      stream := stream + [added];
    }

    method FindObservation(tool: Option<int>) returns (found: bool)
      ensures found == HasObservation(history, tool)
    {
      for i := 0 to |history|
        invariant forall k :: 0 <= k < i ==> !(IsObservation(history[k]) && history[k].tool == tool)
      {
        if IsObservation(history[i]) && history[i].tool == tool {
          return true;
        }
      }
      found := false;
    }

    /** _reset */
    method ResetPending()
      modifies this
      ensures View() == Reset(old(View()))
    {
      if pending.Some? {
        var found := FindObservation(pending.value.tool);
        if !found {
          var obs := NewEvent(AgentSource, ErrorObservation);
          obs := obs.(tool := pending.value.tool, cause := Some(pending.value.id));
          var _ := AddEvent(obs);
        }
      }
      pending := None;
    }

    /** The part of set_agent_state_to for confirmed and rejected actions. */
    method ReissuePending(newState: AgentState)
      requires pending.Some?
      modifies this
      ensures View() == Reissue(old(View()), newState)
    {
      var action := Answer(pending.value, newState).(source := AgentSource);
      var added := AddEvent(action);
      pending := Some(added);
    }

    /** set_agent_state_to */
    method SetAgentStateTo(newState: AgentState)
      modifies this
      ensures View() == SetAgentState(old(View()), newState)
    {
      if newState == agentState {
        return;
      }
      agentState := newState;
      if newState == STOPPED || newState == ERROR {
        ResetPending();
      }
      if pending.Some? && (newState == USER_CONFIRMED || newState == USER_REJECTED) {
        ReissuePending(newState);
      }
      var _ := AddEvent(NewEvent(EnvironmentSource, StateChanged(newState)));
    }

    /** _truncate_memory_to_point */
    method TruncateMemoryToPoint(recoveryPoint: nat)
      modifies this`history
      ensures View() == Truncate(old(View()), recoveryPoint)
    {
      if recoveryPoint < |history| {
        history := history[..recoveryPoint];
      }
    }

    /** _perform_loop_recovery */
    method RecoverFromLoop(recoveryPoint: nat)
      modifies this
      ensures View() == PerformLoopRecovery(old(View()), recoveryPoint)
    {
      TruncateMemoryToPoint(recoveryPoint);
      SetAgentStateTo(AWAITING_USER_INPUT);
      var _ := AddEvent(NewEvent(EnvironmentSource, LoopDetection));
    }

    /** The part of _handle_message_action for messages of the user. */
    method HandleMessageOfUser()
      modifies this
      ensures View() == HandleUserMessage(old(View()))
    {
      var added := AddEvent(NewEvent(UserSource, Recall));
      pending := Some(added);
      if agentState != RUNNING {
        SetAgentStateTo(RUNNING);
      }
    }

    method FindLastUserMessage() returns (found: bool)
      ensures found == HasUserMessage(history)
    {
      var i := |history|;
      while i > 0
        invariant 0 <= i <= |history|
        invariant forall k :: i <= k < |history| ==> !IsUserMessage(history[k])
      {
        i := i - 1;
        if IsUserMessage(history[i]) {
          return true;
        }
      }
      found := false;
    }

    /** _restart_with_last_user_message */
    method RestartWithMessage(recoveryPoint: nat)
      modifies this
      ensures View() == RestartWithLastUserMessage(old(View()), recoveryPoint)
    {
      var found := FindLastUserMessage();
      if found {
        TruncateMemoryToPoint(recoveryPoint);
        SetAgentStateTo(RUNNING);
        var _ := AddEvent(NewEvent(EnvironmentSource, LoopDetection));
        HandleMessageOfUser();
      } else {
        RecoverFromLoop(recoveryPoint);
      }
    }

    /** _handle_loop_recovery_action */
    method HandleLoopRecoveryAction(option: int)
      modifies this
      ensures View() == HandleLoopRecovery(old(View()), option)
    {
      if loopStart.Some? {
        if option == 1 {
          RecoverFromLoop(loopStart.value);
        } else if option == 2 {
          RestartWithMessage(loopStart.value);
        } else if option == 3 {
          SetAgentStateTo(STOPPED);
        }
      }
    }

    /** _handle_action */
    method HandleActionEvent(e: Event)
      modifies this
      ensures View() == HandleAction(old(View()), e)
    {
      match e.body {
        case ChangeAgentState(to) =>
          SetAgentStateTo(to);
        case Message(waits) =>
          if e.source == UserSource {
            HandleMessageOfUser();
          } else if e.source == AgentSource && waits {
            SetAgentStateTo(AWAITING_USER_INPUT);
          }
        case Finish =>
          SetAgentStateTo(FINISHED);
        case Reject =>
          SetAgentStateTo(REJECTED);
        case LoopRecovery(option) =>
          HandleLoopRecoveryAction(option);
        case _ =>
      }
    }

    /** _handle_observation */
    method HandleObservationEvent(e: Event)
      modifies this
      ensures View() == HandleObservation(old(View()), e)
    {
      if pending.Some? && e.cause == Some(pending.value.id) {
        if agentState == AWAITING_USER_CONFIRMATION {
          return;
        }
        pending := None;
        if agentState == USER_CONFIRMED {
          SetAgentStateTo(RUNNING);
        } else if agentState == USER_REJECTED {
          SetAgentStateTo(AWAITING_USER_INPUT);
        }
      }
    }

    /** The slot does not matter for asking for confirmation, */
    lemma AskingKeepsSlot(s: State, action: Event)
      ensures SetAgentState(s.(pending := Some(action)), AWAITING_USER_CONFIRMATION)
           == SetAgentState(s, AWAITING_USER_CONFIRMATION).(pending := Some(action))
    {
    }

    /** nor for adding an event. */
    lemma EmitKeepsSlot(s: State, slot: Option<Event>, e: Event)
      ensures Emit(s.(pending := slot), e) == Emit(s, e).(pending := slot)
    {
    }

    lemma SlotIsTaken(s: State, action: Event)
      requires IsRunnable(action)
      ensures PutOnStream(s.(pending := Some(action)), action) == PutOnStream(s, action)
    {
      AskingKeepsSlot(s, action);
      EmitKeepsSlot(if AsksNow(action) then SetAgentState(s, AWAITING_USER_CONFIRMATION) else s, Some(action), action);
    }

    /** What _step does with the action of the agent, or of the replay. */
    method ActWith(e: Event, analyzed: Risk)
      modifies this
      ensures View() == Act(old(View()), config, e, analyzed)
    {
      var action := WithConfirmation(config, e, analyzed);
      if action.body.NullAction? {
        return;
      }
      if IsRunnable(action) {
        SlotIsTaken(View(), action);
        pending := Some(action);
      }
      Publish(action);
    }

    method Publish(action: Event)
      modifies this
      ensures View() == PutOnStream(old(View()), action)
    {
      if AsksNow(action) {
        SetAgentStateTo(AWAITING_USER_CONFIRMATION);
      }
      var added := AddEvent(action);
      if IsRunnable(action) {
        pending := Some(added);
      }
    }

    /** _step */
    method TakeStep(outcome: Outcome, analysis: Option<nat>)
      modifies this
      ensures View() == Step(old(View()), config, outcome, analysis)
    {
      if agentState != RUNNING {
        return;
      }
      if pending.Some? {
        return;
      }
      loopStart := analysis;
      match outcome {
        case Stuck =>
          SetAgentStateTo(ERROR);
        case Raises(retrying) =>
          SetAgentStateTo(if retrying then RATE_LIMITED else ERROR);
        case NoAction =>
          var _ := AddEvent(NewEvent(AgentSource, ErrorObservation));
        case ContextWindowExceeded =>
          var _ := AddEvent(NewEvent(AgentSource, RequestCondensation));
        case Acts(action, analyzed) =>
          ActWith(action, analyzed);
      }
    }

    /** add_history */
    method RememberEvent(e: Event)
      modifies this`history
      ensures View() == AddHistory(old(View()), e)
    {
      var body := e.body;
      if !(body.NullAction? || body.NullObservation? || body.ChangeAgentState? || body.StateChanged? || e.hidden) {
        history := history + [e];
      }
    }

    method HandleEvent(e: Event)
      modifies this
      ensures View() == Handle(old(View()), e)
    {
      RememberEvent(e);
      if IsObservation(e) {
        HandleObservationEvent(e);
      } else {
        HandleActionEvent(e);
      }
    }

    /** The part of _on_event before the step. */
    method NoticeNextEvent() returns (e: Event)
      requires handled < |stream|
      modifies this
      ensures e == old(stream[handled]) && View() == HandleNext(old(View()))
    {
      e := stream[handled];
      handled := handled + 1;
      if e.hidden {
        return;
      }
      HandleEvent(e);
    }

    /** should_step, for an event that is not hidden */
    method ShouldTakeStep(e: Event) returns (b: bool)
      ensures b == (!e.hidden && ShouldStep(View(), e))
    {
      b := !e.hidden && ShouldStep(State(stream, arrivals, handled, history, pending, agentState, loopStart), e);
    }

    /** _on_event, for the next event of the stream */
    method OnNextEvent(outcome: Outcome, analysis: Option<nat>)
      requires handled < |stream| && GivesAction(outcome)
      modifies this
      ensures View() == Apply(old(View()), config, OnEvent(outcome, analysis))
    {
      var e := NoticeNextEvent();
      var stepping := ShouldTakeStep(e);
      if stepping {
        TakeStep(outcome, analysis);
      }
    }
  }
}
