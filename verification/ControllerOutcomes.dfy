/** What the controller does with each outcome of a step and with each event, field by field. */
module ControllerOutcomes {
  import opened Wrappers
  import opened ControllerState
  import opened ControllerInvariants
  import opened ControllerRuns

  /** The event is the last one on the stream, under its new id. */
  predicate EndsWith(s: State, e: Event) {
    s.stream != [] && s.stream[|s.stream| - 1] == e.(id := |s.stream| - 1)
  }

  /** The event is pending, as the last one on the stream. */
  predicate Awaits(s: State, e: Event) {
    EndsWith(s, e) && s.pending == Some(s.stream[|s.stream| - 1])
  }

  predicate IsIdle(s: State) {
    Inv(s) && s.agentState == RUNNING && s.pending.None?
  }

  /*** Steps. ***/

  /** A runnable action that does not ask is put on the stream and waited for. */
  lemma PutWithoutAsking(s: State, action: Event)
    requires IsIdle(s) && IsRunnable(action) && action.body != Command(AwaitingConfirmation)
    ensures var t := PutOnStream(s, action);
            t.agentState == RUNNING && Awaits(t, action)
  {
    EmitKeeps(s, action);
  }

  lemma PutAndAsk(s: State, action: Event)
    requires IsIdle(s) && action.body == Command(AwaitingConfirmation)
    ensures var t := PutOnStream(s, action);
            t.agentState == AWAITING_USER_CONFIRMATION && Awaits(t, action)
  {
    SetAgentStateKeeps(s, AWAITING_USER_CONFIRMATION);
    EmitKeeps(SetAgentState(s, AWAITING_USER_CONFIRMATION), action);
  }

  lemma ConfirmationIs(config: Config, e: Event, analyzed: Risk)
    requires e.body.Command? && e.body.confirmation != AwaitingConfirmation
    ensures WithConfirmation(config, e, analyzed)
         == if && config.confirmationMode
               && (|| config.cliMode
                   || (config.controllerConfirmationMode && (analyzed == High || !config.hasAnalyzer)))
            then e.(body := Command(AwaitingConfirmation)) else e
  {
  }

  /** A command of a running agent that does not ask yet is made to ask if and only if confirmation
      is on and either the command line asks for everything, or the controller's own mode is on and
      the analyzer rates the command high or there is no analyzer. Then the agent waits with the
      command pending as one that asks; otherwise it goes on with the command as it gave it. */
  lemma CommandAsksIff(s: State, config: Config, e: Event, analyzed: Risk, analysis: Option<nat>)
    requires IsIdle(s) && e.body.Command? && e.body.confirmation != AwaitingConfirmation
    ensures var t := Step(s, config, Acts(e, analyzed), analysis);
            var asks := && config.confirmationMode
                        && (|| config.cliMode
                            || (config.controllerConfirmationMode && analyzed == High)
                            || (config.controllerConfirmationMode && !config.hasAnalyzer));
            && (t.agentState == AWAITING_USER_CONFIRMATION <==> asks)
            && (asks ==> Awaits(t, e.(body := Command(AwaitingConfirmation))))
            && (!asks ==> t.agentState == RUNNING && Awaits(t, e))
  {
    var u := s.(loopStart := analysis);
    var action := WithConfirmation(config, e, analyzed);
    ConfirmationIs(config, e, analyzed);
    if action.body == Command(AwaitingConfirmation) {
      PutAndAsk(u, action);
    } else {
      PutWithoutAsking(u, action);
    }
  }

  /** A command that asks already is waited for in every configuration. */
  lemma AskingCommandWaits(s: State, config: Config, e: Event, analyzed: Risk, analysis: Option<nat>)
    requires IsIdle(s) && e.body == Command(AwaitingConfirmation)
    ensures var t := Step(s, config, Acts(e, analyzed), analysis);
            t.agentState == AWAITING_USER_CONFIRMATION && Awaits(t, e)
  {
    PutAndAsk(s.(loopStart := analysis), e);
  }

  /** No other action asks: a runnable one is waited for, any other is only put on the stream, and
      the empty one is not. */
  lemma OtherActionsGoOn(s: State, config: Config, e: Event, analyzed: Risk, analysis: Option<nat>)
    requires IsIdle(s) && !e.body.Command? && !IsObservation(e)
    ensures var t := Step(s, config, Acts(e, analyzed), analysis);
            && t.agentState == RUNNING
            && (e.body.OtherRunnable? ==> Awaits(t, e))
            && (!e.body.OtherRunnable? && !e.body.NullAction? ==> t.pending.None? && EndsWith(t, e))
            && (e.body.NullAction? ==> t.pending.None? && t.stream == s.stream)
  {
    EmitKeeps(s.(loopStart := analysis), e);
  }

  /** A stuck agent and one whose step raises fail (or are rate limited while the call is retried);
      an agent that gives no action is told so and goes on; and when its context is exceeded a
      condensation is requested. */
  lemma FailuresAre(s: State, config: Config, outcome: Outcome, analysis: Option<nat>)
    requires IsIdle(s) && !outcome.Acts?
    ensures var t := Step(s, config, outcome, analysis);
            && t.pending.None? && t.history == s.history && t.loopStart == analysis
            && match outcome
               case Stuck => t.agentState == ERROR && EndsWith(t, NewEvent(EnvironmentSource, StateChanged(ERROR)))
               case Raises(true) => t.agentState == RATE_LIMITED
               case Raises(false) => t.agentState == ERROR
               case NoAction => t.agentState == RUNNING && EndsWith(t, NewEvent(AgentSource, ErrorObservation))
               case ContextWindowExceeded =>
                 t.agentState == RUNNING && EndsWith(t, NewEvent(AgentSource, RequestCondensation))
  {
    var u := s.(loopStart := analysis);
    match outcome
    case Stuck => ChangeIsAnnounced(u, ERROR);
    case Raises(retrying) => ChangeIsAnnounced(u, if retrying then RATE_LIMITED else ERROR);
    case NoAction => EmitKeeps(u, NewEvent(AgentSource, ErrorObservation));
    case ContextWindowExceeded => EmitKeeps(u, NewEvent(AgentSource, RequestCondensation));
  }

  /*** Changes of state. ***/

  /** A change of state is announced on the stream; setting the state it has changes nothing. */
  lemma ChangeIsAnnounced(s: State, to: AgentState)
    requires Coherent(s)
    ensures var t := SetAgentState(s, to);
            && t.agentState == to && t.history == s.history && t.loopStart == s.loopStart
            && (to == s.agentState ==> t == s)
            && (to != s.agentState ==> EndsWith(t, NewEvent(EnvironmentSource, StateChanged(to))))
            && (s.pending.None? ==> t.pending.None?)
            && (to != STOPPED && to != ERROR && to != USER_CONFIRMED && to != USER_REJECTED ==> t.pending == s.pending)
  {
    SetAgentStateKeeps(s, to);
    if to != s.agentState {
      var u := s.(agentState := to);
      if Ends(to) {
        ResetKeeps(u);
        EmitKeeps(Reset(u), NewEvent(EnvironmentSource, StateChanged(to)));
      } else {
        var v := if u.pending.Some? && (to == USER_CONFIRMED || to == USER_REJECTED) then Reissue(u, to) else u;
        if u.pending.Some? {
          ReissueKeeps(u, to);
        }
        EmitKeeps(v, NewEvent(EnvironmentSource, StateChanged(to)));
      }
    }
  }

  /** Stopping or failing with an action pending that no observation in the agent's history answers
      puts one on the stream: an error of the agent's, with the metadata and as the effect of what was
      pending. */
  lemma StoppingAnswers(s: State, to: AgentState)
    requires Inv(s) && s.pending.Some? && (to == STOPPED || to == ERROR)
    requires forall i :: 0 <= i < |s.history| && IsObservation(s.history[i]) ==>
               s.history[i].tool != s.pending.value.tool
    ensures var t := SetAgentState(s, to);
            exists i :: |s.stream| <= i < |t.stream|
                        && t.stream[i] == Event(i, AgentSource, Some(s.pending.value.id), s.pending.value.tool, false,
                                                ErrorObservation)
  {
    var u := s.(agentState := to);
    var obs := NewEvent(AgentSource, ErrorObservation);
    var answer := obs.(tool := s.pending.value.tool, cause := Some(s.pending.value.id));
    EmitKeeps(u, answer);
    ResetKeeps(u);
    var v := Reset(u);
    var i := |v.stream| - 1;
    assert v.stream[i] == answer.(id := i);
    EmitKeeps(v, NewEvent(EnvironmentSource, StateChanged(to)));
    assert SetAgentState(s, to).stream[i] == v.stream[i];
  }

  /** A decision of the user puts what is pending on the stream again, as an action of the agent; a
      command with the decision in it, anything else as it was. */
  lemma DecisionIsReissued(s: State, to: AgentState)
    requires Inv(s) && s.pending.Some? && to != s.agentState && (to == USER_CONFIRMED || to == USER_REJECTED)
    ensures var t := SetAgentState(s, to);
            && t.pending.Some? && OnStream(t.stream, t.pending.value) && t.pending.value.id >= |s.stream|
            && t.pending.value == s.pending.value.(id := t.pending.value.id, source := AgentSource, body :=
                 if !s.pending.value.body.Command? then s.pending.value.body
                 else if to == USER_CONFIRMED then Command(Confirmed) else Command(Rejected))
  {
    var u := s.(agentState := to);
    ReissueKeeps(u, to);
    EmitKeeps(u, Answer(s.pending.value, to).(source := AgentSource));
    SetAgentStateKeeps(s, to);
    EmitKeeps(Reissue(u, to), NewEvent(EnvironmentSource, StateChanged(to)));
  }

  /*** Events. ***/

  /** The agent sees an event unless it is hidden, empty, or about a change of state. */
  predicate Seen(e: Event) {
    match e.body
    case NullAction => false
    case NullObservation => false
    case ChangeAgentState(_) => false
    case StateChanged(_) => false
    case _ => !e.hidden
  }

  function HistoryWith(s: State, e: Event): seq<Event> {
    if Seen(e) then s.history + [e] else s.history
  }

  /** Where handling an action takes the agent, loop recovery aside. */
  function StateFor(s: State, e: Event): AgentState {
    match e.body
    case ChangeAgentState(to) => to
    case Message(waits) =>
      if e.source == UserSource then RUNNING
      else if e.source == AgentSource && waits then AWAITING_USER_INPUT else s.agentState
    case Finish => FINISHED
    case Reject => REJECTED
    case _ => s.agentState
  }

  /** Handling an action: what the agent sees of it, and the state it is left in. A message of the
      user makes its retrieval pending; other messages and actions keep what is. */
  lemma HandledActionIs(s: State, e: Event)
    requires Inv(s) && OnStream(s.stream, e) && !IsObservation(e) && !e.body.LoopRecovery?
    ensures var t := Handle(s, e);
            && t.history == HistoryWith(s, e) && t.agentState == StateFor(s, e)
            && (IsUserMessage(e) ==> t.pending.Some? && t.pending.value.body == Recall
                                     && t.pending.value.source == UserSource && t.pending.value.id >= |s.stream|)
            && (!IsUserMessage(e) && !e.body.ChangeAgentState? ==> t.pending == s.pending)
  {
    var u := AddHistory(s, e);
    assert Inv(u);
    if IsUserMessage(e) {
      RetrievingIsCoherent(u);
      ChangeIsAnnounced(Retrieving(u), RUNNING);
    } else {
      ChangeIsAnnounced(u, StateFor(s, e));
    }
  }

  /** Handling an observation vacates the slot exactly if it was caused by what is pending and no
      confirmation is awaited; and then a confirmed action lets the agent run, and a rejected one
      makes it wait for the user. */
  lemma HandledObservationIs(s: State, e: Event)
    requires Inv(s) && OnStream(s.stream, e) && IsObservation(e)
    ensures var t := Handle(s, e);
            var answers := s.pending.Some? && e.cause == Some(s.pending.value.id)
                           && s.agentState != AWAITING_USER_CONFIRMATION;
            && t.history == HistoryWith(s, e)
            && t.pending == (if answers then None else s.pending)
            && t.agentState == if answers && s.agentState == USER_CONFIRMED then RUNNING
                               else if answers && s.agentState == USER_REJECTED then AWAITING_USER_INPUT
                               else s.agentState
  {
    var u := AddHistory(s, e).(pending := None);
    ChangeIsAnnounced(u, RUNNING);
    ChangeIsAnnounced(u, AWAITING_USER_INPUT);
  }

  /** The agent steps after messages of the user, after others unless it waits for the user, after
      condensations and requests for them, and after observations except announcements and empty
      ones that answer nothing or the very first event. */
  predicate Triggers(after: AgentState, e: Event) {
    || (e.body.Message? && (e.source == UserSource || after != AWAITING_USER_INPUT))
    || e.body.Condense? || e.body.RequestCondensation?
    || e.body.ErrorObservation? || e.body.LoopDetection? || e.body.OtherObservation?
    || (e.body.NullObservation? && e.cause.Some? && e.cause.value > 0)
  }

  lemma EventTriggersStep(s: State, config: Config, outcome: Outcome, analysis: Option<nat>, t: State)
    requires s.handled < |s.stream| && GivesAction(outcome) && t == HandleNext(s)
    ensures s.stream[s.handled].hidden ==> t == s.(handled := s.handled + 1)
    ensures Apply(s, config, OnEvent(outcome, analysis))
         == if !s.stream[s.handled].hidden && Triggers(t.agentState, s.stream[s.handled])
            then Step(t, config, outcome, analysis) else t
  {
    StepsIff(t, s.stream[s.handled]);
  }

  lemma StepsIff(s: State, e: Event)
    ensures ShouldStep(s, e) <==> Triggers(s.agentState, e)
  {
  }
}
