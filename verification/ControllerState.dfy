/** The agent controller as a state machine: its slot for a pending action, the state of its agent,
    and the event stream it shares with the runtime and the user. */
module ControllerState {
  import opened Wrappers

  datatype AgentState =
    | LOADING | RUNNING | AWAITING_USER_INPUT | PAUSED | STOPPED | FINISHED | REJECTED | ERROR
    | AWAITING_USER_CONFIRMATION | USER_CONFIRMED | USER_REJECTED | RATE_LIMITED

  datatype Source = AgentSource | UserSource | EnvironmentSource

  datatype Confirmation = Confirmed | Rejected | AwaitingConfirmation

  /** Commands are the runnable actions that can ask for confirmation. */
  datatype Body =
    | ChangeAgentState(to: AgentState)
    | Message(waits: bool)
    | Finish
    | Reject
    | LoopRecovery(option: int)
    | Condense
    | RequestCondensation
    | Recall
    | NullAction
    | Command(confirmation: Confirmation)
    | OtherRunnable
    | OtherAction
    | StateChanged(state: AgentState)
    | NullObservation
    | ErrorObservation
    | LoopDetection
    | OtherObservation

  /** tool: the metadata of the tool call that an action is for, or that an observation answers. */
  datatype Event = Event(id: int, source: Source, cause: Option<int>, tool: Option<int>, hidden: bool, body: Body)

  predicate IsObservation(e: Event) {
    e.body.StateChanged? || e.body.NullObservation? || e.body.ErrorObservation? || e.body.LoopDetection?
    || e.body.OtherObservation?
  }

  predicate IsRunnable(e: Event) {
    e.body.Command? || e.body.OtherRunnable?
  }

  predicate IsUserMessage(e: Event) {
    e.body.Message? && e.source == UserSource
  }

  const INVALID_ID: int := -1

  function NewEvent(source: Source, body: Body): Event {
    Event(INVALID_ID, source, None, None, false, body)
  }

  /** arrivals: what other writers add to the stream just before each of the controller's own
      writes; handled: how many events of the stream the controller was notified of; loopStart: the
      stuck analysis. */
  datatype State = State(
    stream: seq<Event>,
    arrivals: seq<seq<Event>>,
    handled: nat,
    history: seq<Event>,
    pending: Option<Event>,
    agentState: AgentState,
    loopStart: Option<nat>)

  /*** The event stream. ***/

  /** An event gets the next id, and is caused by an earlier event if by any. */
  function Numbered(e: Event, id: nat): Event {
    e.(id := id, cause := if e.cause.Some? && 0 <= e.cause.value < id then e.cause else None)
  }

  function NumberedAll(es: seq<Event>, from: nat): seq<Event> {
    seq(|es|, i requires 0 <= i < |es| => Numbered(es[i], from + i))
  }

  function Arrive(s: State, es: seq<Event>): State {
    s.(stream := s.stream + NumberedAll(es, |s.stream|))
  }

  function NextArrivals(s: State): State {
    if s.arrivals == [] then s else Arrive(s, s.arrivals[0]).(arrivals := s.arrivals[1..])
  }

  /** add_event */
  function Emit(s: State, e: Event): State {
    var t := NextArrivals(s);
    t.(stream := t.stream + [e.(id := |t.stream|)])
  }

  /*** The state of the agent. ***/

  predicate HasObservation(history: seq<Event>, tool: Option<int>) {
    exists i :: 0 <= i < |history| && IsObservation(history[i]) && history[i].tool == tool
  }

  /** _reset */
  function Reset(s: State): State {
    var t :=
      if s.pending.Some? && !HasObservation(s.history, s.pending.value.tool) then
        var obs := NewEvent(AgentSource, ErrorObservation);
        Emit(s, obs.(tool := s.pending.value.tool, cause := Some(s.pending.value.id)))
      else s;
    t.(pending := None)
  }

  function Answer(e: Event, to: AgentState): Event {
    match e.body
    case Command(_) => e.(body := Command(if to == USER_CONFIRMED then Confirmed else Rejected))
    case _ => e
  }

  /** The pending action is put on the stream again, under the next id. */
  function Reissue(s: State, to: AgentState): State
    requires s.pending.Some?
  {
    var action := Answer(s.pending.value, to).(source := AgentSource);
    var t := Emit(s, action);
    t.(pending := Some(action.(id := |t.stream| - 1)))
  }

  /** set_agent_state_to */
  function SetAgentState(s: State, to: AgentState): State {
    if to == s.agentState then s
    else
      var t := s.(agentState := to);
      var u := if to == STOPPED || to == ERROR then Reset(t) else t;
      var v := if u.pending.Some? && (to == USER_CONFIRMED || to == USER_REJECTED) then Reissue(u, to) else u;
      Emit(v, NewEvent(EnvironmentSource, StateChanged(to)))
  }

  /*** Loop recovery. ***/

  /** _truncate_memory_to_point */
  function Truncate(s: State, point: nat): State {
    if point >= |s.history| then s else s.(history := s.history[..point])
  }

  function PerformLoopRecovery(s: State, point: nat): State {
    Emit(SetAgentState(Truncate(s, point), AWAITING_USER_INPUT), NewEvent(EnvironmentSource, LoopDetection))
  }

  /** The slot is given to the retrieval that a message of the user triggers. */
  function HandleUserMessage(s: State): State {
    var recall := NewEvent(UserSource, Recall);
    var t := Emit(s, recall);
    SetAgentState(t.(pending := Some(recall.(id := |t.stream| - 1))), RUNNING)
  }

  predicate HasUserMessage(history: seq<Event>) {
    exists i :: 0 <= i < |history| && IsUserMessage(history[i])
  }

  /** _restart_with_last_user_message */
  function RestartWithLastUserMessage(s: State, point: nat): State {
    if HasUserMessage(s.history) then
      HandleUserMessage(Emit(SetAgentState(Truncate(s, point), RUNNING), NewEvent(EnvironmentSource, LoopDetection)))
    else PerformLoopRecovery(s, point)
  }

  function HandleLoopRecovery(s: State, option: int): State {
    if s.loopStart.None? then s
    else if option == 1 then PerformLoopRecovery(s, s.loopStart.value)
    else if option == 2 then RestartWithLastUserMessage(s, s.loopStart.value)
    else if option == 3 then SetAgentState(s, STOPPED)
    else s
  }

  /*** Events. ***/

  /** add_history, with the filter of the agent's history */
  function AddHistory(s: State, e: Event): State {
    if e.body.NullAction? || e.body.NullObservation? || e.body.ChangeAgentState? || e.body.StateChanged? || e.hidden
    then s
    else s.(history := s.history + [e])
  }

  /** _handle_action */
  function HandleAction(s: State, e: Event): State {
    match e.body
    case ChangeAgentState(to) => SetAgentState(s, to)
    case Message(waits) =>
      if e.source == UserSource then HandleUserMessage(s)
      else if e.source == AgentSource && waits then SetAgentState(s, AWAITING_USER_INPUT)
      else s
    case Finish => SetAgentState(s, FINISHED)
    case Reject => SetAgentState(s, REJECTED)
    case LoopRecovery(option) => HandleLoopRecovery(s, option)
    case _ => s
  }

  /** _handle_observation */
  function HandleObservation(s: State, e: Event): State {
    if s.pending.Some? && e.cause == Some(s.pending.value.id) && s.agentState != AWAITING_USER_CONFIRMATION then
      var t := s.(pending := None);
      if t.agentState == USER_CONFIRMED then SetAgentState(t, RUNNING)
      else if t.agentState == USER_REJECTED then SetAgentState(t, AWAITING_USER_INPUT)
      else t
    else s
  }

  function Handle(s: State, e: Event): State {
    var t := AddHistory(s, e);
    if IsObservation(e) then HandleObservation(t, e) else HandleAction(t, e)
  }

  /** should_step */
  predicate ShouldStep(s: State, e: Event) {
    match e.body
    case Message(_) => e.source == UserSource || s.agentState != AWAITING_USER_INPUT
    case Condense => true
    case RequestCondensation => true
    case NullObservation => e.cause.Some? && e.cause.value > 0
    case StateChanged(_) => false
    case ErrorObservation => true
    case LoopDetection => true
    case OtherObservation => true
    case _ => false
  }

  /*** Steps. ***/

  datatype Config = Config(confirmationMode: bool, controllerConfirmationMode: bool, cliMode: bool, hasAnalyzer: bool)

  datatype Risk = Unknown | Low | Medium | High

  /** What happens in a step: the agent is found stuck; a limit is hit or something raises, for
      which the call will be retried or not; no action comes back; the context window is exceeded
      and history truncation is enabled; or the agent or the replay gives an action. */
  datatype Outcome =
    | Stuck
    | Raises(retrying: bool)
    | NoAction
    | ContextWindowExceeded
    | Acts(action: Event, analyzed: Risk)

  predicate AsksForConfirmation(config: Config, analyzed: Risk) {
    var risk := if config.hasAnalyzer then analyzed else Unknown;
    config.cliMode
    || ((risk == High || (risk == Unknown && !config.hasAnalyzer)) && config.controllerConfirmationMode)
  }

  function WithConfirmation(config: Config, e: Event, analyzed: Risk): Event {
    if config.confirmationMode && e.body.Command? && AsksForConfirmation(config, analyzed)
    then e.(body := Command(AwaitingConfirmation))
    else e
  }

  predicate AsksNow(action: Event) {
    action.body.Command? && action.body.confirmation == AwaitingConfirmation
  }

  /** A runnable action takes the slot. */
  function PutOnStream(s: State, action: Event): State {
    var t := Emit(if AsksNow(action) then SetAgentState(s, AWAITING_USER_CONFIRMATION) else s, action);
    if IsRunnable(action) then t.(pending := Some(action.(id := |t.stream| - 1))) else t
  }

  function Act(s: State, config: Config, e: Event, analyzed: Risk): State {
    var action := WithConfirmation(config, e, analyzed);
    if action.body.NullAction? then s else PutOnStream(s, action)
  }

  /** _step; loopStart is what stuck detection leaves as its analysis. */
  function Step(s: State, config: Config, outcome: Outcome, loopStart: Option<nat>): State {
    if s.agentState != RUNNING || s.pending.Some? then s
    else
      var t := s.(loopStart := loopStart);
      match outcome
      case Stuck => SetAgentState(t, ERROR)
      case Raises(retrying) => SetAgentState(t, if retrying then RATE_LIMITED else ERROR)
      case NoAction => Emit(t, NewEvent(AgentSource, ErrorObservation))
      case ContextWindowExceeded => Emit(t, NewEvent(AgentSource, RequestCondensation))
      case Acts(action, analyzed) => Act(t, config, action, analyzed)
  }

  /*** Runs. ***/

  /** Other writers add events; the controller is notified of the next event and then steps if it
      should; someone sets the state of the agent (closing the controller stops it); or someone
      makes the controller step. */
  datatype Move =
    | Others(es: seq<Event>)
    | OnEvent(outcome: Outcome, analysis: Option<nat>)
    | Set(to: AgentState)
    | StepNow(outcome: Outcome, analysis: Option<nat>)

  predicate GivesAction(outcome: Outcome) {
    outcome.Acts? ==> !IsObservation(outcome.action)
  }

  predicate Enabled(s: State, m: Move) {
    match m
    case OnEvent(outcome, _) => s.handled < |s.stream| && GivesAction(outcome)
    case StepNow(outcome, _) => GivesAction(outcome)
    case _ => true
  }

  /** _on_event */
  function HandleNext(s: State): State
    requires s.handled < |s.stream|
  {
    var e := s.stream[s.handled];
    var t := s.(handled := s.handled + 1);
    if e.hidden then t else Handle(t, e)
  }

  function Apply(s: State, config: Config, m: Move): State
    requires Enabled(s, m)
  {
    match m
    case Others(es) => Arrive(s, es)
    case Set(to) => SetAgentState(s, to)
    case StepNow(outcome, analysis) => Step(s, config, outcome, analysis)
    case OnEvent(outcome, analysis) =>
      var e := s.stream[s.handled];
      var t := HandleNext(s);
      if !e.hidden && ShouldStep(t, e) then Step(t, config, outcome, analysis) else t
  }

  predicate Initial(s: State) {
    && s.pending.None? && s.handled <= |s.stream|
    && (forall i :: 0 <= i < |s.stream| ==> Numbered(s.stream[i], i) == s.stream[i])
    && (forall h :: h in s.history ==> 0 <= h.id < |s.stream| && s.stream[h.id] == h)
  }
}
