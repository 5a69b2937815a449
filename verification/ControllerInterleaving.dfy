/** Steps of the controller that other tasks overtake.

    The controller steps in a thread of its own, and closing it or a failing runtime sets its state
    to STOPPED or ERROR from another one.  That can happen while the agent thinks, before its action
    has taken the slot, and again before the action is on the stream. */
module ControllerInterleaving {
  import opened Wrappers
  import opened ControllerState
  import opened ControllerInvariants
  import opened ControllerRuns

  /*** A step in parts. ***/

  /** The changes of state that other tasks make before the slot is taken, and after that. */
  datatype Interference = Interference(thinking: seq<AgentState>, asking: seq<AgentState>)

  predicate AllEnd(changes: seq<AgentState>) {
    forall i :: 0 <= i < |changes| ==> Ends(changes[i])
  }

  predicate StopsOrFails(i: Interference) {
    AllEnd(i.thinking) && AllEnd(i.asking)
  }

  function SetAll(s: State, changes: seq<AgentState>): State
    decreases |changes|
  {
    if changes == [] then s else SetAll(SetAgentState(s, changes[0]), changes[1..])
  }

  /** A runnable action takes the slot before it has an id. */
  function Take(s: State, action: Event): State {
    if IsRunnable(action) then s.(pending := Some(action)) else s
  }

  function Ask(s: State, action: Event): State {
    if AsksNow(action) then SetAgentState(s, AWAITING_USER_CONFIRMATION) else s
  }

  /** add_event gives the action its id; if it is still pending, what is pending has it too. */
  function Publish(s: State, action: Event): State {
    var t := Emit(s, action);
    if s.pending.Some? then t.(pending := Some(action.(id := |t.stream| - 1))) else t
  }

  function ActOver(s: State, config: Config, e: Event, analyzed: Risk, i: Interference): State {
    var action := WithConfirmation(config, e, analyzed);
    var t := SetAll(s, i.thinking);
    if action.body.NullAction? then t else Publish(SetAll(Ask(Take(t, action), action), i.asking), action)
  }

  predicate Starts(s: State) {
    s.agentState == RUNNING && s.pending.None?
  }

  /** _step, with what comes between its parts */
  function StepOver(s: State, config: Config, outcome: Outcome, loopStart: Option<nat>, i: Interference): State {
    if !Starts(s) then s
    else
      var t := s.(loopStart := loopStart);
      match outcome
      case Stuck => SetAgentState(SetAll(t, i.thinking), ERROR)
      case Raises(retrying) => SetAgentState(SetAll(t, i.thinking), if retrying then RATE_LIMITED else ERROR)
      case NoAction => Emit(SetAll(t, i.thinking), NewEvent(AgentSource, ErrorObservation))
      case ContextWindowExceeded => Emit(SetAll(t, i.thinking), NewEvent(AgentSource, RequestCondensation))
      case Acts(action, analyzed) => ActOver(t, config, action, analyzed, i)
  }

  /** If nothing comes between, it is the step. */
  lemma UndisturbedStepIsStep(s: State, config: Config, outcome: Outcome, loopStart: Option<nat>)
    ensures StepOver(s, config, outcome, loopStart, Interference([], [])) == Step(s, config, outcome, loopStart)
  {
    if Starts(s) && outcome.Acts? {
      var t := s.(loopStart := loopStart);
      var action := WithConfirmation(config, outcome.action, outcome.analyzed);
      TakingFirst(t, action);
    }
  }

  /** Taking the slot before asking and publishing makes no difference then. */
  lemma TakingFirst(s: State, action: Event)
    requires Starts(s)
    ensures Publish(Ask(Take(s, action), action), action) == PutOnStream(s, action)
  {
  }

  /*** Changes while the agent thinks. ***/

  function LastOf(changes: seq<AgentState>, before: AgentState): AgentState {
    if changes == [] then before else changes[|changes| - 1]
  }

  lemma {:induction false} SetAllKeeps(s: State, changes: seq<AgentState>)
    requires Coherent(s) && s.pending.None?
    ensures var t := SetAll(s, changes);
            && Coherent(t) && Follows(s, t) && t.pending.None? && t.agentState == LastOf(changes, s.agentState)
    decreases |changes|
  {
    if changes != [] {
      var t := SetAgentState(s, changes[0]);
      SetAgentStateKeeps(s, changes[0]);
      SetAllKeeps(t, changes[1..]);
      FollowsThen(s, t, SetAll(t, changes[1..]));
    }
  }

  /*** Changes while the slot is taken by an action that is not on the stream yet. ***/

  predicate IsNew(action: Event) {
    action.id == INVALID_ID && !IsObservation(action)
  }

  /** All but the slot is in order, and the slot is empty or has the new action. */
  predicate Taken(s: State, action: Event) {
    && Coherent(s.(pending := None)) && IsNew(action)
    && (s.pending.Some? ==> s.pending.value == action)
  }

  /** The action is in the slot, or was acknowledged when it lost it. */
  predicate TakenOrAcknowledged(s: State, action: Event) {
    s.pending.Some? || HasObservation(s.stream, action.tool)
  }

  predicate Grows(s: State, t: State) {
    Extends(s, t) && t.handled == s.handled
  }

  lemma ResetTaken(s: State, action: Event)
    requires Taken(s, action) && s.pending.Some?
    ensures var t := Reset(s);
            && Coherent(t) && Grows(s, t) && t.pending.None? && t.agentState == s.agentState
            && HasObservation(t.stream, action.tool)
  {
    var empty := s.(pending := None);
    if HasObservation(s.history, action.tool) {
      HistoryIsOnStream(empty, action.tool);
    } else {
      EmitKeeps(empty, NewEvent(AgentSource, ErrorObservation).(tool := action.tool, cause := Some(action.id)));
    }
  }

  lemma EndingTaken(s: State, action: Event, to: AgentState)
    requires Taken(s, action) && s.pending.Some? && Ends(to) && to != s.agentState
    ensures var t := SetAgentState(s, to);
            && Coherent(t) && Grows(s, t) && t.pending.None? && t.agentState == to
            && HasObservation(t.stream, action.tool)
  {
    var u := Reset(s.(agentState := to));
    ResetTaken(s.(agentState := to), action);
    EmitKeeps(u, NewEvent(EnvironmentSource, StateChanged(to)));
    ObservationStays(u, SetAgentState(s, to), action.tool);
  }

  predicate AllAre(changes: seq<AgentState>, state: AgentState) {
    forall i :: 0 <= i < |changes| ==> changes[i] == state
  }

  /** The slot keeps the action exactly if no change is one; otherwise it is emptied, and the action
      acknowledged. */
  lemma {:induction false} SetAllTaken(s: State, action: Event, changes: seq<AgentState>)
    requires Taken(s, action) && TakenOrAcknowledged(s, action) && AllEnd(changes)
    ensures var t := SetAll(s, changes);
            && Taken(t, action) && TakenOrAcknowledged(t, action) && Grows(s, t)
            && t.agentState == LastOf(changes, s.agentState)
            && (t.pending.Some? <==> s.pending.Some? && AllAre(changes, s.agentState))
    decreases |changes|
  {
    if changes != [] {
      var t := SetAgentState(s, changes[0]);
      FirstChangeTaken(s, action, changes[0]);
      SetAllTaken(t, action, changes[1..]);
      GrowsThen(s, t, SetAll(t, changes[1..]));
      AllAreNext(changes, s.agentState);
    }
  }

  lemma GrowsThen(s: State, t: State, u: State)
    requires Grows(s, t) && Grows(t, u)
    ensures Grows(s, u)
  {
  }

  lemma AllAreNext(changes: seq<AgentState>, state: AgentState)
    requires changes != []
    ensures AllAre(changes, state) <==> changes[0] == state && AllAre(changes[1..], state)
    ensures LastOf(changes, state) == LastOf(changes[1..], changes[0])
  {
    assert forall i :: 0 < i < |changes| ==> changes[i] == changes[1..][i - 1];
  }

  lemma FirstChangeTaken(s: State, action: Event, to: AgentState)
    requires Taken(s, action) && TakenOrAcknowledged(s, action) && Ends(to)
    ensures var t := SetAgentState(s, to);
            && Taken(t, action) && TakenOrAcknowledged(t, action) && Grows(s, t) && t.agentState == to
            && (t.pending.Some? <==> s.pending.Some? && to == s.agentState)
  {
    if to != s.agentState {
      if s.pending.Some? {
        EndingTaken(s, action, to);
      } else {
        SetAgentStateKeeps(s, to);
        ObservationStays(s, SetAgentState(s, to), action.tool);
      }
    }
  }

  lemma AskTaken(s: State, action: Event)
    requires Taken(s, action)
    ensures var t := Ask(s, action);
            && Taken(t, action) && Grows(s, t) && t.pending == s.pending
            && t.agentState == if AsksNow(action) then AWAITING_USER_CONFIRMATION else s.agentState
  {
    if AsksNow(action) {
      SetAgentStateKeeps(s.(pending := None), AWAITING_USER_CONFIRMATION);
    }
  }

  lemma PublishKeeps(s: State, action: Event)
    requires Taken(s, action)
    ensures var t := Publish(s, action);
            && Coherent(t) && Grows(s, t) && t.agentState == s.agentState
            && (t.pending.Some? <==> s.pending.Some?)
            && (t.pending.Some? ==> t.pending.value == action.(id := |t.stream| - 1))
  {
    EmitKeeps(s.(pending := None), action);
  }

  /*** What a step leaves behind. ***/

  /** The agent was stopped or failed before its action took the slot, and no change after that
      differed from the last one before it. */
  predicate Outruns(config: Config, e: Event, analyzed: Risk, i: Interference) {
    && IsRunnable(e) && !AsksNow(WithConfirmation(config, e, analyzed))
    && i.thinking != [] && AllAre(i.asking, LastOf(i.thinking, RUNNING))
  }

  /** Where an action that is asked about or not leaves the agent. */
  function AfterAsking(action: Event, i: Interference): AgentState {
    if AsksNow(action) then AWAITING_USER_CONFIRMATION else LastOf(i.thinking, RUNNING)
  }

  function StateAfterActing(config: Config, e: Event, analyzed: Risk, i: Interference): AgentState {
    if e.body.NullAction? then LastOf(i.thinking, RUNNING)
    else LastOf(i.asking, AfterAsking(WithConfirmation(config, e, analyzed), i))
  }

  lemma {:induction false} LastEnds(changes: seq<AgentState>, before: AgentState)
    requires AllEnd(changes)
    ensures changes != [] ==> Ends(LastOf(changes, before))
    ensures AllAre(changes, before) ==> LastOf(changes, before) == before
  {
  }

  function BeforePublishing(s: State, action: Event, i: Interference): State {
    SetAll(Ask(Take(SetAll(s, i.thinking), action), action), i.asking)
  }

  lemma UntilAsked(s: State, action: Event, i: Interference)
    requires Coherent(s) && Starts(s) && IsNew(action) && StopsOrFails(i) && IsRunnable(action)
    ensures var t := Ask(Take(SetAll(s, i.thinking), action), action);
            && Taken(t, action) && t.pending.Some? && Grows(s, t)
            && t.agentState == AfterAsking(action, i)
  {
    var thought := SetAll(s, i.thinking);
    SetAllKeeps(s, i.thinking);
    assert Take(thought, action).(pending := None) == thought;
    AskTaken(Take(thought, action), action);
  }

  lemma UntilPublished(s: State, action: Event, i: Interference)
    requires Coherent(s) && Starts(s) && IsNew(action) && StopsOrFails(i) && IsRunnable(action)
    ensures var t := BeforePublishing(s, action, i);
            && Taken(t, action) && TakenOrAcknowledged(t, action) && Grows(s, t)
            && t.agentState == LastOf(i.asking, AfterAsking(action, i))
            && (t.pending.Some? <==> AllAre(i.asking, AfterAsking(action, i)))
  {
    UntilAsked(s, action, i);
    SetAllTaken(Ask(Take(SetAll(s, i.thinking), action), action), action, i.asking);
  }

  lemma OncePublished(s: State, action: Event, i: Interference)
    requires Coherent(s) && Starts(s) && IsNew(action) && StopsOrFails(i) && IsRunnable(action)
    ensures var t := Publish(BeforePublishing(s, action, i), action);
            && Coherent(t) && Grows(s, t) && Held(t, action.tool)
            && t.agentState == LastOf(i.asking, AfterAsking(action, i))
            && (t.pending.Some? <==> AllAre(i.asking, AfterAsking(action, i)))
  {
    var w := BeforePublishing(s, action, i);
    UntilPublished(s, action, i);
    PublishKeeps(w, action);
    if w.pending.None? {
      ObservationOutlives(w, Publish(w, action), action.tool);
    }
  }

  lemma RunnableOver(s: State, config: Config, e: Event, analyzed: Risk, i: Interference)
    requires Coherent(s) && Starts(s) && IsNew(e) && StopsOrFails(i) && IsRunnable(e)
    ensures var t := ActOver(s, config, e, analyzed, i);
            && Coherent(t) && Grows(s, t) && Held(t, e.tool)
            && t.agentState == StateAfterActing(config, e, analyzed, i)
            && (t.pending.Some? <==> AllAre(i.asking, AfterAsking(WithConfirmation(config, e, analyzed), i)))
  {
    OncePublished(s, WithConfirmation(config, e, analyzed), i);
  }

  lemma ObservationOutlives(s: State, t: State, tool: Option<int>)
    requires Grows(s, t) && HasObservation(s.stream, tool)
    ensures HasObservation(t.stream, tool)
  {
    ObservationStays(s, t, tool);
  }

  lemma NotRunnableOver(s: State, config: Config, e: Event, analyzed: Risk, i: Interference)
    requires Coherent(s) && Starts(s) && IsNew(e) && StopsOrFails(i) && !IsRunnable(e)
    ensures var t := ActOver(s, config, e, analyzed, i);
            && Coherent(t) && Grows(s, t) && t.pending.None?
            && t.agentState == StateAfterActing(config, e, analyzed, i)
  {
    SetAllKeeps(s, i.thinking);
    var thought := SetAll(s, i.thinking);
    if !e.body.NullAction? {
      SetAllKeeps(thought, i.asking);
      PublishKeeps(SetAll(thought, i.asking), e);
    }
  }

  /** Every runnable action that a step puts on the stream is pending afterwards or acknowledged; and
      it is pending although the agent has stopped or failed if and only if it outran the change. */
  lemma ActOverIff(s: State, config: Config, e: Event, analyzed: Risk, i: Interference)
    requires Coherent(s) && Starts(s) && IsNew(e) && StopsOrFails(i)
    ensures var t := ActOver(s, config, e, analyzed, i);
            && Coherent(t) && Grows(s, t) && (IsRunnable(e) ==> Held(t, e.tool))
            && t.agentState == StateAfterActing(config, e, analyzed, i)
            && (t.pending.Some? && Ends(t.agentState) <==> Outruns(config, e, analyzed, i))
  {
    if IsRunnable(e) {
      RunnableOver(s, config, e, analyzed, i);
      LastEnds(i.thinking, RUNNING);
      LastEnds(i.asking, LastOf(i.thinking, RUNNING));
      LastEnds(i.asking, AWAITING_USER_CONFIRMATION);
    } else {
      NotRunnableOver(s, config, e, analyzed, i);
    }
  }

  /*** Runs. ***/

  predicate GivesNewAction(outcome: Outcome) {
    outcome.Acts? ==> IsNew(outcome.action)
  }

  /** A move, and what comes between the parts of its step. */
  datatype Turn = Turn(m: Move, i: Interference)

  predicate Possible(s: State, turn: Turn) {
    && Enabled(s, turn.m) && StopsOrFails(turn.i)
    && (turn.m.OnEvent? || turn.m.StepNow? ==> GivesNewAction(turn.m.outcome))
  }

  predicate HasStep(s: State, m: Move)
    requires Enabled(s, m)
  {
    m.StepNow? || (m.OnEvent? && !s.stream[s.handled].hidden && ShouldStep(HandleNext(s), s.stream[s.handled]))
  }

  /** The state in which the step of the move begins. */
  function BeforeStep(s: State, m: Move): State
    requires Enabled(s, m)
  {
    if m.OnEvent? then HandleNext(s) else s
  }

  function ApplyOver(s: State, config: Config, turn: Turn): State
    requires Possible(s, turn)
  {
    if HasStep(s, turn.m)
    then StepOver(BeforeStep(s, turn.m), config, turn.m.outcome, turn.m.analysis, turn.i)
    else Apply(s, config, turn.m)
  }

  /** The agent is stopped or fails while it thinks, and its action takes the slot nevertheless. */
  predicate IsOutrun(s: State, config: Config, turn: Turn)
    requires Possible(s, turn)
  {
    && HasStep(s, turn.m) && Starts(BeforeStep(s, turn.m)) && turn.m.outcome.Acts?
    && Outruns(config, turn.m.outcome.action, turn.m.outcome.analyzed, turn.i)
  }

  lemma NoActionOver(s: State, config: Config, outcome: Outcome, analysis: Option<nat>, i: Interference)
    requires Inv(s) && Starts(s) && !outcome.Acts? && StopsOrFails(i)
    ensures var t := StepOver(s, config, outcome, analysis, i);
            && Coherent(t) && Grows(s, t) && t.pending.None?
            && t.agentState == match outcome
                               case Stuck => ERROR
                               case Raises(retrying) => if retrying then RATE_LIMITED else ERROR
                               case _ => LastOf(i.thinking, RUNNING)
  {
    var t := s.(loopStart := analysis);
    SetAllKeeps(t, i.thinking);
    var thought := SetAll(t, i.thinking);
    match outcome
    case Stuck => SetAgentStateKeeps(thought, ERROR);
    case Raises(retrying) => SetAgentStateKeeps(thought, if retrying then RATE_LIMITED else ERROR);
    case NoAction => EmitKeeps(thought, NewEvent(AgentSource, ErrorObservation));
    case ContextWindowExceeded => EmitKeeps(thought, NewEvent(AgentSource, RequestCondensation));
  }

  lemma StepOverIff(s: State, config: Config, outcome: Outcome, analysis: Option<nat>, i: Interference)
    requires Inv(s) && GivesNewAction(outcome) && StopsOrFails(i)
    ensures var t := StepOver(s, config, outcome, analysis, i);
            && Coherent(t) && Grows(s, t)
            && (Inv(t) <==> !(Starts(s) && outcome.Acts? && Outruns(config, outcome.action, outcome.analyzed, i)))
  {
    if Starts(s) {
      var t := s.(loopStart := analysis);
      if outcome.Acts? {
        ActOverIff(t, config, outcome.action, outcome.analyzed, i);
      } else {
        NoActionOver(s, config, outcome, analysis, i);
      }
    }
  }

  /** A turn leaves the slot filled in a stopped or failed agent if and only if it is outrun. */
  lemma TurnKeepsIff(s: State, config: Config, turn: Turn)
    requires Inv(s) && Possible(s, turn)
    ensures Coherent(ApplyOver(s, config, turn))
    ensures Inv(ApplyOver(s, config, turn)) <==> !IsOutrun(s, config, turn)
  {
    if HasStep(s, turn.m) {
      if turn.m.OnEvent? {
        HandleNextKeeps(s);
      }
      StepOverIff(BeforeStep(s, turn.m), config, turn.m.outcome, turn.m.analysis, turn.i);
    } else {
      MoveKeeps(s, config, turn.m);
    }
  }

  predicate ArePossible(s: State, config: Config, turns: seq<Turn>)
    decreases |turns|
  {
    turns == []
    || (Possible(s, turns[0]) && ArePossible(ApplyOver(s, config, turns[0]), config, turns[1..]))
  }

  predicate SlotIsEmptyInEnd(s: State) {
    s.pending.Some? ==> !Ends(s.agentState)
  }

  /** In every state of the run. */
  predicate AlwaysEmptyInEnd(s: State, config: Config, turns: seq<Turn>)
    requires ArePossible(s, config, turns)
    decreases |turns|
  {
    SlotIsEmptyInEnd(s) && (turns != [] ==> AlwaysEmptyInEnd(ApplyOver(s, config, turns[0]), config, turns[1..]))
  }

  predicate NoneOutrun(s: State, config: Config, turns: seq<Turn>)
    requires ArePossible(s, config, turns)
    decreases |turns|
  {
    turns == []
    || (!IsOutrun(s, config, turns[0]) && NoneOutrun(ApplyOver(s, config, turns[0]), config, turns[1..]))
  }

  lemma {:induction false} AlwaysEmptyFrom(s: State, config: Config, turns: seq<Turn>)
    requires Inv(s) && ArePossible(s, config, turns)
    ensures AlwaysEmptyInEnd(s, config, turns) <==> NoneOutrun(s, config, turns)
    decreases |turns|
  {
    if turns != [] {
      var t := ApplyOver(s, config, turns[0]);
      TurnKeepsIff(s, config, turns[0]);
      if Inv(t) {
        AlwaysEmptyFrom(t, config, turns[1..]);
      }
    }
  }

  /** Over every run with other tasks stopping and failing the agent in the middle of its steps: the
      slot is empty whenever the agent is stopped or failed, if and only if no step is outrun. */
  lemma SlotIsEmptyIff(s: State, config: Config, turns: seq<Turn>)
    requires Initial(s) && ArePossible(s, config, turns)
    ensures AlwaysEmptyInEnd(s, config, turns) <==> NoneOutrun(s, config, turns)
  {
    InitialIsCoherent(s);
    AlwaysEmptyFrom(s, config, turns);
  }

  /*** A stop that is undone, and one that comes too early. ***/

  /** The agent was stopped or failed while it thought. It is neither afterwards if and only if its
      action asks for confirmation and nothing stops it again before the action is on the stream, or
      its call failed and will be retried. */
  lemma StopIsUndoneIff(s: State, config: Config, outcome: Outcome, analysis: Option<nat>, i: Interference)
    requires Inv(s) && Starts(s) && GivesNewAction(outcome) && StopsOrFails(i) && i.thinking != []
    ensures !Ends(StepOver(s, config, outcome, analysis, i).agentState)
       <==> match outcome
            case Raises(retrying) => retrying
            case Acts(e, analyzed) => AsksNow(WithConfirmation(config, e, analyzed)) && i.asking == []
            case _ => false
  {
    LastEnds(i.thinking, RUNNING);
    match outcome
    case Acts(e, analyzed) =>
      ActOverIff(s.(loopStart := analysis), config, e, analyzed, i);
      LastEnds(i.asking, RUNNING);
    case _ => NoActionOver(s, config, outcome, analysis, i);
  }

  const FRESH := State([], [], 0, [], None, RUNNING, None)

  const COMMAND := NewEvent(AgentSource, Command(Confirmed)).(tool := Some(0))
  const CLOSED := Turn(StepNow(Acts(COMMAND, Low), None), Interference([STOPPED], []))

  lemma StoppedThenPublished(config: Config)
    requires !config.confirmationMode
    ensures var t := ApplyOver(FRESH, config, CLOSED);
            && t == Publish(SetAgentState(FRESH, STOPPED).(pending := Some(COMMAND)), COMMAND)
            && t.stream == [NewEvent(EnvironmentSource, StateChanged(STOPPED)).(id := 0), COMMAND.(id := 1)]
            && t.pending.Some? && t.agentState == STOPPED
  {
    var stopped := SetAgentState(FRESH, STOPPED);
    assert [STOPPED][1..] == [];
    assert SetAll(FRESH, [STOPPED]) == SetAll(stopped, []) == stopped;
    var taken := stopped.(pending := Some(COMMAND));
    assert SetAll(Ask(taken, COMMAND), []) == taken;
  }

  /** Closing while the agent thinks: its command takes the slot of the stopped agent, nothing
      acknowledges it, and closing once more changes nothing. */
  lemma ClosingIsOutrun(config: Config)
    requires !config.confirmationMode
    ensures Initial(FRESH) && Possible(FRESH, CLOSED)
    ensures var t := ApplyOver(FRESH, config, CLOSED);
            && !SlotIsEmptyInEnd(t) && !HasObservation(t.stream, COMMAND.tool) && SetAgentState(t, STOPPED) == t
  {
    StoppedThenPublished(config);
  }
}
