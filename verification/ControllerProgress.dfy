/** What makes the controller go on, and what makes it wait for the user. */
module ControllerProgress {
  import opened Wrappers
  import opened ControllerState
  import opened ControllerInvariants
  import opened ControllerRuns

  /*** Moves that let what is pending be. ***/

  /** The controller is notified of the next event, and handles it. */
  predicate Notices(s: State, m: Move) {
    Enabled(s, m) && m.OnEvent? && !s.stream[s.handled].hidden
  }

  /** Handling the event changes neither the state of the agent nor what is pending: it is no message
      of the user, no change of state, no loop recovery and no answer to what is pending. */
  predicate IsQuietEvent(s: State, e: Event) {
    if IsObservation(e) then !Vacates(s, e)
    else
      match e.body
      case ChangeAgentState(to) => to == s.agentState
      case Message(waits) =>
        e.source != UserSource && (e.source == AgentSource && waits ==> s.agentState == AWAITING_USER_INPUT)
      case Finish => s.agentState == FINISHED
      case Reject => s.agentState == REJECTED
      case LoopRecovery(option) => s.loopStart.None? || !(1 <= option <= 3)
      case _ => true
  }

  predicate IsQuiet(s: State, m: Move)
    requires Enabled(s, m)
  {
    (m.Set? ==> m.to == s.agentState) && (Notices(s, m) ==> IsQuietEvent(s, s.stream[s.handled]))
  }

  predicate IsQuietRun(s: State, config: Config, moves: seq<Move>)
    requires IsRun(s, config, moves)
    decreases |moves|
  {
    moves == [] || (IsQuiet(s, moves[0]) && IsQuietRun(Apply(s, config, moves[0]), config, moves[1..]))
  }

  predicate SamePending(s: State, t: State) {
    t.pending == s.pending && t.agentState == s.agentState
  }

  lemma StepNeedsRunning(s: State, config: Config, outcome: Outcome, analysis: Option<nat>)
    requires s.agentState != RUNNING || s.pending.Some?
    ensures Step(s, config, outcome, analysis) == s
  {
  }

  lemma QuietEventKeeps(s: State, e: Event)
    requires IsQuietEvent(s, e)
    ensures SamePending(s, Handle(s, e))
  {
  }

  lemma QuietMoveKeeps(s: State, config: Config, m: Move)
    requires Enabled(s, m) && s.pending.Some? && IsQuiet(s, m)
    ensures SamePending(s, Apply(s, config, m))
  {
    match m
    case Others(_) =>
    case Set(_) =>
    case StepNow(outcome, analysis) => StepNeedsRunning(s, config, outcome, analysis);
    case OnEvent(outcome, analysis) =>
      var e := s.stream[s.handled];
      if !e.hidden {
        QuietEventKeeps(Notified(s), e);
      }
      StepNeedsRunning(HandleNext(s), config, outcome, analysis);
  }

  /** Whatever else others do, and however often the controller is made to step. */
  lemma {:induction false} QuietRunKeeps(s: State, config: Config, moves: seq<Move>)
    requires Inv(s) && s.pending.Some? && IsRun(s, config, moves) && IsQuietRun(s, config, moves)
    ensures SamePending(s, After(s, config, moves)) && LeadsTo(s, After(s, config, moves))
    decreases |moves|
  {
    if moves != [] {
      var t := Apply(s, config, moves[0]);
      QuietMoveKeeps(s, config, moves[0]);
      MoveKeeps(s, config, moves[0]);
      QuietRunKeeps(t, config, moves[1..]);
      LeadsToThen(s, t, After(t, config, moves[1..]));
    }
  }

  /*** Answers. ***/

  /** The answer to what is pending. */
  predicate IsAnswer(s: State, e: Event) {
    IsObservation(e) && !e.body.StateChanged? && s.pending.Some? && e.cause == Some(s.pending.value.id)
  }

  function AfterAnswer(state: AgentState): AgentState {
    if state == USER_CONFIRMED then RUNNING else if state == USER_REJECTED then AWAITING_USER_INPUT else state
  }

  lemma AnswerEmptiesSlot(s: State, m: Move)
    requires Inv(s) && Notices(s, m) && IsAnswer(s, s.stream[s.handled]) && s.agentState != AWAITING_USER_CONFIRMATION
    ensures HandleNext(s).pending.None? && HandleNext(s).agentState == AfterAnswer(s.agentState)
  {
    var u := AddHistory(Notified(s), s.stream[s.handled]).(pending := None);
    NotifiedKeeps(s);
    SetAgentStateKeeps(u, AfterAnswer(s.agentState));
  }

  /** An empty observation counts as an answer except to the very first event. */
  lemma AnswerIsSteppedOn(s: State, config: Config, m: Move)
    requires Notices(s, m) && IsAnswer(s, s.stream[s.handled]) && s.pending.value.id > 0
    ensures Apply(s, config, m) == Step(HandleNext(s), config, m.outcome, m.analysis)
  {
    assert ShouldStep(HandleNext(s), s.stream[s.handled]);
  }

  /** What the agent wants done is pending, as the last event of the stream. */
  predicate ActsOn(config: Config, outcome: Outcome, s: State)
    requires outcome.Acts?
  {
    && s.pending == Some(WithConfirmation(config, outcome.action, outcome.analyzed).(id := |s.stream| - 1))
    && OnStream(s.stream, s.pending.value)
  }

  lemma RunnableActionTakesSlot(s: State, config: Config, outcome: Outcome, analysis: Option<nat>)
    requires Inv(s) && s.agentState == RUNNING && s.pending.None?
    requires outcome.Acts? && IsRunnable(outcome.action)
    ensures ActsOn(config, outcome, Step(s, config, outcome, analysis))
  {
    StepKeeps(s, config, outcome, analysis);
  }

  predicate GivesRunnable(m: Move) {
    (m.OnEvent? || m.StepNow?) && m.outcome.Acts? && IsRunnable(m.outcome.action)
  }

  lemma AnswerLetsAgentAct(s: State, config: Config, m: Move)
    requires Inv(s) && Notices(s, m) && IsAnswer(s, s.stream[s.handled]) && s.pending.value.id > 0
    requires GivesRunnable(m) && (s.agentState == RUNNING || s.agentState == USER_CONFIRMED)
    ensures ActsOn(config, m.outcome, Apply(s, config, m))
  {
    AnswerEmptiesSlot(s, m);
    AnswerIsSteppedOn(s, config, m);
    HandleNextKeeps(s);
    RunnableActionTakesSlot(HandleNext(s), config, m.outcome, m.analysis);
  }

  /*** From a message of the user to the agent's action. ***/

  lemma UserMessageStartsRetrieval(s: State, config: Config, m: Move)
    requires Inv(s) && Notices(s, m) && IsUserMessage(s.stream[s.handled])
    ensures var t := Apply(s, config, m);
            Inv(t) && t.agentState == RUNNING && RetrievalIsPending(t) && t.pending.value.id > 0
  {
    var e := s.stream[s.handled];
    var u := AddHistory(Notified(s), e);
    NotifiedKeeps(s);
    assert Coherent(u);
    RetrievingIsCoherent(u);
    HandleUserMessageKeeps(u);
    SetAgentStateKeeps(Retrieving(u), RUNNING);
    RunningKeepsSlot(Retrieving(u));
    MoveKeeps(s, config, m);
  }

  /** A message of the user, handled in any state, sets the agent running with the retrieval for it
      pending. Through any quiet moves both stay so; and in the move that handles the answer to the
      retrieval, the agent's action takes the slot. */
  lemma UserMessageIsActedOn(s: State, config: Config, first: Move, moves: seq<Move>, last: Move)
    requires Inv(s) && Notices(s, first) && IsUserMessage(s.stream[s.handled])
    requires var t := Apply(s, config, first); IsRun(t, config, moves) && IsQuietRun(t, config, moves)
    ensures var t := Apply(s, config, first);
            var u := After(t, config, moves);
            && u.agentState == RUNNING && RetrievalIsPending(u) && u.pending == t.pending
            && (Notices(u, last) && IsAnswer(u, u.stream[u.handled]) && GivesRunnable(last) ==>
                  ActsOn(config, last.outcome, Apply(u, config, last)))
  {
    var t := Apply(s, config, first);
    var u := After(t, config, moves);
    UserMessageStartsRetrieval(s, config, first);
    QuietRunKeeps(t, config, moves);
    if Notices(u, last) && IsAnswer(u, u.stream[u.handled]) && GivesRunnable(last) {
      AnswerLetsAgentAct(u, config, last);
    }
  }

  /*** From an action that awaits confirmation to the next one. ***/

  /** The controller handles the user's decision. */
  predicate Decides(s: State, m: Move) {
    && Notices(s, m) && s.stream[s.handled].body.ChangeAgentState?
    && (s.stream[s.handled].body.to == USER_CONFIRMED || s.stream[s.handled].body.to == USER_REJECTED)
  }

  lemma DecisionReissues(s: State, config: Config, m: Move)
    requires Inv(s) && s.agentState == AWAITING_USER_CONFIRMATION && s.pending.Some? && Decides(s, m)
    ensures var t := Apply(s, config, m);
            && Inv(t) && t.agentState == s.stream[s.handled].body.to
            && t.pending.Some? && t.pending.value.id >= |s.stream| && t.pending.value.tool == s.pending.value.tool
  {
    var e := s.stream[s.handled];
    NotifiedKeeps(s);
    MoveKeeps(s, config, m);
    AnsweredActionIsReissued(Notified(s), e.body.to);
    SetAgentStateKeeps(Notified(s), e.body.to);
  }

  /** While an action awaits confirmation, it stays pending through any quiet moves, answers to it
      among them. Once the user has decided, the same call is pending under a new id, and through any
      quiet moves it stays so. In the move that handles the answer to it, the agent's next action
      takes the slot if the user confirmed; if not, the agent waits for the user. */
  lemma ConfirmationIsAwaited(
    s: State, config: Config, before: seq<Move>, decision: Move, moves: seq<Move>, last: Move)
    requires Inv(s) && s.agentState == AWAITING_USER_CONFIRMATION && s.pending.Some?
    requires IsRun(s, config, before) && IsQuietRun(s, config, before)
    requires var t := After(s, config, before);
             && Decides(t, decision) && IsRun(Apply(t, config, decision), config, moves)
             && IsQuietRun(Apply(t, config, decision), config, moves)
    ensures var t := After(s, config, before);
            var u := After(Apply(t, config, decision), config, moves);
            && t.pending == s.pending && t.agentState == AWAITING_USER_CONFIRMATION
            && u.pending.Some? && u.pending.value.id >= |t.stream| && u.pending.value.tool == s.pending.value.tool
            && u.agentState == t.stream[t.handled].body.to
            && (Notices(u, last) && IsAnswer(u, u.stream[u.handled]) && GivesRunnable(last) ==>
                  if u.agentState == USER_CONFIRMED then ActsOn(config, last.outcome, Apply(u, config, last))
                  else Apply(u, config, last) == HandleNext(u) && HandleNext(u).pending.None?
                       && HandleNext(u).agentState == AWAITING_USER_INPUT)
  {
    var t := After(s, config, before);
    QuietRunKeeps(s, config, before);
    DecisionReissues(t, config, decision);
    var decided := Apply(t, config, decision);
    QuietRunKeeps(decided, config, moves);
    var u := After(decided, config, moves);
    if Notices(u, last) && IsAnswer(u, u.stream[u.handled]) && GivesRunnable(last) {
      if u.agentState == USER_CONFIRMED {
        AnswerLetsAgentAct(u, config, last);
      } else {
        AnswerEmptiesSlot(u, last);
        AnswerIsSteppedOn(u, config, last);
        StepNeedsRunning(HandleNext(u), config, last.outcome, last.analysis);
      }
    }
  }
}
