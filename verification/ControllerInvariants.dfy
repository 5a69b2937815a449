/** What every operation of the controller keeps. */
module ControllerInvariants {
  import opened Wrappers
  import opened ControllerState

  /*** The stream. ***/

  predicate EventOk(stream: seq<Event>, i: nat)
    requires i < |stream|
  {
    stream[i].id == i && (IsObservation(stream[i]) && stream[i].cause.Some? ==> stream[i].cause.value < i)
  }

  /** Ids count the events of the stream, and observations are caused by earlier events. */
  predicate StreamOk(stream: seq<Event>) {
    forall i :: 0 <= i < |stream| ==> EventOk(stream, i)
  }

  predicate OnStream(stream: seq<Event>, e: Event) {
    0 <= e.id < |stream| && stream[e.id] == e
  }

  predicate HistoryOk(s: State) {
    forall i :: 0 <= i < |s.history| ==> OnStream(s.stream, s.history[i])
  }

  predicate PendingOnStream(s: State) {
    s.pending.Some? ==> OnStream(s.stream, s.pending.value) && !IsObservation(s.pending.value)
  }

  predicate Coherent(s: State) {
    StreamOk(s.stream) && HistoryOk(s) && PendingOnStream(s) && s.handled <= |s.stream|
  }

  /** The slot is empty when the agent is stopped or failed. */
  predicate Inv(s: State) {
    Coherent(s) && (s.pending.Some? ==> s.agentState != STOPPED && s.agentState != ERROR)
  }

  /*** From one state to a later one. ***/

  predicate Extends(s: State, t: State) {
    |s.stream| <= |t.stream| && forall i :: 0 <= i < |s.stream| ==> t.stream[i] == s.stream[i]
  }

  /** What is pending was pending already, or is a later event than all there were. */
  predicate PendingIsSameOrNew(s: State, t: State) {
    t.pending.Some? ==> t.pending == s.pending || t.pending.value.id >= |s.stream|
  }

  /** An action for the tool call caused the event. */
  predicate IsCausedByCall(stream: seq<Event>, cause: Option<int>, tool: Option<int>) {
    && cause.Some? && 0 <= cause.value < |stream|
    && !IsObservation(stream[cause.value]) && stream[cause.value].tool == tool
  }

  /** An observation on the stream belongs to the tool call: it carries the metadata of the call, or
      an action for the call caused it. */
  predicate Answers(stream: seq<Event>, i: nat, tool: Option<int>)
    requires i < |stream|
  {
    IsObservation(stream[i]) && (stream[i].tool == tool || IsCausedByCall(stream, stream[i].cause, tool))
  }

  predicate Answered(stream: seq<Event>, tool: Option<int>) {
    exists i :: 0 <= i < |stream| && Answers(stream, i, tool)
  }

  predicate HasCall(s: State) {
    s.pending.Some? && s.pending.value.tool.Some?
  }

  predicate PendingCall(s: State, tool: Option<int>) {
    s.pending.Some? && s.pending.value.tool == tool
  }

  /** The pending tool call is not dropped. */
  predicate KeepsCall(s: State, t: State) {
    HasCall(s) ==> PendingCall(t, s.pending.value.tool) || Answered(t.stream, s.pending.value.tool)
  }

  /** An action with this metadata is pending, or an observation that carries it is on the stream. */
  predicate Held(s: State, tool: Option<int>) {
    PendingCall(s, tool) || HasObservation(s.stream, tool)
  }

  /** The pending action, whether it is for a tool call or not, stays pending or is acknowledged. */
  predicate Holds(s: State, t: State) {
    s.pending.Some? ==> Held(t, s.pending.value.tool)
  }

  predicate Follows(s: State, t: State) {
    Extends(s, t) && PendingIsSameOrNew(s, t) && t.handled == s.handled
  }

  lemma AnswerStays(s: State, t: State, tool: Option<int>)
    requires Extends(s, t) && Answered(s.stream, tool)
    ensures Answered(t.stream, tool)
  {
    var i :| 0 <= i < |s.stream| && Answers(s.stream, i, tool);
    assert Answers(t.stream, i, tool);
  }

  lemma ObservationStays(s: State, t: State, tool: Option<int>)
    requires Extends(s, t) && HasObservation(s.stream, tool)
    ensures HasObservation(t.stream, tool)
  {
    var i :| 0 <= i < |s.stream| && IsObservation(s.stream[i]) && s.stream[i].tool == tool;
    assert t.stream[i] == s.stream[i];
  }

  lemma ObservationAnswers(stream: seq<Event>, tool: Option<int>)
    requires HasObservation(stream, tool)
    ensures Answered(stream, tool)
  {
    var i :| 0 <= i < |stream| && IsObservation(stream[i]) && stream[i].tool == tool;
    assert Answers(stream, i, tool);
  }

  lemma HoldsKeepsCall(s: State, t: State)
    requires Holds(s, t)
    ensures KeepsCall(s, t)
  {
    if HasCall(s) && !PendingCall(t, s.pending.value.tool) {
      ObservationAnswers(t.stream, s.pending.value.tool);
    }
  }

  lemma HoldsThen(s: State, t: State, u: State)
    requires Holds(s, t) && Holds(t, u) && Extends(t, u)
    ensures Holds(s, u)
  {
    if s.pending.Some? && !PendingCall(t, s.pending.value.tool) {
      ObservationStays(t, u, s.pending.value.tool);
    }
  }

  lemma FollowsThen(s: State, t: State, u: State)
    requires Follows(s, t) && Follows(t, u)
    ensures Follows(s, u)
  {
  }

  lemma KeepsCallThen(s: State, t: State, u: State)
    requires KeepsCall(s, t) && KeepsCall(t, u) && Extends(t, u)
    ensures KeepsCall(s, u)
  {
    if HasCall(s) && !PendingCall(t, s.pending.value.tool) {
      AnswerStays(t, u, s.pending.value.tool);
    }
  }

  /*** Adding events. ***/

  lemma ArriveKeeps(s: State, es: seq<Event>)
    requires Coherent(s)
    ensures Coherent(Arrive(s, es)) && Follows(s, Arrive(s, es))
  {
    var t := Arrive(s, es);
    forall i | 0 <= i < |t.stream| ensures EventOk(t.stream, i) {
      if i < |s.stream| {
        assert EventOk(s.stream, i);
      }
    }
    assert forall e :: OnStream(s.stream, e) ==> OnStream(t.stream, e);
  }

  predicate CausedEarlier(e: Event, n: nat) {
    IsObservation(e) && e.cause.Some? ==> e.cause.value < n
  }

  lemma AppendKeeps(s: State, e: Event)
    requires Coherent(s) && CausedEarlier(e, |s.stream|)
    ensures var t := s.(stream := s.stream + [e.(id := |s.stream|)]);
            Coherent(t) && Follows(s, t)
  {
    var t := s.(stream := s.stream + [e.(id := |s.stream|)]);
    forall i | 0 <= i < |t.stream| ensures EventOk(t.stream, i) {
      if i < |s.stream| {
        assert EventOk(s.stream, i);
      }
    }
    assert forall h :: OnStream(s.stream, h) ==> OnStream(t.stream, h);
  }

  /** The new event is the last one, and nothing else changes. */
  lemma EmitKeeps(s: State, e: Event)
    requires Coherent(s) && CausedEarlier(e, |s.stream|)
    ensures var t := Emit(s, e);
            && Coherent(t) && Follows(s, t) && |t.stream| > |s.stream|
            && t.stream[|t.stream| - 1] == e.(id := |t.stream| - 1)
            && t == s.(stream := t.stream, arrivals := t.arrivals)
  {
    var t := NextArrivals(s);
    if s.arrivals != [] {
      ArriveKeeps(s, s.arrivals[0]);
    }
    assert Coherent(t) && Follows(s, t);
    AppendKeeps(t, e);
    FollowsThen(s, t, Emit(s, e));
  }

  /*** Setting the state of the agent. ***/

  lemma HistoryIsOnStream(s: State, tool: Option<int>)
    requires Coherent(s) && HasObservation(s.history, tool)
    ensures HasObservation(s.stream, tool)
  {
    var i :| 0 <= i < |s.history| && IsObservation(s.history[i]) && s.history[i].tool == tool;
    assert OnStream(s.stream, s.history[i]);
  }

  /** Resetting empties the slot, and leaves an observation with the metadata of what was pending. */
  lemma ResetKeeps(s: State)
    requires Coherent(s)
    ensures var t := Reset(s);
            && Coherent(t) && Follows(s, t) && t.pending.None?
            && (s.pending.Some? ==> HasObservation(t.stream, s.pending.value.tool))
            && t == s.(stream := t.stream, arrivals := t.arrivals, pending := None)
  {
    if s.pending.Some? {
      var tool := s.pending.value.tool;
      if HasObservation(s.history, tool) {
        HistoryIsOnStream(s, tool);
      } else {
        EmitKeeps(s, NewEvent(AgentSource, ErrorObservation).(tool := tool, cause := Some(s.pending.value.id)));
      }
    }
  }

  lemma ReissueKeeps(s: State, to: AgentState)
    requires Coherent(s) && s.pending.Some?
    ensures var t := Reissue(s, to);
            && Coherent(t) && Follows(s, t) && Holds(s, t)
            && t.pending.Some? && t.pending.value.id >= |s.stream|
            && t == s.(stream := t.stream, arrivals := t.arrivals, pending := t.pending)
  {
    EmitKeeps(s, Answer(s.pending.value, to).(source := AgentSource));
  }

  predicate Ends(to: AgentState) {
    to == STOPPED || to == ERROR
  }

  /** Stopping or failing empties the slot, and leaves an observation with the metadata of what was
      pending. */
  lemma EndingKeeps(s: State, to: AgentState)
    requires Coherent(s) && to != s.agentState && Ends(to)
    ensures var t := SetAgentState(s, to);
            && Coherent(t) && Follows(s, t) && t.agentState == to && t.pending.None?
            && (s.pending.Some? ==> HasObservation(t.stream, s.pending.value.tool))
            && t.history == s.history && t.loopStart == s.loopStart
  {
    var t := s.(agentState := to);
    var u := Reset(t);
    ResetKeeps(t);
    EmitKeeps(u, NewEvent(EnvironmentSource, StateChanged(to)));
    if s.pending.Some? {
      ObservationStays(u, SetAgentState(s, to), s.pending.value.tool);
    }
  }

  /** Any change of state keeps what is pending or leaves an observation with its metadata. */
  lemma SetAgentStateKeeps(s: State, to: AgentState)
    requires Coherent(s)
    ensures var t := SetAgentState(s, to);
            && Coherent(t) && Follows(s, t) && Holds(s, t) && t.agentState == to
            && (to != s.agentState && Ends(to) ==>
                  t.pending.None? && (s.pending.Some? ==> HasObservation(t.stream, s.pending.value.tool)))
            && (s.pending.None? ==> t.pending.None?)
            && t.history == s.history && t.loopStart == s.loopStart
  {
    if to != s.agentState {
      if Ends(to) {
        EndingKeeps(s, to);
      } else {
        var u := s.(agentState := to);
        var v := if u.pending.Some? && (to == USER_CONFIRMED || to == USER_REJECTED) then Reissue(u, to) else u;
        if u.pending.Some? {
          ReissueKeeps(u, to);
        }
        EmitKeeps(v, NewEvent(EnvironmentSource, StateChanged(to)));
      }
    }
  }
}
