/** A run of the controller in which a message of the user makes it drop a tool call. */
module DroppedCall {
  import opened Wrappers
  import opened ControllerState
  import opened ControllerInvariants
  import opened ControllerRuns

  const COMMAND := Event(INVALID_ID, AgentSource, None, Some(0), false, Command(Confirmed))
  const MESSAGE := NewEvent(UserSource, Message(false))
  const RETRIEVAL := NewEvent(UserSource, Recall)

  const ISSUE := StepNow(Acts(COMMAND, Low), None)
  const SEND := Others([MESSAGE])
  const NOTICE := OnEvent(NoAction, None)

  /** The controller when the stream has n of the three events, and it was notified of some. */
  function At(n: nat, handled: nat): State
    requires n <= 3 && handled <= n && handled <= 2
  {
    var events := [COMMAND.(id := 0), MESSAGE.(id := 1), RETRIEVAL.(id := 2)];
    State(events[..n], [], handled, events[..handled],
          if n == 0 then None else if n < 3 then Some(events[0]) else Some(events[2]), RUNNING, None)
  }

  lemma Issued(config: Config)
    requires !config.confirmationMode
    ensures Apply(At(0, 0), config, ISSUE) == At(1, 0)
  {
  }

  lemma Sent(config: Config)
    ensures Apply(At(1, 0), config, SEND) == At(2, 0)
  {
    assert NumberedAll([MESSAGE], 1) == [MESSAGE.(id := 1)];
  }

  lemma CommandNoticed(config: Config)
    ensures Apply(At(2, 0), config, NOTICE) == At(2, 1)
  {
  }

  lemma MessageNoticed(config: Config)
    ensures Apply(At(2, 1), config, NOTICE) == At(3, 2)
  {
  }

  function Moves(): seq<Move> {
    [ISSUE] + ([SEND] + ([NOTICE] + ([NOTICE] + [])))
  }

  lemma MovesAreARun(config: Config)
    requires !config.confirmationMode
    ensures IsRun(At(0, 0), config, Moves()) && After(At(0, 0), config, Moves()) == At(3, 2)
  {
    Issued(config);
    Sent(config);
    CommandNoticed(config);
    MessageNoticed(config);
    RunFrom(At(2, 1), config, NOTICE, [], At(3, 2), At(3, 2));
    RunFrom(At(2, 0), config, NOTICE, [NOTICE] + [], At(2, 1), At(3, 2));
    RunFrom(At(1, 0), config, SEND, [NOTICE] + ([NOTICE] + []), At(2, 0), At(3, 2));
    RunFrom(At(0, 0), config, ISSUE, [SEND] + ([NOTICE] + ([NOTICE] + [])), At(1, 0), At(3, 2));
  }

  /** From a fresh start, the agent issues a command for a tool call, the user sends a message, and
      the controller is notified of both: the command has lost its slot to the retrieval, and
      nothing on the stream answers its call. */
  lemma UserMessageDropsCall(config: Config)
    requires !config.confirmationMode
    ensures Initial(At(0, 0)) && IsRun(At(0, 0), config, Moves())
    ensures HasCall(Apply(At(0, 0), config, ISSUE)) && RetrievalIsPending(After(At(0, 0), config, Moves()))
    ensures !Answered(After(At(0, 0), config, Moves()).stream, Some(0))
  {
    Issued(config);
    MovesAreARun(config);
    assert forall i :: 0 <= i < 3 ==> !IsObservation(At(3, 2).stream[i]);
  }
}
