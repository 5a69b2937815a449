/** Breaking messages with several tool calls into messages with one. */
module FnCallSplit {
  import opened Wrappers
  import opened FnCallMessages

  /** A call on its own, with the text its message gets. */
  datatype Single = Single(text: string, call: ToolCall)

  datatype SplitError = UnexpectedResult | UnexpectedMessage | MissingResults

  predicate IsMulti(m: Message) {
    IsCall(m) && |m.calls.value| > 1
  }

  function SingleMessage(s: Single): Message {
    Assistant(s.text, Some([s.call]))
  }

  /** The calls of a message; the first one takes the text. */
  function Singles(m: Message): seq<Single> {
    if !IsCall(m) then []
    else seq(|m.calls.value|, i requires 0 <= i < |m.calls.value| =>
               Single(if i == 0 then m.text else "", m.calls.value[i]))
  }

  function AddAll(pending: map<string, Single>, singles: seq<Single>): map<string, Single>
    decreases |singles|
  {
    if singles == [] then pending
    else AddAll(pending[singles[0].call.id := singles[0]], singles[1..])
  }

  /** What one message adds to the output, and what is pending after it. */
  function Next(m: Message, pending: map<string, Single>): Result<(seq<Message>, map<string, Single>), SplitError> {
    if IsMulti(m) then Ok(([], AddAll(pending, Singles(m))))
    else if m.Assistant? then Ok(([m], pending))
    else if m.Tool? && m.callId in pending then
      Ok(([SingleMessage(pending[m.callId]), m], pending - {m.callId}))
    else if pending != map[] then Err(if m.Tool? then UnexpectedResult else UnexpectedMessage)
    else Ok(([m], pending))
  }

  function Run(ms: seq<Message>, pending: map<string, Single>)
    : Result<(seq<Message>, map<string, Single>), SplitError>
  {
    if ms == [] then Ok(([], pending))
    else
      var step := Next(ms[0], pending);
      if step.Err? then Err(step.error)
      else
        var rest := Run(ms[1..], step.value.1);
        if rest.Err? then Err(rest.error) else Ok((step.value.0 + rest.value.0, rest.value.1))
  }

  function Split(ms: seq<Message>, ignoreFinalToolResult: bool): Result<seq<Message>, SplitError> {
    var r := Run(ms, map[]);
    if r.Err? then Err(r.error)
    else if !ignoreFinalToolResult && r.value.1 != map[] then Err(MissingResults)
    else Ok(r.value.0)
  }

  /*** The loop. ***/

  function After(done: seq<Message>, r: Result<(seq<Message>, map<string, Single>), SplitError>)
    : Result<(seq<Message>, map<string, Single>), SplitError>
  {
    if r.Err? then r else Ok((done + r.value.0, r.value.1))
  }

  lemma RunNext(ms: seq<Message>, i: nat, done: seq<Message>, pending: map<string, Single>)
    requires i < |ms|
    ensures After(done, Run(ms[i..], pending))
         == (var step := Next(ms[i], pending);
             if step.Err? then Err(step.error) else After(done + step.value.0, Run(ms[i + 1..], step.value.1)))
  {
    var step := Next(ms[i], pending);
    assert ms[i..][0] == ms[i] && ms[i..][1..] == ms[i + 1..];
    if step.Ok? && Run(ms[i + 1..], step.value.1).Ok? {
      AddedThenRest(done, step.value.0, Run(ms[i + 1..], step.value.1).value.0);
    }
  }

  lemma AddedThenRest(done: seq<Message>, added: seq<Message>, rest: seq<Message>)
    ensures done + (added + rest) == done + added + rest
  {
  }

  lemma AfterNone(r: Result<(seq<Message>, map<string, Single>), SplitError>)
    ensures After([], r) == r
  {
    if r.Ok? {
      assert [] + r.value.0 == r.value.0;
    }
  }

  method AddPending(m: Message, before: map<string, Single>) returns (pending: map<string, Single>)
    requires IsCall(m)
    ensures pending == AddAll(before, Singles(m))
  {
    pending := before;
    var calls := m.calls.value;
    for i := 0 to |calls|
      invariant AddAll(before, Singles(m)) == AddAll(pending, Singles(m)[i..])
    {
      assert Singles(m)[i..][1..] == Singles(m)[i + 1..];
      pending := pending[calls[i].id := Single(if i == 0 then m.text else "", calls[i])];
    }
  }

  /** convert_from_multiple_tool_calls_to_single_tool_call_messages */
  method ConvertToSingleToolCallMessages(messages: seq<Message>, ignoreFinalToolResult: bool)
    returns (r: Result<seq<Message>, SplitError>)
    ensures r == Split(messages, ignoreFinalToolResult)
  {
    var converted: seq<Message> := [];
    var pending: map<string, Single> := map[];
    assert messages[0..] == messages;
    AfterNone(Run(messages, map[]));
    for i := 0 to |messages|
      invariant Run(messages, map[]) == After(converted, Run(messages[i..], pending))
    {
      RunNext(messages, i, converted, pending);
      var m := messages[i];
      match m {
        case Assistant(_, calls) =>
          if calls.Some? && |calls.value| > 1 {
            assert converted + [] == converted;
            pending := AddPending(m, pending);
          } else {
            converted := converted + [m];
          }
        case Tool(_, callId, _) =>
          if callId in pending {
            ghost var before := converted;
            var single := pending[callId];
            pending := pending - {callId};
            converted := converted + [SingleMessage(single)];
            converted := converted + [m];
            assert converted == before + [SingleMessage(single), m];
          } else {
            if pending != map[] {
              return Err(UnexpectedResult);
            }
            converted := converted + [m];
          }
        case _ =>
          if pending != map[] {
            return Err(UnexpectedMessage);
          }
          converted := converted + [m];
      }
    }
    assert converted + [] == converted;
    if !ignoreFinalToolResult && pending != map[] {
      return Err(MissingResults);
    }
    r := Ok(converted);
  }
}
