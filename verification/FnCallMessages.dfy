/** Conversations with tool calls as conversations without them, and back. */
module FnCallMessages {
  import opened Wrappers
  import opened Text
  import opened Numerals
  import opened FnCallFormat

  datatype ToolCall = ToolCall(id: string, name: string, args: Args)

  /** A message of a conversation with tool calls. */
  datatype Message =
    | System(text: string)
    | User(text: string)
    | Assistant(text: string, calls: Option<seq<ToolCall>>)
    | Tool(name: Option<string>, callId: string, text: string)

  datatype Role = SystemRole | UserRole | AssistantRole

  /** A message of a conversation without them. */
  datatype PlainMessage = PlainMessage(role: Role, text: string)

  const RESULT_OPEN := "EXECUTION RESULT of ["
  const RESULT_CLOSE := "]:\n"

  /** What the prompts say: the system prompt suffix, as its first line and the instructions for the
      tools at hand; the example for the first user message; and what is put behind that message,
      as its first line and the rest. */
  datatype Prompts = Prompts(systemHeader: string, instructions: string, example: string,
                             endHeader: string, closing: string, addExample: bool)

  function SystemSuffix(p: Prompts): string {
    p.systemHeader + p.instructions
  }

  function EndSuffix(p: Prompts): string {
    p.endHeader + p.closing
  }

  /*** To a conversation without tool calls. ***/

  function WithExample(p: Prompts, text: string, first: bool): string {
    if first && p.addExample && p.example != "" then p.example + text + EndSuffix(p) else text
  }

  function ResultText(name: Option<string>, text: string): string {
    RESULT_OPEN + (if name.Some? then name.value else "function") + RESULT_CLOSE + text
  }

  function ToPlain(p: Prompts, m: Message, first: bool): Result<PlainMessage, ConversionError> {
    match m
    case System(text) => Ok(PlainMessage(SystemRole, text + SystemSuffix(p)))
    case User(text) => Ok(PlainMessage(UserRole, WithExample(p, text, first)))
    case Assistant(text, None) => Ok(PlainMessage(AssistantRole, text))
    case Assistant(text, Some(calls)) =>
      if |calls| != 1 then Err(NotOneToolCall)
      else Ok(PlainMessage(AssistantRole, LStrip(text + "\n\n" + CallText(calls[0].name, calls[0].args))))
    case Tool(name, _, text) => Ok(PlainMessage(UserRole, ResultText(name, text)))
  }

  /** The converted messages, when no user message came before them iff first. */
  function ToNonFnCall(p: Prompts, ms: seq<Message>, first: bool): Result<seq<PlainMessage>, ConversionError> {
    if ms == [] then Ok([])
    else
      var head := ToPlain(p, ms[0], first);
      if head.Err? then Err(head.error)
      else Prepend([head.value], ToNonFnCall(p, ms[1..], first && !ms[0].User?))
  }

  function Prepend<T, E>(front: seq<T>, r: Result<seq<T>, E>): Result<seq<T>, E> {
    match r
    case Ok(back) => Ok(front + back)
    case Err(e) => Err(e)
  }

  lemma PrependTwice<T, E>(a: seq<T>, b: seq<T>, r: Result<seq<T>, E>)
    ensures Prepend(a, Prepend(b, r)) == Prepend(a + b, r)
  {
    if r.Ok? {
      assert a + (b + r.value) == a + b + r.value;
    }
  }

  lemma PrependNone<T, E>(r: Result<seq<T>, E>)
    ensures Prepend([], r) == r
  {
    if r.Ok? {
      assert [] + r.value == r.value;
    }
  }

  /** convert_fncall_messages_to_non_fncall_messages */
  method ConvertToNonFnCallMessages(p: Prompts, messages: seq<Message>)
    returns (r: Result<seq<PlainMessage>, ConversionError>)
    ensures r == ToNonFnCall(p, messages, true)
  {
    var converted: seq<PlainMessage> := [];
    var userEncountered := false;
    PrependNone(ToNonFnCall(p, messages, true));
    assert messages[0..] == messages;
    for i := 0 to |messages|
      invariant ToNonFnCall(p, messages, true)
             == Prepend(converted, ToNonFnCall(p, messages[i..], !userEncountered))
    {
      var m := messages[i];
      assert messages[i..][0] == m && messages[i..][1..] == messages[i + 1..];
      var text := m.text;
      var role := UserRole;
      match m {
        case System(_) =>
          text := text + SystemSuffix(p);
          role := SystemRole;
        case User(_) =>
          if !userEncountered && p.addExample && p.example != "" {
            text := p.example + text + EndSuffix(p);
          }
        case Assistant(_, calls) =>
          role := AssistantRole;
          if calls.Some? {
            if |calls.value| != 1 {
              return Err(NotOneToolCall);
            }
            var call := ConvertToolCallToString(calls.value[0].name, calls.value[0].args);
            text := LStrip(text + "\n\n" + call);
          }
        case Tool(name, _, _) =>
          text := ResultText(name, text);
      }
      PrependTwice(converted, [PlainMessage(role, text)],
                   ToNonFnCall(p, messages[i + 1..], !userEncountered && !m.User?));
      converted := converted + [PlainMessage(role, text)];
      userEncountered := userEncountered || m.User?;
    }
    assert converted + [] == converted;
    r := Ok(converted);
  }

  /*** Back to a conversation with tool calls. ***/

  function WithoutExample(p: Prompts, text: string, first: bool): string {
    if !first then text
    else
      var s := if StartsWith(text, p.example) then RemoveFirst(text, p.example) else text;
      if EndsWith(s, EndSuffix(p)) then RemoveFirst(s, EndSuffix(p)) else s
  }

  datatype ToolResult = ToolResult(name: string, text: string)

  /** TOOL_RESULT_REGEX_PATTERN at the start of s */
  function ResultHere(s: string): Option<ToolResult> {
    if !StartsWith(s, RESULT_OPEN) then None
    else
      var rest := s[|RESULT_OPEN|..];
      var nameEnd := Find(rest, RESULT_CLOSE);
      if nameEnd.None? then None
      else Some(ToolResult(rest[..nameEnd.value], rest[nameEnd.value + |RESULT_CLOSE|..]))
  }

  /** re.search(TOOL_RESULT_REGEX_PATTERN, s, re.DOTALL) */
  function ResultSearch(s: string): Option<ToolResult> {
    var here := ResultHere(s);
    if here.Some? || s == "" then here else ResultSearch(s[1..])
  }

  /** f'{n:02d}' behind the prefix of a tool call id */
  function CallId(n: nat): string {
    "toolu_" + (if n < 10 then "0" else "") + Digits(n)
  }

  /** The converted message, when calls tool calls have been numbered. */
  function FromPlain(p: Prompts, tools: seq<ToolSpec>, m: PlainMessage, first: bool, calls: nat)
    : Result<Message, ConversionError>
  {
    match m.role
    case SystemRole => Ok(System(Before(m.text, SystemSuffix(p))))
    case UserRole =>
      var text := WithoutExample(p, m.text, first);
      var found := ResultSearch(text);
      if found.Some? then Ok(Tool(Some(found.value.name), CallId(calls), Strip(found.value.text)))
      else Ok(User(text))
    case AssistantRole =>
      var text := FixStopword(m.text);
      var found := FnSearch(text);
      if found.None? then Ok(Assistant(m.text, None))
      else
        var call := ParseMatch(tools, found.value);
        if call.Err? then Err(call.error)
        else Ok(Assistant(Strip(Before(text, FN_OPEN)),
                          Some([ToolCall(CallId(calls + 1), call.value.name, call.value.args)])))
  }

  predicate IsCall(m: Message) {
    m.Assistant? && m.calls.Some?
  }

  function FromNonFnCall(p: Prompts, tools: seq<ToolSpec>, ms: seq<PlainMessage>, first: bool, calls: nat)
    : Result<seq<Message>, ConversionError>
  {
    if ms == [] then Ok([])
    else
      var head := FromPlain(p, tools, ms[0], first, calls);
      if head.Err? then Err(head.error)
      else
        Prepend([head.value],
                FromNonFnCall(p, tools, ms[1..], first && ms[0].role != UserRole,
                              if IsCall(head.value) then calls + 1 else calls))
  }

  method ConvertUserMessage(p: Prompts, tools: seq<ToolSpec>, content: string, first: bool, counter: nat)
    returns (message: Message)
    requires counter >= 1
    ensures FromPlain(p, tools, PlainMessage(UserRole, content), first, counter - 1) == Ok(message)
  {
    var text := content;
    if first {
      if StartsWith(text, p.example) {
        text := RemoveFirst(text, p.example);
      }
      if EndsWith(text, EndSuffix(p)) {
        text := RemoveFirst(text, EndSuffix(p));
      }
    }
    var found := ResultSearch(text);
    if found.Some? {
      message := Tool(Some(found.value.name), CallId(counter - 1), Strip(found.value.text));
    } else {
      message := User(text);
    }
  }

  method ConvertAssistantMessage(p: Prompts, tools: seq<ToolSpec>, content: string, first: bool, counter: nat)
    returns (r: Result<Message, ConversionError>)
    requires counter >= 1
    ensures r == FromPlain(p, tools, PlainMessage(AssistantRole, content), first, counter - 1)
  {
    var text := FixStopword(content);
    var found := FnSearch(text);
    if found.None? {
      return Ok(Assistant(content, None));
    }
    var tool := FindTool(tools, found.value.name);
    if tool.None? {
      return Err(UnknownFunction(found.value.name));
    }
    var body := NormalizeParameterTags(found.value.body);
    var params := ExtractAndValidateParams(tool.value, ParamMatches(body));
    if params.Err? {
      return Err(params.error);
    }
    var call := ToolCall(CallId(counter), found.value.name, params.value);
    r := Ok(Assistant(Strip(Before(text, FN_OPEN)), Some([call])));
  }

  method ConvertMessage(p: Prompts, tools: seq<ToolSpec>, m: PlainMessage, first: bool, counter: nat)
    returns (r: Result<Message, ConversionError>)
    requires counter >= 1
    ensures r == FromPlain(p, tools, m, first, counter - 1)
  {
    match m.role {
      case SystemRole =>
        r := Ok(System(Before(m.text, SystemSuffix(p))));
      case UserRole =>
        var message := ConvertUserMessage(p, tools, m.text, first, counter);
        r := Ok(message);
      case AssistantRole =>
        r := ConvertAssistantMessage(p, tools, m.text, first, counter);
    }
  }

  function NextCounter(m: Message, counter: nat): nat {
    if IsCall(m) then counter + 1 else counter
  }

  /** What the loop will return when it has converted i messages. */
  ghost function Rest(p: Prompts, tools: seq<ToolSpec>, ms: seq<PlainMessage>, i: nat,
                      converted: seq<Message>, first: bool, counter: nat): Result<seq<Message>, ConversionError>
    requires i <= |ms| && counter >= 1
  {
    Prepend(converted, FromNonFnCall(p, tools, ms[i..], first, counter - 1))
  }

  lemma FromNonFnCallNext(p: Prompts, tools: seq<ToolSpec>, ms: seq<PlainMessage>, i: nat, first: bool, calls: nat,
                          head: Result<Message, ConversionError>)
    requires i < |ms| && head == FromPlain(p, tools, ms[i], first, calls)
    ensures FromNonFnCall(p, tools, ms[i..], first, calls)
         == if head.Err? then Err(head.error)
            else Prepend([head.value], FromNonFnCall(p, tools, ms[i + 1..], first && ms[i].role != UserRole,
                                                     NextCounter(head.value, calls)))
  {
    assert ms[i..][0] == ms[i] && ms[i..][1..] == ms[i + 1..];
  }

  lemma RestNext(p: Prompts, tools: seq<ToolSpec>, ms: seq<PlainMessage>, i: nat, converted: seq<Message>,
                 first: bool, counter: nat, head: Message)
    requires i < |ms| && counter >= 1 && FromPlain(p, tools, ms[i], first, counter - 1) == Ok(head)
    ensures Rest(p, tools, ms, i, converted, first, counter)
         == Rest(p, tools, ms, i + 1, converted + [head], first && ms[i].role != UserRole, NextCounter(head, counter))
  {
    FromNonFnCallNext(p, tools, ms, i, first, counter - 1, Ok(head));
    PrependTwice(converted, [head], FromNonFnCall(p, tools, ms[i + 1..], first && ms[i].role != UserRole,
                                                  NextCounter(head, counter - 1)));
  }

  lemma RestFails(p: Prompts, tools: seq<ToolSpec>, ms: seq<PlainMessage>, i: nat, converted: seq<Message>,
                  first: bool, counter: nat, error: ConversionError)
    requires i < |ms| && counter >= 1 && FromPlain(p, tools, ms[i], first, counter - 1) == Err(error)
    ensures Rest(p, tools, ms, i, converted, first, counter) == Err(error)
  {
    FromNonFnCallNext(p, tools, ms, i, first, counter - 1, Err(error));
  }

  lemma RestNone(p: Prompts, tools: seq<ToolSpec>, ms: seq<PlainMessage>,
                 converted: seq<Message>, first: bool, counter: nat)
    requires counter >= 1
    ensures Rest(p, tools, ms, |ms|, converted, first, counter) == Ok(converted)
  {
    assert converted + [] == converted;
  }

  /** convert_non_fncall_messages_to_fncall_messages */
  method ConvertToFnCallMessages(p: Prompts, tools: seq<ToolSpec>, messages: seq<PlainMessage>)
    returns (r: Result<seq<Message>, ConversionError>)
    ensures r == FromNonFnCall(p, tools, messages, true, 0)
  {
    var converted: seq<Message> := [];
    var counter: nat := 1;
    var userEncountered := false;
    ghost var all := FromNonFnCall(p, tools, messages, true, 0);
    PrependNone(all);
    assert messages[0..] == messages;
    for i := 0 to |messages|
      invariant counter >= 1
      invariant all == Rest(p, tools, messages, i, converted, !userEncountered, counter)
    {
      var message := ConvertMessage(p, tools, messages[i], !userEncountered, counter);
      if message.Err? {
        RestFails(p, tools, messages, i, converted, !userEncountered, counter, message.error);
        return Err(message.error);
      }
      RestNext(p, tools, messages, i, converted, !userEncountered, counter, message.value);
      converted := converted + [message.value];
      counter := NextCounter(message.value, counter);
      userEncountered := userEncountered || messages[i].role == UserRole;
    }
    RestNone(p, tools, messages, converted, !userEncountered, counter);
    r := Ok(converted);
  }
}
