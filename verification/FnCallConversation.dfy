/** Converting a conversation with tool calls and converting it back. */
module FnCallConversation {
  import opened Wrappers
  import opened Text
  import opened Numerals
  import opened FnCallFormat
  import opened FnCallRoundTrip
  import opened FnCallStopword
  import opened FnCallMessages

  /*** The conversations the format is for. ***/

  predicate CallOk(tools: seq<ToolSpec>, call: ToolCall) {
    && PlainName(call.name) && Printable(call.args) && DistinctNames(call.args)
    && FindTool(tools, call.name).Some?
    && var tool := FindTool(tools, call.name).value;
    Declared(tool, call.args) && EnumsAllow(tool, call.args) && tool.required <= Names(call.args)
  }

  function ToolName(name: Option<string>): string {
    if name.Some? then name.value else "function"
  }

  /** Texts contain none of the markers, a first user message that gets no example does not start
      with it, and tools answer after the first user message, one call at a time. */
  predicate MessageOk(p: Prompts, tools: seq<ToolSpec>, m: Message, first: bool) {
    match m
    case System(text) => !Contains(text, p.systemHeader)
    case User(text) =>
      && !Contains(text, RESULT_OPEN)
      && (first ==> !Contains(text, p.endHeader))
      && (first && !p.addExample && p.example != "" ==> !StartsWith(text, p.example))
    case Assistant(text, None) => !Contains(text, FN_OPEN)
    case Assistant(text, Some(calls)) => !Contains(text, FN_OPEN) && |calls| == 1 && CallOk(tools, calls[0])
    case Tool(name, _, _) => !first && !Contains(ToolName(name), RESULT_CLOSE)
  }

  predicate WellFormed(p: Prompts, tools: seq<ToolSpec>, ms: seq<Message>, first: bool) {
    ms == [] || (MessageOk(p, tools, ms[0], first) && WellFormed(p, tools, ms[1..], first && !ms[0].User?))
  }

  /** What comes back: the same message, with white space around the texts of calls and results
      stripped, and the calls numbered. */
  function Renumbered(m: Message, calls: nat): Message {
    match m
    case Assistant(text, Some(cs)) =>
      Assistant(Strip(text), Some(seq(|cs|, i requires 0 <= i < |cs| =>
                                            ToolCall(CallId(calls + 1), cs[i].name, ReturnedArgs(cs[i].args)))))
    case Tool(name, _, text) => Tool(Some(ToolName(name)), CallId(calls), Strip(text))
    case _ => m
  }

  function AllRenumbered(ms: seq<Message>, calls: nat): seq<Message> {
    if ms == [] then []
    else [Renumbered(ms[0], calls)] + AllRenumbered(ms[1..], if IsCall(ms[0]) then calls + 1 else calls)
  }

  /*** System and user messages. ***/

  lemma StartsWithPrefix(s: string, a: string, b: string)
    requires StartsWith(s, a + b)
    ensures StartsWith(s, a)
  {
    assert s[..|a|] == s[..|a + b|][..|a|];
  }

  /** A suffix is found where it was appended, if the text does not contain its header. */
  lemma SuffixIsFound(text: string, header: string, rest: string)
    requires IsHeader(header) && !Contains(text, header)
    ensures Find(text + (header + rest), header + rest) == Some(|text|)
  {
    var suffix := header + rest;
    var s := text + suffix;
    forall j | 0 <= j < |text| ensures !StartsWith(s[j..], suffix) {
      if StartsWith(s[j..], suffix) {
        StartsWithPrefix(s[j..], header, rest);
        NoStraddle(text, suffix, header, j);
      }
    }
    assert s[|text|..] == suffix;
    FindIs(s, suffix, |text|);
  }

  /** The first character of a header is a line break, and its only one. */
  predicate IsHeader(header: string) {
    header != "" && header[0] == '\n' && '\n' !in header[1..]
  }

  predicate HeadersOk(p: Prompts) {
    IsHeader(p.systemHeader) && IsHeader(p.endHeader)
  }

  const SYSTEM_TITLE := "You have access to the following functions:"
  const DASHES := "---------------------"
  const END_TITLE := DASHES + " END OF NEW TASK DESCRIPTION " + DASHES

  /** The headers in use. */
  lemma HeadersInUse(p: Prompts)
    requires p.systemHeader == "\n" + SYSTEM_TITLE && p.endHeader == "\n" + END_TITLE
    ensures HeadersOk(p)
  {
    SystemTitleIsOneLine();
    OneLineIsHeader(SYSTEM_TITLE);
    EndTitleIsOneLine();
    OneLineIsHeader(END_TITLE);
  }

  lemma OneLineIsHeader(title: string)
    requires '\n' !in title
    ensures IsHeader("\n" + title)
  {
    DropPrefix("\n", title);
  }

  lemma SystemTitleIsOneLine()
    ensures '\n' !in SYSTEM_TITLE
  {
  }

  lemma EndTitleIsOneLine()
    ensures '\n' !in END_TITLE
  {
    var title := " END OF NEW TASK DESCRIPTION ";
    assert '\n' !in DASHES;
    assert '\n' !in title;
    NotInEither('\n', DASHES, title);
    NotInEither('\n', DASHES + title, DASHES);
  }

  lemma NotInEither(c: char, a: string, b: string)
    requires c !in a && c !in b
    ensures c !in a + b
  {
  }

  lemma SystemReturns(p: Prompts, text: string)
    requires HeadersOk(p) && !Contains(text, p.systemHeader)
    ensures Before(text + SystemSuffix(p), SystemSuffix(p)) == text
  {
    SuffixIsFound(text, p.systemHeader, p.instructions);
  }

  lemma SuffixIsRemoved(text: string, header: string, rest: string)
    requires IsHeader(header) && !Contains(text, header)
    ensures EndsWith(text + (header + rest), header + rest)
    ensures RemoveFirst(text + (header + rest), header + rest) == text
    ensures !EndsWith(text, header + rest)
  {
    SuffixIsFound(text, header, rest);
    var suffix := header + rest;
    if EndsWith(text, suffix) {
      var i := |text| - |suffix|;
      assert text[i..][..|header|] == header;
      NotContained(text, header, i);
    }
  }

  lemma PrefixIsRemoved(example: string, rest: string)
    ensures StartsWith(example + rest, example) && RemoveFirst(example + rest, example) == rest
  {
  }

  lemma ExampleIsRemoved(p: Prompts, text: string, first: bool)
    requires HeadersOk(p) && MessageOk(p, [], User(text), first)
    ensures WithoutExample(p, WithExample(p, text, first), first) == text
  {
    if first {
      SuffixIsRemoved(text, p.endHeader, p.closing);
      if p.addExample && p.example != "" {
        PrefixIsRemoved(p.example, text + EndSuffix(p));
        JoinThree(p.example, text, EndSuffix(p));
      } else {
        PrefixIsRemoved(p.example, text);
        JoinNone(text);
      }
    }
  }

  lemma {:induction false} NoResult(s: string)
    requires !Contains(s, RESULT_OPEN)
    ensures ResultSearch(s) == None
  {
    if s != "" {
      TailContainsNot(s, RESULT_OPEN, 1);
      NoResult(s[1..]);
    }
  }

  lemma ResultIsHere(n: string, text: string)
    requires !Contains(n, RESULT_CLOSE)
    ensures ResultHere(RESULT_OPEN + (n + (RESULT_CLOSE + text))) == Some(ToolResult(n, text))
  {
    var rest := n + (RESULT_CLOSE + text);
    PrefixStarts(RESULT_OPEN, rest);
    DropPrefix(RESULT_OPEN, rest);
    PrefixStarts(RESULT_CLOSE, text);
    FindAfter(n, RESULT_CLOSE + text, RESULT_CLOSE);
    TakePrefix(n, RESULT_CLOSE + text);
    DropPrefix(n, RESULT_CLOSE + text);
    DropPrefix(RESULT_CLOSE, text);
    DropTwice(rest, |n|, |RESULT_CLOSE|);
  }

  lemma ResultIsFound(name: Option<string>, text: string)
    requires !Contains(ToolName(name), RESULT_CLOSE)
    ensures ResultSearch(ResultText(name, text)) == Some(ToolResult(ToolName(name), text))
  {
    var n := ToolName(name);
    ResultIsHere(n, text);
    JoinThree(RESULT_OPEN, n + RESULT_CLOSE, text);
    JoinThree(RESULT_OPEN, n, RESULT_CLOSE);
    JoinThree(n, RESULT_CLOSE, text);
  }

  /*** Messages of the assistant. ***/

  lemma {:induction false} NoCall(s: string)
    requires !Contains(s, FN_OPEN)
    ensures FnSearch(s) == None
  {
    if s != "" {
      TailContainsNot(s, FN_OPEN, 1);
      NoCall(s[1..]);
    }
  }

  /** What stands before the call. */
  function Lead(text: string): string {
    if Blank(text) then "" else LStrip(text) + "\n\n"
  }

  lemma LeadIs(text: string, call: string)
    requires call != "" && !IsSpace(call[0])
    ensures LStrip(text + "\n\n" + call) == Lead(text) + call
  {
    assert text + "\n\n" + call == text + ("\n\n" + call);
    if Blank(text) {
      LStripBlank(text, "\n\n" + call);
      LStripBlank("\n\n", call);
    } else {
      LStripPrefix(text, "\n\n" + call);
    }
  }

  lemma LeadOpensNothing(text: string)
    requires !Contains(text, FN_OPEN)
    ensures !Contains(Lead(text), FN_OPEN)
  {
    NoBracket("", FN_OPEN);
    NoBracket("\n\n", FN_OPEN);
    if !Blank(text) {
      LStripIsTail(text);
      TailContainsNot(text, FN_OPEN, |text| - |LStrip(text)|);
      BeforeText(LStrip(text), "\n\n", FN_OPEN);
    }
  }

  lemma LeadStripped(text: string)
    ensures Strip(Lead(text)) == Strip(text)
  {
    LStripTwice(text);
    if Blank(text) {
      LStripOfBlank(text);
    } else {
      LStripNotBlank(text);
      LStripPrefix(LStrip(text), "\n\n");
      RStripBlank(LStrip(text), "\n\n");
    }
  }

  lemma {:induction false} LStripNotBlank(s: string)
    requires !Blank(s)
    ensures !Blank(LStrip(s))
  {
    if IsSpace(s[0]) {
      assert s == [s[0]] + s[1..];
      LStripNotBlank(s[1..]);
    }
  }

  lemma PlainMessageReturns(p: Prompts, tools: seq<ToolSpec>, text: string, first: bool, calls: nat)
    requires !Contains(text, FN_OPEN)
    ensures FromPlain(p, tools, PlainMessage(AssistantRole, text), first, calls) == Ok(Assistant(text, None))
  {
    NoCall(text);
  }

  /** The message that a call becomes. */
  lemma CallBecomes(text: string, name: string, args: Args)
    ensures LStrip(text + "\n\n" + CallText(name, args)) == Cut(Lead(text), name, args, |FN_CLOSE|)
  {
    var call := CallText(name, args);
    assert call[0] == '<';
    LeadIs(text, call);
    assert FN_CLOSE[..|FN_CLOSE|] == FN_CLOSE;
    assert Lead(text) + call == Lead(text) + CallHead(name, args) + FN_CLOSE;
  }

  /** In the repaired message, the call is preceded by what preceded it. */
  lemma LeadIsKept(pre: string, name: string, args: Args)
    requires !Contains(pre, FN_OPEN) && PlainName(name) && Printable(args)
    ensures Before(FixStopword(Cut(pre, name, args, |FN_CLOSE|)), FN_OPEN) == pre
  {
    var k := |FN_CLOSE|;
    var rest := name + (">\n" + ((ParamsText(args) + CutTail(k)) + (FN_CLOSE + CutPost(k))));
    RepairIsWhole(pre, name, args, k);
    MarkerShape(FN_OPEN);
    MarkerIsFound(pre, FN_OPEN, rest);
  }

  lemma ContentReturns(p: Prompts, tools: seq<ToolSpec>, content: string, lead: string, call: Call,
                       first: bool, calls: nat)
    requires ParseContent(tools, content) == Some(Ok(call)) && Before(FixStopword(content), FN_OPEN) == lead
    ensures FromPlain(p, tools, PlainMessage(AssistantRole, content), first, calls)
         == Ok(Assistant(Strip(lead), Some([ToolCall(CallId(calls + 1), call.name, call.args)])))
  {
  }

  lemma CallReturns(p: Prompts, tools: seq<ToolSpec>, text: string, call: ToolCall, first: bool, calls: nat)
    requires !Contains(text, FN_OPEN) && CallOk(tools, call)
    ensures FromPlain(p, tools,
                      PlainMessage(AssistantRole, LStrip(text + "\n\n" + CallText(call.name, call.args))), first, calls)
         == Ok(Assistant(Strip(text), Some([ToolCall(CallId(calls + 1), call.name, ReturnedArgs(call.args))])))
  {
    var lead := Lead(text);
    var content := Cut(lead, call.name, call.args, |FN_CLOSE|);
    CallBecomes(text, call.name, call.args);
    LeadOpensNothing(text);
    LeadIsKept(lead, call.name, call.args);
    LeadStripped(text);
    StopwordRepairIsTransparent(tools, lead, call.name, call.args, |FN_CLOSE|);
    ContentReturns(p, tools, content, lead, Call(call.name, ReturnedArgs(call.args)), first, calls);
  }

  /*** Conversations. ***/

  predicate Becomes(p: Prompts, tools: seq<ToolSpec>, m: Message, first: bool, calls: nat, plain: PlainMessage) {
    && (plain.role == UserRole <==> m.User? || m.Tool?)
    && FromPlain(p, tools, plain, first, calls) == Ok(Renumbered(m, calls))
  }

  lemma MessageReturns(p: Prompts, tools: seq<ToolSpec>, m: Message, first: bool, calls: nat)
    requires HeadersOk(p) && MessageOk(p, tools, m, first)
    ensures ToPlain(p, m, first).Ok? && Becomes(p, tools, m, first, calls, ToPlain(p, m, first).value)
  {
    match m
    case System(text) => SystemReturns(p, text);
    case User(text) => ExampleIsRemoved(p, text, first); NoResult(text);
    case Assistant(text, None) => PlainMessageReturns(p, tools, text, first, calls);
    case Assistant(text, Some(cs)) =>
      CallReturns(p, tools, text, cs[0], first, calls);
      assert Renumbered(m, calls).calls.value
          == [ToolCall(CallId(calls + 1), cs[0].name, ReturnedArgs(cs[0].args))];
    case Tool(name, _, text) => ResultIsFound(name, text);
  }

  /** Converting a well-formed conversation and converting it back keeps its roles, texts, function
      names and arguments. */
  lemma {:induction false} ConversationReturns(p: Prompts, tools: seq<ToolSpec>, ms: seq<Message>,
                                               first: bool, calls: nat)
    requires HeadersOk(p) && WellFormed(p, tools, ms, first)
    ensures ToNonFnCall(p, ms, first).Ok?
    ensures FromNonFnCall(p, tools, ToNonFnCall(p, ms, first).value, first, calls) == Ok(AllRenumbered(ms, calls))
  {
    if ms != [] {
      var m := ms[0];
      var seen := first && !m.User?;
      var later := if IsCall(m) then calls + 1 else calls;
      MessageReturns(p, tools, m, first, calls);
      var plain := ToPlain(p, m, first).value;
      ConversationReturns(p, tools, ms[1..], seen, later);
      var rest := ToNonFnCall(p, ms[1..], seen).value;
      assert ([plain] + rest)[1..] == rest;
      assert (first && plain.role != UserRole) == seen;
    }
  }
}
