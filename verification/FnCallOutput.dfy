/** What the converters make of each message, written out. */
module FnCallOutput {
  import opened Wrappers
  import opened Text
  import opened Numerals
  import opened FnCallFormat
  import opened FnCallMessages

  /*** A call. ***/

  function ShownValue(v: Value): string {
    match v
    case Str(text) => if '\n' in text then "\n" + text + "\n" else text
    case Int(n) => IntText(n)
    case IntList(ns) => IntListText(ns)
  }

  function ShownParams(args: Args): string {
    if args == [] then ""
    else "<parameter=" + args[0].0 + ">" + ShownValue(args[0].1) + "</parameter>\n" + ShownParams(args[1..])
  }

  function ShownCall(name: string, args: Args): string {
    "<function=" + name + ">\n" + ShownParams(args) + "</function>"
  }

  lemma {:induction false} ParamsAreShown(args: Args)
    ensures ParamsText(args) == ShownParams(args)
  {
    if args != [] {
      ParamsAreShown(args[1..]);
      LineIsShown(args[0].0, args[0].1);
    }
  }

  lemma LineIsShown(name: string, v: Value)
    ensures ParamLine(name, v) == "<parameter=" + name + ">" + ShownValue(v) + "</parameter>\n"
  {
    EndOfLine("<parameter=" + name + ">" + ShownValue(v));
  }

  lemma EndOfLine(s: string)
    ensures s + "</parameter>" + "\n" == s + "</parameter>\n"
  {
  }

  /** A call is printed with its name, each parameter between its tags in the order of the call, and
      line breaks inside the tags exactly around strings of several lines. */
  lemma CallIsShown(name: string, args: Args)
    ensures CallText(name, args) == ShownCall(name, args)
  {
    ParamsAreShown(args);
  }

  /*** To a conversation without tool calls. ***/

  /** What a message becomes; the example goes around the first message of the user. */
  predicate Becomes(p: Prompts, m: Message, isFirstUser: bool, o: PlainMessage) {
    match m
    case System(text) => o.role == SystemRole && o.text == text + p.systemHeader + p.instructions
    case User(text) =>
      && o.role == UserRole
      && o.text == if isFirstUser && p.addExample && p.example != "" then p.example + text + p.endHeader + p.closing
                   else text
    case Assistant(text, None) => o.role == AssistantRole && o.text == text
    case Assistant(text, Some(calls)) =>
      && o.role == AssistantRole && |calls| == 1
      && o.text == LStrip(text + "\n\n" + ShownCall(calls[0].name, calls[0].args))
    case Tool(name, _, text) =>
      && o.role == UserRole
      && o.text == match name
                   case Some(n) => "EXECUTION RESULT of [" + n + "]:\n" + text
                   case None => "EXECUTION RESULT of [function]:\n" + text
  }

  lemma JoinEnd(a: string, b: string, c: string)
    ensures a + (b + c) == a + b + c
  {
  }

  lemma ResultPrefix(text: string)
    ensures "EXECUTION RESULT of [" + "function" + "]:\n" + text == "EXECUTION RESULT of [function]:\n" + text
  {
  }

  lemma MessageBecomes(p: Prompts, m: Message, first: bool)
    requires ToPlain(p, m, first).Ok?
    ensures Becomes(p, m, first, ToPlain(p, m, first).value)
  {
    match m
    case System(text) => JoinEnd(text, p.systemHeader, p.instructions);
    case User(text) => JoinEnd(p.example + text, p.endHeader, p.closing);
    case Assistant(text, None) =>
    case Assistant(text, Some(calls)) => CallIsShown(calls[0].name, calls[0].args);
    case Tool(_, _, text) => ResultPrefix(text);
  }

  predicate NoUserBefore(ms: seq<Message>, i: nat) {
    forall j :: 0 <= j < i && j < |ms| ==> !ms[j].User?
  }

  lemma {:induction false} OutputFrom(p: Prompts, ms: seq<Message>, first: bool, i: nat)
    requires ToNonFnCall(p, ms, first).Ok? && i < |ms|
    ensures var out := ToNonFnCall(p, ms, first).value;
            |out| == |ms| && Becomes(p, ms[i], first && NoUserBefore(ms, i), out[i])
    decreases |ms|
  {
    var out := ToNonFnCall(p, ms, first).value;
    var rest := ToNonFnCall(p, ms[1..], first && !ms[0].User?).value;
    assert out == [out[0]] + rest;
    LengthStays(p, ms[1..], first && !ms[0].User?);
    if i == 0 {
      MessageBecomes(p, ms[0], first);
    } else {
      OutputFrom(p, ms[1..], first && !ms[0].User?, i - 1);
      NoUserNext(ms, i);
      assert out[i] == rest[i - 1] && ms[i] == ms[1..][i - 1];
    }
  }

  lemma NoUserNext(ms: seq<Message>, i: nat)
    requires 0 < i < |ms|
    ensures NoUserBefore(ms, i) <==> !ms[0].User? && NoUserBefore(ms[1..], i - 1)
  {
    assert forall j :: 0 <= j < |ms| - 1 ==> ms[1..][j] == ms[j + 1];
    if !ms[0].User? && NoUserBefore(ms[1..], i - 1) {
      forall j | 0 <= j < i ensures !ms[j].User? {
        assert j > 0 ==> ms[j] == ms[1..][j - 1];
      }
    }
  }

  lemma {:induction false} LengthStays(p: Prompts, ms: seq<Message>, first: bool)
    requires ToNonFnCall(p, ms, first).Ok?
    ensures |ToNonFnCall(p, ms, first).value| == |ms|
    decreases |ms|
  {
    if ms != [] {
      LengthStays(p, ms[1..], first && !ms[0].User?);
    }
  }

  /** Each message of a converted conversation is what its own message becomes. */
  lemma OutputIs(p: Prompts, ms: seq<Message>, i: nat)
    requires ToNonFnCall(p, ms, true).Ok? && i < |ms|
    ensures var out := ToNonFnCall(p, ms, true).value;
            |out| == |ms| && Becomes(p, ms[i], NoUserBefore(ms, i), out[i])
  {
    OutputFrom(p, ms, true, i);
  }

  predicate HasOneCall(m: Message) {
    m.Assistant? && m.calls.Some? ==> |m.calls.value| == 1
  }

  lemma {:induction false} ConvertsFrom(p: Prompts, ms: seq<Message>, first: bool)
    ensures ToNonFnCall(p, ms, first).Ok? <==> forall i :: 0 <= i < |ms| ==> HasOneCall(ms[i])
    ensures ToNonFnCall(p, ms, first).Err? ==> ToNonFnCall(p, ms, first).error == NotOneToolCall
    decreases |ms|
  {
    if ms != [] {
      ConvertsFrom(p, ms[1..], first && !ms[0].User?);
      assert forall i :: 0 <= i < |ms| - 1 ==> ms[1..][i] == ms[i + 1];
      if HasOneCall(ms[0]) && forall i :: 0 <= i < |ms[1..]| ==> HasOneCall(ms[1..][i]) {
        forall i | 0 <= i < |ms| ensures HasOneCall(ms[i]) {
          assert i > 0 ==> ms[i] == ms[1..][i - 1];
        }
      }
    }
  }

  /** The conversion fails exactly if some message has calls, but not exactly one. */
  lemma ConvertsIff(p: Prompts, ms: seq<Message>)
    ensures ToNonFnCall(p, ms, true).Ok? <==> forall i :: 0 <= i < |ms| ==> HasOneCall(ms[i])
    ensures ToNonFnCall(p, ms, true).Err? ==> ToNonFnCall(p, ms, true).error == NotOneToolCall
  {
    ConvertsFrom(p, ms, true);
  }
}
