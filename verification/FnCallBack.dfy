/** What each message of a conversation without tool calls is converted back to, whoever wrote it. */
module FnCallBack {
  import opened Wrappers
  import opened Text
  import opened Numerals
  import opened FnCallFormat
  import opened FnCallMessages
  import opened FnCallIds
  import opened FnCallValidation

  /*** Where results and calls are found. ***/

  /** An opening of a result that is closed somewhere behind it. */
  predicate HasResultAt(s: string, i: nat) {
    i <= |s| && StartsWith(s[i..], "EXECUTION RESULT of [")
    && Contains(s[i..][|"EXECUTION RESULT of ["|..], "]:\n")
  }

  predicate FirstResultAt(s: string, i: nat) {
    HasResultAt(s, i) && forall k :: 0 <= k < i ==> !HasResultAt(s, k)
  }

  /** What stands between the first opening that is closed and its close, and what follows. */
  function ResultAt(s: string, i: nat): ToolResult
    requires HasResultAt(s, i)
  {
    var rest := s[i..][|"EXECUTION RESULT of ["|..];
    var name := Before(rest, "]:\n");
    ToolResult(name, rest[|name| + 3..])
  }

  lemma ResultHereIs(s: string)
    ensures ResultHere(s).Some? <==> HasResultAt(s, 0)
    ensures HasResultAt(s, 0) ==> ResultHere(s) == Some(ResultAt(s, 0))
  {
    assert s[0..] == s;
  }

  lemma ResultLater(s: string, k: nat)
    requires s != ""
    ensures HasResultAt(s, k + 1) <==> HasResultAt(s[1..], k)
    ensures HasResultAt(s, k + 1) ==> ResultAt(s, k + 1) == ResultAt(s[1..], k)
  {
    if k + 1 <= |s| {
      assert s[k + 1..] == s[1..][k..];
    }
  }

  lemma {:induction false} ResultSearchIs(s: string, i: nat)
    requires FirstResultAt(s, i)
    ensures ResultSearch(s) == Some(ResultAt(s, i))
    decreases i
  {
    ResultHereIs(s);
    if i > 0 {
      ResultLater(s, i - 1);
      forall k | 0 <= k < i - 1 ensures !HasResultAt(s[1..], k) {
        ResultLater(s, k);
        assert !HasResultAt(s, k + 1);
      }
      ResultSearchIs(s[1..], i - 1);
    }
  }

  lemma {:induction false} ResultSearchFails(s: string)
    requires forall i :: 0 <= i <= |s| ==> !HasResultAt(s, i)
    ensures ResultSearch(s).None?
  {
    ResultHereIs(s);
    if s != "" {
      forall i | 0 <= i <= |s[1..]| ensures !HasResultAt(s[1..], i) {
        ResultLater(s, i);
        assert !HasResultAt(s, i + 1);
      }
      ResultSearchFails(s[1..]);
    }
  }

  predicate HasCallAt(s: string, i: nat) {
    i <= |s| && FnMatchHere(s[i..]).Some?
  }

  predicate FirstCallAt(s: string, i: nat) {
    HasCallAt(s, i) && forall k :: 0 <= k < i ==> !HasCallAt(s, k)
  }

  lemma CallLater(s: string, k: nat)
    requires s != ""
    ensures HasCallAt(s, k + 1) <==> HasCallAt(s[1..], k)
  {
    if k + 1 <= |s| {
      assert s[k + 1..] == s[1..][k..];
    }
  }

  lemma {:induction false} FnSearchIs(s: string, i: nat)
    requires FirstCallAt(s, i)
    ensures FnSearch(s) == FnMatchHere(s[i..])
    decreases i
  {
    assert s[0..] == s;
    if i > 0 {
      assert s[i..] == s[1..][i - 1..];
      assert !HasCallAt(s, 0);
      CallLater(s, i - 1);
      forall k | 0 <= k < i - 1 ensures !HasCallAt(s[1..], k) {
        CallLater(s, k);
        assert !HasCallAt(s, k + 1);
      }
      FnSearchIs(s[1..], i - 1);
    }
  }

  lemma {:induction false} FnSearchFails(s: string)
    requires forall i :: 0 <= i <= |s| ==> !HasCallAt(s, i)
    ensures FnSearch(s).None?
  {
    assert s[0..] == s && !HasCallAt(s, 0);
    if s != "" {
      forall i | 0 <= i <= |s[1..]| ensures !HasCallAt(s[1..], i) {
        CallLater(s, i);
        assert !HasCallAt(s, i + 1);
      }
      FnSearchFails(s[1..]);
    }
  }

  /** Where a call begins: the opening, a name of at least one character up to the first bracket, a
      line break right behind it, and a closing tag somewhere after that. */
  lemma MatchHereIff(s: string)
    ensures FnMatchHere(s).Some?
       <==> && StartsWith(s, "<function=")
            && (var rest := s[|"<function="|..];
                var name := Before(rest, ">");
                && name != "" && StartsWith(rest[|name|..], ">\n")
                && Contains(rest[|name| + 2..], "</function>"))
    ensures FnMatchHere(s).Some? ==>
              var rest := s[|"<function="|..];
              var name := Before(rest, ">");
              FnMatchHere(s).value == FnMatch(name, Before(rest[|name| + 2..], "</function>"))
  {
  }

  /*** The repair of the closing tag. ***/

  predicate OpensAt(s: string, i: nat) {
    i <= |s| && StartsWith(s[i..], "<function=")
  }

  lemma OpeningChars(s: string, i: nat, j: nat)
    requires OpensAt(s, i) && 0 < j < 10
    ensures i + 10 <= |s| && s[i] == '<' && s[i + j] != '<'
  {
    assert s[i..][0] == "<function="[0] && s[i..][j] == "<function="[j];
  }

  lemma OpeningsAreApart(s: string, i: nat, k: nat)
    requires OpensAt(s, i) && OpensAt(s, k) && i < k
    ensures i + 10 <= k
  {
    OpeningChars(s, k, 1);
    if k < i + 10 {
      OpeningChars(s, i, k - i);
    }
  }

  lemma OpensBehind(s: string, i: nat)
    requires OpensAt(s, i)
    ensures Contains(s[i + 10..], "<function=") <==> exists k: nat :: i < k && OpensAt(s, k)
  {
    var rest := s[i + 10..];
    if Contains(rest, "<function=") {
      var k := i + 10 + Find(rest, "<function=").value;
      assert s[k..] == rest[k - i - 10..];
      assert OpensAt(s, k);
    }
    if k: nat :| i < k && OpensAt(s, k) {
      OpeningsAreApart(s, i, k);
      assert rest[k - i - 10..] == s[k..];
      FindIsFirst(rest, "<function=", k - i - 10);
    }
  }

  /** A text that opens exactly one call is closed: a half-written closing tag is completed, and a
      whole one is added behind a line break otherwise. */
  lemma FixStopwordIs(s: string, i: nat)
    requires OpensAt(s, i) && forall k: nat :: OpensAt(s, k) ==> k == i
    ensures FixStopword(s) == if EndsWith(s, "</") then RStrip(s) + "function>" else s + "\n</function>"
  {
    forall j | 0 <= j < i ensures !StartsWith(s[j..], "<function=") {
      assert !OpensAt(s, j);
    }
    FindIs(s, "<function=", i);
    OpensBehind(s, i);
  }

  /** Any other text is left alone. */
  lemma FixStopwordLeaves(s: string)
    requires (forall k: nat :: !OpensAt(s, k)) || (exists i: nat, k: nat :: i < k && OpensAt(s, i) && OpensAt(s, k))
    ensures FixStopword(s) == s
  {
    if forall k: nat :: !OpensAt(s, k) {
      forall j | 0 <= j <= |s| ensures !StartsWith(s[j..], "<function=") {
        assert !OpensAt(s, j);
      }
      FindIsNone(s, "<function=");
    } else {
      var i: nat, k: nat :| i < k && OpensAt(s, i) && OpensAt(s, k);
      FindIsFirst(s, "<function=", i);
      var first := Find(s, "<function=").value;
      assert OpensAt(s, first) && first < k;
      OpensBehind(s, first);
    }
  }

  /*** One message. ***/

  /** The example is taken off the front of the first message of the user, and the closing text is
      removed once if it then ends with it. */
  function Unwrapped(p: Prompts, text: string, isFirstUser: bool): string {
    if !isFirstUser then text
    else
      var s := if StartsWith(text, p.example) then text[|p.example|..] else text;
      if EndsWith(s, p.endHeader + p.closing) then RemoveFirst(s, p.endHeader + p.closing) else s
  }

  lemma FrontIsRemoved(text: string, m: string)
    requires StartsWith(text, m)
    ensures RemoveFirst(text, m) == text[|m|..]
  {
    FindIsZero(text, m);
    assert text[..0] + text[|m|..] == text[|m|..];
  }

  lemma FindIsZero(text: string, m: string)
    requires StartsWith(text, m)
    ensures Find(text, m) == Some(0)
  {
  }

  lemma UnwrappedIs(p: Prompts, text: string, isFirstUser: bool)
    ensures WithoutExample(p, text, isFirstUser) == Unwrapped(p, text, isFirstUser)
  {
    if isFirstUser && StartsWith(text, p.example) {
      FrontIsRemoved(text, p.example);
    }
  }

  /** What a message of the user comes back as: the first result in it, or itself. */
  ghost predicate UserComesBack(text: string, o: Message) {
    && (forall i: nat :: FirstResultAt(text, i) ==>
          o.Tool? && o.name == Some(ResultAt(text, i).name) && o.text == Strip(ResultAt(text, i).text))
    && ((forall i :: 0 <= i <= |text| ==> !HasResultAt(text, i)) ==> o == User(text))
  }

  /** The first tool of that name. */
  predicate IsTool(tools: seq<ToolSpec>, name: string, k: nat) {
    k < |tools| && tools[k].name == name && forall j :: 0 <= j < k ==> tools[j].name != name
  }

  lemma {:induction false} FindToolIs(tools: seq<ToolSpec>, name: string)
    ensures match FindTool(tools, name)
            case None => forall k :: 0 <= k < |tools| ==> tools[k].name != name
            case Some(tool) => exists k: nat :: IsTool(tools, name, k) && tools[k] == tool
  {
    if tools != [] {
      FindToolIs(tools[1..], name);
      assert forall k :: 0 <= k < |tools| - 1 ==> tools[1..][k] == tools[k + 1];
      if tools[0].name == name {
        assert IsTool(tools, name, 0);
      } else if FindTool(tools[1..], name).Some? {
        var k: nat :| IsTool(tools[1..], name, k) && tools[1..][k] == FindTool(tools[1..], name).value;
        ToolLater(tools, name, k);
        var next: nat := k + 1;
        assert IsTool(tools, name, next) && tools[next] == FindTool(tools, name).value;
      } else {
        forall k | 0 <= k < |tools| ensures tools[k].name != name {
          assert k > 0 ==> tools[k] == tools[1..][k - 1];
        }
      }
    }
  }

  lemma ToolLater(tools: seq<ToolSpec>, name: string, k: nat)
    requires tools != [] && tools[0].name != name && IsTool(tools[1..], name, k)
    ensures IsTool(tools, name, k + 1)
  {
    forall j | 0 <= j < k + 1 ensures tools[j].name != name {
      assert j > 0 ==> tools[j] == tools[1..][j - 1];
    }
  }

  function ParamsOf(m: FnMatch): seq<(string, string)> {
    ParamMatches(NormalizeParameterTags(m.body))
  }

  /** Every text that is given is valid, and every parameter that is required is given. */
  predicate IsGoodFor(tool: ToolSpec, given: seq<(string, string)>) {
    EachIsValid(tool, given) && forall name :: name in tool.required ==> LastText(given, name).Some?
  }

  ghost predicate IsAccepted(tools: seq<ToolSpec>, m: FnMatch) {
    exists k: nat :: IsTool(tools, m.name, k) && IsGoodFor(tools[k], ParamsOf(m))
  }

  /** The value of each parameter that was given, and no other. */
  ghost predicate HasValues(tool: ToolSpec, given: seq<(string, string)>, args: Args) {
    forall name :: IsRead(tool, given, [], args, name)
  }

  ghost predicate IsCallOf(tools: seq<ToolSpec>, m: FnMatch, call: ToolCall) {
    call.name == m.name && exists k: nat :: IsTool(tools, m.name, k) && HasValues(tools[k], ParamsOf(m), call.args)
  }

  lemma OnlyOneTool(tools: seq<ToolSpec>, name: string, j: nat, k: nat)
    requires IsTool(tools, name, j) && IsTool(tools, name, k)
    ensures j == k
  {
  }

  lemma GoodIsExtracted(tool: ToolSpec, given: seq<(string, string)>)
    ensures ExtractParams(tool, given).Ok? <==> IsGoodFor(tool, given)
    ensures ExtractParams(tool, given).Ok? ==> HasValues(tool, given, ExtractParams(tool, given).value)
  {
    AcceptedIff(tool, given, "");
    var r := ExtractParams(tool, given);
    if r.Ok? {
      forall name ensures IsRead(tool, given, [], r.value, name) {
        AcceptedIff(tool, given, name);
      }
    }
  }

  lemma ParseMatchIs(tools: seq<ToolSpec>, m: FnMatch)
    ensures ParseMatch(tools, m).Ok? <==> IsAccepted(tools, m)
    ensures ParseMatch(tools, m).Ok? ==>
              var call := ParseMatch(tools, m).value;
              forall id :: IsCallOf(tools, m, ToolCall(id, call.name, call.args))
  {
    FindToolIs(tools, m.name);
    if FindTool(tools, m.name).Some? {
      var k: nat :| IsTool(tools, m.name, k) && tools[k] == FindTool(tools, m.name).value;
      GoodIsExtracted(tools[k], ParamsOf(m));
      AcceptedBy(tools, m, k);
    }
  }

  lemma AcceptedBy(tools: seq<ToolSpec>, m: FnMatch, k: nat)
    requires IsTool(tools, m.name, k)
    ensures IsAccepted(tools, m) <==> IsGoodFor(tools[k], ParamsOf(m))
  {
    if IsAccepted(tools, m) {
      var j: nat :| IsTool(tools, m.name, j) && IsGoodFor(tools[j], ParamsOf(m));
      OnlyOneTool(tools, m.name, j, k);
    }
  }

  /** What a message of the assistant comes back as: the first call in it, once the closing tag is
      repaired, with the text before the opening; or itself. */
  ghost predicate AssistantComesBack(tools: seq<ToolSpec>, text: string, o: Message) {
    var s := FixStopword(text);
    && (forall i: nat :: FirstCallAt(s, i) ==>
          && o.Assistant? && o.text == Strip(Before(s, "<function=")) && o.calls.Some? && |o.calls.value| == 1
          && IsCallOf(tools, FnMatchHere(s[i..]).value, o.calls.value[0]))
    && ((forall i :: 0 <= i <= |s| ==> !HasCallAt(s, i)) ==> o == Assistant(text, None))
  }

  ghost predicate ComesBack(p: Prompts, tools: seq<ToolSpec>, m: PlainMessage, isFirstUser: bool, o: Message) {
    match m.role
    case SystemRole => o == System(Before(m.text, p.systemHeader + p.instructions))
    case UserRole => UserComesBack(Unwrapped(p, m.text, isFirstUser), o)
    case AssistantRole => AssistantComesBack(tools, m.text, o)
  }

  /** The call that stands in the way of a conversion: one of an unknown tool, or with parameters that
      are not valid or missing. */
  ghost predicate HasBadCall(tools: seq<ToolSpec>, m: PlainMessage) {
    m.role == AssistantRole
    && exists i: nat :: FirstCallAt(FixStopword(m.text), i)
                   && !IsAccepted(tools, FnMatchHere(FixStopword(m.text)[i..]).value)
  }

  predicate NoneBefore(s: string, n: nat) {
    forall k :: 0 <= k < n ==> !HasCallAt(s, k)
  }

  lemma {:induction false} SomeFirstCall(s: string, n: nat, last: nat) returns (i: nat)
    requires n <= last && HasCallAt(s, last) && NoneBefore(s, n)
    ensures HasCallAt(s, i) && NoneBefore(s, i)
    decreases last - n
  {
    if HasCallAt(s, n) {
      i := n;
    } else {
      NoneBeforeNext(s, n);
      i := SomeFirstCall(s, n + 1, last);
    }
  }

  lemma NoneBeforeNext(s: string, n: nat)
    requires NoneBefore(s, n) && !HasCallAt(s, n)
    ensures NoneBefore(s, n + 1)
  {
  }

  lemma AssistantBack(p: Prompts, tools: seq<ToolSpec>, m: PlainMessage, first: bool, calls: nat)
    requires m.role == AssistantRole
    ensures var r := FromPlain(p, tools, m, first, calls);
            && (r.Err? <==> HasBadCall(tools, m)) && (r.Ok? ==> AssistantComesBack(tools, m.text, r.value))
  {
    var s := FixStopword(m.text);
    if last: nat :| HasCallAt(s, last) {
      var i := SomeFirstCall(s, 0, last);
      FnSearchIs(s, i);
      ParseMatchIs(tools, FnMatchHere(s[i..]).value);
      forall k: nat | FirstCallAt(s, k) ensures k == i {
        OnlyOneFirst(s, i, k);
      }
      assert HasCallAt(s, i) && i <= |s|;
    } else {
      FnSearchFails(s);
    }
  }

  lemma OnlyOneFirst(s: string, i: nat, k: nat)
    requires FirstCallAt(s, i) && FirstCallAt(s, k)
    ensures i == k
  {
  }

  lemma UserBack(p: Prompts, tools: seq<ToolSpec>, m: PlainMessage, first: bool, calls: nat)
    requires m.role == UserRole
    ensures var r := FromPlain(p, tools, m, first, calls);
            r.Ok? && UserComesBack(Unwrapped(p, m.text, first), r.value)
  {
    UnwrappedIs(p, m.text, first);
    var text := Unwrapped(p, m.text, first);
    var o := FromPlain(p, tools, m, first, calls).value;
    forall i: nat | FirstResultAt(text, i)
      ensures o.Tool? && o.name == Some(ResultAt(text, i).name) && o.text == Strip(ResultAt(text, i).text)
    {
      ResultSearchIs(text, i);
    }
    if forall i :: 0 <= i <= |text| ==> !HasResultAt(text, i) {
      ResultSearchFails(text);
    }
  }

  lemma MessageBack(p: Prompts, tools: seq<ToolSpec>, m: PlainMessage, first: bool, calls: nat)
    ensures var r := FromPlain(p, tools, m, first, calls);
            && (r.Err? <==> HasBadCall(tools, m)) && (r.Ok? ==> ComesBack(p, tools, m, first, r.value))
  {
    match m.role
    case SystemRole =>
    case UserRole => UserBack(p, tools, m, first, calls);
    case AssistantRole => AssistantBack(p, tools, m, first, calls);
  }

  /*** A conversation. ***/

  predicate NoUserBefore(ms: seq<PlainMessage>, i: nat) {
    forall j :: 0 <= j < i && j < |ms| ==> ms[j].role != UserRole
  }

  lemma NoUserNext(ms: seq<PlainMessage>, i: nat)
    requires 0 < i < |ms|
    ensures NoUserBefore(ms, i) <==> ms[0].role != UserRole && NoUserBefore(ms[1..], i - 1)
  {
    assert forall j :: 0 <= j < |ms| - 1 ==> ms[1..][j] == ms[j + 1];
    if ms[0].role != UserRole && NoUserBefore(ms[1..], i - 1) {
      forall j | 0 <= j < i ensures ms[j].role != UserRole {
        assert j > 0 ==> ms[j] == ms[1..][j - 1];
      }
    }
  }

  lemma {:induction false} BackFrom(p: Prompts, tools: seq<ToolSpec>, ms: seq<PlainMessage>, first: bool, calls: nat,
                                    i: nat)
    requires FromNonFnCall(p, tools, ms, first, calls).Ok? && i < |ms|
    ensures var out := FromNonFnCall(p, tools, ms, first, calls).value;
            |out| == |ms| && ComesBack(p, tools, ms[i], first && NoUserBefore(ms, i), out[i])
    decreases |ms|
  {
    var head := FromPlain(p, tools, ms[0], first, calls).value;
    var seen := first && ms[0].role != UserRole;
    var later := if IsCall(head) then calls + 1 else calls;
    var rest := FromNonFnCall(p, tools, ms[1..], seen, later).value;
    assert FromNonFnCall(p, tools, ms, first, calls).value == [head] + rest;
    BackLength(p, tools, ms[1..], seen, later);
    if i == 0 {
      MessageBack(p, tools, ms[0], first, calls);
    } else {
      BackFrom(p, tools, ms[1..], seen, later, i - 1);
      NoUserNext(ms, i);
      assert ([head] + rest)[i] == rest[i - 1] && ms[i] == ms[1..][i - 1];
    }
  }

  lemma {:induction false} BackLength(p: Prompts, tools: seq<ToolSpec>, ms: seq<PlainMessage>, first: bool, calls: nat)
    requires FromNonFnCall(p, tools, ms, first, calls).Ok?
    ensures |FromNonFnCall(p, tools, ms, first, calls).value| == |ms|
    decreases |ms|
  {
    if ms != [] {
      var head := FromPlain(p, tools, ms[0], first, calls).value;
      BackLength(p, tools, ms[1..], first && ms[0].role != UserRole, if IsCall(head) then calls + 1 else calls);
    }
  }

  /** Each message of a conversation that is converted back is what its own message comes back as. */
  lemma BackIs(p: Prompts, tools: seq<ToolSpec>, ms: seq<PlainMessage>, i: nat)
    requires FromNonFnCall(p, tools, ms, true, 0).Ok? && i < |ms|
    ensures var out := FromNonFnCall(p, tools, ms, true, 0).value;
            |out| == |ms| && ComesBack(p, tools, ms[i], NoUserBefore(ms, i), out[i])
  {
    BackFrom(p, tools, ms, true, 0, i);
  }

  ghost predicate AnyBad(tools: seq<ToolSpec>, ms: seq<PlainMessage>) {
    exists i :: 0 <= i < |ms| && HasBadCall(tools, ms[i])
  }

  lemma AnyBadNext(tools: seq<ToolSpec>, ms: seq<PlainMessage>)
    requires ms != []
    ensures AnyBad(tools, ms) <==> HasBadCall(tools, ms[0]) || AnyBad(tools, ms[1..])
  {
    if i :| 0 <= i < |ms| && HasBadCall(tools, ms[i]) {
      assert i > 0 ==> ms[1..][i - 1] == ms[i];
    }
    if i :| 0 <= i < |ms[1..]| && HasBadCall(tools, ms[1..][i]) {
      assert ms[i + 1] == ms[1..][i];
    }
  }

  lemma {:induction false} FailsFrom(p: Prompts, tools: seq<ToolSpec>, ms: seq<PlainMessage>, first: bool, calls: nat)
    ensures FromNonFnCall(p, tools, ms, first, calls).Err? <==> AnyBad(tools, ms)
    decreases |ms|
  {
    if ms != [] {
      var head := FromPlain(p, tools, ms[0], first, calls);
      MessageBack(p, tools, ms[0], first, calls);
      AnyBadNext(tools, ms);
      if head.Ok? {
        FailsFrom(p, tools, ms[1..], first && ms[0].role != UserRole,
                  if IsCall(head.value) then calls + 1 else calls);
      }
    }
  }

  /** The conversion back fails exactly if some message of the assistant has, as its first call, one of
      a tool that is not there, or with parameters that are not good for it. */
  lemma FailsIff(p: Prompts, tools: seq<ToolSpec>, ms: seq<PlainMessage>)
    ensures FromNonFnCall(p, tools, ms, true, 0).Err? <==> exists i :: 0 <= i < |ms| && HasBadCall(tools, ms[i])
  {
    FailsFrom(p, tools, ms, true, 0);
  }
}
