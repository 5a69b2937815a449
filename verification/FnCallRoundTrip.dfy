/** What the parser reads back from a printed call. */
module FnCallRoundTrip {
  import opened Wrappers
  import opened Text
  import opened Numerals
  import opened FnCallFormat

  predicate IsMarker(m: string) {
    m == FN_OPEN || m == FN_CLOSE || m == PARAM_OPEN || m == PARAM_CLOSE
  }

  predicate MarkerFree(s: string) {
    && !Contains(s, FN_OPEN) && !Contains(s, FN_CLOSE)
    && !Contains(s, PARAM_OPEN) && !Contains(s, PARAM_CLOSE)
  }

  predicate PlainName(name: string) {
    name != "" && forall c :: c in name ==> c != '<' && c != '>' && c != '='
  }

  predicate PrintableParam(name: string, v: Value) {
    PlainName(name) && (v.Str? ==> MarkerFree(v.text))
  }

  predicate Printable(args: Args) {
    forall i :: 0 <= i < |args| ==> PrintableParam(args[i].0, args[i].1)
  }

  /** A multi-line string keeps the line breaks the printer puts around it. */
  function Returned(v: Value): Value {
    if IsMultiline(v) then Str("\n" + v.text + "\n") else v
  }

  function ReturnedArgs(args: Args): Args {
    seq(|args|, i requires 0 <= i < |args| => (args[i].0, Returned(args[i].1)))
  }

  /*** Where markers occur in printed text. ***/

  lemma MarkerShape(m: string)
    requires IsMarker(m)
    ensures |m| >= 2 && m[0] == '<' && '<' !in m[1..] && '\n' !in m
  {
    if m == FN_OPEN {
    } else if m == FN_CLOSE {
    } else if m == PARAM_OPEN {
    } else {
    }
  }

  /** A text whose only < is at its start is no place for another marker to start. */
  lemma BehindTag(a: string, b: string, m: string, k: nat)
    requires IsMarker(m) && !Contains(b, m)
    requires forall i :: 0 < i < |a| ==> a[i] != '<'
    requires k < |a| && k < |m| && a[k] != m[k]
    ensures !Contains(a + b, m)
  {
    MarkerShape(m);
    forall i | 0 <= i <= |a + b| ensures !StartsWith((a + b)[i..], m) {
      if StartsWith((a + b)[i..], m) {
        if i < |a| {
          StartsWithFirst((a + b)[i..], m);
          StartsWithAt(a + b, m, k);
        } else {
          assert (a + b)[i..] == b[i - |a|..];
          NotContained(b, m, i - |a|);
        }
      }
    }
    FindIsNone(a + b, m);
  }

  /** A text without the marker, before a text that does not complete one. */
  lemma BeforeText(a: string, b: string, m: string)
    requires IsMarker(m) && !Contains(a, m) && !Contains(b, m)
    requires b == "" || b[0] == '<' || b[0] == '\n'
    ensures !Contains(a + b, m)
  {
    MarkerShape(m);
    forall i | 0 <= i <= |a + b| ensures !StartsWith((a + b)[i..], m) {
      if i < |a| {
        NoStraddle(a, b, m, i);
      } else {
        assert (a + b)[i..] == b[i - |a|..];
        NotContained(b, m, i - |a|);
      }
    }
    FindIsNone(a + b, m);
  }

  lemma NoBracket(s: string, m: string)
    requires IsMarker(m) && '<' !in s
    ensures !Contains(s, m)
  {
    if Contains(s, m) {
      FirstCharIn(s, m);
    }
  }

  lemma ParamTextFree(v: Value, m: string)
    requires IsMarker(m) && (v.Str? ==> MarkerFree(v.text))
    ensures !Contains(ParamText(v), m)
  {
    match v
    case Int(n) => IntTextIsPlain(n); NoBracket(IntText(n), m);
    case IntList(ns) => CommaSeparatedIsPlain(ns); NoBracket(IntListText(ns), m);
    case Str(t) =>
      if IsMultiline(v) {
        NoBracket("\n", m);
        BeforeText(t, "\n", m);
        BehindTag("\n", t + "\n", m, 0);
        assert "\n" + (t + "\n") == ParamText(v);
      }
  }

  function OpenTag(name: string): string {
    PARAM_OPEN + name + ">"
  }

  const CLOSE_LINE := PARAM_CLOSE + "\n"

  lemma LineShape(name: string, v: Value, rest: string)
    ensures ParamLine(name, v) + rest == OpenTag(name) + (ParamText(v) + (CLOSE_LINE + rest))
  {
    Regroup(PARAM_OPEN, name, ">", ParamText(v), PARAM_CLOSE, "\n", rest);
    RegroupAsTags(PARAM_OPEN, name, ">", ParamText(v), PARAM_CLOSE, "\n", rest);
  }

  lemma RegroupAsTags(a: string, b: string, c: string, d: string, e: string, f: string, g: string)
    ensures a + (b + (c + (d + (e + (f + g))))) == (a + b + c) + (d + ((e + f) + g))
  {
  }

  lemma OpenTagShape(name: string)
    requires PlainName(name)
    ensures forall i :: 0 < i < |OpenTag(name)| ==> OpenTag(name)[i] != '<'
    ensures OpenTag(name)[1] == 'p'
  {
    var tag := OpenTag(name);
    forall i | 0 < i < |tag| ensures tag[i] != '<' {
      if i < |PARAM_OPEN| {
        assert tag[i] == PARAM_OPEN[i];
      } else if i < |PARAM_OPEN| + |name| {
        assert tag[i] == name[i - |PARAM_OPEN|] && name[i - |PARAM_OPEN|] in name;
      }
    }
  }

  lemma LineFree(name: string, v: Value, rest: string, m: string)
    requires PrintableParam(name, v) && (m == FN_OPEN || m == FN_CLOSE) && !Contains(rest, m)
    ensures !Contains(ParamLine(name, v) + rest, m)
  {
    BehindTag(CLOSE_LINE, rest, m, 2);
    ParamTextFree(v, m);
    BeforeText(ParamText(v), CLOSE_LINE + rest, m);
    OpenTagShape(name);
    BehindTag(OpenTag(name), ParamText(v) + (CLOSE_LINE + rest), m, 1);
    LineShape(name, v, rest);
  }

  lemma ParamsTextIs(args: Args, tail: string)
    requires args != []
    ensures ParamsText(args) + tail == ParamLine(args[0].0, args[0].1) + (ParamsText(args[1..]) + tail)
  {
  }

  lemma {:induction false} ParamsFree(args: Args, tail: string, m: string)
    requires Printable(args) && !Contains(tail, m) && (m == FN_OPEN || m == FN_CLOSE)
    ensures !Contains(ParamsText(args) + tail, m)
  {
    if args == [] {
      assert ParamsText(args) + tail == tail;
    } else {
      ParamsFree(args[1..], tail, m);
      LineFree(args[0].0, args[0].1, ParamsText(args[1..]) + tail, m);
      ParamsTextIs(args, tail);
    }
  }

  /*** Reading the parameters. ***/

  function Texts(args: Args): seq<(string, string)> {
    seq(|args|, i requires 0 <= i < |args| => (args[i].0, ParamText(args[i].1)))
  }

  lemma NameEnds(name: string, rest: string)
    requires PlainName(name)
    ensures Find(name + (">" + rest), ">") == Some(|name|)
  {
    if Contains(name, ">") {
      FirstCharIn(name, ">");
    }
    assert StartsWith(">" + rest, ">");
    FindAfter(name, ">" + rest, ">");
  }

  lemma MatchedParts(name: string, text: string, rest: string)
    requires PlainName(name)
    requires Find(text + (PARAM_CLOSE + rest), PARAM_CLOSE) == Some(|text|)
    ensures ParamMatchHere(PARAM_OPEN + (name + (">" + (text + (PARAM_CLOSE + rest)))))
         == Some(ParamMatch(name, text, rest))
  {
    var after := text + (PARAM_CLOSE + rest);
    var s := PARAM_OPEN + (name + (">" + after));
    assert s[|PARAM_OPEN|..] == name + (">" + after);
    NameEnds(name, after);
    assert s[|PARAM_OPEN|..][|name| + 1..] == after;
    assert after[|text| + |PARAM_CLOSE|..] == rest;
  }

  lemma Regroup(a: string, b: string, c: string, d: string, e: string, f: string, g: string)
    ensures (a + b + c + d + e + f) + g == a + (b + (c + (d + (e + (f + g)))))
  {
  }

  lemma LineParts(name: string, v: Value, rest: string)
    ensures ParamLine(name, v) + rest
         == PARAM_OPEN + (name + (">" + (ParamText(v) + (PARAM_CLOSE + ("\n" + rest)))))
  {
    Regroup(PARAM_OPEN, name, ">", ParamText(v), PARAM_CLOSE, "\n", rest);
  }

  /** The parser takes a printed line apart. */
  lemma LineIsMatched(name: string, v: Value, rest: string)
    requires PrintableParam(name, v)
    ensures ParamMatchHere(ParamLine(name, v) + rest) == Some(ParamMatch(name, ParamText(v), "\n" + rest))
  {
    ParamTextFree(v, PARAM_CLOSE);
    MarkerShape(PARAM_CLOSE);
    PrefixStarts(PARAM_CLOSE, "\n" + rest);
    FindAfter(ParamText(v), PARAM_CLOSE + ("\n" + rest), PARAM_CLOSE);
    MatchedParts(name, ParamText(v), "\n" + rest);
    LineParts(name, v, rest);
  }

  lemma LineBreakIsSkipped(rest: string)
    ensures ParamMatches("\n" + rest) == ParamMatches(rest)
  {
    var s := "\n" + rest;
    if StartsWith(s, PARAM_OPEN) {
      StartsWithFirst(s, PARAM_OPEN);
    }
    assert s[1..] == rest;
  }

  lemma {:induction false} NoParameters(s: string)
    requires !Contains(s, PARAM_OPEN)
    ensures ParamMatches(s) == [] && NormalizeParameterTags(s) == s
  {
    if s != "" {
      TailContainsNot(s, PARAM_OPEN, 1);
      NoParameters(s[1..]);
      assert s == [s[0]] + s[1..];
    }
  }

  lemma LineThenRest(name: string, v: Value, rest: string)
    requires PrintableParam(name, v)
    ensures ParamMatches(ParamLine(name, v) + rest) == [(name, ParamText(v))] + ParamMatches(rest)
  {
    LineIsMatched(name, v, rest);
    LineBreakIsSkipped(rest);
  }

  lemma TextsSplit(args: Args)
    ensures args == [] ==> Texts(args) == []
    ensures args != [] ==> Texts(args) == [(args[0].0, ParamText(args[0].1))] + Texts(args[1..])
  {
  }

  lemma {:induction false} ParamsAreMatched(args: Args, tail: string)
    requires Printable(args) && MarkerFree(tail)
    ensures ParamMatches(ParamsText(args) + tail) == Texts(args)
  {
    if args == [] {
      assert ParamsText(args) + tail == tail;
      NoParameters(tail);
      TextsSplit(args);
    } else {
      var rest := ParamsText(args[1..]) + tail;
      LineThenRest(args[0].0, args[0].1, rest);
      ParamsAreMatched(args[1..], tail);
      ParamsTextIs(args, tail);
      TextsSplit(args);
    }
  }

  /*** Well-formed parameters are not touched by the repair of malformed ones. ***/

  predicate NoneMalformed(a: string, rest: string) {
    forall i :: 0 <= i < |a| ==> MalformedHere((a + rest)[i..]) == None
  }

  lemma NoneMalformedNext(a: string, rest: string)
    requires a != "" && NoneMalformed(a, rest)
    ensures MalformedHere(a + rest) == None && NoneMalformed(a[1..], rest)
  {
    DropNone(a + rest);
    forall i | 0 <= i < |a[1..]| ensures MalformedHere((a[1..] + rest)[i..]) == None {
      DropMore(a, rest, i);
    }
  }

  lemma NormalizeFirst(s: string)
    requires s != "" && MalformedHere(s) == None
    ensures NormalizeParameterTags(s) == [s[0]] + NormalizeParameterTags(s[1..])
  {
  }

  /** Text that no malformed parameter starts in is kept. */
  lemma {:induction false} NormalizeKeeps(a: string, rest: string)
    requires NoneMalformed(a, rest)
    ensures NormalizeParameterTags(a + rest) == a + NormalizeParameterTags(rest)
    decreases |a|
  {
    if a == "" {
      JoinNone(rest);
      JoinNone(NormalizeParameterTags(rest));
    } else {
      NoneMalformedNext(a, rest);
      NormalizeFirst(a + rest);
      DropFirst(a, rest);
      NormalizeKeeps(a[1..], rest);
      JoinFirst(a, NormalizeParameterTags(rest));
    }
  }

  lemma NotMalformed(s: string)
    requires s == "" || s[0] != '<'
    ensures MalformedHere(s) == None
  {
    if StartsWith(s, PARAM_OPEN) {
      StartsWithFirst(s, PARAM_OPEN);
    }
  }

  lemma {:induction false} WordRunStops(s: string, k: nat)
    requires k < |s| && !IsWordChar(s[k])
    ensures WordRun(s) <= k
  {
    if k > 0 {
      WordRunStops(s[1..], k - 1);
    }
  }

  lemma OpenTagIsWellFormed(name: string, rest: string)
    requires PlainName(name)
    ensures MalformedHere(OpenTag(name) + rest) == None
  {
    var s := OpenTag(name) + rest;
    var after := name + (">" + rest);
    assert s == PARAM_OPEN + after;
    assert s[|PARAM_OPEN|..] == after;
    WordRunStops(after, |name|);
    var n := WordRun(after);
    if n < |name| {
      assert after[n] in name;
    }
  }

  lemma OpenTagIsKept(name: string, rest: string)
    requires PlainName(name)
    ensures NormalizeParameterTags(OpenTag(name) + rest) == OpenTag(name) + NormalizeParameterTags(rest)
  {
    var s := OpenTag(name) + rest;
    forall i | 0 <= i < |OpenTag(name)| ensures MalformedHere(s[i..]) == None {
      if i == 0 {
        assert s[0..] == s;
        OpenTagIsWellFormed(name, rest);
      } else {
        OpenTagShape(name);
        NotMalformed(s[i..]);
      }
    }
    NormalizeKeeps(OpenTag(name), rest);
  }

  lemma ParamTextIsKept(v: Value, rest: string)
    requires v.Str? ==> MarkerFree(v.text)
    requires rest != "" && rest[0] == '<'
    ensures NormalizeParameterTags(ParamText(v) + rest) == ParamText(v) + NormalizeParameterTags(rest)
  {
    var s := ParamText(v) + rest;
    ParamTextFree(v, PARAM_OPEN);
    MarkerShape(PARAM_OPEN);
    forall i | 0 <= i < |ParamText(v)| ensures MalformedHere(s[i..]) == None {
      NoStraddle(ParamText(v), rest, PARAM_OPEN, i);
    }
    NormalizeKeeps(ParamText(v), rest);
  }

  lemma CloseLineIsKept(rest: string)
    ensures NormalizeParameterTags(CLOSE_LINE + rest) == CLOSE_LINE + NormalizeParameterTags(rest)
  {
    var s := CLOSE_LINE + rest;
    forall i | 0 <= i < |CLOSE_LINE| ensures MalformedHere(s[i..]) == None {
      if i == 0 {
        assert s[0..] == s && s[1] == '/';
        if StartsWith(s, PARAM_OPEN) {
          StartsWithAt(s, PARAM_OPEN, 1);
        }
      } else {
        assert s[i..][0] == CLOSE_LINE[i];
        NotMalformed(s[i..]);
      }
    }
    NormalizeKeeps(CLOSE_LINE, rest);
  }

  lemma LineIsKept(name: string, v: Value, rest: string)
    requires PrintableParam(name, v)
    ensures NormalizeParameterTags(ParamLine(name, v) + rest) == ParamLine(name, v) + NormalizeParameterTags(rest)
  {
    LineShape(name, v, rest);
    OpenTagIsKept(name, ParamText(v) + (CLOSE_LINE + rest));
    ParamTextIsKept(v, CLOSE_LINE + rest);
    CloseLineIsKept(rest);
    LineShape(name, v, NormalizeParameterTags(rest));
  }

  /** The repair of malformed parameters is the identity on printed ones. */
  lemma {:induction false} NormalizeIsIdentity(args: Args, tail: string)
    requires Printable(args) && MarkerFree(tail)
    ensures NormalizeParameterTags(ParamsText(args) + tail) == ParamsText(args) + tail
  {
    if args == [] {
      assert ParamsText(args) + tail == tail;
      NoParameters(tail);
    } else {
      var rest := ParamsText(args[1..]) + tail;
      NormalizeIsIdentity(args[1..], tail);
      LineIsKept(args[0].0, args[0].1, rest);
      ParamsTextIs(args, tail);
    }
  }

  /*** Malformed parameters are repaired. ***/

  predicate IsWord(name: string) {
    name != "" && forall i :: 0 <= i < |name| ==> IsWordChar(name[i])
  }

  lemma {:induction false} WordRunIs(name: string, rest: string)
    requires forall i :: 0 <= i < |name| ==> IsWordChar(name[i])
    requires rest != "" && !IsWordChar(rest[0])
    ensures WordRun(name + rest) == |name|
  {
    if name == "" {
      assert name + rest == rest;
    } else {
      assert (name + rest)[1..] == name[1..] + rest;
      WordRunIs(name[1..], rest);
    }
  }

  lemma MalformedIsSeen(name: string, text: string, rest: string)
    requires IsWord(name) && '<' !in text
    ensures MalformedHere(PARAM_OPEN + (name + ("=" + (text + (PARAM_CLOSE + rest)))))
         == Some((PARAM_OPEN + name + ">" + text + PARAM_CLOSE, rest))
  {
    var value := text + (PARAM_CLOSE + rest);
    var after := name + ("=" + value);
    var s := PARAM_OPEN + after;
    assert s[|PARAM_OPEN|..] == after;
    WordRunIs(name, "=" + value);
    assert after[|name| + 1..] == value;
    if Contains(text, "<") {
      FirstCharIn(text, "<");
    }
    PrefixStarts(PARAM_CLOSE, rest);
    assert StartsWith(PARAM_CLOSE + rest, "<") && "<"[1..] == "";
    FindAfter(text, PARAM_CLOSE + rest, "<");
    assert value[|text|..] == PARAM_CLOSE + rest;
    assert value[|text| + |PARAM_CLOSE|..] == rest;
  }

  /** A line of the printed call, or what some models write in its place. */
  function WrittenLine(name: string, v: Value, malformed: bool): string {
    PARAM_OPEN + name + (if malformed then "=" else ">") + ParamText(v) + PARAM_CLOSE + "\n"
  }

  function WrittenText(args: Args, malformed: set<string>): string {
    if args == [] then ""
    else WrittenLine(args[0].0, args[0].1, args[0].0 in malformed) + WrittenText(args[1..], malformed)
  }

  lemma LineBreakIsKept(rest: string)
    ensures NormalizeParameterTags("\n" + rest) == "\n" + NormalizeParameterTags(rest)
  {
    NotMalformed("\n" + rest);
    NormalizeFirst("\n" + rest);
    DropFirst("\n", rest);
    JoinNone(rest);
  }

  lemma NormalizeMalformed(s: string)
    requires MalformedHere(s).Some?
    ensures NormalizeParameterTags(s) == MalformedHere(s).value.0 + NormalizeParameterTags(MalformedHere(s).value.1)
  {
  }

  lemma MalformedLineIsRepaired(name: string, text: string, rest: string)
    requires IsWord(name) && '<' !in text
    ensures NormalizeParameterTags(PARAM_OPEN + (name + ("=" + (text + (PARAM_CLOSE + ("\n" + rest))))))
         == PARAM_OPEN + name + ">" + text + PARAM_CLOSE + "\n" + NormalizeParameterTags(rest)
  {
    MalformedIsSeen(name, text, "\n" + rest);
    NormalizeMalformed(PARAM_OPEN + (name + ("=" + (text + (PARAM_CLOSE + ("\n" + rest))))));
    LineBreakIsKept(rest);
    JoinThree(PARAM_OPEN + name + ">" + text + PARAM_CLOSE, "\n", NormalizeParameterTags(rest));
  }

  lemma WrittenLineIsRepaired(name: string, v: Value, malformed: bool, rest: string)
    requires PrintableParam(name, v)
    requires malformed ==> IsWord(name) && '<' !in ParamText(v)
    ensures NormalizeParameterTags(WrittenLine(name, v, malformed) + rest)
         == ParamLine(name, v) + NormalizeParameterTags(rest)
  {
    if malformed {
      MalformedLineIsRepaired(name, ParamText(v), rest);
      Regroup(PARAM_OPEN, name, "=", ParamText(v), PARAM_CLOSE, "\n", rest);
    } else {
      LineIsKept(name, v, rest);
    }
  }

  lemma WrittenTextIs(args: Args, malformed: set<string>, tail: string)
    requires args != []
    ensures WrittenText(args, malformed) + tail
         == WrittenLine(args[0].0, args[0].1, args[0].0 in malformed) + (WrittenText(args[1..], malformed) + tail)
  {
  }

  /** Any of the parameters may be malformed: the repair gives the printed text. */
  lemma {:induction false} MalformedIsRepaired(args: Args, malformed: set<string>, tail: string)
    requires Printable(args) && MarkerFree(tail)
    requires forall i :: 0 <= i < |args| && args[i].0 in malformed ==>
               IsWord(args[i].0) && '<' !in ParamText(args[i].1)
    ensures NormalizeParameterTags(WrittenText(args, malformed) + tail) == ParamsText(args) + tail
  {
    if args == [] {
      assert WrittenText(args, malformed) + tail == tail && ParamsText(args) + tail == tail;
      NoParameters(tail);
    } else {
      var rest := WrittenText(args[1..], malformed) + tail;
      MalformedIsRepaired(args[1..], malformed, tail);
      WrittenTextIs(args, malformed, tail);
      WrittenLineIsRepaired(args[0].0, args[0].1, args[0].0 in malformed, rest);
      ParamsTextIs(args, tail);
    }
  }

  /*** Reading the values. ***/

  predicate TypeFits(ty: ParamType, v: Value) {
    match ty
    case StringType => v.Str?
    case IntegerType => v.Int?
    case ArrayType => v.IntList?
  }

  predicate Declared(tool: ToolSpec, args: Args) {
    forall i :: 0 <= i < |args| ==>
      args[i].0 in tool.properties && TypeFits(tool.properties[args[i].0].ty, args[i].1)
  }

  predicate DistinctNames(args: Args) {
    forall i, j :: 0 <= i < j < |args| ==> args[i].0 != args[j].0
  }

  predicate EnumAllows(tool: ToolSpec, name: string, v: Value)
    requires name in tool.properties
  {
    tool.properties[name].options.Some? ==> v in tool.properties[name].options.value
  }

  /** The enums hold what is read back. */
  predicate EnumsAllow(tool: ToolSpec, args: Args)
    requires Declared(tool, args)
  {
    forall i :: 0 <= i < |args| ==> EnumAllows(tool, args[i].0, Returned(args[i].1))
  }

  lemma ValueReadsBack(tool: ToolSpec, name: string, v: Value)
    requires name in tool.properties && TypeFits(tool.properties[name].ty, v)
    ensures ParseValue(tool, name, ParamText(v))
         == if EnumAllows(tool, name, Returned(v)) then Ok(Returned(v)) else Err(NotInEnum(name))
  {
    match v
    case Str(_) =>
    case Int(n) => IntRoundTrip(n);
    case IntList(ns) => IntListRoundTrip(ns);
  }

  lemma {:induction false} PutNew(args: Args, name: string, v: Value)
    requires forall i :: 0 <= i < |args| ==> args[i].0 != name
    ensures Put(args, name, v) == args + [(name, v)]
  {
    if args != [] {
      PutNew(args[1..], name, v);
      assert args + [(name, v)] == [args[0]] + (args[1..] + [(name, v)]);
    }
  }

  /** What reading the arguments gives, after those that were read already. */
  function ReadBack(tool: ToolSpec, args: Args, done: Args): Option<Args>
    requires Declared(tool, args)
  {
    if EnumsAllow(tool, args) then Some(done + ReturnedArgs(args)) else None
  }

  lemma ReadBackNext(tool: ToolSpec, args: Args, done: Args)
    requires args != [] && Declared(tool, args)
    ensures EnumAllows(tool, args[0].0, Returned(args[0].1)) ==>
              ReadBack(tool, args, done) == ReadBack(tool, args[1..], done + [(args[0].0, Returned(args[0].1))])
    ensures !EnumAllows(tool, args[0].0, Returned(args[0].1)) ==> ReadBack(tool, args, done) == None
  {
    EnumsAllowSplit(tool, args);
    ReturnedArgsSplit(args, done);
  }

  lemma ReturnedArgsSplit(args: Args, done: Args)
    requires args != []
    ensures done + ReturnedArgs(args) == done + [(args[0].0, Returned(args[0].1))] + ReturnedArgs(args[1..])
  {
  }

  lemma PutAllNext(tool: ToolSpec, args: Args, done: Args)
    requires args != [] && Declared(tool, args) && DistinctNames(done + args)
    ensures PutAll(tool, Texts(args), done)
         == if EnumAllows(tool, args[0].0, Returned(args[0].1))
            then PutAll(tool, Texts(args[1..]), done + [(args[0].0, Returned(args[0].1))])
            else Err(NotInEnum(args[0].0))
  {
    ValueReadsBack(tool, args[0].0, args[0].1);
    TextsSplit(args);
    forall i | 0 <= i < |done| ensures done[i].0 != args[0].0 {
      assert (done + args)[i].0 != (done + args)[|done|].0;
    }
    PutNew(done, args[0].0, Returned(args[0].1));
  }

  lemma {:induction false} ArgsReadBack(tool: ToolSpec, args: Args, done: Args)
    requires Declared(tool, args) && DistinctNames(done + args)
    ensures var r, back := PutAll(tool, Texts(args), done), ReadBack(tool, args, done);
            (r.Ok? <==> back.Some?) && (r.Ok? ==> r.value == back.value)
  {
    if args == [] {
      TextsSplit(args);
      assert done + ReturnedArgs(args) == done;
    } else {
      ReadBackNext(tool, args, done);
      PutAllNext(tool, args, done);
      if EnumAllows(tool, args[0].0, Returned(args[0].1)) {
        DistinctNamesMove(done, args, Returned(args[0].1));
        ArgsReadBack(tool, args[1..], done + [(args[0].0, Returned(args[0].1))]);
      }
    }
  }

  lemma DistinctNamesMove(done: Args, args: Args, v: Value)
    requires args != [] && DistinctNames(done + args)
    ensures DistinctNames(done + [(args[0].0, v)] + args[1..])
  {
    var was, now := done + args, done + [(args[0].0, v)] + args[1..];
    assert |was| == |now| && forall i :: 0 <= i < |was| ==> was[i].0 == now[i].0;
  }

  lemma EnumsAllowSplit(tool: ToolSpec, args: Args)
    requires args != [] && Declared(tool, args)
    ensures EnumsAllow(tool, args)
       <==> EnumAllows(tool, args[0].0, Returned(args[0].1)) && EnumsAllow(tool, args[1..])
  {
    if EnumsAllow(tool, args[1..]) && EnumAllows(tool, args[0].0, Returned(args[0].1)) {
      forall i | 0 <= i < |args| ensures EnumAllows(tool, args[i].0, Returned(args[i].1)) {
        if i > 0 {
          assert args[i] == args[1..][i - 1];
        }
      }
    }
    if EnumsAllow(tool, args) {
      forall i | 0 <= i < |args[1..]|
        ensures EnumAllows(tool, args[1..][i].0, Returned(args[1..][i].1)) {
        assert args[i + 1] == args[1..][i];
      }
    }
  }

  lemma NamesReadBack(args: Args)
    ensures Names(ReturnedArgs(args)) == Names(args)
  {
    var back := ReturnedArgs(args);
    forall n ensures n in Names(back) <==> n in Names(args) {
      if n in Names(args) {
        var i :| 0 <= i < |args| && args[i].0 == n;
        assert back[i] in back;
      }
      if n in Names(back) {
        var i :| 0 <= i < |back| && back[i].0 == n;
        assert args[i] in args;
      }
    }
  }

  lemma SubsetIsNoDifference(a: set<string>, b: set<string>)
    ensures a <= b <==> a - b == {}
  {
    if a - b == {} {
      forall x | x in a ensures x in b {
        assert x !in a - b;
      }
    }
  }

  lemma NothingDone(args: Args)
    ensures [] + args == args
  {
  }

  lemma ParamsReadBack(tool: ToolSpec, args: Args)
    requires DistinctNames(args) && Declared(tool, args)
    ensures var r := ExtractParams(tool, Texts(args));
            && (r.Ok? <==> EnumsAllow(tool, args) && tool.required <= Names(args))
            && (r.Ok? ==> r.value == ReturnedArgs(args))
  {
    NothingDone(args);
    ArgsReadBack(tool, args, []);
    NothingDone(ReturnedArgs(args));
    NamesReadBack(args);
    SubsetIsNoDifference(tool.required, Names(args));
  }

  /** A printed call, with any marker-free text after its last parameter, is accepted exactly when
      no required parameter is missing and the enums hold what is read back; and then it is read
      back as the same call, but for the line breaks around multi-line strings. */
  lemma CallReadsBack(tools: seq<ToolSpec>, name: string, args: Args, tail: string)
    requires Printable(args) && DistinctNames(args) && MarkerFree(tail)
    requires FindTool(tools, name).Some? && Declared(FindTool(tools, name).value, args)
    ensures var tool := FindTool(tools, name).value;
            var call := ParseMatch(tools, FnMatch(name, ParamsText(args) + tail));
            && (call.Ok? <==> EnumsAllow(tool, args) && tool.required <= Names(args))
            && (call.Ok? ==> call.value == Call(name, ReturnedArgs(args)))
  {
    NormalizeIsIdentity(args, tail);
    ParamsAreMatched(args, tail);
    ParamsReadBack(FindTool(tools, name).value, args);
  }
}
