/** One function call as text: the printer, the parser and the repair of a cut-off ending. */
module FnCallFormat {
  import opened Wrappers
  import opened Text
  import opened Numerals

  const FN_OPEN := "<function="
  const FN_CLOSE := "</function>"
  const PARAM_OPEN := "<parameter="
  const PARAM_CLOSE := "</parameter>"

  /** The argument values the format supports. */
  datatype Value = Str(text: string) | Int(n: int) | IntList(ns: seq<int>)

  /** A dictionary in insertion order. */
  type Args = seq<(string, Value)>

  datatype ParamType = StringType | IntegerType | ArrayType

  datatype ParamSpec = ParamSpec(ty: ParamType, options: Option<set<Value>>)

  /** The declaration of a tool: its parameters, with their types and enums, and which of them
      are required. */
  datatype ToolSpec = ToolSpec(name: string, properties: map<string, ParamSpec>, required: set<string>)

  datatype ConversionError =
    | NotOneToolCall
    | UnknownFunction(name: string)
    | NotAllowed(param: string)
    | NotAnInteger(param: string)
    | NotAnArray(param: string)
    | NotInEnum(param: string)
    | MissingRequired(params: set<string>)
    | UnknownParameter(param: string)   // the KeyError of a tool that declares no parameters

  /*** The printer. ***/

  predicate IsMultiline(v: Value) {
    v.Str? && '\n' in v.text
  }

  function ValueText(v: Value): string {
    match v
    case Str(text) => text
    case Int(n) => IntText(n)
    case IntList(ns) => IntListText(ns)
  }

  /** What stands between the tags of a parameter. */
  function ParamText(v: Value): string {
    if IsMultiline(v) then "\n" + ValueText(v) + "\n" else ValueText(v)
  }

  function ParamLine(name: string, v: Value): string {
    PARAM_OPEN + name + ">" + ParamText(v) + PARAM_CLOSE + "\n"
  }

  function ParamsText(args: Args): string {
    if args == [] then "" else ParamLine(args[0].0, args[0].1) + ParamsText(args[1..])
  }

  function CallText(name: string, args: Args): string {
    FN_OPEN + name + ">\n" + ParamsText(args) + FN_CLOSE
  }

  lemma {:induction false} ParamsTextSnoc(args: Args, name: string, v: Value)
    ensures ParamsText(args + [(name, v)]) == ParamsText(args) + ParamLine(name, v)
  {
    if args != [] {
      assert (args + [(name, v)])[1..] == args[1..] + [(name, v)];
      ParamsTextSnoc(args[1..], name, v);
    }
  }

  lemma ParamsTextNext(head: string, args: Args, i: nat)
    requires i < |args|
    ensures head + ParamsText(args[..i]) + ParamLine(args[i].0, args[i].1) == head + ParamsText(args[..i + 1])
  {
    assert args[..i + 1] == args[..i] + [(args[i].0, args[i].1)];
    ParamsTextSnoc(args[..i], args[i].0, args[i].1);
    JoinThree(head, ParamsText(args[..i]), ParamLine(args[i].0, args[i].1));
  }

  lemma ParamsTextEnds(args: Args)
    ensures ParamsText(args[..0]) == "" && args[..|args|] == args
  {
    assert args[..0] == [];
  }

  method AppendParam(ret: string, paramName: string, value: Value) returns (longer: string)
    ensures longer == ret + ParamLine(paramName, value)
  {
    var line := PARAM_OPEN + paramName + ">";
    if IsMultiline(value) {
      line := line + ("\n" + ValueText(value) + "\n");
    } else {
      line := line + ValueText(value);
    }
    line := line + PARAM_CLOSE + "\n";
    assert line == ParamLine(paramName, value);
    longer := ret + line;
  }

  method AppendParams(head: string, args: Args) returns (ret: string)
    ensures ret == head + ParamsText(args)
  {
    ret := head;
    ParamsTextEnds(args);
    for i := 0 to |args|
      invariant ret == head + ParamsText(args[..i])
    {
      ParamsTextNext(head, args, i);
      ret := AppendParam(ret, args[i].0, args[i].1);
    }
  }

  /** convert_tool_call_to_string */
  method ConvertToolCallToString(name: string, args: Args) returns (ret: string)
    ensures ret == CallText(name, args)
  {
    ret := AppendParams(FN_OPEN + name + ">\n", args);
    ret := ret + FN_CLOSE;
  }

  /*** The parser. ***/

  datatype FnMatch = FnMatch(name: string, body: string)

  /** FN_REGEX_PATTERN at the start of s: a name up to the first >, a line break, and a body up to
      the first closing tag. */
  function FnMatchHere(s: string): Option<FnMatch> {
    if !StartsWith(s, FN_OPEN) then None
    else
      var rest := s[|FN_OPEN|..];
      var nameEnd := Find(rest, ">");
      if nameEnd.None? || nameEnd.value == 0 || !StartsWith(rest[nameEnd.value..], ">\n") then None
      else
        var after := rest[nameEnd.value + 2..];
        var bodyEnd := Find(after, FN_CLOSE);
        if bodyEnd.None? then None
        else Some(FnMatch(rest[..nameEnd.value], after[..bodyEnd.value]))
  }

  /** re.search(FN_REGEX_PATTERN, s, re.DOTALL) */
  function FnSearch(s: string): Option<FnMatch> {
    var here := FnMatchHere(s);
    if here.Some? || s == "" then here else FnSearch(s[1..])
  }

  datatype ParamMatch = ParamMatch(name: string, text: string, rest: string)

  /** FN_PARAM_REGEX_PATTERN at the start of s. */
  function ParamMatchHere(s: string): (r: Option<ParamMatch>)
    ensures r.Some? ==> |r.value.rest| < |s|
  {
    if !StartsWith(s, PARAM_OPEN) then None
    else
      var rest := s[|PARAM_OPEN|..];
      var nameEnd := Find(rest, ">");
      if nameEnd.None? || nameEnd.value == 0 then None
      else
        var after := rest[nameEnd.value + 1..];
        var textEnd := Find(after, PARAM_CLOSE);
        if textEnd.None? then None
        else Some(ParamMatch(rest[..nameEnd.value], after[..textEnd.value],
                             after[textEnd.value + |PARAM_CLOSE|..]))
  }

  /** re.finditer(FN_PARAM_REGEX_PATTERN, s, re.DOTALL) */
  function ParamMatches(s: string): seq<(string, string)>
    decreases |s|
  {
    var here := ParamMatchHere(s);
    if here.Some? then [(here.value.name, here.value.text)] + ParamMatches(here.value.rest)
    else if s == "" then []
    else ParamMatches(s[1..])
  }

  predicate IsWordChar(c: char) {
    'a' <= c <= 'z' || 'A' <= c <= 'Z' || '0' <= c <= '9' || c == '_'
  }

  function WordRun(s: string): nat
    ensures WordRun(s) <= |s|
  {
    if s != "" && IsWordChar(s[0]) then 1 + WordRun(s[1..]) else 0
  }

  /** The malformed parameter <parameter=name=value</parameter> at the start of s, corrected, and
      what follows it. */
  function MalformedHere(s: string): (r: Option<(string, string)>)
    ensures r.Some? ==> |r.value.1| < |s|
  {
    if !StartsWith(s, PARAM_OPEN) then None
    else
      var rest := s[|PARAM_OPEN|..];
      var n := WordRun(rest);
      if n == 0 || n == |rest| || rest[n] != '=' then None
      else
        var after := rest[n + 1..];
        var m := Find(after, "<");
        if m.None? || !StartsWith(after[m.value..], PARAM_CLOSE) then None
        else Some((PARAM_OPEN + rest[..n] + ">" + after[..m.value] + PARAM_CLOSE,
                   after[m.value + |PARAM_CLOSE|..]))
  }

  /** _normalize_parameter_tags */
  function NormalizeParameterTags(s: string): string
    decreases |s|
  {
    var here := MalformedHere(s);
    if here.Some? then here.value.0 + NormalizeParameterTags(here.value.1)
    else if s == "" then ""
    else [s[0]] + NormalizeParameterTags(s[1..])
  }

  /** _fix_stopword */
  function FixStopword(content: string): string {
    var first := Find(content, FN_OPEN);
    if first.Some? && !Contains(content[first.value + |FN_OPEN|..], FN_OPEN) then
      if EndsWith(content, "</") then RStrip(content) + "function>" else content + "\n</function>"
    else content
  }

  /** params[name] = value */
  function Put(args: Args, name: string, value: Value): Args {
    if args == [] then [(name, value)]
    else if args[0].0 == name then [(name, value)] + args[1..]
    else [args[0]] + Put(args[1..], name, value)
  }

  function Names(args: Args): set<string> {
    set a | a in args :: a.0
  }

  function ParseValue(tool: ToolSpec, name: string, text: string): Result<Value, ConversionError> {
    if tool.properties == map[] then Err(UnknownParameter(name))
    else if name !in tool.properties then Err(NotAllowed(name))
    else
      var spec := tool.properties[name];
      var parsed: Result<Value, ConversionError> :=
        match spec.ty
        case StringType => Ok(Str(text))
        case IntegerType =>
          (var n := ParseInt(text);
           if n.None? then Err(NotAnInteger(name)) else Ok(Int(n.value)))
        case ArrayType =>
          (var ns := ParseIntList(text);
           if ns.None? then Err(NotAnArray(name)) else Ok(IntList(ns.value)));
      if parsed.Ok? && spec.options.Some? && parsed.value !in spec.options.value
      then Err(NotInEnum(name))
      else parsed
  }

  function PutAll(tool: ToolSpec, matches: seq<(string, string)>, args: Args): Result<Args, ConversionError> {
    if matches == [] then Ok(args)
    else
      var v := ParseValue(tool, matches[0].0, matches[0].1);
      if v.Err? then Err(v.error) else PutAll(tool, matches[1..], Put(args, matches[0].0, v.value))
  }

  function ExtractParams(tool: ToolSpec, matches: seq<(string, string)>): Result<Args, ConversionError> {
    var r := PutAll(tool, matches, []);
    if r.Ok? && tool.required - Names(r.value) != {} then Err(MissingRequired(tool.required - Names(r.value)))
    else r
  }

  /** _extract_and_validate_params */
  method ExtractAndValidateParams(tool: ToolSpec, matches: seq<(string, string)>)
    returns (r: Result<Args, ConversionError>)
    ensures r == ExtractParams(tool, matches)
  {
    var params: Args := [];
    for i := 0 to |matches|
      invariant PutAll(tool, matches, []) == PutAll(tool, matches[i..], params)
    {
      var (name, text) := matches[i];
      assert matches[i..][1..] == matches[i + 1..];
      var v := ParseValue(tool, name, text);
      if v.Err? {
        return Err(v.error);
      }
      params := Put(params, name, v.value);
    }
    assert matches[|matches|..] == [];
    var missing := tool.required - Names(params);
    if missing != {} {
      return Err(MissingRequired(missing));
    }
    r := Ok(params);
  }

  function FindTool(tools: seq<ToolSpec>, name: string): Option<ToolSpec> {
    if tools == [] then None else if tools[0].name == name then Some(tools[0]) else FindTool(tools[1..], name)
  }

  datatype Call = Call(name: string, args: Args)

  /** The call a match stands for. */
  function ParseMatch(tools: seq<ToolSpec>, m: FnMatch): Result<Call, ConversionError> {
    var tool := FindTool(tools, m.name);
    if tool.None? then Err(UnknownFunction(m.name))
    else
      var args := ExtractParams(tool.value, ParamMatches(NormalizeParameterTags(m.body)));
      if args.Err? then Err(args.error) else Ok(Call(m.name, args.value))
  }
}
