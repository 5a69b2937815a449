/** Which parameters a call is accepted with, whoever wrote it. */
module FnCallValidation {
  import opened Wrappers
  import opened FnCallFormat
  import opened Numerals

  /** The value of a name. */
  function Lookup(args: Args, name: string): Option<Value> {
    if args == [] then None
    else if args[0].0 == name then Some(args[0].1)
    else Lookup(args[1..], name)
  }

  /** The text that was given last for a name. */
  function LastText(matches: seq<(string, string)>, name: string): Option<string> {
    if matches == [] then None
    else
      var later := LastText(matches[1..], name);
      if later.Some? then later else if matches[0].0 == name then Some(matches[0].1) else None
  }

  /** The value a text is read as, for a type. */
  function ReadAs(ty: ParamType, text: string): Option<Value> {
    match ty
    case StringType => Some(Str(text))
    case IntegerType => if IsIntText(text) && ParseInt(text).Some? then Some(Int(ParseInt(text).value)) else None
    case ArrayType => if ParseIntList(text).Some? then Some(IntList(ParseIntList(text).value)) else None
  }

  /** A text is valid for a parameter that is declared, if it reads as a value of its type, and as one
      of its options if it has any. */
  predicate IsValidText(tool: ToolSpec, name: string, text: string) {
    && name in tool.properties && ReadAs(tool.properties[name].ty, text).Some?
    && (tool.properties[name].options.Some? ==>
          ReadAs(tool.properties[name].ty, text).value in tool.properties[name].options.value)
  }

  /** What is wrong with a text that is not valid. */
  function Refusal(tool: ToolSpec, name: string, text: string): ConversionError {
    if tool.properties == map[] then UnknownParameter(name)
    else if name !in tool.properties then NotAllowed(name)
    else if ReadAs(tool.properties[name].ty, text).Some? then NotInEnum(name)
    else if tool.properties[name].ty == IntegerType then NotAnInteger(name)
    else NotAnArray(name)
  }

  /** Exactly the valid texts are read, as those values; and what is wrong with the others. */
  lemma ParseValueIs(tool: ToolSpec, name: string, text: string)
    ensures var r := ParseValue(tool, name, text);
            && (r.Ok? <==> IsValidText(tool, name, text))
            && (r.Ok? ==> r.value == ReadAs(tool.properties[name].ty, text).value)
            && (r.Err? ==> r.error == Refusal(tool, name, text))
  {
    ParseIntIff(text);
  }

  predicate EachIsValid(tool: ToolSpec, matches: seq<(string, string)>) {
    forall i :: 0 <= i < |matches| ==> IsValidText(tool, matches[i].0, matches[i].1)
  }

  lemma {:induction false} LookupPut(args: Args, name: string, v: Value, other: string)
    ensures Lookup(Put(args, name, v), other) == if other == name then Some(v) else Lookup(args, other)
  {
    if args != [] && args[0].0 != name {
      LookupPut(args[1..], name, v, other);
    }
  }

  lemma {:induction false} NamedIffFound(args: Args, name: string)
    ensures name in Names(args) <==> Lookup(args, name).Some?
  {
    if args != [] {
      NamedIffFound(args[1..], name);
      if name in Names(args) {
        var i :| 0 <= i < |args| && args[i].0 == name;
        if i > 0 {
          assert args[1..][i - 1] == args[i];
        }
      } else {
        assert args[0] in args;
        assert forall a :: a in args[1..] ==> a in args;
      }
    }
  }

  lemma EachIsValidNext(tool: ToolSpec, matches: seq<(string, string)>)
    requires matches != []
    ensures EachIsValid(tool, matches)
       <==> IsValidText(tool, matches[0].0, matches[0].1) && EachIsValid(tool, matches[1..])
  {
    assert forall i :: 0 <= i < |matches[1..]| ==> matches[1..][i] == matches[i + 1];
    if EachIsValid(tool, matches[1..]) && IsValidText(tool, matches[0].0, matches[0].1) {
      forall i | 0 <= i < |matches| ensures IsValidText(tool, matches[i].0, matches[i].1) {
        if i > 0 {
          assert matches[i] == matches[1..][i - 1];
        }
      }
    }
  }

  /** What is read for a name: its last text, or what was there. */
  predicate IsRead(tool: ToolSpec, matches: seq<(string, string)>, before: Args, after: Args, name: string) {
    match LastText(matches, name)
    case None => Lookup(after, name) == Lookup(before, name)
    case Some(text) =>
      IsValidText(tool, name, text) && Lookup(after, name) == ReadAs(tool.properties[name].ty, text)
  }

  lemma {:induction false} PutAllReads(tool: ToolSpec, matches: seq<(string, string)>, args: Args, name: string)
    ensures PutAll(tool, matches, args).Ok? <==> EachIsValid(tool, matches)
    ensures PutAll(tool, matches, args).Ok? ==> IsRead(tool, matches, args, PutAll(tool, matches, args).value, name)
  {
    if matches != [] {
      EachIsValidNext(tool, matches);
      var v := ParseValue(tool, matches[0].0, matches[0].1);
      ParseValueIs(tool, matches[0].0, matches[0].1);
      if v.Ok? {
        LookupPut(args, matches[0].0, v.value, name);
        PutAllReads(tool, matches[1..], Put(args, matches[0].0, v.value), name);
      }
    }
  }

  lemma RequiredAreGiven(tool: ToolSpec, matches: seq<(string, string)>)
    requires PutAll(tool, matches, []).Ok?
    ensures tool.required - Names(PutAll(tool, matches, []).value) == {}
       <==> forall name :: name in tool.required ==> LastText(matches, name).Some?
  {
    var read := PutAll(tool, matches, []).value;
    forall name ensures name in Names(read) <==> LastText(matches, name).Some? {
      PutAllReads(tool, matches, [], name);
      NamedIffFound(read, name);
    }
    if tool.required - Names(read) == {} {
      forall name | name in tool.required ensures name in Names(read) {
        assert name !in tool.required - Names(read);
      }
    }
  }

  /** Parameters are accepted if and only if each of them is valid on its own and every required one
      is given; and then each name has the value of its last text. */
  lemma AcceptedIff(tool: ToolSpec, matches: seq<(string, string)>, name: string)
    ensures var r := ExtractParams(tool, matches);
            && (r.Ok? <==> && EachIsValid(tool, matches)
                           && forall n :: n in tool.required ==> LastText(matches, n).Some?)
            && (r.Ok? ==> IsRead(tool, matches, [], r.value, name))
  {
    PutAllReads(tool, matches, [], name);
    if EachIsValid(tool, matches) {
      RequiredAreGiven(tool, matches);
    }
  }

  /** The first text that is not valid. */
  predicate IsFirstBad(tool: ToolSpec, matches: seq<(string, string)>, i: nat) {
    && i < |matches| && !IsValidText(tool, matches[i].0, matches[i].1)
    && forall k :: 0 <= k < i ==> IsValidText(tool, matches[k].0, matches[k].1)
  }

  lemma {:induction false} FirstBadIsReported(tool: ToolSpec, matches: seq<(string, string)>, args: Args, i: nat)
    requires IsFirstBad(tool, matches, i)
    ensures PutAll(tool, matches, args) == Err(Refusal(tool, matches[i].0, matches[i].1))
    decreases i
  {
    ParseValueIs(tool, matches[0].0, matches[0].1);
    if i > 0 {
      assert forall k :: 0 <= k < |matches| - 1 ==> matches[1..][k] == matches[k + 1];
      FirstBadIsReported(tool, matches[1..],
                         Put(args, matches[0].0, ParseValue(tool, matches[0].0, matches[0].1).value), i - 1);
    }
  }

  /** Refused parameters are refused for the first text that is not valid; or, if all are, for those
      required parameters that were not given. */
  lemma RefusedFor(tool: ToolSpec, matches: seq<(string, string)>)
    requires ExtractParams(tool, matches).Err?
    ensures var error := ExtractParams(tool, matches).error;
            && (forall i: nat :: IsFirstBad(tool, matches, i) ==>
                  error == Refusal(tool, matches[i].0, matches[i].1))
            && (EachIsValid(tool, matches) ==>
                  && error.MissingRequired?
                  && forall name :: name in error.params <==>
                       name in tool.required && LastText(matches, name).None?)
  {
    forall i: nat | IsFirstBad(tool, matches, i)
      ensures ExtractParams(tool, matches) == Err(Refusal(tool, matches[i].0, matches[i].1))
    {
      FirstBadIsReported(tool, matches, [], i);
    }
    if EachIsValid(tool, matches) {
      PutAllReads(tool, matches, [], "");
      var read := PutAll(tool, matches, []).value;
      forall name ensures name in Names(read) <==> LastText(matches, name).Some? {
        PutAllReads(tool, matches, [], name);
        NamedIffFound(read, name);
      }
    }
  }
}
