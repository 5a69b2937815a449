/** Finding a printed call in a message, complete or cut off anywhere in its closing tag. */
module FnCallStopword {
  import opened Wrappers
  import opened Text
  import opened FnCallFormat
  import opened FnCallRoundTrip

  /** The call in a message of the assistant. */
  function ParseContent(tools: seq<ToolSpec>, content: string): Option<Result<Call, ConversionError>> {
    var found := FnSearch(FixStopword(content));
    if found.None? then None else Some(ParseMatch(tools, found.value))
  }

  predicate NoneOpened(pre: string, rest: string) {
    forall i :: 0 <= i < |pre| ==> !StartsWith((pre + rest)[i..], FN_OPEN)
  }

  lemma NoneOpenedNext(pre: string, rest: string)
    requires pre != "" && NoneOpened(pre, rest)
    ensures !StartsWith(pre + rest, FN_OPEN) && NoneOpened(pre[1..], rest)
  {
    DropNone(pre + rest);
    forall i | 0 <= i < |pre[1..]| ensures !StartsWith((pre[1..] + rest)[i..], FN_OPEN) {
      DropMore(pre, rest, i);
    }
  }

  lemma {:induction false} SearchSkips(pre: string, rest: string)
    requires NoneOpened(pre, rest) && FnMatchHere(rest).Some?
    ensures FnSearch(pre + rest) == FnMatchHere(rest)
    decreases |pre|
  {
    if pre == "" {
      JoinNone(rest);
    } else {
      NoneOpenedNext(pre, rest);
      DropFirst(pre, rest);
      SearchSkips(pre[1..], rest);
    }
  }

  lemma NameEndsLine(name: string, after: string)
    requires PlainName(name)
    ensures Find(name + (">\n" + after), ">") == Some(|name|)
  {
    var rest := "\n" + after;
    BracketThenBreak(after);
    NameEnds(name, rest);
  }

  lemma BracketThenBreak(after: string)
    ensures ">" + ("\n" + after) == ">\n" + after
  {
  }

  lemma BehindName(name: string, after: string)
    ensures var rest := name + (">\n" + after);
            StartsWith(rest[|name|..], ">\n") && rest[..|name|] == name && rest[|name| + 2..] == after
  {
    DropPrefix(name, ">\n" + after);
    PrefixStarts(">\n", after);
    DropPrefix(">\n", after);
    DropTwice(name + (">\n" + after), |name|, 2);
  }

  lemma BodyEnds(body: string, post: string)
    requires !Contains(body, FN_CLOSE)
    ensures Find(body + (FN_CLOSE + post), FN_CLOSE) == Some(|body|)
  {
    MarkerShape(FN_CLOSE);
    PrefixStarts(FN_CLOSE, post);
    FindAfter(body, FN_CLOSE + post, FN_CLOSE);
  }

  lemma MatchHere(name: string, body: string, post: string)
    requires PlainName(name) && !Contains(body, FN_CLOSE)
    ensures FnMatchHere(FN_OPEN + (name + (">\n" + (body + (FN_CLOSE + post))))) == Some(FnMatch(name, body))
  {
    var rest := name + (">\n" + (body + (FN_CLOSE + post)));
    NameEndsLine(name, body + (FN_CLOSE + post));
    BehindName(name, body + (FN_CLOSE + post));
    BodyEnds(body, post);
    PrefixStarts(FN_OPEN, rest);
    DropPrefix(FN_OPEN, rest);
    TakePrefix(body, FN_CLOSE + post);
  }

  /** The first call in a message is found behind any text that does not open one. */
  lemma CallIsFound(pre: string, name: string, body: string, post: string)
    requires !Contains(pre, FN_OPEN) && PlainName(name) && !Contains(body, FN_CLOSE)
    ensures FnSearch(pre + (FN_OPEN + (name + (">\n" + (body + (FN_CLOSE + post))))))
         == Some(FnMatch(name, body))
  {
    var rest := FN_OPEN + (name + (">\n" + (body + (FN_CLOSE + post))));
    MatchHere(name, body, post);
    MarkerShape(FN_OPEN);
    assert rest[0] == '<';
    forall i | 0 <= i < |pre| ensures !StartsWith((pre + rest)[i..], FN_OPEN) {
      NoStraddle(pre, rest, FN_OPEN, i);
    }
    SearchSkips(pre, rest);
  }

  /*** Cutting the closing tag, and repairing it. ***/

  function CallHead(name: string, args: Args): string {
    FN_OPEN + name + ">\n" + ParamsText(args)
  }

  /** A message that ends with a call, of whose closing tag only k characters arrived. */
  function Cut(pre: string, name: string, args: Args, k: nat): string
    requires k <= |FN_CLOSE|
  {
    pre + CallHead(name, args) + FN_CLOSE[..k]
  }

  /** What the repaired message has after the last parameter of the call. */
  function CutTail(k: nat): string
    requires k <= |FN_CLOSE|
  {
    if k == 2 || k == |FN_CLOSE| then "" else FN_CLOSE[..k] + "\n"
  }

  function CutPost(k: nat): string {
    if k == |FN_CLOSE| then "\n</function>" else ""
  }

  lemma CutTailIsMarkerFree(k: nat)
    requires k <= |FN_CLOSE|
    ensures MarkerFree(CutTail(k))
  {
    forall m | IsMarker(m) ensures !Contains(CutTail(k), m) {
      if k != 2 && k != |FN_CLOSE| {
        TagPrefixIsMarkerFree(k, m);
      } else {
        NoBracket("", m);
      }
    }
  }

  lemma TagPrefixIsMarkerFree(k: nat, m: string)
    requires k < |FN_CLOSE| && IsMarker(m)
    ensures !Contains(FN_CLOSE[..k] + "\n", m)
  {
    var s := FN_CLOSE[..k] + "\n";
    MarkerShape(m);
    forall i | 0 <= i <= |s| ensures !StartsWith(s[i..], m) {
      if StartsWith(s[i..], m) {
        StartsWithFirst(s[i..], m);
        if i == 0 {
          assert s[0..] == s;
          if m == FN_CLOSE {
            StartsWithAt(s, m, |m| - 1);
          } else {
            StartsWithAt(s, m, 1);
          }
        }
      }
    }
    FindIsNone(s, m);
  }

  lemma {:induction false} ParamsEndLine(args: Args)
    requires args != []
    ensures ParamsText(args) != "" && ParamsText(args)[|ParamsText(args)| - 1] == '\n'
  {
    var n := |args| - 1;
    assert args == args[..n] + [(args[n].0, args[n].1)];
    ParamsTextSnoc(args[..n], args[n].0, args[n].1);
    var line := ParamLine(args[n].0, args[n].1);
    assert line[|line| - 1] == '\n';
  }

  lemma HeadEndsLine(name: string, args: Args)
    ensures CallHead(name, args)[|CallHead(name, args)| - 1] == '\n'
  {
    if args != [] {
      ParamsEndLine(args);
    }
  }

  lemma EndsWithSlash(s: string)
    ensures EndsWith(s, "</") <==> |s| >= 2 && s[|s| - 2] == '<' && s[|s| - 1] == '/'
  {
    if |s| >= 2 {
      var t := s[|s| - 2..];
      assert t == [s[|s| - 2], s[|s| - 1]];
    }
  }

  /** Only the cut behind the </ looks like it. */
  lemma CutEnding(pre: string, name: string, args: Args, k: nat)
    requires k <= |FN_CLOSE|
    ensures EndsWith(Cut(pre, name, args, k), "</") <==> k == 2
  {
    var s := Cut(pre, name, args, k);
    EndsWithSlash(s);
    if k == 0 {
      HeadEndsLine(name, args);
      assert s == pre + CallHead(name, args);
    } else {
      assert s[|s| - 1] == FN_CLOSE[k - 1];
      if k == 2 {
        assert s[|s| - 2] == FN_CLOSE[0];
      }
    }
  }

  lemma TagPrefixOpensNothing(k: nat)
    requires k <= |FN_CLOSE|
    ensures !Contains(FN_CLOSE[..k], FN_OPEN)
  {
    var s := FN_CLOSE[..k];
    forall i | 0 <= i <= |s| ensures !StartsWith(s[i..], FN_OPEN) {
      if StartsWith(s[i..], FN_OPEN) {
        StartsWithAt(s[i..], FN_OPEN, 0);
        StartsWithAt(s[i..], FN_OPEN, 1);
      }
    }
    FindIsNone(s, FN_OPEN);
  }

  /** What follows the opening of the call opens no other one. */
  lemma OneOpening(name: string, args: Args, k: nat)
    requires PlainName(name) && Printable(args) && k <= |FN_CLOSE|
    ensures !Contains(name + (">\n" + (ParamsText(args) + FN_CLOSE[..k])), FN_OPEN)
  {
    TagPrefixOpensNothing(k);
    ParamsFree(args, FN_CLOSE[..k], FN_OPEN);
    BehindTag(">\n", ParamsText(args) + FN_CLOSE[..k], FN_OPEN, 0);
    forall i | 0 <= i < |name| ensures name[i] != '<' {
      assert name[i] in name;
    }
    BehindTag(name, ">\n" + (ParamsText(args) + FN_CLOSE[..k]), FN_OPEN, 0);
  }

  lemma MarkerIsFound(pre: string, m: string, rest: string)
    requires m != "" && !Contains(pre, m) && m[0] !in m[1..]
    ensures Find(pre + (m + rest), m) == Some(|pre|)
    ensures (pre + (m + rest))[|pre| + |m|..] == rest
  {
    PrefixStarts(m, rest);
    FindAfter(pre, m + rest, m);
  }

  /** A message with one opening is repaired. */
  lemma OneOpeningIsRepaired(pre: string, rest: string)
    requires !Contains(pre, FN_OPEN) && !Contains(rest, FN_OPEN)
    ensures var s := pre + (FN_OPEN + rest);
            FixStopword(s) == if EndsWith(s, "</") then RStrip(s) + "function>" else s + "\n</function>"
  {
    MarkerShape(FN_OPEN);
    MarkerIsFound(pre, FN_OPEN, rest);
  }

  lemma RegroupCut(pre: string, a: string, b: string, c: string, d: string, e: string)
    ensures pre + (a + b + c + d) + e == pre + (a + (b + (c + (d + e))))
  {
  }

  lemma CutIsFixed(pre: string, name: string, args: Args, k: nat)
    requires !Contains(pre, FN_OPEN) && PlainName(name) && Printable(args) && k <= |FN_CLOSE|
    ensures var s := Cut(pre, name, args, k);
            FixStopword(s) == if EndsWith(s, "</") then RStrip(s) + "function>" else s + "\n</function>"
  {
    RegroupCut(pre, FN_OPEN, name, ">\n", ParamsText(args), FN_CLOSE[..k]);
    OneOpening(name, args, k);
    OneOpeningIsRepaired(pre, name + (">\n" + (ParamsText(args) + FN_CLOSE[..k])));
  }

  lemma SlashIsKept(s: string)
    requires EndsWith(s, "</")
    ensures RStrip(s) == s
  {
    EndsWithSlash(s);
    assert s[|s| - 1] == '/';
  }

  lemma CutIsRepaired(pre: string, name: string, args: Args, k: nat)
    requires !Contains(pre, FN_OPEN) && PlainName(name) && Printable(args) && k <= |FN_CLOSE|
    ensures FixStopword(Cut(pre, name, args, k))
         == if k == 2 then Cut(pre, name, args, k) + "function>" else Cut(pre, name, args, k) + "\n</function>"
  {
    CutIsFixed(pre, name, args, k);
    CutEnding(pre, name, args, k);
    if k == 2 {
      SlashIsKept(Cut(pre, name, args, k));
    }
  }

  lemma JoinCut(head: string, a: string, b: string, c: string)
    requires a + b == c
    ensures head + a + b == head + c
  {
  }

  lemma CutTailJoins(k: nat)
    requires k <= |FN_CLOSE|
    ensures FN_CLOSE[..k] + (if k == 2 then "function>" else "\n</function>")
         == CutTail(k) + (FN_CLOSE + CutPost(k))
  {
    if k == 2 {
      assert FN_CLOSE[..2] + "function>" == FN_CLOSE;
    } else if k == |FN_CLOSE| {
      assert FN_CLOSE[..k] == FN_CLOSE;
    } else {
      assert "\n" + FN_CLOSE == "\n</function>";
    }
  }

  lemma RegroupRepair(pre: string, a: string, b: string, c: string, d: string, e: string, f: string)
    ensures pre + (a + b + c + d) + (e + f) == pre + (a + (b + (c + ((d + e) + f))))
  {
  }

  /** The repaired message holds a whole call. */
  lemma RepairIsWhole(pre: string, name: string, args: Args, k: nat)
    requires !Contains(pre, FN_OPEN) && PlainName(name) && Printable(args) && k <= |FN_CLOSE|
    ensures FixStopword(Cut(pre, name, args, k))
         == pre + (FN_OPEN + (name + (">\n" + ((ParamsText(args) + CutTail(k)) + (FN_CLOSE + CutPost(k))))))
  {
    CutIsRepaired(pre, name, args, k);
    CutTailJoins(k);
    JoinCut(pre + CallHead(name, args), FN_CLOSE[..k], if k == 2 then "function>" else "\n</function>",
            CutTail(k) + (FN_CLOSE + CutPost(k)));
    RegroupRepair(pre, FN_OPEN, name, ">\n", ParamsText(args), CutTail(k), FN_CLOSE + CutPost(k));
  }

  /** The repair is transparent: wherever in its closing tag a printed call is cut off, it is read
      as the same call as the whole one, and refused exactly when that is refused. */
  lemma StopwordRepairIsTransparent(tools: seq<ToolSpec>, pre: string, name: string, args: Args, k: nat)
    requires !Contains(pre, FN_OPEN) && PlainName(name)
    requires Printable(args) && DistinctNames(args) && k <= |FN_CLOSE|
    requires FindTool(tools, name).Some? && Declared(FindTool(tools, name).value, args)
    ensures var tool := FindTool(tools, name).value;
            var call := ParseContent(tools, Cut(pre, name, args, k));
            && call.Some?
            && (call.value.Ok? <==> EnumsAllow(tool, args) && tool.required <= Names(args))
            && (call.value.Ok? ==> call.value.value == Call(name, ReturnedArgs(args)))
  {
    RepairIsWhole(pre, name, args, k);
    CutTailIsMarkerFree(k);
    ParamsFree(args, CutTail(k), FN_CLOSE);
    CallIsFound(pre, name, ParamsText(args) + CutTail(k), CutPost(k));
    CallReadsBack(tools, name, args, CutTail(k));
  }
}
