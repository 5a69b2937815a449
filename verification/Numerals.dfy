/** Integers and lists of integers as Python prints and reads them. */
module Numerals {
  import opened Wrappers
  import opened Text

  function DigitChar(d: nat): char
    requires d < 10
  {
    ('0' as int + d) as char
  }

  predicate IsDigit(c: char) {
    '0' <= c <= '9'
  }

  function Digits(n: nat): (s: string)
    ensures s != "" && forall c :: c in s ==> IsDigit(c)
  {
    if n < 10 then [DigitChar(n)] else Digits(n / 10) + [DigitChar(n % 10)]
  }

  /** str(n) */
  function IntText(n: int): string {
    if n < 0 then "-" + Digits(-n) else Digits(n)
  }

  /** Decimal digits, single underscores between them allowed. */
  function DigitsValue(s: string): Option<nat> {
    if s == "" || !IsDigit(s[|s| - 1]) then None
    else
      var d := s[|s| - 1] as int - '0' as int;
      var front := s[..|s| - 1];
      if front == "" then Some(d)
      else
        var more := DigitsValue(if front[|front| - 1] == '_' then front[..|front| - 1] else front);
        if more.None? then None else Some(10 * more.value + d)
  }

  /** int(s), for ASCII digits */
  function ParseInt(text: string): Option<int> {
    var s: string := Strip(text);
    if s == "" then None
    else if s[0] == '-' then
      var v := DigitsValue(s[1..]);
      if v.None? then None else Some(0 - v.value)
    else
      var v := DigitsValue(if s[0] == '+' then s[1..] else s);
      if v.None? then None else Some(v.value)
  }

  /** Digits, with single underscores between them. */
  predicate IsNumeral(s: string) {
    && s != "" && '0' <= s[0] <= '9' && '0' <= s[|s| - 1] <= '9'
    && (forall i :: 0 <= i < |s| ==> '0' <= s[i] <= '9' || s[i] == '_')
    && (forall i :: 0 < i < |s| ==> s[i] != '_' || s[i - 1] != '_')
  }

  lemma {:induction false} IsNumeralIff(s: string)
    ensures DigitsValue(s).Some? <==> IsNumeral(s)
    decreases |s|
  {
    if s != "" && IsDigit(s[|s| - 1]) {
      var front := s[..|s| - 1];
      if front != "" {
        var more := if front[|front| - 1] == '_' then front[..|front| - 1] else front;
        IsNumeralIff(more);
        assert forall i :: 0 <= i < |more| ==> more[i] == s[i];
        if IsNumeral(more) {
          NumeralGrows(s, more);
        }
      }
    }
  }

  lemma NumeralGrows(s: string, more: string)
    requires IsNumeral(more) && |more| < |s| && more == s[..|more|] && IsDigit(s[|s| - 1])
    requires |s| == |more| + 1 || (|s| == |more| + 2 && s[|more|] == '_')
    ensures IsNumeral(s)
  {
  }

  /** One more digit, behind an underscore or not, counts ten times what was before it. */
  lemma NumeralValue(s: string, c: char)
    requires IsNumeral(s) && '0' <= c <= '9'
    ensures DigitsValue(s).Some? && DigitsValue([c]) == Some(c as int - '0' as int)
    ensures DigitsValue(s + [c]) == Some(10 * DigitsValue(s).value + (c as int - '0' as int))
    ensures DigitsValue(s + ['_', c]) == DigitsValue(s + [c])
  {
    IsNumeralIff(s);
    assert (s + [c])[..|s|] == s;
    assert (s + ['_', c])[..|s| + 1] == s + ['_'] && (s + ['_'])[..|s|] == s;
  }

  /** Which texts are integers: a numeral with a sign or without, and white space around it. */
  predicate IsIntText(text: string) {
    var s := Strip(text);
    IsNumeral(s) || (s != "" && (s[0] == '-' || s[0] == '+') && IsNumeral(s[1..]))
  }

  lemma ParseIntIff(text: string)
    ensures ParseInt(text).Some? <==> IsIntText(text)
    ensures IsIntText(text) ==>
              var s := Strip(text);
              && DigitsValue(if s[0] == '-' || s[0] == '+' then s[1..] else s).Some?
              && (var n := DigitsValue(if s[0] == '-' || s[0] == '+' then s[1..] else s).value;
                  ParseInt(text) == Some(if s[0] == '-' then 0 - n else n))
  {
    var s := Strip(text);
    if s != "" {
      IsNumeralIff(s[1..]);
      IsNumeralIff(s);
    }
  }

  lemma {:induction false} DigitsRoundTrip(n: nat)
    ensures DigitsValue(Digits(n)) == Some(n)
  {
    if n >= 10 {
      DigitsRoundTrip(n / 10);
      var s := Digits(n);
      assert s[..|s| - 1] == Digits(n / 10);
      assert IsDigit(Digits(n / 10)[|Digits(n / 10)| - 1]);
    }
  }

  lemma {:induction false} StripNothing(s: string)
    requires s == "" || (!IsSpace(s[0]) && !IsSpace(s[|s| - 1]))
    ensures Strip(s) == s
  {
  }

  lemma IntRoundTrip(n: int)
    ensures ParseInt(IntText(n)) == Some(n)
  {
    var s := IntText(n);
    var m := if n < 0 then -n else n;
    DigitsRoundTrip(m);
    assert IsDigit(Digits(m)[0]) && IsDigit(Digits(m)[|Digits(m)| - 1]);
    StripNothing(s);
    if n < 0 {
      assert s[1..] == Digits(m);
    }
  }

  /*** Lists, as JSON. ***/

  predicate IsJsonSpace(c: char) {
    c == ' ' || c == '\t' || c == '\n' || c == '\r'
  }

  function JsonTrimLeft(s: string): string {
    if s != "" && IsJsonSpace(s[0]) then JsonTrimLeft(s[1..]) else s
  }

  function JsonTrimRight(s: string): string {
    if s != "" && IsJsonSpace(s[|s| - 1]) then JsonTrimRight(s[..|s| - 1]) else s
  }

  function JsonTrim(s: string): string {
    JsonTrimRight(JsonTrimLeft(s))
  }

  /** A JSON integer has no sign but a minus, no leading zero and no underscore. */
  function ParseJsonInt(piece: string): Option<int> {
    var s := JsonTrim(piece);
    var v := ParseInt(s);
    if v.None? || (s != IntText(v.value) && s != "-0") then None else v
  }

  function ParseJsonInts(pieces: seq<string>): Option<seq<int>> {
    if pieces == [] then Some([])
    else
      var first, rest := ParseJsonInt(pieces[0]), ParseJsonInts(pieces[1..]);
      if first.None? || rest.None? then None else Some([first.value] + rest.value)
  }

  /** json.loads(text), for lists of integers */
  function ParseIntList(text: string): Option<seq<int>> {
    var s := JsonTrim(text);
    if |s| < 2 || s[0] != '[' || s[|s| - 1] != ']' then None
    else
      var inner := s[1..|s| - 1];
      if JsonTrim(inner) == "" then Some([]) else ParseJsonInts(Split(inner, ','))
  }

  function CommaSeparated(ns: seq<int>): string {
    if ns == [] then ""
    else if |ns| == 1 then IntText(ns[0])
    else IntText(ns[0]) + ", " + CommaSeparated(ns[1..])
  }

  /** json.dumps(ns) */
  function IntListText(ns: seq<int>): string {
    "[" + CommaSeparated(ns) + "]"
  }

  lemma {:induction false} SplitPiece(a: string, b: string)
    requires ',' !in a
    ensures Split(a + "," + b, ',') == [a] + Split(b, ',')
    ensures Split(a, ',') == [a]
  {
    var s := a + "," + b;
    if a == "" {
      assert s[1..] == b;
    } else {
      assert s[1..] == a[1..] + "," + b;
      SplitPiece(a[1..], b);
      assert [s[0]] + a[1..] == a;
    }
  }

  lemma IntTextIsPlain(n: int)
    ensures var s := IntText(n);
            s != "" && ',' !in s && (forall c :: c in s ==> !IsJsonSpace(c) && c != '<' && c != '\n')
  {
    var m := if n < 0 then -n else n;
    assert forall c :: c in Digits(m) ==> IsDigit(c);
  }

  lemma JsonIntRoundTrip(n: int)
    ensures ParseJsonInt(IntText(n)) == Some(n) && ParseJsonInt(" " + IntText(n)) == Some(n)
  {
    var s := IntText(n);
    IntTextIsPlain(n);
    IntRoundTrip(n);
    assert s[0] in s && s[|s| - 1] in s;
    assert JsonTrim(s) == s;
    assert (" " + s)[1..] == s;
    assert JsonTrim(" " + s) == s;
  }

  lemma ParseNextPiece(piece: string, pieces: seq<string>, n: int, ns: seq<int>)
    requires ParseJsonInt(piece) == Some(n) && ParseJsonInts(pieces) == Some(ns)
    ensures ParseJsonInts([piece] + pieces) == Some([n] + ns)
  {
  }

  lemma LedIntRoundTrip(lead: string, n: int)
    requires lead == "" || lead == " "
    ensures ',' !in lead + IntText(n) && ParseJsonInt(lead + IntText(n)) == Some(n)
  {
    IntTextIsPlain(n);
    JsonIntRoundTrip(n);
    assert "" + IntText(n) == IntText(n);
  }

  function Pieces(ns: seq<int>, lead: string): seq<string>
    requires ns != []
  {
    [lead + IntText(ns[0])] + if |ns| == 1 then [] else Pieces(ns[1..], " ")
  }

  lemma FirstPiece(ns: seq<int>, lead: string)
    requires |ns| > 1
    ensures lead + CommaSeparated(ns) == lead + IntText(ns[0]) + "," + (" " + CommaSeparated(ns[1..]))
  {
    JoinPieces(lead, IntText(ns[0]), ",", " ", CommaSeparated(ns[1..]));
    assert ", " == "," + " ";
  }

  lemma JoinPieces(lead: string, first: string, comma: string, space: string, rest: string)
    ensures lead + (first + (comma + space) + rest) == lead + first + comma + (space + rest)
  {
  }

  lemma {:induction false} SplitsIntoPieces(ns: seq<int>, lead: string)
    requires ns != [] && (lead == "" || lead == " ")
    ensures Split(lead + CommaSeparated(ns), ',') == Pieces(ns, lead)
  {
    var s := lead + IntText(ns[0]);
    LedIntRoundTrip(lead, ns[0]);
    if |ns| == 1 {
      SplitPiece(s, "");
      assert lead + CommaSeparated(ns) == s;
    } else {
      var rest := " " + CommaSeparated(ns[1..]);
      SplitPiece(s, rest);
      FirstPiece(ns, lead);
      SplitsIntoPieces(ns[1..], " ");
    }
  }

  lemma {:induction false} PiecesRoundTrip(ns: seq<int>, lead: string)
    requires ns != [] && (lead == "" || lead == " ")
    ensures ParseJsonInts(Pieces(ns, lead)) == Some(ns)
  {
    var s := lead + IntText(ns[0]);
    LedIntRoundTrip(lead, ns[0]);
    var more := if |ns| == 1 then [] else Pieces(ns[1..], " ");
    assert ParseJsonInts(more) == Some(ns[1..]) by {
      if |ns| == 1 {
        assert ns[1..] == [];
      } else {
        PiecesRoundTrip(ns[1..], " ");
      }
    }
    ParseNextPiece(s, more, ns[0], ns[1..]);
    assert Pieces(ns, lead) == [s] + more;
    assert ns == [ns[0]] + ns[1..];
  }

  lemma {:induction false} CommaSeparatedIsPlain(ns: seq<int>)
    ensures forall c :: c in CommaSeparated(ns) ==> c != '<' && c != '\n'
    ensures ns != [] ==> CommaSeparated(ns) != "" && !IsJsonSpace(CommaSeparated(ns)[0])
  {
    if ns != [] {
      IntTextIsPlain(ns[0]);
      assert IntText(ns[0])[0] in IntText(ns[0]);
      CommaSeparatedIsPlain(ns[1..]);
    }
  }

  lemma IntListRoundTrip(ns: seq<int>)
    ensures ParseIntList(IntListText(ns)) == Some(ns)
  {
    var s := IntListText(ns);
    var inner := CommaSeparated(ns);
    assert s[0] == '[' && s[|s| - 1] == ']' && s[1..|s| - 1] == inner;
    assert JsonTrim(s) == s;
    if ns != [] {
      CommaSeparatedIsPlain(ns);
      assert JsonTrimLeft(inner) == inner;
      TrimKeepsFirst(inner);
      SplitsIntoPieces(ns, "");
      PiecesRoundTrip(ns, "");
      assert "" + inner == inner;
    }
  }

  lemma {:induction false} TrimKeepsFirst(s: string)
    requires s != "" && !IsJsonSpace(s[0])
    ensures JsonTrimRight(s) != ""
    decreases |s|
  {
    if IsJsonSpace(s[|s| - 1]) {
      TrimKeepsFirst(s[..|s| - 1]);
    }
  }
}
