/** Which parameters are found in any text, whoever wrote it, and which are repaired before. */
module FnCallScan {
  import opened Wrappers
  import opened Text
  import opened FnCallFormat

  /*** Parameters. ***/

  /** An opening, a name of at least one character up to the first bracket, and a closing tag somewhere
      behind it. */
  predicate HasParamAt(s: string, i: nat) {
    i <= |s| && StartsWith(s[i..], "<parameter=")
    && var rest := s[i..][|"<parameter="|..];
       var name := Before(rest, ">");
       name != "" && name != rest && Contains(rest[|name| + 1..], "</parameter>")
  }

  predicate FirstParamAt(s: string, i: nat) {
    HasParamAt(s, i) && forall k :: 0 <= k < i ==> !HasParamAt(s, k)
  }

  /** Its name, its text up to the first closing tag, and what follows that tag. */
  function ParamAt(s: string, i: nat): ParamMatch
    requires HasParamAt(s, i)
  {
    var rest := s[i..][|"<parameter="|..];
    var name := Before(rest, ">");
    var text := Before(rest[|name| + 1..], "</parameter>");
    ParamMatch(name, text, rest[|name| + 1..][|text| + 12..])
  }

  lemma ParamHereIs(s: string)
    ensures ParamMatchHere(s).Some? <==> HasParamAt(s, 0)
    ensures HasParamAt(s, 0) ==> ParamMatchHere(s) == Some(ParamAt(s, 0))
  {
    assert s[0..] == s;
  }

  lemma ParamLater(s: string, k: nat)
    requires s != ""
    ensures HasParamAt(s, k + 1) <==> HasParamAt(s[1..], k)
    ensures HasParamAt(s, k + 1) ==> ParamAt(s, k + 1) == ParamAt(s[1..], k)
  {
    if k + 1 <= |s| {
      assert s[k + 1..] == s[1..][k..];
    }
  }

  /** The first parameter of a text is found, wherever it is, and the search goes on behind it. */
  lemma {:induction false} ParamIsFound(s: string, i: nat)
    requires FirstParamAt(s, i)
    ensures var found := ParamAt(s, i);
            ParamMatches(s) == [(found.name, found.text)] + ParamMatches(found.rest)
    decreases i
  {
    ParamHereIs(s);
    if i > 0 {
      ParamLater(s, i - 1);
      forall k | 0 <= k < i - 1 ensures !HasParamAt(s[1..], k) {
        ParamLater(s, k);
        assert !HasParamAt(s, k + 1);
      }
      ParamIsFound(s[1..], i - 1);
    }
  }

  lemma {:induction false} NoParamIsFound(s: string)
    requires forall i :: 0 <= i <= |s| ==> !HasParamAt(s, i)
    ensures ParamMatches(s) == []
  {
    ParamHereIs(s);
    if s != "" {
      forall i | 0 <= i <= |s[1..]| ensures !HasParamAt(s[1..], i) {
        ParamLater(s, i);
        assert !HasParamAt(s, i + 1);
      }
      NoParamIsFound(s[1..]);
    }
  }

  /*** Malformed parameters. ***/

  predicate IsWord(s: string) {
    s != "" && forall i :: 0 <= i < |s| ==>
      'a' <= s[i] <= 'z' || 'A' <= s[i] <= 'Z' || '0' <= s[i] <= '9' || s[i] == '_'
  }

  /** An opening, a word, an equals sign, and a closing tag before any other tag. */
  predicate HasMalformedAt(s: string, i: nat) {
    i <= |s| && StartsWith(s[i..], "<parameter=")
    && var rest := s[i..][|"<parameter="|..];
       var name := Before(rest, "=");
       IsWord(name) && name != rest
       && var after := rest[|name| + 1..]; StartsWith(after[|Before(after, "<")|..], "</parameter>")
  }

  predicate FirstMalformedAt(s: string, i: nat) {
    HasMalformedAt(s, i) && forall k :: 0 <= k < i ==> !HasMalformedAt(s, k)
  }

  /** Its name, its text, and what follows its closing tag. */
  function MalformedAt(s: string, i: nat): ParamMatch
    requires HasMalformedAt(s, i)
  {
    var rest := s[i..][|"<parameter="|..];
    var name := Before(rest, "=");
    var after := rest[|name| + 1..];
    var text := Before(after, "<");
    ParamMatch(name, text, after[|text| + 12..])
  }

  lemma {:induction false} WordRunIs(s: string)
    ensures forall i :: 0 <= i < WordRun(s) ==> IsWordChar(s[i])
    ensures WordRun(s) < |s| ==> !IsWordChar(s[WordRun(s)])
  {
    if s != "" && IsWordChar(s[0]) {
      WordRunIs(s[1..]);
      assert forall i :: 0 < i < WordRun(s) ==> s[i] == s[1..][i - 1];
    }
  }

  lemma RunEndsAtSign(rest: string)
    requires WordRun(rest) < |rest| && rest[WordRun(rest)] == '='
    ensures Before(rest, "=") == rest[..WordRun(rest)]
  {
    var n := WordRun(rest);
    WordRunIs(rest);
    assert StartsWith(rest[n..], "=");
    forall j | 0 <= j < n ensures !StartsWith(rest[j..], "=") {
      assert rest[j..][0] == rest[j];
    }
    FindIs(rest, "=", n);
  }

  lemma RunIsWord(rest: string)
    requires 0 < WordRun(rest)
    ensures IsWord(rest[..WordRun(rest)])
  {
    WordRunIs(rest);
  }

  lemma WordIsRun(rest: string)
    requires IsWord(Before(rest, "=")) && Before(rest, "=") != rest
    ensures var n := WordRun(rest); n == |Before(rest, "=")| && 0 < n < |rest| && rest[n] == '='
  {
    var n, name := WordRun(rest), Before(rest, "=");
    var m := |name|;
    WordRunIs(rest);
    assert rest[m..][0] == '=' && rest[m] == '=';
    assert forall i :: 0 <= i < m ==> name[i] == rest[i];
  }

  /** A run of word characters up to an equals sign is the word before the first one. */
  lemma NameIsWord(rest: string)
    ensures var n := WordRun(rest);
            var name := Before(rest, "=");
            (0 < n < |rest| && rest[n] == '=') <==> (IsWord(name) && name != rest)
    ensures var n := WordRun(rest);
            0 < n < |rest| && rest[n] == '=' ==> Before(rest, "=") == rest[..n]
  {
    var n := WordRun(rest);
    if 0 < n < |rest| && rest[n] == '=' {
      RunEndsAtSign(rest);
      RunIsWord(rest);
      assert |rest[..n]| < |rest|;
    } else if IsWord(Before(rest, "=")) && Before(rest, "=") != rest {
      WordIsRun(rest);
    }
  }

  lemma MalformedHereIs(s: string)
    ensures MalformedHere(s).Some? <==> HasMalformedAt(s, 0)
    ensures HasMalformedAt(s, 0) ==>
              var m := MalformedAt(s, 0);
              MalformedHere(s) == Some(("<parameter=" + m.name + ">" + m.text + "</parameter>", m.rest))
  {
    assert s[0..] == s;
    if StartsWith(s, "<parameter=") {
      NameIsWord(s[|"<parameter="|..]);
    }
  }

  lemma MalformedLater(s: string, k: nat)
    requires s != ""
    ensures HasMalformedAt(s, k + 1) <==> HasMalformedAt(s[1..], k)
    ensures HasMalformedAt(s, k + 1) ==> MalformedAt(s, k + 1) == MalformedAt(s[1..], k)
  {
    if k + 1 <= |s| {
      assert s[k + 1..] == s[1..][k..];
    }
  }

  lemma Behind(s: string, i: nat, tail: string)
    requires 0 < i <= |s|
    ensures s[..i] + tail == [s[0]] + (s[1..][..i - 1] + tail)
  {
    assert s[..i] == [s[0]] + s[1..][..i - 1];
  }

  /** The first malformed parameter of a text is corrected, what stands before it is left alone, and the
      repair goes on behind it. */
  lemma {:induction false} MalformedIsCorrected(s: string, i: nat)
    requires FirstMalformedAt(s, i)
    ensures var m := MalformedAt(s, i);
            NormalizeParameterTags(s)
            == s[..i] + ("<parameter=" + m.name + ">" + m.text + "</parameter>" + NormalizeParameterTags(m.rest))
    decreases i
  {
    MalformedHereIs(s);
    if i > 0 {
      MalformedLater(s, i - 1);
      forall k | 0 <= k < i - 1 ensures !HasMalformedAt(s[1..], k) {
        MalformedLater(s, k);
        assert !HasMalformedAt(s, k + 1);
      }
      MalformedIsCorrected(s[1..], i - 1);
      var m := MalformedAt(s, i);
      Behind(s, i, "<parameter=" + m.name + ">" + m.text + "</parameter>" + NormalizeParameterTags(m.rest));
    }
  }

  lemma {:induction false} OthersAreLeft(s: string)
    requires forall i :: 0 <= i <= |s| ==> !HasMalformedAt(s, i)
    ensures NormalizeParameterTags(s) == s
  {
    MalformedHereIs(s);
    if s != "" {
      forall i | 0 <= i <= |s[1..]| ensures !HasMalformedAt(s[1..], i) {
        MalformedLater(s, i);
        assert !HasMalformedAt(s, i + 1);
      }
      OthersAreLeft(s[1..]);
      assert [s[0]] + s[1..] == s;
    }
  }
}
