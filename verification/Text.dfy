/** Python's string operations, on sequences of characters. */
module Text {
  import opened Wrappers

  predicate StartsWith(s: string, m: string) {
    |m| <= |s| && s[..|m|] == m
  }

  predicate EndsWith(s: string, m: string) {
    |m| <= |s| && s[|s| - |m|..] == m
  }

  /** Where m occurs first. */
  function Find(s: string, m: string): (r: Option<nat>)
    ensures r.Some? ==> r.value <= |s| && StartsWith(s[r.value..], m)
  {
    if StartsWith(s, m) then Some(0)
    else if s == "" then None
    else
      var r := Find(s[1..], m);
      if r.None? then None else Some(r.value + 1)
  }

  predicate Contains(s: string, m: string) {
    Find(s, m).Some?
  }

  /** s.split(m)[0] */
  function Before(s: string, m: string): string {
    var r := Find(s, m);
    if r.None? then s else s[..r.value]
  }

  /** s.replace(m, '', 1) */
  function RemoveFirst(s: string, m: string): string {
    var r := Find(s, m);
    if r.None? then s else s[..r.value] + s[r.value + |m|..]
  }

  /** s.split(c) */
  function Split(s: string, c: char): (pieces: seq<string>)
    ensures pieces != []
  {
    if s == "" then [""]
    else
      var rest := Split(s[1..], c);
      if s[0] == c then [""] + rest else [[s[0]] + rest[0]] + rest[1..]
  }

  /** The pieces with the separator between them again. */
  function Joined(pieces: seq<string>, c: char): string {
    if pieces == [] then "" else if |pieces| == 1 then pieces[0] else pieces[0] + [c] + Joined(pieces[1..], c)
  }

  /** The pieces are what stands between the separators. */
  lemma {:induction false} SplitIs(s: string, c: char)
    ensures Joined(Split(s, c), c) == s
    ensures forall i :: 0 <= i < |Split(s, c)| ==> c !in Split(s, c)[i]
  {
    if s != "" {
      var rest := Split(s[1..], c);
      SplitIs(s[1..], c);
      if s[0] == c {
        assert ([""] + rest)[1..] == rest;
      } else {
        FirstGrows(rest, s[0], c);
      }
    }
  }

  lemma FirstGrows(pieces: seq<string>, d: char, c: char)
    requires pieces != []
    ensures Joined([[d] + pieces[0]] + pieces[1..], c) == [d] + Joined(pieces, c)
  {
    var longer := [[d] + pieces[0]] + pieces[1..];
    assert longer[1..] == pieces[1..];
  }

  /** The characters str.strip() removes. */
  predicate IsSpace(c: char) {
    var n := c as int;
    || 9 <= n <= 13 || 28 <= n <= 32 || n == 0x85 || n == 0xA0 || n == 0x1680
    || 0x2000 <= n <= 0x200A || n == 0x2028 || n == 0x2029 || n == 0x202F || n == 0x205F || n == 0x3000
  }

  function LStrip(s: string): string {
    if s != "" && IsSpace(s[0]) then LStrip(s[1..]) else s
  }

  function RStrip(s: string): string {
    if s != "" && IsSpace(s[|s| - 1]) then RStrip(s[..|s| - 1]) else s
  }

  function Strip(s: string): string {
    RStrip(LStrip(s))
  }

  /*** Where markers can and cannot occur. ***/

  /** An occurrence is never before the first one. */
  lemma {:induction false} FindIsFirst(s: string, m: string, i: nat)
    requires i <= |s| && StartsWith(s[i..], m)
    ensures Find(s, m).Some? && Find(s, m).value <= i
  {
    if !StartsWith(s, m) {
      assert i > 0 by { assert s[0..] == s; }
      assert s[1..][i - 1..] == s[i..];
      FindIsFirst(s[1..], m, i - 1);
    }
  }

  /** The first occurrence is where m occurs and did not occur before. */
  lemma {:induction false} FindIs(s: string, m: string, i: nat)
    requires i <= |s| && StartsWith(s[i..], m)
    requires forall j :: 0 <= j < i ==> !StartsWith(s[j..], m)
    ensures Find(s, m) == Some(i)
  {
    FindIsFirst(s, m, i);
    assert s[0..] == s;
  }

  lemma FindIsNone(s: string, m: string)
    requires forall j :: 0 <= j <= |s| ==> !StartsWith(s[j..], m)
    ensures Find(s, m) == None
  {
  }

  lemma NotContained(s: string, m: string, i: nat)
    requires !Contains(s, m) && i <= |s|
    ensures !StartsWith(s[i..], m)
  {
    if StartsWith(s[i..], m) {
      FindIsFirst(s, m, i);
    }
  }

  /** What an occurrence that runs from v into what follows it has in common with it. */
  lemma StraddlingChar(v: string, rest: string, m: string, i: nat)
    requires i < |v| < i + |m| && StartsWith((v + rest)[i..], m)
    ensures rest != "" && rest[0] in m[1..]
  {
    var k := |v| - i;
    assert (v + rest)[i..][..|m|][k] == rest[0];
    assert m[1..][k - 1] == m[k];
  }

  /** A marker that is not in v, and cannot run from v into what follows, does not start in v. */
  lemma NoStraddle(v: string, rest: string, m: string, i: nat)
    requires m != "" && !Contains(v, m) && i < |v|
    requires rest != "" ==> rest[0] !in m[1..]
    ensures !StartsWith((v + rest)[i..], m)
  {
    if StartsWith((v + rest)[i..], m) {
      if i + |m| <= |v| {
        assert (v + rest)[i..][..|m|] == v[i..][..|m|];
        NotContained(v, m, i);
      } else {
        StraddlingChar(v, rest, m, i);
      }
    }
  }

  /** So the first occurrence in v + rest is at the start of rest, if rest starts with it. */
  lemma FindAfter(v: string, rest: string, m: string)
    requires m != "" && !Contains(v, m) && StartsWith(rest, m) && m[0] !in m[1..]
    ensures Find(v + rest, m) == Some(|v|)
  {
    assert rest[0] == rest[..|m|][0] == m[0];
    forall j | 0 <= j < |v| ensures !StartsWith((v + rest)[j..], m) {
      NoStraddle(v, rest, m, j);
    }
    assert (v + rest)[|v|..] == rest;
    FindIs(v + rest, m, |v|);
  }

  /** A marker starts where its first character is. */
  lemma StartsWithFirst(s: string, m: string)
    requires m != "" && StartsWith(s, m)
    ensures s != "" && s[0] == m[0]
  {
    assert s[..|m|][0] == s[0];
  }

  lemma FirstCharIn(s: string, m: string)
    requires m != "" && Contains(s, m)
    ensures m[0] in s
  {
    StartsWithFirst(s[Find(s, m).value..], m);
  }

  lemma StartsWithAt(s: string, m: string, k: nat)
    requires StartsWith(s, m) && k < |m|
    ensures s[k] == m[k]
  {
    assert s[..|m|][k] == s[k];
  }

  /** Taking a text that is followed by another apart from the front. */
  lemma DropFirst(a: string, b: string)
    requires a != ""
    ensures (a + b)[0] == a[0] && (a + b)[1..] == a[1..] + b
  {
  }

  lemma DropMore(a: string, b: string, i: nat)
    requires a != "" && i <= |a[1..] + b|
    ensures (a[1..] + b)[i..] == (a + b)[i + 1..]
  {
  }

  lemma JoinFirst(a: string, b: string)
    requires a != ""
    ensures [a[0]] + (a[1..] + b) == a + b
  {
  }

  lemma DropPrefix(a: string, b: string)
    ensures (a + b)[|a|..] == b
  {
  }

  lemma TakePrefix(a: string, b: string)
    ensures (a + b)[..|a|] == a
  {
  }

  lemma JoinThree(a: string, b: string, c: string)
    ensures a + (b + c) == a + b + c
  {
  }

  lemma DropTwice(s: string, i: nat, j: nat)
    requires i + j <= |s|
    ensures s[i..][j..] == s[i + j..]
  {
  }

  lemma DropNone(s: string)
    ensures s[0..] == s
  {
  }

  lemma JoinNone(s: string)
    ensures "" + s == s
  {
  }

  lemma PrefixStarts(m: string, rest: string)
    ensures StartsWith(m + rest, m)
  {
  }

  /*** Stripping. ***/

  predicate Blank(s: string) {
    forall c :: c in s ==> IsSpace(c)
  }

  lemma {:induction false} LStripBlank(a: string, b: string)
    requires Blank(a)
    ensures LStrip(a + b) == LStrip(b)
  {
    if a == "" {
      assert a + b == b;
    } else {
      assert (a + b)[1..] == a[1..] + b;
      assert a[0] in a;
      LStripBlank(a[1..], b);
    }
  }

  /** Stripping on the left only looks at s, unless s is blank. */
  lemma {:induction false} LStripPrefix(s: string, rest: string)
    requires !Blank(s)
    ensures LStrip(s + rest) == LStrip(s) + rest
  {
    if IsSpace(s[0]) {
      assert (s + rest)[1..] == s[1..] + rest;
      assert s == [s[0]] + s[1..];
      LStripPrefix(s[1..], rest);
    }
  }

  lemma {:induction false} RStripBlank(a: string, b: string)
    requires Blank(b)
    ensures RStrip(a + b) == RStrip(a)
    decreases |b|
  {
    if b == "" {
      assert a + b == a;
    } else {
      assert (a + b)[..|a + b| - 1] == a + b[..|b| - 1];
      assert b[|b| - 1] in b;
      RStripBlank(a, b[..|b| - 1]);
    }
  }

  lemma {:induction false} LStripOfBlank(s: string)
    requires Blank(s)
    ensures LStrip(s) == ""
  {
    if s != "" {
      assert s[0] in s;
      LStripOfBlank(s[1..]);
    }
  }

  lemma {:induction false} LStripTwice(s: string)
    ensures LStrip(LStrip(s)) == LStrip(s)
  {
    if s != "" && IsSpace(s[0]) {
      LStripTwice(s[1..]);
    }
  }

  /** What is left is a tail. */
  lemma {:induction false} LStripIsTail(s: string)
    ensures |LStrip(s)| <= |s| && LStrip(s) == s[|s| - |LStrip(s)|..]
  {
    if s != "" && IsSpace(s[0]) {
      LStripIsTail(s[1..]);
      var n := |s| - |LStrip(s)|;
      assert s[1..][n - 1..] == s[n..];
    }
  }

  /** A tail of a text without m is without m. */
  lemma TailContainsNot(s: string, m: string, k: nat)
    requires k <= |s| && !Contains(s, m)
    ensures !Contains(s[k..], m)
  {
    if Contains(s[k..], m) {
      var i := Find(s[k..], m).value;
      assert s[k..][i..] == s[k + i..];
      FindIsFirst(s, m, k + i);
    }
  }
}
