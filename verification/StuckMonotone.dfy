/** Being stuck is a matter of the end of the history. */
module StuckMonotone {
  import opened Wrappers
  import opened StuckPatterns

  function Shift(places: seq<nat>, shift: nat): seq<nat> {
    seq(|places|, i requires 0 <= i < |places| => places[i] + shift)
  }

  lemma {:induction false} PlacesConcat(p: seq<Event>, f: seq<Event>, kind: Kind)
    ensures Places(p + f, kind) == Places(p, kind) + Shift(Places(f, kind), |p|)
    decreases |f|
  {
    if f == [] {
      assert p + f == p;
    } else {
      var n := |f| - 1;
      assert (p + f)[..|p| + n] == p + f[..n];
      PlacesConcat(p, f[..n], kind);
    }
  }

  lemma FromEndStays(p: seq<Event>, f: seq<Event>, kind: Kind, i: nat)
    requires 1 <= i <= |Places(f, kind)|
    ensures |Places(p + f, kind)| >= |Places(f, kind)| && FromEnd(p + f, kind, i) == |p| + FromEnd(f, kind, i)
  {
    PlacesConcat(p, f, kind);
  }

  /** The last events of a kind stay the last ones, whatever came before. */
  lemma LastConcat(p: seq<Event>, f: seq<Event>, kind: Kind, n: nat)
    ensures var a, b := Last(f, kind, n), Last(p + f, kind, n);
            |a| <= |b| && a == b[..|a|] && (|a| == n ==> a == b)
  {
    PlacesConcat(p, f, kind);
    var a, b := Last(f, kind, n), Last(p + f, kind, n);
    forall i | 0 <= i < |a| ensures a[i] == b[i] {
      FromEndStays(p, f, kind, i + 1);
    }
  }

  lemma SaidThriceStays(p: seq<Event>, f: seq<Event>, x: nat, y: nat, z: nat)
    requires x < |f| && y < |f| && z < |f| && SaidThrice(f, x, y, z)
    ensures SaidThrice(p + f, |p| + x, |p| + y, |p| + z)
  {
    assert forall k :: |p| + x < k < |p| + z ==> (p + f)[k] == f[k - |p|];
  }

  lemma MonologueStays(p: seq<Event>, f: seq<Event>)
    requires IsMonologue(f)
    ensures IsMonologue(p + f)
  {
    FromEndStays(p, f, AgentMessages, 1);
    FromEndStays(p, f, AgentMessages, 2);
    FromEndStays(p, f, AgentMessages, 3);
    SaidThriceStays(p, f, FromEnd(f, AgentMessages, 3), FromEnd(f, AgentMessages, 2), FromEnd(f, AgentMessages, 1));
  }

  lemma OnlyCondensationsStay(p: seq<Event>, f: seq<Event>, from: nat, to: nat)
    requires to < |f| && OnlyCondensationsBetween(f, from, to)
    ensures OnlyCondensationsBetween(p + f, |p| + from, |p| + to)
  {
    assert forall k :: |p| + from < k < |p| + to ==> (p + f)[k] == f[k - |p|];
  }

  lemma CondensedAgainStays(p: seq<Event>, f: seq<Event>, i: nat)
    requires i + 1 < |Places(f, Condensations)| && CondensedAgain(f, i)
    ensures |Places(p, Condensations)| + i + 1 < |Places(p + f, Condensations)|
    ensures CondensedAgain(p + f, |Places(p, Condensations)| + i)
  {
    PlacesConcat(p, f, Condensations);
    OnlyCondensationsStay(p, f, Places(f, Condensations)[i], Places(f, Condensations)[i + 1]);
  }

  lemma CondensationStays(p: seq<Event>, f: seq<Event>)
    requires RepeatsCondensation(f)
    ensures RepeatsCondensation(p + f)
  {
    PlacesConcat(p, f, Condensations);
    CondensedAgainStays(p, f, CondensationLoop(f).value);
    CondensedAgainIsFound(p + f, |Places(p + f, Condensations)| - 10,
                          |Places(p, Condensations)| + CondensationLoop(f).value);
  }

  lemma AnalyzeStays(p: seq<Event>, f: seq<Event>, offset: nat, offsetAfter: nat)
    requires Analyze(f, offset).Some?
    ensures Analyze(p + f, offsetAfter).Some?
  {
    LastConcat(p, f, Actions, 4);
    LastConcat(p, f, Observations, 4);
    if RepeatsActionObservation(f) {
    } else if RepeatsError(f) {
      ErrorStays(p, f);
    } else if IsMonologue(f) {
      MonologueStays(p, f);
    } else if RepeatsPattern(f) {
      LastConcat(p, f, Actions, 6);
      LastConcat(p, f, Observations, 6);
    } else {
      CondensationStays(p, f);
    }
  }

  lemma ErrorStays(p: seq<Event>, f: seq<Event>)
    requires RepeatsError(f)
    ensures RepeatsError(p + f)
  {
    LastConcat(p, f, Actions, 4);
    LastConcat(p, f, Observations, 4);
    assert Last(p + f, Actions, 4)[..3] == Last(f, Actions, 4)[..3];
    assert Last(p + f, Observations, 4)[..3] == Last(f, Observations, 4)[..3];
  }

  lemma {:induction false} FilteredConcat(p: seq<Event>, h: seq<Event>)
    ensures Filtered(p + h) == Filtered(p) + Filtered(h)
    decreases |h|
  {
    if h == [] {
      assert p + h == p;
    } else {
      var n := |h| - 1;
      assert (p + h)[..|p| + n] == p + h[..n];
      FilteredConcat(p, h[..n]);
    }
  }

  lemma {:induction false} OffsetConcat(p: seq<Event>, h: seq<Event>)
    ensures Offset(p + h, false) == if Offset(h, false) > 0 then |p| + Offset(h, false) else Offset(p, false)
    decreases |h|
  {
    if h == [] {
      assert p + h == p;
    } else {
      var n := |h| - 1;
      assert (p + h)[..|p| + n] == p + h[..n];
      OffsetConcat(p, h[..n]);
    }
  }

  /** What is looked at in a longer history ends with what is looked at in its end. */
  lemma LookedConcat(p: seq<Event>, h: seq<Event>, headless: bool)
    ensures exists q :: Looked(p + h, headless) == q + Looked(h, headless)
  {
    var from := Offset(h, headless);
    if headless {
      assert (p + h)[0..] == p + h && h[0..] == h;
      FilteredConcat(p, h);
      assert Looked(p + h, headless) == Filtered(p) + Looked(h, headless);
    } else {
      OffsetConcat(p, h);
      if from > 0 {
        assert (p + h)[|p| + from..] == h[from..];
        assert Looked(p + h, headless) == [] + Looked(h, headless);
      } else {
        var before := p[Offset(p, false)..];
        assert (p + h)[Offset(p, false)..] == before + h && h[0..] == h;
        FilteredConcat(before, h);
        assert Looked(p + h, headless) == Filtered(before) + Looked(h, headless);
      }
    }
  }

  /** If a history is stuck, it is stuck after anything, in either mode. */
  lemma StuckAfterAnything(p: seq<Event>, h: seq<Event>, headless: bool)
    requires IsStuck(h, headless)
    ensures IsStuck(p + h, headless)
  {
    LookedConcat(p, h, headless);
    var q :| Looked(p + h, headless) == q + Looked(h, headless);
    AnalyzeStays(q, Looked(h, headless), Offset(h, headless), Offset(p + h, headless));
  }

  lemma LookedBehindLastMessage(h: seq<Event>)
    ensures Looked(h[Offset(h, false)..], true) == Looked(h, false)
  {
    assert h[Offset(h, false)..][0..] == h[Offset(h, false)..];
  }

  lemma StuckBehindLastMessage(h: seq<Event>)
    requires IsStuck(h, false)
    ensures IsStuck(h[Offset(h, false)..], true)
  {
    LookedBehindLastMessage(h);
    assert [] + Looked(h, false) == Looked(h, false);
    AnalyzeStays([], Looked(h, false), Offset(h, false), 0);
  }

  /** So being stuck in interactive mode means being stuck in headless mode. */
  lemma InteractiveImpliesHeadless(h: seq<Event>)
    requires IsStuck(h, false)
    ensures IsStuck(h, true)
  {
    StuckBehindLastMessage(h);
    StuckAfterAnything(h[..Offset(h, false)], h[Offset(h, false)..], true);
    assert h == h[..Offset(h, false)] + h[Offset(h, false)..];
  }
}
