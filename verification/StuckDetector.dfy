/** The stuck detector itself: its loops find what the patterns say. */
module StuckDetector {
  import opened Wrappers
  import opened MinMax
  import opened Text
  import opened StuckPatterns
  import opened StuckExactness

  lemma {:induction false} PlacesPrefix(f: seq<Event>, kind: Kind, i: nat)
    requires i <= |f|
    ensures |Places(f[..i], kind)| <= |Places(f, kind)|
    ensures Places(f[..i], kind) == Places(f, kind)[..|Places(f[..i], kind)|]
  {
    if i == |f| {
      assert f[..i] == f;
    } else {
      var n := |f| - 1;
      PlacesPrefix(f[..n], kind, i);
      assert f[..n][..i] == f[..i];
    }
  }

  lemma PlacesNext(f: seq<Event>, kind: Kind, i: nat)
    requires i < |f|
    ensures Places(f[..i + 1], kind) == Places(f[..i], kind) + if Is(kind, f[i]) then [i] else []
  {
    assert f[..i + 1][..i] == f[..i];
  }

  /** How many of the last n events of a kind have been seen, when all from i on have been. */
  ghost predicate SeenFrom(f: seq<Event>, kind: Kind, n: nat, i: nat, last: seq<Event>)
    requires i <= |f|
  {
    && |Places(f[..i], kind)| <= |Places(f, kind)|
    && |last| == Min(n, |Places(f, kind)| - |Places(f[..i], kind)|)
    && last == Last(f, kind, n)[..|last|]
  }

  lemma SeeNext(f: seq<Event>, kind: Kind, n: nat, i: nat, last: seq<Event>)
    requires i < |f| && SeenFrom(f, kind, n, i + 1, last)
    ensures SeenFrom(f, kind, n, i, if Is(kind, f[i]) && |last| < n then last + [f[i]] else last)
  {
    PlacesPrefix(f, kind, i);
    PlacesPrefix(f, kind, i + 1);
    PlacesNext(f, kind, i);
    var all := Last(f, kind, n);
    if Is(kind, f[i]) && |last| < n {
      assert Places(f, kind)[|Places(f[..i], kind)|] == i;
      assert FromEnd(f, kind, |last| + 1) == i;
      assert all[|last|] == f[i];
      assert all[..|last| + 1] == all[..|last|] + [f[i]];
    }
  }

  lemma SeenAll(f: seq<Event>, kind: Kind, n: nat, i: nat, last: seq<Event>)
    requires i <= |f| && SeenFrom(f, kind, n, i, last) && (i == 0 || |last| == n)
    ensures last == Last(f, kind, n)
  {
    assert f[..0] == [];
  }

  /** The last n actions and the last n observations, from the end of the history. */
  method CollectLast(f: seq<Event>, n: nat) returns (actions: seq<Event>, observations: seq<Event>)
    ensures actions == Last(f, Actions, n) && observations == Last(f, Observations, n)
  {
    actions, observations := [], [];
    var i := |f|;
    assert f[..i] == f;
    while i > 0
      invariant 0 <= i <= |f|
      invariant SeenFrom(f, Actions, n, i, actions) && SeenFrom(f, Observations, n, i, observations)
    {
      i := i - 1;
      SeeNext(f, Actions, n, i, actions);
      SeeNext(f, Observations, n, i, observations);
      if IsAction(f[i]) && |actions| < n {
        actions := actions + [f[i]];
      } else if !IsAction(f[i]) && |observations| < n {
        observations := observations + [f[i]];
      }
      if |actions| == n && |observations| == n {
        break;
      }
    }
    SeenAll(f, Actions, n, i, actions);
    SeenAll(f, Observations, n, i, observations);
  }

  /** Where all events of a kind are. */
  method CollectPlaces(f: seq<Event>, kind: Kind) returns (places: seq<nat>)
    ensures places == Places(f, kind)
  {
    places := [];
    for i := 0 to |f|
      invariant places == Places(f[..i], kind)
    {
      PlacesNext(f, kind, i);
      if Is(kind, f[i]) {
        places := places + [i];
      }
    }
    assert f[..|f|] == f;
  }

  /** _check_for_consistent_line_error */
  method CheckForConsistentLineError(reports: seq<Report>, error: string) returns (b: bool)
    requires |reports| == 3
    ensures b == ConsistentLineError(reports, error)
  {
    var errorLines: seq<string> := [];
    for i := 0 to 3
      invariant |errorLines| <= i
      invariant |errorLines| == i <==> forall k :: 0 <= k < i ==> IsValid(reports[k], error)
      invariant |errorLines| == i ==> forall k :: 0 <= k < i ==> errorLines[k] == reports[k].errorLine
    {
      var report := reports[i];
      assert IsValid(report, error) == (report.framed && Contains(report.errorLine, error));
      if !report.framed {
        return false;
      }
      if Contains(report.errorLine, error) {
        errorLines := errorLines + [report.errorLine];
      }
    }
    b := |errorLines| == 3 && errorLines[0] == errorLines[1] == errorLines[2];
  }

  /** The error lines of the reports that are valid. */
  method CollectErrorLines(reports: seq<Report>, error: string) returns (valid: seq<string>)
    ensures |valid| <= |reports|
    ensures |valid| == |reports| <==> forall k :: 0 <= k < |reports| ==> IsValid(reports[k], error)
    ensures |valid| == |reports| ==> forall k :: 0 <= k < |reports| ==> valid[k] == reports[k].errorLine
  {
    valid := [];
    for i := 0 to |reports|
      invariant |valid| <= i
      invariant |valid| == i <==> forall k :: 0 <= k < i ==> IsValid(reports[k], error)
      invariant |valid| == i ==> forall k :: 0 <= k < i ==> valid[k] == reports[k].errorLine
    {
      if IsValid(reports[i], error) {
        valid := valid + [reports[i].errorLine];
      }
    }
  }

  /** _check_for_consistent_invalid_syntax */
  method CheckForConsistentInvalidSyntax(reports: seq<Report>, error: string) returns (b: bool)
    requires |reports| == 3
    ensures b == ConsistentInvalidSyntax(reports, error)
  {
    var firstLines: seq<string> := [];
    for i := 0 to 3
      invariant |firstLines| == i
      invariant forall k :: 0 <= k < i ==> firstLines[k] == reports[k].headLine && HasHead(reports[k])
    {
      if !HasHead(reports[i]) {
        return false;
      }
      firstLines := firstLines + [reports[i].headLine];
    }
    var valid := CollectErrorLines(reports, error);
    b := && firstLines[0] == firstLines[1] == firstLines[2]
         && |valid| == 3 && valid[0] == valid[1] == valid[2];
  }

  class StuckDetector {
    var history: seq<Event>
    var stuckAnalysis: Option<Analysis>

    constructor (history: seq<Event>)
      ensures this.history == history && stuckAnalysis == None
    {
      this.history := history;
      stuckAnalysis := None;
    }

    method IsStuckRepeatingActionObservation(actions: seq<Event>, observations: seq<Event>, f: seq<Event>, offset: nat)
      returns (b: bool)
      requires actions == Last(f, Actions, 4) && observations == Last(f, Observations, 4)
      modifies this`stuckAnalysis
      ensures b == RepeatsActionObservation(f)
      ensures stuckAnalysis == if b then Some(Analysis(RepeatingActionObservation, 4, StartOfActions(f, 4) + offset))
                               else old(stuckAnalysis)
    {
      if |actions| == 4 && |observations| == 4 {
        if AllLikeFirst(actions) && AllLikeFirst(observations) {
          stuckAnalysis := Some(Analysis(RepeatingActionObservation, 4, StartOfActions(f, 4) + offset));
          return true;
        }
      }
      b := false;
    }

    method IsStuckRepeatingActionError(actions: seq<Event>, observations: seq<Event>, f: seq<Event>, offset: nat)
      returns (b: bool)
      requires actions == Last(f, Actions, 4) && observations == Last(f, Observations, 4)
      modifies this`stuckAnalysis
      ensures b == RepeatsError(f)
      ensures stuckAnalysis == if b then Some(Analysis(RepeatingActionError, 3, StartOfActions(f, 4) + offset))
                               else old(stuckAnalysis)
    {
      if |actions| < 3 || |observations| < 3 {
        return false;
      }
      b := false;
      if AllLikeFirst(actions[..3]) {
        if AllErrors(observations[..3]) {
          b := true;
        } else if AllCells(observations[..3]) {
          b := CheckForConsistentLineError(Reports(observations[..3]), UNTERMINATED);
          if !b {
            b := CheckForConsistentInvalidSyntax(Reports(observations[..3]), INVALID);
          }
          if !b {
            b := CheckForConsistentInvalidSyntax(Reports(observations[..3]), INCOMPLETE);
          }
        }
      }
      if b {
        stuckAnalysis := Some(Analysis(RepeatingActionError, 3, StartOfActions(f, 4) + offset));
      }
    }

    method IsStuckMonologue(f: seq<Event>, offset: nat) returns (b: bool)
      modifies this`stuckAnalysis
      ensures b == IsMonologue(f)
      ensures stuckAnalysis == if b then Some(Analysis(Monologue, 3, FromEnd(f, AgentMessages, 3) + offset))
                               else old(stuckAnalysis)
    {
      var places := CollectPlaces(f, AgentMessages);
      var n := |places|;
      b := false;
      if n >= 3 {
        var startIndex, endIndex := places[n - 3], places[n - 1];
        assert startIndex == FromEnd(f, AgentMessages, 3) && endIndex == FromEnd(f, AgentMessages, 1);
        if f[places[n - 2]].body == f[startIndex].body && f[endIndex].body == f[startIndex].body {
          var k := startIndex + 1;
          b := true;
          while k < endIndex
            invariant b ==> forall j :: startIndex < j < k && j < endIndex ==> IsAction(f[j])
          {
            if !IsAction(f[k]) {
              b := false;
              break;
            }
            k := k + 1;
          }
          if b {
            stuckAnalysis := Some(Analysis(Monologue, 3, startIndex + offset));
          }
        }
      }
    }

    method IsStuckActionObservationPattern(f: seq<Event>, offset: nat) returns (b: bool)
      modifies this`stuckAnalysis
      ensures b == RepeatsPattern(f)
      ensures stuckAnalysis == if b then Some(Analysis(ActionObservationPattern, 3, StartOfActions(f, 6) + offset))
                               else old(stuckAnalysis)
    {
      var actions, observations := CollectLast(f, 6);
      b := false;
      if |actions| == 6 && |observations| == 6 {
        if Alternates(actions) && Alternates(observations) {
          stuckAnalysis := Some(Analysis(ActionObservationPattern, 3, StartOfActions(f, 6) + offset));
          b := true;
        }
      }
    }

    method IsStuckContextWindowError(f: seq<Event>, offset: nat) returns (b: bool)
      modifies this`stuckAnalysis
      ensures b == RepeatsCondensation(f)
      ensures stuckAnalysis == if b then Some(Analysis(ContextWindowError, 2, StartOfCondensations(f) + offset))
                               else old(stuckAnalysis)
    {
      var places := CollectPlaces(f, Condensations);
      if |places| < 10 {
        return false;
      }
      var start := FindCondensations(f, places);
      b := start.Some?;
      if b {
        stuckAnalysis := Some(Analysis(ContextWindowError, 2, start.value + offset));
      }
    }

    method FindCondensations(f: seq<Event>, places: seq<nat>) returns (start: Option<nat>)
      requires places == Places(f, Condensations) && |places| >= 10
      ensures start == if RepeatsCondensation(f) then Some(StartOfCondensations(f)) else None
    {
      for i := |places| - 10 to |places| - 1
        invariant CondensationLoop(f) == FirstCondensedAgain(f, i)
      {
        var hasOtherEvents := HasOtherEvents(f, places[i], places[i + 1]);
        if !hasOtherEvents {
          return Some(places[i]);
        }
      }
      start := None;
    }

    method HasOtherEvents(f: seq<Event>, startIdx: nat, endIdx: nat) returns (b: bool)
      requires startIdx < |f| && endIdx < |f|
      ensures b == !OnlyCondensationsBetween(f, startIdx, endIdx)
    {
      var k := startIdx + 1;
      while k < endIdx
        invariant startIdx < k
        invariant forall j :: startIdx < j < k && j < endIdx ==> f[j].body.Condensation?
      {
        if !f[k].body.Condensation? {
          return true;
        }
        k := k + 1;
      }
      b := false;
    }

    /** Where the events to look at begin. */
    method FindOffset(headless: bool) returns (offset: nat)
      ensures offset == Offset(history, headless)
    {
      if headless {
        return 0;
      }
      offset := |history|;
      assert history[..offset] == history;
      while offset > 0
        invariant 0 <= offset <= |history|
        invariant Offset(history, false) == Offset(history[..offset], false)
      {
        if IsUserMessage(history[offset - 1]) {
          return;
        }
        assert history[..offset][..offset - 1] == history[..offset - 1];
        offset := offset - 1;
      }
    }

    method Filter(events: seq<Event>) returns (f: seq<Event>)
      ensures f == Filtered(events)
    {
      f := [];
      for i := 0 to |events|
        invariant f == Filtered(events[..i])
      {
        assert events[..i + 1][..i] == events[..i];
        if IsLooked(events[i]) {
          f := f + [events[i]];
        }
      }
      assert events[..|events|] == events;
    }

    /** The scenarios that look for one event said or done again. */
    method TryRepetitions(f: seq<Event>, offset: nat) returns (b: bool)
      requires |f| >= 3
      modifies this`stuckAnalysis
      ensures b == (RepeatsActionObservation(f) || RepeatsError(f) || IsMonologue(f))
      ensures stuckAnalysis == if b then Analyze(f, offset) else old(stuckAnalysis)
    {
      var actions, observations := CollectLast(f, 4);
      b := IsStuckRepeatingActionObservation(actions, observations, f, offset);
      if b {
        return;
      }
      b := IsStuckRepeatingActionError(actions, observations, f, offset);
      if b {
        return;
      }
      b := IsStuckMonologue(f, offset);
    }

    /** The scenarios of is_stuck, in turn. */
    method TryScenarios(f: seq<Event>, offset: nat) returns (b: bool)
      requires |f| >= 3
      modifies this`stuckAnalysis
      ensures b == Analyze(f, offset).Some?
      ensures stuckAnalysis == Analyze(f, offset)
    {
      b := TryRepetitions(f, offset);
      if b {
        return;
      }
      if |f| >= 6 {
        b := IsStuckActionObservationPattern(f, offset);
        if b {
          return;
        }
      }
      if |f| >= 10 {
        b := IsStuckContextWindowError(f, offset);
        if b {
          return;
        }
      }
      stuckAnalysis := None;
    }

    /** is_stuck; with less than three events to look at, the analysis of an earlier call stays. */
    method CheckStuck(headless: bool) returns (b: bool)
      modifies this`stuckAnalysis
      ensures b == IsStuck(history, headless)
      ensures stuckAnalysis == if |Looked(history, headless)| < 3 then old(stuckAnalysis) else Found(history, headless)
      ensures b <==> exists t :: IsReported(Looked(history, headless), t)
      ensures b ==> stuckAnalysis.Some? && IsReported(Looked(history, headless), stuckAnalysis.value.loopType)
    {
      ReportedIff(history, headless);
      var offset := FindOffset(headless);
      var f := Filter(history[offset..]);
      if |f| < 3 {
        return false;
      }
      b := TryScenarios(f, offset);
    }
  }
}
