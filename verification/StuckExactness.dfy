/** Exactly when the detector finds which loop, event by event. */
module StuckExactness {
  import opened Wrappers
  import opened Text
  import opened StuckPatterns
  import opened StuckRecovery

  /*** What counts as the same. ***/

  predicate Edits(code: string) {
    Contains(code, "edit_file_by_replace(")
  }

  /** Both have at least three lines, and the first three are the same. */
  predicate SameThreeLines(a: string, b: string) {
    var x, y := Split(a, '\n'), Split(b, '\n');
    |x| >= 3 && |y| >= 3 && x[0] == y[0] && x[1] == y[1] && x[2] == y[2]
  }

  /** Command outputs are compared by command and exit code, edits of a cell by their first three
      lines, and anything else as a whole. */
  predicate Alike(a: Body, b: Body) {
    match a
    case CommandOutput(command, exitCode, _) =>
      b.CommandOutput? && b.command == command && b.exitCode == exitCode
    case CellAction(code, _) =>
      if b.CellAction? && Edits(code) && Edits(b.code) then SameThreeLines(code, b.code) else b == a
    case _ => b == a
  }

  lemma ThreeLines(a: string, b: string)
    ensures |Split(a, '\n')| > 2 && FirstLines(a) == FirstLines(b) <==> SameThreeLines(a, b)
  {
    var x, y := Split(a, '\n'), Split(b, '\n');
    if |x| > 2 && FirstLines(a) == FirstLines(b) {
      assert |FirstLines(a)| == 3 && |FirstLines(b)| == 3;
      assert FirstLines(a)[0] == x[0] && FirstLines(a)[1] == x[1] && FirstLines(a)[2] == x[2];
      assert FirstLines(b)[0] == y[0] && FirstLines(b)[1] == y[1] && FirstLines(b)[2] == y[2];
    }
  }

  lemma AlikeIs(a: Event, b: Event)
    ensures EqNoPid(a, b) <==> Alike(a.body, b.body)
  {
    if a.body.CellAction? && b.body.CellAction? {
      ThreeLines(a.body.code, b.body.code);
    }
  }

  /*** The loops, by the last events of each kind. ***/

  /** The i-th last event of a kind, counted from one. */
  function Nth(f: seq<Event>, kind: Kind, i: nat): Body
    requires 1 <= i <= |Places(f, kind)|
  {
    f[FromEnd(f, kind, i)].body
  }

  /** The last n of them are like the last one. */
  predicate LastAlike(f: seq<Event>, kind: Kind, n: nat)
    requires |Places(f, kind)| >= n
  {
    forall i :: 1 <= i <= n ==> Alike(Nth(f, kind, 1), Nth(f, kind, i))
  }

  function LinesOf(content: string): seq<string> {
    Split(Strip(content), '\n')
  }

  /** The last two lines are those of the runtime, and the one before them has the message. */
  predicate ReportsError(content: string, message: string) {
    var lines := LinesOf(content);
    var n := |lines|;
    && n >= 3 && StartsWith(lines[n - 1], "[Jupyter Python interpreter:")
    && StartsWith(lines[n - 2], "[Jupyter current working directory:") && Contains(lines[n - 3], message)
  }

  predicate SameReports(x: string, y: string, z: string, message: string) {
    && ReportsError(x, message) && ReportsError(y, message) && ReportsError(z, message)
    && LinesOf(x)[|LinesOf(x)| - 3] == LinesOf(y)[|LinesOf(y)| - 3] == LinesOf(z)[|LinesOf(z)| - 3]
  }

  /** At least six lines, the first of which names a cell. */
  predicate NamesCell(content: string) {
    |LinesOf(content)| >= 6 && StartsWith(Strip(LinesOf(content)[0]), "Cell In[1], line")
  }

  predicate SameCell(x: string, y: string, z: string) {
    && NamesCell(x) && NamesCell(y) && NamesCell(z)
    && Strip(LinesOf(x)[0]) == Strip(LinesOf(y)[0]) == Strip(LinesOf(z)[0])
  }

  predicate SameSyntaxError(x: string, y: string, z: string) {
    || SameReports(x, y, z, "SyntaxError: unterminated string literal (detected at line")
    || (SameCell(x, y, z) && SameReports(x, y, z, "SyntaxError: invalid syntax. Perhaps you forgot a comma?"))
    || (SameCell(x, y, z) && SameReports(x, y, z, "SyntaxError: incomplete input"))
  }

  predicate AllFail(a: Body, b: Body, c: Body) {
    || (a.ErrorObservation? && b.ErrorObservation? && c.ErrorObservation?)
    || (a.CellObservation? && b.CellObservation? && c.CellObservation?
        && SameSyntaxError(a.content, b.content, c.content))
  }

  predicate SaidThreeTimes(f: seq<Event>)
    requires |Places(f, AgentMessages)| >= 3
  {
    && Nth(f, AgentMessages, 2) == Nth(f, AgentMessages, 3) && Nth(f, AgentMessages, 1) == Nth(f, AgentMessages, 3)
    && forall k :: FromEnd(f, AgentMessages, 3) < k < FromEnd(f, AgentMessages, 1) ==> !Is(Observations, f[k])
  }

  predicate InTurn(f: seq<Event>, kind: Kind)
    requires |Places(f, kind)| >= 6
  {
    && Alike(Nth(f, kind, 1), Nth(f, kind, 3)) && Alike(Nth(f, kind, 1), Nth(f, kind, 5))
    && Alike(Nth(f, kind, 2), Nth(f, kind, 4)) && Alike(Nth(f, kind, 2), Nth(f, kind, 6))
  }

  predicate AtLeast(f: seq<Event>, n: nat) {
    |Places(f, Actions)| >= n && |Places(f, Observations)| >= n
  }

  /** The loop shows in the filtered history. */
  predicate Shows(f: seq<Event>, t: LoopType) {
    match t
    case RepeatingActionObservation => AtLeast(f, 4) && LastAlike(f, Actions, 4) && LastAlike(f, Observations, 4)
    case RepeatingActionError =>
      && AtLeast(f, 3) && LastAlike(f, Actions, 3)
      && AllFail(Nth(f, Observations, 1), Nth(f, Observations, 2), Nth(f, Observations, 3))
    case Monologue => |Places(f, AgentMessages)| >= 3 && SaidThreeTimes(f)
    case ActionObservationPattern => AtLeast(f, 6) && InTurn(f, Actions) && InTurn(f, Observations)
    case ContextWindowError =>
      exists i :: 0 <= |Places(f, Condensations)| - 10 <= i < |Places(f, Condensations)| - 1 && Adjacent(f, i)
  }

  /*** Each pattern is its loop. ***/

  lemma LastIs(f: seq<Event>, kind: Kind, n: nat)
    requires |Places(f, kind)| >= n
    ensures |Last(f, kind, n)| == n
    ensures forall i :: 0 <= i < n ==> Last(f, kind, n)[i] == f[FromEnd(f, kind, i + 1)]
  {
  }

  lemma AllLikeFirstIff(f: seq<Event>, kind: Kind, n: nat, events: seq<Event>)
    requires |Places(f, kind)| >= n >= 1 && |events| == n
    requires forall i :: 0 <= i < n ==> events[i] == f[FromEnd(f, kind, i + 1)]
    ensures AllLikeFirst(events) <==> LastAlike(f, kind, n)
  {
    forall i | 0 <= i < n
      ensures EqNoPid(events[0], events[i]) <==> Alike(Nth(f, kind, 1), Nth(f, kind, i + 1))
    {
      AlikeIs(events[0], events[i]);
    }
    if AllLikeFirst(events) {
      forall i | 1 <= i <= n ensures Alike(Nth(f, kind, 1), Nth(f, kind, i)) {
        assert EqNoPid(events[0], events[i - 1]);
      }
    } else {
      var i :| 0 <= i < n && !EqNoPid(events[0], events[i]);
      assert !Alike(Nth(f, kind, 1), Nth(f, kind, i + 1));
    }
  }

  lemma RepeatsActionObservationIff(f: seq<Event>)
    ensures RepeatsActionObservation(f) <==> Shows(f, RepeatingActionObservation)
  {
    if AtLeast(f, 4) {
      LastIs(f, Actions, 4);
      LastIs(f, Observations, 4);
      AllLikeFirstIff(f, Actions, 4, Last(f, Actions, 4));
      AllLikeFirstIff(f, Observations, 4, Last(f, Observations, 4));
    }
  }

  lemma ReportIs(content: string, message: string)
    ensures IsValid(ReadReport(content), message) <==> ReportsError(content, message)
    ensures HasHead(ReadReport(content)) <==> NamesCell(content)
    ensures |LinesOf(content)| >= 3 ==> ReadReport(content).errorLine == LinesOf(content)[|LinesOf(content)| - 3]
    ensures ReadReport(content).headLine == Strip(LinesOf(content)[0])
  {
  }

  lemma ConsistentIff(x: string, y: string, z: string, message: string)
    ensures var reports := [ReadReport(x), ReadReport(y), ReadReport(z)];
            && (ConsistentLineError(reports, message) <==> SameReports(x, y, z, message))
            && (ConsistentInvalidSyntax(reports, message) <==> SameCell(x, y, z) && SameReports(x, y, z, message))
  {
    ReportIs(x, message);
    ReportIs(y, message);
    ReportIs(z, message);
    var reports := [ReadReport(x), ReadReport(y), ReadReport(z)];
    assert forall i :: 0 <= i < 3 ==> reports[i] == if i == 0 then ReadReport(x) else if i == 1 then ReadReport(y)
                                                    else ReadReport(z);
  }

  /** The last three observations. */
  lemma LastThree(f: seq<Event>, observations: seq<Event>)
    requires |Places(f, Observations)| >= 3 && observations == Last(f, Observations, 4)[..3]
    ensures |observations| == 3
    ensures observations[0].body == Nth(f, Observations, 1)
    ensures observations[1].body == Nth(f, Observations, 2)
    ensures observations[2].body == Nth(f, Observations, 3)
  {
  }

  lemma FailuresIff(a: Event, b: Event, c: Event)
    ensures var events := [a, b, c];
            AllErrors(events) || (AllCells(events) && SyntaxErrors(StuckPatterns.Reports(events)))
            <==> AllFail(a.body, b.body, c.body)
  {
    var events := [a, b, c];
    assert AllErrors(events) <==> a.body.ErrorObservation? && b.body.ErrorObservation? && c.body.ErrorObservation? by {
      assert events[0] == a && events[1] == b && events[2] == c;
    }
    assert AllCells(events) <==> a.body.CellObservation? && b.body.CellObservation? && c.body.CellObservation? by {
      assert events[0] == a && events[1] == b && events[2] == c;
    }
    if AllCells(events) {
      var x, y, z := a.body.content, b.body.content, c.body.content;
      assert StuckPatterns.Reports(events) == [ReadReport(x), ReadReport(y), ReadReport(z)];
      ConsistentIff(x, y, z, UNTERMINATED);
      ConsistentIff(x, y, z, INVALID);
      ConsistentIff(x, y, z, INCOMPLETE);
    }
  }

  lemma RepeatsErrorIff(f: seq<Event>)
    ensures RepeatsError(f) <==> Shows(f, RepeatingActionError)
  {
    if AtLeast(f, 3) {
      var actions, observations := Last(f, Actions, 4)[..3], Last(f, Observations, 4)[..3];
      AllLikeFirstIff(f, Actions, 3, actions);
      LastThree(f, observations);
      FailuresIff(observations[0], observations[1], observations[2]);
      assert observations == [observations[0], observations[1], observations[2]];
    }
  }

  lemma IsMonologueIff(f: seq<Event>)
    ensures IsMonologue(f) <==> Shows(f, Monologue)
  {
    if |Places(f, AgentMessages)| >= 3 {
      var x, z := FromEnd(f, AgentMessages, 3), FromEnd(f, AgentMessages, 1);
      assert forall k :: x < k < z ==> (IsAction(f[k]) <==> !Is(Observations, f[k]));
    }
  }

  lemma AlternatesIff(f: seq<Event>, kind: Kind, events: seq<Event>)
    requires |Places(f, kind)| >= 6 && |events| == 6
    requires forall i :: 0 <= i < 6 ==> events[i] == f[FromEnd(f, kind, i + 1)]
    ensures Alternates(events) <==> InTurn(f, kind)
  {
    AlikeIs(events[0], events[2]);
    AlikeIs(events[0], events[4]);
    AlikeIs(events[1], events[3]);
    AlikeIs(events[1], events[5]);
  }

  lemma RepeatsPatternIff(f: seq<Event>)
    ensures RepeatsPattern(f) <==> Shows(f, ActionObservationPattern)
  {
    if AtLeast(f, 6) {
      LastIs(f, Actions, 6);
      LastIs(f, Observations, 6);
      AlternatesIff(f, Actions, Last(f, Actions, 6));
      AlternatesIff(f, Observations, Last(f, Observations, 6));
    }
  }

  /*** What is found. ***/

  /** The loop that is reported: the first one that shows, in the order of the scenarios; the last
      two are looked for only in six and in ten events. */
  predicate IsReported(f: seq<Event>, t: LoopType) {
    && |f| >= 3 && Shows(f, t)
    && (t != RepeatingActionObservation ==> !Shows(f, RepeatingActionObservation))
    && (t != RepeatingActionObservation && t != RepeatingActionError ==> !Shows(f, RepeatingActionError))
    && (t == ActionObservationPattern || t == ContextWindowError ==> !Shows(f, Monologue))
    && (t == ActionObservationPattern ==> |f| >= 6)
    && (t == ContextWindowError ==> |f| >= 10 && !Shows(f, ActionObservationPattern))
  }

  lemma {:induction false} PlacesAreFew(f: seq<Event>)
    ensures |Places(f, Actions)| + |Places(f, Observations)| == |f|
    ensures |Places(f, Condensations)| <= |f|
  {
    if f != [] {
      PlacesAreFew(f[..|f| - 1]);
    }
  }

  lemma AnalyzeIff(f: seq<Event>, offset: nat, t: LoopType)
    requires |f| >= 3
    ensures Analyze(f, offset).Some? && Analyze(f, offset).value.loopType == t <==> IsReported(f, t)
  {
    PlacesAreFew(f);
    RepeatsActionObservationIff(f);
    RepeatsErrorIff(f);
    IsMonologueIff(f);
    RepeatsPatternIff(f);
    CondensationLoopIff(f);
  }

  /** A loop of a type is reported exactly when it is the first that shows in the events that are
      looked at. */
  lemma FoundIff(history: seq<Event>, headless: bool, t: LoopType)
    ensures Found(history, headless).Some? && Found(history, headless).value.loopType == t
       <==> IsReported(Looked(history, headless), t)
    ensures IsReported(Looked(history, headless), t) ==>
              Found(history, headless).value.repeatTimes
              == match t
                 case RepeatingActionObservation => 4
                 case ContextWindowError => 2
                 case _ => 3
  {
    if |Looked(history, headless)| >= 3 {
      AnalyzeIff(Looked(history, headless), Offset(history, headless), t);
    }
  }

  lemma ReportedIff(history: seq<Event>, headless: bool)
    ensures IsStuck(history, headless) <==> exists t :: IsReported(Looked(history, headless), t)
    ensures IsStuck(history, headless) ==>
              IsReported(Looked(history, headless), Found(history, headless).value.loopType)
  {
    if IsStuck(history, headless) {
      FoundIff(history, headless, Found(history, headless).value.loopType);
    } else if t :| IsReported(Looked(history, headless), t) {
      FoundIff(history, headless, t);
    }
  }

  /*** Which events are looked at. ***/

  lemma {:induction false} NoUserMessageBehind(h: seq<Event>)
    ensures forall k :: Offset(h, false) <= k < |h| ==> !(h[k].body.Message? && h[k].source == UserSource)
    ensures var from := Offset(h, false);
            from == 0 || (h[from - 1].body.Message? && h[from - 1].source == UserSource)
  {
    if h != [] && !IsUserMessage(h[|h| - 1]) {
      NoUserMessageBehind(h[..|h| - 1]);
    }
  }

  /** Neither a message of the user nor an empty event. */
  predicate Counts(e: Event) {
    !(e.body.Message? && e.source == UserSource) && e.body != NullAction && e.body != NullObservation
  }

  lemma {:induction false} RawPlacesAreAll(events: seq<Event>, j: nat)
    requires j < |events|
    ensures j in RawPlaces(events) <==> Counts(events[j])
  {
    var n := |events| - 1;
    var front := RawPlaces(events[..n]);
    if j < n {
      RawPlacesAreAll(events[..n], j);
    }
  }

  lemma BehindOffset(h: seq<Event>, j: nat)
    requires j < |h|
    ensures Offset(h, false) <= j <==> forall k :: j <= k < |h| ==> !IsUserMessage(h[k])
  {
    NoUserMessageBehind(h);
    if j < Offset(h, false) {
      assert IsUserMessage(h[Offset(h, false) - 1]);
    }
  }

  predicate IsRawPlace(history: seq<Event>, headless: bool, j: nat) {
    exists k :: 0 <= k < |Looked(history, headless)| && RawPlace(history, headless, k) == j
  }

  lemma RawPlaceIff(history: seq<Event>, headless: bool, j: nat)
    requires Offset(history, headless) <= j < |history|
    ensures IsRawPlace(history, headless, j) <==> Counts(history[j])
  {
    var from := Offset(history, headless);
    RawPlacesAreAll(history[from..], j - from);
    if Counts(history[j]) {
      var k :| 0 <= k < |RawPlaces(history[from..])| && RawPlaces(history[from..])[k] == j - from;
      assert RawPlace(history, headless, k) == j;
    }
  }

  /** The events that are looked at are, in order, all that count behind the last message of the
      user, or in headless mode all that count. */
  lemma LookedAre(history: seq<Event>, headless: bool, j: nat)
    requires j < |history|
    ensures IsRawPlace(history, headless, j)
       <==> Counts(history[j]) && (headless || forall k :: j <= k < |history| ==> !IsUserMessage(history[k]))
  {
    if !headless {
      BehindOffset(history, j);
    }
    if Offset(history, headless) <= j {
      RawPlaceIff(history, headless, j);
    }
  }

  lemma LookedInOrder(history: seq<Event>, headless: bool, i: nat, k: nat)
    requires i < k < |Looked(history, headless)|
    ensures RawPlace(history, headless, i) < RawPlace(history, headless, k)
  {
    RawPlacesIncrease(history[Offset(history, headless)..], i, k);
  }

  lemma {:induction false} RawPlacesIncrease(events: seq<Event>, i: nat, k: nat)
    requires i < k < |Filtered(events)|
    ensures RawPlaces(events)[i] < RawPlaces(events)[k]
  {
    var n := |events| - 1;
    if k < |Filtered(events[..n])| {
      RawPlacesIncrease(events[..n], i, k);
    }
  }

  /*** Two consequences. ***/

  /** Two of the last four observations are command outputs that differ in the command or in the exit
      code: then the same action with the same observation is not what is found. */
  lemma DifferentOutputsExclude(history: seq<Event>, headless: bool, i: nat, k: nat)
    requires var f := Looked(history, headless);
             && |Places(f, Observations)| >= 4 && 1 <= i <= 4 && 1 <= k <= 4
             && Nth(f, Observations, i).CommandOutput? && Nth(f, Observations, k).CommandOutput?
             && (Nth(f, Observations, i).command != Nth(f, Observations, k).command
                 || Nth(f, Observations, i).exitCode != Nth(f, Observations, k).exitCode)
    ensures Found(history, headless).Some? ==>
              Found(history, headless).value.loopType != RepeatingActionObservation
  {
    var f := Looked(history, headless);
    FoundIff(history, headless, RepeatingActionObservation);
    if LastAlike(f, Observations, 4) {
      assert Alike(Nth(f, Observations, 1), Nth(f, Observations, i));
      assert Alike(Nth(f, Observations, 1), Nth(f, Observations, k));
    }
  }
}
