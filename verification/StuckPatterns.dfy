/** The loops that the stuck detector looks for at the end of a history. */
module StuckPatterns {
  import opened Wrappers
  import opened MinMax
  import opened Text

  datatype Source = AgentSource | UserSource | EnvironmentSource

  /** What events are compared by; rest stands for the fields that are not looked at one by one. */
  datatype Body =
    | Message(content: string, rest: int)
    | NullAction
    | CellAction(code: string, rest: int)
    | OtherAction(rest: int)
    | NullObservation
    | ErrorObservation(rest: int)
    | CommandOutput(command: string, exitCode: int, rest: int)
    | CellObservation(content: string, rest: int)
    | Condensation(rest: int)
    | OtherObservation(rest: int)

  /** Events are equal if their bodies are. */
  datatype Event = Event(source: Source, body: Body)

  datatype Kind = Actions | Observations | AgentMessages | Condensations

  predicate IsAction(e: Event) {
    e.body.Message? || e.body.NullAction? || e.body.CellAction? || e.body.OtherAction?
  }

  predicate IsUserMessage(e: Event) {
    e.body.Message? && e.source == UserSource
  }

  predicate Is(kind: Kind, e: Event) {
    match kind
    case Actions => IsAction(e)
    case Observations => !IsAction(e)
    case AgentMessages => e.body.Message? && e.source == AgentSource
    case Condensations => e.body.Condensation?
  }

  /*** Comparing events. ***/

  const EDIT := "edit_file_by_replace("

  /** The first lines of the code, up to three. */
  function FirstLines(code: string): seq<string> {
    var lines := Split(code, '\n');
    if |lines| > 3 then lines[..3] else lines
  }

  /** _eq_no_pid */
  predicate EqNoPid(a: Event, b: Event) {
    if a.body.CellAction? && b.body.CellAction? && Contains(a.body.code, EDIT) && Contains(b.body.code, EDIT) then
      |Split(a.body.code, '\n')| > 2 && FirstLines(a.body.code) == FirstLines(b.body.code)
    else if a.body.CommandOutput? && b.body.CommandOutput? then
      a.body.command == b.body.command && a.body.exitCode == b.body.exitCode
    else a.body == b.body
  }

  predicate AllLikeFirst(events: seq<Event>)
    requires events != []
  {
    forall i :: 0 <= i < |events| ==> EqNoPid(events[0], events[i])
  }

  /*** The events of one kind. ***/

  /** Where the events of a kind are. */
  function Places(f: seq<Event>, kind: Kind): (places: seq<nat>)
    ensures forall k :: 0 <= k < |places| ==> places[k] < |f| && Is(kind, f[places[k]])
  {
    if f == [] then []
    else
      var n := |f| - 1;
      Places(f[..n], kind) + if Is(kind, f[n]) then [n] else []
  }

  /** Where the i-th last event of a kind is. */
  function FromEnd(f: seq<Event>, kind: Kind, i: nat): (place: nat)
    requires 1 <= i <= |Places(f, kind)|
    ensures place < |f| && Is(kind, f[place])
  {
    Places(f, kind)[|Places(f, kind)| - i]
  }

  /** The last n events of a kind (fewer if there are fewer), newest first. */
  function Last(f: seq<Event>, kind: Kind, n: nat): seq<Event> {
    var count := Min(n, |Places(f, kind)|);
    seq(count, i requires 0 <= i < count => f[FromEnd(f, kind, i + 1)])
  }

  /** index(): the first event equal to one that is there. */
  function FirstLike(f: seq<Event>, e: Event): (i: nat)
    requires exists k :: 0 <= k < |f| && f[k].body == e.body
    ensures i < |f| && f[i].body == e.body && forall k :: 0 <= k < i ==> f[k].body != e.body
  {
    if f[0].body == e.body then 0
    else
      assert exists k :: 0 <= k < |f[1..]| && f[1..][k].body == e.body by {
        var k :| 0 <= k < |f| && f[k].body == e.body;
        assert f[1..][k - 1] == f[k];
      }
      FirstLike(f[1..], e) + 1
  }

  datatype LoopType =
    RepeatingActionObservation | RepeatingActionError | Monologue | ActionObservationPattern | ContextWindowError

  datatype Analysis = Analysis(loopType: LoopType, repeatTimes: nat, loopStart: nat)

  /** Where the oldest of the last n actions is found. */
  function StartOfActions(f: seq<Event>, n: nat): (i: nat)
    requires Last(f, Actions, n) != []
    ensures i < |f|
  {
    var last := Last(f, Actions, n);
    assert f[FromEnd(f, Actions, |last|)] == last[|last| - 1];
    FirstLike(f, last[|last| - 1])
  }

  /*** Scenario 1: four times the same action with the same observation. ***/

  predicate RepeatsActionObservation(f: seq<Event>) {
    var actions, observations := Last(f, Actions, 4), Last(f, Observations, 4);
    |actions| == 4 && |observations| == 4 && AllLikeFirst(actions) && AllLikeFirst(observations)
  }

  /*** Scenario 2: three times the same action with an error. ***/

  function ErrorLines(content: string): seq<string> {
    Split(Strip(content), '\n')
  }

  const UNTERMINATED := "SyntaxError: unterminated string literal (detected at line"
  const INVALID := "SyntaxError: invalid syntax. Perhaps you forgot a comma?"
  const INCOMPLETE := "SyntaxError: incomplete input"
  const WORKING_DIRECTORY := "[Jupyter current working directory:"
  const INTERPRETER := "[Jupyter Python interpreter:"

  /** What is read off an observation of a cell: whether it has the six lines of a real syntax error,
      and its first line; whether its last two lines are those of the runtime, and the line before. */
  datatype Report = Report(sixLines: bool, headLine: string, framed: bool, errorLine: string)

  function ReadReport(content: string): Report {
    var lines := ErrorLines(content);
    var n := |lines|;
    Report(n >= 6, Strip(lines[0]),
           n >= 3 && StartsWith(lines[n - 2], WORKING_DIRECTORY) && StartsWith(lines[n - 1], INTERPRETER),
           if n >= 3 then lines[n - 3] else "")
  }

  predicate HasHead(report: Report) {
    report.sixLines && StartsWith(report.headLine, "Cell In[1], line")
  }

  predicate IsValid(report: Report, error: string) {
    report.framed && Contains(report.errorLine, error)
  }

  /** _check_for_consistent_line_error */
  predicate ConsistentLineError(reports: seq<Report>, error: string)
    requires |reports| == 3
  {
    && (forall i :: 0 <= i < 3 ==> IsValid(reports[i], error))
    && reports[0].errorLine == reports[1].errorLine == reports[2].errorLine
  }

  /** _check_for_consistent_invalid_syntax */
  predicate ConsistentInvalidSyntax(reports: seq<Report>, error: string)
    requires |reports| == 3
  {
    && (forall i :: 0 <= i < 3 ==> HasHead(reports[i]))
    && reports[0].headLine == reports[1].headLine == reports[2].headLine
    && ConsistentLineError(reports, error)
  }

  predicate AllErrors(observations: seq<Event>) {
    forall i :: 0 <= i < |observations| ==> observations[i].body.ErrorObservation?
  }

  predicate AllCells(observations: seq<Event>) {
    forall i :: 0 <= i < |observations| ==> observations[i].body.CellObservation?
  }

  function Reports(observations: seq<Event>): seq<Report>
    requires AllCells(observations)
  {
    seq(|observations|, i requires 0 <= i < |observations| => ReadReport(observations[i].body.content))
  }

  predicate SyntaxErrors(reports: seq<Report>)
    requires |reports| == 3
  {
    || ConsistentLineError(reports, UNTERMINATED)
    || ConsistentInvalidSyntax(reports, INVALID) || ConsistentInvalidSyntax(reports, INCOMPLETE)
  }

  predicate RepeatsError(f: seq<Event>) {
    var actions, observations := Last(f, Actions, 4), Last(f, Observations, 4);
    && |actions| >= 3 && |observations| >= 3 && AllLikeFirst(actions[..3])
    && (AllErrors(observations[..3]) || (AllCells(observations[..3]) && SyntaxErrors(Reports(observations[..3]))))
  }

  /*** Scenario 3: the agent says the same three times. ***/

  predicate NoObservationBetween(f: seq<Event>, from: nat, to: nat) {
    forall k :: from < k < to && k < |f| ==> IsAction(f[k])
  }

  /** Three times the same event, without an observation between. */
  predicate SaidThrice(f: seq<Event>, x: nat, y: nat, z: nat)
    requires x < |f| && y < |f| && z < |f|
  {
    f[y].body == f[x].body && f[z].body == f[x].body && NoObservationBetween(f, x, z)
  }

  predicate IsMonologue(f: seq<Event>) {
    && |Places(f, AgentMessages)| >= 3
    && SaidThrice(f, FromEnd(f, AgentMessages, 3), FromEnd(f, AgentMessages, 2), FromEnd(f, AgentMessages, 1))
  }

  /*** Scenario 4: two actions in turn, three times. ***/

  predicate Alternates(events: seq<Event>)
    requires |events| == 6
  {
    && EqNoPid(events[0], events[2]) && EqNoPid(events[0], events[4])
    && EqNoPid(events[1], events[3]) && EqNoPid(events[1], events[5])
  }

  predicate RepeatsPattern(f: seq<Event>) {
    var actions, observations := Last(f, Actions, 6), Last(f, Observations, 6);
    |actions| == 6 && |observations| == 6 && Alternates(actions) && Alternates(observations)
  }

  /*** Scenario 5: condensations without anything between them. ***/

  predicate OnlyCondensationsBetween(f: seq<Event>, from: nat, to: nat) {
    forall k :: from < k < to && k < |f| ==> f[k].body.Condensation?
  }

  /** The i-th condensation and the next one. */
  predicate CondensedAgain(f: seq<Event>, i: nat)
    requires i + 1 < |Places(f, Condensations)|
  {
    OnlyCondensationsBetween(f, Places(f, Condensations)[i], Places(f, Condensations)[i + 1])
  }

  /** The first such pair from the i-th condensation on. */
  function FirstCondensedAgain(f: seq<Event>, i: nat): (r: Option<nat>)
    requires i < |Places(f, Condensations)|
    ensures r.Some? ==> i <= r.value && r.value + 1 < |Places(f, Condensations)| && CondensedAgain(f, r.value)
    decreases |Places(f, Condensations)| - i
  {
    if i + 1 == |Places(f, Condensations)| then None
    else if CondensedAgain(f, i) then Some(i)
    else FirstCondensedAgain(f, i + 1)
  }

  lemma {:induction false} CondensedAgainIsFound(f: seq<Event>, i: nat, k: nat)
    requires i <= k && k + 1 < |Places(f, Condensations)| && CondensedAgain(f, k)
    ensures FirstCondensedAgain(f, i).Some?
    decreases k - i
  {
    if i < k {
      CondensedAgainIsFound(f, i + 1, k);
    }
  }

  /** Among the last ten condensations. */
  function CondensationLoop(f: seq<Event>): (r: Option<nat>)
    ensures r.Some? ==> r.value + 1 < |Places(f, Condensations)|
  {
    var n := |Places(f, Condensations)|;
    if n < 10 then None else FirstCondensedAgain(f, n - 10)
  }

  predicate RepeatsCondensation(f: seq<Event>) {
    CondensationLoop(f).Some?
  }

  /** Where the first such pair is. */
  function StartOfCondensations(f: seq<Event>): (i: nat)
    requires RepeatsCondensation(f)
    ensures i < |f|
  {
    Places(f, Condensations)[CondensationLoop(f).value]
  }

  /*** All of them. ***/

  /** What is found in the filtered history, if at least three events are left in it. */
  function Analyze(f: seq<Event>, offset: nat): Option<Analysis> {
    if RepeatsActionObservation(f) then
      Some(Analysis(RepeatingActionObservation, 4, StartOfActions(f, 4) + offset))
    else if RepeatsError(f) then
      Some(Analysis(RepeatingActionError, 3, StartOfActions(f, 4) + offset))
    else if IsMonologue(f) then
      Some(Analysis(Monologue, 3, FromEnd(f, AgentMessages, 3) + offset))
    else if |f| >= 6 && RepeatsPattern(f) then
      Some(Analysis(ActionObservationPattern, 3, StartOfActions(f, 6) + offset))
    else if |f| >= 10 && RepeatsCondensation(f) then
      Some(Analysis(ContextWindowError, 2, StartOfCondensations(f) + offset))
    else None
  }

  /** Where the events that are looked at begin: in interactive mode, behind the last message of
      the user. */
  function Offset(history: seq<Event>, headless: bool): (from: nat)
    ensures from <= |history|
  {
    if headless || history == [] then 0
    else if IsUserMessage(history[|history| - 1]) then |history|
    else Offset(history[..|history| - 1], headless)
  }

  predicate IsLooked(e: Event) {
    !IsUserMessage(e) && !e.body.NullAction? && !e.body.NullObservation?
  }

  function Filtered(events: seq<Event>): seq<Event> {
    if events == [] then []
    else Filtered(events[..|events| - 1]) + if IsLooked(events[|events| - 1]) then [events[|events| - 1]] else []
  }

  function Looked(history: seq<Event>, headless: bool): seq<Event> {
    Filtered(history[Offset(history, headless)..])
  }

  function Found(history: seq<Event>, headless: bool): Option<Analysis> {
    var f := Looked(history, headless);
    if |f| < 3 then None else Analyze(f, Offset(history, headless))
  }

  predicate IsStuck(history: seq<Event>, headless: bool) {
    Found(history, headless).Some?
  }
}
