/** One row of provider tokens, loaded and refreshed by any number of calls under a row lock. */
module AuthTokens {
  import opened Wrappers

  type Token = int

  datatype Row = Row(access: Token, refresh: Token, accessExpiresAt: int, refreshExpiresAt: int)

  /** A call of load_tokens that holds the lock: the row it read, and the pair it was given for the
      refresh token of that row. */
  datatype Holder = Holder(caller: int, read: Row, given: Option<Row>)

  /** spent: the refresh tokens given to the provider, in order; issued: the rows that came from the
      provider, in order. */
  datatype State = State(row: Option<Row>, holder: Option<Holder>, spent: seq<Token>, issued: seq<Row>)

  const ACCESS_MARGIN := 14400

  datatype Verdict = StillValid | MustRefresh | BothExpired

  /** _check_expiration_and_refresh, up to the refresh: 0 means no expiration. */
  function Check(row: Row, now: int): Verdict {
    var accessExpired := row.accessExpiresAt != 0 && row.accessExpiresAt < now + ACCESS_MARGIN;
    var refreshExpired := row.refreshExpiresAt != 0 && row.refreshExpiresAt < now;
    if !accessExpired then StillValid else if refreshExpired then BothExpired else MustRefresh
  }

  /** Lock: a call reads the row for update. Keep: it needs no refresh, or cannot have one, and
      ends. Refresh: the provider takes the refresh token and gives a new pair. Commit: the pair is
      stored and the lock released. Abort: the transaction ends without being committed. Store:
      store_tokens, whose update waits for the lock. */
  datatype Move =
    | Lock(caller: int)
    | Keep(checkedAt: Option<int>)
    | Refresh(now: int, given: Row)
    | Commit
    | Abort
    | Store(stored: Row)

  predicate IsFresh(s: State, token: Token) {
    forall i :: 0 <= i < |s.issued| ==> s.issued[i].refresh != token
  }

  /** The provider never gives a refresh token that it gave before. */
  predicate Enabled(s: State, m: Move) {
    match m
    case Lock(_) => s.holder.None? && s.row.Some?
    case Keep(checkedAt) =>
      && s.holder.Some? && s.holder.value.given.None?
      && (checkedAt.Some? ==> Check(s.holder.value.read, checkedAt.value) != MustRefresh)
    case Refresh(now, given) =>
      && s.holder.Some? && s.holder.value.given.None?
      && Check(s.holder.value.read, now) == MustRefresh && IsFresh(s, given.refresh)
    case Commit => s.holder.Some? && s.holder.value.given.Some?
    case Abort => s.holder.Some?
    case Store(_) => s.holder.None?
  }

  function Apply(s: State, m: Move): State
    requires Enabled(s, m)
  {
    match m
    case Lock(caller) => s.(holder := Some(Holder(caller, s.row.value, None)))
    case Keep(_) => s.(holder := None)
    case Refresh(_, given) =>
      s.(holder := Some(s.holder.value.(given := Some(given))),
         spent := s.spent + [s.holder.value.read.refresh], issued := s.issued + [given])
    case Commit => s.(row := s.holder.value.given, holder := None)
    case Abort => s.(holder := None)
    case Store(stored) => s.(row := Some(stored), issued := s.issued + [stored])
  }

  predicate IsRun(s: State, moves: seq<Move>)
    decreases |moves|
  {
    moves == [] || (Enabled(s, moves[0]) && IsRun(Apply(s, moves[0]), moves[1..]))
  }

  function After(s: State, moves: seq<Move>): State
    requires IsRun(s, moves)
    decreases |moves|
  {
    if moves == [] then s else After(Apply(s, moves[0]), moves[1..])
  }

  predicate Initial(s: State) {
    s.holder.None? && s.spent == [] && s.issued == if s.row.Some? then [s.row.value] else []
  }

  /*** What every move keeps. ***/

  predicate HasGiven(s: State) {
    s.holder.Some? && s.holder.value.given.Some?
  }

  /** The lock keeps the row as it was read, a pair that was given is the newest one and unspent, and
      whatever was spent or stored came from the provider. */
  predicate Inv(s: State) {
    && (s.holder.Some? ==> s.row == Some(s.holder.value.read))
    && (HasGiven(s) ==> s.issued != [] && s.holder.value.given == Some(s.issued[|s.issued| - 1])
                        && s.holder.value.given.value.refresh !in s.spent
                        && s.spent != [] && s.spent[|s.spent| - 1] == s.holder.value.read.refresh)
    && (forall t :: t in s.spent ==> !IsFresh(s, t))
    && (s.row.Some? ==> !IsFresh(s, s.row.value.refresh))
  }

  lemma MoveKeepsInv(s: State, m: Move)
    requires Inv(s) && Enabled(s, m)
    ensures Inv(Apply(s, m))
  {
    var t := Apply(s, m);
    assert forall i :: 0 <= i < |s.issued| ==> t.issued[i] == s.issued[i];
    assert forall token :: !IsFresh(s, token) ==> !IsFresh(t, token);
    match m
    case Refresh(_, given) => assert t.issued[|t.issued| - 1] == given;
    case Store(stored) => assert t.issued[|t.issued| - 1] == stored;
    case _ =>
  }

  predicate NoneTwice(spent: seq<Token>) {
    forall i, j :: 0 <= i < j < |spent| ==> spent[i] != spent[j]
  }

  /** Whether the row holds a spent token, as far as the moves tell: a call was given a pair and did
      not store it, or a spent token was stored again. */
  predicate HoldsSpent(s: State, m: Move, before: bool)
    requires Enabled(s, m)
  {
    match m
    case Abort => before || HasGiven(s)
    case Commit => false
    case Store(stored) => stored.refresh in s.spent
    case _ => before
  }

  /** No call refreshes while the row holds a spent token. */
  predicate RefreshesAreSafe(s: State, moves: seq<Move>, spentRow: bool)
    requires IsRun(s, moves)
    decreases |moves|
  {
    moves == []
    || (&& (moves[0].Refresh? ==> !spentRow)
        && RefreshesAreSafe(Apply(s, moves[0]), moves[1..], HoldsSpent(s, moves[0], spentRow)))
  }

  /** The flag is right whenever it matters. */
  predicate FlagIsRight(s: State, spentRow: bool) {
    s.row.Some? && !HasGiven(s) ==> (s.row.value.refresh in s.spent <==> spentRow)
  }

  lemma MoveKeepsFlag(s: State, m: Move, spentRow: bool)
    requires Inv(s) && Enabled(s, m) && FlagIsRight(s, spentRow)
    ensures FlagIsRight(Apply(s, m), HoldsSpent(s, m, spentRow))
  {
  }

  lemma {:induction false} SpentGrows(s: State, moves: seq<Move>)
    requires IsRun(s, moves)
    ensures s.spent <= After(s, moves).spent
    decreases |moves|
  {
    if moves != [] {
      SpentGrows(Apply(s, moves[0]), moves[1..]);
    }
  }

  lemma SpendingTwice(spent: seq<Token>, token: Token)
    requires NoneTwice(spent)
    ensures NoneTwice(spent + [token]) <==> token !in spent
  {
    var more := spent + [token];
    if token in spent {
      var i :| 0 <= i < |spent| && spent[i] == token;
      assert more[i] == more[|spent|];
    }
  }

  lemma TwiceStays(spent: seq<Token>, more: seq<Token>)
    requires spent <= more && !NoneTwice(spent)
    ensures !NoneTwice(more)
  {
    var i, j :| 0 <= i < j < |spent| && spent[i] == spent[j];
    assert more[i] == more[j];
  }

  /** In whatever order the calls run, no refresh token is spent twice if and only if no call
      refreshes while the row holds a token of an aborted refresh, or one that was stored again. */
  lemma {:induction false} SpentOnceIff(s: State, moves: seq<Move>, spentRow: bool)
    requires Inv(s) && FlagIsRight(s, spentRow) && NoneTwice(s.spent) && IsRun(s, moves)
    ensures NoneTwice(After(s, moves).spent) <==> RefreshesAreSafe(s, moves, spentRow)
    decreases |moves|
  {
    if moves != [] {
      var m := moves[0];
      var t := Apply(s, m);
      MoveKeepsInv(s, m);
      MoveKeepsFlag(s, m, spentRow);
      if m.Refresh? {
        SpendingTwice(s.spent, s.holder.value.read.refresh);
      }
      if m.Refresh? && spentRow {
        SpentGrows(t, moves[1..]);
        TwiceStays(t.spent, After(t, moves[1..]).spent);
      } else {
        SpentOnceIff(t, moves[1..], HoldsSpent(s, m, spentRow));
      }
    }
  }

  /*** The newest pair. ***/

  /** Whether the newest pair that was issued was not stored. */
  predicate IsBehind(s: State, m: Move, before: bool) {
    match m
    case Abort => before || HasGiven(s)
    case Commit => false
    case Store(_) => false
    case _ => before
  }

  predicate BehindAfter(s: State, moves: seq<Move>, behind: bool)
    requires IsRun(s, moves)
    decreases |moves|
  {
    if moves == [] then behind else BehindAfter(Apply(s, moves[0]), moves[1..], IsBehind(s, moves[0], behind))
  }

  predicate BehindIsRight(s: State, behind: bool) {
    s.row.Some? ==>
      && s.issued != []
      && (!HasGiven(s) ==> (s.row.value == s.issued[|s.issued| - 1] <==> !behind))
  }

  lemma MoveKeepsBehind(s: State, m: Move, behind: bool)
    requires Inv(s) && Enabled(s, m) && BehindIsRight(s, behind)
    ensures BehindIsRight(Apply(s, m), IsBehind(s, m, behind))
  {
    if m.Abort? && HasGiven(s) {
      assert s.spent[|s.spent| - 1] in s.spent;
    }
  }

  /** Between refreshes, the stored row is the newest pair the provider issued if and only if no
      refresh was aborted since the last time a pair was stored. */
  lemma {:induction false} RowIsNewestIff(s: State, moves: seq<Move>, behind: bool)
    requires Inv(s) && BehindIsRight(s, behind) && IsRun(s, moves)
    ensures BehindIsRight(After(s, moves), BehindAfter(s, moves, behind))
    decreases |moves|
  {
    if moves != [] {
      MoveKeepsInv(s, moves[0]);
      MoveKeepsBehind(s, moves[0], behind);
      RowIsNewestIff(Apply(s, moves[0]), moves[1..], IsBehind(s, moves[0], behind));
    }
  }

  /*** When every refresh is committed. ***/

  predicate CommitsEveryRefresh(s: State, moves: seq<Move>)
    requires IsRun(s, moves)
    decreases |moves|
  {
    moves == []
    || (&& (moves[0].Abort? ==> !HasGiven(s))
        && (moves[0].Store? ==> moves[0].stored.refresh !in s.spent)
        && CommitsEveryRefresh(Apply(s, moves[0]), moves[1..]))
  }

  lemma {:induction false} CommittedIsSafe(s: State, moves: seq<Move>)
    requires IsRun(s, moves) && CommitsEveryRefresh(s, moves)
    ensures RefreshesAreSafe(s, moves, false) && !BehindAfter(s, moves, false)
    decreases |moves|
  {
    if moves != [] {
      CommittedIsSafe(Apply(s, moves[0]), moves[1..]);
    }
  }

  /** If a call that was given a pair always stores it, no refresh token is spent twice, and between
      refreshes the row is the newest pair. */
  lemma RefreshTokensAreSpentOnce(s: State, moves: seq<Move>)
    requires Initial(s) && IsRun(s, moves) && CommitsEveryRefresh(s, moves)
    ensures var t := After(s, moves);
            && NoneTwice(t.spent)
            && (t.row.Some? && !HasGiven(t) ==> t.issued != [] && t.row.value == t.issued[|t.issued| - 1])
  {
    assert s.row.Some? ==> s.issued[0] == s.row.value;
    CommittedIsSafe(s, moves);
    SpentOnceIff(s, moves, false);
    RowIsNewestIff(s, moves, false);
  }

  /** A call that is aborted between the refresh and the commit leaves a spent token in the row, and
      the next call spends it again. */
  lemma AbortedRefreshSpendsTwice(row: Row, now: int, first: Row, second: Row)
    requires Check(row, now) == MustRefresh && first.refresh != row.refresh
    requires second.refresh != row.refresh && second.refresh != first.refresh
    ensures var s := State(Some(row), None, [], [row]);
            var moves := [Lock(1), Refresh(now, first), Abort, Lock(2), Refresh(now, second)];
            Initial(s) && IsRun(s, moves) && !NoneTwice(After(s, moves).spent)
  {
    var s0 := State(Some(row), None, [], [row]);
    var s1 := Apply(s0, Lock(1));
    assert IsFresh(s1, first.refresh);
    var s2 := Apply(s1, Refresh(now, first));
    var s3 := Apply(s2, Abort);
    var s4 := Apply(s3, Lock(2));
    assert IsFresh(s4, second.refresh);
    var s5 := Apply(s4, Refresh(now, second));
    assert s5.spent == [row.refresh, row.refresh];
    assert s5.spent[0] == s5.spent[1];
    RunFrom(s4, Refresh(now, second), []);
    RunFrom(s3, Lock(2), [Refresh(now, second)]);
    RunFrom(s2, Abort, [Lock(2), Refresh(now, second)]);
    RunFrom(s1, Refresh(now, first), [Abort, Lock(2), Refresh(now, second)]);
    RunFrom(s0, Lock(1), [Refresh(now, first), Abort, Lock(2), Refresh(now, second)]);
    assert [Lock(1), Refresh(now, first), Abort, Lock(2), Refresh(now, second)]
        == [Lock(1)] + [Refresh(now, first), Abort, Lock(2), Refresh(now, second)];
  }

  lemma RunFrom(s: State, m: Move, rest: seq<Move>)
    requires Enabled(s, m) && IsRun(Apply(s, m), rest)
    ensures IsRun(s, [m] + rest) && After(s, [m] + rest) == After(Apply(s, m), rest)
  {
    assert ([m] + rest)[1..] == rest;
  }
}
