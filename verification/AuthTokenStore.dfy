/** The methods of the token store, as moves on the row. */
module AuthTokenStore {
  import opened Wrappers
  import opened AuthTokens

  datatype LoadError = TokensExpired | RefreshFailed

  /** What a call of load_tokens does: checkedAt is None when it is called without a check, and answer
      is None when the provider refuses. */
  function LoadMoves(row: Option<Row>, caller: int, checkedAt: Option<int>, answer: Option<Row>): seq<Move> {
    if row.None? then []
    else if checkedAt.None? || Check(row.value, checkedAt.value) != MustRefresh then [Lock(caller), Keep(checkedAt)]
    else if answer.None? then [Lock(caller), Abort]
    else [Lock(caller), Refresh(checkedAt.value, answer.value), Commit]
  }

  /** What it leaves. */
  function Loaded(s: State, checkedAt: Option<int>, answer: Option<Row>): State {
    if s.row.None? || checkedAt.None? || Check(s.row.value, checkedAt.value) != MustRefresh || answer.None? then s
    else s.(row := answer, spent := s.spent + [s.row.value.refresh], issued := s.issued + [answer.value])
  }

  /** A call that runs to its end is a run of moves that commits its refresh. */
  lemma LoadIsRun(s: State, caller: int, checkedAt: Option<int>, answer: Option<Row>)
    requires s.holder.None? && (answer.Some? ==> IsFresh(s, answer.value.refresh))
    ensures var moves := LoadMoves(s.row, caller, checkedAt, answer);
            IsRun(s, moves) && CommitsEveryRefresh(s, moves) && After(s, moves) == Loaded(s, checkedAt, answer)
  {
    var moves := LoadMoves(s.row, caller, checkedAt, answer);
    if s.row.Some? {
      var t := Apply(s, Lock(caller));
      var rest := moves[1..];
      var u := Apply(t, rest[0]);
      if |moves| == 2 {
        assert rest[1..] == [] && u == s;
        assert After(t, rest) == After(u, []);
      } else {
        assert rest[1..] == [Commit] && [Commit][1..] == [];
        assert IsRun(u, [Commit]) && After(u, [Commit]) == Loaded(s, checkedAt, answer);
      }
    }
  }

  /** The access token is treated as expired four hours before it does; 0 means that a token does not
      expire. */
  predicate AccessRunsOut(row: Row, now: int) {
    row.accessExpiresAt != 0 && row.accessExpiresAt - 4 * 60 * 60 < now
  }

  predicate RefreshRunOut(row: Row, now: int) {
    row.refreshExpiresAt != 0 && row.refreshExpiresAt < now
  }

  /** A call asks the provider for a new pair exactly when it is to check, the access token runs out
      and the refresh token has not. */
  predicate Asks(row: Option<Row>, checkedAt: Option<int>) {
    && row.Some? && checkedAt.Some?
    && AccessRunsOut(row.value, checkedAt.value) && !RefreshRunOut(row.value, checkedAt.value)
  }

  lemma CheckIs(row: Row, now: int)
    ensures Check(row, now) == if !AccessRunsOut(row, now) then StillValid
                               else if RefreshRunOut(row, now) then BothExpired else MustRefresh
  {
  }

  class AuthTokenStore {
    var row: Option<Row>
    var holder: Option<Holder>
    var spent: seq<Token>
    var issued: seq<Row>

    constructor (stored: Option<Row>)
      ensures View() == State(stored, None, [], if stored.Some? then [stored.value] else [])
    {
      row := stored;
      holder := None;
      spent := [];
      issued := if stored.Some? then [stored.value] else [];
    }

    ghost function View(): State
      reads this
    {
      State(row, holder, spent, issued)
    }

    /** select ... with_for_update */
    method LockRow(caller: int) returns (record: Option<Row>)
      requires holder.None?
      modifies this`holder
      ensures record == row
      ensures View() == if row.Some? then Apply(old(View()), Lock(caller)) else old(View())
    {
      record := row;
      if record.Some? {
        holder := Some(Holder(caller, record.value, None));
      }
    }

    /** The provider takes the refresh token and gives a new pair. */
    method RefreshAtProvider(now: int, answer: Row)
      requires Enabled(View(), Refresh(now, answer))
      modifies this`holder, this`spent, this`issued
      ensures View() == Apply(old(View()), Refresh(now, answer))
    {
      spent := spent + [holder.value.read.refresh];
      issued := issued + [answer];
      holder := Some(holder.value.(given := Some(answer)));
    }

    /** load_tokens */
    method LoadTokens(caller: int, checkedAt: Option<int>, answer: Option<Row>)
      returns (tokens: Result<Option<Row>, LoadError>)
      requires holder.None?
      requires answer.Some? ==> IsFresh(View(), answer.value.refresh)
      modifies this
      ensures View() == Loaded(old(View()), checkedAt, answer)
      ensures tokens.Ok? ==> tokens.value == row
      ensures tokens.Err? <==>
                && old(row).Some? && checkedAt.Some? && AccessRunsOut(old(row).value, checkedAt.value)
                && (RefreshRunOut(old(row).value, checkedAt.value) || answer.None?)
      ensures row == if Asks(old(row), checkedAt) && answer.Some? then answer else old(row)
      ensures spent == old(spent) + if Asks(old(row), checkedAt) && answer.Some? then [old(row).value.refresh] else []
    {
      if row.Some? && checkedAt.Some? {
        CheckIs(row.value, checkedAt.value);
      }
      var record := LockRow(caller);
      if record.None? {
        return Ok(None);
      }
      if checkedAt.None? {
        holder := None;
        return Ok(record);
      }
      match Check(record.value, checkedAt.value) {
        case StillValid =>
          holder := None;
          tokens := Ok(record);
        case BothExpired =>
          holder := None;
          tokens := Err(TokensExpired);
        case MustRefresh =>
          if answer.None? {
            holder := None;
            return Err(RefreshFailed);
          }
          RefreshAtProvider(checkedAt.value, answer.value);
          row := answer;
          holder := None;
          tokens := Ok(answer);
      }
    }

    /** store_tokens */
    method StoreTokens(access: Token, refresh: Token, accessExpiresAt: int, refreshExpiresAt: int)
      requires holder.None?
      modifies this
      ensures View() == Apply(old(View()), Store(Row(access, refresh, accessExpiresAt, refreshExpiresAt)))
      ensures row.Some? && row.value.access == access && row.value.refresh == refresh
      ensures row.value.accessExpiresAt == accessExpiresAt && row.value.refreshExpiresAt == refreshExpiresAt
    {
      row := Some(Row(access, refresh, accessExpiresAt, refreshExpiresAt));
      issued := issued + [row.value];
    }

    /** is_access_token_valid, at a time */
    method IsAccessTokenValid(caller: int, now: int) returns (valid: bool)
      requires holder.None?
      modifies this
      ensures View() == old(View())
      ensures valid == (row.Some? && row.value.accessExpiresAt > now + 30)
    {
      var tokens := LoadTokens(caller, None, None);
      valid := tokens.Ok? && tokens.value.Some? && tokens.value.value.accessExpiresAt > now + 30;
    }
  }
}
