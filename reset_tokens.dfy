/**
 * The password reset tokens of the user-service (`models/PasswordResetToken.ts`): a table of tokens,
 * each owned by a user, with an expiry and a `used` flag, and the queries and updates over it.
 * Times are milliseconds; the current time is a parameter. The token text is random in the
 * source and is a parameter here.
 */
module ResetTokens {
  import opened Wrappers
  import opened Sequences

  /** Milliseconds in one hour. */
  const HourMs: int := 3600000

  /** One row of `password_reset_tokens`. */
  datatype Token = Token(id: nat, userId: string, value: string, expiresAt: int, used: bool, createdAt: int)

  /** A token still usable at `now`: `used = FALSE AND expires_at > NOW()`. */
  predicate Active(t: Token, now: int) {
    !t.used && t.expiresAt > now
  }

  /** `WHERE token = $1`. */
  function HasValue(value: string): Token -> bool {
    (t: Token) => t.value == value
  }

  /** The rows `findValidToken` selects. */
  function ValidWith(value: string, now: int): Token -> bool {
    (t: Token) => t.value == value && Active(t, now)
  }

  /** The rows `countActiveTokensForUser` counts. */
  function ActiveOf(userId: string, now: int): Token -> bool {
    (t: Token) => t.userId == userId && Active(t, now)
  }

  /** The rows `invalidateUserTokens` updates. */
  function UnusedOf(userId: string): Token -> bool {
    (t: Token) => t.userId == userId && !t.used
  }

  /** The rows `deleteExpiredTokens` keeps: those with `expires_at >= NOW()`. */
  function NotExpired(now: int): Token -> bool {
    (t: Token) => !(t.expiresAt < now)
  }

  /** `result.rows[0] || null`: the first row, in table order, that satisfies `p`. */
  function First(rows: seq<Token>, p: Token -> bool): (r: Option<Token>)
    ensures r.None? <==> forall i :: 0 <= i < |rows| ==> !p(rows[i])
    ensures r.Some? ==> r.value in rows && p(r.value)
    decreases |rows|
  {
    if rows == [] then None
    else if p(rows[0]) then Some(rows[0])
    else First(rows[1..], p)
  }

  /**
   * `findValidToken`: a token with that text, unused and not expired at `now`, or nothing when no
   * such row exists.
   */
  function FindValid(rows: seq<Token>, value: string, now: int): (r: Option<Token>)
    ensures r.None? <==> forall i :: 0 <= i < |rows| ==> !(rows[i].value == value && Active(rows[i], now))
    ensures r.Some? ==> r.value in rows && r.value.value == value && Active(r.value, now)
  {
    First(rows, ValidWith(value, now))
  }

  /** `findTokenByValue`: a token with that text, used or expired or not. */
  function FindByValue(rows: seq<Token>, value: string): (r: Option<Token>)
    ensures r.None? <==> forall i :: 0 <= i < |rows| ==> rows[i].value != value
    ensures r.Some? ==> r.value in rows && r.value.value == value
  {
    First(rows, HasValue(value))
  }

  /** `countActiveTokensForUser`: the user's tokens that are unused and not expired at `now`. */
  function CountActive(rows: seq<Token>, userId: string, now: int): (n: nat)
    ensures n <= |rows|
    ensures n == 0 <==> forall i :: 0 <= i < |rows| ==> !(rows[i].userId == userId && Active(rows[i], now))
  {
    var active := Filter(rows, ActiveOf(userId, now));
    assert forall i :: 0 <= i < |rows| && rows[i].userId == userId && Active(rows[i], now) ==> rows[i] in active;
    assert |active| > 0 ==> active[0] in rows && ActiveOf(userId, now)(active[0]);
    |active|
  }

  /**
   * `UPDATE ... SET used = TRUE WHERE p`: every row that satisfies `p` becomes used; every other
   * row, and every other column, stays as it was.
   */
  function UseWhere(rows: seq<Token>, p: Token -> bool): (r: seq<Token>)
    ensures |r| == |rows|
    ensures forall i :: 0 <= i < |rows| ==> r[i] == if p(rows[i]) then rows[i].(used := true) else rows[i]
    decreases |rows|
  {
    if rows == [] then []
    else [if p(rows[0]) then rows[0].(used := true) else rows[0]] + UseWhere(rows[1..], p)
  }

  /** Every id is below the next id to hand out. */
  predicate IdsBelow(rows: seq<Token>, next: nat) {
    forall i :: 0 <= i < |rows| ==> rows[i].id < next
  }

  /** The token table, updated in place. */
  class TokenStore {
    var rows: seq<Token>
    var nextId: nat

    predicate Valid()
      reads this
    {
      IdsBelow(rows, nextId)
    }

    constructor ()
      ensures Valid()
      ensures rows == [] && nextId == 0
    {
      rows := [];
      nextId := 0;
    }

    /**
     * `createPasswordResetToken`: inserts one unused token for the user, created at `now` and
     * expiring `hours` hours later (one hour when no duration is given).
     */
    method Create(userId: string, value: string, hours: Option<int>, now: int) returns (t: Token)
      requires Valid()
      modifies this
      ensures Valid()
      ensures t == Token(old(nextId), userId, value, now + hours.GetOr(1) * HourMs, false, now)
      ensures rows == old(rows) + [t] && nextId == old(nextId) + 1
      ensures forall i :: 0 <= i < |old(rows)| ==> old(rows)[i].id != t.id
    {
      t := Token(nextId, userId, value, now + hours.GetOr(1) * HourMs, false, now);
      rows := rows + [t];
      nextId := nextId + 1;
    }

    /** `markTokenAsUsed`: every row with that text becomes used; true when there was one. */
    method MarkUsed(value: string) returns (changed: bool)
      requires Valid()
      modifies this
      ensures Valid()
      ensures rows == UseWhere(old(rows), HasValue(value)) && nextId == old(nextId)
      ensures changed <==> FindByValue(old(rows), value).Some?
    {
      var matching := Filter(rows, HasValue(value));
      if |matching| > 0 {
        assert matching[0] in rows && matching[0].value == value;
      }
      if FindByValue(rows, value).Some? {
        assert FindByValue(rows, value).value in matching;
      }
      changed := |matching| > 0;
      rows := UseWhere(rows, HasValue(value));
    }

    /**
     * `invalidateUserTokens`: every unused token of the user becomes used; the result is how many
     * rows changed.
     */
    method InvalidateUser(userId: string) returns (count: nat)
      requires Valid()
      modifies this
      ensures Valid()
      ensures rows == UseWhere(old(rows), UnusedOf(userId)) && nextId == old(nextId)
      ensures count == |Filter(old(rows), UnusedOf(userId))|
    {
      count := |Filter(rows, UnusedOf(userId))|;
      rows := UseWhere(rows, UnusedOf(userId));
    }

    /** `deleteExpiredTokens`: removes the tokens that expired before `now`; returns how many. */
    method DeleteExpired(now: int) returns (count: nat)
      requires Valid()
      modifies this
      ensures Valid()
      ensures rows == Filter(old(rows), NotExpired(now)) && nextId == old(nextId)
      ensures count == |old(rows)| - |rows|
    {
      var kept := Filter(rows, NotExpired(now));
      forall i | 0 <= i < |kept| ensures kept[i].id < nextId {
        assert kept[i] in rows;
      }
      count := |rows| - |kept|;
      rows := kept;
    }
  }

  // ---------------------------------------------------------------------------------------
  // Properties

  /** Marking a token as used twice is the same as once. */
  lemma {:induction false} MarkUsedIdempotent(rows: seq<Token>, value: string)
    ensures UseWhere(UseWhere(rows, HasValue(value)), HasValue(value)) == UseWhere(rows, HasValue(value))
  {
    var once := UseWhere(rows, HasValue(value));
    var twice := UseWhere(once, HasValue(value));
    assert forall i :: 0 <= i < |rows| ==> twice[i] == once[i];
  }

  /** After `markTokenAsUsed(v)` no token with text `v` is valid, and the rows with it are still found. */
  lemma {:induction false} MarkedNotValid(rows: seq<Token>, value: string, now: int)
    ensures FindValid(UseWhere(rows, HasValue(value)), value, now) == None
    ensures FindByValue(UseWhere(rows, HasValue(value)), value).Some? <==> FindByValue(rows, value).Some?
  {
    var after := UseWhere(rows, HasValue(value));
    assert forall i :: 0 <= i < |after| ==> after[i].value == rows[i].value;
    forall i | 0 <= i < |after| ensures !(after[i].value == value && Active(after[i], now)) {
    }
  }

  /** Right after `invalidateUserTokens(u)` the user has no active token. */
  lemma {:induction false} NoActiveAfterInvalidate(rows: seq<Token>, userId: string, now: int)
    ensures CountActive(UseWhere(rows, UnusedOf(userId)), userId, now) == 0
  {
    var after := UseWhere(rows, UnusedOf(userId));
    forall i | 0 <= i < |after| ensures !(after[i].userId == userId && Active(after[i], now)) {
    }
  }

  /** `invalidateUserTokens(u)` leaves every other user's active tokens as they were. */
  lemma {:induction false} InvalidateKeepsOthers(rows: seq<Token>, userId: string, other: string, now: int)
    requires other != userId
    ensures Filter(UseWhere(rows, UnusedOf(userId)), ActiveOf(other, now)) == Filter(rows, ActiveOf(other, now))
    ensures CountActive(UseWhere(rows, UnusedOf(userId)), other, now) == CountActive(rows, other, now)
    decreases |rows|
  {
    if rows != [] {
      var after := UseWhere(rows, UnusedOf(userId));
      assert after[1..] == UseWhere(rows[1..], UnusedOf(userId));
      InvalidateKeepsOthers(rows[1..], userId, other, now);
      assert ActiveOf(other, now)(after[0]) == ActiveOf(other, now)(rows[0]);
      assert after[0] == rows[0] || !ActiveOf(other, now)(rows[0]);
    }
  }

  /** A second `invalidateUserTokens(u)` finds nothing left to change. */
  lemma {:induction false} InvalidateTwice(rows: seq<Token>, userId: string)
    ensures |Filter(UseWhere(rows, UnusedOf(userId)), UnusedOf(userId))| == 0
  {
    var after := UseWhere(rows, UnusedOf(userId));
    FilterNone(after, UnusedOf(userId));
  }

  /** A filter that keeps every row `p` selects does not change which row `p` selects first. */
  lemma {:induction false} FirstAfterFilter(rows: seq<Token>, keep: Token -> bool, p: Token -> bool)
    requires forall t :: p(t) ==> keep(t)
    ensures First(Filter(rows, keep), p) == First(rows, p)
    decreases |rows|
  {
    if rows != [] {
      FirstAfterFilter(rows[1..], keep, p);
      if keep(rows[0]) {
        assert Filter(rows, keep) == [rows[0]] + Filter(rows[1..], keep);
        assert (Filter(rows, keep))[1..] == Filter(rows[1..], keep);
      } else {
        assert Filter(rows, keep) == Filter(rows[1..], keep);
      }
    }
  }

  /** Filtering twice, where the second filter implies the first, is filtering once. */
  lemma {:induction false} FilterAfterFilter(rows: seq<Token>, keep: Token -> bool, p: Token -> bool)
    requires forall t :: p(t) ==> keep(t)
    ensures Filter(Filter(rows, keep), p) == Filter(rows, p)
    decreases |rows|
  {
    if rows != [] {
      FilterAfterFilter(rows[1..], keep, p);
      if keep(rows[0]) {
        assert Filter(rows, keep) == [rows[0]] + Filter(rows[1..], keep);
        FilterAppend([rows[0]], Filter(rows[1..], keep), p);
      } else {
        assert Filter(rows, keep) == Filter(rows[1..], keep);
      }
    }
  }

  /**
   * `deleteExpiredTokens` at `now` removes no token that is valid at `now`: every lookup and count
   * of valid tokens gives the same answer afterwards.
   */
  lemma {:induction false} CleanupKeepsValid(rows: seq<Token>, value: string, userId: string, now: int)
    ensures FindValid(Filter(rows, NotExpired(now)), value, now) == FindValid(rows, value, now)
    ensures CountActive(Filter(rows, NotExpired(now)), userId, now) == CountActive(rows, userId, now)
  {
    FirstAfterFilter(rows, NotExpired(now), ValidWith(value, now));
    FilterAfterFilter(rows, NotExpired(now), ActiveOf(userId, now));
  }

  /**
   * A token whose expiry is exactly `now` is in neither camp: it is not valid (the lookup asks for
   * `expires_at > now`) and not deleted (the cleanup removes `expires_at < now`).
   */
  lemma {:induction false} ExpiryBoundary(rows: seq<Token>, i: nat, now: int)
    requires i < |rows| && rows[i].expiresAt == now
    ensures !Active(rows[i], now)
    ensures rows[i] in Filter(rows, NotExpired(now))
    ensures FindValid(rows, rows[i].value, now) != Some(rows[i])
  {
  }

  /**
   * A token created at `now` with a positive duration is valid at once: the lookup by its text
   * finds a valid token and the owner's active count grows by one.
   */
  lemma {:induction false} CreatedIsActive(rows: seq<Token>, t: Token, now: int)
    requires !t.used && t.expiresAt > now
    ensures FindValid(rows + [t], t.value, now).Some?
    ensures CountActive(rows + [t], t.userId, now) == CountActive(rows, t.userId, now) + 1
  {
    var all := rows + [t];
    assert all[|rows|] == t;
    FilterAppend(rows, [t], ActiveOf(t.userId, now));
    assert Filter([t], ActiveOf(t.userId, now)) == [t] by {
      assert [t][1..] == [];
    }
  }
}
