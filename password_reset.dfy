/**
 * The password reset handlers of the user-service (`controllers/passwordResetController.ts`):
 * requesting a reset link, checking a token, and setting the new password. The request bodies'
 * schemas are given as already parsed (`None` when the schema refuses the body); the password hash,
 * the random token text and the current time are parameters; the reset email is returned as the
 * message the mailer would be given.
 */
module PasswordReset {
  import opened Wrappers
  import opened Http
  import opened ResetTokens
  import opened EmailTemplates

  /** One row of `users`, with the columns the handlers read or write. */
  datatype User = User(id: string, email: string, name: string, passwordHash: string, updatedAt: int)

  /** `findUserByEmail`: the user with that address, or nothing. */
  function FindUserByEmail(users: seq<User>, email: string): (r: Option<User>)
    ensures r.None? <==> forall i :: 0 <= i < |users| ==> users[i].email != email
    ensures r.Some? ==> r.value in users && r.value.email == email
    decreases |users|
  {
    if users == [] then None
    else if users[0].email == email then Some(users[0])
    else FindUserByEmail(users[1..], email)
  }

  /** The users after `UPDATE users SET password_hash = $1, updated_at = now WHERE id = $2`. */
  function WithPassword(users: seq<User>, id: string, hash: string, now: int): (r: seq<User>)
    ensures |r| == |users|
    ensures forall i :: 0 <= i < |users| ==>
      r[i] == if users[i].id == id then users[i].(passwordHash := hash, updatedAt := now) else users[i]
    decreases |users|
  {
    if users == [] then []
    else [if users[0].id == id then users[0].(passwordHash := hash, updatedAt := now) else users[0]] +
         WithPassword(users[1..], id, hash, now)
  }

  /** The users table, updated in place. */
  class UserTable {
    var users: seq<User>

    constructor (users: seq<User>)
      ensures this.users == users
    {
      this.users := users;
    }

    /** Sets the password hash of the user with that id and refreshes `updated_at`. */
    method SetPassword(id: string, hash: string, now: int)
      modifies this
      ensures users == WithPassword(old(users), id, hash, now)
    {
      users := WithPassword(users, id, hash, now);
    }
  }

  /** The answer to every accepted reset request, whether or not a link was sent. */
  const RequestAccepted: string := "Se o email estiver cadastrado, você receberá um link de recuperação."

  /** The reply to a body the schema refuses. */
  function InvalidInput<T>(): (r: Reply<T>)
    ensures r.Failure? && r.status == 400
  {
    Failure(400, "Validation Error", "Invalid input data")
  }

  /** The email `sendPasswordResetEmail` is asked to send: the address and the template variables. */
  datatype ResetMail = ResetMail(to: string, variables: seq<(string, string)>)

  /** A user may receive a new link: the address is known and fewer than 3 of its tokens are active. */
  predicate MayRequest(users: seq<User>, tokens: seq<Token>, email: string, now: int) {
    var user := FindUserByEmail(users, email);
    user.Some? && CountActive(tokens, user.value.id, now) < 3
  }

  /**
   * `forgotPassword`: the same 200 reply for an unknown address, a user with 3 or more active
   * tokens, and a user who gets a new one-hour token and an email with its link; a refused body
   * is a 400. Whether the email could be sent does not change the reply.
   */
  method ForgotPassword(users: UserTable, tokens: TokenStore, email: Option<string>, tokenValue: string,
                        frontendUrl: Option<string>, now: int)
    returns (r: Reply<string>, mail: Option<ResetMail>)
    requires tokens.Valid()
    modifies tokens
    ensures tokens.Valid()
    ensures email.None? ==> r == InvalidInput() && mail.None? && tokens.rows == old(tokens.rows)
    ensures email.Some? ==> r == Success(200, RequestAccepted)
    ensures email.Some? && !MayRequest(users.users, old(tokens.rows), email.value, now) ==>
      mail.None? && tokens.rows == old(tokens.rows) && tokens.nextId == old(tokens.nextId)
    ensures email.Some? && MayRequest(users.users, old(tokens.rows), email.value, now) ==>
      var user := FindUserByEmail(users.users, email.value).value;
      tokens.rows == old(tokens.rows) + [Token(old(tokens.nextId), user.id, tokenValue, now + HourMs, false, now)] &&
      mail == Some(ResetMail(user.email, ResetEmailVariables(user.name, ResetLink(frontendUrl, tokenValue))))
  {
    if email.None? {
      return InvalidInput(), None;
    }
    r := Success(200, RequestAccepted);
    mail := None;
    var user := FindUserByEmail(users.users, email.value);
    if user.None? {
      return;
    }
    var active := CountActive(tokens.rows, user.value.id, now);
    if active >= 3 {
      return;
    }
    var token := tokens.Create(user.value.id, tokenValue, Some(1), now);
    mail := Some(ResetMail(user.value.email, ResetEmailVariables(user.value.name, ResetLink(frontendUrl, token.value))));
  }

  /** How a token text stands at `now`, in the order the handlers test it. */
  datatype Verdict =
    | Valid(token: Token)
    | Unknown
    | AlreadyUsed
    | Expired
    | Boundary

  /**
   * The handlers' classification: valid when `findValidToken` finds it; otherwise, by the row
   * `findTokenByValue` finds, unknown, used (checked first), expired before `now`, or else the
   * fall-back case.
   */
  function Classify(rows: seq<Token>, value: string, now: int): (v: Verdict)
    ensures v.Valid? <==> FindValid(rows, value, now).Some?
    ensures v.Valid? ==> v.token.value == value && Active(v.token, now) && v.token in rows
    ensures v.Unknown? <==> forall i :: 0 <= i < |rows| ==> rows[i].value != value
  {
    var valid := FindValid(rows, value, now);
    if valid.Some? then Valid(valid.value)
    else
      var any := FindByValue(rows, value);
      if any.None? then Unknown
      else if any.value.used then AlreadyUsed
      else if any.value.expiresAt < now then Expired
      else Boundary
  }

  /**
   * The fall-back case ("Shouldn't reach here") is reached exactly when no token with that text is
   * valid and the first row with it is unused and expires at `now` itself: neither valid
   * (`expires_at > now`) nor expired (`expires_at < now`).
   */
  lemma {:induction false} BoundaryExactlyAtExpiry(rows: seq<Token>, value: string, now: int)
    ensures Classify(rows, value, now) == Boundary <==>
      FindValid(rows, value, now).None? && FindByValue(rows, value).Some? &&
      !FindByValue(rows, value).value.used && FindByValue(rows, value).value.expiresAt == now
  {
    var any := FindByValue(rows, value);
    if any.Some? && !any.value.used && any.value.expiresAt > now {
      var k :| 0 <= k < |rows| && rows[k] == any.value;
      assert rows[k].value == value && Active(rows[k], now);
      assert FindValid(rows, value, now).Some?;
    }
  }

  /** A used token is reported as used, even when it has also expired. */
  lemma {:induction false} UsedReportedFirst(rows: seq<Token>, i: nat, now: int)
    requires i < |rows| && rows[i].used && forall j :: 0 <= j < |rows| && j != i ==> rows[j].value != rows[i].value
    ensures Classify(rows, rows[i].value, now) == AlreadyUsed
  {
    var value := rows[i].value;
    assert FindValid(rows, value, now).None?;
    var any := FindByValue(rows, value).value;
    assert any == rows[i];
  }

  /** The failure reply of a token that is not valid. */
  function RejectionOf<T>(v: Verdict): (r: Reply<T>)
    requires !v.Valid?
    ensures r.Failure?
    ensures r.status == 404 <==> v.Unknown?
    ensures r.status == 400 <==> !v.Unknown?
    ensures v.Unknown? || v.Boundary? ==> r.message == "Token inválido"
    ensures v.AlreadyUsed? ==> r.message == "Este token já foi utilizado"
    ensures v.Expired? ==> r.message == "Este token expirou. Solicite uma nova recuperação de senha."
  {
    match v
    case Unknown => Failure(404, "Not Found", "Token inválido")
    case AlreadyUsed => Failure(400, "Bad Request", "Este token já foi utilizado")
    case Expired => Failure(400, "Bad Request", "Este token expirou. Solicite uma nova recuperação de senha.")
    case Boundary => Failure(400, "Bad Request", "Token inválido")
  }

  /**
   * `validateResetToken`: an empty token is a 400; a valid one is a 200 with `valid: true`; any
   * other gets the rejection of its verdict. Nothing is changed.
   */
  function ValidateResetToken(rows: seq<Token>, value: string, now: int): (r: Reply<bool>)
    ensures r.Success? <==> value != "" && FindValid(rows, value, now).Some?
    ensures r.Success? ==> r == Success(200, true)
    ensures value == "" ==> r == Failure(400, "Bad Request", "Token is required")
    ensures value != "" && !Classify(rows, value, now).Valid? ==> r == RejectionOf(Classify(rows, value, now))
  {
    if value == "" then Failure(400, "Bad Request", "Token is required")
    else
      var v := Classify(rows, value, now);
      if v.Valid? then Success(200, true) else RejectionOf(v)
  }

  /** The fields of a valid reset body. */
  datatype ResetInput = ResetInput(token: string, password: string)

  /**
   * `resetPassword`: with a valid token, the owner's password hash is replaced (the hash of the new
   * password is `hash`), the token is marked used and every other unused token of the owner is
   * invalidated; any other token gets its rejection and changes nothing.
   */
  method ResetPassword(users: UserTable, tokens: TokenStore, input: Option<ResetInput>, hash: string, now: int)
    returns (r: Reply<string>)
    requires tokens.Valid()
    modifies users, tokens
    ensures tokens.Valid() && tokens.nextId == old(tokens.nextId)
    ensures input.None? ==> r == InvalidInput() && tokens.rows == old(tokens.rows) && users.users == old(users.users)
    ensures input.Some? && !Classify(old(tokens.rows), input.value.token, now).Valid? ==>
      r == RejectionOf(Classify(old(tokens.rows), input.value.token, now)) &&
      tokens.rows == old(tokens.rows) && users.users == old(users.users)
    ensures input.Some? && Classify(old(tokens.rows), input.value.token, now).Valid? ==>
      var owner := Classify(old(tokens.rows), input.value.token, now).token.userId;
      r == Success(200, "Senha redefinida com sucesso") &&
      users.users == WithPassword(old(users.users), owner, hash, now) &&
      tokens.rows == UseWhere(UseWhere(old(tokens.rows), HasValue(input.value.token)), UnusedOf(owner))
  {
    if input.None? {
      return InvalidInput();
    }
    var value := input.value.token;
    var v := Classify(tokens.rows, value, now);
    if !v.Valid? {
      return RejectionOf(v);
    }
    users.SetPassword(v.token.userId, hash, now);
    var marked := tokens.MarkUsed(value);
    var invalidated := tokens.InvalidateUser(v.token.userId);
    r := Success(200, "Senha redefinida com sucesso");
  }

  /** Setting `used` on more rows never makes a token valid. */
  lemma {:induction false} UseWhereKeepsInvalid(rows: seq<Token>, p: Token -> bool, value: string, now: int)
    requires FindValid(rows, value, now).None?
    ensures FindValid(UseWhere(rows, p), value, now).None?
  {
    var after := UseWhere(rows, p);
    forall i | 0 <= i < |after| ensures !(after[i].value == value && Active(after[i], now)) {
      assert after[i].value == rows[i].value;
    }
  }

  /** After a reset with `value`, every row keeps its text and every row with that text is used. */
  lemma {:induction false} SpentRows(rows: seq<Token>, value: string, owner: string)
    ensures var after := UseWhere(UseWhere(rows, HasValue(value)), UnusedOf(owner));
            forall i :: 0 <= i < |rows| ==> after[i].value == rows[i].value && (rows[i].value == value ==> after[i].used)
  {
    var marked := UseWhere(rows, HasValue(value));
    var after := UseWhere(marked, UnusedOf(owner));
    forall i | 0 <= i < |rows| ensures after[i].value == rows[i].value && (rows[i].value == value ==> after[i].used) {
      assert marked[i].value == rows[i].value;
      assert rows[i].value == value ==> marked[i].used;
    }
  }

  /** When every row with the text is used and there is one, the text is reported as used. */
  lemma {:induction false} AllUsedVerdict(rows: seq<Token>, value: string, now: int, k: nat)
    requires k < |rows| && rows[k].value == value
    requires forall i :: 0 <= i < |rows| && rows[i].value == value ==> rows[i].used
    ensures Classify(rows, value, now) == AlreadyUsed
  {
    assert FindValid(rows, value, now).None?;
    var any := FindByValue(rows, value);
    assert any.Some?;
    var j :| 0 <= j < |rows| && rows[j] == any.value;
  }

  /**
   * After a successful reset the same token is refused as used and the owner has no active token
   * left.
   */
  lemma {:induction false} ResetSpendsTokens(rows: seq<Token>, value: string, now: int)
    requires Classify(rows, value, now).Valid?
    ensures var owner := Classify(rows, value, now).token.userId;
            var after := UseWhere(UseWhere(rows, HasValue(value)), UnusedOf(owner));
            Classify(after, value, now) == AlreadyUsed && CountActive(after, owner, now) == 0
  {
    var t := Classify(rows, value, now).token;
    SpentTokenRefused(rows, value, t.userId, now, t);
    NoActiveAfterInvalidate(UseWhere(rows, HasValue(value)), t.userId, now);
  }

  /** Once every row with the text has been marked, the text is refused as used. */
  lemma {:induction false} SpentTokenRefused(rows: seq<Token>, value: string, owner: string, now: int, t: Token)
    requires t in rows && t.value == value
    ensures Classify(UseWhere(UseWhere(rows, HasValue(value)), UnusedOf(owner)), value, now) == AlreadyUsed
  {
    var after := UseWhere(UseWhere(rows, HasValue(value)), UnusedOf(owner));
    SpentRows(rows, value, owner);
    var k :| 0 <= k < |rows| && rows[k] == t;
    AllUsedVerdict(after, value, now, k);
  }
}
