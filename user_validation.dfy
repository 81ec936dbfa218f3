/**
 * The user-service's request validators (`utils/validation.ts`): the bodies of register, login and
 * profile update.
 */
module UserValidation {
  import opened Wrappers
  import opened JsText
  import opened Zod

  /** `/^[a-zA-Z\s]+$/`: one or more ASCII letters and white space characters, nothing else. */
  predicate LettersAndSpaces(s: string) {
    s != [] && forall i :: 0 <= i < |s| ==> IsAsciiLetter(s[i]) || IsSpace(s[i])
  }

  /** An email field: a string in Zod's email format of 5 to 255 characters. */
  predicate EmailOk(v: Input) {
    v.Str? && IsEmail(v.text) && 5 <= Utf16Length(v.text) <= 255
  }

  /** `z.string().email().min(5).max(255)`; each failing check adds its issue. */
  function CheckedEmail(v: Input): (r: Result<string, seq<Issue>>)
    ensures r.Ok? <==> EmailOk(v)
    ensures r.Ok? ==> r.value == v.text
    ensures r.Err? ==> r.error != []
  {
    if !v.Str? then Err(TypeIssues("email", v))
    else
      var issues := FormatIssues("email", IsEmail(v.text), "Invalid email format") +
                    MinIssues("email", v.text, 5, "Email must be at least 5 characters") +
                    MaxIssues("email", v.text, 255, "Email must be at most 255 characters");
      if issues == [] then Ok(v.text) else Err(issues)
  }

  /** A valid registration: email, password and name. */
  datatype RegisterInput = RegisterInput(email: string, password: string, name: string)

  /** The name rule of registration: 2 to 100 characters, ASCII letters and spaces only. */
  predicate RegisterNameOk(s: string) {
    2 <= Utf16Length(s) <= 100 && LettersAndSpaces(s)
  }

  /**
   * `registerSchema`: the email as above, a password of 6 to 100 characters and a name of 2 to 100
   * ASCII letters and spaces.
   */
  function ValidateRegister(email: Input, password: Input, name: Input): (r: Result<RegisterInput, seq<Issue>>)
    ensures r.Ok? <==> EmailOk(email) && password.Str? && 6 <= Utf16Length(password.text) <= 100 &&
                       name.Str? && RegisterNameOk(name.text)
    ensures r.Ok? ==> r.value == RegisterInput(email.text, password.text, name.text)
    ensures r.Err? ==> r.error != []
  {
    var e := CheckedEmail(email);
    var passwordIssues := PasswordIssues(password);
    var nameIssues := RegisterNameIssues(name);
    if e.Ok? && passwordIssues == [] && nameIssues == [] then Ok(RegisterInput(email.text, password.text, name.text))
    else Err(IssuesOf(e) + passwordIssues + nameIssues)
  }

  /** The password checks at registration: a string of 6 to 100 characters. */
  function PasswordIssues(password: Input): (issues: seq<Issue>)
    ensures issues == [] <==> password.Str? && 6 <= Utf16Length(password.text) <= 100
  {
    if password.Str? then
      MinIssues("password", password.text, 6, "Password must be at least 6 characters") +
      MaxIssues("password", password.text, 100, "Password must be at most 100 characters")
    else TypeIssues("password", password)
  }

  /** The name checks at registration: a string of 2 to 100 ASCII letters and spaces. */
  function RegisterNameIssues(name: Input): (issues: seq<Issue>)
    ensures issues == [] <==> name.Str? && RegisterNameOk(name.text)
  {
    if name.Str? then
      MinIssues("name", name.text, 2, "Name must be at least 2 characters") +
      MaxIssues("name", name.text, 100, "Name must be at most 100 characters") +
      FormatIssues("name", LettersAndSpaces(name.text), "Name must contain only letters and spaces")
    else TypeIssues("name", name)
  }

  /** A valid login: email and password. */
  datatype LoginInput = LoginInput(email: string, password: string)

  /** `loginSchema`: an email in Zod's format, of any length, and a non-empty password. */
  function ValidateLogin(email: Input, password: Input): (r: Result<LoginInput, seq<Issue>>)
    ensures r.Ok? <==> email.Str? && IsEmail(email.text) && password.Str? && password.text != []
    ensures r.Ok? ==> r.value == LoginInput(email.text, password.text)
    ensures r.Err? ==> r.error != []
  {
    var emailIssues :=
      if email.Str? then FormatIssues("email", IsEmail(email.text), "Invalid email format")
      else TypeIssues("email", email);
    var passwordIssues :=
      if password.Str? then MinIssues("password", password.text, 1, "Password is required")
      else TypeIssues("password", password);
    if emailIssues == [] && passwordIssues == [] then Ok(LoginInput(email.text, password.text))
    else Err(emailIssues + passwordIssues)
  }

  /** A valid profile update: each field may be left out. */
  datatype UpdateUserInput = UpdateUserInput(name: Option<string>, email: Option<string>)

  /**
   * `updateUserSchema`: an optional name of 2 to 100 characters (any characters) and an optional
   * email as in registration.
   */
  function ValidateUpdate(name: Input, email: Input): (r: Result<UpdateUserInput, seq<Issue>>)
    ensures r.Ok? <==> (name.Absent? || (name.Str? && 2 <= Utf16Length(name.text) <= 100)) &&
                       (email.Absent? || EmailOk(email))
    ensures r.Ok? ==> r.value == UpdateUserInput(if name.Str? then Some(name.text) else None,
                                                 if email.Str? then Some(email.text) else None)
    ensures r.Err? ==> r.error != []
  {
    var nameIssues :=
      if name.Absent? then []
      else if name.Str? then
        MinIssues("name", name.text, 2, "Name must be at least 2 characters") +
        MaxIssues("name", name.text, 100, "Name must be at most 100 characters")
      else TypeIssues("name", name);
    var e := if email.Absent? then Ok("") else CheckedEmail(email);
    if nameIssues == [] && e.Ok? then
      Ok(UpdateUserInput(if name.Str? then Some(name.text) else None, if email.Str? then Some(email.text) else None))
    else Err(nameIssues + IssuesOf(e))
  }

  /** The length of a text of code points below U+10000 is its number of characters. */
  lemma {:induction false} Utf16LengthBmp(s: string)
    requires forall i :: 0 <= i < |s| ==> s[i] as int <= 0xFFFF
    ensures Utf16Length(s) == |s|
    decreases |s|
  {
    if s != [] {
      Utf16LengthBmp(s[1..]);
    }
  }

  /**
   * The `.min(5)` of the email never decides anything: every address in Zod's format already has
   * at least six characters, so an email field is accepted exactly when it has the format and at
   * most 255 characters.
   */
  lemma {:induction false} EmailMinRedundant(v: Input)
    ensures EmailOk(v) <==> v.Str? && IsEmail(v.text) && Utf16Length(v.text) <= 255
  {
    if v.Str? && IsEmail(v.text) {
      EmailLength(v.text);
    }
  }

  /**
   * A name with a letter outside ASCII, such as "João", is refused at registration whatever the
   * other fields are, but accepted by the profile update, which has no letters-only rule.
   */
  lemma {:induction false} JoaoRejected(email: Input, password: Input)
    ensures ValidateRegister(email, password, Str("João")).Err?
    ensures ValidateUpdate(Str("João"), Absent).Ok?
  {
    var joao := "João";
    assert !IsAsciiLetter(joao[2]) && !IsSpace(joao[2]);
    assert !LettersAndSpaces(joao);
    Utf16LengthBmp(joao);
  }

  /** Credentials accepted at registration are accepted by the login schema. */
  lemma {:induction false} RegisteredCanLogIn(email: Input, password: Input, name: Input)
    requires ValidateRegister(email, password, name).Ok?
    ensures ValidateLogin(email, password) == Ok(LoginInput(email.text, password.text))
  {
    assert Utf16Length(password.text) >= 6;
  }

  /** An empty update body is valid and changes nothing. */
  lemma {:induction false} EmptyUpdate()
    ensures ValidateUpdate(Absent, Absent) == Ok(UpdateUserInput(None, None))
  {
  }
}
