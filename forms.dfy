/**
 * The field-level validators of the signup form `UserSignUpForm` in
 * `backend/claims/forms.py`, and when the form as a whole is accepted.
 */
module Forms {
  import opened Wrappers

  /** An existing account, as far as the validators look at it. */
  datatype Account = Account(username: string, email: string)

  /** `cleaned_data.get(...)` for the four fields; an empty submission is `Some("")`. */
  datatype SignupData = SignupData(username: Option<string>, email: Option<string>, password1: Option<string>, password2: Option<string>)

  /** The fields of the form, in the order it shows them. */
  const FieldOrder: seq<string> := ["username", "email", "password1", "password2"]

  /** Falsy as a Python string: `None` or `''`. */
  predicate Missing(v: Option<string>) { v.None? || v.value == "" }

  predicate UsernameTaken(accounts: seq<Account>, username: string)
  {
    exists i :: 0 <= i < |accounts| && accounts[i].username == username
  }

  predicate EmailTaken(accounts: seq<Account>, email: string)
  {
    exists i :: 0 <= i < |accounts| && accounts[i].email == email
  }

  /** `clean_username`: required, and not the name of an existing account; returned as given. */
  function CleanUsername(username: Option<string>, accounts: seq<Account>): (r: Result<string, string>)
    ensures r.Ok? <==> !Missing(username) && !UsernameTaken(accounts, username.value)
    ensures r.Ok? ==> r.value == username.value
  {
    if Missing(username) then Err("Username is required.")
    else if UsernameTaken(accounts, username.value) then Err("A user with that username already exists.")
    else Ok(username.value)
  }

  /** `clean_email`: required, and not the address of an existing account; returned as given. */
  function CleanEmail(email: Option<string>, accounts: seq<Account>): (r: Result<string, string>)
    ensures r.Ok? <==> !Missing(email) && !EmailTaken(accounts, email.value)
    ensures r.Ok? ==> r.value == email.value
  {
    if Missing(email) then Err("Email address is required.")
    else if EmailTaken(accounts, email.value) then Err("A user with that email address already exists.")
    else Ok(email.value)
  }

  /** `clean_password2`: an error only when both passwords are given and differ; `password2` is returned unchanged. */
  function CleanPassword2(password1: Option<string>, password2: Option<string>): (r: Result<Option<string>, string>)
    ensures r.Err? <==> !Missing(password1) && !Missing(password2) && password1.value != password2.value
    ensures r.Ok? ==> r.value == password2
  {
    if !Missing(password1) && !Missing(password2) && password1.value != password2.value then Err("Passwords don't match")
    else Ok(password2)
  }

  /**
   * `form.is_valid()`, as far as the fields and validators shown decide
   * it: every field is required (Django runs `clean_<field>` only on a
   * field that passed that check), and the three validators must accept.
   */
  predicate IsValid(data: SignupData, accounts: seq<Account>)
  {
    && !Missing(data.username) && CleanUsername(data.username, accounts).Ok?
    && !Missing(data.email) && CleanEmail(data.email, accounts).Ok?
    && !Missing(data.password1) && !Missing(data.password2)
    && CleanPassword2(data.password1, data.password2).Ok?
  }

  /** A form is accepted exactly when all four fields are given, name and address are free, and the passwords match. */
  lemma ValidIff(data: SignupData, accounts: seq<Account>)
    ensures IsValid(data, accounts) <==>
      && !Missing(data.username) && !Missing(data.email) && !Missing(data.password1) && !Missing(data.password2)
      && !UsernameTaken(accounts, data.username.value)
      && !EmailTaken(accounts, data.email.value)
      && data.password1 == data.password2
  {
  }

  /** Nothing without an email address is accepted. */
  lemma EmailRequired(data: SignupData, accounts: seq<Account>)
    requires Missing(data.email)
    ensures !IsValid(data, accounts) && CleanEmail(data.email, accounts).Err?
  {
  }

  /** An address already in use is refused, whatever else the form says. */
  lemma DuplicateEmailRefused(data: SignupData, accounts: seq<Account>, i: nat)
    requires i < |accounts| && data.email == Some(accounts[i].email)
    ensures !IsValid(data, accounts)
  {
  }

  /** The form of `test_form_validation_with_valid_data` is accepted when no account exists. */
  lemma SampleSignupAccepted()
    ensures IsValid(SignupData(Some("testuser"), Some("test@example.com"), Some("testpass123"), Some("testpass123")), [])
  {
  }

  /** The duplicate-email case of the tests: the address of `existinguser` is refused to `newuser`. */
  lemma SampleDuplicateRefused()
    ensures !IsValid(SignupData(Some("newuser"), Some("test@example.com"), Some("testpass123"), Some("testpass123")),
                     [Account("existinguser", "test@example.com")])
  {
    DuplicateEmailRefused(SignupData(Some("newuser"), Some("test@example.com"), Some("testpass123"), Some("testpass123")),
                          [Account("existinguser", "test@example.com")], 0);
  }

  /** The fields come in the order username, email, password, confirmation. */
  lemma FieldsInOrder()
    ensures |FieldOrder| == 4 && FieldOrder[0] == "username" && FieldOrder[1] == "email"
    ensures FieldOrder[2] == "password1" && FieldOrder[3] == "password2"
  {
  }
}
