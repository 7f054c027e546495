/** The account serializers: the login response, the name, e-mail and
    password validators, the change-password rule and user creation.

    The library parts (checking the credentials and issuing the token
    pair, DRF's field type checks, hashing the password) are outside the
    model; their outcomes are inputs. */
module AccountSerializers {
  import opened Common
  import opened Text
  import opened AccountModels

  const MIN_PASSWORD: nat := 8

  const RESTRICTED_LOGIN: string := "Your account is restricted. Please contact admin."
  const EMAIL_REQUIRED: string := "Email is required."
  const PASSWORD_TOO_SHORT: string := "Password must be at least 8 characters long."
  const OLD_PASSWORD_REQUIRED: string := "Old password is required."
  const NEW_PASSWORD_TOO_SHORT: string := "New password must be at least 8 characters long."
  const PASSWORD_UNCHANGED: string := "New password must be different from old password."
  const FIELD_BLANK: string := "This field may not be blank."
  const FIELD_TOO_SHORT: string := "Ensure this field has at least 8 characters."
  const FIELD_NULL_CHARACTERS: string := "Null characters are not allowed."

  /* --------------------------------------------------------------- login */

  /** The token pair the JWT library issues for valid credentials. */
  datatype TokenPair = TokenPair(refresh: string, access: string)

  /** The login response body: the tokens and the user context. */
  datatype LoginData = LoginData(tokens: TokenPair, user: map<string, Value>)

  /** The keys of the user context, and nothing sensitive among them. */
  const LOGIN_USER_KEYS: set<string> :=
    {"user_id", "email", "full_name", "first_name", "last_name", "is_org_owner", "is_admin"}

  /** `CustomTokenObtainPairSerializer.validate`. `checked` is the library's
      verdict on the credentials: the account and its token pair, or the
      error it raised. */
  function Login(checked: Result<(UserAccount, TokenPair), string>): (r: Result<LoginData, string>)
    ensures checked.Err? ==> r == Err(checked.error)
    ensures checked.Ok? ==> (r.Ok? <==> !checked.value.0.isRestricted)
    ensures checked.Ok? && checked.value.0.isRestricted ==> r == Err(RESTRICTED_LOGIN)
    ensures r.Ok? ==>
      var u := checked.value.0;
      && r.value.tokens == checked.value.1
      && r.value.user.Keys == LOGIN_USER_KEYS
      && "password" !in r.value.user
      && r.value.user["user_id"] == Str(u.userId)
      && r.value.user["email"] == Str(u.email)
      && r.value.user["full_name"] == Str(FullName(u))
      && r.value.user["first_name"] == Str(u.firstName)
      && r.value.user["last_name"] == Str(u.lastName)
      && r.value.user["is_org_owner"] == Bool(u.isOrgOwner)
      && r.value.user["is_admin"] == Bool(u.isAdmin)
  {
    match checked
    case Err(e) => Err(e)
    case Ok((u, tokens)) =>
      if u.isRestricted then Err(RESTRICTED_LOGIN)
      else
        Ok(LoginData(tokens, map[
          "user_id" := Str(u.userId),
          "email" := Str(u.email),
          "full_name" := Str(FullName(u)),
          "first_name" := Str(u.firstName),
          "last_name" := Str(u.lastName),
          "is_org_owner" := Bool(u.isOrgOwner),
          "is_admin" := Bool(u.isAdmin)]))
  }

  /* ---------------------------------------------------------- validators */

  /** `validate_first_name` / `validate_last_name`: a non-empty name is
      stripped, an empty one is returned as it is. */
  function ValidateName(value: string): (r: string)
    ensures Trimmed(r) && |r| <= |value|
    ensures value == [] ==> r == []
  {
    if value != [] then Strip(value) else value
  }

  /** A validated name is a fixed point: validating it again keeps it, and
      a name without surrounding whitespace is kept as it is. */
  lemma ValidateNameIdempotent(value: string)
    ensures ValidateName(ValidateName(value)) == ValidateName(value)
    ensures Trimmed(value) ==> ValidateName(value) == value
  {
    if value != [] {
      StripIdempotent(value);
    }
    if Trimmed(value) && value != [] {
      StripOfPadded([], value, []);
      assert [] + value + [] == value;
    }
  }

  /** `CreateUserSerializer.validate_email`: an empty value is rejected,
      any other is lower-cased and stripped. */
  function ValidateEmail(value: string): (r: Result<string, string>)
    ensures r.Err? <==> value == []
    ensures r.Err? ==> r.error == EMAIL_REQUIRED
    ensures r.Ok? ==> Trimmed(r.value) && forall i :: 0 <= i < |r.value| ==> !IsUpper(r.value[i])
    ensures r.Ok? ==> r.value == Lower(Strip(value))
    ensures (&& value != [] && Trimmed(value)
             && forall i :: 0 <= i < |value| ==> !IsUpper(value[i])) ==> r == Ok(value)
  {
    LowerStripMeaning(value);
    if value == [] then Err(EMAIL_REQUIRED) else Ok(LowerStrip(value))
  }

  /** A non-empty validated address validates to itself. */
  lemma ValidateEmailIdempotent(value: string)
    requires ValidateEmail(value).Ok? && ValidateEmail(value).value != []
    ensures ValidateEmail(ValidateEmail(value).value) == ValidateEmail(value)
  {
    LowerStripIdempotent(value);
  }

  /** An address and its normal form validate alike, as long as the normal
      form is not empty. */
  lemma {:induction false} ValidateEmailIgnoresCase(value: string)
    requires LowerStrip(value) != []
    ensures ValidateEmail(LowerStrip(value)) == ValidateEmail(value)
  {
    LowerStripIdempotent(value);
    LowerStripCommute(value);
    LowerStripCommute(LowerStrip(value));
  }

  /** `validate_password` (creation): fewer than eight characters are
      rejected; the password is otherwise kept verbatim. */
  function ValidatePassword(value: string): (r: Result<string, string>)
    ensures r.Ok? <==> |value| >= MIN_PASSWORD
    ensures r.Ok? ==> r.value == value
    ensures r.Err? ==> r.error == PASSWORD_TOO_SHORT
  {
    if |value| < MIN_PASSWORD then Err(PASSWORD_TOO_SHORT) else Ok(value)
  }

  /* ------------------------------------------------------ change password */

  /** `ChangePasswordSerializer`'s field validators and its `validate`,
      applied to the values DRF's field step hands on (see
      `ChangePasswordRequest` for the request body itself). */
  function ValidateOldPassword(value: string): (r: Result<string, string>)
    ensures r.Ok? <==> value != []
    ensures r.Ok? ==> r.value == value
  {
    if value == [] then Err(OLD_PASSWORD_REQUIRED) else Ok(value)
  }

  function ValidateNewPassword(value: string): (r: Result<string, string>)
    ensures r.Ok? <==> |value| >= MIN_PASSWORD
    ensures r.Ok? ==> r.value == value
  {
    if |value| < MIN_PASSWORD then Err(NEW_PASSWORD_TOO_SHORT) else Ok(value)
  }

  /** The pair of validated passwords, checked to differ. */
  function ValidateChange(current: string, next: string): (r: Result<(string, string), string>)
    ensures r.Ok? <==> current != next
    ensures r.Err? ==> r.error == PASSWORD_UNCHANGED
  {
    if current == next then Err(PASSWORD_UNCHANGED) else Ok((current, next))
  }

  /** The whole form: each field is validated first, and the cross-field
      rule runs only when both fields passed (as DRF's `is_valid` does). */
  function ChangePassword(current: string, next: string): (r: Result<(string, string), seq<string>>)
  {
    var o := ValidateOldPassword(current);
    var n := ValidateNewPassword(next);
    if o.Err? || n.Err? then
      Err((if o.Err? then [o.error] else []) + (if n.Err? then [n.error] else []))
    else
      match ValidateChange(o.value, n.value)
      case Err(e) => Err([e])
      case Ok(p) => Ok(p)
  }

  /** A password change goes through exactly when the old password is given,
      the new one has at least eight characters, and they differ; then the
      pair is passed on unchanged. A same-value change of a long enough
      password is refused with the dedicated message alone. */
  lemma ChangePasswordAccepts(current: string, next: string)
    ensures ChangePassword(current, next).Ok? <==> current != [] && |next| >= MIN_PASSWORD && current != next
    ensures ChangePassword(current, next).Ok? ==> ChangePassword(current, next).value == (current, next)
    ensures current == next && |next| >= MIN_PASSWORD ==> ChangePassword(current, next) == Err([PASSWORD_UNCHANGED])
  {
  }

  /** DRF's `CharField.run_validation` under its defaults
      (`trim_whitespace=True`, `allow_blank=False`) with a `min_length`: a
      value that is only whitespace is refused as blank; otherwise the
      stripped value goes through every field validator, each adding its
      message when it fails: the minimum length, and the null-character
      validator every `CharField` carries. The stripped value that passes
      is what `validate_<field>` receives. */
  function CharFieldValue(raw: string, minLength: nat): (r: Result<string, seq<string>>)
    ensures r.Ok? <==> !AllSpace(raw) && |Strip(raw)| >= minLength && NULL_CHAR !in Strip(raw)
    ensures r.Ok? ==> r.value == Strip(raw)
    ensures AllSpace(raw) ==> r == Err([FIELD_BLANK])
    ensures !AllSpace(raw) && r.Err? ==>
      && (FIELD_TOO_SHORT in r.error <==> |Strip(raw)| < minLength)
      && (FIELD_NULL_CHARACTERS in r.error <==> NULL_CHAR in Strip(raw))
  {
    if AllSpace(raw) then Err([FIELD_BLANK])
    else
      var value := Strip(raw);
      var errors := (if |value| < minLength then [FIELD_TOO_SHORT] else [])
                  + (if NULL_CHAR in value then [FIELD_NULL_CHARACTERS] else []);
      if errors == [] then Ok(value) else Err(errors)
  }

  /** `ChangePasswordSerializer(data=request.data).is_valid()` on the body's
      two strings: DRF's field step for each field (`new_password` has
      `min_length=8`), and only when both pass, the serializer's own
      validators on the stripped values. */
  function ChangePasswordRequest(current: string, next: string): (r: Result<(string, string), seq<string>>)
  {
    var o := CharFieldValue(current, 0);
    var n := CharFieldValue(next, MIN_PASSWORD);
    if o.Err? || n.Err? then
      Err((if o.Err? then o.error else []) + (if n.Err? then n.error else []))
    else ChangePassword(o.value, n.value)
  }

  /** On the request body: the change goes through exactly when the old
      password is not blank, the new one has at least eight characters
      once stripped, neither holds a null character, and the two differ
      once stripped; the stripped pair is passed on. */
  lemma ChangePasswordRequestAccepts(current: string, next: string)
    ensures ChangePasswordRequest(current, next).Ok? <==>
      && !AllSpace(current) && |Strip(next)| >= MIN_PASSWORD
      && NULL_CHAR !in Strip(current) && NULL_CHAR !in Strip(next)
      && Strip(current) != Strip(next)
    ensures ChangePasswordRequest(current, next).Ok? ==>
      ChangePasswordRequest(current, next).value == (Strip(current), Strip(next))
  {
    ChangePasswordAccepts(Strip(current), Strip(next));
  }

  /** Passwords that differ only in surrounding whitespace count as the
      same password (`"hunter22 "` then `"hunter22"` is refused), a blank
      old password is refused by DRF before the serializer's own check
      runs, and so is a null character in either password. */
  lemma ChangePasswordRequestTrims(current: string, next: string)
    ensures Strip(current) == Strip(next) && |Strip(next)| >= MIN_PASSWORD && NULL_CHAR !in Strip(next) ==>
      ChangePasswordRequest(current, next) == Err([PASSWORD_UNCHANGED])
    ensures AllSpace(current) ==>
      ChangePasswordRequest(current, next).Err? && ChangePasswordRequest(current, next).error[0] == FIELD_BLANK
    ensures NULL_CHAR in Strip(next) ==>
      ChangePasswordRequest(current, next).Err?
      && FIELD_NULL_CHARACTERS in ChangePasswordRequest(current, next).error
  {
    if Strip(current) == Strip(next) && |Strip(next)| >= MIN_PASSWORD && NULL_CHAR !in Strip(next) {
      ChangePasswordAccepts(Strip(current), Strip(next));
    }
  }

  /* ------------------------------------------------------- user creation */

  /** The arguments `create` passes to `create_user`: the password
      separately, every other validated field as a keyword. */
  datatype CreateUserCall = CreateUserCall(password: Value, fields: map<string, Value>)

  /** `CreateUserSerializer.create`: `validated_data.pop("password")`, which
      raises when the key is absent. */
  function CreateUser(validated: map<string, Value>): (r: Result<CreateUserCall, string>)
    ensures r.Ok? <==> "password" in validated
    ensures r.Ok? ==> "password" !in r.value.fields
  {
    if "password" !in validated then Err("KeyError: 'password'")
    else Ok(CreateUserCall(validated["password"], validated - {"password"}))
  }

  /** Nothing but the password is taken out: putting it back gives the
      validated data again, and every other field reaches `create_user`
      unchanged. */
  lemma CreateUserSplitsPassword(validated: map<string, Value>)
    requires "password" in validated
    ensures var c := CreateUser(validated).value;
      && c.password == validated["password"]
      && c.fields.Keys == validated.Keys - {"password"}
      && (forall k :: k in c.fields ==> c.fields[k] == validated[k])
      && c.fields["password" := c.password] == validated
  {
    var c := CreateUser(validated).value;
    assert c.fields["password" := c.password].Keys == validated.Keys;
  }
}
