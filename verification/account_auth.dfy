/** `IsOrganizationAdminOrOwner` and the JWT authentication of shared user
    accounts.

    Parsing the `Authorization` header, extracting the raw token and
    validating its signature and expiry belong to the JWT library: their
    outcomes are inputs here. */
module Permissions {
  import opened Common
  import opened AccountModels

  /** `request.user`: Django's anonymous user or an authenticated account. */
  datatype RequestUser = Anonymous | Authenticated(account: UserAccount)

  /** `has_permission`: an authenticated user who is an admin or the owner. */
  function HasPermission(user: Option<RequestUser>): (r: bool)
    ensures r ==> user.Some? && user.value.Authenticated?
    ensures user.Some? && user.value.Authenticated? ==>
      (r <==> user.value.account.isAdmin || user.value.account.isOrgOwner)
  {
    match user
    case None => false
    case Some(Anonymous) => false
    case Some(Authenticated(u)) => u.isAdmin || u.isOrgOwner
  }

  /** The four cases: no user or an anonymous one is refused, an admin and
      an owner are admitted whatever their other role, and a user with
      neither role is refused. */
  lemma PermissionCases(u: UserAccount)
    ensures !HasPermission(None) && !HasPermission(Some(Anonymous))
    ensures u.isAdmin ==> HasPermission(Some(Authenticated(u)))
    ensures u.isOrgOwner ==> HasPermission(Some(Authenticated(u)))
    ensures !u.isAdmin && !u.isOrgOwner ==> !HasPermission(Some(Authenticated(u)))
  {
  }
}

module Authentication {
  import opened Common
  import opened AccountModels

  /** The payload of a validated token, as far as this code reads it: its
      `user_id` claim, absent or present. */
  datatype Claims = Claims(userId: Option<string>)

  /** Why authentication fails; each carries the code the API reports. */
  datatype AuthFailure =
    | TokenNotValid          // the JWT library rejected the token
    | InvalidToken           // no usable user_id claim
    | UserNotFound
    | UserInactive
    | UserRestricted
    | OrganizationMismatch

  function FailureCode(f: AuthFailure): string {
    match f
    case TokenNotValid => "token_not_valid"
    case InvalidToken => "invalid_token"
    case UserNotFound => "user_not_found"
    case UserInactive => "user_inactive"
    case UserRestricted => "user_restricted"
    case OrganizationMismatch => "organization_mismatch"
  }

  /** `if not user_id`: a missing claim and an empty one are both falsy. */
  predicate HasUserId(c: Claims) {
    c.userId.Some? && c.userId.value != []
  }

  /** What an account must satisfy to be let in. */
  predicate MayLogIn(u: UserAccount) {
    u.isActive && !u.isRestricted
  }

  /** `get_user`: the claim is checked, then the account is looked up, then
      it must be active, and only then not restricted. */
  function GetUser(c: Claims, users: map<AccountId, UserAccount>): (r: Result<UserAccount, AuthFailure>)
    ensures r == Err(InvalidToken) <==> !HasUserId(c)
    ensures HasUserId(c) && c.userId.value !in users ==> r == Err(UserNotFound)
    ensures r.Ok? <==> HasUserId(c) && c.userId.value in users && MayLogIn(users[c.userId.value])
    ensures r.Ok? ==> r.value == users[c.userId.value]
    ensures HasUserId(c) && c.userId.value in users && !users[c.userId.value].isActive ==> r == Err(UserInactive)
    ensures (HasUserId(c) && c.userId.value in users && users[c.userId.value].isActive
             && users[c.userId.value].isRestricted) ==> r == Err(UserRestricted)
  {
    if !HasUserId(c) then Err(InvalidToken)
    else if c.userId.value !in users then Err(UserNotFound)
    else
      var u := users[c.userId.value];
      if !u.isActive then Err(UserInactive)
      else if u.isRestricted then Err(UserRestricted)
      else Ok(u)
  }

  /** `authenticate`. `header` and `raw` are what the library finds in the
      request; `validated` is its verdict on the raw token (`None` when it
      rejects it); `tenant` is the organization the request is routed to.
      `Ok(None)` means "no credentials offered", not a failure. */
  function Authenticate(header: Option<string>, raw: Option<string>, validated: Option<Claims>,
                        users: map<AccountId, UserAccount>, tenant: Option<OrgId>)
    : (r: Result<Option<(UserAccount, Claims)>, AuthFailure>)
    ensures r == Ok(None) <==> header.None? || raw.None?
    ensures header.Some? && raw.Some? && validated.None? ==> r == Err(TokenNotValid)
    ensures r.Ok? && r.value.Some? ==>
      && validated == Some(r.value.value.1)
      && GetUser(validated.value, users) == Ok(r.value.value.0)
      && MayLogIn(r.value.value.0)
      && (tenant.Some? ==> r.value.value.0.organization == tenant)
  {
    if header.None? then Ok(None)
    else if raw.None? then Ok(None)
    else if validated.None? then Err(TokenNotValid)
    else
      var claims := validated.value;
      match GetUser(claims, users)
      case Err(f) => Err(f)
      case Ok(u) =>
        if tenant.Some? && u.organization != tenant then Err(OrganizationMismatch)
        else Ok(Some((u, claims)))
  }

  /** Credentials are accepted exactly when the token names an existing,
      active, unrestricted account that, on a tenant's domain, belongs to
      that tenant; the account-level failures come before the organization
      check, and without a tenant no organization is checked at all. */
  lemma AuthenticateAcceptsExactly(header: Option<string>, raw: Option<string>, validated: Option<Claims>,
                                   users: map<AccountId, UserAccount>, tenant: Option<OrgId>)
    ensures var r := Authenticate(header, raw, validated, users, tenant);
      && ((r.Ok? && r.value.Some?) <==>
           && header.Some? && raw.Some? && validated.Some?
           && GetUser(validated.value, users).Ok?
           && (tenant.None? || GetUser(validated.value, users).value.organization == tenant))
      && (header.Some? && raw.Some? && validated.Some? && GetUser(validated.value, users).Err? ==>
           r == Err(GetUser(validated.value, users).error))
      && (r == Err(OrganizationMismatch) ==> tenant.Some? && GetUser(validated.value, users).Ok?)
  {
  }
}
