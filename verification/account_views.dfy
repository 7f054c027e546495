/** The status-code decisions of the account views: signup restricted to
    the organization's e-mail domain, and reading or updating one user of
    the requester's organization.

    The organization a request is routed to, the shared user table, the
    existing addresses and DRF's field checks are inputs. Response bodies
    are left out; the views' decisions are their status codes. */
module AccountViews {
  import opened Common
  import opened Text
  import opened AccountModels
  import opened AccountSerializers
  import opened Permissions

  const HTTP_401: int := 401

  /** What the views read of `request.organization`. */
  datatype OrgContext = OrgContext(id: OrgId, emailDomain: string)

  /* -------------------------------------------------------------- signup */

  /** The sign-up body as DRF's field step hands it to the validators
      (`CreateUserSerializer`): the e-mail and password already stripped of
      surrounding whitespace (`trim_whitespace`), the optional names, the
      four account flags the serializer leaves writable (`None` when not
      sent), and whether the remaining field checks of DRF (blank values,
      address syntax, lengths) passed. */
  datatype SignupForm = SignupForm(
    email: string,
    password: string,
    firstName: Option<string>,
    lastName: Option<string>,
    isActive: Option<bool>,
    isRestricted: Option<bool>,
    isAdmin: Option<bool>,
    isStaff: Option<bool>,
    fieldsOk: bool)

  /** `serializer.is_valid()`: the library checks and the two validators. */
  predicate SignupFormValid(f: SignupForm) {
    f.fieldsOk && ValidateEmail(f.email).Ok? && ValidatePassword(f.password).Ok?
  }

  /** The domain of an address: the text after its last `@`, or `""` when
      there is none. */
  function EmailDomainOf(email: string): (r: string)
    ensures '@' !in r
    ensures '@' !in email ==> r == []
    ensures '@' in email ==> r == LastField(email, '@')
  {
    if '@' in email then LastField(email, '@') else ""
  }

  /** An address `local@domain` whose domain has no `@` has that domain. */
  lemma EmailDomainOfAddress(local: string, domain: string)
    requires '@' !in domain
    ensures EmailDomainOf(local + "@" + domain) == domain
  {
    var s := local + "@" + domain;
    assert s[|local|] == '@';
    var r := LastField(s, '@');
    assert s[|s| - |domain|..] == domain;
  }

  /** The outcome of the sign-up endpoint: its status and, for 201, the
      account created. */
  datatype SignupResult = SignupResult(status: int, created: Option<UserAccount>)

  /** The account `serializer.save(organization=organization)` creates:
      `create` hands every validated field to `create_user`, the body's
      role and access flags included, with the model defaults for those
      not sent. */
  function SignupAccount(f: SignupForm, userId: AccountId, org: OrgId, email: string): (u: UserAccount)
    ensures u.email == email && u.organization == Some(org) && u.userId == userId && !u.isOrgOwner
    ensures u.isAdmin == f.isAdmin.GetOr(false) && u.isStaff == f.isStaff.GetOr(false)
    ensures u.isActive == f.isActive.GetOr(true) && u.isRestricted == f.isRestricted.GetOr(false)
    ensures u.firstName == ValidateName(f.firstName.GetOr("")) && u.lastName == ValidateName(f.lastName.GetOr(""))
  {
    UserAccount(userId, email, ValidateName(f.firstName.GetOr("")), ValidateName(f.lastName.GetOr("")), Some(org),
                false, f.isAdmin.GetOr(false), f.isStaff.GetOr(false), f.isActive.GetOr(true),
                f.isRestricted.GetOr(false))
  }

  /** The status `UserCreateView.post` answers with; `existing` holds the
      addresses already in the shared user table. */
  function SignupStatus(org: Option<OrgContext>, form: SignupForm, existing: set<string>): (r: int)
    ensures r in {HTTP_201, HTTP_400, HTTP_409}
    ensures org.None? ==> r == HTTP_400
    ensures org.Some? && org.value.emailDomain == [] ==> r == HTTP_400
    ensures org.Some? && !SignupFormValid(form) ==> r == HTTP_400
    ensures r == HTTP_201 ==>
      && org.Some? && SignupFormValid(form)
      && EmailDomainOf(LowerStrip(form.email)) == LowerStrip(org.value.emailDomain)
      && LowerStrip(form.email) !in existing
    ensures (&& org.Some? && org.value.emailDomain != [] && SignupFormValid(form)
             && EmailDomainOf(LowerStrip(form.email)) == LowerStrip(org.value.emailDomain)
             && LowerStrip(form.email) !in existing) ==> r == HTTP_201
  {
    if org.None? then HTTP_400
    else if org.value.emailDomain == [] then HTTP_400
    else if !SignupFormValid(form) then HTTP_400
    else
      var email := LowerStrip(ValidateEmail(form.email).value);
      LowerStripIdempotent(form.email);
      if EmailDomainOf(email) != LowerStrip(org.value.emailDomain) then HTTP_400
      else if email in existing then HTTP_409
      else HTTP_201
  }

  /** `UserCreateView.post`, as written. `userId` is the key the new row
      gets. */
  function Signup(org: Option<OrgContext>, form: SignupForm, existing: set<string>, userId: AccountId)
    : (r: SignupResult)
    ensures r.status == SignupStatus(org, form, existing)
    ensures r.created.Some? <==> r.status == HTTP_201
    ensures r.status == HTTP_201 ==>
      r.created == Some(SignupAccount(form, userId, org.value.id, LowerStrip(form.email)))
  {
    var status := SignupStatus(org, form, existing);
    if status != HTTP_201 then SignupResult(status, None)
    else SignupResult(status, Some(SignupAccount(form, userId, org.value.id, ValidateEmail(form.email).value)))
  }

  /** As written, an anonymous sign-up that sends `is_admin` creates an
      administrator, whom the permission class then admits to the
      organization's user and organization management; `is_staff` and a
      cleared `is_restricted` are granted the same way. */
  lemma SignupGrantsAdmin(org: OrgContext, form: SignupForm, existing: set<string>, userId: AccountId)
    requires SignupStatus(Some(org), form, existing) == HTTP_201
    requires form.isAdmin == Some(true)
    ensures var u := Signup(Some(org), form, existing, userId).created.value;
      u.isAdmin && HasPermission(Some(Authenticated(u)))
  {
  }

  /** The account a public sign-up evidently should create: the address
      and names from the body, in the organization, with the model
      defaults for every role and access flag. */
  function PlainAccount(f: SignupForm, userId: AccountId, org: OrgId, email: string): (u: UserAccount)
    ensures !u.isOrgOwner && !u.isAdmin && !u.isStaff && u.isActive && !u.isRestricted
    ensures u.email == email && u.organization == Some(org) && u.userId == userId
    ensures u.firstName == ValidateName(f.firstName.GetOr("")) && u.lastName == ValidateName(f.lastName.GetOr(""))
  {
    NewUser(userId, email, org).(firstName := ValidateName(f.firstName.GetOr("")),
                                 lastName := ValidateName(f.lastName.GetOr("")))
  }

  /** Sign-up as evidently intended: the same decisions, but the role and
      access flags are read-only for an anonymous caller. */
  function SignupCorrected(org: Option<OrgContext>, form: SignupForm, existing: set<string>, userId: AccountId)
    : (r: SignupResult)
    ensures r.status == SignupStatus(org, form, existing)
    ensures r.created.Some? <==> r.status == HTTP_201
    ensures r.status == HTTP_201 ==>
      var u := r.created.value;
      && u.email == LowerStrip(form.email) && u.organization == Some(org.value.id)
      && !u.isOrgOwner && !u.isAdmin && !u.isStaff && u.isActive && !u.isRestricted
  {
    var status := SignupStatus(org, form, existing);
    if status != HTTP_201 then SignupResult(status, None)
    else SignupResult(status, Some(PlainAccount(form, userId, org.value.id, ValidateEmail(form.email).value)))
  }

  /** The corrected sign-up never admits its new account through the
      permission class, and it differs from the code only when the body
      sends a flag other than its default. */
  lemma SignupCorrectedGrantsNoRole(org: Option<OrgContext>, form: SignupForm, existing: set<string>,
                                    userId: AccountId)
    ensures var r := SignupCorrected(org, form, existing, userId);
      r.created.Some? ==> !HasPermission(Some(Authenticated(r.created.value)))
    ensures (&& form.isAdmin.GetOr(false) == false && form.isStaff.GetOr(false) == false
             && form.isActive.GetOr(true) == true && form.isRestricted.GetOr(false) == false) ==>
      SignupCorrected(org, form, existing, userId) == Signup(org, form, existing, userId)
  {
  }

  /** The domain rule is checked before the duplicate check: an address of
      another domain gets 400 even when it is already registered, and an
      address of the right domain that is already registered gets 409. */
  lemma SignupMismatchBeforeConflict(org: OrgContext, form: SignupForm, existing: set<string>)
    requires org.emailDomain != [] && SignupFormValid(form)
    ensures EmailDomainOf(LowerStrip(form.email)) != LowerStrip(org.emailDomain) ==>
      SignupStatus(Some(org), form, existing) == HTTP_400
    ensures EmailDomainOf(LowerStrip(form.email)) == LowerStrip(org.emailDomain) ==>
      (SignupStatus(Some(org), form, existing) == HTTP_409 <==> LowerStrip(form.email) in existing)
  {
    LowerStripIdempotent(form.email);
  }

  /** Case and surrounding whitespace of the organization's domain play no
      part: the domain and its normalised form decide every sign-up the
      same way. */
  lemma SignupIgnoresDomainCase(org: OrgContext, form: SignupForm, existing: set<string>, userId: AccountId)
    requires LowerStrip(org.emailDomain) != []
    ensures Signup(Some(org), form, existing, userId)
         == Signup(Some(org.(emailDomain := LowerStrip(org.emailDomain))), form, existing, userId)
  {
    LowerStripIdempotent(org.emailDomain);
    assert org.emailDomain != [];
  }

  /** Likewise for the address: an address and its normalised form get the
      same answer and create the same account. */
  lemma SignupIgnoresEmailCase(org: OrgContext, form: SignupForm, existing: set<string>, userId: AccountId)
    requires LowerStrip(form.email) != []
    ensures Signup(Some(org), form, existing, userId)
         == Signup(Some(org), form.(email := LowerStrip(form.email)), existing, userId)
  {
    LowerStripIdempotent(form.email);
    assert form.email != [];
  }

  /* ---------------------------------------------------------- user detail */

  /** `User.objects.get(user_id=..., organization=...)`: only a user of the
      requester's organization is found. */
  function FindUser(users: map<AccountId, UserAccount>, id: AccountId, org: OrgId): (r: Option<UserAccount>)
    ensures r.Some? <==> id in users && users[id].organization == Some(org)
    ensures r.Some? ==> r.value == users[id]
  {
    if id in users && users[id].organization == Some(org) then Some(users[id]) else None
  }

  /** The outcome of a user-detail request: its status and the user shown
      or updated. */
  datatype DetailResult = DetailResult(status: int, user: Option<UserAccount>)

  /** The access rule of GET: owner, admin or the user themself. */
  predicate MayView(requester: UserAccount, target: UserAccount) {
    requester.isOrgOwner || requester.isAdmin || requester.userId == target.userId
  }

  /** `UserDetailView.get`, once the permission classes have admitted the
      request. */
  function DetailGet(requester: UserAccount, id: AccountId, org: Option<OrgId>,
                     users: map<AccountId, UserAccount>): (r: DetailResult)
    ensures r.user.Some? <==> r.status == HTTP_200
    ensures org.None? ==> r.status == HTTP_400
    ensures org.Some? && FindUser(users, id, org.value).None? ==> r.status == HTTP_404
    ensures org.Some? && FindUser(users, id, org.value).Some? ==>
      (r.status == HTTP_200 <==> MayView(requester, users[id]))
    ensures r.status == HTTP_200 ==> r.user == Some(users[id]) && users[id].organization == org
  {
    if org.None? then DetailResult(HTTP_400, None)
    else
      match FindUser(users, id, org.value)
      case None => DetailResult(HTTP_404, None)
      case Some(u) =>
        if !MayView(requester, u) then DetailResult(HTTP_403, None)
        else DetailResult(HTTP_200, Some(u))
  }

  /** A user of another organization is not found, whoever asks. */
  lemma OtherOrganizationNotFound(requester: UserAccount, id: AccountId, org: OrgId,
                                  users: map<AccountId, UserAccount>)
    requires id in users && users[id].organization != Some(org)
    ensures DetailGet(requester, id, Some(org), users).status == HTTP_404
  {
  }

  /** `UserDetailView.patch`, once the permission classes have admitted the
      request: a user without a role may only name themself, and that is
      checked before anything else; `valid` is the serializer's verdict on
      the body. */
  function DetailPatch(requester: UserAccount, id: AccountId, org: Option<OrgId>,
                       users: map<AccountId, UserAccount>, valid: bool): (r: int)
    ensures !requester.isOrgOwner && !requester.isAdmin && requester.userId != id ==> r == HTTP_403
    ensures r == HTTP_200 ==> org.Some? && FindUser(users, id, org.value).Some? && valid
    ensures (requester.isOrgOwner || requester.isAdmin || requester.userId == id) ==>
      r == (if org.None? then HTTP_400
            else if FindUser(users, id, org.value).None? then HTTP_404
            else if !valid then HTTP_400 else HTTP_200)
  {
    if !(requester.isOrgOwner || requester.isAdmin) && requester.userId != id then HTTP_403
    else if org.None? then HTTP_400
    else if FindUser(users, id, org.value).None? then HTTP_404
    else if !valid then HTTP_400
    else HTTP_200
  }

  /* ----------------------------------------- with the permission classes */

  /** DRF's refusal when a permission class says no: 401 for a request
      without credentials, 403 otherwise. */
  function Denied(user: RequestUser): int {
    if user.Anonymous? then HTTP_401 else HTTP_403
  }

  /** `UserDetailView` as routed: `IsAuthenticated` and
      `IsOrganizationAdminOrOwner` run before the handler. */
  function GuardedDetailGet(user: RequestUser, id: AccountId, org: Option<OrgId>,
                            users: map<AccountId, UserAccount>): (r: DetailResult)
    ensures !HasPermission(Some(user)) ==> r == DetailResult(Denied(user), None)
    ensures HasPermission(Some(user)) ==> r == DetailGet(user.account, id, org, users)
  {
    if !HasPermission(Some(user)) then DetailResult(Denied(user), None)
    else DetailGet(user.account, id, org, users)
  }

  function GuardedDetailPatch(user: RequestUser, id: AccountId, org: Option<OrgId>,
                              users: map<AccountId, UserAccount>, valid: bool): (r: int)
    ensures !HasPermission(Some(user)) ==> r == Denied(user)
    ensures HasPermission(Some(user)) ==> r == DetailPatch(user.account, id, org, users, valid)
  {
    if !HasPermission(Some(user)) then Denied(user)
    else DetailPatch(user.account, id, org, users, valid)
  }

  /** Because the permission class admits only admins and owners, the
      handlers' self-access branches are never reached: a user without a
      role is refused even for their own record, and for an admitted user
      the GET rule reduces to "same organization". */
  lemma SelfAccessUnreachable(u: UserAccount, org: Option<OrgId>, users: map<AccountId, UserAccount>,
                              valid: bool)
    ensures !u.isAdmin && !u.isOrgOwner ==>
      && GuardedDetailGet(Authenticated(u), u.userId, org, users).status == HTTP_403
      && GuardedDetailPatch(Authenticated(u), u.userId, org, users, valid) == HTTP_403
    ensures (u.isAdmin || u.isOrgOwner) && org.Some? ==>
      forall id :: (GuardedDetailGet(Authenticated(u), id, org, users).status == HTTP_200
                    <==> FindUser(users, id, org.value).Some?)
  {
  }
}
