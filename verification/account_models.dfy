/** The shared user account: one user belongs to one organization, carries
    the owner/admin roles and the active/restricted access flags, and has a
    display name built from its first and last names. */
module AccountModels {
  import opened Common
  import opened Text

  /** A user's primary key (a UUID in the system), as text. */
  type AccountId = string

  /** An organization's primary key. */
  type OrgId = nat

  datatype UserAccount = UserAccount(
    userId: AccountId,
    email: string,
    firstName: string,
    lastName: string,
    organization: Option<OrgId>,
    isOrgOwner: bool,
    isAdmin: bool,
    isStaff: bool,
    isActive: bool,
    isRestricted: bool)

  /** A user created with only the required fields: no roles, active and
      not restricted. */
  function NewUser(userId: AccountId, email: string, organization: OrgId): (u: UserAccount)
    ensures !u.isOrgOwner && !u.isAdmin && !u.isStaff
    ensures u.isActive && !u.isRestricted
    ensures u.organization == Some(organization) && u.firstName == [] && u.lastName == []
  {
    UserAccount(userId, email, "", "", Some(organization), false, false, false, true, false)
  }

  /** `full_name`: first and last name joined by a space, without
      surrounding whitespace. */
  function FullName(u: UserAccount): (r: string)
    ensures Trimmed(r)
  {
    Strip(u.firstName + " " + u.lastName)
  }

  /** Both names empty give the empty string; one empty name gives the other
      one stripped, with no stray space; two names without padding are
      joined by exactly one space. */
  lemma FullNameCases(u: UserAccount)
    ensures u.firstName == [] && u.lastName == [] ==> FullName(u) == []
    ensures u.firstName == [] ==> FullName(u) == Strip(u.lastName)
    ensures u.lastName == [] ==> FullName(u) == Strip(u.firstName)
    ensures u.firstName != [] && u.lastName != [] && Trimmed(u.firstName) && Trimmed(u.lastName) ==>
      FullName(u) == u.firstName + " " + u.lastName
  {
    var f, l := u.firstName, u.lastName;
    if f == [] {
      JoinEmptyFirst(l);
      if l == [] {
        assert AllSpace(l);
      }
    }
    if l == [] {
      JoinEmptyLast(f);
    }
    if f != [] && l != [] && Trimmed(f) && Trimmed(l) {
      JoinTrimmed(f, l);
    }
  }

  lemma JoinEmptyFirst(l: string)
    ensures Strip([] + " " + l) == Strip(l)
  {
    assert [] + " " + l == " " + l;
    StripPadLeft(" ", l);
  }

  lemma JoinEmptyLast(f: string)
    ensures Strip(f + " " + []) == Strip(f)
  {
    assert f + " " + [] == f + " ";
    StripPadRight(f, " ");
  }

  lemma JoinTrimmed(f: string, l: string)
    requires f != [] && l != [] && Trimmed(f) && Trimmed(l)
    ensures Strip(f + " " + l) == f + " " + l
  {
    var m := f + " " + l;
    assert m[0] == f[0] && m[|m| - 1] == l[|l| - 1];
    StripOfPadded([], m, []);
    assert [] + m + [] == m;
  }

  const NO_ORGANIZATION: string := "User must belong to an organization."
  /** The message of the exception Django's foreign-key descriptor raises
      when an unset relation is read. */
  const ORGANIZATION_UNSET: string := "UserAccount has no organization."

  /** What `clean` can raise: the `ValidationError` that `full_clean`
      collects into form errors, or the descriptor's
      `RelatedObjectDoesNotExist`, which `full_clean` does not catch. */
  datatype CleanError = ValidationError(message: string) | RelatedObjectDoesNotExist(message: string)

  /** Reading `self.organization`: the non-null foreign key's descriptor
      returns the organization, or raises when none was set. */
  function OrganizationAttribute(u: UserAccount): (r: Result<OrgId, CleanError>)
    ensures r.Ok? <==> u.organization.Some?
    ensures r.Ok? ==> Some(r.value) == u.organization
    ensures r.Err? ==> r.error == RelatedObjectDoesNotExist(ORGANIZATION_UNSET)
  {
    if u.organization.None? then Err(RelatedObjectDoesNotExist(ORGANIZATION_UNSET)) else Ok(u.organization.value)
  }

  /** `clean` as written: `if not self.organization` reads the attribute
      first, so an unset organization raises the descriptor's exception;
      a loaded organization instance is always truthy, so the
      `ValidationError` branch is never taken. */
  function CleanAsWritten(u: UserAccount): (r: Result<UserAccount, CleanError>)
    ensures r.Err? <==> u.organization.None?
    ensures r.Err? ==> r.error == RelatedObjectDoesNotExist(ORGANIZATION_UNSET)
    ensures r.Ok? ==> r.value == u
  {
    match OrganizationAttribute(u)
    case Err(e) => Err(e)
    case Ok(_) => Ok(u)
  }

  /** As written, `clean` never produces its `ValidationError`: every
      refusal is the uncaught descriptor exception instead. */
  lemma CleanValidationErrorUnreachable(u: UserAccount)
    ensures !(CleanAsWritten(u).Err? && CleanAsWritten(u).error.ValidationError?)
    ensures u.organization.None? ==> CleanAsWritten(u) == Err(RelatedObjectDoesNotExist(ORGANIZATION_UNSET))
  {
  }

  /** `clean` as evidently intended: it tests `organization_id`, which
      reads no relation, so a user without an organization is refused with
      the `ValidationError` and its message. */
  function Clean(u: UserAccount): (r: Result<UserAccount, CleanError>)
    ensures r.Err? <==> u.organization.None?
    ensures r.Err? ==> r.error == ValidationError(NO_ORGANIZATION)
    ensures r.Ok? ==> r.value == u
  {
    if u.organization.None? then Err(ValidationError(NO_ORGANIZATION)) else Ok(u)
  }

  /** The correction changes only the kind of refusal: both versions accept
      the same users unchanged, and where the code raises the descriptor's
      exception the corrected one raises the `ValidationError`. */
  lemma CleanCorrectionAgrees(u: UserAccount)
    ensures CleanAsWritten(u).Ok? <==> Clean(u).Ok?
    ensures CleanAsWritten(u).Ok? ==> CleanAsWritten(u) == Clean(u)
    ensures CleanAsWritten(u).Err? ==>
      && CleanAsWritten(u).error.RelatedObjectDoesNotExist?
      && Clean(u) == Err(ValidationError(NO_ORGANIZATION))
  {
  }
}
