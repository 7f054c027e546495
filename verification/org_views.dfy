/** The state-changing organization endpoints: creating an organization
    with its subscription, primary domain and owner account; updating the
    organization's details (owner only); and the owner's subscription
    actions, cancelling it or recording its Stripe id.

    The clock, `slugify`, the `uuid4` draws, the settings' base domain, the
    plans on file and the values the unique columns already hold are
    inputs. DRF's own field checks are one verdict per form. Response
    bodies are left out; each endpoint's outcome is its status and the
    state it leaves. */
module OrgViews {
  import opened Common
  import opened Text
  import opened OrgHelper
  import opened OrgSerializers
  import opened AccountModels
  import opened Permissions
  import Authentication

  /* ------------------------------------------------------------- records */

  /** A `Subscription` row. `planId` is `None` once its plan is deleted. */
  datatype Subscription = Subscription(
    planId: Option<nat>,
    isActive: bool,
    startedAt: Instant,
    endDate: Date,
    expiredAt: Option<Instant>,
    billingCycle: string,
    stripeId: string,
    nextPaymentDate: Date,
    lastPaymentDate: Option<Date>)

  /** An `Organization` row with the subscription its foreign key points
      to, if any. */
  datatype Organization = Organization(
    id: OrgId,
    businessName: string,
    ownerEmail: string,
    billingEmail: string,
    billingAddress: string,
    contactNumber: string,
    emailDomain: string,
    subscription: Option<Subscription>,
    schemaName: string,
    isActive: bool)

  /** `request.organization` as the views meet it: the attribute may be
      missing (no tenant middleware ran), empty, or an organization. */
  datatype Tenancy = Unavailable | NoTenant | Tenant(org: Organization)

  /** What a request leaves behind: its status and the tenancy after it. */
  datatype Outcome = Outcome(status: int, after: Tenancy)

  /* ------------------------------------------------ subscription actions */

  const CANCEL: string := "cancel"
  const UPDATE_STRIPE_ID: string := "update_stripe_id"
  /** `stripe_id` is a `varchar(255)`: PostgreSQL refuses a longer value. */
  const STRIPE_ID_MAX: nat := 255

  /** `if not stripe_id`: an absent, null or empty value is falsy. */
  predicate HasStripeId(stripeId: Option<string>) {
    stripeId.Some? && stripeId.value != []
  }

  /** Whether `subscription.save()` can store the Stripe id: the column is
      unique, so an id another subscription holds raises `IntegrityError`,
      and one longer than the column raises `DataError`. The id is read from
      the raw body, so no field validator refuses a NUL character, which
      the PostgreSQL driver rejects on the write. `held` is the set of ids
      the other subscriptions hold. */
  predicate StripeIdStorable(id: string, held: set<string>) {
    id !in held && |id| <= STRIPE_ID_MAX && NULL_CHAR !in id
  }

  /** `OrganizationSubscriptionView.patch`. `isOwner` is
      `getattr(request.user, "is_org_owner", False)`; `held` is the set of
      Stripe ids the other subscriptions hold; `action` and `stripeId` are
      the body's values (`None` when absent or null). A failing save is
      caught by the view's last `except` and answered with 500, the
      transaction rolled back. */
  function PatchSubscription(isOwner: bool, t: Tenancy, held: set<string>, action: Option<string>,
                             stripeId: Option<string>, now: Instant): (r: Outcome)
    ensures r.status in {HTTP_200, HTTP_400, HTTP_403, HTTP_404, HTTP_500}
    ensures r.status != HTTP_200 ==> r.after == t
    ensures !isOwner ==> r.status == HTTP_403
    ensures isOwner && t.Unavailable? ==> r.status == HTTP_400
    ensures isOwner && (t.NoTenant? || (t.Tenant? && t.org.subscription.None?)) ==> r.status == HTTP_404
    ensures r.status == HTTP_200 <==>
      && isOwner && t.Tenant? && t.org.subscription.Some?
      && (|| action == Some(CANCEL)
          || (action == Some(UPDATE_STRIPE_ID) && HasStripeId(stripeId)
              && StripeIdStorable(stripeId.value, held)))
    ensures r.status == HTTP_500 <==>
      && isOwner && t.Tenant? && t.org.subscription.Some?
      && action == Some(UPDATE_STRIPE_ID) && HasStripeId(stripeId)
      && !StripeIdStorable(stripeId.value, held)
    ensures r.status == HTTP_200 ==> r.after.Tenant? && r.after.org.subscription.Some?
    ensures r.status == HTTP_200 && action == Some(CANCEL) ==>
      var s := r.after.org.subscription.value;
      !s.isActive && s.expiredAt == Some(now)
    ensures r.status == HTTP_200 && action == Some(UPDATE_STRIPE_ID) ==>
      r.after.org.subscription.value.stripeId == stripeId.value
  {
    if !isOwner then Outcome(HTTP_403, t)
    else if t.Unavailable? then Outcome(HTTP_400, t)
    else if t.NoTenant? || t.org.subscription.None? then Outcome(HTTP_404, t)
    else
      var s := t.org.subscription.value;
      if action == Some(CANCEL) then
        var s' := s.(isActive := false, expiredAt := Some(now));
        Outcome(HTTP_200, Tenant(t.org.(subscription := Some(s'))))
      else if action == Some(UPDATE_STRIPE_ID) then
        if !HasStripeId(stripeId) then Outcome(HTTP_400, t)
        else if !StripeIdStorable(stripeId.value, held) then Outcome(HTTP_500, t)
        else
          var s' := s.(stripeId := stripeId.value);
          Outcome(HTTP_200, Tenant(t.org.(subscription := Some(s'))))
      else Outcome(HTTP_400, t)
  }

  /** Two subscriptions agree on everything but the fields an action may
      write: `is_active`, `expired_at` and `stripe_id`. */
  predicate SameTerms(a: Subscription, b: Subscription) {
    && a.planId == b.planId && a.startedAt == b.startedAt && a.endDate == b.endDate
    && a.billingCycle == b.billingCycle && a.nextPaymentDate == b.nextPaymentDate
    && a.lastPaymentDate == b.lastPaymentDate
  }

  /** Nothing else changes: the organization itself is untouched, the
      subscription keeps its terms, cancelling leaves the Stripe id and a
      Stripe-id update leaves the active flag and expiry. */
  lemma PatchSubscriptionFrame(isOwner: bool, t: Tenancy, held: set<string>, action: Option<string>,
                               stripeId: Option<string>, now: Instant)
    requires PatchSubscription(isOwner, t, held, action, stripeId, now).status == HTTP_200
    ensures var a := PatchSubscription(isOwner, t, held, action, stripeId, now).after;
      && t.Tenant? && a.Tenant?
      && a.org == t.org.(subscription := a.org.subscription)
      && SameTerms(t.org.subscription.value, a.org.subscription.value)
      && (action == Some(CANCEL) ==> a.org.subscription.value.stripeId == t.org.subscription.value.stripeId)
      && (action == Some(UPDATE_STRIPE_ID) ==>
            a.org.subscription.value == t.org.subscription.value.(stripeId := stripeId.value))
  {
  }

  /** Cancelling an already cancelled subscription only moves its expiry
      to the later call's time; updating the Stripe id twice keeps the
      second whenever that one can be stored, whether or not the first
      could (the ids the other subscriptions hold are the same for both
      calls). */
  lemma SubscriptionActionsCompose(t: Tenancy, held: set<string>, id1: string, id2: string,
                                   now1: Instant, now2: Instant)
    requires t.Tenant? && t.org.subscription.Some?
    ensures PatchSubscription(true, PatchSubscription(true, t, held, Some(CANCEL), None, now1).after,
                              held, Some(CANCEL), None, now2)
         == PatchSubscription(true, t, held, Some(CANCEL), None, now2)
    ensures id2 != [] && StripeIdStorable(id2, held) ==>
      PatchSubscription(true, PatchSubscription(true, t, held, Some(UPDATE_STRIPE_ID), Some(id1), now1).after,
                              held, Some(UPDATE_STRIPE_ID), Some(id2), now2)
         == PatchSubscription(true, t, held, Some(UPDATE_STRIPE_ID), Some(id2), now2)
  {
  }

  /** As routed, the permission classes run first: only an authenticated
      admin or owner reaches the handler, which then admits the owner
      alone. */
  function GuardedPatchSubscription(user: RequestUser, t: Tenancy, held: set<string>, action: Option<string>,
                                    stripeId: Option<string>, now: Instant): (r: Outcome)
    ensures !HasPermission(Some(user)) ==> r == Outcome(if user.Anonymous? then 401 else HTTP_403, t)
    ensures HasPermission(Some(user)) ==>
      r == PatchSubscription(user.account.isOrgOwner, t, held, action, stripeId, now)
  {
    if !HasPermission(Some(user)) then Outcome(if user.Anonymous? then 401 else HTTP_403, t)
    else PatchSubscription(user.account.isOrgOwner, t, held, action, stripeId, now)
  }

  /** An admin who is not the owner passes the permission class but can
      change nothing; every change is the owner's. */
  lemma OnlyOwnerManagesSubscription(user: RequestUser, t: Tenancy, held: set<string>, action: Option<string>,
                                     stripeId: Option<string>, now: Instant)
    ensures GuardedPatchSubscription(user, t, held, action, stripeId, now).status == HTTP_200 ==>
      user.Authenticated? && user.account.isOrgOwner
    ensures user.Authenticated? && user.account.isAdmin && !user.account.isOrgOwner ==>
      GuardedPatchSubscription(user, t, held, action, stripeId, now) == Outcome(HTTP_403, t)
  {
  }

  /* ------------------------------------------------ organization details */

  /** A partial update body: each writable field of
      `OrganizationSerializer` as DRF's field step hands it on (strings
      stripped of surrounding whitespace), `None` when not sent;
      `fieldsOk` is DRF's verdict on the field checks. */
  datatype DetailsPatch = DetailsPatch(
    businessName: Option<string>,
    isActive: Option<bool>,
    billingEmail: Option<string>,
    billingAddress: Option<string>,
    contactNumber: Option<string>,
    emailDomain: Option<string>,
    fieldsOk: bool)

  /** `serializer.is_valid()` on a partial update: only the fields sent are
      validated, the e-mail domain by `validate_email_domain` as the code
      has it. */
  predicate DetailsPatchValid(p: DetailsPatch) {
    && p.fieldsOk
    && (p.businessName.Some? ==> ValidateBusinessName(p.businessName.value).Ok?)
    && (p.emailDomain.Some? ==> ValidateEmailDomainAsWritten(p.emailDomain.value).Ok?)
  }

  /** `serializer.save()`: every field sent is written in its validated
      form; the others keep their values. */
  function ApplyDetails(o: Organization, p: DetailsPatch): (r: Organization)
    requires DetailsPatchValid(p)
    ensures r.id == o.id && r.ownerEmail == o.ownerEmail && r.subscription == o.subscription
    ensures r.schemaName == o.schemaName
    ensures p.businessName.None? ==> r.businessName == o.businessName
    ensures p.businessName.Some? ==> r.businessName == Strip(p.businessName.value) && r.businessName != []
    ensures p.emailDomain.None? ==> r.emailDomain == o.emailDomain
    ensures p.emailDomain.Some? ==>
      && r.emailDomain == NormaliseDomain(p.emailDomain.value)
      && ' ' !in r.emailDomain && '@' !in r.emailDomain
    ensures p.billingEmail.Some? ==> LowerStrip(r.billingEmail) == r.billingEmail
    ensures p.billingEmail.Some? ==> r.billingEmail == LowerStrip(p.billingEmail.value)
    ensures p.billingEmail.None? ==> r.billingEmail == o.billingEmail
    ensures r.isActive == p.isActive.GetOr(o.isActive)
    ensures r.billingAddress == p.billingAddress.GetOr(o.billingAddress)
    ensures r.contactNumber == p.contactNumber.GetOr(o.contactNumber)
  {
    var billing :=
      if p.billingEmail.Some? then
        ValidatedEmailsNormal(p.billingEmail.value, "");
        ValidateOptionalEmail(p.billingEmail.value)
      else o.billingEmail;
    var domain :=
      if p.emailDomain.Some? then ValidateEmailDomainAsWritten(p.emailDomain.value).value
      else o.emailDomain;
    o.(
      businessName := if p.businessName.Some? then ValidateBusinessName(p.businessName.value).value else o.businessName,
      isActive := p.isActive.GetOr(o.isActive),
      billingEmail := billing,
      billingAddress := p.billingAddress.GetOr(o.billingAddress),
      contactNumber := p.contactNumber.GetOr(o.contactNumber),
      emailDomain := domain)
  }

  /** Saving the same update twice is saving it once. */
  lemma ApplyDetailsIdempotent(o: Organization, p: DetailsPatch)
    requires DetailsPatchValid(p)
    ensures ApplyDetails(ApplyDetails(o, p), p) == ApplyDetails(o, p)
  {
  }

  /** `OrganizationDetailView.patch`: the owner check comes first, then the
      tenant context, then the body. */
  function PatchDetails(isOwner: bool, t: Tenancy, p: DetailsPatch): (r: Outcome)
    ensures r.status in {HTTP_200, HTTP_400, HTTP_403, HTTP_404}
    ensures r.status != HTTP_200 ==> r.after == t
    ensures !isOwner ==> r.status == HTTP_403
    ensures r.status == HTTP_200 <==> isOwner && t.Tenant? && DetailsPatchValid(p)
    ensures isOwner && t.NoTenant? ==> r.status == HTTP_404
    ensures r.status == HTTP_200 ==> r.after == Tenant(ApplyDetails(t.org, p))
  {
    if !isOwner then Outcome(HTTP_403, t)
    else if t.Unavailable? then Outcome(HTTP_400, t)
    else if t.NoTenant? then Outcome(HTTP_404, t)
    else if !DetailsPatchValid(p) then Outcome(HTTP_400, t)
    else Outcome(HTTP_200, Tenant(ApplyDetails(t.org, p)))
  }

  /** An empty valid body saves the organization unchanged, and no update
      reaches the owner's address, the subscription or the schema. */
  lemma PatchDetailsKeepsIdentity(t: Tenancy, p: DetailsPatch)
    requires t.Tenant?
    ensures PatchDetails(true, t, DetailsPatch(None, None, None, None, None, None, true)) == Outcome(HTTP_200, t)
    ensures var r := PatchDetails(true, t, p);
      r.after.Tenant? && r.after.org.ownerEmail == t.org.ownerEmail
      && r.after.org.subscription == t.org.subscription && r.after.org.schemaName == t.org.schemaName
  {
  }

  /** The update stores what the code's domain validator returns: `"@"`
      is saved as the empty domain, ... */
  lemma PatchDetailsStoresEmptyDomain(o: Organization)
    ensures PatchDetails(true, Tenant(o), DetailsPatch(None, None, None, None, None, Some("@"), true))
         == Outcome(HTTP_200, Tenant(o.(emailDomain := "")))
  {
    EmailDomainAtSignAccepted();
  }

  /** ... and whitespace other than a space between the `@` and the
      domain is saved with it (for instance `"@\tx.com"` as `"\tx.com"`). */
  lemma PatchDetailsKeepsDomainWhitespace(o: Organization, c: char, d: string)
    requires IsSpace(c) && c != ' '
    requires d != [] && Trimmed(d) && ' ' !in d && '@' !in d
    requires forall i :: 0 <= i < |d| ==> !IsUpper(d[i])
    ensures PatchDetails(true, Tenant(o), DetailsPatch(None, None, None, None, None, Some("@" + [c] + d), true))
         == Outcome(HTTP_200, Tenant(o.(emailDomain := [c] + d)))
  {
    EmailDomainWhitespaceKept(c, d);
  }

  /* ------------------------------------------------ organization creation */

  /** The creation form as DRF hands it to the validators: strings
      stripped of surrounding whitespace, `None` for the optional fields
      not sent; `fieldsOk` is its verdict on the field checks (presence,
      blank values, formats, lengths, the UUID and the dates). */
  datatype CreateForm = CreateForm(
    businessName: string,
    ownerEmail: string,
    billingEmail: string,
    billingAddress: string,
    contactNumber: Option<string>,
    emailDomain: string,
    password: string,
    firstName: Option<string>,
    lastName: Option<string>,
    planId: nat,
    billingCycle: string,
    endDate: Date,
    nextPaymentDate: Option<Date>,
    stripeId: Option<string>,
    fieldsOk: bool)

  /** `serializer.is_valid()`: DRF's field checks and each field's own
      `validate_*` method (the billing cycle is a choice field). */
  predicate CreateFormValid(f: CreateForm) {
    && f.fieldsOk
    && ValidateBusinessName(f.businessName).Ok?
    && ValidateRequiredEmail(f.ownerEmail, OWNER_EMAIL_REQUIRED).Ok?
    && ValidateRequiredEmail(f.billingEmail, BILLING_EMAIL_REQUIRED).Ok?
    && ValidateEmailDomainAsWritten(f.emailDomain).Ok?
    && ValidateOwnerPassword(f.password).Ok?
    && IsBillingCycle(f.billingCycle)
  }

  /** The values of the unique columns already in use. */
  datatype Taken = Taken(emails: set<string>, stripeIds: set<string>, schemas: set<string>, domains: set<string>)

  /** Everything `OrganizationCreateView.post` reads besides the form: the
      date and time, the plans on file, `slugify(business_name)`, the three
      `uuid4().hex` draws, the base domain, the keys the new rows get and
      the unique values in use. */
  datatype CreateEnv = CreateEnv(
    today: Date,
    now: Instant,
    plans: set<nat>,
    slug: string,
    hex1: string,
    hex2: string,
    hex3: string,
    baseDomain: string,
    orgId: OrgId,
    userId: AccountId,
    taken: Taken)

  predicate WellFormedEnv(e: CreateEnv) {
    ValidDate(e.today) && IsAscii(e.slug) && IsUuidHex(e.hex1) && IsUuidHex(e.hex2) && IsUuidHex(e.hex3)
  }

  /** What a successful creation commits: the organization (with its
      subscription), its primary domain, and the owner's account with the
      password `create_user` hashes. */
  datatype Created = Created(org: Organization, domain: string, owner: UserAccount, password: string)

  datatype CreateResult = CreateResult(status: int, created: Option<Created>)

  /** The payment date the view stores: the form's, or one billing cycle
      after today. */
  function PaymentDate(f: CreateForm, today: Date): (r: Result<Date, string>)
    requires ValidDate(today)
    ensures f.nextPaymentDate.Some? ==> r == Ok(f.nextPaymentDate.value)
    ensures f.nextPaymentDate.None? && IsBillingCycle(f.billingCycle) ==>
      (r.Ok? <==> NextPaymentDate(f.billingCycle, None, today).Ok?)
    ensures f.nextPaymentDate.None? && r.Ok? ==> Before(today, r.value)
  {
    if f.nextPaymentDate.Some? then Ok(f.nextPaymentDate.value)
    else NextPaymentDate(f.billingCycle, None, today)
  }

  /** The rows the transaction writes for a valid form. */
  function Build(f: CreateForm, e: CreateEnv, next: Date): (c: Created)
    requires WellFormedEnv(e) && CreateFormValid(f)
  {
    var ownerEmail := ValidateRequiredEmail(f.ownerEmail, OWNER_EMAIL_REQUIRED).value;
    var sub := Subscription(Some(f.planId), true, e.now, f.endDate, None, f.billingCycle,
                            f.stripeId.GetOr(""), next, None);
    var org := Organization(
      e.orgId,
      ValidateBusinessName(f.businessName).value,
      ownerEmail,
      ValidateRequiredEmail(f.billingEmail, BILLING_EMAIL_REQUIRED).value,
      f.billingAddress,
      f.contactNumber.GetOr(""),
      LowerStrip(ValidateEmailDomainAsWritten(f.emailDomain).value),
      Some(sub),
      GenerateSchemaName(e.slug, e.hex1, e.hex2),
      true);
    var owner := UserAccount(e.userId, LowerStrip(ownerEmail), Strip(f.firstName.GetOr("")),
                             Strip(f.lastName.GetOr("")), Some(e.orgId), true, false, true, true, false);
    Created(org, GenerateDomainName(e.slug, e.hex3, e.baseDomain), owner, f.password)
  }

  /** Whether any of the rows would break a unique column; the database
      raises `IntegrityError` and the transaction rolls back. */
  predicate Collides(c: Created, t: Taken) {
    || (c.org.subscription.Some? && c.org.subscription.value.stripeId in t.stripeIds)
    || c.org.schemaName in t.schemas
    || c.domain in t.domains
    || c.owner.email in t.emails
  }

  /** `OrganizationCreateView.post`. */
  function CreateOrganization(f: CreateForm, e: CreateEnv): (r: CreateResult)
    requires WellFormedEnv(e)
    ensures r.status in {HTTP_201, HTTP_400, HTTP_409, HTTP_500}
    ensures r.created.Some? <==> r.status == HTTP_201
    ensures !CreateFormValid(f) ==> r.status == HTTP_400
    ensures CreateFormValid(f) && f.planId !in e.plans ==> r.status == HTTP_400
    ensures r.status == HTTP_201 ==>
      && CreateFormValid(f) && f.planId in e.plans
      && PaymentDate(f, e.today).Ok?
      && !Collides(r.created.value, e.taken)
  {
    if !CreateFormValid(f) then CreateResult(HTTP_400, None)
    else if f.planId !in e.plans then CreateResult(HTTP_400, None)
    else
      match PaymentDate(f, e.today)
      case Err(_) => CreateResult(HTTP_500, None)
      case Ok(next) =>
        var c := Build(f, e, next);
        if Collides(c, e.taken) then CreateResult(HTTP_409, None)
        else CreateResult(HTTP_201, Some(c))
  }

  /** The four outcomes, each exactly characterised: 400 for a refused form
      or an unknown plan, 500 when no payment date can be derived, 409 on a
      unique-column clash, 201 otherwise. */
  lemma CreateOrganizationCases(f: CreateForm, e: CreateEnv)
    requires WellFormedEnv(e)
    ensures var r := CreateOrganization(f, e);
      && (r.status == HTTP_400 <==> !CreateFormValid(f) || f.planId !in e.plans)
      && (r.status == HTTP_500 <==>
            CreateFormValid(f) && f.planId in e.plans && PaymentDate(f, e.today).Err?)
      && (r.status == HTTP_409 <==>
            CreateFormValid(f) && f.planId in e.plans && PaymentDate(f, e.today).Ok?
            && Collides(Build(f, e, PaymentDate(f, e.today).value), e.taken))
  {
  }

  /** No payment date can be derived only in the last representable
      month or year. */
  lemma PaymentDateFailsAtEndOfCalendar(f: CreateForm, today: Date)
    requires ValidDate(today) && IsBillingCycle(f.billingCycle)
    ensures PaymentDate(f, today).Err? <==>
      && f.nextPaymentDate.None? && today.year == MAX_YEAR
      && (f.billingCycle == MONTHLY ==> today.month == 12)
  {
  }

  /** A created organization is stored in normal form: its owner and
      billing addresses are normalised, the owner's account uses the
      organization's owner address, and the e-mail domain is lower-case,
      trimmed and free of spaces and `@`. */
  lemma CreatedOrganizationNormal(f: CreateForm, e: CreateEnv)
    requires WellFormedEnv(e) && CreateOrganization(f, e).status == HTTP_201
    ensures var c := CreateOrganization(f, e).created.value;
      && '@' !in c.org.emailDomain && ' ' !in c.org.emailDomain
      && LowerStrip(c.org.emailDomain) == c.org.emailDomain
      && c.owner.email == c.org.ownerEmail
      && LowerStrip(c.org.ownerEmail) == c.org.ownerEmail
      && LowerStrip(c.org.billingEmail) == c.org.billingEmail
      && c.org.businessName == Strip(f.businessName) && c.org.businessName != []
      && c.org.ownerEmail == LowerStrip(f.ownerEmail) && c.org.billingEmail == LowerStrip(f.billingEmail)
      && c.org.billingAddress == f.billingAddress && c.org.contactNumber == f.contactNumber.GetOr("")
  {
    var c := CreateOrganization(f, e).created.value;
    var n := NormaliseDomain(f.emailDomain);
    LowerFixedOn(n);
    StripKeepsOut(n, '@');
    StripKeepsOut(n, ' ');
    LowerStripIdempotent(n);
    ValidatedEmailsNormal(f.ownerEmail, OWNER_EMAIL_REQUIRED);
    ValidatedEmailsNormal(f.billingEmail, BILLING_EMAIL_REQUIRED);
  }

  /** The view's extra `.lower().strip()` on the validated domain makes the
      stored domain the one the corrected validator would give, except
      where that validator refuses: there the code stores `""`. */
  lemma CreatedDomainAgainstCorrection(f: CreateForm, e: CreateEnv)
    requires WellFormedEnv(e) && CreateOrganization(f, e).status == HTTP_201
    ensures var c := CreateOrganization(f, e).created.value;
      c.org.emailDomain == (if ValidateEmailDomain(f.emailDomain).Ok? then ValidateEmailDomain(f.emailDomain).value else "")
  {
    var n := NormaliseDomain(f.emailDomain);
    LowerFixedOn(n);
    StripKeepsOut(n, '@');
    StripKeepsOut(n, ' ');
  }

  /** A form whose e-mail domain is `"@"` is decided exactly like one with
      any domain the code accepts, and a created organization then has
      the empty domain. */
  lemma CreateAcceptsAtSignDomain(f: CreateForm, e: CreateEnv, d: string)
    requires WellFormedEnv(e) && ValidateEmailDomainAsWritten(d).Ok?
    ensures CreateOrganization(f.(emailDomain := "@"), e).status == CreateOrganization(f.(emailDomain := d), e).status
    ensures CreateOrganization(f.(emailDomain := "@"), e).status == HTTP_201 ==>
      CreateOrganization(f.(emailDomain := "@"), e).created.value.org.emailDomain == ""
  {
    var a := f.(emailDomain := "@");
    var b := f.(emailDomain := d);
    EmailDomainAtSignAccepted();
    assert CreateFormValid(a) == CreateFormValid(b);
    assert PaymentDate(a, e.today) == PaymentDate(b, e.today);
    if CreateFormValid(a) && f.planId in e.plans && PaymentDate(a, e.today).Ok? {
      BuildAtSignDomain(f, e, PaymentDate(a, e.today).value, d);
    }
  }

  /** The e-mail domain reaches only the organization's own column: the
      rows built for `"@"` and for another accepted domain clash alike, and
      the first stores the empty domain. */
  lemma BuildAtSignDomain(f: CreateForm, e: CreateEnv, next: Date, d: string)
    requires WellFormedEnv(e)
    requires CreateFormValid(f.(emailDomain := "@")) && CreateFormValid(f.(emailDomain := d))
    ensures Collides(Build(f.(emailDomain := "@"), e, next), e.taken)
         == Collides(Build(f.(emailDomain := d), e, next), e.taken)
    ensures Build(f.(emailDomain := "@"), e, next).org.emailDomain == ""
  {
    var ca := Build(f.(emailDomain := "@"), e, next);
    var cb := Build(f.(emailDomain := d), e, next);
    EmailDomainAtSignAccepted();
    assert ca.org.subscription == cb.org.subscription;
    assert ca.org.schemaName == cb.org.schemaName && ca.domain == cb.domain && ca.owner == cb.owner;
    assert ca.org.emailDomain == LowerStrip("");
  }

  /** The derived rows: an active subscription on the chosen plan with the
      form's terms, a payment date one cycle ahead when none was sent (one
      the subscription validator accepts), a valid schema name and a
      domain under the base domain. */
  lemma CreatedSubscriptionTerms(f: CreateForm, e: CreateEnv)
    requires WellFormedEnv(e) && CreateOrganization(f, e).status == HTTP_201
    ensures var c := CreateOrganization(f, e).created.value;
      var s := c.org.subscription.value;
      && c.org.subscription.Some? && s.isActive && s.expiredAt.None?
      && s.planId == Some(f.planId) && s.billingCycle == f.billingCycle && s.endDate == f.endDate
      && s.stripeId == f.stripeId.GetOr("")
      && (f.nextPaymentDate.Some? ==> s.nextPaymentDate == f.nextPaymentDate.value)
      && (f.nextPaymentDate.None? ==>
            && s.nextPaymentDate == NextPaymentDate(f.billingCycle, None, e.today).value
            && ValidateNextPaymentDate(s.nextPaymentDate, e.today).Ok?)
      && c.org.schemaName == GenerateSchemaName(e.slug, e.hex1, e.hex2)
      && c.domain == DomainLabel(e.slug, e.hex3) + "." + e.baseDomain
      && c.org.id == e.orgId && c.org.isActive
  {
  }

  /** The owner's account is active, unrestricted, staff and the owner of
      the new organization, with stripped names: the permission class
      admits it, and a token naming it authenticates on the new tenant. */
  lemma CreatedOwnerAdmitted(f: CreateForm, e: CreateEnv, header: string, raw: string)
    requires WellFormedEnv(e) && CreateOrganization(f, e).status == HTTP_201
    requires e.userId != []
    ensures var u := CreateOrganization(f, e).created.value.owner;
      && u.isOrgOwner && u.isStaff && !u.isAdmin && u.organization == Some(e.orgId)
      && u.firstName == Strip(f.firstName.GetOr("")) && u.lastName == Strip(f.lastName.GetOr(""))
      && HasPermission(Some(Authenticated(u)))
      && Authentication.Authenticate(Some(header), Some(raw), Some(Authentication.Claims(Some(u.userId))),
                                     map[u.userId := u], Some(e.orgId))
         == Ok(Some((u, Authentication.Claims(Some(u.userId)))))
  {
    var u := CreateOrganization(f, e).created.value.owner;
    assert u == Build(f, e, PaymentDate(f, e.today).value).owner;
    ActiveMemberAuthenticates(u, header, raw, e.orgId);
  }

  /** An active, unrestricted member of `org` named by a token is let in on
      that organization's domain. */
  lemma ActiveMemberAuthenticates(u: UserAccount, header: string, raw: string, org: OrgId)
    requires u.isActive && !u.isRestricted && u.organization == Some(org) && u.userId != []
    ensures Authentication.Authenticate(Some(header), Some(raw), Some(Authentication.Claims(Some(u.userId))),
                                        map[u.userId := u], Some(org))
         == Ok(Some((u, Authentication.Claims(Some(u.userId)))))
  {
  }

  /** `stripe_id` is a unique column that defaults to `""`: once one
      subscription has no Stripe id, creating another organization
      without one fails with 409. */
  lemma BlankStripeIdsCollide(f: CreateForm, e: CreateEnv)
    requires WellFormedEnv(e)
    requires f.stripeId.None? || f.stripeId == Some("")
    requires "" in e.taken.stripeIds
    ensures CreateOrganization(f, e).status != HTTP_201
    ensures CreateFormValid(f) && f.planId in e.plans && PaymentDate(f, e.today).Ok? ==>
      CreateOrganization(f, e).status == HTTP_409
  {
  }

  /** The end date is not checked against today at creation (the
      subscription serializer's date validators are not part of this
      form): two forms differing only in the end date get the same
      status. */
  lemma CreateIgnoresEndDate(f: CreateForm, e: CreateEnv, endDate: Date)
    requires WellFormedEnv(e)
    ensures CreateOrganization(f.(endDate := endDate), e).status == CreateOrganization(f, e).status
  {
    var g := f.(endDate := endDate);
    assert CreateFormValid(g) == CreateFormValid(f) by {
      assert g.businessName == f.businessName && g.ownerEmail == f.ownerEmail;
      assert g.billingEmail == f.billingEmail && g.emailDomain == f.emailDomain;
      assert g.password == f.password && g.billingCycle == f.billingCycle && g.fieldsOk == f.fieldsOk;
    }
    assert PaymentDate(g, e.today) == PaymentDate(f, e.today);
    if CreateFormValid(f) && f.planId in e.plans && PaymentDate(f, e.today).Ok? {
      BuildIgnoresEndDate(f, e, PaymentDate(f, e.today).value, endDate);
    }
  }

  /** The end date reaches only the subscription's own column. */
  lemma BuildIgnoresEndDate(f: CreateForm, e: CreateEnv, next: Date, endDate: Date)
    requires WellFormedEnv(e) && CreateFormValid(f) && CreateFormValid(f.(endDate := endDate))
    ensures Collides(Build(f.(endDate := endDate), e, next), e.taken) == Collides(Build(f, e, next), e.taken)
  {
    var a := Build(f, e, next);
    var b := Build(f.(endDate := endDate), e, next);
    assert b.org.subscription.value.stripeId == a.org.subscription.value.stripeId;
    assert b.org.schemaName == a.org.schemaName && b.domain == a.domain && b.owner.email == a.owner.email;
  }
}
