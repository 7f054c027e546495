/** The `validate_*` methods of the organization serializers: plan limits
    and price, the subscription's billing cycle and future dates, the
    organization's business name, e-mail addresses and e-mail domain, and
    the owner's password at organization creation.

    Prices are integer cents (only their sign is checked). DRF's own field
    checks (types, lengths, address syntax) are outside the model. */
module OrgSerializers {
  import opened Common
  import opened Text
  import opened OrgHelper

  /* ------------------------------------------------- subscription plans */

  const PRICE_NEGATIVE: string := "Price cannot be negative."
  const MAX_USERS_NOT_POSITIVE: string := "Max users must be greater than 0."
  const MAX_TASKS_NOT_POSITIVE: string := "Max tasks must be greater than 0."

  function ValidatePrice(cents: int): (r: Result<int, string>)
    ensures r.Ok? <==> cents >= 0
    ensures r.Ok? ==> r.value == cents
  {
    if cents < 0 then Err(PRICE_NEGATIVE) else Ok(cents)
  }

  function ValidateMaxUsers(value: int): (r: Result<int, string>)
    ensures r.Ok? <==> value > 0
    ensures r.Ok? ==> r.value == value
  {
    if value <= 0 then Err(MAX_USERS_NOT_POSITIVE) else Ok(value)
  }

  function ValidateMaxTasks(value: int): (r: Result<int, string>)
    ensures r.Ok? <==> value > 0
    ensures r.Ok? ==> r.value == value
  {
    if value <= 0 then Err(MAX_TASKS_NOT_POSITIVE) else Ok(value)
  }

  datatype PlanForm = PlanForm(priceCents: int, maxUsers: int, maxTasks: int)

  /** `SubscriptionPlanSerializer.is_valid()` over the three checked fields:
      every field is validated and the failing ones are reported together. */
  function ValidatePlan(f: PlanForm): (r: Result<PlanForm, set<string>>)
    ensures r.Ok? <==> f.priceCents >= 0 && f.maxUsers > 0 && f.maxTasks > 0
    ensures r.Ok? ==> r.value == f
    ensures r.Err? ==>
      && ("price" in r.error <==> f.priceCents < 0)
      && ("max_users" in r.error <==> f.maxUsers <= 0)
      && ("max_tasks" in r.error <==> f.maxTasks <= 0)
      && r.error <= {"price", "max_users", "max_tasks"}
  {
    var errors :=
      (if ValidatePrice(f.priceCents).Err? then {"price"} else {})
      + (if ValidateMaxUsers(f.maxUsers).Err? then {"max_users"} else {})
      + (if ValidateMaxTasks(f.maxTasks).Err? then {"max_tasks"} else {});
    if errors == {} then Ok(f) else Err(errors)
  }

  /** A free plan is a valid plan: zero is an acceptable price, whereas a
      plan without users or tasks never is. */
  lemma FreePlanAccepted(maxUsers: int, maxTasks: int)
    ensures maxUsers > 0 && maxTasks > 0 ==> ValidatePlan(PlanForm(0, maxUsers, maxTasks)).Ok?
    ensures ValidatePlan(PlanForm(0, 0, maxTasks)).Err? && ValidatePlan(PlanForm(0, maxUsers, 0)).Err?
  {
  }

  /* ------------------------------------------------------ subscriptions */

  const BILLING_CYCLE_INVALID: string := "Billing cycle must be one of: MONTHLY, YEARLY"
  const END_DATE_NOT_FUTURE: string := "End date must be in the future."
  const NEXT_PAYMENT_NOT_FUTURE: string := "Next payment date must be in the future."

  /** The choices of `Subscription.BILLING_OPTIONS`. */
  predicate IsBillingCycle(value: string) {
    value == MONTHLY || value == YEARLY
  }

  function ValidateBillingCycle(value: string): (r: Result<string, string>)
    ensures r.Ok? <==> IsBillingCycle(value)
    ensures r.Ok? ==> r.value == value
    ensures r.Err? ==> r.error == BILLING_CYCLE_INVALID
  {
    if !IsBillingCycle(value) then Err(BILLING_CYCLE_INVALID) else Ok(value)
  }

  /** `validate_end_date`: the date must be strictly after today. */
  function ValidateEndDate(value: Date, today: Date): (r: Result<Date, string>)
    ensures r.Ok? <==> Before(today, value)
    ensures r.Ok? ==> r.value == value
  {
    if !Before(today, value) then Err(END_DATE_NOT_FUTURE) else Ok(value)
  }

  /** `validate_next_payment_date`: the date must be strictly after today. */
  function ValidateNextPaymentDate(value: Date, today: Date): (r: Result<Date, string>)
    ensures r.Ok? <==> Before(today, value)
    ensures r.Ok? ==> r.value == value
  {
    if !Before(today, value) then Err(NEXT_PAYMENT_NOT_FUTURE) else Ok(value)
  }

  /** Today itself is refused, the next day is accepted. */
  lemma TodayIsNotFuture(today: Date)
    ensures ValidateEndDate(today, today).Err? && ValidateNextPaymentDate(today, today).Err?
    ensures ValidateEndDate(today.(day := today.day + 1), today).Ok?
  {
  }

  /** The payment date `calculate_next_payment_date` derives from today is
      always one the subscription validator accepts, for both cycles. */
  lemma DerivedPaymentDateIsFuture(cycle: string, today: Date)
    requires ValidDate(today) && today.year < MAX_YEAR && IsBillingCycle(cycle)
    ensures NextPaymentDate(cycle, None, today).Ok?
    ensures ValidateNextPaymentDate(NextPaymentDate(cycle, None, today).value, today).Ok?
  {
  }

  /* ------------------------------------------------------ organizations */

  const BUSINESS_NAME_EMPTY: string := "Business name cannot be empty."
  const EMAIL_DOMAIN_REQUIRED: string := "Email domain is required."
  const EMAIL_DOMAIN_FORMAT: string := "Invalid email domain format. Use format like 'company.com'"
  const OWNER_EMAIL_REQUIRED: string := "Owner email is required."
  const BILLING_EMAIL_REQUIRED: string := "Billing email is required."
  const OWNER_PASSWORD_TOO_SHORT: string := "Password must be at least 8 characters long."

  /** `validate_business_name` (both serializers): an empty or blank name
      is rejected, any other is stripped. */
  function ValidateBusinessName(value: string): (r: Result<string, string>)
    ensures r.Err? <==> AllSpace(value)
    ensures r.Err? ==> r.error == BUSINESS_NAME_EMPTY
    ensures r.Ok? ==> r.value != [] && Trimmed(r.value) && r.value == Strip(value)
  {
    if AllSpace(value) then Err(BUSINESS_NAME_EMPTY) else Ok(Strip(value))
  }

  /** An accepted name validates to itself. */
  lemma ValidateBusinessNameIdempotent(value: string)
    requires ValidateBusinessName(value).Ok?
    ensures ValidateBusinessName(ValidateBusinessName(value).value) == ValidateBusinessName(value)
  {
    StripIdempotent(value);
  }

  /** `OrganizationSerializer.validate_billing_email`: a non-empty address
      is lower-cased and stripped, an empty one is kept. */
  function ValidateOptionalEmail(value: string): (r: string)
    ensures Trimmed(r) && forall i :: 0 <= i < |r| ==> !IsUpper(r[i])
    ensures value == [] ==> r == []
    ensures r == Lower(Strip(value))
    ensures Trimmed(value) && (forall i :: 0 <= i < |value| ==> !IsUpper(value[i])) ==> r == value
  {
    LowerStripMeaning(value);
    if value != [] then LowerStrip(value) else value
  }

  /** `OrganizationCreateSerializer.validate_owner_email` and
      `validate_billing_email`: an empty address is rejected with the
      field's message, any other is lower-cased and stripped. */
  function ValidateRequiredEmail(value: string, missing: string): (r: Result<string, string>)
    ensures r.Err? <==> value == []
    ensures r.Err? ==> r.error == missing
    ensures r.Ok? ==> Trimmed(r.value) && forall i :: 0 <= i < |r.value| ==> !IsUpper(r.value[i])
    ensures r.Ok? ==> r.value == Lower(Strip(value))
    ensures (&& value != [] && Trimmed(value)
             && forall i :: 0 <= i < |value| ==> !IsUpper(value[i])) ==> r == Ok(value)
  {
    LowerStripMeaning(value);
    if value == [] then Err(missing) else Ok(LowerStrip(value))
  }

  /** Addresses are stored in normal form: normalising a validated address
      again changes nothing. */
  lemma ValidatedEmailsNormal(value: string, missing: string)
    ensures LowerStrip(ValidateOptionalEmail(value)) == ValidateOptionalEmail(value)
    ensures ValidateRequiredEmail(value, missing).Ok? ==>
      LowerStrip(ValidateRequiredEmail(value, missing).value) == ValidateRequiredEmail(value, missing).value
  {
    if value != [] {
      LowerStripIdempotent(value);
    }
  }

  /** Case and surrounding whitespace do not matter: an address and its
      normal form validate alike, as long as the normal form is not empty. */
  lemma {:induction false} ValidatedEmailsIgnoreCase(value: string, missing: string)
    ensures ValidateOptionalEmail(LowerStrip(value)) == ValidateOptionalEmail(value)
    ensures LowerStrip(value) != [] ==>
      ValidateRequiredEmail(LowerStrip(value), missing) == ValidateRequiredEmail(value, missing)
  {
    LowerStripIdempotent(value);
    LowerStripCommute(value);
    LowerStripCommute(LowerStrip(value));
  }

  /** The normalisation `value.strip().lstrip("@").lower()`. */
  function NormaliseDomain(value: string): (d: string)
    ensures forall i :: 0 <= i < |d| ==> !IsUpper(d[i])
    ensures |d| > 0 ==> d[0] != '@'
  {
    LowerNormalises(LStripChar(Strip(value), '@'));
    Lower(LStripChar(Strip(value), '@'))
  }

  /** `validate_email_domain` as the code reads (both serializers): a blank
      value is required-error, the normalised domain must contain no space
      and no `@`. */
  function ValidateEmailDomainAsWritten(value: string): (r: Result<string, string>)
    ensures r == Err(EMAIL_DOMAIN_REQUIRED) <==> AllSpace(value)
    ensures r.Ok? <==> !AllSpace(value) && ' ' !in NormaliseDomain(value) && '@' !in NormaliseDomain(value)
    ensures r.Err? && r.error != EMAIL_DOMAIN_REQUIRED ==> r.error == EMAIL_DOMAIN_FORMAT
    ensures r.Ok? ==> r.value == NormaliseDomain(value)
  {
    if AllSpace(value) then Err(EMAIL_DOMAIN_REQUIRED)
    else
      var domain := NormaliseDomain(value);
      if ' ' in domain || '@' in domain then Err(EMAIL_DOMAIN_FORMAT) else Ok(domain)
  }

  /** As written, `"@"` passes as the empty domain, which the same
      validator then rejects as missing. */
  lemma EmailDomainAtSignAccepted()
    ensures ValidateEmailDomainAsWritten("@") == Ok("")
    ensures ValidateEmailDomainAsWritten("") == Err(EMAIL_DOMAIN_REQUIRED)
  {
    assert !AllSpace("@") by { assert !IsSpace("@"[0]); }
    assert Strip("@") == "@" by {
      StripOfPadded([], "@", []);
      assert [] + "@" + [] == "@";
    }
    assert LStripChar("@", '@') == "";
  }

  /** As written, whitespace other than a space after the `@` survives:
      `"@" + [c] + d` passes as `[c] + d` (for instance `"@\tx.com"` as
      `"\tx.com"`) ... */
  lemma EmailDomainWhitespaceKept(c: char, d: string)
    requires IsSpace(c) && c != ' '
    requires d != [] && Trimmed(d) && ' ' !in d && '@' !in d
    requires forall i :: 0 <= i < |d| ==> !IsUpper(d[i])
    ensures ValidateEmailDomainAsWritten("@" + [c] + d) == Ok([c] + d)
  {
    var w := [c] + d;
    var v := "@" + [c] + d;
    AtPaddedDomainNormalised(c, d);
    assert !AllSpace(v) by { assert v[0] == '@'; }
    NotInPrefixed(' ', c, d);
    NotInPrefixed('@', c, d);
    AsWrittenAccepts(v, w);
  }

  /** ... and that result, validated again, loses the `c`: the validator
      is not idempotent. */
  lemma EmailDomainWhitespaceDropped(c: char, d: string)
    requires IsSpace(c) && c != ' '
    requires d != [] && Trimmed(d) && ' ' !in d && '@' !in d
    requires forall i :: 0 <= i < |d| ==> !IsUpper(d[i])
    ensures ValidateEmailDomainAsWritten([c] + d) == Ok(d)
  {
    PaddedDomainNormalised(c, d);
    AsWrittenAccepts([c] + d, d);
  }

  /** A character that is neither `c` nor in `d` is not in `[c] + d`. */
  lemma NotInPrefixed(x: char, c: char, d: string)
    requires x != c && x !in d
    ensures x !in [c] + d
  {
    var w := [c] + d;
    forall k | 0 <= k < |w| ensures w[k] != x {
      if k > 0 { assert w[k] == d[k - 1]; }
    }
  }

  /** The code as written accepts a value whose normal form is non-empty
      and has no space and no `@`, as that normal form. */
  lemma AsWrittenAccepts(value: string, d: string)
    requires NormaliseDomain(value) == d && d != [] && ' ' !in d && '@' !in d
    ensures ValidateEmailDomainAsWritten(value) == Ok(d)
  {
  }

  /** `"@" + [c] + d` has nothing at its ends to strip. */
  lemma AtPaddedDomainStripped(c: char, d: string)
    requires IsSpace(c) && c != ' '
    requires d != [] && Trimmed(d)
    ensures Strip("@" + [c] + d) == "@" + [c] + d
  {
    var v := "@" + [c] + d;
    assert Trimmed(v) by { assert v[|v| - 1] == d[|d| - 1]; assert v[0] == '@'; }
    StripOfPadded([], v, []);
    assert [] + v + [] == v;
  }

  /** `"@" + [c] + d` normalises to `[c] + d`: one `@` to drop, nothing to
      lower-case. */
  lemma AtPaddedDomainNormalised(c: char, d: string)
    requires IsSpace(c) && c != ' '
    requires d != [] && Trimmed(d) && '@' !in d
    requires forall i :: 0 <= i < |d| ==> !IsUpper(d[i])
    ensures NormaliseDomain("@" + [c] + d) == [c] + d
  {
    var w := [c] + d;
    var v := "@" + [c] + d;
    assert v == "@" + w;
    AtPaddedDomainStripped(c, d);
    AtSignDropped(w);
    assert LStripChar(Strip(v), '@') == w;
    assert !IsUpper(w[0]);
    LowerFixedOn(w);
  }

  /** Only the one leading `@` goes when the next character is another. */
  lemma AtSignDropped(w: string)
    requires w != [] && w[0] != '@'
    ensures LStripChar("@" + w, '@') == w
  {
    var v := "@" + w;
    assert v[0] == '@' && v[1..] == w;
  }

  /** `[c] + d` normalises to `d`: the leading whitespace is stripped. */
  lemma PaddedDomainNormalised(c: char, d: string)
    requires IsSpace(c) && c != ' '
    requires d != [] && Trimmed(d) && '@' !in d
    requires forall i :: 0 <= i < |d| ==> !IsUpper(d[i])
    ensures NormaliseDomain([c] + d) == d
  {
    assert Strip([c] + d) == d by {
      assert AllSpace([c]);
      StripOfPadded([c], d, []);
      assert [c] + d + [] == [c] + d;
    }
    assert LStripChar(d, '@') == d by { assert d[0] != '@'; }
    LowerFixedOn(d);
  }

  /** Lower-casing leaves a text without upper-case letters alone. */
  lemma LowerFixedOn(s: string)
    requires forall i :: 0 <= i < |s| ==> !IsUpper(s[i])
    ensures Lower(s) == s
  {
  }

  /** `validate_email_domain` as evidently intended: the domain left after
      removing the `@` prefix is also stripped, and an empty one is
      rejected, so every accepted domain is a real one. */
  function ValidateEmailDomain(value: string): (r: Result<string, string>)
    ensures r == Err(EMAIL_DOMAIN_REQUIRED) <==> AllSpace(value)
    ensures r.Ok? <==>
      && !AllSpace(value)
      && var d := Strip(NormaliseDomain(value)); d != [] && ' ' !in d && '@' !in d
    ensures r.Err? && r.error != EMAIL_DOMAIN_REQUIRED ==> r.error == EMAIL_DOMAIN_FORMAT
    ensures r.Ok? ==> r.value == Strip(NormaliseDomain(value))
    ensures r.Ok? ==>
      && r.value != [] && Trimmed(r.value) && ' ' !in r.value && '@' !in r.value
      && (forall i :: 0 <= i < |r.value| ==> !IsUpper(r.value[i]))
  {
    LowerFixedOn(NormaliseDomain(value));
    if AllSpace(value) then Err(EMAIL_DOMAIN_REQUIRED)
    else
      var domain := LowerStrip(NormaliseDomain(value));
      if domain == [] || ' ' in domain || '@' in domain then Err(EMAIL_DOMAIN_FORMAT) else Ok(domain)
  }

  /** An accepted domain validates to itself. */
  lemma ValidateEmailDomainIdempotent(value: string)
    requires ValidateEmailDomain(value).Ok?
    ensures ValidateEmailDomain(ValidateEmailDomain(value).value) == ValidateEmailDomain(value)
  {
    var d := ValidateEmailDomain(value).value;
    assert !AllSpace(d) by { assert !IsSpace(d[0]); }
    NormalDomainFixed(d);
    LowerStripFixed(d);
  }

  /** A trimmed, lower-case domain without `@` is its own normal form. */
  lemma NormalDomainFixed(d: string)
    requires d != [] && Trimmed(d) && '@' !in d
    requires forall i :: 0 <= i < |d| ==> !IsUpper(d[i])
    ensures NormaliseDomain(d) == d
  {
    assert Strip(d) == d by {
      StripOfPadded([], d, []);
      assert [] + d + [] == d;
    }
    assert d[0] != '@';
    assert LStripChar(d, '@') == d;
    LowerFixedOn(d);
  }

  /** The correction changes only the degenerate cases: whenever the code
      as written accepts a non-empty domain that does not start with
      whitespace, the corrected validator accepts the same domain. */
  lemma EmailDomainCorrectionConservative(value: string)
    requires ValidateEmailDomainAsWritten(value).Ok?
    requires ValidateEmailDomainAsWritten(value).value != []
    requires Trimmed(ValidateEmailDomainAsWritten(value).value)
    ensures ValidateEmailDomain(value) == ValidateEmailDomainAsWritten(value)
  {
    LowerStripFixed(NormaliseDomain(value));
  }

  /** `OrganizationCreateSerializer.validate_password`. */
  function ValidateOwnerPassword(value: string): (r: Result<string, string>)
    ensures r.Ok? <==> |value| >= 8
    ensures r.Ok? ==> r.value == value
  {
    if |value| < 8 then Err(OWNER_PASSWORD_TOO_SHORT) else Ok(value)
  }
}
