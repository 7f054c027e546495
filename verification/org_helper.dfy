/** The organization helpers: the next payment date one calendar month or
    year ahead, the PostgreSQL schema name and the tenant domain name.

    `slugify` and `uuid4` are outside the model: their outputs are inputs
    here. A slug is ASCII (Django's `slugify` without `allow_unicode`), and
    a uuid's `hex` is 32 lower-case hexadecimal digits. */
module OrgHelper {
  import opened Common
  import opened Text

  /* --------------------------------------------------------------- dates */

  /** A `datetime.date`. */
  datatype Date = Date(year: int, month: int, day: int)

  const MIN_YEAR: int := 1
  const MAX_YEAR: int := 9999

  predicate IsLeap(y: int) {
    y % 4 == 0 && (y % 100 != 0 || y % 400 == 0)
  }

  function DaysInMonth(y: int, m: int): int
    requires 1 <= m <= 12
  {
    if m == 2 then (if IsLeap(y) then 29 else 28)
    else if m == 4 || m == 6 || m == 9 || m == 11 then 30
    else 31
  }

  /** The dates Python can represent. */
  predicate ValidDate(d: Date) {
    && MIN_YEAR <= d.year <= MAX_YEAR
    && 1 <= d.month <= 12
    && 1 <= d.day <= DaysInMonth(d.year, d.month)
  }

  /** Chronological order. */
  predicate Before(a: Date, b: Date) {
    a.year < b.year
    || (a.year == b.year && a.month < b.month)
    || (a.year == b.year && a.month == b.month && a.day < b.day)
  }

  function Min(a: int, b: int): int {
    if a <= b then a else b
  }

  /** Months counted from year 0, so that "one month later" is `+ 1`. */
  function MonthIndex(d: Date): int {
    d.year * 12 + d.month - 1
  }

  /** `date + relativedelta(months=1)`: the same day of the next month,
      clamped to that month's length; past year 9999 `date` raises. */
  function AddMonth(d: Date): (r: Result<Date, string>)
    requires ValidDate(d)
    ensures r.Ok? <==> !(d.year == MAX_YEAR && d.month == 12)
    ensures r.Ok? ==> ValidDate(r.value) && Before(d, r.value)
    ensures r.Ok? ==> MonthIndex(r.value) == MonthIndex(d) + 1
    ensures r.Ok? ==> r.value.day == Min(d.day, DaysInMonth(r.value.year, r.value.month))
  {
    var (y, m) := if d.month == 12 then (d.year + 1, 1) else (d.year, d.month + 1);
    if y > MAX_YEAR then Err(YearOutOfRange(y))
    else Ok(Date(y, m, Min(d.day, DaysInMonth(y, m))))
  }

  /** `date + relativedelta(years=1)`: the same day a year later, with
      February 29 becoming February 28 in a common year. */
  function AddYear(d: Date): (r: Result<Date, string>)
    requires ValidDate(d)
    ensures r.Ok? <==> d.year < MAX_YEAR
    ensures r.Ok? ==> ValidDate(r.value) && Before(d, r.value)
    ensures r.Ok? ==> r.value.year == d.year + 1 && r.value.month == d.month
    ensures r.Ok? ==> r.value.day == Min(d.day, DaysInMonth(d.year + 1, d.month))
  {
    var y := d.year + 1;
    if y > MAX_YEAR then Err(YearOutOfRange(y))
    else Ok(Date(y, d.month, Min(d.day, DaysInMonth(y, d.month))))
  }

  function YearOutOfRange(y: int): string {
    "year is out of range"
  }

  const MONTHLY: string := "MONTHLY"
  const YEARLY: string := "YEARLY"

  function InvalidCycle(cycle: string): string {
    "Invalid billing_cycle: " + cycle + ". Must be 'MONTHLY' or 'YEARLY'."
  }

  /** `calculate_next_payment_date`: one month or one year after the start
      date (today when none is given); any other cycle raises. */
  function NextPaymentDate(cycle: string, start: Option<Date>, today: Date): (r: Result<Date, string>)
    requires ValidDate(today) && (start.Some? ==> ValidDate(start.value))
    ensures cycle != MONTHLY && cycle != YEARLY ==> r == Err(InvalidCycle(cycle))
    ensures r.Ok? ==> ValidDate(r.value) && Before(start.GetOr(today), r.value)
    ensures cycle == MONTHLY ==> r == AddMonth(start.GetOr(today))
    ensures cycle == YEARLY ==> r == AddYear(start.GetOr(today))
  {
    var d := start.GetOr(today);
    if cycle == MONTHLY then AddMonth(d)
    else if cycle == YEARLY then AddYear(d)
    else Err(InvalidCycle(cycle))
  }

  /** A day that exists in the next month is kept, December rolls over to
      January of the next year, and a day past the end of the next month
      becomes its last day. */
  lemma AddMonthCalendar(d: Date)
    requires ValidDate(d) && d.year < MAX_YEAR
    ensures var r := AddMonth(d).value;
      && (d.month == 12 ==> r.year == d.year + 1 && r.month == 1 && r.day == d.day)
      && (d.month < 12 ==> r.year == d.year && r.month == d.month + 1)
      && (d.day <= 28 ==> r.day == d.day)
      && (d.day > DaysInMonth(r.year, r.month) ==> r.day == DaysInMonth(r.year, r.month))
  {
  }

  /** A yearly cycle keeps month and day except for February 29, which
      becomes February 28. */
  lemma AddYearLeapDay(d: Date)
    requires ValidDate(d) && d.year < MAX_YEAR
    ensures var r := AddYear(d).value;
      && (d.month == 2 && d.day == 29 ==> r.day == 28)
      && (!(d.month == 2 && d.day == 29) ==> r.day == d.day)
  {
    if d.month == 2 && d.day == 29 {
      assert IsLeap(d.year);
      assert !IsLeap(d.year + 1);
    }
  }

  /* --------------------------------------------------------- characters */

  predicate IsAscii(s: string) {
    forall i :: 0 <= i < |s| ==> s[i] < 128 as char
  }

  predicate IsLowerHex(c: char) {
    IsDigit(c) || ('a' <= c <= 'f')
  }

  /** `uuid4().hex`: 32 lower-case hexadecimal digits. */
  predicate IsUuidHex(h: string) {
    |h| == 32 && forall i :: 0 <= i < |h| ==> IsLowerHex(h[i])
  }

  /** The characters `s.replace(a, b)` for single characters leaves. */
  function ReplaceChar(s: string, a: char, b: char): (r: string)
    ensures |r| == |s|
    ensures forall i :: 0 <= i < |s| ==> r[i] == (if s[i] == a then b else s[i])
  {
    seq(|s|, i requires 0 <= i < |s| => if s[i] == a then b else s[i])
  }

  /** `"".join(c for c in s if keep(c))`, for the two character classes the
      helpers keep. */
  function KeepChars(s: string, hyphen: bool): (r: string)
    ensures |r| <= |s|
    ensures forall i :: 0 <= i < |r| ==> Kept(r[i], hyphen)
    ensures r == [] <==> forall i :: 0 <= i < |s| ==> !Kept(s[i], hyphen)
    ensures (forall i :: 0 <= i < |s| ==> Kept(s[i], hyphen)) ==> r == s
    ensures (forall i :: 0 <= i < |s| ==> !IsUpper(s[i])) ==> forall i :: 0 <= i < |r| ==> !IsUpper(r[i])
  {
    if s == [] then []
    else
      var rest := KeepChars(s[1..], hyphen);
      assert forall i :: 0 < i < |s| ==> s[i] == s[1..][i - 1];
      if Kept(s[0], hyphen) then [s[0]] + rest else rest
  }

  /** `c.isalnum() or c == "_"` (schema names), or `c.isalnum() or c ==
      "-"` (domain names). */
  predicate Kept(c: char, hyphen: bool) {
    IsAlnum(c) || (if hyphen then c == '-' else c == '_')
  }

  /* -------------------------------------------------------- schema name */

  const SCHEMA_MAX: nat := 63
  const SCHEMA_CUT: nat := 60
  const SUFFIX_LEN: nat := 8

  /** A character PostgreSQL accepts in the generated schema names. */
  predicate SchemaChar(c: char) {
    IsLowerLetter(c) || IsDigit(c) || c == '_'
  }

  /** Steps 50-65 of `generate_schema_name`: the name before the uniqueness
      suffix. */
  function SchemaBase(slug: string, hex1: string): (base: string)
    requires IsAscii(slug) && IsUuidHex(hex1)
    ensures 3 <= |base| <= SCHEMA_CUT + 4
    ensures forall i :: 0 <= i < |base| ==> SchemaChar(base[i])
    ensures !IsDigit(base[0])
  {
    LowerNormalises(slug);
    var cleaned := KeepChars(ReplaceChar(Lower(slug), '-', '_'), false);
    var prefixed := if cleaned != [] && IsDigit(cleaned[0]) then "org_" + cleaned else cleaned;
    var named := if |prefixed| < 3 then "org_" + hex1[..SUFFIX_LEN] else prefixed;
    if |named| > SCHEMA_MAX then named[..SCHEMA_CUT] else named
  }

  /** `generate_schema_name`: the base, an underscore and eight characters
      of a second uuid, cut to 63 characters. */
  function GenerateSchemaName(slug: string, hex1: string, hex2: string): (r: string)
    requires IsAscii(slug) && IsUuidHex(hex1) && IsUuidHex(hex2)
    ensures 0 < |r| <= SCHEMA_MAX
    ensures forall i :: 0 <= i < |r| ==> SchemaChar(r[i])
    ensures !IsDigit(r[0])
    ensures r == Take(SchemaBase(slug, hex1) + "_" + hex2[..SUFFIX_LEN], SCHEMA_MAX)
  {
    var base := SchemaBase(slug, hex1);
    var full := base + "_" + hex2[..SUFFIX_LEN];
    assert forall i :: 0 <= i < |full| ==> SchemaChar(full[i]) by {
      forall i | 0 <= i < |full| ensures SchemaChar(full[i]) {
        if i < |base| { assert full[i] == base[i]; }
        else if i > |base| { assert full[i] == hex2[i - |base| - 1]; }
      }
    }
    Take(full, SCHEMA_MAX)
  }

  /** A base of at most 54 characters keeps the whole suffix. */
  lemma SchemaNameKeepsSuffix(slug: string, hex1: string, hex2: string)
    requires IsAscii(slug) && IsUuidHex(hex1) && IsUuidHex(hex2)
    requires |SchemaBase(slug, hex1)| <= SCHEMA_MAX - SUFFIX_LEN - 1
    ensures GenerateSchemaName(slug, hex1, hex2) == SchemaBase(slug, hex1) + "_" + hex2[..SUFFIX_LEN]
  {
  }

  /** A cleaned slug of three to 63 characters that starts with a letter is
      the base itself; a cleaned slug that starts with a digit gets the
      `org_` prefix. */
  lemma SchemaBaseOfCleanSlug(slug: string, hex1: string)
    requires IsAscii(slug) && IsUuidHex(hex1)
    requires forall i :: 0 <= i < |slug| ==> SchemaChar(slug[i])
    ensures 3 <= |slug| <= SCHEMA_MAX && !IsDigit(slug[0]) ==> SchemaBase(slug, hex1) == slug
    ensures 1 <= |slug| <= SCHEMA_MAX - 4 && IsDigit(slug[0]) ==> SchemaBase(slug, hex1) == "org_" + slug
  {
    var low := Lower(slug);
    assert low == slug by {
      forall i | 0 <= i < |slug| ensures low[i] == slug[i] { }
    }
    var rep := ReplaceChar(low, '-', '_');
    assert rep == slug by {
      forall i | 0 <= i < |slug| ensures rep[i] == slug[i] { }
    }
  }

  /* -------------------------------------------------------- domain name */

  /** A character of the generated domain label. */
  predicate LabelChar(c: char) {
    IsLowerLetter(c) || IsDigit(c) || c == '-'
  }

  /** Steps 91-96 of `generate_domain_name`: the label before the base
      domain. */
  function DomainLabel(slug: string, hex: string): (lab: string)
    requires IsAscii(slug) && IsUuidHex(hex)
    ensures lab != []
    ensures forall i :: 0 <= i < |lab| ==> LabelChar(lab[i])
  {
    LowerNormalises(slug);
    var cleaned := KeepChars(Lower(slug), true);
    if cleaned != [] then cleaned
    else
      var fallback := "org-" + hex[..SUFFIX_LEN];
      assert forall i :: 4 <= i < |fallback| ==> fallback[i] == hex[i - 4];
      fallback
  }

  /** `generate_domain_name`: the label, a dot and the base domain. */
  function GenerateDomainName(slug: string, hex: string, baseDomain: string): (r: string)
    requires IsAscii(slug) && IsUuidHex(hex)
    ensures r == DomainLabel(slug, hex) + "." + baseDomain
  {
    DomainLabel(slug, hex) + "." + baseDomain
  }

  /** The label is the slug itself when it is already lower-case letters,
      digits and hyphens, and the `org-` fallback when nothing of the slug
      survives. */
  lemma DomainLabelCases(slug: string, hex: string)
    requires IsAscii(slug) && IsUuidHex(hex)
    ensures slug != [] && (forall i :: 0 <= i < |slug| ==> LabelChar(slug[i])) ==> DomainLabel(slug, hex) == slug
    ensures (forall i :: 0 <= i < |slug| ==> !Kept(Lower(slug)[i], true)) ==> DomainLabel(slug, hex) == "org-" + hex[..SUFFIX_LEN]
  {
    if slug != [] && (forall i :: 0 <= i < |slug| ==> LabelChar(slug[i])) {
      assert Lower(slug) == slug by {
        forall i | 0 <= i < |slug| ensures Lower(slug)[i] == slug[i] { }
      }
    }
  }
}
