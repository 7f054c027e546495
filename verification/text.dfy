/** The Python string operations the validators and helpers rely on:
    `strip()`, `lstrip(c)`, `lower()`, `split(sep)[0]`, `split(sep)[-1]`
    and slicing `s[:n]`, stated over `seq<char>`. */
module Text {

  /** Python's `str.isspace` for one character: the characters `strip()`
      with no argument removes. */
  predicate IsSpace(c: char) {
    || c == ' '
    || ('\t' <= c <= '\r')
    || ('\U{1C}' <= c <= '\U{1F}')
    || c == '\U{85}' || c == '\U{A0}' || c == '\U{1680}'
    || ('\U{2000}' <= c <= '\U{200A}')
    || c == '\U{2028}' || c == '\U{2029}' || c == '\U{202F}' || c == '\U{205F}'
    || c == '\U{3000}'
  }

  predicate AllSpace(s: string) {
    forall i :: 0 <= i < |s| ==> IsSpace(s[i])
  }

  /** No whitespace at either end: what `strip()` leaves behind. */
  /** The NUL character, which neither DRF's `CharField` nor PostgreSQL's
      text columns accept. */
  const NULL_CHAR: char := '\0'

  predicate Trimmed(s: string) {
    |s| > 0 ==> !IsSpace(s[0]) && !IsSpace(s[|s| - 1])
  }

  /** The first position at or after `i` that is not whitespace (or the
      end). */
  function LeadFrom(s: string, i: nat): (j: nat)
    requires i <= |s|
    ensures i <= j <= |s|
    ensures forall k :: i <= k < j ==> IsSpace(s[k])
    ensures j < |s| ==> !IsSpace(s[j])
    decreases |s| - i
  {
    if i < |s| && IsSpace(s[i]) then LeadFrom(s, i + 1) else i
  }

  /** The end of `s[lo..j]` once its trailing whitespace is dropped. */
  function TrailFrom(s: string, lo: nat, j: nat): (e: nat)
    requires lo <= j <= |s|
    ensures lo <= e <= j
    ensures forall k :: e <= k < j ==> IsSpace(s[k])
    ensures e > lo ==> !IsSpace(s[e - 1])
    decreases j
  {
    if j > lo && IsSpace(s[j - 1]) then TrailFrom(s, lo, j - 1) else j
  }

  /** Python's `s.strip()`. */
  function Strip(s: string): (r: string)
    ensures |r| <= |s|
    ensures Trimmed(r)
    ensures r == [] <==> AllSpace(s)
  {
    var l := LeadFrom(s, 0);
    var e := TrailFrom(s, l, |s|);
    s[l..e]
  }

  /** `Strip` keeps a contiguous middle part and removes only whitespace. */
  lemma StripIsInfix(s: string)
    ensures exists i, j :: 0 <= i <= j <= |s| && Strip(s) == s[i..j] && AllSpace(s[..i]) && AllSpace(s[j..])
  {
    var l := LeadFrom(s, 0);
    var e := TrailFrom(s, l, |s|);
    assert Strip(s) == s[l..e];
    assert AllSpace(s[..l]) by {
      forall k | 0 <= k < l ensures IsSpace(s[..l][k]) { assert s[..l][k] == s[k]; }
    }
    assert AllSpace(s[e..]) by {
      forall k | 0 <= k < |s| - e ensures IsSpace(s[e..][k]) { assert s[e..][k] == s[e + k]; }
    }
  }

  /** Stripping adds no character: what `s` lacks, `Strip(s)` lacks. */
  lemma StripKeepsOut(s: string, x: char)
    requires x !in s
    ensures x !in Strip(s)
  {
    StripIsInfix(s);
    var i, j :| 0 <= i <= j <= |s| && Strip(s) == s[i..j];
    forall k | 0 <= k < j - i ensures Strip(s)[k] != x { assert Strip(s)[k] == s[i + k]; }
  }

  /** `Strip` is characterised by its result: whatever whitespace surrounds a
      trimmed middle, stripping yields exactly that middle. */
  lemma StripOfPadded(a: string, m: string, b: string)
    requires AllSpace(a) && AllSpace(b) && Trimmed(m)
    ensures Strip(a + m + b) == m
  {
    var s := a + m + b;
    if m == [] {
      assert AllSpace(s) by {
        forall i | 0 <= i < |s| ensures IsSpace(s[i]) {
          if i < |a| { assert s[i] == a[i]; } else { assert s[i] == b[i - |a|]; }
        }
      }
    } else {
      assert forall k :: 0 <= k < |a| ==> s[k] == a[k];
      assert s[|a|] == m[0];
      LeadFromPadded(s, |a|, 0);
      assert forall k :: |a| + |m| <= k < |s| ==> s[k] == b[k - |a| - |m|];
      assert s[|a| + |m| - 1] == m[|m| - 1];
      TrailFromPadded(s, |a|, |a| + |m|, |s|);
      assert s[|a|..|a| + |m|] == m;
    }
  }

  /** Scanning from any point of a whitespace run stops at its end. */
  lemma {:induction false} LeadFromPadded(s: string, n: nat, i: nat)
    requires i <= n < |s|
    requires forall k :: 0 <= k < n ==> IsSpace(s[k])
    requires !IsSpace(s[n])
    ensures LeadFrom(s, i) == n
    decreases n - i
  {
    if i < n {
      LeadFromPadded(s, n, i + 1);
    }
  }

  /** Scanning back from any point of a trailing whitespace run stops at its
      start. */
  lemma {:induction false} TrailFromPadded(s: string, lo: nat, n: nat, j: nat)
    requires lo < n <= j <= |s|
    requires forall k :: n <= k < |s| ==> IsSpace(s[k])
    requires !IsSpace(s[n - 1])
    ensures TrailFrom(s, lo, j) == n
    decreases j
  {
    if j > n {
      TrailFromPadded(s, lo, n, j - 1);
    }
  }

  /** Stripping twice is stripping once. */
  lemma StripIdempotent(s: string)
    ensures Strip(Strip(s)) == Strip(s)
  {
    var m := Strip(s);
    StripOfPadded([], m, []);
    assert [] + m + [] == m;
  }

  /** Python's `c.lower()` restricted to ASCII: `A`-`Z` become `a`-`z` and
      every other character is left as it is. Python also maps non-ASCII
      cased letters (and `'İ'` to two characters); that mapping is not part
      of this model. */
  function LowerChar(c: char): char {
    if 'A' <= c <= 'Z' then (c as int + 32) as char else c
  }

  predicate IsUpper(c: char) {
    'A' <= c <= 'Z'
  }

  /** Python's `s.lower()` on the ASCII letters only (see `LowerChar`). */
  function Lower(s: string): (r: string)
    ensures |r| == |s|
    ensures forall i :: 0 <= i < |s| ==> r[i] == LowerChar(s[i])
  {
    seq(|s|, i requires 0 <= i < |s| => LowerChar(s[i]))
  }

  /** Lower-casing leaves no upper-case letter and is idempotent. */
  lemma LowerNormalises(s: string)
    ensures forall i :: 0 <= i < |s| ==> !IsUpper(Lower(s)[i])
    ensures Lower(Lower(s)) == Lower(s)
  {
  }

  /** Lower-casing does not touch whitespace, so `s.lower().strip()` and
      `s.strip().lower()` agree. */
  lemma LowerStripCommute(s: string)
    ensures Strip(Lower(s)) == Lower(Strip(s))
  {
    var l := LeadFrom(s, 0);
    var e := TrailFrom(s, l, |s|);
    LeadFromLower(s, 0);
    TrailFromLower(s, l, |s|);
    LowerSlice(s, l, e);
  }

  /** Lower-casing commutes with slicing. */
  lemma LowerSlice(s: string, l: nat, e: nat)
    requires l <= e <= |s|
    ensures Lower(s)[l..e] == Lower(s[l..e])
  {
    forall k | 0 <= k < e - l
      ensures Lower(s)[l..e][k] == Lower(s[l..e])[k]
    {
      assert Lower(s)[l..e][k] == Lower(s)[l + k];
    }
  }

  /** A character is whitespace exactly when its lower-case form is. */
  lemma LowerCharSpace(c: char)
    ensures IsSpace(LowerChar(c)) <==> IsSpace(c)
  {
  }

  lemma {:induction false} LeadFromLower(s: string, i: nat)
    requires i <= |s|
    ensures LeadFrom(Lower(s), i) == LeadFrom(s, i)
    decreases |s| - i
  {
    if i < |s| {
      LowerCharSpace(s[i]);
      LeadFromLower(s, i + 1);
    }
  }

  lemma {:induction false} TrailFromLower(s: string, lo: nat, j: nat)
    requires lo <= j <= |s|
    ensures TrailFrom(Lower(s), lo, j) == TrailFrom(s, lo, j)
    decreases j
  {
    if j > lo {
      LowerCharSpace(s[j - 1]);
      TrailFromLower(s, lo, j - 1);
    }
  }

  /** Whitespace added in front of a string disappears when it is
      stripped. */
  lemma StripPadLeft(a: string, s: string)
    requires AllSpace(a)
    ensures Strip(a + s) == Strip(s)
  {
    var pre, post := StripSplit(s);
    AllSpaceConcat(a, pre);
    assert a + s == (a + pre) + Strip(s) + post;
    StripOfPadded(a + pre, Strip(s), post);
  }

  /** Whitespace added after a string disappears when it is stripped. */
  lemma StripPadRight(s: string, b: string)
    requires AllSpace(b)
    ensures Strip(s + b) == Strip(s)
  {
    var pre, post := StripSplit(s);
    AllSpaceConcat(post, b);
    assert s + b == pre + Strip(s) + (post + b);
    StripOfPadded(pre, Strip(s), post + b);
  }

  /** Every string is its stripped form between two runs of whitespace. */
  lemma StripSplit(s: string) returns (pre: string, post: string)
    ensures AllSpace(pre) && AllSpace(post)
    ensures s == pre + Strip(s) + post
  {
    var l := LeadFrom(s, 0);
    var e := TrailFrom(s, l, |s|);
    pre, post := s[..l], s[e..];
    assert AllSpace(pre) by {
      forall k | 0 <= k < |pre| ensures IsSpace(pre[k]) { assert pre[k] == s[k]; }
    }
    assert AllSpace(post) by {
      forall k | 0 <= k < |post| ensures IsSpace(post[k]) { assert post[k] == s[e + k]; }
    }
    assert s == s[..l] + s[l..e] + s[e..];
  }

  lemma AllSpaceConcat(a: string, b: string)
    requires AllSpace(a) && AllSpace(b)
    ensures AllSpace(a + b)
  {
    forall k | 0 <= k < |a + b| ensures IsSpace((a + b)[k]) {
      if k < |a| { assert (a + b)[k] == a[k]; } else { assert (a + b)[k] == b[k - |a|]; }
    }
  }

  /** Python's `s.lower().strip()`, the e-mail normalisation used
      throughout the account and organization code. */
  function LowerStrip(s: string): (r: string)
    ensures Trimmed(r) && |r| <= |s|
    ensures forall i :: 0 <= i < |r| ==> !IsUpper(r[i])
    ensures r == [] <==> AllSpace(s)
  {
    LowerNormalises(s);
    StripIsInfix(Lower(s));
    LowerAllSpace(s);
    Strip(Lower(s))
  }

  lemma LowerAllSpace(s: string)
    ensures AllSpace(Lower(s)) <==> AllSpace(s)
  {
    forall i | 0 <= i < |s| ensures IsSpace(Lower(s)[i]) <==> IsSpace(s[i]) {
      LowerCharSpace(s[i]);
    }
  }

  /** Normalising an already normalised address changes nothing. */
  lemma LowerStripIdempotent(s: string)
    ensures LowerStrip(LowerStrip(s)) == LowerStrip(s)
  {
    var m := Strip(Lower(s));
    LowerStripCommute(Lower(s));
    LowerNormalises(s);
    assert Lower(m) == m;
    StripIdempotent(Lower(s));
  }

  /** A trimmed string without upper-case letters is already normalised. */
  lemma LowerStripFixed(s: string)
    requires Trimmed(s) && forall i :: 0 <= i < |s| ==> !IsUpper(s[i])
    ensures LowerStrip(s) == s
  {
    assert Lower(s) == s;
    StripOfPadded([], s, []);
    assert [] + s + [] == s;
  }

  /** `s.lower().strip()` is the stripped string lower-cased, and a
      string already in that form is its own normal form. */
  lemma LowerStripMeaning(s: string)
    ensures LowerStrip(s) == Lower(Strip(s))
    ensures Trimmed(s) && (forall i :: 0 <= i < |s| ==> !IsUpper(s[i])) ==> LowerStrip(s) == s
  {
    LowerStripCommute(s);
    if Trimmed(s) && forall i :: 0 <= i < |s| ==> !IsUpper(s[i]) {
      LowerStripFixed(s);
    }
  }

  predicate IsDigit(c: char) {
    '0' <= c <= '9'
  }

  predicate IsLowerLetter(c: char) {
    'a' <= c <= 'z'
  }

  /** Python's `c.isalnum()` on the ASCII range. */
  predicate IsAlnum(c: char) {
    IsDigit(c) || IsLowerLetter(c) || IsUpper(c)
  }

  /** The first position at or after `i` that does not hold `c` (or the
      end). */
  function SkipFrom(s: string, c: char, i: nat): (j: nat)
    requires i <= |s|
    ensures i <= j <= |s|
    ensures forall k :: i <= k < j ==> s[k] == c
    ensures j < |s| ==> s[j] != c
    decreases |s| - i
  {
    if i < |s| && s[i] == c then SkipFrom(s, c, i + 1) else i
  }

  /** Python's `s.lstrip(c)` for a single character `c`. */
  function LStripChar(s: string, c: char): (r: string)
    ensures |r| <= |s| && r == s[|s| - |r|..]
    ensures forall i :: 0 <= i < |s| - |r| ==> s[i] == c
    ensures |r| > 0 ==> r[0] != c
  {
    s[SkipFrom(s, c, 0)..]
  }

  /** The first position at or after `i` holding `sep` (or the end). */
  function SepFrom(s: string, sep: char, i: nat): (j: nat)
    requires i <= |s|
    ensures i <= j <= |s|
    ensures forall k :: i <= k < j ==> s[k] != sep
    ensures j < |s| ==> s[j] == sep
    decreases |s| - i
  {
    if i < |s| && s[i] != sep then SepFrom(s, sep, i + 1) else i
  }

  /** The position just after the last `sep` before `j` (or 0). */
  function SepBefore(s: string, sep: char, j: nat): (i: nat)
    requires j <= |s|
    ensures i <= j
    ensures forall k :: i <= k < j ==> s[k] != sep
    ensures i > 0 ==> s[i - 1] == sep
    decreases j
  {
    if j > 0 && s[j - 1] != sep then SepBefore(s, sep, j - 1) else j
  }

  /** Python's `s.split(sep)[0]`: the text before the first separator. */
  function FirstField(s: string, sep: char): (r: string)
    ensures |r| <= |s| && r == s[..|r|]
    ensures sep !in r
    ensures |r| < |s| ==> s[|r|] == sep
  {
    var j := SepFrom(s, sep, 0);
    assert forall k :: 0 <= k < j ==> s[..j][k] == s[k];
    s[..j]
  }

  /** Python's `s.split(sep)[-1]`: the text after the last separator. */
  function LastField(s: string, sep: char): (r: string)
    ensures |r| <= |s| && r == s[|s| - |r|..]
    ensures sep !in r
    ensures |r| < |s| ==> s[|s| - |r| - 1] == sep
  {
    var i := SepBefore(s, sep, |s|);
    assert forall k :: 0 <= k < |s| - i ==> s[i..][k] == s[i + k];
    s[i..]
  }

  /** Python's slice `s[:n]` for `n >= 0`. */
  function Take(s: string, n: nat): (r: string)
    ensures |r| == if |s| < n then |s| else n
    ensures r == s[..|r|]
  {
    if |s| <= n then s else s[..n]
  }
}
