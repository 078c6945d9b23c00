/** String primitives the pipeline relies on: Python's `str.find`, `str(n)`
    for naturals, `f"{x:.2f}"` for amounts held as integer cents, and
    ASCII `str.lower()`. Strings are sequences of Unicode scalar values, as
    Python's are. */
module Text {
  import opened Wrappers

  // ---------------------------------------------------------------------
  // Substring search
  // ---------------------------------------------------------------------

  /** `pat` occurs in `text` starting at offset `i`. */
  predicate OccursAt(text: string, pat: string, i: int) {
    0 <= i && i + |pat| <= |text| && text[i..i + |pat|] == pat
  }

  /** No occurrence of `pat` starts at an offset in [from, upto). */
  predicate AbsentBetween(text: string, pat: string, from: int, upto: int) {
    forall j :: from <= j < upto ==> !OccursAt(text, pat, j)
  }

  /** No occurrence of `pat` starts at or after `from`. */
  ghost predicate AbsentFrom(text: string, pat: string, from: int) {
    forall j :: from <= j ==> !OccursAt(text, pat, j)
  }

  /** `text.find(pat, from)` for a non-negative start: the smallest offset
      at or after `from` where `pat` occurs; `None` is Python's `-1`. An
      empty `pat` is found at `from` itself whenever `from <= |text|`. */
  function FindFrom(text: string, pat: string, from: nat): (r: Option<nat>)
    ensures r.Some? ==> from <= r.value && OccursAt(text, pat, r.value)
    ensures r.Some? ==> AbsentBetween(text, pat, from, r.value)
    ensures r.None? ==> AbsentFrom(text, pat, from)
    decreases |text| - from
  {
    if from + |pat| > |text| then None
    else if text[from..from + |pat|] == pat then Some(from)
    else FindFrom(text, pat, from + 1)
  }

  /** `text.find(pat)`. */
  function Find(text: string, pat: string): Option<nat> {
    FindFrom(text, pat, 0)
  }

  /** The contract of `FindFrom` pins its result down: an occurrence with no
      earlier one after `from` is exactly what it returns. */
  lemma FindFromIsFirst(text: string, pat: string, from: nat, k: nat)
    requires from <= k && OccursAt(text, pat, k)
    requires AbsentBetween(text, pat, from, k)
    ensures FindFrom(text, pat, from) == Some(k)
  {
  }

  // ---------------------------------------------------------------------
  // Decimal digits: str(n) and its inverse
  // ---------------------------------------------------------------------

  predicate IsDigit(c: char) {
    '0' <= c <= '9'
  }

  predicate AllDigits(s: string) {
    forall i :: 0 <= i < |s| ==> IsDigit(s[i])
  }

  function DigitValue(c: char): (d: nat)
    requires IsDigit(c)
    ensures d < 10
  {
    c as int - '0' as int
  }

  function DigitChar(d: nat): (c: char)
    requires d < 10
    ensures IsDigit(c) && DigitValue(c) == d
  {
    (d + '0' as int) as char
  }

  /** `str(n)` for a natural number: its decimal digits, no leading zero. */
  function NatToString(n: nat): (s: string)
    ensures 1 <= |s| && AllDigits(s)
    ensures s[0] == '0' ==> n == 0
    decreases n
  {
    if n < 10 then [DigitChar(n)] else NatToString(n / 10) + [DigitChar(n % 10)]
  }

  /** `int(s)` for a string of decimal digits (0 for the empty string). */
  function ParseNat(s: string): nat
    requires AllDigits(s)
  {
    if |s| == 0 then 0 else 10 * ParseNat(s[..|s| - 1]) + DigitValue(s[|s| - 1])
  }

  lemma {:induction false} ParseNatToString(n: nat)
    ensures ParseNat(NatToString(n)) == n
    decreases n
  {
    var s := NatToString(n);
    if n >= 10 {
      ParseNatToString(n / 10);
      assert s[..|s| - 1] == NatToString(n / 10);
    }
  }

  /** Distinct numbers print differently. */
  lemma NatToStringInjective(a: nat, b: nat)
    requires NatToString(a) == NatToString(b)
    ensures a == b
  {
    ParseNatToString(a);
    ParseNatToString(b);
  }

  function Pow10(k: nat): (p: nat)
    ensures p >= 1
  {
    if k == 0 then 1 else 10 * Pow10(k - 1)
  }

  /** A number with k+1 digits prints as k+1 characters. */
  lemma {:induction false} NatToStringLength(n: nat, k: nat)
    requires Pow10(k) <= n < Pow10(k + 1)
    ensures |NatToString(n)| == k + 1
    decreases k
  {
    if k > 0 {
      NatToStringLength(n / 10, k - 1);
    }
  }

  // ---------------------------------------------------------------------
  // Amounts: f"{x:.2f}" for x = cents / 100
  // ---------------------------------------------------------------------

  function TwoDigits(n: nat): (s: string)
    requires n < 100
    ensures |s| == 2 && AllDigits(s)
  {
    [DigitChar(n / 10), DigitChar(n % 10)]
  }

  /** Characters a non-negative formatted amount is made of. */
  predicate AmountChar(c: char) {
    IsDigit(c) || c == '.'
  }

  function FormatUnsignedCents(c: nat): (s: string)
    ensures |s| >= 4 && IsDigit(s[0]) && s[|s| - 3] == '.'
    ensures forall i :: 0 <= i < |s| ==> AmountChar(s[i])
  {
    var whole := NatToString(c / 100);
    var s := whole + "." + TwoDigits(c % 100);
    assert forall i :: 0 <= i < |whole| ==> s[i] == whole[i];
    s
  }

  /** `f"{x:.2f}"` for an amount of `c` cents: optional minus sign, the
      whole units without leading zeros, a point and exactly two digits. */
  function FormatCents(c: int): (s: string)
    ensures |s| >= 4 && s[|s| - 3] == '.'
    ensures c >= 0 ==> IsDigit(s[0]) && forall i :: 0 <= i < |s| ==> AmountChar(s[i])
    ensures c < 0 ==> s[0] == '-'
  {
    if c < 0 then "-" + FormatUnsignedCents(-c) else FormatUnsignedCents(c)
  }

  function ParseUnsignedCents(s: string): Option<nat> {
    if |s| >= 4 && s[|s| - 3] == '.' && AllDigits(s[..|s| - 3]) && AllDigits(s[|s| - 2..])
    then Some(100 * ParseNat(s[..|s| - 3]) + ParseNat(s[|s| - 2..]))
    else None
  }

  /** Reads an amount in the two-decimal layout back into cents. */
  function ParseCents(s: string): Option<int> {
    var negative := |s| > 0 && s[0] == '-';
    var digits := if negative then s[1..] else s;
    match ParseUnsignedCents(digits)
    case Some(c) => Some(if negative then -(c as int) else c as int)
    case None => None
  }

  lemma ParseUnsignedFormat(c: nat)
    ensures ParseUnsignedCents(FormatUnsignedCents(c)) == Some(c)
  {
    var whole := NatToString(c / 100);
    var frac := TwoDigits(c % 100);
    var s := whole + "." + frac;
    assert s[..|s| - 3] == whole;
    assert s[|s| - 2..] == frac;
    ParseNatToString(c / 100);
    assert ParseNat(frac) == c % 100 by {
      var m := c % 100;
      assert frac[..|frac| - 1] == [DigitChar(m / 10)];
      assert ParseNat([DigitChar(m / 10)]) == m / 10 by {
        assert [DigitChar(m / 10)][..0] == [];
      }
    }
  }

  /** Formatting an amount loses nothing: parsing the text gives the cents back. */
  lemma ParseFormatCents(c: int)
    ensures ParseCents(FormatCents(c)) == Some(c)
  {
    if c < 0 {
      ParseUnsignedFormat(-c);
      assert FormatCents(c)[1..] == FormatUnsignedCents(-c);
    } else {
      ParseUnsignedFormat(c);
    }
  }

  // ---------------------------------------------------------------------
  // Case folding
  // ---------------------------------------------------------------------

  function LowerChar(c: char): char {
    if 'A' <= c <= 'Z' then (c as int + 32) as char else c
  }

  /** `s.lower()` restricted to ASCII letters; other characters are kept. */
  function Lower(s: string): (r: string)
    ensures |r| == |s|
    ensures forall i :: 0 <= i < |s| ==> r[i] == LowerChar(s[i])
  {
    seq(|s|, i requires 0 <= i < |s| => LowerChar(s[i]))
  }

  /** A string without upper-case ASCII letters is its own lower case. */
  lemma LowerIdentity(s: string)
    requires forall i :: 0 <= i < |s| ==> !('A' <= s[i] <= 'Z')
    ensures Lower(s) == s
  {
  }

  // ---------------------------------------------------------------------
  // Whitespace trimming
  // ---------------------------------------------------------------------

  /** The characters `str.isspace()` accepts, which `str.strip()` removes:
      tab through carriage return, the four separators U+001C..U+001F,
      space, U+0085, no-break space, and the Unicode space separators. */
  predicate IsSpace(c: char) {
    || '\t' <= c <= '\r'
    || '\U{1C}' <= c <= '\U{1F}'
    || c == ' ' || c == '\U{85}' || c == '\U{A0}' || c == '\U{1680}'
    || '\U{2000}' <= c <= '\U{200A}'
    || c == '\U{2028}' || c == '\U{2029}' || c == '\U{202F}' || c == '\U{205F}' || c == '\U{3000}'
  }

  /** Nothing but whitespace. */
  predicate AllSpace(s: string) {
    forall m :: 0 <= m < |s| ==> IsSpace(s[m])
  }

  lemma AllSpaceConcat(a: string, b: string)
    requires AllSpace(a) && AllSpace(b)
    ensures AllSpace(a + b)
  {
    forall m | 0 <= m < |a + b| ensures IsSpace((a + b)[m]) {
      if m < |a| {
        assert (a + b)[m] == a[m];
      } else {
        assert (a + b)[m] == b[m - |a|];
      }
    }
  }

  /** No whitespace at either end. */
  predicate Trimmed(s: string) {
    s == [] || (!IsSpace(s[0]) && !IsSpace(s[|s| - 1]))
  }

  /** The first index at or after `i` that does not hold whitespace. */
  function SkipSpaces(s: string, i: nat): (k: nat)
    requires i <= |s|
    ensures i <= k <= |s|
    ensures forall m :: i <= m < k ==> IsSpace(s[m])
    ensures k < |s| ==> !IsSpace(s[k])
    decreases |s| - i
  {
    if i == |s| || !IsSpace(s[i]) then i else SkipSpaces(s, i + 1)
  }

  /** The start of the whitespace run that ends at `j`. */
  function SkipSpacesBack(s: string, j: nat): (k: nat)
    requires j <= |s|
    ensures k <= j
    ensures forall m :: k <= m < j ==> IsSpace(s[m])
    ensures 0 < k ==> !IsSpace(s[k - 1])
  {
    if j == 0 || !IsSpace(s[j - 1]) then j else SkipSpacesBack(s, j - 1)
  }

  /** `s.strip()`: the part of `s` between the leading and the trailing
      whitespace; empty exactly when `s` is all whitespace. */
  function Strip(s: string): (r: string)
    ensures |r| <= |s|
    ensures r == [] <==> AllSpace(s)
    ensures Trimmed(r)
    // only whitespace is removed, from either end
    ensures exists i :: OccursAt(s, r, i) && AllSpace(s[..i]) && AllSpace(s[i + |r|..])
  {
    var i := SkipSpaces(s, 0);
    var j := SkipSpacesBack(s, |s|);
    if j <= i then
      assert i == |s| by {
        if i < |s| { assert false; }
      }
      assert OccursAt(s, [], 0) && s[..0] == [] && s[0..] == s;
      []
    else
      assert OccursAt(s, s[i..j], i) && AllSpace(s[..i]) && AllSpace(s[j..]);
      s[i..j]
  }
}
