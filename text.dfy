/**
 * String helpers from Rust's standard library that the core relies on:
 * decimal rendering and `str::parse::<usize>`, `char::is_whitespace`,
 * `str::starts_with`, `str::trim_start_matches` and `str::trim`.
 */
module Text {
  import opened Wrappers

  predicate IsDigit(c: char) { '0' <= c <= '9' }

  predicate AllDigits(s: string) { forall i :: 0 <= i < |s| ==> IsDigit(s[i]) }

  function DigitChar(d: nat): (c: char)
    requires d < 10
    ensures IsDigit(c)
  {
    ('0' as int + d) as char
  }

  function DigitValue(c: char): nat
    requires IsDigit(c)
  {
    c as int - '0' as int
  }

  /** `n.to_string()` for an unsigned integer: decimal digits, no sign, no leading zero. */
  function Decimal(n: nat): (s: string)
    ensures |s| >= 1 && AllDigits(s)
    ensures |s| > 1 ==> s[0] != '0'
    decreases n
  {
    if n < 10 then [DigitChar(n)] else Decimal(n / 10) + [DigitChar(n % 10)]
  }

  /** The value of a string of decimal digits, most significant first. */
  function DigitsValue(s: string): nat
    requires AllDigits(s)
  {
    if s == [] then 0 else DigitsValue(s[..|s| - 1]) * 10 + DigitValue(s[|s| - 1])
  }

  lemma {:induction false} DigitsValueOfDecimal(n: nat)
    ensures DigitsValue(Decimal(n)) == n
    decreases n
  {
    if n >= 10 {
      var s := Decimal(n);
      assert s[..|s| - 1] == Decimal(n / 10);
      DigitsValueOfDecimal(n / 10);
    }
  }

  /** One more than the largest `usize` on a 64-bit target. */
  const UsizeLimit: nat := 0x1_0000_0000_0000_0000

  /**
   * `s.parse::<usize>()`: an optional leading '+', then at least one ASCII digit;
   * a value that does not fit in 64 bits is an error.
   */
  function ParseUsize(s: string): Option<nat>
  {
    var digits := if |s| > 0 && s[0] == '+' then s[1..] else s;
    if digits != [] && AllDigits(digits) && DigitsValue(digits) < UsizeLimit
    then Some(DigitsValue(digits))
    else None
  }

  /** Parsing gives back every rendered `usize`. */
  lemma ParseUsizeOfDecimal(n: nat)
    requires n < UsizeLimit
    ensures ParseUsize(Decimal(n)) == Some(n)
  {
    DigitsValueOfDecimal(n);
  }

  /**
   * What `parse::<usize>` accepts and refuses: leading zeros and one '+' are
   * accepted; the empty text, a lone '+', a sign '-' and surrounding spaces
   * are refused.
   */
  lemma ParseUsizeExamples()
    ensures ParseUsize("007") == Some(7)
    ensures ParseUsize("+12") == Some(12)
    ensures ParseUsize("") == None && ParseUsize("+") == None
    ensures ParseUsize("-1") == None && ParseUsize(" 1") == None && ParseUsize("1 ") == None
  {
    assert DigitsValue("007") == 7 by {
      assert "007"[..2] == "00" && "00"[..1] == "0";
    }
    assert DigitsValue("12") == 12 by {
      assert "12"[..1] == "1";
    }
    assert "+12"[1..] == "12";
    assert !IsDigit("1 "[1]);
  }

  /** Rendering is one-to-one, so distinct indices give distinct names. */
  lemma DecimalInjective(m: nat, n: nat)
    requires Decimal(m) == Decimal(n)
    ensures m == n
  {
    DigitsValueOfDecimal(m);
    DigitsValueOfDecimal(n);
  }

  /** `char::is_whitespace`: the Unicode White_Space property. */
  predicate IsWhitespace(c: char)
  {
    var k := c as int;
    (0x09 <= k <= 0x0D) || k == 0x20 || k == 0x85 || k == 0xA0 || k == 0x1680
    || (0x2000 <= k <= 0x200A) || k == 0x2028 || k == 0x2029 || k == 0x202F
    || k == 0x205F || k == 0x3000
  }

  function TrimStart(s: string): string
  {
    if s != [] && IsWhitespace(s[0]) then TrimStart(s[1..]) else s
  }

  function TrimEnd(s: string): string
  {
    if s != [] && IsWhitespace(s[|s| - 1]) then TrimEnd(s[..|s| - 1]) else s
  }

  /** `str::trim`: leading and trailing whitespace removed. */
  function Trim(s: string): string
  {
    TrimEnd(TrimStart(s))
  }

  predicate Trimmed(t: string)
  {
    t == [] || (!IsWhitespace(t[0]) && !IsWhitespace(t[|t| - 1]))
  }

  lemma {:induction false} TrimStartNoLeading(s: string)
    ensures TrimStart(s) == [] || !IsWhitespace(TrimStart(s)[0])
    ensures |TrimStart(s)| <= |s| && TrimStart(s) == s[|s| - |TrimStart(s)|..]
    ensures forall k :: 0 <= k < |s| - |TrimStart(s)| ==> IsWhitespace(s[k])
  {
    if s != [] && IsWhitespace(s[0]) {
      TrimStartNoLeading(s[1..]);
      assert forall k :: 1 <= k < |s| ==> s[1..][k - 1] == s[k];
    }
  }

  lemma {:induction false} TrimEndShape(s: string)
    ensures TrimEnd(s) == [] || !IsWhitespace(TrimEnd(s)[|TrimEnd(s)| - 1])
    ensures |TrimEnd(s)| <= |s| && TrimEnd(s) == s[..|TrimEnd(s)|]
    ensures forall k :: |TrimEnd(s)| <= k < |s| ==> IsWhitespace(s[k])
  {
    if s != [] && IsWhitespace(s[|s| - 1]) {
      TrimEndShape(s[..|s| - 1]);
      assert forall k :: 0 <= k < |s| - 1 ==> s[..|s| - 1][k] == s[k];
    }
  }

  /** `trim` leaves no whitespace at either end, and is the identity on such strings. */
  lemma TrimIsTrimmed(s: string)
    ensures Trimmed(Trim(s))
  {
    var a := TrimStart(s);
    TrimStartNoLeading(s);
    TrimEndShape(a);
    if TrimEnd(a) != [] {
      assert TrimEnd(a)[0] == a[0];
    }
  }

  /** `trim` keeps one contiguous part of the text and removes only whitespace around it. */
  lemma TrimShape(s: string)
    ensures |TrimStart(s)| <= |s|
    ensures var i := |s| - |TrimStart(s)|;
      i + |Trim(s)| <= |s| && Trim(s) == s[i..i + |Trim(s)|]
      && (forall k :: 0 <= k < i ==> IsWhitespace(s[k]))
      && (forall k :: i + |Trim(s)| <= k < |s| ==> IsWhitespace(s[k]))
  {
    var a := TrimStart(s);
    var i := |s| - |a|;
    TrimStartNoLeading(s);
    TrimEndShape(a);
    assert forall k :: 0 <= k < |a| ==> a[k] == s[i + k];
  }

  lemma TrimOfTrimmed(t: string)
    requires Trimmed(t)
    ensures Trim(t) == t
  {
  }

  predicate StartsWith(s: string, p: string)
  {
    |p| <= |s| && s[..|p|] == p
  }

  /** `s.trim_start_matches(p)` for a string pattern: every leading copy of `p` is removed. */
  function TrimStartMatches(s: string, p: string): string
    decreases |s|
  {
    if p != [] && StartsWith(s, p) then TrimStartMatches(s[|p|..], p) else s
  }

  function Repeat(p: string, k: nat): string
  {
    if k == 0 then [] else p + Repeat(p, k - 1)
  }

  /** What remains never starts with the pattern ... */
  lemma {:induction false} TrimStartMatchesNoPrefix(s: string, p: string)
    requires p != []
    ensures !StartsWith(TrimStartMatches(s, p), p)
    decreases |s|
  {
    if StartsWith(s, p) {
      TrimStartMatchesNoPrefix(s[|p|..], p);
    }
  }

  /** ... and it is exactly what follows all the leading copies. */
  lemma {:induction false} TrimStartMatchesRepeat(p: string, k: nat, t: string)
    requires p != [] && !StartsWith(t, p)
    ensures TrimStartMatches(Repeat(p, k) + t, p) == t
  {
    if k > 0 {
      var s := Repeat(p, k) + t;
      assert s == p + (Repeat(p, k - 1) + t);
      assert StartsWith(s, p) && s[|p|..] == Repeat(p, k - 1) + t;
      TrimStartMatchesRepeat(p, k - 1, t);
    }
  }
}
