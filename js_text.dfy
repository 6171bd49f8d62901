/**
 * The few JavaScript string and number operations the modelled code relies on:
 * `String.prototype.trim`, `toUpperCase` (ASCII letters only), integer
 * interpolation into template strings and `padStart(2, '0')`.
 * Also the Option/Result wrappers used for `undefined` and thrown errors.
 */
module JsText {

  datatype Option<+T> = None | Some(value: T)

  /** A thrown `Error` is modelled as `Err(message)`. */
  datatype Result<+T> = Ok(value: T) | Err(message: string)

  // ---------------------------------------------------------------------------
  // trim
  // ---------------------------------------------------------------------------

  /** The WhiteSpace and LineTerminator code points that `trim` removes (ECMA-262). */
  predicate IsJsWhitespace(c: char) {
    || c == '\t' || c == '\n' || c == '\U{000B}' || c == '\U{000C}' || c == '\r' || c == ' '
    || c == '\U{00A0}' || c == '\U{1680}' || ('\U{2000}' <= c <= '\U{200A}')
    || c == '\U{2028}' || c == '\U{2029}' || c == '\U{202F}' || c == '\U{205F}'
    || c == '\U{3000}' || c == '\U{FEFF}'
  }

  function TrimStart(s: string): (r: string)
    ensures |r| <= |s| && r == s[|s| - |r|..]
    ensures r != [] ==> !IsJsWhitespace(r[0])
  {
    if s != [] && IsJsWhitespace(s[0]) then TrimStart(s[1..]) else s
  }

  function TrimEnd(s: string): (r: string)
    ensures |r| <= |s| && r == s[..|r|]
    ensures r != [] ==> !IsJsWhitespace(r[|r| - 1])
  {
    if s != [] && IsJsWhitespace(s[|s| - 1]) then TrimEnd(s[..|s| - 1]) else s
  }

  /** `s.trim()` */
  function Trim(s: string): string {
    TrimEnd(TrimStart(s))
  }

  /** `!s || !s.trim()`: the empty string or whitespace only. */
  predicate IsBlank(s: string) {
    forall i | 0 <= i < |s| :: IsJsWhitespace(s[i])
  }

  lemma {:induction false} TrimStartAllWhitespace(s: string)
    ensures TrimStart(s) == [] <==> IsBlank(s)
  {
    if s != [] && IsJsWhitespace(s[0]) {
      TrimStartAllWhitespace(s[1..]);
      if IsBlank(s[1..]) {
        forall i | 0 <= i < |s| ensures IsJsWhitespace(s[i]) {
          if i > 0 { assert s[i] == s[1..][i - 1]; }
        }
      } else {
        var i :| 0 <= i < |s[1..]| && !IsJsWhitespace(s[1..][i]);
        assert s[i + 1] == s[1..][i];
      }
    }
  }

  /** `s.trim()` is empty exactly when `s` is blank: the test the source writes as `!s.trim()`. */
  lemma TrimEmptyIffBlank(s: string)
    ensures Trim(s) == [] <==> IsBlank(s)
  {
    TrimStartAllWhitespace(s);
    var t := TrimStart(s);
    if t != [] {
      assert TrimEnd(t) != [] by {
        if TrimEnd(t) == [] {
          TrimEndKeepsNonWhitespaceHead(t);
        }
      }
    }
  }

  lemma {:induction false} TrimEndKeepsNonWhitespaceHead(t: string)
    requires t != [] && !IsJsWhitespace(t[0])
    ensures TrimEnd(t) != [] && TrimEnd(t)[0] == t[0]
  {
    if IsJsWhitespace(t[|t| - 1]) {
      assert |t| > 1;
      TrimEndKeepsNonWhitespaceHead(t[..|t| - 1]);
    }
  }

  // ---------------------------------------------------------------------------
  // toUpperCase
  // ---------------------------------------------------------------------------

  function UpperChar(c: char): char {
    if 'a' <= c <= 'z' then (c as int - 32) as char else c
  }

  /** `s.toUpperCase()` restricted to ASCII letters (language codes are ASCII). */
  function ToUpper(s: string): (r: string)
    ensures |r| == |s|
    ensures forall i | 0 <= i < |r| :: !('a' <= r[i] <= 'z')
    ensures forall i | 0 <= i < |s| :: 'a' <= s[i] <= 'z' ==> r[i] as int == s[i] as int - 32
    ensures forall i | 0 <= i < |s| :: !('a' <= s[i] <= 'z') ==> r[i] == s[i]
  {
    seq(|s|, i requires 0 <= i < |s| => UpperChar(s[i]))
  }

  // ---------------------------------------------------------------------------
  // Decimal rendering of integers, as in `${n}` for a whole number
  // ---------------------------------------------------------------------------

  predicate IsDigit(c: char) {
    '0' <= c <= '9'
  }

  function DigitChar(d: nat): (c: char)
    requires d < 10
    ensures IsDigit(c) && c as int - '0' as int == d
  {
    ('0' as int + d) as char
  }

  /** The decimal digits of `n`, most significant first, without leading zeros. */
  function NatToString(n: nat): (r: string)
    ensures r != [] && forall i | 0 <= i < |r| :: IsDigit(r[i])
    ensures |r| > 1 ==> r[0] != '0'
  {
    if n < 10 then [DigitChar(n)] else NatToString(n / 10) + [DigitChar(n % 10)]
  }

  /** `${i}` for an integer `i`. */
  function IntToString(i: int): (r: string)
    ensures r != []
    ensures i >= 0 <==> r[0] != '-'
  {
    if i < 0 then "-" + NatToString(-i) else NatToString(i)
  }

  function DigitValue(c: char): nat
    requires IsDigit(c)
  {
    c as int - '0' as int
  }

  /** The value of a string of decimal digits. */
  function DigitsValue(s: string): nat
    requires forall i | 0 <= i < |s| :: IsDigit(s[i])
  {
    if s == [] then 0 else DigitsValue(s[..|s| - 1]) * 10 + DigitValue(s[|s| - 1])
  }

  /** Reads back a non-empty run of decimal digits; anything else is `None`. */
  function ParseNat(s: string): (r: Option<nat>)
    ensures r.Some? <==> s != [] && forall i | 0 <= i < |s| :: IsDigit(s[i])
  {
    if s != [] && forall i | 0 <= i < |s| :: IsDigit(s[i]) then Some(DigitsValue(s)) else None
  }

  lemma {:induction false} NatToStringRoundTrip(n: nat)
    ensures ParseNat(NatToString(n)) == Some(n)
  {
    var s := NatToString(n);
    if n < 10 {
      assert s[..0] == [];
    } else {
      NatToStringRoundTrip(n / 10);
      assert s[..|s| - 1] == NatToString(n / 10);
      assert DigitsValue(s) == (n / 10) * 10 + n % 10;
    }
  }

  /** A run of digits as `${n}` prints it: a single digit, or no leading zero. */
  predicate NoLeadingZero(s: string) {
    |s| <= 1 || s[0] != '0'
  }

  /** Reads back exactly the texts `${n}` prints for a natural number `n`. */
  function ParseCanonicalNat(s: string): (r: Option<nat>)
    ensures r.Some? <==> ParseNat(s).Some? && NoLeadingZero(s)
    ensures r.Some? ==> r == ParseNat(s)
  {
    if NoLeadingZero(s) then ParseNat(s) else None
  }

  /** The printed text of a number is read back as that number. */
  lemma CanonicalNatOfNatToString(n: nat)
    ensures ParseCanonicalNat(NatToString(n)) == Some(n)
  {
    NatToStringRoundTrip(n);
  }

  /** The only text read back as a number is that number's printed text. */
  lemma {:induction false} CanonicalNatIsNatToString(s: string)
    requires ParseCanonicalNat(s).Some?
    ensures NatToString(ParseCanonicalNat(s).value) == s
  {
    var n := DigitsValue(s);
    if |s| > 1 {
      var init := s[..|s| - 1];
      assert init[0] == s[0];
      LeadingDigitBound(init);
      assert ParseCanonicalNat(init) == Some(DigitsValue(init));
      CanonicalNatIsNatToString(init);
      DigitsValueSplit(DigitsValue(init), DigitValue(s[|s| - 1]));
      assert NatToString(n) == NatToString(DigitsValue(init)) + [DigitChar(DigitValue(s[|s| - 1]))];
      assert s == init + [s[|s| - 1]];
    } else {
      assert |s| == 1 && s[..|s| - 1] == [];
      assert n == DigitsValue(s[..|s| - 1]) * 10 + DigitValue(s[0]);
      assert NatToString(n) == [DigitChar(n)];
    }
  }

  /** A digit run's value is at least its leading digit. */
  lemma {:induction false} LeadingDigitBound(s: string)
    requires s != [] && forall i | 0 <= i < |s| :: IsDigit(s[i])
    ensures DigitsValue(s) >= DigitValue(s[0])
  {
    if |s| > 1 {
      var init := s[..|s| - 1];
      assert init[0] == s[0];
      LeadingDigitBound(init);
    } else {
      assert s[..0] == [];
    }
  }

  /** Appending digit `d` to a number `v >= 1` gives a number of at least two digits whose last digit is `d`. */
  lemma DigitsValueSplit(v: nat, d: nat)
    requires v >= 1 && d < 10
    ensures var n := v * 10 + d; n >= 10 && n / 10 == v && n % 10 == d
  {
  }

  /** A two-character digit field is the padded text of its value, which is below 100. */
  lemma PaddedFieldIsPadStart2(t: string)
    requires |t| == 2 && ParseNat(t).Some?
    ensures ParseNat(t).value < 100
    ensures PadStart2(NatToString(ParseNat(t).value)) == t
  {
    assert t[..1][..0] == [];
    assert t[..1] == [t[0]];
    var n := ParseNat(t).value;
    assert DigitsValue(t[..1]) == DigitValue(t[0]);
    assert n == DigitsValue(t[..1]) * 10 + DigitValue(t[1]);
    if t[0] == '0' {
      assert n == DigitValue(t[1]);
      assert NatToString(n) == [t[1]];
    } else {
      CanonicalNatIsNatToString(t);
    }
  }

  /** `s.padStart(2, '0')` */
  function PadStart2(s: string): (r: string)
    ensures |r| == if |s| >= 2 then |s| else 2
    ensures r[|r| - |s|..] == s
    ensures forall i | 0 <= i < |r| - |s| :: r[i] == '0'
  {
    if |s| >= 2 then s else seq(2 - |s|, _ => '0') + s
  }

  lemma {:induction false} PadStart2OfSmall(n: nat)
    requires n < 100
    ensures |PadStart2(NatToString(n))| == 2
    ensures ParseNat(PadStart2(NatToString(n))) == Some(n)
  {
    NatToStringRoundTrip(n);
    var s := NatToString(n);
    if n < 10 {
      var p := PadStart2(s);
      assert p == ['0', DigitChar(n)];
      assert p[..1] == "0";
      assert DigitsValue(p[..1]) == 0 by { assert p[..1][..0] == []; }
    } else {
      NatToStringRoundTrip(n / 10);
    }
  }

  /** Split at the first occurrence of `sep`. */
  function SplitFirst(s: string, sep: char): (r: Option<(string, string)>)
    ensures r.None? <==> sep !in s
    ensures r.Some? ==> s == r.value.0 + [sep] + r.value.1 && sep !in r.value.0
  {
    if s == [] then None
    else if s[0] == sep then Some(([], s[1..]))
    else match SplitFirst(s[1..], sep)
      case None => None
      case Some(parts) => Some(([s[0]] + parts.0, parts.1))
  }

  /** Splitting a joined string at a separator the first part lacks gives the parts back. */
  lemma {:induction false} SplitFirstOfJoin(a: string, sep: char, b: string)
    requires sep !in a
    ensures SplitFirst(a + [sep] + b, sep) == Some((a, b))
  {
    if a != [] {
      SplitFirstOfJoin(a[1..], sep, b);
      assert (a + [sep] + b)[1..] == a[1..] + [sep] + b;
      assert [a[0]] + a[1..] == a;
    }
  }
}
