/**
 * The business identifier: `Business_${idval.toString().padStart(3, '0')}`,
 * and a reader that recovers the counter value from it.
 */
module Ids {
  import opened Wrappers

  const Prefix: string := "Business_"

  function Max(a: int, b: int): int { if a >= b then a else b }

  predicate IsDigit(c: char) { '0' <= c <= '9' }

  predicate AllDigits(s: string) { forall i :: 0 <= i < |s| ==> IsDigit(s[i]) }

  function DigitChar(d: nat): (c: char)
    requires d < 10
    ensures IsDigit(c) && c as int - '0' as int == d
  {
    ('0' as int + d) as char
  }

  /** The decimal digits of `n`, without leading zeros (`"0"` for zero). */
  function Digits(n: nat): (s: string)
    ensures |s| >= 1 && AllDigits(s)
    ensures s[0] == '0' <==> n == 0
    ensures n >= 100 ==> |s| >= 3
  {
    if n < 10 then [DigitChar(n)] else Digits(n / 10) + [DigitChar(n % 10)]
  }

  /** `n.toString()` for an integer `n`. */
  function NumberToString(n: int): (s: string)
    ensures s != [] && (s[0] == '0' <==> n == 0)
  {
    if n < 0 then "-" + Digits(-n) else Digits(n)
  }

  function Zeros(k: nat): string {
    seq(k, _ => '0')
  }

  /** `s.padStart(width, '0')`: zeros in front up to `width` characters; never drops a character. */
  function PadStart(s: string, width: nat): (r: string)
    ensures |r| == Max(width, |s|)
    ensures r[|r| - |s|..] == s
    ensures forall i :: 0 <= i < |r| - |s| ==> r[i] == '0'
  {
    if |s| >= width then s else Zeros(width - |s|) + s
  }

  /** The identifier `getId` returns for the counter value `count`. */
  function FormatId(count: int): (id: string)
    ensures |id| == |Prefix| + Max(3, |NumberToString(count)|)
    ensures id[..|Prefix|] == Prefix
  {
    Prefix + PadStart(NumberToString(count), 3)
  }

  /** The value of a string of decimal digits, leading zeros allowed. */
  function DigitsValue(s: string): nat
    requires AllDigits(s)
  {
    if s == [] then 0 else DigitsValue(s[..|s| - 1]) * 10 + (s[|s| - 1] as int - '0' as int)
  }

  /**
   * Reads a zero-padded, possibly negative counter value back: leading zeros
   * are skipped, then an optional minus sign and at least one digit.
   */
  function ParseSuffix(s: string): Option<int> {
    if s == [] then None
    else if s[0] == '0' && |s| > 1 then ParseSuffix(s[1..])
    else if s[0] == '-' then (if |s| > 1 && AllDigits(s[1..]) then Some(-(DigitsValue(s[1..]) as int)) else None)
    else if AllDigits(s) then Some(DigitsValue(s))
    else None
  }

  /** Reads the counter value back from an identifier. */
  function ParseId(id: string): Option<int> {
    if |id| >= |Prefix| && id[..|Prefix|] == Prefix then ParseSuffix(id[|Prefix|..]) else None
  }

  lemma {:induction false} DigitsRoundTrip(n: nat)
    ensures DigitsValue(Digits(n)) == n
  {
    if n >= 10 {
      DigitsRoundTrip(n / 10);
      var s := Digits(n);
      assert s[..|s| - 1] == Digits(n / 10);
    }
  }

  /** Zeros in front of a non-empty string do not change what it reads as. */
  lemma {:induction false} ParseIgnoresLeadingZeros(k: nat, t: string)
    requires t != []
    ensures ParseSuffix(Zeros(k) + t) == ParseSuffix(t)
  {
    if k > 0 {
      var z := Zeros(k) + t;
      assert z[0] == '0' && |z| > 1;
      assert z[1..] == Zeros(k - 1) + t;
      assert ParseSuffix(z) == ParseSuffix(z[1..]);
      ParseIgnoresLeadingZeros(k - 1, t);
    } else {
      assert Zeros(k) + t == t;
    }
  }

  /** A minus sign followed by digits reads as the negated digits' value. */
  lemma ParseNegative(d: string)
    requires d != [] && AllDigits(d)
    ensures ParseSuffix("-" + d) == Some(-(DigitsValue(d) as int))
  {
    assert ("-" + d)[1..] == d;
  }

  /** Digits without a leading zero read as their value. */
  lemma ParsePositive(d: string)
    requires d != [] && AllDigits(d) && d[0] != '0' && d[0] != '-'
    ensures ParseSuffix(d) == Some(DigitsValue(d))
  {
  }

  lemma ParseNumberToString(count: int)
    requires count != 0
    ensures ParseSuffix(NumberToString(count)) == Some(count)
  {
    if count < 0 {
      ParseNegative(Digits(-count));
      DigitsRoundTrip(-count);
    } else {
      ParsePositive(Digits(count));
      DigitsRoundTrip(count);
    }
  }

  /** The part of the identifier after the prefix is the padded decimal form. */
  lemma FormatIdSuffix(count: int)
    ensures FormatId(count)[|Prefix|..] == PadStart(NumberToString(count), 3)
    ensures ParseId(FormatId(count)) == ParseSuffix(PadStart(NumberToString(count), 3))
  {
  }

  lemma ParsePadded(count: int)
    ensures ParseSuffix(PadStart(NumberToString(count), 3)) == Some(count)
  {
    var s := NumberToString(count);
    if |s| < 3 { ParseIgnoresLeadingZeros(3 - |s|, s); }
    if count == 0 {
      assert s == "0";
      assert DigitsValue(s) == 0 by { assert s[..0] == []; }
    } else {
      ParseNumberToString(count);
    }
  }

  /** The identifier reads back to the counter value it was made from, for every integer. */
  lemma FormatIdRoundTrip(count: int)
    ensures ParseId(FormatId(count)) == Some(count)
  {
    FormatIdSuffix(count);
    ParsePadded(count);
  }

  /** Distinct counter values give distinct identifiers. */
  lemma FormatIdInjective(a: int, b: int)
    requires a != b
    ensures FormatId(a) != FormatId(b)
  {
    FormatIdRoundTrip(a);
    FormatIdRoundTrip(b);
  }

  /**
   * For a counter of at least zero the part after the prefix is all digits and is the
   * decimal form of the counter padded to three; from 100 on it is the plain decimal form,
   * so 1000 and above are not cut.
   */
  lemma FormatIdShape(count: nat)
    ensures FormatId(count) == Prefix + PadStart(Digits(count), 3)
    ensures AllDigits(FormatId(count)[|Prefix|..])
    ensures DigitsValue(FormatId(count)[|Prefix|..]) == count
    ensures count >= 100 ==> FormatId(count) == Prefix + Digits(count)
  {
    FormatIdSuffix(count);
    DigitsRoundTrip(count);
    if |Digits(count)| < 3 {
      LeadingZerosValue(3 - |Digits(count)|, Digits(count));
    }
  }

  lemma {:induction false} LeadingZerosValue(k: nat, s: string)
    requires AllDigits(s)
    ensures AllDigits(Zeros(k) + s) && DigitsValue(Zeros(k) + s) == DigitsValue(s)
    decreases |s|, k
  {
    var z := Zeros(k) + s;
    if s == [] {
      assert z == Zeros(k);
      if k > 0 {
        assert z[..|z| - 1] == Zeros(k - 1) + [];
        LeadingZerosValue(k - 1, s);
      }
    } else {
      assert z[..|z| - 1] == Zeros(k) + s[..|s| - 1];
      LeadingZerosValue(k, s[..|s| - 1]);
    }
  }

  /** Example: 7 is padded to three digits. */
  lemma FormatIdSeven()
    ensures FormatId(7) == "Business_007"
  {
    assert NumberToString(7) == "7";
    assert PadStart("7", 3) == "007";
  }
}
