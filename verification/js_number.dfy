/** The two number/string conversions the routes use: `parseInt(s)` on an
    extracted `<participantCount>` and the decimal rendering of an HTTP
    status inside a template literal. `NaN` is `None`. */
module JsNumber {
  import opened Wrappers

  predicate IsDigit(c: char) { '0' <= c <= '9' }

  function DigitValue(c: char): nat
    requires IsDigit(c)
  {
    (c as int) - ('0' as int)
  }

  function DigitChar(d: nat): (c: char)
    requires d < 10
    ensures IsDigit(c) && DigitValue(c) == d
  {
    ((d + '0' as int) as char)
  }

  predicate AllDigits(s: string) {
    forall k :: 0 <= k < |s| ==> IsDigit(s[k])
  }

  /** The longest prefix of `s` made of decimal digits. */
  function LeadingDigits(s: string): (ds: string)
    ensures AllDigits(ds) && ds <= s
    ensures |ds| < |s| ==> !IsDigit(s[|ds|])
  {
    if |s| == 0 || !IsDigit(s[0]) then ""
    else [s[0]] + LeadingDigits(s[1..])
  }

  /** The number a digit string denotes, most significant digit first. */
  function DigitsValue(ds: string): nat
    requires AllDigits(ds)
  {
    if |ds| == 0 then 0
    else DigitsValue(ds[..|ds| - 1]) * 10 + DigitValue(ds[|ds| - 1])
  }

  /** `parseInt(s)` without a radix: an optional sign, then the longest run
      of decimal digits; `NaN` when that run is empty. */
  function ParseInt(s: string): (r: Option<int>)
    ensures r.Some? <==> (var body := if |s| > 0 && (s[0] == '-' || s[0] == '+') then s[1..] else s;
                          |body| > 0 && IsDigit(body[0]))
    ensures r.Some? && r.value < 0 ==> |s| > 0 && s[0] == '-'
  {
    if |s| > 0 && s[0] == '-' then
      var ds := LeadingDigits(s[1..]);
      if ds == "" then None else Some(-(DigitsValue(ds) as int))
    else
      var body := if |s| > 0 && s[0] == '+' then s[1..] else s;
      var ds := LeadingDigits(body);
      if ds == "" then None else Some(DigitsValue(ds))
  }

  /** Decimal rendering of a natural number, as `${n}` produces it. */
  function DecimalString(n: nat): (s: string)
    ensures |s| >= 1 && AllDigits(s)
    ensures |s| > 1 ==> s[0] != '0'
  {
    if n < 10 then [DigitChar(n)]
    else DecimalString(n / 10) + [DigitChar(n % 10)]
  }

  lemma {:induction false} DigitsValueOfDecimal(n: nat)
    ensures DigitsValue(DecimalString(n)) == n
  {
    if n >= 10 {
      var s := DecimalString(n);
      assert s[..|s| - 1] == DecimalString(n / 10);
      DigitsValueOfDecimal(n / 10);
    }
  }

  lemma {:induction false} LeadingDigitsOfDigits(s: string, t: string)
    requires AllDigits(s)
    requires |t| > 0 ==> !IsDigit(t[0])
    ensures LeadingDigits(s + t) == s
    decreases |s|
  {
    if |s| > 0 {
      assert (s + t)[1..] == s[1..] + t;
      LeadingDigitsOfDigits(s[1..], t);
    } else {
      assert s + t == t;
    }
  }

  /** `parseInt` reads back what `${n}` wrote, also after a minus sign and
      whatever non-digit text follows: the unpadded case of `ParseIntPadded`. */
  lemma ParseIntDecimal(n: nat, suffix: string)
    requires |suffix| > 0 ==> !IsDigit(suffix[0])
    ensures ParseInt(DecimalString(n) + suffix) == Some(n)
    ensures ParseInt("-" + DecimalString(n) + suffix) == Some(-(n as int))
  {
    var s := DecimalString(n);
    ParseIntPadded("", n, suffix);
    assert "" + s == s;
    assert "-" + "" + s == "-" + s;
  }

  predicate AllZeros(s: string) {
    forall k :: 0 <= k < |s| ==> s[k] == '0'
  }

  /** A run of `0`s denotes zero. */
  lemma {:induction false} ZerosValue(zeros: string)
    requires AllZeros(zeros)
    ensures AllDigits(zeros) && DigitsValue(zeros) == 0
    decreases |zeros|
  {
    if |zeros| > 0 {
      ZerosValue(zeros[..|zeros| - 1]);
    }
  }

  /** Leading zeros do not change the value of a digit string. */
  lemma {:induction false} LeadingZerosValue(zeros: string, ds: string)
    requires AllZeros(zeros) && AllDigits(ds)
    ensures AllDigits(zeros + ds) && DigitsValue(zeros + ds) == DigitsValue(ds)
    decreases |ds|
  {
    ZerosValue(zeros);
    var s := zeros + ds;
    assert AllDigits(s) by {
      forall k | 0 <= k < |s|
        ensures IsDigit(s[k])
      {
        if k >= |zeros| { assert s[k] == ds[k - |zeros|]; }
      }
    }
    if |ds| == 0 {
      assert s == zeros;
    } else {
      assert s[..|s| - 1] == zeros + ds[..|ds| - 1];
      LeadingZerosValue(zeros, ds[..|ds| - 1]);
    }
  }

  /** Zeros, then `${n}`, then text that does not start with a digit: the
      leading digit run is the zeros and `${n}`, and it denotes `n`. */
  lemma PaddedDigits(zeros: string, n: nat, suffix: string)
    requires AllZeros(zeros)
    requires |suffix| > 0 ==> !IsDigit(suffix[0])
    ensures var ds := zeros + DecimalString(n);
            && LeadingDigits(ds + suffix) == ds && |ds| > 0 && DigitsValue(ds) == n
  {
    var d := DecimalString(n);
    LeadingZerosValue(zeros, d);
    DigitsValueOfDecimal(n);
    LeadingDigitsOfDigits(zeros + d, suffix);
  }

  /** `parseInt` of a text whose leading digit run `ds` denotes `n`, after
      no sign, a `+` or a `-`. */
  lemma ParseIntOfRun(ds: string, rest: string, n: nat)
    requires |ds| > 0 && AllDigits(ds) && DigitsValue(ds) == n
    requires LeadingDigits(ds + rest) == ds
    ensures ParseInt(ds + rest) == Some(n)
    ensures ParseInt(['+'] + (ds + rest)) == Some(n)
    ensures ParseInt(['-'] + (ds + rest)) == Some(-(n as int))
  {
    var u := ds + rest;
    assert u[0] == ds[0];
    assert (['+'] + u)[1..] == u;
    assert (['-'] + u)[1..] == u;
  }

  /** `parseInt` reads a decimal after no sign, a `+` or a `-`, and any
      number of leading zeros, up to the first non-digit. */
  lemma ParseIntPadded(zeros: string, n: nat, suffix: string)
    requires AllZeros(zeros)
    requires |suffix| > 0 ==> !IsDigit(suffix[0])
    ensures ParseInt(zeros + DecimalString(n) + suffix) == Some(n)
    ensures ParseInt("+" + zeros + DecimalString(n) + suffix) == Some(n)
    ensures ParseInt("-" + zeros + DecimalString(n) + suffix) == Some(-(n as int))
  {
    var ds := zeros + DecimalString(n);
    PaddedDigits(zeros, n, suffix);
    LeadingZerosValue(zeros, DecimalString(n));
    ParseIntOfRun(ds, suffix, n);
    SignedText('+', zeros, DecimalString(n), suffix);
    SignedText('-', zeros, DecimalString(n), suffix);
  }

  /** Regrouping a sign character in front of three pieces of text. */
  lemma SignedText(c: char, a: string, b: string, d: string)
    ensures [c] + a + b + d == [c] + (a + b + d)
  {
  }
}
