/**
 * Base-10 integers as text: Python's `int()` applied to a string, over ASCII,
 * and the decimal rendering that `int()` reads back.
 */
module Decimal {
  import opened Wrappers
  import opened Text

  predicate AllDigits(s: string) {
    forall k :: 0 <= k < |s| ==> IsDigit(s[k])
  }

  function DigitValue(c: char): (d: nat)
    requires IsDigit(c)
    ensures d < 10
  {
    (c as int) - ('0' as int)
  }

  function DigitChar(d: nat): (c: char)
    requires d < 10
    ensures IsDigit(c) && DigitValue(c) == d
  {
    ('0' as int + d) as char
  }

  function Pow10(n: nat): (p: nat)
    ensures p >= 1
  {
    if n == 0 then 1 else 10 * Pow10(n - 1)
  }

  /** The number a run of digits denotes; leading zeros are allowed. */
  function DigitsValue(s: string): (v: nat)
    requires AllDigits(s)
    ensures v < Pow10(|s|)
  {
    if s == [] then 0
    else
      var prefix := s[..|s| - 1];
      var v0 := DigitsValue(prefix);
      assert v0 * 10 <= (Pow10(|prefix|) - 1) * 10;
      v0 * 10 + DigitValue(s[|s| - 1])
  }

  /** The most digits CPython's `int()` converts from a decimal string: the
      default of `sys.get_int_max_str_digits()` since CPython 3.11 and the
      security releases 3.7.14, 3.8.14, 3.9.14 and 3.10.7. */
  const MaxStrDigits: nat := 4300

  /** A non-empty string starts with a digit and continues with digits
      exactly when all of it is digits. */
  lemma AllDigitsCons(s: string)
    requires s != []
    ensures AllDigits(s) <==> IsDigit(s[0]) && AllDigits(s[1..])
  {
    if IsDigit(s[0]) && AllDigits(s[1..]) {
      forall k | 0 < k < |s| ensures IsDigit(s[k]) {
        assert s[k] == s[1..][k - 1];
      }
    }
  }

  /** Python's `int(s)` in base 10 on text that is already stripped: an
      optional '+' or '-' followed by one to `MaxStrDigits` digits. Anything
      else is the `ValueError` case, here `None`. A negative result needs a
      leading '-'. */
  function ParseInt(s: string): (r: Option<int>)
    ensures r.Some? <==>
      && s != [] && AllDigits(s[1..])
      && if IsDigit(s[0]) then |s| <= MaxStrDigits
         else (s[0] == '+' || s[0] == '-') && 1 < |s| <= MaxStrDigits + 1
    ensures r.Some? && r.value < 0 ==> s[0] == '-'
  {
    if s == [] then None
    else
      AllDigitsCons(s);
      if s[0] == '+' || s[0] == '-' then
        var body := s[1..];
        if body != [] && AllDigits(body) && |body| <= MaxStrDigits then
          var v: int := DigitsValue(body);
          Some(if s[0] == '-' then -v else v)
        else None
      else if AllDigits(s) && |s| <= MaxStrDigits then Some(DigitsValue(s))
      else None
  }

  /** The shortest decimal rendering of `n`, as `str(n)` gives it. */
  function FormatNat(n: nat): (s: string)
    ensures s != [] && AllDigits(s) && DigitsValue(s) == n
  {
    if n < 10 then [DigitChar(n)]
    else
      var s := FormatNat(n / 10) + [DigitChar(n % 10)];
      assert s[..|s| - 1] == FormatNat(n / 10);
      s
  }

  function Format(n: int): string {
    if n < 0 then "-" + FormatNat(-n) else FormatNat(n)
  }

  lemma {:induction false} Pow10Monotone(a: nat, b: nat)
    requires a <= b
    ensures Pow10(a) <= Pow10(b)
    decreases b
  {
    if a < b {
      Pow10Monotone(a, b - 1);
    }
  }

  /** `int()` reads back every rendered integer of at most `MaxStrDigits`
      digits. */
  lemma ParseFormat(n: int)
    requires |FormatNat(if n < 0 then -n else n)| <= MaxStrDigits
    ensures ParseInt(Format(n)) == Some(n)
  {
    if n < 0 {
      var s := Format(n);
      assert s[0] == '-' && s[1..] == FormatNat(-n);
      ParseDigits(FormatNat(-n));
    } else {
      ParseDigits(FormatNat(n));
    }
  }

  /** A run of digits, no longer than the limit, parses to the number it denotes. */
  lemma ParseDigits(s: string)
    requires s != [] && AllDigits(s) && |s| <= MaxStrDigits
    ensures ParseInt(s) == Some(DigitsValue(s))
  {
  }

  /** A sign before a run of digits: '+' keeps the value and '-' negates
      it; leading zeros change nothing. */
  lemma ParseSigned(d: string)
    requires d != [] && AllDigits(d) && |d| <= MaxStrDigits
    ensures ParseInt("+" + d) == Some(DigitsValue(d))
    ensures ParseInt("-" + d) == Some(-(DigitsValue(d) as int))
  {
    assert ("+" + d)[1..] == d;
    assert ("-" + d)[1..] == d;
  }

  /** A run of more than `MaxStrDigits` digits is rejected, whatever it denotes. */
  lemma ParseTooManyDigits(s: string)
    requires AllDigits(s) && |s| > MaxStrDigits
    ensures ParseInt(s) == None
  {
  }
}
