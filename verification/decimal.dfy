/** Decimal text of natural numbers: Python's `str(n)` / f-string formatting
    of a non-negative int, and `int(s)` of a string of ASCII digits. */
module Decimal {

  predicate IsDigit(c: char) {
    '0' <= c <= '9'
  }

  predicate AllDigits(s: string) {
    forall i :: 0 <= i < |s| ==> IsDigit(s[i])
  }

  /** Python's `s.isdigit()` restricted to ASCII: false on the empty string. */
  predicate IsDigitString(s: string) {
    |s| > 0 && AllDigits(s)
  }

  function DigitChar(d: nat): (c: char)
    requires d < 10
    ensures IsDigit(c) && c as int - '0' as int == d
  {
    ('0' as int + d) as char
  }

  /** `int(s)` for a string of ASCII digits; leading zeros are allowed.
      CPython's `int` also refuses a text longer than its digit limit; the
      callers that model `int` check that limit themselves. */
  function Value(s: string): nat
    requires AllDigits(s)
  {
    if |s| == 0 then 0
    else Value(s[..|s| - 1]) * 10 + (s[|s| - 1] as int - '0' as int)
  }

  /** `str(n)`: the shortest decimal text of n, without sign or padding. */
  function Show(n: nat): (r: string)
    ensures IsDigitString(r)
    ensures r[0] == '0' <==> n == 0
    ensures n == 0 ==> |r| == 1
    ensures n < 10 <==> |r| == 1
  {
    if n < 10 then [DigitChar(n)] else Show(n / 10) + [DigitChar(n % 10)]
  }

  /** Reading back the text `str` prints gives the same number. */
  lemma {:induction false} ValueOfShow(n: nat)
    ensures Value(Show(n)) == n
  {
    if n >= 10 {
      var s := Show(n);
      assert s[..|s| - 1] == Show(n / 10);
      ValueOfShow(n / 10);
    }
  }

  /** The other direction: a digit text without leading zeros is what `str`
      prints for the number `int` reads from it. */
  lemma {:induction false} ShowOfValue(s: string)
    requires IsDigitString(s) && (s[0] == '0' ==> |s| == 1)
    ensures Show(Value(s)) == s
  {
    if |s| > 1 {
      var p := s[..|s| - 1];
      ShowOfValue(p);
      var d := s[|s| - 1] as int - '0' as int;
      assert Value(s) / 10 == Value(p) && Value(s) % 10 == d;
      assert [DigitChar(d)] == [s[|s| - 1]];
      assert s == p + [s[|s| - 1]];
    } else {
      assert s[..0] == "";
      assert Value(s) == s[0] as int - '0' as int;
      assert [DigitChar(Value(s))] == s;
    }
  }

  /** Distinct numbers print as distinct texts. */
  lemma ShowInjective(m: nat, n: nat)
    ensures Show(m) == Show(n) ==> m == n
  {
    if Show(m) == Show(n) {
      ValueOfShow(m);
      ValueOfShow(n);
    }
  }

  /** `int` ignores leading zeros: `int("0" + s) == int(s)`. */
  lemma {:induction false} LeadingZero(s: string)
    requires AllDigits(s)
    ensures AllDigits("0" + s) && Value("0" + s) == Value(s)
  {
    var t := "0" + s;
    assert AllDigits(t) by {
      forall i | 0 <= i < |t| ensures IsDigit(t[i]) {
        if i > 0 { assert t[i] == s[i - 1]; }
      }
    }
    if |s| > 0 {
      assert t[..|t| - 1] == "0" + s[..|s| - 1];
      LeadingZero(s[..|s| - 1]);
    }
  }

  /** Any number of leading zeros may be prepended. */
  lemma {:induction false} LeadingZeros(k: nat, s: string)
    requires AllDigits(s)
    ensures AllDigits(Zeros(k) + s) && Value(Zeros(k) + s) == Value(s)
  {
    if k > 0 {
      LeadingZeros(k - 1, s);
      assert Zeros(k) + s == "0" + (Zeros(k - 1) + s);
      LeadingZero(Zeros(k - 1) + s);
    } else {
      assert Zeros(k) + s == s;
    }
  }

  function Zeros(k: nat): (r: string)
    ensures |r| == k && forall i :: 0 <= i < k ==> r[i] == '0'
  {
    if k == 0 then "" else "0" + Zeros(k - 1)
  }
}
