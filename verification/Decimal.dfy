/** Base-10 text as `strconv` reads and writes it: the names `tap12`, `bridge7` and
    `link3` are only distinct because `Format` is injective. */
module Decimal {
  import opened Wrappers

  const POW64: int := 0x1_0000_0000_0000_0000

  predicate IsDigit(c: char) {
    '0' <= c <= '9'
  }

  predicate AllDigits(s: string) {
    forall i :: 0 <= i < |s| ==> IsDigit(s[i])
  }

  function DigitValue(c: char): nat
    requires IsDigit(c)
  {
    c as int - '0' as int
  }

  /** Canonical decimal text: digits with no superfluous leading zero. */
  predicate Canonical(s: string) {
    s != "" && AllDigits(s) && (s[0] == '0' ==> |s| == 1)
  }

  function Format(n: nat): (s: string)
    ensures Canonical(s)
  {
    if n < 10 then [(n + '0' as int) as char]
    else Format(n / 10) + [(n % 10 + '0' as int) as char]
  }

  function Value(s: string): nat
    requires AllDigits(s)
  {
    if s == "" then 0
    else Value(s[..|s| - 1]) * 10 + DigitValue(s[|s| - 1])
  }

  lemma {:induction false} ValueOfFormat(n: nat)
    ensures Value(Format(n)) == n
  {
    if n < 10 {
      assert Format(n)[..0] == "";
    } else {
      ValueOfFormat(n / 10);
      assert Format(n)[..|Format(n)| - 1] == Format(n / 10);
    }
  }

  lemma FormatInjective(m: nat, n: nat)
    requires Format(m) == Format(n)
    ensures m == n
  {
    ValueOfFormat(m);
    ValueOfFormat(n);
  }

  lemma {:induction false} PositiveValue(s: string)
    requires AllDigits(s) && s != "" && s[0] != '0'
    ensures Value(s) > 0
  {
    if |s| == 1 {
      assert s[..0] == "";
    } else {
      PositiveValue(s[..|s| - 1]);
    }
  }

  lemma {:induction false} FormatOfValue(s: string)
    requires Canonical(s)
    ensures Format(Value(s)) == s
  {
    var front := s[..|s| - 1];
    assert s == front + [s[|s| - 1]];
    if |s| > 1 {
      PositiveValue(front);
      FormatOfValue(front);
      assert Value(s) / 10 == Value(front);
    }
  }

  /** Signed text, as `strconv.FormatInt(n, 10)` prints it. */
  function FormatInt(n: int): (s: string)
    ensures s != ""
  {
    if n < 0 then "-" + Format(-n) else Format(n)
  }

  lemma FormatIntInjective(m: int, n: int)
    requires FormatInt(m) == FormatInt(n)
    ensures m == n
  {
    assert m < 0 <==> FormatInt(m)[0] == '-';
    assert n < 0 <==> FormatInt(n)[0] == '-';
    if m < 0 {
      assert FormatInt(m)[1..] == Format(-m) && FormatInt(n)[1..] == Format(-n);
      FormatInjective(-m, -n);
    } else {
      FormatInjective(m, n);
    }
  }

  /** `strconv.ParseUint(s, 10, bits)` with `limit == 2^bits`: digits only, at least one,
      and the value fits. */
  function ParseUint(s: string, limit: nat): Option<nat> {
    if s == "" || !AllDigits(s) || Value(s) >= limit then None else Some(Value(s))
  }

  /** `strconv.ParseInt(s, 10, bits)` with `half == 2^(bits-1)`: an optional sign, then
      digits, within [-half, half). */
  function ParseInt(s: string, half: int): Option<int> {
    if s == "" then None
    else
      var signed := s[0] == '-' || s[0] == '+';
      var digits := if signed then s[1..] else s;
      if digits == "" || !AllDigits(digits) then None
      else
        var magnitude: int := Value(digits);
        var v := if s[0] == '-' then -magnitude else magnitude;
        if -half <= v < half then Some(v) else None
  }

  lemma ParsePlain(digits: string, half: int)
    requires Canonical(digits) && Value(digits) < half
    ensures ParseInt(digits, half) == Some(Value(digits))
  {
    assert IsDigit(digits[0]);
  }

  lemma ParseNegative(digits: string, half: int)
    requires Canonical(digits) && 0 < half && Value(digits) <= half
    ensures ParseInt("-" + digits, half) == Some(-(Value(digits) as int))
  {
    assert ("-" + digits)[1..] == digits;
  }
}
