/** Decimal text of integers as strconv prints and parses it, and the canonical spelling admission demands. */
module Decimal {

  import opened Wrappers

  const MIN_INT64: int := -0x8000_0000_0000_0000
  const MAX_INT64: int := 0x7fff_ffff_ffff_ffff
  const MAX_UINT64: int := 0xffff_ffff_ffff_ffff

  predicate IsDigit(c: char) {
    '0' <= c <= '9'
  }

  function DigitOf(d: int): (c: char)
    requires 0 <= d < 10
    ensures IsDigit(c) && ValueOf(c) == d
  {
    '0' + d as char
  }

  function ValueOf(c: char): (d: int)
    requires IsDigit(c)
    ensures 0 <= d < 10
  {
    c as int - '0' as int
  }

  predicate AllDigits(s: string) {
    forall i | 0 <= i < |s| :: IsDigit(s[i])
  }

  /** The decimal digits of n, without leading zeros. */
  function Digits(n: nat): (s: string)
    ensures s != "" && AllDigits(s)
    ensures s[0] == '0' <==> n == 0
    ensures n == 0 ==> s == "0"
  {
    if n < 10 then [DigitOf(n)] else Digits(n / 10) + [DigitOf(n % 10)]
  }

  function NumberOf(s: string): nat
    requires AllDigits(s)
  {
    if s == "" then 0 else 10 * NumberOf(s[..|s| - 1]) + ValueOf(s[|s| - 1])
  }

  function FormatInt(n: int): string {
    if n < 0 then "-" + Digits(-n) else Digits(n)
  }

  /** The sign and digits of a base-10 literal. */
  function ParseLiteral(s: string): Option<int> {
    if s == "" then None
    else if s[0] == '-' || s[0] == '+' then
      if s[1..] == "" || !AllDigits(s[1..]) then None
      else if s[0] == '-' then Some(-(NumberOf(s[1..]) as int)) else Some(NumberOf(s[1..]))
    else if AllDigits(s) then Some(NumberOf(s)) else None
  }

  /** The number strconv.ParseInt returns, errors ignored: zero on bad syntax, clamped out of range. */
  function ParseInt64(s: string): (n: int)
    ensures MIN_INT64 <= n <= MAX_INT64
  {
    var n := ParseLiteral(s);
    if n.None? then 0 else if n.value < MIN_INT64 then MIN_INT64 else if n.value > MAX_INT64 then MAX_INT64 else n.value
  }

  /** As ParseInt64 for strconv.ParseUint, which takes no sign. */
  function ParseUint64(s: string): (n: int)
    ensures 0 <= n <= MAX_UINT64
  {
    if s == "" || !AllDigits(s) then 0 else if NumberOf(s) > MAX_UINT64 then MAX_UINT64 else NumberOf(s)
  }

  /** The spelling admission accepts: no sign but a minus, no superfluous zero, and in range. */
  predicate CanonicalInt(s: string, unsigned: bool) {
    && |s| <= 20
    && s != "" && s != "-0" && s[0] != '+' && !(|s| > 1 && s[0] == '0') && !(|s| > 2 && s[..2] == "-0")
    && (s[0] == '-' ==> !unsigned && |s| > 1)
    && AllDigits(if s[0] == '-' then s[1..] else s)
    && (if unsigned then NumberOf(s) <= MAX_UINT64 else MIN_INT64 <= ParseLiteral(s).value <= MAX_INT64)
  }

  function Distance(a: int, b: int): nat {
    if a < b then b - a else a - b
  }

  /** Whatever the text, an encoder that ignores errors gets the nearest number it can hold, or zero. */
  lemma ParsesNearest(s: string, n: int)
    requires MIN_INT64 <= n <= MAX_INT64
    ensures match ParseLiteral(s)
      case Some(m) => Distance(ParseInt64(s), m) <= Distance(n, m)
      case None => ParseInt64(s) == 0
  {}

  lemma ParsesNearestUnsigned(s: string, n: int)
    requires 0 <= n <= MAX_UINT64
    ensures if s != "" && AllDigits(s) then Distance(ParseUint64(s), NumberOf(s)) <= Distance(n, NumberOf(s))
            else ParseUint64(s) == 0
  {}

  lemma {:induction false} NumberOfDigits(n: nat)
    ensures NumberOf(Digits(n)) == n
  {
    if n >= 10 {
      NumberOfDigits(n / 10);
      assert Digits(n)[..|Digits(n)| - 1] == Digits(n / 10);
    }
  }

  lemma {:induction false} DigitsOfNumber(s: string)
    requires s != "" && AllDigits(s) && (|s| > 1 ==> s[0] != '0')
    ensures Digits(NumberOf(s)) == s
    ensures |s| > 1 ==> NumberOf(s) >= 10
  {
    var front, d := s[..|s| - 1], ValueOf(s[|s| - 1]);
    assert s == front + [s[|s| - 1]];
    assert DigitOf(d) == s[|s| - 1];
    if front != "" {
      DigitsOfNumber(front);
      assert NumberOf(front) >= 1 by {
        if |front| == 1 {
          assert front[..0] == "" && front[0] != '0';
        }
      }
      assert NumberOf(s) / 10 == NumberOf(front) && NumberOf(s) % 10 == d;
    } else {
      assert NumberOf(front) == 0;
    }
  }

  lemma ParseFormat(n: int)
    ensures ParseLiteral(FormatInt(n)) == Some(n)
    ensures MIN_INT64 <= n <= MAX_INT64 ==> ParseInt64(FormatInt(n)) == n
    ensures 0 <= n <= MAX_UINT64 ==> ParseUint64(FormatInt(n)) == n
  {
    hide Digits, NumberOf;
    if n < 0 {
      NumberOfDigits(-n);
      assert FormatInt(n)[1..] == Digits(-n);
    } else {
      NumberOfDigits(n);
      assert IsDigit(FormatInt(n)[0]);
    }
  }

  function Pow10(k: nat): nat {
    if k == 0 then 1 else 10 * Pow10(k - 1)
  }

  lemma {:induction false} PowersArePositive(k: nat)
    ensures Pow10(k) > 0
  {
    if k > 0 {
      PowersArePositive(k - 1);
    }
  }

  lemma {:induction false} DigitsAreShort(n: nat, k: nat)
    requires k > 0 && n < Pow10(k)
    ensures |Digits(n)| <= k
  {
    if n >= 10 {
      assert k > 1 by { assert Pow10(1) == 10 * Pow10(0) == 10; }
      DigitsAreShort(n / 10, k - 1);
    }
  }

  lemma FiveMorePowers(k: nat)
    ensures Pow10(k + 5) == 100000 * Pow10(k)
  {
    assert Pow10(k + 2) == 10 * Pow10(k + 1) == 100 * Pow10(k);
    assert Pow10(k + 4) == 10 * Pow10(k + 3) == 100 * Pow10(k + 2);
  }

  lemma DigitsOfWord(n: nat)
    ensures n <= MAX_UINT64 ==> |Digits(n)| <= 20
    ensures n <= MAX_INT64 + 1 ==> |Digits(n)| <= 19
  {
    FiveMorePowers(0);
    FiveMorePowers(5);
    FiveMorePowers(10);
    FiveMorePowers(15);
    assert Pow10(20) == 10 * Pow10(19);
    if n <= MAX_UINT64 {
      DigitsAreShort(n, 20);
    }
    if n <= MAX_INT64 + 1 {
      DigitsAreShort(n, 19);
    }
  }

  /** strconv.ParseUint with its error. */
  function ParseUint(s: string): Option<int> {
    if s == "" || !AllDigits(s) || NumberOf(s) > MAX_UINT64 then None else Some(NumberOf(s))
  }

  /** A positive number is spelled by its digits in just one way that does not begin with a zero. */
  lemma PositiveIsFormatted(s: string)
    ensures s != "" && s[0] != '0' && AllDigits(s) && NumberOf(s) <= MAX_UINT64
       <==> exists n :: 0 < n <= MAX_UINT64 && s == FormatInt(n)
  {
    if s != "" && s[0] != '0' && AllDigits(s) && NumberOf(s) <= MAX_UINT64 {
      DigitsOfNumber(s);
      assert s == FormatInt(NumberOf(s));
    }
    if n :| 0 < n <= MAX_UINT64 && s == FormatInt(n) {
      NumberOfDigits(n);
    }
  }

  lemma CanonicalComesFromFormat(s: string, unsigned: bool) returns (n: int)
    requires CanonicalInt(s, unsigned)
    ensures (if unsigned then 0 <= n <= MAX_UINT64 else MIN_INT64 <= n <= MAX_INT64) && s == FormatInt(n)
  {
    hide Digits, NumberOf;
    if s[0] == '-' {
      var digits := s[1..];
      assert s == "-" + digits && digits[0] == s[1];
      if |s| > 2 {
        assert s[..2] == ['-', s[1]];
      }
      DigitsOfNumber(digits);
      n := -(NumberOf(digits) as int);
      assert digits == "0" ==> s == "-0";
    } else {
      DigitsOfNumber(s);
      n := NumberOf(s);
    }
  }

  /** Admission accepts exactly the text strconv prints for an integer in range. */
  lemma CanonicalIsFormatted(s: string, unsigned: bool)
    ensures CanonicalInt(s, unsigned)
       <==> exists n :: (if unsigned then 0 <= n <= MAX_UINT64 else MIN_INT64 <= n <= MAX_INT64) && s == FormatInt(n)
  {
    if CanonicalInt(s, unsigned) {
      var n := CanonicalComesFromFormat(s, unsigned);
    }
    if n :| (if unsigned then 0 <= n <= MAX_UINT64 else MIN_INT64 <= n <= MAX_INT64) && s == FormatInt(n) {
      FormatIsCanonical(n, unsigned);
    }
  }

  lemma FormatIsCanonical(n: int, unsigned: bool)
    requires if unsigned then 0 <= n <= MAX_UINT64 else MIN_INT64 <= n <= MAX_INT64
    ensures CanonicalInt(FormatInt(n), unsigned)
  {
    var s, m: nat := FormatInt(n), if n < 0 then -n else n;
    DigitsUnpadded(m);
    hide Digits, NumberOf;
    ParseFormat(n);
    NumberOfDigits(m);
    DigitsOfWord(m);
    if n < 0 {
      assert s[1..] == Digits(m) && s[1] == Digits(m)[0];
      assert |s| > 2 ==> s[..2][1] == s[1];
    }
  }

  lemma DigitsUnpadded(n: nat)
    ensures |Digits(n)| > 1 ==> Digits(n)[0] != '0'
  {}
}
