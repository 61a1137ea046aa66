/** Decimal numerals as strconv writes and reads them. */
module Numerals {
  import opened Wrappers

  function Digit(n: nat): (c: char)
    requires n < 10
    ensures '0' <= c <= '9'
  {
    ['0', '1', '2', '3', '4', '5', '6', '7', '8', '9'][n]
  }

  function Digits(n: nat): string {
    if n < 10 then [Digit(n)] else Digits(n / 10) + [Digit(n % 10)]
  }

  function Itoa(i: int): string {
    if i < 0 then "-" + Digits(-i) else Digits(i)
  }

  predicate IsDigit(c: char) {
    '0' <= c <= '9'
  }

  predicate AllDigits(s: string) {
    forall i :: 0 <= i < |s| ==> IsDigit(s[i])
  }

  function Value(s: string): nat
    requires AllDigits(s)
  {
    if s == [] then 0 else Value(s[..|s| - 1]) * 10 + (s[|s| - 1] as int - '0' as int)
  }

  /** strconv.Atoi on the 64-bit range: an optional sign and at least one digit. */
  function Atoi(s: string): Option<int> {
    var signed := s != [] && (s[0] == '-' || s[0] == '+');
    var digits := if signed then s[1..] else s;
    if digits == [] || !AllDigits(digits) then None
    else
      var v: int := if signed && s[0] == '-' then 0 - Value(digits) else Value(digits);
      if -0x8000_0000_0000_0000 <= v < 0x8000_0000_0000_0000 then Some(v) else None
  }

  lemma {:induction false} ValueOfDigits(n: nat)
    ensures |Digits(n)| > 0 && AllDigits(Digits(n)) && Value(Digits(n)) == n
  {
    if n >= 10 {
      ValueOfDigits(n / 10);
      assert Digits(n)[..|Digits(n)| - 1] == Digits(n / 10);
    } else {
      assert Digits(n)[..0] == [];
    }
  }

  lemma AtoiOfDigits(digits: string)
    requires digits != [] && AllDigits(digits) && Value(digits) < 0x8000_0000_0000_0000
    ensures Atoi(digits) == Some(Value(digits))
  {
    assert IsDigit(digits[0]);
  }

  lemma AtoiOfNegative(digits: string)
    requires digits != [] && AllDigits(digits) && Value(digits) <= 0x8000_0000_0000_0000
    ensures Atoi("-" + digits) == Some(0 - Value(digits))
  {
    assert ("-" + digits)[0] == '-' && ("-" + digits)[1..] == digits;
  }

  lemma AtoiOfItoa(i: int)
    requires -0x8000_0000_0000_0000 <= i < 0x8000_0000_0000_0000
    ensures Atoi(Itoa(i)) == Some(i)
  {
    if i < 0 {
      AtoiOfDebt(-i);
    } else {
      ValueOfDigits(i);
      AtoiOfDigits(Digits(i));
    }
  }

  lemma AtoiOfDebt(n: nat)
    requires 0 < n <= 0x8000_0000_0000_0000
    ensures Atoi(Itoa(0 - n)) == Some(0 - n)
  {
    ValueOfDigits(n);
    AtoiOfNegative(Digits(n));
  }

  /** Digits, with a sign before them or not, and the number they are. */
  ghost predicate Writes(s: string, digits: string, v: int) {
    && digits != [] && AllDigits(digits)
    && ((s == digits && v == Value(digits)) || (s == "+" + digits && v == Value(digits)) || (s == "-" + digits && v == 0 - Value(digits)))
  }

  /** What reads as a number is written as one that fits into 64 bits, and nothing else is. */
  lemma AtoiMeans(s: string, v: int)
    ensures Atoi(s) == Some(v) <==> -0x8000_0000_0000_0000 <= v < 0x8000_0000_0000_0000 && exists digits :: Writes(s, digits, v)
  {
    if Atoi(s) == Some(v) {
      if s[0] == '-' || s[0] == '+' {
        assert s == [s[0]] + s[1..];
        assert Writes(s, s[1..], v);
      } else {
        assert Writes(s, s, v);
      }
    }
    forall digits | Writes(s, digits, v) ensures -0x8000_0000_0000_0000 <= v < 0x8000_0000_0000_0000 ==> Atoi(s) == Some(v) {
      assert IsDigit(digits[0]);
      if s != digits {
        assert s[1..] == digits;
      }
    }
  }

  lemma ItoaInjective(i: int, j: int)
    requires Itoa(i) == Itoa(j)
    ensures i == j
  {
    ValueOfDigits(if i < 0 then -i else i);
    ValueOfDigits(if j < 0 then -j else j);
    assert i < 0 ==> Itoa(i)[0] == '-' && Itoa(i)[1..] == Digits(-i);
    assert j < 0 ==> Itoa(j)[0] == '-' && Itoa(j)[1..] == Digits(-j);
    assert i >= 0 ==> IsDigit(Itoa(i)[0]);
    assert j >= 0 ==> IsDigit(Itoa(j)[0]);
  }

  /** A printed number holds nothing but digits and perhaps a leading minus. */
  lemma ItoaChars(i: int, k: nat)
    requires k < |Itoa(i)|
    ensures IsDigit(Itoa(i)[k]) || (k == 0 && Itoa(i)[k] == '-')
  {
    ValueOfDigits(if i < 0 then -i else i);
  }
}
