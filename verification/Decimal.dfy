/** Integers written and read in decimal, as strconv.Itoa and strconv.Atoi do. */
module Decimal {
  import opened Wrappers

  const MAX_INT := 0x7fff_ffff_ffff_ffff

  predicate IsDigit(c: char) {
    '0' <= c <= '9'
  }

  predicate AllDigits(s: string) {
    forall i :: 0 <= i < |s| ==> IsDigit(s[i])
  }

  function Digits(n: nat): (s: string)
    ensures |s| > 0 && AllDigits(s)
  {
    (if n < 10 then [] else Digits(n / 10)) + [(n % 10) as char + '0']
  }

  function Itoa(n: int): string {
    if n < 0 then "-" + Digits(-n) else Digits(n)
  }

  function Value(s: string): nat
    requires AllDigits(s)
  {
    if s == [] then 0
    else Value(s[..|s| - 1]) * 10 + (s[|s| - 1] - '0') as nat
  }

  /** A value outside the range of a 64-bit int is an error, like a string that is
      not a number. */
  function Atoi(s: string): Option<int> {
    var digits := if s != [] && (s[0] == '+' || s[0] == '-') then s[1..] else s;
    if digits == [] || !AllDigits(digits) then None
    else
      var m: int := Value(digits);
      var n := if s[0] == '-' then -m else m;
      if -MAX_INT - 1 <= n <= MAX_INT then Some(n) else None
  }

  lemma {:induction false} ValueOfDigits(n: nat)
    ensures Value(Digits(n)) == n
  {
    var s := Digits(n);
    if n >= 10 {
      ValueOfDigits(n / 10);
      assert s[..|s| - 1] == Digits(n / 10);
    } else {
      assert s[..|s| - 1] == [];
    }
  }

  lemma AtoiItoa(n: int)
    requires -MAX_INT - 1 <= n <= MAX_INT
    ensures Atoi(Itoa(n)) == Some(n)
  {
    hide Value, Digits;
    var s := Itoa(n);
    if n < 0 {
      ValueOfDigits(-n);
      assert s[0] == '-' && s[1..] == Digits(-n);
    } else {
      ValueOfDigits(n);
      assert IsDigit(s[0]);
    }
  }

  /** What is read is a sign and digits, or digits alone. */
  lemma AtoiOnlyNumbers(s: string)
    requires Atoi(s).Some?
    ensures s != [] && (IsDigit(s[0]) || ((s[0] == '+' || s[0] == '-') && |s| > 1))
    ensures forall i :: 1 <= i < |s| ==> IsDigit(s[i])
  {
    hide Value;
    var digits := if s != [] && (s[0] == '+' || s[0] == '-') then s[1..] else s;
    assert AllDigits(digits);
    assert digits != s ==> forall i :: 1 <= i < |s| ==> s[i] == digits[i - 1];
  }

  lemma ItoaInjective(a: int, b: int)
    requires Itoa(a) == Itoa(b)
    ensures a == b
  {
    var m, n := if a < 0 then -a else a, if b < 0 then -b else b;
    ValueOfDigits(m);
    ValueOfDigits(n);
    assert a >= 0 ==> IsDigit(Itoa(a)[0]);
    assert b >= 0 ==> IsDigit(Itoa(b)[0]);
    assert a < 0 ==> Itoa(a)[1..] == Digits(m);
    assert b < 0 ==> Itoa(b)[1..] == Digits(n);
  }
}
