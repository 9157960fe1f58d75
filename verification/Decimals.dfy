/** Decimal printing and range-checked parsing of machine integers. */
module Decimals {
  import opened Values

  const MINUS: Byte := 45
  const PLUS: Byte := 43

  predicate IsDigit(b: Byte) {
    48 <= b <= 57
  }

  predicate AllDigits(s: seq<Byte>) {
    forall i :: 0 <= i < |s| ==> IsDigit(s[i])
  }

  /** Digits without leading zeros. */
  function Digits(n: nat): (s: seq<Byte>)
    ensures s != [] && AllDigits(s)
  {
    if n < 10 then [48 + n] else Digits(n / 10) + [48 + n % 10]
  }

  function Print(n: int): (s: seq<Byte>)
    ensures s != []
  {
    if n < 0 then [MINUS] + Digits(-n) else Digits(n)
  }

  /** Value of a digit string, read from the left. */
  function ValueOf(s: seq<Byte>): nat
    requires AllDigits(s)
  {
    if s == [] then 0 else ValueOf(s[..|s| - 1]) * 10 + (s[|s| - 1] - 48)
  }

  function ParseDigits(s: seq<Byte>): Option<nat> {
    if s != [] && AllDigits(s) then Some(ValueOf(s)) else None
  }

  function Bounded(n: int, lo: int, hi: int): Option<int> {
    if lo <= n <= hi then Some(n) else None
  }

  /** Optional sign (a minus only for signed types), at least one digit, and a value in range. */
  function Parse(s: seq<Byte>, lo: int, hi: int): Option<int> {
    if s == [] then None
    else
      var negative := s[0] == MINUS && lo < 0;
      var digits := if negative || s[0] == PLUS then s[1..] else s;
      match ParseDigits(digits)
      case None => None
      case Some(v) => Bounded((if negative then -1 else 1) * v, lo, hi)
  }

  /** -305 and 7, spelled out. */
  lemma Spelled()
    ensures Print(-305) == [45, 51, 48, 53] && Print(7) == [55]
  {
    assert Digits(3) == [51] && Digits(30) == [51, 48] && Digits(305) == [51, 48, 53];
  }

  lemma {:induction false} ValueOfDigits(n: nat)
    ensures ValueOf(Digits(n)) == n
  {
    if n >= 10 {
      ValueOfDigits(n / 10);
      var s := Digits(n);
      assert s[..|s| - 1] == Digits(n / 10);
    } else {
      assert [48 + n][..0] == [];
    }
  }

  /** Every number of the type survives printing and parsing. */
  lemma ParsePrint(n: int, lo: int, hi: int)
    requires lo <= n <= hi
    ensures Parse(Print(n), lo, hi) == Some(n)
  {
    if n < 0 {
      ValueOfDigits(-n);
      assert Print(n)[1..] == Digits(-n);
    } else {
      ValueOfDigits(n);
      assert IsDigit(Digits(n)[0]);
    }
  }

  lemma PrintInjective(m: int, n: int)
    requires Print(m) == Print(n)
    ensures m == n
  {
    var lo, hi := if m < n then m else n, if m < n then n else m;
    ParsePrint(m, lo, hi);
    ParsePrint(n, lo, hi);
  }

  /** Digits and the minus sign only. */
  predicate NumberBytes(s: seq<Byte>) {
    forall i :: 0 <= i < |s| ==> IsDigit(s[i]) || s[i] == MINUS
  }

  lemma PrintBytes(n: int)
    ensures NumberBytes(Print(n))
  {
  }
}
