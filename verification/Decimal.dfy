/** `Number.prototype.toString()` for a non-negative integer: its decimal
    digits with no leading zero, and "0" for zero. */
module Decimal {

  predicate IsDigit(c: char) {
    '0' <= c <= '9'
  }

  predicate AllDigits(s: string) {
    forall i :: 0 <= i < |s| ==> IsDigit(s[i])
  }

  function Encode(n: nat): (s: string)
    ensures |s| >= 1 && AllDigits(s)
    ensures s[0] == '0' ==> n == 0 && s == "0"
    decreases n
  {
    if n < 10 then ['0' + n as char] else Encode(n / 10) + ['0' + (n % 10) as char]
  }

  /** The value of a string of decimal digits. */
  function Decode(s: string): nat
    requires AllDigits(s)
  {
    if s == [] then 0 else Decode(s[..|s| - 1]) * 10 + (s[|s| - 1] - '0') as nat
  }

  lemma {:induction false} DecodeEncode(n: nat)
    ensures Decode(Encode(n)) == n
    decreases n
  {
    if n >= 10 {
      var s := Encode(n);
      assert s[..|s| - 1] == Encode(n / 10);
      DecodeEncode(n / 10);
    }
  }

  /** Distinct numbers render as distinct strings. */
  lemma EncodeInjective(m: nat, n: nat)
    requires Encode(m) == Encode(n)
    ensures m == n
  {
    DecodeEncode(m);
    DecodeEncode(n);
  }
}
