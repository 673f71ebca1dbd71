/** Decimal notation of integers, as template strings and `Number(...)` use it. */
module Decimal {
  import opened Common

  predicate IsDigit(c: char) {
    '0' <= c <= '9'
  }

  function Digit(d: nat): (c: char)
    requires d < 10
    ensures IsDigit(c) && Value(c) == d
  {
    ('0' as int + d) as char
  }

  function Value(c: char): nat
    requires IsDigit(c)
  {
    c as int - '0' as int
  }

  function Digits(n: nat): (s: string)
    ensures s != "" && forall i :: 0 <= i < |s| ==> IsDigit(s[i])
  {
    if n < 10 then [Digit(n)] else Digits(n / 10) + [Digit(n % 10)]
  }

  function ParseDigits(s: string): Option<nat> {
    if s == "" || !IsDigit(s[|s| - 1]) then None
    else if |s| == 1 then Some(Value(s[0]))
    else
      var front := ParseDigits(s[..|s| - 1]);
      if front == None then None else Some(10 * front.value + Value(s[|s| - 1]))
  }

  lemma {:induction false} DigitsParse(n: nat)
    ensures ParseDigits(Digits(n)) == Some(n)
    decreases n
  {
    if n >= 10 {
      DigitsParse(n / 10);
      assert Digits(n)[..|Digits(n)| - 1] == Digits(n / 10);
    }
  }

  function Show(n: int): (s: string)
    ensures s != "" && (s[0] == '-' || IsDigit(s[0])) && IsDigit(s[|s| - 1])
    ensures forall i :: 0 <= i < |s| ==> s[i] == '-' || IsDigit(s[i])
  {
    if n < 0 then "-" + Digits(-n) else Digits(n)
  }

  function Read(s: string): Option<int> {
    if s == "" then None
    else if s[0] == '-' then
      var n := ParseDigits(s[1..]);
      if n == None then None else (var v: int := n.value; Some(-v))
    else
      var n := ParseDigits(s);
      if n == None then None else Some(n.value)
  }

  lemma ReadShow(n: int)
    ensures Read(Show(n)) == Some(n)
  {
    hide Digits, ParseDigits;
    if n < 0 {
      DigitsParse(-n);
      assert Show(n)[1..] == Digits(-n);
    } else {
      DigitsParse(n);
    }
  }

  /** Different numbers are written differently. */
  lemma DigitsInjective(a: nat, b: nat)
    requires Digits(a) == Digits(b)
    ensures a == b
  {
    DigitsParse(a);
    DigitsParse(b);
  }
}
