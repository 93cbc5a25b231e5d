/** Optional values, used wherever the program says "or None", and byte strings. */
module Prelude {
  type byte = x: int | 0 <= x < 256

  type bytes = seq<byte>

  function Elements<T>(s: seq<T>): set<T> {
    set x | x in s
  }

  /** The elements the condition holds for, in their order. */
  function Kept<T>(s: seq<T>, condition: T -> bool): seq<T> {
    if |s| == 0 then [] else (if condition(s[0]) then [s[0]] else []) + Kept(s[1..], condition)
  }

  function Digit(n: nat): char
    requires n < 10
  {
    ('0' as int + n) as char
  }

  /** The number in decimal, as a formatted string shows it. */
  function Numeral(n: nat): (r: string)
    ensures r != ""
  {
    if n < 10 then [Digit(n)] else Numeral(n / 10) + [Digit(n % 10)]
  }

  /** The number that decimal digits denote. */
  function Denoted(digits: string): nat {
    if digits == "" then 0
    else
      var last := digits[|digits| - 1];
      Denoted(digits[..|digits| - 1]) * 10 + if '0' <= last <= '9' then last as int - '0' as int else 0
  }

  /** A numeral consists of digits, starts with a zero for zero only, and denotes its number. */
  lemma {:induction false} NumeralExactly(n: nat)
    ensures forall i :: 0 <= i < |Numeral(n)| ==> '0' <= Numeral(n)[i] <= '9'
    ensures Numeral(n)[0] == '0' <==> n == 0
    ensures Denoted(Numeral(n)) == n
  {
    if n >= 10 {
      var front := Numeral(n / 10);
      NumeralExactly(n / 10);
      assert Numeral(n)[..|front|] == front && Numeral(n)[0] == front[0];
    }
  }

  datatype Option<+T> = None | Some(value: T) {
    function GetOr(default: T): T {
      if Some? then value else default
    }
  }
}
