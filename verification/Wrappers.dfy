/** The optional value, map lookup and decimal numerals that the modules share. */
module Wrappers {
  datatype Option<+T> = None | Some(value: T)

  /** Python's `mapping.get(key)`. */
  function Get<K, V>(m: map<K, V>, key: K): (r: Option<V>)
    ensures r.Some? <==> key in m
  {
    if key in m then Some(m[key]) else None
  }

  /** Where an element is. */
  lemma PlaceOf<T>(xs: seq<T>, x: T) returns (i: nat)
    requires x in xs
    ensures i < |xs| && xs[i] == x
  {
    i :| 0 <= i < |xs| && xs[i] == x;
  }

  /** `str(n)`. */
  function Decimal(n: nat): string {
    (if n < 10 then "" else Decimal(n / 10)) + ["0123456789"[n % 10]]
  }

  /** The number that a numeral denotes; its characters are taken for digits. */
  function Denotes(digits: string): int {
    if digits == "" then 0
    else 10 * Denotes(digits[..|digits| - 1]) + (digits[|digits| - 1] as int - '0' as int)
  }

  /** Printing and reading a number undo each other, without leading zeros. */
  lemma {:induction false} DecimalReadsBack(n: nat)
    ensures Denotes(Decimal(n)) == n
    ensures Decimal(n) != "" && (n > 0 ==> Decimal(n)[0] != '0')
  {
    var q, d := n / 10, n % 10;
    DigitReadsBack(d);
    OneMoreDigit(if n < 10 then "" else Decimal(q), "0123456789"[d]);
    if n < 10 {
    } else {
      DecimalReadsBack(q);
      assert n == 10 * q + d;
    }
  }

  lemma OneMoreDigit(front: string, c: char)
    ensures Denotes(front + [c]) == 10 * Denotes(front) + (c as int - '0' as int)
  {
    assert (front + [c])[..|front|] == front;
  }

  lemma DigitReadsBack(d: nat)
    requires d < 10
    ensures "0123456789"[d] as int - '0' as int == d
  {
  }
}
