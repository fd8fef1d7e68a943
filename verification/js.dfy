/** The few JavaScript built-ins the registry relies on, with the behaviour
    they have in JavaScript rather than in Dafny. */
module Js {
  import opened Wrappers

  /** JavaScript's `a % n` for a positive divisor. The remainder truncates
      toward zero, so it takes the sign of the dividend, whereas Dafny's `%`
      never goes negative. It is written here as repeated subtraction of the
      divisor from the magnitude, which is exactly what truncation leaves. */
  function Rem(a: int, n: int): (r: int)
    requires n > 0
    ensures -n < r < n
    ensures a >= 0 ==> 0 <= r <= a
    ensures a < 0 ==> a <= r <= 0 && r == -Rem(-a, n)
    decreases if a < 0 then 1 - a else a
  {
    if a < 0 then -Rem(-a, n)
    else if a < n then a
    else Rem(a - n, n)
  }

  /** For a non-negative dividend, `Rem` leaves exactly what is left after
      taking out a whole number of divisors: `a == q * n + Rem(a, n)`, with
      the quotient `q` returned. Together with the bounds this pins the
      remainder down to a single value. */
  lemma {:induction false} RemQuot(a: nat, n: int) returns (q: nat)
    requires n > 0
    ensures a == q * n + Rem(a, n)
    decreases a
  {
    if a < n {
      q := 0;
    } else {
      var q' := RemQuot(a - n, n);
      q := q' + 1;
      assert Rem(a, n) == Rem(a - n, n);
      assert q * n == q' * n + n;
    }
  }

  /** Below twice the divisor the remainder is a single subtraction at most:
      this is all the cursor arithmetic ever asks of `%`. */
  lemma RemBelowTwice(a: int, n: int)
    requires n > 0
    ensures 0 <= a < 2 * n ==> Rem(a, n) == if a < n then a else a - n
  {
  }

  /** `array[i]`: the element at position `i`, or `undefined` outside the array. */
  function Index<T>(a: seq<T>, i: int): (r: Option<T>)
    ensures r.Some? <==> 0 <= i < |a|
    ensures r.Some? ==> r.value == a[i]
  {
    if 0 <= i < |a| then Some(a[i]) else None
  }

  /** `array.at(i)`: a negative `i` counts back from the end, so `at(-1)` is
      the last element; anything out of range is `undefined`. */
  function At<T>(a: seq<T>, i: int): (r: Option<T>)
    ensures 0 <= i < |a| ==> r == Some(a[i])
    ensures -|a| <= i < 0 ==> r == Some(a[|a| + i])
    ensures r.Some? <==> -|a| <= i < |a|
  {
    Index(a, if i >= 0 then i else |a| + i)
  }
}
