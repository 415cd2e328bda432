/** Option and Result wrappers used by the guard functions of the routes. */
module Wrappers {

  datatype Option<+T> = None | Some(value: T)

  /** The outcome of a guard: a value to continue with, or the failure it stops at. */
  datatype Result<+T, +E> = Ok(value: T) | Err(error: E)
}

/** The few pieces of JavaScript semantics the routes depend on. */
module Js {

  /**
   * A JavaScript number as produced by `Number(...)` or `parseFloat(...)` from
   * form input. Infinities and IEEE rounding are not modelled.
   */
  datatype Number = Num(value: real) | NaN

  /** `!!n`: zero and NaN are falsy. */
  predicate Truthy(n: Number)
  {
    n.Num? && n.value != 0.0
  }

  /** `x < n`: any comparison with NaN is false. */
  predicate RealLess(x: real, n: Number)
  {
    n.Num? && x < n.value
  }

  /** `a + b`: NaN is absorbing. */
  function Add(a: Number, b: Number): Number
  {
    if a.Num? && b.Num? then Num(a.value + b.value) else NaN
  }

  /** `s.slice(start)`: a negative start counts from the end. */
  function Slice(s: string, start: int): (r: string)
    ensures start < 0 ==> r == s[if |s| + start < 0 then 0 else |s| + start..]
    ensures start >= 0 ==> r == s[if start < |s| then start else |s|..]
  {
    var from := if start < 0 then (if |s| + start < 0 then 0 else |s| + start)
                else (if start < |s| then start else |s|);
    s[from..]
  }

  function DigitChar(d: nat): (c: char)
    requires d < 10
  {
    "0123456789"[d]
  }

  predicate IsDigit(c: char)
  {
    '0' <= c <= '9'
  }

  predicate AllDigits(s: string)
  {
    forall i :: 0 <= i < |s| ==> IsDigit(s[i])
  }

  /** `n.toString()` for a non-negative integer: its decimal digits, no leading zero. */
  function NatToString(n: nat): (s: string)
    ensures |s| > 0 && AllDigits(s)
    ensures n >= 10 ==> s[0] != '0'
    decreases n
  {
    if n < 10 then [DigitChar(n)] else NatToString(n / 10) + [DigitChar(n % 10)]
  }

  /** The number of decimal digits of `n` is exactly `k` when `10^(k-1) <= n < 10^k`. */
  lemma {:induction false} NatToStringLength(n: nat, k: nat, p: nat)
    requires k >= 1 && p == Pow10(k - 1)
    requires (k == 1 || p <= n) && n < 10 * p
    ensures |NatToString(n)| == k
    decreases k
  {
    if k > 1 {
      Pow10Positive(k - 2);
      assert Pow10(k - 1) == 10 * Pow10(k - 2);
      NatToStringLength(n / 10, k - 1, Pow10(k - 2));
    }
  }

  function Pow10(k: nat): nat
  {
    if k == 0 then 1 else 10 * Pow10(k - 1)
  }

  lemma {:induction false} Pow10Positive(k: nat)
    ensures Pow10(k) >= 1
  {
    if k > 0 {
      Pow10Positive(k - 1);
    }
  }
}

/** What a route handler answers: an HTTP status code and the message of its JSON body. */
module Http {

  datatype Response = Response(status: nat, message: string)

  const OK := 200
  const CREATED := 201
  const BAD_REQUEST := 400
  const FORBIDDEN := 403
  const NOT_FOUND := 404
  const SERVER_ERROR := 500
}
