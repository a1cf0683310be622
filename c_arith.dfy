/** The C integer arithmetic that the scan strategies depend on: `size_t`
    subtraction, which wraps modulo 2^64, and increments of a signed 8-bit
    `char`, which wrap from 127 to -128 on two's-complement targets. */
module CArith {

  /** `size_t` values are taken modulo 2^64. */
  const SIZE_MOD: int := 0x1_0000_0000_0000_0000

  /** The largest `unsigned int`: the bound on the buffer length. */
  const UINT_MAX: int := 0xFFFF_FFFF

  /** `a - b` on `size_t` operands. */
  function SizeSub(a: nat, b: nat): (r: nat)
    requires a < SIZE_MOD && b < SIZE_MOD
    ensures r < SIZE_MOD
    ensures b <= a ==> r == a - b
    ensures a < b ==> r == a - b + SIZE_MOD
  {
    (a - b) % SIZE_MOD
  }

  /** The outer-loop limit `length - (plen - 1)` of the nested-loop matchers:
      `length` is an `unsigned int` promoted to `size_t`, `plen` the `size_t`
      that `strlen` returns. It is the number of start offsets exactly when
      `plen <= length + 1`; for a longer pattern it wraps past `length`, so the
      loop would reach `i == length` and read beyond the buffer. */
  function OuterLimit(length: nat, plen: nat): (r: nat)
    requires length <= UINT_MAX && plen < SIZE_MOD
    ensures plen <= length + 1 ==> r == length + 1 - plen
    ensures plen > length + 1 ==> r > length
  {
    SizeSub(length, SizeSub(plen, 1))
  }

  /** Conversion of an `int` to a signed 8-bit `char`, as two's-complement
      compilers do it: the value is reduced modulo 256 into [-128, 127]. */
  function ToChar(n: int): (c: int)
    ensures -128 <= c <= 127
    ensures -128 <= n <= 127 ==> c == n
  {
    (n + 128) % 256 - 128
  }

  /** The converted value differs from the original by a multiple of 256. */
  lemma ToCharCongruent(n: int)
    ensures (n - ToChar(n)) % 256 == 0
  {
  }

  /** `c++` on a signed `char` lane. */
  function CharInc(c: int): (r: int)
    requires -128 <= c <= 127
    ensures r == ToChar(c + 1)
  {
    if c == 127 then -128 else c + 1
  }

  /** Incrementing a lane that holds the wrapped count `n` gives the wrapped
      count `n + 1`: a lane incremented `n` times from 0 holds `ToChar(n)`. */
  lemma ToCharStep(n: int)
    ensures CharInc(ToChar(n)) == ToChar(n + 1)
  {
  }
}
