/** The 64-bit counter width, and facts about multiplication and division of
    natural numbers that the counting arguments of the loader use. */
module NatArith {

  /** 2^64: the loader keeps its counts and counters in uint64_t / size_t. */
  const U64: nat := 0x1_0000_0000_0000_0000

  lemma MulMonotone(a: int, b: int, d: nat)
    ensures a <= b ==> a * d <= b * d
  {
  }

  lemma DivUnique(a: nat, d: nat, q: nat)
    requires d > 0 && q * d <= a < q * d + d
    ensures a / d == q
  {
    var q', r := a / d, a % d;
    assert a == q' * d + r && 0 <= r < d;
    assert (q' + 1) * d == q' * d + d;
    assert (q + 1) * d == q * d + d;
    MulMonotone(q' + 1, q, d);
    MulMonotone(q + 1, q', d);
  }

  lemma DivMonotone(a: nat, b: nat, d: nat)
    requires a <= b && d > 0
    ensures a / d <= b / d
  {
    var qa, qb := a / d, b / d;
    assert qa * d + a % d == a && qb * d + b % d == b;
    assert (qb + 1) * d == qb * d + d;
    MulMonotone(qb + 1, qa, d);
  }

  /** A whole multiple of `d` that fits in `len` is at most `len / d` of them. */
  lemma MulLeDiv(a: nat, d: nat, len: nat)
    requires d > 0 && a * d <= len
    ensures a <= len / d
  {
    var q := len / d;
    assert q * d + len % d == len;
    assert (q + 1) * d == q * d + d;
    MulMonotone(q + 1, a, d);
  }

  /** The remainder of `a` by `d`, by repeated subtraction; it agrees with
      `a % d` (see RemainderIsMod) but keeps the division out of the
      definitions that use it. */
  function Remainder(a: nat, d: nat): (r: nat)
    requires d > 0
    ensures r < d
    decreases a
  {
    if a < d then a else Remainder(a - d, d)
  }

  lemma {:induction false} RemainderIsMod(a: nat, d: nat)
    requires d > 0
    ensures Remainder(a, d) == a % d
  {
    if a >= d {
      RemainderIsMod(a - d, d);
      var q, r := (a - d) / d, (a - d) % d;
      assert a - d == q * d + r;
      assert (q + 1) * d == q * d + d;
      DivUnique(a, d, q + 1);
      assert a == (a / d) * d + a % d;
    }
  }
}
