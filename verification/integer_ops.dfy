/** The integer-only operations of the math menu: `factorial` and `remainder_op`.
    Both report an error through an in-band value (0), which the math handler
    turns into "no value". */
module IntegerOps {
  import opened Machine

  /** Mathematical factorial. */
  function Fact(n: nat): nat {
    if n == 0 then 1 else n * Fact(n - 1)
  }

  /** Largest argument the calculator accepts, so that n! fits `unsigned long long`. */
  const FactorialLimit: nat := 20

  lemma ScaleAtLeast(a: int, b: nat)
    requires a >= 1
    ensures a * b >= b
  {
    assert a * b == b + (a - 1) * b;
  }

  lemma {:induction false} FactMonotone(j: nat, k: nat)
    requires j <= k
    ensures 1 <= Fact(j) <= Fact(k)
    decreases k
  {
    if k > 0 {
      FactMonotone(if j < k then j else k - 1, k - 1);
      ScaleAtLeast(k, Fact(k - 1));
    }
  }

  lemma Fact20()
    ensures Fact(20) == 2_432_902_008_176_640_000
  {
    assert Fact(1) == 1;
    assert Fact(2) == 2;
    assert Fact(3) == 6;
    assert Fact(4) == 24;
    assert Fact(5) == 120;
    assert Fact(6) == 720;
    assert Fact(7) == 5_040;
    assert Fact(8) == 40_320;
    assert Fact(9) == 362_880;
    assert Fact(10) == 3_628_800;
    assert Fact(11) == 39_916_800;
    assert Fact(12) == 479_001_600;
    assert Fact(13) == 6_227_020_800;
    assert Fact(14) == 87_178_291_200;
    assert Fact(15) == 1_307_674_368_000;
    assert Fact(16) == 20_922_789_888_000;
    assert Fact(17) == 355_687_428_096_000;
    assert Fact(18) == 6_402_373_705_728_000;
    assert Fact(19) == 121_645_100_408_832_000;
  }

  /** Every factorial the calculator computes is representable in 64 unsigned bits. */
  lemma FactFitsU64(n: nat)
    requires n <= FactorialLimit
    ensures 1 <= Fact(n) < U64Modulus
  {
    FactMonotone(n, 20);
    Fact20();
  }

  /** The C loop `for (i = 1; i <= n; i++) result *= i;` on an `unsigned long long`
      accumulator, whose products wrap modulo 2^64. `acc` holds (i-1)! on entry. */
  function ProductLoop(i: nat, n: nat, acc: nat): (r: nat)
    requires 1 <= i <= n + 1 && n <= FactorialLimit
    requires acc == Fact(i - 1)
    ensures r == Fact(n)
    decreases n + 1 - i
  {
    if i > n then acc
    else
      FactFitsU64(i);
      ProductLoop(i + 1, n, (acc * i) % U64Modulus)
  }

  /** `factorial(n)`: 0 signals an argument outside 0..20; every other result is n!,
      at least 1 and below 2^64, so the error value cannot be confused with a result. */
  function Factorial(n: int): (r: nat)
    ensures r == 0 <==> n < 0 || n > FactorialLimit
    ensures 0 <= n <= FactorialLimit ==> r == Fact(n)
    ensures r < U64Modulus
  {
    if n < 0 then 0
    else if n > FactorialLimit then 0
    else if n == 0 then 1
    else
      FactFitsU64(n);
      ProductLoop(1, n, 1)
  }

  /** C99 integer `/`: the quotient truncated toward zero. */
  function TruncDiv(a: int, b: int): int
    requires b != 0
  {
    var q := Abs(a) / Abs(b);
    if (a < 0) == (b < 0) then q else -q
  }

  /** The one `long long` remainder C leaves undefined: LLONG_MIN % -1 overflows. */
  predicate RemainderOverflows(a: int, b: int) {
    a == Int64Min && b == -1
  }

  /** `remainder_op(a, b)`: the C99 `%` (the remainder takes the sign of the dividend),
      and 0 when `b` is 0. */
  function RemainderOp(a: int64, b: int64): (r: int64)
    requires !RemainderOverflows(a, b)
    ensures b == 0 ==> r == 0
    ensures b != 0 ==> a == TruncDiv(a, b) * b + r
    ensures b != 0 ==> Abs(r) < Abs(b)
    ensures r == 0 || (r < 0 <==> a < 0)
  {
    if b == 0 then 0
    else
      var m := Abs(a) % Abs(b);
      if a < 0 then -m else m
  }

  lemma MulAbsBound(k: int, b: int)
    requires k != 0 && b != 0
    ensures Abs(k * b) >= Abs(b)
  {
    if k > 0 && b > 0 {
      assert k * b >= b;
    } else if k > 0 && b < 0 {
      assert k * b <= b;
    } else if k < 0 && b > 0 {
      assert k * b <= -b;
    } else {
      assert k * b >= -b;
    }
  }

  /** Two remainders that are each smaller than the divisor and share a sign are
      closer together than the divisor. */
  lemma SameSignRemaindersClose(r0: int, r: int, b: int)
    requires Abs(r0) < Abs(b) && Abs(r) < Abs(b)
    requires (r0 >= 0 && r >= 0) || (r0 <= 0 && r <= 0)
    ensures Abs(r0 - r) < Abs(b)
  {
  }

  /** Truncated division and its remainder are the only quotient/remainder pair whose
      remainder is smaller than the divisor and carries the dividend's sign. */
  lemma RemainderIsUnique(a: int64, b: int64, q: int, r: int)
    requires b != 0 && !RemainderOverflows(a, b)
    requires a == q * b + r
    requires Abs(r) < Abs(b)
    requires r == 0 || (r < 0 <==> a < 0)
    ensures r == RemainderOp(a, b)
    ensures q == TruncDiv(a, b)
  {
    var r0 := RemainderOp(a, b);
    var q0 := TruncDiv(a, b);
    assert a == q0 * b + r0;
    SameSignRemaindersClose(r0, r, b);
    if q != q0 {
      Distribute(q, q0, b);
      MulAbsBound(q - q0, b);
      assert false;
    }
  }

  /** Multiplication distributes over the quotients' difference. */
  lemma Distribute(q: int, q0: int, b: int)
    ensures (q - q0) * b == q * b - q0 * b
  {
  }
}
