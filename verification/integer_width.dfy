/** Bit lengths, powers, and Python's floor division and modulo on unbounded integers. */
module IntegerWidth {

  function Abs(n: int): nat {
    if n < 0 then -n else n
  }

  /** `n.bit_length()` of a non-negative integer. */
  function Bits(n: nat): nat {
    if n == 0 then 0 else 1 + Bits(n / 2)
  }

  /** `n.bit_length()`. */
  function Width(n: int): nat {
    Bits(Abs(n))
  }

  function Pow2(k: nat): (p: nat)
    ensures p > 0
  {
    if k == 0 then 1 else 2 * Pow2(k - 1)
  }

  /** `a ** b` for `b >= 0`. */
  function IntPow(a: int, b: nat): int {
    if b == 0 then 1 else a * IntPow(a, b - 1)
  }

  /** `a // b`: rounded towards negative infinity. */
  function FloorDiv(a: int, b: int): int
    requires b != 0
  {
    if b > 0 then a / b else (-a) / (-b)
  }

  /** `a % b`: what the floor division leaves. */
  function FloorMod(a: int, b: int): int
    requires b != 0
  {
    a - b * FloorDiv(a, b)
  }

  lemma {:induction false} BitsFit(n: nat, k: nat)
    ensures Bits(n) <= k <==> n < Pow2(k)
  {
    if n == 0 {
    } else if k == 0 {
    } else {
      BitsFit(n / 2, k - 1);
      assert n / 2 < Pow2(k - 1) <==> n < 2 * Pow2(k - 1);
    }
  }

  lemma Pow2Double(k: nat)
    ensures Pow2(k + 1) == 2 * Pow2(k)
  {
  }

  lemma MulAssoc(a: int, b: int, c: int)
    ensures a * (b * c) == (a * b) * c
  {
  }

  lemma {:induction false} Pow2Add(i: nat, j: nat)
    ensures Pow2(i + j) == Pow2(i) * Pow2(j)
  {
    if i > 0 {
      Pow2Add(i - 1, j);
      Pow2Double(i - 1);
      Pow2Double(i - 1 + j);
      assert i - 1 + j + 1 == i + j;
      hide Pow2;
      MulAssoc(2, Pow2(i - 1), Pow2(j));
    }
  }

  lemma MulMono(a: nat, b: nat, c: nat, d: nat)
    requires a <= c && b <= d
    ensures a * b <= c * d
  {
    assert a * b <= c * b;
    assert c * b <= c * d;
  }

  lemma AbsMul(a: int, b: int)
    ensures Abs(a * b) == Abs(a) * Abs(b)
  {
    if a < 0 { MulNeg(a, b); }
    if b < 0 { MulNeg(b, a); }
    SignOfMul(a, b);
  }

  lemma MulNeg(a: int, b: int)
    ensures (-a) * b == -(a * b) && b * (-a) == -(a * b)
  {
  }

  lemma SignOfMul(a: int, b: int)
    ensures a >= 0 && b >= 0 ==> a * b >= 0
    ensures a <= 0 && b >= 0 ==> a * b <= 0
    ensures a >= 0 && b <= 0 ==> a * b <= 0
    ensures a <= 0 && b <= 0 ==> a * b >= 0
  {
  }

  /** A product is about as wide as its factors together. */
  lemma ProductWidth(a: int, b: int)
    ensures Width(a * b) <= Width(a) + Width(b)
    ensures a != 0 && b != 0 ==> Width(a * b) >= Width(a) + Width(b) - 1
  {
    var x, y := Abs(a), Abs(b);
    var i, j := Bits(x), Bits(y);
    AbsMul(a, b);
    BitsFit(x, i);
    BitsFit(y, j);
    Pow2Add(i, j);
    hide Pow2, Bits;
    if x == 0 || y == 0 {
      assert x * y == 0;
      BitsFit(0, i + j);
    } else {
      StrictMono(x, y, Pow2(i), Pow2(j));
      BitsFit(x * y, i + j);
      AtLeast(x, y);
    }
  }

  lemma StrictMono(x: nat, y: nat, p: nat, q: nat)
    requires x < p && y < q
    ensures x * y < p * q
  {
    MulMono(x, y, p - 1, q - 1);
    assert (p - 1) * (q - 1) == p * q - p - q + 1;
  }

  lemma AtLeast(x: nat, y: nat)
    requires x > 0 && y > 0
    ensures Bits(x * y) >= Bits(x) + Bits(y) - 1
  {
    var i, j := Bits(x) - 1, Bits(y) - 1;
    BitsFit(x, i);
    BitsFit(y, j);
    Pow2Add(i, j);
    MulMono(Pow2(i), Pow2(j), x, y);
    BitsFit(x * y, i + j);
  }

  lemma SumWidth(a: int, b: int, k: nat)
    requires Width(a) <= k && Width(b) <= k
    ensures Width(a + b) <= k + 1 && Width(a - b) <= k + 1
  {
    BitsFit(Abs(a), k);
    BitsFit(Abs(b), k);
    BitsFit(Abs(a + b), k + 1);
    BitsFit(Abs(a - b), k + 1);
    assert Pow2(k + 1) == 2 * Pow2(k);
  }

  lemma AbsLeWidth(a: int, b: int)
    requires Abs(a) <= Abs(b)
    ensures Width(a) <= Width(b)
  {
    BitsFit(Abs(a), Width(b));
    BitsFit(Abs(b), Width(b));
  }

  /** The size estimate made before a power is computed bounds it. */
  lemma {:induction false} PowerWidth(a: int, b: nat)
    ensures Abs(IntPow(a, b)) <= Pow2(b * Width(a))
    ensures Width(IntPow(a, b)) <= b * Width(a) + 1
  {
    var w := Width(a);
    hide Pow2, Bits;
    if b == 0 {
      assert 0 * w == 0;
    } else {
      var rest, e := IntPow(a, b - 1), (b - 1) * w;
      PowerWidth(a, b - 1);
      AbsMul(a, rest);
      hide Abs, IntPow;
      BitsFit(Abs(a), w);
      MulMono(Abs(a), Abs(rest), Pow2(w), Pow2(e));
      assert b * w == w + e;
      Pow2Add(w, e);
    }
    BitsFit(Abs(IntPow(a, b)), b * w + 1);
    Pow2Double(b * w);
  }

  /** And it is nearly that wide: at least one bit more than as many bits as the leading one alone gives. */
  lemma {:induction false} PowerWidthAtLeast(a: int, b: nat)
    requires a != 0
    ensures Abs(IntPow(a, b)) >= Pow2(b * (Width(a) - 1))
    ensures Width(IntPow(a, b)) >= b * (Width(a) - 1) + 1
  {
    assert Bits(Abs(a)) > 0;
    var k := Width(a) - 1;
    assert Pow2(0) == 1;
    hide Pow2, Bits;
    if b == 0 {
      assert 0 * k == 0;
    } else {
      var rest, e := IntPow(a, b - 1), (b - 1) * k;
      PowerWidthAtLeast(a, b - 1);
      AbsMul(a, rest);
      BitsFit(Abs(a), k);
      hide Abs, IntPow;
      MulMono(Pow2(k), Pow2(e), Abs(a), Abs(rest));
      assert b * k == k + e;
      Pow2Add(k, e);
    }
    hide IntPow;
    BitsFit(Abs(IntPow(a, b)), b * k);
  }

  lemma {:induction false} PowerOfPow2(k: nat, b: nat)
    ensures IntPow(Pow2(k), b) == Pow2(b * k)
  {
    if b == 0 {
      assert 0 * k == 0;
    } else {
      PowerOfPow2(k, b - 1);
      Pow2Add(k, (b - 1) * k);
      assert b * k == k + (b - 1) * k;
      hide Pow2;
    }
  }

  lemma Pow2Width(k: nat)
    ensures Width(Pow2(k)) == k + 1
  {
    BitsFit(Pow2(k), k);
    BitsFit(Pow2(k), k + 1);
    Pow2Double(k);
    hide Pow2, Bits;
  }

  lemma {:induction false} UnitPower(a: int, b: nat)
    requires Abs(a) <= 1
    ensures Abs(IntPow(a, b)) <= 1
  {
    if b > 0 {
      UnitPower(a, b - 1);
      AbsMul(a, IntPow(a, b - 1));
      MulMono(Abs(a), Abs(IntPow(a, b - 1)), 1, 1);
    }
  }

  /** What Python promises of floor division and modulo: the remainder has the divisor's sign and is
      smaller than it, and these determine both. */
  lemma FloorDivMod(a: int, b: int)
    requires b != 0
    ensures a == b * FloorDiv(a, b) + FloorMod(a, b)
    ensures if b > 0 then 0 <= FloorMod(a, b) < b else b < FloorMod(a, b) <= 0
  {
    if b < 0 {
      var q := (-a) / (-b);
      assert -a == (-b) * q + (-a) % (-b);
      MulNeg(b, q);
    }
  }

  lemma FloorDivUnique(a: int, b: int, q: int, r: int)
    requires b != 0 && a == b * q + r && (if b > 0 then 0 <= r < b else b < r <= 0)
    ensures q == FloorDiv(a, b) && r == FloorMod(a, b)
  {
    FloorDivMod(a, b);
    var p, s := FloorDiv(a, b), FloorMod(a, b);
    hide FloorDiv, FloorMod;
    assert b * q - b * p == s - r;
    SameQuotient(b, q, p, s - r);
  }

  lemma SameQuotient(b: int, q: int, p: int, d: int)
    requires b != 0 && b * q - b * p == d && Abs(d) < Abs(b)
    ensures q == p && d == 0
  {
    var k := q - p;
    assert b * k == b * q - b * p;
    AbsMul(b, k);
    if k != 0 { MulMono(Abs(b), 1, Abs(b), Abs(k)); }
  }

  /** Neither is larger than its operands. */
  lemma FloorWidths(a: int, b: int)
    requires b != 0
    ensures Abs(FloorDiv(a, b)) <= Abs(a) && Abs(FloorMod(a, b)) <= Abs(b)
  {
    FloorDivMod(a, b);
    var x, d := if b > 0 then a else -a, Abs(b);
    QuotientBound(x, d);
  }

  lemma QuotientBound(x: int, d: nat)
    requires d > 0
    ensures Abs(x / d) <= Abs(x)
  {
    var q := x / d;
    assert x == d * q + x % d;
    if q > 0 {
      MulMono(1, q, d, q);
    } else if q < 0 {
      // d * q > x - d, so d * (-q - 1) < -x
      var m := -q - 1;
      MulMono(1, m, d, m);
      assert d * (-q) == d * m + d;
      MulNeg(q, d);
    }
  }
}
