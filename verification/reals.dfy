/** Facts about products and quotients of reals that the models use by name. */
module Reals {

  /** A product under a name, for arguments that are not plain variables. */
  function Times(a: real, b: real): real {
    a * b
  }

  lemma TimesPos(a: real, b: real)
    requires a > 0.0 && b > 0.0
    ensures Times(a, b) > 0.0
  {
  }

  lemma TimesNonNeg(a: real, b: real)
    requires a >= 0.0 && b >= 0.0
    ensures Times(a, b) >= 0.0
  {
  }

  lemma MulPos(a: real, b: real)
    requires a > 0.0 && b > 0.0
    ensures a * b > 0.0
  {
  }

  function Sq(x: real): real {
    x * x
  }

  lemma SquarePos(x: real)
    ensures Sq(x) >= 0.0
    ensures x != 0.0 ==> Sq(x) > 0.0
  {
    if x > 0.0 {
      calc { Sq(x); == x * x; > { MulPos(x, x); } 0.0; }
    } else if x < 0.0 {
      var y := -x;
      calc { Sq(x); == x * x; == y * y; > { MulPos(y, y); } 0.0; }
    }
  }

  lemma MulLess(a: real, b: real, c: real)
    requires a < b && c > 0.0
    ensures a * c < b * c
  {
    MulPos(b - a, c);
    assert (b - a) * c == b * c - a * c;
  }

  lemma MulSign(x: real, n: real)
    requires n > 0.0
    ensures x * n <= 0.0 <==> x <= 0.0
    ensures x * n > 0.0 <==> x > 0.0
  {
    if x > 0.0 {
      MulPos(x, n);
    } else if x < 0.0 {
      MulPos(-x, n);
      assert (-x) * n == -(x * n);
    }
  }
}
