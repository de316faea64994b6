/**
 The position filter `_Kalman2D` of `gps_node.py`, over exact reals and with numpy present.

 The 4x4 and 4x2 matrices of the program are kept as 2x2 blocks; the products below are the
 block forms of the matrix products it writes.
 */
module Kalman {
  import opened Common
  import opened Reals

  // ---------- Matrices by 2x2 blocks ----------

  datatype V2 = V2(x: real, y: real)
  datatype M2 = M2(a: real, b: real, c: real, d: real)
  datatype V4 = V4(n: V2, s: V2)
  datatype M44 = M44(nw: M2, ne: M2, sw: M2, se: M2)
  datatype M42 = M42(n: M2, s: M2)
  datatype M24 = M24(w: M2, e: M2)

  function Add(m: M2, k: M2): M2 { M2(m.a + k.a, m.b + k.b, m.c + k.c, m.d + k.d) }
  function Neg(m: M2): M2 { M2(-m.a, -m.b, -m.c, -m.d) }
  function Mul(m: M2, k: M2): M2 {
    M2(m.a * k.a + m.b * k.c, m.a * k.b + m.b * k.d, m.c * k.a + m.d * k.c, m.c * k.b + m.d * k.d)
  }
  function Transpose(m: M2): M2 { M2(m.a, m.c, m.b, m.d) }
  function Scal(x: real): M2 { M2(x, 0.0, 0.0, x) }
  function Apply(m: M2, v: V2): V2 { V2(m.a * v.x + m.b * v.y, m.c * v.x + m.d * v.y) }
  function AddV(u: V2, v: V2): V2 { V2(u.x + v.x, u.y + v.y) }
  function Det(m: M2): real { m.a * m.d - m.b * m.c }

  /** `np.linalg.inv` of a 2x2 matrix. */
  function Inverse(m: M2): M2
    requires Det(m) != 0.0
  {
    M2(m.d / Det(m), -m.b / Det(m), -m.c / Det(m), m.a / Det(m))
  }

  function Add44(p: M44, k: M44): M44 {
    M44(Add(p.nw, k.nw), Add(p.ne, k.ne), Add(p.sw, k.sw), Add(p.se, k.se))
  }
  function Mul44(p: M44, k: M44): M44 {
    M44(Add(Mul(p.nw, k.nw), Mul(p.ne, k.sw)), Add(Mul(p.nw, k.ne), Mul(p.ne, k.se)),
        Add(Mul(p.sw, k.nw), Mul(p.se, k.sw)), Add(Mul(p.sw, k.ne), Mul(p.se, k.se)))
  }
  function Transpose44(p: M44): M44 {
    M44(Transpose(p.nw), Transpose(p.sw), Transpose(p.ne), Transpose(p.se))
  }
  function Apply44(p: M44, v: V4): V4 {
    V4(AddV(Apply(p.nw, v.n), Apply(p.ne, v.s)), AddV(Apply(p.sw, v.n), Apply(p.se, v.s)))
  }
  function TimesMeasured(p: M44, h: M42): M42 {      // 4x4 by 4x2
    M42(Add(Mul(p.nw, h.n), Mul(p.ne, h.s)), Add(Mul(p.sw, h.n), Mul(p.se, h.s)))
  }
  function MeasuredTimes(h: M24, p: M44): M24 {      // 2x4 by 4x4
    M24(Add(Mul(h.w, p.nw), Mul(h.e, p.sw)), Add(Mul(h.w, p.ne), Mul(h.e, p.se)))
  }
  function Inner(h: M24, k: M42): M2 { Add(Mul(h.w, k.n), Mul(h.e, k.s)) }
  function Outer(k: M42, h: M24): M44 { M44(Mul(k.n, h.w), Mul(k.n, h.e), Mul(k.s, h.w), Mul(k.s, h.e)) }

  const I2 := Scal(1.0)
  const Z2 := Scal(0.0)
  const I44 := M44(I2, Z2, Z2, I2)
  const H := M24(I2, Z2)
  const HT := M42(I2, Z2)

  // ---------- The filter's constants ----------

  datatype Fix = Fix3D | Dgps | Fix2D | GnssDr | ModuleDr | SelfDr | OtherFix

  /** Measurement noise variance by fix type. */
  function Noise(fix: Fix): (r: real)
    ensures r > 0.0
  {
    match fix
    case Fix3D => 0.000000004
    case Dgps => 0.000000002
    case Fix2D => 0.000000015
    case GnssDr => 0.00000003
    case ModuleDr => 0.00000007
    case SelfDr => 0.0000002
    case OtherFix => 0.00000005
  }

  const PROCESS_NOISE: real := 0.0000000001

  function Transition(dt: real): M44 { M44(I2, Scal(dt), Z2, I2) }

  function ProcessNoise(q: real, dt: real): M44 {
    M44(Scal(q * (dt * dt * dt * dt / 4.0)), Scal(q * (dt * dt * dt / 2.0)),
        Scal(q * (dt * dt * dt / 2.0)), Scal(q * (dt * dt)))
  }

  // ---------- The filter's steps ----------

  /** `x`, `P`, `_t` and `_ok`. */
  datatype State = State(x: V4, p: M44, t: real, ok: bool)

  function Position(s: State): V2 { s.x.n }

  function ResetTo(lat: real, lon: real, now: real): State {
    State(V4(V2(lat, lon), V2(0.0, 0.0)), M44(Scal(0.000001), Z2, Z2, Scal(0.000001)), now, true)
  }

  function Clamp(x: real, lo: real, hi: real): real {
    if x < lo then lo else if x > hi then hi else x
  }

  function PredictedState(s: State, dt: real): V4 { Apply44(Transition(dt), s.x) }

  function PredictedCovariance(p: M44, dt: real): M44 {
    Add44(Mul44(Mul44(Transition(dt), p), Transpose44(Transition(dt))), ProcessNoise(PROCESS_NOISE, dt))
  }

  function Innovation(pp: M44, r: real): M2 { Add(Inner(MeasuredTimes(H, pp), HT), Scal(r)) }

  function Gain(pp: M44, r: real): M42
    requires Det(Innovation(pp, r)) != 0.0
  {
    var k := TimesMeasured(pp, HT);
    M42(Mul(k.n, Inverse(Innovation(pp, r))), Mul(k.s, Inverse(Innovation(pp, r))))
  }

  function Corrected(xp: V4, k: M42, z: V2): V4 {
    var seen := AddV(Apply(H.w, xp.n), Apply(H.e, xp.s));
    var y := V2(z.x - seen.x, z.y - seen.y);
    V4(AddV(xp.n, Apply(k.n, y)), AddV(xp.s, Apply(k.s, y)))
  }

  function CorrectedCovariance(pp: M44, k: M42): M44 {
    var kh := Outer(k, H);
    Mul44(Add44(I44, M44(Neg(kh.nw), Neg(kh.ne), Neg(kh.sw), Neg(kh.se))), pp)
  }

  /** The covariance is two equal, symmetric, positive definite 2x2 blocks: one for latitude and
      its speed, one for longitude and its speed, with nothing between them. */
  predicate TwoBlocks(p: M44) {
    && p == Blocks(p.nw.a, p.ne.a, p.se.a)
    && Definite(p.nw.a, p.ne.a, p.se.a)
  }

  function Blocks(p: real, c: real, v: real): M44 {
    M44(Scal(p), Scal(c), Scal(c), Scal(v))
  }

  /** The symmetric matrix with diagonal `p`, `v` and corner `c` is positive definite. */
  predicate Definite(p: real, c: real, v: real) {
    p > 0.0 && p * v - c * c > 0.0
  }

  lemma DefiniteDiagonal(p: real, c: real, v: real)
    requires Definite(p, c, v)
    ensures v > 0.0
  {
    SquarePos(c);
    assert p * v > 0.0 by { assert Sq(c) == c * c; }
    MulSign(v, p);
    assert v * p == p * v;
  }

  function Form(p: real, c: real, v: real, y: real, w: real): real {
    p * (y * y) + 2.0 * c * (y * w) + v * (w * w)
  }

  lemma DefiniteForm(p: real, c: real, v: real, y: real, w: real)
    requires Definite(p, c, v) && (y != 0.0 || w != 0.0)
    ensures Form(p, c, v, y, w) > 0.0
  {
    var f := Form(p, c, v, y, w);
    var d := p * v - c * c;
    calc {
      p * f;
    ==
      (p * y + c * w) * (p * y + c * w) + d * (w * w);
    ==
      Sq(p * y + c * w) + d * Sq(w);
    }
    SquarePos(p * y + c * w);
    SquarePos(w);
    if w != 0.0 {
      MulPos(d, Sq(w));
    } else {
      assert p * y + c * w == p * y;
      MulSign(y, p);
      assert p * y != 0.0;
      assert d * Sq(w) == 0.0 by { assert Sq(w) == 0.0; }
    }
    hide Sq, Form;
    assert p * f > 0.0;
    MulSign(f, p);
    assert f * p == p * f;
  }

  /** The test on the entries is exactly positive definiteness: no direction has zero or
      negative variance. */
  lemma DefiniteIsPositiveForm(p: real, c: real, v: real)
    ensures Definite(p, c, v) <==> forall y, w :: y != 0.0 || w != 0.0 ==> Form(p, c, v, y, w) > 0.0
  {
    if Definite(p, c, v) {
      forall y, w | y != 0.0 || w != 0.0
        ensures Form(p, c, v, y, w) > 0.0
      {
        DefiniteForm(p, c, v, y, w);
      }
    }
    if forall y, w :: y != 0.0 || w != 0.0 ==> Form(p, c, v, y, w) > 0.0 {
      assert Form(p, c, v, 1.0, 0.0) == p;
      var d := p * v - c * c;
      assert Form(p, c, v, -c, p) == p * d;
      MulSign(d, p);
      assert d * p == p * d;
    }
  }

  // ---------- One axis of an update ----------

  /** The motion model carries an axis block to one with the same determinant. */
  lemma MotionKeepsDefinite(p: real, c: real, v: real, dt: real)
    requires Definite(p, c, v)
    ensures Definite(Moved(p, c, v, dt), Corner(c, v, dt), v)
  {
    var pa, ca := Moved(p, c, v, dt), Corner(c, v, dt);
    DefiniteDiagonal(p, c, v);
    assert pa * v - ca * ca == p * v - c * c;
    SquarePos(ca);
    assert pa * v > 0.0 by { assert Sq(ca) == ca * ca; }
    MulSign(pa, v);
  }

  /** Noise along one direction (g, h) keeps an axis block positive definite. */
  lemma NoiseKeepsDefinite(p: real, c: real, v: real, q: real, g: real, h: real)
    requires Definite(p, c, v) && q >= 0.0
    ensures Definite(p + q * (g * g), c + q * (g * h), v + q * (h * h))
  {
    var p', c', v' := p + q * (g * g), c + q * (g * h), v + q * (h * h);
    SquarePos(g);
    assert q * (g * g) >= 0.0 by { ProductNonNeg(q, Sq(g)); }
    var form := Form(p, c, v, h, -g);
    if g != 0.0 || h != 0.0 { DefiniteForm(p, c, v, h, -g); } else { assert form == 0.0; }
    ProductNonNeg(q, form);
    NoiseDeterminant(p, c, v, q, Sq(g), g * h, Sq(h));
    assert Sq(g) * Sq(h) == (g * h) * (g * h);
    assert form == p * Sq(h) + v * Sq(g) - 2.0 * c * (g * h);
  }

  lemma NoiseDeterminant(p: real, c: real, v: real, q: real, gg: real, gh: real, hh: real)
    ensures (p + q * gg) * (v + q * hh) - (c + q * gh) * (c + q * gh)
         == p * v - c * c + q * (p * hh + v * gg - 2.0 * c * gh) + q * q * (gg * hh - gh * gh)
  {
  }

  lemma ProductNonNeg(a: real, b: real)
    requires a >= 0.0 && b >= 0.0
    ensures a * b >= 0.0
  {
  }

  /** The gains `k`, `l` of a measurement with variance `r`, and what is left of the prediction. */
  predicate Gains(p: real, c: real, r: real, k: real, l: real, left: real, turn: real)
    requires p + r != 0.0
  {
    k == p / (p + r) && l == c / (p + r) && left == 1.0 - k && turn == -l
  }

  /** Measuring scales position variance and corner by r / (p + r), brings the position variance
      below `r`, and keeps the block symmetric and positive definite. */
  lemma MeasureKeepsDefinite(p: real, c: real, v: real, r: real, k: real, l: real, left: real, turn: real)
    requires Definite(p, c, v) && r > 0.0 && Gains(p, c, r, k, l, left, turn)
    ensures 0.0 < k < 1.0 && left * p < r
    ensures Definite(left * p, left * c, v + turn * c) && left * c == c + turn * p
  {
    var s := p + r;
    var w := 1.0 / s;
    assert w > 0.0;
    assert k == p * w && l == c * w && left == r * w by { assert w * s == 1.0; }
    hide Gains;
    MulPos(p, w);
    MulPos(r, w);
    MulPos(left, p);
    assert left * p < r by {
      calc {
        r - left * p;
      == { assert left * p == r * k; }
        r - r * k;
      ==
        Times(r, left);
      > { TimesPos(r, left); }
        0.0;
      }
    }
    MeasureCorner(p, c, w, left, turn);
    MulPos(left, p * v - c * c);
    MeasureDeterminant(p, c, v, left, turn, w);
  }

  lemma MeasureCorner(p: real, c: real, w: real, left: real, turn: real)
    requires left == 1.0 - p * w && turn == -(c * w)
    ensures left * c == c + turn * p
  {
  }

  lemma MeasureDeterminant(p: real, c: real, v: real, left: real, turn: real, w: real)
    requires left == 1.0 - p * w && turn == -(c * w)
    ensures (left * p) * (v + turn * c) - (left * c) * (left * c) == left * (p * v - c * c)
  {
    var m := left;
    calc {
      (m * p) * (v + turn * c) - (m * c) * (m * c);
    ==
      (m * p) * (v - c * w * c) - (m * c) * (m * c);
    ==
      m * (p * v) - m * ((p * w) * (c * c)) - m * (m * (c * c));
    ==
      m * (p * v - (p * w + m) * (c * c));
    == { assert p * w + m == 1.0; }
      m * (p * v - 1.0 * (c * c));
    }
  }

  // ---------- The whole covariance ----------

  /** u' P u for a two-block covariance. */
  function Variance(p: M44, u: V4): real {
    var w := Apply44(p, u);
    u.n.x * w.n.x + u.n.y * w.n.y + u.s.x * w.s.x + u.s.y * w.s.y
  }

  /** A two-block covariance gives every direction of the state space a positive variance. */
  lemma TwoBlocksDefinite(p: M44, u: V4)
    requires TwoBlocks(p) && u != V4(V2(0.0, 0.0), V2(0.0, 0.0))
    ensures Variance(p, u) > 0.0
  {
    var a, c, v := p.nw.a, p.ne.a, p.se.a;
    VarianceSplits(a, c, v, u);
    if u.n.x != 0.0 || u.s.x != 0.0 { DefiniteForm(a, c, v, u.n.x, u.s.x); }
    if u.n.y != 0.0 || u.s.y != 0.0 { DefiniteForm(a, c, v, u.n.y, u.s.y); }
    if u.n.x == 0.0 && u.s.x == 0.0 { assert Form(a, c, v, u.n.x, u.s.x) == 0.0; assert u.n.y != 0.0 || u.s.y != 0.0; }
    if u.n.y == 0.0 && u.s.y == 0.0 { assert Form(a, c, v, u.n.y, u.s.y) == 0.0; }
  }

  lemma VarianceSplits(a: real, c: real, v: real, u: V4)
    ensures Variance(Blocks(a, c, v), u) == Form(a, c, v, u.n.x, u.s.x) + Form(a, c, v, u.n.y, u.s.y)
  {
    var x, y, dx, dy := u.n.x, u.n.y, u.s.x, u.s.y;
    assert x * (a * x + c * dx) + dx * (c * x + v * dx) == Form(a, c, v, x, dx);
    assert y * (a * y + c * dy) + dy * (c * y + v * dy) == Form(a, c, v, y, dy);
  }

  lemma MulScal(x: real, y: real)
    ensures Mul(Scal(x), Scal(y)) == Scal(x * y)
    ensures Add(Scal(x), Scal(y)) == Scal(x + y)
    ensures Transpose(Scal(x)) == Scal(x) && Neg(Scal(x)) == Scal(-x)
  {
  }

  /** A 4x4 matrix whose four blocks are multiples of the identity. */
  function Scal44(a: real, b: real, c: real, d: real): M44 {
    M44(Scal(a), Scal(b), Scal(c), Scal(d))
  }

  /** Such matrices multiply and add like 2x2 matrices of their factors. */
  lemma MulScal44(a: real, b: real, c: real, d: real, e: real, f: real, g: real, h: real)
    ensures Mul44(Scal44(a, b, c, d), Scal44(e, f, g, h))
            == Scal44(a * e + b * g, a * f + b * h, c * e + d * g, c * f + d * h)
    ensures Add44(Scal44(a, b, c, d), Scal44(e, f, g, h)) == Scal44(a + e, b + f, c + g, d + h)
    ensures Transpose44(Scal44(a, b, c, d)) == Scal44(a, c, b, d)
  {
    MulScal(a, e); MulScal(b, g); MulScal(a * e, b * g); MulScal(a, f); MulScal(b, h); MulScal(a * f, b * h);
    MulScal(c, e); MulScal(d, g); MulScal(c * e, d * g); MulScal(c, f); MulScal(d, h); MulScal(c * f, d * h);
    MulScal(b, f); MulScal(c, g);
    hide Mul, Add, Scal, Transpose;
  }

  /** Position variance after the motion model, before noise. */
  function Moved(p: real, c: real, v: real, dt: real): real {
    p + 2.0 * dt * c + dt * dt * v
  }

  function Corner(c: real, v: real, dt: real): real {
    c + dt * v
  }

  lemma MovedEntries(p: real, c: real, v: real, dt: real)
    ensures 1.0 * p + dt * c + 0.0 == p + dt * c && 1.0 * c + dt * v == Corner(c, v, dt)
    ensures (p + dt * c) * 1.0 + Corner(c, v, dt) * dt == Moved(p, c, v, dt)
    ensures c * 1.0 + v * dt == Corner(c, v, dt)
  {
  }

  lemma MotionBlocks(p: real, c: real, v: real, dt: real)
    ensures Mul44(Mul44(Transition(dt), Blocks(p, c, v)), Transpose44(Transition(dt)))
            == Blocks(Moved(p, c, v, dt), Corner(c, v, dt), v)
  {
    hide Mul, Add, Scal, Transpose, Mul44, Add44, Transpose44, Moved, Corner;
    MulScal44(1.0, dt, 0.0, 1.0, p, c, c, v);
    MulScal44(1.0, dt, 0.0, 1.0, 1.0, dt, 0.0, 1.0);
    MulScal44(p + dt * c, Corner(c, v, dt), c, v, 1.0, 0.0, dt, 1.0);
    MovedEntries(p, c, v, dt);
  }

  /** A motion step of a two-block covariance is again two blocks, with these entries. */
  lemma PredictedBlocks(p: real, c: real, v: real, dt: real, q: real, g: real)
    requires q == PROCESS_NOISE && g == dt * dt / 2.0
    ensures PredictedCovariance(Blocks(p, c, v), dt)
            == Blocks(Moved(p, c, v, dt) + q * (g * g), Corner(c, v, dt) + q * (g * dt), v + q * (dt * dt))
  {
    var m, k := Moved(p, c, v, dt), Corner(c, v, dt);
    NoiseFactors(dt, g);
    MotionBlocks(p, c, v, dt);
    hide Mul, Add, Scal, Transpose, Mul44, Add44, Transpose44, Moved, Corner;
    MulScal44(m, k, k, v, q * (g * g), q * (g * dt), q * (g * dt), q * (dt * dt));
  }

  lemma NoiseFactors(dt: real, g: real)
    requires g == dt * dt / 2.0
    ensures dt * dt * dt * dt / 4.0 == g * g && dt * dt * dt / 2.0 == g * dt
  {
  }

  lemma PredictedDefinite(p: M44, dt: real)
    requires TwoBlocks(p)
    ensures TwoBlocks(PredictedCovariance(p, dt))
  {
    hide PredictedCovariance, Definite, Moved, Corner;
    var a, c, v, q, g := p.nw.a, p.ne.a, p.se.a, PROCESS_NOISE, dt * dt / 2.0;
    PredictedBlocks(a, c, v, dt, q, g);
    MotionKeepsDefinite(a, c, v, dt);
    NoiseKeepsDefinite(Moved(a, c, v, dt), Corner(c, v, dt), v, q, g, dt);
  }

  lemma InnovationBlock(p: real, c: real, v: real, r: real)
    ensures Innovation(Blocks(p, c, v), r) == Scal(p + r)
    ensures TimesMeasured(Blocks(p, c, v), HT) == M42(Scal(p), Scal(c))
  {
    var pp := Blocks(p, c, v);
    assert MeasuredTimes(H, pp) == M24(Scal(p), Scal(c)) by {
      assert 1.0 * p == p && 1.0 * c == c && 0.0 * c == 0.0 && 0.0 * v == 0.0;
    }
    assert Inner(M24(Scal(p), Scal(c)), HT) == Scal(p);
  }

  lemma InverseScal(s: real)
    requires s != 0.0
    ensures Det(Scal(s)) != 0.0 && Inverse(Scal(s)) == Scal(1.0 / s)
  {
    SquarePos(s);
    assert Det(Scal(s)) == Sq(s);
    var w := 1.0 / s;
    assert w * s == 1.0;
    assert s / Sq(s) == w by { assert w * Sq(s) == s by { assert w * (s * s) == (w * s) * s; } }
  }

  lemma GainBlocks(p: real, c: real, v: real, r: real)
    requires p + r > 0.0
    ensures Det(Innovation(Blocks(p, c, v), r)) != 0.0
    ensures Gain(Blocks(p, c, v), r) == M42(Scal(p / (p + r)), Scal(c / (p + r)))
  {
    var s := p + r;
    var w := 1.0 / s;
    InnovationBlock(p, c, v, r);
    InverseScal(s);
    MulScal(p, w);
    MulScal(c, w);
    assert p * w == p / s && c * w == c / s;
    hide Mul, Scal, Det, Inverse, Innovation, TimesMeasured, Blocks;
  }

  lemma CorrectedBlocks(p: real, c: real, v: real, k: real, l: real, left: real, turn: real)
    requires left == 1.0 - k && turn == -l
    ensures CorrectedCovariance(Blocks(p, c, v), M42(Scal(k), Scal(l)))
            == Scal44(left * p, left * c, c + turn * p, v + turn * c)
  {
    OneMinusGain(k, l, left, turn);
    hide *;
    RemainderTimesBlocks(left, turn, p, c, v);
    CorrectedCovarianceIs(Blocks(p, c, v), M42(Scal(k), Scal(l)));
  }

  lemma CorrectedCovarianceIs(pp: M44, g: M42)
    ensures var kh := Outer(g, H);
            CorrectedCovariance(pp, g) == Mul44(Add44(I44, M44(Neg(kh.nw), Neg(kh.ne), Neg(kh.sw), Neg(kh.se))), pp)
  {
  }

  lemma RemainderTimesBlocks(left: real, turn: real, p: real, c: real, v: real)
    ensures Mul44(Scal44(left, 0.0, turn, 1.0), Blocks(p, c, v))
         == Scal44(left * p, left * c, c + turn * p, v + turn * c)
  {
    var e, f, g, h := left * p, left * c, turn * p, turn * c;
    MulScal(left, p); MulScal(left, c); MulScal(turn, p); MulScal(turn, c);
    ZeroOne(c); ZeroOne(v); ZeroOne(e); ZeroOne(f);
    MulScal(g, c); MulScal(h, v);
    hide Mul, Add, Scal;
    assert Mul44(Scal44(left, 0.0, turn, 1.0), Blocks(p, c, v))
        == M44(Scal(e), Scal(f), Scal(g + c), Scal(h + v));
  }

  lemma ZeroOne(x: real)
    ensures Mul(Scal(0.0), Scal(x)) == Scal(0.0) && Mul(Scal(1.0), Scal(x)) == Scal(x)
    ensures Add(Scal(x), Scal(0.0)) == Scal(x)
  {
  }

  lemma GainTimesH(k: real)
    ensures Mul(Scal(k), I2) == Scal(k) && Mul(Scal(k), Z2) == Z2
    ensures Neg(Scal(k)) == Scal(-k) && Neg(Z2) == Z2
    ensures Add(I2, Scal(-k)) == Scal(1.0 - k) && Add(Z2, Scal(-k)) == Scal(-k)
    ensures Add(Z2, Z2) == Z2 && Add(I2, Z2) == I2
  {
    MulScal(k, 1.0); MulScal(k, 0.0);
    MulScal(1.0, -k); MulScal(0.0, -k); MulScal(0.0, 0.0); MulScal(1.0, 0.0);
    hide Mul, Add, Neg, Scal;
  }

  lemma OneMinusGain(k: real, l: real, left: real, turn: real)
    requires left == 1.0 - k && turn == -l
    ensures var kh := Outer(M42(Scal(k), Scal(l)), H);
            Add44(I44, M44(Neg(kh.nw), Neg(kh.ne), Neg(kh.sw), Neg(kh.se))) == Scal44(left, 0.0, turn, 1.0)
  {
    GainTimesH(k);
    GainTimesH(l);
    hide Mul, Add, Scal, Neg;
  }

  /** Each measured coordinate moves the fraction `k` of the way from predicted to measured. */
  lemma CorrectedPosition(xp: V4, k: real, l: real, z: V2)
    ensures Corrected(xp, M42(Scal(k), Scal(l)), z).n
            == V2(xp.n.x + k * (z.x - xp.n.x), xp.n.y + k * (z.y - xp.n.y))
  {
    var seen := AddV(Apply(H.w, xp.n), Apply(H.e, xp.s));
    assert seen == xp.n;
  }

  predicate StrictlyBetween(a: real, m: real, b: real) {
    a < m < b || b < m < a
  }

  lemma PartUp(a: real, b: real, k: real)
    requires 0.0 < k < 1.0 && a < b
    ensures a < a + k * (b - a) < b
  {
    calc { (a + k * (b - a)) - a; == Times(k, b - a); > { TimesPos(k, b - a); } 0.0; }
    calc { b - (a + k * (b - a)); == Times(1.0 - k, b - a); > { TimesPos(1.0 - k, b - a); } 0.0; }
  }

  lemma PartWay(a: real, b: real, k: real)
    requires 0.0 < k < 1.0 && a != b
    ensures StrictlyBetween(a, a + k * (b - a), b)
  {
    if a < b {
      PartUp(a, b, k);
    } else {
      calc { a + k * (b - a); == b + (1.0 - k) * (a - b); }
      PartUp(b, a, 1.0 - k);
    }
  }

  /** `x` lies where a measurement `z` may take the predicted coordinate `a`. */
  predicate Smooths(a: real, x: real, z: real) {
    if a == z then x == z else StrictlyBetween(a, x, z)
  }

  lemma SmoothedPosition(xp: V4, k: real, l: real, z: V2)
    requires 0.0 < k < 1.0
    ensures var x := Corrected(xp, M42(Scal(k), Scal(l)), z).n;
            Smooths(xp.n.x, x.x, z.x) && Smooths(xp.n.y, x.y, z.y)
  {
    CorrectedPosition(xp, k, l, z);
    hide Corrected;
    if xp.n.x != z.x { PartWay(xp.n.x, z.x, k); }
    if xp.n.y != z.y { PartWay(xp.n.y, z.y, k); }
  }

  /** One measurement update of a two-block covariance: it stays one, the position variance
      falls below the measurement variance, and the position lands strictly between predicted
      and measured. */
  lemma UpdateBlocks(pp: M44, xp: V4, r: real, z: V2)
    requires TwoBlocks(pp) && r > 0.0
    ensures Det(Innovation(pp, r)) != 0.0
    ensures TwoBlocks(CorrectedCovariance(pp, Gain(pp, r))) && CorrectedCovariance(pp, Gain(pp, r)).nw.a < r
    ensures var x := Corrected(xp, Gain(pp, r), z).n; Smooths(xp.n.x, x.x, z.x) && Smooths(xp.n.y, x.y, z.y)
  {
    hide Gain, CorrectedCovariance, Corrected, Innovation, Det, Smooths;
    var p, c, v := pp.nw.a, pp.ne.a, pp.se.a;
    GainBlocks(p, c, v, r);
    var k, l := p / (p + r), c / (p + r);
    var left, turn := 1.0 - k, -l;
    MeasureKeepsDefinite(p, c, v, r, k, l, left, turn);
    hide Definite;
    CorrectedBlocks(p, c, v, k, l, left, turn);
    SmoothedPosition(xp, k, l, z);
  }

  // ---------- The filter as an object ----------

  /** `clock` is the monotonic clock, which a reset reads even when the measurement carries its own time. */
  function Updated(s: State, z: V2, fix: Fix, t: real, clock: real): State
    requires s.ok ==> TwoBlocks(s.p)
  {
    if !s.ok then ResetTo(z.x, z.y, clock)
    else
      var dt := Clamp(t - s.t, 0.0, 30.0);
      if dt == 0.0 then s.(t := t)
      else
        PredictedDefinite(s.p, dt);
        var pp, xp, r := PredictedCovariance(s.p, dt), PredictedState(s, dt), Noise(fix);
        UpdateBlocks(pp, xp, r, z);
        State(Corrected(xp, Gain(pp, r), z), CorrectedCovariance(pp, Gain(pp, r)), t, true)
  }

  /** A measurement that comes later than the last step keeps the two blocks, brings the position
      variance below that of the measurement, and smooths each coordinate; any other leaves
      position and covariance alone. */
  lemma UpdatedSmooths(s: State, z: V2, fix: Fix, t: real, clock: real)
    requires s.ok && TwoBlocks(s.p)
    ensures TwoBlocks(Updated(s, z, fix, t, clock).p)
    ensures t <= s.t ==> Updated(s, z, fix, t, clock) == s.(t := t)
    ensures t > s.t ==>
              var xp := PredictedState(s, Clamp(t - s.t, 0.0, 30.0)).n;
              var s' := Updated(s, z, fix, t, clock);
              s'.p.nw.a < Noise(fix) && Smooths(xp.x, s'.x.n.x, z.x) && Smooths(xp.y, s'.x.n.y, z.y)
  {
    hide TwoBlocks, Gain, Corrected, CorrectedCovariance, Smooths, Innovation, Det;
    hide PredictedCovariance, PredictedState, Noise;
    var dt := Clamp(t - s.t, 0.0, 30.0);
    if dt != 0.0 {
      PredictedDefinite(s.p, dt);
      UpdateBlocks(PredictedCovariance(s.p, dt), PredictedState(s, dt), Noise(fix), z);
    }
  }

  function Predicted(s: State, dt: real, now: real): State {
    if !s.ok then s
    else
      var d := if dt < 60.0 then dt else 60.0;
      var grow := PROCESS_NOISE * (d * d) * 1000.0;
      State(V4(V2(s.x.n.x + s.x.s.x * d, s.x.n.y + s.x.s.y * d), s.x.s),
            s.p.(nw := M2(s.p.nw.a + grow, s.p.nw.b, s.p.nw.c, s.p.nw.d + grow)), now, true)
  }

  lemma PredictedKeepsBlocks(s: State, dt: real, now: real)
    requires s.ok && TwoBlocks(s.p)
    ensures TwoBlocks(Predicted(s, dt, now).p)
  {
    var p, c, v := s.p.nw.a, s.p.ne.a, s.p.se.a;
    var d := if dt < 60.0 then dt else 60.0;
    var grow := PROCESS_NOISE * (d * d) * 1000.0;
    SquarePos(d);
    assert grow >= 0.0 by { assert Sq(d) == d * d; }
    DefiniteDiagonal(p, c, v);
    ProductNonNeg(grow, v);
    assert (p + grow) * v - c * c == p * v - c * c + grow * v;
  }

  lemma ResetBlocks(lat: real, lon: real, now: real)
    ensures TwoBlocks(ResetTo(lat, lon, now).p)
  {
  }

  class Kalman2D {
    var x: V4
    var p: M44
    var t: real
    var ok: bool

    function View(): State reads this {
      State(x, p, t, ok)
    }

    predicate Valid() reads this {
      ok ==> TwoBlocks(p)
    }

    constructor ()
      ensures Valid() && !ok
    {
      x, p, t, ok := V4(V2(0.0, 0.0), V2(0.0, 0.0)), I44, 0.0, false;
    }

    method Reset(lat: real, lon: real, now: real)
      modifies this
      ensures Valid() && View() == ResetTo(lat, lon, now)
    {
      x := V4(V2(lat, lon), V2(0.0, 0.0));
      p := M44(Scal(0.000001), Z2, Z2, Scal(0.000001));
      t, ok := now, true;
    }

    method Update(lat: real, lon: real, fix: Fix, now: real, clock: real) returns (position: V2)
      requires Valid()
      modifies this
      ensures Valid() && ok && View() == Updated(old(View()), V2(lat, lon), fix, now, clock)
      ensures t == if old(ok) then now else clock
      ensures position == Position(View())
      ensures !old(ok) ==> position == V2(lat, lon)
      ensures old(ok) && now <= old(t) ==> x == old(x) && p == old(p)
      ensures old(ok) && now > old(t) ==>
                var xp := PredictedState(old(View()), Clamp(now - old(t), 0.0, 30.0)).n;
                && p.nw.a < Noise(fix)
                && Smooths(xp.x, position.x, lat) && Smooths(xp.y, position.y, lon)
    {
      hide TwoBlocks, Gain, Corrected, CorrectedCovariance, Smooths, Innovation, Definite;
      hide Mul, Add, Apply, Transpose, Det, Noise;
      if !ok {
        Reset(lat, lon, clock);
        ResetBlocks(lat, lon, clock);
        return V2(lat, lon);
      }
      UpdatedSmooths(View(), V2(lat, lon), fix, now, clock);
      var dt := Clamp(now - t, 0.0, 30.0);
      t := now;
      if dt == 0.0 { return x.n; }
      var f := Transition(dt);
      var r := Noise(fix);
      var xp := Apply44(f, x);
      var pp := Add44(Mul44(Mul44(f, p), Transpose44(f)), ProcessNoise(PROCESS_NOISE, dt));
      PredictedDefinite(p, dt);
      UpdateBlocks(pp, xp, r, V2(lat, lon));
      var k := Gain(pp, r);
      x := Corrected(xp, k, V2(lat, lon));
      p := CorrectedCovariance(pp, k);
      return x.n;
    }

    method Predict(dt: real, now: real) returns (position: Option<V2>)
      requires Valid()
      modifies this
      ensures Valid() && View() == Predicted(old(View()), dt, now)
      ensures position == if old(ok) then Some(Position(View())) else None
    {
      if !ok { return None; }
      hide TwoBlocks;
      PredictedKeepsBlocks(View(), dt, now);
      var d := if dt < 60.0 then dt else 60.0;
      x := V4(V2(x.n.x + x.s.x * d, x.n.y + x.s.y * d), x.s);
      var grow := PROCESS_NOISE * (d * d) * 1000.0;
      p := p.(nw := M2(p.nw.a + grow, p.nw.b, p.nw.c, p.nw.d + grow));
      t := now;
      return Some(x.n);
    }
  }

  // ---------- Any sequence of steps ----------

  datatype Event =
    | Measure(z: V2, fix: Fix, t: real, clock: real)
    | Coast(dt: real, now: real)
    | Restart(z: V2, now: real)

  /** The states a filter goes through, from `s`. */
  ghost predicate IsRun(states: seq<State>, events: seq<Event>) {
    && |states| == |events| + 1 && !states[0].ok
    && forall i :: 0 <= i < |events| ==> StepOf(states[i], events[i], states[i + 1])
  }

  ghost predicate StepOf(s: State, e: Event, s': State) {
    match e
    case Measure(z, fix, t, clock) => (s.ok ==> TwoBlocks(s.p)) ==> s' == Updated(s, z, fix, t, clock)
    case Coast(dt, now) => s' == Predicted(s, dt, now)
    case Restart(z, now) => s' == ResetTo(z.x, z.y, now)
  }

  lemma StepKeepsBlocks(s: State, e: Event, s': State)
    requires (s.ok ==> TwoBlocks(s.p)) && StepOf(s, e, s')
    ensures s'.ok ==> TwoBlocks(s'.p)
  {
    hide TwoBlocks, Gain, Corrected, CorrectedCovariance, Smooths, Innovation, Det;
    hide PredictedCovariance, PredictedState, Noise;
    match e
    case Measure(z, fix, t, clock) =>
      if s.ok { UpdatedSmooths(s, z, fix, t, clock); } else { ResetBlocks(z.x, z.y, clock); }
    case Coast(dt, now) => if s.ok { PredictedKeepsBlocks(s, dt, now); }
    case Restart(z, now) => ResetBlocks(z.x, z.y, now);
  }

  /** Whatever measurements, predictions and resets arrive, the covariance of a running filter
      is two equal positive definite blocks: every direction keeps a positive variance. */
  lemma {:induction false} RunKeepsBlocks(states: seq<State>, events: seq<Event>, i: nat)
    requires IsRun(states, events) && i < |states|
    ensures states[i].ok ==> TwoBlocks(states[i].p)
    ensures states[i].ok ==> forall u :: u != V4(V2(0.0, 0.0), V2(0.0, 0.0)) ==> Variance(states[i].p, u) > 0.0
  {
    if i > 0 {
      RunKeepsBlocks(states, events, i - 1);
      assert StepOf(states[i - 1], events[i - 1], states[i - 1 + 1]);
      StepKeepsBlocks(states[i - 1], events[i - 1], states[i]);
    }
    hide Variance;
    if states[i].ok {
      forall u | u != V4(V2(0.0, 0.0), V2(0.0, 0.0))
        ensures Variance(states[i].p, u) > 0.0
      {
        TwoBlocksDefinite(states[i].p, u);
      }
    }
  }
}
