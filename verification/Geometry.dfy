/** PDF transformation matrices (section 8.3.4 of ISO 32000-1) over the reals,
    as app/pdftools/paths.py multiplies and applies them. */
module Geometry {

  /** The matrix [a b 0; c d 0; e f 1], acting on row vectors [x y 1]. */
  datatype Matrix = Matrix(a: real, b: real, c: real, d: real, e: real, f: real)

  datatype Point = Point(x: real, y: real)

  const IDENTITY := Matrix(1.0, 0.0, 0.0, 1.0, 0.0, 0.0)

  function Mul(m: Matrix, n: Matrix): Matrix {
    Matrix(m.a * n.a + m.b * n.c, m.a * n.b + m.b * n.d,
           m.c * n.a + m.d * n.c, m.c * n.b + m.d * n.d,
           m.e * n.a + m.f * n.c + n.e, m.e * n.b + m.f * n.d + n.f)
  }

  /** One coordinate of a mapped point. */
  function Affine(a: real, c: real, e: real, x: real, y: real): real {
    a * x + c * y + e
  }

  function Apply(m: Matrix, p: Point): Point {
    Point(Affine(m.a, m.c, m.e, p.x, p.y), Affine(m.b, m.d, m.f, p.x, p.y))
  }

  /** One coordinate of the law below: (u, v, w) is a column of the product. */
  lemma ActsInOrder(a: real, b: real, c: real, d: real, e: real, f: real, n: real, k: real, h: real, x: real, y: real,
                    u: real, v: real, w: real)
    requires u == a * n + b * k && v == c * n + d * k && w == e * n + f * k + h
    ensures Affine(u, v, w, x, y) == Affine(n, k, h, Affine(a, c, e, x, y), Affine(b, d, f, x, y))
  {
  }

  /** A product acts as its left factor followed by its right one: the law that lets a
      walker keep one matrix instead of a chain of them. */
  lemma MulActsInOrder(m: Matrix, n: Matrix, p: Point)
    ensures Apply(Mul(m, n), p) == Apply(n, Apply(m, p))
  {
    hide Affine;
    var u := Mul(m, n);
    ActsInOrder(m.a, m.b, m.c, m.d, m.e, m.f, n.a, n.c, n.e, p.x, p.y, u.a, u.c, u.e);
    ActsInOrder(m.a, m.b, m.c, m.d, m.e, m.f, n.b, n.d, n.f, p.x, p.y, u.b, u.d, u.f);
  }

  /** [1 0 0 1 t 0] x m: how the text matrix moves when the pen advances by t. */
  function Shift(t: real, m: Matrix): Matrix {
    m.(e := m.e + t * m.a, f := m.f + t * m.b)
  }

  lemma ShiftIsMul(t: real, m: Matrix)
    ensures Shift(t, m) == Mul(Matrix(1.0, 0.0, 0.0, 1.0, t, 0.0), m)
  {
    var s := Matrix(1.0, 0.0, 0.0, 1.0, t, 0.0);
    assert Mul(s, m).a == 1.0 * m.a + 0.0 * m.c && Mul(s, m).b == 1.0 * m.b + 0.0 * m.d;
    assert Mul(s, m).c == 0.0 * m.a + 1.0 * m.c && Mul(s, m).d == 0.0 * m.b + 1.0 * m.d;
    assert Mul(s, m).e == t * m.a + 0.0 * m.c + m.e && Mul(s, m).f == t * m.b + 0.0 * m.d + m.f;
  }

  lemma ShiftShift(s: real, t: real, m: Matrix)
    ensures Shift(s, Shift(t, m)) == Shift(s + t, m)
  {
    assert (s + t) * m.a == s * m.a + t * m.a;
    assert (s + t) * m.b == s * m.b + t * m.b;
  }

  function Abs(x: real): real {
    if x < 0.0 then -x else x
  }

  lemma AbsMul(x: real, y: real)
    ensures Abs(x * y) == Abs(x) * Abs(y)
  {
  }

  lemma MulLe(x: real, y: real, k: real)
    requires x <= y && 0.0 <= k
    ensures x * k <= y * k
  {
  }
}
