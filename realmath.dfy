/** Real-number stand-ins for the numpy operations the bell model uses.
    The transcendental functions are not defined here: a model is given an
    `Elementary` value and may rely only on the laws in `Lawful`. */
module RealMath {

  /** The value of `np.pi` (the double closest to pi, written as a decimal). */
  const PI: real := 3.141592653589793

  /** sin, cos and sqrt as supplied by the numerical library. */
  datatype Elementary = Elementary(sin: real -> real, cos: real -> real, sqrt: real -> real)

  /** Python's `x**2`. */
  function Sq(x: real): (r: real)
    ensures r >= 0.0
  {
    x * x
  }

  /** The only facts about sin, cos and sqrt the model relies on. */
  ghost predicate Lawful(e: Elementary)
  {
    (forall x :: Sq(e.sin(x)) + Sq(e.cos(x)) == 1.0) &&
    (forall x :: -1.0 <= e.sin(x) <= 1.0) &&
    (forall x :: -1.0 <= e.cos(x) <= 1.0) &&
    (forall x :: 0.0 <= x ==> 0.0 <= e.sqrt(x) && Sq(e.sqrt(x)) == x) &&
    e.sin(0.0) == 0.0 && e.cos(0.0) == 1.0 &&
    e.sin(-PI / 2.0) == -1.0 && e.cos(-PI / 2.0) == 0.0
  }

  /** Python's `abs` on a float. */
  function Abs(x: real): (r: real)
    ensures r >= 0.0 && (r == x || r == -x)
  {
    if x < 0.0 then -x else x
  }

  /** `np.sign`: -1, 0 or 1. */
  function Sign(x: real): (r: real)
    ensures x > 0.0 ==> r == 1.0
    ensures x < 0.0 ==> r == -1.0
    ensures x == 0.0 ==> r == 0.0
  {
    if x > 0.0 then 1.0 else if x < 0.0 then -1.0 else 0.0
  }

  /** `np.linalg.norm` of a two-element vector. */
  function Norm(e: Elementary, x: real, y: real): (n: real)
    requires Lawful(e)
    ensures n >= 0.0 && Sq(n) == Sq(x) + Sq(y)
  {
    e.sqrt(Sq(x) + Sq(y))
  }

  lemma SqPositive(x: real)
    requires x != 0.0
    ensures Sq(x) > 0.0
  {
    if x > 0.0 {
      calc {
        Sq(x);
      ==
        x * x;
      >
        0.0;
      }
    } else {
      calc {
        Sq(x);
      ==
        (-x) * (-x);
      >
        0.0;
      }
    }
  }

  lemma SqMonotone(p: real, q: real)
    requires p > q >= 0.0
    ensures Sq(p) > Sq(q)
  {
    calc {
      p * p;
    >
      p * q;
    >=
      q * q;
    }
  }

  /** The square root of a non-negative number is determined by its square. */
  lemma SqrtOfSquare(e: Elementary, a: real)
    requires Lawful(e) && a >= 0.0
    ensures e.sqrt(Sq(a)) == a
  {
    var q := e.sqrt(Sq(a));
    assert q >= 0.0 && Sq(q) == Sq(a);
    if q > a {
      SqMonotone(q, a);
    } else if q < a {
      SqMonotone(a, q);
    }
  }

  /** Scaling a non-zero vector by the inverse of its norm gives a unit vector. */
  lemma Normalized(x: real, y: real, n: real)
    requires n > 0.0 && Sq(n) == Sq(x) + Sq(y)
    ensures Sq(x / n) + Sq(y / n) == 1.0
  {
    var a, b := x / n, y / n;
    assert a * n == x && b * n == y;
    calc {
      (a * n) * (a * n) + (b * n) * (b * n);
    ==
      x * x + y * y;
    ==
      n * n;
    }
    UnitFromScaledSquares(a, b, n);
  }

  lemma UnitFromScaledSquares(a: real, b: real, n: real)
    requires n > 0.0
    requires (a * n) * (a * n) + (b * n) * (b * n) == n * n
    ensures a * a + b * b == 1.0
  {
    assert n * n > 0.0;
  }

  /** `np.dot` of two two-element vectors. */
  function Dot(v: (real, real), w: (real, real)): real
  {
    v.0 * w.0 + v.1 * w.1
  }

  /** Lagrange's identity in two dimensions. */
  lemma Lagrange(a: real, b: real, c: real, d: real)
    ensures Sq(a * c + b * d) + Sq(a * d - b * c) == (Sq(a) + Sq(b)) * (Sq(c) + Sq(d))
  {
  }

  /** The dot product of two unit vectors lies in [-1, 1]. */
  lemma UnitDot(v: (real, real), w: (real, real))
    requires Sq(v.0) + Sq(v.1) == 1.0 && Sq(w.0) + Sq(w.1) == 1.0
    ensures -1.0 <= Dot(v, w) <= 1.0
  {
    var u := Dot(v, w);
    var q := v.0 * w.1 - v.1 * w.0;
    Lagrange(v.0, v.1, w.0, w.1);
    assert (Sq(v.0) + Sq(v.1)) * (Sq(w.0) + Sq(w.1)) == 1.0 * 1.0;
    assert Sq(u) + Sq(q) == 1.0;
    if u > 1.0 {
      SqMonotone(u, 1.0);
    } else if u < -1.0 {
      SqMonotone(-u, 1.0);
    }
  }
}
