/** Exact complex numbers for the spectra the scripts manipulate bin by bin
    (numpy complex128, here with real and imaginary parts in `real`). */
module ComplexArith {

  datatype Complex = Complex(re: real, im: real)

  const Zero: Complex := Complex(0.0, 0.0)

  /** A complex number times a real factor (numpy `X * a`, `X / n`). */
  function Times(z: Complex, a: real): Complex
  {
    Complex(a * z.re, a * z.im)
  }

  function Mul(z: Complex, w: Complex): Complex
  {
    Complex(z.re * w.re - z.im * w.im, z.re * w.im + z.im * w.re)
  }

  function Conj(z: Complex): Complex
  {
    Complex(z.re, -z.im)
  }

  /** |z|², numpy `np.abs(z) ** 2`. */
  function Norm2(z: Complex): (p: real)
    ensures p >= 0.0
  {
    z.re * z.re + z.im * z.im
  }

  /** z · conj(z) is the real number |z|². */
  lemma MulConjIsNorm2(z: Complex)
    ensures Mul(z, Conj(z)) == Complex(Norm2(z), 0.0)
  {
    var a, b := z.re, z.im;
    calc {
      Mul(z, Conj(z));
      Complex(a * a - b * (-b), a * (-b) + b * a);
      { assert b * (-b) == -(b * b); assert a * (-b) == -(a * b); }
      Complex(a * a + b * b, 0.0);
    }
  }

  /** Scaling twice is scaling by the product. */
  lemma TimesTimes(z: Complex, a: real, b: real)
    ensures Times(Times(z, a), b) == Times(z, a * b)
  {
    assert b * (a * z.re) == (a * b) * z.re;
    assert b * (a * z.im) == (a * b) * z.im;
  }

  /** The outcome of numpy's complex-by-real division: IEEE division by a
      zero denominator gives inf or nan instead of raising. */
  datatype Ratio = Finite(value: Complex) | NonFinite

  /** numpy `z / d` for a real denominator. */
  function Divide(z: Complex, d: real): (q: Ratio)
    ensures q.Finite? <==> d != 0.0
  {
    if d == 0.0 then NonFinite else Finite(Times(z, 1.0 / d))
  }

  /** (y · conj(r)) · r is y scaled by |r|². */
  lemma MulConjThenMul(y: Complex, r: Complex)
    ensures Mul(Mul(y, Conj(r)), r) == Times(y, Norm2(r))
  {
    var a, b, c, d := y.re, y.im, r.re, r.im;
    assert b * (-d) == -(b * d) && a * (-d) == -(a * d);
    var u, v := a * c + b * d, b * c - a * d;
    assert Mul(y, Conj(r)) == Complex(u, v);
    assert u * c - v * d == (c * c + d * d) * a by {
      assert u * c == a * c * c + b * d * c;
      assert v * d == b * c * d - a * d * d;
    }
    assert u * d + v * c == (c * c + d * d) * b by {
      assert u * d == a * c * d + b * d * d;
      assert v * c == b * c * c - a * d * c;
    }
  }

  /** A real factor can be taken out of a complex product. */
  lemma MulTimes(q: Complex, s: real, r: Complex)
    ensures Mul(Times(q, s), r) == Times(Mul(q, r), s)
  {
    assert (s * q.re) * r.re == s * (q.re * r.re) && (s * q.im) * r.im == s * (q.im * r.im);
    assert (s * q.re) * r.im == s * (q.re * r.im) && (s * q.im) * r.re == s * (q.im * r.re);
  }

  /** Dividing y·conj(r) by |r|² and multiplying back by r gives y: the
      quotient of a deconvolution undoes the reference. */
  lemma DivisionByReferenceUndone(y: Complex, r: Complex)
    requires Norm2(r) != 0.0
    ensures Divide(Mul(y, Conj(r)), Norm2(r)) == Finite(Times(Mul(y, Conj(r)), 1.0 / Norm2(r)))
    ensures Mul(Times(Mul(y, Conj(r)), 1.0 / Norm2(r)), r) == y
  {
    var p := Norm2(r);
    var s := 1.0 / p;
    MulTimes(Mul(y, Conj(r)), s, r);
    MulConjThenMul(y, r);
    TimesTimes(y, p, s);
    assert p * s == 1.0;
  }
}
