/** Exact complex numbers, and the ring laws the transform needs. */
module ComplexNumbers {
  datatype Complex = Complex(x: real, y: real)

  const ZERO := Complex(0.0, 0.0)
  const ONE := Complex(1.0, 0.0)
  const MINUS_ONE := Complex(-1.0, 0.0)

  function Add(a: Complex, b: Complex): Complex { Complex(a.x + b.x, a.y + b.y) }

  function Sub(a: Complex, b: Complex): Complex { Complex(a.x - b.x, a.y - b.y) }

  function Mul(a: Complex, b: Complex): Complex { Complex(a.x * b.x - a.y * b.y, a.x * b.y + a.y * b.x) }

  /** w to the power of k. */
  function Pow(w: Complex, k: nat): Complex { if k == 0 then ONE else Mul(w, Pow(w, k - 1)) }

  lemma MulCommutes(a: Complex, b: Complex)
    ensures Mul(a, b) == Mul(b, a)
  {
  }

  lemma MulAssociates(a: Complex, b: Complex, c: Complex)
    ensures Mul(Mul(a, b), c) == Mul(a, Mul(b, c))
  {
    var l, r := Mul(Mul(a, b), c), Mul(a, Mul(b, c));
    assert l.x == a.x * b.x * c.x - a.y * b.y * c.x - a.x * b.y * c.y - a.y * b.x * c.y == r.x;
    assert l.y == a.x * b.x * c.y - a.y * b.y * c.y + a.x * b.y * c.x + a.y * b.x * c.x == r.y;
  }

  lemma MulDistributes(a: Complex, b: Complex, c: Complex)
    ensures Mul(a, Add(b, c)) == Add(Mul(a, b), Mul(a, c))
  {
  }

  lemma MulUnits(a: Complex)
    ensures Mul(ONE, a) == a == Mul(a, ONE) && Mul(a, ZERO) == ZERO == Mul(ZERO, a)
    ensures Mul(MINUS_ONE, a) == Sub(ZERO, a)
  {
  }

  lemma Additions(a: Complex, b: Complex, c: Complex)
    ensures Add(Add(a, b), c) == Add(a, Add(b, c)) && Add(a, ZERO) == a == Add(ZERO, a)
    ensures Sub(a, b) == Add(a, Sub(ZERO, b))
  {
  }

  lemma {:induction false} PowAdds(w: Complex, j: nat, k: nat)
    ensures Pow(w, j + k) == Mul(Pow(w, j), Pow(w, k))
  {
    hide Mul;
    if j == 0 {
      MulUnits(Pow(w, k));
    } else {
      PowAdds(w, j - 1, k);
      MulAssociates(w, Pow(w, j - 1), Pow(w, k));
    }
  }

  lemma {:induction false} PowMultiplies(w: Complex, j: nat, k: nat)
    ensures Pow(w, j * k) == Pow(Pow(w, k), j)
  {
    hide Mul;
    if j > 0 {
      PowMultiplies(w, j - 1, k);
      assert j * k == k + (j - 1) * k;
      PowAdds(w, k, (j - 1) * k);
    }
  }

  lemma {:induction false} PowOfSquare(w: Complex, k: nat)
    ensures Pow(Mul(w, w), k) == Mul(Pow(w, k), Pow(w, k))
  {
    hide Mul;
    if k == 0 {
      MulUnits(ONE);
    } else {
      var p := Pow(w, k - 1);
      PowOfSquare(w, k - 1);
      MulAssociates(w, w, Mul(p, p));
      MulAssociates(w, p, p);
      MulCommutes(Mul(w, p), p);
      MulAssociates(w, p, Mul(w, p));
      MulAssociates(p, w, p);
      MulCommutes(p, Mul(w, p));
    }
  }

  const I := Complex(0.0, 1.0)

  function Real(x: real): Complex { Complex(x, 0.0) }

  /** Sums of a real number and a real multiple of a square root of -1. */
  lemma TheseAreTheComplexNumbers(a: Complex, x: real, y: real)
    ensures Mul(I, I) == MINUS_ONE == Real(-1.0) && a == Add(Real(a.x), Mul(I, Real(a.y)))
    ensures Add(Real(x), Real(y)) == Real(x + y) && Mul(Real(x), Real(y)) == Real(x * y)
    ensures Sub(Real(x), Real(y)) == Real(x - y)
  {
  }

  lemma {:induction false} FirstPowers(w: Complex)
    ensures Pow(w, 0) == ONE && Pow(w, 1) == w && Pow(w, 2) == Mul(w, w)
  {
    hide Mul;
    MulUnits(w);
  }
}
