/** What the transform is, without its formula: it is linear, and a single 1 becomes the powers of the root. */
module FourierLaws {
  import opened ComplexNumbers
  import opened Fft

  /** Zeros, but for a 1 at j. */
  function Impulse(n: nat, j: nat): (s: seq<Complex>)
    ensures |s| == n && forall k :: 0 <= k < n ==> s[k] == if k == j then ONE else ZERO
  {
    seq(n, k => if k == j then ONE else ZERO)
  }

  /** Entry by entry: s and c times t. */
  function Combined(s: seq<Complex>, c: Complex, t: seq<Complex>): (r: seq<Complex>)
    requires |s| == |t|
    ensures |r| == |s| && forall k :: 0 <= k < |r| ==> r[k] == Add(s[k], Mul(c, t[k]))
  {
    seq(|s|, k requires 0 <= k < |s| => Add(s[k], Mul(c, t[k])))
  }

  lemma Grouping(a: Complex, b: Complex, c: Complex, x: Complex, y: Complex, p: Complex)
    ensures Add(Add(a, Mul(c, b)), Mul(Add(x, Mul(c, y)), p))
         == Add(Add(a, Mul(x, p)), Mul(c, Add(b, Mul(y, p))))
  {
    MulAssociates(c, y, p);
    MulDistributes(c, b, Mul(y, p));
    MulDistributes(p, x, Mul(c, y));
    hide Mul;
    MulCommutes(p, Add(x, Mul(c, y)));
    MulCommutes(p, x);
    MulCommutes(p, Mul(c, y));
  }

  lemma {:induction false} TermsCombine(s: seq<Complex>, c: Complex, t: seq<Complex>, w: Complex, k: nat, m: nat)
    requires |s| == |t| && m <= |s|
    ensures Terms(Combined(s, c, t), w, k, m) == Add(Terms(s, w, k, m), Mul(c, Terms(t, w, k, m)))
  {
    hide Mul, Add, Pow;
    if m == 0 {
      MulUnits(c);
      Additions(ZERO, ZERO, ZERO);
    } else {
      TermsCombine(s, c, t, w, k, m - 1);
      Grouping(Terms(s, w, k, m - 1), Terms(t, w, k, m - 1), c, s[m - 1], t[m - 1], Pow(w, (m - 1) * k));
    }
  }

  /** The transform is linear. */
  lemma DftIsLinear(s: seq<Complex>, c: Complex, t: seq<Complex>, w: Complex)
    requires |s| == |t|
    ensures Dft(Combined(s, c, t), w) == Combined(Dft(s, w), c, Dft(t, w))
  {
    hide Terms, Mul, Add;
    forall k | 0 <= k < |s| ensures Dft(Combined(s, c, t), w)[k] == Combined(Dft(s, w), c, Dft(t, w))[k] {
      TermsCombine(s, c, t, w, k, |s|);
    }
  }

  lemma {:induction false} TermsOfImpulse(n: nat, j: nat, w: Complex, k: nat, m: nat)
    requires m <= n
    ensures Terms(Impulse(n, j), w, k, m) == if j < m then Pow(w, j * k) else ZERO
  {
    hide Mul, Add, Pow;
    if m > 0 {
      TermsOfImpulse(n, j, w, k, m - 1);
      MulUnits(Pow(w, (m - 1) * k));
      Additions(Pow(w, (m - 1) * k), ZERO, ZERO);
      Additions(Pow(w, j * k), ZERO, ZERO);
      Additions(ZERO, ZERO, ZERO);
    }
  }

  /** Coefficient k of a single 1 at j is the root to the power of j k. */
  lemma {:induction false} DftOfImpulse(n: nat, j: nat, w: Complex, k: nat)
    requires j < n && k < n
    ensures Dft(Impulse(n, j), w)[k] == Pow(w, j * k)
  {
    hide Terms, Impulse;
    TermsOfImpulse(n, j, w, k, n);
  }
}
