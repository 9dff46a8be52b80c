/** The in-place recursive Fourier transform, in which data and scratch buffers swap roles at each level. */
module Fft {
  import opened ComplexNumbers

  /** The first m terms of the k-th coefficient: the sum over j < m of s[j] * w^(j*k). */
  function Terms(s: seq<Complex>, w: Complex, k: nat, m: nat): Complex
    requires m <= |s|
  {
    if m == 0 then ZERO else Add(Terms(s, w, k, m - 1), Mul(s[m - 1], Pow(w, (m - 1) * k)))
  }

  /** The discrete Fourier transform with root w. */
  function Dft(s: seq<Complex>, w: Complex): (r: seq<Complex>)
    ensures |r| == |s|
    ensures forall k :: 0 <= k < |s| ==> r[k] == Terms(s, w, k, |s|)
  {
    seq(|s|, k requires 0 <= k < |s| => Terms(s, w, k, |s|))
  }

  /** The polynomial with coefficients s at the point x. */
  function Eval(s: seq<Complex>, x: Complex): Complex {
    if s == [] then ZERO else Add(s[0], Mul(x, Eval(s[1..], x)))
  }

  function Evens(s: seq<Complex>): (r: seq<Complex>)
    requires |s| % 2 == 0
    ensures |r| == |s| / 2 && forall k :: 0 <= k < |r| ==> r[k] == s[2 * k]
  {
    seq(|s| / 2, k requires 0 <= k < |s| / 2 => s[2 * k])
  }

  function Odds(s: seq<Complex>): (r: seq<Complex>)
    requires |s| % 2 == 0
    ensures |r| == |s| / 2 && forall k :: 0 <= k < |r| ==> r[k] == s[2 * k + 1]
  {
    seq(|s| / 2, k requires 0 <= k < |s| / 2 => s[2 * k + 1])
  }

  lemma {:induction false} EvalAppend(s: seq<Complex>, a: Complex, x: Complex)
    ensures Eval(s + [a], x) == Add(Eval(s, x), Mul(a, Pow(x, |s|)))
  {
    hide Mul, Add;
    if s == [] {
      assert (s + [a])[1..] == [];
      MulUnits(x);
      MulUnits(a);
      Additions(a, ZERO, ZERO);
    } else {
      var rest := s[1..];
      assert (s + [a])[1..] == rest + [a];
      EvalAppend(rest, a, x);
      var e, t := Eval(rest, x), Mul(a, Pow(x, |rest|));
      MulDistributes(x, e, t);
      Additions(s[0], Mul(x, e), Mul(x, t));
      MulAssociates(x, a, Pow(x, |rest|));
      MulCommutes(x, a);
      MulAssociates(a, x, Pow(x, |rest|));
    }
  }

  /** A coefficient of the transform is the polynomial at a power of the root. */
  lemma {:induction false} TermsAreEval(s: seq<Complex>, w: Complex, k: nat, m: nat)
    requires m <= |s|
    ensures Terms(s, w, k, m) == Eval(s[..m], Pow(w, k))
  {
    hide Mul, Add;
    if m > 0 {
      TermsAreEval(s, w, k, m - 1);
      assert s[..m] == s[..m - 1] + [s[m - 1]];
      EvalAppend(s[..m - 1], s[m - 1], Pow(w, k));
      PowMultiplies(w, m - 1, k);
    }
  }

  /** Even and odd coefficients, each as a polynomial in the square of the point. */
  lemma {:induction false} EvalSplits(s: seq<Complex>, x: Complex)
    requires |s| % 2 == 0
    ensures Eval(s, x) == Add(Eval(Evens(s), Mul(x, x)), Mul(x, Eval(Odds(s), Mul(x, x))))
  {
    hide Mul, Add;
    var xx := Mul(x, x);
    if s == [] {
      MulUnits(x);
      Additions(ZERO, ZERO, ZERO);
    } else {
      var rest := s[2..];
      EvalSplits(rest, x);
      assert s[1..][1..] == rest;
      assert Evens(s)[1..] == Evens(rest) && Odds(s)[1..] == Odds(rest);
      var e, o := Eval(Evens(rest), xx), Eval(Odds(rest), xx);
      assert Eval(s, x) == Add(s[0], Mul(x, Add(s[1], Mul(x, Add(e, Mul(x, o))))));
      SplitAlgebra(s[0], s[1], x, e, o);
    }
  }

  lemma SplitAlgebra(a: Complex, b: Complex, x: Complex, e: Complex, o: Complex)
    ensures Add(a, Mul(x, Add(b, Mul(x, Add(e, Mul(x, o))))))
         == Add(Add(a, Mul(Mul(x, x), e)), Mul(x, Add(b, Mul(Mul(x, x), o))))
  {
    hide Mul, Add;
    var xx := Mul(x, x);
    MulDistributes(x, e, Mul(x, o));
    MulAssociates(x, x, o);
    var inner := Add(Mul(x, e), Mul(xx, o));
    MulDistributes(x, b, inner);
    MulDistributes(x, Mul(x, e), Mul(xx, o));
    MulAssociates(x, x, e);
    MulDistributes(x, b, Mul(xx, o));
    var p, q, r := Mul(x, b), Mul(xx, e), Mul(x, Mul(xx, o));
    AddShuffle(a, p, q, r);
  }

  lemma AddShuffle(a: Complex, p: Complex, q: Complex, r: Complex)
    ensures Add(a, Add(p, Add(q, r))) == Add(Add(a, q), Add(p, r))
  {
  }

  /** The butterfly: one coefficient of each half-size transform gives two of the full one. */
  lemma Butterfly(s: seq<Complex>, w: Complex, k: nat)
    requires |s| % 2 == 0 && k < |s| / 2 && Pow(w, |s| / 2) == MINUS_ONE
    ensures var e, z := Dft(Evens(s), Mul(w, w))[k], Mul(Pow(w, k), Dft(Odds(s), Mul(w, w))[k]);
      Dft(s, w)[k] == Add(e, z) && Dft(s, w)[k + |s| / 2] == Sub(e, z)
  {
    hide Mul, Add, Sub;
    var h := |s| / 2;
    var x, y := Pow(w, k), Pow(w, k + h);
    var ww := Mul(w, w);
    PowOfSquare(w, k);
    TermsAreEval(Evens(s), ww, k, h);
    TermsAreEval(Odds(s), ww, k, h);
    assert Evens(s)[..h] == Evens(s) && Odds(s)[..h] == Odds(s) && s[..|s|] == s;
    var e, o := Eval(Evens(s), Mul(x, x)), Eval(Odds(s), Mul(x, x));
    TermsAreEval(s, w, k, |s|);
    EvalSplits(s, x);
    TermsAreEval(s, w, k + h, |s|);
    EvalSplits(s, y);
    PowAdds(w, h, k);
    assert h + k == k + h;
    NegatedPoint(x, o);
    assert y == Mul(MINUS_ONE, x);
    Additions(e, Mul(x, o), ZERO);
  }

  /** The negated point has the same square and the opposite product. */
  lemma NegatedPoint(x: Complex, o: Complex)
    ensures var y := Mul(MINUS_ONE, x); Mul(y, y) == Mul(x, x) && Mul(y, o) == Sub(ZERO, Mul(x, o))
  {
  }

  ghost function Pow2(k: nat): (n: nat)
    ensures n > 0
  {
    if k == 0 then 1 else 2 * Pow2(k - 1)
  }

  /** Separates the even and odd entries of v into the two halves of the scratch space. */
  method Separate(v: array<Complex>, at: nat, n: nat, temp: array<Complex>, to: nat)
    requires v != temp && at + n <= v.Length && to + n <= temp.Length && n % 2 == 0
    modifies temp
    ensures temp[to..to + n / 2] == Evens(v[at..at + n]) && temp[to + n / 2..to + n] == Odds(v[at..at + n])
    ensures forall i :: 0 <= i < temp.Length && !(to <= i < to + n) ==> temp[i] == old(temp[i])
  {
    hide Evens, Odds;
    ghost var s := v[at..at + n];
    ghost var even, odd := Evens(s), Odds(s);
    for k := 0 to n / 2
      invariant forall i :: to <= i < to + k ==> temp[i] == even[i - to]
      invariant forall i :: to + n / 2 <= i < to + n / 2 + k ==> temp[i] == odd[i - (to + n / 2)]
      invariant forall i :: 0 <= i < temp.Length && !(to <= i < to + n) ==> temp[i] == old(temp[i])
    {
      assert even[k] == s[2 * k] && odd[k] == s[2 * k + 1];
      temp[to + k] := v[at + 2 * k];
      temp[to + n / 2 + k] := v[at + 2 * k + 1];
    }
  }

  /** Combines the two half-size transforms back into v. */
  method Combine(v: array<Complex>, at: nat, n: nat, temp: array<Complex>, to: nat, w: Complex,
                 ghost s: seq<Complex>)
    requires v != temp && at + n <= v.Length && to + n <= temp.Length && n % 2 == 0 && n > 0
    requires |s| == n && Pow(w, n / 2) == MINUS_ONE
    requires temp[to..to + n / 2] == Dft(Evens(s), Mul(w, w))
    requires temp[to + n / 2..to + n] == Dft(Odds(s), Mul(w, w))
    modifies v
    ensures v[at..at + n] == Dft(s, w)
    ensures forall i :: 0 <= i < v.Length && !(at <= i < at + n) ==> v[i] == old(v[i])
  {
    hide Mul, Add, Sub, Terms, Evens, Odds, Pow;
    ghost var target := Dft(s, w);
    for m := 0 to n / 2
      invariant forall i :: at <= i < at + m ==> v[i] == target[i - at]
      invariant forall i :: at + n / 2 <= i < at + n / 2 + m ==> v[i] == target[i - at]
      invariant forall i :: 0 <= i < v.Length && !(at <= i < at + n) ==> v[i] == old(v[i])
    {
      Butterfly(s, w, m);
      assert temp[to + m] == temp[to..to + n / 2][m];
      assert temp[to + n / 2 + m] == temp[to + n / 2..to + n][m];
      var z := Mul(Pow(w, m), temp[to + n / 2 + m]);
      v[at + m] := Add(temp[to + m], z);
      v[at + m + n / 2] := Sub(temp[to + m], z);
    }
  }

  /** Half of the root's half turn is the half turn of its square. */
  lemma {:induction false} HalfTurn(w: Complex, k: nat)
    requires Pow(w, 2 * k) == MINUS_ONE
    ensures Pow(Mul(w, w), k) == MINUS_ONE
  {
    PowOfSquare(w, k);
    PowAdds(w, k, k);
  }

  /** One value is its own transform. */
  lemma SingletonDft(s: seq<Complex>, w: Complex)
    requires |s| == 1
    ensures Dft(s, w) == s
  {
    assert Terms(s, w, 0, 1) == Add(Terms(s, w, 0, 0), Mul(s[0], Pow(w, 0)));
    MulUnits(s[0]);
    Additions(s[0], s[0], s[0]);
  }

  /**
   * Transforms v[at..at + n] in place with temp[to..to + n] as scratch space: the calls on the halves
   * of temp use v as theirs. The root of a call takes the place of cosine and sine.
   */
  method CalcFft(v: array<Complex>, at: nat, n: nat, temp: array<Complex>, to: nat, w: Complex, ghost k: nat)
    requires v != temp && at + n <= v.Length && to + n <= temp.Length && n == Pow2(k)
    requires n > 1 ==> Pow(w, n / 2) == MINUS_ONE
    modifies v, temp
    ensures v[at..at + n] == Dft(old(v[at..at + n]), w)
    ensures forall i :: 0 <= i < v.Length && !(at <= i < at + n) ==> v[i] == old(v[i])
    ensures forall i :: 0 <= i < temp.Length && !(to <= i < to + n) ==> temp[i] == old(temp[i])
    decreases n, 1
  {
    hide Mul, Add, Dft, Evens, Odds, Pow;
    ghost var s := v[at..at + n];
    if n > 1 {
      Separate(v, at, n, temp, to);
      TransformHalves(v, at, n, temp, to, w, k, s);
      Combine(v, at, n, temp, to, w, s);
    } else {
      SingletonDft(s, w);
    }
  }

  /** The two recursive calls: the second leaves the result of the first alone. */
  method TransformHalves(v: array<Complex>, at: nat, n: nat, temp: array<Complex>, to: nat, w: Complex,
                         ghost k: nat, ghost s: seq<Complex>)
    requires v != temp && at + n <= v.Length && to + n <= temp.Length && n == Pow2(k) > 1
    requires |s| == n && Pow(w, n / 2) == MINUS_ONE
    requires temp[to..to + n / 2] == Evens(s) && temp[to + n / 2..to + n] == Odds(s)
    modifies v, temp
    ensures temp[to..to + n / 2] == Dft(Evens(s), Mul(w, w))
    ensures temp[to + n / 2..to + n] == Dft(Odds(s), Mul(w, w))
    ensures forall i :: 0 <= i < v.Length && !(at <= i < at + n) ==> v[i] == old(v[i])
    ensures forall i :: 0 <= i < temp.Length && !(to <= i < to + n) ==> temp[i] == old(temp[i])
    decreases n, 0
  {
    hide Mul, Add, Dft, Evens, Odds, Pow;
    var h := n / 2;
    if h > 1 { HalfTurn(w, h / 2); }
    CalcFft(temp, to, h, v, at, Mul(w, w), k - 1);
    label First:
    ghost var even := temp[to..to + h];
    assert temp[to + h..to + n] == Odds(s);
    CalcFft(temp, to + h, h, v, at, Mul(w, w), k - 1);
    assert forall i :: to <= i < to + h ==> temp[i] == old@First(temp[i]);
    assert temp[to..to + h] == even;
  }
}
