/** Matrices of integers, and the product computed quarter by quarter. */
module Matrices {
  const CHILDREN := 4

  /** The contents of a matrix: i rows of j entries. */
  datatype Matrix = Matrix(i: nat, j: nat, rows: seq<seq<int>>) {
    predicate Valid() {
      |rows| == i && forall r :: 0 <= r < i ==> |rows[r]| == j
    }
  }

  lemma SameMatrix(m: Matrix, n: Matrix)
    requires m.Valid() && n.Valid() && m.i == n.i && m.j == n.j
    requires forall r, c :: 0 <= r < m.i && 0 <= c < m.j ==> m.rows[r][c] == n.rows[r][c]
    ensures m == n
  {
    assert forall r :: 0 <= r < m.i ==> m.rows[r] == n.rows[r];
  }

  /** The first n terms of an entry of the product: a row times column c of b. */
  function Dot(row: seq<int>, b: Matrix, c: nat, n: nat): int
    requires b.Valid() && n <= b.i && n <= |row| && c < b.j
  {
    if n == 0 then 0 else Dot(row, b, c, n - 1) + row[n - 1] * b.rows[n - 1][c]
  }

  /** The matrix product. */
  function Product(a: Matrix, b: Matrix): (m: Matrix)
    requires a.Valid() && b.Valid() && a.j == b.i
    ensures m.Valid() && m.i == a.i && m.j == b.j
    ensures forall r, c :: 0 <= r < m.i && 0 <= c < m.j ==> m.rows[r][c] == Dot(a.rows[r], b, c, a.j)
  {
    Matrix(a.i, b.j, seq(a.i, r requires 0 <= r < a.i =>
                          seq(b.j, c requires 0 <= c < b.j => Dot(a.rows[r], b, c, a.j))))
  }

  /** Rows imin up to imax of columns jmin up to jmax. */
  function Piece(m: Matrix, imin: nat, imax: nat, jmin: nat, jmax: nat): (p: Matrix)
    requires m.Valid() && imin <= imax <= m.i && jmin <= jmax <= m.j
    ensures p.Valid() && p.i == imax - imin && p.j == jmax - jmin
    ensures forall r, c :: 0 <= r < p.i && 0 <= c < p.j ==> p.rows[r][c] == m.rows[imin + r][jmin + c]
  {
    Matrix(imax - imin, jmax - jmin,
           seq(imax - imin, r requires 0 <= r < imax - imin => m.rows[imin + r][jmin..jmax]))
  }

  /** The operands of quarter q of the product of two n by n matrices. */
  function LeftOperand(a: Matrix, q: nat): (m: Matrix)
    requires a.Valid() && q < CHILDREN
    ensures m.Valid() && m.j == a.j
  {
    if q < 2 then Piece(a, 0, a.i / 2, 0, a.j) else Piece(a, a.i / 2, a.i, 0, a.j)
  }

  function RightOperand(b: Matrix, q: nat): (m: Matrix)
    requires b.Valid() && q < CHILDREN
    ensures m.Valid() && m.i == b.i
  {
    if q % 2 == 0 then Piece(b, 0, b.i, 0, b.j / 2) else Piece(b, 0, b.i, b.j / 2, b.j)
  }

  predicate Mergeable(quarters: seq<Matrix>) {
    && |quarters| == CHILDREN
    && forall q :: 0 <= q < CHILDREN ==>
         (quarters[q].Valid() && quarters[0].i <= quarters[q].i && quarters[0].j <= quarters[q].j)
  }

  /** Four quarters side by side, each cut to the size of the first. */
  function Merged(quarters: seq<Matrix>): (m: Matrix)
    requires Mergeable(quarters)
    ensures m.Valid() && m.i == 2 * quarters[0].i && m.j == 2 * quarters[0].j
    ensures forall r, c :: 0 <= r < m.i && 0 <= c < m.j ==>
      m.rows[r][c] == MergedEntry(quarters, r, c)
  {
    var ni, nj := quarters[0].i, quarters[0].j;
    Matrix(2 * ni, 2 * nj, seq(2 * ni, r requires 0 <= r < 2 * ni =>
                             seq(2 * nj, c requires 0 <= c < 2 * nj => MergedEntry(quarters, r, c))))
  }

  function MergedEntry(quarters: seq<Matrix>, r: nat, c: nat): int
    requires Mergeable(quarters)
    requires r < 2 * quarters[0].i && c < 2 * quarters[0].j
  {
    var ni, nj := quarters[0].i, quarters[0].j;
    if r < ni && c < nj then quarters[0].rows[r][c]
    else if r < ni then quarters[1].rows[r][c - nj]
    else if c < nj then quarters[2].rows[r - ni][c]
    else quarters[3].rows[r - ni][c - nj]
  }

  /** What the children compute. */
  function Quarters(a: Matrix, b: Matrix): (s: seq<Matrix>)
    requires a.Valid() && b.Valid() && a.i == a.j == b.i == b.j
    ensures |s| == CHILDREN
    ensures forall q :: 0 <= q < CHILDREN ==> s[q] == Product(LeftOperand(a, q), RightOperand(b, q))
  {
    seq(CHILDREN, q requires 0 <= q < CHILDREN => Product(LeftOperand(a, q), RightOperand(b, q)))
  }

  /** An entry depends on the row, and on the column of b, only. */
  lemma {:induction false} DotOfPieces(row: seq<int>, b: Matrix, jmin: nat, jmax: nat, c: nat, n: nat)
    requires b.Valid() && n <= b.i && n <= |row| && jmin <= jmax <= b.j && jmin + c < jmax
    ensures Dot(row, Piece(b, 0, b.i, jmin, jmax), c, n) == Dot(row, b, jmin + c, n)
  {
    if n > 0 { DotOfPieces(row, b, jmin, jmax, c, n - 1); }
  }

  /** One entry of a quarter is the entry of the whole product at its place. */
  lemma QuarterEntry(a: Matrix, b: Matrix, q: nat, r: nat, c: nat)
    requires a.Valid() && b.Valid() && a.i == a.j == b.i == b.j && q < CHILDREN
    requires r < Quarters(a, b)[q].i && c < Quarters(a, b)[q].j
    ensures Quarters(a, b)[q].rows[r][c]
         == Product(a, b).rows[r + if q < 2 then 0 else a.i / 2][c + if q % 2 == 0 then 0 else a.i / 2]
  {
    hide Dot;
    var n, h := a.i, a.i / 2;
    var r', c' := r + (if q < 2 then 0 else h), c + if q % 2 == 0 then 0 else h;
    assert LeftOperand(a, q).rows[r] == a.rows[r'];
    if q % 2 == 0 { DotOfPieces(a.rows[r'], b, 0, h, c, n); } else { DotOfPieces(a.rows[r'], b, h, n, c, n); }
  }

  /** One entry of the merged quarters is the entry of the whole product at its place. */
  lemma MergedQuarters(a: Matrix, b: Matrix, r: nat, c: nat)
    requires a.Valid() && b.Valid() && a.i == a.j == b.i == b.j
    requires r < a.i / 2 * 2 && c < a.i / 2 * 2
    ensures Mergeable(Quarters(a, b)) && Quarters(a, b)[0].i == Quarters(a, b)[0].j == a.i / 2
    ensures Merged(Quarters(a, b)).rows[r][c] == Product(a, b).rows[r][c]
  {
    hide Dot, Product, Quarters, LeftOperand, RightOperand;
    QuarterSizes(a, b);
    var h := a.i / 2;
    var q := (if r < h then 0 else 2) + if c < h then 0 else 1;
    QuarterEntry(a, b, q, if r < h then r else r - h, if c < h then c else c - h);
  }

  /**
   The quartered product is the product without its last row and column when n is odd, and the whole
   product exactly when n is even.
   */
  lemma QuarteredProduct(a: Matrix, b: Matrix)
    requires a.Valid() && b.Valid() && a.i == a.j == b.i == b.j
    ensures Mergeable(Quarters(a, b))
    ensures Merged(Quarters(a, b)) == Piece(Product(a, b), 0, a.i / 2 * 2, 0, a.i / 2 * 2)
    ensures Merged(Quarters(a, b)) == Product(a, b) <==> a.i % 2 == 0
  {
    hide Dot, Product, Piece, Merged, Quarters, LeftOperand, RightOperand;
    var m, n := a.i / 2 * 2, a.i;
    assert Mergeable(Quarters(a, b)) && Quarters(a, b)[0].i == Quarters(a, b)[0].j == n / 2 by {
      QuarterSizes(a, b);
    }
    var merged, piece, whole := Merged(Quarters(a, b)), Piece(Product(a, b), 0, m, 0, m), Product(a, b);
    forall r | 0 <= r < m ensures merged.rows[r] == piece.rows[r] {
      forall c | 0 <= c < m ensures merged.rows[r][c] == piece.rows[r][c] == whole.rows[r][c] {
        MergedQuarters(a, b, r, c);
      }
    }
    if n % 2 == 0 {
      assert forall r :: 0 <= r < n ==> piece.rows[r] == whole.rows[r];
    }
  }

  lemma QuarterSizes(a: Matrix, b: Matrix)
    requires a.Valid() && b.Valid() && a.i == a.j == b.i == b.j
    ensures Mergeable(Quarters(a, b)) && Quarters(a, b)[0].i == Quarters(a, b)[0].j == a.i / 2
  {
    hide Dot, Product, Quarters;
    assert forall k :: 0 <= k < CHILDREN ==>
      (Quarters(a, b)[k].i == (if k < 2 then a.i / 2 else a.i - a.i / 2)
       && Quarters(a, b)[k].j == if k % 2 == 0 then a.i / 2 else a.i - a.i / 2);
  }
}
