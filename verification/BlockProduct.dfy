/** The matrix operations on arrays: cutting out operands, multiplying and merging the quarters. */
module BlockProduct {
  import opened Matrices

  ghost function View(m: array2<int>): (v: Matrix)
    reads m
    ensures v.Valid() && v.i == m.Length0 && v.j == m.Length1
    ensures forall r, c :: 0 <= r < m.Length0 && 0 <= c < m.Length1 ==> v.rows[r][c] == m[r, c]
  {
    Matrix(m.Length0, m.Length1,
           seq(m.Length0, r requires 0 <= r < m.Length0 reads m =>
             seq(m.Length1, c requires 0 <= c < m.Length1 reads m => m[r, c])))
  }

  /** Copies rows [imin, imax) of columns [jmin, jmax) into a new matrix. */
  method CutPiece(mat: array2<int>, imin: nat, imax: nat, jmin: nat, jmax: nat) returns (partial: array2<int>)
    requires imin <= imax <= mat.Length0 && jmin <= jmax <= mat.Length1
    ensures fresh(partial) && View(partial) == Piece(View(mat), imin, imax, jmin, jmax)
  {
    hide Piece;
    partial := new int[imax - imin, jmax - jmin];
    for i := imin to imax
      invariant forall r, c :: 0 <= r < i - imin && 0 <= c < jmax - jmin ==> partial[r, c] == mat[imin + r, jmin + c]
    {
      for j := jmin to jmax
        invariant forall r, c :: 0 <= r < i - imin && 0 <= c < jmax - jmin ==> partial[r, c] == mat[imin + r, jmin + c]
        invariant forall c :: jmin <= c < j ==> partial[i - imin, c - jmin] == mat[i, c]
      {
        partial[i - imin, j - jmin] := mat[i, j];
      }
    }
    SameMatrix(View(partial), Piece(View(mat), imin, imax, jmin, jmax));
  }

  method Multiply(a: array2<int>, b: array2<int>) returns (m: array2<int>)
    requires a.Length1 == b.Length0
    ensures fresh(m) && View(m) == Product(View(a), View(b))
  {
    hide Product, View, Dot;
    var ai, aj, bj := a.Length0, a.Length1, b.Length1;
    m := new int[ai, bj];
    ghost var left, right := View(a), View(b);
    for i := 0 to ai
      invariant forall r, c :: 0 <= r < i && 0 <= c < bj ==> m[r, c] == Dot(left.rows[r], right, c, aj)
    {
      for j := 0 to bj
        invariant forall r, c :: 0 <= r < i && 0 <= c < bj ==> m[r, c] == Dot(left.rows[r], right, c, aj)
        invariant forall c :: 0 <= c < j ==> m[i, c] == Dot(left.rows[i], right, c, aj)
      {
        var cij := Entry(a, b, i, j);
        m[i, j] := cij;
      }
    }
    SameMatrix(View(m), Product(left, right));
  }

  /** The inner loop: a row of a times a column of b. */
  method Entry(a: array2<int>, b: array2<int>, i: nat, j: nat) returns (cij: int)
    requires a.Length1 == b.Length0 && i < a.Length0 && j < b.Length1
    ensures cij == Dot(View(a).rows[i], View(b), j, a.Length1)
  {
    hide View;
    cij := 0;
    ghost var row, right := View(a).rows[i], View(b);
    for x := 0 to a.Length1
      invariant cij == Dot(row, right, j, x)
    {
      cij := cij + a[i, x] * b[x, j];
    }
  }

  /** Two operands for quarter q of the product of two n by n matrices. */
  method Operands(a: array2<int>, b: array2<int>, q: nat) returns (left: array2<int>, right: array2<int>)
    requires a.Length0 == a.Length1 == b.Length0 == b.Length1 && q < CHILDREN
    ensures fresh(left) && fresh(right)
    ensures View(left) == LeftOperand(View(a), q) && View(right) == RightOperand(View(b), q)
  {
    hide Piece;
    var n := a.Length0;
    var halfn := n / 2;
    match q
    case 0 =>
      left := CutPiece(a, 0, halfn, 0, n);
      right := CutPiece(b, 0, n, 0, halfn);
    case 1 =>
      left := CutPiece(a, 0, halfn, 0, n);
      right := CutPiece(b, 0, n, halfn, n);
    case 2 =>
      left := CutPiece(a, halfn, n, 0, n);
      right := CutPiece(b, 0, n, 0, halfn);
    case 3 =>
      left := CutPiece(a, halfn, n, 0, n);
      right := CutPiece(b, 0, n, halfn, n);
  }

  ghost function Views(mats: seq<array2<int>>): (s: seq<Matrix>)
    reads set m | m in mats
    ensures |s| == |mats| && forall q :: 0 <= q < |s| ==> s[q] == View(mats[q])
  {
    seq(|mats|, q requires 0 <= q < |mats| reads set m | m in mats => View(mats[q]))
  }

  /** Copies each quarter to its place; the size of the first decides the size of all. */
  method MergeQuarters(mats: seq<array2<int>>) returns (final: array2<int>)
    requires |mats| == CHILDREN && Mergeable(Views(mats))
    ensures fresh(final) && View(final) == Merged(Views(mats))
  {
    hide View, MergedEntry, Merged;
    var ni, nj := mats[0].Length0, mats[0].Length1;
    final := new int[ni * 2, nj * 2];
    ghost var quarters := Views(mats);
    for q := 0 to CHILDREN
      invariant forall r, c :: 0 <= r < 2 * ni && 0 <= c < 2 * nj && Place(ni, nj, r, c) < q ==>
        final[r, c] == MergedEntry(quarters, r, c)
    {
      var shifti := if q == 2 || q == 3 then ni else 0;
      var shiftj := if q == 1 || q == 3 then nj else 0;
      CopyQuarter(mats, final, q, shifti, shiftj);
    }
    SameMatrix(View(final), Merged(quarters));
  }

  /** The quarter that position (r, c) of the merged matrix lies in. */
  function Place(ni: nat, nj: nat, r: nat, c: nat): nat {
    (if r < ni then 0 else 2) + if c < nj then 0 else 1
  }

  method CopyQuarter(mats: seq<array2<int>>, final: array2<int>, q: nat, shifti: nat, shiftj: nat)
    requires |mats| == CHILDREN && Mergeable(Views(mats)) && q < CHILDREN && final !in mats
    requires final.Length0 == mats[0].Length0 * 2 && final.Length1 == mats[0].Length1 * 2
    requires shifti == (if q < 2 then 0 else mats[0].Length0) && shiftj == if q % 2 == 0 then 0 else mats[0].Length1
    modifies final
    ensures forall r, c :: 0 <= r < final.Length0 && 0 <= c < final.Length1 ==>
      final[r, c] == if Place(mats[0].Length0, mats[0].Length1, r, c) == q then MergedEntry(Views(mats), r, c)
                     else old(final[r, c])
  {
    hide View;
    var ni, nj := mats[0].Length0, mats[0].Length1;
    ghost var was := View(final);
    for i := 0 to ni
      invariant forall r, c :: 0 <= r < final.Length0 && 0 <= c < final.Length1 ==>
        final[r, c] == if shifti <= r < shifti + i && shiftj <= c < shiftj + nj then mats[q][r - shifti, c - shiftj]
                       else was.rows[r][c]
    {
      CopyRow(mats[q], final, i, nj, i + shifti, shiftj);
    }
  }

  /** The inner loop: n entries of row i to row `row` from column shiftj on. */
  method CopyRow(mat: array2<int>, final: array2<int>, i: nat, n: nat, row: nat, shiftj: nat)
    requires mat != final && i < mat.Length0 && n <= mat.Length1
    requires row < final.Length0 && shiftj + n <= final.Length1
    modifies final
    ensures forall r, c :: 0 <= r < final.Length0 && 0 <= c < final.Length1 ==>
      final[r, c] == if r == row && shiftj <= c < shiftj + n then mat[i, c - shiftj] else old(final[r, c])
  {
    for j := 0 to n
      invariant forall r, c :: 0 <= r < final.Length0 && 0 <= c < final.Length1 ==>
        final[r, c] == if r == row && shiftj <= c < shiftj + j then mat[i, c - shiftj] else old(final[r, c])
    {
      final[row, j + shiftj] := mat[i, j];
    }
  }
}
