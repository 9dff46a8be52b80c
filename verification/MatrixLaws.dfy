/**
 What the matrix product is, without its formula: it is linear in either operand, and a matrix with a single 1
 picks a row or a column.
 */
module MatrixLaws {
  import opened Matrices

  /** Entry by entry. */
  function Plus(a: Matrix, b: Matrix): (m: Matrix)
    requires a.Valid() && b.Valid() && a.i == b.i && a.j == b.j
    ensures m.Valid() && m.i == a.i && m.j == a.j
    ensures forall r, c :: 0 <= r < m.i && 0 <= c < m.j ==> m.rows[r][c] == a.rows[r][c] + b.rows[r][c]
  {
    Matrix(a.i, a.j, seq(a.i, r requires 0 <= r < a.i =>
                          seq(a.j, c requires 0 <= c < a.j => a.rows[r][c] + b.rows[r][c])))
  }

  function Times(k: int, a: Matrix): (m: Matrix)
    requires a.Valid()
    ensures m.Valid() && m.i == a.i && m.j == a.j
    ensures forall r, c :: 0 <= r < m.i && 0 <= c < m.j ==> m.rows[r][c] == k * a.rows[r][c]
  {
    Matrix(a.i, a.j, seq(a.i, r requires 0 <= r < a.i => seq(a.j, c requires 0 <= c < a.j => k * a.rows[r][c])))
  }

  /** Zeros, but for a 1 in row r0 and column c0. */
  function Unit(i: nat, j: nat, r0: nat, c0: nat): (m: Matrix)
    ensures m.Valid() && m.i == i && m.j == j
    ensures forall r, c :: 0 <= r < i && 0 <= c < j ==> m.rows[r][c] == if r == r0 && c == c0 then 1 else 0
  {
    Matrix(i, j, seq(i, r requires 0 <= r < i =>
                      seq(j, c requires 0 <= c < j => if r == r0 && c == c0 then 1 else 0)))
  }

  function Identity(n: nat): (m: Matrix)
    ensures m.Valid() && m.i == m.j == n
    ensures forall r, c :: 0 <= r < n && 0 <= c < n ==> m.rows[r][c] == if r == c then 1 else 0
  {
    Matrix(n, n, seq(n, r requires 0 <= r < n => seq(n, c requires 0 <= c < n => if r == c then 1 else 0)))
  }

  // ---------------------------------------------------------------- linearity

  lemma {:induction false} DotAddsRight(row: seq<int>, b: Matrix, d: Matrix, c: nat, n: nat)
    requires b.Valid() && d.Valid() && b.i == d.i && b.j == d.j && n <= b.i && n <= |row| && c < b.j
    ensures Dot(row, Plus(b, d), c, n) == Dot(row, b, c, n) + Dot(row, d, c, n)
  {
    if n > 0 {
      DotAddsRight(row, b, d, c, n - 1);
      Spread(row[n - 1], b.rows[n - 1][c], d.rows[n - 1][c]);
    }
  }

  lemma Spread(k: int, x: int, y: int)
    ensures k * (x + y) == k * x + k * y && (x + y) * k == x * k + y * k
  {
  }

  lemma Regroup(k: int, x: int, y: int)
    ensures k * x * y == k * (x * y) == x * (k * y)
  {
  }

  lemma {:induction false} DotAddsLeft(row: seq<int>, other: seq<int>, both: seq<int>, b: Matrix, c: nat, n: nat)
    requires b.Valid() && n <= b.i && n <= |row| && |row| == |other| == |both| && c < b.j
    requires forall k :: 0 <= k < |both| ==> both[k] == row[k] + other[k]
    ensures Dot(both, b, c, n) == Dot(row, b, c, n) + Dot(other, b, c, n)
  {
    if n > 0 {
      DotAddsLeft(row, other, both, b, c, n - 1);
      Spread(b.rows[n - 1][c], row[n - 1], other[n - 1]);
    }
  }

  lemma {:induction false} DotScales(k: int, row: seq<int>, scaled: seq<int>, b: Matrix, c: nat, n: nat)
    requires b.Valid() && n <= b.i && n <= |row| == |scaled| && c < b.j
    requires forall x :: 0 <= x < |row| ==> scaled[x] == k * row[x]
    ensures Dot(scaled, b, c, n) == k * Dot(row, b, c, n) == Dot(row, Times(k, b), c, n)
  {
    if n > 0 {
      DotScales(k, row, scaled, b, c, n - 1);
      Regroup(k, row[n - 1], b.rows[n - 1][c]);
      Spread(k, Dot(row, b, c, n - 1), row[n - 1] * b.rows[n - 1][c]);
    }
  }

  /** The product is additive in either operand. */
  lemma ProductAdds(a: Matrix, b: Matrix, d: Matrix)
    requires a.Valid() && b.Valid() && d.Valid() && b.i == d.i && b.j == d.j
    ensures a.j == b.i ==> Product(a, Plus(b, d)) == Plus(Product(a, b), Product(a, d))
    ensures b.j == a.i ==> Product(Plus(b, d), a) == Plus(Product(b, a), Product(d, a))
  {
    hide Dot, Product, Plus;
    if a.j == b.i {
      forall r, c | 0 <= r < a.i && 0 <= c < b.j
        ensures Product(a, Plus(b, d)).rows[r][c] == Plus(Product(a, b), Product(a, d)).rows[r][c]
      {
        DotAddsRight(a.rows[r], b, d, c, a.j);
      }
      SameMatrix(Product(a, Plus(b, d)), Plus(Product(a, b), Product(a, d)));
    }
    if b.j == a.i {
      forall r, c | 0 <= r < b.i && 0 <= c < a.j
        ensures Product(Plus(b, d), a).rows[r][c] == Plus(Product(b, a), Product(d, a)).rows[r][c]
      {
        DotAddsLeft(b.rows[r], d.rows[r], Plus(b, d).rows[r], a, c, b.j);
      }
      SameMatrix(Product(Plus(b, d), a), Plus(Product(b, a), Product(d, a)));
    }
  }

  /** And homogeneous. */
  lemma ProductScales(k: int, a: Matrix, b: Matrix)
    requires a.Valid() && b.Valid() && a.j == b.i
    ensures Product(Times(k, a), b) == Times(k, Product(a, b)) == Product(a, Times(k, b))
  {
    hide Dot, Product, Times;
    forall r, c | 0 <= r < a.i && 0 <= c < b.j
      ensures Product(Times(k, a), b).rows[r][c] == Times(k, Product(a, b)).rows[r][c]
           == Product(a, Times(k, b)).rows[r][c]
    {
      DotScales(k, a.rows[r], Times(k, a).rows[r], b, c, a.j);
    }
    SameMatrix(Product(Times(k, a), b), Times(k, Product(a, b)));
    SameMatrix(Times(k, Product(a, b)), Product(a, Times(k, b)));
  }

  // ---------------------------------------------------------------- single entries

  lemma {:induction false} DotPicks(row: seq<int>, b: Matrix, c: nat, n: nat, k: nat)
    requires b.Valid() && n <= b.i && n <= |row| && c < b.j
    requires forall x :: 0 <= x < n && x != k ==> row[x] == 0 || b.rows[x][c] == 0
    ensures Dot(row, b, c, n) == if k < n then row[k] * b.rows[k][c] else 0
  {
    if n > 0 { DotPicks(row, b, c, n - 1, k); }
  }

  /** A single 1 on the right puts one column of a into one column of the product, and zeros elsewhere. */
  lemma UnitRight(a: Matrix, n: nat, k: nat, c0: nat, r: nat, c: nat)
    requires a.Valid() && k < a.j && c0 < n && r < a.i && c < n
    ensures Product(a, Unit(a.j, n, k, c0)).rows[r][c] == if c == c0 then a.rows[r][k] else 0
  {
    hide Dot, Product, Unit;
    DotPicks(a.rows[r], Unit(a.j, n, k, c0), c, a.j, k);
  }

  /** A single 1 on the left puts one row of b into one row of the product. */
  lemma UnitLeft(b: Matrix, n: nat, r0: nat, k: nat, r: nat, c: nat)
    requires b.Valid() && k < b.i && r0 < n && r < n && c < b.j
    ensures Product(Unit(n, b.i, r0, k), b).rows[r][c] == if r == r0 then b.rows[k][c] else 0
  {
    hide Dot, Product, Unit;
    DotPicks(Unit(n, b.i, r0, k).rows[r], b, c, b.i, k);
  }

  lemma ProductWithIdentity(b: Matrix)
    requires b.Valid()
    ensures Product(Identity(b.i), b) == b == Product(b, Identity(b.j))
  {
    hide Dot, Product, Identity;
    forall r, c | 0 <= r < b.i && 0 <= c < b.j
      ensures Product(Identity(b.i), b).rows[r][c] == b.rows[r][c] == Product(b, Identity(b.j)).rows[r][c]
    {
      DotPicks(Identity(b.i).rows[r], b, c, b.i, r);
      DotPicks(b.rows[r], Identity(b.j), c, b.j, c);
    }
    SameMatrix(Product(Identity(b.i), b), b);
    SameMatrix(b, Product(b, Identity(b.j)));
  }
}
