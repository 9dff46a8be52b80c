/** How long the packets of the quarters are, and which of them a pipe of a given capacity can carry. */
module MatrixSizes {
  import opened Decimal
  import opened Matrices
  import opened MatrixPacket

  /** Every text of a child fits its pipe at one go, and is short enough for its header. */
  predicate QuarterFits(left: Matrix, right: Matrix, capacity: nat)
    requires left.Valid() && right.Valid() && left.j == right.i
  {
    && Short(left) && Short(right) && Short(Product(left, right))
    && |Packed(left)| + |Packed(right)| <= capacity && |Packed(Product(left, right))| <= capacity
  }

  /** No packet of a child is too long to be read at all. */
  predicate QuarterPasses(left: Matrix, right: Matrix, capacity: nat)
    requires left.Valid() && right.Valid() && left.j == right.i
  {
    Passes(left, capacity) && Passes(right, capacity) && Passes(Product(left, right), capacity)
  }

  /** The header fits in the first read and the rest of the packet in the pipe. */
  predicate Passes(m: Matrix, capacity: nat)
    requires m.Valid()
  {
    Short(m) && |Packed(m)| <= INITIAL_READ_SIZE + capacity
  }

  // ---------------------------------------------------------------- the length of a packet

  /** The number has at most d digits. */
  predicate AtMost(x: int, d: nat) { (if x < 0 then -x else x) < TenTo(d) }

  lemma FixedLength(x: int, d: nat)
    requires d > 0
    ensures |Fixed(x)| >= 6
    ensures AtMost(x, d) ==> |Fixed(x)| <= d + 6
  {
    hide Show;
    ShowLength(if x < 0 then -x else x, d);
  }

  lemma {:induction false} NumbersLength(s: seq<int>, d: nat)
    requires d > 0
    ensures |Numbers(s)| >= 6 * |s|
    ensures (forall k :: 0 <= k < |s| ==> AtMost(s[k], d)) ==> |Numbers(s)| <= (d + 6) * |s|
  {
    hide Fixed;
    if s != [] {
      var init := s[..|s| - 1];
      NumbersLength(init, d);
      FixedLength(s[|s| - 1], d);
      assert forall k :: 0 <= k < |init| ==> init[k] == s[k];
      assert (d + 6) * |s| == (d + 6) * |init| + (d + 6);
    }
  }

  /** A packet has six characters for each number at least. */
  lemma PackedAtLeast(m: Matrix)
    requires m.Valid()
    ensures |Packed(m)| >= 6 * (m.i * m.j + 2) + 2
  {
    hide Numbers, Show;
    NumbersLength(Items(m), 1);
  }

  /** Every entry, and both dimensions, have at most d digits. */
  predicate Small(m: Matrix, d: nat)
    requires m.Valid()
  {
    && m.i < TenTo(d) && m.j < TenTo(d)
    && forall r, c :: 0 <= r < m.i && 0 <= c < m.j ==> AtMost(m.rows[r][c], d)
  }

  /** And no more than its digits, a sign, the fraction and the separators need. */
  lemma PackedAtMost(m: Matrix, d: nat)
    requires m.Valid() && d > 0 && Small(m, d) && (d + 6) * (m.i * m.j + 2) < 1_000_000_000
    ensures Short(m) && |Packed(m)| <= 10 + (d + 6) * (m.i * m.j + 2)
  {
    hide Numbers, Show, TenTo;
    var items := Items(m);
    forall k | 0 <= k < |items| ensures AtMost(items[k], d) {
      if k >= 2 {
        CellPlace(m.i, m.j, k - 2);
        assert items[k] == Cell(m, k - 2);
      }
    }
    NumbersLength(items, d);
    ShowLength(|Body(m)|, 9);
    TenToNine();
  }

  lemma TenToNine()
    ensures TenTo(9) == 1_000_000_000
  {
    assert TenTo(3) == 1000 && TenTo(6) == 1_000_000;
  }

  // ---------------------------------------------------------------- the quarters of large and of small matrices

  lemma {:induction false} Larger(a: nat, b: nat, c: nat, d: nat)
    requires a <= c && b <= d
    ensures a * b <= c * d
  {
  }

  /** The operands of large matrices never come through, whatever is read when. */
  lemma LargeNeverPasses(a: Matrix, b: Matrix, q: nat, capacity: nat)
    requires a.Valid() && b.Valid() && a.i == a.j == b.i == b.j && q < CHILDREN
    requires 6 * (a.i / 2 * a.i) + 4 > capacity
    ensures !QuarterPasses(LeftOperand(a, q), RightOperand(b, q), capacity)
  {
    hide Packed, Product, Short;
    var left := LeftOperand(a, q);
    PackedAtLeast(left);
    Larger(a.i / 2, a.i, left.i, left.j);
  }

  lemma {:induction false} DotBound(row: seq<int>, b: Matrix, c: nat, n: nat)
    requires b.Valid() && n <= b.i && n <= |row| && c < b.j
    requires forall k :: 0 <= k < n ==> -128 <= row[k] <= 128 && -128 <= b.rows[k][c] <= 128
    ensures -16384 * n <= Dot(row, b, c, n) <= 16384 * n
  {
    if n > 0 {
      DotBound(row, b, c, n - 1);
      var x, y := row[n - 1], b.rows[n - 1][c];
      SmallProducts(x, y);
    }
  }

  lemma SmallProducts(x: int, y: int)
    requires -128 <= x <= 128 && -128 <= y <= 128
    ensures -16384 <= x * y <= 16384
  {
    Larger(if x < 0 then -x else x, if y < 0 then -y else y, 128, 128);
  }

  /** The entries are characters, as the input files give them. */
  predicate Characters(m: Matrix)
    requires m.Valid()
  {
    forall r, c :: 0 <= r < m.i && 0 <= c < m.j ==> -128 <= m.rows[r][c] < 128
  }

  /** A product of characters has entries of at most seven digits. */
  lemma SmallProduct(left: Matrix, right: Matrix)
    requires left.Valid() && right.Valid() && left.j == right.i <= 64 && left.i <= 64 && right.j <= 64
    requires Characters(left) && Characters(right)
    ensures Small(left, 3) && Small(right, 3) && Small(Product(left, right), 7)
  {
    hide Dot, Product;
    assert TenTo(3) == 1000 && TenTo(7) == 10_000_000;
    hide TenTo;
    var m := Product(left, right);
    forall r, c | 0 <= r < m.i && 0 <= c < m.j ensures AtMost(m.rows[r][c], 7) {
      DotBound(left.rows[r], right, c, left.j);
    }
  }

  /** Up to 64 by 64 characters every text fits a pipe of 64 kilobytes at one go. */
  lemma UpTo64Fits(a: Matrix, b: Matrix, q: nat, capacity: nat)
    requires a.Valid() && b.Valid() && a.i == a.j == b.i == b.j <= 64 && q < CHILDREN && capacity >= 65536
    requires Characters(a) && Characters(b)
    ensures QuarterFits(LeftOperand(a, q), RightOperand(b, q), capacity)
  {
    var left, right := LeftOperand(a, q), RightOperand(b, q);
    assert left.i <= 32 && right.j <= 32 && left.j == right.i == a.i;
    assert Characters(left) && Characters(right);
    hide Packed, Dot, Product, Small, Short, Characters, LeftOperand, RightOperand;
    var m := Product(left, right);
    Larger(left.i, left.j, 32, 64);
    Larger(right.i, right.j, 64, 32);
    Larger(m.i, m.j, 32, 32);
    SmallProduct(left, right);
    PackedAtMost(left, 3);
    PackedAtMost(right, 3);
    PackedAtMost(m, 7);
  }

  /** From 256 by 256 on no operand of the first quarter comes through such a pipe. */
  lemma From256Fails(a: Matrix, b: Matrix, q: nat)
    requires a.Valid() && b.Valid() && 256 <= a.i == a.j == b.i == b.j && q < CHILDREN
    ensures !QuarterPasses(LeftOperand(a, q), RightOperand(b, q), 65536)
  {
    hide QuarterPasses, LeftOperand, RightOperand;
    Larger(128, 256, a.i / 2, a.i);
    LargeNeverPasses(a, b, q, 65536);
  }
}
