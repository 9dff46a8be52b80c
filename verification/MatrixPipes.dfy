/** The parent and its four children: operands and quarters travel as packets through pipes. */
module MatrixPipes {
  import opened Wrappers
  import opened Decimal
  import opened Matrices
  import opened BlockProduct
  import opened MatrixPacket
  import opened MatrixSizes

  /**
   A pipe holds `capacity` bytes. A writer whose text does not fit waits with the rest, and puts it in, bit by
   bit, as the reader makes room; a read gets what happens to be there, and waits only when there is nothing.
   */
  class Pipe {
    const capacity: nat
    var buffer: string
    var backlog: string

    ghost predicate Valid()
      reads this
    {
      0 < capacity && |buffer| <= capacity
    }

    /** What is still to be read. */
    ghost function Bytes(): string
      reads this
    {
      buffer + backlog
    }

    constructor (capacity: nat)
      requires 0 < capacity
      ensures Valid() && this.capacity == capacity && buffer == backlog == ""
    {
      this.capacity := capacity;
      buffer, backlog := "", "";
    }

    /** A waiting writer puts some of its text in: something when the pipe is empty, and no more than there is room. */
    method Receive()
      requires Valid()
      modifies this
      ensures Valid() && Bytes() == old(Bytes()) && (Bytes() != "" ==> buffer != "")
      ensures old(backlog) == "" ==> backlog == "" && buffer == old(buffer)
    {
      var room := capacity - |buffer|;
      var most := if |backlog| <= room then |backlog| else room;
      var least := if buffer == "" && backlog != "" then 1 else 0;
      assert least <= most;
      var put: nat :| least <= put <= most;
      buffer, backlog := buffer + backlog[..put], backlog[put..];
    }

    /** One read(): everything asked for when no writer waits, and any part of it otherwise. */
    method Read(n: nat) returns (s: string)
      requires Valid()
      modifies this
      ensures Valid() && s + Bytes() == old(Bytes()) && |s| <= n && |s| <= capacity
      ensures n > 0 && old(Bytes()) != "" ==> s != ""
      ensures old(backlog) == "" ==>
        backlog == "" && s == old(Bytes())[..if n <= |old(Bytes())| then n else |old(Bytes())|]
    {
      Receive();
      var m := if n <= |buffer| then n else |buffer|;
      s, buffer := buffer[..m], buffer[m..];
    }

    /** One write(), which does not fail; the writer waits until all of it is in the pipe. */
    method Write(s: string)
      requires Valid()
      modifies this
      ensures Valid() && Bytes() == old(Bytes()) + s
      ensures backlog == "" <==> old(backlog) == "" && (s == "" || |old(buffer)| + |s| <= capacity)
    {
      if backlog == "" && |buffer| + |s| <= capacity {
        buffer := buffer + s;
      } else {
        backlog := backlog + s;
      }
    }
  }

  /** Item k of a packet's body: a dimension or an entry. */
  method Item(mat: array2<int>, k: nat) returns (item: int)
    requires k < |Items(View(mat))|
    ensures item == Items(View(mat))[k]
  {
    hide View;
    if k == 0 {
      item := mat.Length0;
    } else if k == 1 {
      item := mat.Length1;
    } else {
      CellPlace(mat.Length0, mat.Length1, k - 2);
      item := mat[(k - 2) / mat.Length1, (k - 2) % mat.Length1];
    }
  }

  /** Writes dimensions and entries one after another, then puts the length in front. */
  method Pack(mat: array2<int>) returns (pkt: string)
    ensures pkt == Packed(View(mat))
  {
    hide Fixed, View, Show, Cells;
    ghost var items := Items(View(mat));
    var size := mat.Length0 * mat.Length1 + 2;
    pkt := "";
    for k := 0 to size
      invariant pkt == Numbers(items[..k])
    {
      var item := Item(mat, k);
      assert items[..k + 1] == items[..k] + [item];
      pkt := pkt + Fixed(item);
    }
    assert items[..size] == items;
    pkt := Show(|pkt|) + ";" + pkt;
  }

  /** Stores number k, counting row by row. */
  method SetCell(mat: array2<int>, k: nat, x: int)
    requires k < mat.Length0 * mat.Length1
    modifies mat
    ensures forall r, c :: 0 <= r < mat.Length0 && 0 <= c < mat.Length1 ==>
      mat[r, c] == if r * mat.Length1 + c == k then x else old(mat[r, c])
  {
    var j := mat.Length1;
    CellPlace(mat.Length0, j, k);
    mat[k / j, k % j] := x;
    forall r, c | 0 <= r < mat.Length0 && 0 <= c < j
      ensures mat[r, c] == if r * j + c == k then x else old(mat[r, c])
    {
      CellAt(mat.Length0, j, r, c, k);
    }
  }

  /** Fills a new matrix with numbers read from the packet, row by row. */
  method UnpackCells(i: nat, j: nat, text: string) returns (mat: Option<array2<int>>)
    ensures mat.Some? ==> fresh(mat.value)
    ensures UnpackedCells(i, j, text) == if mat.Some? then Some(View(mat.value)) else None
  {
    hide View, StrToFloat;
    var m := new int[i, j];
    var rest := text;
    ghost var cells := [];
    var size := i * j;
    for k := 0 to size
      invariant ReadNumbers(text, k) == Some((cells, rest))
      invariant forall r, c :: 0 <= r < i && 0 <= c < j && r * j + c < k ==> m[r, c] == cells[r * j + c]
    {
      if rest == "" {
        ReadingStops(text, k + 1, size);
        return None;
      }
      var number := StrToFloat(rest[1..]);
      if number == None {
        ReadingStops(text, k + 1, size);
        return None;
      }
      SetCell(m, k, number.value.0);
      cells, rest := cells + [number.value.0], number.value.1;
    }
    forall r, c | 0 <= r < i && 0 <= c < j ensures m[r, c] == Laid(i, j, cells).rows[r][c] {
      CellIndex(i, j, r, c);
    }
    SameMatrix(View(m), Laid(i, j, cells));
    mat := Some(m);
  }

  method Unpack(pkt: string) returns (mat: Option<array2<int>>)
    ensures mat.Some? ==> fresh(mat.value)
    ensures Unpacked(pkt) == if mat.Some? then Some(View(mat.value)) else None
  {
    hide View, StrToFloat, ReadNumbers, UnpackedCells;
    var dims := ReadNumbers(pkt[DigitRun(pkt)..], 2);
    if dims == None || dims.value.0[0] < 0 || dims.value.0[1] < 0 {
      return None;
    }
    mat := UnpackCells(dims.value.0[0], dims.value.0[1], dims.value.1);
  }

  /**
   Reads ten bytes, learns the length of the packet and reads the rest of it, with one read() each. A read that
   gets less than it asks for is an error, so a packet is read when no writer waits, and never when its rest
   exceeds the capacity of the pipe.
   */
  method ReadMatrix(fd: Pipe) returns (mat: Option<array2<int>>)
    requires fd.Valid()
    modifies fd
    ensures fd.Valid()
    ensures mat.Some? ==> fresh(mat.value) && ReadPacket(old(fd.Bytes())) == Some((View(mat.value), fd.Bytes()))
    ensures mat.Some? ==> |old(fd.Bytes())| - |fd.Bytes()| <= INITIAL_READ_SIZE + fd.capacity
    ensures old(fd.backlog) == "" ==> fd.backlog == "" && (mat.None? <==> ReadPacket(old(fd.Bytes())).None?)
  {
    hide View, Unpacked;
    ghost var bytes := fd.Bytes();
    var pkt := fd.Read(INITIAL_READ_SIZE);
    if |pkt| != INITIAL_READ_SIZE {
      return None;
    }
    assert pkt == bytes[..INITIAL_READ_SIZE];
    var digits := DigitRun(pkt);
    if digits == 0 || digits == INITIAL_READ_SIZE {
      return None;
    }
    assert pkt[..digits] == bytes[..digits];
    var pktSize := Value(pkt[..digits]);
    var headerSize := digits + 1;
    var alreadyRead := INITIAL_READ_SIZE - headerSize;
    var restSize := pktSize - alreadyRead;
    if restSize < 0 {
      return None;
    }
    var rest := fd.Read(restSize);
    if |rest| != restSize {
      return None;
    }
    assert bytes == pkt + rest + fd.Bytes();
    assert bytes[..pktSize + headerSize] == pkt + rest;
    assert bytes[pktSize + headerSize..] == fd.Bytes();
    mat := Unpack(pkt + rest);
  }

  /** Sends two matrices as one text. */
  method Write2Matrix(fd: Pipe, left: array2<int>, right: array2<int>)
    requires fd.Valid() && fd.Bytes() == ""
    modifies fd
    ensures fd.Valid() && fd.Bytes() == Packed(View(left)) + Packed(View(right))
    ensures fd.backlog == "" <==> |Packed(View(left))| + |Packed(View(right))| <= fd.capacity
  {
    hide View, Packed;
    var first := Pack(left);
    var second := Pack(right);
    fd.Write(first + second);
    assert "" + (first + second) == first + second;
  }

  /** Reads a packet that is known to be next in the pipe. */
  method ReadPacked(fd: Pipe, ghost m: Matrix, ghost rest: string) returns (mat: Option<array2<int>>)
    requires fd.Valid() && m.Valid() && fd.Bytes() == Packed(m) + rest
    modifies fd
    ensures fd.Valid() && (mat.Some? ==> fresh(mat.value) && View(mat.value) == m && fd.Bytes() == rest)
    ensures mat.Some? ==> Passes(m, fd.capacity)
    ensures old(fd.backlog) == "" ==> fd.backlog == "" && (mat.Some? <==> Short(m))
  {
    hide View, Packed, ReadPacket, Short;
    ReadPacketOfPacked(m, rest);
    mat := ReadMatrix(fd);
  }

  /** A child: reads its operands, multiplies them and sends the quarter back. */
  method Quarter(down: Pipe, up: Pipe, ghost left: Matrix, ghost right: Matrix) returns (ok: bool)
    requires down != up && left.Valid() && right.Valid() && left.j == right.i
    requires down.Valid() && up.Valid() && down.Bytes() == Packed(left) + Packed(right) && up.Bytes() == ""
    modifies down, up
    ensures up.Valid()
    ensures ok ==> Passes(left, down.capacity) && Passes(right, down.capacity)
    ensures old(down.backlog) == "" ==> (ok <==> Short(left) && Short(right))
    ensures ok ==> down.Bytes() == "" && up.Bytes() == Packed(Product(left, right))
    ensures ok ==> (up.backlog == "" <==> |Packed(Product(left, right))| <= up.capacity)
  {
    hide View, Packed, Product, Passes, Short;
    var a := ReadPacked(down, left, Packed(right));
    if a == None {
      return false;
    }
    assert Packed(right) + "" == Packed(right);
    var b := ReadPacked(down, right, "");
    if b == None {
      return false;
    }
    var m := Multiply(a.value, b.value);
    var pkt := Pack(m);
    up.Write(pkt);
    assert "" + pkt == pkt;
    ok := true;
  }

  /** Gives one quarter to a child and collects it: operands down, product up. */
  method AssignAndCollect(a: array2<int>, b: array2<int>, q: nat, capacity: nat) returns (mat: Option<array2<int>>)
    requires a.Length0 == a.Length1 == b.Length0 == b.Length1 && q < CHILDREN && 0 < capacity
    ensures QuarterFits(LeftOperand(View(a), q), RightOperand(View(b), q), capacity) ==> mat.Some?
    ensures mat.Some? ==> QuarterPasses(LeftOperand(View(a), q), RightOperand(View(b), q), capacity)
    ensures mat.Some? ==> fresh(mat.value) && View(mat.value) == Quarters(View(a), View(b))[q]
  {
    hide View, Packed, Product, Passes, Short, LeftOperand, RightOperand;
    var left, right := Operands(a, b, q);
    var down := new Pipe(capacity);
    var up := new Pipe(capacity);
    Write2Matrix(down, left, right);
    var ok := Quarter(down, up, View(left), View(right));
    if !ok {
      return None;
    }
    ghost var m := Product(View(left), View(right));
    assert Packed(m) == Packed(m) + "";
    mat := ReadPacked(up, m, "");
  }

  /**
   The parent: the product of two n by n matrices, quarter by quarter. It succeeds whenever the pipes take
   every text at one go, and only if no packet is too long to be read; and whenever it succeeds the result is the
   whole product exactly when n is even.
   */
  method DistributedProduct(a: array2<int>, b: array2<int>, capacity: nat) returns (final: Option<array2<int>>)
    requires a.Length0 == a.Length1 == b.Length0 == b.Length1 && 0 < capacity
    ensures (forall q :: 0 <= q < CHILDREN ==>
               QuarterFits(LeftOperand(View(a), q), RightOperand(View(b), q), capacity)) ==> final.Some?
    ensures final.Some? ==> forall q :: 0 <= q < CHILDREN ==>
      QuarterPasses(LeftOperand(View(a), q), RightOperand(View(b), q), capacity)
    ensures 6 * (a.Length0 / 2 * a.Length0) + 4 > capacity ==> final.None?
    ensures final.Some? ==>
      View(final.value) == Piece(Product(View(a), View(b)), 0, a.Length0 / 2 * 2, 0, a.Length0 / 2 * 2)
    ensures final.Some? ==> (View(final.value) == Product(View(a), View(b)) <==> a.Length0 % 2 == 0)
  {
    hide View, Product, Piece, QuarterFits, QuarterPasses, LeftOperand, RightOperand, Merged, Quarters;
    QuarteredProduct(View(a), View(b));
    ghost var quarters := Quarters(View(a), View(b));
    var mats: seq<array2<int>> := [];
    for q := 0 to CHILDREN
      invariant |mats| == q && fresh(set m | m in mats)
      invariant forall k :: 0 <= k < q ==> View(mats[k]) == quarters[k]
      invariant forall k :: 0 <= k < q ==> QuarterPasses(LeftOperand(View(a), k), RightOperand(View(b), k), capacity)
    {
      var mat := AssignAndCollect(a, b, q, capacity);
      if mat == None {
        return None;
      }
      mats := mats + [mat.value];
    }
    if 6 * (a.Length0 / 2 * a.Length0) + 4 > capacity { LargeNeverPasses(View(a), View(b), 0, capacity); }
    assert Views(mats) == quarters;
    var merged := MergeQuarters(mats);
    final := Some(merged);
  }
}
