/**
 The text form of a matrix on the pipes: the length of the body and a semicolon, then the number of rows,
 the number of columns and the entries, each with three decimals and a semicolon.
 */
module MatrixPacket {
  import opened Wrappers
  import opened Decimal
  import opened Matrices

  const INITIAL_READ_SIZE := 10

  /** "%.3f;" of an integer. */
  function Fixed(x: int): string {
    (if x < 0 then "-" + Show(-x) else Show(x)) + ".000;"
  }

  function Numbers(s: seq<int>): string {
    if s == [] then "" else Numbers(s[..|s| - 1]) + Fixed(s[|s| - 1])
  }

  lemma {:induction false} MoreRows(j: nat, low: nat, high: nat)
    requires low < high
    ensures j * low + j <= j * high
  {
    assert j * high == j * (high - 1) + j;
    if low < high - 1 { MoreRows(j, low, high - 1); }
  }

  lemma DivisionIsUnique(j: nat, q: nat, m: nat, r: nat, c: nat)
    requires m < j && c < j && j * q + m == j * r + c
    ensures q == r && m == c
  {
    if q < r { MoreRows(j, q, r); }
    if r < q { MoreRows(j, r, q); }
  }

  /** Division by the number of columns finds the row and the column of an entry. */
  lemma CellIndex(i: nat, j: nat, r: nat, c: nat)
    requires r < i && c < j
    ensures r * j + c < i * j && (r * j + c) / j == r && (r * j + c) % j == c
  {
    MoreRows(j, r, i);
    assert r * j == j * r && i * j == j * i;
    var k := r * j + c;
    assert k == j * (k / j) + k % j;
    DivisionIsUnique(j, k / j, k % j, r, c);
  }

  lemma CellAt(i: nat, j: nat, r: nat, c: nat, k: nat)
    requires r < i && c < j && k < i * j
    ensures r * j + c == k <==> (r == k / j && c == k % j)
  {
    CellIndex(i, j, r, c);
    assert k == j * (k / j) + k % j;
  }

  lemma CellPlace(i: nat, j: nat, k: nat)
    requires k < i * j
    ensures j > 0 && k / j < i && k % j < j
  {
  }

  /** Entry k of a matrix, counting row by row. */
  function Cell(m: Matrix, k: nat): int
    requires m.Valid() && k < m.i * m.j
  {
    CellPlace(m.i, m.j, k);
    m.rows[k / m.j][k % m.j]
  }

  /** The entries of a matrix, row by row. */
  function Cells(m: Matrix): (s: seq<int>)
    requires m.Valid()
    ensures |s| == m.i * m.j && forall k :: 0 <= k < |s| ==> s[k] == Cell(m, k)
  {
    seq(m.i * m.j, k requires 0 <= k < m.i * m.j => Cell(m, k))
  }

  /** The matrix with given entries. */
  function Laid(i: nat, j: nat, s: seq<int>): (m: Matrix)
    requires |s| == i * j
    ensures m.Valid() && m.i == i && m.j == j
  {
    Matrix(i, j, seq(i, r requires 0 <= r < i =>
                       seq(j, c requires 0 <= c < j => CellIndex(i, j, r, c); s[r * j + c])))
  }

  /** The dimensions, then the entries. */
  function Items(m: Matrix): seq<int>
    requires m.Valid()
  {
    [m.i, m.j] + Cells(m)
  }

  function Body(m: Matrix): string
    requires m.Valid()
  {
    Numbers(Items(m))
  }

  function Packed(m: Matrix): string
    requires m.Valid()
  {
    Show(|Body(m)|) + ";" + Body(m)
  }

  /** Digits, perhaps with a fraction, at the front of a text, and what follows; none unless the fraction is zero. */
  function StrToUnsigned(text: string): Option<(int, string)> {
    var n := DigitRun(text);
    if n == 0 then None
    else
      var rest := text[n..];
      if rest == "" || rest[0] != '.' then Some((Value(text[..n]), rest))
      else
        var fraction := DigitRun(rest[1..]);
        if Value(rest[1..1 + fraction]) != 0 then None
        else Some((Value(text[..n]), rest[1 + fraction..]))
  }

  /** strtof on the texts that stand for integers. */
  function StrToFloat(text: string): Option<(int, string)> {
    if text == "" || text[0] != '-' then StrToUnsigned(text)
    else
      match StrToUnsigned(text[1..])
      case None => None
      case Some((x, rest)) => Some((-x, rest))
  }

  /** Reads n numbers, skipping the separator in front of each; the rest starts with the separator after. */
  function ReadNumbers(text: string, n: nat): (r: Option<(seq<int>, string)>)
    ensures r.Some? ==> |r.value.0| == n
  {
    if n == 0 then Some(([], text))
    else
      match ReadNumbers(text, n - 1)
      case None => None
      case Some((s, rest)) =>
        if rest == "" then None
        else
          match StrToFloat(rest[1..])
          case None => None
          case Some((x, after)) => Some((s + [x], after))
  }

  /** Once a number is missing, so are all after it. */
  lemma {:induction false} ReadingStops(text: string, k: nat, n: nat)
    requires k <= n && ReadNumbers(text, k) == None
    ensures ReadNumbers(text, n) == None
  {
    hide StrToFloat;
    if k < n { ReadingStops(text, k, n - 1); }
  }

  /** The matrix in a packet: past the length, the dimensions, then the entries row by row. */
  function Unpacked(pkt: string): (m: Option<Matrix>)
    ensures m.Some? ==> m.value.Valid()
  {
    match ReadNumbers(pkt[DigitRun(pkt)..], 2)
    case None => None
    case Some((dims, rest)) =>
      if dims[0] < 0 || dims[1] < 0 then None
      else
        UnpackedCells(dims[0], dims[1], rest)
  }

  function UnpackedCells(i: nat, j: nat, text: string): (m: Option<Matrix>)
    ensures m.Some? ==> m.value.Valid()
  {
    match ReadNumbers(text, i * j)
    case None => None
    case Some((cells, _)) => Some(Laid(i, j, cells))
  }

  /**
   Reads one packet off a pipe: ten bytes, which must hold the length and its separator, then the rest
   of the packet. None where the program gives up or reads past its buffer.
   */
  function ReadPacket(bytes: string): (r: Option<(Matrix, string)>)
    ensures r.Some? ==> r.value.0.Valid()
  {
    if |bytes| < INITIAL_READ_SIZE then None
    else
      var digits := DigitRun(bytes[..INITIAL_READ_SIZE]);
      if digits == 0 || digits == INITIAL_READ_SIZE then None
      else
        var whole := Value(bytes[..digits]) + digits + 1;
        if whole < INITIAL_READ_SIZE || |bytes| < whole then None
        else
          match Unpacked(bytes[..whole])
          case None => None
          case Some(m) => Some((m, bytes[whole..]))
  }

  // ---------------------------------------------------------------- reading back

  lemma ZeroFraction(rest: string)
    ensures var after := ".000;" + rest;
      DigitRun(after[1..]) == 3 && Value(after[1..4]) == 0 && after[4..] == ";" + rest
  {
    var after := ".000;" + rest;
    assert after[1..] == "000" + (";" + rest);
    RunOfDigits("000", ";" + rest);
    assert after[1..4] == "000";
    assert "000"[..2] == "00" && "00"[..1] == "0" && "0"[..0] == "";
    assert after[4..] == ";" + rest;
  }

  lemma {:induction false} UnsignedReadsBack(n: nat, rest: string)
    ensures StrToUnsigned(Show(n) + ".000;" + rest) == Some((n, ";" + rest))
  {
    hide Show, DigitRun, Value;
    var text := Show(n) + ".000;" + rest;
    assert text == Show(n) + (".000;" + rest);
    RunOfDigits(Show(n), ".000;" + rest);
    ValueOfShow(n);
    assert text[|Show(n)|..] == ".000;" + rest;
    ZeroFraction(rest);
  }

  lemma FixedReadsBack(x: int, rest: string)
    ensures StrToFloat(Fixed(x) + rest) == Some((x, ";" + rest))
  {
    hide Show, StrToUnsigned;
    if x < 0 {
      UnsignedReadsBack(-x, rest);
      assert (Fixed(x) + rest)[1..] == Show(-x) + ".000;" + rest;
    } else {
      UnsignedReadsBack(x, rest);
      assert IsDigit(Show(x)[0]);
      assert Fixed(x) + rest == Show(x) + ".000;" + rest;
    }
  }

  /** Numbers written one after another are read back in order. */
  lemma {:induction false} NumbersReadBack(s: seq<int>, rest: string)
    ensures ReadNumbers(";" + Numbers(s) + rest, |s|) == Some((s, ";" + rest))
  {
    hide Fixed, StrToFloat;
    if s == [] {
      assert ";" + Numbers(s) + rest == ";" + rest;
    } else {
      var init, last := s[..|s| - 1], s[|s| - 1];
      assert ";" + Numbers(s) + rest == ";" + Numbers(init) + (Fixed(last) + rest);
      NumbersReadBack(init, Fixed(last) + rest);
      assert (";" + (Fixed(last) + rest))[1..] == Fixed(last) + rest;
      FixedReadsBack(last, rest);
      assert init + [last] == s;
    }
  }

  lemma {:induction false} NumbersConcat(s: seq<int>, t: seq<int>)
    ensures Numbers(s + t) == Numbers(s) + Numbers(t)
  {
    hide Fixed;
    if t == [] {
      assert s + t == s;
    } else {
      var init := t[..|t| - 1];
      assert (s + t)[..|s + t| - 1] == s + init;
      NumbersConcat(s, init);
    }
  }

  lemma LaidCells(m: Matrix)
    requires m.Valid()
    ensures Laid(m.i, m.j, Cells(m)) == m
  {
    var cells, laid := Cells(m), Laid(m.i, m.j, Cells(m));
    forall r | 0 <= r < m.i ensures laid.rows[r] == m.rows[r] {
      forall c | 0 <= c < m.j ensures laid.rows[r][c] == m.rows[r][c] {
        CellIndex(m.i, m.j, r, c);
        assert cells[r * m.j + c] == Cell(m, r * m.j + c) == m.rows[r][c];
      }
    }
  }

  /** A packet holds its matrix. */
  lemma UnpackPack(m: Matrix)
    requires m.Valid()
    ensures Unpacked(Packed(m)) == Some(m)
  {
    hide Show, Numbers, ReadNumbers, Cells, Laid;
    var dims, cells := [m.i, m.j], Cells(m);
    var body := Body(m);
    RunOfDigits(Show(|body|), ";" + body);
    assert Packed(m) == Show(|body|) + (";" + body);
    assert Packed(m)[|Show(|body|)|..] == ";" + body;
    NumbersConcat(dims, cells);
    assert ";" + body == ";" + Numbers(dims) + Numbers(cells);
    NumbersReadBack(dims, Numbers(cells));
    NumbersReadBack(cells, "");
    assert ";" + Numbers(cells) + "" == ";" + Numbers(cells);
    LaidCells(m);
  }

  lemma BodyHasDimensions(m: Matrix)
    requires m.Valid()
    ensures |Body(m)| >= INITIAL_READ_SIZE
  {
    hide Cells;
    NumbersConcat([m.i, m.j], Cells(m));
    assert [m.i, m.j][..1] == [m.i] && [m.i][..0] == [];
    assert |Numbers([m.i, m.j])| == |Numbers([m.i])| + |Fixed(m.j)|;
  }

  /** The length of the body and its separator fit in the first ten bytes. */
  predicate Short(m: Matrix)
    requires m.Valid()
  {
    |Body(m)| < 1_000_000_000
  }

  /**
   A packet at the front of a pipe is read whole and nothing after it is, exactly when its body is short
   enough for its length and the separator to fit in the first ten bytes.
   */
  lemma ReadPacketOfPacked(m: Matrix, rest: string)
    requires m.Valid()
    ensures ReadPacket(Packed(m) + rest) == if Short(m) then Some((m, rest)) else None
  {
    hide Show, Body, Unpacked, Value, DigitRun;
    BodyHasDimensions(m);
    var header, body := Show(|Body(m)|), Body(m);
    var bytes := Packed(m) + rest;
    assert TenTo(9) == 1_000_000_000 by {
      assert TenTo(3) == 1000 && TenTo(6) == 1_000_000;
    }
    ShowLength(|body|, 9);
    if |header| <= 9 {
      assert bytes[..INITIAL_READ_SIZE] == header + (";" + body + rest)[..INITIAL_READ_SIZE - |header|];
      RunOfDigits(header, (";" + body + rest)[..INITIAL_READ_SIZE - |header|]);
      assert bytes[..|header|] == header;
      ValueOfShow(|body|);
      assert bytes[..|header| + 1 + |body|] == Packed(m);
      assert bytes[|header| + 1 + |body|..] == rest;
      UnpackPack(m);
    } else {
      assert bytes[..INITIAL_READ_SIZE] == header[..INITIAL_READ_SIZE] + "";
      RunOfDigits(header[..INITIAL_READ_SIZE], "");
    }
  }

  /** Two packets written back to back are read one after the other, and nothing is left. */
  lemma BackToBack(a: Matrix, b: Matrix)
    requires a.Valid() && b.Valid() && Short(a) && Short(b)
    ensures ReadPacket(Packed(a) + Packed(b)) == Some((a, Packed(b)))
    ensures ReadPacket(Packed(b)) == Some((b, ""))
  {
    hide Body, Packed, ReadPacket;
    ReadPacketOfPacked(a, Packed(b));
    ReadPacketOfPacked(b, "");
    assert Packed(b) + "" == Packed(b);
  }

  // ---------------------------------------------------------------- the text, character by character

  /** An integer with three decimals, all zero, and a semicolon; no sign but that of a negative number. */
  function ExactFixed(text: string): Option<(int, string)> {
    var minus := text != "" && text[0] == '-';
    match Numeral(if minus then text[1..] else text)
    case None => None
    case Some((n, end)) =>
      match After(end, ".000;")
      case None => None
      case Some(rest) =>
        var x: int := n;
        if minus && x == 0 then None else Some((if minus then -x else x, rest))
  }

  lemma FixedIsExact(x: int, rest: string)
    ensures ExactFixed(Fixed(x) + rest) == Some((x, rest))
  {
    hide Show, Numeral, After;
    var n: nat := if x < 0 then -x else x;
    var end := ".000;" + rest;
    var text, body := Fixed(x) + rest, Show(n) + end;
    NumeralExactly(body, n, end);
    AfterExactly(end, ".000;", rest);
    assert IsDigit(Show(n)[0]);
    if x < 0 { assert text == "-" + body && text[1..] == body; } else { assert text == body; }
  }

  lemma OnlyFixedIsExact(text: string, x: int, rest: string)
    requires ExactFixed(text) == Some((x, rest))
    ensures text == Fixed(x) + rest
  {
    hide Show, Numeral, After;
    var minus := text != "" && text[0] == '-';
    var body := if minus then text[1..] else text;
    var (n, end) := Numeral(body).value;
    NumeralExactly(body, n, end);
    AfterExactly(end, ".000;", rest);
    if minus {
      assert text == "-" + (Show(n) + (".000;" + rest)) == Fixed(x) + rest;
    } else {
      assert text == Show(n) + (".000;" + rest) == Fixed(x) + rest;
    }
  }

  /** n such numbers, one right behind the other. */
  function ExactNumbers(text: string, n: nat): Option<(seq<int>, string)> {
    if n == 0 then Some(([], text))
    else
      match ExactNumbers(text, n - 1)
      case None => None
      case Some((s, behind)) =>
        match ExactFixed(behind)
        case None => None
        case Some((x, rest)) => Some((s + [x], rest))
  }

  /** A text is a sequence of numbers exactly when each of its characters is what the format says. */
  lemma {:induction false} NumbersExactly(text: string, s: seq<int>, rest: string)
    ensures ExactNumbers(text, |s|) == Some((s, rest)) <==> text == Numbers(s) + rest
  {
    hide Fixed, ExactFixed;
    if s == [] {
      assert Numbers(s) + rest == rest;
    } else {
      var init, last := s[..|s| - 1], s[|s| - 1];
      assert s == init + [last];
      assert Numbers(s) + rest == Numbers(init) + (Fixed(last) + rest);
      NumbersExactly(text, init, Fixed(last) + rest);
      FixedIsExact(last, rest);
      if ExactNumbers(text, |s|) == Some((s, rest)) {
        var (before, behind) := ExactNumbers(text, |init|).value;
        var (x, _) := ExactFixed(behind).value;
        assert before + [x] == s && before == (before + [x])[..|init|] && x == last;
        OnlyFixedIsExact(behind, last, rest);
        NumbersExactly(text, init, behind);
      }
    }
  }

  /** A packet: the length of what follows the first semicolon, and the numbers. */
  lemma PackedExactly(m: Matrix)
    requires m.Valid()
    ensures Numeral(Packed(m)) == Some((|Body(m)|, ";" + Body(m)))
    ensures ExactNumbers(Body(m), |Items(m)|) == Some((Items(m), ""))
  {
    hide Cells, Numbers, ExactNumbers, Show, Numeral;
    var body := Body(m);
    assert Packed(m) == Show(|body|) + (";" + body);
    NumeralExactly(Packed(m), |body|, ";" + body);
    assert body == Numbers(Items(m)) + "";
    NumbersExactly(body, Items(m), "");
  }

  /** The numbers: rows, columns and the entries, row by row. */
  lemma ItemsByPosition(m: Matrix, r: nat, c: nat)
    requires m.Valid() && r < m.i && c < m.j
    ensures |Items(m)| == m.i * m.j + 2 && Items(m)[0] == m.i && Items(m)[1] == m.j && r * m.j + c < m.i * m.j
    ensures Items(m)[2 + (r * m.j + c)] == m.rows[r][c]
  {
    CellIndex(m.i, m.j, r, c);
    var k := r * m.j + c;
    hide Cells;
    assert Items(m)[2 + k] == Cells(m)[k] == Cell(m, k);
  }
}
