/** One line of the temporary file: ten points and the equation of the line that fits them. */
module PointLine {
  import opened Wrappers
  import opened Decimal
  import opened LineFifo
  import opened TempFile

  const POINTS := 10

  /** The points, and slope and intercept in thousandths. */
  datatype Line = Line(points: seq<(nat, nat)>, a: int, b: int)

  function ThreeDigits(n: nat): string
    requires n < 1000
  {
    [DigitChar(n / 100), DigitChar(n / 10 % 10), DigitChar(n % 10)]
  }

  function Sign(v: int, plus: bool): string { if v < 0 then "-" else if plus then "+" else "" }

  /** "%.3f" of a number of thousandths, or "%+.3f". */
  function Milli(v: int, plus: bool): string {
    var n: nat := if v < 0 then -v else v;
    Sign(v, plus) + Show(n / 1000) + "." + ThreeDigits(n % 1000)
  }

  /** "(%u, %u), ". */
  function PointText(p: (nat, nat)): string {
    "(" + Show(p.0) + ", " + Show(p.1) + "), "
  }

  function PointsText(points: seq<(nat, nat)>): string {
    if points == [] then "" else PointsText(points[..|points| - 1]) + PointText(points[|points| - 1])
  }

  function LineText(l: Line): string {
    PointsText(l.points) + Milli(l.a, false) + "x" + Milli(l.b, true) + [NEWLINE]
  }

  method Points2Bytes(l: Line) returns (buf: string)
    ensures buf == LineText(l)
    ensures |l.points| == POINTS ==> ExactLine(buf) == Some(l)
  {
    hide PointText, Milli, ExactLine;
    if |l.points| == POINTS { LineExactly(LineText(l), l); }
    buf := "";
    for i := 0 to |l.points|
      invariant buf == PointsText(l.points[..i])
    {
      assert l.points[..i + 1][..i] == l.points[..i];
      buf := buf + PointText(l.points[i]);
    }
    assert l.points[..|l.points|] == l.points;
    buf := buf + Milli(l.a, false) + "x" + Milli(l.b, true) + [NEWLINE];
  }

  // ---------------------------------------------------------------- the text, character by character

  /** A parenthesis, a numeral, a comma and a space, a numeral, a parenthesis, a comma and a space; nothing less. */
  function ExactPoint(text: string): Option<((nat, nat), string)> {
    match After(text, "(")
    case None => None
    case Some(first) =>
      match Numeral(first)
      case None => None
      case Some((x, behind)) =>
        match After(behind, ", ")
        case None => None
        case Some(second) =>
          match Numeral(second)
          case None => None
          case Some((y, end)) =>
            match After(end, "), ")
            case None => None
            case Some(rest) => Some(((x, y), rest))
  }

  lemma PointExactly(text: string, p: (nat, nat), rest: string)
    ensures ExactPoint(text) == Some((p, rest)) <==> text == PointText(p) + rest
  {
    hide Show, Numeral, After;
    var end := "), " + rest;
    var second := Show(p.1) + end;
    var behind := ", " + second;
    var first := Show(p.0) + behind;
    assert PointText(p) + rest == "(" + first;
    AfterExactly(text, "(", first);
    NumeralExactly(first, p.0, behind);
    AfterExactly(behind, ", ", second);
    NumeralExactly(second, p.1, end);
    AfterExactly(end, "), ", rest);
    if ExactPoint(text) == Some((p, rest)) {
      var first' := After(text, "(").value;
      var behind' := Numeral(first').value.1;
      var second' := After(behind', ", ").value;
      var end' := Numeral(second').value.1;
      AfterExactly(end', "), ", rest);
      NumeralExactly(second', p.1, end');
      AfterExactly(behind', ", ", second');
      NumeralExactly(first', p.0, behind');
      AfterExactly(text, "(", first');
    }
  }

  /** n points, one right behind the other. */
  function ExactPoints(text: string, n: nat): Option<(seq<(nat, nat)>, string)> {
    if n == 0 then Some(([], text))
    else
      match ExactPoints(text, n - 1)
      case None => None
      case Some((points, behind)) =>
        match ExactPoint(behind)
        case None => None
        case Some((p, rest)) => Some((points + [p], rest))
  }

  lemma {:induction false} PointsExactly(text: string, points: seq<(nat, nat)>, rest: string)
    ensures ExactPoints(text, |points|) == Some((points, rest)) <==> text == PointsText(points) + rest
  {
    hide PointText, ExactPoint;
    if points == [] {
      assert PointsText(points) + rest == rest;
    } else {
      var init, last := points[..|points| - 1], points[|points| - 1];
      assert points == init + [last];
      assert PointsText(points) + rest == PointsText(init) + (PointText(last) + rest);
      PointsExactly(text, init, PointText(last) + rest);
      PointExactly(PointText(last) + rest, last, rest);
      if ExactPoints(text, |points|) == Some((points, rest)) {
        var (points', behind) := ExactPoints(text, |init|).value;
        var (p, rest') := ExactPoint(behind).value;
        assert points' + [p] == points && points' == (points' + [p])[..|init|] && p == last;
        PointExactly(behind, last, rest);
        PointsExactly(text, init, behind);
      }
    }
  }

  /** A point and three digits. */
  function ExactFraction(text: string): Option<(nat, string)> {
    if |text| < 4 || text[0] != '.' || !IsDigit(text[1]) || !IsDigit(text[2]) || !IsDigit(text[3]) then None
    else Some((100 * DigitValue(text[1]) + 10 * DigitValue(text[2]) + DigitValue(text[3]), text[4..]))
  }

  lemma ThreeDigitsOf(n: nat, a: nat, b: nat, c: nat)
    requires a < 10 && b < 10 && c < 10
    ensures n == 100 * a + 10 * b + c <==> n < 1000 && a == n / 100 && b == n / 10 % 10 && c == n % 10
  {
  }

  lemma FractionReadsBack(n: nat, rest: string)
    requires n < 1000
    ensures ExactFraction("." + ThreeDigits(n) + rest) == Some((n, rest))
  {
    ThreeDigitsOf(n, n / 100, n / 10 % 10, n % 10);
    assert ("." + ThreeDigits(n) + rest)[4..] == rest;
  }

  lemma OnlyFractionReads(text: string, n: nat, rest: string)
    requires ExactFraction(text) == Some((n, rest))
    ensures n < 1000 && text == "." + ThreeDigits(n) + rest
  {
    ThreeDigitsOf(n, DigitValue(text[1]), DigitValue(text[2]), DigitValue(text[3]));
    assert text == "." + [text[1], text[2], text[3]] + text[4..];
  }

  /** A number of thousandths: a sign where one is due, a numeral, a point and three digits. */
  function ExactMilli(text: string, plus: bool): Option<(int, string)> {
    var minus := text != "" && text[0] == '-';
    var signed := minus || (plus && text != "" && text[0] == '+');
    if plus && !signed then None
    else
      match Numeral(if signed then text[1..] else text)
      case None => None
      case Some((whole, end)) =>
        match ExactFraction(end)
        case None => None
        case Some((part, rest)) =>
          var n := 1000 * whole + part;
          if minus && n == 0 then None else Some((if minus then -n else n, rest))
  }

  lemma MilliIsExact(v: int, plus: bool, rest: string)
    ensures ExactMilli(Milli(v, plus) + rest, plus) == Some((v, rest))
  {
    hide Show, Numeral, ThreeDigits, ExactFraction;
    var n: nat := if v < 0 then -v else v;
    var end := "." + ThreeDigits(n % 1000) + rest;
    var sign := if v < 0 then "-" else if plus then "+" else "";
    var text, body := Milli(v, plus) + rest, Show(n / 1000) + end;
    assert text == sign + body;
    NumeralExactly(body, n / 1000, end);
    FractionReadsBack(n % 1000, rest);
    assert IsDigit(Show(n / 1000)[0]);
    if sign == "" { assert text == body; } else { assert text[1..] == body; }
    assert n == 1000 * (n / 1000) + n % 1000;
  }

  lemma {:induction false} MilliInParts(v: int, plus: bool, whole: nat, part: nat, rest: string)
    requires part < 1000 && v == if v < 0 then -(1000 * whole + part) else 1000 * whole + part
    ensures Milli(v, plus) + rest == Sign(v, plus) + (Show(whole) + ("." + ThreeDigits(part) + rest))
  {
    hide Show, ThreeDigits;
    Thousands(if v < 0 then -v else v, whole, part);
  }

  /** The sign in front of a number that reads. */
  lemma SignReads(text: string, plus: bool, v: int, rest: string) returns (body: string)
    requires ExactMilli(text, plus) == Some((v, rest))
    ensures text == Sign(v, plus) + body && Numeral(body).Some?
    ensures var (whole, end) := Numeral(body).value;
      ExactFraction(end).Some? && ExactFraction(end).value.1 == rest
      && var n := 1000 * whole + ExactFraction(end).value.0; v == if v < 0 then -n else n
  {
    hide Numeral, ExactFraction;
    var signed := text != "" && (text[0] == '-' || (plus && text[0] == '+'));
    body := if signed then text[1..] else text;
    if signed { assert text == [text[0]] + body; } else { assert text == "" + body; }
  }

  lemma OnlyMilliIsExact(text: string, plus: bool, v: int, rest: string)
    requires ExactMilli(text, plus) == Some((v, rest))
    ensures text == Milli(v, plus) + rest
  {
    var body := SignReads(text, plus, v, rest);
    hide Show, Numeral, ThreeDigits, ExactFraction, ExactMilli, Milli, Sign;
    var (whole, end) := Numeral(body).value;
    var (part, _) := ExactFraction(end).value;
    NumeralExactly(body, whole, end);
    OnlyFractionReads(end, part, rest);
    MilliInParts(v, plus, whole, part, rest);
  }

  lemma MilliExactly(text: string, plus: bool, v: int, rest: string)
    ensures ExactMilli(text, plus) == Some((v, rest)) <==> text == Milli(v, plus) + rest
  {
    hide ExactMilli, Milli;
    MilliIsExact(v, plus, rest);
    if ExactMilli(text, plus) == Some((v, rest)) { OnlyMilliIsExact(text, plus, v, rest); }
  }

  lemma Thousands(n: nat, whole: nat, part: nat)
    requires n == 1000 * whole + part && part < 1000
    ensures n / 1000 == whole && n % 1000 == part
  {
  }

  /** Ten points, the slope, an x, the intercept with its sign and a line feed, and nothing after it. */
  function ExactLine(text: string): Option<Line> {
    match ExactPoints(text, POINTS)
    case None => None
    case Some((points, equation)) =>
      match ExactMilli(equation, false)
      case None => None
      case Some((a, behind)) =>
        match After(behind, "x")
        case None => None
        case Some(second) =>
          match ExactMilli(second, true)
          case None => None
          case Some((b, end)) => if end == "\n" then Some(Line(points, a, b)) else None
  }

  /** A text is the line exactly when each of its characters is what the format says. */
  lemma LineExactly(text: string, l: Line)
    requires |l.points| == POINTS
    ensures ExactLine(text) == Some(l) <==> text == LineText(l)
  {
    hide ExactPoints, ExactMilli, PointsText, Milli, After;
    var second := Milli(l.b, true) + "\n";
    var behind := "x" + second;
    var equation := Milli(l.a, false) + behind;
    assert LineText(l) == PointsText(l.points) + equation;
    if text == LineText(l) {
      PointsExactly(text, l.points, equation);
      MilliExactly(equation, false, l.a, behind);
      AfterExactly(behind, "x", second);
      MilliExactly(second, true, l.b, "\n");
    }
    if ExactLine(text) == Some(l) {
      var equation' := ExactPoints(text, POINTS).value.1;
      var behind' := ExactMilli(equation', false).value.1;
      var second' := After(behind', "x").value;
      PointsExactly(text, l.points, equation');
      MilliExactly(equation', false, l.a, behind');
      AfterExactly(behind', "x", second');
      MilliExactly(second', true, l.b, "\n");
    }
  }

  // ---------------------------------------------------------------- reading a line

  /** strtol: an optional sign and digits, and what follows. */
  function StrToInt(text: string): Option<(int, string)> {
    var signed := text != "" && (text[0] == '-' || text[0] == '+');
    var digits := if signed then text[1..] else text;
    var n := DigitRun(digits);
    if n == 0 then None
    else Some((if signed && text[0] == '-' then -(Value(digits[..n]) as int) else Value(digits[..n]), digits[n..]))
  }

  /** A point and what follows it; none where an assertion of the program fails. */
  function Buf2Point(text: string): Option<((int, int), string)> {
    if text == "" || text[0] != '(' then None
    else
      match StrToInt(text[1..])
      case None => None
      case Some((x, rest)) =>
        if |rest| < 2 || rest[0] != ',' then None
        else
          match StrToInt(rest[2..])
          case None => None
          case Some((y, after)) =>
            if |after| < 3 || after[0] != ')' then None else Some(((x, y), after[3..]))
  }

  /** A number with an optional fraction of three digits, in thousandths, and what follows. */
  function Buf2Milli(text: string): Option<(int, string)> {
    var minus := text != "" && text[0] == '-';
    match StrToInt(text)
    case None => None
    case Some((whole, rest)) =>
      if rest == "" || rest[0] != '.' then Some((1000 * whole, rest))
      else
        match StrToInt(rest[1..])
        case None => None
        case Some((fraction, after)) =>
          Some((if minus then 1000 * whole - fraction else 1000 * whole + fraction, after))
  }

  /** Slope and intercept. */
  function Buf2Equation(text: string): Option<(int, int)> {
    match Buf2Milli(text)
    case None => None
    case Some((a, rest)) =>
      if rest == "" || rest[0] != 'x' then None
      else
        match Buf2Milli(rest[1..])
        case None => None
        case Some((b, after)) => if after == "" || after[0] != NEWLINE then None else Some((a, b))
  }

  /** The first n points of a text and what follows. */
  function ReadPoints(text: string, n: nat): Option<(seq<(int, int)>, string)> {
    if n == 0 then Some(([], text))
    else
      match ReadPoints(text, n - 1)
      case None => None
      case Some((points, rest)) =>
        match Buf2Point(rest)
        case None => None
        case Some((p, after)) => Some((points + [p], after))
  }

  /** Reads ten points and the equation back from a line. */
  method ParseLine(text: string) returns (l: Option<(seq<(int, int)>, (int, int))>)
    ensures l == match ReadPoints(text, POINTS)
                 case None => None
                 case Some((points, rest)) =>
                   match Buf2Equation(rest)
                   case None => None
                   case Some(eq) => Some((points, eq))
  {
    hide Buf2Point, Buf2Equation;
    var temp := text;
    var points := [];
    for i := 0 to POINTS
      invariant ReadPoints(text, i) == Some((points, temp))
    {
      var p := Buf2Point(temp);
      if p == None {
        PointsStop(text, i + 1, POINTS);
        return None;
      }
      points, temp := points + [p.value.0], p.value.1;
    }
    var eq := Buf2Equation(temp);
    l := if eq == None then None else Some((points, eq.value));
  }

  /** Once a point is missing, so are all after it. */
  lemma {:induction false} PointsStop(text: string, k: nat, n: nat)
    requires k <= n && ReadPoints(text, k) == None
    ensures ReadPoints(text, n) == None
  {
    hide Buf2Point;
    if k < n { PointsStop(text, k, n - 1); }
  }

  // ---------------------------------------------------------------- round trip

  lemma {:induction false} IntReadsBack(n: nat, rest: string)
    requires rest == "" || !IsDigit(rest[0])
    ensures StrToInt(Show(n) + rest) == Some((n as int, rest))
  {
    hide Show, DigitRun, Value;
    var text := Show(n) + rest;
    RunOfDigits(Show(n), rest);
    ValueOfShow(n);
    assert text[|Show(n)|..] == rest;
    assert IsDigit(text[0]);
  }

  lemma {:induction false} SignedReadsBack(sign: string, n: nat, rest: string)
    requires sign == "+" || sign == "-"
    requires rest == "" || !IsDigit(rest[0])
    ensures StrToInt(sign + Show(n) + rest) == Some((if sign == "-" then -(n as int) else n, rest))
  {
    hide Show, DigitRun, Value;
    var text := Show(n) + rest;
    RunOfDigits(Show(n), rest);
    ValueOfShow(n);
    assert text[|Show(n)|..] == rest;
    assert sign + Show(n) + rest == sign + text;
    assert (sign + text)[1..] == text;
  }

  lemma PointReadsBack(p: (nat, nat), rest: string)
    ensures Buf2Point(PointText(p) + rest) == Some(((p.0 as int, p.1 as int), rest))
  {
    hide Show, StrToInt;
    var text := PointText(p) + rest;
    var second := Show(p.1) + ("), " + rest);
    assert text[1..] == Show(p.0) + (", " + second);
    IntReadsBack(p.0, ", " + second);
    assert (", " + second)[2..] == second;
    IntReadsBack(p.1, "), " + rest);
    assert ("), " + rest)[3..] == rest;
  }

  lemma ValueOfThree(a: nat, b: nat, c: nat)
    requires a < 10 && b < 10 && c < 10
    ensures Value([DigitChar(a), DigitChar(b), DigitChar(c)]) == 100 * a + 10 * b + c
  {
    var s := [DigitChar(a), DigitChar(b), DigitChar(c)];
    assert s[..2] == [DigitChar(a), DigitChar(b)] && s[..2][..1] == [DigitChar(a)] && [DigitChar(a)][..0] == [];
    assert Value([DigitChar(a)]) == a;
    assert Value(s[..2]) == 10 * a + b;
  }

  lemma ThreeDigitsRead(n: nat, rest: string)
    requires n < 1000 && (rest == "" || !IsDigit(rest[0]))
    ensures StrToInt(ThreeDigits(n) + rest) == Some((n as int, rest))
  {
    hide DigitRun, Value;
    var d := ThreeDigits(n);
    RunOfDigits(d, rest);
    ValueOfThree(n / 100, n / 10 % 10, n % 10);
    assert (d + rest)[..3] == d && (d + rest)[3..] == rest;
    assert IsDigit((d + rest)[0]);
  }

  lemma MilliReadsBack(v: int, plus: bool, rest: string)
    requires rest == "" || !IsDigit(rest[0])
    ensures Buf2Milli(Milli(v, plus) + rest) == Some((v, rest))
  {
    hide Show, StrToInt, ThreeDigits;
    var n: nat := if v < 0 then -v else v;
    var fraction := "." + ThreeDigits(n % 1000) + rest;
    var sign := if v < 0 then "-" else if plus then "+" else "";
    assert Milli(v, plus) + rest == sign + Show(n / 1000) + fraction;
    IntReadsBack(n / 1000, fraction);
    if sign != "" { SignedReadsBack(sign, n / 1000, fraction); }
    assert "" + Show(n / 1000) + fraction == Show(n / 1000) + fraction;
    assert fraction[1..] == ThreeDigits(n % 1000) + rest;
    ThreeDigitsRead(n % 1000, rest);
    assert IsDigit(Show(n / 1000)[0]);
    assert n == 1000 * (n / 1000) + n % 1000;
  }

  function AsInts(points: seq<(nat, nat)>): (r: seq<(int, int)>)
    ensures |r| == |points| && forall k :: 0 <= k < |r| ==> r[k] == (points[k].0 as int, points[k].1 as int)
  {
    seq(|points|, k requires 0 <= k < |points| => (points[k].0 as int, points[k].1 as int))
  }

  lemma {:induction false} PointsReadBack(points: seq<(nat, nat)>, rest: string)
    ensures ReadPoints(PointsText(points) + rest, |points|) == Some((AsInts(points), rest))
  {
    hide PointText, Buf2Point;
    if points == [] {
      assert PointsText(points) + rest == rest;
    } else {
      var init, last := points[..|points| - 1], points[|points| - 1];
      assert PointsText(points) + rest == PointsText(init) + (PointText(last) + rest);
      PointsReadBack(init, PointText(last) + rest);
      PointReadsBack(last, rest);
      assert AsInts(init) + [(last.0 as int, last.1 as int)] == AsInts(points);
    }
  }

  /** Ten points and an equation are read back from their line as they were. */
  lemma LineReadsBack(l: Line)
    requires |l.points| == POINTS
    ensures exists rest ::
      ReadPoints(LineText(l), POINTS) == Some((AsInts(l.points), rest)) && Buf2Equation(rest) == Some((l.a, l.b))
  {
    hide PointsText, Milli, ReadPoints, Buf2Milli;
    var second := Milli(l.b, true) + [NEWLINE];
    var rest := Milli(l.a, false) + ("x" + second);
    assert LineText(l) == PointsText(l.points) + rest;
    PointsReadBack(l.points, rest);
    MilliReadsBack(l.a, false, "x" + second);
    assert ("x" + second)[1..] == second;
    MilliReadsBack(l.b, true, [NEWLINE]);
  }

  // ---------------------------------------------------------------- the shape the scans rely on

  /** Not empty, on one line, no two spaces together and none in front. */
  predicate Tidy(s: string) {
    s != "" && s[0] != SPACE && NEWLINE !in s && NoDoubleSpace(s)
  }

  lemma TidyJoins(s: string, t: string)
    requires Tidy(s) && Tidy(t)
    ensures Tidy(s + t) && (s + t)[0] == s[0]
  {
    var st := s + t;
    forall i | 0 < i < |st| ensures st[i] != SPACE || st[i - 1] != SPACE {
      if i > |s| {
        assert st[i] == t[i - |s|] && st[i - 1] == t[i - 1 - |s|];
      }
    }
  }

  lemma DigitsAreTidy(s: string)
    requires s != "" && forall k :: 0 <= k < |s| ==> IsDigit(s[k])
    ensures Tidy(s)
  {
  }

  lemma PointTextIsTidy(p: (nat, nat))
    ensures Tidy(PointText(p)) && PointText(p)[0] == '('
  {
    hide Show, Tidy;
    assert Tidy("(") && Tidy(", ") && Tidy("), ") by { Separators(); }
    DigitsAreTidy(Show(p.0));
    DigitsAreTidy(Show(p.1));
    TidyJoins("(", Show(p.0));
    TidyJoins("(" + Show(p.0), ", ");
    TidyJoins("(" + Show(p.0) + ", ", Show(p.1));
    TidyJoins("(" + Show(p.0) + ", " + Show(p.1), "), ");
  }

  lemma Separators()
    ensures Tidy("(") && Tidy(", ") && Tidy("), ") && Tidy(".") && Tidy("x") && Tidy("-") && Tidy("+")
  {
  }

  lemma MilliIsTidy(v: int, plus: bool)
    ensures Tidy(Milli(v, plus))
  {
    hide Show, Tidy;
    Separators();
    var n: nat := if v < 0 then -v else v;
    var whole, fraction := Show(n / 1000), ThreeDigits(n % 1000);
    DigitsAreTidy(whole);
    DigitsAreTidy(fraction);
    TidyJoins(whole, ".");
    TidyJoins(whole + ".", fraction);
    if v < 0 || plus {
      var sign := if v < 0 then "-" else "+";
      TidyJoins(sign, whole + "." + fraction);
      assert sign + (whole + "." + fraction) == sign + whole + "." + fraction;
    } else {
      assert "" + whole + "." + fraction == whole + "." + fraction;
    }
  }

  lemma {:induction false} PointsTextIsTidy(points: seq<(nat, nat)>)
    requires points != []
    ensures Tidy(PointsText(points)) && PointsText(points)[0] == '('
  {
    hide PointText, Tidy;
    var init, last := points[..|points| - 1], points[|points| - 1];
    PointTextIsTidy(last);
    if init != [] {
      PointsTextIsTidy(init);
      TidyJoins(PointsText(init), PointText(last));
    } else {
      assert PointsText(points) == PointText(last);
    }
  }

  /** What the writer writes is a line as the scans need it, if it fits its buffer. */
  lemma LineTextIsLine(l: Line)
    requires |l.points| == POINTS && |LineText(l)| < LINE_SIZE
    ensures IsLine(LineText(l))
  {
    hide PointsText, Milli;
    var start, a, b := PointsText(l.points), Milli(l.a, false), Milli(l.b, true);
    PointsTextIsTidy(l.points);
    MilliIsTidy(l.a, false);
    MilliIsTidy(l.b, true);
    Separators();
    TidyJoins(start, a);
    TidyJoins(start + a, "x");
    TidyJoins(start + a + "x", b);
    var body := start + a + "x" + b;
    assert LineText(l) == body + [NEWLINE];
  }

  lemma {:induction false} PointsTextFits(points: seq<(nat, nat)>)
    requires forall k :: 0 <= k < |points| ==> points[k].0 < TenTo(10) && points[k].1 < TenTo(10)
    ensures |PointsText(points)| <= 26 * |points|
  {
    hide TenTo;
    if points != [] {
      var init, last := points[..|points| - 1], points[|points| - 1];
      PointsTextFits(init);
      ShowLength(last.0, 10);
      ShowLength(last.1, 10);
    }
  }

  /** With 32-bit coordinates and an equation in the range of a float the line fits the buffer. */
  lemma LineFits(l: Line)
    requires |l.points| == POINTS && 0 - TenTo(42) < l.a < TenTo(42) && 0 - TenTo(42) < l.b < TenTo(42)
    requires forall k :: 0 <= k < |l.points| ==> l.points[k].0 < TenTo(10) && l.points[k].1 < TenTo(10)
    ensures IsLine(LineText(l)) && |LineText(l)| < 512
  {
    hide TenTo, Show, PointsText;
    PointsTextFits(l.points);
    ShowLength((if l.a < 0 then -l.a else l.a) / 1000, 42);
    ShowLength((if l.b < 0 then -l.b else l.b) / 1000, 42);
    assert |LineText(l)| == |PointsText(l.points)| + |Milli(l.a, false)| + 1 + |Milli(l.b, true)| + 1;
    LineTextIsLine(l);
  }
}
