/** The text the server sends for a path. */
module Packet {
  import opened Wrappers
  import opened Decimal
  import opened GrowableQueue

  const NO_PATH := "path not possible."

  /** The vertices of a path, separated by arrows and ended by a full stop. */
  function Render(path: seq<nat>): string {
    if path == [] then ""
    else if |path| == 1 then Show(path[0]) + "."
    else Show(path[0]) + "->" + Render(path[1..])
  }

  function Answer(path: Option<seq<nat>>): string {
    match path
    case None => NO_PATH
    case Some(p) => Render(p)
  }

  /** What a reader finds: a numeral, an arrow and more of the same, or a numeral, a full stop and the end. */
  function ReadPath(text: string): (r: Option<seq<nat>>)
    ensures r.Some? ==> r.value != []
    decreases |text|
  {
    match Numeral(text)
    case None => None
    case Some((vertex, rest)) =>
      if rest == "." then Some([vertex])
      else if |rest| < 2 || rest[0] != '-' || rest[1] != '>' then None
      else
        match ReadPath(rest[2..])
        case None => None
        case Some(path) => Some([vertex] + path)
  }

  lemma {:induction false} RenderReadsBack(path: seq<nat>)
    requires path != []
    ensures ReadPath(Render(path)) == Some(path)
  {
    hide Show, Numeral;
    var first, tail := path[0], path[1..];
    assert path == [first] + tail;
    var rest := if tail == [] then "." else "->" + Render(tail);
    assert Render(path) == Show(first) + rest;
    NumeralExactly(Render(path), first, rest);
    if tail == [] {
      assert path == [first];
    } else {
      assert rest[2..] == Render(tail);
      RenderReadsBack(tail);
    }
  }

  lemma {:induction false} OnlyRenderReads(text: string, path: seq<nat>)
    requires ReadPath(text) == Some(path)
    ensures text == Render(path)
    decreases |path|
  {
    hide Show, Numeral;
    var (vertex, rest) := Numeral(text).value;
    NumeralExactly(text, vertex, rest);
    if rest == "." {
      assert path == [vertex];
    } else {
      var tail := ReadPath(rest[2..]).value;
      assert path == [vertex] + tail && path[1..] == tail;
      OnlyRenderReads(rest[2..], tail);
      assert rest == "->" + Render(tail);
      assert Render(path) == Show(vertex) + "->" + Render(tail) == Show(vertex) + ("->" + Render(tail));
    }
  }

  /** A text reads as a path exactly when it is the rendering of that path. */
  lemma {:induction false} RenderReads(text: string, path: seq<nat>)
    requires path != []
    ensures ReadPath(text) == Some(path) <==> text == Render(path)
  {
    RenderReadsBack(path);
    if ReadPath(text) == Some(path) { OnlyRenderReads(text, path); }
  }

  lemma NoPathUnread()
    ensures ReadPath(NO_PATH) == None
  {
    assert NO_PATH[0] == 'p' && DigitRun(NO_PATH) == 0;
  }

  /** Drains the path queue into the packet. */
  method PreparePacket(bfs: Queue?<nat>) returns (packet: string)
    requires bfs != null ==> bfs.Valid()
    modifies bfs
    ensures packet == Answer(if bfs == null then None else Some(old(bfs.Contents())))
    ensures bfs == null ==> packet == "path not possible."
    ensures bfs != null && old(bfs.Contents()) != [] ==> ReadPath(packet) == Some(old(bfs.Contents()))
    ensures bfs != null ==> bfs.Valid() && bfs.Contents() == []
  {
    hide Ring, Show, ReadPath;
    if bfs == null {
      return NO_PATH;
    }
    if bfs.Contents() != [] { RenderReads(Render(bfs.Contents()), bfs.Contents()); }
    packet := "";
    ghost var path := bfs.Contents();
    while !bfs.IsEmpty()
      invariant bfs.Valid() && bfs.line == old(bfs.line)
      invariant packet + Render(bfs.Contents()) == Render(path)
      decreases bfs.size
    {
      ghost var before, left := packet, bfs.Contents();
      var node := bfs.Dequeue();
      if !bfs.IsEmpty() {
        packet := packet + Show(node.value) + "->";
        assert before + (Show(left[0]) + "->" + Render(left[1..])) == packet + Render(left[1..]);
      } else {
        packet := packet + Show(node.value) + ".";
      }
    }
  }

  /** A numeral can be split off the front of a packet in one way only. */
  lemma {:induction false} NumeralSplits(m: nat, n: nat, r: string, t: string)
    requires Show(m) + r == Show(n) + t
    requires (r == [] || !IsDigit(r[0])) && (t == [] || !IsDigit(t[0]))
    ensures m == n && r == t
  {
    RunOfDigits(Show(m), r);
    RunOfDigits(Show(n), t);
    ValueOfShow(m);
    ValueOfShow(n);
    assert r == (Show(m) + r)[|Show(m)|..];
    assert t == (Show(n) + t)[|Show(n)|..];
  }

  /** The packet determines the path. */
  lemma {:induction false} RenderInjective(p: seq<nat>, q: seq<nat>)
    requires p != [] && q != [] && Render(p) == Render(q)
    ensures p == q
  {
    var r := if |p| == 1 then "." else "->" + Render(p[1..]);
    var t := if |q| == 1 then "." else "->" + Render(q[1..]);
    assert Render(p) == Show(p[0]) + r;
    assert Render(q) == Show(q[0]) + t;
    NumeralSplits(p[0], q[0], r, t);
    assert r[0] == t[0];
    if |p| > 1 {
      assert Render(p[1..]) == r[2..] && Render(q[1..]) == t[2..];
      RenderInjective(p[1..], q[1..]);
      assert p == [p[0]] + p[1..] && q == [q[0]] + q[1..];
    }
  }

  /** Different outcomes of the search are answered with different texts. */
  lemma AnswerInjective(a: Option<seq<nat>>, b: Option<seq<nat>>)
    requires a.Some? ==> a.value != []
    requires b.Some? ==> b.value != []
    requires Answer(a) == Answer(b)
    ensures a == b
  {
    if a.Some? { assert IsDigit(Render(a.value)[0]); }
    if b.Some? { assert IsDigit(Render(b.value)[0]); }
    if a.Some? && b.Some? { RenderInjective(a.value, b.value); }
  }

  /** Text and terminator fit in the buffer the source allocates: digit(V) + 4 bytes for every vertex. */
  lemma {:induction false} PacketFits(path: seq<nat>, V: nat)
    requires path != [] && forall k :: 0 <= k < |path| ==> path[k] < V
    ensures |Render(path)| + 1 <= (|Show(V)| + 4) * |path|
  {
    ShowMonotone(path[0], V);
    if |path| > 1 {
      PacketFits(path[1..], V);
      assert (|Show(V)| + 4) * |path| == (|Show(V)| + 4) + (|Show(V)| + 4) * |path[1..]|;
    }
  }
}
