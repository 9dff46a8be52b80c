/**
 The temporary file as a queue of lines: the writer appends under the lock, and the reader reads the first
 line in one locked section and removes it in another, in any interleaving.
 */
module LineFifo {
  import opened Wrappers
  import opened TempFile

  function Joined(lines: seq<string>): string {
    if lines == [] then "" else lines[0] + Joined(lines[1..])
  }

  /** What the writer produces: a parenthesis first, a newline last, and no two spaces together. */
  predicate IsLine(line: string) {
    && 2 <= |line| < LINE_SIZE && line[0] == '(' && line[|line| - 1] == NEWLINE
    && (forall i :: 0 <= i < |line| - 1 ==> line[i] != NEWLINE)
    && NoDoubleSpace(line)
  }

  predicate NoDoubleSpace(s: string) {
    forall i :: 0 < i < |s| ==> s[i] != SPACE || s[i - 1] != SPACE
  }

  /** Lines one after another, and nothing else. */
  predicate IsText(text: string) {
    && (text != "" ==> text[0] == '(' && text[|text| - 1] == NEWLINE)
    && (forall i :: 0 < i < |text| ==> text[i] != SPACE || (text[i - 1] != SPACE && text[i - 1] != NEWLINE))
  }

  lemma {:induction false} JoinedIsText(lines: seq<string>)
    requires forall k :: 0 <= k < |lines| ==> IsLine(lines[k])
    ensures IsText(Joined(lines))
  {
    if lines != [] {
      JoinedIsText(lines[1..]);
      var first, rest := lines[0], Joined(lines[1..]);
      var text := first + rest;
      forall i | 0 < i < |text| ensures text[i] != SPACE || (text[i - 1] != SPACE && text[i - 1] != NEWLINE) {
        if i > |first| {
          assert text[i] == rest[i - |first|] && text[i - 1] == rest[i - |first| - 1];
        }
      }
    }
  }

  lemma {:induction false} JoinedAppend(lines: seq<string>, line: string)
    ensures Joined(lines + [line]) == Joined(lines) + line
  {
    if lines == [] {
      assert lines + [line] == [line];
      assert [line][1..] == [];
    } else {
      assert (lines + [line])[1..] == lines[1..] + [line];
      JoinedAppend(lines[1..], line);
    }
  }

  // ---------------------------------------------------------------- the scans

  /** The writer's scan stops exactly at the end of the text, whatever the parities and the rubbish. */
  lemma {:induction false} ScanFindsTheEnd(text: string, k: nat, at: nat, stale: char)
    requires IsText(text) && at <= |text|
    ensures ScanEmpty(text + Spaces(k), at, stale) == |text|
    decreases |text| - at
  {
    var bytes := text + Spaces(k);
    if at + 1 < |text| {
      assert bytes[at + 1] == text[at + 1];
      ScanFindsTheEnd(text, k, at + 2, text[at + 1]);
    } else if at < |text| {
      assert bytes[at] == NEWLINE;
    }
  }

  /** With only spaces in the file the reader's scan runs to its end. */
  lemma {:induction false} ScanSkipsSpaces(k: nat, at: nat)
    requires at <= k
    ensures ScanAvailable(Spaces(k), at) == k
    decreases k - at
  {
    if at < k { ScanSkipsSpaces(k, if at + 1 == k then at + 1 else at + 2); }
  }

  lemma {:induction false} ReadsUpToNewline(line: string, rest: string, off: nat)
    requires IsLine(line) && off < |line|
    ensures LineAt(line + rest, 0, off) == Some(line)
    decreases |line| - off
  {
    var bytes := line + rest;
    assert bytes[off] == line[off];
    if off == |line| - 1 {
      assert bytes[0..off + 1] == line;
    } else {
      ReadsUpToNewline(line, rest, off + 1);
    }
  }

  /** The reader gets the first line when there is one and nothing otherwise. */
  lemma {:induction false} ReadsFirst(lines: seq<string>, k: nat)
    requires forall i :: 0 <= i < |lines| ==> IsLine(lines[i])
    ensures var bytes := Joined(lines) + Spaces(k);
      LineAt(bytes, ScanAvailable(bytes, 0), 0) == if lines == [] then None else Some(lines[0])
  {
    var bytes := Joined(lines) + Spaces(k);
    if lines == [] {
      assert bytes == Spaces(k);
      ScanSkipsSpaces(k, 0);
    } else {
      assert bytes == lines[0] + (Joined(lines[1..]) + Spaces(k));
      ReadsUpToNewline(lines[0], Joined(lines[1..]) + Spaces(k), 0);
    }
  }

  lemma {:induction false} FirstLineEnds(first: string, rest: string)
    requires IsLine(first)
    ensures FirstNewline(first + rest) == |first| - 1 && (first + rest)[..|first|] == first
  {
    assert (first + rest)[|first| - 1] == NEWLINE;
    assert forall i :: 0 <= i < |first| ==> (first + rest)[i] == first[i];
  }

  /** Removal takes away the first line and leaves the length of the file. */
  lemma {:induction false} RemovesFirst(lines: seq<string>, k: nat)
    requires lines != [] && IsLine(lines[0])
    ensures var bytes := Joined(lines) + Spaces(k);
      NEWLINE in bytes && WithoutFirst(bytes) == Joined(lines[1..]) + Spaces(k + |lines[0]|)
  {
    var first, rest := lines[0], Joined(lines[1..]);
    var bytes := Joined(lines) + Spaces(k);
    assert bytes == first + (rest + Spaces(k));
    FirstLineEnds(first, rest + Spaces(k));
    assert bytes[|first| - 1] == NEWLINE;
    assert bytes[|first|..] == rest + Spaces(k);
    assert rest + Spaces(k) + Spaces(|first|) == rest + Spaces(k + |first|);
  }

  /** Appending takes up spaces first and then lengthens the file. */
  lemma {:induction false} AppendsLast(lines: seq<string>, k: nat, line: string, rubbish: char)
    requires forall i :: 0 <= i < |lines| ==> IsLine(lines[i])
    ensures var bytes := Joined(lines) + Spaces(k);
      Overwrite(bytes, ScanEmpty(bytes, 0, rubbish), line)
      == Joined(lines + [line]) + Spaces(if k <= |line| then 0 else k - |line|)
  {
    var text := Joined(lines);
    JoinedIsText(lines);
    ScanFindsTheEnd(text, k, 0, rubbish);
    JoinedAppend(lines, line);
    assert (text + Spaces(k))[..|text|] == text;
    if |line| <= k {
      assert (text + Spaces(k))[|text| + |line|..] == Spaces(k - |line|);
    }
  }

  // ---------------------------------------------------------------- writer and reader

  /** `produced` and `consumed` are the histories; the reader is between its two sections while `removing`. */
  datatype State = State(bytes: string, produced: seq<string>, consumed: seq<string>, removing: bool)

  /** One locked section; the writer's buffer holds `rubbish` when its scan begins. */
  datatype Section = Append(line: string, rubbish: char) | Read | Remove

  predicate Enabled(s: State, section: Section) {
    match section
    case Append(line, _) => IsLine(line)
    case Read => !s.removing
    case Remove => s.removing && NEWLINE in s.bytes
  }

  function Exec(s: State, section: Section): State
    requires Enabled(s, section)
  {
    match section
    case Append(line, rubbish) =>
      s.(bytes := Overwrite(s.bytes, ScanEmpty(s.bytes, 0, rubbish), line), produced := s.produced + [line])
    case Read =>
      (match LineAt(s.bytes, ScanAvailable(s.bytes, 0), 0)
       case None => s
       case Some(line) => s.(consumed := s.consumed + [line], removing := true))
    case Remove => s.(bytes := WithoutFirst(s.bytes), removing := false)
  }

  function Init(): State { State("", [], [], false) }

  /** A finite run: any interleaving of locked sections. */
  ghost predicate Run(states: seq<State>, sections: seq<Section>) {
    && |states| == |sections| + 1 && states[0] == Init()
    && forall k :: 0 <= k < |sections| ==> Follows(states[k], sections[k], states[k + 1])
  }

  ghost predicate Follows(s: State, section: Section, s': State) {
    Enabled(s, section) && s' == Exec(s, section)
  }

  ghost predicate Reachable(s: State) {
    exists states, sections :: Run(states, sections) && states[|sections|] == s
  }

  /** How many lines have left the file. */
  function Removed(s: State): int { |s.consumed| - if s.removing then 1 else 0 }

  ghost predicate Inv(s: State) {
    && 0 <= Removed(s) && |s.consumed| <= |s.produced|
    && s.consumed == s.produced[..|s.consumed|]
    && (forall i :: 0 <= i < |s.produced| ==> IsLine(s.produced[i]))
    && exists k :: s.bytes == Joined(s.produced[Removed(s)..]) + Spaces(k)
  }

  lemma AppendKeeps(s: State, line: string, rubbish: char)
    requires Inv(s) && IsLine(line)
    ensures Inv(Exec(s, Append(line, rubbish)))
  {
    hide IsLine, Overwrite, ScanEmpty, Joined;
    var left := s.produced[Removed(s)..];
    var k :| s.bytes == Joined(left) + Spaces(k);
    AppendsLast(left, k, line, rubbish);
    assert (s.produced + [line])[Removed(s)..] == left + [line];
  }

  lemma ReadKeeps(s: State)
    requires Inv(s) && !s.removing
    ensures Inv(Exec(s, Read))
    ensures Exec(s, Read).consumed ==
      s.consumed + if |s.consumed| == |s.produced| then [] else [s.produced[|s.consumed|]]
  {
    hide IsLine, LineAt, ScanAvailable, Joined;
    var left := s.produced[Removed(s)..];
    var k :| s.bytes == Joined(left) + Spaces(k);
    ReadsFirst(left, k);
  }

  lemma RemoveKeeps(s: State)
    requires Inv(s) && s.removing
    ensures Enabled(s, Remove) && Inv(Exec(s, Remove))
  {
    hide IsLine, WithoutFirst, Joined;
    var left := s.produced[Removed(s)..];
    var k :| s.bytes == Joined(left) + Spaces(k);
    RemovesFirst(left, k);
    assert s.produced[|s.consumed|..] == left[1..];
  }

  lemma {:induction false} RunInv(states: seq<State>, sections: seq<Section>, n: nat)
    requires Run(states, sections) && n <= |sections|
    ensures Inv(states[n])
  {
    hide Inv, Enabled, Exec;
    if n == 0 {
      InitInv();
    } else {
      RunInv(states, sections, n - 1);
      assert Follows(states[n - 1], sections[n - 1], states[n - 1 + 1]);
      StepKeeps(states[n - 1], sections[n - 1]);
    }
  }

  lemma InitInv()
    ensures Inv(Init())
  {
    assert Joined([]) + Spaces(0) == "";
  }

  lemma StepKeeps(s: State, section: Section)
    requires Inv(s) && Enabled(s, section)
    ensures Inv(Exec(s, section))
  {
    hide Inv, Exec;
    match section
    case Append(line, rubbish) => AppendKeeps(s, line, rubbish);
    case Read => ReadKeeps(s);
    case Remove => RemoveKeeps(s);
  }

  lemma ReachableInv(s: State)
    requires Reachable(s)
    ensures Inv(s)
  {
    hide Inv, Follows;
    var states, sections :| Run(states, sections) && states[|sections|] == s;
    RunInv(states, sections, |sections|);
  }

  /** In every interleaving the lines consumed are the first lines produced, in order. */
  lemma FirstInFirstOut(s: State)
    requires Reachable(s)
    ensures s.consumed <= s.produced
  {
    hide Reachable, Joined, IsLine;
    ReachableInv(s);
  }

  /** In every interleaving the file is the lines not yet removed, followed by spaces only. */
  lemma FileIsTheRest(s: State)
    requires Reachable(s)
    ensures exists k :: 0 <= Removed(s) <= |s.produced| && s.bytes == Joined(s.produced[Removed(s)..]) + Spaces(k)
  {
    hide Reachable, Joined, IsLine;
    ReachableInv(s);
  }

  /** The reader comes back with the next line exactly when there is one; it is never misled by the spaces. */
  lemma ReaderFindsNext(s: State)
    requires Reachable(s) && !s.removing
    ensures Exec(s, Read).consumed ==
      s.consumed + if |s.consumed| < |s.produced| then [s.produced[|s.consumed|]] else []
  {
    hide Reachable, Joined, IsLine, LineAt, ScanAvailable;
    ReachableInv(s);
    ReadKeeps(s);
  }

  /** A line that was read is still the first one when it is removed, whatever was appended in between. */
  lemma RemovesWhatWasRead(s: State)
    requires Reachable(s) && s.removing
    ensures Enabled(s, Remove) && |s.consumed| > 0
    ensures s.bytes[..FirstNewline(s.bytes) + 1] == s.consumed[|s.consumed| - 1]
  {
    hide Reachable, WithoutFirst;
    ReachableInv(s);
    RemoveKeeps(s);
    var left := s.produced[Removed(s)..];
    var k :| s.bytes == Joined(left) + Spaces(k);
    var first := left[0];
    assert s.bytes == first + (Joined(left[1..]) + Spaces(k));
    FirstLineEnds(first, Joined(left[1..]) + Spaces(k));
  }
}
