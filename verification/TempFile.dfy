/** The temporary file that holds the lines not yet consumed, followed by spaces. */
module TempFile {
  import opened Wrappers

  const NEWLINE := '\n'
  const SPACE := ' '
  const LINE_SIZE := 512

  function Spaces(k: nat): (s: string)
    ensures |s| == k && forall i :: 0 <= i < k ==> s[i] == SPACE
  {
    seq(k, _ => SPACE)
  }

  /** Where the two-byte scan of the writer stops; `stale` is what the buffer's second byte held before. */
  function ScanEmpty(bytes: string, at: nat, stale: char): (r: nat)
    requires at <= |bytes|
    ensures r <= |bytes|
    decreases |bytes| - at
  {
    if at == |bytes| then at
    else
      var one := at + 1 == |bytes|;
      var first, second := bytes[at], if one then stale else bytes[at + 1];
      if one && first == SPACE then at
      else if first == SPACE && second == SPACE then at
      else if first == NEWLINE && second == SPACE then at + 1
      else ScanEmpty(bytes, if one then at + 1 else at + 2, second)
  }

  /** Where the two-byte scan of the reader stops. */
  function ScanAvailable(bytes: string, at: nat): (r: nat)
    requires at <= |bytes|
    ensures r <= |bytes|
    decreases |bytes| - at
  {
    if at == |bytes| || bytes[at] != SPACE then at
    else ScanAvailable(bytes, if at + 1 == |bytes| then at + 1 else at + 2)
  }

  /** The line that starts at `pos`, unless the file ends or 512 bytes pass before its newline. */
  function LineAt(bytes: string, pos: nat, off: nat): Option<string>
    requires pos + off <= |bytes|
    decreases |bytes| - off
  {
    if pos + off == |bytes| then None
    else if bytes[pos + off] == NEWLINE then Some(bytes[pos..pos + off + 1])
    else if off + 1 >= LINE_SIZE then None
    else LineAt(bytes, pos, off + 1)
  }

  /** What strchr finds: the first newline, or the length when there is none. */
  function FirstNewline(bytes: string): (n: nat)
    ensures n <= |bytes| && (n < |bytes| ==> bytes[n] == NEWLINE)
    ensures forall i :: 0 <= i < n ==> bytes[i] != NEWLINE
  {
    if bytes == "" || bytes[0] == NEWLINE then 0 else 1 + FirstNewline(bytes[1..])
  }

  /** The file after its first line is removed and the room made up with spaces. */
  function WithoutFirst(bytes: string): (r: string)
    requires NEWLINE in bytes
    ensures |r| == |bytes|
  {
    var n := FirstNewline(bytes);
    bytes[n + 1..] + Spaces(n + 1)
  }

  /** The file after s is written over it at a position. */
  function Overwrite(bytes: string, at: nat, s: string): string
    requires at <= |bytes|
  {
    bytes[..at] + s + if at + |s| <= |bytes| then bytes[at + |s|..] else ""
  }

  lemma OverwriteAll(bytes: string, s: string)
    requires |s| == |bytes|
    ensures Overwrite(bytes, 0, s) == s
  {
  }

  class File {
    var bytes: string
    var cursor: nat

    ghost predicate Valid()
      reads this
    {
      cursor <= |bytes|
    }

    constructor ()
      ensures Valid() && bytes == ""
    {
      bytes, cursor := "", 0;
    }

    method Seek(position: nat)
      requires position <= |bytes|
      modifies this`cursor
      ensures cursor == position
    {
      cursor := position;
    }

    /** Up to n bytes from the cursor on, which moves past them. */
    method Read(n: nat) returns (s: string)
      requires Valid()
      modifies this`cursor
      ensures Valid() && cursor == if old(cursor) + n <= |bytes| then old(cursor) + n else |bytes|
      ensures s == bytes[old(cursor)..cursor]
    {
      var end := if cursor + n <= |bytes| then cursor + n else |bytes|;
      s := bytes[cursor..end];
      cursor := end;
    }

    method Write(s: string)
      requires Valid()
      modifies this
      ensures Valid() && bytes == Overwrite(old(bytes), old(cursor), s) && cursor == old(cursor) + |s|
    {
      bytes := Overwrite(bytes, cursor, s);
      cursor := cursor + |s|;
    }

    /** Moves the cursor to where the next line goes. `rubbish` is in the buffer before the first read. */
    method NextEmpty(rubbish: char)
      requires Valid()
      modifies this`cursor
      ensures Valid() && cursor == ScanEmpty(bytes, 0, rubbish)
    {
      Seek(0);
      var buf0, buf1 := rubbish, rubbish;
      var offset := 0;
      while true
        invariant Valid() && (offset == cursor || (offset == cursor + 1 && cursor == |bytes|))
        invariant ScanEmpty(bytes, cursor, buf1) == ScanEmpty(bytes, 0, rubbish)
        decreases |bytes| - cursor
      {
        var read := Read(2);
        if |read| == 0 {
          break;
        }
        buf0 := read[0];
        if |read| == 2 { buf1 := read[1]; }
        offset := offset + 2;
        if |read| == 1 && buf0 == SPACE {
          Seek(offset - 2);
          break;
        }
        if buf0 == SPACE && buf1 == SPACE {
          Seek(offset - 2);
          break;
        } else if buf0 == NEWLINE && buf1 == SPACE {
          Seek(offset - 1);
          break;
        }
      }
    }

    /** Moves the cursor to the first byte at an even offset that is not a space, or to the end. */
    method NextAvailable()
      requires Valid()
      modifies this`cursor
      ensures Valid() && cursor == ScanAvailable(bytes, 0)
    {
      Seek(0);
      var offset := 0;
      while true
        invariant Valid() && (offset == cursor || (offset == cursor + 1 && cursor == |bytes|))
        invariant ScanAvailable(bytes, cursor) == ScanAvailable(bytes, 0)
        decreases |bytes| - cursor
      {
        var read := Read(2);
        if |read| == 0 {
          break;
        }
        offset := offset + 2;
        if read[0] != SPACE {
          Seek(offset - 2);
          break;
        }
      }
    }

    /** Reads from the cursor up to and including a newline. */
    method ReadLine() returns (line: Option<string>)
      requires Valid()
      modifies this`cursor
      ensures Valid() && line == LineAt(bytes, old(cursor), 0)
    {
      var off := 0;
      var buf := "";
      while true
        invariant Valid() && cursor == old(cursor) + off && buf == bytes[old(cursor)..cursor] && off < LINE_SIZE
        invariant LineAt(bytes, old(cursor), off) == LineAt(bytes, old(cursor), 0)
        decreases |bytes| - cursor
      {
        var read := Read(1);
        if |read| == 0 {
          return None;
        }
        off := off + 1;
        buf := buf + read;
        assert read == [bytes[cursor - 1]] && buf == bytes[old(cursor)..cursor];
        if read[0] == NEWLINE {
          return Some(buf);
        }
        if off >= LINE_SIZE {
          return None;
        }
      }
    }

    /** Counts the bytes of the file, 512 at a time. */
    method Size() returns (size: nat)
      requires Valid()
      modifies this`cursor
      ensures Valid() && size == |bytes|
    {
      Seek(0);
      size := 0;
      while true
        invariant Valid() && size == cursor
        decreases |bytes| - cursor
      {
        var read := Read(512);
        if |read| == 0 {
          break;
        }
        size := size + |read|;
      }
    }

    /** Removes the first line: moves everything after it to the front and fills up with spaces. */
    method RemoveLine()
      requires Valid() && NEWLINE in bytes
      modifies this
      ensures Valid() && bytes == WithoutFirst(old(bytes)) && cursor == 0
    {
      hide FirstNewline, Spaces, Overwrite;
      var size := Size();
      Seek(0);
      var oldBuf := Read(size);
      assert oldBuf == bytes;
      var first := FirstNewline(oldBuf);
      var newBuf := oldBuf[first + 1..] + Spaces(size - (size - (first + 1)));
      assert newBuf == WithoutFirst(bytes);
      Seek(0);
      OverwriteAll(bytes, newBuf);
      Write(newBuf);
      Seek(0);
    }

    /** The writer's locked section: one line goes to the end of the text. */
    method Write10Points(line: string, rubbish: char)
      requires Valid()
      modifies this
      ensures Valid()
      ensures bytes == Overwrite(old(bytes), ScanEmpty(old(bytes), 0, rubbish), line)
    {
      NextEmpty(rubbish);
      Write(line);
    }

    /** The reader's first locked section: the next line, if there is one. */
    method Read10Points() returns (line: Option<string>)
      requires Valid()
      modifies this`cursor
      ensures Valid() && line == LineAt(bytes, ScanAvailable(bytes, 0), 0)
    {
      NextAvailable();
      line := ReadLine();
    }
  }
}
