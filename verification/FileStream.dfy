/** The part of `std::ifstream` that the log loader uses, with its end-of-file and failure flags. */
module FileStream {

  /** A stream as a value: the characters not read yet and the two flags. */
  datatype Cursor = Cursor(rest: string, eof: bool, fail: bool) {
    predicate Good() {
      !eof && !fail
    }
  }

  /** A good stream about to read `s`. */
  function At(s: string): Cursor {
    Cursor(s, false, false)
  }

  /** `get(ch)`: at the end of the file, or on a stream that already failed, `ch` keeps its value. */
  function TakeChar(c: Cursor, ch: char): (r: (Cursor, char))
    ensures |r.0.rest| <= |c.rest|
  {
    if !c.Good() then
      (c.(fail := true), ch)
    else if c.rest == "" then
      (Cursor("", true, true), ch)
    else
      (At(c.rest[1..]), c.rest[0])
  }

  /** The text before the first newline, or all of it. */
  function FirstLine(s: string): (line: string)
    ensures line <= s && '\n' !in line
    ensures |line| < |s| ==> s[|line|] == '\n'
  {
    if s == "" || s[0] == '\n' then "" else [s[0]] + FirstLine(s[1..])
  }

  /** `getline`: the newline is consumed but not returned.  A last line without a newline is
      returned and sets the end-of-file flag; with nothing left to extract the read fails. */
  function TakeLine(c: Cursor, before: string): (r: (Cursor, string))
    ensures |r.0.rest| <= |c.rest|
    ensures !r.0.fail ==> |r.0.rest| < |c.rest|
  {
    if !c.Good() then
      (c.(fail := true), before)
    else
      var line := FirstLine(c.rest);
      if |line| < |c.rest| then
        (At(c.rest[|line| + 1..]), line)
      else
        (Cursor("", true, line == ""), line)
  }

  /** What `ReadNCharacter` reads: `n` characters, then one more that is dropped.  Once the file is
      exhausted the previous character is repeated; `ch` is the value of the local variable on entry,
      which the source leaves uninitialised. */
  function TakeN(c: Cursor, n: int, ch: char): (r: (Cursor, string))
    ensures |r.0.rest| <= |c.rest|
    decreases n
  {
    if n <= 0 then
      (TakeChar(c, ch).0, "")
    else
      var (c1, ch1) := TakeChar(c, ch);
      var (c2, tail) := TakeN(c1, n - 1, ch1);
      (c2, [ch1] + tail)
  }

  lemma {:induction false} FirstLineOf(line: string, rest: string)
    requires '\n' !in line
    ensures FirstLine(line + "\n" + rest) == line
  {
    if line != "" {
      FirstLineOf(line[1..], rest);
      assert (line + "\n" + rest)[1..] == line[1..] + "\n" + rest;
    }
  }

  lemma {:induction false} FirstLineIs(s: string, line: string)
    requires line <= s && '\n' !in line
    requires |line| < |s| ==> s[|line|] == '\n'
    ensures FirstLine(s) == line
  {
    if line != "" {
      assert s[0] == line[0];
      FirstLineIs(s[1..], line[1..]);
    }
  }

  lemma TakeLineOf(line: string, rest: string, before: string)
    requires '\n' !in line
    ensures TakeLine(At(line + "\n" + rest), before) == (At(rest), line)
  {
    FirstLineOf(line, rest);
    assert (line + "\n" + rest)[|line| + 1..] == rest;
  }

  /** A last line without a newline is read in full; an empty one is a failure, and so is everything on a
      stream that is not good, which leaves the caller's line as it was. */
  lemma TakeLineAtEnd(line: string, before: string, c: Cursor)
    requires '\n' !in line && !c.Good()
    ensures TakeLine(At(line), before) == (Cursor("", true, line == ""), line)
    ensures TakeLine(c, before) == (Cursor(c.rest, c.eof, true), before)
  {
    FirstLineIs(line, line);
  }

  /** Reading exactly the characters that are there.  The character dropped afterwards is whatever
      comes next; when nothing comes next the stream fails, but the text read is still complete. */
  lemma {:induction false} TakeNOf(text: string, rest: string, ch: char)
    ensures TakeN(At(text + rest), |text|, ch)
         == (if rest == "" then Cursor("", true, true) else At(rest[1..]), text)
    decreases |text|
  {
    if text == "" {
      assert text + rest == rest;
    } else {
      assert (text + rest)[1..] == text[1..] + rest;
      TakeNOf(text[1..], rest, text[0]);
      assert [text[0]] + text[1..] == text;
    }
  }

  function Padding(ch: char, n: nat): string {
    if n == 0 then "" else [ch] + Padding(ch, n - 1)
  }

  /** The character that the loop repeats once the file is exhausted. */
  function LastRead(text: string, ch: char): char {
    if text == "" then ch else text[|text| - 1]
  }

  lemma {:induction false} TakeNFailed(n: nat, ch: char)
    ensures TakeN(Cursor("", true, true), n, ch) == (Cursor("", true, true), Padding(ch, n))
  {
    if n > 0 {
      TakeNFailed(n - 1, ch);
    }
  }

  /** Reading more characters than there are: the last one is repeated. */
  lemma {:induction false} TakeNShort(text: string, n: nat, ch: char)
    requires |text| < n
    ensures TakeN(At(text), n, ch) == (Cursor("", true, true), text + Padding(LastRead(text, ch), n - |text|))
    decreases n
  {
    if text == "" {
      TakeNFailed(n - 1, ch);
      assert text + Padding(ch, n) == Padding(ch, n);
    } else {
      TakeNShort(text[1..], n - 1, text[0]);
      assert LastRead(text[1..], text[0]) == LastRead(text, ch);
      var pad := Padding(LastRead(text, ch), n - |text|);
      assert [text[0]] + (text[1..] + pad) == text + pad;
    }
  }

  /** An open file: the bytes, the read position and the flags. */
  class InFile {
    const data: string
    var pos: nat
    var eof: bool
    var fail: bool

    ghost predicate Valid()
      reads this
    {
      pos <= |data|
    }

    ghost function Cur(): Cursor
      requires Valid()
      reads this
    {
      Cursor(data[pos..], eof, fail)
    }

    constructor (data: string)
      ensures Valid() && Cur() == At(data)
    {
      this.data := data;
      pos, eof, fail := 0, false, false;
    }

    method Get(ch: char) returns (out: char)
      requires Valid()
      modifies this
      ensures Valid() && (Cur(), out) == TakeChar(old(Cur()), ch)
    {
      out := ch;
      if eof || fail {
        fail := true;
      } else if pos == |data| {
        eof, fail := true, true;
      } else {
        out := data[pos];
        pos := pos + 1;
      }
    }

    method GetLine(line: string) returns (ok: bool, out: string)
      requires Valid()
      modifies this
      ensures Valid() && (Cur(), out) == TakeLine(old(Cur()), line)
      ensures ok == !fail
    {
      out := line;
      if eof || fail {
        fail := true;
      } else {
        ghost var all := data[pos..];
        out := "";
        while pos < |data| && data[pos] != '\n'
          invariant pos <= |data| && !eof && !fail
          invariant '\n' !in out
          invariant |out| <= |all| && out == all[..|out|] && data[pos..] == all[|out|..]
        {
          assert all[|out|..][1..] == all[|out| + 1..];
          out := out + [data[pos]];
          pos := pos + 1;
        }
        FirstLineIs(all, out);
        if pos < |data| {
          pos := pos + 1;
        } else {
          eof, fail := true, out == "";
        }
      }
      return !fail, out;
    }
  }

  /** The loop of the source.  `ch` starts with an arbitrary value. */
  method ReadNCharacter(inFile: InFile, numCharacter: int, stale: char) returns (result: string)
    requires inFile.Valid()
    modifies inFile
    ensures inFile.Valid()
    ensures (inFile.Cur(), result) == TakeN(old(inFile.Cur()), numCharacter, stale)
  {
    result := "";
    var ch := stale;
    var left := numCharacter;
    ghost var all := TakeN(inFile.Cur(), numCharacter, stale);
    assert "" + all.1 == all.1;
    while left > 0
      invariant inFile.Valid()
      invariant var (c, tail) := TakeN(inFile.Cur(), left, ch); all == (c, result + tail)
    {
      ghost var tail := TakeN(inFile.Cur(), left, ch).1;
      ch := inFile.Get(ch);
      assert result + tail == result + [ch] + tail[1..];
      result := result + [ch];
      left := left - 1;
    }
    assert result + "" == result;
    ch := inFile.Get(ch);
  }
}
