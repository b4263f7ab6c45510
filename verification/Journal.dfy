/** The event journal, one JSON object a line, read from its end.

    The reader never loads a file as a whole: it takes chunks from the end and puts the lines that
    were cut in two together again.  `TailLines` is shown to yield what splitting the whole file
    would yield.  Splitting works on bytes and cuts only at newlines, so a character of several
    bytes is never broken. */
module Journal {

  newtype byte = b: int | 0 <= b < 256

  type Bytes = seq<byte>

  const NEWLINE: byte := 10

  // ------------------------------------------------------------------ the simple reader

  /** The pieces of a text between its newlines; always at least one. */
  function Split(text: Bytes): (pieces: seq<Bytes>)
    ensures |pieces| > 0
  {
    if text == [] then [[]]
    else
      var rest := Split(text[1..]);
      if text[0] == NEWLINE then [[]] + rest else [[text[0]] + rest[0]] + rest[1..]
  }

  /** What `strip` removes from bytes: blank, tab, newline, return, vertical tab, form feed. */
  predicate IsBlankByte(b: byte) {
    b == 32 || 9 <= b <= 13
  }

  predicate IsBlank(line: Bytes) {
    forall i :: 0 <= i < |line| ==> IsBlankByte(line[i])
  }

  function NonBlank(lines: seq<Bytes>): seq<Bytes> {
    if lines == [] then []
    else (if IsBlank(lines[0]) then [] else [lines[0]]) + NonBlank(lines[1..])
  }

  function Reversed<T>(s: seq<T>): (r: seq<T>)
    ensures |r| == |s|
    ensures forall i :: 0 <= i < |s| ==> r[i] == s[|s| - 1 - i]
  {
    if s == [] then [] else Reversed(s[1..]) + [s[0]]
  }

  /** What the reader yields: the lines that are not blank, the last one first. */
  function LinesBackwards(text: Bytes): seq<Bytes> {
    Reversed(NonBlank(Split(text)))
  }

  /** Putting the newlines back: a splitting loses nothing. */
  function Join(pieces: seq<Bytes>): Bytes
    requires |pieces| > 0
  {
    if |pieces| == 1 then pieces[0] else pieces[0] + [NEWLINE] + Join(pieces[1..])
  }

  lemma {:induction false} SplitIsFaithful(text: Bytes)
    ensures Join(Split(text)) == text
    ensures forall i :: 0 <= i < |Split(text)| ==> NEWLINE !in Split(text)[i]
  {
    if text != [] {
      SplitIsFaithful(text[1..]);
      var rest := Split(text[1..]);
      if text[0] == NEWLINE {
        assert ([[]] + rest)[1..] == rest;
        assert Join(Split(text)) == [NEWLINE] + text[1..];
      } else {
        assert ([[text[0]] + rest[0]] + rest[1..])[1..] == rest[1..];
        assert Join(Split(text)) == [text[0]] + text[1..];
      }
    }
  }

  // ------------------------------------------------------------------ splitting a concatenation

  /** The last piece of `p` and the first of `q` are halves of one piece. */
  function Glue(p: seq<Bytes>, q: seq<Bytes>): (r: seq<Bytes>)
    requires |p| > 0 && |q| > 0
    ensures |r| == |p| + |q| - 1
  {
    p[..|p| - 1] + [p[|p| - 1] + q[0]] + q[1..]
  }

  lemma GlueCons(x: Bytes, r: seq<Bytes>, q: seq<Bytes>)
    requires |r| > 0 && |q| > 0
    ensures Glue([x] + r, q) == [x] + Glue(r, q)
  {
  }

  lemma GlueEmpty(q: seq<Bytes>)
    requires |q| > 0
    ensures Glue([[]], q) == q
  {
    assert [] + q[0] == q[0];
  }

  lemma GlueTail(p: seq<Bytes>, x: Bytes, tail: seq<Bytes>)
    requires |p| > 0
    ensures Glue(p, [x] + tail) == Glue(p, [x]) + tail
  {
  }

  lemma ConsTail(p: seq<Bytes>, tail: seq<Bytes>)
    requires |p| > 0
    ensures p + tail == [p[0]] + (p[1..] + tail)
  {
  }

  lemma GlueGrow(c: byte, r: seq<Bytes>, q: seq<Bytes>)
    requires |r| > 0 && |q| > 0
    ensures var w := Glue(r, q);
            Glue([[c] + r[0]] + r[1..], q) == [[c] + w[0]] + w[1..]
  {
    if |r| == 1 {
      assert [c] + r[0] + q[0] == [c] + (r[0] + q[0]);
    } else {
      GlueCons(r[0], r[1..], q);
      GlueCons([c] + r[0], r[1..], q);
      assert [r[0]] + r[1..] == r;
    }
  }

  /** Cutting a text in two and splitting the halves. */
  lemma {:induction false} SplitOfConcat(a: Bytes, b: Bytes)
    ensures Split(a + b) == Glue(Split(a), Split(b))
  {
    if a == [] {
      assert a + b == b;
      GlueEmpty(Split(b));
    } else {
      SplitOfConcat(a[1..], b);
      assert (a + b)[1..] == a[1..] + b;
      var r := Split(a[1..]);
      if a[0] == NEWLINE {
        GlueCons([], r, Split(b));
      } else {
        GlueGrow(a[0], r, Split(b));
      }
    }
  }

  lemma {:induction false} SplitOfLine(line: Bytes)
    requires NEWLINE !in line
    ensures Split(line) == [line]
  {
    if line != [] {
      assert line[0] in line && NEWLINE !in line[1..];
      SplitOfLine(line[1..]);
      assert [line[0]] + line[1..] == line;
    }
  }

  /** One more chunk: the open piece `rest` is prefixed by the chunk and split; all but the first
      of these pieces are complete lines. */
  lemma ChunkStep(chunk: Bytes, text: Bytes, rest: Bytes, tail: seq<Bytes>)
    requires NEWLINE !in rest && Split(text) == [rest] + tail
    ensures var parts := Split(chunk + rest);
            NEWLINE !in parts[0] && Split(chunk + text) == [parts[0]] + (parts[1..] + tail)
  {
    SplitIsFaithful(chunk + rest);
    SplitOfLine(rest);
    SplitOfConcat(chunk, rest);
    SplitOfConcat(chunk, text);
    GlueTail(Split(chunk), rest, tail);
    var parts := Split(chunk + rest);
    assert Split(chunk + text) == parts + tail;
    ConsTail(parts, tail);
  }

  lemma CutAt(file: Bytes, pos: nat, size: nat)
    requires pos + size <= |file|
    ensures file[pos..] == file[pos..pos + size] + file[pos + size..]
  {
  }

  // ------------------------------------------------------------------ the fast reader

  /** Yields the lines of a file from its end, reading `chunkSize` bytes at a time. */
  method TailLines(file: Bytes, chunkSize: nat) returns (lines: seq<Bytes>)
    requires chunkSize >= 1
    ensures lines == LinesBackwards(file)
  {
    var pos := |file|;
    var rest: Bytes := [];
    lines := [];
    ghost var tail: seq<Bytes> := [];
    while pos > 0
      invariant 0 <= pos <= |file|
      invariant NEWLINE !in rest && Split(file[pos..]) == [rest] + tail
      invariant lines == Reversed(NonBlank(tail))
    {
      var size := if chunkSize < pos then chunkSize else pos;
      ghost var text := file[pos..];
      pos := pos - size;
      var chunk := file[pos..pos + size];
      CutAt(file, pos, size);
      ChunkStep(chunk, text, rest, tail);
      var parts := Split(chunk + rest);
      lines := YieldReversed(parts[1..], tail, lines);
      rest := parts[0];
      tail := parts[1..] + tail;
    }
    assert file[0..] == file && ([rest] + tail)[1..] == tail;
    if !IsBlank(rest) {
      lines := lines + [rest];
    }
  }

  /** The inner loop: the complete lines of a chunk, the last one first, go after those of the
      chunks behind it. */
  method YieldReversed(parts: seq<Bytes>, ghost tail: seq<Bytes>, before: seq<Bytes>) returns (lines: seq<Bytes>)
    requires before == Reversed(NonBlank(tail))
    ensures lines == Reversed(NonBlank(parts + tail))
  {
    lines := before;
    var i := |parts|;
    assert parts[i..] + tail == tail;
    while i > 0
      invariant 0 <= i <= |parts|
      invariant lines == Reversed(NonBlank(parts[i..] + tail))
    {
      i := i - 1;
      assert (parts[i..] + tail)[1..] == parts[i + 1..] + tail;
      if !IsBlank(parts[i]) {
        lines := lines + [parts[i]];
      }
    }
    assert parts[0..] == parts;
  }

  // ------------------------------------------------------------------ appending a line

  /** Nothing in the file is half-written. */
  ghost predicate IsWhole(file: Bytes) {
    file == [] || file[|file| - 1] == NEWLINE
  }

  lemma {:induction false} NonBlankOfConcat(a: seq<Bytes>, b: seq<Bytes>)
    ensures NonBlank(a + b) == NonBlank(a) + NonBlank(b)
  {
    if a == [] {
      assert a + b == b;
    } else {
      assert (a + b)[1..] == a[1..] + b;
      NonBlankOfConcat(a[1..], b);
    }
  }

  /** The last piece of a whole file is empty. */
  lemma WholeEndsEmpty(file: Bytes)
    requires IsWhole(file)
    ensures var pieces := Split(file); pieces[|pieces| - 1] == []
  {
    if file != [] {
      var front := file[..|file| - 1];
      assert file == front + [NEWLINE];
      assert [NEWLINE][1..] == [];
      assert Split([NEWLINE]) == [[], []];
      SplitOfConcat(front, [NEWLINE]);
    }
  }

  lemma SplitOfNewLine(line: Bytes)
    requires NEWLINE !in line
    ensures Split(line + [NEWLINE]) == [line, []]
  {
    assert [NEWLINE][1..] == [];
    assert Split([NEWLINE]) == [[], []];
    SplitOfConcat(line, [NEWLINE]);
    SplitOfLine(line);
    assert line + [] == line;
  }

  lemma NonBlankOfEnds(front: seq<Bytes>, line: Bytes)
    requires !IsBlank(line)
    ensures NonBlank(front + [[]]) == NonBlank(front) && NonBlank(front + [line, []]) == NonBlank(front) + [line]
  {
    NonBlankOfConcat(front, [[]]);
    NonBlankOfConcat(front, [line, []]);
    OnlyBlanks();
    assert [line, []][1..] == [[]];
  }

  /** Appending a line to a whole file puts it in front of what the reader yields. */
  lemma AppendedLineComesFirst(file: Bytes, line: Bytes)
    requires IsWhole(file) && NEWLINE !in line && !IsBlank(line)
    ensures IsWhole(file + line + [NEWLINE])
    ensures LinesBackwards(file + line + [NEWLINE]) == [line] + LinesBackwards(file)
  {
    hide Split, NonBlank, Reversed, Glue;
    assert file + line + [NEWLINE] == file + (line + [NEWLINE]);
    var front := PiecesOfAppended(file, line + [NEWLINE]);
    SplitOfNewLine(line);
    NonBlankOfEnds(front, line);
    ReversedSnoc(NonBlank(front), line);
  }

  /** The pieces of a whole file and of what is appended to it. */
  lemma PiecesOfAppended(file: Bytes, more: Bytes) returns (front: seq<Bytes>)
    requires IsWhole(file)
    ensures Split(file) == front + [[]] && Split(file + more) == front + Split(more)
  {
    hide Split, IsWhole;
    var p := Split(file);
    front := p[..|p| - 1];
    WholeEndsEmpty(file);
    assert p == front + [[]];
    SplitOfConcat(file, more);
    GlueEmpty(Split(more));
  }

  lemma BlankAtTheEnd(front: seq<Bytes>, line: Bytes)
    ensures NonBlank(front + [[]]) == NonBlank(front)
    ensures IsBlank(line) ==> NonBlank(front + [line, []]) == NonBlank(front)
    ensures !IsBlank(line) ==> NonBlank(front + [line]) == NonBlank(front) + [line]
  {
    NonBlankOfConcat(front, [[]]);
    NonBlankOfConcat(front, [line]);
    NonBlankOfConcat(front, [line, []]);
    OnlyBlanks();
    assert [line][1..] == [] && [line, []][1..] == [[]];
  }

  /** A line of nothing but blanks is not yielded. */
  lemma BlankLineIsSkipped(file: Bytes, line: Bytes)
    requires IsWhole(file) && forall b :: b in line ==> b in {9, 11, 12, 13, 32}
    ensures LinesBackwards(file + line + [NEWLINE]) == LinesBackwards(file)
  {
    hide Split, Reversed, Glue, NonBlank, IsBlank, IsWhole;
    BlankIs(line);
    assert file + line + [NEWLINE] == file + (line + [NEWLINE]);
    var front := PiecesOfAppended(file, line + [NEWLINE]);
    SplitOfNewLine(line);
    BlankAtTheEnd(front, line);
  }

  /** The last line comes first also when nothing ends it. */
  lemma OpenLineComesFirst(file: Bytes, line: Bytes)
    requires IsWhole(file) && NEWLINE !in line && exists b :: b in line && b !in {9, 11, 12, 13, 32}
    ensures LinesBackwards(file + line) == [line] + LinesBackwards(file)
  {
    hide Split, Reversed, Glue, NonBlank, IsBlank, IsWhole;
    BlankIs(line);
    var front := PiecesOfAppended(file, line);
    SplitOfLine(line);
    BlankAtTheEnd(front, line);
    ReversedSnoc(NonBlank(front), line);
  }

  /** Tab, newline, vertical tab, form feed, return and blank are all that counts for blank. */
  lemma BlankIs(line: Bytes)
    ensures IsBlank(line) <==> forall b :: b in line ==> b in {9, 10, 11, 12, 13, 32}
  {
    if IsBlank(line) {
      forall b | b in line ensures b in {9, 10, 11, 12, 13, 32} {
        assert IsBlankByte(b);
      }
    } else {
      var i :| 0 <= i < |line| && !IsBlankByte(line[i]);
      assert line[i] in line;
    }
  }

  lemma OnlyBlanks()
    ensures var one: seq<Bytes> := [[]]; NonBlank(one) == []
  {
    var one: seq<Bytes> := [[]];
    assert one[1..] == [];
  }

  lemma ReversedSnoc(lines: seq<Bytes>, line: Bytes)
    ensures Reversed(lines + [line]) == [line] + Reversed(lines)
  {
  }
}
