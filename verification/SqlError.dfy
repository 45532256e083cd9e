/**
 The SQL excerpt appended to an exception's message (lib/sqlite3/errors.rb): the statement text, with
 a caret under the byte SQLite complained about. Strings are byte strings, as the extension hands
 `@sql` over without a text encoding (ext/sqlite3/exception.c).
 */
module SqlError {
  import opened Wrappers

  /** `String#lines`: every line keeps its newline. */
  function Lines(s: string): seq<string> {
    if s == [] then []
    else
      var rest := Lines(s[1..]);
      if s[0] == '\n' || rest == [] then [[s[0]]] + rest else [[s[0]] + rest[0]] + rest[1..]
  }

  /** `String#chomp`: one trailing CRLF, LF or CR. */
  function Chomp(s: string): string {
    if |s| >= 2 && s[|s| - 2] == '\r' && s[|s| - 1] == '\n' then s[..|s| - 2]
    else if |s| >= 1 && (s[|s| - 1] == '\n' || s[|s| - 1] == '\r') then s[..|s| - 1]
    else s
  }

  function Chomped(lines: seq<string>): seq<string> {
    if lines == [] then [] else [Chomp(lines[0])] + Chomped(lines[1..])
  }

  /** `Array#join("\n")`. */
  function Joined(lines: seq<string>): string {
    if lines == [] then [] else if |lines| == 1 then lines[0] else lines[0] + "\n" + Joined(lines[1..])
  }

  function Caret(blanks: nat): string {
    if blanks == 0 then "^" else " " + Caret(blanks - 1)
  }

  /** A line with the caret in this column, counted from 0, and nothing but blanks before it. */
  predicate CaretInColumn(line: string, column: int) {
    0 <= column && |line| == column + 1 && line[column] == '^' && forall i :: 0 <= i < column ==> line[i] == ' '
  }

  lemma {:induction false} CaretStandsAt(blanks: nat)
    ensures CaretInColumn(Caret(blanks), blanks)
  {
    if blanks > 0 { CaretStandsAt(blanks - 1); }
  }

  lemma {:induction false} ChompedLength(lines: seq<string>)
    ensures |Chomped(lines)| == |lines|
  {
    if lines != [] { ChompedLength(lines[1..]); }
  }

  /** The entry after line `k` is the caret, in the column of the byte within its line. */
  lemma CaretIsInColumn(lines: seq<string>, k: int, offset: int)
    requires HoldsOffset(lines, k, offset)
    ensures |WithCaret(lines, k, offset)| == |lines| + 1
    ensures CaretInColumn(WithCaret(lines, k, offset)[k + 1], offset - BytesBefore(lines, k))
  {
    ChompedLength(lines[..k + 1]);
    ChompedLength(lines[k + 1..]);
    CaretStandsAt(offset - BytesBefore(lines, k));
  }

  /** Bytes in the first `k` lines. */
  function BytesBefore(lines: seq<string>, k: nat): (n: int)
    requires k <= |lines|
  {
    if k == 0 then 0 else BytesBefore(lines, k - 1) + |lines[k - 1]|
  }

  /** Line `k` holds the byte at `offset`. */
  predicate HoldsOffset(lines: seq<string>, k: int, offset: int) {
    0 <= k < |lines| && BytesBefore(lines, k) <= offset < BytesBefore(lines, k + 1)
  }

  /** The chomped lines with one caret line more, right after line `k`: its blanks make up the offset
      within that line. */
  function WithCaret(lines: seq<string>, k: int, offset: int): seq<string>
    requires HoldsOffset(lines, k, offset)
  {
    Chomped(lines[..k + 1]) + [Caret(offset - BytesBefore(lines, k))] + Chomped(lines[k + 1..])
  }

  /** What a turn puts out for a line, and the offset it leaves. */
  function Turn(line: string, offset: int): (seq<string>, int) {
    if 0 <= offset < |line| then ([Chomp(line), Caret(offset)], -1) else ([Chomp(line)], offset - |line|)
  }

  /** What the single pass puts out. */
  function Marked(lines: seq<string>, offset: int): seq<string> {
    if lines == [] then []
    else
      var (out, left) := Turn(lines[0], offset);
      out + Marked(lines[1..], left)
  }

  lemma {:induction false} MarkedWithoutOffset(lines: seq<string>, offset: int)
    requires offset < 0
    ensures Marked(lines, offset) == Chomped(lines)
  {
    if lines != [] { MarkedWithoutOffset(lines[1..], offset - |lines[0]|); }
  }

  lemma WithCaretTail(lines: seq<string>, k: nat, offset: int)
    requires lines != [] && HoldsOffset(lines[1..], k, offset - |lines[0]|)
    ensures HoldsOffset(lines, k + 1, offset)
    ensures WithCaret(lines, k + 1, offset)
            == [Chomp(lines[0])] + WithCaret(lines[1..], k, offset - |lines[0]|)
  {
    var rest := lines[1..];
    BytesBeforeTail(lines, k + 1);
    BytesBeforeTail(lines, k + 2);
    assert lines[..k + 2][1..] == rest[..k + 1] && lines[k + 2..] == rest[k + 1..];
  }

  /** The single pass puts the caret where the byte stands, or nowhere past the end. */
  lemma {:induction false} MarkedPlacesCaret(lines: seq<string>, offset: int) returns (caret: int)
    requires offset >= 0
    ensures offset < BytesBefore(lines, |lines|) ==>
              HoldsOffset(lines, caret, offset) && Marked(lines, offset) == WithCaret(lines, caret, offset)
    ensures offset >= BytesBefore(lines, |lines|) ==> Marked(lines, offset) == Chomped(lines)
  {
    caret := 0;
    if lines != [] {
      BytesBeforeTail(lines, |lines|);
      if offset < |lines[0]| {
        MarkedWithoutOffset(lines[1..], -1);
        assert BytesBefore(lines, 0) == 0 && BytesBefore(lines, 1) == |lines[0]|;
        assert Chomped(lines[..1]) == [Chomp(lines[0])];
        BytesBeforeGrows(lines, 1, |lines|);
      } else {
        var inRest := MarkedPlacesCaret(lines[1..], offset - |lines[0]|);
        caret := inRest + 1;
        if offset < BytesBefore(lines, |lines|) { WithCaretTail(lines, inRest, offset); }
      }
    }
  }

  lemma MarkedNext(lines: seq<string>, i: nat, offset: int, entries: seq<string>)
    requires i < |lines|
    ensures var (out, left) := Turn(lines[i], offset);
            entries + Marked(lines[i..], offset) == (entries + out) + Marked(lines[i + 1..], left)
  {
    assert lines[i..][1..] == lines[i + 1..];
    var (out, left) := Turn(lines[i], offset);
    assert entries + (out + Marked(lines[i + 1..], left)) == (entries + out) + Marked(lines[i + 1..], left);
  }

  /** The block of the `flat_map`. */
  method MarkLine(line: string, offset: int) returns (out: seq<string>, left: int)
    ensures (out, left) == Turn(line, offset)
  {
    if offset >= 0 && |line| > offset {
      return [Chomp(line), Caret(offset)], -1;
    }
    return [Chomp(line)], offset - |line|;
  }

  /** The `flat_map` over the lines, which counts `offset` down and lets the caret out once. */
  method MarkLines(lines: seq<string>, sqlOffset: int) returns (entries: seq<string>, ghost caret: int)
    requires sqlOffset >= 0
    ensures sqlOffset < BytesBefore(lines, |lines|) ==>
              HoldsOffset(lines, caret, sqlOffset) && entries == WithCaret(lines, caret, sqlOffset)
    ensures sqlOffset >= BytesBefore(lines, |lines|) ==> entries == Chomped(lines)
  {
    var offset, i := sqlOffset, 0;
    entries := [];
    while i < |lines|
      invariant 0 <= i <= |lines|
      invariant entries + Marked(lines[i..], offset) == Marked(lines, sqlOffset)
    {
      MarkedNext(lines, i, offset, entries);
      var out;
      out, offset := MarkLine(lines[i], offset);
      entries := entries + out;
      i := i + 1;
    }
    caret := MarkedPlacesCaret(lines, sqlOffset);
  }

  method SqlExcerpt(sql: Option<string>, sqlOffset: int) returns (excerpt: Option<string>)
    ensures sql.None? ==> excerpt == None
    ensures sql.Some? && sqlOffset < 0 ==> excerpt == Some(Chomp(sql.value))
    ensures sql.Some? && 0 <= sqlOffset < |sql.value| ==>
              exists k :: HoldsOffset(Lines(sql.value), k, sqlOffset)
                          && var entries := WithCaret(Lines(sql.value), k, sqlOffset);
                             && excerpt == Some(Joined(entries)) && |entries| == |Lines(sql.value)| + 1
                             && CaretInColumn(entries[k + 1], sqlOffset - BytesBefore(Lines(sql.value), k))
    ensures sql.Some? && sqlOffset >= |sql.value| ==> excerpt == Some(Excerpt(sql.value))
  {
    if sql.None? { return None; }
    if sqlOffset < 0 { return Some(Chomp(sql.value)); }
    LinesCover(sql.value);
    FlattenedLength(Lines(sql.value));
    var entries, caret := MarkLines(Lines(sql.value), sqlOffset);
    if sqlOffset < |sql.value| { CaretIsInColumn(Lines(sql.value), caret, sqlOffset); }
    return Some(Joined(entries));
  }

  lemma {:induction false} BytesBeforeGrows(lines: seq<string>, i: nat, j: nat)
    requires i <= j <= |lines|
    ensures BytesBefore(lines, i) <= BytesBefore(lines, j)
  {
    if i < j { BytesBeforeGrows(lines, i, j - 1); }
  }

  lemma {:induction false} BytesBeforeTail(lines: seq<string>, k: nat)
    requires 0 < k <= |lines|
    ensures BytesBefore(lines, k) == |lines[0]| + BytesBefore(lines[1..], k - 1)
  {
    if k > 1 { BytesBeforeTail(lines, k - 1); }
  }

  /** Only one line can carry the caret. */
  lemma CaretLineUnique(lines: seq<string>, j: int, k: int, offset: int)
    requires HoldsOffset(lines, j, offset) && HoldsOffset(lines, k, offset)
    ensures j == k
  {
    if j < k { BytesBeforeGrows(lines, j + 1, k); }
    if k < j { BytesBeforeGrows(lines, k + 1, j); }
  }

  function Flattened(lines: seq<string>): string {
    if lines == [] then [] else lines[0] + Flattened(lines[1..])
  }

  lemma {:induction false} FlattenedLength(lines: seq<string>)
    ensures |Flattened(lines)| == BytesBefore(lines, |lines|)
  {
    if lines != [] {
      FlattenedLength(lines[1..]);
      BytesBeforeTail(lines, |lines|);
    }
  }

  /** The lines are the text cut after each newline: put together they are the text again, a line that
      is not the last ends in a newline, and no newline stands inside a line. */
  lemma {:induction false} LinesCover(s: string)
    ensures Flattened(Lines(s)) == s && CutAfterNewlines(Lines(s))
  {
    if s != [] {
      var rest := Lines(s[1..]);
      LinesCover(s[1..]);
      assert s == [s[0]] + s[1..];
      if s[0] == '\n' || rest == [] {
        assert ([[s[0]]] + rest)[1..] == rest;
      } else {
        var line := [s[0]] + rest[0];
        assert ([line] + rest[1..])[1..] == rest[1..];
        assert line + Flattened(rest[1..]) == [s[0]] + (rest[0] + Flattened(rest[1..]));
        assert forall i :: 0 < i < |line| ==> line[i] == rest[0][i - 1];
      }
    }
  }

  predicate CutAfterNewlines(lines: seq<string>) {
    lines == [] || (CutAfterNewline(lines[0], |lines| == 1) && CutAfterNewlines(lines[1..]))
  }

  predicate CutAfterNewline(line: string, last: bool) {
    && line != []
    && (forall i :: 0 <= i < |line| - 1 ==> line[i] != '\n')
    && (!last ==> line[|line| - 1] == '\n')
  }

  // ---------------------------------------------------------------------------
  // Removing the caret line

  /** The text an excerpt shows besides its caret line. */
  function Excerpt(s: string): string {
    Joined(Chomped(Lines(s)))
  }

  /** A CRLF that is not the end of the text. */
  predicate InnerCrLfAt(s: string, i: int) {
    0 <= i < |s| - 2 && s[i] == '\r' && s[i + 1] == '\n'
  }

  ghost predicate InnerCrLf(s: string) {
    exists i :: InnerCrLfAt(s, i)
  }

  predicate StartsWithCrLf(s: string) {
    |s| >= 2 && s[0] == '\r' && s[1] == '\n'
  }

  /** One line end goes, and no more. */
  lemma ChompTakesOne(t: string)
    ensures Chomp(t + "\r\n") == t && Chomp(t + "\r") == t
    ensures t == [] || t[|t| - 1] != '\r' ==> Chomp(t + "\n") == t
    ensures t == [] || (t[|t| - 1] != '\n' && t[|t| - 1] != '\r') ==> Chomp(t) == t
  {
    var crlf, cr, lf := t + "\r\n", t + "\r", t + "\n";
    assert crlf[..|crlf| - 2] == t;
    assert cr[..|cr| - 1] == t && lf[..|lf| - 1] == t;
    assert cr[|cr| - 1] == '\r' && lf[|lf| - 1] == '\n';
  }

  lemma ChompStep(s: string)
    requires |s| >= 2
    ensures Chomp(s) == (if s == "\r\n" then [] else [s[0]]) + Chomp(s[1..])
  {
  }

  lemma ExcerptStep(s: string)
    requires |s| >= 2
    ensures Excerpt(s) == (if StartsWithCrLf(s) then [] else [s[0]]) + Excerpt(s[1..])
  {
  }

  lemma ExcerptSingle(c: char)
    ensures Excerpt([c]) == Chomp([c])
  {
    assert Lines([c]) == [[c]];
    assert Chomped([[c]]) == [Chomp([c])];
  }

  lemma InnerCrLfStep(s: string)
    requires |s| >= 2
    ensures InnerCrLf(s) <==> (|s| > 2 && StartsWithCrLf(s)) || InnerCrLf(s[1..])
  {
    var t := s[1..];
    forall i | 0 < i ensures InnerCrLfAt(s, i) <==> InnerCrLfAt(t, i - 1) {
    }
    assert InnerCrLfAt(s, 0) <==> |s| > 2 && StartsWithCrLf(s);
    if InnerCrLf(t) {
      var i :| InnerCrLfAt(t, i);
      assert InnerCrLfAt(s, i + 1);
    }
  }

  lemma {:induction false} ExcerptNoLonger(s: string)
    ensures |Excerpt(s)| <= |Chomp(s)|
  {
    if |s| >= 2 {
      ExcerptNoLonger(s[1..]);
      ExcerptStep(s);
      ChompStep(s);
    } else if s != [] {
      ExcerptSingle(s[0]);
      assert s == [s[0]];
    }
  }

  /** The excerpt less its caret line is the text the offset-less form prints exactly when no CRLF
      occurs before the end of the text. */
  lemma {:induction false} ExcerptIsChomp(s: string)
    ensures Excerpt(s) == Chomp(s) <==> !InnerCrLf(s)
  {
    if |s| >= 2 {
      ExcerptIsChomp(s[1..]);
      ExcerptNoLonger(s[1..]);
      ExcerptStep(s);
      ChompStep(s);
      InnerCrLfStep(s);
      var e, c := Excerpt(s[1..]), Chomp(s[1..]);
      assert ([s[0]] + e)[1..] == e && ([s[0]] + c)[1..] == c;
    } else if s != [] {
      ExcerptSingle(s[0]);
      assert s == [s[0]];
    }
  }
}
