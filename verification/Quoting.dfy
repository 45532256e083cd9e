/**
 SQL string quoting (`Database.quote`, lib/sqlite3/database.rb) against the unquoting that
 `table_info` applies to column defaults (`tweak_default`, lib/sqlite3/pragmas.rb).
 */
module Quoting {
  import opened Wrappers

  /** `string.gsub("'", "''")`. */
  function Quote(s: string): string {
    if s == [] then []
    else (if s[0] == '\'' then "''" else [s[0]]) + Quote(s[1..])
  }

  /** `s.gsub(qq, q)`: pairs of the quote character are consumed left to right without overlap. */
  function Unpair(s: string, q: char): string {
    if |s| < 2 then s
    else if s[0] == q && s[1] == q then [q] + Unpair(s[2..], q)
    else [s[0]] + Unpair(s[1..], q)
  }

  // ---------------------------------------------------------------------------
  // The three patterns of tweak_default. `^` and `$` are line anchors, and `.` matches newlines.

  predicate LineStart(s: string, i: int) {
    i == 0 || (0 < i <= |s| && s[i - 1] == '\n')
  }

  predicate LineEnd(s: string, i: int) {
    i == |s| || (0 <= i < |s| && s[i] == '\n')
  }

  predicate IsNull(s: string) {
    && |s| == 4
    && s[0] in "nN" && s[1] in "uU" && s[2] in "lL" && s[3] in "lL"
  }

  predicate NullLineAt(s: string, i: int) {
    0 <= i <= |s| - 4 && LineStart(s, i) && IsNull(s[i..i + 4]) && LineEnd(s, i + 4)
  }

  /** `/^null$/i` matches somewhere. */
  predicate NullLine(s: string) {
    exists i :: 0 <= i <= |s| - 4 && NullLineAt(s, i)
  }

  /** The first position from `i` on where an opening quote starts a line; `|s|` if there is none. */
  function FirstOpening(s: string, q: char, i: nat): (k: nat)
    requires i <= |s|
    ensures i <= k <= |s|
    ensures k < |s| ==> s[k] == q && LineStart(s, k)
    ensures forall j :: i <= j < k ==> !(s[j] == q && LineStart(s, j))
    decreases |s| - i
  {
    if i == |s| || (s[i] == q && LineStart(s, i)) then i else FirstOpening(s, q, i + 1)
  }

  /** The last position below `i` where a closing quote ends a line; -1 if there is none. */
  function LastClosing(s: string, q: char, i: nat): (k: int)
    requires i <= |s|
    ensures -1 <= k < i
    ensures k >= 0 ==> s[k] == q && LineEnd(s, k + 1)
    ensures forall j :: k < j < i ==> !(s[j] == q && LineEnd(s, j + 1))
  {
    if i == 0 then -1
    else if s[i - 1] == q && LineEnd(s, i) then i - 1
    else LastClosing(s, q, i - 1)
  }

  /** The group of `/^q(.*)q$/m`: leftmost opening, and greedily the last closing after it. */
  function QuotedSpan(s: string, q: char): Option<string> {
    var open, close := FirstOpening(s, q, 0), LastClosing(s, q, |s|);
    if open < close then Some(s[open + 1..close]) else None
  }

  /** What `tweak_default` makes of a default value. */
  function Tweaked(dflt: Option<string>): Option<string> {
    match dflt
    case None => None
    case Some(s) =>
      if NullLine(s) then None
      else if QuotedSpan(s, '\'').Some? then Some(Unpair(QuotedSpan(s, '\'').value, '\''))
      else if QuotedSpan(s, '"').Some? then Some(Unpair(QuotedSpan(s, '"').value, '"'))
      else Some(s)
  }

  /** One row of `PRAGMA table_info`, as the hash that `table_info` builds from it. */
  class InfoRow {
    var cells: map<string, Option<string>>

    constructor (cells: map<string, Option<string>>)
      ensures this.cells == cells
    {
      this.cells := cells;
    }

    method TweakDefault()
      modifies this
      ensures old("dflt_value" !in cells) ==> cells == old(cells)
      ensures old("dflt_value" in cells) ==>
                cells == old(cells)["dflt_value" := Tweaked(old(cells["dflt_value"]))]
    {
      if "dflt_value" !in cells || cells["dflt_value"].None? {
        return;
      }
      var s := cells["dflt_value"].value;
      if NullLine(s) {
        cells := cells["dflt_value" := None];
      } else {
        var single := QuotedSpan(s, '\'');
        if single.Some? {
          cells := cells["dflt_value" := Some(Unpair(single.value, '\''))];
        } else {
          var double := QuotedSpan(s, '"');
          if double.Some? {
            cells := cells["dflt_value" := Some(Unpair(double.value, '"'))];
          }
        }
      }
    }
  }

  // ---------------------------------------------------------------------------
  // The round trip

  function Literal(s: string): string {
    "'" + Quote(s) + "'"
  }

  predicate StartsWithNullLine(s: string) {
    |s| > 4 && IsNull(s[..4]) && s[4] == '\n'
  }

  predicate InteriorNullLineAt(s: string, i: int) {
    0 < i < |s| && s[i - 1] == '\n' && StartsWithNullLine(s[i..])
  }

  /** Some line strictly between the first and the last is `null`, in any case. */
  ghost predicate InteriorNullLine(s: string) {
    exists i :: InteriorNullLineAt(s, i)
  }

  lemma {:induction false} UnpairQuote(s: string)
    ensures Unpair(Quote(s), '\'') == s
  {
    if s != [] {
      UnpairQuote(s[1..]);
      if s[0] == '\'' {
        assert Quote(s)[2..] == Quote(s[1..]);
      } else {
        assert Quote(s)[1..] == Quote(s[1..]);
        if |Quote(s)| < 2 { assert Quote(s[1..]) == []; }
      }
    }
  }

  /** Quoting goes character by character: every quote is doubled, wherever it stands, and nothing else
      changes. */
  lemma {:induction false} QuoteIsCharacterwise(a: string, b: string)
    ensures Quote(a + b) == Quote(a) + Quote(b)
  {
    if a == [] {
      assert a + b == b;
    } else {
      QuoteIsCharacterwise(a[1..], b);
      assert (a + b)[1..] == a[1..] + b;
      Associative(if a[0] == '\'' then "''" else [a[0]], Quote(a[1..]), Quote(b));
    }
  }

  lemma Associative(a: string, b: string, c: string)
    ensures a + (b + c) == (a + b) + c
  {
  }

  lemma QuoteOfCharacter(c: char)
    ensures Quote([c]) == if c == '\'' then "''" else [c]
  {
    assert [c][1..] == [];
  }

  /** Unpairing makes one of two quotes in a row, from the left; all else stays, a single quote too. */
  lemma UnpairTakesPairs(t: string, q: char, c: char)
    ensures Unpair([q, q] + t, q) == [q] + Unpair(t, q)
    ensures c != q || t == [] || t[0] != q ==> Unpair([c] + t, q) == [c] + Unpair(t, q)
    ensures Unpair([], q) == []
  {
    assert ([q, q] + t)[2..] == t && ([c] + t)[1..] == t;
    if t == [] { assert Unpair([c], q) == [c]; }
  }

  /** Up to its first quote character, quoting leaves a string alone. */
  lemma {:induction false} PrefixIntoQuote(s: string, k: nat)
    requires k <= |s| && forall i :: 0 <= i < k ==> s[i] != '\''
    ensures k <= |Quote(s)| && Quote(s)[..k] == s[..k]
  {
    if k > 0 {
      PrefixIntoQuote(s[1..], k - 1);
      assert Quote(s) == [s[0]] + Quote(s[1..]);
      assert s[..k] == [s[0]] + s[1..][..k - 1];
    }
  }

  lemma {:induction false} PrefixOutOfQuote(s: string, k: nat)
    requires k <= |Quote(s)| && forall i :: 0 <= i < k ==> Quote(s)[i] != '\''
    ensures k <= |s| && Quote(s)[..k] == s[..k]
  {
    if k > 0 {
      assert Quote(s)[0] != '\'';
      assert Quote(s) == [s[0]] + Quote(s[1..]);
      forall i | 0 <= i < k - 1 ensures Quote(s[1..])[i] != '\'' {
        assert Quote(s[1..])[i] == Quote(s)[i + 1];
      }
      PrefixOutOfQuote(s[1..], k - 1);
      assert s[..k] == [s[0]] + s[1..][..k - 1];
    }
  }

  lemma QuoteKeepsStart(s: string)
    ensures StartsWithNullLine(Quote(s)) <==> StartsWithNullLine(s)
  {
    var q := Quote(s);
    if StartsWithNullLine(q) {
      assert forall i :: 0 <= i < 4 ==> q[i] == q[..4][i];
      PrefixOutOfQuote(s, 5);
      assert s[..4] == s[..5][..4] && q[..4] == q[..5][..4] && s[4] == s[..5][4];
    }
    if StartsWithNullLine(s) {
      assert forall i :: 0 <= i < 4 ==> s[i] == s[..4][i];
      PrefixIntoQuote(s, 5);
      assert s[..4] == s[..5][..4] && q[..4] == q[..5][..4] && q[4] == q[..5][4];
    }
  }

  /** The interior null lines, read off from the left: `prev` is the character before `s`. */
  predicate NullLineAfter(prev: char, s: string)
    decreases |s|
  {
    (prev == '\n' && StartsWithNullLine(s)) || (s != [] && NullLineAfter(s[0], s[1..]))
  }

  lemma {:induction false} NullLineAfterIsInterior(prev: char, s: string)
    ensures NullLineAfter(prev, s) <==> (prev == '\n' && StartsWithNullLine(s)) || InteriorNullLine(s)
    decreases |s|
  {
    if s != [] {
      var t := s[1..];
      NullLineAfterIsInterior(s[0], t);
      assert InteriorNullLineAt(s, 1) <==> s[0] == '\n' && StartsWithNullLine(t);
      forall i | 0 < i < |t| ensures InteriorNullLineAt(s, i + 1) <==> InteriorNullLineAt(t, i) {
        assert s[i + 1..] == t[i..];
      }
      if InteriorNullLine(s) {
        var i :| InteriorNullLineAt(s, i);
        assert i > 1 ==> InteriorNullLineAt(t, i - 1);
      }
    }
  }

  lemma {:induction false} QuoteKeepsNullLines(prev: char, s: string)
    ensures NullLineAfter(prev, Quote(s)) <==> NullLineAfter(prev, s)
    decreases |s|
  {
    if s != [] {
      QuoteKeepsStart(s);
      var rest := Quote(s[1..]);
      QuoteKeepsNullLines(s[0], s[1..]);
      if s[0] == '\'' {
        assert Quote(s)[1..] == "'" + rest && ("'" + rest)[1..] == rest;
        assert !StartsWithNullLine("'" + rest);
      } else {
        assert Quote(s)[1..] == rest;
      }
    }
  }

  /** The quotes around a literal keep its first and last line from being `null`. */
  lemma LiteralNullLine(s: string)
    ensures NullLine("'" + s + "'") <==> InteriorNullLine(s)
  {
    var t := "'" + s + "'";
    forall i | 0 <= i <= |t| - 4 ensures NullLineAt(t, i) <==> InteriorNullLineAt(s, i - 1) {
      if 1 < i && i + 4 < |t| {
        assert t[i..i + 4] == s[i - 1..][..4];
        assert t[i - 1] == s[i - 2] && (i + 4 < |t| - 1 ==> t[i + 4] == s[i + 3] == s[i - 1..][4]);
      } else if i + 4 == |t| {
        assert t[i..i + 4][3] == '\'';
      } else if i == 0 {
        assert t[i..i + 4][0] == '\'';
      }
    }
    if InteriorNullLine(s) {
      var i :| InteriorNullLineAt(s, i);
      assert NullLineAt(t, i + 1);
    }
  }

  /** Unquoting the SQL literal of a string gives the string back exactly when no line strictly inside
      it reads `null`; otherwise the default is taken for SQL NULL. */
  lemma QuoteRoundTrip(s: string)
    ensures Tweaked(Some(Literal(s))) == if InteriorNullLine(s) then None else Some(s)
  {
    var q, t := Quote(s), Literal(s);
    LiteralNullLine(q);
    NullLineAfterIsInterior(' ', s);
    NullLineAfterIsInterior(' ', q);
    QuoteKeepsNullLines(' ', s);
    UnpairQuote(s);
    assert FirstOpening(t, '\'', 0) == 0 && LastClosing(t, '\'', |t|) == |t| - 1;
    assert t[1..|t| - 1] == q;
  }

  // ---------------------------------------------------------------------------
  // Other defaults

  /** What stands between a first and a last quote is the pattern's group. */
  lemma SpanOfQuoted(t: string, q: char)
    ensures QuotedSpan([q] + t + [q], q) == Some(t)
  {
    var s := [q] + t + [q];
    assert FirstOpening(s, q, 0) == 0 && LastClosing(s, q, |s|) == |s| - 1;
    assert s[1..|s| - 1] == t;
  }

  /** Every quote character doubled. */
  function Doubled(s: string, q: char): string {
    if s == [] then [] else (if s[0] == q then [q, q] else [s[0]]) + Doubled(s[1..], q)
  }

  lemma {:induction false} UnpairDoubled(s: string, q: char)
    ensures Unpair(Doubled(s, q), q) == s
  {
    if s != [] {
      UnpairDoubled(s[1..], q);
      if s[0] == q {
        assert Doubled(s, q)[2..] == Doubled(s[1..], q);
      } else {
        assert Doubled(s, q)[1..] == Doubled(s[1..], q);
        if |Doubled(s, q)| < 2 { assert Doubled(s[1..], q) == []; }
      }
    }
  }

  lemma {:induction false} DoubledHasNoOther(s: string, q: char, c: char)
    requires c != q && c !in s
    ensures c !in Doubled(s, q)
  {
    if s != [] { DoubledHasNoOther(s[1..], q, c); }
  }

  lemma NoSpanWithoutQuote(s: string, q: char)
    requires q !in s
    ensures QuotedSpan(s, q) == None
  {
  }

  /** A default without quotes stays as it is; text in double quotes, its own doubled, comes back without
      them; and no default, or one with a line that reads `null`, is nil. */
  lemma OtherDefaults(t: string)
    ensures Tweaked(None) == None
    ensures NullLine(t) ==> Tweaked(Some(t)) == None
    ensures '\'' !in t && '"' !in t && !NullLine(t) ==> Tweaked(Some(t)) == Some(t)
    ensures var literal := "\"" + Doubled(t, '"') + "\"";
            '\'' !in t && !NullLine(literal) ==> Tweaked(Some(literal)) == Some(t)
  {
    if '\'' !in t && '"' !in t {
      NoSpanWithoutQuote(t, '\'');
      NoSpanWithoutQuote(t, '"');
    }
    if '\'' !in t {
      DoubledHasNoOther(t, '"', '\'');
      NoSpanWithoutQuote("\"" + Doubled(t, '"') + "\"", '\'');
      SpanOfQuoted(Doubled(t, '"'), '"');
      UnpairDoubled(t, '"');
    }
  }
}
