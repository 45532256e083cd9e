/**
 `Database#execute_batch` (lib/sqlite3/database.rb) with the `prepare` block that closes each statement.

 The SQL parser is a parameter: how much of a text the first statement takes up, and whether there is
 anything in it to compile, is lexical; compiling it and stepping it depend on the database, which
 every statement may change.
 */
module Batch {
  import opened Wrappers

  /** What SQLite does with statement text, over database states `D`, compiled programs `P`, bind
      variables `B` and results `R`. */
  datatype Engine<!D, !P, !B, R> = Engine(
    taken: string -> nat,                     // characters the first statement of a text takes up
    blank: string -> bool,                    // the first statement is whitespace, a comment or nothing
    compile: (D, string) -> Option<P>,        // None: a syntax or schema error
    parameters: P -> nat,                     // sqlite3_bind_parameter_count
    bindable: (P, B) -> bool,                 // false: bind_params raises
    step: (P, Option<B>, D) -> (Option<R>, D) // the first step; None: it raises
  )

  /** A statement takes up part of any text there is, and SQLite reads a text to its first NUL only. */
  ghost predicate ValidEngine<D(!new), P(!new), B(!new), R>(engine: Engine<D, P, B, R>) {
    forall text :: CString(text) != [] ==> 0 < engine.taken(text) <= |CString(text)|
  }

  // ---------------------------------------------------------------------------
  // String#strip and C strings

  predicate IsSpace(c: char) {
    c in "\0\t\n\U{0B}\U{0C}\r "
  }

  /** NUL, the characters from tab to carriage return, and the blank. */
  lemma SpacesAre(c: char)
    ensures IsSpace(c) <==> c == '\0' || '\t' <= c <= '\r' || c == ' '
  {
  }

  function Lstrip(s: string): (t: string)
    ensures |t| <= |s| && (t != [] ==> !IsSpace(t[0]))
  {
    if s != [] && IsSpace(s[0]) then Lstrip(s[1..]) else s
  }

  function Rstrip(s: string): (t: string)
    ensures t <= s
  {
    if s != [] && IsSpace(s[|s| - 1]) then Rstrip(s[..|s| - 1]) else s
  }

  function Strip(s: string): (t: string)
    ensures |t| <= |s|
  {
    Rstrip(Lstrip(s))
  }

  /** The remainder comes back as a C string, so it ends before the first NUL. */
  function CString(s: string): (t: string)
    ensures |t| <= |s|
  {
    if s == [] || s[0] == '\0' then [] else [s[0]] + CString(s[1..])
  }

  // ---------------------------------------------------------------------------
  // The reference: split the text first, then run the pieces one after another

  /** The texts of the statements that a text splits into. */
  ghost function Split<D(!new), P(!new), B(!new), R>(engine: Engine<D, P, B, R>, sql: string): seq<string>
    requires ValidEngine(engine)
    decreases |sql|
  {
    var text := Strip(sql);
    if text == [] then []
    else [text] + Split(engine, CString(text[engine.taken(text)..]))
  }

  datatype Event<P, B> = Prepared(text: string) | Stepped(program: P, binds: Option<B>) | Closed(text: string)

  datatype Outcome<D, P, B, R> = Outcome(database: D, result: Option<R>, raised: bool, events: seq<Event<P, B>>)

  /** The variables a program is given: the caller's if their number is the number of its placeholders. */
  function BindsFor<D, P, B, R>(engine: Engine<D, P, B, R>, program: P, bindVars: B, count: nat): Option<B> {
    if count == engine.parameters(program) then Some(bindVars) else None
  }

  /** One prepared statement: bound if the count fits, stepped once, closed. Gives the database
      afterwards, the step's value if there was one, whether it raised, and what happened. */
  function StepThenClose<D, P, B, R>(engine: Engine<D, P, B, R>, bindVars: B, count: nat, text: string, program: P, database: D)
    : (D, Option<R>, bool, seq<Event<P, B>>)
  {
    var binds := BindsFor(engine, program, bindVars, count);
    if binds.Some? && !engine.bindable(program, bindVars) then
      (database, None, true, [Closed(text)])
    else
      var (result, next) := engine.step(program, binds, database);
      (next, result, result.None?, [Stepped(program, binds), Closed(text)])
  }

  /** One statement text, which may hold no statement and may fail to compile. */
  function Piece<D, P, B, R>(engine: Engine<D, P, B, R>, bindVars: B, count: nat, text: string, database: D)
    : (D, Option<R>, bool, seq<Event<P, B>>)
  {
    if engine.blank(text) then (database, None, false, [])
    else
      match engine.compile(database, text)
      case None => (database, None, true, [])
      case Some(program) =>
        var (next, result, raised, events) := StepThenClose(engine, bindVars, count, text, program, database);
        (next, result, raised, [Prepared(text)] + events)
  }

  function RunPiece<D, P, B, R>(engine: Engine<D, P, B, R>, bindVars: B, count: nat, text: string, before: Outcome<D, P, B, R>)
    : Outcome<D, P, B, R>
  {
    var (database, result, raised, events) := Piece(engine, bindVars, count, text, before.database);
    Outcome(database, if result.None? then before.result else result, raised, before.events + events)
  }

  /** All pieces in order, up to the first that raises. */
  function RunPieces<D, P, B, R>(engine: Engine<D, P, B, R>, bindVars: B, count: nat, pieces: seq<string>,
                                 before: Outcome<D, P, B, R>): Outcome<D, P, B, R> {
    if pieces == [] || before.raised then before
    else RunPieces(engine, bindVars, count, pieces[1..], RunPiece(engine, bindVars, count, pieces[0], before))
  }

  /** A connection with its prepared statements that are not closed yet. */
  class Database<D(!new), P(!new), B(!new), R> {
    const engine: Engine<D, P, B, R>
    var database: D
    var openStatements: multiset<string>
    ghost var events: seq<Event<P, B>>

    constructor (engine: Engine<D, P, B, R>, database: D)
      ensures this.engine == engine && this.database == database && openStatements == multiset{} && events == []
    {
      this.engine, this.database, openStatements, events := engine, database, multiset{}, [];
    }

    /** The statement opened on `text` is closed, as the `ensure` of `prepare` does on every way out. */
    method Close(text: string)
      requires text in openStatements
      modifies `openStatements, `events
      ensures openStatements == old(openStatements) - multiset{text}
      ensures events == old(events) + [Closed(text)]
    {
      openStatements := openStatements - multiset{text};
      events := events + [Closed(text)];
    }

    /** One turn of the loop: `prepare(sql) do |stmt| ... end`. */
    method PrepareAndStep(text: string, bindVars: B, count: nat) returns (result: Option<R>, raised: bool)
      modifies this
      ensures openStatements == old(openStatements)
      ensures var (next, value, failed, happened) := Piece(engine, bindVars, count, text, old(database));
              database == next && result == value && raised == failed && events == old(events) + happened
    {
      result, raised := None, false;
      if engine.blank(text) {                           // no statement: closed from the start
        assert events == events + [];
        return;
      }
      var compiled := engine.compile(database, text);
      if compiled.None? {
        assert events == events + [];
        return None, true;
      }
      openStatements := openStatements + multiset{text};
      events := events + [Prepared(text)];
      result, raised := StepAndClose(text, compiled.value, bindVars, count);
      assert old(openStatements) + multiset{text} - multiset{text} == old(openStatements);
    }

    /** The block of `execute_batch` on an open statement, with the `ensure` of `prepare` around it. */
    method StepAndClose(text: string, program: P, bindVars: B, count: nat) returns (result: Option<R>, raised: bool)
      requires text in openStatements
      modifies this
      ensures openStatements == old(openStatements) - multiset{text}
      ensures var (next, value, failed, happened) := StepThenClose(engine, bindVars, count, text, program, old(database));
              database == next && result == value && raised == failed && events == old(events) + happened
    {
      if count == engine.parameters(program) && !engine.bindable(program, bindVars) {
        Close(text);
        return None, true;
      }
      var binds := if count == engine.parameters(program) then Some(bindVars) else None;
      var (stepped, next) := engine.step(program, binds, database);
      result, database, raised := stepped, next, stepped.None?;
      events := events + [Stepped(program, binds)];
      Close(text);
      assert events == old(events) + [Stepped(program, binds), Closed(text)];
    }

    /** It runs exactly the statements the text splits into, in order and one step each, until one
        raises; the result is the first step's value of the last statement there was; and it leaves no
        statement open, whichever way it ends. */
    method ExecuteBatch(text: string, bindVars: B, count: nat) returns (result: Option<R>, raised: bool)
      requires ValidEngine(engine)
      modifies this
      ensures openStatements == old(openStatements)
      ensures Outcome(database, result, raised, events)
              == RunPieces(engine, bindVars, count, Split(engine, text), Outcome(old(database), None, false, old(events)))
    {
      var sql := Strip(text);
      result, raised := None, false;
      ghost var start := Outcome(database, None, false, events);
      StripTwice(text);
      SplitStripped(engine, text);
      while sql != []
        invariant openStatements == old(openStatements) && !raised && Strip(sql) == sql
        invariant RunPieces(engine, bindVars, count, Split(engine, text), start)
                  == RunPieces(engine, bindVars, count, Split(engine, sql), Outcome(database, result, false, events))
        decreases |sql|
      {
        ghost var before := Outcome(database, result, false, events);
        NextPiece(engine, bindVars, count, sql, before);
        var value, failed := PrepareAndStep(sql, bindVars, count);
        if value.Some? { result := value; }
        assert Outcome(database, result, failed, events) == RunPiece(engine, bindVars, count, sql, before);
        if failed {
          raised := true;
          return;
        }
        sql := Strip(CString(sql[engine.taken(sql)..]));
      }
    }
  }

  /** One turn of the loop takes one piece off. */
  lemma NextPiece<D(!new), P(!new), B(!new), R>(engine: Engine<D, P, B, R>, bindVars: B, count: nat, sql: string,
                                                before: Outcome<D, P, B, R>)
    requires ValidEngine(engine) && Strip(sql) == sql && sql != [] && !before.raised
    ensures var remainder, next := CString(sql[engine.taken(sql)..]), RunPiece(engine, bindVars, count, sql, before);
            && RunPieces(engine, bindVars, count, Split(engine, sql), before)
               == (if next.raised then next else RunPieces(engine, bindVars, count, Split(engine, Strip(remainder)), next))
            && Strip(Strip(remainder)) == Strip(remainder)
  {
    var remainder := CString(sql[engine.taken(sql)..]);
    StripTwice(remainder);
    SplitStripped(engine, remainder);
    assert Split(engine, sql)[1..] == Split(engine, remainder);
  }

  lemma {:induction false} RstripTwice(s: string)
    ensures Rstrip(Rstrip(s)) == Rstrip(s)
  {
    if s != [] && IsSpace(s[|s| - 1]) { RstripTwice(s[..|s| - 1]); }
  }

  lemma StripTwice(s: string)
    ensures Strip(Strip(s)) == Strip(s)
  {
    var t := Lstrip(s);
    RstripTwice(t);
    if Rstrip(t) != [] { assert Rstrip(t)[0] == t[0]; }
  }

  lemma SplitStripped<D(!new), P(!new), B(!new), R>(engine: Engine<D, P, B, R>, sql: string)
    requires ValidEngine(engine)
    ensures Split(engine, Strip(sql)) == Split(engine, sql)
  {
    StripTwice(sql);
  }

  lemma {:induction false} RunPiecesAppend<D, P, B, R>(engine: Engine<D, P, B, R>, bindVars: B, count: nat,
                                                       first: seq<string>, second: seq<string>, before: Outcome<D, P, B, R>)
    ensures RunPieces(engine, bindVars, count, first + second, before)
            == RunPieces(engine, bindVars, count, second, RunPieces(engine, bindVars, count, first, before))
    decreases |first|
  {
    if first == [] {
      assert first + second == second;
    } else if !before.raised {
      RunPiecesAppend(engine, bindVars, count, first[1..], second, RunPiece(engine, bindVars, count, first[0], before));
      assert (first + second)[1..] == first[1..] + second;
    }
  }

  lemma {:induction false} BlankPiecesDoNothing<D, P, B, R>(engine: Engine<D, P, B, R>, bindVars: B, count: nat,
                                                            pieces: seq<string>, before: Outcome<D, P, B, R>)
    requires forall i :: 0 <= i < |pieces| ==> engine.blank(pieces[i])
    ensures RunPieces(engine, bindVars, count, pieces, before) == before
    decreases |pieces|
  {
    if pieces != [] && !before.raised {
      assert before.events + [] == before.events;
      BlankPiecesDoNothing(engine, bindVars, count, pieces[1..], before);
    }
  }

  /** One piece, read off the engine: it raises if it does not compile, if it has as many placeholders as there
      are variables and these do not bind, or if its step raises. Otherwise its step's value is the
      result so far and the database is what the step leaves; a piece without a statement changes
      nothing. What does not reach its step leaves the database alone. */
  lemma PieceIs<D, P, B, R>(engine: Engine<D, P, B, R>, bindVars: B, count: nat, text: string, before: Outcome<D, P, B, R>)
    ensures var after, program := RunPiece(engine, bindVars, count, text, before), engine.compile(before.database, text);
            if engine.blank(text) then after.database == before.database && after.result == before.result && !after.raised
            else if program.None? then after.database == before.database && after.result == before.result && after.raised
            else
              var fits := count == engine.parameters(program.value);
              if fits && !engine.bindable(program.value, bindVars) then
                after.database == before.database && after.result == before.result && after.raised
              else
                var (value, next) := engine.step(program.value, if fits then Some(bindVars) else None, before.database);
                && after.database == next && (after.raised <==> value.None?)
                && after.result == if value.Some? then value else before.result
  {
  }

  /** Once a piece has raised, nothing more is run. */
  lemma RaiseStopsBatch<D, P, B, R>(engine: Engine<D, P, B, R>, bindVars: B, count: nat, earlier: seq<string>,
                                    later: seq<string>, before: Outcome<D, P, B, R>)
    requires RunPieces(engine, bindVars, count, earlier, before).raised
    ensures RunPieces(engine, bindVars, count, earlier + later, before) == RunPieces(engine, bindVars, count, earlier, before)
  {
    RunPiecesAppend(engine, bindVars, count, earlier, later, before);
  }

  /** If nothing raises, the result is the value of the last statement's own step, on the database that the
      pieces before it leave; whitespace and comments after it change neither result nor database. */
  lemma LastStatementDecides<D, P, B, R>(engine: Engine<D, P, B, R>, bindVars: B, count: nat, earlier: seq<string>,
                                         last: string, blanks: seq<string>, before: Outcome<D, P, B, R>)
    requires (forall i :: 0 <= i < |blanks| ==> engine.blank(blanks[i])) && !engine.blank(last)
    requires !RunPieces(engine, bindVars, count, earlier + [last] + blanks, before).raised
    ensures var mid := RunPieces(engine, bindVars, count, earlier, before);
            var ended := RunPieces(engine, bindVars, count, earlier + [last] + blanks, before);
            && !mid.raised && engine.compile(mid.database, last).Some?
            && var program := engine.compile(mid.database, last).value;
               var (value, next) := engine.step(program, if count == engine.parameters(program) then Some(bindVars) else None, mid.database);
               value.Some? && ended.result == value && ended.database == next
  {
    var upTo := RunPieces(engine, bindVars, count, earlier, before);
    RunPiecesAppend(engine, bindVars, count, earlier + [last], blanks, before);
    RunPiecesAppend(engine, bindVars, count, earlier, [last], before);
    assert [last][1..] == [];
    BlankPiecesDoNothing(engine, bindVars, count, blanks, RunPieces(engine, bindVars, count, earlier + [last], before));
    if !upTo.raised {
      assert RunPieces(engine, bindVars, count, [last], upTo) == RunPiece(engine, bindVars, count, last, upTo);
      PieceIs(engine, bindVars, count, last, upTo);
    }
  }

  /** What happens for one statement: it is closed right after it was prepared, or stepped once in
      between. */
  ghost predicate Bracket<P, B>(group: seq<Event<P, B>>) {
    || group == []
    || (|group| == 2 && group[0].Prepared? && group[1] == Closed(group[0].text))
    || (|group| == 3 && group[0].Prepared? && group[1].Stepped? && group[2] == Closed(group[0].text))
  }

  ghost function Concat<P, B>(groups: seq<seq<Event<P, B>>>): seq<Event<P, B>> {
    if groups == [] then [] else groups[0] + Concat(groups[1..])
  }

  /** The history of a batch is one bracket a piece, in the order of the pieces: no two statements are
      open at a time, none is stepped twice and none is left open, not even the one that raised. */
  lemma {:induction false} BatchIsBracketed<D, P, B, R>(engine: Engine<D, P, B, R>, bindVars: B, count: nat,
                                                        pieces: seq<string>, before: Outcome<D, P, B, R>)
    returns (groups: seq<seq<Event<P, B>>>)
    ensures |groups| <= |pieces|
    ensures forall i :: 0 <= i < |groups| ==> Bracket(groups[i]) && (groups[i] != [] ==> groups[i][0] == Prepared(pieces[i]))
    ensures forall i :: 0 <= i < |groups| && |groups[i]| == 3 ==>
              groups[i][1].Stepped? && groups[i][1].binds == if count == engine.parameters(groups[i][1].program) then Some(bindVars) else None
    ensures RunPieces(engine, bindVars, count, pieces, before).events == before.events + Concat(groups)
    decreases |pieces|
  {
    if pieces == [] || before.raised {
      groups := [];
      assert before.events + [] == before.events;
    } else {
      var next := RunPiece(engine, bindVars, count, pieces[0], before);
      var group := Piece(engine, bindVars, count, pieces[0], before.database).3;
      var rest := BatchIsBracketed(engine, bindVars, count, pieces[1..], next);
      groups := [group] + rest;
      assert groups[1..] == rest;
      assert before.events + (group + Concat(rest)) == next.events + Concat(rest);
    }
  }

  // ---------------------------------------------------------------------------
  // Splitting loses nothing

  /** The characters that are not whitespace. */
  function Ink(s: string): string {
    if s == [] then [] else (if IsSpace(s[0]) then [] else [s[0]]) + Ink(s[1..])
  }

  lemma {:induction false} InkAppend(a: string, b: string)
    ensures Ink(a + b) == Ink(a) + Ink(b)
  {
    if a == [] {
      assert a + b == b;
    } else {
      InkAppend(a[1..], b);
      assert (a + b)[1..] == a[1..] + b;
      var first := if IsSpace(a[0]) then [] else [a[0]];
      assert first + (Ink(a[1..]) + Ink(b)) == (first + Ink(a[1..])) + Ink(b);
    }
  }

  lemma {:induction false} InkOfRstrip(s: string)
    ensures Ink(Rstrip(s)) == Ink(s)
  {
    if s != [] && IsSpace(s[|s| - 1]) {
      InkOfRstrip(s[..|s| - 1]);
      InkAppend(s[..|s| - 1], [s[|s| - 1]]);
      assert s == s[..|s| - 1] + [s[|s| - 1]];
    }
  }

  lemma {:induction false} InkOfLstrip(s: string)
    ensures Ink(Lstrip(s)) == Ink(s)
  {
    if s != [] && IsSpace(s[0]) { InkOfLstrip(s[1..]); }
  }

  lemma {:induction false} CStringOfText(s: string)
    requires '\0' !in s
    ensures CString(s) == s
  {
    if s != [] { CStringOfText(s[1..]); }
  }

  lemma {:induction false} LstripIsSuffix(s: string)
    ensures |Lstrip(s)| <= |s| && Lstrip(s) == s[|s| - |Lstrip(s)|..]
  {
    if s != [] && IsSpace(s[0]) { LstripIsSuffix(s[1..]); }
  }

  lemma StripKeepsInk(s: string)
    ensures Ink(Strip(s)) == Ink(s)
  {
    InkOfLstrip(s);
    InkOfRstrip(Lstrip(s));
  }

  /** The part of each piece that its statement takes up. */
  ghost function TakenInk<D(!new), P(!new), B(!new), R>(engine: Engine<D, P, B, R>, pieces: seq<string>): string
    requires ValidEngine(engine) && forall i :: 0 <= i < |pieces| ==> CString(pieces[i]) != []
  {
    if pieces == [] then []
    else Ink(pieces[0][..engine.taken(pieces[0])]) + TakenInk(engine, pieces[1..])
  }

  lemma {:induction false} PiecesNotEmpty<D(!new), P(!new), B(!new), R>(engine: Engine<D, P, B, R>, sql: string)
    requires ValidEngine(engine)
    ensures forall i :: 0 <= i < |Split(engine, sql)| ==> CString(Split(engine, sql)[i]) != []
    decreases |sql|
  {
    var text := Strip(sql);
    if text != [] {
      PiecesNotEmpty(engine, CString(text[engine.taken(text)..]));
    }
  }

  lemma TakenInkCons<D(!new), P(!new), B(!new), R>(engine: Engine<D, P, B, R>, text: string, pieces: seq<string>)
    requires ValidEngine(engine) && CString(text) != [] && forall i :: 0 <= i < |pieces| ==> CString(pieces[i]) != []
    ensures TakenInk(engine, [text] + pieces) == Ink(text[..engine.taken(text)]) + TakenInk(engine, pieces)
  {
  }

  /** A C string is cut in two; the parts are C strings again. */
  lemma {:induction false} InkCut(text: string, n: nat)
    requires n <= |CString(text)|
    ensures Ink(CString(text)) == Ink(text[..n]) + Ink(CString(text[n..]))
  {
    if n > 0 {
      InkCut(text[1..], n - 1);
      assert text[1..][..n - 1] == text[..n][1..] && text[1..][n - 1..] == text[n..];
      var first := if IsSpace(text[0]) then [] else [text[0]];
      assert CString(text)[1..] == CString(text[1..]);
      assert first + (Ink(text[..n][1..]) + Ink(CString(text[n..]))) == (first + Ink(text[..n][1..])) + Ink(CString(text[n..]));
    }
  }

  lemma CStringOfCString(s: string)
    ensures '\0' !in CString(s) && CString(CString(s)) == CString(s)
  {
  }

  /** What the statements of any text make up, whitespace aside: the text as far as its first NUL, leading
      and trailing whitespace and NULs apart. */
  lemma {:induction false} StatementsMakeUpText<D(!new), P(!new), B(!new), R>(engine: Engine<D, P, B, R>, sql: string)
    requires ValidEngine(engine)
    ensures forall i :: 0 <= i < |Split(engine, sql)| ==> CString(Split(engine, sql)[i]) != []
    ensures TakenInk(engine, Split(engine, sql)) == Ink(CString(Strip(sql)))
    decreases |sql|
  {
    PiecesNotEmpty(engine, sql);
    var text := Strip(sql);
    if text != [] {
      var n := engine.taken(text);
      var remainder := CString(text[n..]);
      InkCut(text, n);
      StatementsMakeUpText(engine, remainder);
      StripOfCString(text[n..]);
      TakenInkCons(engine, text, Split(engine, remainder));
    }
  }

  /** Stripping a C string takes only whitespace. */
  lemma StripOfCString(s: string)
    ensures Ink(CString(Strip(CString(s)))) == Ink(CString(s))
  {
    var t := CString(s);
    CStringOfCString(s);
    LstripIsSuffix(t);
    assert forall c :: c in Strip(t) ==> c in t;
    CStringOfText(Strip(t));
    StripKeepsInk(t);
  }

  lemma {:induction false} InkNotEmpty(s: string)
    requires s != [] && !IsSpace(s[|s| - 1])
    ensures Ink(s) != []
  {
    if |s| > 1 { InkNotEmpty(s[1..]); }
  }

  /** Nothing is skipped and nothing run twice if and only if no NUL stands inside the text; what follows
      the first one is lost without an error. */
  lemma SplitLosesNothing<D(!new), P(!new), B(!new), R>(engine: Engine<D, P, B, R>, sql: string)
    requires ValidEngine(engine)
    ensures forall i :: 0 <= i < |Split(engine, sql)| ==> CString(Split(engine, sql)[i]) != []
    ensures TakenInk(engine, Split(engine, sql)) == Ink(sql) <==> '\0' !in Strip(sql)
  {
    StatementsMakeUpText(engine, sql);
    StripKeepsInk(sql);
    var text := Strip(sql);
    if '\0' in text {
      StripEndsInInk(sql);
      InkIsLost(text);
    } else {
      CStringOfText(text);
    }
  }

  lemma {:induction false} InkIsLost(text: string)
    requires '\0' in text && !IsSpace(text[|text| - 1])
    ensures |Ink(CString(text))| < |Ink(text)|
  {
    if text[0] == '\0' {
      InkNotEmpty(text);
    } else {
      InkIsLost(text[1..]);
      assert CString(text)[1..] == CString(text[1..]);
    }
  }

  lemma StripEndsInInk(s: string)
    ensures Strip(s) != [] ==> !IsSpace(Strip(s)[|Strip(s)| - 1])
  {
    RstripEndsInInk(Lstrip(s));
  }

  lemma {:induction false} RstripEndsInInk(s: string)
    ensures Rstrip(s) != [] ==> !IsSpace(Rstrip(s)[|Rstrip(s)| - 1])
  {
    if s != [] && IsSpace(s[|s| - 1]) { RstripEndsInInk(s[..|s| - 1]); }
  }
}
