/**
 Result sets (lib/sqlite3/resultset.rb) in array and hash mode, and `get_first_value`
 (lib/sqlite3/database.rb) in both.
 */
module ResultSets {
  import opened Wrappers
  import opened Parameters
  import opened Cursor

  type HashRow = map<string, Value>

  /** `columns.zip(row).to_h`: a later column of the same name replaces an earlier one. */
  function Zipped(columns: seq<string>, row: Row): HashRow {
    if columns == [] then map[]
    else
      var n := |columns| - 1;
      Zipped(columns[..n], row)[columns[n] := if n < |row| then row[n] else Nil]
  }

  function ZippedAll(columns: seq<string>, rows: seq<Row>): (hashes: seq<HashRow>)
    ensures |hashes| == |rows| && forall i :: 0 <= i < |rows| ==> hashes[i] == Zipped(columns, rows[i])
  {
    if rows == [] then [] else [Zipped(columns, rows[0])] + ZippedAll(columns, rows[1..])
  }

  /** A block that takes hashes, seen as one that takes rows. */
  function OnArrays(columns: seq<string>, block: (nat, HashRow) -> Option<Exn>): Block {
    (k: nat, row: Row) => block(k, Zipped(columns, row))
  }

  predicate LastNamed(columns: seq<string>, k: int) {
    0 <= k < |columns| && forall j :: k < j < |columns| ==> columns[j] != columns[k]
  }

  /** The hash has the columns' names for keys, each with the value of the last column of that name. */
  lemma {:induction false} LastColumnWins(columns: seq<string>, row: Row)
    requires |row| == |columns|
    ensures forall name :: name in Zipped(columns, row) <==> name in columns
    ensures forall k :: LastNamed(columns, k) ==> Zipped(columns, row)[columns[k]] == row[k]
  {
    if columns != [] {
      var n := |columns| - 1;
      var before := columns[..n];
      assert columns == before + [columns[n]];
      LastColumnWins(before, row[..n]);
      ZippedPrefix(before, row, n);
      forall k | LastNamed(columns, k) ensures Zipped(columns, row)[columns[k]] == row[k] {
        if k < n {
          assert LastNamed(before, k);
        }
      }
    }
  }

  lemma {:induction false} ZippedPrefix(columns: seq<string>, row: Row, n: nat)
    requires |columns| <= n <= |row|
    ensures Zipped(columns, row) == Zipped(columns, row[..n])
  {
    if columns != [] {
      ZippedPrefix(columns[..|columns| - 1], row, n);
    }
  }

  lemma {:induction false} LastIndexOf(columns: seq<string>, name: string) returns (k: int)
    requires name in columns
    ensures LastNamed(columns, k) && columns[k] == name
  {
    var n := |columns| - 1;
    if columns[n] == name {
      k := n;
    } else {
      assert columns == columns[..n] + [columns[n]];
      k := LastIndexOf(columns[..n], name);
    }
  }

  /** What hash mode makes of an answer in array mode. */
  ghost predicate HashOf(columns: seq<string>, answer: Answer, hash: Option<HashRow>, error: Option<Error>) {
    && hash == (if answer.GotRow? then Some(Zipped(columns, answer.row)) else None)
    && error == (if answer.Raised? then Some(answer.error) else None)
  }

  class ResultSet {
    const stmt: Statement

    constructor (stmt: Statement)
      ensures this.stmt == stmt
    {
      this.stmt := stmt;
    }

    /** `reset`: binds on a machine that was just reset, and leaves it at row zero. */
    method Reset(args: seq<Arg>) returns (error: Option<Error>)
      requires stmt.Valid()
      modifies stmt
      ensures stmt.Valid() && stmt.starts == old(stmt.starts) && stmt.Guard() == old(stmt.Guard())
      ensures !stmt.Usable() ==> error == stmt.Guard()
      ensures stmt.Usable() ==>
                var (b, e) := Bound(stmt.names, true, stmt.toDouble, old(stmt.bindings), Calls(Flatten(args)));
                && stmt.Where() == AtStart && stmt.bindings == b
                && error == if e.None? then None else Some(Bind(e.value))
    {
      error := stmt.ResetBang();
      if error.Some? { return; }
      error := stmt.BindParams(args);
    }

    /** `each` in array mode: it stops at the first nil, and raises whatever is raised. */
    method Each(block: Block) returns (yielded: seq<Row>, error: Option<Error>)
      requires stmt.Valid()
      modifies stmt
      ensures stmt.Valid() && stmt.columnsCache == old(stmt.columnsCache)
      ensures old(stmt.Guard()).Some? ==> yielded == [] && error == old(stmt.Guard())
      ensures stmt.Usable() ==> (yielded, error) == Reads(old(stmt.Rest()), block, 0)
      ensures stmt.Usable() ==> (error == None <==> stmt.Where() == AtEnd)
    {
      yielded := [];
      ghost var whole := stmt.Rest();
      ghost var rest := whole;
      JoinsStart(whole, block);
      var node := stmt.Step();
      while node.GotRow?
        invariant stmt.Valid() && stmt.columnsCache == old(stmt.columnsCache)
        invariant stmt.Usable() == old(stmt.Usable()) && stmt.Guard() == old(stmt.Guard())
        invariant stmt.Guard().Some? ==> node == Raised(stmt.Guard().value) && yielded == []
        invariant stmt.Usable() ==> JoinsReads(whole, block, yielded, rest) && Answered(node, rest, stmt.Where())
        invariant rest != [] ==> ValidRun(rest, |stmt.columnNames|)
        decreases |rest|
      {
        JoinsNext(whole, block, yielded, rest);
        yielded := yielded + [node.row];
        var raised := block(|yielded| - 1, node.row);
        if raised.Some? { return yielded, Some(FromBlock(raised.value)); }
        rest := rest[1..];
        node := stmt.Step();
      }
      if stmt.Usable() { JoinsNext(whole, block, yielded, rest); }
      error := if node.Raised? then Some(node.error) else None;
    }

    /** `next_hash`. */
    method NextHash() returns (hash: Option<HashRow>, error: Option<Error>)
      requires stmt.Valid()
      modifies stmt
      ensures stmt.Valid() && stmt.Guard() == old(stmt.Guard()) && stmt.Usable() == old(stmt.Usable())
      ensures old(stmt.Guard()).Some? ==> error == old(stmt.Guard())
      ensures stmt.Usable() && old(stmt.Where()) == AtEnd ==>
                hash == None && error == None && stmt.Where() == AtEnd
      ensures stmt.Usable() ==> stmt.starts == old(stmt.starts) + (if old(stmt.Where()) == AtStart then 1 else 0)
      ensures stmt.Usable() && old(stmt.Where()) != AtEnd ==>
                && stmt.Where() == After(old(stmt.Rest()))
                && HashOf(stmt.columnNames, AnswerTo(old(stmt.Rest())[0]), hash, error)
    {
      var row := stmt.Step();
      if row.Raised? { return None, Some(row.error); }
      if stmt.doneP { return None, None; }
      var columns, e := stmt.Columns();
      return Some(Zipped(columns, row.row)), e;
    }

    /** One turn of `each_hash`, after `rows` were yielded as hashes. */
    method HashTurn(block: (nat, HashRow) -> Option<Exn>, yielded: seq<HashRow>, ghost whole: seq<Pulse>, ghost rows: seq<Row>)
      returns (hashes: seq<HashRow>, over: bool, error: Option<Error>, ghost given: seq<Row>)
      requires stmt.Valid() && yielded == ZippedAll(stmt.columnNames, rows)
      requires stmt.Usable() ==> JoinsReads(whole, OnArrays(stmt.columnNames, block), rows, stmt.Rest())
      modifies stmt
      ensures stmt.Valid() && stmt.Guard() == old(stmt.Guard()) && stmt.Usable() == old(stmt.Usable())
      ensures !stmt.Usable() ==> over && hashes == yielded && error == stmt.Guard()
      ensures hashes == ZippedAll(stmt.columnNames, given)
      ensures stmt.Usable() && over ==>
                (given, error) == Reads(whole, OnArrays(stmt.columnNames, block), 0) && (error == None <==> stmt.Where() == AtEnd)
      ensures !over ==>
                JoinsReads(whole, OnArrays(stmt.columnNames, block), given, stmt.Rest()) && |stmt.Rest()| < old(|stmt.Rest()|)
    {
      ghost var rest := stmt.Rest();
      var hash, e := NextHash();
      if stmt.Usable() { JoinsNext(whole, OnArrays(stmt.columnNames, block), rows, rest); }
      if e.Some? || hash.None? { return yielded, true, e, rows; }
      given := rows + [rest[0].code.row];
      hashes := yielded + [hash.value];
      ZippedAllAppend(stmt.columnNames, rows, rest[0].code.row);
      var raised := block(|hashes| - 1, hash.value);
      if raised.Some? { return hashes, true, Some(FromBlock(raised.value)), given; }
      return hashes, false, None, given;
    }

    /** `each_hash`, which is also `each` of a HashResultSet: where array mode yields a row, hash mode
        yields that row as a hash, and both stop together, for the same reason. */
    method EachHash(block: (nat, HashRow) -> Option<Exn>) returns (yielded: seq<HashRow>, error: Option<Error>)
      requires stmt.Valid()
      modifies stmt
      ensures stmt.Valid()
      ensures old(stmt.Guard()).Some? ==> yielded == [] && error == old(stmt.Guard())
      ensures stmt.Usable() ==> var (rows, e) := Reads(old(stmt.Rest()), OnArrays(stmt.columnNames, block), 0);
                                yielded == ZippedAll(stmt.columnNames, rows) && error == e
      ensures stmt.Usable() ==> (error == None <==> stmt.Where() == AtEnd)
    {
      yielded := [];
      ghost var whole, rows := stmt.Rest(), [];
      JoinsStart(whole, OnArrays(stmt.columnNames, block));
      while true
        invariant stmt.Valid() && stmt.Usable() == old(stmt.Usable()) && stmt.Guard() == old(stmt.Guard())
        invariant !stmt.Usable() ==> yielded == []
        invariant yielded == ZippedAll(stmt.columnNames, rows)
        invariant stmt.Usable() ==> JoinsReads(whole, OnArrays(stmt.columnNames, block), rows, stmt.Rest())
        decreases |stmt.Rest()|
      {
        var over;
        yielded, over, error, rows := HashTurn(block, yielded, whole, rows);
        if over { return; }
      }
    }
  }

  lemma {:induction false} ZippedAllAppend(columns: seq<string>, rows: seq<Row>, row: Row)
    ensures ZippedAll(columns, rows + [row]) == ZippedAll(columns, rows) + [Zipped(columns, row)]
  {
  }

  // ---------------------------------------------------------------------------
  // get_first_value

  /** `row[0]`. */
  function FirstOfArray(row: Row): Value {
    if row == [] then Nil else row[0]
  }

  /** `row[columns[0]]`. */
  function FirstOfHash(columns: seq<string>, hash: HashRow): Value {
    if columns != [] && columns[0] in hash then hash[columns[0]] else Nil
  }

  predicate FirstNameRepeated(columns: seq<string>) {
    exists j :: 0 < j < |columns| && columns[j] == columns[0]
  }

  /** The two modes give the same first value on every row exactly when the first column's name is not
      repeated; if it is, hash mode gives the value of the last column of that name. */
  lemma FirstValueModes(columns: seq<string>)
    ensures (forall row: Row :: |row| == |columns| ==> FirstOfHash(columns, Zipped(columns, row)) == FirstOfArray(row))
            <==> !FirstNameRepeated(columns)
  {
    if columns != [] {
      var k := LastIndexOf(columns, columns[0]);
      forall row: Row | |row| == |columns| ensures FirstOfHash(columns, Zipped(columns, row)) == row[k] {
        LastColumnWins(columns, row);
      }
      if FirstNameRepeated(columns) {
        var row: Row := seq(|columns|, i => Integer(i));
        assert |row| == |columns| && row[k] != row[0];
      }
    }
  }

  /** The value of the first row, in either mode; nil if there is no row. */
  function FirstOf(columns: seq<string>, answer: Answer, asHash: bool): Value {
    if !answer.GotRow? then Nil
    else if asHash then FirstOfHash(columns, Zipped(columns, answer.row))
    else FirstOfArray(answer.row)
  }

  /** In array mode that is the row's first value; in hash mode that of the last column named like the first;
      and both are nil without a row. */
  lemma FirstOfIs(columns: seq<string>, answer: Answer, k: int)
    ensures !answer.GotRow? ==> FirstOf(columns, answer, true) == Nil && FirstOf(columns, answer, false) == Nil
    ensures answer.GotRow? && answer.row != [] ==> FirstOf(columns, answer, false) == answer.row[0]
    ensures answer.GotRow? && |answer.row| == |columns| && LastNamed(columns, k) && columns[k] == columns[0] ==>
              FirstOf(columns, answer, true) == answer.row[k]
  {
    if answer.GotRow? && |answer.row| == |columns| { LastColumnWins(columns, answer.row); }
  }

  /** The block of `get_first_value`: the next row of the result set, and its first value. */
  method NextFirstValue(results: ResultSet, asHash: bool) returns (value: Value, error: Option<Error>)
    requires results.stmt.Valid() && results.stmt.Usable()
    modifies results.stmt
    ensures results.stmt.Valid() && results.stmt.Usable()
    ensures results.stmt.starts == old(results.stmt.starts) + (if old(results.stmt.Where()) == AtStart then 1 else 0)
    ensures old(results.stmt.Where()) == AtEnd ==> value == Nil && error == None
    ensures old(results.stmt.Where()) != AtEnd ==>
              var answer := AnswerTo(old(results.stmt.Rest())[0]);
              && value == FirstOf(results.stmt.columnNames, answer, asHash)
              && error == (if answer.Raised? then Some(answer.error) else None)
  {
    value, error := Nil, None;
    if asHash {
      var hash;
      hash, error := results.NextHash();
      if error.None? && hash.Some? {
        var columns, e := results.stmt.Columns();
        value := FirstOfHash(columns, hash.value);
      }
    } else {
      var row := results.stmt.Step();
      if row.Raised? { error := Some(row.error); }
      if row.GotRow? { value := FirstOfArray(row.row); }
    }
  }

  /** `get_first_value` on a prepared statement: run it, take the first value of its first row, close.
      The program is started once, for a statement without columns as for one with columns. The statement
      stays open exactly if it raised before there was a result set to close: over a binding, or in the
      one step of a statement without columns. */
  method GetFirstValue(stmt: Statement, args: seq<Arg>, asHash: bool) returns (value: Value, error: Option<Error>)
    requires stmt.Valid() && stmt.Usable()
    modifies stmt
    ensures stmt.Valid()
    ensures var (b, e) := Bound(stmt.names, true, stmt.toDouble, old(stmt.bindings), Calls(Flatten(args)));
            && (e.Some? ==> error == Some(Bind(e.value)) && stmt.open)
            && (e.None? ==>
                  var first := AnswerTo(stmt.program(old(stmt.starts), b)[0]);
                  && stmt.starts == old(stmt.starts) + 1
                  && (stmt.open <==> stmt.columnNames == [] && first.Raised?)
                  && error == (if first.Raised? then Some(first.error) else None)
                  && value == FirstOf(stmt.columnNames, first, asHash))
  {
    error := stmt.Execute(args);
    if error.Some? { return Nil, error; }
    var results := new ResultSet(stmt);
    value, error := NextFirstValue(results, asHash);
    stmt.Close();
  }
}
