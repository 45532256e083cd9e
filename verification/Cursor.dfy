/**
 Statements as cursors: `step`, `reset!`, `clear_bindings!` and `bind_param` of ext/sqlite3/statement.c
 with the Ruby methods that drive them (lib/sqlite3/statement.rb).

 SQLite's virtual machine is kept as an abstract machine. Each time a program is started it produces
 one run: a row per `sqlite3_step`, then completion or an error. Which run it is may depend on the
 bindings and on how often the program was started before, so the database may change in between.
 */
module Cursor {
  import opened Wrappers
  import opened Parameters

  type Row = seq<Value>

  datatype Code = RowReady(row: Row) | Completed | Failed(status: int)

  /** What one `sqlite3_step` leaves behind: its status, and the exception that a user-defined function
      or aggregate handler raised meanwhile. */
  datatype Pulse = Pulse(code: Code, raised: Option<Exn>)

  /** A machine that is running has its remaining pulses before it. */
  datatype Vm = Ready | Running(rest: seq<Pulse>) | Halted

  datatype Error = DiscardedDatabase | ClosedStatement | Callback(exception: Exn) | FromBlock(exception: Exn) | Sqlite(status: int) | Bind(error: BindError)

  datatype Answer = GotRow(row: Row) | GotNil | Raised(error: Error)

  /** Where a statement stands in its program. */
  datatype Position = AtStart | Partway(rest: seq<Pulse>) | AtEnd

  /** A run ends at its first pulse that is no row, and a statement without columns yields no row. */
  ghost predicate ValidRun(run: seq<Pulse>, columns: nat) {
    && run != []
    && (if run[0].code.RowReady? then columns > 0 && |run[0].code.row| == columns && ValidRun(run[1..], columns)
        else |run| == 1)
  }

  /** What `step` answers for a pulse: a pending exception outweighs any status. */
  function AnswerTo(pulse: Pulse): Answer {
    if pulse.raised.Some? then Raised(Callback(pulse.raised.value))
    else match pulse.code
      case RowReady(row) => GotRow(row)
      case Completed => GotNil
      case Failed(status) => Raised(Sqlite(status))
  }

  /** Where a step leaves the cursor that stood before `rest`. A step that raised is never at the end:
      it starts over, unless SQLite itself had a row to return. */
  function After(rest: seq<Pulse>): Position
    requires rest != []
  {
    if rest[0].code.RowReady? then Partway(rest[1..])
    else if rest[0].code.Completed? && rest[0].raised.None? then AtEnd
    else AtStart
  }

  /** The block a reader hands its rows to: what it raises over the `k`-th one, if it does. */
  type Block = (nat, Row) -> Option<Exn>

  /** What a reader's turn comes to, with a block that may raise over the row. */
  function TurnOf(pulse: Pulse, block: Block, k: nat): Answer {
    var answer := AnswerTo(pulse);
    if answer.GotRow? && block(k, answer.row).Some? then Raised(FromBlock(block(k, answer.row).value)) else answer
  }

  /** The rows a reader hands to its block from the rest of a run, `k` rows on, and the exception that cuts
      it short. */
  function Reads(rest: seq<Pulse>, block: Block, k: nat): (seq<Row>, Option<Error>) {
    if rest == [] then ([], None)
    else match TurnOf(rest[0], block, k)
      case GotNil => ([], None)
      case Raised(error) => (if AnswerTo(rest[0]).GotRow? then [AnswerTo(rest[0]).row] else [], Some(error))
      case GotRow(row) => var (rows, error) := Reads(rest[1..], block, k + 1); ([row] + rows, error)
  }

  /** The first pulse that is not simply a row for the block. */
  ghost predicate CutAt(run: seq<Pulse>, block: Block, k: nat, n: int) {
    && 0 <= n < |run| && !TurnOf(run[n], block, k + n).GotRow?
    && forall i :: 0 <= i < n ==> TurnOf(run[i], block, k + i).GotRow?
  }

  /** A read hands over the rows up to the first pulse that cuts it, its own row included if it has one,
      and ends as that turn has it. */
  lemma {:induction false} ReadsToCut(run: seq<Pulse>, columns: nat, block: Block, k: nat) returns (n: int)
    requires ValidRun(run, columns)
    ensures CutAt(run, block, k, n)
    ensures var (rows, error) := Reads(run, block, k);
            && |rows| == n + (if AnswerTo(run[n]).GotRow? then 1 else 0)
            && (forall i :: 0 <= i < |rows| ==> AnswerTo(run[i]) == GotRow(rows[i]))
            && error == ErrorOf(TurnOf(run[n], block, k + n))
  {
    n := 0;
    if TurnOf(run[0], block, k).GotRow? {
      var m := ReadsToCut(run[1..], columns, block, k + 1);
      n := m + 1;
      assert forall i :: 0 < i < |run| ==> run[i] == run[1..][i - 1];
      assert forall i :: 0 < i <= n ==> TurnOf(run[i], block, k + i) == TurnOf(run[1..][i - 1], block, k + 1 + (i - 1));
    }
  }

  function ErrorOf(answer: Answer): Option<Error> {
    if answer.Raised? then Some(answer.error) else None
  }

  /** A read is complete exactly when no callback raised, nor the block over any row, and the run ended
      without an error, and then it gives every row of the run, in order. */
  lemma {:induction false} ReadsAll(run: seq<Pulse>, columns: nat, block: Block, k: nat)
    requires ValidRun(run, columns)
    ensures var n, (rows, error) := |run| - 1, Reads(run, block, k);
            && (error == None <==> run[n].code.Completed? && (forall i :: 0 <= i <= n ==> run[i].raised.None?)
                                   && forall i :: 0 <= i < n ==> run[i].code.RowReady? && block(k + i, run[i].code.row) == None)
            && (error == None ==> |rows| == n && forall i :: 0 <= i < n ==> run[i].code == RowReady(rows[i]))
  {
    RowsFirst(run, columns);
    var n := ReadsToCut(run, columns, block, k);
    assert n < |run| - 1 ==> run[n].code.RowReady?;
    if n == |run| - 1 { assert forall i :: 0 <= i < n ==> TurnOf(run[i], block, k + i).GotRow?; }
  }

  lemma {:induction false} RowsFirst(run: seq<Pulse>, columns: nat)
    requires ValidRun(run, columns)
    ensures forall i :: 0 <= i < |run| ==> (run[i].code.RowReady? <==> i < |run| - 1)
  {
    if run[0].code.RowReady? {
      RowsFirst(run[1..], columns);
      assert forall i :: 0 < i < |run| ==> run[i] == run[1..][i - 1];
    }
  }

  /** A run without rows is a single pulse. */
  lemma RunWithoutRows(run: seq<Pulse>, block: Block)
    requires ValidRun(run, 0)
    ensures Reads(run, block, 0) == ([], ErrorOf(AnswerTo(run[0]))) && LoopReads([], block, 0) == ([], None)
  {
  }

  predicate IsStop(raised: Option<Exn>) {
    raised.Some? && raised.value.stopIteration
  }

  /** An exception that `loop` rescues, a callback's or the block's. */
  predicate Stops(error: Option<Error>) {
    error.Some? && (error.value.Callback? || error.value.FromBlock?) && error.value.exception.stopIteration
  }

  /** What of an exception leaves a `loop`. */
  function Unrescued(error: Error): Option<Error> {
    if Stops(Some(error)) then None else Some(error)
  }

  /** What a reader inside `loop do` gets: the same rows, but a StopIteration ends it without a word. */
  function LoopReads(rest: seq<Pulse>, block: Block, k: nat): (seq<Row>, Option<Error>) {
    var (rows, error) := Reads(rest, block, k);
    (rows, if Stops(error) then None else error)
  }

  /** The turn carries a StopIteration, from a callback or, over a row, from the block. */
  ghost predicate CarriesStop(pulse: Pulse, block: Block, k: nat) {
    IsStop(pulse.raised) || (pulse.raised.None? && pulse.code.RowReady? && IsStop(block(k, pulse.code.row)))
  }

  /** Where the two kinds of reader differ: a read with `while` ends without an error only at the end of
      the run; one with `loop` also if the first turn that cuts it carries a StopIteration, and only then
      do the two not give the same. */
  lemma LoopEndsQuietly(run: seq<Pulse>, columns: nat, block: Block) returns (n: int)
    requires ValidRun(run, columns)
    ensures CutAt(run, block, 0, n)
    ensures var quiet, loud := LoopReads(run, block, 0), Reads(run, block, 0);
            && (quiet.1 == None <==> (run[n].code.Completed? && run[n].raised.None?) || CarriesStop(run[n], block, n))
            && (quiet.1 == None && loud.1 != None <==> CarriesStop(run[n], block, n))
            && (quiet == loud <==> !CarriesStop(run[n], block, n))
            && quiet.0 == loud.0
  {
    n := ReadsToCut(run, columns, block, 0);
  }

  /** Such runs: after a first row a function runs an exhausted enumerator; or the block does, over the
      first row. */
  lemma StopIterationIsSwallowed(value: Value, status: int, id: int, block: Block)
    requires block(0, [value]) == None
    ensures var run := [Pulse(RowReady([value]), None), Pulse(Failed(status), Some(Exn(id, true)))];
            && ValidRun(run, 1)
            && LoopReads(run, block, 0) == ([[value]], None)
            && Reads(run, block, 0) == ([[value]], Some(Callback(Exn(id, true))))
            && After(run[1..]) == AtStart
            && var stopping: Block := (k: nat, row: Row) => Some(Exn(id, true));
               && LoopReads(run, stopping, 0) == ([[value]], None)
               && Reads(run, stopping, 0) == ([[value]], Some(FromBlock(Exn(id, true))))
               && After(run) == Partway(run[1..])
  {
    var last := [Pulse(Failed(status), Some(Exn(id, true)))];
    var run := [Pulse(RowReady([value]), None)] + last;
    assert run[1..] == last;
    assert ValidRun(last, 1) && Reads(last, block, 1) == ([], Some(Callback(Exn(id, true))));
    assert [[value]] + [] == [[value]];
  }

  /** The answer to a step that stood before `rest`, and where it left the cursor. */
  ghost predicate Answered(answer: Answer, rest: seq<Pulse>, position: Position) {
    if rest == [] then answer.GotNil? && position == AtEnd
    else answer == AnswerTo(rest[0]) && position == After(rest)
  }

  lemma JoinsStart(whole: seq<Pulse>, block: Block)
    ensures JoinsReads(whole, block, [], whole)
  {
    assert [] + Reads(whole, block, 0).0 == Reads(whole, block, 0).0;
  }

  /** What a reader gets from `whole` is `rows` followed by what it gets from `rest`. */
  ghost predicate JoinsReads(whole: seq<Pulse>, block: Block, rows: seq<Row>, rest: seq<Pulse>) {
    Reads(whole, block, 0) == (rows + Reads(rest, block, |rows|).0, Reads(rest, block, |rows|).1)
  }

  lemma JoinsNext(whole: seq<Pulse>, block: Block, rows: seq<Row>, rest: seq<Pulse>)
    requires JoinsReads(whole, block, rows, rest)
    ensures rest == [] ==> Reads(whole, block, 0) == (rows, None)
    ensures rest != [] && !AnswerTo(rest[0]).GotRow? ==> Reads(whole, block, 0) == (rows, ErrorOf(AnswerTo(rest[0])))
    ensures rest != [] && AnswerTo(rest[0]).GotRow? ==>
              var row := AnswerTo(rest[0]).row;
              if block(|rows|, row).Some? then Reads(whole, block, 0) == (rows + [row], Some(FromBlock(block(|rows|, row).value)))
              else JoinsReads(whole, block, rows + [row], rest[1..])
  {
    assert rows + [] == rows;
    if rest != [] && TurnOf(rest[0], block, |rows|).GotRow? {
      var row, later := AnswerTo(rest[0]).row, Reads(rest[1..], block, |rows| + 1).0;
      assert rows + ([row] + later) == rows + [row] + later;
    }
  }

  /** Every slot NULL. */
  function Unset(slots: nat): Bindings {
    if slots == 0 then map[] else Unset(slots - 1)[slots := Nil]
  }

  lemma {:induction false} UnsetIsNull(slots: nat)
    ensures forall slot :: slot in Unset(slots) <==> 1 <= slot <= slots
    ensures forall slot :: 1 <= slot <= slots ==> Unset(slots)[slot] == Nil
  {
    if slots > 0 { UnsetIsNull(slots - 1); }
  }

  class Statement {
    // the C struct and the flag of the database it belongs to
    var open: bool
    var discarded: bool
    var doneP: bool
    // the interpreter's pending exception, rb_errinfo()
    var errinfo: Option<Exn>
    // SQLite's side
    var vm: Vm
    var bindings: Bindings
    var starts: nat
    const names: Names
    const columnNames: seq<string>
    const program: (nat, Bindings) -> seq<Pulse>
    const toDouble: int -> real
    // @columns
    var columnsCache: Option<seq<string>>

    ghost predicate Valid()
      reads this
    {
      && (forall n, b :: ValidRun(program(n, b), |columnNames|))
      && (vm.Running? ==> ValidRun(vm.rest, |columnNames|))
      && (doneP ==> vm.Halted?)
      && errinfo == None
      && (columnsCache.Some? ==> columnsCache.value == columnNames)
    }

    ghost predicate Usable()
      reads this
    {
      open && !discarded
    }

    /** The exception that REQUIRE_LIVE_DB and then REQUIRE_OPEN_STMT raise. */
    function Guard(): Option<Error>
      reads this
    {
      if discarded then Some(DiscardedDatabase) else if !open then Some(ClosedStatement) else None
    }

    /** `active?`. */
    function Active(): bool
      reads this
    {
      !doneP
    }

    ghost function Where(): Position
      reads this
      requires Valid()
    {
      if doneP then AtEnd
      else if vm.Running? then Partway(vm.rest)
      else AtStart
    }

    /** The pulses still to come; at the end there are none, at the start a whole new run. */
    ghost function Rest(): (rest: seq<Pulse>)
      reads this
      requires Valid()
      ensures Where() != AtEnd ==> ValidRun(rest, |columnNames|)
    {
      match Where()
      case AtEnd => []
      case Partway(rest) => rest
      case AtStart => program(starts, bindings)
    }

    /** `sqlite3_step`: a machine that is not running starts its program over. */
    method SqliteStep() returns (pulse: Pulse)
      requires Valid() && !doneP
      modifies `vm, `starts, `errinfo
      ensures pulse == old(Rest())[0] && errinfo == pulse.raised
      ensures vm == if pulse.code.RowReady? then Running(old(Rest())[1..]) else Halted
      ensures starts == old(starts) + (if old(Where()) == AtStart then 1 else 0)
    {
      if !vm.Running? {
        vm := Running(program(starts, bindings));
        starts := starts + 1;
      }
      pulse := vm.rest[0];
      errinfo := pulse.raised;
      vm := if pulse.code.RowReady? then Running(vm.rest[1..]) else Halted;
    }

    method Step() returns (answer: Answer)
      requires Valid()
      modifies `vm, `starts, `errinfo, `doneP
      ensures Valid()
      ensures old(Guard()).Some? ==> answer == Raised(old(Guard()).value)
      ensures Usable() && old(Where()) == AtEnd ==> answer == GotNil
      ensures !Usable() || old(Where()) == AtEnd ==> Where() == old(Where()) && starts == old(starts) && vm == old(vm)
      ensures Usable() && old(Where()) != AtEnd ==>
                && answer == AnswerTo(old(Rest())[0])
                && Where() == After(old(Rest()))
                && starts == old(starts) + (if old(Where()) == AtStart then 1 else 0)
    {
      if discarded { return Raised(DiscardedDatabase); }
      if !open { return Raised(ClosedStatement); }
      if doneP { return GotNil; }

      var pulse := SqliteStep();
      if errinfo.Some? {
        var exception := errinfo.value;
        errinfo := None;
        return Raised(Callback(exception));
      }
      match pulse.code {
        case RowReady(row) =>
          return GotRow(row);
        case Completed =>
          doneP := true;
          return GotNil;
        case Failed(status) =>
          vm := Ready;
          doneP := false;
          return Raised(Sqlite(status));
      }
    }

    method ResetBang() returns (error: Option<Error>)
      requires Valid()
      modifies `vm, `doneP
      ensures Valid() && error == Guard()
      ensures Usable() ==> vm == Ready && Where() == AtStart
      ensures !Usable() ==> vm == old(vm) && doneP == old(doneP)
    {
      if Guard().Some? { return Guard(); }
      vm := Ready;
      doneP := false;
      return None;
    }

    /** The bindings go, the machine is left as it is: from the end that is a restart, partway the
        running program goes on. */
    method ClearBindingsBang() returns (error: Option<Error>)
      requires Valid()
      modifies `bindings, `doneP
      ensures Valid() && error == Guard()
      ensures Usable() ==> bindings == Unset(|names|)
      ensures Usable() ==> Where() == if old(Where()).Partway? then old(Where()) else AtStart
      ensures !Usable() ==> bindings == old(bindings) && doneP == old(doneP)
    {
      if Guard().Some? { return Guard(); }
      bindings := Unset(|names|);
      doneP := false;
      return None;
    }

    method BindParam(key: Key, value: Value) returns (error: Option<Error>)
      requires Valid()
      modifies `bindings
      ensures Valid()
      ensures !Usable() ==> error == Guard() && bindings == old(bindings)
      ensures Usable() ==> var (b, e) := Bound(names, vm.Ready?, toDouble, old(bindings), [(key, value)]);
                           bindings == b && error == if e.None? then None else Some(Bind(e.value))
    {
      assert [(key, value)][..0] == [];
      if Guard().Some? { return Guard(); }
      var index;
      match key {
        case Name(text) =>
          var name := if text == [] || text[0] != ':' then ":" + text else text;
          index := ParameterIndex(names, name);
        case Index(i) =>
          index := i;
      }
      if index == 0 { return Some(Bind(NoSuchParameter)); }
      if value.Unsupported? { return Some(Bind(CannotPrepare)); }
      if !vm.Ready? { return Some(Bind(Misuse)); }
      if index < 1 || index > |names| { return Some(Bind(OutOfRange)); }
      bindings := bindings[index := Converted(value, toDouble)];
      return None;
    }

    /** The outcome of a list of bind_param calls on the statement as it is; if it cannot be used, the first
        call raises. */
    ghost function Outcome(start: Bindings, calls: seq<Pair>): (Bindings, Option<Error>)
      reads this
    {
      if Guard().Some? then (start, if calls == [] then None else Guard())
      else
        var (b, e) := Bound(names, vm.Ready?, toDouble, start, calls);
        (b, if e.None? then None else Some(Bind(e.value)))
    }

    lemma OutcomeAppend(start: Bindings, first: seq<Pair>, second: seq<Pair>)
      ensures Outcome(start, first).1 == None ==> Outcome(start, first + second) == Outcome(Outcome(start, first).0, second)
    {
      BoundAppend(names, vm.Ready?, toDouble, start, first, second);
      if Guard().Some? && first == [] { assert first + second == second; }
    }

    lemma OutcomeStops(start: Bindings, calls: seq<Pair>, k: nat)
      requires k <= |calls| && Outcome(start, calls[..k]).1.Some?
      ensures Outcome(start, calls) == Outcome(start, calls[..k])
    {
      if Guard().None? { BoundStops(names, vm.Ready?, toDouble, start, calls, k); }
    }

    /** If the calls for the first arguments raise, that is the outcome of all. */
    lemma OutcomeStopsEarly(start: Bindings, flat: seq<Arg>, k: nat)
      requires k <= |flat| && Outcome(start, Calls(flat[..k])).1.Some?
      ensures Outcome(start, Calls(flat)) == Outcome(start, Calls(flat[..k]))
    {
      CallsExtend(flat, k);
      var n := |Calls(flat[..k])|;
      assert Calls(flat)[..n] == Calls(flat[..k]);
      OutcomeStops(start, Calls(flat), n);
    }

    method BindPairs(pairs: seq<Pair>) returns (error: Option<Error>)
      requires Valid()
      modifies `bindings
      ensures Valid() && (bindings, error) == Outcome(old(bindings), pairs)
    {
      var j := 0;
      while j < |pairs|
        invariant 0 <= j <= |pairs| && Valid()
        invariant (bindings, None) == Outcome(old(bindings), pairs[..j])
      {
        assert pairs[..j + 1] == pairs[..j] + [pairs[j]];
        OutcomeAppend(old(bindings), pairs[..j], [pairs[j]]);
        error := BindParam(pairs[j].0, pairs[j].1);
        assert (bindings, error) == Outcome(old(bindings), pairs[..j + 1]);
        if error.Some? {
          OutcomeStops(old(bindings), pairs, j + 1);
          return;
        }
        j := j + 1;
      }
      assert pairs[..j] == pairs;
      return None;
    }

    method BindArgument(arg: Arg, index: nat) returns (error: Option<Error>)
      requires Valid() && !arg.Nested?
      modifies `bindings
      ensures Valid() && (bindings, error) == Outcome(old(bindings), CallsFor(arg, index))
    {
      if arg.Pairs? {
        error := BindPairs(arg.pairs);
      } else {
        error := BindParam(Index(index), arg.value);
      }
    }

    /** One turn of the loop of `bind_params`, after the calls for the arguments before have succeeded. */
    method BindNext(flat: seq<Arg>, i: nat, index: nat, ghost start: Bindings) returns (error: Option<Error>)
      requires Valid() && i < |flat| && !flat[i].Nested? && index == Scalars(flat[..i]) + 1
      requires (bindings, None) == Outcome(start, Calls(flat[..i]))
      modifies `bindings
      ensures Valid() && (bindings, error) == Outcome(start, Calls(flat[..i + 1]))
    {
      CallsNext(flat, i);
      OutcomeAppend(start, Calls(flat[..i]), CallsFor(flat[i], index));
      error := BindArgument(flat[i], index);
    }

    /** The loop of `bind_params` over the flattened arguments. */
    method BindFlat(flat: seq<Arg>) returns (error: Option<Error>)
      requires Valid()
      requires forall i :: 0 <= i < |flat| ==> !flat[i].Nested?
      modifies `bindings
      ensures Valid() && (bindings, error) == Outcome(old(bindings), Calls(flat))
    {
      var index, i := 1, 0;
      ghost var start := bindings;
      while i < |flat|
        invariant 0 <= i <= |flat| && Valid()
        invariant index == Scalars(flat[..i]) + 1
        invariant (bindings, None) == Outcome(start, Calls(flat[..i]))
      {
        CallsNext(flat, i);
        error := BindNext(flat, i, index, start);
        if error.Some? {
          OutcomeStopsEarly(start, flat, i + 1);
          return;
        }
        if flat[i].Scalar? { index := index + 1; }
        i := i + 1;
      }
      assert flat[..i] == flat;
      return None;
    }

    method BindParams(args: seq<Arg>) returns (error: Option<Error>)
      requires Valid()
      modifies `bindings
      ensures Valid() && (bindings, error) == Outcome(old(bindings), Calls(Flatten(args)))
    {
      FlattenIsFlat(args);
      error := BindFlat(Flatten(args));
    }

    /** `each`: the block gets the rows still to come up to a raise, a callback's or its own; the statement
        ends done exactly if there was none; and a StopIteration is not raised on. */
    method Each(block: Block) returns (yielded: seq<Row>, error: Option<Error>)
      requires Valid()
      modifies `vm, `starts, `errinfo, `doneP
      ensures Valid()
      ensures old(Guard()).Some? ==> yielded == [] && error == old(Guard())
      ensures Usable() ==> (yielded, error) == LoopReads(old(Rest()), block, 0)
      ensures Usable() ==> (Where() == AtEnd <==> Reads(old(Rest()), block, 0).1 == None)
      ensures Usable() ==> (error == None && Where() != AtEnd <==> Stops(Reads(old(Rest()), block, 0).1))
      ensures Usable() ==> starts == old(starts) + (if old(Where()) == AtStart then 1 else 0)
    {
      yielded := [];
      ghost var whole, restarts := Rest(), if Where() == AtStart then 1 else 0;
      JoinsStart(whole, block);
      while true
        invariant Valid() && Usable() == old(Usable()) && Guard() == old(Guard())
        invariant !Usable() ==> yielded == []
        invariant Usable() ==> JoinsReads(whole, block, yielded, Rest())
        invariant Usable() ==> starts + (if Where() == AtStart then 1 else 0) == old(starts) + restarts
        decreases |Rest()|
      {
        if Usable() { JoinsNext(whole, block, yielded, Rest()); }
        var answer := Step();
        if answer.Raised? { return yielded, Unrescued(answer.error); }
        if doneP { return yielded, None; }
        yielded := yielded + [answer.row];
        var raised := block(|yielded| - 1, answer.row);
        if raised.Some? { return yielded, Unrescued(FromBlock(raised.value)); }
      }
    }

    /** `step if column_count == 0`, on a statement that was just reset. */
    method StepWithoutColumns() returns (error: Option<Error>)
      requires Valid() && Usable() && Where() == AtStart
      modifies `vm, `starts, `errinfo, `doneP
      ensures Valid()
      ensures columnNames != [] ==> error == None && Where() == AtStart && starts == old(starts)
      ensures columnNames == [] ==>
                && error == ErrorOf(AnswerTo(old(Rest())[0]))
                && Where() == (if error.None? then AtEnd else AtStart)
                && starts == old(starts) + 1
    {
      if |columnNames| == 0 {
        var answer := Step();
        if answer.Raised? { return Some(answer.error); }
      }
      return None;
    }

    /** `execute` up to the point where it yields: reset, bind, and for a statement without columns
        run it. */
    method Execute(args: seq<Arg>) returns (error: Option<Error>)
      requires Valid()
      modifies `vm, `starts, `errinfo, `doneP, `bindings
      ensures Valid()
      ensures !Usable() ==> error == Guard() && bindings == old(bindings) && starts == old(starts)
      ensures Usable() ==>
                var (b, e) := Bound(names, true, toDouble, old(bindings), Calls(Flatten(args)));
                && bindings == b
                && (e.Some? ==> error == Some(Bind(e.value)) && Where() == AtStart && starts == old(starts))
                && (e.None? && columnNames != [] ==> error == None && Where() == AtStart && starts == old(starts))
                && (e.None? && columnNames == [] ==>
                      && error == ErrorOf(AnswerTo(program(old(starts), b)[0]))
                      && Where() == (if error.None? then AtEnd else AtStart)
                      && starts == old(starts) + 1)
    {
      if Active() || doneP {
        error := ResetBang();
        if error.Some? { return; }
      }
      if args != [] {
        error := BindParams(args);
        if error.Some? { return; }
      }
      assert (bindings, None) == Outcome(old(bindings), Calls(Flatten(args)));
      error := StepWithoutColumns();
    }

    /** `execute!`: whatever the column count, the program is started exactly once, with the new
        bindings, and the rows are those of that run. With columns it reads through `each`; without, its
        one step is outside of any `loop`. */
    method ExecuteBang(args: seq<Arg>, block: Block) returns (rows: seq<Row>, error: Option<Error>)
      requires Valid()
      modifies `vm, `starts, `errinfo, `doneP, `bindings
      ensures Valid()
      ensures !Usable() ==> rows == [] && error == Guard() && starts == old(starts)
      ensures Usable() ==>
                var (b, e) := Bound(names, true, toDouble, old(bindings), Calls(Flatten(args)));
                && (e.Some? ==> rows == [] && error == Some(Bind(e.value)) && starts == old(starts))
                && (e.None? ==>
                      var run := program(old(starts), b);
                      && (rows, error) == (if columnNames == [] then ([], ErrorOf(AnswerTo(run[0]))) else LoopReads(run, block, 0))
                      && (Where() == AtEnd <==> Reads(run, block, 0).1 == None)
                      && starts == old(starts) + 1)
    {
      ghost var run := program(starts, Bound(names, true, toDouble, bindings, Calls(Flatten(args))).0);
      if columnNames == [] { RunWithoutRows(run, block); }
      error := Execute(args);
      if error.Some? { return [], error; }
      rows, error := Each(block);
    }

    /** `close`, on an open statement. */
    method Close()
      requires Valid() && open
      modifies `open
      ensures Valid() && !open
    {
      open := false;
    }

    /** `columns`: the names are fetched once. */
    method Columns() returns (columns: seq<string>, error: Option<Error>)
      requires Valid()
      modifies `columnsCache
      ensures Valid()
      ensures error == None ==> columns == columnNames && columnsCache == Some(columnNames)
      ensures error == if old(columnsCache).Some? then None else Guard()
    {
      if columnsCache.None? {
        if Guard().Some? { return [], Guard(); }
        columnsCache := Some(columnNames);
      }
      return columnsCache.value, None;
    }
  }
}
