/**
 `Database#transaction`, `commit` and `rollback` (lib/sqlite3/database.rb), for every program a block
 can be: writes, failing statements, raises, rescues, other exits, transaction control and nested
 `transaction` calls.

 SQLite is kept as its transaction state: the committed data and, unless it is in autocommit mode, the
 data of the open transaction. Whether SQLite refuses a command that is in order (another connection
 holds a lock, a deferred constraint is violated) is decided by a schedule over the commands.
 */
module Transaction {
  import opened Wrappers

  /** How a block is left. A bare `rescue` catches the StandardErrors only; a throw, a break, an
      interrupt or any other Exception passes it by. */
  datatype Exit = Normal | StandardError | OtherExit

  datatype Command = Begin | Commit | Rollback

  datatype Block<!D> =
    | Skip
    | Write(change: D -> D)
    | Fail                                          // a statement that raises and changes nothing
    | FailRollingBack                               // a statement whose failure ends the transaction
    | Leave(exit: Exit)
    | Then(first: Block<D>, second: Block<D>)
    | Rescue(body: Block<D>, handler: Block<D>)     // begin body rescue handler end
    | Issue(command: Command)                       // explicit transaction control
    | Nested(body: Block<D>)                        // transaction do body end

  /** The connection: `pending` is None in autocommit mode. */
  datatype Conn<D> = Conn(committed: D, pending: Option<D>, issued: seq<Command>)

  /** The data a statement sees. */
  function Seen<D>(conn: Conn<D>): D {
    if conn.pending.Some? then conn.pending.value else conn.committed
  }

  function Written<D>(conn: Conn<D>, data: D): Conn<D> {
    if conn.pending.Some? then conn.(pending := Some(data)) else conn.(committed := data)
  }

  /** One command: it fails where it is out of place, and where the schedule refuses it. */
  function Commanded<D>(conn: Conn<D>, command: Command, refused: nat -> bool): (Conn<D>, Exit) {
    var logged := conn.(issued := conn.issued + [command]);
    if refused(|conn.issued|) then (logged, StandardError)
    else match command
      case Begin => if conn.pending.Some? then (logged, StandardError) else (logged.(pending := Some(conn.committed)), Normal)
      case Commit => if conn.pending.None? then (logged, StandardError) else (logged.(committed := conn.pending.value, pending := None), Normal)
      case Rollback => if conn.pending.None? then (logged, StandardError) else (logged.(pending := None), Normal)
  }

  /** `transaction`: begin, the block, then the one command its exit calls for. An error of that command
      replaces whatever left the block. */
  function Transacted<D>(conn: Conn<D>, body: Block<D>, refused: nat -> bool): (Conn<D>, Exit)
    decreases body, 1
  {
    var (begun, beginExit) := Commanded(conn, Begin, refused);
    if beginExit != Normal then (begun, beginExit)
    else
      var (after, exit) := Ran(begun, body, refused);
      var (ended, endExit) := Commanded(after, if exit == StandardError then Rollback else Commit, refused);
      (ended, if endExit != Normal then endExit else exit)
  }

  function Ran<D>(conn: Conn<D>, block: Block<D>, refused: nat -> bool): (Conn<D>, Exit)
    decreases block, 0
  {
    match block
    case Skip => (conn, Normal)
    case Write(change) => (Written(conn, change(Seen(conn))), Normal)
    case Fail => (conn, StandardError)
    case FailRollingBack => (conn.(pending := None), StandardError)
    case Leave(exit) => (conn, exit)
    case Then(first, second) =>
      var (after, exit) := Ran(conn, first, refused);
      if exit == Normal then Ran(after, second, refused) else (after, exit)
    case Rescue(body, handler) =>
      var (after, exit) := Ran(conn, body, refused);
      if exit == StandardError then Ran(after, handler, refused) else (after, exit)
    case Issue(command) => Commanded(conn, command, refused)
    case Nested(body) => Transacted(conn, body, refused)
  }

  /** The Database object, and the interpreter running its blocks. */
  class Database<D> {
    var committed: D
    var pending: Option<D>
    var issued: seq<Command>
    const refused: nat -> bool

    constructor (data: D, refused: nat -> bool)
      ensures State() == Conn(data, None, []) && this.refused == refused
    {
      committed, pending, issued := data, None, [];
      this.refused := refused;
    }

    ghost function State(): Conn<D>
      reads this
    {
      Conn(committed, pending, issued)
    }

    /** `execute` of a transaction command. */
    method ExecuteCommand(command: Command) returns (exit: Exit)
      modifies this
      ensures (State(), exit) == Commanded(old(State()), command, refused)
    {
      issued := issued + [command];
      if refused(|issued| - 1) { return StandardError; }
      match command {
        case Begin =>
          if pending.Some? { return StandardError; }
          pending := Some(committed);
        case Commit =>
          if pending.None? { return StandardError; }
          committed, pending := pending.value, None;
        case Rollback =>
          if pending.None? { return StandardError; }
          pending := None;
      }
      return Normal;
    }

    method TransactionDo(body: Block<D>) returns (exit: Exit)
      modifies this
      ensures (State(), exit) == Transacted(old(State()), body, refused)
      decreases body, 1
    {
      exit := ExecuteCommand(Begin);
      if exit != Normal { return; }
      var abort := false;
      exit := Run(body);
      if exit == StandardError { abort := true; }
      var ended: Exit;
      if abort {
        ended := ExecuteCommand(Rollback);
      } else {
        ended := ExecuteCommand(Commit);
      }
      if ended != Normal { exit := ended; }
    }

    method Run(block: Block<D>) returns (exit: Exit)
      modifies this
      ensures (State(), exit) == Ran(old(State()), block, refused)
      decreases block, 0
    {
      match block {
        case Skip =>
          exit := Normal;
        case Write(change) =>
          if pending.Some? { pending := Some(change(pending.value)); } else { committed := change(committed); }
          exit := Normal;
        case Fail =>
          exit := StandardError;
        case FailRollingBack =>
          pending := None;
          exit := StandardError;
        case Leave(left) =>
          exit := left;
        case Then(first, second) =>
          exit := Run(first);
          if exit == Normal { exit := Run(second); }
        case Rescue(body, handler) =>
          exit := Run(body);
          if exit == StandardError { exit := Run(handler); }
        case Issue(command) =>
          exit := ExecuteCommand(command);
        case Nested(body) =>
          exit := TransactionDo(body);
      }
    }
  }

  // ---------------------------------------------------------------------------
  // Every block

  /** Whatever the block does, a transaction that began issues exactly one command after the block: a
      rollback if a StandardError left it, else a commit. It leaves a transaction open only if SQLite
      refused that command; and a block that ended the transaction itself makes the call raise. */
  lemma OneFinalCommand<D>(conn: Conn<D>, body: Block<D>, refused: nat -> bool)
    requires Commanded(conn, Begin, refused).1 == Normal
    ensures var (after, exit) := Ran(Commanded(conn, Begin, refused).0, body, refused);
            var (ended, finalExit) := Transacted(conn, body, refused);
            && ended.issued == after.issued + [if exit == StandardError then Rollback else Commit]
            && conn.issued + [Begin] <= after.issued
            && (ended.pending.Some? <==> after.pending.Some? && refused(|after.issued|))
            && (after.pending.None? ==> finalExit == StandardError)
            && (finalExit == Normal ==> exit == Normal)
  {
    IssuedGrows(Commanded(conn, Begin, refused).0, body, refused);
  }

  lemma {:induction false} IssuedGrows<D>(conn: Conn<D>, block: Block<D>, refused: nat -> bool)
    ensures conn.issued <= Ran(conn, block, refused).0.issued
    decreases block
  {
    match block
    case Then(first, second) =>
      IssuedGrows(conn, first, refused);
      IssuedGrows(Ran(conn, first, refused).0, second, refused);
    case Rescue(body, handler) =>
      IssuedGrows(conn, body, refused);
      IssuedGrows(Ran(conn, body, refused).0, handler, refused);
    case Nested(body) =>
      IssuedGrows(Commanded(conn, Begin, refused).0, body, refused);
    case _ =>
  }

  /** Inside a transaction, or if SQLite refuses the begin, a `transaction` call raises before its block runs,
      whatever the block is; rescued, it leaves everything as it was. */
  lemma NestedNeverStarts<D>(conn: Conn<D>, body: Block<D>, handler: Block<D>, refused: nat -> bool)
    requires conn.pending.Some? || refused(|conn.issued|)
    ensures Ran(conn, Nested(body), refused) == (conn.(issued := conn.issued + [Begin]), StandardError)
    ensures Transacted(conn, body, refused) == (conn.(issued := conn.issued + [Begin]), StandardError)
    ensures Ran(conn, Rescue(Nested(body), handler), refused)
            == Ran(conn.(issued := conn.issued + [Begin]), handler, refused)
  {
  }

  // ---------------------------------------------------------------------------
  // Blocks that leave transaction control to `transaction`

  /** No explicit begin, commit or rollback. */
  predicate Uncontrolled<D>(block: Block<D>) {
    match block
    case Then(first, second) => Uncontrolled(first) && Uncontrolled(second)
    case Rescue(body, handler) => Uncontrolled(body) && Uncontrolled(handler)
    case Nested(body) => Uncontrolled(body)
    case Issue(_) => false
    case _ => true
  }

  /** What becomes of a transaction while a block runs in it. It is kept, with this data, and the block is
      left in this way; or a failing statement ends it, and `rest` is what then still runs. In either case
      `begins` nested attempts were made before. */
  datatype Course<!D> = Kept(data: D, exit: Exit, begins: nat) | Ended(rest: Block<D>, begins: nat)

  function Later<D>(course: Course<D>, begins: nat): Course<D> {
    if course.Kept? then Kept(course.data, course.exit, begins + course.begins) else Ended(course.rest, begins + course.begins)
  }

  function CourseOf<D>(data: D, block: Block<D>): Course<D> {
    match block
    case Skip => Kept(data, Normal, 0)
    case Write(change) => Kept(change(data), Normal, 0)
    case Fail => Kept(data, StandardError, 0)
    case FailRollingBack => Ended(Leave(StandardError), 0)
    case Leave(exit) => Kept(data, exit, 0)
    case Then(first, second) =>
      var course := CourseOf(data, first);
      if course.Ended? then Ended(Then(course.rest, second), course.begins)
      else if course.exit == Normal then Later(CourseOf(course.data, second), course.begins)
      else course
    case Rescue(body, handler) =>
      var course := CourseOf(data, body);
      if course.Ended? then Ended(Rescue(course.rest, handler), course.begins)
      else if course.exit == StandardError then Later(CourseOf(course.data, handler), course.begins)
      else course
    case Issue(_) => Kept(data, Normal, 0)
    case Nested(_) => Kept(data, StandardError, 1)
  }

  function Begins(n: nat): seq<Command> {
    if n == 0 then [] else Begins(n - 1) + [Begin]
  }

  /** Within a transaction the committed data is out of a block's reach, under every schedule, until a
      failing statement ends the transaction: then nothing the block did before has left a trace, and the
      rest of it runs as it would outside of any transaction. */
  lemma {:induction false} RunsItsCourse<D>(conn: Conn<D>, block: Block<D>, refused: nat -> bool)
    requires conn.pending.Some? && Uncontrolled(block)
    ensures var course := CourseOf(conn.pending.value, block);
            var issued := conn.issued + Begins(course.begins);
            Ran(conn, block, refused) ==
              if course.Kept? then (conn.(pending := Some(course.data), issued := issued), course.exit)
              else Ran(conn.(pending := None, issued := issued), course.rest, refused)
    decreases block
  {
    assert conn.issued + Begins(0) == conn.issued;
    match block
    case Then(first, second) =>
      RunsItsCourse(conn, first, refused);
      var course := CourseOf(conn.pending.value, first);
      if course.Kept? && course.exit == Normal {
        RunsItsCourse(Ran(conn, first, refused).0, second, refused);
        MoreBegins(conn.issued, course.begins, CourseOf(course.data, second).begins);
      }
    case Rescue(body, handler) =>
      RunsItsCourse(conn, body, refused);
      var course := CourseOf(conn.pending.value, body);
      if course.Kept? && course.exit == StandardError {
        RunsItsCourse(Ran(conn, body, refused).0, handler, refused);
        MoreBegins(conn.issued, course.begins, CourseOf(course.data, handler).begins);
      }
    case Nested(body) =>
      assert conn.issued + Begins(1) == conn.issued + [Begin];
    case _ =>
  }

  lemma {:induction false} MoreBegins(issued: seq<Command>, m: nat, n: nat)
    ensures issued + Begins(m) + Begins(n) == issued + Begins(m + n)
  {
    if n > 0 {
      MoreBegins(issued, m, n - 1);
      assert issued + Begins(m) + Begins(n) == issued + Begins(m) + Begins(n - 1) + [Begin];
      assert issued + Begins(m + n) == issued + Begins(m + n - 1) + [Begin];
    } else {
      assert Begins(m) + [] == Begins(m);
    }
  }

  /** What a block means for the data, transactions aside: a nested attempt is one more statement that
      raises. */
  function Effect<D>(data: D, block: Block<D>): (D, Exit) {
    match block
    case Skip => (data, Normal)
    case Write(change) => (change(data), Normal)
    case Leave(exit) => (data, exit)
    case Then(first, second) =>
      var (after, exit) := Effect(data, first);
      if exit == Normal then Effect(after, second) else (after, exit)
    case Rescue(body, handler) =>
      var (after, exit) := Effect(data, body);
      if exit == StandardError then Effect(after, handler) else (after, exit)
    case _ => (data, StandardError)
  }

  lemma {:induction false} KeptIsEffect<D>(data: D, block: Block<D>)
    requires Uncontrolled(block) && CourseOf(data, block).Kept?
    ensures Effect(data, block) == (CourseOf(data, block).data, CourseOf(data, block).exit)
  {
    match block
    case Then(first, second) =>
      KeptIsEffect(data, first);
      if CourseOf(data, first).exit == Normal { KeptIsEffect(CourseOf(data, first).data, second); }
    case Rescue(body, handler) =>
      KeptIsEffect(data, body);
      if CourseOf(data, body).exit == StandardError { KeptIsEffect(CourseOf(data, body).data, handler); }
    case _ =>
  }

  /** The connection after `begin` and some nested attempts, back in autocommit mode. */
  function Unprotected<D>(conn: Conn<D>, begins: nat): Conn<D> {
    conn.(pending := None, issued := conn.issued + [Begin] + Begins(begins))
  }

  /** As long as no failing statement ends it, a transaction is all or nothing: if a StandardError left the
      block the database is what it was, otherwise, also when the block was left by a throw or another
      Exception, it is the block's result. Only a refused final command keeps the outcome open, with the
      block's result pending and the call raising. A transaction that a failing statement ended leaves
      the data that the rest of the block makes of the old data on its own; and unless that rest has a
      transaction of its own open, the call raises. */
  lemma TransactionIsAtomic<D>(conn: Conn<D>, body: Block<D>, refused: nat -> bool)
    requires conn.pending.None? && !refused(|conn.issued|) && Uncontrolled(body)
    ensures var (ended, finalExit) := Transacted(conn, body, refused);
            var course := CourseOf(conn.committed, body);
            if course.Kept? then
              var (data, exit) := Effect(conn.committed, body);
              var kept := refused(|ended.issued| - 1);
              && |ended.issued| > 0
              && ended.committed == (if exit == StandardError || kept then conn.committed else data)
              && ended.pending == (if kept then Some(data) else None)
              && finalExit == (if kept then StandardError else exit)
            else
              var after := Ran(Unprotected(conn, course.begins), course.rest, refused).0;
              after.pending.None? ==> ended.committed == after.committed && ended.pending == None && finalExit == StandardError
  {
    var (begun, beginExit) := Commanded(conn, Begin, refused);
    RunsItsCourse(begun, body, refused);
    OneFinalCommand(conn, body, refused);
    if CourseOf(conn.committed, body).Kept? { KeptIsEffect(conn.committed, body); }
  }

  /** The call raises a StandardError although the committed data changed exactly if a failing statement
      ended the transaction, the rest of the block changed the data on its own, and the final command or
      the block's own exit raises. */
  lemma RaisesYetChanges<D>(conn: Conn<D>, body: Block<D>, refused: nat -> bool)
    requires conn.pending.None? && !refused(|conn.issued|) && Uncontrolled(body)
    ensures var (ended, finalExit) := Transacted(conn, body, refused);
            && var course := CourseOf(conn.committed, body);
            (finalExit == StandardError && ended.committed != conn.committed) <==>
              && course.Ended?
              && var (after, exit) := Ran(Unprotected(conn, course.begins), course.rest, refused);
                 && after.committed != conn.committed
                 && (after.pending.None? || refused(|after.issued|) || exit == StandardError)
  {
    var (begun, beginExit) := Commanded(conn, Begin, refused);
    RunsItsCourse(begun, body, refused);
    TransactionIsAtomic(conn, body, refused);
  }

  // ---------------------------------------------------------------------------
  // Explicit control

  /** A command is out of place where SQLite does not take it: no transaction begins inside of one, and none
      ends outside of one. */
  predicate OutOfPlace<D>(conn: Conn<D>, command: Command) {
    if command == Begin then conn.pending.Some? else conn.pending.None?
  }

  /** An explicit command in a block. One that is refused or out of place changes no data and raises. Else a
      begin opens a transaction on the committed data, a commit makes the pending data the committed, and
      a rollback drops it. */
  lemma ExplicitCommand<D>(conn: Conn<D>, command: Command, refused: nat -> bool)
    ensures var (after, exit) := Ran(conn, Issue(command), refused);
            && after.issued == conn.issued + [command]
            && (exit == StandardError <==> refused(|conn.issued|) || OutOfPlace(conn, command))
            && (exit != StandardError ==> exit == Normal)
            && (exit == StandardError ==> after.committed == conn.committed && after.pending == conn.pending)
            && (exit == Normal ==>
                  && (after.pending == if command == Begin then Some(conn.committed) else None)
                  && (after.committed == if command == Commit then conn.pending.value else conn.committed))
  {
  }

  /** A block between explicit commands, `begin; block; rollback` or `begin; block; commit`, which is left
      normally with its transaction kept and whose commands are not refused: the rollback leaves the data
      as it was, the commit leaves the block's result, and nothing is pending. */
  lemma ExplicitTransaction<D>(conn: Conn<D>, block: Block<D>, last: Command, refused: nat -> bool)
    requires conn.pending.None? && Uncontrolled(block) && last != Begin
    requires CourseOf(conn.committed, block).Kept? && CourseOf(conn.committed, block).exit == Normal
    requires !refused(|conn.issued|) && !refused(|conn.issued| + 1 + CourseOf(conn.committed, block).begins)
    ensures var (after, exit) := Ran(conn, Then(Issue(Begin), Then(block, Issue(last))), refused);
            && exit == Normal && after.pending == None
            && after.committed == if last == Rollback then conn.committed else Effect(conn.committed, block).0
  {
    var begun := Ran(conn, Issue(Begin), refused).0;
    ExplicitCommand(conn, Begin, refused);
    KeptBlockRuns(begun, block, refused);
    var ran := Ran(begun, block, refused).0;
    ExplicitCommand(ran, last, refused);
    BlocksCompose(begun, block, Issue(last), refused);
    BlocksCompose(conn, Issue(Begin), Then(block, Issue(last)), refused);
  }

  lemma KeptBlockRuns<D>(conn: Conn<D>, block: Block<D>, refused: nat -> bool)
    requires conn.pending.Some? && Uncontrolled(block) && CourseOf(conn.pending.value, block).Kept?
    ensures var (after, exit) := Ran(conn, block, refused);
            && exit == CourseOf(conn.pending.value, block).exit && after.committed == conn.committed
            && after.pending == Some(Effect(conn.pending.value, block).0)
            && |after.issued| == |conn.issued| + CourseOf(conn.pending.value, block).begins
  {
    RunsItsCourse(conn, block, refused);
    KeptIsEffect(conn.pending.value, block);
    BeginsCount(CourseOf(conn.pending.value, block).begins);
  }

  lemma {:induction false} BeginsCount(n: nat)
    ensures |Begins(n)| == n
  {
    if n > 0 { BeginsCount(n - 1); }
  }

  /** How blocks are put together: a sequence goes on after a normal end only, and a rescue catches a
      StandardError only, on the data as the body left it. */
  lemma BlocksCompose<D>(conn: Conn<D>, first: Block<D>, second: Block<D>, refused: nat -> bool)
    ensures var (after, exit) := Ran(conn, first, refused);
            && (exit == Normal ==> Ran(conn, Then(first, second), refused) == Ran(after, second, refused))
            && (exit != Normal ==> Ran(conn, Then(first, second), refused) == (after, exit))
            && (exit == StandardError ==> Ran(conn, Rescue(first, second), refused) == Ran(after, second, refused))
            && (exit != StandardError ==> Ran(conn, Rescue(first, second), refused) == (after, exit))
  {
  }

  /** The statements of a block: a write is seen by what comes after it, within the transaction if one is
      open and for good if not; a failing statement raises, and changes nothing unless it ends the
      transaction. */
  lemma StatementsRun<D>(conn: Conn<D>, change: D -> D, exit: Exit, refused: nat -> bool)
    ensures var (after, left) := Ran(conn, Write(change), refused);
            && left == Normal && Seen(after) == change(Seen(conn)) && after.issued == conn.issued
            && (after.pending.Some? <==> conn.pending.Some?) && (conn.pending.Some? ==> after.committed == conn.committed)
    ensures Seen(conn) == if conn.pending.Some? then conn.pending.value else conn.committed
    ensures Ran(conn, Fail, refused) == (conn, StandardError) && Ran(conn, Leave(exit), refused) == (conn, exit)
    ensures Ran(conn, FailRollingBack, refused).1 == StandardError
            && Ran(conn, FailRollingBack, refused).0.committed == conn.committed && Ran(conn, FailRollingBack, refused).0.pending == None
  {
  }

  /** No call of `transaction` inside. */
  predicate Flat<D>(block: Block<D>) {
    match block
    case Then(first, second) => Flat(first) && Flat(second)
    case Rescue(body, handler) => Flat(body) && Flat(handler)
    case Issue(_) => false
    case Nested(_) => false
    case _ => true
  }

  lemma {:induction false} OutsideEffect<D>(conn: Conn<D>, block: Block<D>, refused: nat -> bool)
    requires conn.pending.None? && Flat(block)
    ensures Ran(conn, block, refused) == (conn.(committed := Effect(conn.committed, block).0), Effect(conn.committed, block).1)
    decreases block
  {
    match block
    case Then(first, second) =>
      OutsideEffect(conn, first, refused);
      OutsideEffect(Ran(conn, first, refused).0, second, refused);
    case Rescue(body, handler) =>
      OutsideEffect(conn, body, refused);
      OutsideEffect(Ran(conn, body, refused).0, handler, refused);
    case _ =>
  }

  lemma {:induction false} FlatCourse<D>(data: D, block: Block<D>)
    requires Flat(block)
    ensures Uncontrolled(block) && (CourseOf(data, block).Ended? ==> Flat(CourseOf(data, block).rest))
  {
    match block
    case Then(first, second) =>
      FlatCourse(data, first);
      FlatCourse(CourseData(data, first), second);
    case Rescue(body, handler) =>
      FlatCourse(data, body);
      FlatCourse(CourseData(data, body), handler);
    case _ =>
  }

  function CourseData<D>(data: D, block: Block<D>): D {
    if CourseOf(data, block).Kept? then CourseOf(data, block).data else data
  }

  /** For blocks without nested calls: whatever the schedule, the call raises although the data changed
      exactly if a failing statement ended the transaction and the rest of the block makes something else
      of the old data. */
  lemma FlatBlockLosesAtomicity<D>(conn: Conn<D>, body: Block<D>, refused: nat -> bool)
    requires conn.pending.None? && !refused(|conn.issued|) && Flat(body)
    ensures Uncontrolled(body)
    ensures var (ended, finalExit) := Transacted(conn, body, refused);
            && var course := CourseOf(conn.committed, body);
            (finalExit == StandardError && ended.committed != conn.committed) <==>
              course.Ended? && Effect(conn.committed, course.rest).0 != conn.committed
  {
    FlatCourse(conn.committed, body);
    RaisesYetChanges(conn, body, refused);
    var course := CourseOf(conn.committed, body);
    if course.Ended? { OutsideEffect(Unprotected(conn, course.begins), course.rest, refused); }
  }

  /** Such a block: it rescues the failure that ended the transaction, and writes. */
  lemma RescuedFailureLosesAtomicity(conn: Conn<int>, refused: nat -> bool)
    requires conn.pending.None? && !refused(|conn.issued|)
    ensures var body: Block<int> := Then(Rescue(FailRollingBack, Skip), Write(x => x + 1));
            var (ended, finalExit) := Transacted(conn, body, refused);
            finalExit == StandardError && ended.committed == conn.committed + 1 && ended.pending == None
  {
    var body: Block<int> := Then(Rescue(FailRollingBack, Skip), Write(x => x + 1));
    assert CourseOf(conn.committed, body).Ended?;
    TransactionIsAtomic(conn, body, refused);
    OutsideEffect(Unprotected(conn, 0), CourseOf(conn.committed, body).rest, refused);
  }
}
