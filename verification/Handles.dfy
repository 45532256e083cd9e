/**
 Raw SQLite handles and the C structs that own them (ext/sqlite3/database.c, ext/sqlite3/statement.c).

 SQLite's own rules are kept as a small machine over one process image: `sqlite3_close_v2` frees a
 connection at once if it has no prepared statements, and otherwise leaves a zombie that the
 finalization of the last statement frees. Whatever SQLite forbids sets `misused`.
 */
module Handles {
  import opened Wrappers

  type Pid = nat
  type ConnId = nat
  type StmtId = nat
  type ObjId = nat

  /** A connection. `opener` is the process that opened it, `holder` the Database object it was opened
      for (None if opening failed), `closedBy` the process that called sqlite3_close_v2 on it. */
  datatype Conn = Conn(readonly: bool, opener: Pid, holder: Option<ObjId>, closedBy: Option<Pid>,
                       discarded: bool, freed: nat, files: seq<bool>, journal: bool)

  /** A prepared statement, and the Statement object it was prepared for. */
  datatype RawStmt = RawStmt(conn: ConnId, holder: ObjId, finalized: nat)

  datatype Lib = Lib(conns: map<ConnId, Conn>, stmts: map<StmtId, RawStmt>, misused: bool)

  // ---------------------------------------------------------------------------
  // SQLite's calls

  predicate LiveAt(lib: Lib, s: StmtId, c: ConnId) {
    s in lib.stmts && lib.stmts[s].conn == c && lib.stmts[s].finalized == 0
  }

  predicate HasLive(lib: Lib, c: ConnId) {
    exists s :: s in lib.stmts && LiveAt(lib, s, c)
  }

  /** A handle that may still be passed to SQLite as an open connection. */
  predicate Open(lib: Lib, c: ConnId) {
    c in lib.conns && lib.conns[c].closedBy.None? && !lib.conns[c].discarded && lib.conns[c].freed == 0
  }

  function UseConn(lib: Lib, c: ConnId): Lib {
    if Open(lib, c) then lib else lib.(misused := true)
  }

  /** What sqlite3_prepare_v2 makes of a text: a statement, nothing where there is only space or comment,
      or an error. */
  datatype Compiled = Compiled(s: StmtId) | Nothing | Faulty

  /** sqlite3_prepare_v2, which uses the connection whatever the text. */
  function PrepareV2(lib: Lib, c: ConnId, compiled: Compiled, holder: ObjId): Lib {
    var used := UseConn(lib, c);
    if compiled.Compiled? then used.(stmts := used.stmts[compiled.s := RawStmt(c, holder, 0)]) else used
  }

  function UseStmt(lib: Lib, s: StmtId): Lib {
    if s in lib.stmts && lib.stmts[s].finalized == 0 && lib.stmts[s].conn in lib.conns
       && !lib.conns[lib.stmts[s].conn].discarded && lib.conns[lib.stmts[s].conn].freed == 0
    then lib else lib.(misused := true)
  }

  function CloseV2(lib: Lib, c: ConnId, pid: Pid): Lib {
    if !Open(lib, c) then lib.(misused := true)
    else lib.(conns := lib.conns[c := lib.conns[c].(closedBy := Some(pid), freed := if HasLive(lib, c) then 0 else 1)])
  }

  function Finalize(lib: Lib, s: StmtId): Lib {
    if s !in lib.stmts || lib.stmts[s].finalized > 0 || lib.stmts[s].conn !in lib.conns
       || lib.conns[lib.stmts[s].conn].freed > 0
    then lib.(misused := true)
    else
      var c := lib.stmts[s].conn;
      var lib' := lib.(stmts := lib.stmts[s := lib.stmts[s].(finalized := 1)]);
      if lib.conns[c].closedBy.Some? && !HasLive(lib', c)
      then lib'.(conns := lib.conns[c := lib.conns[c].(freed := lib.conns[c].freed + 1)])
      else lib'
  }

  function AllShut(files: seq<bool>): (shut: seq<bool>)
    ensures |shut| == |files| && forall i :: 0 <= i < |shut| ==> !shut[i]
  {
    seq(|files|, _ => false)
  }

  /** A discarded connection: its file descriptors are closed, its memory is lost. */
  function DiscardedConn(conn: Conn): Conn {
    conn.(discarded := true, files := AllShut(conn.files), journal := false)
  }

  function Abandon(lib: Lib, c: ConnId): Lib {
    if !Open(lib, c) then lib.(misused := true)
    else lib.(conns := lib.conns[c := DiscardedConn(lib.conns[c])])
  }

  /** A connection that was closed or abandoned takes no call, and neither a second release. */
  lemma ReleasedTakesNoCall(lib: Lib, c: ConnId, pid: Pid, other: Pid, compiled: Compiled, holder: ObjId)
    requires Open(lib, c)
    ensures forall after :: after == CloseV2(lib, c, pid) || after == Abandon(lib, c) ==>
              && after.misused == lib.misused
              && UseConn(after, c).misused && PrepareV2(after, c, compiled, holder).misused
              && CloseV2(after, c, other).misused && Abandon(after, c).misused
  {
  }

  /** A statement that was finalized takes no call; one of a closed connection does, and may be the last to
      go, which frees the connection; one of an abandoned connection can only be finalized. */
  lemma StatementOutlivesClose(lib: Lib, s: StmtId, c: ConnId, pid: Pid)
    requires LiveAt(lib, s, c) && Open(lib, c)
    ensures UseStmt(Finalize(lib, s), s).misused && Finalize(Finalize(lib, s), s).misused
    ensures UseStmt(lib, s) == lib && UseStmt(CloseV2(lib, c, pid), s) == CloseV2(lib, c, pid)
    ensures CloseV2(lib, c, pid).conns[c].freed == 0
    ensures var last := Finalize(CloseV2(lib, c, pid), s);
            && last.misused == lib.misused && last.stmts[s].finalized == 1
            && (last.conns[c].freed == 1 <==> forall r :: r != s ==> !LiveAt(lib, r, c))
    ensures UseStmt(Abandon(lib, c), s).misused && Finalize(Abandon(lib, c), s).misused == lib.misused
  {
    var closed := CloseV2(lib, c, pid);
    var last := Finalize(closed, s);
    assert LiveAt(closed, s, c);
    forall r ensures LiveAt(last, r, c) <==> r != s && LiveAt(lib, r, c) {
    }
    assert HasLive(Lib(closed.conns, last.stmts, last.misused), c) <==> exists r :: r != s && LiveAt(lib, r, c) by {
      var after := Lib(closed.conns, last.stmts, last.misused);
      forall r ensures LiveAt(after, r, c) <==> r != s && LiveAt(lib, r, c) {
      }
    }
  }

  // ---------------------------------------------------------------------------
  // The Database struct

  const READONLY: bv8 := 1
  const DISCARDED: bv8 := 2

  predicate IsReadonly(flags: bv8) { flags & READONLY != 0 }

  predicate IsDiscarded(flags: bv8) { flags & DISCARDED != 0 }

  function MarkReadonly(flags: bv8): (f: bv8)
    ensures IsReadonly(f) && (IsDiscarded(f) <==> IsDiscarded(flags))
  {
    flags | READONLY
  }

  function MarkDiscarded(flags: bv8): (f: bv8)
    ensures IsDiscarded(f) && (IsReadonly(f) <==> IsReadonly(flags))
  {
    flags | DISCARDED
  }

  datatype DbCtx = DbCtx(db: Option<ConnId>, flags: bv8, owner: Pid)

  function Allocated(pid: Pid): DbCtx {
    DbCtx(None, 0, pid)
  }

  /** close_or_discard_db, run by process `pid`. */
  function CloseOrDiscard(ctx: DbCtx, lib: Lib, pid: Pid): (DbCtx, Lib) {
    if ctx.db.None? then (ctx, lib)
    else if IsReadonly(ctx.flags) || ctx.owner == pid then
      (ctx.(db := None), CloseV2(lib, ctx.db.value, pid))
    else Discarded(ctx, lib)
  }

  /** discard_db, on an open database. */
  function Discarded(ctx: DbCtx, lib: Lib): (DbCtx, Lib)
    requires ctx.db.Some?
  {
    (ctx.(db := None, flags := MarkDiscarded(ctx.flags)), Abandon(lib, ctx.db.value))
  }

  /** A successful open: only open_v2 with the READONLY flag sets the READONLY bit. */
  function Opened(ctx: DbCtx, lib: Lib, c: ConnId, conn: Conn): (DbCtx, Lib) {
    (ctx.(db := Some(c), flags := if conn.readonly then MarkReadonly(ctx.flags) else ctx.flags),
     lib.(conns := lib.conns[c := conn]))
  }

  /** A failed open: SQLite returns a handle all the same, which is closed at once. */
  function OpenFailed(lib: Lib, c: ConnId, conn: Conn, pid: Pid): Lib {
    CloseV2(lib.(conns := lib.conns[c := conn]), c, pid)
  }

  // ---------------------------------------------------------------------------
  // The C functions

  /** The SQLite library in one process. */
  class Sqlite {
    var lib: Lib

    constructor ()
      ensures lib == Lib(map[], map[], false)
    {
      lib := Lib(map[], map[], false);
    }

    /** `xClose` on the file of schema `j`. */
    method CloseFile(c: ConnId, j: nat)
      requires c in lib.conns && j < |lib.conns[c].files|
      modifies this
      ensures lib == old(lib).(conns := old(lib).conns[c := old(lib).conns[c].(files := old(lib).conns[c].files[j := false])])
    {
      var conn := lib.conns[c];
      lib := lib.(conns := lib.conns[c := conn.(files := conn.files[j := false])]);
    }
  }

  /** sqlite3Ruby with the methods of SQLite3::Database that open and release its connection. */
  class Database {
    const sqlite: Sqlite
    var db: Option<ConnId>
    var flags: bv8
    const owner: Pid

    constructor Allocate(sqlite: Sqlite, pid: Pid)
      ensures this.sqlite == sqlite && Ctx() == Allocated(pid)
    {
      this.sqlite, db, flags, owner := sqlite, None, 0, pid;
    }

    function Ctx(): DbCtx
      reads this
    {
      DbCtx(db, flags, owner)
    }

    /** open_v2: `mode` is the flags argument, `c` and `conn` what SQLite comes up with, `ok` its verdict. */
    method OpenV2(mode: bv32, c: ConnId, conn: Conn, ok: bool, pid: Pid) returns (raised: bool)
      requires conn.readonly <==> mode & 1 != 0
      modifies this, sqlite
      ensures old(db).Some? ==> raised && Ctx() == old(Ctx()) && sqlite.lib == old(sqlite.lib)
      ensures old(db).None? && ok ==> !raised && (Ctx(), sqlite.lib) == Opened(old(Ctx()), old(sqlite.lib), c, conn)
      ensures old(db).None? && !ok ==> raised && Ctx() == old(Ctx()) && sqlite.lib == OpenFailed(old(sqlite.lib), c, conn, pid)
    {
      if db.Some? { return true; }
      sqlite.lib := sqlite.lib.(conns := sqlite.lib.conns[c := conn]);
      db := Some(c);
      if !ok {
        sqlite.lib := CloseV2(sqlite.lib, c, pid);
        db := None;
        return true;
      }
      if mode & 1 != 0 {
        flags := MarkReadonly(flags);
      }
      return false;
    }

    /** open16: always read-write, never the READONLY bit. */
    method Open16(c: ConnId, conn: Conn, ok: bool, pid: Pid) returns (raised: bool)
      requires !conn.readonly
      modifies this, sqlite
      ensures old(db).Some? ==> raised && Ctx() == old(Ctx()) && sqlite.lib == old(sqlite.lib)
      ensures old(db).None? && ok ==> !raised && (Ctx(), sqlite.lib) == Opened(old(Ctx()), old(sqlite.lib), c, conn)
      ensures old(db).None? && !ok ==> raised && Ctx() == old(Ctx()) && sqlite.lib == OpenFailed(old(sqlite.lib), c, conn, pid)
    {
      if db.Some? { return true; }
      sqlite.lib := sqlite.lib.(conns := sqlite.lib.conns[c := conn]);
      db := Some(c);
      if !ok {
        sqlite.lib := CloseV2(sqlite.lib, c, pid);
        db := None;
        return true;
      }
      return false;
    }

    /** discard_db. SQLite is handed `ctx->db` unchecked, so the database has to be open; the loop closes
        the file of each schema in turn, then the main journal. */
    method DiscardDb()
      requires db.Some? && Open(sqlite.lib, db.value)
      modifies this, sqlite
      ensures (Ctx(), sqlite.lib) == Discarded(old(Ctx()), old(sqlite.lib))
    {
      var c := db.value;
      var j := 0;
      while j < |sqlite.lib.conns[c].files|
        invariant c in sqlite.lib.conns && db == Some(c) && flags == old(flags)
        invariant j <= |sqlite.lib.conns[c].files| == |old(sqlite.lib).conns[c].files|
        invariant sqlite.lib == old(sqlite.lib).(conns := old(sqlite.lib).conns[c := sqlite.lib.conns[c]])
        invariant sqlite.lib.conns[c] == old(sqlite.lib).conns[c].(files := sqlite.lib.conns[c].files)
        invariant forall i :: 0 <= i < j ==> !sqlite.lib.conns[c].files[i]
      {
        sqlite.CloseFile(c, j);
        j := j + 1;
      }
      var conn := sqlite.lib.conns[c];
      assert conn.files == AllShut(old(sqlite.lib).conns[c].files);
      sqlite.lib := sqlite.lib.(conns := sqlite.lib.conns[c := conn.(journal := false, discarded := true)]);
      assert sqlite.lib.conns == old(sqlite.lib).conns[c := DiscardedConn(old(sqlite.lib).conns[c])];
      db := None;
      flags := MarkDiscarded(flags);
    }

    /** `close` as process `pid` runs it, and what the GC's deallocate does before the struct is freed. */
    method Close(pid: Pid)
      requires db.Some? ==> Open(sqlite.lib, db.value)
      modifies this, sqlite
      ensures (Ctx(), sqlite.lib) == CloseOrDiscard(old(Ctx()), old(sqlite.lib), pid)
    {
      if db.Some? {
        if IsReadonly(flags) || owner == pid {
          sqlite.lib := CloseV2(sqlite.lib, db.value, pid);
          db := None;
        } else {
          DiscardDb();
        }
      }
    }
  }

  datatype StmtAnswer = Used | RaisedDiscarded | RaisedClosed

  /** sqlite3StmtRuby with `@remainder`. */
  class Statement {
    const db: Database
    var st: Option<StmtId>
    var remainder: string

    constructor Allocate(db: Database)
      ensures this.db == db && st == None && remainder == ""
    {
      this.db, st, remainder := db, None, "";
    }

    /** `initialize` with `prepare`: refuses a closed database, and only then calls SQLite; an error raises
        and leaves no handle. `tail` is the C string that SQLite points at. */
    method Prepare(compiled: Compiled, holder: ObjId, tail: string) returns (raised: bool)
      modifies this, db.sqlite
      ensures raised <==> db.db.None? || compiled.Faulty?
      ensures db.db.None? ==> st == old(st) && db.sqlite.lib == old(db.sqlite.lib)
      ensures db.db.Some? ==> st == (if compiled.Compiled? then Some(compiled.s) else None)
      ensures db.db.Some? ==> db.sqlite.lib == PrepareV2(old(db.sqlite.lib), db.db.value, compiled, holder)
      ensures remainder == if raised then old(remainder) else tail
    {
      if db.db.None? { return true; }
      db.sqlite.lib := PrepareV2(db.sqlite.lib, db.db.value, compiled, holder);
      st := if compiled.Compiled? then Some(compiled.s) else None;
      if compiled.Faulty? { return true; }
      remainder := tail;
      return false;
    }

    /** Every operation but `close`, `closed?` and `done?`: two guards, then SQLite. */
    method Use() returns (answer: StmtAnswer)
      modifies db.sqlite
      ensures answer == if IsDiscarded(db.flags) then RaisedDiscarded else if st.None? then RaisedClosed else Used
      ensures db.sqlite.lib == if answer.Used? then UseStmt(old(db.sqlite.lib), st.value) else old(db.sqlite.lib)
    {
      if IsDiscarded(db.flags) { return RaisedDiscarded; }
      if st.None? { return RaisedClosed; }
      db.sqlite.lib := UseStmt(db.sqlite.lib, st.value);
      return Used;
    }

    /** `close`, which does not ask whether the database was discarded. */
    method Close() returns (answer: StmtAnswer)
      modifies this, db.sqlite
      ensures answer == (if old(st).None? then RaisedClosed else Used) && st == None
      ensures db.sqlite.lib == if answer.Used? then Finalize(old(db.sqlite.lib), old(st).value) else old(db.sqlite.lib)
    {
      if st.None? { return RaisedClosed; }
      db.sqlite.lib := Finalize(db.sqlite.lib, st.value);
      st := None;
      return Used;
    }
  }
}
