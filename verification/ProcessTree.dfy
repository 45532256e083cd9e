/**
 Database and Statement objects in a tree of processes: every interleaving of opening, preparing, using,
 closing, discarding, forking and garbage collection (ext/sqlite3/database.c, ext/sqlite3/statement.c).

 A process image holds the Ruby objects and SQLite's memory. `fork` copies the whole image. Finalizers
 run one object at a time, in any order, any time after the objects became garbage.
 */
module ProcessTree {
  import opened Wrappers
  import opened Handles

  datatype Life = Live | Garbage | Swept

  /** A Database object: its struct, `@readonly`, and whether its last `initialize` got as far as the
      tracking; loading an extension may raise before. */
  datatype DbObj = DbObj(ctx: DbCtx, life: Life, rubyReadonly: bool, complete: bool)

  datatype StObj = StObj(st: Option<StmtId>, db: ObjId, life: Life)

  /** `tracked` is the list of weak references that the after-fork hook goes through; `lost` are the handles
      that a second `initialize` of their Statement object overwrote. */
  datatype Image = Image(dbs: map<ObjId, DbObj>, sts: map<ObjId, StObj>, tracked: seq<ObjId>, lost: set<StmtId>, lib: Lib)

  /** How `initialize` opens: open16, or open_v2 with a mode. */
  datatype Path = Utf16 | V2(mode: bv32)

  datatype Act =
    | NewDb(o: ObjId)
    | OpenDb(o: ObjId, c: ConnId, path: Path, files: seq<bool>, complete: bool)
    | OpenDbFails(o: ObjId, c: ConnId, path: Path)
    | UseDb(o: ObjId)
    | CloseDb(o: ObjId)
    | DiscardDb(o: ObjId)
    | PrepareStmt(x: ObjId, o: ObjId, compiled: Compiled)
    | UseStatement(x: ObjId)
    | CloseStatement(x: ObjId)
    | Collect(dbs: set<ObjId>, sts: set<ObjId>)
    | SweepDb(o: ObjId)
    | SweepStmt(x: ObjId)

  // ---------------------------------------------------------------------------
  // One process

  /** The READONLY bit of the flags that reach SQLite; open16 implies read-write. */
  predicate OpensReadonly(path: Path) {
    path.V2? && path.mode & 1 != 0
  }

  function NewConn(o: Option<ObjId>, path: Path, pid: Pid, files: seq<bool>): Conn {
    Conn(OpensReadonly(path), pid, o, None, false, 0, files, true)
  }

  /** What the program, the memory allocator and the collector can do: programs use live objects, new
      handles and objects are new, and only garbage is swept. A Database object may be opened again after
      a close, and a Statement object prepared again; `discard` is only called on an open database. */
  predicate Possible(img: Image, act: Act) {
    match act
    case NewDb(o) => o !in img.dbs
    case OpenDb(o, c, _, _, _) => o in img.dbs && img.dbs[o].life == Live && c !in img.lib.conns
    case OpenDbFails(o, c, _) => o in img.dbs && img.dbs[o].life == Live && c !in img.lib.conns
    case UseDb(o) => o in img.dbs && img.dbs[o].life == Live
    case CloseDb(o) => o in img.dbs && img.dbs[o].life == Live
    case DiscardDb(o) => o in img.dbs && img.dbs[o].life == Live && img.dbs[o].ctx.db.Some?
    case PrepareStmt(x, o, compiled) =>
      && (x in img.sts ==> img.sts[x].life == Live) && o in img.dbs && img.dbs[o].life == Live
      && (compiled.Compiled? ==> compiled.s !in img.lib.stmts)
    case UseStatement(x) => x in img.sts && img.sts[x].life == Live
    case CloseStatement(x) => x in img.sts && img.sts[x].life == Live
    case Collect(_, _) => true
    case SweepDb(o) => o in img.dbs && img.dbs[o].life == Garbage
    case SweepStmt(x) => x in img.sts && img.sts[x].life == Garbage
  }

  /** Release of the connection of `o`, whether by `close` or by its finalizer. */
  function Released(img: Image, o: ObjId, pid: Pid): Image
    requires o in img.dbs
  {
    var (ctx, lib) := CloseOrDiscard(img.dbs[o].ctx, img.lib, pid);
    img.(dbs := img.dbs[o := img.dbs[o].(ctx := ctx)], lib := lib)
  }

  /** Release of the statement of `x`, if it has one. */
  function Finalized(img: Image, x: ObjId): Image
    requires x in img.sts
  {
    if img.sts[x].st.None? then img
    else img.(sts := img.sts[x := img.sts[x].(st := None)], lib := Finalize(img.lib, img.sts[x].st.value))
  }

  /** Objects become garbage. A statement refers to its database, so a database goes only with all its
      statements. */
  function Collected(img: Image, dbs: set<ObjId>, sts: set<ObjId>): Image {
    img.(dbs := map o | o in img.dbs ::
                  if o in dbs && img.dbs[o].life == Live then img.dbs[o].(life := Garbage) else img.dbs[o],
         sts := map x | x in img.sts ::
                  if (x in sts || img.sts[x].db in dbs) && img.sts[x].life == Live
                  then img.sts[x].(life := Garbage) else img.sts[x])
  }

  /** An act of process `pid` on its image. Where the C code raises, nothing changes. */
  function Acted(img: Image, act: Act, pid: Pid): Image
    requires Possible(img, act)
  {
    match act
    case NewDb(o) => img.(dbs := img.dbs[o := DbObj(Allocated(pid), Live, false, false)])
    case OpenDb(o, c, path, files, complete) =>
      var db := img.dbs[o];
      if db.ctx.db.Some? then img
      else
        var (ctx, lib) := Opened(db.ctx, img.lib, c, NewConn(Some(o), path, pid, files));
        img.(dbs := img.dbs[o := DbObj(ctx, Live, OpensReadonly(path), complete)],
             tracked := if complete then img.tracked + [o] else img.tracked, lib := lib)
    case OpenDbFails(o, c, path) =>
      if img.dbs[o].ctx.db.Some? then img
      else img.(lib := OpenFailed(img.lib, c, NewConn(None, path, pid, []), pid))
    case UseDb(o) =>
      if img.dbs[o].ctx.db.None? then img else img.(lib := UseConn(img.lib, img.dbs[o].ctx.db.value))
    case CloseDb(o) => Released(img, o, pid)
    case DiscardDb(o) =>
      var (ctx, lib) := Discarded(img.dbs[o].ctx, img.lib);
      img.(dbs := img.dbs[o := img.dbs[o].(ctx := ctx)], lib := lib)
    case PrepareStmt(x, o, compiled) =>
      if img.dbs[o].ctx.db.None? then img
      else img.(sts := img.sts[x := StObj(if compiled.Compiled? then Some(compiled.s) else None, o, Live)],
                lost := img.lost + (if x in img.sts && img.sts[x].st.Some? then {img.sts[x].st.value} else {}),
                lib := PrepareV2(img.lib, img.dbs[o].ctx.db.value, compiled, x))
    case UseStatement(x) =>
      // the guards read the flags through the statement's pointer to the database struct
      if img.sts[x].db !in img.dbs || img.dbs[img.sts[x].db].life == Swept then img.(lib := img.lib.(misused := true))
      else if IsDiscarded(img.dbs[img.sts[x].db].ctx.flags) || img.sts[x].st.None? then img
      else img.(lib := UseStmt(img.lib, img.sts[x].st.value))
    case CloseStatement(x) => Finalized(img, x)
    case Collect(dbs, sts) => Collected(img, dbs, sts)
    case SweepDb(o) =>
      var img' := Released(img, o, pid);
      img'.(dbs := img'.dbs[o := img'.dbs[o].(life := Swept)])
    case SweepStmt(x) =>
      var img' := Finalized(img, x);
      img'.(sts := img'.sts[x := img'.sts[x].(life := Swept)])
  }

  // ---------------------------------------------------------------------------
  // What the acts do

  /** A successful open, of an object that was closed: it has the new connection open, opened by this process
      in the given way, its READONLY bit is set if that is read-only and never cleared, and if its
      `initialize` completes it is tracked. On an open object nothing happens. */
  lemma OpenTakesHold(img: Image, pid: Pid, act: Act)
    requires act.OpenDb? && Possible(img, act)
    ensures img.dbs[act.o].ctx.db.Some? ==> Acted(img, act, pid) == img
    ensures var img', o, c := Acted(img, act, pid), act.o, act.c;
            img.dbs[o].ctx.db.None? ==>
              && o in img'.dbs && img'.dbs[o].ctx.db == Some(c) && img'.dbs[o].life == Live
              && img'.dbs[o].ctx.owner == img.dbs[o].ctx.owner
              && (IsReadonly(img'.dbs[o].ctx.flags) <==> IsReadonly(img.dbs[o].ctx.flags) || OpensReadonly(act.path))
              && (IsDiscarded(img'.dbs[o].ctx.flags) <==> IsDiscarded(img.dbs[o].ctx.flags))
              && (img'.dbs[o].rubyReadonly <==> OpensReadonly(act.path))
    ensures var img', c := Acted(img, act, pid), act.c;
            img.dbs[act.o].ctx.db.None? ==>
              && Open(img'.lib, c) && img'.lib.conns[c].holder == Some(act.o) && img'.lib.conns[c].opener == pid
              && (img'.lib.conns[c].readonly <==> OpensReadonly(act.path)) && img'.lib.conns[c].files == act.files
    ensures var img', o := Acted(img, act, pid), act.o;
            img.dbs[o].ctx.db.None? ==>
              && (img'.dbs[o].complete <==> act.complete)
              && img'.tracked == if act.complete then img.tracked + [o] else img.tracked
  {
  }

  lemma PathIsReadonly(mode: bv32)
    ensures !OpensReadonly(Utf16) && (OpensReadonly(V2(mode)) <==> mode & 1 != 0)
  {
  }

  /** A failed open leaves the objects as they are, and the handle it got is closed and freed at once. */
  lemma FailedOpenLeavesNothing(img: Image, pid: Pid, act: Act)
    requires act.OpenDbFails? && ImageOk(img, pid) && Possible(img, act) && img.dbs[act.o].ctx.db.None?
    ensures var img', c := Acted(img, act, pid), act.c;
            && img'.dbs == img.dbs && img'.sts == img.sts && img'.tracked == img.tracked && !img'.lib.misused
            && c in img'.lib.conns && img'.lib.conns[c].closedBy == Some(pid) && img'.lib.conns[c].freed == 1
            && img'.lib.conns[c].holder == None
            && forall d :: d in img.lib.conns ==> d in img'.lib.conns && img'.lib.conns[d] == img.lib.conns[d]
  {
    NoLiveOnNew(img, pid, act.c);
    var lib1 := img.lib.(conns := img.lib.conns[act.c := NewConn(None, act.path, pid, [])]);
    HasLiveKept(img.lib, lib1);
    assert Open(lib1, act.c);
  }

  /** Every use reaches SQLite unless a guard stops it: were a handle in another state than the invariant
      has it, the use would be recorded as a misuse. */
  lemma UsesReachSqlite(img: Image, pid: Pid, o: ObjId, x: ObjId, y: ObjId, compiled: Compiled)
    ensures Possible(img, UseDb(o)) && img.dbs[o].ctx.db.Some? && !Open(img.lib, img.dbs[o].ctx.db.value) ==>
              Acted(img, UseDb(o), pid).lib.misused
    ensures Possible(img, PrepareStmt(y, o, compiled)) && img.dbs[o].ctx.db.Some? && !Open(img.lib, img.dbs[o].ctx.db.value) ==>
              Acted(img, PrepareStmt(y, o, compiled), pid).lib.misused
    ensures Possible(img, UseStatement(x)) && (img.sts[x].db !in img.dbs || img.dbs[img.sts[x].db].life == Swept) ==>
              Acted(img, UseStatement(x), pid).lib.misused
    ensures Possible(img, UseStatement(x)) && img.sts[x].db in img.dbs && img.dbs[img.sts[x].db].life != Swept
            && !IsDiscarded(img.dbs[img.sts[x].db].ctx.flags) && img.sts[x].st.Some? ==>
              Acted(img, UseStatement(x), pid).lib == UseStmt(img.lib, img.sts[x].st.value)
  {
  }

  /** Preparing gives the object the statement there was in the text, on its database's connection. */
  lemma PrepareTakesHold(img: Image, pid: Pid, act: Act)
    requires act.PrepareStmt? && Possible(img, act)
    ensures var img', x := Acted(img, act, pid), act.x;
            if img.dbs[act.o].ctx.db.None? then img' == img
            else
              && x in img'.sts && img'.sts[x].db == act.o && img'.sts[x].life == Live
              && (img'.sts[x].st.Some? <==> act.compiled.Compiled?)
              && (act.compiled.Compiled? ==>
                    var s := act.compiled.s;
                    && img'.sts[x].st == Some(s) && s in img'.lib.stmts
                    && img'.lib.stmts[s] == RawStmt(img.dbs[act.o].ctx.db.value, x, 0))
  {
  }

  /** Closing a statement, and sweeping its object, finalizes what it holds, and nothing else. */
  lemma StatementsGo(img: Image, pid: Pid, act: Act)
    requires (act.CloseStatement? || act.SweepStmt?) && ImageOk(img, pid) && Possible(img, act)
    ensures var img', x := Acted(img, act, pid), act.x;
            && x in img'.sts && img'.sts[x].st == None && img'.dbs == img.dbs
            && (img'.sts[x].life == if act.SweepStmt? then Swept else img.sts[x].life)
            && forall s :: s in img.lib.stmts ==>
                 s in img'.lib.stmts
                 && img'.lib.stmts[s].finalized == if img.sts[x].st == Some(s) then 1 else img.lib.stmts[s].finalized
  {
    if img.sts[act.x].st.Some? {
      var s := img.sts[act.x].st.value;
      assert StOk(img, act.x) && RawOk(img, s);
      assert ConnOk(img, pid, img.lib.stmts[s].conn);
      FinalizedConn(img.lib, s);
    }
  }

  /** The collector takes the live objects it is said to take, and with a database its statements; and what
      is new is new. */
  lemma ObjectsComeAndGo(img: Image, pid: Pid, o: ObjId, dbs: set<ObjId>, sts: set<ObjId>)
    ensures Possible(img, NewDb(o)) ==>
              var img' := Acted(img, NewDb(o), pid);
              o in img'.dbs && img'.dbs[o] == DbObj(DbCtx(None, 0, pid), Live, false, false)
    ensures var img' := Acted(img, Collect(dbs, sts), pid);
            && img'.dbs.Keys == img.dbs.Keys && img'.sts.Keys == img.sts.Keys && img'.lib == img.lib
            && img'.tracked == img.tracked && img'.lost == img.lost
            && (forall p :: p in img.dbs ==>
                  img'.dbs[p] == if p in dbs && img.dbs[p].life == Live then img.dbs[p].(life := Garbage) else img.dbs[p])
            && (forall x :: x in img.sts ==>
                  img'.sts[x] == if (x in sts || img.sts[x].db in dbs) && img.sts[x].life == Live then img.sts[x].(life := Garbage)
                                 else img.sts[x])
    ensures Possible(img, SweepDb(o)) ==> Acted(img, SweepDb(o), pid).dbs[o].life == Swept
  {
  }

  /** `discard` abandons the connection in any process, the one that opened it included. */
  lemma DiscardAbandons(img: Image, pid: Pid, o: ObjId)
    requires ImageOk(img, pid) && Possible(img, DiscardDb(o))
    ensures var img', c := Acted(img, DiscardDb(o), pid), img.dbs[o].ctx.db.value;
            && img'.dbs[o].ctx.db == None && IsDiscarded(img'.dbs[o].ctx.flags)
            && c in img'.lib.conns && img'.lib.conns[c].discarded && img'.lib.conns[c].closedBy == None && !img'.lib.misused
  {
    assert DbOk(img, o);
  }

  // ---------------------------------------------------------------------------
  // The invariant of an image

  predicate OfObject(lib: Lib, c: ConnId, o: ObjId) {
    c in lib.conns && lib.conns[c].holder == Some(o)
  }

  /** Some successful open of `o`, the current or an earlier one, was read-only. */
  ghost predicate HadReadonly(lib: Lib, o: ObjId) {
    exists c :: OfObject(lib, c, o) && lib.conns[c].readonly
  }

  /** Some connection of `o` was discarded. */
  ghost predicate HadDiscarded(lib: Lib, o: ObjId) {
    exists c :: OfObject(lib, c, o) && lib.conns[c].discarded
  }

  /** A database object agrees with the connection it has open, and its flags say what became of any
      connection it ever had. */
  ghost predicate DbOk(img: Image, o: ObjId)
    requires o in img.dbs
  {
    var db := img.dbs[o];
    && (IsReadonly(db.ctx.flags) <==> HadReadonly(img.lib, o))
    && (IsDiscarded(db.ctx.flags) <==> HadDiscarded(img.lib, o))
    && (db.ctx.db.Some? ==>
          var c := db.ctx.db.value;
          && OfObject(img.lib, c, o) && Open(img.lib, c) && db.life != Swept
          && (db.rubyReadonly <==> img.lib.conns[c].readonly))
  }

  /** A connection that its object no longer has open was either really closed or discarded; and what
      this very process's own object opened, this process opened. */
  ghost predicate HolderOk(img: Image, pid: Pid, c: ConnId)
    requires c in img.lib.conns && img.lib.conns[c].holder.Some?
  {
    var conn := img.lib.conns[c];
    && conn.holder.value in img.dbs
    && var ctx := img.dbs[conn.holder.value].ctx;
    && (ctx.db == Some(c) || (conn.closedBy.Some? != conn.discarded))
    && (ctx.owner == pid ==> conn.opener == pid)
  }

  /** A connection is freed once, when it was closed and has no statements left; discarded, never. It
      is closed for real only by the process that opened it, unless it or an earlier one of the same
      object is read-only. */
  ghost predicate ConnOk(img: Image, pid: Pid, c: ConnId)
    requires c in img.lib.conns
  {
    var conn := img.lib.conns[c];
    && (conn.holder.Some? ==> HolderOk(img, pid, c))
    && conn.freed == (if conn.closedBy.Some? && !HasLive(img.lib, c) then 1 else 0)
    && (conn.discarded ==> conn.closedBy.None? && conn.holder.Some? && !conn.journal && forall f :: f in conn.files ==> !f)
    && (conn.holder.None? ==> conn.closedBy == Some(conn.opener))
    && (conn.closedBy.Some? ==>
          conn.closedBy == Some(conn.opener) || (conn.holder.Some? && HadReadonly(img.lib, conn.holder.value)))
  }

  /** A raw statement is live as long as its Statement object holds it, unless it was lost, and then belongs
      to a connection that the object's database opened. */
  ghost predicate RawOk(img: Image, s: StmtId)
    requires s in img.lib.stmts
  {
    var raw := img.lib.stmts[s];
    && raw.finalized <= 1
    && raw.holder in img.sts
    && (raw.finalized == 0 && s !in img.lost <==> img.sts[raw.holder].st == Some(s))
    && (s in img.lost ==> raw.finalized == 0)
    && raw.conn in img.lib.conns
    && (img.sts[raw.holder].st == Some(s) ==> img.lib.conns[raw.conn].holder == Some(img.sts[raw.holder].db))
  }

  ghost predicate StOk(img: Image, x: ObjId)
    requires x in img.sts
  {
    var st := img.sts[x];
    && st.db in img.dbs
    && (st.life == Live ==> img.dbs[st.db].life == Live)
    && (st.life == Swept ==> st.st == None)
    && (st.st.Some? ==> st.st.value in img.lib.stmts && img.lib.stmts[st.st.value].holder == x)
  }

  ghost predicate ImageOk(img: Image, pid: Pid) {
    && !img.lib.misused
    && (forall o :: o in img.dbs ==> DbOk(img, o))
    && (forall c :: c in img.lib.conns ==> ConnOk(img, pid, c))
    && (forall s :: s in img.lib.stmts ==> RawOk(img, s))
    && (forall x :: x in img.sts ==> StOk(img, x))
    && img.lost <= img.lib.stmts.Keys
  }

  // ---------------------------------------------------------------------------
  // Every act keeps it

  /** A change to one database object and one connection of its own, or of nobody. */
  ghost predicate OneDatabase(img: Image, img': Image, o: ObjId, c: ConnId) {
    && img'.sts == img.sts && img'.lost == img.lost && img'.lib.stmts == img.lib.stmts && !img'.lib.misused
    && o in img.dbs && img'.dbs.Keys == img.dbs.Keys
    && (forall p :: p in img.dbs && p != o ==> img'.dbs[p] == img.dbs[p])
    && (img'.dbs[o].life == img.dbs[o].life || img.dbs[o].life != Live)
    && img'.dbs[o].ctx.owner == img.dbs[o].ctx.owner
    && (img.dbs[o].ctx.db.Some? ==> img.dbs[o].ctx.db == Some(c))
    && img'.lib.conns.Keys == img.lib.conns.Keys + {c}
    && (forall d :: d in img.lib.conns && d != c ==> img'.lib.conns[d] == img.lib.conns[d])
    && (img'.lib.conns[c].holder.Some? ==> img'.lib.conns[c].holder == Some(o))
    && (c in img.lib.conns ==>
          && OfObject(img.lib, c, o) && OfObject(img'.lib, c, o)
          && img'.lib.conns[c].readonly == img.lib.conns[c].readonly)
  }

  lemma HasLiveKept(lib: Lib, lib': Lib)
    requires lib'.stmts == lib.stmts
    ensures forall c :: HasLive(lib', c) <==> HasLive(lib, c)
  {
  }

  /** What other objects ever had stays as it is, and no read-only open is forgotten. */
  lemma OneDatabaseHistory(img: Image, img': Image, o: ObjId, c: ConnId)
    requires OneDatabase(img, img', o, c)
    ensures forall p :: p != o ==> (HadReadonly(img'.lib, p) <==> HadReadonly(img.lib, p))
    ensures forall p :: p != o ==> (HadDiscarded(img'.lib, p) <==> HadDiscarded(img.lib, p))
    ensures HadReadonly(img.lib, o) ==> HadReadonly(img'.lib, o)
  {
    forall p, d | p != o ensures OfObject(img'.lib, d, p) <==> OfObject(img.lib, d, p) {
    }
    forall d | OfObject(img.lib, d, o) ensures OfObject(img'.lib, d, o) && img'.lib.conns[d].readonly == img.lib.conns[d].readonly {
    }
  }

  lemma OneDatabaseConns(img: Image, img': Image, pid: Pid, o: ObjId, c: ConnId)
    requires ImageOk(img, pid) && OneDatabase(img, img', o, c)
    requires DbOk(img', o) && ConnOk(img', pid, c)
    ensures forall p :: p in img'.dbs ==> DbOk(img', p)
    ensures forall d :: d in img'.lib.conns ==> ConnOk(img', pid, d)
  {
    OneDatabaseHistory(img, img', o, c);
    HasLiveKept(img.lib, img'.lib);
    forall p | p in img'.dbs ensures DbOk(img', p) {
      assert p in img.dbs && DbOk(img, p);
    }
    forall d | d in img'.lib.conns ensures ConnOk(img', pid, d) {
      if d != c { assert ConnOk(img, pid, d); }
    }
  }

  lemma OneDatabaseKeeps(img: Image, img': Image, pid: Pid, o: ObjId, c: ConnId)
    requires ImageOk(img, pid) && OneDatabase(img, img', o, c)
    requires DbOk(img', o) && ConnOk(img', pid, c)
    ensures ImageOk(img', pid)
  {
    OneDatabaseConns(img, img', pid, o, c);
    forall s | s in img'.lib.stmts ensures RawOk(img', s) {
      assert RawOk(img, s);
    }
    forall x | x in img'.sts ensures StOk(img', x) {
      assert StOk(img, x);
    }
  }

  lemma NoLiveOnNew(img: Image, pid: Pid, c: ConnId)
    requires ImageOk(img, pid) && c !in img.lib.conns
    ensures !HasLive(img.lib, c)
  {
  }

  lemma NewDbKeeps(img: Image, pid: Pid, o: ObjId)
    requires ImageOk(img, pid) && Possible(img, NewDb(o))
    ensures ImageOk(Acted(img, NewDb(o), pid), pid)
  {
  }

  lemma OpenDbKeeps(img: Image, pid: Pid, act: Act)
    requires act.OpenDb? && ImageOk(img, pid) && Possible(img, act)
    ensures ImageOk(Acted(img, act, pid), pid)
  {
    if img.dbs[act.o].ctx.db.None? {
      var img' := Acted(img, act, pid);
      assert DbOk(img, act.o);
      NoLiveOnNew(img, pid, act.c);
      HasLiveKept(img.lib, img'.lib);
      OpenedHistory(img.lib, img'.lib, act.o, act.c);
      OneDatabaseKeeps(img, img', pid, act.o, act.c);
    }
  }

  /** One more connection for `o`. */
  lemma OpenedHistory(lib: Lib, lib': Lib, o: ObjId, c: ConnId)
    requires c !in lib.conns && c in lib'.conns && lib'.conns == lib.conns[c := lib'.conns[c]]
    requires lib'.conns[c].holder == Some(o) && !lib'.conns[c].discarded
    ensures HadReadonly(lib', o) <==> HadReadonly(lib, o) || lib'.conns[c].readonly
    ensures HadDiscarded(lib', o) <==> HadDiscarded(lib, o)
  {
    forall d | d != c ensures OfObject(lib', d, o) <==> OfObject(lib, d, o) {
    }
    assert OfObject(lib', c, o);
  }

  lemma OpenDbFailsKeeps(img: Image, pid: Pid, act: Act)
    requires act.OpenDbFails? && ImageOk(img, pid) && Possible(img, act)
    ensures ImageOk(Acted(img, act, pid), pid)
  {
    if img.dbs[act.o].ctx.db.None? {
      var img' := Acted(img, act, pid);
      var conn := NewConn(None, act.path, pid, []);
      var lib1 := img.lib.(conns := img.lib.conns[act.c := conn]);
      NoLiveOnNew(img, pid, act.c);
      HasLiveKept(img.lib, lib1);
      HasLiveKept(img.lib, img'.lib);
      assert Open(lib1, act.c);
      assert DbOk(img, act.o);
      OneDatabaseKeeps(img, img', pid, act.o, act.c);
    }
  }

  /** A release by `close` or by the finalizer, and a discard. */
  function ReleasedBy(ctx: DbCtx, lib: Lib, pid: Pid, byPid: bool): (DbCtx, Lib)
    requires ctx.db.Some?
  {
    if byPid then CloseOrDiscard(ctx, lib, pid) else Discarded(ctx, lib)
  }

  /** What becomes of the connection, and of the flags of its object. */
  ghost predicate ReleaseEffect(ctx: DbCtx, lib: Lib, ctx': DbCtx, lib': Lib, pid: Pid, c: ConnId)
    requires c in lib.conns
  {
    && c in lib'.conns && lib'.conns[c].holder == lib.conns[c].holder
    && !lib'.misused && lib'.stmts == lib.stmts && lib'.conns == lib.conns[c := lib'.conns[c]]
    && lib'.conns[c].readonly == lib.conns[c].readonly && lib'.conns[c].opener == lib.conns[c].opener
    && ctx'.db == None && ctx'.owner == ctx.owner && (IsReadonly(ctx'.flags) <==> IsReadonly(ctx.flags))
    && (IsDiscarded(ctx'.flags) <==> IsDiscarded(ctx.flags) || lib'.conns[c].discarded)
    && (if lib'.conns[c].discarded
        then lib'.conns[c].closedBy == None && lib'.conns[c].freed == 0
             && !lib'.conns[c].journal && forall f :: f in lib'.conns[c].files ==> !f
        else lib'.conns[c].closedBy == Some(pid) && (IsReadonly(ctx.flags) || ctx.owner == pid)
             && lib'.conns[c].freed == if HasLive(lib, c) then 0 else 1)
  }

  lemma ReleaseOfOpen(ctx: DbCtx, lib: Lib, pid: Pid, byPid: bool, c: ConnId)
    requires ctx.db == Some(c) && Open(lib, c) && !lib.misused
    ensures var (ctx', lib') := ReleasedBy(ctx, lib, pid, byPid); ReleaseEffect(ctx, lib, ctx', lib', pid, c)
  {
  }

  lemma ReleasedConn(img: Image, pid: Pid, o: ObjId, byPid: bool)
    requires ImageOk(img, pid) && o in img.dbs && img.dbs[o].ctx.db.Some?
    ensures var ctx, c := img.dbs[o].ctx, img.dbs[o].ctx.db.value;
            var (ctx', lib') := ReleasedBy(ctx, img.lib, pid, byPid);
            OfObject(img.lib, c, o) && OfObject(lib', c, o) && ReleaseEffect(ctx, img.lib, ctx', lib', pid, c)
  {
    assert DbOk(img, o);
    ReleaseOfOpen(img.dbs[o].ctx, img.lib, pid, byPid, img.dbs[o].ctx.db.value);
  }

  lemma ReleasedHistory(lib: Lib, lib': Lib, o: ObjId, c: ConnId)
    requires OfObject(lib, c, o) && OfObject(lib', c, o) && lib'.conns == lib.conns[c := lib'.conns[c]]
    requires lib'.conns[c].readonly == lib.conns[c].readonly && !lib.conns[c].discarded
    ensures HadReadonly(lib', o) <==> HadReadonly(lib, o)
    ensures HadDiscarded(lib', o) <==> HadDiscarded(lib, o) || lib'.conns[c].discarded
  {
    forall d ensures OfObject(lib', d, o) <==> OfObject(lib, d, o) {
    }
  }

  lemma ReleaseKeeps(img: Image, img': Image, pid: Pid, o: ObjId, byPid: bool)
    requires ImageOk(img, pid) && o in img.dbs && img.dbs[o].ctx.db.Some?
    requires img'.dbs.Keys == img.dbs.Keys && img'.sts == img.sts && img'.lost == img.lost
             && (forall p :: p in img.dbs && p != o ==> img'.dbs[p] == img.dbs[p])
             && (img'.dbs[o].ctx, img'.lib) == ReleasedBy(img.dbs[o].ctx, img.lib, pid, byPid)
             && (img'.dbs[o].life == img.dbs[o].life || img.dbs[o].life == Garbage)
    ensures ImageOk(img', pid)
  {
    assert DbOk(img, o);
    var c := img.dbs[o].ctx.db.value;
    assert ConnOk(img, pid, c);
    ReleasedConn(img, pid, o, byPid);
    ReleasedHistory(img.lib, img'.lib, o, c);
    HasLiveKept(img.lib, img'.lib);
    assert DbOk(img', o);
    assert ConnOk(img', pid, c);
    OneDatabaseKeeps(img, img', pid, o, c);
  }

  lemma SweptClosedKeeps(img: Image, pid: Pid, o: ObjId)
    requires ImageOk(img, pid) && o in img.dbs && img.dbs[o].life == Garbage && img.dbs[o].ctx.db.None?
    ensures ImageOk(img.(dbs := img.dbs[o := img.dbs[o].(life := Swept)]), pid)
  {
    var img' := img.(dbs := img.dbs[o := img.dbs[o].(life := Swept)]);
    forall p | p in img'.dbs ensures DbOk(img', p) {
      assert DbOk(img, p);
    }
    forall c | c in img'.lib.conns ensures ConnOk(img', pid, c) {
      assert ConnOk(img, pid, c);
    }
    forall s | s in img'.lib.stmts ensures RawOk(img', s) {
      assert RawOk(img, s);
    }
    forall x | x in img'.sts ensures StOk(img', x) {
      assert StOk(img, x);
    }
  }

  lemma CollectKeeps(img: Image, pid: Pid, dbs: set<ObjId>, sts: set<ObjId>)
    requires ImageOk(img, pid)
    ensures ImageOk(Collected(img, dbs, sts), pid)
  {
    var img' := Collected(img, dbs, sts);
    forall o | o in img'.dbs ensures DbOk(img', o) {
      assert DbOk(img, o);
    }
    forall c | c in img'.lib.conns ensures ConnOk(img', pid, c) {
      assert ConnOk(img, pid, c);
    }
    forall s | s in img'.lib.stmts ensures RawOk(img', s) {
      assert RawOk(img, s);
    }
    forall x | x in img'.sts ensures StOk(img', x) {
      assert StOk(img, x);
    }
  }

  /** `x` holds another statement, or none, and the one it held before is lost; what it holds is on an open
      connection of its database. */
  ghost predicate Reprepared(img: Image, img': Image, x: ObjId, raw: RawStmt) {
    && img'.dbs == img.dbs && img'.lib.conns == img.lib.conns && !img'.lib.misused
    && x in img'.sts && img'.sts == img.sts[x := img'.sts[x]]
    && OfObject(img.lib, raw.conn, img'.sts[x].db) && Open(img.lib, raw.conn)
    && img'.sts[x].life == Live && img'.sts[x].db in img.dbs && img.dbs[img'.sts[x].db].life == Live
    && img'.lost == img.lost + (if x in img.sts && img.sts[x].st.Some? then {img.sts[x].st.value} else {})
    && (if img'.sts[x].st.None? then img'.lib.stmts == img.lib.stmts
        else var s := img'.sts[x].st.value;
             s !in img.lib.stmts && raw.holder == x && raw.finalized == 0 && img'.lib.stmts == img.lib.stmts[s := raw])
  }

  lemma PrepareIsReprepare(img: Image, pid: Pid, act: Act)
    requires act.PrepareStmt? && ImageOk(img, pid) && Possible(img, act) && img.dbs[act.o].ctx.db.Some?
    ensures Reprepared(img, Acted(img, act, pid), act.x, RawStmt(img.dbs[act.o].ctx.db.value, act.x, 0))
  {
    assert DbOk(img, act.o);
  }

  lemma PrepareConns(img: Image, img': Image, pid: Pid, x: ObjId, raw: RawStmt)
    requires ImageOk(img, pid) && Reprepared(img, img', x, raw)
    ensures forall p :: p in img'.dbs ==> DbOk(img', p)
    ensures forall d :: d in img'.lib.conns ==> ConnOk(img', pid, d)
  {
    forall d | d != raw.conn ensures HasLive(img'.lib, d) <==> HasLive(img.lib, d) {
      forall r ensures LiveAt(img'.lib, r, d) <==> LiveAt(img.lib, r, d) {
      }
    }
    forall p | p in img'.dbs ensures DbOk(img', p) {
      assert DbOk(img, p);
    }
    forall d | d in img'.lib.conns ensures ConnOk(img', pid, d) {
      assert ConnOk(img, pid, d);
    }
  }

  /** The raw statements after a prepare. */
  lemma PrepareRaws(img: Image, img': Image, pid: Pid, x: ObjId, raw: RawStmt)
    requires ImageOk(img, pid) && Reprepared(img, img', x, raw)
    ensures forall s :: s in img'.lib.stmts ==> RawOk(img', s)
  {
    if x in img.sts { assert StOk(img, x); }
    forall s | s in img'.lib.stmts ensures RawOk(img', s) {
      if s in img.lib.stmts { PrepareKeepsRaw(img, img', x, raw, s); }
    }
  }

  lemma PrepareKeepsRaw(img: Image, img': Image, x: ObjId, raw: RawStmt, s: StmtId)
    requires Reprepared(img, img', x, raw) && s in img.lib.stmts && RawOk(img, s)
    requires x in img.sts && img.sts[x].st == Some(s) ==> img.lib.stmts[s].holder == x
    ensures RawOk(img', s)
  {
    assert s in img'.lost <==> s in img.lost || (x in img.sts && img.sts[x].st == Some(s));
  }

  lemma PrepareObjects(img: Image, img': Image, pid: Pid, x: ObjId, raw: RawStmt)
    requires ImageOk(img, pid) && Reprepared(img, img', x, raw)
    ensures (forall y :: y in img'.sts ==> StOk(img', y)) && img'.lost <= img'.lib.stmts.Keys
  {
    if x in img.sts { assert StOk(img, x); }
    forall y | y in img'.sts ensures StOk(img', y) {
      if y != x { assert StOk(img, y); }
    }
  }

  lemma ReprepareKeeps(img: Image, img': Image, pid: Pid, x: ObjId, raw: RawStmt)
    requires ImageOk(img, pid) && Reprepared(img, img', x, raw)
    ensures ImageOk(img', pid)
  {
    PrepareConns(img, img', pid, x, raw);
    PrepareRaws(img, img', pid, x, raw);
    PrepareObjects(img, img', pid, x, raw);
  }

  lemma PrepareKeeps(img: Image, pid: Pid, act: Act)
    requires act.PrepareStmt? && ImageOk(img, pid) && Possible(img, act)
    ensures ImageOk(Acted(img, act, pid), pid)
  {
    if img.dbs[act.o].ctx.db.Some? {
      PrepareIsReprepare(img, pid, act);
      ReprepareKeeps(img, Acted(img, act, pid), pid, act.x, RawStmt(img.dbs[act.o].ctx.db.value, act.x, 0));
    }
  }

  lemma SameLibKeepsConns(img: Image, img': Image, pid: Pid)
    requires ImageOk(img, pid) && img'.dbs == img.dbs && img'.lib == img.lib
    ensures forall p :: p in img'.dbs ==> DbOk(img', p)
    ensures forall d :: d in img'.lib.conns ==> ConnOk(img', pid, d)
  {
  }

  lemma FinalizedConn(lib: Lib, s: StmtId)
    requires s in lib.stmts && lib.stmts[s].finalized == 0 && lib.stmts[s].conn in lib.conns
    requires lib.conns[lib.stmts[s].conn].freed == 0
    ensures var lib', c := Finalize(lib, s), lib.stmts[s].conn;
            && lib'.misused == lib.misused
            && lib'.stmts == lib.stmts[s := lib.stmts[s].(finalized := 1)]
            && lib'.conns.Keys == lib.conns.Keys && (forall d :: d in lib.conns && d != c ==> lib'.conns[d] == lib.conns[d])
            && lib'.conns[c] == lib.conns[c].(freed := if lib.conns[c].closedBy.Some? && !HasLive(lib', c) then 1 else 0)
  {
  }

  /** The statement `s` of the object `x` on connection `c` is finalized, and `c` freed if it was its
      last. */
  ghost predicate OneStatement(img: Image, img': Image, x: ObjId, s: StmtId, c: ConnId) {
    && img'.dbs == img.dbs && !img'.lib.misused
    && img'.lost == img.lost
    && x in img.sts && img'.sts == img.sts[x := img.sts[x].(st := None)]
    && s in img.lib.stmts && img'.lib.stmts == img.lib.stmts[s := img.lib.stmts[s].(finalized := 1)]
    && c in img.lib.conns && img'.lib.conns.Keys == img.lib.conns.Keys
    && (forall d :: d in img.lib.conns && d != c ==> img'.lib.conns[d] == img.lib.conns[d])
    && img'.lib.conns[c] ==
       img.lib.conns[c].(freed := if img.lib.conns[c].closedBy.Some? && !HasLive(img'.lib, c) then 1 else 0)
  }

  lemma OneStatementLive(img: Image, img': Image, x: ObjId, s: StmtId, c: ConnId)
    requires OneStatement(img, img', x, s, c) && LiveAt(img.lib, s, c)
    ensures HasLive(img.lib, c)
    ensures forall d :: d != c ==> (HasLive(img'.lib, d) <==> HasLive(img.lib, d))
  {
    forall d | d != c ensures HasLive(img'.lib, d) <==> HasLive(img.lib, d) {
      forall r ensures LiveAt(img'.lib, r, d) <==> LiveAt(img.lib, r, d) {
      }
    }
  }

  lemma OneStatementHistory(img: Image, img': Image, x: ObjId, s: StmtId, c: ConnId)
    requires OneStatement(img, img', x, s, c)
    ensures forall o :: HadReadonly(img'.lib, o) <==> HadReadonly(img.lib, o)
    ensures forall o :: HadDiscarded(img'.lib, o) <==> HadDiscarded(img.lib, o)
  {
    forall d ensures d in img.lib.conns ==> img'.lib.conns[d] == img.lib.conns[d].(freed := img'.lib.conns[d].freed) {
    }
    forall d, o ensures OfObject(img'.lib, d, o) <==> OfObject(img.lib, d, o) {
    }
  }

  lemma OneStatementDb(img: Image, img': Image, x: ObjId, s: StmtId, c: ConnId, p: ObjId)
    requires OneStatement(img, img', x, s, c) && p in img.dbs && DbOk(img, p)
    requires HadReadonly(img'.lib, p) <==> HadReadonly(img.lib, p)
    requires HadDiscarded(img'.lib, p) <==> HadDiscarded(img.lib, p)
    ensures DbOk(img', p)
  {
  }

  lemma OneStatementDbs(img: Image, img': Image, pid: Pid, x: ObjId, s: StmtId, c: ConnId)
    requires ImageOk(img, pid) && OneStatement(img, img', x, s, c)
    ensures forall p :: p in img'.dbs ==> DbOk(img', p)
  {
    OneStatementHistory(img, img', x, s, c);
    forall p | p in img'.dbs ensures DbOk(img', p) {
      OneStatementDb(img, img', x, s, c, p);
    }
  }

  lemma OneStatementConn(img: Image, img': Image, pid: Pid, x: ObjId, s: StmtId, c: ConnId, d: ConnId)
    requires OneStatement(img, img', x, s, c) && d in img.lib.conns && ConnOk(img, pid, d)
    requires d != c ==> (HasLive(img'.lib, d) <==> HasLive(img.lib, d))
    requires forall o :: HadReadonly(img'.lib, o) <==> HadReadonly(img.lib, o)
    ensures ConnOk(img', pid, d)
  {
    var conn, conn' := img.lib.conns[d], img'.lib.conns[d];
    assert conn' == conn.(freed := conn'.freed);
    if conn.holder.Some? { assert HolderOk(img', pid, d); }
  }

  lemma OneStatementConns(img: Image, img': Image, pid: Pid, x: ObjId, s: StmtId, c: ConnId)
    requires ImageOk(img, pid) && OneStatement(img, img', x, s, c) && LiveAt(img.lib, s, c)
    ensures forall d :: d in img'.lib.conns ==> ConnOk(img', pid, d)
  {
    OneStatementLive(img, img', x, s, c);
    OneStatementHistory(img, img', x, s, c);
    forall d | d in img'.lib.conns ensures ConnOk(img', pid, d) {
      OneStatementConn(img, img', pid, x, s, c, d);
    }
  }

  lemma OneStatementRaws(img: Image, img': Image, pid: Pid, x: ObjId, s: StmtId, c: ConnId)
    requires ImageOk(img, pid) && OneStatement(img, img', x, s, c) && img.sts[x].st == Some(s)
    ensures forall r :: r in img'.lib.stmts ==> RawOk(img', r)
  {
  }

  lemma OneStatementObjects(img: Image, img': Image, pid: Pid, x: ObjId, s: StmtId, c: ConnId)
    requires ImageOk(img, pid) && OneStatement(img, img', x, s, c) && img.sts[x].st == Some(s)
    ensures forall y :: y in img'.sts ==> StOk(img', y)
  {
  }

  lemma OneStatementKeeps(img: Image, img': Image, pid: Pid, x: ObjId, s: StmtId, c: ConnId)
    requires ImageOk(img, pid) && OneStatement(img, img', x, s, c)
    requires img.sts[x].st == Some(s) && LiveAt(img.lib, s, c)
    ensures ImageOk(img', pid)
  {
    OneStatementDbs(img, img', pid, x, s, c);
    OneStatementConns(img, img', pid, x, s, c);
    OneStatementRaws(img, img', pid, x, s, c);
    OneStatementObjects(img, img', pid, x, s, c);
  }

  /** Finalization of the statement that an object holds: its connection, if it is a zombie without
      other statements, goes with it. */
  lemma FinalizeKeeps(img: Image, pid: Pid, x: ObjId)
    requires ImageOk(img, pid) && x in img.sts && img.sts[x].st.Some?
    ensures ImageOk(Finalized(img, x), pid)
  {
    var s := img.sts[x].st.value;
    assert StOk(img, x) && RawOk(img, s);
    var c := img.lib.stmts[s].conn;
    assert ConnOk(img, pid, c) && LiveAt(img.lib, s, c);
    FinalizedConn(img.lib, s);
    OneStatementKeeps(img, Finalized(img, x), pid, x, s, c);
  }

  lemma SweptStatementKeeps(img: Image, pid: Pid, x: ObjId)
    requires ImageOk(img, pid) && x in img.sts && img.sts[x].life == Garbage && img.sts[x].st.None?
    ensures ImageOk(img.(sts := img.sts[x := img.sts[x].(life := Swept)]), pid)
  {
    var img' := img.(sts := img.sts[x := img.sts[x].(life := Swept)]);
    SameLibKeepsConns(img, img', pid);
    forall s | s in img'.lib.stmts ensures RawOk(img', s) {
      assert RawOk(img, s);
    }
    forall y | y in img'.sts ensures StOk(img', y) {
      assert StOk(img, y);
    }
  }

  /** No use of a live object misuses SQLite: its handle is open, or the guards keep it away. */
  lemma UseKeeps(img: Image, pid: Pid, act: Act)
    requires (act.UseDb? || act.UseStatement?) && ImageOk(img, pid) && Possible(img, act)
    ensures Acted(img, act, pid) == img
  {
  }

  lemma ActKeeps(img: Image, pid: Pid, act: Act)
    requires ImageOk(img, pid) && Possible(img, act)
    ensures ImageOk(Acted(img, act, pid), pid)
  {
    match act
    case NewDb(o) => NewDbKeeps(img, pid, o);
    case OpenDb(_, _, _, _, _) => OpenDbKeeps(img, pid, act);
    case OpenDbFails(_, _, _) => OpenDbFailsKeeps(img, pid, act);
    case UseDb(_) => UseKeeps(img, pid, act);
    case UseStatement(_) => UseKeeps(img, pid, act);
    case CloseDb(o) => CloseDbKeeps(img, pid, o);
    case DiscardDb(o) => DiscardDbKeeps(img, pid, o);
    case PrepareStmt(_, _, _) => PrepareKeeps(img, pid, act);
    case CloseStatement(x) => if img.sts[x].st.Some? { FinalizeKeeps(img, pid, x); }
    case Collect(dbs, sts) => CollectKeeps(img, pid, dbs, sts);
    case SweepDb(o) => SweepDbKeeps(img, pid, o);
    case SweepStmt(x) => SweepStmtKeeps(img, pid, x);
  }

  lemma CloseDbKeeps(img: Image, pid: Pid, o: ObjId)
    requires ImageOk(img, pid) && Possible(img, CloseDb(o))
    ensures ImageOk(Released(img, o, pid), pid)
  {
    if img.dbs[o].ctx.db.Some? {
      ReleaseKeeps(img, Released(img, o, pid), pid, o, true);
    } else {
      assert img.dbs[o := img.dbs[o].(ctx := img.dbs[o].ctx)] == img.dbs;
    }
  }

  lemma DiscardDbKeeps(img: Image, pid: Pid, o: ObjId)
    requires ImageOk(img, pid) && Possible(img, DiscardDb(o))
    ensures ImageOk(Acted(img, DiscardDb(o), pid), pid)
  {
    ReleaseKeeps(img, Acted(img, DiscardDb(o), pid), pid, o, false);
  }

  lemma SweepStmtKeeps(img: Image, pid: Pid, x: ObjId)
    requires ImageOk(img, pid) && Possible(img, SweepStmt(x))
    ensures ImageOk(Acted(img, SweepStmt(x), pid), pid)
  {
    if img.sts[x].st.Some? { FinalizeKeeps(img, pid, x); }
    SweptStatementKeeps(Finalized(img, x), pid, x);
  }

  lemma SweepDbKeeps(img: Image, pid: Pid, o: ObjId)
    requires ImageOk(img, pid) && Possible(img, SweepDb(o))
    ensures ImageOk(Acted(img, SweepDb(o), pid), pid)
  {
    var img' := Acted(img, SweepDb(o), pid);
    if img.dbs[o].ctx.db.Some? {
      var (ctx, lib) := CloseOrDiscard(img.dbs[o].ctx, img.lib, pid);
      assert img'.dbs == img.dbs[o := img.dbs[o].(ctx := ctx, life := Swept)];
      ReleaseKeeps(img, img', pid, o, true);
    } else {
      assert img'.dbs == img.dbs[o := img.dbs[o].(life := Swept)];
      SweptClosedKeeps(img, pid, o);
    }
  }

  // ---------------------------------------------------------------------------
  // The after-fork hook, as acts of the child

  predicate Alive(img: Image, o: ObjId) {
    o in img.dbs && img.dbs[o].life == Live
  }

  /** A connection that must not survive a fork, as far as Ruby knows. */
  predicate Writable(img: Image, o: ObjId) {
    o in img.dbs && img.dbs[o].ctx.db.Some? && !img.dbs[o].rubyReadonly
  }

  /** Collections while the hook runs: `dying[t]` is what becomes garbage right before time `t`, and this
      all that has by then. Each turn of the hook's loop uses its weak reference up to four times, so
      turn `i` takes the times from `4 * i` on. */
  function GarbageBy(dying: seq<set<ObjId>>, t: nat): set<ObjId> {
    (if t == 0 then {} else GarbageBy(dying, t - 1)) + (if t < |dying| then dying[t] else {})
  }

  lemma {:induction false} GarbageIs(dying: seq<set<ObjId>>, t: nat, o: ObjId)
    ensures o in GarbageBy(dying, t) <==> exists i :: 0 <= i <= t && i < |dying| && o in dying[i]
  {
    if t > 0 { GarbageIs(dying, t - 1, o); }
  }

  /** A turn on the object `o`, with these objects dead by the time it would be closed. */
  function HookTurn(img: Image, pid: Pid, o: ObjId, dead: set<ObjId>): Image {
    var now := Collected(img, dead, {});
    if Alive(now, o) && Writable(now, o) then Released(now, o, pid) else now
  }

  function HookTurns(img: Image, pid: Pid, dying: seq<set<ObjId>>, n: nat): Image
    requires n <= |img.tracked|
  {
    if n == 0 then img
    else HookTurn(HookTurns(img, pid, dying, n - 1), pid, img.tracked[n - 1], GarbageBy(dying, 4 * (n - 1) + 3))
  }

  /** `discard`: a turn for every tracked object, and the list is emptied. */
  function Hooked(img: Image, pid: Pid, dying: seq<set<ObjId>>): Image {
    HookTurns(img, pid, dying, |img.tracked|).(tracked := [])
  }

  lemma HookTurnKeeps(img: Image, pid: Pid, o: ObjId, dead: set<ObjId>)
    requires ImageOk(img, pid)
    ensures ImageOk(HookTurn(img, pid, o, dead), pid)
  {
    var now := Collected(img, dead, {});
    CollectKeeps(img, pid, dead, {});
    if Alive(now, o) && Writable(now, o) { ActKeeps(now, pid, CloseDb(o)); }
  }

  lemma {:induction false} HookTurnsKeep(img: Image, pid: Pid, dying: seq<set<ObjId>>, n: nat)
    requires ImageOk(img, pid) && n <= |img.tracked|
    ensures ImageOk(HookTurns(img, pid, dying, n), pid)
  {
    if n > 0 {
      HookTurnsKeep(img, pid, dying, n - 1);
      HookTurnKeeps(HookTurns(img, pid, dying, n - 1), pid, img.tracked[n - 1], GarbageBy(dying, 4 * (n - 1) + 3));
    }
  }

  /** What a turn leaves as it is, and what it does to its own object. */
  ghost predicate Turned(img: Image, img': Image, dead: set<ObjId>, o: ObjId) {
    && img'.dbs.Keys == img.dbs.Keys && img'.tracked == img.tracked
    && (forall p :: Alive(img', p) <==> Alive(img, p) && p !in dead)
    && (forall p :: Writable(img', p) <==> Writable(img, p) && (p != o || !Alive(img', p)))
    && (forall p :: p in img.dbs ==>
          && img'.dbs[p].rubyReadonly == img.dbs[p].rubyReadonly && img'.dbs[p].complete == img.dbs[p].complete
          && img'.dbs[p].ctx.owner == img.dbs[p].ctx.owner
          && (IsReadonly(img'.dbs[p].ctx.flags) <==> IsReadonly(img.dbs[p].ctx.flags)))
  }

  lemma HookTurned(img: Image, pid: Pid, o: ObjId, dead: set<ObjId>)
    ensures Turned(img, HookTurn(img, pid, o, dead), dead, o)
  {
  }

  lemma {:induction false} GarbageGrows(dying: seq<set<ObjId>>, s: nat, t: nat)
    requires s <= t
    ensures GarbageBy(dying, s) <= GarbageBy(dying, t)
  {
    if s < t { GarbageGrows(dying, s, t - 1); }
  }

  /** Among the first `n` tracked objects, one that is still reachable when the hook closes it. */
  ghost predicate ClosedInTime(img: Image, dying: seq<set<ObjId>>, n: nat, p: ObjId)
    requires n <= |img.tracked|
  {
    exists i :: 0 <= i < n && img.tracked[i] == p && p !in GarbageBy(dying, 4 * i + 3)
  }

  lemma ClosedInTimeNext(img: Image, dying: seq<set<ObjId>>, n: nat, p: ObjId)
    requires 0 < n <= |img.tracked|
    ensures ClosedInTime(img, dying, n, p) <==>
            ClosedInTime(img, dying, n - 1, p) || (p == img.tracked[n - 1] && p !in GarbageBy(dying, 4 * (n - 1) + 3))
  {
  }

  /** What `n` turns make of an object: whether it is alive, and whether it is still open for writing. */
  ghost predicate AfterTurns(img: Image, img': Image, dying: seq<set<ObjId>>, n: nat, p: ObjId)
    requires n <= |img.tracked|
  {
    && img'.tracked == img.tracked && img'.dbs.Keys == img.dbs.Keys
    && (Alive(img', p) <==> Alive(img, p) && (n == 0 || p !in GarbageBy(dying, 4 * n - 1)))
    && (Writable(img', p) <==> Writable(img, p) && !(Alive(img, p) && ClosedInTime(img, dying, n, p)))
    && (p in img.dbs ==> img'.dbs[p].complete == img.dbs[p].complete
                         && img'.dbs[p].ctx.owner == img.dbs[p].ctx.owner)
  }

  lemma OneTurnMore(img: Image, before: Image, after: Image, dying: seq<set<ObjId>>, n: nat, p: ObjId)
    requires 0 < n <= |img.tracked| && AfterTurns(img, before, dying, n - 1, p)
    requires Turned(before, after, GarbageBy(dying, 4 * (n - 1) + 3), img.tracked[n - 1])
    ensures AfterTurns(img, after, dying, n, p)
  {
    if n > 1 { GarbageGrows(dying, 4 * (n - 1) - 1, 4 * n - 1); }
    ClosedInTimeNext(img, dying, n, p);
  }

  lemma {:induction false} HookTurnsAre(img: Image, pid: Pid, dying: seq<set<ObjId>>, n: nat, p: ObjId)
    requires n <= |img.tracked|
    ensures AfterTurns(img, HookTurns(img, pid, dying, n), dying, n, p)
  {
    if n > 0 {
      var before, o, dead := HookTurns(img, pid, dying, n - 1), img.tracked[n - 1], GarbageBy(dying, 4 * (n - 1) + 3);
      HookTurnsAre(img, pid, dying, n - 1, p);
      HookTurned(before, pid, o, dead);
      OneTurnMore(img, before, HookTurn(before, pid, o, dead), dying, n, p);
    }
  }

  // ---------------------------------------------------------------------------
  // The tree of processes

  /** The running processes, and all process ids ever given out. */
  datatype World = World(procs: map<Pid, Image>, used: set<Pid>)

  /** A fork through Ruby runs the hook in the child before anything else; one in foreign code (None)
      does not. */
  datatype Move = By(pid: Pid, act: Act) | Fork(parent: Pid, child: Pid, hook: Option<seq<set<ObjId>>>) | Exit(pid: Pid)

  /** Process ids are not reused. */
  predicate CanMove(w: World, move: Move) {
    match move
    case By(pid, act) => pid in w.procs && Possible(w.procs[pid], act)
    case Fork(parent, child, _) => parent in w.procs && child !in w.used
    case Exit(pid) => pid in w.procs
  }

  function Moved(w: World, move: Move): World
    requires CanMove(w, move)
  {
    match move
    case By(pid, act) => w.(procs := w.procs[pid := Acted(w.procs[pid], act, pid)])
    case Fork(parent, child, hook) =>
      var img := if hook.Some? then Hooked(w.procs[parent], child, hook.value) else w.procs[parent];
      World(w.procs[child := img], w.used + {child})
    case Exit(pid) => w.(procs := w.procs - {pid})
  }

  function Start(pid: Pid): World {
    World(map[pid := Image(map[], map[], [], {}, Lib(map[], map[], false))], {pid})
  }

  /** The moves are possible one after another. */
  predicate CanRun(w: World, moves: seq<Move>)
    decreases |moves|, 0
  {
    moves == [] || (CanRun(w, moves[..|moves| - 1]) && CanMove(After(w, moves[..|moves| - 1]), moves[|moves| - 1]))
  }

  function After(w: World, moves: seq<Move>): World
    requires CanRun(w, moves)
    decreases |moves|, 1
  {
    if moves == [] then w else Moved(After(w, moves[..|moves| - 1]), moves[|moves| - 1])
  }

  ghost predicate OwnersUsed(img: Image, used: set<Pid>) {
    forall o :: o in img.dbs ==> img.dbs[o].ctx.owner in used
  }

  /** Whatever the hook has to close is on its list. */
  ghost predicate TrackedOk(img: Image) {
    forall o :: Alive(img, o) && Writable(img, o) && img.dbs[o].complete ==> o in img.tracked
  }

  ghost predicate WorldOk(w: World) {
    forall pid :: pid in w.procs ==>
      pid in w.used && ImageOk(w.procs[pid], pid) && OwnersUsed(w.procs[pid], w.used) && TrackedOk(w.procs[pid])
  }

  lemma ActKeepsOwners(img: Image, pid: Pid, act: Act, used: set<Pid>)
    requires Possible(img, act) && OwnersUsed(img, used) && pid in used
    ensures OwnersUsed(Acted(img, act, pid), used)
  {
  }

  lemma ActKeepsTracked(img: Image, pid: Pid, act: Act)
    requires Possible(img, act) && TrackedOk(img)
    ensures TrackedOk(Acted(img, act, pid))
  {
  }

  /** Whatever dies meanwhile, of the objects alive after the hook exactly those are still open for
      writing that were not tracked. */
  lemma HookSettles(img: Image, pid: Pid, dying: seq<set<ObjId>>, o: ObjId)
    requires Alive(Hooked(img, pid, dying), o)
    ensures Writable(Hooked(img, pid, dying), o) <==> Writable(img, o) && o !in img.tracked
  {
    var n := |img.tracked|;
    HookTurnsAre(img, pid, dying, n, o);
    if o in img.tracked {
      var i :| 0 <= i < n && img.tracked[i] == o;
      GarbageGrows(dying, 4 * i + 3, 4 * n - 1);
      assert ClosedInTime(img, dying, n, o);
    }
  }

  lemma HookKeeps(img: Image, pid: Pid, dying: seq<set<ObjId>>, used: set<Pid>)
    requires ImageOk(img, pid) && OwnersUsed(img, used) && TrackedOk(img)
    ensures var img' := Hooked(img, pid, dying); ImageOk(img', pid) && OwnersUsed(img', used) && TrackedOk(img')
  {
    HookTurnsKeep(img, pid, dying, |img.tracked|);
    var last, img' := HookTurns(img, pid, dying, |img.tracked|), Hooked(img, pid, dying);
    TrackingApart(last, [], pid);
    forall o | o in img'.dbs ensures img'.dbs[o].ctx.owner in used {
      HookTurnsAre(img, pid, dying, |img.tracked|, o);
    }
    forall o | Alive(img', o) && img'.dbs[o].complete ensures !Writable(img', o) {
      HookTurnsAre(img, pid, dying, |img.tracked|, o);
      HookSettles(img, pid, dying, o);
    }
  }

  lemma TrackingApart(img: Image, tracked: seq<ObjId>, pid: Pid)
    requires ImageOk(img, pid)
    ensures ImageOk(img.(tracked := tracked), pid)
  {
  }

  /** A copy of an image is as good as the image, in a process that created nothing in it. */
  lemma CopyOk(img: Image, parent: Pid, child: Pid)
    requires ImageOk(img, parent) && forall o :: o in img.dbs ==> img.dbs[o].ctx.owner != child
    ensures ImageOk(img, child)
  {
  }

  lemma MoveKeeps(w: World, move: Move)
    requires WorldOk(w) && CanMove(w, move)
    ensures WorldOk(Moved(w, move))
  {
    match move
    case By(pid, act) =>
      ActKeeps(w.procs[pid], pid, act);
      ActKeepsOwners(w.procs[pid], pid, act, w.used);
      ActKeepsTracked(w.procs[pid], pid, act);
    case Fork(parent, child, hook) => ForkKeeps(w, parent, child, hook);
    case Exit(_) =>
  }

  lemma ForkKeeps(w: World, parent: Pid, child: Pid, hook: Option<seq<set<ObjId>>>)
    requires WorldOk(w) && CanMove(w, Fork(parent, child, hook))
    ensures WorldOk(Moved(w, Fork(parent, child, hook)))
  {
    CopyOk(w.procs[parent], parent, child);
    if hook.Some? { HookKeeps(w.procs[parent], child, hook.value, w.used); }
  }

  lemma {:induction false} RunKeeps(pid: Pid, moves: seq<Move>)
    requires CanRun(Start(pid), moves)
    ensures WorldOk(After(Start(pid), moves))
  {
    if moves != [] {
      RunKeeps(pid, moves[..|moves| - 1]);
      MoveKeeps(After(Start(pid), moves[..|moves| - 1]), moves[|moves| - 1]);
    }
  }

  // ---------------------------------------------------------------------------
  // What follows for every run

  /** In every process of every run, SQLite is never misused: no handle is released twice, no operation
      reaches a freed handle, and none but close and finalization a discarded one. */
  lemma NoMisuse(first: Pid, moves: seq<Move>, pid: Pid)
    requires CanRun(Start(first), moves) && pid in After(Start(first), moves).procs
    ensures var lib := After(Start(first), moves).procs[pid].lib;
            && !lib.misused
            && (forall c :: c in lib.conns ==> lib.conns[c].freed <= 1)
            && (forall s :: s in lib.stmts ==> lib.stmts[s].finalized <= 1)
  {
    RunKeeps(first, moves);
    var img := After(Start(first), moves).procs[pid];
    forall c | c in img.lib.conns ensures img.lib.conns[c].freed <= 1 { assert ConnOk(img, pid, c); }
    forall s | s in img.lib.stmts ensures img.lib.stmts[s].finalized <= 1 { assert RawOk(img, s); }
  }

  /** A statement of connection `c` was lost. */
  ghost predicate LostOn(img: Image, c: ConnId) {
    exists s :: s in img.lost && s in img.lib.stmts && img.lib.stmts[s].conn == c
  }

  /** Once the finalizers of all objects of a process have run, in whatever order, every statement is
      finalized unless a second `initialize` of its object overwrote it; and every connection is freed
      exactly once unless it was discarded, or closed while such a statement was left on it, and then
      never. */
  lemma NothingLeaks(first: Pid, moves: seq<Move>, pid: Pid)
    requires CanRun(Start(first), moves) && pid in After(Start(first), moves).procs
    requires var img := After(Start(first), moves).procs[pid];
             && (forall o :: o in img.dbs ==> img.dbs[o].life == Swept)
             && (forall x :: x in img.sts ==> img.sts[x].life == Swept)
    ensures var img := After(Start(first), moves).procs[pid];
            var lib := img.lib;
            && (forall s :: s in lib.stmts ==> lib.stmts[s].finalized == if s in img.lost then 0 else 1)
            && (forall c :: c in lib.conns ==> lib.conns[c].freed == if lib.conns[c].discarded || LostOn(img, c) then 0 else 1)
  {
    RunKeeps(first, moves);
    var img := After(Start(first), moves).procs[pid];
    forall s | s in img.lib.stmts ensures img.lib.stmts[s].finalized == if s in img.lost then 0 else 1 {
      assert RawOk(img, s) && StOk(img, img.lib.stmts[s].holder);
    }
    forall c | c in img.lib.conns ensures img.lib.conns[c].freed == if img.lib.conns[c].discarded || LostOn(img, c) then 0 else 1 {
      assert ConnOk(img, pid, c);
      if img.lib.conns[c].holder.Some? { assert DbOk(img, img.lib.conns[c].holder.value); }
      LiveIsLost(img, c);
    }
  }

  lemma LiveIsLost(img: Image, c: ConnId)
    requires forall s :: s in img.lib.stmts ==> img.lib.stmts[s].finalized == if s in img.lost then 0 else 1
    ensures HasLive(img.lib, c) <==> LostOn(img, c)
  {
    if HasLive(img.lib, c) {
      var s :| s in img.lib.stmts && LiveAt(img.lib, s, c);
      assert s in img.lost;
    }
    if LostOn(img, c) {
      var s :| s in img.lost && s in img.lib.stmts && img.lib.stmts[s].conn == c;
      assert LiveAt(img.lib, s, c);
    }
  }

  lemma OneMoveMore(w: World, moves: seq<Move>, now: World, move: Move)
    requires CanRun(w, moves) && After(w, moves) == now && CanMove(now, move)
    ensures CanRun(w, moves + [move]) && After(w, moves + [move]) == Moved(now, move)
  {
    assert (moves + [move])[..|moves|] == moves;
  }

  /** A run of one process: an object is created and opened. */
  lemma OpenedOnce(owner: Pid, mode: bv32) returns (moves: seq<Move>, img: Image)
    ensures CanRun(Start(owner), moves) && After(Start(owner), moves) == World(map[owner := img], {owner})
    ensures img.dbs.Keys == {0} && img.dbs[0].life == Live && img.dbs[0].ctx.db == Some(0)
    ensures img.dbs[0].ctx.owner == owner && (IsReadonly(img.dbs[0].ctx.flags) <==> mode & 1 != 0)
    ensures img.sts == map[] && img.lost == {} && img.lib == Lib(map[0 := NewConn(Some(0), V2(mode), owner, [])], map[], false)
  {
    var w0 := Start(owner);
    assert After(w0, []) == w0;
    var m1, m2 := By(owner, NewDb(0)), By(owner, OpenDb(0, 0, V2(mode), [], true));
    OneMoveMore(w0, [], w0, m1);
    var run1, w1 := [] + [m1], Moved(w0, m1);
    OneMoveMore(w0, run1, w1, m2);
    moves, img := run1 + [m2], Moved(w1, m2).procs[owner];
    assert Moved(w1, m2).procs == map[owner := img];
  }

  lemma OneActMore(owner: Pid, moves: seq<Move>, img: Image, act: Act)
    requires CanRun(Start(owner), moves) && After(Start(owner), moves) == World(map[owner := img], {owner})
    requires Possible(img, act)
    ensures CanRun(Start(owner), moves + [By(owner, act)])
    ensures After(Start(owner), moves + [By(owner, act)]) == World(map[owner := Acted(img, act, owner)], {owner})
  {
    OneMoveMore(Start(owner), moves, World(map[owner := img], {owner}), By(owner, act));
    assert map[owner := img][owner := Acted(img, act, owner)] == map[owner := Acted(img, act, owner)];
  }

  /** Such a loss: one object is prepared twice. */
  lemma SecondPrepareLoses(owner: Pid) returns (moves: seq<Move>)
    ensures CanRun(Start(owner), moves) && owner in After(Start(owner), moves).procs
    ensures var img := After(Start(owner), moves).procs[owner]; 0 in img.lost && LostOn(img, 0)
  {
    var run, img := OpenedOnce(owner, 2);
    var first, second := PrepareStmt(0, 0, Compiled(0)), PrepareStmt(0, 0, Compiled(1));
    assert Open(img.lib, 0);
    OneActMore(owner, run, img, first);
    var img1 := Acted(img, first, owner);
    assert img1.lib.stmts == map[0 := RawStmt(0, 0, 0)] && img1.sts[0].st == Some(0) && Open(img1.lib, 0);
    OneActMore(owner, run + [By(owner, first)], img1, second);
    moves := run + [By(owner, first)] + [By(owner, second)];
    var img2 := Acted(img1, second, owner);
    assert 0 in img2.lost && 0 in img2.lib.stmts && img2.lib.stmts[0].conn == 0;
  }

  /** However the processes forked, a writable connection is really closed by a process that did not open
      it only if its object was opened read-only at another time. */
  lemma OnlyTheOpenerCloses(first: Pid, moves: seq<Move>, pid: Pid, c: ConnId)
    requires CanRun(Start(first), moves) && pid in After(Start(first), moves).procs
    requires c in After(Start(first), moves).procs[pid].lib.conns
    ensures var lib := After(Start(first), moves).procs[pid].lib; var conn := lib.conns[c];
            && (conn.closedBy.Some? && !conn.readonly && conn.closedBy != Some(conn.opener) ==>
                  conn.holder.Some? && exists d :: d != c && OfObject(lib, d, conn.holder.value) && lib.conns[d].readonly)
            && (conn.discarded ==> conn.freed == 0 && conn.closedBy == None)
  {
    RunKeeps(first, moves);
    assert ConnOk(After(Start(first), moves).procs[pid], pid, c);
  }

  /** Which way a release goes, by `close` or by the finalizer, in any process: really closed by the process
      that created the object, and by any process if the object was ever opened read-only; otherwise
      discarded, with the DISCARDED bit set, all its schema files and its journal closed, and nothing
      freed. */
  lemma ReleasePath(first: Pid, moves: seq<Move>, pid: Pid, act: Act, c: ConnId)
    requires CanRun(Start(first), moves) && pid in After(Start(first), moves).procs && (act.CloseDb? || act.SweepDb?)
    requires var img := After(Start(first), moves).procs[pid]; Possible(img, act) && img.dbs[act.o].ctx.db == Some(c)
    ensures var img, o := After(Start(first), moves).procs[pid], act.o;
            var img' := Acted(img, act, pid);
            && c in img.lib.conns && c in img'.lib.conns && !img'.lib.misused && img'.dbs[o].ctx.db == None
            && var conn, conn' := img.lib.conns[c], img'.lib.conns[c];
            if HadReadonly(img.lib, o) || img.dbs[o].ctx.owner == pid
            then conn'.closedBy == Some(pid) && !conn'.discarded && (HadReadonly(img.lib, o) || conn.opener == pid)
                 && img'.dbs[o].ctx.flags == img.dbs[o].ctx.flags
            else conn'.closedBy == None && conn'.discarded && conn'.freed == 0 && IsDiscarded(img'.dbs[o].ctx.flags)
                 && !conn'.journal && |conn'.files| == |conn.files| && forall f :: f in conn'.files ==> !f
  {
    RunKeeps(first, moves);
    var img := After(Start(first), moves).procs[pid];
    assert DbOk(img, act.o) && ConnOk(img, pid, c);
    ActReleases(img, pid, act);
  }

  lemma ActReleases(img: Image, pid: Pid, act: Act)
    requires (act.CloseDb? || act.SweepDb?) && Possible(img, act)
    ensures Acted(img, act, pid).lib == Released(img, act.o, pid).lib
    ensures Acted(img, act, pid).dbs[act.o].ctx == Released(img, act.o, pid).dbs[act.o].ctx
  {
  }

  /** The fork guard of an object that is open for writing: a process that did not create it really closes
      the connection if and only if an earlier open of the same object was read-only, since the READONLY
      bit is never cleared; otherwise it discards it. */
  lemma GuardLostIffOpenedReadonly(first: Pid, moves: seq<Move>, pid: Pid, act: Act, c: ConnId)
    requires CanRun(Start(first), moves) && pid in After(Start(first), moves).procs && (act.CloseDb? || act.SweepDb?)
    requires var img := After(Start(first), moves).procs[pid];
             && Possible(img, act) && img.dbs[act.o].ctx.db == Some(c) && img.dbs[act.o].ctx.owner != pid
             && c in img.lib.conns && !img.lib.conns[c].readonly
    ensures var img := After(Start(first), moves).procs[pid];
            var lib' := Acted(img, act, pid).lib;
            && c in lib'.conns
            && (lib'.conns[c].closedBy == Some(pid) <==>
                  exists d :: d != c && OfObject(img.lib, d, act.o) && img.lib.conns[d].readonly)
            && (lib'.conns[c].closedBy == Some(pid) <==> !lib'.conns[c].discarded)
  {
    ReleasePath(first, moves, pid, act, c);
  }

  /** A run of one process: an object is opened read-only, closed, and opened again for writing. */
  lemma ReopenedForWriting(owner: Pid) returns (moves: seq<Move>, img: Image)
    ensures CanRun(Start(owner), moves) && After(Start(owner), moves) == World(map[owner := img], {owner})
    ensures 0 in img.dbs && img.dbs[0].life == Live && img.dbs[0].ctx.db == Some(1) && IsReadonly(img.dbs[0].ctx.flags)
    ensures Open(img.lib, 1) && !img.lib.conns[1].readonly && img.lib.conns[1].opener == owner
  {
    var run, first := OpenedOnce(owner, 1);
    var close, again := CloseDb(0), OpenDb(0, 1, V2(2), [], true);
    OneActMore(owner, run, first, close);
    var closed := Acted(first, close, owner);
    assert closed.dbs[0].ctx.db == None && closed.lib.conns.Keys == {0};
    OneActMore(owner, run + [By(owner, close)], closed, again);
    moves, img := run + [By(owner, close)] + [By(owner, again)], Acted(closed, again, owner);
  }

  /** Such a loss of the guard: a child then really closes what its parent opened. */
  lemma GuardLostByReopening(owner: Pid, child: Pid) returns (moves: seq<Move>)
    requires owner != child
    ensures CanRun(Start(owner), moves) && child in After(Start(owner), moves).procs
    ensures var lib := After(Start(owner), moves).procs[child].lib;
            1 in lib.conns && !lib.conns[1].readonly && lib.conns[1].opener == owner && lib.conns[1].closedBy == Some(child)
  {
    var run4, img := ReopenedForWriting(owner);
    var w4 := World(map[owner := img], {owner});
    var m5, m6 := Fork(owner, child, None), By(child, CloseDb(0));
    OneMoveMore(Start(owner), run4, w4, m5);
    var w5 := Moved(w4, m5);
    assert w5.procs[child] == img;
    OneMoveMore(Start(owner), run4 + [m5], w5, m6);
    moves := run4 + [m5] + [m6];
  }

  /** A discarded connection stays discarded and is never freed, whatever its process does later. */
  lemma DiscardedForGood(img: Image, pid: Pid, act: Act, c: ConnId)
    requires ImageOk(img, pid) && Possible(img, act)
    requires c in img.lib.conns && img.lib.conns[c].discarded
    ensures var lib := Acted(img, act, pid).lib; c in lib.conns && lib.conns[c].discarded && lib.conns[c].freed == 0
  {
    ActKeeps(img, pid, act);
    DiscardedKept(img, pid, act, c);
    assert ConnOk(Acted(img, act, pid), pid, c);
  }

  lemma DiscardedKept(img: Image, pid: Pid, act: Act, c: ConnId)
    requires ImageOk(img, pid) && Possible(img, act)
    requires c in img.lib.conns && img.lib.conns[c].discarded
    ensures c in Acted(img, act, pid).lib.conns && Acted(img, act, pid).lib.conns[c].discarded
  {
    match act
    case CloseDb(o) => ReleaseKeepsDiscarded(img, pid, o, true, c);
    case SweepDb(o) => ReleaseKeepsDiscarded(img, pid, o, true, c);
    case DiscardDb(o) => ReleaseKeepsDiscarded(img, pid, o, false, c);
    case CloseStatement(x) => FinalizeKeepsDiscarded(img, pid, x, c);
    case SweepStmt(x) => FinalizeKeepsDiscarded(img, pid, x, c);
    case OpenDb(_, _, _, _, _) => OpenKeepsDiscarded(img, pid, act, c);
    case OpenDbFails(_, _, _) => OpenKeepsDiscarded(img, pid, act, c);
    case _ => QuietActKeepsConns(img, pid, act);
  }

  lemma QuietActKeepsConns(img: Image, pid: Pid, act: Act)
    requires Possible(img, act)
    requires act.NewDb? || act.UseDb? || act.PrepareStmt? || act.UseStatement? || act.Collect?
    ensures Acted(img, act, pid).lib.conns == img.lib.conns
  {
  }

  lemma OpenKeepsDiscarded(img: Image, pid: Pid, act: Act, c: ConnId)
    requires (act.OpenDb? || act.OpenDbFails?) && Possible(img, act)
    requires c in img.lib.conns && img.lib.conns[c].discarded
    ensures c in Acted(img, act, pid).lib.conns && Acted(img, act, pid).lib.conns[c].discarded
  {
    assert act.c != c;
  }

  lemma ReleaseKeepsDiscarded(img: Image, pid: Pid, o: ObjId, byPid: bool, c: ConnId)
    requires ImageOk(img, pid) && o in img.dbs && c in img.lib.conns && img.lib.conns[c].discarded
    ensures img.dbs[o].ctx.db.Some? ==>
              var lib := ReleasedBy(img.dbs[o].ctx, img.lib, pid, byPid).1; c in lib.conns && lib.conns[c].discarded
  {
    if img.dbs[o].ctx.db.Some? {
      assert DbOk(img, o);
      ReleasedConn(img, pid, o, byPid);
    }
  }

  lemma FinalizeKeepsDiscarded(img: Image, pid: Pid, x: ObjId, c: ConnId)
    requires ImageOk(img, pid) && x in img.sts && c in img.lib.conns && img.lib.conns[c].discarded
    ensures c in Finalized(img, x).lib.conns && Finalized(img, x).lib.conns[c].discarded
  {
    if img.sts[x].st.Some? {
      var s := img.sts[x].st.value;
      assert StOk(img, x) && RawOk(img, s);
      assert ConnOk(img, pid, img.lib.stmts[s].conn);
      FinalizedConn(img.lib, s);
    }
  }

  /** What one process does shows in no other, and a fork changes nothing but to add the copy. */
  lemma OthersUnchanged(w: World, move: Move, other: Pid)
    requires WorldOk(w) && CanMove(w, move) && other in w.procs
    requires move.By? || move.Exit? ==> other != move.pid
    ensures other in Moved(w, move).procs && Moved(w, move).procs[other] == w.procs[other]
    ensures move.Fork? && move.hook.None? ==> Moved(w, move).procs[move.child] == w.procs[move.parent]
    ensures move.Exit? ==> move.pid !in Moved(w, move).procs
    ensures move.By? ==> Moved(w, move).procs[move.pid] == Acted(w.procs[move.pid], move.act, move.pid)
    ensures forall pid :: pid in Moved(w, move).procs ==> pid in w.procs || (move.Fork? && pid == move.child)
  {
  }
}
