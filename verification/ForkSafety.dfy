/**
 Opening modes and the after-fork hook (lib/sqlite3/database.rb `initialize`, lib/sqlite3/fork_safety.rb).
 */
module ForkSafety {
  import opened Wrappers
  import opened Handles
  import opened ProcessTree

  // ---------------------------------------------------------------------------
  // Mode selection

  const READWRITE: bv32 := 2
  const CREATE: bv32 := 4

  /** The options of `Database.new` that decide how to open, and whether the file name is in UTF-16. */
  datatype Options = Options(utf16Name: bool, utf16: bool, readonly: bool, readwrite: bool, flags: Option<bv32>)

  predicate Conflicting(options: Options) {
    (options.readonly && options.readwrite) || (options.flags.Some? && (options.readonly || options.readwrite))
  }

  /** `initialize` up to the open: None where it raises over conflicting options. `@readonly` agrees with
      the flag that reaches SQLite on every path. A UTF-16 file name is opened read-write whatever the
      other options say, conflicting ones included. */
  method Initialize(options: Options) returns (path: Option<Path>, rubyReadonly: bool)
    ensures options.utf16Name || options.utf16 ==> path == Some(Utf16) && !rubyReadonly
    ensures path.None? <==> !options.utf16Name && !options.utf16 && Conflicting(options)
    ensures path.Some? ==> (rubyReadonly <==> OpensReadonly(path.value))
    ensures path.Some? && path.value.V2? ==>
              path.value.mode == if options.flags.Some? then options.flags.value
                                 else if options.readonly then 1
                                 else if options.readwrite then READWRITE
                                 else READWRITE | CREATE
  {
    var mode: bv32 := READWRITE | CREATE;
    if options.utf16Name || options.utf16 {
      path := Some(Utf16);
    } else {
      if options.readonly { mode := 1; }
      if options.readwrite {
        if options.readonly { return None, false; }
        mode := READWRITE;
      }
      if options.flags.Some? {
        if options.readonly || options.readwrite { return None, false; }
        mode := options.flags.value;
      }
      path := Some(V2(mode));
    }
    rubyReadonly := mode & 1 != 0;
  }

  // ---------------------------------------------------------------------------
  // The hook

  /** A turn finds the object open for writing: it is alive when `readonly?` is asked. */
  predicate FoundAt(img: Image, o: ObjId, dead: set<ObjId>) {
    Alive(img, o) && Writable(img, o) && o !in dead
  }

  /** One of the first `n` turns finds an inherited connection that is open for writing. */
  ghost predicate Due(img: Image, dying: seq<set<ObjId>>, n: nat)
    requires n <= |img.tracked|
  {
    n > 0 && (Due(img, dying, n - 1) || FoundAt(img, img.tracked[n - 1], GarbageBy(dying, 4 * (n - 1) + 2)))
  }

  lemma {:induction false} DueIfFound(img: Image, dying: seq<set<ObjId>>, n: nat)
    requires n <= |img.tracked|
    ensures Due(img, dying, n) <==> exists i :: 0 <= i < n && FoundAt(img, img.tracked[i], GarbageBy(dying, 4 * i + 2))
  {
    if n > 0 { DueIfFound(img, dying, n - 1); }
  }

  lemma CollectedTwice(img: Image, earlier: set<ObjId>, later: set<ObjId>)
    requires earlier <= later
    ensures Collected(Collected(img, earlier, {}), later, {}) == Collected(img, later, {})
  {
  }

  lemma CollectedObject(img: Image, dead: set<ObjId>, o: ObjId)
    ensures var now := Collected(img, dead, {});
            && (Alive(now, o) <==> Alive(img, o) && o !in dead) && (Writable(now, o) <==> Writable(img, o))
            && (o in img.dbs ==> o in now.dbs && now.dbs[o].ctx == img.dbs[o].ctx
                                 && now.dbs[o].rubyReadonly == img.dbs[o].rubyReadonly)
  {
  }

  /** Until one is found, a turn finds what was open for writing at the start and is still alive. */
  lemma FoundInTurn(img: Image, pid: Pid, dying: seq<set<ObjId>>, n: nat)
    requires n < |img.tracked|
    ensures !Due(img, dying, n) ==>
              (FoundAt(HookTurns(img, pid, dying, n), img.tracked[n], GarbageBy(dying, 4 * n + 2)) <==> Due(img, dying, n + 1))
    ensures Due(img, dying, n) ==> Due(img, dying, n + 1)
  {
    var o := img.tracked[n];
    HookTurnsAre(img, pid, dying, n, o);
    if n > 0 { GarbageGrows(dying, 4 * n - 1, 4 * n + 2); }
    if Alive(img, o) && Writable(img, o) && ClosedInTime(img, dying, n, o) {
      var i :| 0 <= i < n && img.tracked[i] == o && o !in GarbageBy(dying, 4 * i + 3);
      GarbageGrows(dying, 4 * i + 2, 4 * i + 3);
      assert FoundAt(img, img.tracked[i], GarbageBy(dying, 4 * i + 2));
      DueIfFound(img, dying, n);
    }
  }

  lemma TurnStep(img: Image, now: Image, pid: Pid, dying: seq<set<ObjId>>, n: nat)
    requires n < |img.tracked| && now == HookTurns(img, pid, dying, n)
    ensures HookTurn(now, pid, img.tracked[n], GarbageBy(dying, 4 * n + 3)) == HookTurns(img, pid, dying, n + 1)
    ensures Due(img, dying, n + 1) <==> Due(img, dying, n) || FoundAt(now, img.tracked[n], GarbageBy(dying, 4 * n + 2))
  {
    FoundInTurn(img, pid, dying, n);
  }

  /** The module state: the list of weak references stands in the image of the process it lives in. */
  class Tracker {
    var suppress: bool
    var warnings: nat
    var image: Image

    constructor (image: Image)
      ensures !suppress && warnings == 0 && this.image == image
    {
      suppress, warnings, this.image := false, 0, image;
    }

    method Track(o: ObjId)
      modifies `image
      ensures image == old(image).(tracked := old(image).tracked + [o])
    {
      image := image.(tracked := image.tracked + [o]);
    }

    /** The image is that of `start` at time `t`. */
    ghost predicate IsAt(start: Image, dying: seq<set<ObjId>>, t: nat)
      reads `image
    {
      image == Collected(start, GarbageBy(dying, t), {})
    }

    /** Time goes on from `before` to `t`. */
    method CatchUp(dying: seq<set<ObjId>>, ghost before: nat, t: nat, ghost start: Image)
      requires before <= t && IsAt(start, dying, before)
      modifies `image
      ensures IsAt(start, dying, t)
    {
      GarbageGrows(dying, before, t);
      CollectedTwice(start, GarbageBy(dying, before), GarbageBy(dying, t));
      image := Collected(image, GarbageBy(dying, t), {});
    }

    /** A use of the weak reference to `o` at time `t + 1`: the collector may have run before. */
    method Reach(o: ObjId, dying: seq<set<ObjId>>, t: nat, ghost start: Image) returns (alive: bool)
      requires IsAt(start, dying, t)
      modifies `image
      ensures IsAt(start, dying, t + 1)
      ensures alive <==> Alive(start, o) && o !in GarbageBy(dying, t + 1)
      ensures alive ==> o in image.dbs && o in start.dbs && image.dbs[o].ctx == start.dbs[o].ctx
                        && image.dbs[o].rubyReadonly == start.dbs[o].rubyReadonly
    {
      CatchUp(dying, t, t + 1, start);
      CollectedObject(start, GarbageBy(dying, t + 1), o);
      alive := Alive(image, o);
    }

    /** From `closed?` on, where any use of a dead reference raises RefError. */
    method CloseWritable(o: ObjId, pid: Pid, warned: bool, dying: seq<set<ObjId>>, t: nat, ghost start: Image)
      returns (warnedNow: bool, closed: bool, ghost now: nat)
      requires IsAt(start, dying, t)
      modifies `image, `warnings
      ensures warnedNow <==> warned || FoundAt(start, o, GarbageBy(dying, t + 2))
      ensures warnings == old(warnings) + if warnedNow && !warned then 1 else 0
      ensures closed <==> FoundAt(start, o, GarbageBy(dying, t + 3))
      ensures closed ==> image == Released(Collected(start, GarbageBy(dying, t + 3), {}), o, pid)
      ensures !closed ==> now <= t + 3 && IsAt(start, dying, now)
    {
      warnedNow, closed := warned, false;
      GarbageGrows(dying, t + 1, t + 2);
      GarbageGrows(dying, t + 2, t + 3);
      now := t + 1;
      var alive := Reach(o, dying, t, start);                         // db.closed?
      if !alive || image.dbs[o].ctx.db.None? { return; }
      now := t + 2;
      alive := Reach(o, dying, t + 1, start);                         // db.readonly?
      if !alive || image.dbs[o].rubyReadonly { return; }
      if !warned {
        warnings := warnings + 1;
        warnedNow := true;
      }
      now := t + 3;
      alive := Reach(o, dying, t + 2, start);                         // db.close
      if !alive { return; }
      image := Released(image, o, pid);
      closed := true;
    }

    /** A turn of the loop, which starts at time `t`. Objects may die before each use of the weak
        reference; the loop then goes on to the next database. */
    method DiscardOne(o: ObjId, pid: Pid, warned: bool, dying: seq<set<ObjId>>, t: nat) returns (warnedNow: bool)
      modifies `image, `warnings
      ensures image == HookTurn(old(image), pid, o, GarbageBy(dying, t + 3))
      ensures warnedNow <==> warned || FoundAt(old(image), o, GarbageBy(dying, t + 2))
      ensures warnings == old(warnings) + if warnedNow && !warned then 1 else 0
    {
      ghost var start := image;
      warnedNow := warned;
      image := Collected(image, GarbageBy(dying, t), {});             // weakref_alive?
      CollectedObject(start, GarbageBy(dying, t), o);
      CollectedObject(start, GarbageBy(dying, t + 3), o);
      GarbageGrows(dying, t, t + 2);
      GarbageGrows(dying, t, t + 3);
      var closed := false;
      ghost var now := t;
      if Alive(image, o) {
        warnedNow, closed, now := CloseWritable(o, pid, warned, dying, t, start);
      }
      if !closed { CatchUp(dying, now, t + 3, start); }
    }

    /** Turn `i` of the hook that started on `start`; `next` is where it leads. */
    method DiscardNext(i: nat, o: ObjId, pid: Pid, warned: bool, dying: seq<set<ObjId>>, ghost due: bool, ghost next: Image)
      returns (warnedNow: bool)
      requires next == HookTurn(image, pid, o, GarbageBy(dying, 4 * i + 3))
      requires due <==> warned || FoundAt(image, o, GarbageBy(dying, 4 * i + 2))
      modifies `image, `warnings
      ensures image == next && (warnedNow <==> due)
      ensures warnings == old(warnings) + if warnedNow && !warned then 1 else 0
    {
      warnedNow := DiscardOne(o, pid, warned, dying, 4 * i);
    }

    /** `discard`, with objects dying as `dying` has it: a turn for every tracked database, the list
        emptied, and a single warning exactly when a turn found one open for writing and warnings are not
        suppressed. */
    method Discard(pid: Pid, dying: seq<set<ObjId>>)
      modifies this
      ensures image == Hooked(old(image), pid, dying) && suppress == old(suppress)
      ensures warnings == old(warnings) + if !suppress && Due(old(image), dying, |old(image).tracked|) then 1 else 0
    {
      var warned := suppress;
      var databases, i := image.tracked, 0;
      ghost var start := image;
      while i < |databases|
        invariant 0 <= i <= |databases| && databases == start.tracked && suppress == old(suppress)
        invariant image == HookTurns(start, pid, dying, i)
        invariant warned <==> suppress || Due(start, dying, i)
        invariant warnings == old(warnings) + if warned && !suppress then 1 else 0
      {
        TurnStep(start, image, pid, dying, i);
        ghost var due, next := suppress || Due(start, dying, i + 1), HookTurns(start, pid, dying, i + 1);
        warned := DiscardNext(i, databases[i], pid, warned, dying, due, next);
        i := i + 1;
      }
      image := image.(tracked := []);
    }
  }

  // ---------------------------------------------------------------------------
  // What the hook does

  /** The object is as it was, or it was open for writing and now is closed; and unless its fork guard was
      lost to an earlier read-only open, it was discarded. */
  ghost predicate OnlyDiscards(img: Image, img': Image, o: ObjId)
    requires o in img.dbs
  {
    && o in img'.dbs
    && (IsReadonly(img'.dbs[o].ctx.flags) <==> IsReadonly(img.dbs[o].ctx.flags))
    && img'.dbs[o].rubyReadonly == img.dbs[o].rubyReadonly && img'.dbs[o].ctx.owner == img.dbs[o].ctx.owner
    && (|| img'.dbs[o].ctx == img.dbs[o].ctx
        || (Writable(img, o) && img'.dbs[o].ctx.db == None
            && (IsReadonly(img.dbs[o].ctx.flags) || IsDiscarded(img'.dbs[o].ctx.flags))))
  }

  /** The connection is not released, unless the fork guard of its object was lost. */
  ghost predicate NotReleased(img: Image, img': Image, c: ConnId)
    requires c in img.lib.conns
  {
    && c in img'.lib.conns
    && var conn, conn' := img.lib.conns[c], img'.lib.conns[c];
    && conn'.holder == conn.holder && conn'.readonly == conn.readonly
    && (|| (conn'.closedBy == conn.closedBy && conn'.freed == conn.freed)
        || (!conn.readonly && conn.holder.Some? && HadReadonly(img.lib, conn.holder.value)))
    && (conn'.discarded ==> conn.discarded || (conn.holder.Some? && !HadReadonly(img.lib, conn.holder.value)))
  }

  ghost predicate HookEffect(img: Image, img': Image) {
    && (forall o :: o in img.dbs ==> OnlyDiscards(img, img', o))
    && (forall c :: c in img.lib.conns ==> NotReleased(img, img', c))
    && (forall o :: HadReadonly(img'.lib, o) <==> HadReadonly(img.lib, o))
    && img'.lib.conns.Keys == img.lib.conns.Keys && img'.dbs.Keys == img.dbs.Keys && img'.lib.stmts == img.lib.stmts
  }

  lemma HookEffectTransitive(a: Image, b: Image, c: Image)
    requires HookEffect(a, b) && HookEffect(b, c)
    ensures HookEffect(a, c)
  {
    forall o | o in a.dbs ensures OnlyDiscards(a, c, o) {
      assert OnlyDiscards(a, b, o) && OnlyDiscards(b, c, o);
    }
    forall d | d in a.lib.conns ensures NotReleased(a, c, d) {
      assert NotReleased(a, b, d) && NotReleased(b, c, d);
    }
  }

  /** In a process that owns none of the objects, closing a writable database discards it, or else an
      earlier open of it was read-only. */
  lemma CloseEffect(img: Image, pid: Pid, o: ObjId)
    requires ImageOk(img, pid) && Writable(img, o) && img.dbs[o].ctx.owner != pid
    ensures HookEffect(img, Released(img, o, pid))
  {
    var c := img.dbs[o].ctx.db.value;
    assert DbOk(img, o);
    ReleasedConn(img, pid, o, true);
    var img' := Released(img, o, pid);
    ReleasedHistory(img.lib, img'.lib, o, c);
    forall p | p != o ensures HadReadonly(img'.lib, p) <==> HadReadonly(img.lib, p) {
      forall d ensures OfObject(img'.lib, d, p) <==> OfObject(img.lib, d, p) {
      }
    }
  }

  lemma OwnersKept(img: Image, img': Image)
    requires HookEffect(img, img')
    ensures forall o :: o in img'.dbs ==> o in img.dbs && img'.dbs[o].ctx.owner == img.dbs[o].ctx.owner
  {
    forall o | o in img.dbs ensures img'.dbs[o].ctx.owner == img.dbs[o].ctx.owner {
      assert OnlyDiscards(img, img', o);
    }
  }

  lemma TurnEffect(img: Image, pid: Pid, o: ObjId, dead: set<ObjId>)
    requires ImageOk(img, pid) && forall p :: p in img.dbs ==> img.dbs[p].ctx.owner != pid
    ensures HookEffect(img, HookTurn(img, pid, o, dead))
  {
    var now := Collected(img, dead, {});
    CollectKeeps(img, pid, dead, {});
    assert HookEffect(img, now);
    if Alive(now, o) && Writable(now, o) {
      CloseEffect(now, pid, o);
      HookEffectTransitive(img, now, Released(now, o, pid));
    }
  }

  lemma NoEffect(img: Image)
    ensures HookEffect(img, img)
  {
  }

  lemma TurnAddsToEffect(img: Image, before: Image, pid: Pid, o: ObjId, dead: set<ObjId>)
    requires HookEffect(img, before) && ImageOk(before, pid) && forall p :: p in img.dbs ==> img.dbs[p].ctx.owner != pid
    ensures HookEffect(img, HookTurn(before, pid, o, dead))
  {
    OwnersKept(img, before);
    TurnEffect(before, pid, o, dead);
    HookEffectTransitive(img, before, HookTurn(before, pid, o, dead));
  }

  /** All the hook does to an image: it closes databases that are open for writing, and it discards them,
      releasing no connection, but where an earlier read-only open took their fork guard. */
  lemma {:induction false} HookOnlyDiscards(img: Image, pid: Pid, dying: seq<set<ObjId>>, n: nat)
    requires ImageOk(img, pid) && n <= |img.tracked| && forall p :: p in img.dbs ==> img.dbs[p].ctx.owner != pid
    ensures HookEffect(img, HookTurns(img, pid, dying, n))
  {
    if n > 0 {
      var before := HookTurns(img, pid, dying, n - 1);
      HookOnlyDiscards(img, pid, dying, n - 1);
      HookTurnsKeep(img, pid, dying, n - 1);
      TurnAddsToEffect(img, before, pid, img.tracked[n - 1], GarbageBy(dying, 4 * (n - 1) + 3));
    } else {
      NoEffect(img);
    }
  }

  /** A database that the hook leaves open is read-only, if it was tracked as it should be. */
  lemma HookLeavesReadonly(img: Image, pid: Pid, dying: seq<set<ObjId>>, o: ObjId)
    requires ImageOk(Hooked(img, pid, dying), pid) && TrackedOk(img)
    requires var img' := Hooked(img, pid, dying); Alive(img', o) && img'.dbs[o].ctx.db.Some? && img'.dbs[o].complete
    ensures var img' := Hooked(img, pid, dying); var c := img'.dbs[o].ctx.db.value;
            c in img'.lib.conns && img'.lib.conns[c].readonly
  {
    HookTurnsAre(img, pid, dying, |img.tracked|, o);
    HookSettles(img, pid, dying, o);
    assert DbOk(Hooked(img, pid, dying), o);
  }

  /** The whole of it, for any fork through Ruby in any run: a live Database object of the child, but for
      one whose `initialize` raised after the open, has no connection or a read-only one; nothing was
      released without need; and the parent's image is untouched. */
  lemma ChildHoldsNoWritable(first: Pid, moves: seq<Move>, parent: Pid, child: Pid, dying: seq<set<ObjId>>)
    requires CanRun(Start(first), moves) && CanMove(After(Start(first), moves), Fork(parent, child, Some(dying)))
    ensures var w, w' := After(Start(first), moves), Moved(After(Start(first), moves), Fork(parent, child, Some(dying)));
            var img := w'.procs[child];
            && w'.procs[parent] == w.procs[parent] && img.tracked == [] && HookEffect(w.procs[parent], img)
            && forall o :: Alive(img, o) && img.dbs[o].ctx.db.Some? && img.dbs[o].complete ==>
                 var c := img.dbs[o].ctx.db.value; c in img.lib.conns && img.lib.conns[c].readonly
  {
    RunKeeps(first, moves);
    var w := After(Start(first), moves);
    var img, n := w.procs[parent], |w.procs[parent].tracked|;
    CopyOk(img, parent, child);
    HookKeeps(img, child, dying, w.used);
    HookOnlyDiscards(img, child, dying, n);
    var img' := Hooked(img, child, dying);
    forall o | Alive(img', o) && img'.dbs[o].ctx.db.Some? && img'.dbs[o].complete
      ensures var c := img'.dbs[o].ctx.db.value; c in img'.lib.conns && img'.lib.conns[c].readonly
    {
      HookLeavesReadonly(img, child, dying, o);
    }
  }

  // ---------------------------------------------------------------------------
  // The same from the moves

  /** What a process tracks it goes on tracking, and its connections stay what they were opened as, whatever
      happens later in its life. */
  lemma {:induction false} StaysTracked(first: Pid, earlier: seq<Move>, later: seq<Move>, pid: Pid, o: ObjId, c: ConnId)
    requires CanRun(Start(first), earlier) && CanRun(Start(first), earlier + later)
    requires pid in After(Start(first), earlier).procs && pid in After(Start(first), earlier + later).procs
    requires var img := After(Start(first), earlier).procs[pid]; o in img.tracked && OfObject(img.lib, c, o)
    ensures var img, img' := After(Start(first), earlier).procs[pid], After(Start(first), earlier + later).procs[pid];
            o in img'.tracked && OfObject(img'.lib, c, o) && img'.lib.conns[c].readonly == img.lib.conns[c].readonly
    decreases |later|
  {
    if later == [] {
      assert earlier + later == earlier;
    } else {
      var n := |later| - 1;
      var moves, before := earlier + later, earlier + later[..n];
      assert moves[..|moves| - 1] == before && moves[|moves| - 1] == later[n];
      UsedStays(first, earlier, later[..n], pid);
      RunKeeps(first, before);
      assert pid in After(Start(first), before).procs;
      StaysTracked(first, earlier, later[..n], pid, o, c);
      if later[n].By? && later[n].pid == pid {
        ActKeepsOpened(After(Start(first), before).procs[pid], pid, later[n].act, o, c);
      }
    }
  }

  /** A process id that was given out is not given out again. */
  lemma {:induction false} UsedStays(first: Pid, earlier: seq<Move>, later: seq<Move>, pid: Pid)
    requires CanRun(Start(first), earlier) && CanRun(Start(first), earlier + later) && pid in After(Start(first), earlier).procs
    ensures pid in After(Start(first), earlier + later).used
    decreases |later|
  {
    if later == [] {
      assert earlier + later == earlier;
      RunKeeps(first, earlier);
    } else {
      var n := |later| - 1;
      var moves := earlier + later;
      assert moves[..|moves| - 1] == earlier + later[..n];
      UsedStays(first, earlier, later[..n], pid);
    }
  }

  lemma ActKeepsOpened(img: Image, pid: Pid, act: Act, o: ObjId, c: ConnId)
    requires Possible(img, act) && o in img.tracked && OfObject(img.lib, c, o)
    ensures var img' := Acted(img, act, pid);
            o in img'.tracked && OfObject(img'.lib, c, o) && img'.lib.conns[c].readonly == img.lib.conns[c].readonly
  {
    match act
    case CloseDb(p) => ReleaseKeepsKind(img.dbs[p].ctx, img.lib, pid, c);
    case SweepDb(p) => ReleaseKeepsKind(img.dbs[p].ctx, img.lib, pid, c);
    case CloseStatement(x) => if img.sts[x].st.Some? { FinalizeKeepsKind(img.lib, img.sts[x].st.value, c); }
    case SweepStmt(x) => if img.sts[x].st.Some? { FinalizeKeepsKind(img.lib, img.sts[x].st.value, c); }
    case _ =>
  }

  lemma ReleaseKeepsKind(ctx: DbCtx, lib: Lib, pid: Pid, c: ConnId)
    requires c in lib.conns
    ensures var lib' := CloseOrDiscard(ctx, lib, pid).1;
            c in lib'.conns && lib'.conns[c].holder == lib.conns[c].holder && lib'.conns[c].readonly == lib.conns[c].readonly
  {
  }

  lemma FinalizeKeepsKind(lib: Lib, s: StmtId, c: ConnId)
    requires c in lib.conns
    ensures var lib' := Finalize(lib, s);
            c in lib'.conns && lib'.conns[c].holder == lib.conns[c].holder && lib'.conns[c].readonly == lib.conns[c].readonly
  {
  }

  /** A database that a process opened for writing, whose `initialize` completed, and which it has open when
      it forks: in the child the hook leaves the object closed, if it does not die in the middle of it,
      and the connection discarded, or, if the object ever was read-only, really closed. */
  lemma HookClosesWhatWasOpened(first: Pid, earlier: seq<Move>, later: seq<Move>, parent: Pid, child: Pid,
                                act: Act, dying: seq<set<ObjId>>)
    requires act.OpenDb? && act.complete && !OpensReadonly(act.path)
    requires CanRun(Start(first), earlier) && CanRun(Start(first), earlier + [By(parent, act)])
    requires After(Start(first), earlier).procs[parent].dbs[act.o].ctx.db.None?
    requires var moves := earlier + [By(parent, act)] + later;
             CanRun(Start(first), moves) && CanMove(After(Start(first), moves), Fork(parent, child, Some(dying)))
    requires var img := After(Start(first), earlier + [By(parent, act)] + later).procs[parent];
             && Alive(img, act.o) && img.dbs[act.o].ctx.db == Some(act.c)
    requires forall t: nat :: act.o !in GarbageBy(dying, t)
    ensures var w := After(Start(first), earlier + [By(parent, act)] + later);
            var img, img' := w.procs[parent], Moved(w, Fork(parent, child, Some(dying))).procs[child];
            && act.o in img'.dbs && img'.dbs[act.o].ctx.db == None
            && act.c in img.lib.conns && act.c in img'.lib.conns
            && (img'.lib.conns[act.c].discarded <==> !HadReadonly(img.lib, act.o))
            && (img'.lib.conns[act.c].closedBy.Some? <==> HadReadonly(img.lib, act.o))
  {
    var start := earlier + [By(parent, act)];
    assert start[..|earlier|] == earlier;
    OpenTakesHold(After(Start(first), earlier).procs[parent], parent, act);
    StaysTracked(first, start, later, parent, act.o, act.c);
    RunKeeps(first, start + later);
    HookClosesTracked(After(Start(first), start + later), parent, child, act.o, act.c, dying);
  }

  lemma HookClosesTracked(w: World, parent: Pid, child: Pid, o: ObjId, c: ConnId, dying: seq<set<ObjId>>)
    requires WorldOk(w) && CanMove(w, Fork(parent, child, Some(dying)))
    requires var img := w.procs[parent];
             && Alive(img, o) && img.dbs[o].ctx.db == Some(c) && o in img.tracked
             && c in img.lib.conns && !img.lib.conns[c].readonly
    requires forall t: nat :: o !in GarbageBy(dying, t)
    ensures var img, img' := w.procs[parent], Hooked(w.procs[parent], child, dying);
            && o in img'.dbs && img'.dbs[o].ctx.db == None && c in img'.lib.conns
            && (img'.lib.conns[c].discarded <==> !HadReadonly(img.lib, o))
            && (img'.lib.conns[c].closedBy.Some? <==> HadReadonly(img.lib, o))
  {
    var img, n := w.procs[parent], |w.procs[parent].tracked|;
    CopyOk(img, parent, child);
    HookKeeps(img, child, dying, w.used);
    HookOnlyDiscards(img, child, dying, n);
    var img' := Hooked(img, child, dying);
    HookTurnsAre(img, child, dying, n, o);
    HookSettles(img, child, dying, o);
    assert DbOk(img, o) && ConnOk(img, child, c);
    assert OnlyDiscards(img, HookTurns(img, child, dying, n), o) && NotReleased(img, HookTurns(img, child, dying, n), c);
    assert ConnOk(img', child, c);
  }

  /** Warnings are about what the hook closes: if it closes any object a warning is due, and if one is due and
      nothing dies meanwhile it closes one. */
  lemma WarningMeansClosing(img: Image, pid: Pid, dying: seq<set<ObjId>>)
    ensures (exists p :: Writable(img, p) && !Writable(Hooked(img, pid, dying), p)) ==> Due(img, dying, |img.tracked|)
    ensures (forall t :: GarbageBy(dying, t) == {}) && Due(img, dying, |img.tracked|) ==>
              exists p :: Writable(img, p) && !Writable(Hooked(img, pid, dying), p)
  {
    var n := |img.tracked|;
    DueIfFound(img, dying, n);
    forall p | Writable(img, p) && !Writable(Hooked(img, pid, dying), p) ensures Due(img, dying, n) {
      HookTurnsAre(img, pid, dying, n, p);
      var i :| 0 <= i < n && img.tracked[i] == p && p !in GarbageBy(dying, 4 * i + 3);
      GarbageGrows(dying, 4 * i + 2, 4 * i + 3);
      assert FoundAt(img, img.tracked[i], GarbageBy(dying, 4 * i + 2));
    }
    if (forall t :: GarbageBy(dying, t) == {}) && Due(img, dying, n) {
      var i :| 0 <= i < n && FoundAt(img, img.tracked[i], GarbageBy(dying, 4 * i + 2));
      HookTurnsAre(img, pid, dying, n, img.tracked[i]);
      assert ClosedInTime(img, dying, n, img.tracked[i]);
    }
  }
}
