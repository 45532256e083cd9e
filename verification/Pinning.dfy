/**
 Raw Ruby values in SQLite's hands, and what `database_mark` pins (ext/sqlite3/database.c,
 ext/sqlite3/aggregator.c).

 SQLite keeps the blocks of scalar functions, the wrappers of aggregators and the comparators of
 collations as user data, and live aggregate instances in its aggregate contexts. The tables of a
 connection outlive `close` as long as statements are open. An object may be initialized again after a
 close, and then has tables of several connections in SQLite's hands.
 */
module Pinning {
  import opened Wrappers
  import Agg = Aggregator

  /** A Ruby value: a block, comparator or handler; a wrapper; an instance; or one of the collections. */
  datatype Ref = Obj(id: nat) | WrapperRef(aw: nat) | InstanceRef(inst: nat)
               | FunctionsArray | CollationsHash | AggregatorsArray | InstancesArray(aw: nat)

  datatype FunctionKey = FunctionKey(name: string, arity: int, encoding: int)

  /** An entry of the connection that the object opened as its `conn`-th. */
  datatype FunctionAt = FunctionAt(conn: nat, key: FunctionKey)

  datatype CollationAt = CollationAt(conn: nat, name: string)

  datatype UserData = Scalar(block: nat) | Aggregate(aw: nat)

  datatype Hook = BusyHandler | TraceHandler | Authorizer

  datatype State<S, V> = State(
    open: bool,
    conn: nat,
    // SQLite's tables, of all connections it has not freed
    functionTable: map<FunctionAt, UserData>,
    collationTable: map<CollationAt, nat>,
    // @functions and @collations, which `initialize` sets anew
    functionsVar: seq<nat>,
    collationsVar: map<string, Option<nat>>,
    // the struct: NULL before the first registration, then the object that the instance variable held at
    // the last one
    hooks: map<Hook, nat>,
    functions: Option<seq<nat>>,
    collations: Option<map<string, Option<nat>>>,
    aggregators: Option<seq<nat>>,
    // the aggregate contexts
    agg: Agg.State<S, V>)

  /** Registrations carry SQLite's verdict `ok`: it refuses, for one, to replace what a running
      statement uses. `fold` is how SQLite reads a collation's name. */
  datatype Step<R> =
    | DefineFunction(key: FunctionKey, block: nat, ok: bool)
    | DefineAggregator(key: FunctionKey, aw: nat, ok: bool)
    | Collation(name: string, comparator: Option<nat>, ok: bool)
    | SetHook(hook: Hook, handler: Option<nat>)
    | Callback(event: Agg.Event<R>)
    | Close
    | Initialize(ok: bool)                 // once more; `ok`: the open succeeds
    | Free(conn: nat)                      // SQLite frees a closed connection

  datatype World<!S, !R, !V> = World(fold: string -> string, handlers: Agg.Handlers<S, R, V>, wrapperOf: nat -> nat)

  function Listed(list: Option<seq<nat>>): seq<nat> {
    if list.Some? then list.value else []
  }

  function Entries(hash: Option<map<string, Option<nat>>>): map<string, Option<nat>> {
    if hash.Some? then hash.value else map[]
  }

  /** After the first `initialize`. */
  function Start<S, V>(): State<S, V> {
    State(true, 0, map[], map[], [], map[], map[], None, None, None, Agg.Initial())
  }

  /** A registration that SQLite refuses raises before the struct is touched; one that it accepts makes the
      struct point at the instance variable's object. */
  function Taken<S, R, V>(w: World<S, R, V>, st: State<S, V>, step: Step<R>): State<S, V> {
    match step
    case DefineFunction(key, block, ok) =>
      if !st.open || !ok then st
      else
        var functions := st.functionsVar + [block];
        st.(functionTable := st.functionTable[FunctionAt(st.conn, key) := Scalar(block)],
            functionsVar := functions, functions := Some(functions))
    case DefineAggregator(key, aw, ok) =>
      if !st.open || !(-1 <= key.arity <= 127) || !ok then st
      else st.(functionTable := st.functionTable[FunctionAt(st.conn, key) := Aggregate(aw)],
               aggregators := Some(Listed(st.aggregators) + [aw]))
    case Collation(name, comparator, ok) =>
      if !st.open || !ok then st
      else
        var at, collations := CollationAt(st.conn, w.fold(name)), st.collationsVar[name := comparator];
        st.(collationTable := if comparator.Some? then st.collationTable[at := comparator.value] else st.collationTable - {at},
            collationsVar := collations, collations := Some(collations))
    case Initialize(ok) =>
      if st.open || !ok then st
      else st.(open := true, conn := st.conn + 1, functionsVar := [], collationsVar := map[])
    case Free(conn) =>
      st.(functionTable := map at | at in st.functionTable && at.conn != conn :: st.functionTable[at],
          collationTable := map at | at in st.collationTable && at.conn != conn :: st.collationTable[at])
    case SetHook(hook, handler) =>
      if !st.open then st
      else st.(hooks := if handler.Some? then st.hooks[hook := handler.value] else st.hooks - {hook})
    case Callback(event) =>
      st.(agg := Agg.Handled(st.agg, w.handlers, event))
    case Close => st.(open := false)
  }

  /** SQLite's side: it calls back with the user data of a registered aggregator, or for a context it has
      started, always with the aggregator the context belongs to, and does not free an open connection.
      No more is asked: it may break the protocol of contexts, and handlers may finalize to what SQLite
      does not take. */
  ghost predicate Possible<S, R, V>(w: World<S, R, V>, st: State<S, V>, step: Step<R>) {
    && (step.Free? ==> step.conn != st.conn || !st.open)
    && (step.Callback? ==>
          var e := step.event;
          && e.aw == w.wrapperOf(e.context)
          && (Agg.SlotOf(st.agg, e.context) != Agg.Zero || exists at :: at in st.functionTable && st.functionTable[at] == Aggregate(e.aw)))
  }

  ghost predicate PossibleRun<S, R, V>(w: World<S, R, V>, steps: seq<Step<R>>) {
    steps == [] || (PossibleRun(w, steps[..|steps| - 1]) && Possible(w, After(w, steps[..|steps| - 1]), steps[|steps| - 1]))
  }

  function After<S, R, V>(w: World<S, R, V>, steps: seq<Step<R>>): State<S, V> {
    if steps == [] then Start() else Taken(w, After(w, steps[..|steps| - 1]), steps[|steps| - 1])
  }

  // ---------------------------------------------------------------------------
  // What each step leaves in SQLite's hands

  /** SQLite's function table of every connection but for one entry. */
  ghost predicate OtherFunctionsKept<S, V>(st: State<S, V>, st': State<S, V>, own: FunctionAt) {
    forall at :: at != own ==> (at in st'.functionTable <==> at in st.functionTable)
                               && (at in st.functionTable ==> st'.functionTable[at] == st.functionTable[at])
  }

  ghost predicate OtherCollationsKept<S, V>(st: State<S, V>, st': State<S, V>, own: CollationAt) {
    forall at :: at != own ==> (at in st'.collationTable <==> at in st.collationTable)
                               && (at in st.collationTable ==> st'.collationTable[at] == st.collationTable[at])
  }

  /** A registration is accepted on an open object that SQLite does not refuse it, for an aggregator with an
      arity in range. Then the open connection has it under its key, and all other entries of all
      connections are as before; and nothing at all happens otherwise. */
  lemma RegistrationReachesSqlite<S, R, V>(w: World<S, R, V>, st: State<S, V>, key: FunctionKey, id: nat, ok: bool)
    ensures var st', at := Taken(w, st, DefineFunction(key, id, ok)), FunctionAt(st.conn, key);
            if st.open && ok then at in st'.functionTable && st'.functionTable[at] == Scalar(id) && OtherFunctionsKept(st, st', at)
                                  && st'.collationTable == st.collationTable && Held(st', Obj(id))
            else st' == st
    ensures var st', at := Taken(w, st, DefineAggregator(key, id, ok)), FunctionAt(st.conn, key);
            if st.open && ok && -1 <= key.arity <= 127
            then at in st'.functionTable && st'.functionTable[at] == Aggregate(id) && OtherFunctionsKept(st, st', at)
                 && st'.collationTable == st.collationTable && Held(st', WrapperRef(id))
            else st' == st
  {
    var defined, at := Taken(w, st, DefineFunction(key, id, ok)), FunctionAt(st.conn, key);
    assert st.open && ok ==> at in defined.functionTable && RefOf(defined.functionTable[at]) == Obj(id);
    var added := Taken(w, st, DefineAggregator(key, id, ok));
    assert st.open && ok && -1 <= key.arity <= 127 ==> at in added.functionTable && RefOf(added.functionTable[at]) == WrapperRef(id);
  }

  /** What an accepted registration leaves on the Ruby side: the instance variable's collection has it too, for
      a collation under the name as given, nil included, and the struct points at that collection; wrappers
      are listed after those there were. */
  lemma RegistrationIsListed<S, R, V>(w: World<S, R, V>, st: State<S, V>, key: FunctionKey, id: nat, name: string,
                                      comparator: Option<nat>)
    requires st.open
    ensures var st' := Taken(w, st, DefineFunction(key, id, true));
            && st'.functionsVar == st.functionsVar + [id] && st'.functions == Some(st'.functionsVar)
            && st'.collationsVar == st.collationsVar && st'.collations == st.collations && st'.aggregators == st.aggregators
    ensures var st' := Taken(w, st, Collation(name, comparator, true));
            && name in st'.collationsVar && st'.collationsVar[name] == comparator && st'.collations == Some(st'.collationsVar)
            && (forall other :: other != name ==> (other in st'.collationsVar <==> other in st.collationsVar)
                                                  && (other in st.collationsVar ==> st'.collationsVar[other] == st.collationsVar[other]))
            && st'.functionsVar == st.functionsVar && st'.functions == st.functions && st'.aggregators == st.aggregators
    ensures -1 <= key.arity <= 127 ==>
              Listed(Taken(w, st, DefineAggregator(key, id, true)).aggregators) == Listed(st.aggregators) + [id]
  {
  }

  lemma CollationReachesSqlite<S, R, V>(w: World<S, R, V>, st: State<S, V>, name: string, comparator: Option<nat>, ok: bool)
    ensures var st', at := Taken(w, st, Collation(name, comparator, ok)), CollationAt(st.conn, w.fold(name));
            if st.open && ok
            then (at in st'.collationTable <==> comparator.Some?)
                 && (comparator.Some? ==> st'.collationTable[at] == comparator.value && Held(st', Obj(comparator.value)))
                 && OtherCollationsKept(st, st', at) && st'.functionTable == st.functionTable
            else st' == st
  {
  }

  /** A handler set on an open object is the one called from then on; nil takes it away; the others stay. */
  lemma HandlerIsSet<S, R, V>(w: World<S, R, V>, st: State<S, V>, hook: Hook, handler: Option<nat>)
    ensures var st' := Taken(w, st, SetHook(hook, handler));
            if !st.open then st' == st
            else
              && (hook in st'.hooks <==> handler.Some?)
              && (handler.Some? ==> st'.hooks[hook] == handler.value && Held(st', Obj(handler.value)))
              && forall other :: other != hook ==> (other in st'.hooks <==> other in st.hooks)
                                                   && (other in st.hooks ==> st'.hooks[other] == st.hooks[other])
  {
  }

  /** Close leaves SQLite's tables, for the statements still open; a freed connection's tables go, and no
      other's; a second `initialize` takes effect on a closed object only, opens a connection with empty
      tables if SQLite never had one of that number, and sets both instance variables anew. */
  lemma ConnectionsComeAndGo<S, R, V>(w: World<S, R, V>, st: State<S, V>, conn: nat, ok: bool)
    ensures var st' := Taken(w, st, Close);
            !st'.open && st'.functionTable == st.functionTable && st'.collationTable == st.collationTable
    ensures var st' := Taken(w, st, Free(conn));
            && (forall at :: at in st'.functionTable <==> at in st.functionTable && at.conn != conn)
            && (forall at :: at in st'.functionTable ==> st'.functionTable[at] == st.functionTable[at])
            && (forall at :: at in st'.collationTable <==> at in st.collationTable && at.conn != conn)
            && (forall at :: at in st'.collationTable ==> st'.collationTable[at] == st.collationTable[at])
    ensures var st' := Taken(w, st, Step.Initialize(ok));
            if st.open || !ok then st' == st
            else st'.open && st'.conn == st.conn + 1 && st'.functionsVar == [] && st'.collationsVar == map[]
                 && st'.functionTable == st.functionTable && st'.collationTable == st.collationTable
                 && st'.functions == st.functions && st'.collations == st.collations && st'.aggregators == st.aggregators
  {
  }

  // ---------------------------------------------------------------------------
  // Held and pinned

  /** A value SQLite holds, in a table or a context, or calls through the struct. */
  ghost predicate Held<S, V>(st: State<S, V>, ref: Ref) {
    || (exists at :: at in st.functionTable && ref == RefOf(st.functionTable[at]))
    || (exists at :: at in st.collationTable && ref == Obj(st.collationTable[at]))
    || (exists hook :: hook in st.hooks && ref == Obj(st.hooks[hook]))
    || (ref.InstanceRef? && exists k: nat :: Agg.SlotOf(st.agg, k) == Agg.Held(ref.inst))
  }

  function RefOf(data: UserData): Ref {
    match data case Scalar(block) => Obj(block) case Aggregate(aw) => WrapperRef(aw)
  }

  ghost predicate InHash(hash: map<string, Option<nat>>, id: nat) {
    exists name :: name in hash && hash[name] == Some(id)
  }

  /** What `database_mark` marks. */
  ghost predicate Pinned<S, V>(st: State<S, V>, ref: Ref) {
    match ref
    case Obj(id) =>
      || id in st.hooks.Values
      || id in Listed(st.functions)
      || InHash(Entries(st.collations), id)
    case WrapperRef(aw) => aw in Listed(st.aggregators)
    case InstanceRef(inst) => exists aw :: aw in Listed(st.aggregators) && inst in Agg.InFlight(st.agg, aw)
    case FunctionsArray => st.functions.Some?
    case CollationsHash => st.collations.Some?
    case AggregatorsArray => st.aggregators.Some?
    case InstancesArray(aw) => aw in Listed(st.aggregators)
  }

  // ---------------------------------------------------------------------------
  // The invariant

  /** A block of the current connection is in the instance variable's list, which is then the struct's. */
  ghost predicate FunctionOk<S, V>(st: State<S, V>, at: FunctionAt)
    requires at in st.functionTable
  {
    && at.conn <= st.conn
    && match st.functionTable[at]
       case Scalar(block) => at.conn == st.conn ==> st.functions == Some(st.functionsVar) && block in st.functionsVar
       case Aggregate(aw) => aw in Listed(st.aggregators)
  }

  /** A comparator of the current connection stands in the instance variable's hash, under some name that
      SQLite reads as this one, and the hash is the struct's. */
  ghost predicate CollationOk<S, R, V>(w: World<S, R, V>, st: State<S, V>, at: CollationAt)
    requires at in st.collationTable
  {
    && at.conn <= st.conn
    && (at.conn == st.conn ==>
          && st.collations == Some(st.collationsVar)
          && exists name :: name in st.collationsVar && w.fold(name) == at.name
                            && st.collationsVar[name] == Some(st.collationTable[at]))
  }

  /** A context that was called back belongs to a listed wrapper, and its instance, if it has one, was made
      for it and is in the wrapper's array. */
  ghost predicate SlotOk<S, R, V>(w: World<S, R, V>, st: State<S, V>, k: nat) {
    var slot, aw := Agg.SlotOf(st.agg, k), w.wrapperOf(k);
    && (slot != Agg.Zero ==> aw in Listed(st.aggregators))
    && (slot.Held? ==> slot.inst < |st.agg.instances| && st.agg.instances[slot.inst].context == k
                       && slot.inst in Agg.InFlight(st.agg, aw))
  }

  ghost predicate ContextsOk<S, R, V>(w: World<S, R, V>, st: State<S, V>) {
    forall k: nat :: SlotOk(w, st, k)
  }

  ghost predicate Inv<S, R, V>(w: World<S, R, V>, st: State<S, V>) {
    && (forall at :: at in st.functionTable ==> FunctionOk(st, at))
    && (forall at :: at in st.collationTable ==> CollationOk(w, st, at))
    && ContextsOk(w, st)
  }

  lemma ContextsKept<S, R, V>(w: World<S, R, V>, st: State<S, V>, st': State<S, V>)
    requires ContextsOk(w, st) && st'.agg == st.agg
    requires forall aw :: aw in Listed(st.aggregators) ==> aw in Listed(st'.aggregators)
    ensures ContextsOk(w, st')
  {
    forall k: nat ensures SlotOk(w, st', k) {
      assert SlotOk(w, st, k);
    }
  }

  lemma CollationKeeps<S, R, V>(w: World<S, R, V>, st: State<S, V>, step: Step<R>)
    requires step.Collation? && Inv(w, st)
    ensures Inv(w, Taken(w, st, step))
  {
    ContextsKept(w, st, Taken(w, st, step));
  }

  lemma RegistrationKeeps<S, R, V>(w: World<S, R, V>, st: State<S, V>, step: Step<R>)
    requires (step.DefineFunction? || step.DefineAggregator?) && Inv(w, st)
    ensures Inv(w, Taken(w, st, step))
  {
    ContextsKept(w, st, Taken(w, st, step));
  }

  /** What a callback may do, however it ends: its own context gets an instance, which is listed, or loses
      the one it has. */
  ghost predicate SlotsAfter<S, V>(agg: Agg.State<S, V>, agg': Agg.State<S, V>, context: nat, aw: nat) {
    && |agg.instances| <= |agg'.instances|
    && (forall i :: 0 <= i < |agg.instances| ==> agg'.instances[i].context == agg.instances[i].context)
    && (forall k: nat :: k != context ==> Agg.SlotOf(agg', k) == Agg.SlotOf(agg, k))
    && (forall v: nat, i: nat :: i in Agg.InFlight(agg, v) ==> i in Agg.InFlight(agg', v) || TakenOut(agg, agg', context, i))
    && (Agg.SlotOf(agg', context).Held? ==>
          Agg.SlotOf(agg', context) == Agg.SlotOf(agg, context) || MadeFor(agg', context, aw))
  }

  ghost predicate TakenOut<S, V>(agg: Agg.State<S, V>, agg': Agg.State<S, V>, context: nat, i: nat) {
    Agg.SlotOf(agg, context) == Agg.Held(i) && Agg.SlotOf(agg', context) == Agg.Nil
  }

  ghost predicate MadeFor<S, V>(agg: Agg.State<S, V>, context: nat, aw: nat) {
    var slot := Agg.SlotOf(agg, context);
    slot.Held? && slot.inst < |agg.instances| && agg.instances[slot.inst].context == context && slot.inst in Agg.InFlight(agg, aw)
  }

  lemma CreatedSlots<S, R, V>(agg: Agg.State<S, V>, handler: Agg.Handler<S, R, V>, context: nat, aw: nat)
    ensures SlotsAfter(agg, Agg.WithInstance(agg, handler, context, aw).0, context, aw)
  {
    var agg' := Agg.WithInstance(agg, handler, context, aw).0;
    if Agg.SlotOf(agg, context).Zero? {
      var inst := |agg.instances|;
      assert agg'.inFlight == agg.inFlight[aw := Agg.InFlight(agg, aw) + [inst]];
      assert agg'.slots == agg.slots[context := Agg.Held(inst)];
      assert MadeFor(agg', context, aw);
      forall k: nat | k != context ensures Agg.SlotOf(agg', k) == Agg.SlotOf(agg, k) {
      }
      forall v: nat, i: nat | i in Agg.InFlight(agg, v) ensures i in Agg.InFlight(agg', v) {
      }
    }
  }

  /** Where only the instances' states, the results and the calls differ. */
  lemma QuietSlots<S, V>(agg: Agg.State<S, V>, agg': Agg.State<S, V>, context: nat, aw: nat)
    requires agg'.slots == agg.slots && agg'.inFlight == agg.inFlight && |agg'.instances| == |agg.instances|
    requires forall i :: 0 <= i < |agg.instances| ==> agg'.instances[i].context == agg.instances[i].context
    ensures SlotsAfter(agg, agg', context, aw)
  {
    forall k: nat ensures Agg.SlotOf(agg', k) == Agg.SlotOf(agg, k) {
    }
    forall v: nat ensures Agg.InFlight(agg', v) == Agg.InFlight(agg, v) {
    }
  }

  lemma DestroyedSlots<S, V>(agg: Agg.State<S, V>, context: nat, aw: nat)
    ensures SlotsAfter(agg, Agg.WithoutInstance(agg, context, aw), context, aw)
  {
    var agg', slot := Agg.WithoutInstance(agg, context, aw), Agg.SlotOf(agg, context);
    if slot.Held? && slot.inst < |agg.instances| && slot.inst in Agg.InFlight(agg, aw) {
      assert agg'.inFlight == agg.inFlight[aw := Agg.Without(Agg.InFlight(agg, aw), slot.inst)];
      assert agg'.slots == agg.slots[context := Agg.Nil];
      forall k: nat | k != context ensures Agg.SlotOf(agg', k) == Agg.SlotOf(agg, k) {
      }
      forall v: nat, i: nat | i in Agg.InFlight(agg, v)
        ensures i in Agg.InFlight(agg', v) || TakenOut(agg, agg', context, i)
      {
      }
    } else {
      QuietSlots(agg, agg', context, aw);
    }
  }

  /** A callback's own slot, and no other, may change; and its wrapper is listed by then. */
  lemma SlotsKept<S, R, V>(w: World<S, R, V>, st: State<S, V>, agg': Agg.State<S, V>, context: nat)
    requires ContextsOk(w, st) && SlotsAfter(st.agg, agg', context, w.wrapperOf(context))
    requires w.wrapperOf(context) in Listed(st.aggregators)
    ensures ContextsOk(w, st.(agg := agg'))
  {
    forall k: nat ensures SlotOk(w, st.(agg := agg'), k) {
      assert SlotOk(w, st, k) && SlotOk(w, st, context);
      assert Agg.SlotOf(agg', k) == Agg.SlotOf(st.agg, k) || k == context;
      var slot := Agg.SlotOf(st.agg, k);
      if slot.Held? {
        assert agg'.instances[slot.inst].context == st.agg.instances[slot.inst].context;
        assert slot.inst in Agg.InFlight(agg', w.wrapperOf(k)) || TakenOut(st.agg, agg', context, slot.inst);
        assert TakenOut(st.agg, agg', context, slot.inst) ==> k == context;
      }
    }
  }

  lemma SteppedSlots<S, R, V>(w: World<S, R, V>, st: State<S, V>, context: nat, row: R)
    requires ContextsOk(w, st) && w.wrapperOf(context) in Listed(st.aggregators)
    ensures var aw := w.wrapperOf(context);
            ContextsOk(w, st.(agg := Agg.Stepped(st.agg, w.handlers(aw), context, aw, row)))
  {
    var aw := w.wrapperOf(context);
    CreatedSlots(st.agg, w.handlers(aw), context, aw);
    var (agg1, inst) := Agg.WithInstance(st.agg, w.handlers(aw), context, aw);
    SlotsKept(w, st, agg1, context);
    if inst.Some? && inst.value < |agg1.instances| {
      var agg2 := Agg.StepOn(agg1, w.handlers(aw), context, inst.value, row);
      QuietSlots(agg1, agg2, context, aw);
      SlotsKept(w, st.(agg := agg1), agg2, context);
    }
  }

  lemma FinalizedSlots<S, R, V>(w: World<S, R, V>, st: State<S, V>, context: nat)
    requires ContextsOk(w, st) && w.wrapperOf(context) in Listed(st.aggregators)
    ensures var aw := w.wrapperOf(context);
            ContextsOk(w, st.(agg := Agg.Finalized(st.agg, w.handlers(aw), context, aw)))
  {
    var aw := w.wrapperOf(context);
    var handler := w.handlers(aw);
    CreatedSlots(st.agg, handler, context, aw);
    var (agg1, inst) := Agg.WithInstance(st.agg, handler, context, aw);
    SlotsKept(w, st, agg1, context);
    if inst.Some? && inst.value < |agg1.instances| {
      FinalSlots(w, st.(agg := agg1), context, inst.value);
    }
  }

  /** xFinal on an instance: it reports and destroys, or an exception takes it past the clean-up. */
  lemma FinalSlots<S, R, V>(w: World<S, R, V>, st: State<S, V>, context: nat, inst: nat)
    requires ContextsOk(w, st) && w.wrapperOf(context) in Listed(st.aggregators) && inst < |st.agg.instances|
    ensures var aw := w.wrapperOf(context);
            ContextsOk(w, st.(agg := Agg.FinalOn(st.agg, w.handlers(aw), context, aw, inst)))
  {
    var aw := w.wrapperOf(context);
    var handler, instance := w.handlers(aw), st.agg.instances[inst];
    if instance.excStatus != 0 || instance.handler.None? {
      ReportedSlots(w, st, st.agg, context, Agg.Error);
    } else {
      var value := handler.finish(instance.handler.value);
      var called := st.agg.(errinfo := Agg.ExceptionOf(value, st.agg.errinfo),
                            calls := st.agg.calls + [Agg.Call(context, Agg.Finalize, Agg.RaisedBy(value))]);
      if value.Raised? {
        ReportedSlots(w, st, called, context, Agg.Error);
      } else if handler.convertible(value.value) {
        ReportedSlots(w, st, called, context, Agg.Value(value.value));
      } else {
        QuietSlots(st.agg, called.(escaped := true), context, aw);
        SlotsKept(w, st, called.(escaped := true), context);
      }
    }
  }

  lemma ReportedSlots<S, R, V>(w: World<S, R, V>, st: State<S, V>, called: Agg.State<S, V>, context: nat, reported: Agg.Reported<V>)
    requires ContextsOk(w, st) && w.wrapperOf(context) in Listed(st.aggregators)
    requires called.slots == st.agg.slots && called.inFlight == st.agg.inFlight && called.instances == st.agg.instances
    ensures var agg := called.(results := called.results[context := reported]);
            ContextsOk(w, st.(agg := Agg.WithoutInstance(agg, context, w.wrapperOf(context))))
  {
    var aw, agg := w.wrapperOf(context), called.(results := called.results[context := reported]);
    QuietSlots(st.agg, agg, context, aw);
    SlotsKept(w, st, agg, context);
    DestroyedSlots(agg, context, aw);
    SlotsKept(w, st.(agg := agg), Agg.WithoutInstance(agg, context, aw), context);
  }

  /** The contexts after a callback: the one called back belongs to a wrapper that is listed. */
  lemma CallbackContexts<S, R, V>(w: World<S, R, V>, st: State<S, V>, step: Step<R>)
    requires step.Callback? && ContextsOk(w, st) && Possible(w, st, step)
    requires forall at :: at in st.functionTable ==> FunctionOk(st, at)
    ensures ContextsOk(w, Taken(w, st, step))
  {
    var e := step.event;
    assert SlotOk(w, st, e.context);
    if Agg.SlotOf(st.agg, e.context) == Agg.Zero {
      var at :| at in st.functionTable && st.functionTable[at] == Aggregate(e.aw);
      assert FunctionOk(st, at);
    }
    match e
    case XStep(context, _, row) => SteppedSlots(w, st, context, row);
    case XFinal(context, _) => FinalizedSlots(w, st, context);
  }

  lemma CallbackKeeps<S, R, V>(w: World<S, R, V>, st: State<S, V>, step: Step<R>)
    requires step.Callback? && Inv(w, st) && Possible(w, st, step)
    ensures Inv(w, Taken(w, st, step))
  {
    CallbackContexts(w, st, step);
    TablesKept(w, st, Taken(w, st, step));
  }

  lemma TablesKept<S, R, V>(w: World<S, R, V>, st: State<S, V>, st': State<S, V>)
    requires forall at :: at in st.functionTable ==> FunctionOk(st, at)
    requires forall at :: at in st.collationTable ==> CollationOk(w, st, at)
    requires st'.(agg := st.agg) == st
    ensures forall at :: at in st'.functionTable ==> FunctionOk(st', at)
    ensures forall at :: at in st'.collationTable ==> CollationOk(w, st', at)
  {
    forall at | at in st'.functionTable ensures FunctionOk(st', at) {
      assert FunctionOk(st, at);
    }
    forall at | at in st'.collationTable ensures CollationOk(w, st', at) {
      assert CollationOk(w, st, at);
    }
  }

  lemma QuietStepKeeps<S, R, V>(w: World<S, R, V>, st: State<S, V>, step: Step<R>)
    requires (step.SetHook? || step.Close? || step.Initialize? || step.Free?) && Inv(w, st)
    ensures Inv(w, Taken(w, st, step))
  {
    var st' := Taken(w, st, step);
    ContextsKept(w, st, st');
    forall at | at in st'.functionTable ensures FunctionOk(st', at) {
      assert FunctionOk(st, at);
    }
    forall at | at in st'.collationTable ensures CollationOk(w, st', at) {
      assert CollationOk(w, st, at);
    }
  }

  lemma StepKeeps<S, R, V>(w: World<S, R, V>, st: State<S, V>, step: Step<R>)
    requires Inv(w, st) && Possible(w, st, step)
    ensures Inv(w, Taken(w, st, step))
  {
    match step
    case DefineFunction(_, _, _) => RegistrationKeeps(w, st, step);
    case DefineAggregator(_, _, _) => RegistrationKeeps(w, st, step);
    case Collation(_, _, _) => CollationKeeps(w, st, step);
    case Callback(_) => CallbackKeeps(w, st, step);
    case _ => QuietStepKeeps(w, st, step);
  }

  lemma {:induction false} RunKeeps<S, R, V>(w: World<S, R, V>, steps: seq<Step<R>>)
    requires PossibleRun(w, steps)
    ensures Inv(w, After(w, steps))
  {
    if steps != [] {
      RunKeeps(w, steps[..|steps| - 1]);
      StepKeeps(w, After(w, steps[..|steps| - 1]), steps[|steps| - 1]);
    }
  }

  // ---------------------------------------------------------------------------
  // What is pinned in every run

  /** The tables of one connection hold it, or a context does, or it is called through the struct. */
  ghost predicate HeldBy<S, V>(st: State<S, V>, conn: nat, ref: Ref) {
    || (exists at :: at in st.functionTable && at.conn == conn && ref == RefOf(st.functionTable[at]))
    || (exists at :: at in st.collationTable && at.conn == conn && ref == Obj(st.collationTable[at]))
    || (exists hook :: hook in st.hooks && ref == Obj(st.hooks[hook]))
    || (ref.InstanceRef? && exists k: nat :: Agg.SlotOf(st.agg, k) == Agg.Held(ref.inst))
  }

  /** In every reachable state, whatever the connection opened last holds is pinned, after a deferred close
      too, however many Ruby names SQLite reads as one collation; and so are all handlers and live
      aggregate instances. */
  lemma CurrentIsPinned<S, R, V>(w: World<S, R, V>, steps: seq<Step<R>>, ref: Ref)
    requires PossibleRun(w, steps) && HeldBy(After(w, steps), After(w, steps).conn, ref)
    ensures Pinned(After(w, steps), ref)
  {
    RunKeeps(w, steps);
    var st := After(w, steps);
    if at :| at in st.functionTable && at.conn == st.conn && ref == RefOf(st.functionTable[at]) {
      assert FunctionOk(st, at);
    } else if at :| at in st.collationTable && at.conn == st.conn && ref == Obj(st.collationTable[at]) {
      assert CollationOk(w, st, at);
    } else if hook :| hook in st.hooks && ref == Obj(st.hooks[hook]) {
      assert st.hooks[hook] in st.hooks.Values;
    } else {
      var k: nat :| Agg.SlotOf(st.agg, k) == Agg.Held(ref.inst);
      InstancePinned(w, st, k);
    }
  }

  /** Of what earlier connections hold, the aggregators' wrappers are pinned in every reachable state: their
      list is never set anew. */
  lemma WrappersArePinned<S, R, V>(w: World<S, R, V>, steps: seq<Step<R>>, ref: Ref)
    requires PossibleRun(w, steps) && Held(After(w, steps), ref) && !ref.Obj?
    ensures Pinned(After(w, steps), ref)
  {
    RunKeeps(w, steps);
    var st := After(w, steps);
    if at :| at in st.functionTable && ref == RefOf(st.functionTable[at]) {
      assert FunctionOk(st, at);
    } else {
      CurrentIsPinned(w, steps, ref);
    }
  }

  lemma InstancePinned<S, R, V>(w: World<S, R, V>, st: State<S, V>, k: nat)
    requires ContextsOk(w, st) && Agg.SlotOf(st.agg, k).Held?
    ensures w.wrapperOf(k) in Listed(st.aggregators) && Agg.SlotOf(st.agg, k).inst in Agg.InFlight(st.agg, w.wrapperOf(k))
  {
    assert SlotOk(w, st, k);
  }

  // ---------------------------------------------------------------------------
  // Earlier connections

  /** A registration after a second `initialize`, while a connection opened earlier still holds values of
      that kind. */
  predicate Disturbs<S, R, V>(st: State<S, V>, step: Step<R>) {
    && st.open
    && match step
       case DefineFunction(_, _, ok) =>
         ok && exists at :: at in st.functionTable && at.conn != st.conn && st.functionTable[at].Scalar?
       case Collation(_, _, ok) => ok && exists at :: at in st.collationTable && at.conn != st.conn
       case _ => false
  }

  predicate Undisturbed<S, R, V>(w: World<S, R, V>, steps: seq<Step<R>>) {
    steps == [] || (Undisturbed(w, steps[..|steps| - 1]) && !Disturbs(After(w, steps[..|steps| - 1]), steps[|steps| - 1]))
  }

  /** Blocks and comparators of all connections are in the struct's collections. */
  ghost predicate Kept<S, V>(st: State<S, V>) {
    && (forall at :: at in st.functionTable && st.functionTable[at].Scalar? ==> st.functionTable[at].block in Listed(st.functions))
    && (forall at :: at in st.collationTable ==> InHash(Entries(st.collations), st.collationTable[at]))
  }

  lemma UndisturbedStepKeeps<S, R, V>(w: World<S, R, V>, st: State<S, V>, step: Step<R>)
    requires Inv(w, st) && Possible(w, st, step) && Kept(st) && !Disturbs(st, step)
    ensures Kept(Taken(w, st, step))
  {
    var st' := Taken(w, st, step);
    StepKeeps(w, st, step);
    forall at | at in st'.functionTable && st'.functionTable[at].Scalar?
      ensures st'.functionTable[at].block in Listed(st'.functions)
    {
      assert FunctionOk(st', at);
    }
    forall at | at in st'.collationTable ensures InHash(Entries(st'.collations), st'.collationTable[at]) {
      assert CollationOk(w, st', at);
    }
  }

  lemma {:induction false} UndisturbedKeeps<S, R, V>(w: World<S, R, V>, steps: seq<Step<R>>)
    requires PossibleRun(w, steps) && Undisturbed(w, steps)
    ensures Kept(After(w, steps))
  {
    if steps != [] {
      UndisturbedKeeps(w, steps[..|steps| - 1]);
      RunKeeps(w, steps[..|steps| - 1]);
      UndisturbedStepKeeps(w, After(w, steps[..|steps| - 1]), steps[|steps| - 1]);
    }
  }

  /** Whatever SQLite holds, in the tables of any connection, is pinned, as long as no function was registered
      after a second `initialize` while an earlier connection still held a block, nor a collation while
      one still held a comparator. */
  lemma HeldIsPinned<S, R, V>(w: World<S, R, V>, steps: seq<Step<R>>, ref: Ref)
    requires PossibleRun(w, steps) && Undisturbed(w, steps) && Held(After(w, steps), ref)
    ensures Pinned(After(w, steps), ref)
  {
    UndisturbedKeeps(w, steps);
    var st := After(w, steps);
    if at :| at in st.functionTable && ref == RefOf(st.functionTable[at]) {
      if st.functionTable[at].Aggregate? { WrappersArePinned(w, steps, ref); }
    } else if at :| at in st.collationTable && ref == Obj(st.collationTable[at]) {
      assert InHash(Entries(st.collations), st.collationTable[at]);
    } else {
      CurrentIsPinned(w, steps, ref);
    }
  }

  /** What an object was handed over as, and for which connection. */
  datatype Kind = Block(conn: nat) | Comparator(conn: nat) | Handler

  function Handed<R>(step: Step<R>): Option<nat> {
    match step
    case DefineFunction(_, block, _) => Some(block)
    case Collation(_, comparator, _) => comparator
    case SetHook(_, handler) => handler
    case _ => None
  }

  function KindOf<R>(step: Step<R>, conn: nat): Kind {
    if step.DefineFunction? then Block(conn) else if step.Collation? then Comparator(conn) else Handler
  }

  function Kinds<S, R, V>(w: World<S, R, V>, steps: seq<Step<R>>): map<nat, Kind> {
    if steps == [] then map[]
    else
      var before, last := steps[..|steps| - 1], steps[|steps| - 1];
      var kinds := Kinds(w, before);
      if Handed(last).Some? then kinds[Handed(last).value := KindOf(last, After(w, before).conn)] else kinds
  }

  /** No object is handed over twice. */
  predicate Unshared<S, R, V>(w: World<S, R, V>, steps: seq<Step<R>>) {
    steps == [] ||
    (var before, last := steps[..|steps| - 1], steps[|steps| - 1];
     Unshared(w, before) && (Handed(last).Some? ==> Handed(last).value !in Kinds(w, before)))
  }

  ghost predicate IsKind(kinds: map<nat, Kind>, id: nat, kind: Kind) {
    id in kinds && kinds[id] == kind
  }

  /** Where an object turns up, it is of the kind it was handed over as. */
  ghost predicate KindsOk<S, V>(st: State<S, V>, kinds: map<nat, Kind>) {
    && (forall at :: at in st.functionTable && st.functionTable[at].Scalar? ==>
          IsKind(kinds, st.functionTable[at].block, Block(at.conn)))
    && (forall at :: at in st.collationTable ==> IsKind(kinds, st.collationTable[at], Comparator(at.conn)))
    && (forall id :: id in st.functionsVar ==> IsKind(kinds, id, Block(st.conn)))
    && (forall id :: id in Listed(st.functions) ==> id in kinds && kinds[id].Block?)
    && (forall name :: name in st.collationsVar && st.collationsVar[name].Some? ==>
          IsKind(kinds, st.collationsVar[name].value, Comparator(st.conn)))
    && (forall name :: name in Entries(st.collations) && Entries(st.collations)[name].Some? ==>
          Entries(st.collations)[name].value in kinds && kinds[Entries(st.collations)[name].value].Comparator?)
    && (forall hook :: hook in st.hooks ==> IsKind(kinds, st.hooks[hook], Handler))
  }

  lemma KindsGrow<S, V>(st: State<S, V>, kinds: map<nat, Kind>, more: map<nat, Kind>)
    requires KindsOk(st, kinds) && forall id :: id in kinds ==> IsKind(more, id, kinds[id])
    ensures KindsOk(st, more)
  {
  }

  lemma KindsOfFunctions<S, R, V>(w: World<S, R, V>, st: State<S, V>, step: Step<R>, kinds: map<nat, Kind>)
    requires KindsOk(st, kinds) && step.DefineFunction? && IsKind(kinds, step.block, Block(st.conn))
    ensures KindsOk(Taken(w, st, step), kinds)
  {
    var st' := Taken(w, st, step);
    forall id | id in st'.functionsVar ensures IsKind(kinds, id, Block(st'.conn)) {
    }
  }

  lemma KindsOfCollations<S, R, V>(w: World<S, R, V>, st: State<S, V>, step: Step<R>, kinds: map<nat, Kind>)
    requires KindsOk(st, kinds) && step.Collation?
    requires step.comparator.Some? ==> IsKind(kinds, step.comparator.value, Comparator(st.conn))
    ensures KindsOk(Taken(w, st, step), kinds)
  {
    var st' := Taken(w, st, step);
    forall name | name in st'.collationsVar && st'.collationsVar[name].Some?
      ensures IsKind(kinds, st'.collationsVar[name].value, Comparator(st'.conn))
    {
    }
  }

  lemma KindsOtherwise<S, R, V>(w: World<S, R, V>, st: State<S, V>, step: Step<R>, kinds: map<nat, Kind>)
    requires KindsOk(st, kinds) && !step.DefineFunction? && !step.Collation?
    requires step.SetHook? && step.handler.Some? ==> IsKind(kinds, step.handler.value, Handler)
    ensures KindsOk(Taken(w, st, step), kinds)
  {
  }

  lemma KindsStep<S, R, V>(w: World<S, R, V>, st: State<S, V>, step: Step<R>, kinds: map<nat, Kind>)
    requires KindsOk(st, kinds) && (Handed(step).Some? ==> Handed(step).value !in kinds)
    ensures KindsOk(Taken(w, st, step),
                    if Handed(step).Some? then kinds[Handed(step).value := KindOf(step, st.conn)] else kinds)
  {
    var more := if Handed(step).Some? then kinds[Handed(step).value := KindOf(step, st.conn)] else kinds;
    KindsGrow(st, kinds, more);
    match step
    case DefineFunction(_, _, _) => KindsOfFunctions(w, st, step, more);
    case Collation(_, _, _) => KindsOfCollations(w, st, step, more);
    case _ => KindsOtherwise(w, st, step, more);
  }

  lemma {:induction false} KindsKept<S, R, V>(w: World<S, R, V>, steps: seq<Step<R>>)
    requires Unshared(w, steps)
    ensures KindsOk(After(w, steps), Kinds(w, steps))
  {
    if steps != [] {
      KindsKept(w, steps[..|steps| - 1]);
      KindsStep(w, After(w, steps[..|steps| - 1]), steps[|steps| - 1], Kinds(w, steps[..|steps| - 1]));
    }
  }

  /** A disturbing registration leaves something held that is not pinned, if it is found nowhere else. */
  lemma DisturbanceUnpins<S, R, V>(w: World<S, R, V>, st: State<S, V>, step: Step<R>, kinds: map<nat, Kind>) returns (ref: Ref)
    requires KindsOk(st, kinds) && (Handed(step).Some? ==> Handed(step).value !in kinds) && Disturbs(st, step)
    ensures Held(Taken(w, st, step), ref) && !Pinned(Taken(w, st, step), ref)
  {
    var st' := Taken(w, st, step);
    var more := if Handed(step).Some? then kinds[Handed(step).value := KindOf(step, st.conn)] else kinds;
    KindsStep(w, st, step, kinds);
    if step.DefineFunction? {
      var at :| at in st.functionTable && at.conn != st.conn && st.functionTable[at].Scalar?;
      ref := Obj(st.functionTable[at].block);
      assert at in st'.functionTable && st'.functionTable[at] == st.functionTable[at];
      OldBlockNotPinned(st', more, at);
    } else {
      var at :| at in st.collationTable && at.conn != st.conn;
      ref := Obj(st.collationTable[at]);
      assert at in st'.collationTable && st'.collationTable[at] == st.collationTable[at];
      OldComparatorNotPinned(st', more, at);
    }
  }

  lemma OldBlockNotPinned<S, V>(st: State<S, V>, kinds: map<nat, Kind>, at: FunctionAt)
    requires KindsOk(st, kinds) && st.functions == Some(st.functionsVar)
    requires at in st.functionTable && st.functionTable[at].Scalar? && at.conn != st.conn
    ensures !Pinned(st, Obj(st.functionTable[at].block))
  {
  }

  lemma OldComparatorNotPinned<S, V>(st: State<S, V>, kinds: map<nat, Kind>, at: CollationAt)
    requires KindsOk(st, kinds) && st.collations == Some(st.collationsVar)
    requires at in st.collationTable && at.conn != st.conn
    ensures !Pinned(st, Obj(st.collationTable[at]))
  {
  }

  ghost predicate AllPinned<S, V>(st: State<S, V>) {
    forall ref :: Held(st, ref) ==> Pinned(st, ref)
  }

  /** All that is held is pinned, all the way. */
  ghost predicate AlwaysPinned<S, R, V>(w: World<S, R, V>, steps: seq<Step<R>>) {
    AllPinned(After(w, steps)) && (steps == [] || AlwaysPinned(w, steps[..|steps| - 1]))
  }

  /** The condition is exact: an undisturbed run keeps everything pinned all the way, and one in which no
      object is handed over twice does so only if it is undisturbed. */
  lemma {:induction false} PinnedIffUndisturbed<S, R, V>(w: World<S, R, V>, steps: seq<Step<R>>)
    requires PossibleRun(w, steps)
    ensures Undisturbed(w, steps) ==> AlwaysPinned(w, steps)
    ensures Unshared(w, steps) ==> (AlwaysPinned(w, steps) <==> Undisturbed(w, steps))
  {
    if steps != [] {
      var before, last := steps[..|steps| - 1], steps[|steps| - 1];
      PinnedIffUndisturbed(w, before);
      if Unshared(w, steps) && Disturbs(After(w, before), last) {
        KindsKept(w, before);
        var ref := DisturbanceUnpins(w, After(w, before), last, Kinds(w, before));
      }
    }
    if Undisturbed(w, steps) {
      forall ref | Held(After(w, steps), ref) ensures Pinned(After(w, steps), ref) {
        HeldIsPinned(w, steps, ref);
      }
    }
  }

  /** An object that is initialized once is never disturbed. */
  lemma {:induction false} OneConnectionIsUndisturbed<S, R, V>(w: World<S, R, V>, steps: seq<Step<R>>)
    requires PossibleRun(w, steps) && forall i :: 0 <= i < |steps| ==> !steps[i].Initialize?
    ensures Undisturbed(w, steps) && After(w, steps).conn == 0
  {
    if steps != [] {
      var before := steps[..|steps| - 1];
      OneConnectionIsUndisturbed(w, before);
      RunKeeps(w, before);
      FirstConnectionUndisturbed(w, After(w, before), steps[|steps| - 1]);
    }
  }

  lemma FirstConnectionUndisturbed<S, R, V>(w: World<S, R, V>, st: State<S, V>, step: Step<R>)
    requires Inv(w, st) && st.conn == 0 && !step.Initialize?
    ensures !Disturbs(st, step) && Taken(w, st, step).conn == 0
  {
    forall at | at in st.functionTable ensures at.conn == 0 { assert FunctionOk(st, at); }
    forall at | at in st.collationTable ensures at.conn == 0 { assert CollationOk(w, st, at); }
  }

  lemma OneStepMore<S, R, V>(w: World<S, R, V>, steps: seq<Step<R>>, now: State<S, V>, step: Step<R>)
    requires PossibleRun(w, steps) && After(w, steps) == now && Possible(w, now, step)
    ensures PossibleRun(w, steps + [step]) && After(w, steps + [step]) == Taken(w, now, step)
  {
    assert (steps + [step])[..|steps|] == steps;
  }

  /** A function is registered, the object closed, and, since a statement keeps the connection, its table
      stays when the object is initialized again. */
  lemma RegisteredThenReopened<S, R, V>(w: World<S, R, V>, f: FunctionKey) returns (steps: seq<Step<R>>, st: State<S, V>)
    ensures PossibleRun(w, steps) && After(w, steps) == st
    ensures st == State(true, 1, map[FunctionAt(0, f) := Scalar(1)], map[], [], map[], map[], Some([1]), None, None, Agg.Initial())
  {
    var st0: State<S, V> := Start();
    var define, close, again := DefineFunction(f, 1, true), Close, Initialize(true);
    assert After(w, []) == st0;
    OneStepMore(w, [], st0, define);
    var run1, st1 := [] + [define], Taken(w, st0, define);
    assert st1.functionsVar == [1];
    OneStepMore(w, run1, st1, close);
    var run2, st2 := run1 + [close], Taken(w, st1, close);
    OneStepMore(w, run2, st2, again);
    steps, st := run2 + [again], Taken(w, st2, again);
  }

  /** Such a run: the object then gets another function, and the block of the first is no longer pinned. */
  lemma ReopenedObjectUnpins<S, R, V>(w: World<S, R, V>, f: FunctionKey, g: FunctionKey) returns (steps: seq<Step<R>>)
    ensures PossibleRun(w, steps)
    ensures Held(After(w, steps), Obj(1)) && !Pinned(After(w, steps), Obj(1))
  {
    var run, st := RegisteredThenReopened(w, f);
    var other := DefineFunction(g, 2, true);
    OneStepMore(w, run, st, other);
    steps := run + [other];
    assert Taken(w, st, other).functionsVar == [2];
    UnpinnedBlock(Taken(w, st, other), FunctionAt(0, f));
  }

  lemma UnpinnedBlock<S, V>(st: State<S, V>, at: FunctionAt)
    requires at in st.functionTable && st.functionTable[at] == Scalar(1)
    requires st.functions == Some([2]) && st.hooks == map[] && st.collations == None
    ensures Held(st, Obj(1)) && !Pinned(st, Obj(1))
  {
  }

  /** A run in which an aggregator is registered and called back: SQLite holds its wrapper and a live
      instance, and both are pinned. */
  lemma AggregatorInUse<S, R, V>(w: World<S, R, V>, key: FunctionKey, row: R) returns (steps: seq<Step<R>>)
    requires -1 <= key.arity <= 127
    ensures PossibleRun(w, steps) && Undisturbed(w, steps)
    ensures forall ref :: ref == WrapperRef(w.wrapperOf(0)) || ref == InstanceRef(0) ==>
              Held(After(w, steps), ref) && Pinned(After(w, steps), ref)
  {
    var aw := w.wrapperOf(0);
    var st0: State<S, V> := Start();
    var define, call := DefineAggregator(key, aw, true), Callback(Agg.XStep(0, aw, row));
    assert After(w, []) == st0;
    OneStepMore(w, [], st0, define);
    var run1, st1 := [] + [define], Taken(w, st0, define);
    RegistrationReachesSqlite(w, st0, key, aw, true);
    assert st1.functionTable[FunctionAt(0, key)] == Aggregate(aw);
    OneStepMore(w, run1, st1, call);
    steps := run1 + [call];
    var st := Taken(w, st1, call);
    FirstCallHolds(st1.agg, w.handlers, Agg.XStep(0, aw, row));
    assert FunctionAt(0, key) in st.functionTable && RefOf(st.functionTable[FunctionAt(0, key)]) == WrapperRef(aw);
    assert Agg.SlotOf(st.agg, 0) == Agg.Held(0);
    OneConnectionIsUndisturbed(w, steps);
    HeldIsPinned(w, steps, WrapperRef(aw));
    HeldIsPinned(w, steps, InstanceRef(0));
  }

  lemma FirstCallHolds<S, R, V>(agg: Agg.State<S, V>, handlers: Agg.Handlers<S, R, V>, event: Agg.Event<R>)
    requires agg == Agg.Initial() && event.XStep?
    ensures Agg.SlotOf(Agg.Handled(agg, handlers, event), event.context) == Agg.Held(0)
  {
  }

  // ---------------------------------------------------------------------------
  // The C functions

  class Database<S, R, V> {
    const world: World<S, R, V>
    var open: bool
    var conn: nat
    var functionTable: map<FunctionAt, UserData>
    var collationTable: map<CollationAt, nat>
    var functionsVar: seq<nat>
    var collationsVar: map<string, Option<nat>>
    var hooks: map<Hook, nat>
    var functions: Option<seq<nat>>
    var collations: Option<map<string, Option<nat>>>
    var aggregators: Option<seq<nat>>
    var inFlight: map<nat, seq<nat>>
    ghost var agg: Agg.State<S, V>

    ghost function Now(): State<S, V>
      reads this
    {
      State(open, conn, functionTable, collationTable, functionsVar, collationsVar, hooks, functions, collations, aggregators, agg)
    }

    ghost predicate Valid()
      reads this
    {
      inFlight == agg.inFlight
    }

    constructor (world: World<S, R, V>)
      ensures Valid() && this.world == world && Now() == Start()
    {
      this.world, open, conn := world, true, 0;
      functionTable, collationTable, hooks, functionsVar, collationsVar := map[], map[], map[], [], map[];
      functions, collations, aggregators, inFlight := None, None, None, map[];
      agg := Agg.Initial();
    }

    /** `initialize` once more, as far as it concerns the collections. */
    method Initialize(ok: bool) returns (raised: bool)
      requires Valid()
      modifies `open, `conn, `functionsVar, `collationsVar
      ensures Valid() && Now() == Taken(world, old(Now()), Step.Initialize(ok))
      ensures raised <==> old(open) || !ok
    {
      if open { return true; }
      if !ok { return true; }
      open, conn := true, conn + 1;
      collationsVar := map[];
      functionsVar := [];
      return false;
    }

    method DefineFunctionWithFlags(key: FunctionKey, block: nat, ok: bool) returns (raised: bool)
      requires Valid()
      modifies `functionTable, `functionsVar, `functions
      ensures Valid() && Now() == Taken(world, old(Now()), DefineFunction(key, block, ok))
      ensures raised <==> !open || !ok
    {
      if !open { return true; }
      if !ok { return true; }
      functionTable := functionTable[FunctionAt(conn, key) := Scalar(block)];
      functionsVar := functionsVar + [block];
      functions := Some(functionsVar);
      return false;
    }

    method DefineAggregator2(key: FunctionKey, aw: nat, ok: bool) returns (raised: bool)
      requires Valid()
      modifies `functionTable, `aggregators
      ensures Valid() && Now() == Taken(world, old(Now()), DefineAggregator(key, aw, ok))
      ensures raised <==> !open || key.arity < -1 || key.arity > 127 || !ok
    {
      if !open { return true; }
      if key.arity < -1 || key.arity > 127 { return true; }
      if !ok { return true; }
      functionTable := functionTable[FunctionAt(conn, key) := Aggregate(aw)];
      aggregators := Some(Listed(aggregators) + [aw]);
      return false;
    }

    method CreateCollation(name: string, comparator: Option<nat>, ok: bool) returns (raised: bool)
      requires Valid()
      modifies `collationTable, `collationsVar, `collations
      ensures Valid() && Now() == Taken(world, old(Now()), Collation(name, comparator, ok))
      ensures raised <==> !open || !ok
    {
      if !open { return true; }
      if !ok { return true; }
      if comparator.Some? {
        collationTable := collationTable[CollationAt(conn, world.fold(name)) := comparator.value];
      } else {
        collationTable := collationTable - {CollationAt(conn, world.fold(name))};
      }
      collationsVar := collationsVar[name := comparator];
      collations := Some(collationsVar);
      return false;
    }

    /** rb_sqlite3_pin_array_and_contents, on an array of values that `ref` makes references of. */
    method PinArray(marked: set<Ref>, array_: Ref, contents: seq<nat>, ref: nat -> Ref) returns (marked': set<Ref>)
      ensures forall r :: r in marked' <==> r in marked || r == array_ || exists x :: x in contents && r == ref(x)
    {
      marked' := marked + {array_};
      var i := 0;
      while i < |contents|
        invariant 0 <= i <= |contents|
        invariant forall r :: r in marked' <==> r in marked || r == array_ || exists x :: x in contents[..i] && r == ref(x)
      {
        assert contents[..i + 1] == contents[..i] + [contents[i]];
        marked' := marked' + {ref(contents[i])};
        i := i + 1;
      }
      assert contents[..i] == contents;
    }

    /** rb_sqlite3_aggregator_pin_instances. */
    method PinInstances(marked: set<Ref>, aw: nat) returns (marked': set<Ref>)
      requires Valid()
      ensures forall r :: r in marked' <==>
                r in marked || r == InstancesArray(aw) || (r.InstanceRef? && r.inst in Agg.InFlight(agg, aw))
    {
      var instances := if aw in inFlight then inFlight[aw] else [];
      marked' := PinArray(marked, InstancesArray(aw), instances, (inst: nat) => InstanceRef(inst));
      assert forall r: Ref :: r.InstanceRef? && r.inst in instances ==> exists x :: x in instances && r == InstanceRef(x);
    }

    /** The instances of one of these wrappers. */
    ghost predicate InstanceOfAny(wrappers: seq<nat>, r: Ref)
      reads this
    {
      r.InstanceRef? && exists aw :: aw in wrappers && r.inst in Agg.InFlight(agg, aw)
    }

    /** pin_aggregators: the wrappers, and for each its live instances. */
    method PinAggregators(marked: set<Ref>, wrappers: seq<nat>) returns (marked': set<Ref>)
      requires Valid()
      ensures forall r :: r in marked' <==>
                || r in marked || r == AggregatorsArray
                || (r.WrapperRef? && r.aw in wrappers) || (r.InstancesArray? && r.aw in wrappers)
                || InstanceOfAny(wrappers, r)
    {
      marked' := PinArray(marked, AggregatorsArray, wrappers, (aw: nat) => WrapperRef(aw));
      assert forall r: Ref :: r.WrapperRef? && r.aw in wrappers ==> exists x :: x in wrappers && r == WrapperRef(x);
      var i := 0;
      while i < |wrappers|
        invariant 0 <= i <= |wrappers|
        invariant forall r :: r in marked' <==>
                    || r in marked || r == AggregatorsArray
                    || (r.WrapperRef? && r.aw in wrappers) || (r.InstancesArray? && r.aw in wrappers[..i])
                    || InstanceOfAny(wrappers[..i], r)
      {
        assert wrappers[..i + 1] == wrappers[..i] + [wrappers[i]];
        assert forall r: Ref :: InstanceOfAny(wrappers[..i + 1], r) <==>
            InstanceOfAny(wrappers[..i], r) || (r.InstanceRef? && r.inst in Agg.InFlight(agg, wrappers[i]));
        marked' := PinInstances(marked', wrappers[i]);
        i := i + 1;
      }
      assert wrappers[..i] == wrappers;
    }

    /** pin_hash_and_contents. */
    method PinHash(marked: set<Ref>, hash: map<string, Option<nat>>) returns (marked': set<Ref>)
      ensures forall r :: r in marked' <==>
                r in marked || r == CollationsHash || (r.Obj? && InHash(hash, r.id))
    {
      var values := set name | name in hash && hash[name].Some? :: Obj(hash[name].value);
      marked' := marked + {CollationsHash} + values;
    }

    method MarkHooks() returns (marked: set<Ref>)
      ensures forall r :: r in marked <==> r.Obj? && r.id in hooks.Values
    {
      marked := set hook | hook in hooks :: Obj(hooks[hook]);
    }

    method DatabaseMark() returns (marked: set<Ref>)
      requires Valid()
      ensures forall r :: r in marked <==> Pinned(Now(), r)
    {
      marked := MarkHooks();
      if functions.Some? {
        marked := PinArray(marked, FunctionsArray, functions.value, (block: nat) => Obj(block));
        assert forall r: Ref :: r.Obj? && r.id in functions.value ==> exists x :: x in functions.value && r == Obj(x);
      }
      assert forall r: Ref :: r in marked <==>
        (r.Obj? && (r.id in hooks.Values || r.id in Listed(functions))) || (r.FunctionsArray? && functions.Some?);
      if collations.Some? {
        marked := PinHash(marked, collations.value);
      }
      assert forall r: Ref :: r in marked && !r.Obj? <==>
        (r.FunctionsArray? && functions.Some?) || (r.CollationsHash? && collations.Some?);
      assert forall r: Ref :: r.Obj? ==> (r in marked <==> Pinned(Now(), r));
      if aggregators.Some? {
        marked := PinAggregators(marked, aggregators.value);
      }
    }
  }
}
