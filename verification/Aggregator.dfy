/**
 The aggregate callbacks of ext/sqlite3/aggregator.c. SQLite calls xStep once a row and xFinal once at
 the end for every aggregate context, with any number of contexts and of registered aggregators in
 flight at a time. A context's slot goes from zero to a live instance to nil; each aggregator wrapper
 keeps its live instances in an array.
 */
module Aggregator {
  import opened Wrappers

  datatype Outcome<+T> = Returned(value: T) | Raised(exception: Exn)

  /** A handler class as its instances behave: instances hold states `S`, take rows `R` and finalize to
      values `V`. What `new` makes may differ from one context to the next; `convertible` says which
      values set_sqlite3_func_result takes. */
  datatype Handler<!S, !R, !V> = Handler(
    make: nat -> Outcome<S>,
    step: (S, R) -> Outcome<S>,
    finish: S -> Outcome<V>,
    convertible: V -> bool)

  type Handlers<!S, !R, !V> = nat -> Handler<S, R, V>

  /** `*inst_ptr`: Qfalse, an instance, or Qnil. */
  datatype Slot = Zero | Held(inst: nat) | Nil

  /** An AggregatorInstance: `-handler_instance`, `-exc_status`, and the context it was made for. */
  datatype Instance<S> = Instance(handler: Option<S>, excStatus: int, context: nat)

  /** What a context handed to SQLite. */
  datatype Reported<V> = Value(value: V) | Error

  datatype Method = New | StepRow | Finalize

  datatype Call = Call(context: nat, method_: Method, raised: Option<Exn>)

  datatype State<S, V> = State(
    slots: map<nat, Slot>,                // by context
    instances: seq<Instance<S>>,
    inFlight: map<nat, seq<nat>>,         // `-instances`, by wrapper
    results: map<nat, Reported<V>>,       // by context
    errinfo: Option<Exn>,                 // the interpreter's pending exception
    calls: seq<Call>,                     // handler methods called
    fatal: bool,                          // an rb_fatal was reached
    escaped: bool)                        // an exception left a callback unprotected

  datatype Event<R> = XStep(context: nat, aw: nat, row: R) | XFinal(context: nat, aw: nat)

  function Initial<S, V>(): State<S, V> {
    State(map[], [], map[], map[], None, [], false, false)
  }

  function SlotOf<S, V>(st: State<S, V>, context: nat): Slot {
    if context in st.slots then st.slots[context] else Zero
  }

  function InFlight<S, V>(st: State<S, V>, aw: nat): seq<nat> {
    if aw in st.inFlight then st.inFlight[aw] else []
  }

  /** `rb_ary_delete`: all occurrences go. */
  function Without(s: seq<nat>, x: nat): (r: seq<nat>)
    ensures forall y :: y in r <==> y in s && y != x
  {
    if s == [] then []
    else
      assert s == s[..|s| - 1] + [s[|s| - 1]];
      Without(s[..|s| - 1], x) + (if s[|s| - 1] == x then [] else [s[|s| - 1]])
  }

  /** The pending exception after a protected call. */
  function ExceptionOf<T>(outcome: Outcome<T>, before: Option<Exn>): Option<Exn> {
    if outcome.Raised? then Some(outcome.exception) else before
  }

  function RaisedBy<T>(outcome: Outcome<T>): Option<Exn> {
    ExceptionOf(outcome, None)
  }

  // ---------------------------------------------------------------------------
  // The callbacks, as functions of the state

  /** rb_sqlite3_aggregate_instance; None where it is fatal. */
  function WithInstance<S, R, V>(st: State<S, V>, handler: Handler<S, R, V>, context: nat, aw: nat): (State<S, V>, Option<nat>) {
    match SlotOf(st, context)
    case Held(inst) => (st, Some(inst))
    case Nil => (st.(fatal := true), None)
    case Zero =>
      var made, inst := handler.make(context), |st.instances|;
      var instance := if made.Returned? then Instance(Some(made.value), 0, context) else Instance(None, 1, context);
      (st.(instances := st.instances + [instance],
           inFlight := st.inFlight[aw := InFlight(st, aw) + [inst]],
           slots := st.slots[context := Held(inst)],
           errinfo := ExceptionOf(made, st.errinfo),
           calls := st.calls + [Call(context, New, RaisedBy(made))]), Some(inst))
  }

  /** rb_sqlite3_aggregate_instance_destroy. */
  function WithoutInstance<S, V>(st: State<S, V>, context: nat, aw: nat): State<S, V> {
    match SlotOf(st, context)
    case Zero => st
    case Nil => st.(fatal := true)
    case Held(inst) =>
      if inst >= |st.instances| || inst !in InFlight(st, aw) then st.(fatal := true)
      else st.(instances := st.instances[inst := st.instances[inst].(handler := None)],
               inFlight := st.inFlight[aw := Without(InFlight(st, aw), inst)],
               slots := st.slots[context := Nil])
  }

  /** xStep on the context's instance; after a raise nothing is called. */
  function StepOn<S, R, V>(st: State<S, V>, handler: Handler<S, R, V>, context: nat, inst: nat, row: R): State<S, V>
    requires inst < |st.instances|
  {
    var instance := st.instances[inst];
    if instance.excStatus != 0 || instance.handler.None? then st
    else
      var next := handler.step(instance.handler.value, row);
      var instance' := if next.Returned? then instance.(handler := Some(next.value)) else instance.(excStatus := 1);
      st.(instances := st.instances[inst := instance'],
          errinfo := ExceptionOf(next, st.errinfo),
          calls := st.calls + [Call(context, StepRow, RaisedBy(next))])
  }

  /** xFinal on the context's instance. The conversion of the result is not protected: a value that
      SQLite cannot take raises through SQLite, past the clean-up. */
  function FinalOn<S, R, V>(st: State<S, V>, handler: Handler<S, R, V>, context: nat, aw: nat, inst: nat): State<S, V>
    requires inst < |st.instances|
  {
    var instance := st.instances[inst];
    if instance.excStatus != 0 || instance.handler.None? then
      WithoutInstance(st.(results := st.results[context := Error]), context, aw)
    else
      var value := handler.finish(instance.handler.value);
      var st' := st.(errinfo := ExceptionOf(value, st.errinfo),
                     calls := st.calls + [Call(context, Finalize, RaisedBy(value))]);
      if value.Raised? then WithoutInstance(st'.(results := st'.results[context := Error]), context, aw)
      else if !handler.convertible(value.value) then st'.(escaped := true)
      else WithoutInstance(st'.(results := st'.results[context := Value(value.value)]), context, aw)
  }

  /** rb_sqlite3_aggregator_step. */
  function Stepped<S, R, V>(st: State<S, V>, handler: Handler<S, R, V>, context: nat, aw: nat, row: R): State<S, V> {
    var (st', inst) := WithInstance(st, handler, context, aw);
    if inst.None? || inst.value >= |st'.instances| then st' else StepOn(st', handler, context, inst.value, row)
  }

  /** rb_sqlite3_aggregator_final. */
  function Finalized<S, R, V>(st: State<S, V>, handler: Handler<S, R, V>, context: nat, aw: nat): State<S, V> {
    var (st', inst) := WithInstance(st, handler, context, aw);
    if inst.None? || inst.value >= |st'.instances| then st' else FinalOn(st', handler, context, aw, inst.value)
  }

  function Handled<S, R, V>(st: State<S, V>, handlers: Handlers<S, R, V>, event: Event<R>): State<S, V> {
    match event
    case XStep(context, aw, row) => Stepped(st, handlers(aw), context, aw, row)
    case XFinal(context, aw) => Finalized(st, handlers(aw), context, aw)
  }

  function Run<S, R, V>(handlers: Handlers<S, R, V>, events: seq<Event<R>>): State<S, V> {
    if events == [] then Initial()
    else Handled(Run(handlers, events[..|events| - 1]), handlers, events[|events| - 1])
  }

  // ---------------------------------------------------------------------------
  // The reference: every group on its own

  /** The left fold of `step` over the rows, from what `new` made; it ends at the first raise. */
  function Fold<S, R, V>(handler: Handler<S, R, V>, context: nat, rows: seq<R>): Outcome<S> {
    if rows == [] then handler.make(context)
    else
      var before := Fold(handler, context, rows[..|rows| - 1]);
      if before.Raised? then before else handler.step(before.value, rows[|rows| - 1])
  }

  function Expected<S, R, V>(handler: Handler<S, R, V>, context: nat, rows: seq<R>): Reported<V> {
    var folded := Fold(handler, context, rows);
    if folded.Raised? then Error
    else
      var value := handler.finish(folded.value);
      if value.Raised? then Error else Value(value.value)
  }

  /** The handler methods a group takes before it is finalized: `new`, then `step` up to the first raise. */
  function FoldCalls<S, R, V>(handler: Handler<S, R, V>, context: nat, rows: seq<R>): seq<Call> {
    if rows == [] then [Call(context, New, RaisedBy(handler.make(context)))]
    else
      var n := |rows| - 1;
      FoldCalls(handler, context, rows[..n]) +
      (if Fold(handler, context, rows[..n]).Raised? then []
       else [Call(context, StepRow, RaisedBy(Fold(handler, context, rows)))])
  }

  function FinalCalls<S, R, V>(handler: Handler<S, R, V>, context: nat, rows: seq<R>): seq<Call> {
    var folded := Fold(handler, context, rows);
    FoldCalls(handler, context, rows) +
    (if folded.Raised? then [] else [Call(context, Finalize, RaisedBy(handler.finish(folded.value)))])
  }

  // ---------------------------------------------------------------------------
  // Histories

  function Rows<R>(events: seq<Event<R>>, context: nat): seq<R> {
    if events == [] then []
    else
      var last := events[|events| - 1];
      Rows(events[..|events| - 1], context) + (if last.XStep? && last.context == context then [last.row] else [])
  }

  predicate Started<R>(events: seq<Event<R>>, context: nat) {
    events != [] && (events[|events| - 1].context == context || Started(events[..|events| - 1], context))
  }

  predicate Finished<R>(events: seq<Event<R>>, context: nat) {
    && events != []
    && ((events[|events| - 1].XFinal? && events[|events| - 1].context == context) || Finished(events[..|events| - 1], context))
  }

  function CallsOf(calls: seq<Call>, context: nat): seq<Call> {
    if calls == [] then []
    else CallsOf(calls[..|calls| - 1], context) + (if calls[|calls| - 1].context == context then [calls[|calls| - 1]] else [])
  }

  /** The exceptions these calls raised, in order. */
  function Raises(calls: seq<Call>): seq<Exn> {
    if calls == [] then []
    else
      var last := calls[|calls| - 1];
      Raises(calls[..|calls| - 1]) + (if last.raised.Some? then [last.raised.value] else [])
  }

  /** The pending exception after these were raised: the last one stands. */
  function Pending(raises: seq<Exn>, before: Option<Exn>): Option<Exn> {
    if raises == [] then before else Some(raises[|raises| - 1])
  }

  /** The group's value, if there is one, is one that SQLite takes. */
  predicate ResultConvertible<S, R, V>(handler: Handler<S, R, V>, context: nat, rows: seq<R>) {
    var folded := Fold(handler, context, rows);
    folded.Returned? && handler.finish(folded.value).Returned? ==> handler.convertible(handler.finish(folded.value).value)
  }

  // ---------------------------------------------------------------------------
  // The invariant

  datatype Phase = Unstarted | Going | Over

  function PhaseOf<R>(events: seq<Event<R>>, context: nat): Phase {
    if Finished(events, context) then Over else if Started(events, context) then Going else Unstarted
  }

  /** The instance holds what the fold over its group's rows has come to. */
  ghost predicate Reflects<S, R, V>(instance: Instance<S>, handler: Handler<S, R, V>, context: nat, rows: seq<R>) {
    var folded := Fold(handler, context, rows);
    && instance.context == context
    && (if folded.Returned? then instance.handler == Some(folded.value) && instance.excStatus == 0
        else instance.excStatus != 0)
  }

  /** One context, in its phase and after these rows. */
  ghost predicate ContextAt<S, R, V>(st: State<S, V>, handler: Handler<S, R, V>, aw: nat, context: nat, phase: Phase, rows: seq<R>) {
    match phase
    case Unstarted =>
      SlotOf(st, context) == Zero && rows == [] && context !in st.results && CallsOf(st.calls, context) == []
    case Going =>
      var slot := SlotOf(st, context);
      && slot.Held? && slot.inst < |st.instances| && slot.inst in InFlight(st, aw)
      && Reflects(st.instances[slot.inst], handler, context, rows)
      && context !in st.results && CallsOf(st.calls, context) == FoldCalls(handler, context, rows)
    case Over =>
      && SlotOf(st, context) == Nil
      && context in st.results && st.results[context] == Expected(handler, context, rows)
      && CallsOf(st.calls, context) == FinalCalls(handler, context, rows)
  }

  /** Every context but `except`. */
  ghost predicate Others<S, R, V>(st: State<S, V>, handlers: Handlers<S, R, V>, wrapperOf: nat -> nat,
                                  events: seq<Event<R>>, except: nat) {
    forall k: nat :: k != except ==>
      ContextAt(st, handlers(wrapperOf(k)), wrapperOf(k), k, PhaseOf(events, k), Rows(events, k))
  }

  ghost predicate NoDuplicates(s: seq<nat>) {
    forall i, j :: 0 <= i < j < |s| ==> s[i] != s[j]
  }

  /** A wrapper's array holds live instances of its own contexts, each once. */
  ghost predicate ArrayOk<S, V>(st: State<S, V>, wrapperOf: nat -> nat, aw: nat) {
    && NoDuplicates(InFlight(st, aw))
    && forall i: nat :: i in InFlight(st, aw) ==>
         i < |st.instances| && SlotOf(st, st.instances[i].context) == Held(i) && wrapperOf(st.instances[i].context) == aw
  }

  ghost predicate ArraysOk<S, V>(st: State<S, V>, wrapperOf: nat -> nat) {
    forall aw: nat :: ArrayOk(st, wrapperOf, aw)
  }

  ghost predicate Sound<S, V>(st: State<S, V>, wrapperOf: nat -> nat) {
    && !st.fatal && !st.escaped
    && ArraysOk(st, wrapperOf)
  }

  ghost predicate Inv<S, R, V>(st: State<S, V>, handlers: Handlers<S, R, V>, wrapperOf: nat -> nat, events: seq<Event<R>>) {
    && Sound(st, wrapperOf)
    && forall k: nat ::
         ContextAt(st, handlers(wrapperOf(k)), wrapperOf(k), k, PhaseOf(events, k), Rows(events, k))
  }

  // ---------------------------------------------------------------------------
  // Every callback keeps it: a callback touches no context but its own

  ghost predicate Touches<S, V>(st: State<S, V>, st': State<S, V>, context: nat) {
    && |st.instances| <= |st'.instances|
    && (forall i :: 0 <= i < |st.instances| && st.instances[i].context != context ==> st'.instances[i] == st.instances[i])
    && (forall k: nat :: k != context ==> Untouched(st, st', k))
    && (forall aw: nat, i: nat :: i < |st.instances| && st.instances[i].context != context && i in InFlight(st, aw) ==>
          i in InFlight(st', aw))
  }

  ghost predicate Untouched<S, V>(st: State<S, V>, st': State<S, V>, k: nat) {
    && SlotOf(st', k) == SlotOf(st, k)
    && (k in st'.results <==> k in st.results) && (k in st.results ==> st'.results[k] == st.results[k])
    && CallsOf(st'.calls, k) == CallsOf(st.calls, k)
  }

  lemma TouchKeeps<S, R, V>(st: State<S, V>, st': State<S, V>, context: nat,
                            handler: Handler<S, R, V>, aw: nat, k: nat, phase: Phase, rows: seq<R>)
    requires Touches(st, st', context) && k != context && ContextAt(st, handler, aw, k, phase, rows)
    ensures ContextAt(st', handler, aw, k, phase, rows)
  {
    assert Untouched(st, st', k);
  }

  lemma TouchKeepsOthers<S, R, V>(st: State<S, V>, st': State<S, V>, handlers: Handlers<S, R, V>, wrapperOf: nat -> nat,
                                  events: seq<Event<R>>, context: nat)
    requires Touches(st, st', context) && Others(st, handlers, wrapperOf, events, context)
    ensures Others(st', handlers, wrapperOf, events, context)
  {
    forall k: nat | k != context
      ensures ContextAt(st', handlers(wrapperOf(k)), wrapperOf(k), k, PhaseOf(events, k), Rows(events, k))
    {
      TouchKeeps(st, st', context, handlers(wrapperOf(k)), wrapperOf(k), k, PhaseOf(events, k), Rows(events, k));
    }
  }

  lemma CallsAppend(calls: seq<Call>, call: Call)
    ensures forall k :: CallsOf(calls + [call], k) == CallsOf(calls, k) + (if call.context == k then [call] else [])
    ensures Raises(calls + [call]) == Raises(calls) + if call.raised.Some? then [call.raised.value] else []
  {
  }

  /** A new instance for a context that has none. */
  lemma CreateTouches<S, R, V>(st: State<S, V>, handler: Handler<S, R, V>, context: nat, wrapperOf: nat -> nat)
    requires Sound(st, wrapperOf) && SlotOf(st, context) == Zero
    ensures Touches(st, WithInstance(st, handler, context, wrapperOf(context)).0, context)
  {
    var aw := wrapperOf(context);
    var st' := WithInstance(st, handler, context, aw).0;
    CallsAppend(st.calls, Call(context, New, RaisedBy(handler.make(context))));
    forall k: nat | k != context ensures Untouched(st, st', k) {
    }
    assert forall w: nat :: InFlight(st', w) == if w == aw then InFlight(st, w) + [|st.instances|] else InFlight(st, w);
  }

  lemma CreateIsSound<S, R, V>(st: State<S, V>, handler: Handler<S, R, V>, context: nat, wrapperOf: nat -> nat)
    requires Sound(st, wrapperOf) && SlotOf(st, context) == Zero
    ensures Sound(WithInstance(st, handler, context, wrapperOf(context)).0, wrapperOf)
  {
    var st' := WithInstance(st, handler, context, wrapperOf(context)).0;
    CallsAppend(st.calls, Call(context, New, RaisedBy(handler.make(context))));
    forall aw: nat ensures ArrayOk(st', wrapperOf, aw) {
      assert ArrayOk(st, wrapperOf, aw);
    }
  }

  /** A handler method called on the instance of a context. */
  lemma CallTouches<S, V>(st: State<S, V>, instance: Instance<S>, inst: nat, call: Call, errinfo: Option<Exn>,
                          wrapperOf: nat -> nat)
    requires Sound(st, wrapperOf) && inst < |st.instances|
    requires st.instances[inst].context == instance.context == call.context
    ensures var st' := st.(instances := st.instances[inst := instance], errinfo := errinfo, calls := st.calls + [call]);
            Touches(st, st', call.context) && Sound(st', wrapperOf)
  {
    var st' := st.(instances := st.instances[inst := instance], errinfo := errinfo, calls := st.calls + [call]);
    CallsAppend(st.calls, call);
    forall k: nat ensures ArrayOk(st', wrapperOf, k) {
      assert ArrayOk(st, wrapperOf, k);
    }
  }

  lemma ReportTouches<S, V>(st: State<S, V>, context: nat, reported: Reported<V>, wrapperOf: nat -> nat)
    requires Sound(st, wrapperOf)
    ensures var st' := st.(results := st.results[context := reported]);
            Touches(st, st', context) && Sound(st', wrapperOf)
  {
    var st' := st.(results := st.results[context := reported]);
    forall k: nat ensures ArrayOk(st', wrapperOf, k) {
      assert ArrayOk(st, wrapperOf, k);
    }
  }

  lemma {:induction false} WithoutKeepsDistinct(s: seq<nat>, x: nat)
    requires NoDuplicates(s)
    ensures NoDuplicates(Without(s, x))
  {
    if s != [] {
      var before, last := s[..|s| - 1], s[|s| - 1];
      WithoutKeepsDistinct(before, x);
      assert last !in before;
      assert last !in Without(before, x);
    }
  }

  /** The live instance of a context is taken out and its slot set to nil; nothing fatal happens. */
  lemma DestroyTouches<S, V>(st: State<S, V>, context: nat, wrapperOf: nat -> nat)
    requires Sound(st, wrapperOf)
    requires var slot := SlotOf(st, context);
             && slot.Held? && slot.inst < |st.instances| && slot.inst in InFlight(st, wrapperOf(context))
             && st.instances[slot.inst].context == context
    ensures var st' := WithoutInstance(st, context, wrapperOf(context));
            && Touches(st, st', context) && Sound(st', wrapperOf)
            && SlotOf(st', context) == Nil && st'.results == st.results && st'.calls == st.calls
  {
    var aw, inst := wrapperOf(context), SlotOf(st, context).inst;
    var st' := WithoutInstance(st, context, aw);
    assert ArrayOk(st, wrapperOf, aw);
    WithoutKeepsDistinct(InFlight(st, aw), inst);
    forall k: nat ensures ArrayOk(st', wrapperOf, k) {
      assert ArrayOk(st, wrapperOf, k);
    }
  }

  /** The instance a callback works with: there is one, and it holds the fold so far. */
  lemma WithInstanceKeeps<S, R, V>(st: State<S, V>, handlers: Handlers<S, R, V>, wrapperOf: nat -> nat,
                                   events: seq<Event<R>>, context: nat, phase: Phase, rows: seq<R>)
    requires Sound(st, wrapperOf) && Others(st, handlers, wrapperOf, events, context)
    requires phase != Over && ContextAt(st, handlers(wrapperOf(context)), wrapperOf(context), context, phase, rows)
    ensures var aw := wrapperOf(context);
            var (st', inst) := WithInstance(st, handlers(aw), context, aw);
            && Sound(st', wrapperOf) && Others(st', handlers, wrapperOf, events, context)
            && ContextAt(st', handlers(aw), aw, context, Going, rows)
            && inst.Some? && SlotOf(st', context) == Held(inst.value)
  {
    if phase == Unstarted {
      var aw := wrapperOf(context);
      var st' := WithInstance(st, handlers(aw), context, aw).0;
      CreateTouches(st, handlers(aw), context, wrapperOf);
      CreateIsSound(st, handlers(aw), context, wrapperOf);
      TouchKeepsOthers(st, st', handlers, wrapperOf, events, context);
      CallsAppend(st.calls, Call(context, New, RaisedBy(handlers(aw).make(context))));
    }
  }

  /** A handler method called on the live instance of `context`, and what others see of it: nothing. */
  lemma CallKeepsOthers<S, R, V>(st: State<S, V>, instance: Instance<S>, inst: nat, call: Call, errinfo: Option<Exn>,
                                 handlers: Handlers<S, R, V>, wrapperOf: nat -> nat, events: seq<Event<R>>)
    requires Sound(st, wrapperOf) && Others(st, handlers, wrapperOf, events, call.context)
    requires inst < |st.instances| && st.instances[inst].context == instance.context == call.context
    ensures var st' := st.(instances := st.instances[inst := instance], errinfo := errinfo, calls := st.calls + [call]);
            && Sound(st', wrapperOf) && Others(st', handlers, wrapperOf, events, call.context)
            && CallsOf(st'.calls, call.context) == CallsOf(st.calls, call.context) + [call]
  {
    var st' := st.(instances := st.instances[inst := instance], errinfo := errinfo, calls := st.calls + [call]);
    CallTouches(st, instance, inst, call, errinfo, wrapperOf);
    TouchKeepsOthers(st, st', handlers, wrapperOf, events, call.context);
    CallsAppend(st.calls, call);
  }

  /** One row more. */
  lemma FoldNext<S, R, V>(handler: Handler<S, R, V>, context: nat, rows: seq<R>, row: R)
    ensures var folded, next := Fold(handler, context, rows), Fold(handler, context, rows + [row]);
            && next == (if folded.Raised? then folded else handler.step(folded.value, row))
            && FoldCalls(handler, context, rows + [row])
               == FoldCalls(handler, context, rows) + (if folded.Raised? then [] else [Call(context, StepRow, RaisedBy(next))])
  {
    assert (rows + [row])[..|rows|] == rows;
  }

  /** A group without rows is what `new` made; and a group's value is that of `finalize` on its fold, unless one
      of them raised. */
  lemma ExpectedIs<S, R, V>(handler: Handler<S, R, V>, context: nat, rows: seq<R>)
    ensures Fold(handler, context, []) == handler.make(context)
    ensures var folded, expected := Fold(handler, context, rows), Expected(handler, context, rows);
            && (folded.Raised? || handler.finish(folded.value).Raised? ==> expected == Error)
            && (folded.Returned? && handler.finish(folded.value).Returned? ==> expected == Value(handler.finish(folded.value).value))
  {
  }

  /** xStep on a live instance. */
  lemma StepInstanceKeeps<S, R, V>(st: State<S, V>, handlers: Handlers<S, R, V>, wrapperOf: nat -> nat,
                                   events: seq<Event<R>>, context: nat, rows: seq<R>, row: R, inst: nat)
    requires Sound(st, wrapperOf) && Others(st, handlers, wrapperOf, events, context)
    requires ContextAt(st, handlers(wrapperOf(context)), wrapperOf(context), context, Going, rows)
    requires SlotOf(st, context) == Held(inst)
    ensures var aw := wrapperOf(context);
            var st' := StepOn(st, handlers(aw), context, inst, row);
            && Sound(st', wrapperOf) && Others(st', handlers, wrapperOf, events, context)
            && ContextAt(st', handlers(aw), aw, context, Going, rows + [row])
  {
    var aw := wrapperOf(context);
    var handler, instance := handlers(aw), st.instances[inst];
    FoldNext(handler, context, rows, row);
    var folded := Fold(handler, context, rows);
    if folded.Returned? {
      var next := handler.step(folded.value, row);
      var instance' := if next.Returned? then instance.(handler := Some(next.value)) else instance.(excStatus := 1);
      CallKeepsOthers(st, instance', inst, Call(context, StepRow, RaisedBy(next)), ExceptionOf(next, st.errinfo),
                      handlers, wrapperOf, events);
    }
  }

  lemma SteppedKeeps<S, R, V>(st: State<S, V>, handlers: Handlers<S, R, V>, wrapperOf: nat -> nat,
                              events: seq<Event<R>>, context: nat, phase: Phase, rows: seq<R>, row: R)
    requires Sound(st, wrapperOf) && Others(st, handlers, wrapperOf, events, context)
    requires phase != Over && ContextAt(st, handlers(wrapperOf(context)), wrapperOf(context), context, phase, rows)
    ensures var aw := wrapperOf(context);
            var st' := Stepped(st, handlers(aw), context, aw, row);
            && Sound(st', wrapperOf) && Others(st', handlers, wrapperOf, events, context)
            && ContextAt(st', handlers(aw), aw, context, Going, rows + [row])
  {
    var aw := wrapperOf(context);
    WithInstanceKeeps(st, handlers, wrapperOf, events, context, phase, rows);
    var (st1, inst) := WithInstance(st, handlers(aw), context, aw);
    StepInstanceKeeps(st1, handlers, wrapperOf, events, context, rows, row, inst.value);
  }

  /** The last part of xFinal: the result is reported and the instance destroyed. */
  lemma ReportAndDestroyKeep<S, R, V>(st: State<S, V>, handlers: Handlers<S, R, V>, wrapperOf: nat -> nat,
                                      events: seq<Event<R>>, context: nat, reported: Reported<V>)
    requires Sound(st, wrapperOf) && Others(st, handlers, wrapperOf, events, context)
    requires var slot := SlotOf(st, context);
             && slot.Held? && slot.inst < |st.instances| && slot.inst in InFlight(st, wrapperOf(context))
             && st.instances[slot.inst].context == context
    ensures var st' := WithoutInstance(st.(results := st.results[context := reported]), context, wrapperOf(context));
            && Sound(st', wrapperOf) && Others(st', handlers, wrapperOf, events, context)
            && SlotOf(st', context) == Nil && context in st'.results && st'.results[context] == reported
            && st'.calls == st.calls
  {
    var st1 := st.(results := st.results[context := reported]);
    ReportTouches(st, context, reported, wrapperOf);
    TouchKeepsOthers(st, st1, handlers, wrapperOf, events, context);
    DestroyTouches(st1, context, wrapperOf);
    TouchKeepsOthers(st1, WithoutInstance(st1, context, wrapperOf(context)), handlers, wrapperOf, events, context);
  }

  /** xFinal on a live instance. */
  lemma FinalInstanceKeeps<S, R, V>(st: State<S, V>, handlers: Handlers<S, R, V>, wrapperOf: nat -> nat,
                                    events: seq<Event<R>>, context: nat, rows: seq<R>, inst: nat)
    requires Sound(st, wrapperOf) && Others(st, handlers, wrapperOf, events, context)
    requires ContextAt(st, handlers(wrapperOf(context)), wrapperOf(context), context, Going, rows)
    requires SlotOf(st, context) == Held(inst)
    requires ResultConvertible(handlers(wrapperOf(context)), context, rows)
    ensures var aw := wrapperOf(context);
            var st' := FinalOn(st, handlers(aw), context, aw, inst);
            && Sound(st', wrapperOf) && Others(st', handlers, wrapperOf, events, context)
            && ContextAt(st', handlers(aw), aw, context, Over, rows)
  {
    var handler := handlers(wrapperOf(context));
    var folded := Fold(handler, context, rows);
    if folded.Raised? {
      ReportAndDestroyKeep(st, handlers, wrapperOf, events, context, Error);
    } else {
      var value := handler.finish(folded.value);
      var call, errinfo := Call(context, Finalize, RaisedBy(value)), ExceptionOf(value, st.errinfo);
      assert st.instances[inst := st.instances[inst]] == st.instances;
      CallKeepsOthers(st, st.instances[inst], inst, call, errinfo, handlers, wrapperOf, events);
      ReportAndDestroyKeep(st.(errinfo := errinfo, calls := st.calls + [call]), handlers, wrapperOf, events, context,
                           Expected(handler, context, rows));
    }
  }

  lemma FinalizedKeeps<S, R, V>(st: State<S, V>, handlers: Handlers<S, R, V>, wrapperOf: nat -> nat,
                                events: seq<Event<R>>, context: nat, phase: Phase, rows: seq<R>)
    requires Sound(st, wrapperOf) && Others(st, handlers, wrapperOf, events, context)
    requires phase != Over && ContextAt(st, handlers(wrapperOf(context)), wrapperOf(context), context, phase, rows)
    requires ResultConvertible(handlers(wrapperOf(context)), context, rows)
    ensures var aw := wrapperOf(context);
            var st' := Finalized(st, handlers(aw), context, aw);
            && Sound(st', wrapperOf) && Others(st', handlers, wrapperOf, events, context)
            && ContextAt(st', handlers(aw), aw, context, Over, rows)
  {
    var aw := wrapperOf(context);
    WithInstanceKeeps(st, handlers, wrapperOf, events, context, phase, rows);
    var (st1, inst) := WithInstance(st, handlers(aw), context, aw);
    FinalInstanceKeeps(st1, handlers, wrapperOf, events, context, rows, inst.value);
  }

  lemma {:induction false} RowsNeedStart<R>(events: seq<Event<R>>, context: nat)
    ensures !Started(events, context) ==> Rows(events, context) == [] && !Finished(events, context)
  {
    if events != [] { RowsNeedStart(events[..|events| - 1], context); }
  }

  /** All contexts but one, and that one, make all. */
  lemma AllContexts<S, R, V>(st: State<S, V>, handlers: Handlers<S, R, V>, wrapperOf: nat -> nat, events: seq<Event<R>>, context: nat)
    requires Sound(st, wrapperOf) && Others(st, handlers, wrapperOf, events, context)
    requires ContextAt(st, handlers(wrapperOf(context)), wrapperOf(context), context, PhaseOf(events, context), Rows(events, context))
    ensures Inv(st, handlers, wrapperOf, events)
  {
  }

  lemma OwnContext<R>(before: seq<Event<R>>, event: Event<R>)
    requires !Finished(before, event.context)
    ensures var events, k := before + [event], event.context;
            && PhaseOf(events, k) == (if event.XStep? then Going else Over)
            && Rows(events, k) == Rows(before, k) + (if event.XStep? then [event.row] else [])
  {
  }

  lemma EventKeeps<S, R, V>(st: State<S, V>, handlers: Handlers<S, R, V>, wrapperOf: nat -> nat, before: seq<Event<R>>, event: Event<R>)
    requires Inv(st, handlers, wrapperOf, before)
    requires event.aw == wrapperOf(event.context) && !Finished(before, event.context)
    requires event.XFinal? ==> ResultConvertible(handlers(event.aw), event.context, Rows(before, event.context))
    ensures Inv(Handled(st, handlers, event), handlers, wrapperOf, before + [event])
  {
    var context := event.context;
    var phase, rows := PhaseOf(before, context), Rows(before, context);
    assert ContextAt(st, handlers(wrapperOf(context)), wrapperOf(context), context, phase, rows);
    OwnContext(before, event);
    if event.XStep? {
      SteppedKeeps(st, handlers, wrapperOf, before, context, phase, rows, event.row);
    } else {
      FinalizedKeeps(st, handlers, wrapperOf, before, context, phase, rows);
      assert rows + [] == rows;
    }
    OthersMoveOn(Handled(st, handlers, event), handlers, wrapperOf, before, event);
    AllContexts(Handled(st, handlers, event), handlers, wrapperOf, before + [event], context);
  }

  lemma OthersMoveOn<S, R, V>(st: State<S, V>, handlers: Handlers<S, R, V>, wrapperOf: nat -> nat, before: seq<Event<R>>, event: Event<R>)
    requires Others(st, handlers, wrapperOf, before, event.context)
    ensures Others(st, handlers, wrapperOf, before + [event], event.context)
  {
    var events := before + [event];
    assert events[..|before|] == before;
    forall k: nat | k != event.context
      ensures ContextAt(st, handlers(wrapperOf(k)), wrapperOf(k), k, PhaseOf(events, k), Rows(events, k))
    {
      assert PhaseOf(events, k) == PhaseOf(before, k) && Rows(events, k) == Rows(before, k);
    }
  }

  /** SQLite's side of the protocol: a context belongs to one aggregator, and its xFinal is the last
      callback it makes. And the handlers' side: a value they finalize to is one SQLite takes. */
  ghost predicate Protocol<S, R, V>(handlers: Handlers<S, R, V>, wrapperOf: nat -> nat, events: seq<Event<R>>) {
    events == [] ||
    (var before, last := events[..|events| - 1], events[|events| - 1];
     && Protocol(handlers, wrapperOf, before)
     && last.aw == wrapperOf(last.context) && !Finished(before, last.context)
     && (last.XFinal? ==> ResultConvertible(handlers(last.aw), last.context, Rows(before, last.context))))
  }

  lemma InitialKeeps<S, R, V>(handlers: Handlers<S, R, V>, wrapperOf: nat -> nat)
    ensures Inv<S, R, V>(Initial(), handlers, wrapperOf, [])
  {
  }

  lemma NextKeeps<S, R, V>(handlers: Handlers<S, R, V>, wrapperOf: nat -> nat, before: seq<Event<R>>, event: Event<R>, events: seq<Event<R>>)
    requires events == before + [event]
    requires Inv(Run(handlers, before), handlers, wrapperOf, before)
    requires event.aw == wrapperOf(event.context) && !Finished(before, event.context)
    requires event.XFinal? ==> ResultConvertible(handlers(event.aw), event.context, Rows(before, event.context))
    ensures Inv(Run(handlers, events), handlers, wrapperOf, events)
  {
    assert events[..|before|] == before;
    EventKeeps(Run(handlers, before), handlers, wrapperOf, before, event);
  }

  /** Every reachable state satisfies the invariant. */
  lemma {:induction false} RunKeeps<S, R, V>(handlers: Handlers<S, R, V>, wrapperOf: nat -> nat, events: seq<Event<R>>)
    requires Protocol(handlers, wrapperOf, events)
    ensures Inv(Run(handlers, events), handlers, wrapperOf, events)
    decreases |events|, 1
  {
    if events == [] {
      InitialKeeps(handlers, wrapperOf);
    } else {
      RunKeepsOneMore(handlers, wrapperOf, events, |events| - 1);
    }
  }

  lemma {:induction false} RunKeepsOneMore<S, R, V>(handlers: Handlers<S, R, V>, wrapperOf: nat -> nat, events: seq<Event<R>>, n: nat)
    requires n + 1 == |events| && Protocol(handlers, wrapperOf, events)
    ensures Inv(Run(handlers, events), handlers, wrapperOf, events)
    decreases |events|, 0
  {
    RunKeeps(handlers, wrapperOf, events[..n]);
    NextKeeps(handlers, wrapperOf, events[..n], events[n], events);
  }

  // ---------------------------------------------------------------------------
  // What follows for every history

  /** Interleaved as they may be, each finished context hands SQLite the value of its own group: the
      handler's `finalize` after `step` over exactly its rows, or an error if a method raised. The
      methods called for it are `new`, `step` up to the first raise, and `finalize` only if none did. */
  lemma AggregateRefinesFold<S, R, V>(handlers: Handlers<S, R, V>, wrapperOf: nat -> nat, events: seq<Event<R>>, context: nat)
    requires Protocol(handlers, wrapperOf, events) && Finished(events, context)
    ensures var st, handler, rows := Run(handlers, events), handlers(wrapperOf(context)), Rows(events, context);
            && context in st.results && st.results[context] == Expected(handler, context, rows)
            && CallsOf(st.calls, context) == FinalCalls(handler, context, rows)
  {
    RunKeeps(handlers, wrapperOf, events);
    assert PhaseOf(events, context) == Over;
  }

  /** None of a context's calls comes after a call that raised. */
  lemma {:induction false} NothingAfterRaise<S, R, V>(handler: Handler<S, R, V>, context: nat, rows: seq<R>)
    ensures forall i :: 0 <= i < |FoldCalls(handler, context, rows)| - 1 ==> !FoldCalls(handler, context, rows)[i].raised.Some?
    ensures var calls := FoldCalls(handler, context, rows);
            calls != [] && calls[|calls| - 1].raised == RaisedBy(Fold(handler, context, rows))
    ensures forall i :: 0 <= i < |FinalCalls(handler, context, rows)| - 1 ==> !FinalCalls(handler, context, rows)[i].raised.Some?
    ensures var calls := FinalCalls(handler, context, rows);
            calls != [] && (calls[|calls| - 1].raised.Some? <==> Expected(handler, context, rows) == Error)
  {
    if rows != [] {
      NothingAfterRaise(handler, context, rows[..|rows| - 1]);
    }
  }

  /** No rb_fatal is reached and no exception escapes; and each `-instances` array lists, without
      duplicates, exactly the contexts of its wrapper that are started and not finished. */
  lemma InstancesAreThoseInFlight<S, R, V>(handlers: Handlers<S, R, V>, wrapperOf: nat -> nat, events: seq<Event<R>>, aw: nat)
    requires Protocol(handlers, wrapperOf, events)
    ensures var st := Run(handlers, events);
            && !st.fatal && !st.escaped && NoDuplicates(InFlight(st, aw))
            && (forall i: nat :: i in InFlight(st, aw) ==>
                  i < |st.instances| && var k := st.instances[i].context;
                  wrapperOf(k) == aw && Started(events, k) && !Finished(events, k) && SlotOf(st, k) == Held(i))
            && (forall k: nat :: wrapperOf(k) == aw && Started(events, k) && !Finished(events, k) ==>
                  SlotOf(st, k).Held? && SlotOf(st, k).inst in InFlight(st, aw))
    ensures (forall k: nat :: Started(events, k) ==> Finished(events, k)) ==> InFlight(Run(handlers, events), aw) == []
  {
    RunKeeps(handlers, wrapperOf, events);
    var st := Run(handlers, events);
    assert ArrayOk(st, wrapperOf, aw);
    forall i: nat | i in InFlight(st, aw) ensures PhaseOf(events, st.instances[i].context) == Going {
      var k := st.instances[i].context;
      assert ContextAt(st, handlers(wrapperOf(k)), wrapperOf(k), k, PhaseOf(events, k), Rows(events, k));
    }
    forall k: nat | wrapperOf(k) == aw && Started(events, k) && !Finished(events, k)
      ensures SlotOf(st, k).Held? && SlotOf(st, k).inst in InFlight(st, aw)
    {
      assert ContextAt(st, handlers(wrapperOf(k)), wrapperOf(k), k, PhaseOf(events, k), Rows(events, k));
    }
    if InFlight(st, aw) != [] { assert InFlight(st, aw)[0] in InFlight(st, aw); }
  }

  /** The rb_fatal calls are there: a callback for a context that is over reaches one. */
  lemma CallbackAfterFinalIsFatal<S, R, V>(st: State<S, V>, handlers: Handlers<S, R, V>, wrapperOf: nat -> nat,
                                           events: seq<Event<R>>, event: Event<R>)
    requires Inv(st, handlers, wrapperOf, events) && Finished(events, event.context)
    ensures !st.fatal && Handled(st, handlers, event).fatal
  {
    var k := event.context;
    assert ContextAt(st, handlers(wrapperOf(k)), wrapperOf(k), k, PhaseOf(events, k), Rows(events, k));
  }

  /** And so does a second destruction, and one of an instance that its wrapper does not list. */
  lemma DestroyMayBeFatal<S, V>(st: State<S, V>, context: nat, aw: nat)
    ensures SlotOf(st, context) == Nil ==> WithoutInstance(st, context, aw).fatal
    ensures SlotOf(st, context).Held? && SlotOf(st, context).inst !in InFlight(st, aw) ==> WithoutInstance(st, context, aw).fatal
    ensures SlotOf(st, context) == Zero ==> WithoutInstance(st, context, aw) == st
  {
  }

  /** xFinal on a context whose value SQLite does not take. */
  lemma InconvertibleEscapes<S, R, V>(st: State<S, V>, handlers: Handlers<S, R, V>, wrapperOf: nat -> nat,
                                      events: seq<Event<R>>, context: nat, phase: Phase, rows: seq<R>)
    requires Sound(st, wrapperOf) && Others(st, handlers, wrapperOf, events, context)
    requires phase != Over && ContextAt(st, handlers(wrapperOf(context)), wrapperOf(context), context, phase, rows)
    requires !ResultConvertible(handlers(wrapperOf(context)), context, rows)
    ensures var aw := wrapperOf(context);
            var st' := Finalized(st, handlers(aw), context, aw);
            st'.escaped && SlotOf(st', context).Held? && SlotOf(st', context).inst in InFlight(st', aw)
  {
  }

  /** The side condition on values is exact: xFinal on a context in flight cleans up if and only if the
      group's value is one SQLite takes (or there is none, since a method raised). Otherwise the
      conversion's exception leaves the callback, and the instance stays in its slot and its array. */
  lemma CleanUpNeedsConvertible<S, R, V>(st: State<S, V>, handlers: Handlers<S, R, V>, wrapperOf: nat -> nat,
                                         events: seq<Event<R>>, context: nat)
    requires Inv(st, handlers, wrapperOf, events) && !Finished(events, context)
    ensures var aw := wrapperOf(context);
            var st' := Finalized(st, handlers(aw), context, aw);
            && (SlotOf(st', context) == Nil <==> ResultConvertible(handlers(aw), context, Rows(events, context)))
            && (st'.escaped <==> !ResultConvertible(handlers(aw), context, Rows(events, context)))
            && (st'.escaped ==> SlotOf(st', context).Held? && SlotOf(st', context).inst in InFlight(st', aw))
  {
    var aw, phase, rows := wrapperOf(context), PhaseOf(events, context), Rows(events, context);
    assert ContextAt(st, handlers(aw), aw, context, phase, rows);
    if ResultConvertible(handlers(aw), context, rows) {
      FinalizedKeeps(st, handlers, wrapperOf, events, context, phase, rows);
    } else {
      InconvertibleEscapes(st, handlers, wrapperOf, events, context, phase, rows);
    }
  }

  /** From `st` to `st'` these calls were added, on this context, and the last exception they raised is
      pending; if none did, the one that was pending before. */
  ghost predicate Adds<S, V>(st: State<S, V>, st': State<S, V>, context: nat, added: seq<Call>) {
    && st'.calls == st.calls + added && (forall i :: 0 <= i < |added| ==> added[i].context == context)
    && st'.errinfo == Pending(Raises(added), st.errinfo)
  }

  lemma AddsTransitive<S, V>(st: State<S, V>, st1: State<S, V>, st2: State<S, V>, context: nat, first: seq<Call>, second: seq<Call>)
    requires Adds(st, st1, context, first) && Adds(st1, st2, context, second)
    ensures Adds(st, st2, context, first + second)
  {
    RaisesAppend(first, second);
    assert st.calls + first + second == st.calls + (first + second);
  }

  lemma WithInstanceAdds<S, R, V>(st: State<S, V>, handler: Handler<S, R, V>, context: nat, aw: nat) returns (added: seq<Call>)
    ensures Adds(st, WithInstance(st, handler, context, aw).0, context, added)
  {
    added := if SlotOf(st, context).Zero? then [Call(context, New, RaisedBy(handler.make(context)))] else [];
    RaisesOne(added);
  }

  lemma WithoutInstanceAdds<S, V>(st: State<S, V>, context: nat, aw: nat)
    ensures WithoutInstance(st, context, aw).calls == st.calls && WithoutInstance(st, context, aw).errinfo == st.errinfo
  {
  }

  lemma StepOnAdds<S, R, V>(st: State<S, V>, handler: Handler<S, R, V>, context: nat, inst: nat, row: R) returns (added: seq<Call>)
    requires inst < |st.instances|
    ensures Adds(st, StepOn(st, handler, context, inst, row), context, added)
  {
    var instance := st.instances[inst];
    added := if instance.excStatus != 0 || instance.handler.None? then []
             else [Call(context, StepRow, RaisedBy(handler.step(instance.handler.value, row)))];
    RaisesOne(added);
  }

  lemma FinalOnAdds<S, R, V>(st: State<S, V>, handler: Handler<S, R, V>, context: nat, aw: nat, inst: nat) returns (added: seq<Call>)
    requires inst < |st.instances|
    ensures Adds(st, FinalOn(st, handler, context, aw, inst), context, added)
  {
    var instance := st.instances[inst];
    if instance.excStatus != 0 || instance.handler.None? {
      added := [];
      WithoutInstanceAdds(st.(results := st.results[context := Error]), context, aw);
    } else {
      var value := handler.finish(instance.handler.value);
      added := [Call(context, Finalize, RaisedBy(value))];
      var st' := st.(errinfo := ExceptionOf(value, st.errinfo), calls := st.calls + added);
      if value.Raised? {
        WithoutInstanceAdds(st'.(results := st'.results[context := Error]), context, aw);
      } else {
        WithoutInstanceAdds(st'.(results := st'.results[context := Value(value.value)]), context, aw);
      }
    }
    RaisesOne(added);
  }

  lemma HandledAdds<S, R, V>(st: State<S, V>, handlers: Handlers<S, R, V>, event: Event<R>) returns (added: seq<Call>)
    ensures Adds(st, Handled(st, handlers, event), event.context, added)
  {
    var (st1, inst) := WithInstance(st, handlers(event.aw), event.context, event.aw);
    added := WithInstanceAdds(st, handlers(event.aw), event.context, event.aw);
    if inst.Some? && inst.value < |st1.instances| {
      var more;
      if event.XStep? {
        more := StepOnAdds(st1, handlers(event.aw), event.context, inst.value, event.row);
      } else {
        more := FinalOnAdds(st1, handlers(event.aw), event.context, event.aw, inst.value);
      }
      AddsTransitive(st, st1, Handled(st, handlers, event), event.context, added, more);
      added := added + more;
    }
  }

  lemma RaisesOne(calls: seq<Call>)
    requires |calls| <= 1
    ensures Raises(calls) == if calls != [] && calls[0].raised.Some? then [calls[0].raised.value] else []
  {
    if calls != [] { assert calls[..|calls| - 1] == []; }
  }

  lemma {:induction false} RaisesAppend(a: seq<Call>, b: seq<Call>)
    ensures Raises(a + b) == Raises(a) + Raises(b)
  {
    if b == [] {
      assert a + b == a;
    } else {
      RaisesAppend(a, b[..|b| - 1]);
      assert (a + b)[..|a + b| - 1] == a + b[..|b| - 1];
    }
  }

  lemma PendingAppend(a: seq<Exn>, b: seq<Exn>, before: Option<Exn>)
    ensures Pending(a + b, before) == Pending(b, Pending(a, before))
  {
  }

  lemma {:induction false} RunPending<S, R, V>(handlers: Handlers<S, R, V>, events: seq<Event<R>>)
    ensures Run(handlers, events).errinfo == Pending(Raises(Run(handlers, events).calls), None)
  {
    if events != [] {
      var n := |events| - 1;
      var before, after := Run(handlers, events[..n]), Run(handlers, events);
      RunPending(handlers, events[..n]);
      var added := HandledAdds(before, handlers, events[n]);
      RaisesAppend(before.calls, added);
      PendingAppend(Raises(before.calls), Raises(added), None);
    }
  }

  lemma {:induction false} RaisedCallOf(calls: seq<Call>) returns (context: nat)
    requires Raises(calls) != []
    ensures exists i :: 0 <= i < |CallsOf(calls, context)| && CallsOf(calls, context)[i].raised.Some?
  {
    var before, last := calls[..|calls| - 1], calls[|calls| - 1];
    if last.raised.Some? {
      context := last.context;
      assert CallsOf(calls, context)[|CallsOf(before, context)|] == last;
    } else {
      context := RaisedCallOf(before);
      var i :| 0 <= i < |CallsOf(before, context)| && CallsOf(before, context)[i].raised.Some?;
      assert CallsOf(calls, context)[i] == CallsOf(before, context)[i];
    }
  }

  lemma {:induction false} RaisedCallCounts(calls: seq<Call>, context: nat, i: nat)
    requires i < |CallsOf(calls, context)| && CallsOf(calls, context)[i].raised.Some?
    ensures Raises(calls) != []
  {
    var before := calls[..|calls| - 1];
    if i < |CallsOf(before, context)| {
      RaisedCallCounts(before, context, i);
    }
  }

  /** A context that is over reported an error exactly when one of its calls raised. */
  lemma ErrorIffRaised<S, R, V>(st: State<S, V>, handler: Handler<S, R, V>, aw: nat, context: nat, rows: seq<R>)
    requires ContextAt(st, handler, aw, context, Over, rows)
    ensures st.results[context] == Error <==>
            exists i :: 0 <= i < |CallsOf(st.calls, context)| && CallsOf(st.calls, context)[i].raised.Some?
  {
    NothingAfterRaise(handler, context, rows);
    var calls := CallsOf(st.calls, context);
    assert calls == FinalCalls(handler, context, rows);
    var last := |calls| - 1;
    assert calls[last].raised.Some? <==> st.results[context] == Error;
    assert forall i :: 0 <= i < last ==> calls[i].raised.None?;
    if st.results[context] == Error { assert CallsOf(st.calls, context)[last].raised.Some?; }
  }

  predicate ReportedError<S, V>(st: State<S, V>, context: nat) {
    context in st.results && st.results[context].Error?
  }

  /** Once every context that was started is finished, an exception is pending in the interpreter
      exactly when some context reported an error to SQLite. */
  lemma PendingIffReported<S, R, V>(handlers: Handlers<S, R, V>, wrapperOf: nat -> nat, events: seq<Event<R>>)
    requires Protocol(handlers, wrapperOf, events)
    requires forall k: nat :: Started(events, k) ==> Finished(events, k)
    ensures var st := Run(handlers, events);
            st.errinfo.Some? <==> exists k: nat :: ReportedError(st, k)
  {
    RunKeeps(handlers, wrapperOf, events);
    RunPending(handlers, events);
    var st := Run(handlers, events);
    if st.errinfo.Some? {
      var k := RaisedCallOf(st.calls);
      ContextOver(st, handlers, wrapperOf, events, k);
      assert ReportedError(st, k);
    }
    forall k: nat | ReportedError(st, k) ensures st.errinfo.Some? {
      ContextOver(st, handlers, wrapperOf, events, k);
      var i :| 0 <= i < |CallsOf(st.calls, k)| && CallsOf(st.calls, k)[i].raised.Some?;
      RaisedCallCounts(st.calls, k, i);
    }
  }

  lemma ContextOver<S, R, V>(st: State<S, V>, handlers: Handlers<S, R, V>, wrapperOf: nat -> nat, events: seq<Event<R>>, k: nat)
    requires Inv(st, handlers, wrapperOf, events) && (Started(events, k) ==> Finished(events, k))
    requires k in st.results || CallsOf(st.calls, k) != []
    ensures k in st.results
    ensures st.results[k] == Error <==> exists i :: 0 <= i < |CallsOf(st.calls, k)| && CallsOf(st.calls, k)[i].raised.Some?
  {
    var aw, rows := wrapperOf(k), Rows(events, k);
    assert ContextAt(st, handlers(aw), aw, k, PhaseOf(events, k), rows);
    ErrorIffRaised(st, handlers(aw), aw, k, rows);
  }

  // ---------------------------------------------------------------------------
  // The C functions

  /** The callbacks of one connection, on the contexts, instances and arrays they share. */
  class Callbacks<S, R, V> {
    const handlers: Handlers<S, R, V>
    var slots: map<nat, Slot>
    var instances: seq<Instance<S>>
    var inFlight: map<nat, seq<nat>>
    var results: map<nat, Reported<V>>
    var errinfo: Option<Exn>
    var calls: seq<Call>
    var fatal: bool
    var escaped: bool

    constructor (handlers: Handlers<S, R, V>)
      ensures this.handlers == handlers && Now() == Initial()
    {
      this.handlers := handlers;
      slots, instances, inFlight, results, errinfo := map[], [], map[], map[], None;
      calls, fatal, escaped := [], false, false;
    }

    ghost function Now(): State<S, V>
      reads this
    {
      State(slots, instances, inFlight, results, errinfo, calls, fatal, escaped)
    }

    method AggregateInstance(context: nat, aw: nat) returns (inst: Option<nat>)
      modifies this
      ensures (Now(), inst) == WithInstance(old(Now()), handlers(aw), context, aw)
    {
      var slot := if context in slots then slots[context] else Zero;
      if slot.Zero? {
        var made := handlers(aw).make(context);
        var instance;
        if made.Returned? {
          instance := Instance(Some(made.value), 0, context);
        } else {
          errinfo := Some(made.exception);
          instance := Instance(None, 1, context);
        }
        calls := calls + [Call(context, New, RaisedBy(made))];
        slot := Held(|instances|);
        instances := instances + [instance];
        inFlight := inFlight[aw := (if aw in inFlight then inFlight[aw] else []) + [slot.inst]];
        slots := slots[context := slot];
      }
      if slot.Nil? {
        fatal := true;
        return None;
      }
      return Some(slot.inst);
    }

    method AggregateInstanceDestroy(context: nat, aw: nat)
      modifies this
      ensures Now() == WithoutInstance(old(Now()), context, aw)
    {
      if context !in slots || slots[context].Zero? { return; }
      if slots[context].Nil? {
        fatal := true;
        return;
      }
      var inst := slots[context].inst;
      var live := if aw in inFlight then inFlight[aw] else [];
      if inst >= |instances| || inst !in live {
        fatal := true;
        return;
      }
      instances := instances[inst := instances[inst].(handler := None)];
      inFlight := inFlight[aw := Without(live, inst)];
      slots := slots[context := Nil];
    }

    method AggregatorStep(context: nat, aw: nat, row: R)
      modifies this
      ensures Now() == Handled(old(Now()), handlers, XStep(context, aw, row))
    {
      var inst := AggregateInstance(context, aw);
      if inst.None? || inst.value >= |instances| { return; }
      var instance := instances[inst.value];
      if instance.excStatus != 0 || instance.handler.None? { return; }
      var next := handlers(aw).step(instance.handler.value, row);
      calls := calls + [Call(context, StepRow, RaisedBy(next))];
      if next.Returned? {
        instances := instances[inst.value := instance.(handler := Some(next.value))];
      } else {
        errinfo := Some(next.exception);
        instances := instances[inst.value := instance.(excStatus := 1)];
      }
    }

    method AggregatorFinal(context: nat, aw: nat)
      modifies this
      ensures Now() == Handled(old(Now()), handlers, XFinal(context, aw))
    {
      var inst := AggregateInstance(context, aw);
      if inst.None? || inst.value >= |instances| { return; }
      var instance := instances[inst.value];
      var failed := instance.excStatus != 0 || instance.handler.None?;
      if !failed {
        var value := handlers(aw).finish(instance.handler.value);
        calls := calls + [Call(context, Finalize, RaisedBy(value))];
        if value.Raised? {
          errinfo := Some(value.exception);
          failed := true;
        } else if !handlers(aw).convertible(value.value) {
          escaped := true;
          return;
        } else {
          results := results[context := Value(value.value)];
        }
      }
      if failed {
        results := results[context := Error];
      }
      AggregateInstanceDestroy(context, aw);
    }
  }
}
