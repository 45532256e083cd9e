/**
 Exceptions raised in callbacks during `sqlite3_step`, from the callback (rb_sqlite3_func in
 ext/sqlite3/database.c, the aggregate callbacks) to `Statement#step` (ext/sqlite3/statement.c).
 */
module CallbackExceptions {
  import opened Wrappers
  import Agg = Aggregator
  import Cursor

  // ---------------------------------------------------------------------------
  // Scalar functions

  /** The arguments as Ruby values, or the exception of the first that does not convert. */
  function Arguments<A>(arguments: seq<Agg.Outcome<A>>): Agg.Outcome<seq<A>> {
    if arguments == [] then Agg.Returned([])
    else if arguments[0].Raised? then Agg.Raised(arguments[0].exception)
    else
      match Arguments(arguments[1..])
      case Raised(exception) => Agg.Raised(exception)
      case Returned(values) => Agg.Returned([arguments[0].value] + values)
  }

  lemma {:induction false} FirstFailingArgument<A>(arguments: seq<Agg.Outcome<A>>)
    ensures Arguments(arguments).Returned? <==> forall i :: 0 <= i < |arguments| ==> arguments[i].Returned?
    ensures forall k :: 0 <= k < |arguments| && arguments[k].Raised? && (forall i :: 0 <= i < k ==> arguments[i].Returned?) ==>
              Arguments(arguments) == Agg.Raised(arguments[k].exception)
    ensures Arguments(arguments).Returned? ==>
              |Arguments(arguments).value| == |arguments|
              && forall i :: 0 <= i < |arguments| ==> arguments[i] == Agg.Returned(Arguments(arguments).value[i])
  {
    if arguments != [] {
      FirstFailingArgument(arguments[1..]);
      assert forall i :: 0 < i < |arguments| ==> arguments[i] == arguments[1..][i - 1];
    }
  }

  /** One call: the arguments are converted, the block is called, its value is converted; the first
      exception ends it. */
  function ScalarOutcome<A, V>(arguments: seq<Agg.Outcome<A>>, block: seq<A> -> Agg.Outcome<V>, convert: V -> Option<Exn>)
    : Agg.Outcome<V>
  {
    match Arguments(arguments)
    case Raised(exception) => Agg.Raised(exception)
    case Returned(values) =>
      var called := block(values);
      if called.Returned? && convert(called.value).Some? then Agg.Raised(convert(called.value).value) else called
  }

  /** If an argument does not convert the block is not reached, and if the block raises its value is not
      converted; the exception is that of the first to fail; and else the block's value is the outcome. */
  lemma ScalarOutcomeIs<A, V>(arguments: seq<Agg.Outcome<A>>, values: seq<A>, block: seq<A> -> Agg.Outcome<V>,
                              convert: V -> Option<Exn>, k: nat)
    ensures k < |arguments| && arguments[k].Raised? && (forall i :: 0 <= i < k ==> arguments[i].Returned?) ==>
              ScalarOutcome(arguments, block, convert) == Agg.Raised(arguments[k].exception)
    ensures |values| == |arguments| && (forall i :: 0 <= i < |values| ==> arguments[i] == Agg.Returned(values[i])) ==>
              var called, outcome := block(values), ScalarOutcome(arguments, block, convert);
              && (called.Raised? ==> outcome == Agg.Raised(called.exception))
              && (called.Returned? && convert(called.value).Some? ==> outcome == Agg.Raised(convert(called.value).value))
              && (called.Returned? && convert(called.value).None? ==> outcome == Agg.Returned(called.value))
  {
    FirstFailingArgument(arguments);
    if |values| == |arguments| && forall i :: 0 <= i < |values| ==> arguments[i] == Agg.Returned(values[i]) {
      assert Arguments(arguments).value == values;
    }
  }

  /** rb_sqlite3_func: all of it is protected, so an exception from anywhere in it, and nothing else, is
      reported to SQLite as an error and left pending. */
  method ScalarFunction<A, V>(arguments: seq<Agg.Outcome<A>>, block: seq<A> -> Agg.Outcome<V>, convert: V -> Option<Exn>,
                              errinfo: Option<Exn>)
    returns (reported: Agg.Reported<V>, pending: Option<Exn>)
    ensures pending == Agg.ExceptionOf(ScalarOutcome(arguments, block, convert), errinfo)
    ensures reported == var outcome := ScalarOutcome(arguments, block, convert);
                        if outcome.Raised? then Agg.Error else Agg.Value(outcome.value)
  {
    FirstFailingArgument(arguments);
    var params, i := [], 0;
    while i < |arguments|
      invariant 0 <= i <= |arguments| && |params| == i
      invariant forall j :: 0 <= j < i ==> arguments[j] == Agg.Returned(params[j])
    {
      if arguments[i].Raised? { return Agg.Error, Some(arguments[i].exception); }
      params := params + [arguments[i].value];
      i := i + 1;
    }
    assert Arguments(arguments).Returned? && params == Arguments(arguments).value;
    var result := block(params);
    if result.Raised? { return Agg.Error, Some(result.exception); }
    var conversion := convert(result.value);
    if conversion.Some? { return Agg.Error, conversion; }
    return Agg.Value(result.value), errinfo;
  }

  // ---------------------------------------------------------------------------
  // The callbacks of a statement, over any number of steps

  /** What happens while a statement is stepped. A callback may step another statement, whose callbacks
      then happen at a greater depth. `Statement#step` takes the pending exception, whichever statement's
      callback raised it, and raises it: out of the outermost step (StepReturned), or in the callback that
      made a nested one, where it may be rescued; if not, it is on its way through that callback and stays.
      `kept` is whether a callback's rescue of an exception of its own leaves a pending one alone. */
  datatype Happening<R, V> =
    | Aggregate(event: Agg.Event<R>)
    | Scalar(outcome: Agg.Outcome<V>)
    | NestedStarted
    | NestedReturned(rescued: bool)
    | Rescue(kept: bool)
    | StepReturned

  type History<R, V> = seq<Happening<R, V>>

  /** Ruby code in a callback leaves no exception pending. */
  predicate Clears<R, V>(happening: Happening<R, V>) {
    (happening.NestedReturned? && happening.rescued) || (happening.Rescue? && !happening.kept)
  }

  function Happened<S, R, V>(st: Agg.State<S, V>, handlers: Agg.Handlers<S, R, V>, last: Happening<R, V>): Agg.State<S, V> {
    match last
    case Aggregate(event) => Agg.Handled(st, handlers, event)
    case Scalar(outcome) => st.(errinfo := Agg.ExceptionOf(outcome, st.errinfo))
    case _ => if Clears(last) || last.StepReturned? then st.(errinfo := None) else st
  }

  function Played<S, R, V>(handlers: Agg.Handlers<S, R, V>, history: History<R, V>): Agg.State<S, V> {
    if history == [] then Agg.Initial()
    else Happened(Played(handlers, history[..|history| - 1]), handlers, history[|history| - 1])
  }

  function DepthAfter<R, V>(depth: nat, last: Happening<R, V>): nat {
    if last.StepReturned? then 0
    else if last.NestedStarted? then depth + 1
    else if last.NestedReturned? && depth > 0 then depth - 1
    else depth
  }

  /** Steps nested in the outermost one. */
  function Depth<R, V>(history: History<R, V>): nat {
    if history == [] then 0 else DepthAfter(Depth(history[..|history| - 1]), history[|history| - 1])
  }

  /** The aggregate callbacks among them, those of earlier steps and of other statements included. */
  function Events<R, V>(history: History<R, V>): seq<Agg.Event<R>> {
    if history == [] then []
    else
      var last := history[|history| - 1];
      Events(history[..|history| - 1]) + (if last.Aggregate? then [last.event] else [])
  }

  /** What the last callback raised. */
  function RaisedLast<S, R, V>(handlers: Agg.Handlers<S, R, V>, history: History<R, V>): seq<Exn>
    requires history != []
  {
    match history[|history| - 1]
    case Aggregate(_) =>
      Agg.Raises(Since(Played(handlers, history).calls, |Played(handlers, history[..|history| - 1]).calls|))
    case Scalar(outcome) => if outcome.Raised? then [outcome.exception] else []
    case _ => []
  }

  function Since(calls: seq<Agg.Call>, n: nat): seq<Agg.Call> {
    if n <= |calls| then calls[n..] else []
  }

  /** What was raised, in order, by handler methods and scalar functions since the last step returned, in
      nested steps too. */
  function RaisedNow<S, R, V>(handlers: Agg.Handlers<S, R, V>, history: History<R, V>): seq<Exn> {
    if history == [] || history[|history| - 1].StepReturned? then []
    else RaisedNow(handlers, history[..|history| - 1]) + RaisedLast(handlers, history)
  }

  /** Of these, what the callbacks of the outermost step raised. */
  function RaisedOwn<S, R, V>(handlers: Agg.Handlers<S, R, V>, history: History<R, V>): seq<Exn> {
    if history == [] || history[|history| - 1].StepReturned? then []
    else
      var before := history[..|history| - 1];
      RaisedOwn(handlers, before) + (if Depth(before) == 0 then RaisedLast(handlers, history) else [])
  }

  /** After the last raise in this step, a rescue left nothing pending. */
  predicate ClearedSinceRaise<S, R, V>(handlers: Agg.Handlers<S, R, V>, history: History<R, V>) {
    && history != [] && !history[|history| - 1].StepReturned?
    && RaisedLast(handlers, history) == []
    && (Clears(history[|history| - 1]) || ClearedSinceRaise(handlers, history[..|history| - 1]))
  }

  predicate ScalarRaisedNow<R, V>(history: History<R, V>) {
    && history != [] && !history[|history| - 1].StepReturned?
    && var before, last := history[..|history| - 1], history[|history| - 1];
       (last.Scalar? && last.outcome.Raised? && Depth(before) == 0) || ScalarRaisedNow(before)
  }

  /** The context made a callback of the outermost step since the last one returned. */
  predicate CalledNow<R, V>(history: History<R, V>, k: nat) {
    && history != [] && !history[|history| - 1].StepReturned?
    && var before, last := history[..|history| - 1], history[|history| - 1];
       (last.Aggregate? && last.event.context == k && Depth(before) == 0) || CalledNow(before, k)
  }

  /** That callback was its xFinal. */
  predicate FinishedNow<R, V>(history: History<R, V>, k: nat) {
    && history != [] && !history[|history| - 1].StepReturned?
    && var before, last := history[..|history| - 1], history[|history| - 1];
       (last.Aggregate? && last.event.XFinal? && last.event.context == k && Depth(before) == 0) || FinishedNow(before, k)
  }

  /** A context belongs to one statement: nested steps do not call back for those of the outermost one. */
  predicate WellNested<R, V>(history: History<R, V>) {
    history == [] ||
    (var before, last := history[..|history| - 1], history[|history| - 1];
     WellNested(before) && (last.Aggregate? && Depth(before) > 0 ==> !CalledNow(before, last.event.context)))
  }

  /** The context made a callback in an earlier step. */
  predicate StartedBefore<R, V>(history: History<R, V>, k: nat) {
    && history != []
    && if history[|history| - 1].StepReturned? then Agg.Started(Events(history), k) else StartedBefore(history[..|history| - 1], k)
  }

  /** The outermost step was told of an error since the last one returned: by a scalar function, or by an
      xFinal. */
  predicate ReportedNow<S, R, V>(handlers: Agg.Handlers<S, R, V>, history: History<R, V>) {
    && history != [] && !history[|history| - 1].StepReturned?
    && var before, last := history[..|history| - 1], history[|history| - 1];
       || ReportedNow(handlers, before)
       || (Depth(before) == 0 && last.Scalar? && last.outcome.Raised?)
       || (Depth(before) == 0 && last.Aggregate? && last.event.XFinal?
           && Agg.ReportedError(Played(handlers, history), last.event.context))
  }

  /** The group on its own comes to an error. */
  predicate GroupFails<S, R, V>(handlers: Agg.Handlers<S, R, V>, wrapperOf: nat -> nat, history: History<R, V>, k: nat) {
    Agg.Expected(handlers(wrapperOf(k)), k, Agg.Rows(Events(history), k)).Error?
  }

  /** The group is in flight, and a method of it has raised. */
  predicate FailedInFlight<S, R, V>(handlers: Agg.Handlers<S, R, V>, wrapperOf: nat -> nat, history: History<R, V>, k: nat) {
    && Agg.Started(Events(history), k) && !Agg.Finished(Events(history), k)
    && Agg.Fold(handlers(wrapperOf(k)), k, Agg.Rows(Events(history), k)).Raised?
  }

  // ---------------------------------------------------------------------------
  // What `step` raises

  lemma AddedNow<S, R, V>(handlers: Agg.Handlers<S, R, V>, history: History<R, V>) returns (added: seq<Agg.Call>)
    requires history != [] && history[|history| - 1].Aggregate?
    ensures Agg.Adds(Played(handlers, history[..|history| - 1]), Played(handlers, history),
                     history[|history| - 1].event.context, added)
    ensures RaisedLast(handlers, history) == Agg.Raises(added)
  {
    var before := history[..|history| - 1];
    added := Agg.HandledAdds(Played(handlers, before), handlers, history[|history| - 1].event);
    assert Since(Played(handlers, history).calls, |Played(handlers, before).calls|) == added;
  }

  /** One happening more: what it raises is pending, the last of it; a rescue may clear; the rest does
      nothing to it. */
  lemma PendingNext<S, R, V>(handlers: Agg.Handlers<S, R, V>, history: History<R, V>)
    requires history != []
    ensures var last := history[|history| - 1];
            Played(handlers, history).errinfo ==
              if last.StepReturned? || Clears(last) then None
              else Agg.Pending(RaisedLast(handlers, history), Played(handlers, history[..|history| - 1]).errinfo)
  {
    if history[|history| - 1].Aggregate? {
      var added := AddedNow(handlers, history);
    }
  }

  lemma {:induction false} PendingIsLastRaised<S, R, V>(handlers: Agg.Handlers<S, R, V>, history: History<R, V>)
    ensures Played(handlers, history).errinfo ==
              if ClearedSinceRaise(handlers, history) then None else Agg.Pending(RaisedNow(handlers, history), None)
  {
    if history != [] {
      var before := history[..|history| - 1];
      PendingIsLastRaised(handlers, before);
      PendingNext(handlers, history);
      Agg.PendingAppend(RaisedNow(handlers, before), RaisedLast(handlers, history), None);
    }
  }

  /** What becomes of the pending exception when no callback raises: a nested step's exception that is rescued
      is gone, and so is a pending one that a rescue in a callback does not keep; the rest leaves it be,
      until the outermost step returns. */
  lemma WhoClearsPending<S, R, V>(handlers: Agg.Handlers<S, R, V>, before: History<R, V>, rescued: bool)
    ensures var errinfo := Played(handlers, before).errinfo;
            && Played(handlers, before + [NestedStarted]).errinfo == errinfo
            && Played(handlers, before + [NestedReturned(rescued)]).errinfo == (if rescued then None else errinfo)
            && Played(handlers, before + [Rescue(rescued)]).errinfo == (if rescued then errinfo else None)
            && Played(handlers, before + [StepReturned]).errinfo == None
  {
    OneHappeningMore(handlers, before, NestedStarted);
    OneHappeningMore(handlers, before, NestedReturned(rescued));
    OneHappeningMore(handlers, before, Rescue(rescued));
    OneHappeningMore(handlers, before, StepReturned);
  }

  /** Whatever happened in this step and in earlier ones, contexts in flight or not, other statements stepped
      in callbacks or not: if a handler method or scalar function raised since the last step returned,
      `Statement#step` raises the exception raised last, if and only if no rescue cleared it after that;
      and then it returns no row, and the statement is not at the end. If none raised, none is pending.
      The same goes for a nested step that returns at this point. */
  lemma RaiseReachesStep<S, R, V>(handlers: Agg.Handlers<S, R, V>, history: History<R, V>, rest: seq<Cursor.Pulse>)
    requires rest != [] && rest[0].raised == Played(handlers, history).errinfo
    ensures var raised, cleared := RaisedNow(handlers, history), ClearedSinceRaise(handlers, history);
            && (rest[0].raised.Some? <==> raised != [] && !cleared)
            && (raised != [] ==>
                  (Cursor.AnswerTo(rest[0]) == Cursor.Raised(Cursor.Callback(raised[|raised| - 1])) <==> !cleared))
            && (raised != [] && !cleared ==> Cursor.After(rest) != Cursor.AtEnd)
  {
    PendingIsLastRaised(handlers, history);
  }

  // ---------------------------------------------------------------------------
  // What SQLite is told

  lemma ErrinfoApart<S, R, V>(st: Agg.State<S, V>, handlers: Agg.Handlers<S, R, V>, wrapperOf: nat -> nat,
                              events: seq<Agg.Event<R>>, errinfo: Option<Exn>)
    requires Agg.Inv(st, handlers, wrapperOf, events)
    ensures Agg.Inv(st.(errinfo := errinfo), handlers, wrapperOf, events)
  {
    var st' := st.(errinfo := errinfo);
    forall aw: nat ensures Agg.ArrayOk(st', wrapperOf, aw) {
      assert Agg.ArrayOk(st, wrapperOf, aw);
    }
    forall k: nat
      ensures Agg.ContextAt(st', handlers(wrapperOf(k)), wrapperOf(k), k, Agg.PhaseOf(events, k), Agg.Rows(events, k))
    {
      assert Agg.ContextAt(st, handlers(wrapperOf(k)), wrapperOf(k), k, Agg.PhaseOf(events, k), Agg.Rows(events, k));
    }
  }

  lemma EventsNext<R, V>(history: History<R, V>)
    requires history != []
    ensures var before, last := history[..|history| - 1], history[|history| - 1];
            Events(history) == if last.Aggregate? then Events(before) + [last.event] else Events(before)
  {
  }

  lemma ProtocolNext<S, R, V>(handlers: Agg.Handlers<S, R, V>, wrapperOf: nat -> nat, before: seq<Agg.Event<R>>, event: Agg.Event<R>)
    requires Agg.Protocol(handlers, wrapperOf, before + [event])
    ensures Agg.Protocol(handlers, wrapperOf, before)
    ensures event.aw == wrapperOf(event.context) && !Agg.Finished(before, event.context)
    ensures event.XFinal? ==> Agg.ResultConvertible(handlers(event.aw), event.context, Agg.Rows(before, event.context))
  {
    assert (before + [event])[..|before|] == before;
  }

  lemma ProtocolBefore<S, R, V>(handlers: Agg.Handlers<S, R, V>, wrapperOf: nat -> nat, history: History<R, V>)
    requires history != [] && Agg.Protocol(handlers, wrapperOf, Events(history))
    ensures var before, last := history[..|history| - 1], history[|history| - 1];
            && Agg.Protocol(handlers, wrapperOf, Events(before))
            && Events(history) == (if last.Aggregate? then Events(before) + [last.event] else Events(before))
            && (last.Aggregate? ==> last.event.aw == wrapperOf(last.event.context)
                                    && !Agg.Finished(Events(before), last.event.context))
  {
    var before, last := history[..|history| - 1], history[|history| - 1];
    EventsNext(history);
    if last.Aggregate? { ProtocolNext(handlers, wrapperOf, Events(before), last.event); }
  }

  /** The aggregates are in order whatever scalar functions and returns come between their callbacks. */
  lemma {:induction false} PlayedKeeps<S, R, V>(handlers: Agg.Handlers<S, R, V>, wrapperOf: nat -> nat, history: History<R, V>)
    requires Agg.Protocol(handlers, wrapperOf, Events(history))
    ensures Agg.Inv(Played(handlers, history), handlers, wrapperOf, Events(history))
  {
    if history == [] {
      Agg.InitialKeeps(handlers, wrapperOf);
    } else {
      var before, last := history[..|history| - 1], history[|history| - 1];
      ProtocolBefore(handlers, wrapperOf, history);
      PlayedKeeps(handlers, wrapperOf, before);
      if last.Aggregate? {
        ProtocolNext(handlers, wrapperOf, Events(before), last.event);
        Agg.EventKeeps(Played(handlers, before), handlers, wrapperOf, Events(before), last.event);
      } else {
        var st := Played(handlers, before);
        ErrinfoApart(st, handlers, wrapperOf, Events(before), Played(handlers, history).errinfo);
        assert Played(handlers, history) == st.(errinfo := Played(handlers, history).errinfo);
      }
    }
  }

  lemma {:induction false} FinishedNowIsFinished<R, V>(history: History<R, V>, k: nat)
    requires FinishedNow(history, k)
    ensures Agg.Finished(Events(history), k)
  {
    var before := history[..|history| - 1];
    if FinishedNow(before, k) { FinishedNowIsFinished(before, k); }
    EventsNext(history);
    assert history[|history| - 1].Aggregate? ==> Events(history)[..|Events(before)|] == Events(before);
  }

  /** A callback of another context. */
  lemma OtherContext<R>(before: seq<Agg.Event<R>>, event: Agg.Event<R>, k: nat)
    requires k != event.context
    ensures Agg.Rows(before + [event], k) == Agg.Rows(before, k)
    ensures Agg.Started(before + [event], k) <==> Agg.Started(before, k)
    ensures Agg.Finished(before + [event], k) <==> Agg.Finished(before, k)
  {
    assert (before + [event])[..|before|] == before;
  }

  /** SQLite is told of an error in a step exactly if a scalar function raised in it, or a group was
      finished in it that fails, be it for a raise in an earlier step. */
  lemma {:induction false} ReportedIff<S, R, V>(handlers: Agg.Handlers<S, R, V>, wrapperOf: nat -> nat, history: History<R, V>)
    requires Agg.Protocol(handlers, wrapperOf, Events(history))
    ensures ReportedNow(handlers, history) <==>
            ScalarRaisedNow(history) || exists k: nat :: FinishedNow(history, k) && GroupFails(handlers, wrapperOf, history, k)
  {
    if history != [] {
      var before, last := history[..|history| - 1], history[|history| - 1];
      ProtocolBefore(handlers, wrapperOf, history);
      ReportedIff(handlers, wrapperOf, before);
      forall k: nat | !last.StepReturned? && !(last.Aggregate? && Depth(before) == 0 && last.event.context == k)
        ensures FinishedNow(history, k) <==> FinishedNow(before, k)
        ensures FinishedNow(before, k) ==>
                  (GroupFails(handlers, wrapperOf, history, k) <==> GroupFails(handlers, wrapperOf, before, k))
      {
        if FinishedNow(before, k) { FinishedNowIsFinished(before, k); }
        if last.Aggregate? && k != last.event.context { OtherContext(Events(before), last.event, k); }
      }
      if last.Aggregate? && Depth(before) == 0 {
        OwnReport(handlers, wrapperOf, history);
      }
    }
  }

  /** A context's own callback is the first of the step to finish it, if it does, and reports accordingly. */
  lemma OwnReport<S, R, V>(handlers: Agg.Handlers<S, R, V>, wrapperOf: nat -> nat, history: History<R, V>)
    requires Agg.Protocol(handlers, wrapperOf, Events(history)) && history != [] && history[|history| - 1].Aggregate?
    requires Depth(history[..|history| - 1]) == 0
    ensures var event := history[|history| - 1].event;
            && !FinishedNow(history[..|history| - 1], event.context)
            && (FinishedNow(history, event.context) <==> event.XFinal?)
            && (event.XFinal? ==> (Agg.ReportedError(Played(handlers, history), event.context)
                                   <==> GroupFails(handlers, wrapperOf, history, event.context)))
  {
    var before, event := history[..|history| - 1], history[|history| - 1].event;
    ProtocolBefore(handlers, wrapperOf, history);
    if FinishedNow(before, event.context) { FinishedNowIsFinished(before, event.context); }
    if event.XFinal? {
      PlayedKeeps(handlers, wrapperOf, history);
      FinishedNowIsFinished(history, event.context);
      FinishedReports(handlers, wrapperOf, history, event.context);
    }
  }

  lemma FinishedReports<S, R, V>(handlers: Agg.Handlers<S, R, V>, wrapperOf: nat -> nat, history: History<R, V>, k: nat)
    requires Agg.Inv(Played(handlers, history), handlers, wrapperOf, Events(history)) && Agg.Finished(Events(history), k)
    ensures Agg.ReportedError(Played(handlers, history), k) <==> GroupFails(handlers, wrapperOf, history, k)
  {
    assert Agg.PhaseOf(Events(history), k) == Agg.Over;
    assert Agg.ContextAt(Played(handlers, history), handlers(wrapperOf(k)), wrapperOf(k), k, Agg.PhaseOf(Events(history), k),
                         Agg.Rows(Events(history), k));
  }

  // ---------------------------------------------------------------------------
  // When a step that raised may have had a row

  lemma {:induction false} CallsOfAppend(a: seq<Agg.Call>, b: seq<Agg.Call>, k: nat)
    ensures Agg.CallsOf(a + b, k) == Agg.CallsOf(a, k) + Agg.CallsOf(b, k)
  {
    if b == [] {
      assert a + b == a;
    } else {
      CallsOfAppend(a, b[..|b| - 1], k);
      assert (a + b)[..|a + b| - 1] == a + b[..|b| - 1];
    }
  }

  lemma {:induction false} CallsOfOne(calls: seq<Agg.Call>, context: nat, k: nat)
    requires forall i :: 0 <= i < |calls| ==> calls[i].context == context
    ensures Agg.CallsOf(calls, k) == if k == context then calls else []
  {
    if calls != [] { CallsOfOne(calls[..|calls| - 1], context, k); }
  }

  lemma {:induction false} SomeCallRaised(calls: seq<Agg.Call>) returns (i: nat)
    requires Agg.Raises(calls) != []
    ensures i < |calls| && calls[i].raised.Some?
  {
    i := |calls| - 1;
    if calls[i].raised.None? { i := SomeCallRaised(calls[..i]); }
  }

  /** If a method of the group ever raised, the group has failed. */
  lemma RaisedGroupFails<S, R, V>(handlers: Agg.Handlers<S, R, V>, wrapperOf: nat -> nat, history: History<R, V>, k: nat)
    requires Agg.Inv(Played(handlers, history), handlers, wrapperOf, Events(history))
    requires Agg.Raises(Agg.CallsOf(Played(handlers, history).calls, k)) != []
    ensures if Agg.Finished(Events(history), k) then GroupFails(handlers, wrapperOf, history, k)
            else FailedInFlight(handlers, wrapperOf, history, k)
  {
    var handler, rows := handlers(wrapperOf(k)), Agg.Rows(Events(history), k);
    assert Agg.ContextAt(Played(handlers, history), handler, wrapperOf(k), k, Agg.PhaseOf(Events(history), k), rows);
    var i := SomeCallRaised(Agg.CallsOf(Played(handlers, history).calls, k));
    Agg.NothingAfterRaise(handler, k, rows);
  }

  ghost predicate RaiseTraced<S, R, V>(handlers: Agg.Handlers<S, R, V>, wrapperOf: nat -> nat, history: History<R, V>, k: nat) {
    || (FinishedNow(history, k) && GroupFails(handlers, wrapperOf, history, k))
    || (CalledNow(history, k) && FailedInFlight(handlers, wrapperOf, history, k))
  }

  /** A callback in which a method raised leaves its own group failed. */
  lemma RaiseFailsGroup<S, R, V>(handlers: Agg.Handlers<S, R, V>, wrapperOf: nat -> nat, history: History<R, V>, added: seq<Agg.Call>)
    requires Agg.Protocol(handlers, wrapperOf, Events(history)) && history != [] && history[|history| - 1].Aggregate?
    requires Agg.Adds(Played(handlers, history[..|history| - 1]), Played(handlers, history),
                      history[|history| - 1].event.context, added)
    requires Agg.Raises(added) != [] && Depth(history[..|history| - 1]) == 0
    ensures RaiseTraced(handlers, wrapperOf, history, history[|history| - 1].event.context)
  {
    var before, c := history[..|history| - 1], history[|history| - 1].event.context;
    PlayedKeeps(handlers, wrapperOf, history);
    ProtocolBefore(handlers, wrapperOf, history);
    CallsOfAppend(Played(handlers, before).calls, added, c);
    CallsOfOne(added, c, c);
    Agg.RaisesAppend(Agg.CallsOf(Played(handlers, before).calls, c), added);
    RaisedGroupFails(handlers, wrapperOf, history, c);
    EventFinishes(history);
  }

  /** A raise of the step's own callbacks is that of a scalar function, of a group that failed and was
      finished in it, or of one that failed and is in flight. */
  lemma {:induction false} RaiseHasCause<S, R, V>(handlers: Agg.Handlers<S, R, V>, wrapperOf: nat -> nat, history: History<R, V>)
    requires Agg.Protocol(handlers, wrapperOf, Events(history)) && WellNested(history) && RaisedOwn(handlers, history) != []
    ensures ScalarRaisedNow(history) || exists k: nat :: RaiseTraced(handlers, wrapperOf, history, k)
  {
    var before, last := history[..|history| - 1], history[|history| - 1];
    ProtocolBefore(handlers, wrapperOf, history);
    if RaisedOwn(handlers, before) != [] {
      RaiseHasCause(handlers, wrapperOf, before);
      if !ScalarRaisedNow(before) {
        var k: nat :| RaiseTraced(handlers, wrapperOf, before, k);
        CauseStays(handlers, wrapperOf, history, k);
      }
    } else if last.Aggregate? {
      var added := AddedNow(handlers, history);
      RaiseFailsGroup(handlers, wrapperOf, history, added);
    }
  }

  lemma FinishedNext<R>(before: seq<Agg.Event<R>>, event: Agg.Event<R>)
    ensures Agg.Finished(before + [event], event.context) <==> event.XFinal? || Agg.Finished(before, event.context)
  {
    assert (before + [event])[..|before|] == before;
  }

  lemma EventFinishes<R, V>(history: History<R, V>)
    requires history != [] && history[|history| - 1].Aggregate?
    requires !Agg.Finished(Events(history[..|history| - 1]), history[|history| - 1].event.context)
    requires Depth(history[..|history| - 1]) == 0
    ensures var event := history[|history| - 1].event;
            Agg.Finished(Events(history), event.context) <==> FinishedNow(history, event.context)
    ensures CalledNow(history, history[|history| - 1].event.context)
  {
    var before, event := history[..|history| - 1], history[|history| - 1].event;
    EventsNext(history);
    FinishedNext(Events(before), event);
    if FinishedNow(before, event.context) { FinishedNowIsFinished(before, event.context); }
  }

  lemma CauseStays<S, R, V>(handlers: Agg.Handlers<S, R, V>, wrapperOf: nat -> nat, history: History<R, V>, k: nat)
    requires Agg.Protocol(handlers, wrapperOf, Events(history)) && WellNested(history)
    requires history != [] && !history[|history| - 1].StepReturned?
    requires RaiseTraced(handlers, wrapperOf, history[..|history| - 1], k)
    ensures RaiseTraced(handlers, wrapperOf, history, k)
  {
    var before, last := history[..|history| - 1], history[|history| - 1];
    ProtocolBefore(handlers, wrapperOf, history);
    if last.Aggregate? {
      if k != last.event.context {
        OtherContext(Events(before), last.event, k);
      } else {
        if FinishedNow(before, k) { FinishedNowIsFinished(before, k); }
        OwnCauseStays(handlers, wrapperOf, history, k);
      }
    }
  }

  /** A group that failed in flight stays so, or is finished and fails. */
  lemma OwnCauseStays<S, R, V>(handlers: Agg.Handlers<S, R, V>, wrapperOf: nat -> nat, history: History<R, V>, k: nat)
    requires history != [] && history[|history| - 1].Aggregate? && history[|history| - 1].event.context == k
    requires Events(history) == Events(history[..|history| - 1]) + [history[|history| - 1].event]
    requires FailedInFlight(handlers, wrapperOf, history[..|history| - 1], k) && Depth(history[..|history| - 1]) == 0
    ensures RaiseTraced(handlers, wrapperOf, history, k)
  {
    var before, event := Events(history[..|history| - 1]), history[|history| - 1].event;
    Agg.OwnContext(before, event);
    EventFinishes(history);
    assert Agg.Started(Events(history), k);
    if event.XStep? { Agg.FoldNext(handlers(wrapperOf(k)), k, Agg.Rows(before, k), event.row); }
    else { assert Agg.Rows(Events(history), k) == Agg.Rows(before, k); }
  }

  /** A step in which one of its own callbacks raised starts its program over, unless SQLite had a row to
      return all the same. It can have one exactly if no scalar function of it raised and no group
      finished in it fails; and then a group of it is in flight that has failed, of which SQLite was told
      nothing yet. */
  lemma RowNeedsFailedGroupInFlight<S, R, V>(handlers: Agg.Handlers<S, R, V>, wrapperOf: nat -> nat, history: History<R, V>,
                                             rest: seq<Cursor.Pulse>)
    requires Agg.Protocol(handlers, wrapperOf, Events(history)) && WellNested(history) && RaisedOwn(handlers, history) != []
    requires rest != []
    requires ReportedNow(handlers, history) ==> rest[0].code.Failed?        // SQLite's rule
    ensures Cursor.After(rest) == Cursor.AtStart
            || exists k: nat :: CalledNow(history, k) && FailedInFlight(handlers, wrapperOf, history, k)
    ensures ReportedNow(handlers, history) <==>
            ScalarRaisedNow(history) || exists k: nat :: FinishedNow(history, k) && GroupFails(handlers, wrapperOf, history, k)
    ensures !ReportedNow(handlers, history) ==>
              exists k: nat :: CalledNow(history, k) && FailedInFlight(handlers, wrapperOf, history, k)
  {
    ReportedIff(handlers, wrapperOf, history);
    RaiseHasCause(handlers, wrapperOf, history);
    if !ReportedNow(handlers, history) {
      var k: nat :| RaiseTraced(handlers, wrapperOf, history, k);
      assert CalledNow(history, k) && FailedInFlight(handlers, wrapperOf, history, k);
    }
  }

  // ---------------------------------------------------------------------------
  // When the message meant for nobody is seen

  lemma {:induction false} CallsNeedStart<S, R, V>(handlers: Agg.Handlers<S, R, V>, history: History<R, V>, k: nat)
    ensures Agg.CallsOf(Played(handlers, history).calls, k) != [] ==> Agg.Started(Events(history), k)
  {
    if history != [] {
      var before, last := history[..|history| - 1], history[|history| - 1];
      CallsNeedStart(handlers, before, k);
      EventsNext(history);
      if last.Aggregate? {
        var added := Agg.HandledAdds(Played(handlers, before), handlers, last.event);
        CallsOfAppend(Played(handlers, before).calls, added, k);
        CallsOfOne(added, last.event.context, k);
        assert Events(history)[..|Events(before)|] == Events(before);
      }
    }
  }

  /** What a group that started in this step raised, was raised in this step. */
  lemma {:induction false} FreshGroupRaisesNow<S, R, V>(handlers: Agg.Handlers<S, R, V>, history: History<R, V>, k: nat)
    requires !StartedBefore(history, k) && Agg.Raises(Agg.CallsOf(Played(handlers, history).calls, k)) != []
    ensures RaisedNow(handlers, history) != []
  {
    CallsNeedStart(handlers, history, k);
    if history != [] && !history[|history| - 1].StepReturned? {
      var before, last := history[..|history| - 1], history[|history| - 1];
      if last.Aggregate? {
        var added := AddedNow(handlers, history);
        CallsOfAppend(Played(handlers, before).calls, added, k);
        CallsOfOne(added, last.event.context, k);
        Agg.RaisesAppend(Agg.CallsOf(Played(handlers, before).calls, k), Agg.CallsOf(added, k));
      }
      if Agg.Raises(Agg.CallsOf(Played(handlers, before).calls, k)) != [] { FreshGroupRaisesNow(handlers, before, k); }
    }
  }

  /** The error message that a callback gives SQLite, which the exception is meant to replace, comes to the
      user as an SQLite error exactly if a scalar function raised or a group finished in the step fails,
      and no exception stands: either a rescue cleared it after the last raise, or nothing was raised in
      the step at all, and then only groups fail, which were started in an earlier one. */
  lemma InternalErrorNeedsLostException<S, R, V>(handlers: Agg.Handlers<S, R, V>, wrapperOf: nat -> nat, history: History<R, V>,
                                                 rest: seq<Cursor.Pulse>)
    requires Agg.Protocol(handlers, wrapperOf, Events(history))
    requires rest != [] && rest[0].raised == Played(handlers, history).errinfo
    requires ReportedNow(handlers, history) ==> rest[0].code.Failed?        // SQLite's rule
    ensures ReportedNow(handlers, history) && Cursor.AnswerTo(rest[0]) == Cursor.Raised(Cursor.Sqlite(rest[0].code.status)) <==>
            && (RaisedNow(handlers, history) == [] || ClearedSinceRaise(handlers, history))
            && (ScalarRaisedNow(history) || exists k: nat :: FinishedNow(history, k) && GroupFails(handlers, wrapperOf, history, k))
    ensures RaisedNow(handlers, history) == [] ==>
              && !ScalarRaisedNow(history)
              && forall k: nat :: FinishedNow(history, k) && GroupFails(handlers, wrapperOf, history, k) ==> StartedBefore(history, k)
  {
    ReportedIff(handlers, wrapperOf, history);
    RaiseReachesStep(handlers, history, rest);
    PlayedKeeps(handlers, wrapperOf, history);
    ScalarRaises(handlers, history);
    forall k: nat | FinishedNow(history, k) && GroupFails(handlers, wrapperOf, history, k) && !StartedBefore(history, k)
      ensures RaisedNow(handlers, history) != []
    {
      FailedGroupRaised(handlers, wrapperOf, history, k);
      FreshGroupRaisesNow(handlers, history, k);
    }
  }

  lemma {:induction false} ScalarRaises<S, R, V>(handlers: Agg.Handlers<S, R, V>, history: History<R, V>)
    ensures ScalarRaisedNow(history) ==> RaisedNow(handlers, history) != []
  {
    if history != [] { ScalarRaises(handlers, history[..|history| - 1]); }
  }

  lemma FailedGroupRaised<S, R, V>(handlers: Agg.Handlers<S, R, V>, wrapperOf: nat -> nat, history: History<R, V>, k: nat)
    requires Agg.Inv(Played(handlers, history), handlers, wrapperOf, Events(history))
    requires FinishedNow(history, k) && GroupFails(handlers, wrapperOf, history, k)
    ensures Agg.Raises(Agg.CallsOf(Played(handlers, history).calls, k)) != []
  {
    FinishedNowIsFinished(history, k);
    var handler, rows := handlers(wrapperOf(k)), Agg.Rows(Events(history), k);
    assert Agg.PhaseOf(Events(history), k) == Agg.Over;
    assert Agg.ContextAt(Played(handlers, history), handler, wrapperOf(k), k, Agg.PhaseOf(Events(history), k), rows);
    Agg.NothingAfterRaise(handler, k, rows);
  }

  lemma OneHappeningMore<S, R, V>(handlers: Agg.Handlers<S, R, V>, before: History<R, V>, last: Happening<R, V>)
    ensures Played(handlers, before + [last]) == Happened(Played(handlers, before), handlers, last)
    ensures Depth(before + [last]) == DepthAfter(Depth(before), last)
    ensures Events(before + [last]) == Events(before) + if last.Aggregate? then [last.event] else []
    ensures !last.StepReturned? ==> forall k: nat :: StartedBefore(before + [last], k) <==> StartedBefore(before, k)
    ensures (last.Aggregate? && last.event.XFinal? && Depth(before) == 0
             && Agg.ReportedError(Played(handlers, before + [last]), last.event.context)) ==> ReportedNow(handlers, before + [last])
    ensures !last.Scalar? && !(last.Aggregate? && last.event.XFinal?) && ReportedNow(handlers, before + [last]) ==>
              ReportedNow(handlers, before)
  {
    assert (before + [last])[..|before|] == before;
  }

  lemma FailedFirstRow<S, R, V>(handlers: Agg.Handlers<S, R, V>, wrapperOf: nat -> nat, row: R, exn: Exn)
    requires handlers(wrapperOf(0)).make(0) == Agg.Raised(exn)
    ensures var aw := wrapperOf(0);
            var e1: Agg.Event<R>, e2: Agg.Event<R> := Agg.XStep(0, aw, row), Agg.XFinal(0, aw);
            var st: Agg.State<S, V> := Agg.Handled(Agg.Initial(), handlers, e1);
            var st': Agg.State<S, V> := Agg.Handled(st.(errinfo := None), handlers, e2);
            && Agg.Protocol(handlers, wrapperOf, [e1, e2])
            && st.errinfo == Some(exn)
            && st'.errinfo == None && Agg.ReportedError(st', 0)
  {
    var aw := wrapperOf(0);
    var e1: Agg.Event<R>, e2: Agg.Event<R> := Agg.XStep(0, aw, row), Agg.XFinal(0, aw);
    var none: seq<Agg.Event<R>> := [];
    assert [e1][..0] == none && [e1, e2][..1] == [e1] && [row][..0] == [];
    assert Agg.Protocol(handlers, wrapperOf, none) && !Agg.Finished(none, 0);
    assert Agg.Rows([e1], 0) == [row];
    assert Agg.Fold(handlers(aw), 0, [row]) == Agg.Raised(exn);
    assert Agg.Protocol(handlers, wrapperOf, [e1]);
    var st: Agg.State<S, V> := Agg.Handled(Agg.Initial(), handlers, e1);
    assert st.slots == map[0 := Agg.Held(0)] && st.instances == [Agg.Instance(None, 1, 0)];
    assert Agg.InFlight(st, aw) == [0];
  }

  /** Both happen: `new` raises in a first xStep and SQLite has a row, so the step raises and the program is
      not started over; then the xFinal of that group comes in the next step, which raises nothing but the
      message. */
  lemma GroupAcrossSteps<S, R, V>(handlers: Agg.Handlers<S, R, V>, wrapperOf: nat -> nat, row: R, exn: Exn,
                                  shown: Cursor.Row, status: int)
    requires handlers(wrapperOf(0)).make(0) == Agg.Raised(exn)
    ensures var first: History<R, V> := [Aggregate(Agg.XStep(0, wrapperOf(0), row))];
            var second := first + [StepReturned, Aggregate(Agg.XFinal(0, wrapperOf(0)))];
            var pulses := [Cursor.Pulse(Cursor.RowReady(shown), Some(exn)), Cursor.Pulse(Cursor.Failed(status), None)];
            && Agg.Protocol(handlers, wrapperOf, Events(second))
            && !ReportedNow(handlers, first) && Played(handlers, first).errinfo == pulses[0].raised
            && Cursor.AnswerTo(pulses[0]) == Cursor.Raised(Cursor.Callback(exn))
            && Cursor.After(pulses) == Cursor.Partway(pulses[1..])
            && ReportedNow(handlers, second) && Played(handlers, second).errinfo == pulses[1].raised
            && Cursor.AnswerTo(pulses[1]) == Cursor.Raised(Cursor.Sqlite(status))
  {
    var aw := wrapperOf(0);
    var e1: Agg.Event<R>, e2: Agg.Event<R> := Agg.XStep(0, aw, row), Agg.XFinal(0, aw);
    var none: History<R, V> := [];
    var first := none + [Aggregate(e1)];
    var returned := first + [StepReturned];
    var second := returned + [Aggregate(e2)];
    OneHappeningMore(handlers, none, Aggregate(e1));
    OneHappeningMore(handlers, first, StepReturned);
    OneHappeningMore(handlers, returned, Aggregate(e2));
    FailedFirstRow(handlers, wrapperOf, row, exn);
    assert first == [Aggregate(e1)] && second == [Aggregate(e1)] + [StepReturned, Aggregate(e2)];
    assert Events(second) == [e1, e2];
  }

  lemma FailedFirstStep<S, R, V>(handlers: Agg.Handlers<S, R, V>, wrapperOf: nat -> nat, made: S, row: R, exn: Exn)
    requires var handler := handlers(wrapperOf(0)); handler.make(0) == Agg.Returned(made) && handler.step(made, row) == Agg.Raised(exn)
    ensures var aw := wrapperOf(0);
            var e1: Agg.Event<R>, e2: Agg.Event<R> := Agg.XStep(0, aw, row), Agg.XFinal(0, aw);
            var st: Agg.State<S, V> := Agg.Handled(Agg.Initial(), handlers, e1);
            var st': Agg.State<S, V> := Agg.Handled(st.(errinfo := None), handlers, e2);
            && st.errinfo == Some(exn) && st'.errinfo == None && Agg.ReportedError(st', 0)
  {
    var aw := wrapperOf(0);
    var e1: Agg.Event<R> := Agg.XStep(0, aw, row);
    var st: Agg.State<S, V> := Agg.Handled(Agg.Initial(), handlers, e1);
    assert st.slots == map[0 := Agg.Held(0)] && st.instances == [Agg.Instance(Some(made), 1, 0)];
    assert Agg.InFlight(st, aw) == [0];
  }

  /** A nested step takes the exception of the outer one: an aggregate's `step` raises on a first row, and a
      scalar function steps another statement, which raises that exception although nothing in it went
      wrong, and rescues it. The outer step then fails with the message, for a group that was started in
      that same step. */
  lemma NestedStepTakesException<S, R, V>(handlers: Agg.Handlers<S, R, V>, wrapperOf: nat -> nat, made: S, row: R, exn: Exn,
                                          value: V, innerCode: Cursor.Code, status: int)
    requires var handler := handlers(wrapperOf(0)); handler.make(0) == Agg.Returned(made) && handler.step(made, row) == Agg.Raised(exn)
    ensures var inner: History<R, V> := [Aggregate(Agg.XStep(0, wrapperOf(0), row)), NestedStarted];
            var outer := inner + [NestedReturned(true), Scalar(Agg.Returned(value)), Aggregate(Agg.XFinal(0, wrapperOf(0)))];
            && Played(handlers, inner).errinfo == Some(exn)
            && Cursor.AnswerTo(Cursor.Pulse(innerCode, Played(handlers, inner).errinfo)) == Cursor.Raised(Cursor.Callback(exn))
            && ReportedNow(handlers, outer) && !StartedBefore(outer, 0) && Played(handlers, outer).errinfo == None
            && Cursor.AnswerTo(Cursor.Pulse(Cursor.Failed(status), Played(handlers, outer).errinfo))
               == Cursor.Raised(Cursor.Sqlite(status))
  {
    var aw := wrapperOf(0);
    var e1: Agg.Event<R>, e2: Agg.Event<R> := Agg.XStep(0, aw, row), Agg.XFinal(0, aw);
    var h1: History<R, V>, h2 := [Aggregate(e1)], [Aggregate(e1), NestedStarted];
    NestedStepFinds(handlers, e1);
    var h3 := h2 + [NestedReturned(true)];
    var h4 := h3 + [Scalar(Agg.Returned(value))];
    OneHappeningMore(handlers, h2, NestedReturned(true));
    OneHappeningMore(handlers, h3, Scalar(Agg.Returned(value)));
    OneHappeningMore(handlers, h4, Aggregate(e2));
    FailedFirstStep(handlers, wrapperOf, made, row, exn);
    assert h4 + [Aggregate(e2)] == h2 + [NestedReturned(true), Scalar(Agg.Returned(value)), Aggregate(e2)];
  }

  lemma NestedStepFinds<S, R, V>(handlers: Agg.Handlers<S, R, V>, event: Agg.Event<R>)
    ensures var h2: History<R, V> := [Aggregate(event), NestedStarted];
            && Played(handlers, h2) == Agg.Handled(Agg.Initial(), handlers, event)
            && Depth(h2) == 1 && forall k: nat :: !StartedBefore(h2, k)
  {
    var none: History<R, V> := [];
    var h1 := none + [Aggregate(event)];
    OneHappeningMore(handlers, none, Aggregate(event));
    OneHappeningMore(handlers, h1, NestedStarted);
    assert h1 + [NestedStarted] == [Aggregate(event), NestedStarted];
  }
}
