/**
 Where bound values go: the flattening and counting of `Statement#bind_params` (lib/sqlite3/statement.rb),
 the placeholder lookup of `bind_param` and the name list of `named_params` (ext/sqlite3/statement.c).
 */
module Parameters {
  import opened Wrappers
  import Int64

  datatype Value = Nil | Integer(i: int) | Float(r: real) | Text(s: string) | Blob(s: string) | Unsupported

  /** A String or Symbol names a placeholder; anything else is converted to its index. */
  datatype Key = Name(text: string) | Index(i: int)

  type Pair = (Key, Value)

  /** A Ruby argument of `bind_params`. */
  datatype Arg = Scalar(value: Value) | Nested(args: seq<Arg>) | Pairs(pairs: seq<Pair>)

  datatype BindError = NoSuchParameter | CannotPrepare | Misuse | OutOfRange

  /** The names of a statement's placeholders; placeholder `i` is `names[i - 1]`. */
  type Names = seq<Option<string>>

  type Bindings = map<int, Value>

  // ---------------------------------------------------------------------------
  // Flattening

  /** `Array#flatten`: arrays are spliced in at any depth, hashes are left alone. */
  function Flatten(args: seq<Arg>): seq<Arg> {
    if args == [] then []
    else (if args[0].Nested? then Flatten(args[0].args) else [args[0]]) + Flatten(args[1..])
  }

  lemma {:induction false} FlattenIsFlat(args: seq<Arg>)
    ensures forall i :: 0 <= i < |Flatten(args)| ==> !Flatten(args)[i].Nested?
  {
    if args != [] {
      FlattenIsFlat(args[1..]);
      if args[0].Nested? { FlattenIsFlat(args[0].args); }
    }
  }

  lemma {:induction false} FlattenAppend(a: seq<Arg>, b: seq<Arg>)
    ensures Flatten(a + b) == Flatten(a) + Flatten(b)
  {
    if a == [] {
      assert a + b == b;
    } else {
      var first, rest := if a[0].Nested? then Flatten(a[0].args) else [a[0]], a[1..];
      FlattenAppend(rest, b);
      assert (a + b)[1..] == rest + b;
      Associative(first, Flatten(rest), Flatten(b));
    }
  }

  lemma Associative(a: seq<Arg>, b: seq<Arg>, c: seq<Arg>)
    ensures a + (b + c) == (a + b) + c
  {
  }

  lemma FlattenNested(b: seq<Arg>)
    ensures Flatten([Nested(b)]) == Flatten(b)
  {
  }

  /** However the arguments are nested, wrapping any stretch of them in an array changes nothing. */
  lemma FlattenIgnoresNesting(a: seq<Arg>, b: seq<Arg>, c: seq<Arg>)
    ensures Flatten(a + [Nested(b)] + c) == Flatten(a + b + c)
  {
    FlattenAppend(a + [Nested(b)], c);
    FlattenAppend(a, [Nested(b)]);
    FlattenNested(b);
    FlattenAppend(a + b, c);
    FlattenAppend(a, b);
  }

  /** Arguments that are no arrays stay as they are. With the two laws above this fixes the flattening of
      any nesting. */
  lemma {:induction false} FlattenKeepsFlat(args: seq<Arg>)
    requires forall i :: 0 <= i < |args| ==> !args[i].Nested?
    ensures Flatten(args) == args
  {
    if args != [] {
      FlattenKeepsFlat(args[1..]);
      assert args == [args[0]] + args[1..];
    }
  }

  /** An argument that is no array stands in the flattened list after all that comes before it. */
  lemma FlattenKeepsPlace(before: seq<Arg>, arg: Arg, after: seq<Arg>)
    requires !arg.Nested?
    ensures Flatten(before + [arg] + after) == Flatten(before) + [arg] + Flatten(after)
  {
    FlattenAppend(before + [arg], after);
    FlattenAppend(before, [arg]);
    FlattenKeepsFlat([arg]);
  }

  // ---------------------------------------------------------------------------
  // The bind_param calls that bind_params makes

  function Scalars(flat: seq<Arg>): (n: nat) {
    if flat == [] then 0
    else Scalars(flat[..|flat| - 1]) + (if flat[|flat| - 1].Scalar? then 1 else 0)
  }

  /** The calls in order: a hash is bound pair by pair, any other value to the next index. */
  function Calls(flat: seq<Arg>): seq<Pair> {
    if flat == [] then []
    else
      var before, last := flat[..|flat| - 1], flat[|flat| - 1];
      Calls(before) + CallsFor(last, Scalars(before) + 1)
  }

  function CallsFor(arg: Arg, index: nat): seq<Pair> {
    match arg
    case Scalar(v) => [(Index(index), v)]
    case Pairs(pairs) => pairs
    case Nested(_) => []
  }

  lemma {:induction false} CallsExtend(flat: seq<Arg>, k: nat)
    requires k <= |flat|
    ensures Calls(flat[..k]) <= Calls(flat)
  {
    if k == |flat| {
      assert flat[..k] == flat;
    } else {
      var before := flat[..|flat| - 1];
      CallsExtend(before, k);
      assert before[..k] == flat[..k];
    }
  }

  /** The argument at position `p` is bound right after the calls for those before it. The `k`-th
      value that is not in a hash goes to index `k`, however many hashes stand before it; a hash goes
      out pair by pair, with its own keys. */
  lemma ArgumentPlacement(flat: seq<Arg>, p: nat)
    requires p < |flat|
    ensures var n := |Calls(flat[..p])|;
            match flat[p]
            case Scalar(v) => n < |Calls(flat)| && Calls(flat)[n] == (Index(Scalars(flat[..p]) + 1), v)
            case Pairs(pairs) => n + |pairs| <= |Calls(flat)| && Calls(flat)[n..n + |pairs|] == pairs
            case Nested(_) => true
  {
    var upTo := flat[..p + 1];
    CallsExtend(flat, p + 1);
    assert upTo[..p] == flat[..p] && upTo[p] == flat[p];
    var n, calls := |Calls(flat[..p])|, Calls(flat);
    assert Calls(upTo) == calls[..|Calls(upTo)|];
    if flat[p].Pairs? {
      assert calls[n..n + |flat[p].pairs|] == Calls(upTo)[n..];
    } else if flat[p].Scalar? {
      assert calls[n] == Calls(upTo)[n];
    }
  }

  /** In the calls for `flat`, those for `arg` come right after those for `before`: a value goes to the index
      after as many values as `before` has outside of hashes, a hash goes out pair by pair; and if `arg`
      is the last, nothing more is bound. */
  ghost predicate Placed(before: seq<Arg>, arg: Arg, flat: seq<Arg>, last: bool) {
    var n, calls := |Calls(before)|, Calls(flat);
    && Calls(before) <= calls
    && (arg.Scalar? ==> n < |calls| && calls[n] == (Index(Scalars(before) + 1), arg.value))
    && (arg.Pairs? ==> n + |arg.pairs| <= |calls| && calls[n..n + |arg.pairs|] == arg.pairs)
    && (last ==> |calls| == n + if arg.Scalar? then 1 else if arg.Pairs? then |arg.pairs| else 0)
  }

  lemma PlacedBetween(before: seq<Arg>, arg: Arg, after: seq<Arg>)
    requires !arg.Nested?
    ensures Placed(before, arg, before + [arg] + after, after == [])
  {
    var flat, p := before + [arg] + after, |before|;
    assert flat[..p] == before && flat[p] == arg;
    ArgumentPlacement(flat, p);
    CallsExtend(flat, p);
    if after == [] {
      assert flat[..p + 1] == flat;
      CallsNext(flat, p);
    }
  }

  /** Placement for the arguments of `bind_params` themselves, whatever comes before a value or a hash, and
      however that is nested. */
  lemma BindParamsPlacement(before: seq<Arg>, arg: Arg, after: seq<Arg>)
    requires !arg.Nested?
    ensures Placed(Flatten(before), arg, Flatten(before + [arg] + after), after == [])
  {
    FlattenKeepsPlace(before, arg, after);
    PlacedBetween(Flatten(before), arg, Flatten(after));
    assert after == [] ==> Flatten(after) == [];
  }

  /** So an argument wrapped in arrays together with its neighbours goes where it would go without them. */
  lemma NestedPlacement(a: seq<Arg>, before: seq<Arg>, arg: Arg, after: seq<Arg>, c: seq<Arg>)
    requires !arg.Nested?
    ensures Placed(Flatten(a + before), arg, Flatten(a + [Nested(before + [arg] + after)] + c), after + c == [])
  {
    FlattenIgnoresNesting(a, before + [arg] + after, c);
    assert a + (before + [arg] + after) + c == (a + before) + [arg] + (after + c);
    BindParamsPlacement(a + before, arg, after + c);
  }

  // ---------------------------------------------------------------------------
  // One bind_param call

  /** `sqlite3_bind_parameter_index`: 0 if there is no placeholder of that name. */
  function ParameterIndex(names: Names, name: string): (index: nat)
    ensures index <= |names|
    ensures index > 0 ==> names[index - 1] == Some(name)
    ensures index == 0 <==> Some(name) !in names
  {
    if names == [] then 0
    else if names[|names| - 1] == Some(name) then |names|
    else
      var index := ParameterIndex(names[..|names| - 1], name);
      assert names == names[..|names| - 1] + [names[|names| - 1]];
      index
  }

  function WithColon(text: string): string {
    if text != [] && text[0] == ':' then text else ":" + text
  }

  function Slot(names: Names, key: Key): int {
    match key
    case Name(text) => ParameterIndex(names, WithColon(text))
    case Index(i) => i
  }

  /** The value SQLite keeps: Integers outside the 64-bit range become doubles. */
  function Converted(v: Value, toDouble: int -> real): Value {
    match v
    case Integer(i) =>
      (match Int64.IntegerBound(i, toDouble)
       case StoredInteger(j) => Integer(j)
       case StoredDouble(r) => Float(r))
    case _ => v
  }

  /** The error of a call, in the order the C code tests for them. SQLite refuses to bind while the
      statement is not reset, and past the last placeholder. */
  function CallError(names: Names, reset: bool, call: Pair): Option<BindError> {
    var slot := Slot(names, call.0);
    if slot == 0 then Some(NoSuchParameter)
    else if call.1.Unsupported? then Some(CannotPrepare)
    else if !reset then Some(Misuse)
    else if !(1 <= slot <= |names|) then Some(OutOfRange)
    else None
  }

  /** A number is its own slot; a name finds the placeholder so written, with a colon put before it unless it
      has one, and slot 0 means there is none. */
  lemma SlotIsPlaceholder(names: Names, text: string, i: int)
    ensures Slot(names, Index(i)) == i
    ensures var slot, name := Slot(names, Name(text)), (if text != [] && text[0] == ':' then text else ":" + text);
            && 0 <= slot <= |names| && (slot == 0 <==> Some(name) !in names) && (slot > 0 ==> names[slot - 1] == Some(name))
  {
  }

  /** Which calls raise, and over what: a name without placeholder or index 0 first, then a value SQLite has
      no type for, then a statement that is not reset, then an index out of range; and no others. */
  lemma CallErrors(names: Names, reset: bool, key: Key, v: Value)
    ensures var e, slot := CallError(names, reset, (key, v)), Slot(names, key);
            && (e == Some(NoSuchParameter) <==> slot == 0)
            && (e == Some(CannotPrepare) <==> slot != 0 && v == Unsupported)
            && (e == Some(Misuse) <==> slot != 0 && v != Unsupported && !reset)
            && (e == None <==> 1 <= slot <= |names| && v != Unsupported && reset)
  {
  }

  /** What SQLite keeps is the value that was bound, but for an Integer past 64 bits, which becomes the
      nearest double. */
  lemma ConvertedKeeps(v: Value, toDouble: int -> real)
    ensures v.Integer? && !Int64.InInt64(v.i) ==> Converted(v, toDouble) == Float(toDouble(v.i))
    ensures v.Integer? && Int64.InInt64(v.i) ==> Converted(v, toDouble) == v
    ensures !v.Integer? ==> Converted(v, toDouble) == v
  {
  }

  /** The calls in turn, up to the first that raises: what got bound, and the error. */
  function Bound(names: Names, reset: bool, toDouble: int -> real, b: Bindings, calls: seq<Pair>)
    : (Bindings, Option<BindError>)
  {
    if calls == [] then (b, None)
    else
      var (b', e) := Bound(names, reset, toDouble, b, calls[..|calls| - 1]);
      var call := calls[|calls| - 1];
      if e.Some? then (b', e)
      else if CallError(names, reset, call).Some? then (b', CallError(names, reset, call))
      else (b'[Slot(names, call.0) := Converted(call.1, toDouble)], None)
  }

  /** A raised call ends the run: later calls change nothing. */
  lemma {:induction false} BoundStops(names: Names, reset: bool, toDouble: int -> real, b: Bindings,
                                      calls: seq<Pair>, k: nat)
    requires k <= |calls| && Bound(names, reset, toDouble, b, calls[..k]).1.Some?
    ensures Bound(names, reset, toDouble, b, calls) == Bound(names, reset, toDouble, b, calls[..k])
  {
    if k == |calls| {
      assert calls[..k] == calls;
    } else {
      assert calls[..|calls| - 1][..k] == calls[..k];
      BoundStops(names, reset, toDouble, b, calls[..|calls| - 1], k);
    }
  }

  /** Two lists of calls in a row. */
  lemma {:induction false} BoundAppend(names: Names, reset: bool, toDouble: int -> real, b: Bindings,
                                       first: seq<Pair>, second: seq<Pair>)
    ensures var (now, error) := Bound(names, reset, toDouble, b, first);
            Bound(names, reset, toDouble, b, first + second)
            == if error.Some? then (now, error) else Bound(names, reset, toDouble, now, second)
  {
    if second == [] {
      assert first + second == first;
    } else {
      var n := |second| - 1;
      BoundAppend(names, reset, toDouble, b, first, second[..n]);
      assert (first + second)[..|first + second| - 1] == first + second[..n];
    }
  }

  lemma CallsNext(flat: seq<Arg>, i: nat)
    requires i < |flat|
    ensures Scalars(flat[..i + 1]) == Scalars(flat[..i]) + (if flat[i].Scalar? then 1 else 0)
    ensures Calls(flat[..i + 1]) == Calls(flat[..i]) + CallsFor(flat[i], Scalars(flat[..i]) + 1)
  {
    assert flat[..i + 1][..i] == flat[..i];
  }

  lemma {:induction false} BoundCleanly(names: Names, reset: bool, toDouble: int -> real, b: Bindings, calls: seq<Pair>)
    ensures Bound(names, reset, toDouble, b, calls).1 == None
            <==> forall k :: 0 <= k < |calls| ==> CallError(names, reset, calls[k]) == None
  {
    if calls != [] {
      var before := calls[..|calls| - 1];
      BoundCleanly(names, reset, toDouble, b, before);
      assert forall k :: 0 <= k < |before| ==> before[k] == calls[k];
    }
  }

  /** The outcome of a list of calls in which one raises: that call's error, and what the calls before it
      bound. */
  lemma BoundRaises(names: Names, reset: bool, toDouble: int -> real, b: Bindings, calls: seq<Pair>, k: nat)
    requires k < |calls| && CallError(names, reset, calls[k]).Some?
    requires forall j :: 0 <= j < k ==> CallError(names, reset, calls[j]) == None
    ensures Bound(names, reset, toDouble, b, calls) == (Bound(names, reset, toDouble, b, calls[..k]).0, CallError(names, reset, calls[k]))
    ensures Bound(names, reset, toDouble, b, calls[..k]).1 == None
  {
    var upTo := calls[..k + 1];
    assert upTo[..k] == calls[..k];
    BoundCleanly(names, reset, toDouble, b, calls[..k]);
    BoundStops(names, reset, toDouble, b, calls, k + 1);
  }

  ghost predicate LastCallTo(names: Names, calls: seq<Pair>, slot: int, k: nat)
    requires k < |calls|
  {
    && Slot(names, calls[k].0) == slot
    && forall j :: k < j < |calls| ==> Slot(names, calls[j].0) != slot
  }

  /** A slot no call goes to keeps its value. */
  lemma {:induction false} UncalledSlotKept(names: Names, reset: bool, toDouble: int -> real, b: Bindings,
                                            calls: seq<Pair>, slot: int)
    requires Bound(names, reset, toDouble, b, calls).1 == None
    requires forall j :: 0 <= j < |calls| ==> Slot(names, calls[j].0) != slot
    ensures var b' := Bound(names, reset, toDouble, b, calls).0;
            (slot in b' <==> slot in b) && (slot in b ==> b'[slot] == b[slot])
  {
    if calls != [] {
      UncalledSlotKept(names, reset, toDouble, b, calls[..|calls| - 1], slot);
    }
  }

  /** The last call to a slot decides what it holds. */
  lemma {:induction false} LastWriteWins(names: Names, reset: bool, toDouble: int -> real, b: Bindings,
                                         calls: seq<Pair>, slot: int, k: nat)
    requires Bound(names, reset, toDouble, b, calls).1 == None
    requires k < |calls| && LastCallTo(names, calls, slot, k)
    ensures var b' := Bound(names, reset, toDouble, b, calls).0;
            slot in b' && b'[slot] == Converted(calls[k].1, toDouble)
  {
    if k < |calls| - 1 {
      LastWriteWins(names, reset, toDouble, b, calls[..|calls| - 1], slot, k);
    }
  }

  // ---------------------------------------------------------------------------
  // named_params

  /** SQLite gives one index to all placeholders of one name, and no placeholder an empty name. */
  ghost predicate ValidNames(names: Names) {
    && (forall i :: 0 <= i < |names| && names[i].Some? ==> names[i].value != [])
    && (forall i, j :: 0 <= i < j < |names| && names[i].Some? ==> names[i] != names[j])
  }

  predicate IsNamed(name: Option<string>) {
    name.Some? && name.value != [] && name.value[0] != '?'
  }

  /** The slots of the named placeholders, in order. */
  function NamedSlots(names: Names): (slots: seq<int>)
    ensures forall k :: 0 <= k < |slots| ==> 1 <= slots[k] <= |names| && IsNamed(names[slots[k] - 1])
    ensures forall j, k :: 0 <= j < k < |slots| ==> slots[j] < slots[k]
    ensures forall i :: 1 <= i <= |names| && IsNamed(names[i - 1]) ==> i in slots
  {
    if names == [] then []
    else
      var n := |names|;
      NamedSlots(names[..n - 1]) + (if IsNamed(names[n - 1]) then [n] else [])
  }

  /** The reported names: the named placeholders in order, each without its prefix character. */
  function ReportedNames(names: Names): (params: seq<string>)
    ensures |params| == |NamedSlots(names)|
    ensures forall k :: 0 <= k < |params| ==> params[k] == names[NamedSlots(names)[k] - 1].value[1..]
  {
    if names == [] then []
    else
      var n := |names|;
      ReportedNames(names[..n - 1]) + (if IsNamed(names[n - 1]) then [names[n - 1].value[1..]] else [])
  }

  method NamedParams(names: Names) returns (params: seq<string>)
    ensures params == ReportedNames(names)
  {
    params := [];
    var i := 1;
    while i <= |names|
      invariant 1 <= i <= |names| + 1
      invariant params == ReportedNames(names[..i - 1])
    {
      assert names[..i][..i - 1] == names[..i - 1];
      var name := names[i - 1];
      if name.Some? && name.value != [] && name.value[0] != '?' {
        params := params + [name.value[1..]];
      }
      i := i + 1;
    }
    assert names[..|names|] == names;
  }

  /** A colon placeholder whose name does not itself start with a colon. */
  predicate ColonStyle(name: string) {
    name != [] && name[0] == ':' && (|name| > 1 ==> name[1] != ':')
  }

  /** The name that `named_params` reports leads back to its own slot exactly for colon placeholders:
      `@x` and `$x` are reported as `x`, which `bind_param` looks up as `:x`. */
  lemma ReportedNameFindsSlot(names: Names, slot: int)
    requires ValidNames(names) && 1 <= slot <= |names| && IsNamed(names[slot - 1])
    ensures Slot(names, Name(names[slot - 1].value[1..])) == slot <==> ColonStyle(names[slot - 1].value)
  {
    var name := names[slot - 1].value;
    var found := WithColon(name[1..]);
    assert name == [name[0]] + name[1..];
    assert found == name <==> ColonStyle(name) by {
      if found == name && |name| > 1 { assert name[1..][0] == name[1]; }
    }
    assert names[slot - 1] == Some(name) && Some(name) in names;
  }

  /** One value for each reported name. */
  ghost predicate BindsReported(names: Names, calls: seq<Pair>) {
    && |calls| == |ReportedNames(names)|
    && forall k :: 0 <= k < |calls| ==> calls[k].0 == Name(ReportedNames(names)[k]) && !calls[k].1.Unsupported?
  }

  lemma ReportedNamesFindSlots(names: Names, calls: seq<Pair>)
    requires ValidNames(names) && BindsReported(names, calls)
    requires forall i :: 0 <= i < |names| && IsNamed(names[i]) ==> ColonStyle(names[i].value)
    ensures |calls| == |NamedSlots(names)|
    ensures forall k :: 0 <= k < |calls| ==> Slot(names, calls[k].0) == NamedSlots(names)[k]
    ensures forall k :: 0 <= k < |calls| ==> CallError(names, true, calls[k]) == None
  {
    forall k | 0 <= k < |calls| ensures Slot(names, calls[k].0) == NamedSlots(names)[k] {
      ReportedNameFindsSlot(names, NamedSlots(names)[k]);
    }
  }

  /** Binding a value to every reported name fills exactly the named slots, each with its own value. */
  lemma NamedParamsRoundTrip(names: Names, toDouble: int -> real, b: Bindings, calls: seq<Pair>, slot: int)
    requires ValidNames(names) && BindsReported(names, calls)
    requires forall i :: 0 <= i < |names| && IsNamed(names[i]) ==> ColonStyle(names[i].value)
    ensures |calls| == |NamedSlots(names)|
    ensures var (b', e) := Bound(names, true, toDouble, b, calls);
            && e == None
            && (forall k :: 0 <= k < |calls| && NamedSlots(names)[k] == slot ==>
                  slot in b' && b'[slot] == Converted(calls[k].1, toDouble))
            && (slot !in NamedSlots(names) ==> (slot in b' <==> slot in b) && (slot in b ==> b'[slot] == b[slot]))
  {
    ReportedNamesFindSlots(names, calls);
    BoundCleanly(names, true, toDouble, b, calls);
    if slot !in NamedSlots(names) {
      UncalledSlotKept(names, true, toDouble, b, calls, slot);
    }
    forall k | 0 <= k < |calls| && NamedSlots(names)[k] == slot
      ensures var b' := Bound(names, true, toDouble, b, calls).0; slot in b' && b'[slot] == Converted(calls[k].1, toDouble)
    {
      LastWriteWins(names, true, toDouble, b, calls, slot, k);
    }
  }
}
