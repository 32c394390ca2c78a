/** `BindObject` (lib/utils.ts): keep the picked entries of an object and bind every function
    value to a fixed first argument, with `this` set to `null`. */
module BindObject {
  import opened Base

  /** The JavaScript values the helper distinguishes: functions (plain or bound) and the rest. */
  datatype Value =
    | Data(tag: string)                                        // any non-function value
    | Null
    | Function(id: nat)                                        // a host function
    | BoundFunction(target: Value, thisArg: Value, leading: seq<Value>)

  /** `typeof value === 'function'`. */
  predicate IsFunction(v: Value) {
    v.Function? || v.BoundFunction?
  }

  /** A value that can be called: a host function, or a function bound to one. */
  predicate Callable(v: Value) {
    match v
    case Function(_) => true
    case BoundFunction(target, _, _) => Callable(target)
    case _ => false
  }

  /** The arguments every call of `v` starts with, innermost binding first. */
  function BoundArgs(v: Value): seq<Value> {
    match v
    case BoundFunction(target, _, leading) => BoundArgs(target) + leading
    case _ => []
  }

  /** What a call ends up doing: which host function runs, with which `this` and arguments. */
  datatype Invocation = Invocation(fn: nat, thisArg: Value, args: seq<Value>)

  /** Calling `v` with receiver `thisArg`: a bound function ignores the receiver and puts its
      leading arguments in front of the given ones; a non-function cannot be called. */
  function Invoke(v: Value, thisArg: Value, args: seq<Value>): (r: Option<Invocation>)
    ensures r.Some? <==> Callable(v)
    ensures r.Some? ==> r.value.args == BoundArgs(v) + args
  {
    match v
    case Function(id) => Some(Invocation(id, thisArg, args))
    case BoundFunction(target, boundThis, leading) =>
      var inner := Invoke(target, boundThis, leading + args);
      assert BoundArgs(target) + (leading + args) == BoundArgs(target) + leading + args;
      inner
    case _ => None
  }

  /** `Object.entries(object)`: key/value pairs in order, keys distinct. */
  type Entries = seq<(string, Value)>

  function Keys(entries: Entries): set<string> {
    set i | 0 <= i < |entries| :: entries[i].0
  }

  /** The value under `key`, if any. */
  function Lookup(entries: Entries, key: string): (r: Option<Value>)
    ensures r.Some? <==> key in Keys(entries)
  {
    if |entries| == 0 then None
    else if entries[0].0 == key then Some(entries[0].1)
    else
      var r := Lookup(entries[1..], key);
      assert Keys(entries) == {entries[0].0} + Keys(entries[1..]) by {
        forall k | k in Keys(entries) ensures k in {entries[0].0} + Keys(entries[1..]) {
          var i :| 0 <= i < |entries| && entries[i].0 == k;
          if i > 0 { assert entries[1..][i - 1].0 == k; }
        }
      }
      r
  }

  /** The entries whose key is in `names`, in their original order. */
  function Pick(entries: Entries, names: set<string>): (r: Entries)
    ensures |r| <= |entries|
    ensures forall e :: e in r <==> e in entries && e.0 in names
  {
    if |entries| == 0 then []
    else if entries[0].0 in names then [entries[0]] + Pick(entries[1..], names)
    else Pick(entries[1..], names)
  }

  /** The value stored in the result: functions become `value.bind(null, first)`. */
  function BindValue(v: Value, first: Value): (r: Value)
    ensures IsFunction(r) <==> IsFunction(v)
  {
    if IsFunction(v) then BoundFunction(v, Null, [first]) else v
  }

  function BindEntries(entries: Entries, first: Value): (r: Entries)
    ensures |r| == |entries|
    ensures forall i :: 0 <= i < |r| ==> r[i] == (entries[i].0, BindValue(entries[i].1, first))
  {
    if |entries| == 0 then []
    else [(entries[0].0, BindValue(entries[0].1, first))] + BindEntries(entries[1..], first)
  }

  /** `BindObject(object, first, pick)`. Any `pick` array, even an empty one, is truthy and
      filters; only an absent `pick` keeps every entry. */
  function Bind(obj: Entries, first: Value, pick: Option<seq<string>>): (r: Entries)
    ensures Keys(r) == if pick.Some? then Keys(obj) * set k | k in pick.value else Keys(obj)
    ensures pick.None? ==> |r| == |obj| && forall i :: 0 <= i < |r| ==> r[i].0 == obj[i].0
  {
    var selected := if pick.Some? then Pick(obj, set k | k in pick.value) else obj;
    var r := BindEntries(selected, first);
    assert Keys(r) == Keys(selected) by {
      forall k | k in Keys(selected) ensures k in Keys(r) {
        var i :| 0 <= i < |selected| && selected[i].0 == k;
        assert r[i].0 == k;
      }
    }
    assert pick.Some? ==> Keys(selected) == Keys(obj) * set k | k in pick.value by {
      if pick.Some? {
        var names := set k | k in pick.value;
        forall k | k in Keys(obj) * names ensures k in Keys(selected) {
          var i :| 0 <= i < |obj| && obj[i].0 == k;
          assert obj[i] in selected;
          var j :| 0 <= j < |selected| && selected[j] == obj[i];
        }
        forall k | k in Keys(selected) ensures k in Keys(obj) * names {
          var j :| 0 <= j < |selected| && selected[j].0 == k;
          assert selected[j] in obj;
          var i :| 0 <= i < |obj| && obj[i] == selected[j];
        }
      }
    }
    r
  }

  /** Picking distributes over concatenation: the filter keeps relative order. */
  lemma {:induction false} PickKeepsOrder(xs: Entries, ys: Entries, names: set<string>)
    ensures Pick(xs + ys, names) == Pick(xs, names) + Pick(ys, names)
    decreases |xs|
  {
    if |xs| > 0 {
      assert (xs + ys)[0] == xs[0];
      assert (xs + ys)[1..] == xs[1..] + ys;
      PickKeepsOrder(xs[1..], ys, names);
    } else {
      assert xs + ys == ys;
    }
  }

  /** The result lists the selected entries in the object's own order: binding the two halves
      of an entry list separately and concatenating gives the same result. */
  lemma BindKeepsOrder(xs: Entries, ys: Entries, first: Value, pick: Option<seq<string>>)
    ensures Bind(xs + ys, first, pick) == Bind(xs, first, pick) + Bind(ys, first, pick)
  {
    if pick.Some? {
      PickKeepsOrder(xs, ys, set k | k in pick.value);
    }
  }

  lemma {:induction false} LookupPick(entries: Entries, names: set<string>, key: string)
    ensures Lookup(Pick(entries, names), key) == if key in names then Lookup(entries, key) else None
    decreases |entries|
  {
    if |entries| > 0 {
      LookupPick(entries[1..], names, key);
      if entries[0].0 in names {
        assert Pick(entries, names)[1..] == Pick(entries[1..], names);
      }
    }
  }

  lemma {:induction false} LookupBind(entries: Entries, first: Value, key: string)
    ensures Lookup(BindEntries(entries, first), key) ==
            if key in Keys(entries) then Some(BindValue(Lookup(entries, key).value, first)) else None
    decreases |entries|
  {
    if |entries| > 0 {
      LookupBind(entries[1..], first, key);
      assert BindEntries(entries, first)[1..] == BindEntries(entries[1..], first);
    }
  }

  /** What the result holds under each key: the bound form of the object's value for a
      selected key, and nothing for a key that is not in the object or not picked. */
  lemma LookupResult(obj: Entries, first: Value, pick: Option<seq<string>>, key: string)
    ensures Lookup(Bind(obj, first, pick), key) ==
            if key in Keys(obj) && (pick.None? || key in pick.value)
            then Some(BindValue(Lookup(obj, key).value, first))
            else None
  {
    if pick.Some? {
      var names := set k | k in pick.value;
      var selected := Pick(obj, names);
      LookupPick(obj, names, key);
      LookupBind(selected, first, key);
    } else {
      LookupBind(obj, first, key);
    }
  }

  /** A non-function value is copied unchanged. */
  lemma DataCopied(obj: Entries, first: Value, pick: Option<seq<string>>, key: string)
    requires key in Keys(obj) && (pick.None? || key in pick.value)
    requires !IsFunction(Lookup(obj, key).value)
    ensures Lookup(Bind(obj, first, pick), key) == Lookup(obj, key)
  {
    LookupResult(obj, first, pick, key);
  }

  /** Calling a bound result runs the original function with `this == null` and `first`
      prepended to the arguments, whatever receiver the caller supplies. */
  lemma BoundCallPrependsFirst(obj: Entries, first: Value, pick: Option<seq<string>>, key: string,
                               receiver: Value, args: seq<Value>)
    requires key in Keys(obj) && (pick.None? || key in pick.value)
    requires IsFunction(Lookup(obj, key).value)
    ensures Invoke(Lookup(Bind(obj, first, pick), key).value, receiver, args) ==
            Invoke(Lookup(obj, key).value, Null, [first] + args)
  {
    LookupResult(obj, first, pick, key);
  }

  /** A picked name the object does not have is absent from the result. */
  lemma AbsentPickNameDropped(obj: Entries, first: Value, names: seq<string>, key: string)
    requires key in names && key !in Keys(obj)
    ensures key !in Keys(Bind(obj, first, Some(names)))
  {
  }

  lemma {:induction false} PickNothing(entries: Entries)
    ensures Pick(entries, {}) == []
    decreases |entries|
  {
    if |entries| > 0 {
      PickNothing(entries[1..]);
    }
  }

  /** An empty `pick` array selects nothing. */
  lemma EmptyPickSelectsNothing(obj: Entries, first: Value)
    ensures Bind(obj, first, Some([])) == []
  {
    PickNothing(obj);
  }
}
