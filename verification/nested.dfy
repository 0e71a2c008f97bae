/** The review screen's in-place edit of the proposal: `setNestedValue`
    writes an edited field at a dotted path such as `meta.projectnaam`. The
    proposal is modelled as a JSON tree; the edit returns the new tree, or the
    error the assignment throws in strict mode. */
module Nested {
  import opened Base
  import opened JsText

  /** A JSON value: a primitive or an object of named members. */
  datatype Value = Prim(p: Scalar) | Obj(fields: map<string, Value>)

  /** Objects are truthy; primitives as JavaScript decides. */
  predicate TruthyValue(v: Value) {
    v.Obj? || Truthy(v.p)
  }

  /** `target[k]`: the member, or `undefined` when absent or when `target` is
      a primitive. */
  function Member(target: Value, k: string): (r: Value)
    ensures target.Obj? && k in target.fields ==> r == target.fields[k]
    ensures !(target.Obj? && k in target.fields) ==> r == Prim(Undefined)
  {
    if target.Obj? && k in target.fields then target.fields[k] else Prim(Undefined)
  }

  /** The TypeError strict mode throws when a property is assigned on a
      primitive. */
  function AssignError(k: string): string {
    "Cannot create property '" + k + "' on a primitive value"
  }

  /** The loop of `setNestedValue` over the keys from one target on: a falsy
      member on the way is replaced by `{}`, a truthy primitive target makes the
      assignment throw, and the last key receives the value. */
  function SetPath(target: Value, keys: seq<string>, x: Value): (r: Result<Value>)
    requires |keys| >= 1
    ensures r.Ok? ==> r.value.Obj? && target.Obj?
    ensures r.Ok? ==> r.value.fields.Keys == target.fields.Keys + {keys[0]}
    ensures r.Ok? ==> forall k :: k in target.fields && k != keys[0] ==> r.value.fields[k] == target.fields[k]
    decreases |keys|
  {
    if !target.Obj? then Err(AssignError(keys[0]))
    else if |keys| == 1 then Ok(Obj(target.fields[keys[0] := x]))
    else
      var child := Member(target, keys[0]);
      var next := if TruthyValue(child) then child else Obj(map[]);
      match SetPath(next, keys[1..], x)
      case Err(e) => Err(e)
      case Ok(c) => Ok(Obj(target.fields[keys[0] := c]))
  }

  /** `setNestedValue(obj, path, value)`: the path is split on '.'. */
  function SetNestedValue(obj: Value, path: string, x: Value): Result<Value>
  {
    SetPath(obj, Split(path, "."), x)
  }

  /** On the proposal object, the edit at a dotted path succeeds exactly when
      the path meets no truthy primitive before its last key, and then the
      path leads to the written value. */
  lemma SetNestedValueReadsBack(obj: Value, path: string, x: Value)
    requires obj.Obj?
    ensures SetNestedValue(obj, path, x).Ok? <==> !Blocked(obj, Split(path, "."))
    ensures SetNestedValue(obj, path, x).Ok? ==> GetPath(SetNestedValue(obj, path, x).value, Split(path, ".")) == Some(x)
  {
    var keys := Split(path, ".");
    SetFailsIffBlocked(obj, keys, x);
    if SetPath(obj, keys, x).Ok? {
      SetThenGet(obj, keys, x);
    }
  }

  /** The node at a path, `None` when some step of the path is missing. */
  function GetPath(v: Value, keys: seq<string>): Option<Value>
    decreases |keys|
  {
    if |keys| == 0 then Some(v)
    else if v.Obj? && keys[0] in v.fields then GetPath(v.fields[keys[0]], keys[1..])
    else None
  }

  /** After a successful edit the path leads to the written value. */
  lemma {:induction false} SetThenGet(target: Value, keys: seq<string>, x: Value)
    requires |keys| >= 1 && SetPath(target, keys, x).Ok?
    ensures GetPath(SetPath(target, keys, x).value, keys) == Some(x)
    decreases |keys|
  {
    var w := SetPath(target, keys, x).value;
    if |keys| > 1 {
      var child := Member(target, keys[0]);
      var next := if TruthyValue(child) then child else Obj(map[]);
      SetThenGet(next, keys[1..], x);
    }
  }

  /** Writing the same value at the same path again changes nothing. */
  lemma {:induction false} SetTwice(target: Value, keys: seq<string>, x: Value)
    requires |keys| >= 1 && SetPath(target, keys, x).Ok?
    ensures SetPath(SetPath(target, keys, x).value, keys, x) == SetPath(target, keys, x)
    decreases |keys|
  {
    var w := SetPath(target, keys, x).value;
    if |keys| > 1 {
      var child := Member(target, keys[0]);
      var next := if TruthyValue(child) then child else Obj(map[]);
      SetTwice(next, keys[1..], x);
      var c := SetPath(next, keys[1..], x).value;
      assert Member(w, keys[0]) == c;
      assert w.fields[keys[0] := c] == w.fields;
    } else {
      assert w.fields[keys[0] := x] == w.fields;
    }
  }

  /** The primitives the path runs into: the edit fails exactly when one of
      the nodes before the last key is a truthy primitive. */
  predicate Blocked(target: Value, keys: seq<string>) {
    exists i :: 0 <= i < |keys| && IsTruthyPrim(GetPath(target, keys[..i]))
  }

  predicate IsTruthyPrim(n: Option<Value>) {
    n.Some? && n.value.Prim? && Truthy(n.value.p)
  }

  /** The edit fails exactly when the path runs into a truthy primitive
      (property reads on primitives are taken to be `undefined`). */
  lemma {:induction false} SetFailsIffBlocked(target: Value, keys: seq<string>, x: Value)
    requires |keys| >= 1 && TruthyValue(target)
    ensures SetPath(target, keys, x).Err? <==> Blocked(target, keys)
    decreases |keys|
  {
    assert keys[..0] == [];
    if target.Prim? {
      assert IsTruthyPrim(GetPath(target, keys[..0]));
    } else if |keys| == 1 {
      assert !IsTruthyPrim(GetPath(target, keys[..0]));
    } else {
      var child := Member(target, keys[0]);
      var tail := keys[1..];
      if TruthyValue(child) {
        SetFailsIffBlocked(child, tail, x);
        ShiftBlocked(target, keys);
      } else {
        EmptyNotBlocked(tail);
        SetFailsIffBlocked(Obj(map[]), tail, x);
        FalsyChildNotBlocked(target, keys);
      }
    }
  }

  /** Below an object, the path is blocked when its rest is blocked below the
      first member. */
  lemma ShiftBlocked(target: Value, keys: seq<string>)
    requires |keys| >= 2 && target.Obj? && keys[0] in target.fields
    ensures Blocked(target, keys) <==> Blocked(target.fields[keys[0]], keys[1..])
  {
    var child := target.fields[keys[0]];
    var tail := keys[1..];
    assert keys[..0] == [];
    forall i | 1 <= i <= |keys| ensures GetPath(target, keys[..i]) == GetPath(child, tail[..i - 1]) {
      assert keys[..i][1..] == tail[..i - 1];
    }
    if Blocked(target, keys) {
      var i :| 0 <= i < |keys| && IsTruthyPrim(GetPath(target, keys[..i]));
      assert i >= 1;
      assert IsTruthyPrim(GetPath(child, tail[..i - 1]));
    }
    if Blocked(child, tail) {
      var j :| 0 <= j < |tail| && IsTruthyPrim(GetPath(child, tail[..j]));
      assert IsTruthyPrim(GetPath(target, keys[..j + 1]));
    }
  }

  /** A path below a missing or falsy member meets no truthy primitive. */
  lemma FalsyChildNotBlocked(target: Value, keys: seq<string>)
    requires |keys| >= 2 && target.Obj? && !TruthyValue(Member(target, keys[0]))
    ensures !Blocked(target, keys)
  {
    assert keys[..0] == [];
    forall i | 0 <= i < |keys| ensures !IsTruthyPrim(GetPath(target, keys[..i])) {
      if i >= 1 {
        var pre := keys[..i];
        assert pre[0] == keys[0];
        if keys[0] in target.fields {
          FalsyPrimPaths(target.fields[keys[0]], pre[1..]);
        }
      }
    }
  }

  /** Below a falsy primitive only the primitive itself is found. */
  lemma FalsyPrimPaths(v: Value, keys: seq<string>)
    requires !TruthyValue(v)
    ensures !IsTruthyPrim(GetPath(v, keys))
  {
  }

  /** A fresh `{}` is never blocked. */
  lemma {:induction false} EmptyNotBlocked(keys: seq<string>)
    requires |keys| >= 1
    ensures !Blocked(Obj(map[]), keys)
  {
    assert keys[..0] == [];
    forall i | 0 <= i < |keys| ensures !IsTruthyPrim(GetPath(Obj(map[]), keys[..i])) {
      if i >= 1 { assert keys[..i][0] == keys[0]; }
    }
  }

  /** Two paths part ways: they agree up to some index and differ there. */
  predicate Diverge(q: seq<string>, keys: seq<string>) {
    exists i :: 0 <= i < |q| && i < |keys| && q[..i] == keys[..i] && q[i] != keys[i]
  }

  /** Nothing off the edited path changes: every path that parts ways with
      it reads the same before and after. */
  lemma {:induction false} SetKeepsOtherPaths(target: Value, keys: seq<string>, x: Value, q: seq<string>)
    requires |keys| >= 1 && SetPath(target, keys, x).Ok? && Diverge(q, keys)
    ensures GetPath(SetPath(target, keys, x).value, q) == GetPath(target, q)
    decreases |keys|
  {
    var w := SetPath(target, keys, x).value;
    var i :| 0 <= i < |q| && i < |keys| && q[..i] == keys[..i] && q[i] != keys[i];
    if i == 0 {
      assert q[0] != keys[0];
    } else {
      assert q[0] == q[..i][0] && keys[0] == keys[..i][0];
      var child := Member(target, keys[0]);
      var next := if TruthyValue(child) then child else Obj(map[]);
      var tail := keys[1..];
      var qt := q[1..];
      assert qt[..i - 1] == q[..i][1..] && tail[..i - 1] == keys[..i][1..];
      assert qt[i - 1] == q[i] && tail[i - 1] == keys[i];
      assert Diverge(qt, tail);
      assert |keys| > 1;
      SetKeepsOtherPaths(next, tail, x, qt);
      if !TruthyValue(child) {
        EmptyReadsLikeFalsy(child, qt, tail);
      }
    }
  }

  /** Where the path parts ways below a replaced falsy member, both the old
      member and the fresh `{}` hold nothing. */
  lemma EmptyReadsLikeFalsy(child: Value, qt: seq<string>, tail: seq<string>)
    requires !TruthyValue(child) && |qt| >= 1
    ensures GetPath(Obj(map[]), qt) == None
    ensures GetPath(child, qt) == None
  {
  }
}
