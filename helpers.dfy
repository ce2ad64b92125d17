/** Resolving callables inside props, and the type check used on settings. */
module Helpers {
  import opened Wrappers
  import opened Dicts
  import opened PropClasses

  /** Every dict reached by walking through dicts from `v` is a proper Python dict. */
  ghost predicate WellFormed(v: Value)
    decreases v
  {
    v.DictValue? ==>
      v.dict.Valid() && forall k :: k in v.dict.vals ==> WellFormed(v.dict.vals[k])
  }

  /** Walking through dicts from `v` meets no callable. */
  ghost predicate Inert(v: Value)
    decreases v
  {
    if v.DictValue? then forall k :: k in v.dict.vals ==> Inert(v.dict.vals[k])
    else !IsCallable(v)
  }

  /**
   * `deep_transform_callables(v)`: a dict keeps its keys in their order and
   * each value is resolved in turn; any other value is called if callable and
   * returned as it is otherwise. What a call returns is not walked again, and
   * lists are not walked at all.
   */
  function Resolve(v: Value, eval: Eval): (r: Value)
    ensures v.DictValue? ==> r.DictValue? && r.dict.keys == v.dict.keys && r.dict.vals.Keys == v.dict.vals.Keys
    ensures !v.DictValue? && !IsCallable(v) ==> r == v
    decreases v
  {
    match v
    case DictValue(d) => DictValue(Dict(d.keys, map k | k in d.vals :: Resolve(d.vals[k], eval)))
    case _ => if IsCallable(v) then Invoke(v, eval) else v
  }

  /**
   * Outside a dict, resolution is a call of the innermost wrapped value: a
   * producer there is evaluated, anything else is returned unwrapped.
   */
  lemma ResolveLeaf(v: Value, eval: Eval)
    requires !v.DictValue?
    ensures Resolve(v, eval) == if Core(v).Producer? then eval(Core(v).id) else Core(v)
  {
    if IsCallable(v) {
      InvokeCallsCore(v, eval);
    }
  }

  /** A value with no callable to find is left exactly as it is. */
  lemma {:induction false} ResolveInert(v: Value, eval: Eval)
    requires Inert(v)
    ensures Resolve(v, eval) == v
    decreases v
  {
    if v.DictValue? {
      var d := v.dict;
      forall k | k in d.vals
        ensures Resolve(d.vals[k], eval) == d.vals[k]
      {
        ResolveInert(d.vals[k], eval);
      }
      assert (map k | k in d.vals :: Resolve(d.vals[k], eval)) == d.vals;
    }
  }

  /**
   * One pass resolves everything it can reach: when every producer returns a
   * value with no callable to find, and no wrapper reachable through dicts
   * wraps a dict, nothing callable is left to find in the result.
   */
  lemma {:induction false} ResolveLeavesInert(v: Value, eval: Eval)
    requires forall id: nat :: Inert(eval(id))
    requires NoWrappedDict(v)
    ensures Inert(Resolve(v, eval))
    decreases v
  {
    if v.DictValue? {
      var d := v.dict;
      var r := Resolve(v, eval);
      forall k | k in d.vals
        ensures Inert(r.dict.vals[k])
      {
        ResolveLeavesInert(d.vals[k], eval);
      }
    } else {
      ResolveLeaf(v, eval);
      var c := Core(v);
      if !c.Producer? {
        assert !c.DictValue?;
      }
    }
  }

  /** No wrapper reachable through dicts has a dict at its core. */
  ghost predicate NoWrappedDict(v: Value)
    decreases v
  {
    if v.DictValue? then forall k :: k in v.dict.vals ==> NoWrappedDict(v.dict.vals[k])
    else !Core(v).DictValue?
  }

  /**
   * The limit of the single pass: a wrapper, however deeply nested, around a
   * dict resolves to that very dict, so any callable inside it stays uncalled.
   */
  lemma WrappedDictStaysUnresolved(v: Value, eval: Eval)
    requires v.Prop? && Core(v).DictValue?
    ensures Resolve(v, eval) == Core(v)
  {
    ResolveLeaf(v, eval);
  }

  /**
   * `deep_transform_callables` as the source runs it: each entry of a dict
   * is overwritten by its own transform, one key after another.
   */
  method DeepTransform(v: Value, eval: Eval) returns (r: Value)
    requires WellFormed(v)
    ensures r == Resolve(v, eval)
    decreases v
  {
    if !v.DictValue? {
      r := if IsCallable(v) then Invoke(v, eval) else v;
      return;
    }
    var d := v.dict;
    var ks := d.keys;
    var cur := d;
    var i := 0;
    ResolvedUpToStart(d, eval);
    while i < |ks|
      invariant 0 <= i <= |ks|
      invariant cur == ResolvedUpTo(d, i, eval)
    {
      var key := ks[i];
      var t := DeepTransform(d.vals[key], eval);
      ResolvedUpToStep(d, i, eval);
      cur := Put(cur, key, t);
      i := i + 1;
    }
    ResolvedUpToEnd(d, eval);
    r := DictValue(cur);
  }

  /** The dict `DeepTransform` holds once the first `i` keys are done. */
  ghost function ResolvedUpTo(d: Dict<Value>, i: nat, eval: Eval): Dict<Value>
    requires i <= |d.keys|
  {
    Dict(d.keys, map k | k in d.vals :: if k in d.keys[..i] then Resolve(d.vals[k], eval) else d.vals[k])
  }

  lemma ResolvedUpToStart(d: Dict<Value>, eval: Eval)
    ensures ResolvedUpTo(d, 0, eval) == d
  {
    assert d.keys[..0] == [];
    assert ResolvedUpTo(d, 0, eval).vals == d.vals;
  }

  lemma ResolvedUpToStep(d: Dict<Value>, i: nat, eval: Eval)
    requires d.Valid() && i < |d.keys|
    ensures ResolvedUpTo(d, i, eval).Valid()
    ensures Put(ResolvedUpTo(d, i, eval), d.keys[i], Resolve(d.vals[d.keys[i]], eval)) == ResolvedUpTo(d, i + 1, eval)
  {
    var ks, key := d.keys, d.keys[i];
    assert ks[..i + 1] == ks[..i] + [key];
    NoDupsAt(ks, i);
    var before, after := ResolvedUpTo(d, i, eval), ResolvedUpTo(d, i + 1, eval);
    assert before.vals[key := Resolve(d.vals[key], eval)] == after.vals;
  }

  lemma ResolvedUpToEnd(d: Dict<Value>, eval: Eval)
    requires d.Valid()
    ensures DictValue(ResolvedUpTo(d, |d.keys|, eval)) == Resolve(DictValue(d), eval)
  {
    assert d.keys[..|d.keys|] == d.keys;
    assert ResolvedUpTo(d, |d.keys|, eval).vals == map k | k in d.vals :: Resolve(d.vals[k], eval);
  }

  /** The types that settings are checked against. */
  datatype PyType = NoneType | BoolType | IntType | StrType | ListType | DictType

  function TypeName(t: PyType): string {
    match t
    case NoneType => "NoneType"
    case BoolType => "bool"
    case IntType => "int"
    case StrType => "str"
    case ListType => "list"
    case DictType => "dict"
  }

  /** `type(v).__name__` */
  function ClassName(v: Value): string {
    match v
    case Null => "NoneType"
    case Bool(_) => "bool"
    case Int(_) => "int"
    case Str(_) => "str"
    case List(_) => "list"
    case DictValue(_) => "dict"
    case Instance(cls, _) => cls
    case Producer(_) => "function"
    case Prop(OptionalKind, _) => "OptionalProp"
    case Prop(DeferredKind(_, _), _) => "DeferredProp"
    case Prop(MergeKind, _) => "MergeProp"
  }

  /** `isinstance(v, t)`; `bool` is a subclass of `int`. */
  predicate IsInstance(v: Value, t: PyType) {
    match t
    case NoneType => v.Null?
    case BoolType => v.Bool?
    case IntType => v.Int? || v.Bool?
    case StrType => v.Str?
    case ListType => v.List?
    case DictType => v.DictValue?
  }

  /**
   * `validate_type(v, name, t)`: `v` itself when it is a `t`, a TypeError
   * otherwise. Only a bool passes as a bool, and a bool also passes as an int.
   */
  function ValidateType(v: Value, name: string, expected: PyType): (r: Result<Value, string>)
    ensures r.Success? <==> IsInstance(v, expected)
    ensures r.Success? ==> r.value == v
    ensures r.Failure? ==> r.error == "Expected " + TypeName(expected) + " for " + name + ", got " + ClassName(v)
    ensures expected == BoolType ==> (r.Success? <==> v.Bool?)
    ensures expected == IntType && v.Bool? ==> r.Success?
  {
    if IsInstance(v, expected) then Success(v)
    else Failure("Expected " + TypeName(expected) + " for " + name + ", got " + ClassName(v))
  }
}
