/**
 * The values a handler can put in its props, and the prop wrapper classes
 * OptionalProp, DeferredProp and MergeProp. A "plain" prop is any value that
 * is not one of the wrappers.
 */
module PropClasses {
  import opened Dicts

  /** Which wrapper class: OptionalProp, DeferredProp(group, merge) or MergeProp. */
  datatype Kind = OptionalKind | DeferredKind(group: string, merge: bool) | MergeKind

  /**
   * A Python value as far as the page builder can tell them apart. A callable
   * is opaque: `Producer(id)` stands for a function whose result is given by
   * an evaluation function passed in from outside.
   */
  datatype Value =
    | Null
    | Bool(b: bool)
    | Int(i: int)
    | Str(s: string)
    | List(items: seq<Value>)
    | DictValue(dict: Dict<Value>)
    | Instance(cls: string, attrs: Dict<Value>)   // an object with a `__dict__`
    | Producer(id: nat)                           // an opaque callable
    | Prop(kind: Kind, wrapped: Value)            // an instance of a CallableProp subclass

  /** What each producer returns when called. */
  type Eval = nat -> Value

  /** `callable(v)`: producers, and the wrappers, which define `__call__`. */
  predicate IsCallable(v: Value) {
    v.Producer? || v.Prop?
  }

  /**
   * `v()` for a callable `v`. On a wrapper this is `CallableProp.__call__`:
   * call the wrapped value when it is callable, otherwise return it.
   */
  function Invoke(v: Value, eval: Eval): Value
    requires IsCallable(v)
  {
    match v
    case Producer(id) => eval(id)
    case Prop(_, w) => if IsCallable(w) then Invoke(w, eval) else w
  }

  /** The value inside all the wrappers around `v`. */
  function Core(v: Value): (c: Value)
    ensures !c.Prop?
  {
    if v.Prop? then Core(v.wrapped) else v
  }

  /**
   * Calling a wrapper, however deeply nested, calls the innermost wrapped
   * value when it is a producer and otherwise returns it: the wrapper kind
   * plays no part in what a call yields.
   */
  lemma {:induction false} InvokeCallsCore(v: Value, eval: Eval)
    requires IsCallable(v)
    ensures Invoke(v, eval) == if Core(v).Producer? then eval(Core(v).id) else Core(v)
  {
    if v.Prop? && IsCallable(v.wrapped) {
      InvokeCallsCore(v.wrapped, eval);
    }
  }

  /** `isinstance(v, IgnoreOnFirstLoadProp)`: OptionalProp and DeferredProp. */
  predicate IgnoreOnFirstLoad(v: Value) {
    v.Prop? && (v.kind.OptionalKind? || v.kind.DeferredKind?)
  }

  /** `isinstance(v, MergeableProp)`: DeferredProp and MergeProp. */
  predicate IsMergeable(v: Value) {
    v.Prop? && (v.kind.DeferredKind? || v.kind.MergeKind?)
  }

  /** `v.should_merge()`: a DeferredProp's flag; always true for a MergeProp. */
  function ShouldMerge(v: Value): bool
    requires IsMergeable(v)
  {
    match v.kind
    case DeferredKind(_, merge) => merge
    case MergeKind => true
  }

  /** The test the merge list applies to a prop: mergeable and asking to merge. */
  predicate Merges(v: Value) {
    IsMergeable(v) && ShouldMerge(v)
  }

  /** `isinstance(v, DeferredProp)` */
  predicate IsDeferred(v: Value) {
    v.Prop? && v.kind.DeferredKind?
  }

  /**
   * How the three wrappers and the plain values answer the two questions:
   * only OptionalProp and DeferredProp are left out of a first load, and only
   * a MergeProp or a DeferredProp built with merge=True is ever merged. In
   * particular nothing is both left out of a first load and always merged,
   * and an OptionalProp never merges.
   */
  lemma VariantTable(v: Value)
    ensures !v.Prop? ==> !IgnoreOnFirstLoad(v) && !Merges(v)
    ensures v.Prop? && v.kind.OptionalKind? ==> IgnoreOnFirstLoad(v) && !Merges(v)
    ensures v.Prop? && v.kind.DeferredKind? ==> IgnoreOnFirstLoad(v) && (Merges(v) <==> v.kind.merge)
    ensures v.Prop? && v.kind.MergeKind? ==> !IgnoreOnFirstLoad(v) && Merges(v)
    ensures IsDeferred(v) <==> IgnoreOnFirstLoad(v) && IsMergeable(v)
  {
  }
}
