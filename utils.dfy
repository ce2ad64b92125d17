/** The constructors handlers use to wrap props, and `model_to_dict`. */
module Utils {
  import opened Wrappers
  import opened Dicts
  import opened PropClasses

  /** The group a deferred prop joins when none is given. */
  const DefaultGroup: string := "default"

  /** `optional(p)`: left out of a first load, never merged, calls through to `p`. */
  function Optional(p: Value): (r: Value)
    ensures IgnoreOnFirstLoad(r) && !IsMergeable(r) && !IsDeferred(r)
    ensures r.wrapped == p && Core(r) == Core(p)
  {
    Prop(OptionalKind, p)
  }

  /** `lazy(p)`: the deprecated name of `optional(p)`; the warning is not modelled. */
  function Lazy(p: Value): (r: Value)
    ensures r == Optional(p)
  {
    Optional(p)
  }

  /**
   * `defer(p, group, merge)`: left out of a first load, listed under `group`,
   * merged exactly when `merge` is set; both are stored unchanged.
   */
  function Defer(p: Value, group: string, merge: bool): (r: Value)
    ensures IsDeferred(r) && IgnoreOnFirstLoad(r) && r.kind.group == group
    ensures Merges(r) == merge
    ensures r.wrapped == p && Core(r) == Core(p)
  {
    Prop(DeferredKind(group, merge), p)
  }

  /** `defer(p)` with its defaults: group "default", no merge. */
  function DeferDefault(p: Value): (r: Value)
    ensures IsDeferred(r) && r.kind.group == "default" && !Merges(r)
    ensures r == Defer(p, DefaultGroup, false)
  {
    Defer(p, DefaultGroup, false)
  }

  /** `merge(p)`: sent on a first load and always merged. */
  function Merge(p: Value): (r: Value)
    ensures !IgnoreOnFirstLoad(r) && Merges(r) && !IsDeferred(r)
    ensures r.wrapped == p && Core(r) == Core(p)
  {
    Prop(MergeKind, p)
  }

  /** An attribute `model_to_dict` keeps: not starting with "_" and not "password". */
  predicate IsPublic(k: string) {
    !(|k| > 0 && k[0] == '_') && k != "password"
  }

  /**
   * `v.__dict__` when `v` has one: an object's attributes, a wrapper's fields
   * in the order its constructor sets them, a function's (empty) attributes;
   * None for the built-in values, which have no `__dict__`.
   */
  function Attributes(v: Value): (r: Option<Dict<Value>>)
    requires v.Instance? ==> v.attrs.Valid()
    ensures r.Some? ==> r.value.Valid()
    ensures r.Some? <==> v.Instance? || v.Prop? || v.Producer?
  {
    match v
    case Instance(_, attrs) => Some(attrs)
    case Prop(DeferredKind(group, merge), w) =>
      Some(Dict(["prop", "group", "merge"], map["prop" := w, "group" := Str(group), "merge" := Bool(merge)]))
    case Prop(_, w) => Some(Dict(["prop"], map["prop" := w]))
    case Producer(_) => Some(Empty())
    case _ => None
  }

  /** The public attributes among `attrs`, in their order and with their values. */
  function PublicAttributes(attrs: Dict<Value>): (r: Dict<Value>)
    requires attrs.Valid()
    ensures r.Valid()
    ensures forall k :: k in r.vals <==> k in attrs.vals && IsPublic(k)
    ensures forall k :: k in r.vals ==> r.vals[k] == attrs.vals[k]
    ensures r.keys == Keep(attrs.keys, r.vals.Keys)
  {
    var public := set k | k in attrs.vals && IsPublic(k);
    var r := Restrict(attrs, public);
    KeepAgree(attrs.keys, public, r.vals.Keys);
    r
  }

  /** `model_to_dict(v)`: the public attributes of `v`; `{}` when `v` has no `__dict__`. */
  function ModelToDict(v: Value): (r: Dict<Value>)
    requires v.Instance? ==> v.attrs.Valid()
    ensures r.Valid()
    ensures Attributes(v).None? ==> r == Empty()
    ensures Attributes(v).Some? ==> r == PublicAttributes(Attributes(v).value)
  {
    var attrs := Attributes(v);
    if attrs.None? then Empty() else PublicAttributes(attrs.value)
  }
}
