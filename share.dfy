/** The per-request store of shared props (`InertiaShare` and `share`). */
module Share {
  import opened Dicts
  import opened PropClasses

  /** The shared props of one request: one dict that `Set` replaces by a merged copy. */
  class InertiaShare {
    var props: Dict<Value>

    ghost predicate Valid()
      reads this
    {
      props.Valid()
    }

    /** A fresh store holds nothing. */
    constructor ()
      ensures Valid() && props == Empty()
    {
      props := Empty();
    }

    /**
     * `set(**kwargs)`: the store becomes the old props overridden by `kwargs`;
     * the last write wins per key and every other key keeps its value.
     */
    method Set(kwargs: Dict<Value>)
      requires Valid() && kwargs.Valid()
      modifies this
      ensures Valid()
      ensures props == Override(old(props), kwargs)
      ensures forall k :: k in kwargs.vals ==> props.vals[k] == kwargs.vals[k]
      ensures forall k :: k in old(props.vals) && k !in kwargs.vals ==> props.vals[k] == old(props.vals[k])
    {
      props := Override(props, kwargs);
    }

    /** `all()`: the current props. */
    function All(): (r: Dict<Value>)
      requires Valid()
      reads this
      ensures r.Valid() && r == props
    {
      props
    }
  }

  /** The framework's `request.state`, as far as shared props go. */
  class RequestState {
    var inertia: InertiaShare?

    ghost predicate Valid()
      reads this, inertia
    {
      inertia != null ==> inertia.Valid()
    }

    /** What the page builder reads as the shared props: `{}` until something is shared. */
    function Shared(): (r: Dict<Value>)
      requires Valid()
      reads this, inertia
      ensures r.Valid()
      ensures inertia == null ==> r == Empty()
      ensures inertia != null ==> r == inertia.props
    {
      if inertia == null then Empty() else inertia.All()
    }

    /**
     * `share(request, **kwargs)`: the store is created on the first call only,
     * so successive calls accumulate, later keys winning.
     */
    method Share(kwargs: Dict<Value>)
      requires Valid() && kwargs.Valid()
      modifies this, inertia
      ensures Valid() && inertia != null
      ensures old(inertia) == null ==> fresh(inertia)
      ensures old(inertia) != null ==> inertia == old(inertia)
      ensures Shared() == Override(old(Shared()), kwargs)
    {
      if inertia == null {
        inertia := new InertiaShare();
      }
      inertia.Set(kwargs);
    }
  }

  /** Two calls of `share` leave the same props as one call with both updates merged. */
  method ShareTwice(state: RequestState, first: Dict<Value>, second: Dict<Value>)
    requires state.Valid() && first.Valid() && second.Valid()
    modifies state, state.inertia
    ensures state.Valid()
    ensures state.Shared() == Override(old(state.Shared()), Override(first, second))
  {
    ghost var before := state.Shared();
    state.Share(first);
    state.Share(second);
    OverrideAssociative(before, first, second);
  }
}
