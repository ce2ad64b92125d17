/**
 * The page builder: from the request headers, the shared props and the
 * handler's props to the page object an Inertia client receives.
 */
module Http {
  import opened Wrappers
  import opened Dicts
  import opened Strings
  import opened PropClasses
  import opened Helpers

  /** Header names are matched exactly; the framework's case folding is not modelled. */
  type Headers = map<string, string>

  /** `headers.get(name, default)` */
  function Header(h: Headers, name: string, default: string): string {
    if name in h then h[name] else default
  }

  datatype Request = Request(verb: string, url: string, headers: Headers)

  /** A finished response: status, headers and body text. */
  datatype Resp = Resp(status: int, headers: Headers, body: string)

  /** `InertiaRequest.is_inertia`: the request carries an `X-Inertia` header. */
  predicate IsInertia(h: Headers) {
    "X-Inertia" in h
  }

  /**
   * `InertiaRequest.is_a_partial_render(component)`: partial data was asked
   * for, and the partial component header, read as "" when absent, names
   * this very component. The match is exact: a request without the partial
   * component header is a partial render only of a component named "".
   */
  function IsPartialRender(h: Headers, component: string): (r: bool)
    ensures r <==> ("X-Inertia-Partial-Data" in h &&
                    if "X-Inertia-Partial-Component" in h then h["X-Inertia-Partial-Component"] == component
                    else component == "")
  {
    "X-Inertia-Partial-Data" in h && Header(h, "X-Inertia-Partial-Component", "") == component
  }

  /**
   * `headers.get(name, "").split(",")`: the header cut at every comma,
   * untrimmed; an absent header reads as "" and so gives `[""]`.
   */
  function HeaderList(h: Headers, name: string): (r: seq<string>)
    ensures |r| >= 1 && Join(r, ',') == Header(h, name, "")
    ensures forall i :: 0 <= i < |r| ==> ',' !in r[i]
    ensures name !in h ==> r == [""]
  {
    var r := Split(Header(h, name, ""), ',');
    JoinSplit(Header(h, name, ""), ',');
    r
  }

  /** `InertiaRequest.partial_keys()`: the keys a partial render asks for. */
  function PartialKeys(h: Headers): seq<string> {
    HeaderList(h, "X-Inertia-Partial-Data")
  }

  /** `InertiaRequest.reset_keys()`: the keys the client wants replaced rather than merged. */
  function ResetKeys(h: Headers): seq<string> {
    HeaderList(h, "X-Inertia-Reset")
  }

  // ---------------------------------------------------------------------------
  // Props

  /** Whether `_build_props` keeps the prop `v` under `key`. */
  predicate Kept(partial: bool, partialKeys: seq<string>, key: string, v: Value) {
    if partial then key in partialKeys else !IgnoreOnFirstLoad(v)
  }

  /** The keys of `d` that survive the filter. */
  function KeptKeys(d: Dict<Value>, partial: bool, partialKeys: seq<string>): set<string> {
    set k | k in d.vals && Kept(partial, partialKeys, k, d.vals[k])
  }

  /** The props every page starts from: the shared props overridden by the handler's. */
  function MergedProps(shared: Dict<Value>, props: Dict<Value>): (r: Dict<Value>)
    requires shared.Valid() && props.Valid()
    ensures r.Valid()
  {
    Override(shared, props)
  }

  /**
   * The props of the page, as `_build_props` returns them: the merged props
   * cut down by the filter, in their order, each resolved.
   */
  function PageProps(h: Headers, component: string, shared: Dict<Value>, props: Dict<Value>, eval: Eval): Dict<Value>
    requires shared.Valid() && props.Valid()
  {
    var merged := MergedProps(shared, props);
    var selected := Restrict(merged, KeptKeys(merged, IsPartialRender(h, component), PartialKeys(h)));
    Resolve(DictValue(selected), eval).dict
  }

  /**
   * What the page's props contain. On a partial render: exactly the merged
   * keys that were asked for. On any other render: exactly the merged keys
   * whose prop is not left out of a first load. Either way keys keep their
   * merged order, each value is the resolved merged value, and on a key both
   * sides have the handler's prop wins over the shared one.
   */
  lemma PagePropsContents(h: Headers, component: string, shared: Dict<Value>, props: Dict<Value>, eval: Eval)
    requires shared.Valid() && props.Valid()
    ensures var r := PageProps(h, component, shared, props, eval);
      && (IsPartialRender(h, component) ==>
            forall k :: k in r.vals <==> (k in shared.vals || k in props.vals) && k in PartialKeys(h))
      && (!IsPartialRender(h, component) ==>
            forall k :: k in r.vals <==>
              (k in props.vals && !IgnoreOnFirstLoad(props.vals[k])) ||
              (k !in props.vals && k in shared.vals && !IgnoreOnFirstLoad(shared.vals[k])))
      && (forall k :: k in r.vals && k in props.vals ==> r.vals[k] == Resolve(props.vals[k], eval))
      && (forall k :: k in r.vals && k !in props.vals ==> r.vals[k] == Resolve(shared.vals[k], eval))
      && r.keys == Keep(MergedProps(shared, props).keys, r.vals.Keys)
  {
    var merged := MergedProps(shared, props);
    var kept := KeptKeys(merged, IsPartialRender(h, component), PartialKeys(h));
    var selected := Restrict(merged, kept);
    var r := PageProps(h, component, shared, props, eval);
    assert r.keys == Keep(merged.keys, kept);
    assert r.vals.Keys == merged.vals.Keys * kept;
    KeepAgree(merged.keys, kept, r.vals.Keys);
  }

  /** A key set by both the shared and the handler's props carries the handler's resolved value. */
  lemma ExplicitPropsWin(h: Headers, component: string, shared: Dict<Value>, props: Dict<Value>, eval: Eval, k: string)
    requires shared.Valid() && props.Valid()
    requires k in shared.vals && k in props.vals
    requires k in PageProps(h, component, shared, props, eval).vals
    ensures PageProps(h, component, shared, props, eval).vals[k] == Resolve(props.vals[k], eval)
  {
    PagePropsContents(h, component, shared, props, eval);
  }

  /** One step of the delete loop in `BuildProps`: the key at `i` goes. */
  lemma DeleteStep(ks: seq<string>, i: nat, kept: set<string>, cur: Dict<Value>)
    requires i < |ks| && ks[i] !in kept
    requires cur.Valid() && cur.keys == Keep(ks[..i], kept) + ks[i..]
    ensures ks[i] in cur.vals
    ensures Delete(cur, ks[i]).keys == Keep(ks[..i + 1], kept) + ks[i + 1..]
  {
    var key, done, rest := ks[i], Keep(ks[..i], kept), ks[i + 1..];
    assert ks[i..] == [key] + rest;
    DeleteMiddle(done, key, rest, cur);
    KeepSkip(ks, i, kept);
  }

  /** A key the filter rejects adds nothing to the kept prefix. */
  lemma KeepSkip(ks: seq<string>, i: nat, kept: set<string>)
    requires i < |ks| && ks[i] !in kept
    ensures Keep(ks[..i + 1], kept) == Keep(ks[..i], kept)
  {
    assert ks[..i + 1] == ks[..i] + [ks[i]];
    KeepSnoc(ks[..i], ks[i], kept);
  }

  /** Deleting the key between two runs of keys leaves the two runs. */
  lemma DeleteMiddle(done: seq<string>, key: string, rest: seq<string>, d: Dict<Value>)
    requires d.Valid() && d.keys == done + ([key] + rest)
    ensures key in d.vals
    ensures Delete(d, key).keys == done + rest
  {
    assert d.keys == done + [key] + rest;
    NoDupsMiddle(done, key, rest);
    assert key in d.keys;
    KeepDropOne(done, key, rest, d.vals.Keys - {key});
  }

  /** The middle element of a sequence without duplicates occurs on neither side. */
  lemma NoDupsMiddle(a: seq<string>, x: string, b: seq<string>)
    requires NoDups(a + [x] + b)
    ensures x !in a && x !in b
  {
    var s := a + [x] + b;
    assert s[|a|] == x;
    forall j | 0 <= j < |a| ensures a[j] != x {
      assert s[j] == a[j];
    }
    forall j | 0 <= j < |b| ensures b[j] != x {
      assert s[|a| + 1 + j] == b[j];
    }
  }

  /** Keeping all but one element, which sits between the two kept runs. */
  lemma KeepDropOne(a: seq<string>, x: string, b: seq<string>, s: set<string>)
    requires x !in s
    requires forall y :: y in a ==> y in s
    requires forall y :: y in b ==> y in s
    ensures Keep(a + [x] + b, s) == a + b
  {
    assert a + [x] + b == a + ([x] + b);
    KeepAppend(a, [x] + b, s);
    KeepAll(a, s);
    KeepAppend([x], b, s);
    KeepAll(b, s);
    assert Keep([x], s) == [];
  }

  /** One step of the delete loop in `BuildProps`: the key at `i` stays. */
  lemma KeepStep(ks: seq<string>, i: nat, kept: set<string>)
    requires i < |ks| && ks[i] in kept
    ensures Keep(ks[..i], kept) + ks[i..] == Keep(ks[..i + 1], kept) + ks[i + 1..]
  {
    assert ks[i..] == [ks[i]] + ks[i + 1..];
    assert ks[..i + 1] == ks[..i] + [ks[i]];
    KeepSnoc(ks[..i], ks[i], kept);
  }

  /** Merging two well-formed dicts gives a well-formed dict. */
  lemma MergedWellFormed(shared: Dict<Value>, props: Dict<Value>)
    requires WellFormed(DictValue(shared)) && WellFormed(DictValue(props))
    ensures WellFormed(DictValue(MergedProps(shared, props)))
  {
    var merged := MergedProps(shared, props);
    forall k | k in merged.vals ensures WellFormed(merged.vals[k]) {
      if k in props.vals {
        assert WellFormed(props.vals[k]);
      } else {
        assert WellFormed(shared.vals[k]);
      }
    }
  }

  /** Cutting a well-formed dict down keeps it well-formed. */
  lemma RestrictWellFormed(d: Dict<Value>, s: set<string>)
    requires WellFormed(DictValue(d))
    ensures WellFormed(DictValue(Restrict(d, s)))
  {
    var r := Restrict(d, s);
    forall k | k in r.vals ensures WellFormed(r.vals[k]) {
      assert WellFormed(d.vals[k]);
    }
  }

  /**
   * `_build_props`: merge, then walk a copy of the key list deleting every
   * key the filter rejects, then resolve what is left.
   */
  method BuildProps(h: Headers, component: string, shared: Dict<Value>, props: Dict<Value>, eval: Eval)
    returns (r: Dict<Value>)
    requires WellFormed(DictValue(shared)) && WellFormed(DictValue(props))
    ensures r == PageProps(h, component, shared, props, eval)
  {
    var merged := MergedProps(shared, props);
    var partial := IsPartialRender(h, component);
    var cur := DropRejected(merged, partial, PartialKeys(h));
    MergedWellFormed(shared, props);
    RestrictWellFormed(merged, KeptKeys(merged, partial, PartialKeys(h)));
    var resolved := DeepTransform(DictValue(cur), eval);
    r := resolved.dict;
  }

  /**
   * The delete loop of `_build_props`: walk a copy of the key list and
   * delete each key the filter rejects, leaving the kept keys in order.
   */
  method DropRejected(merged: Dict<Value>, partial: bool, partialKeys: seq<string>)
    returns (cur: Dict<Value>)
    requires merged.Valid()
    ensures cur == Restrict(merged, KeptKeys(merged, partial, partialKeys))
  {
    ghost var kept := KeptKeys(merged, partial, partialKeys);
    var ks := merged.keys;
    cur := merged;
    var i := 0;
    FilterStart(merged, kept);
    while i < |ks|
      invariant 0 <= i <= |ks|
      invariant cur == Filtered(merged, kept, i)
    {
      var key := ks[i];
      var drop := if partial then key !in partialKeys else IgnoreOnFirstLoad(merged.vals[key]);
      KeptKeysMember(merged, partial, partialKeys, key);
      if drop {
        FilterDrop(merged, kept, i);
        cur := Delete(cur, key);
      } else {
        FilterKeep(merged, kept, i);
      }
      i := i + 1;
    }
    FilterEnd(merged, kept);
  }

  lemma KeptKeysMember(d: Dict<Value>, partial: bool, partialKeys: seq<string>, key: string)
    requires key in d.vals
    ensures key in KeptKeys(d, partial, partialKeys) <==> Kept(partial, partialKeys, key, d.vals[key])
  {
  }

  /**
   * The dict the delete loop holds after `i` keys: the keys seen so far that
   * are kept, then the keys not yet seen, each with its merged value.
   */
  ghost function Filtered(merged: Dict<Value>, kept: set<string>, i: nat): Dict<Value>
    requires i <= |merged.keys|
  {
    Dict(Keep(merged.keys[..i], kept) + merged.keys[i..],
         map k | k in merged.vals && (k in kept || k in merged.keys[i..]) :: merged.vals[k])
  }

  /** The loop's dict is a Python dict at every step. */
  lemma FilteredValid(merged: Dict<Value>, kept: set<string>, i: nat)
    requires merged.Valid() && i <= |merged.keys|
    ensures Filtered(merged, kept, i).Valid()
  {
    var ks := merged.keys;
    var done := Keep(ks[..i], kept);
    var all := done + ks[i..];
    assert ks == ks[..i] + ks[i..];
    assert NoDups(ks[..i]);
    forall a, b | 0 <= a < b < |all| ensures all[a] != all[b] {
      if a < |done| && b >= |done| {
        assert all[a] in ks[..i];
        assert all[b] in ks[i..];
        var x :| 0 <= x < i && ks[x] == all[a];
        var y :| i <= y < |ks| && ks[y] == all[b];
      }
    }
  }

  lemma FilterStart(merged: Dict<Value>, kept: set<string>)
    requires merged.Valid()
    ensures Filtered(merged, kept, 0) == merged
  {
    assert merged.keys[..0] == [] && merged.keys[0..] == merged.keys;
  }

  lemma FilterDrop(merged: Dict<Value>, kept: set<string>, i: nat)
    requires merged.Valid() && i < |merged.keys| && merged.keys[i] !in kept
    ensures Filtered(merged, kept, i).Valid()
    ensures merged.keys[i] in Filtered(merged, kept, i).vals
    ensures Delete(Filtered(merged, kept, i), merged.keys[i]) == Filtered(merged, kept, i + 1)
  {
    var ks, cur := merged.keys, Filtered(merged, kept, i);
    FilteredValid(merged, kept, i);
    DeleteStep(ks, i, kept, cur);
    FilterDropVals(merged, kept, i);
  }

  lemma FilterDropVals(merged: Dict<Value>, kept: set<string>, i: nat)
    requires merged.Valid() && i < |merged.keys| && merged.keys[i] !in kept
    ensures Filtered(merged, kept, i).vals - {merged.keys[i]} == Filtered(merged, kept, i + 1).vals
  {
    var ks := merged.keys;
    assert ks[i..] == [ks[i]] + ks[i + 1..];
    NoDupsAt(ks, i);
  }

  lemma FilterKeep(merged: Dict<Value>, kept: set<string>, i: nat)
    requires i < |merged.keys| && merged.keys[i] in kept
    ensures Filtered(merged, kept, i + 1) == Filtered(merged, kept, i)
  {
    KeepStep(merged.keys, i, kept);
    FilterKeepVals(merged, kept, i);
  }

  lemma FilterKeepVals(merged: Dict<Value>, kept: set<string>, i: nat)
    requires i < |merged.keys| && merged.keys[i] in kept
    ensures Filtered(merged, kept, i + 1).vals == Filtered(merged, kept, i).vals
  {
    var ks := merged.keys;
    assert ks[i..] == [ks[i]] + ks[i + 1..];
  }

  lemma FilterEnd(merged: Dict<Value>, kept: set<string>)
    requires merged.Valid()
    ensures Filtered(merged, kept, |merged.keys|) == Restrict(merged, kept)
  {
    var ks := merged.keys;
    assert ks[..|ks|] == ks && ks[|ks|..] == [];
    assert Filtered(merged, kept, |ks|).vals == Restrict(merged, kept).vals;
  }

  // ---------------------------------------------------------------------------
  // Deferred props

  /** `groups.setdefault(group, []).append(key)` */
  function AddToGroup(groups: Dict<seq<string>>, group: string, key: string): (r: Dict<seq<string>>)
    requires groups.Valid()
    ensures r.Valid()
  {
    Put(groups, group, (if group in groups.vals then groups.vals[group] else []) + [key])
  }

  /** The groups built from the keys `ks` of `props`, taken in order. */
  function DeferredGroups(props: Dict<Value>, ks: seq<string>): (r: Dict<seq<string>>)
    requires forall k :: k in ks ==> k in props.vals
    ensures r.Valid()
    decreases |ks|
  {
    if ks == [] then Empty()
    else
      var last := ks[|ks| - 1];
      var groups := DeferredGroups(props, ks[..|ks| - 1]);
      if IsDeferred(props.vals[last]) then AddToGroup(groups, props.vals[last].kind.group, last)
      else groups
  }

  /** The keys of `props` deferred into `group`. */
  function InGroup(props: Dict<Value>, group: string): set<string> {
    set k | k in props.vals && IsDeferred(props.vals[k]) && props.vals[k].kind.group == group
  }

  /**
   * The groups are exactly the groups some deferred key names, and each
   * lists exactly its deferred keys, in the order of `ks`.
   */
  lemma {:induction false} DeferredGroupsContents(props: Dict<Value>, ks: seq<string>)
    requires forall k :: k in ks ==> k in props.vals
    ensures forall g :: g in DeferredGroups(props, ks).vals <==> Keep(ks, InGroup(props, g)) != []
    ensures forall g :: g in DeferredGroups(props, ks).vals ==>
      DeferredGroups(props, ks).vals[g] == Keep(ks, InGroup(props, g))
    decreases |ks|
  {
    if ks != [] {
      var init, last := ks[..|ks| - 1], ks[|ks| - 1];
      assert ks == init + [last];
      DeferredGroupsContents(props, init);
      forall g ensures Keep(ks, InGroup(props, g)) == Keep(init, InGroup(props, g)) + (if last in InGroup(props, g) then [last] else []) {
        KeepSnoc(init, last, InGroup(props, g));
      }
    }
  }

  /**
   * Groups are listed in the order in which they are first seen: taking more
   * keys only ever adds groups at the end, never reorders the ones listed.
   */
  lemma {:induction false} DeferredGroupsGrow(props: Dict<Value>, ks: seq<string>, n: nat)
    requires forall k :: k in ks ==> k in props.vals
    requires n <= |ks|
    ensures var before, after := DeferredGroups(props, ks[..n]).keys, DeferredGroups(props, ks).keys;
      |before| <= |after| && after[..|before|] == before
    decreases |ks|
  {
    if n < |ks| {
      var init := ks[..|ks| - 1];
      assert init[..n] == ks[..n];
      DeferredGroupsGrow(props, init, n);
    } else {
      assert ks[..n] == ks;
    }
  }

  /**
   * `_build_deferred_props`: nothing on a partial render; otherwise the
   * handler's deferred props grouped by group name, or nothing when there
   * are none. Shared props never enter it.
   */
  function DeferredManifest(h: Headers, component: string, props: Dict<Value>): Option<Dict<seq<string>>>
    requires props.Valid()
  {
    if IsPartialRender(h, component) then None
    else
      var groups := DeferredGroups(props, props.keys);
      if groups.keys == [] then None else Some(groups)
  }

  /**
   * The manifest is present exactly on a non-partial render with at least
   * one deferred prop, and then maps each group to its keys in prop order.
   */
  lemma DeferredManifestContents(h: Headers, component: string, props: Dict<Value>)
    requires props.Valid()
    ensures var m := DeferredManifest(h, component, props);
      && (m.Some? <==> !IsPartialRender(h, component) && exists k :: k in props.vals && IsDeferred(props.vals[k]))
      && (m.Some? ==> forall g :: g in m.value.vals <==> InGroup(props, g) != {})
      && (m.Some? ==> forall g :: g in m.value.vals ==> m.value.vals[g] == Keep(props.keys, InGroup(props, g)))
  {
    var groups := DeferredGroups(props, props.keys);
    DeferredGroupsContents(props, props.keys);
    forall g ensures Keep(props.keys, InGroup(props, g)) != [] <==> InGroup(props, g) != {} {
      var listed := Keep(props.keys, InGroup(props, g));
      if InGroup(props, g) != {} {
        var k :| k in InGroup(props, g);
        assert k in props.keys;
        assert k in listed;
      }
      if listed != [] {
        assert listed[0] in listed;
        assert listed[0] in InGroup(props, g);
      }
    }
    var any := exists k :: k in props.vals && IsDeferred(props.vals[k]);
    if any {
      var k :| k in props.vals && IsDeferred(props.vals[k]);
      assert k in InGroup(props, props.vals[k].kind.group);
      assert props.vals[k].kind.group in groups.vals;
    }
    if groups.keys != [] {
      var g := groups.keys[0];
      assert g in groups.vals;
      assert InGroup(props, g) != {};
      var k :| k in InGroup(props, g);
      assert any;
    }
  }

  /** `_build_deferred_props` as the source runs it, one prop at a time. */
  method BuildDeferredProps(h: Headers, component: string, props: Dict<Value>)
    returns (r: Option<Dict<seq<string>>>)
    requires props.Valid()
    ensures r == DeferredManifest(h, component, props)
  {
    if IsPartialRender(h, component) {
      return None;
    }
    var groups := Empty();
    var i := 0;
    while i < |props.keys|
      invariant 0 <= i <= |props.keys|
      invariant groups == DeferredGroups(props, props.keys[..i])
    {
      var key := props.keys[i];
      var prop := props.vals[key];
      if IsDeferred(prop) {
        groups := AddToGroup(groups, prop.kind.group, key);
      }
      assert props.keys[..i + 1][..i] == props.keys[..i];
      i := i + 1;
    }
    assert props.keys[..i] == props.keys;
    r := if groups.keys != [] then Some(groups) else None;
  }

  // ---------------------------------------------------------------------------
  // Merge props

  /**
   * `_build_merge_props`: the handler's keys, in order, whose prop is
   * mergeable and asks to merge, minus the keys the client reset. Computed on
   * every render, partial or not; shared props never enter it.
   */
  function MergeProps(h: Headers, props: Dict<Value>): (r: seq<string>)
    requires props.Valid()
    ensures forall k :: k in r <==> k in props.vals && Merges(props.vals[k]) && k !in ResetKeys(h)
    ensures NoDups(r) && r == Keep(props.keys, set k | k in r)
  {
    var s := set k | k in props.vals && Merges(props.vals[k]) && k !in ResetKeys(h);
    var r := Keep(props.keys, s);
    KeepAgree(props.keys, s, set k | k in r);
    r
  }

  /** An OptionalProp is never listed for merging, and a reset key never is either. */
  lemma MergePropsExclusions(h: Headers, props: Dict<Value>, k: string)
    requires props.Valid()
    ensures k in props.vals && props.vals[k].Prop? && props.vals[k].kind.OptionalKind? ==> k !in MergeProps(h, props)
    ensures k in ResetKeys(h) ==> k !in MergeProps(h, props)
    ensures k in props.vals && props.vals[k].Prop? && props.vals[k].kind.MergeKind? && k !in ResetKeys(h) ==> k in MergeProps(h, props)
  {
  }

  // ---------------------------------------------------------------------------
  // The page object

  /** The page object; an absent optional field is left out of the JSON. */
  datatype Page = Page(
    component: string,
    props: Dict<Value>,
    url: string,
    version: string,
    encryptHistory: bool,
    clearHistory: bool,
    deferredProps: Option<Dict<seq<string>>>,
    mergeProps: Option<seq<string>>)

  /** The configuration the page builder reads. */
  datatype Settings = Settings(version: string, encryptHistory: Value)

  /**
   * What the page builder reads from the request: its URL and headers, the
   * shared props, a per-request history-encryption override, and the
   * session's clear-history entry (the source's session is always empty).
   */
  datatype Context = Context(
    request: Request,
    shared: Dict<Value>,
    encryptOverride: Option<Value>,
    sessionClearHistory: Option<Value>)

  /** `should_encrypt_history()`: the request's override, else the setting, which must be a bool. */
  function ShouldEncryptHistory(ctx: Context, settings: Settings): (r: Result<bool, string>)
    ensures r.Success? <==> ctx.encryptOverride.GetOr(settings.encryptHistory).Bool?
    ensures r.Success? ==> r.value == ctx.encryptOverride.GetOr(settings.encryptHistory).b
    ensures r.Failure? ==> r.error == "Expected " + TypeName(BoolType) + " for " + "encrypt_history" + ", got " + ClassName(ctx.encryptOverride.GetOr(settings.encryptHistory))
  {
    var v := ValidateType(ctx.encryptOverride.GetOr(settings.encryptHistory), "encrypt_history", BoolType);
    if v.Failure? then Failure(v.error) else Success(v.value.b)
  }

  /** The clear-history flag: the session entry, False when absent, which must be a bool. */
  function ClearHistory(ctx: Context): (r: Result<bool, string>)
    ensures ctx.sessionClearHistory.None? ==> r == Success(false)
    ensures r.Success? <==> ctx.sessionClearHistory.GetOr(Bool(false)).Bool?
    ensures r.Success? ==> r.value == ctx.sessionClearHistory.GetOr(Bool(false)).b
    ensures r.Failure? ==> r.error == "Expected " + TypeName(BoolType) + " for " + "clear_history" + ", got " + ClassName(ctx.sessionClearHistory.GetOr(Bool(false)))
  {
    var v := ValidateType(ctx.sessionClearHistory.GetOr(Bool(false)), "clear_history", BoolType);
    if v.Failure? then Failure(v.error) else Success(v.value.b)
  }

  /** `_build_page_data()`: a TypeError from either flag, or the page. */
  function PageData(ctx: Context, settings: Settings, component: string, props: Dict<Value>, eval: Eval): Result<Page, string>
    requires ctx.shared.Valid() && props.Valid()
  {
    var h := ctx.request.headers;
    var clear := ClearHistory(ctx);
    if clear.Failure? then Failure(clear.error)
    else
      var encrypt := ShouldEncryptHistory(ctx, settings);
      if encrypt.Failure? then Failure(encrypt.error)
      else
        var merge := MergeProps(h, props);
        Success(Page(
          component,
          PageProps(h, component, ctx.shared, props, eval),
          ctx.request.url,
          settings.version,
          encrypt.value,
          clear.value,
          DeferredManifest(h, component, props),
          if merge == [] then None else Some(merge)))
  }

  /**
   * The page fails only on a flag that is not a bool, the clear-history flag
   * checked first. Otherwise it carries the component, URL and version as
   * given, both flags, the props `_build_props` builds, the deferred manifest
   * exactly when there is one, and the merge list exactly when it is
   * non-empty.
   */
  lemma PageDataShape(ctx: Context, settings: Settings, component: string, props: Dict<Value>, eval: Eval)
    requires ctx.shared.Valid() && props.Valid()
    ensures var r := PageData(ctx, settings, component, props, eval);
      var h := ctx.request.headers;
      && (r.Success? <==> ctx.sessionClearHistory.GetOr(Bool(false)).Bool? && ctx.encryptOverride.GetOr(settings.encryptHistory).Bool?)
      && (!ctx.sessionClearHistory.GetOr(Bool(false)).Bool? ==> r.Failure? && r.error == ClearHistory(ctx).error)
      && (ctx.sessionClearHistory.GetOr(Bool(false)).Bool? && !ctx.encryptOverride.GetOr(settings.encryptHistory).Bool? ==>
            r.Failure? && r.error == ShouldEncryptHistory(ctx, settings).error)
      && (r.Success? ==>
            && r.value.component == component && r.value.url == ctx.request.url && r.value.version == settings.version
            && r.value.clearHistory == (ctx.sessionClearHistory.Some? && ctx.sessionClearHistory.value.b)
            && r.value.encryptHistory == ctx.encryptOverride.GetOr(settings.encryptHistory).b
            && r.value.props == PageProps(h, component, ctx.shared, props, eval)
            && r.value.deferredProps == DeferredManifest(h, component, props)
            && (r.value.deferredProps.Some? <==>
                  !IsPartialRender(h, component) && exists k :: k in props.vals && IsDeferred(props.vals[k]))
            && (r.value.mergeProps.Some? <==> MergeProps(h, props) != [])
            && (r.value.mergeProps.Some? ==> r.value.mergeProps.value == MergeProps(h, props)))
  {
    DeferredManifestContents(ctx.request.headers, component, props);
  }

  /**
   * `_build_page_data()` as the source runs it: check the clear-history
   * flag, build the props, check the encryption flag, then add the deferred
   * manifest and the merge list only when they are non-empty.
   */
  method BuildPageData(ctx: Context, settings: Settings, component: string, props: Dict<Value>, eval: Eval)
    returns (r: Result<Page, string>)
    requires WellFormed(DictValue(ctx.shared)) && WellFormed(DictValue(props))
    ensures r == PageData(ctx, settings, component, props, eval)
  {
    var h := ctx.request.headers;
    var clear := ClearHistory(ctx);
    if clear.Failure? {
      return Failure(clear.error);
    }
    var pageProps := BuildProps(h, component, ctx.shared, props, eval);
    var encrypt := ShouldEncryptHistory(ctx, settings);
    if encrypt.Failure? {
      return Failure(encrypt.error);
    }
    var page := Page(component, pageProps, ctx.request.url, settings.version, encrypt.value, clear.value, None, None);
    var deferred := BuildDeferredProps(h, component, props);
    if deferred.Some? && deferred.value.keys != [] {
      page := page.(deferredProps := deferred);
    }
    var merge := MergeProps(h, props);
    if merge != [] {
      page := page.(mergeProps := Some(merge));
    }
    r := Success(page);
  }

  // ---------------------------------------------------------------------------
  // The response

  /** The body of a reply: the page as JSON, or the HTML shell around it (rendering not modelled). */
  datatype Body = JsonBody(page: Page) | HtmlBody(page: Page)

  datatype Reply = Reply(status: int, headers: Headers, body: Body)

  /** The headers an Inertia reply adds over the handler's. */
  const InertiaReplyHeaders: Headers := map["Vary" := "X-Inertia", "X-Inertia" := "true", "Content-Type" := "application/json"]

  /**
   * `InertiaResponse.__call__`: JSON carrying the protocol headers for an
   * Inertia request, the HTML shell with the handler's own headers otherwise;
   * the status is the handler's either way.
   */
  function Respond(requestHeaders: Headers, page: Page, status: int, headers: Headers): (r: Reply)
    ensures r.status == status && r.body.page == page
    ensures r.body.JsonBody? <==> IsInertia(requestHeaders)
    ensures IsInertia(requestHeaders) ==>
      && r.headers.Keys == headers.Keys + {"Vary", "X-Inertia", "Content-Type"}
      && r.headers["Vary"] == "X-Inertia" && r.headers["X-Inertia"] == "true"
      && r.headers["Content-Type"] == "application/json"
      && forall k :: k in headers && k !in InertiaReplyHeaders ==> r.headers[k] == headers[k]
    ensures !IsInertia(requestHeaders) ==> r.headers == headers
  {
    if IsInertia(requestHeaders) then Reply(status, headers + InertiaReplyHeaders, JsonBody(page))
    else Reply(status, headers, HtmlBody(page))
  }

  /**
   * `location(url)`: a 409 Conflict with an empty body whose only header,
   * `X-Inertia-Location`, sends the client to `url` with a full page visit.
   */
  function Location(url: string): (r: Resp)
    ensures r.status == 409 && r.body == ""
    ensures r.headers.Keys == {"X-Inertia-Location"} && r.headers["X-Inertia-Location"] == url
  {
    Resp(409, map["X-Inertia-Location" := url], "")
  }
}
