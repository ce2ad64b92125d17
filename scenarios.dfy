/**
 * The merge page of the rendering tests, worked through the model: a plain
 * `name`, a MergeProp `sport` and a DeferredProp `team` that merges.
 */
module Scenarios {
  import opened Wrappers
  import opened Dicts
  import opened PropClasses
  import opened Helpers
  import opened Http
  import opened Strings

  /** The handler's props of the merge page. */
  function MergePageProps(): (d: Dict<Value>)
    ensures d.Valid()
  {
    Dict(["name", "sport", "team"],
         map["name" := Str("Brandon"),
             "sport" := Prop(MergeKind, Str("Hockey")),
             "team" := Prop(DeferredKind("default", true), Str("Penguins"))])
  }

  /** A first Inertia visit: no partial or reset headers. */
  function FirstVisit(): Headers {
    map["X-Inertia" := "true"]
  }

  /** Without a reset header both `sport` and `team` are listed for merging, partial render or not. */
  lemma MergesUnlessReset(h: Headers)
    requires "X-Inertia-Reset" !in h
    ensures MergeProps(h, MergePageProps()) == ["sport", "team"]
  {
    var r := MergeProps(h, MergePageProps());
    UnresetMerging(h);
    KeepAgree(MergePageProps().keys, set k | k in r, {"sport", "team"});
    KeepSportTeam();
  }

  lemma UnresetMerging(h: Headers)
    requires "X-Inertia-Reset" !in h
    ensures forall k :: k in MergeProps(h, MergePageProps()) <==> k == "sport" || k == "team"
  {
    assert ResetKeys(h) == [""];
  }

  lemma KeepSportTeam()
    ensures Keep(["name", "sport", "team"], {"sport", "team"}) == ["sport", "team"]
  {
    assert Keep(["team"], {"sport", "team"}) == ["team"];
    assert Keep(["sport", "team"], {"sport", "team"}) == ["sport", "team"];
  }

  /** On the first visit `team` waits, alone, in the default deferred group. */
  lemma FirstVisitDefers()
    ensures DeferredManifest(FirstVisit(), "TestComponent", MergePageProps())
      == Some(Dict(["default"], map["default" := ["team"]]))
  {
    var props := MergePageProps();
    NothingDeferredBeforeTeam();
    assert props.keys[..2] == ["name", "sport"];
    assert DeferredGroups(props, props.keys) == AddToGroup(Empty(), "default", "team");
    assert [] + ["default"] == ["default"] && [] + ["team"] == ["team"];
  }

  lemma NothingDeferredBeforeTeam()
    ensures DeferredGroups(MergePageProps(), ["name", "sport"]) == Empty()
  {
    var props := MergePageProps();
    assert ["name", "sport"][..1] == ["name"] && ["name"][..0] == [];
    assert DeferredGroups(props, ["name"]) == Empty();
  }

  /** The filter of a first visit keeps the plain and the merged prop and drops the deferred one. */
  lemma FirstVisitKeepsOwn()
    ensures KeptKeys(MergePageProps(), false, PartialKeys(FirstVisit())) == {"name", "sport"}
  {
  }

  /** The props the test expects on that first visit. */
  function FirstVisitProps(): Dict<Value> {
    Dict(["name", "sport"], map["name" := Str("Brandon"), "sport" := Str("Hockey")])
  }

  /** With nothing shared, the merged props are the handler's own. */
  lemma NothingSharedMerges()
    ensures MergedProps(Empty(), MergePageProps()) == MergePageProps()
  {
    OverrideEmpty(MergePageProps());
  }

  lemma KeepNameSport()
    ensures Keep(["name", "sport", "team"], {"name", "sport"}) == ["name", "sport"]
  {
    assert Keep(["team"], {"name", "sport"}) == [];
    assert Keep(["sport", "team"], {"name", "sport"}) == ["sport"];
  }

  /** The filter leaves `name` and the still-wrapped `sport`. */
  lemma FirstVisitSelected()
    ensures Restrict(MergePageProps(), {"name", "sport"})
      == Dict(["name", "sport"], map["name" := Str("Brandon"), "sport" := Prop(MergeKind, Str("Hockey"))])
  {
    KeepNameSport();
    RestrictPair(MergePageProps(), "name", "sport");
  }

  /** Resolution unwraps the MergeProp and leaves the plain string. */
  lemma FirstVisitResolved(eval: Eval)
    ensures Resolve(DictValue(Dict(["name", "sport"], map["name" := Str("Brandon"), "sport" := Prop(MergeKind, Str("Hockey"))])), eval).dict
      == FirstVisitProps()
  {
    var d := Dict(["name", "sport"], map["name" := Str("Brandon"), "sport" := Prop(MergeKind, Str("Hockey"))]);
    var r := Resolve(DictValue(d), eval).dict;
    assert r.vals.Keys == {"name", "sport"};
    assert r.vals["sport"] == Resolve(Prop(MergeKind, Str("Hockey")), eval);
  }

  /** The page props of that first visit are exactly the ones the test expects. */
  lemma FirstVisitPageProps(eval: Eval)
    ensures PageProps(FirstVisit(), "TestComponent", Empty(), MergePageProps(), eval) == FirstVisitProps()
  {
    NothingSharedMerges();
    FirstVisitKeepsOwn();
    FirstVisitSelected();
    FirstVisitResolved(eval);
  }

  /**
   * A page request of the merge page with nothing shared, no clear-history
   * entry and encryption off: the page's parts come straight from the
   * props, the manifest and the merge list of its headers.
   */
  lemma MergePageData(h: Headers, version: string, eval: Eval)
    ensures var ctx := Context(Request("GET", "/merge/", h), Empty(), None, None);
      var merge := MergeProps(h, MergePageProps());
      PageData(ctx, Settings(version, Bool(false)), "TestComponent", MergePageProps(), eval)
        == Success(Page("TestComponent", PageProps(h, "TestComponent", Empty(), MergePageProps(), eval), "/merge/", version,
                        false, false, DeferredManifest(h, "TestComponent", MergePageProps()),
                        if merge == [] then None else Some(merge)))
  {
  }

  /**
   * The whole page of that first visit: the plain and the merged prop,
   * resolved; `team` waiting in the default group; both merging props
   * listed; both history flags off.
   */
  lemma FirstVisitPage(version: string, eval: Eval)
    ensures var ctx := Context(Request("GET", "/merge/", FirstVisit()), Empty(), None, None);
      PageData(ctx, Settings(version, Bool(false)), "TestComponent", MergePageProps(), eval)
        == Success(Page("TestComponent", FirstVisitProps(), "/merge/", version, false, false,
                        Some(Dict(["default"], map["default" := ["team"]])), Some(["sport", "team"])))
  {
    MergePageData(FirstVisit(), version, eval);
    FirstVisitPageProps(eval);
    FirstVisitDefers();
    MergesUnlessReset(FirstVisit());
  }

  // ---------------------------------------------------------------------------
  // A later visit asking for `team` alone

  /** A partial reload of the merge page asking for `team`. */
  function TeamVisit(): Headers {
    map["X-Inertia" := "true", "X-Inertia-Partial-Data" := "team", "X-Inertia-Partial-Component" := "TestComponent"]
  }

  /** That reload is a partial render of the page's component, asking for `team` alone. */
  lemma TeamVisitAsks()
    ensures IsPartialRender(TeamVisit(), "TestComponent")
    ensures PartialKeys(TeamVisit()) == ["team"]
    ensures "X-Inertia-Reset" !in TeamVisit()
  {
    SplitJoin(["team"], ',');
  }

  /** The filter of that reload leaves `team`, still wrapped. */
  lemma TeamSelected()
    ensures Restrict(MergePageProps(), KeptKeys(MergePageProps(), true, ["team"]))
      == Dict(["team"], map["team" := Prop(DeferredKind("default", true), Str("Penguins"))])
  {
    var kept := KeptKeys(MergePageProps(), true, ["team"]);
    assert kept == {"team"};
    assert Keep(["sport", "team"], kept) == ["team"];
    assert Keep(["name", "sport", "team"], kept) == ["team"];
  }

  /** The page props of that reload are exactly `{"team": "Penguins"}`. */
  lemma TeamVisitPageProps(eval: Eval)
    ensures PageProps(TeamVisit(), "TestComponent", Empty(), MergePageProps(), eval)
      == Dict(["team"], map["team" := Str("Penguins")])
  {
    NothingSharedMerges();
    TeamVisitAsks();
    TeamSelected();
    TeamResolved(eval);
  }

  /** Resolution unwraps the DeferredProp. */
  lemma TeamResolved(eval: Eval)
    ensures Resolve(DictValue(Dict(["team"], map["team" := Prop(DeferredKind("default", true), Str("Penguins"))])), eval).dict
      == Dict(["team"], map["team" := Str("Penguins")])
  {
    var d := Dict(["team"], map["team" := Prop(DeferredKind("default", true), Str("Penguins"))]);
    var r := Resolve(DictValue(d), eval).dict;
    assert r.vals.Keys == {"team"};
    assert r.vals["team"] == Resolve(Prop(DeferredKind("default", true), Str("Penguins")), eval);
  }

  /** A partial render carries no deferred manifest. */
  lemma TeamVisitDefersNothing()
    ensures DeferredManifest(TeamVisit(), "TestComponent", MergePageProps()) == None
  {
    TeamVisitAsks();
  }

  /**
   * The whole page of that reload: only `team`, resolved; no deferred
   * manifest, since the render is partial; both merging props still listed.
   */
  lemma TeamVisitPage(version: string, eval: Eval)
    ensures var ctx := Context(Request("GET", "/merge/", TeamVisit()), Empty(), None, None);
      PageData(ctx, Settings(version, Bool(false)), "TestComponent", MergePageProps(), eval)
        == Success(Page("TestComponent", Dict(["team"], map["team" := Str("Penguins")]), "/merge/", version, false, false,
                        None, Some(["sport", "team"])))
  {
    MergePageData(TeamVisit(), version, eval);
    TeamVisitAsks();
    TeamVisitPageProps(eval);
    TeamVisitDefersNothing();
    MergesUnlessReset(TeamVisit());
  }

  // ---------------------------------------------------------------------------
  // A later visit that resets both merging props

  /** A partial reload asking for `sport` and `team` and resetting both. */
  function ResetVisit(): Headers {
    map["X-Inertia" := "true", "X-Inertia-Partial-Data" := "sport,team",
        "X-Inertia-Partial-Component" := "TestComponent", "X-Inertia-Reset" := "sport,team"]
  }

  /** That reload is a partial render asking for, and resetting, `sport` and `team`. */
  lemma ResetVisitAsks()
    ensures IsPartialRender(ResetVisit(), "TestComponent")
    ensures PartialKeys(ResetVisit()) == ["sport", "team"]
    ensures ResetKeys(ResetVisit()) == ["sport", "team"]
  {
    assert Join(["sport", "team"], ',') == "sport,team";
    SplitJoin(["sport", "team"], ',');
  }

  /** Resetting every merging prop leaves nothing to merge. */
  lemma ResetVisitMergesNothing()
    ensures MergeProps(ResetVisit(), MergePageProps()) == []
  {
    ResetVisitAsks();
    var r := MergeProps(ResetVisit(), MergePageProps());
    assert (set k | k in r) == {};
    assert Keep(["team"], {}) == [] && Keep(["sport", "team"], {}) == [];
  }

  /** The filter of that reload leaves `sport` and `team`, still wrapped. */
  lemma ResetSelected()
    ensures Restrict(MergePageProps(), KeptKeys(MergePageProps(), true, ["sport", "team"]))
      == Dict(["sport", "team"], map["sport" := Prop(MergeKind, Str("Hockey")),
                                     "team" := Prop(DeferredKind("default", true), Str("Penguins"))])
  {
    ResetKept();
    RestrictSportTeam();
  }

  lemma RestrictSportTeam()
    ensures Restrict(MergePageProps(), {"sport", "team"})
      == Dict(["sport", "team"], map["sport" := Prop(MergeKind, Str("Hockey")),
                                     "team" := Prop(DeferredKind("default", true), Str("Penguins"))])
  {
    KeepSportTeam();
    RestrictPair(MergePageProps(), "sport", "team");
  }

  /** Cutting a dict down to two of its keys leaves exactly their entries. */
  lemma RestrictPair<V>(d: Dict<V>, a: string, b: string)
    requires d.Valid() && a in d.vals && b in d.vals
    ensures Restrict(d, {a, b}).vals == map[a := d.vals[a], b := d.vals[b]]
  {
    assert Restrict(d, {a, b}).vals.Keys == {a, b};
  }

  lemma ResetKept()
    ensures KeptKeys(MergePageProps(), true, ["sport", "team"]) == {"sport", "team"}
  {
  }

  /** Resolution unwraps both props. */
  lemma ResetResolved(eval: Eval)
    ensures Resolve(DictValue(Dict(["sport", "team"], map["sport" := Prop(MergeKind, Str("Hockey")),
                                                          "team" := Prop(DeferredKind("default", true), Str("Penguins"))])), eval).dict
      == Dict(["sport", "team"], map["sport" := Str("Hockey"), "team" := Str("Penguins")])
  {
    var d := Dict(["sport", "team"], map["sport" := Prop(MergeKind, Str("Hockey")),
                                         "team" := Prop(DeferredKind("default", true), Str("Penguins"))]);
    var r := Resolve(DictValue(d), eval).dict;
    assert r.vals.Keys == {"sport", "team"};
    assert r.vals["sport"] == Resolve(Prop(MergeKind, Str("Hockey")), eval);
    assert r.vals["team"] == Resolve(Prop(DeferredKind("default", true), Str("Penguins")), eval);
  }

  /** The page props of that reload are exactly `{"sport": "Hockey", "team": "Penguins"}`. */
  lemma ResetVisitPageProps(eval: Eval)
    ensures PageProps(ResetVisit(), "TestComponent", Empty(), MergePageProps(), eval)
      == Dict(["sport", "team"], map["sport" := Str("Hockey"), "team" := Str("Penguins")])
  {
    NothingSharedMerges();
    ResetVisitAsks();
    ResetSelected();
    ResetResolved(eval);
  }

  /**
   * The whole page of that reload: both props, resolved; no deferred
   * manifest and no merge list.
   */
  lemma ResetVisitPage(version: string, eval: Eval)
    ensures var ctx := Context(Request("GET", "/merge/", ResetVisit()), Empty(), None, None);
      PageData(ctx, Settings(version, Bool(false)), "TestComponent", MergePageProps(), eval)
        == Success(Page("TestComponent", Dict(["sport", "team"], map["sport" := Str("Hockey"), "team" := Str("Penguins")]),
                        "/merge/", version, false, false, None, None))
  {
    MergePageData(ResetVisit(), version, eval);
    ResetVisitAsks();
    ResetVisitPageProps(eval);
    ResetVisitMergesNothing();
  }
}
