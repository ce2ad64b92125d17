# Inertia.js for FastAPI, modelled in Dafny

This project models the decision logic of the `inertia` package, a server-side Inertia.js adapter for FastAPI. It covers:

- **Prop wrappers** (`PropClasses`, `Utils`): `OptionalProp`, `DeferredProp(group, merge)` and `MergeProp`, and the `optional`, `lazy`, `defer` and `merge` constructors.
  - Each wrapper answers two questions: is it left out of a first load, and is it merged?
  - `model_to_dict` is modelled too.
- **Page builder** (`Http`): turns the request headers, the shared props and the handler's props into the page object. It covers:
  - the partial-render test and the comma-split header lists;
  - the prop filter (a delete loop);
  - resolution of callables;
  - the deferred-props manifest (a grouping loop);
  - the merge list;
  - the history flags;
  - the JSON or HTML reply and `location()`.
- **Callable resolution** (`Helpers`): `deep_transform_callables` and `validate_type`.
  - A callable is an opaque `Producer(id)`. What it returns comes from an evaluation function passed in as a parameter.
- **Middleware** (`Middleware`): the stale-version refresh and the rewriting of redirects on Inertia requests. The response object is a class whose status and headers are rewritten in place.
- **Shared props** (`Share`): `InertiaShare` as a class with one dict field that `set` replaces, and `share`, which creates the store on first use.

Python dicts keep insertion order, and the page's key order depends on it. `Dicts.Dict` therefore pairs a key sequence with a map, and `Dicts.Override` is `{**a, **b}`. `Scenarios` works the three merge-page tests of the rendering tests through the model: the first visit, a partial reload of `team`, and a partial reload that resets both merging props.

Two details of the code that the model keeps:

- `deep_transform_callables` walks dicts only (inertia/helpers.py:6-14):
  - a list is returned as it is;
  - a call's result is not walked again;
  - a wrapper around a dict returns that very dict, its callables uncalled (`Helpers.WrappedDictStaysUnresolved`).
- `_build_page_data` reads clear-history from a session that is always `{}` (inertia/http.py:187-194), so the flag is always False. The model takes the entry as an optional parameter, and `None` is the code's case.

## Model

| member | source | states |
|---|---|---|
| Dicts.Override | inertia/http.py:221-224 | `{**a, **b}`: valid; keys of `a` in order, then the keys of `b` that `a` lacks, in `b`'s order; `b` wins on a shared key, `a`'s other values kept |
| Dicts.Delete | inertia/http.py:230 | `del d[k]`: `k` removed from the map and from the key order, the other keys in order |
| Dicts.Put | inertia/helpers.py:12 | `d[k] = v`: an existing key keeps its place, a new one goes last, the map updated at `k` |
| Dicts.OverrideAssociative | inertia/share.py:27-30 | overriding by `b` then `c` equals overriding once by `{**b, **c}`, key order included |
| Strings.Split | inertia/http.py:90 | `str.split(",")`: at least one piece, no piece contains the separator |
| Strings.JoinSplit | inertia/http.py:88-94 | joining the pieces of a split with the separator gives the header text back |
| Strings.SplitJoin | inertia/http.py:88-94 | splitting the join of separator-free pieces gives the pieces back |
| PropClasses.InvokeCallsCore | inertia/prop_classes.py:27-33 | calling a wrapper calls the innermost wrapped value if it is callable, else returns it; the wrapper kind plays no part |
| PropClasses.VariantTable | inertia/prop_classes.py:53-119 | Optional and Deferred are left out of a first load, Merge and plain values are not; Optional never merges, Merge always does, Deferred exactly when its flag is set; Deferred is exactly the ignored-and-mergeable class |
| Helpers.Resolve | inertia/helpers.py:6-14 | a dict keeps its key order and key set; a non-callable non-dict is returned unchanged |
| Helpers.ResolveLeaf | inertia/helpers.py:8-9 | outside a dict, a callable is resolved to its producer's result, anything else to the innermost wrapped value |
| Helpers.ResolveInert | inertia/helpers.py:6-14 | a value with no callable reachable through dicts is left exactly as it is |
| Helpers.ResolveLeavesInert | inertia/helpers.py:6-14 | when producers return inert values and no wrapper wraps a dict, nothing callable remains after one pass |
| Helpers.WrappedDictStaysUnresolved | inertia/helpers.py:8-9 | a wrapper, however deeply nested, around a dict resolves to that very dict, so callables inside it stay uncalled |
| Helpers.DeepTransform | inertia/helpers.py:6-14 | the in-place loop, overwriting one key after another, computes `Resolve` |
| Helpers.ValidateType | inertia/helpers.py:17-24 | succeeds exactly when `isinstance` holds, returning the value itself; otherwise fails with the source's TypeError message; only a bool passes as bool, and a bool passes as int |
| Utils.Optional | inertia/utils.py:53-54 | ignored on first load, not mergeable, not deferred, wrapping `p` itself |
| Utils.Lazy | inertia/utils.py:44-50 | the same value `optional(p)` builds |
| Utils.Defer | inertia/utils.py:57-58 | deferred, ignored on first load, wrapping `p` itself, group stored unchanged, merges exactly when `merge` is set |
| Utils.DeferDefault | inertia/prop_classes.py:80-95 | the defaults: group "default", not merged |
| Utils.Merge | inertia/utils.py:61-62 | sent on first load, always merged, not deferred, wrapping `p` itself |
| Utils.Attributes | inertia/utils.py:11 | `__dict__` exists exactly for objects, wrappers and functions |
| Utils.PublicAttributes | inertia/utils.py:12-16 | exactly the attributes not starting with "_" and not "password", with their values, in their order |
| Utils.ModelToDict | inertia/utils.py:8-17 | `{}` without a `__dict__`, otherwise the public attributes |
| Share.InertiaShare.constructor | inertia/share.py:17-19 | a fresh store is empty |
| Share.InertiaShare.Set | inertia/share.py:21-30 | the store becomes the old props overridden by `kwargs`; keys in `kwargs` take their new values, all others keep theirs |
| Share.InertiaShare.All | inertia/share.py:32-38 | returns the store's current props, a valid dict |
| Share.RequestState.Shared | inertia/http.py:53-60 | the shared props the page builder reads: `{}` before anything is shared, the store's props once it exists |
| Share.RequestState.Share | inertia/share.py:41-63 | creates the store only when absent; the shared props become the old ones overridden by `kwargs` |
| Share.ShareTwice | inertia/share.py:59-63 | two `share` calls equal one call with both updates merged, later keys winning |
| Http.IsInertia | inertia/http.py:77-79 | an Inertia request is one carrying an `X-Inertia` header |
| Http.HeaderList | inertia/http.py:88-94 | `headers.get(name, "").split(",")`: pieces free of commas that join back to the header; `[""]` when absent; `partial_keys` and `reset_keys` are this list for their header |
| Http.IsPartialRender | inertia/http.py:81-86 | partial exactly when the partial-data header is present and the component header equals the component; without that header only a component named "" matches |
| Http.PagePropsContents | inertia/http.py:215-236 | partial: exactly the merged keys asked for; first load: exactly the merged keys whose prop is not ignored on first load; the handler wins over shared; values resolved; merged order kept |
| Http.ExplicitPropsWin | inertia/http.py:221-224 | on a key both sides have, the page holds the handler's value, resolved |
| Http.DropRejected | inertia/http.py:226-234 | the delete loop leaves exactly the merged dict cut down to the kept keys, in order |
| Http.DeleteStep | inertia/http.py:229-230 | deleting a rejected key mid-walk keeps the kept prefix and the unseen suffix |
| Http.BuildProps | inertia/http.py:215-236 | merge, delete loop and resolution compute `PageProps` |
| Http.DeferredGroupsContents | inertia/http.py:247-250 | the groups are exactly those some deferred key names; each lists its deferred keys in prop order |
| Http.DeferredGroupsGrow | inertia/http.py:247-250 | groups are listed in the order they are first seen: taking more keys only adds groups at the end |
| Http.DeferredManifestContents | inertia/http.py:238-252 | present exactly on a non-partial render with a deferred prop; then maps each group to its keys in prop order |
| Http.BuildDeferredProps | inertia/http.py:238-252 | the `setdefault(...).append` loop computes `DeferredManifest` |
| Http.MergeProps | inertia/http.py:254-268 | exactly the handler's keys whose prop merges and which are not reset, in prop order, each once |
| Http.MergePropsExclusions | inertia/http.py:260-268 | an OptionalProp or a reset key is never listed; a MergeProp that is not reset always is |
| Http.ShouldEncryptHistory | inertia/http.py:96-108 | the request override, else the setting; succeeds exactly when it is a bool, and yields it; otherwise the TypeError text "Expected bool for encrypt_history, got <type>" |
| Http.ClearHistory | inertia/http.py:187-194 | False when the session has no entry; succeeds exactly when the entry is a bool, and yields it; otherwise the TypeError text "Expected bool for clear_history, got <type>" |
| Http.PageDataShape | inertia/http.py:180-213 | fails exactly when a flag is not a bool, with the clear-history error first and the encrypt-history error otherwise; else component, URL and version as given, both flags, the props of `PageProps`, the manifest of `DeferredManifest` (present exactly on a non-partial render with a deferred prop) and the merge list exactly when non-empty |
| Http.BuildPageData | inertia/http.py:180-213 | the incremental construction computes `PageData` |
| Http.Respond | inertia/http.py:145-178 | JSON exactly for an Inertia request, with Vary, X-Inertia and Content-Type over the handler's headers; HTML with the handler's headers otherwise; status unchanged |
| Http.Location | inertia/http.py:357-372 | 409, empty body, only `X-Inertia-Location: url` |
| Middleware.IsRedirect | inertia/middleware.py:71-76 | a redirect is status 301 or 302 |
| Middleware.IsNonGetRedirect | inertia/middleware.py:78-84 | a redirect answering PUT, PATCH or DELETE |
| Middleware.IsStale | inertia/middleware.py:86-89 | the client's `X-Inertia-Version`, "" when absent, differs from the server's version |
| Middleware.MustRefresh | inertia/middleware.py:38-43 | an Inertia GET whose version is stale |
| Middleware.AfterResponse | inertia/middleware.py:46-76 | body untouched; non-Inertia or non-redirect passes unchanged; PUT/PATCH/DELETE redirect becomes 303 with headers untouched; other redirects become 409 with `X-Inertia-Location` from `Location` ("/" if none) and no `Location`; no redirect status remains |
| Middleware.AfterResponseIdempotent | inertia/middleware.py:49-65 | rewriting a rewritten response changes nothing |
| Middleware.RedirectBecomesLocation | inertia/middleware.py:55-63 | a bodiless redirect whose only header is `Location` becomes exactly `location(target)` |
| Middleware.ForceRefresh | inertia/middleware.py:91-93 | a new `location(url)` response |
| Middleware.Dispatch | inertia/middleware.py:28-65 | a stale Inertia GET gets a fresh `location(url)` and the handler's response is untouched; otherwise the handler's response object, rewritten as `AfterResponse` says |
| Scenarios.MergesUnlessReset | inertia/tests/test_rendering.py:589-617 | without a reset header the merge page lists `["sport", "team"]` for merging, on the first visit and on a partial reload alike |
| Scenarios.FirstVisitDefers | inertia/tests/test_rendering.py:589-601 | on the first visit the manifest is `{"default": ["team"]}` |
| Scenarios.FirstVisitPageProps | inertia/tests/test_rendering.py:589-601 | the page props of that visit are exactly `{"name": "Brandon", "sport": "Hockey"}`, in that order |
| Scenarios.FirstVisitPage | inertia/tests/test_rendering.py:589-601 | the whole page of that visit, as `inertia_page("merge", ...)` builds it: component "TestComponent", url "/merge/", props `{"name": "Brandon", "sport": "Hockey"}`, both history flags False, deferred `{"default": ["team"]}`, merge list `["sport", "team"]` |
| Scenarios.TeamVisitPageProps | inertia/tests/test_rendering.py:603-617 | a partial reload asking for `team` gets exactly `{"team": "Penguins"}` |
| Scenarios.TeamVisitPage | inertia/tests/test_rendering.py:603-617 | the whole page of that reload: props `{"team": "Penguins"}`, no deferred manifest, merge list `["sport", "team"]` |
| Scenarios.ResetVisitMergesNothing | inertia/tests/test_rendering.py:619-634 | resetting `sport` and `team` leaves the merge list empty |
| Scenarios.ResetVisitPageProps | inertia/tests/test_rendering.py:619-634 | a partial reload asking for `sport,team` gets exactly `{"sport": "Hockey", "team": "Penguins"}` |
| Scenarios.ResetVisitPage | inertia/tests/test_rendering.py:619-634 | the whole page of that reload: both props resolved, no deferred manifest and no merge list |

## Left out

- Server-side rendering (the `requests.post` call and its silent fallback) is network I/O and is not modelled.
- Jinja2 template selection and rendering are not modelled: `Http.Body` records only whether the reply is JSON or the HTML shell.
- JSON encoding with `InertiaJsonEncoder` is not modelled. The page is kept as a value.
- FastAPI wiring is not modelled: the `inertia` decorator, `InertiaRouteBuilder`, `render`, `setup_inertia` and `setup_inertia_middleware`.
- Settings loading (pydantic) is not modelled. The version and the encrypt-history default are parameters (`Http.Settings`).
- `InertiaRequest.__getattr__` delegation is not modelled. Nor is the dual storage in `set_inertia_state` and `share`, which also writes `_inertia_state`: the page builder reads `request.state.inertia` whenever it exists.
- The `encrypt_history` and `clear_history` setters are not modelled. The first becomes the `encryptOverride` parameter; the second does nothing in the source.
- Header names are matched exactly. The framework's case-insensitive, multi-valued headers are not modelled.
- Producers are opaque. Their side effects, exceptions and the order of calls are not modelled.
- The deprecation warning that `lazy` emits is not modelled.
- Helpers.DeepTransform: works on values. It does not model that Python overwrites the dict in place and returns the same object, so aliasing between nested dicts is not captured.
- Middleware.Dispatch: the handler is not called. Its response is passed in as `downstream`, and on a stale request that response goes unused.
