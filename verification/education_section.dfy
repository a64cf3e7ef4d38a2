/**
 * The public education section: one degree expanded at a time, and a per-degree module
 * cache filled on first expansion. The CV page expands its degrees with the same toggle.
 */
module EducationSection {
  import opened Wrappers
  import opened Js

  /** Toggling a degree: the expanded one collapses, any other becomes the expanded one. */
  function Toggle(expanded: Option<string>, id: string): (r: Option<string>)
    ensures expanded == Some(id) ==> r == None
    ensures expanded != Some(id) ==> r == Some(id)
  {
    if expanded == Some(id) then None else Some(id)
  }

  /** Toggling the same degree twice from a collapsed view collapses it again. */
  lemma ToggleTwice(expanded: Option<string>, id: string)
    requires expanded != Some(id)
    ensures Toggle(Toggle(expanded, id), id) == None
  {
  }

  /** The section's state: the expanded degree and the modules cached per degree id. */
  datatype Section = Section(expanded: Option<string>, modules: map<string, Json>)

  /** Whether expanding `id` fetches modules: only when no truthy cache entry exists. */
  predicate Fetches(s: Section, id: string) {
    s.expanded != Some(id) && !Truthy(Get(s.modules, id))
  }

  /**
   * The cache after a module fetch: `{...modules, [id]: data.data.modules || []}`. `None`
   * stands for a fetch or decode that raised; a response without `data.data` raises too. In
   * both cases the cache is kept.
   */
  function Cached(cache: map<string, Json>, id: string, fetched: Option<Json>): (r: map<string, Json>)
    ensures fetched.None? ==> r == cache
    ensures fetched.Some? && Nullish(Prop(fetched.value, "data")) ==> r == cache
    ensures fetched.Some? && !Nullish(Prop(fetched.value, "data")) ==>
              r.Keys == cache.Keys + {id}
              && r[id] == Or(Prop(Prop(fetched.value, "data"), "modules"), JArr([]))
    ensures forall k | k in cache && k != id :: k in r && r[k] == cache[k]
  {
    if fetched.None? || Nullish(Prop(fetched.value, "data")) then cache
    else cache[id := Or(Prop(Prop(fetched.value, "data"), "modules"), JArr([]))]
  }

  /** Whether a module response leads to a store: it arrived and has a `data` object. */
  predicate Stores(fetched: Option<Json>) {
    fetched.Some? && !Nullish(Prop(fetched.value, "data"))
  }

  /** A module fetch in flight: the degree it is for, and the cache its handler captured. */
  datatype Pending = Pending(id: string, snapshot: map<string, Json>)

  /** The part of `handleToggle` before the `await`: the new expanded id, and a fetch if one starts. */
  function BeginToggle(s: Section, id: string): (r: (Section, Option<Pending>))
    ensures r.0 == s.(expanded := Toggle(s.expanded, id))
    ensures r.1.Some? <==> Fetches(s, id)
    ensures r.1.Some? ==> r.1.value == Pending(id, s.modules)
  {
    if s.expanded == Some(id) then (s.(expanded := None), None)
    else if !Truthy(Get(s.modules, id)) then (s.(expanded := Some(id)), Some(Pending(id, s.modules)))
    else (s.(expanded := Some(id)), None)
  }

  /**
   * The part after the `await`, as written: a successful fetch stores the cache the handler
   * captured plus the new entry, so whatever was stored since is overwritten; a failed one
   * stores nothing.
   */
  function CompleteAsWritten(s: Section, p: Pending, fetched: Option<Json>): (r: Section)
    ensures r.expanded == s.expanded
    ensures !Stores(fetched) ==> r == s
    ensures Stores(fetched) ==> r.modules.Keys == p.snapshot.Keys + {p.id}
  {
    if Stores(fetched) then s.(modules := Cached(p.snapshot, p.id, fetched)) else s
  }

  /**
   * The evidently intended continuation, a functional update of the current cache: it only
   * sets the fetched degree's entry, and every other entry stored meanwhile survives.
   */
  function Complete(s: Section, p: Pending, fetched: Option<Json>): (r: Section)
    ensures r.expanded == s.expanded
    ensures !Stores(fetched) ==> r == s
    ensures Stores(fetched) ==> r.modules.Keys == s.modules.Keys + {p.id} && Truthy(r.modules[p.id])
    ensures forall k | k in s.modules && k != p.id :: k in r.modules && r.modules[k] == s.modules[k]
  {
    if Stores(fetched) then s.(modules := Cached(s.modules, p.id, fetched)) else s
  }

  /** With no other fetch completing in between, the written and the intended continuation agree. */
  lemma CompleteAgreesWhenSequential(s: Section, p: Pending, fetched: Option<Json>)
    requires p.snapshot == s.modules
    ensures CompleteAsWritten(s, p, fetched) == Complete(s, p, fetched)
  {
  }

  /** `handleToggle(id)` run to completion before anything else happens. */
  function HandleToggle(s: Section, id: string, fetched: Option<Json>): (r: Section)
    ensures r.expanded == Toggle(s.expanded, id)
    ensures !Fetches(s, id) ==> r.modules == s.modules
    ensures Fetches(s, id) ==> r.modules == Cached(s.modules, id, fetched)
  {
    var (t, p) := BeginToggle(s, id);
    if p.Some? then Complete(t, p.value, fetched) else t
  }

  /**
   * With toggles that each finish before the next, once a fetch for a degree has stored its
   * entry that degree is never fetched again: the stored value is truthy even when the
   * response had no modules (`[]` is truthy).
   */
  lemma FetchedOnce(s: Section, id: string, data: Json, id2: string, later: Option<Json>)
    requires Fetches(s, id) && !Nullish(Prop(data, "data"))
    ensures var t := HandleToggle(s, id, Some(data));
            !Fetches(t, id) && !Fetches(HandleToggle(t, id2, later), id)
  {
  }

  /**
   * With the intended continuation the cache only grows in truthy entries, so a cached degree
   * is not fetched again however toggles and completions interleave.
   */
  lemma CachedStaysCached(s: Section, k: string, id: string, p: Pending, fetched: Option<Json>)
    requires Truthy(Get(s.modules, k))
    ensures Truthy(Get(BeginToggle(s, id).0.modules, k))
    ensures Truthy(Get(Complete(s, p, fetched).modules, k))
    ensures !Fetches(BeginToggle(s, id).0, k) && !Fetches(Complete(s, p, fetched), k)
  {
  }

  /** A module response with an empty module list. */
  const EMPTY_RESPONSE: Json := JObj(map["data" := JObj(map["modules" := JArr([])])])

  /**
   * As written: expand degree "a", then degree "b" before "a"'s response arrives. Both fetches
   * succeed, yet "a"'s entry is gone afterwards, so expanding "a" again fetches it again.
   */
  lemma AsWrittenLosesEntry()
    ensures var (s1, pa) := BeginToggle(Section(None, map[]), "a");
            var (s2, pb) := BeginToggle(s1, "b");
            pa.Some? && pb.Some?
            && var s4 := CompleteAsWritten(CompleteAsWritten(s2, pa.value, Some(EMPTY_RESPONSE)), pb.value, Some(EMPTY_RESPONSE));
               "a" !in s4.modules && Fetches(s4, "a")
  {
    var (s1, pa) := BeginToggle(Section(None, map[]), "a");
    var (s2, pb) := BeginToggle(s1, "b");
    assert Stores(Some(EMPTY_RESPONSE));
    var s4 := CompleteAsWritten(CompleteAsWritten(s2, pa.value, Some(EMPTY_RESPONSE)), pb.value, Some(EMPTY_RESPONSE));
    assert s4.modules.Keys == {"b"};
  }

  /** Intended: in the same interleaving both entries are kept, and neither degree is fetched again. */
  lemma OverlapKeepsBoth()
    ensures var (s1, pa) := BeginToggle(Section(None, map[]), "a");
            var (s2, pb) := BeginToggle(s1, "b");
            pa.Some? && pb.Some?
            && var s4 := Complete(Complete(s2, pa.value, Some(EMPTY_RESPONSE)), pb.value, Some(EMPTY_RESPONSE));
               "a" in s4.modules && "b" in s4.modules && !Fetches(s4, "a") && !Fetches(s4, "b")
  {
    var (s1, pa) := BeginToggle(Section(None, map[]), "a");
    var (s2, pb) := BeginToggle(s1, "b");
    assert Stores(Some(EMPTY_RESPONSE));
  }

  /**
   * The degree list the section renders is the stored list (see `StoredList`): with no
   * education row the endpoint answers `"data": null`, and `educationData.map` throws.
   */
  lemma EmptyTableCrashes()
    ensures StoredList(Some(JObj(map["success" := JBool(true), "data" := JNull]))).None?
    ensures StoredList(Some(JObj(map["success" := JBool(true), "data" := JArr([])]))) == Some([])
  {
  }
}
