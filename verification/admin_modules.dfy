/**
 * The modules editor: degrees (each carrying its `modules` array) loaded from
 * `GET /education`, and the per-degree append, delete and merge it applies locally.
 */
module AdminModules {
  import opened Wrappers
  import opened Js
  import opened Collections

  /** `Array.isArray(m) ? m : []` for a degree's `modules`. */
  function ModulesOf(degree: Json): (ms: seq<Json>)
    ensures Prop(degree, "modules").JArr? ==> ms == Prop(degree, "modules").items
    ensures !Prop(degree, "modules").JArr? ==> ms == []
  {
    ArrayOrEmpty(Prop(degree, "modules"))
  }

  /** `{...degree, modules: Array.isArray(degree.modules) ? degree.modules : []}`. */
  function NormaliseDegree(degree: Json): (r: Obj)
    ensures r.Keys == Spread(degree).Keys + {"modules"}
    ensures r["modules"] == JArr(ModulesOf(degree))
    ensures forall k | k in Spread(degree) && k != "modules" :: r[k] == Spread(degree)[k]
  {
    Spread(degree)["modules" := JArr(ModulesOf(degree))]
  }

  /**
   * The degree list `fetchModules` stores: a bare array or `data.data`, defaulting to [].
   * `None` when the code raises instead (a truthy non-array payload, or a null degree),
   * in which case the page only shows "Failed to load modules".
   */
  function LoadDegrees(data: Json): (r: Option<seq<Obj>>)
    ensures data.JArr? && (forall i | 0 <= i < |data.items| :: !Nullish(data.items[i])) ==>
              r.Some? && |r.value| == |data.items|
    ensures data.JObj? && !Truthy(Prop(data, "data")) ==> r == Some([])
    ensures r.Some? ==> forall i | 0 <= i < |r.value| :: "modules" in r.value[i] && r.value[i]["modules"].JArr?
  {
    var list: Option<seq<Json>> :=
      if data.JArr? then Some(data.items)
      else if Nullish(data) then None
      else (var d := Or(Prop(data, "data"), JArr([])); if d.JArr? then Some(d.items) else None);
    if list.None? then None
    else if exists i | 0 <= i < |list.value| :: Nullish(list.value[i]) then None
    else Some(seq(|list.value|, i requires 0 <= i < |list.value| => NormaliseDegree(list.value[i])))
  }

  /** A successful load gives every degree a modules array and keeps its other fields. */
  lemma LoadKeepsDegrees(data: Json, i: nat)
    requires LoadDegrees(data).Some? && i < |LoadDegrees(data).value|
    ensures var d := LoadDegrees(data).value[i];
            var src := if data.JArr? then data.items[i] else Prop(data, "data").items[i];
            d == NormaliseDegree(src)
  {
  }

  /** `mod.id`. */
  function ModuleId(m: Json): Json {
    Prop(m, "id")
  }

  /** The degree's modules array with `f` applied (`{...degree, modules: f(degree.modules || [])}`). */
  function WithModules(degree: Obj, ms: seq<Json>): (r: Obj)
    ensures r.Keys == degree.Keys + {"modules"}
    ensures r["modules"] == JArr(ms)
    ensures forall k | k in degree && k != "modules" :: r[k] == degree[k]
  {
    WithProp(degree, "modules", JArr(ms))
  }

  /** `degree.modules || []` as an array (every stored degree carries an array). */
  function Modules(degree: Obj): seq<Json> {
    ArrayOrEmpty(Or(Get(degree, "modules"), JArr([])))
  }

  /** After a create: the module is appended to the degree with that id only. */
  function AddModule(degrees: seq<Obj>, degreeId: string, created: Json): (r: seq<Obj>)
    ensures |r| == |degrees|
    ensures forall i | 0 <= i < |degrees| && !HasId(JObj(degrees[i]), degreeId) :: r[i] == degrees[i]
    ensures forall i | 0 <= i < |degrees| && HasId(JObj(degrees[i]), degreeId) ::
              r[i] == WithModules(degrees[i], Modules(degrees[i]) + [created])
  {
    MapWhere(degrees, d => HasId(JObj(d), degreeId), d => WithModules(d, Modules(d) + [created]))
  }

  /** The created module becomes the last module of the target degree, which grows by one. */
  lemma AddModuleAppends(degrees: seq<Obj>, degreeId: string, created: Json, i: nat)
    requires i < |degrees| && HasId(JObj(degrees[i]), degreeId)
    ensures var after := Modules(AddModule(degrees, degreeId, created)[i]);
            |after| == |Modules(degrees[i])| + 1 && after[|after| - 1] == created
            && after[..|after| - 1] == Modules(degrees[i])
  {
  }

  /** `modules.filter(mod => mod.id !== moduleId)`. */
  function RemoveModuleFrom(ms: seq<Json>, moduleId: string): (r: seq<Json>)
    ensures forall m | m in r :: ModuleId(m) != JStr(moduleId)
    ensures forall m | m in ms && ModuleId(m) != JStr(moduleId) :: m in r
  {
    Keep(ms, m => ModuleId(m) != JStr(moduleId))
  }

  /** After a delete: the module id is removed from the given degree only. */
  function RemoveModule(degrees: seq<Obj>, degreeId: string, moduleId: string): (r: seq<Obj>)
    ensures |r| == |degrees|
    ensures forall i | 0 <= i < |degrees| && !HasId(JObj(degrees[i]), degreeId) :: r[i] == degrees[i]
    ensures forall i | 0 <= i < |degrees| && HasId(JObj(degrees[i]), degreeId) ::
              r[i] == WithModules(degrees[i], RemoveModuleFrom(Modules(degrees[i]), moduleId))
  {
    seq(|degrees|, i requires 0 <= i < |degrees| =>
      if HasId(JObj(degrees[i]), degreeId) then WithModules(degrees[i], RemoveModuleFrom(Modules(degrees[i]), moduleId))
      else degrees[i])
  }

  /** A module filed under another degree survives a delete aimed at this one. */
  lemma RemoveModuleElsewhere(degrees: seq<Obj>, degreeId: string, moduleId: string, i: nat, m: Json)
    requires i < |degrees| && !HasId(JObj(degrees[i]), degreeId) && m in Modules(degrees[i])
    ensures m in Modules(RemoveModule(degrees, degreeId, moduleId)[i])
  {
  }

  /** `mod.id === moduleId ? {...mod, ...updated} : mod`. */
  function MergeModuleIn(ms: seq<Json>, moduleId: string, updated: Json): (r: seq<Json>)
    ensures |r| == |ms|
    ensures forall j | 0 <= j < |ms| :: r[j] ==
              if ModuleId(ms[j]) == JStr(moduleId) then JObj(Spread(ms[j]) + Spread(updated)) else ms[j]
  {
    MapWhere(ms, m => ModuleId(m) == JStr(moduleId), m => JObj(Spread(m) + Spread(updated)))
  }

  /** After a save: every module with that id, in every degree, takes the response's fields. */
  function MergeModule(degrees: seq<Obj>, moduleId: string, updated: Json): (r: seq<Obj>)
    ensures |r| == |degrees|
    ensures forall i | 0 <= i < |degrees| ::
              r[i] == WithModules(degrees[i], MergeModuleIn(Modules(degrees[i]), moduleId, updated))
  {
    seq(|degrees|, i requires 0 <= i < |degrees| =>
          WithModules(degrees[i], MergeModuleIn(Modules(degrees[i]), moduleId, updated)))
  }

  /** The merge keeps each degree's module count and the modules with other ids. */
  lemma MergeModuleKeeps(degrees: seq<Obj>, moduleId: string, updated: Json, i: nat, j: nat)
    requires i < |degrees| && j < |Modules(degrees[i])|
    ensures var after := Modules(MergeModule(degrees, moduleId, updated)[i]);
            |after| == |Modules(degrees[i])|
            && (ModuleId(Modules(degrees[i])[j]) != JStr(moduleId) ==> after[j] == Modules(degrees[i])[j])
  {
  }

  const NAME_REQUIRED: string := "Module name is required"

  /** The create form's client-side gate. */
  function CreateGate(form: Obj): (p: Precheck)
    ensures p.Proceed? <==> Truthy(Get(form, "name"))
    ensures !p.Proceed? ==> p == Refuse(NAME_REQUIRED)
  {
    var fields := ["name"];
    assert fields[0] == "name";
    RequireFields(form, fields, NAME_REQUIRED)
  }

  /** The optional fields both payloads coerce with `|| null`. */
  const OPTIONAL: set<string> := {"code", "grade", "semester", "description", "detailed_content"}

  /** `credits ? parseFloat(credits.toString()) : null`, for numeric credits. */
  function Credits(c: Json): (r: Json)
    ensures !Truthy(c) ==> r == JNull
    ensures Truthy(c) ==> r == c
  {
    if Truthy(c) then c else JNull
  }

  /** The POST body of a create. */
  function CreatePayload(degreeId: string, form: Obj): (r: Obj)
    ensures r.Keys == OPTIONAL + {"education_id", "name", "credits", "display_order"}
    ensures r["education_id"] == JStr(degreeId) && r["name"] == Get(form, "name")
    ensures r["display_order"] == JNum(0)
  {
    map["education_id" := JStr(degreeId),
        "name" := Get(form, "name"),
        "code" := OrNull(Get(form, "code")),
        "credits" := Credits(Get(form, "credits")),
        "grade" := OrNull(Get(form, "grade")),
        "semester" := OrNull(Get(form, "semester")),
        "description" := OrNull(Get(form, "description")),
        "detailed_content" := OrNull(Get(form, "detailed_content")),
        "display_order" := JNum(0)]
  }

  /** The PATCH body of a save. */
  function SavePayload(form: Obj): (r: Obj)
    ensures r.Keys == {"credits", "grade", "description", "detailed_content"}
  {
    map["credits" := Credits(Get(form, "credits")),
        "grade" := OrNull(Get(form, "grade")),
        "description" := OrNull(Get(form, "description")),
        "detailed_content" := OrNull(Get(form, "detailed_content"))]
  }

  /**
   * Both payloads send `null` for a falsy optional field or falsy credits (0 included),
   * and the form's value otherwise.
   */
  lemma {:induction false} PayloadCoercion(degreeId: string, form: Obj, k: string)
    requires k in OPTIONAL + {"credits"}
    ensures var c := CreatePayload(degreeId, form);
            c[k] == (if Truthy(Get(form, k)) then Get(form, k) else JNull)
    ensures var s := SavePayload(form);
            k in s ==> s[k] == (if Truthy(Get(form, k)) then Get(form, k) else JNull)
  {
    var c := CreatePayload(degreeId, form);
    if k == "credits" {
      assert c[k] == Credits(Get(form, k));
    } else {
      assert c[k] == OrNull(Get(form, k));
    }
  }

  /** Zero credits are sent as null, not 0. */
  lemma ZeroCreditsBecomeNull(degreeId: string, form: Obj)
    requires Get(form, "credits") == JNum(0)
    ensures CreatePayload(degreeId, form)["credits"] == JNull
    ensures SavePayload(form)["credits"] == JNull
  {
  }

  /** The four fields the edit form copies from a module. */
  const EDIT_FIELDS: seq<string> := ["credits", "grade", "description", "detailed_content"]

  /** Starting an edit: the module's id and a draft of exactly its four editable fields. */
  function StartEditing(e: Editor<seq<Obj>>, m: Json): (r: Editor<seq<Obj>>)
    ensures r.editingId == Some(ModuleId(m))
    ensures r.draft.Keys == {"credits", "grade", "description", "detailed_content"}
    ensures forall k | k in r.draft :: r.draft[k] == Prop(m, k)
    ensures r.items == e.items && r.error == None
  {
    e.(editingId := Some(ModuleId(m)), draft := Draft(EDIT_FIELDS, m), error := None)
  }

  /** The blank create form `startCreating` opens. */
  const NEW_FORM: Obj := map["name" := JStr(""), "code" := JStr(""), "credits" := JNull,
    "grade" := JStr(""), "semester" := JStr(""), "description" := JStr(""),
    "detailed_content" := JStr("")]

  /** Creating a module under a degree. */
  function Create(e: Editor<seq<Obj>>, hasToken: bool, degreeId: string, o: Outcome): (r: Editor<seq<Obj>>)
    ensures !hasToken ==> r == e.(error := Some(NOT_AUTHENTICATED))
    ensures hasToken && !Truthy(Get(e.newForm, "name")) ==> r == e.(error := Some(NAME_REQUIRED))
    ensures hasToken && Truthy(Get(e.newForm, "name")) && o.Ok? && !Nullish(o.body) ==>
              r.items == AddModule(e.items, degreeId, Unwrapped(o.body))
              && !r.creating && r.newForm == map[]
    ensures hasToken && Truthy(Get(e.newForm, "name")) && o.Ok? && Nullish(o.body) ==>
              r == e.(error := Some(NullReadMessage(o.body, "data")), busy := None)
    ensures hasToken && !o.Ok? ==> r.items == e.items
  {
    var created := if o.Ok? then Unwrapped(o.body) else JUndef;
    Run(e, hasToken, CreateGate(e.newForm), AttemptedReading(o, "Failed to create module", "data"),
        (s: Editor<seq<Obj>>) => s.(items := AddModule(s.items, degreeId, created),
                                    creating := false, newForm := map[]))
  }

  /** Deleting a module from a degree. */
  function Delete(e: Editor<seq<Obj>>, hasToken: bool, confirmed: bool, degreeId: string,
                  moduleId: string, o: Outcome): (r: Editor<seq<Obj>>)
    ensures !hasToken ==> r == e.(error := Some(NOT_AUTHENTICATED))
    ensures hasToken && !confirmed ==> r == e
    ensures hasToken && confirmed && o.Ok? ==> r.items == RemoveModule(e.items, degreeId, moduleId)
    ensures hasToken && !o.Ok? ==> r.items == e.items
  {
    Run(e, hasToken, if confirmed then Proceed else Cancelled, Attempted(o, "Failed to delete module"),
        (s: Editor<seq<Obj>>) => s.(items := RemoveModule(s.items, degreeId, moduleId)))
  }

  /** Saving a module's edit. */
  function Save(e: Editor<seq<Obj>>, hasToken: bool, moduleId: string, o: Outcome): (r: Editor<seq<Obj>>)
    ensures !hasToken ==> r == e.(error := Some(NOT_AUTHENTICATED))
    ensures hasToken && o.Ok? && !Nullish(o.body) ==>
              r.items == MergeModule(e.items, moduleId, Unwrapped(o.body))
              && r.editingId == None && r.draft == map[]
    ensures hasToken && o.Ok? && Nullish(o.body) ==>
              r == e.(error := Some(NullReadMessage(o.body, "data")), busy := None)
    ensures hasToken && !o.Ok? ==>
              r.items == e.items && r.editingId == e.editingId && r.draft == e.draft
  {
    var updated := if o.Ok? then Unwrapped(o.body) else JUndef;
    Run(e, hasToken, Proceed, AttemptedReading(o, "Failed to update module", "data"),
        (s: Editor<seq<Obj>>) => s.(items := MergeModule(s.items, moduleId, updated),
                                    editingId := None, draft := map[]))
  }
}
