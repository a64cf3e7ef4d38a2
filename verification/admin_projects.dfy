/**
 * The projects editor: the `{project, skills}` list it keeps, the list updates after a delete
 * and an image upload, the skill checkboxes, the create gate and the edit draft.
 */
module AdminProjects {
  import opened Wrappers
  import opened Js
  import opened Collections

  /** `{project: item?.project || {}, skills: Array.isArray(item?.skills) ? item.skills : []}`. */
  function NormaliseItem(item: Json): (r: Obj)
    ensures r.Keys == {"project", "skills"}
    ensures Truthy(r["project"]) && r["skills"].JArr?
    ensures Truthy(Prop(item, "project")) ==> r["project"] == Prop(item, "project")
    ensures Prop(item, "skills").JArr? ==> r["skills"] == Prop(item, "skills")
    ensures !Prop(item, "skills").JArr? ==> r["skills"] == JArr([])
  {
    map["project" := Or(Prop(item, "project"), JObj(map[])),
        "skills" := if Prop(item, "skills").JArr? then Prop(item, "skills") else JArr([])]
  }

  /** The list the page stores from `GET /projects`: one normalised item per element, or []. */
  function NormaliseProjects(data: Json): (r: seq<Obj>)
    ensures !Prop(data, "data").JArr? ==> r == []
    ensures Prop(data, "data").JArr? ==> |r| == |Prop(data, "data").items|
    ensures forall i | 0 <= i < |r| :: r[i] == NormaliseItem(Prop(data, "data").items[i])
  {
    var xs := ArrayOrEmpty(Prop(data, "data"));
    seq(|xs|, i requires 0 <= i < |xs| => NormaliseItem(xs[i]))
  }

  /** Every stored item has a project object slot and a skills array. */
  lemma NormalisedShape(data: Json, i: nat)
    requires i < |NormaliseProjects(data)|
    ensures var x := NormaliseProjects(data)[i];
            "project" in x && Truthy(x["project"]) && "skills" in x && x["skills"].JArr?
  {
  }

  /** `item.project.id`. */
  function ProjectId(item: Obj): Json {
    Prop(Get(item, "project"), "id")
  }

  /** `prev.filter(item => item.project.id !== projectId)` after a successful delete. */
  function RemoveProject(items: seq<Obj>, id: string): (r: seq<Obj>)
    ensures forall x | x in r :: ProjectId(x) != JStr(id)
    ensures forall x | x in items && ProjectId(x) != JStr(id) :: x in r
  {
    Keep(items, x => ProjectId(x) != JStr(id))
  }

  /** The delete removes every copy of each matching item and keeps every copy of the others. */
  lemma RemoveProjectExactly(items: seq<Obj>, id: string, x: Obj)
    ensures multiset(RemoveProject(items, id))[x] ==
            if ProjectId(x) == JStr(id) then 0 else multiset(items)[x]
  {
    KeepMultiset(items, x => ProjectId(x) != JStr(id), x);
  }

  /** The surviving items keep their order: deleting from a concatenation deletes from each part. */
  lemma RemoveProjectOrder(xs: seq<Obj>, ys: seq<Obj>, id: string)
    ensures RemoveProject(xs + ys, id) == RemoveProject(xs, id) + RemoveProject(ys, id)
  {
    KeepAppend(xs, ys, x => ProjectId(x) != JStr(id));
  }

  /** `{...item, project: {...item.project, image_url: url}}`. */
  function WithImage(item: Obj, url: Json): (r: Obj)
    ensures r.Keys == item.Keys + {"project"}
    ensures forall k | k in item && k != "project" :: r[k] == item[k]
    ensures r["project"].JObj?
    ensures r["project"].fields == Spread(Get(item, "project"))["image_url" := url]
  {
    item["project" := JObj(Spread(Get(item, "project"))["image_url" := url])]
  }

  /** The list after a successful upload: the matching projects get the returned `image_url`. */
  function SetImage(items: seq<Obj>, id: string, url: Json): (r: seq<Obj>)
    ensures |r| == |items|
  {
    MapWhere(items, x => ProjectId(x) == JStr(id), x => WithImage(x, url))
  }

  /**
   * An upload changes only `image_url` of the matching projects: other items are unchanged,
   * and a matching item keeps every other field of itself and of its project.
   */
  lemma SetImageOnlyImage(items: seq<Obj>, id: string, url: Json, i: nat)
    requires i < |items|
    requires Get(items[i], "project").JObj?
    ensures var r := SetImage(items, id, url);
            && (ProjectId(items[i]) != JStr(id) ==> r[i] == items[i])
            && (ProjectId(items[i]) == JStr(id) ==>
                  && r[i].Keys == items[i].Keys
                  && (forall k | k in items[i] && k != "project" :: r[i][k] == items[i][k])
                  && Prop(r[i]["project"], "image_url") == url
                  && var before := Get(items[i], "project").fields;
                     var after := r[i]["project"].fields;
                     after.Keys == before.Keys + {"image_url"}
                     && forall k | k in before && k != "image_url" :: after[k] == before[k])
  {
  }

  /** A skill checkbox: checking appends the id, unchecking removes every copy of it. */
  function ToggleSkill(selected: seq<Json>, id: Json, checked: bool): (r: seq<Json>)
    ensures checked ==> r == selected + [id]
    ensures !checked ==> id !in r
    ensures !checked ==> forall x | x in selected && x != id :: x in r
  {
    if checked then selected + [id] else Keep(selected, x => x != id)
  }

  /** Checking then unchecking a skill leaves what unchecking alone would leave. */
  lemma CheckThenUncheck(selected: seq<Json>, id: Json)
    ensures ToggleSkill(ToggleSkill(selected, id, true), id, false) == ToggleSkill(selected, id, false)
  {
    KeepAppend(selected, [id], x => x != id);
    assert Keep([id], x => x != id) == [];
  }

  /** Unchecking a skill that is not selected changes nothing. */
  lemma UncheckAbsent(selected: seq<Json>, id: Json)
    requires id !in selected
    ensures ToggleSkill(selected, id, false) == selected
  {
    KeepNone(selected, x => x != id);
  }

  const NAME_AND_SLUG_REQUIRED: string := "Name and slug are required"

  /** The create form's client-side gate. */
  function CreateGate(form: Obj): (p: Precheck)
    ensures p.Proceed? <==> Truthy(Get(form, "name")) && Truthy(Get(form, "slug"))
    ensures !p.Proceed? ==> p == Refuse(NAME_AND_SLUG_REQUIRED)
  {
    var fields := ["name", "slug"];
    assert fields[0] == "name" && fields[1] == "slug";
    RequireFields(form, fields, NAME_AND_SLUG_REQUIRED)
  }

  /** The request body of a save or a create: the form plus the selected skill ids. */
  function Payload(form: Obj, skills: seq<Json>): (r: Obj)
    ensures r.Keys == form.Keys + {"skill_ids"}
    ensures r["skill_ids"] == JArr(skills)
    ensures forall k | k in form && k != "skill_ids" :: r[k] == form[k]
  {
    WithProp(form, "skill_ids", JArr(skills))
  }

  /** The nine project fields the edit form copies. */
  const EDIT_FIELDS: seq<string> := ["name", "slug", "short_description", "full_description",
    "status", "github_url", "live_url", "featured", "difficulty_level"]

  /** `(item.skills || []).map(s => s.id)`. */
  function SkillIds(skills: Json): (r: seq<Json>)
    ensures !Truthy(skills) ==> r == []
    ensures skills.JArr? ==> |r| == |skills.items|
    ensures skills.JArr? ==> forall i | 0 <= i < |r| :: r[i] == Prop(skills.items[i], "id")
  {
    var xs := ArrayOrEmpty(Or(skills, JArr([])));
    seq(|xs|, i requires 0 <= i < |xs| => Prop(xs[i], "id"))
  }

  /** Starting an edit: the project's id, its nine editable fields, and its skill ids. */
  function StartEditing(e: Editor<seq<Obj>>, item: Obj): (r: Editor<seq<Obj>>)
    ensures r.editingId == Some(ProjectId(item))
    ensures r.draft.Keys == set k | k in EDIT_FIELDS
    ensures forall k | k in r.draft :: r.draft[k] == Prop(Get(item, "project"), k)
    ensures r.selected == SkillIds(Get(item, "skills"))
    ensures r.items == e.items && r.error == None
  {
    e.(editingId := Some(ProjectId(item)), draft := Draft(EDIT_FIELDS, Get(item, "project")),
       selected := SkillIds(Get(item, "skills")), error := None)
  }

  /** A project whose skills are null starts its edit with no skill selected. */
  lemma StartEditingNullSkills(e: Editor<seq<Obj>>, item: Obj)
    requires Get(item, "skills") == JNull
    ensures StartEditing(e, item).selected == []
  {
  }

  /** What the page's own reload leaves as the error when its fetch or decoding throws. */
  const LOAD_FAILED: string := "Failed to load projects"

  /**
   * Saving an edit: the PATCH outcome decides; a success awaits the page's reload and leaves
   * the form. `refreshed` is that reload: the normalised list, or `None` when it threw, in
   * which case the old list stays and the reload's failure text is the one left showing.
   */
  function Save(e: Editor<seq<Obj>>, hasToken: bool, o: Outcome, refreshed: Option<seq<Obj>>): (r: Editor<seq<Obj>>)
    ensures !hasToken ==> r == e.(error := Some(NOT_AUTHENTICATED))
    ensures hasToken && !o.Ok? ==>
              r.editingId == e.editingId && r.draft == e.draft && r.selected == e.selected
              && r.items == e.items && r.busy == None
              && r.error == Some(Attempted(o, "Failed to update project").message)
    ensures hasToken && o.Ok? && Nullish(o.body) ==>
              r == e.(error := Some(NullReadMessage(o.body, "data")), busy := None)
    ensures hasToken && o.Ok? && !Nullish(o.body) ==> r.editingId == None && r.draft == map[] && r.selected == []
    ensures hasToken && o.Ok? && !Nullish(o.body) && refreshed.Some? ==>
              r.items == refreshed.value && r.error == None
    ensures hasToken && o.Ok? && !Nullish(o.body) && refreshed.None? ==>
              r.items == e.items && r.error == Some(LOAD_FAILED)
  {
    Run(e, hasToken, Proceed, AttemptedReading(o, "Failed to update project", "data"),
        (s: Editor<seq<Obj>>) => Reloaded(CancelEditing(s), refreshed, LOAD_FAILED))
  }

  /**
   * Creating: the gate, then the POST outcome; a success awaits the page's reload (as in Save)
   * and clears the form whether or not the reload worked.
   */
  function Create(e: Editor<seq<Obj>>, hasToken: bool, o: Outcome, refreshed: Option<seq<Obj>>): (r: Editor<seq<Obj>>)
    ensures !hasToken ==> r == e.(error := Some(NOT_AUTHENTICATED))
    ensures hasToken && !CreateGate(e.newForm).Proceed? ==>
              r == e.(error := Some(NAME_AND_SLUG_REQUIRED))
    ensures hasToken && CreateGate(e.newForm).Proceed? && o.Ok? && !Nullish(o.body) ==>
              !r.creating && r.newForm == map[] && r.newSelected == []
    ensures hasToken && CreateGate(e.newForm).Proceed? && o.Ok? && !Nullish(o.body) && refreshed.Some? ==>
              r.items == refreshed.value && r.error == None
    ensures hasToken && CreateGate(e.newForm).Proceed? && o.Ok? && !Nullish(o.body) && refreshed.None? ==>
              r.items == e.items && r.error == Some(LOAD_FAILED)
    ensures hasToken && CreateGate(e.newForm).Proceed? && o.Ok? && Nullish(o.body) ==>
              r == e.(error := Some(NullReadMessage(o.body, "data")), busy := None)
    ensures hasToken && CreateGate(e.newForm).Proceed? && !o.Ok? ==>
              r.items == e.items && r.newForm == e.newForm && r.error.Some?
  {
    Run(e, hasToken, CreateGate(e.newForm), AttemptedReading(o, "Failed to create project", "data"),
        (s: Editor<seq<Obj>>) =>
          Reloaded(s.(creating := false, newForm := map[], newSelected := []), refreshed, LOAD_FAILED))
  }

  /** Deleting: token, then confirmation, then the DELETE outcome. */
  function Delete(e: Editor<seq<Obj>>, hasToken: bool, confirmed: bool, id: string, o: Outcome): (r: Editor<seq<Obj>>)
    ensures !hasToken ==> r == e.(error := Some(NOT_AUTHENTICATED))
    ensures hasToken && !confirmed ==> r == e
    ensures hasToken && confirmed && o.Ok? ==> r.items == RemoveProject(e.items, id)
    ensures hasToken && confirmed && !o.Ok? ==> r.items == e.items && r.error.Some?
  {
    Run(e, hasToken, if confirmed then Proceed else Cancelled, Attempted(o, "Failed to delete project"),
        (s: Editor<seq<Obj>>) => s.(items := RemoveProject(s.items, id)))
  }

  /** Whether some listed project has the id. */
  predicate Lists(items: seq<Obj>, id: string) {
    exists i | 0 <= i < |items| :: ProjectId(items[i]) == JStr(id)
  }

  /**
   * Uploading an image: a success stores the returned `image_url` on the matching projects.
   * `data.image_url` is read inside the state updater, which React runs outside the `try`:
   * for an ok `null` body and a listed project it throws during rendering, which is `None`
   * here (the page is torn down rather than showing an error).
   */
  function Upload(e: Editor<seq<Obj>>, hasToken: bool, id: string, o: Outcome): (r: Option<Editor<seq<Obj>>>)
    ensures r.None? <==> hasToken && o.Ok? && Nullish(o.body) && Lists(e.items, id)
    ensures !hasToken ==> r == Some(e.(error := Some(NOT_AUTHENTICATED)))
    ensures r.Some? && hasToken && o.Ok? ==>
              r.value.items == SetImage(e.items, id, Prop(o.body, "image_url")) && r.value.error == None
    ensures hasToken && !o.Ok? ==>
              r.Some? && r.value.items == e.items && r.value.error == Some(Attempted(o, "Failed to upload image").message)
  {
    if hasToken && o.Ok? && Nullish(o.body) && Lists(e.items, id) then None
    else
      var url := if o.Ok? then Prop(o.body, "image_url") else JUndef;
      Some(Run(e, hasToken, Proceed, Attempted(o, "Failed to upload image"),
               (s: Editor<seq<Obj>>) => s.(items := SetImage(s.items, id, url))))
  }
}
