/**
 * The education editor: merge-on-save, delete by id, the create gate, and the edit draft
 * and create form it keeps.
 */
module AdminEducation {
  import opened Wrappers
  import opened Js
  import opened Collections

  /** The nine fields the edit form copies from an entry. */
  const EDIT_FIELDS: seq<string> := ["degree", "institution", "field_of_study", "start_date",
    "end_date", "grade", "description", "slug", "display_order"]

  /** The create form the page starts with and returns to after a successful create. */
  const NEW_FORM: Obj := map["degree" := JStr(""), "institution" := JStr(""),
    "field_of_study" := JStr(""), "start_date" := JStr(""), "end_date" := JNull,
    "grade" := JStr(""), "description" := JStr(""), "slug" := JStr(""),
    "display_order" := JNum(0)]

  const REQUIRED_MESSAGE: string := "Degree, institution, and slug are required"

  /** The create form's client-side gate. */
  function CreateGate(form: Obj): (p: Precheck)
    ensures p.Proceed? <==>
              Truthy(Get(form, "degree")) && Truthy(Get(form, "institution")) && Truthy(Get(form, "slug"))
    ensures !p.Proceed? ==> p == Refuse(REQUIRED_MESSAGE)
  {
    var fields := ["degree", "institution", "slug"];
    assert fields[0] == "degree" && fields[1] == "institution" && fields[2] == "slug";
    RequireFields(form, fields, REQUIRED_MESSAGE)
  }

  /** The initial form cannot be submitted as it is. */
  lemma NewFormRefused()
    ensures CreateGate(NEW_FORM) == Refuse(REQUIRED_MESSAGE)
  {
    assert Get(NEW_FORM, "degree") == JStr("");
  }

  /** Starting an edit: the entry's id and a draft of its nine editable fields. */
  function StartEditing(e: Editor<seq<Json>>, entry: Json): (r: Editor<seq<Json>>)
    ensures r.editingId == Some(IdOf(entry))
    ensures r.draft.Keys == set k | k in EDIT_FIELDS
    ensures forall k | k in r.draft :: r.draft[k] == Prop(entry, k)
    ensures r.items == e.items && r.error == None
  {
    e.(editingId := Some(IdOf(entry)), draft := Draft(EDIT_FIELDS, entry), error := None)
  }

  /** Cancelling an edit after starting it returns to no edit and an empty draft. */
  lemma StartThenCancel(e: Editor<seq<Json>>, entry: Json)
    ensures var r := CancelEditing(StartEditing(e, entry));
            r.editingId == None && r.draft == map[] && r.items == e.items
  {
  }

  /** Saving an edit: the response (the bare row) is merged into the entries with that id. */
  function Save(e: Editor<seq<Json>>, hasToken: bool, id: string, o: Outcome): (r: Editor<seq<Json>>)
    ensures !hasToken ==> r == e.(error := Some(NOT_AUTHENTICATED))
    ensures hasToken && o.Ok? ==>
              r.items == MergeId(e.items, id, o.body) && r.editingId == None && r.draft == map[]
    ensures hasToken && !o.Ok? ==>
              r.items == e.items && r.editingId == e.editingId && r.draft == e.draft && r.error.Some?
  {
    var updated := if o.Ok? then o.body else JUndef;
    Run(e, hasToken, Proceed, Attempted(o, "Failed to update education"),
        (s: Editor<seq<Json>>) => s.(items := MergeId(s.items, id, updated), editingId := None, draft := map[]))
  }

  /** What the page's own reload leaves as the error when it throws. */
  const LOAD_FAILED: string := "Failed to load education data"

  /**
   * Creating an entry: the gate, then the POST; a success awaits the page's reload and resets
   * the form. `refreshed` is that reload (`data.data || []`, `None` when it threw): a failed
   * reload keeps the old list and leaves LOAD_FAILED showing.
   */
  function Create(e: Editor<seq<Json>>, hasToken: bool, o: Outcome, refreshed: Option<seq<Json>>): (r: Editor<seq<Json>>)
    ensures !hasToken ==> r == e.(error := Some(NOT_AUTHENTICATED))
    ensures hasToken && !CreateGate(e.newForm).Proceed? ==> r == e.(error := Some(REQUIRED_MESSAGE))
    ensures hasToken && CreateGate(e.newForm).Proceed? && o.Ok? ==> r.newForm == NEW_FORM && !r.creating
    ensures hasToken && CreateGate(e.newForm).Proceed? && o.Ok? && refreshed.Some? ==>
              r.items == refreshed.value && r.error == None
    ensures hasToken && CreateGate(e.newForm).Proceed? && o.Ok? && refreshed.None? ==>
              r.items == e.items && r.error == Some(LOAD_FAILED)
    ensures hasToken && !o.Ok? ==> r.items == e.items && r.newForm == e.newForm
  {
    Run(e, hasToken, CreateGate(e.newForm), Attempted(o, "Failed to create education"),
        (s: Editor<seq<Json>>) => Reloaded(s.(creating := false, newForm := NEW_FORM), refreshed, LOAD_FAILED))
  }

  /** Deleting an entry: token, confirmation, then the DELETE; a success filters the id out. */
  function Delete(e: Editor<seq<Json>>, hasToken: bool, confirmed: bool, id: string, o: Outcome): (r: Editor<seq<Json>>)
    ensures !hasToken ==> r == e.(error := Some(NOT_AUTHENTICATED))
    ensures hasToken && !confirmed ==> r == e
    ensures hasToken && confirmed && o.Ok? ==> r.items == RemoveId(e.items, id)
    ensures hasToken && !o.Ok? ==> r.items == e.items
  {
    Run(e, hasToken, if confirmed then Proceed else Cancelled, Attempted(o, "Failed to delete education"),
        (s: Editor<seq<Json>>) => s.(items := RemoveId(s.items, id)))
  }
}
