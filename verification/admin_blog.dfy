/**
 * The blog editor: the post list it loads, replace-on-save guarded by the response's id,
 * prepend-on-create, delete by id, the create gate and the create draft.
 */
module AdminBlog {
  import opened Wrappers
  import opened Js
  import opened Collections

  /** The posts `fetchPosts` stores: `data.data` when it is an array, [] otherwise or on failure. */
  function LoadPosts(o: Outcome): (posts: seq<Json>)
    ensures !o.Ok? ==> posts == []
    ensures o.Ok? && Prop(o.body, "data").JArr? ==> posts == Prop(o.body, "data").items
    ensures o.Ok? && !Prop(o.body, "data").JArr? ==> posts == []
  {
    if o.Ok? then ArrayOrEmpty(Prop(o.body, "data")) else []
  }

  /** The create draft the page opens with and resets to. */
  const DRAFT_DEFAULT: Obj := map["status" := JStr("draft"), "featured" := JBool(false)]

  /** Leaving the create form: closed, and the draft back to `{status: "draft", featured: false}`. */
  function CancelCreating<L>(e: Editor<L>): (r: Editor<L>)
    ensures !r.creating && r.newForm == DRAFT_DEFAULT
    ensures r.items == e.items && r.editingId == e.editingId && r.draft == e.draft
  {
    e.(creating := false, newForm := DRAFT_DEFAULT)
  }

  const REQUIRED_MESSAGE: string := "Title and content are required"
  const INVALID_RESPONSE: string := "Invalid response from server"

  /** The create form's client-side gate. */
  function CreateGate(form: Obj): (p: Precheck)
    ensures p.Proceed? <==> Truthy(Get(form, "title")) && Truthy(Get(form, "content"))
    ensures !p.Proceed? ==> p == Refuse(REQUIRED_MESSAGE)
  {
    var fields := ["title", "content"];
    assert fields[0] == "title" && fields[1] == "content";
    RequireFields(form, fields, REQUIRED_MESSAGE)
  }

  /** The reset draft has neither title nor content, so it cannot be submitted unchanged. */
  lemma DraftDefaultRefused()
    ensures CreateGate(DRAFT_DEFAULT) == Refuse(REQUIRED_MESSAGE)
  {
    assert "title" !in DRAFT_DEFAULT;
  }

  /** Whether a response carries `data.data` with a truthy `id`. */
  predicate HasEntity(body: Json) {
    Truthy(Prop(body, "data")) && Truthy(Prop(Prop(body, "data"), "id"))
  }

  /**
   * The `try` block of save and create: a non-ok status raises the fixed fallback (the error
   * body is not read), an ok `null` body raises the `TypeError` of reading `data.data`, and
   * any other ok response without `data.data.id` raises INVALID_RESPONSE.
   */
  function Checked(o: Outcome, fallback: string): (a: Attempt)
    ensures a.Succeeded? <==> o.Ok? && HasEntity(o.body)
    ensures o.NotOk? ==> a == Failed(fallback)
    ensures o.Ok? && Nullish(o.body) ==> a == Failed(NullReadMessage(o.body, "data"))
    ensures o.Ok? && !Nullish(o.body) && !HasEntity(o.body) ==> a == Failed(INVALID_RESPONSE)
    ensures a.Succeeded? ==> a.body == o.body
  {
    match o
    case Ok(body) =>
      if Nullish(body) then Failed(NullReadMessage(body, "data"))
      else if HasEntity(body) then Succeeded(body) else Failed(INVALID_RESPONSE)
    case NotOk(_) => Failed(fallback)
    case Threw(m) => Failed(m)
  }

  /** Starting an edit: the whole post becomes the draft. */
  function StartEditing(e: Editor<seq<Json>>, post: Json): (r: Editor<seq<Json>>)
    ensures r.editingId == Some(IdOf(post)) && r.draft == Spread(post)
    ensures r.items == e.items
  {
    e.(editingId := Some(IdOf(post)), draft := Spread(post))
  }

  /** `prev.map(post => post.id === postId ? entity : post)`. */
  function ReplaceId(posts: seq<Json>, id: string, entity: Json): (r: seq<Json>)
    ensures |r| == |posts|
    ensures forall i | 0 <= i < |posts| :: r[i] == if HasId(posts[i], id) then entity else posts[i]
  {
    MapWhere(posts, p => HasId(p, id), _ => entity)
  }

  /** Saving an edit: the matching posts are replaced by `data.data`, or nothing changes. */
  function Save(e: Editor<seq<Json>>, hasToken: bool, postId: string, o: Outcome): (r: Editor<seq<Json>>)
    ensures !hasToken ==> r == e.(error := Some(NOT_AUTHENTICATED))
    ensures hasToken && o.Ok? && HasEntity(o.body) ==>
              r.items == ReplaceId(e.items, postId, Prop(o.body, "data"))
              && r.editingId == None && r.draft == map[]
    ensures hasToken && o.Ok? && !HasEntity(o.body) ==> r.items == e.items && r.editingId == e.editingId
    ensures hasToken && o.Ok? && !Nullish(o.body) && !HasEntity(o.body) ==> r.error == Some(INVALID_RESPONSE)
    ensures hasToken && o.Ok? && Nullish(o.body) ==> r.error == Some(NullReadMessage(o.body, "data"))
  {
    var entity := if o.Ok? then Prop(o.body, "data") else JUndef;
    Run(e, hasToken, Proceed, Checked(o, "Failed to update post"),
        (s: Editor<seq<Json>>) => CancelEditing(s.(items := ReplaceId(s.items, postId, entity))))
  }

  /** Creating a post: the gate, then the POST; a success puts the new post first. */
  function Create(e: Editor<seq<Json>>, hasToken: bool, o: Outcome): (r: Editor<seq<Json>>)
    ensures !hasToken ==> r == e.(error := Some(NOT_AUTHENTICATED))
    ensures hasToken && !CreateGate(e.newForm).Proceed? ==> r == e.(error := Some(REQUIRED_MESSAGE))
    ensures hasToken && !(o.Ok? && HasEntity(o.body)) ==> r.items == e.items
  {
    var entity := if o.Ok? then Prop(o.body, "data") else JUndef;
    Run(e, hasToken, CreateGate(e.newForm), Checked(o, "Failed to create post"),
        (s: Editor<seq<Json>>) => CancelCreating(s.(items := [entity] + s.items)))
  }

  /** A successful create grows the list by one, with the created post first and the rest after. */
  lemma CreatePrepends(e: Editor<seq<Json>>, o: Outcome)
    requires CreateGate(e.newForm).Proceed? && o.Ok? && HasEntity(o.body)
    ensures var r := Create(e, true, o);
            |r.items| == |e.items| + 1 && r.items[0] == Prop(o.body, "data") && r.items[1..] == e.items
            && r.newForm == DRAFT_DEFAULT && !r.creating
  {
    var r := Create(e, true, o);
    assert r.items == [Prop(o.body, "data")] + e.items;
  }

  /** Deleting a post: token, confirmation, then the DELETE; a success filters the id out. */
  function Delete(e: Editor<seq<Json>>, hasToken: bool, confirmed: bool, postId: string, o: Outcome): (r: Editor<seq<Json>>)
    ensures !hasToken ==> r == e.(error := Some(NOT_AUTHENTICATED))
    ensures hasToken && !confirmed ==> r == e
    ensures hasToken && confirmed && o.Ok? ==> r.items == RemoveId(e.items, postId)
    ensures hasToken && confirmed && !o.Ok? ==> r.items == e.items && r.error.Some?
  {
    Run(e, hasToken, if confirmed then Proceed else Cancelled,
        match o case Ok(b) => Succeeded(b) case NotOk(_) => Failed("Failed to delete post") case Threw(m) => Failed(m),
        (s: Editor<seq<Json>>) => s.(items := RemoveId(s.items, postId)))
  }
}
