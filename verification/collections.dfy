/**
 * What the admin editors share: the outcome of an awaited request, the error text a failed
 * request leaves behind, the list operations the editors apply after a successful request,
 * and the editor-state transition around a request (no token, a client-side gate, failure).
 */
module Collections {
  import opened Wrappers
  import opened Js

  /** How an awaited `fetch` + `response.json()` ends. */
  datatype Outcome =
    | Ok(body: Json)            // response.ok, body decoded
    | NotOk(errorBody: Json)    // a non-ok status, error body decoded
    | Threw(message: string)    // the network call or the JSON decoding raised

  /** How the `try` block of an editor action ends. */
  datatype Attempt = Succeeded(body: Json) | Failed(message: string)

  /**
   * The message `throw new Error(errorData.error || fallback)` leaves: the server's text, the
   * fallback when that is falsy, or, for a `null` error body, the `TypeError` that reading
   * `errorData.error` raises first.
   */
  function ServerError(errorBody: Json, fallback: string): (m: string)
    ensures Prop(errorBody, "error").JStr? && Prop(errorBody, "error").s != "" ==>
              m == Prop(errorBody, "error").s
    ensures !Nullish(errorBody) && !Truthy(Prop(errorBody, "error")) ==> m == fallback
    ensures Nullish(errorBody) ==> m == NullReadMessage(errorBody, "error")
  {
    if Nullish(errorBody) then NullReadMessage(errorBody, "error")
    else JsString(Or(Prop(errorBody, "error"), JStr(fallback)))
  }

  /**
   * The usual `try` block: a non-ok response raises the server's `error` text (or the
   * fallback), an exception keeps its own message, and an ok response succeeds.
   */
  function Attempted(o: Outcome, fallback: string): (a: Attempt)
    ensures a.Succeeded? <==> o.Ok?
    ensures o.Ok? ==> a.body == o.body
    ensures o.NotOk? ==> a.message == ServerError(o.errorBody, fallback)
    ensures o.Threw? ==> a.message == o.message
  {
    match o
    case Ok(body) => Succeeded(body)
    case NotOk(e) => Failed(ServerError(e, fallback))
    case Threw(m) => Failed(m)
  }

  /**
   * `Attempted` for a `try` block that goes on to read `result.k` from the ok body: a `null`
   * body raises that read's `TypeError`, which the `catch` reports like any other failure.
   */
  function AttemptedReading(o: Outcome, fallback: string, k: string): (a: Attempt)
    ensures a.Succeeded? <==> o.Ok? && !Nullish(o.body)
    ensures !o.Ok? ==> a == Attempted(o, fallback)
    ensures o.Ok? && Nullish(o.body) ==> a == Failed(NullReadMessage(o.body, k))
    ensures a.Succeeded? ==> a.body == o.body
  {
    if o.Ok? && Nullish(o.body) then Failed(NullReadMessage(o.body, k)) else Attempted(o, fallback)
  }

  /** `result.data || result`: the entity of a response that may or may not wrap it. */
  function Unwrapped(body: Json): (r: Json)
    ensures Truthy(Prop(body, "data")) ==> r == Prop(body, "data")
    ensures !Truthy(Prop(body, "data")) ==> r == body
  {
    Or(Prop(body, "data"), body)
  }

  /** `o ?? null` as the payloads write it: `o || null`. */
  function OrNull(j: Json): (r: Json)
    ensures Truthy(j) ==> r == j
    ensures !Truthy(j) ==> r == JNull
  {
    Or(j, JNull)
  }

  // ---------------------------------------------------------------------------------------
  // List operations
  // ---------------------------------------------------------------------------------------

  /** `xs.filter(p)`. */
  function Keep<T>(xs: seq<T>, p: T -> bool): (r: seq<T>)
    ensures |r| <= |xs|
    ensures forall x | x in r :: x in xs && p(x)
    ensures forall x | x in xs && p(x) :: x in r
  {
    if xs == [] then []
    else (if p(xs[0]) then [xs[0]] else []) + Keep(xs[1..], p)
  }

  /** Filtering a concatenation filters each part: the survivors keep their relative order. */
  lemma {:induction false} KeepAppend<T>(xs: seq<T>, ys: seq<T>, p: T -> bool)
    ensures Keep(xs + ys, p) == Keep(xs, p) + Keep(ys, p)
  {
    if xs == [] {
      assert xs + ys == ys;
    } else {
      assert (xs + ys)[1..] == xs[1..] + ys;
      KeepAppend(xs[1..], ys, p);
    }
  }

  /** Filtering keeps every copy of a surviving value and no copy of a removed one. */
  lemma {:induction false} KeepMultiset<T>(xs: seq<T>, p: T -> bool, x: T)
    ensures multiset(Keep(xs, p))[x] == if p(x) then multiset(xs)[x] else 0
  {
    if xs != [] {
      assert xs == [xs[0]] + xs[1..];
      KeepMultiset(xs[1..], p, x);
    }
  }

  /** A filter that removes nothing returns the list unchanged. */
  lemma {:induction false} KeepNone<T>(xs: seq<T>, p: T -> bool)
    requires forall i | 0 <= i < |xs| :: p(xs[i])
    ensures Keep(xs, p) == xs
  {
    if xs != [] {
      KeepNone(xs[1..], p);
    }
  }

  /** A filter that keeps nothing returns the empty list. */
  lemma {:induction false} KeepEmpty<T>(xs: seq<T>, p: T -> bool)
    requires forall i | 0 <= i < |xs| :: !p(xs[i])
    ensures Keep(xs, p) == []
  {
    if xs != [] {
      KeepEmpty(xs[1..], p);
    }
  }

  /** Two filters that keep disjoint sets of values keep at most the whole list between them. */
  lemma {:induction false} KeepDisjoint<T>(xs: seq<T>, p: T -> bool, q: T -> bool)
    requires forall i | 0 <= i < |xs| :: !(p(xs[i]) && q(xs[i]))
    ensures |Keep(xs, p)| + |Keep(xs, q)| <= |xs|
  {
    if xs != [] {
      KeepDisjoint(xs[1..], p, q);
    }
  }

  /** `xs.map(x => p(x) ? f(x) : x)`. */
  function MapWhere<T>(xs: seq<T>, p: T -> bool, f: T -> T): (r: seq<T>)
    ensures |r| == |xs|
    ensures forall i | 0 <= i < |xs| :: r[i] == if p(xs[i]) then f(xs[i]) else xs[i]
  {
    if xs == [] then []
    else [if p(xs[0]) then f(xs[0]) else xs[0]] + MapWhere(xs[1..], p, f)
  }

  /** An update that matches nothing leaves the list unchanged. */
  lemma MapWhereNone<T>(xs: seq<T>, p: T -> bool, f: T -> T)
    requires forall i | 0 <= i < |xs| :: !p(xs[i])
    ensures MapWhere(xs, p, f) == xs
  {
  }

  /** `{...x, ...patch}`: the properties of `patch` override those of `x`. */
  function Merge(x: Obj, patch: Json): (r: Obj)
    ensures r.Keys == x.Keys + Spread(patch).Keys
    ensures forall k | k in Spread(patch) :: r[k] == Spread(patch)[k]
    ensures forall k | k in x && k !in Spread(patch) :: r[k] == x[k]
  {
    x + Spread(patch)
  }

  /** Merging the same response twice is the same as merging it once. */
  lemma MergeIdempotent(x: Obj, patch: Json)
    ensures Merge(Merge(x, patch), patch) == Merge(x, patch)
  {
  }

  /** The draft `{k1: src.k1, ..., kn: src.kn}` an editor copies from an entity. */
  function Draft(fields: seq<string>, src: Json): (d: Obj)
    ensures d.Keys == set k | k in fields
    ensures forall k | k in d :: d[k] == Prop(src, k)
  {
    map k | k in fields :: Prop(src, k)
  }

  /** `x.id`. */
  function IdOf(x: Json): Json {
    Prop(x, "id")
  }

  /** `x.id === id`. */
  predicate HasId(x: Json, id: string) {
    IdOf(x) == JStr(id)
  }

  /** `list.filter(x => x.id !== id)`. */
  function RemoveId(xs: seq<Json>, id: string): (r: seq<Json>)
    ensures forall x | x in r :: !HasId(x, id)
    ensures forall x | x in xs && !HasId(x, id) :: x in r
  {
    Keep(xs, x => !HasId(x, id))
  }

  /** A delete removes every copy of a matching entity and keeps every copy of the others. */
  lemma RemoveIdExactly(xs: seq<Json>, id: string, x: Json)
    ensures multiset(RemoveId(xs, id))[x] == if HasId(x, id) then 0 else multiset(xs)[x]
  {
    KeepMultiset(xs, x => !HasId(x, id), x);
  }

  /** The survivors of a delete keep their relative order. */
  lemma RemoveIdOrder(xs: seq<Json>, ys: seq<Json>, id: string)
    ensures RemoveId(xs + ys, id) == RemoveId(xs, id) + RemoveId(ys, id)
  {
    KeepAppend(xs, ys, x => !HasId(x, id));
  }

  /** `list.map(x => x.id === id ? {...x, ...patch} : x)`. */
  function MergeId(xs: seq<Json>, id: string, patch: Json): (r: seq<Json>)
    ensures |r| == |xs|
    ensures forall i | 0 <= i < |xs| && !HasId(xs[i], id) :: r[i] == xs[i]
    ensures forall i | 0 <= i < |xs| && HasId(xs[i], id) :: r[i] == JObj(Merge(Spread(xs[i]), patch))
  {
    MapWhere(xs, x => HasId(x, id), x => JObj(Merge(Spread(x), patch)))
  }

  /** A merged entity keeps its id unless the patch itself carries another one. */
  lemma MergeIdKeepsId(xs: seq<Json>, id: string, patch: Json, i: nat)
    requires i < |xs| && xs[i].JObj? && HasId(xs[i], id)
    requires "id" !in Spread(patch) || Spread(patch)["id"] == JStr(id)
    ensures HasId(MergeId(xs, id, patch)[i], id)
  {
  }

  // ---------------------------------------------------------------------------------------
  // Editor state around one request
  // ---------------------------------------------------------------------------------------

  /**
   * The state an editor page keeps: its list (`L`), the entity being edited and its draft,
   * the selected skill ids of the edit and create forms, the create form, the error banner
   * and the id whose request is in flight.
   */
  datatype Editor<L> = Editor(
    items: L,
    editingId: Option<Json>,
    draft: Obj,
    selected: seq<Json>,
    creating: bool,
    newForm: Obj,
    newSelected: seq<Json>,
    error: Option<string>,
    busy: Option<string>)

  /** What happens before the request: proceed, refuse with a message, or the user cancelled. */
  datatype Precheck = Proceed | Refuse(message: string) | Cancelled

  const NOT_AUTHENTICATED: string := "Not authenticated"

  /** A create form's gate: proceed when every required field is truthy, otherwise refuse. */
  function RequireFields(form: Obj, fields: seq<string>, message: string): (p: Precheck)
    ensures p.Proceed? <==> forall i | 0 <= i < |fields| :: Truthy(Get(form, fields[i]))
    ensures !p.Proceed? ==> p == Refuse(message)
  {
    if forall i | 0 <= i < |fields| :: Truthy(Get(form, fields[i])) then Proceed else Refuse(message)
  }

  /**
   * One editor action: without a token only the error is set; a refused gate only sets its
   * message; a declined confirmation changes nothing; a failed request sets the error and
   * clears the in-flight id; only a successful request applies `done`.
   */
  function Run<L>(e: Editor<L>, hasToken: bool, pre: Precheck, attempt: Attempt,
                  done: Editor<L> -> Editor<L>): (r: Editor<L>)
    ensures !hasToken ==> r == e.(error := Some(NOT_AUTHENTICATED))
    ensures hasToken && pre.Refuse? ==> r == e.(error := Some(pre.message))
    ensures hasToken && pre.Cancelled? ==> r == e
    ensures hasToken && pre.Proceed? && attempt.Failed? ==>
              r == e.(error := Some(attempt.message), busy := None)
    ensures hasToken && pre.Proceed? && attempt.Succeeded? ==>
              r == done(e.(error := None)).(busy := None)
  {
    if !hasToken then e.(error := Some(NOT_AUTHENTICATED))
    else match pre
      case Refuse(m) => e.(error := Some(m))
      case Cancelled => e
      case Proceed =>
        match attempt
        case Failed(m) => e.(error := Some(m), busy := None)
        case Succeeded(_) => done(e.(error := None)).(busy := None)
  }

  /**
   * The page's own reload, awaited after a successful create or save: a fresh list replaces
   * the old one, while a failed reload (its own `catch`) keeps the old list and leaves the
   * page's load-failure text; the action then carries on with its success path either way.
   */
  function Reloaded<L>(s: Editor<L>, refreshed: Option<L>, failure: string): (r: Editor<L>)
    ensures refreshed.Some? ==> r == s.(items := refreshed.value)
    ensures refreshed.None? ==> r == s.(error := Some(failure))
  {
    match refreshed
    case Some(l) => s.(items := l)
    case None => s.(error := Some(failure))
  }

  /** Only a successful request touches the list, the drafts and the selections. */
  lemma OnlySuccessChangesData<L>(e: Editor<L>, hasToken: bool, pre: Precheck, attempt: Attempt,
                                  done: Editor<L> -> Editor<L>)
    requires !hasToken || !pre.Proceed? || attempt.Failed?
    ensures var r := Run(e, hasToken, pre, attempt, done);
            r.items == e.items && r.editingId == e.editingId && r.draft == e.draft
            && r.selected == e.selected && r.creating == e.creating && r.newForm == e.newForm
            && r.newSelected == e.newSelected
  {
  }

  /** Leaving the edit form: no id, an empty draft, no selected skills. */
  function CancelEditing<L>(e: Editor<L>): (r: Editor<L>)
    ensures r.editingId == None && r.draft == map[] && r.selected == []
    ensures r.items == e.items && r.newForm == e.newForm && r.error == e.error
  {
    e.(editingId := None, draft := map[], selected := [])
  }
}
