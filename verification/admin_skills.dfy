/**
 * The skills editor: skills grouped by category, grouped update and delete, the proficiency
 * input's clamp, and the create gate.
 */
module AdminSkills {
  import opened Wrappers
  import opened Text
  import opened Js
  import opened Grouping
  import opened Collections

  /** `skill.category` used as an object key (no default here, unlike the public section). */
  function CategoryOf(skill: Json): string {
    JsString(Prop(skill, "category"))
  }

  const LOAD_FAILED: string := "Failed to load skills"

  /**
   * `fetchSkills` once the response is decoded: no groups when `data.data` is falsy, otherwise
   * the skills grouped by category. `None` is the `catch` that shows LOAD_FAILED: a null
   * response, a truthy `data.data` without `forEach`, a null skill, or a category named after
   * an inherited property such as "constructor".
   */
  function LoadSkills(data: Json): (g: Option<Groups<Json>>)
    ensures g.None? <==>
              var d := Prop(data, "data");
              Nullish(data)
              || (Truthy(d) && (!d.JArr? || (exists i | 0 <= i < |d.items| :: Nullish(d.items[i]))
                                || HitsPrototype(d.items, CategoryOf)))
    ensures !Nullish(data) && !Truthy(Prop(data, "data")) ==> g == Some([])
    ensures g.Some? && Prop(data, "data").JArr? ==> g.value == GroupBy(Prop(data, "data").items, CategoryOf)
  {
    var d := Prop(data, "data");
    if Nullish(data) then None
    else if !Truthy(d) then Some([])
    else if !d.JArr? || exists i | 0 <= i < |d.items| :: Nullish(d.items[i]) then None
    else GroupIntoObject(d.items, CategoryOf)
  }

  /**
   * When loading succeeds, every fetched skill is under its own category, each group keeps the
   * fetched order, and the group sizes add up to the number of skills.
   */
  lemma LoadSkillsCorrect(data: Json)
    requires Prop(data, "data").JArr?
    ensures LoadSkills(data).Some? ==>
            var xs := Prop(data, "data").items;
            var g := LoadSkills(data).value;
            && DistinctKeys(g)
            && (forall i | 0 <= i < |g| :: g[i].1 == Bucket(xs, CategoryOf, g[i].0))
            && TotalSize(g) == |xs|
  {
    GroupByCorrect(Prop(data, "data").items, CategoryOf);
  }

  /** `Object.keys(groups).forEach(c => groups[c] = f(groups[c]))`. */
  function MapGroups(g: Groups<Json>, f: seq<Json> -> seq<Json>): (r: Groups<Json>)
    ensures |r| == |g|
    ensures forall i | 0 <= i < |g| :: r[i] == (g[i].0, f(g[i].1))
  {
    seq(|g|, i requires 0 <= i < |g| => (g[i].0, f(g[i].1)))
  }

  /** Rewriting every group's list never adds, drops or renames a category. */
  lemma MapGroupsKeys(g: Groups<Json>, f: seq<Json> -> seq<Json>)
    ensures GroupKeys(MapGroups(g, f)) == GroupKeys(g)
  {
  }

  /** After a successful update: the submitted updates merged into every skill with that id. */
  function UpdateLocal(g: Groups<Json>, id: string, updates: Obj): (r: Groups<Json>)
    ensures GroupKeys(r) == GroupKeys(g)
    ensures forall i | 0 <= i < |g| :: r[i].1 == MergeId(g[i].1, id, JObj(updates))
  {
    MapGroupsKeys(g, xs => MergeId(xs, id, JObj(updates)));
    MapGroups(g, xs => MergeId(xs, id, JObj(updates)))
  }

  /** After a successful delete: the id filtered out of every category, keys kept (maybe empty). */
  function DeleteLocal(g: Groups<Json>, id: string): (r: Groups<Json>)
    ensures GroupKeys(r) == GroupKeys(g)
    ensures forall i | 0 <= i < |g| :: r[i].1 == RemoveId(g[i].1, id)
  {
    MapGroupsKeys(g, xs => RemoveId(xs, id));
    MapGroups(g, xs => RemoveId(xs, id))
  }

  /** No group holds the deleted id afterwards, and every other skill stays in its group. */
  lemma DeleteEverywhere(g: Groups<Json>, id: string, i: nat)
    requires i < |g|
    ensures forall x | x in DeleteLocal(g, id)[i].1 :: !HasId(x, id)
    ensures forall x | x in g[i].1 && !HasId(x, id) :: x in DeleteLocal(g, id)[i].1
  {
  }

  // ---------------------------------------------------------------------------------------
  // Proficiency input
  // ---------------------------------------------------------------------------------------

  /** The longest prefix of decimal digits. */
  function DigitPrefix(s: string): (d: string)
    ensures AllDigits(d) && |d| <= |s| && d == s[..|d|]
    ensures |d| < |s| ==> !IsDigit(s[|d|])
  {
    if s == [] || !IsDigit(s[0]) then "" else [s[0]] + DigitPrefix(s[1..])
  }

  /** A string of digits is its own digit prefix. */
  lemma {:induction false} DigitPrefixAll(s: string)
    requires AllDigits(s)
    ensures DigitPrefix(s) == s
  {
    if s != [] {
      DigitPrefixAll(s[1..]);
    }
  }

  /**
   * `parseInt(s)` in base 10: an optional sign, then the leading digits; `None` (NaN) when
   * there are no digits.
   */
  function ParseInt(s: string): (r: Option<int>)
    ensures r.None? <==> DigitPrefix(if |s| > 0 && s[0] in "+-" then s[1..] else s) == ""
  {
    var neg := |s| > 0 && s[0] == '-';
    var body := if |s| > 0 && s[0] in "+-" then s[1..] else s;
    var d := DigitPrefix(body);
    var v: int := DigitsValue(d);
    if d == "" then None else Some(if neg then -v else v)
  }

  /** `Math.min(100, Math.max(0, parseInt(value) || 0))`. */
  function Proficiency(value: string): (p: int)
    ensures 0 <= p <= 100
    ensures ParseInt(value).None? ==> p == 0
    ensures ParseInt(value).Some? && 0 <= ParseInt(value).value <= 100 ==> p == ParseInt(value).value
    ensures ParseInt(value).Some? && ParseInt(value).value > 100 ==> p == 100
    ensures ParseInt(value).Some? && ParseInt(value).value < 0 ==> p == 0
  {
    var n := match ParseInt(value) case None => 0 case Some(v) => v;
    if n < 0 then 0 else if n > 100 then 100 else n
  }

  /** Typing a level from 0 to 100 in decimal keeps exactly that level. */
  lemma ProficiencyKeepsInRange(n: nat)
    requires n <= 100
    ensures Proficiency(NatToString(n)) == n
  {
    var s := NatToString(n);
    assert s[0] !in "+-";
    DigitPrefixAll(s);
    NatToStringRoundTrip(n);
  }

  // ---------------------------------------------------------------------------------------
  // Editor actions
  // ---------------------------------------------------------------------------------------

  const REQUIRED_MESSAGE: string := "Name and category are required"

  /** The create form the page starts with and returns to after a successful create. */
  const NEW_FORM: Obj := map["name" := JStr(""), "category" := JStr(""),
    "proficiency_level" := JNum(50), "years_experience" := JNum(0), "icon" := JStr("")]

  /** The create form's client-side gate. */
  function CreateGate(form: Obj): (p: Precheck)
    ensures p.Proceed? <==> Truthy(Get(form, "name")) && Truthy(Get(form, "category"))
    ensures !p.Proceed? ==> p == Refuse(REQUIRED_MESSAGE)
  {
    var fields := ["name", "category"];
    assert fields[0] == "name" && fields[1] == "category";
    RequireFields(form, fields, REQUIRED_MESSAGE)
  }

  /** Updating a skill: only a successful PATCH merges the submitted updates locally. */
  function Update(e: Editor<Groups<Json>>, hasToken: bool, id: string, updates: Obj, o: Outcome): (r: Editor<Groups<Json>>)
    ensures !hasToken ==> r == e.(error := Some(NOT_AUTHENTICATED))
    ensures hasToken && o.Ok? ==> r.items == UpdateLocal(e.items, id, updates) && r.error == None
    ensures hasToken && !o.Ok? ==> r.items == e.items && r.error.Some?
  {
    Run(e, hasToken, Proceed, Attempted(o, "Failed to update skill"),
        (s: Editor<Groups<Json>>) => s.(items := UpdateLocal(s.items, id, updates)))
  }

  /** The local state after a successful update ignores what the server answered. */
  lemma UpdateIgnoresResponse(e: Editor<Groups<Json>>, id: string, updates: Obj, b1: Json, b2: Json)
    ensures Update(e, true, id, updates, Ok(b1)) == Update(e, true, id, updates, Ok(b2))
  {
  }

  /**
   * Creating a skill: the gate, then the POST; a success awaits the page's reload and resets
   * the form. `refreshed` is that reload (LoadSkills of the fetched body, `None` when it threw):
   * a failed reload keeps the old groups and leaves LOAD_FAILED showing.
   */
  function Create(e: Editor<Groups<Json>>, hasToken: bool, o: Outcome, refreshed: Option<Groups<Json>>): (r: Editor<Groups<Json>>)
    ensures !hasToken ==> r == e.(error := Some(NOT_AUTHENTICATED))
    ensures hasToken && !CreateGate(e.newForm).Proceed? ==> r == e.(error := Some(REQUIRED_MESSAGE))
    ensures hasToken && CreateGate(e.newForm).Proceed? && o.Ok? ==> r.newForm == NEW_FORM && !r.creating
    ensures hasToken && CreateGate(e.newForm).Proceed? && o.Ok? && refreshed.Some? ==>
              r.items == refreshed.value && r.error == None
    ensures hasToken && CreateGate(e.newForm).Proceed? && o.Ok? && refreshed.None? ==>
              r.items == e.items && r.error == Some(LOAD_FAILED)
    ensures hasToken && !o.Ok? ==> r.items == e.items
  {
    Run(e, hasToken, CreateGate(e.newForm), Attempted(o, "Failed to create skill"),
        (s: Editor<Groups<Json>>) => Reloaded(s.(creating := false, newForm := NEW_FORM), refreshed, LOAD_FAILED))
  }

  /** A created skill followed by a reload of a body with a null skill shows the load failure. */
  lemma CreateThenBrokenReload(e: Editor<Groups<Json>>, data: Json)
    requires CreateGate(e.newForm).Proceed?
    requires Prop(data, "data") == JArr([JNull])
    ensures var r := Create(e, true, Ok(JObj(map[])), LoadSkills(data));
            r.items == e.items && r.error == Some(LOAD_FAILED) && r.newForm == NEW_FORM
  {
  }

  /** Deleting a skill: token, confirmation, then the DELETE; only a success filters it out. */
  function Delete(e: Editor<Groups<Json>>, hasToken: bool, confirmed: bool, id: string, o: Outcome): (r: Editor<Groups<Json>>)
    ensures !hasToken ==> r == e.(error := Some(NOT_AUTHENTICATED))
    ensures hasToken && !confirmed ==> r == e
    ensures hasToken && confirmed && o.Ok? ==> r.items == DeleteLocal(e.items, id)
    ensures hasToken && confirmed && !o.Ok? ==> r.items == e.items && r.error.Some?
  {
    Run(e, hasToken, if confirmed then Proceed else Cancelled, Attempted(o, "Failed to delete skill"),
        (s: Editor<Groups<Json>>) => s.(items := DeleteLocal(s.items, id)))
  }
}
