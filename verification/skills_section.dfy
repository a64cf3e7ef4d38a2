/**
 * The public skills section's grouping: each skill under its category, or "Other" when the
 * category is falsy. The CV page groups its skills the same way.
 */
module SkillsSection {
  import opened Wrappers
  import opened Js
  import opened Grouping

  /** `skill.category || "Other"`, as the object key it is used as. */
  function CategoryKey(skill: Json): (k: string)
    ensures !Truthy(Prop(skill, "category")) ==> k == "Other"
    ensures Prop(skill, "category").JStr? && Prop(skill, "category").s != "" ==>
              k == Prop(skill, "category").s
  {
    JsString(Or(Prop(skill, "category"), JStr("Other")))
  }

  /**
   * The `reduce` that builds the category object, as ordered (key, skills) groups. `None`
   * is the TypeError that ends the render: a null skill (`skill.category` throws) or a
   * category named after an inherited property such as "constructor" (`.push` throws).
   */
  function GroupSkills(skills: seq<Json>): (g: Option<Groups<Json>>)
    ensures g.None? <==>
              (exists i | 0 <= i < |skills| :: Nullish(skills[i])) || HitsPrototype(skills, CategoryKey)
    ensures g.Some? ==> TotalSize(g.value) == |skills|
  {
    if exists i | 0 <= i < |skills| :: Nullish(skills[i]) then None
    else GroupIntoObject(skills, CategoryKey)
  }

  /** An ordinary category, one that names no inherited property, never makes the grouping throw. */
  lemma OrdinaryCategoriesGroup(skills: seq<Json>)
    requires forall i | 0 <= i < |skills| :: !Nullish(skills[i]) && CategoryKey(skills[i]) !in PROTOTYPE_KEYS
    ensures GroupSkills(skills).Some?
  {
  }

  /** A skill filed under "constructor" makes the whole grouping throw, wherever it stands. */
  lemma ConstructorCategoryThrows(skills: seq<Json>, s: Json)
    requires s in skills && Prop(s, "category") == JStr("constructor")
    ensures GroupSkills(skills).None?
  {
    var i :| 0 <= i < |skills| && skills[i] == s;
    assert CategoryKey(skills[i]) in PROTOTYPE_KEYS;
  }

  /**
   * When the grouping succeeds, every skill appears in exactly one group, the one for its own
   * key; each group keeps the input order; the keys are distinct and the group sizes add up
   * to the number of skills.
   */
  lemma GroupSkillsCorrect(skills: seq<Json>)
    ensures GroupSkills(skills).Some? ==>
            var g := GroupSkills(skills).value;
            && DistinctKeys(g)
            && (forall i | 0 <= i < |g| :: g[i].1 == Bucket(skills, CategoryKey, g[i].0))
            && (forall s | s in skills :: exists i | 0 <= i < |g| :: g[i].0 == CategoryKey(s) && s in g[i].1)
            && (forall s, i | 0 <= i < |g| && s in g[i].1 :: g[i].0 == CategoryKey(s))
            && TotalSize(g) == |skills|
  {
    if GroupSkills(skills).Some? {
      GroupByCorrect(skills, CategoryKey);
      var g := GroupSkills(skills).value;
      assert g == GroupBy(skills, CategoryKey);
      forall s | s in skills
        ensures exists i | 0 <= i < |g| :: g[i].0 == CategoryKey(s) && s in g[i].1
      {
        ItemInOwnGroup(skills, CategoryKey, s);
      }
      forall s, i | 0 <= i < |g| && s in g[i].1
        ensures g[i].0 == CategoryKey(s)
      {
        ItemInOwnGroup(skills, CategoryKey, s);
      }
    }
  }

  /** A skill without a category is listed under "Other" whenever the grouping succeeds. */
  lemma UncategorisedUnderOther(skills: seq<Json>, s: Json)
    requires s in skills && !Truthy(Prop(s, "category"))
    ensures GroupSkills(skills).Some? ==>
              exists i | 0 <= i < |GroupSkills(skills).value| ::
                GroupSkills(skills).value[i].0 == "Other" && s in GroupSkills(skills).value[i].1
  {
    if GroupSkills(skills).Some? {
      var g := GroupSkills(skills).value;
      assert g == GroupBy(skills, CategoryKey);
      ItemInOwnGroup(skills, CategoryKey, s);
    }
  }

  /**
   * The rendered section after loading: the stored list (see `StoredList`) grouped by
   * category; `None` when either `skills.reduce` on a non-array or the grouping throws.
   */
  function Render(loaded: Option<Json>): (g: Option<Groups<Json>>)
    ensures StoredList(loaded).None? ==> g.None?
    ensures StoredList(loaded).Some? ==> g == GroupSkills(StoredList(loaded).value)
    ensures loaded.Some? && !Nullish(loaded.value) && !Prop(loaded.value, "data").JArr? ==> g.None?
  {
    match StoredList(loaded)
    case None => None
    case Some(skills) => GroupSkills(skills)
  }

  /**
   * With no active skill the list endpoint answers `"data": null` (see `Skills.ListSkills`),
   * and the section's render throws.
   */
  lemma EmptyTableCrashes()
    ensures Render(Some(JObj(map["success" := JBool(true), "data" := JNull, "count" := JNum(0)]))).None?
  {
  }
}
