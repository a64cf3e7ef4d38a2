/**
 * The admin dashboard's `fetchStats`: the per-collection counts and the module count summed
 * over the degrees of the education response.
 */
module Dashboard {
  import opened Wrappers
  import opened Js

  /** What one degree adds: `degree.modules.length` when `modules` is truthy, otherwise 0. */
  function ModuleLength(degree: Json): (n: int)
    ensures !Truthy(Prop(degree, "modules")) ==> n == 0
    ensures Prop(degree, "modules").JArr? ==> n == |Prop(degree, "modules").items|
  {
    var ms := Prop(degree, "modules");
    if Truthy(ms) then (match Length(ms) case JNum(n) => n case _ => 0) else 0
  }

  /** The `forEach` that adds up the module counts, starting from 0. */
  function ModuleCount(degrees: seq<Json>): int {
    if degrees == [] then 0 else ModuleLength(degrees[0]) + ModuleCount(degrees[1..])
  }

  /** Counting a concatenation adds the counts of its parts. */
  lemma {:induction false} ModuleCountAppend(a: seq<Json>, b: seq<Json>)
    ensures ModuleCount(a + b) == ModuleCount(a) + ModuleCount(b)
  {
    if a == [] {
      assert a + b == b;
    } else {
      assert (a + b)[1..] == a[1..] + b;
      ModuleCountAppend(a[1..], b);
    }
  }

  /** Degrees without a `modules` field contribute nothing. */
  lemma {:induction false} ModuleCountNoModules(degrees: seq<Json>)
    requires forall i | 0 <= i < |degrees| :: Prop(degrees[i], "modules") == JUndef
    ensures ModuleCount(degrees) == 0
  {
    if degrees != [] {
      ModuleCountNoModules(degrees[1..]);
    }
  }

  /** Whether each degree's `modules` is an array or falsy (the shapes the backend sends). */
  predicate WellShaped(degrees: seq<Json>) {
    forall i | 0 <= i < |degrees| :: Prop(degrees[i], "modules").JArr? || !Truthy(Prop(degrees[i], "modules"))
  }

  /** All modules of all degrees, in order: the reference the count is measured against. */
  function AllModules(degrees: seq<Json>): seq<Json> {
    if degrees == [] then [] else ArrayOrEmpty(Prop(degrees[0], "modules")) + AllModules(degrees[1..])
  }

  /** For well-shaped degrees, the module count is the number of modules there are. */
  lemma {:induction false} ModuleCountIsTotal(degrees: seq<Json>)
    requires WellShaped(degrees)
    ensures ModuleCount(degrees) == |AllModules(degrees)|
  {
    if degrees != [] {
      assert WellShaped(degrees[1..]) by {
        forall i | 0 <= i < |degrees[1..]|
          ensures Prop(degrees[1..][i], "modules").JArr? || !Truthy(Prop(degrees[1..][i], "modules"))
        {
          assert degrees[1..][i] == degrees[i + 1];
        }
      }
      ModuleCountIsTotal(degrees[1..]);
    }
  }

  /** The dashboard's four numbers. */
  datatype Stats = Stats(skills: Json, projects: Json, modules: int, education: Json)

  /**
   * `fetchStats` on the three responses' JSON. `None` where the `try` block raises and the
   * stats stay unset: a null response, a truthy education `data` that is not an array, or a
   * null degree in it.
   */
  function FetchStats(skillsData: Json, projectsData: Json, educationData: Json): (r: Option<Stats>)
    ensures r.Some? <==>
              !Nullish(skillsData) && !Nullish(projectsData) && !Nullish(educationData)
              && (Truthy(Prop(educationData, "data")) ==>
                    Prop(educationData, "data").JArr?
                    && forall i | 0 <= i < |Prop(educationData, "data").items| :: !Nullish(Prop(educationData, "data").items[i]))
    ensures r.Some? && !Truthy(Prop(educationData, "data")) ==> r.value.modules == 0
    ensures r.Some? && Prop(educationData, "data").JArr? ==> r.value.modules == ModuleCount(Prop(educationData, "data").items)
    ensures r.Some? ==> r.value.skills == DataCount(skillsData) && r.value.projects == DataCount(projectsData)
                        && r.value.education == DataCount(educationData)
  {
    var data := Prop(educationData, "data");
    if Nullish(skillsData) || Nullish(projectsData) || Nullish(educationData) then None
    else if Truthy(data) && !(data.JArr? && forall i | 0 <= i < |data.items| :: !Nullish(data.items[i])) then None
    else
      var modules := if Truthy(data) then ModuleCount(data.items) else 0;
      Some(Stats(DataCount(skillsData), DataCount(projectsData), modules, DataCount(educationData)))
  }
}
