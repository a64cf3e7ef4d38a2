/**
 * The skills handler (backend/internal/handlers/skills.go): the category filter of the list
 * query, the `by_category` grouping, and the update and delete flows.
 */
module Skills {
  import opened Wrappers
  import opened Js
  import opened Patch
  import opened Grouping

  /** The skill fields the handler looks at; the others are carried along unchanged. */
  datatype Skill = Skill(id: string, name: string, category: Option<string>, rest: map<string, Json>)

  /** The bucket a skill is listed under: its category, or "Other" when it has none. */
  function CategoryKey(s: Skill): string {
    match s.category
    case None => "Other"
    case Some(c) => c
  }

  /**
   * The fixed start of the list query: active skills only. The source's raw string spans
   * several lines with a leading newline and tab indentation; here that whitespace is
   * normalised to single spaces, which does not change the SQL.
   */
  const SELECT_ACTIVE: string :=
    "SELECT id, name, category, proficiency_level, years_experience, status, first_learned_date, last_used_date, description, icon, display_order, created_at, updated_at FROM skills WHERE status = 'active'"
  const ORDER_CLAUSE: string := " ORDER BY display_order ASC, proficiency_level DESC"

  /** The list query and its arguments for the `category` query parameter. */
  function ListQuery(category: string): (q: (string, seq<string>))
    ensures category == "" ==> q == (SELECT_ACTIVE + ORDER_CLAUSE, [])
    ensures category != "" ==> q == (SELECT_ACTIVE + " AND category = $1" + ORDER_CLAUSE, [category])
    ensures |q.1| <= 1
  {
    var (query, args) := if category != "" then (SELECT_ACTIVE + " AND category = $1", [category]) else (SELECT_ACTIVE, []);
    (query + ORDER_CLAUSE, args)
  }

  /**
   * The successful list body: the rows, the rows by category, and their count. `nullData`
   * records that `data` is encoded as `null`: sqlx leaves the slice nil when no row matches,
   * and `json.Marshal` writes a nil slice as `null`.
   */
  datatype SkillList = SkillList(data: seq<Skill>, nullData: bool, byCategory: map<string, seq<Skill>>, count: nat)

  function ListSkills(rows: seq<Skill>): (r: SkillList)
    ensures r.data == rows && r.count == |rows|
    ensures r.nullData <==> rows == []
    ensures forall k :: k in r.byCategory <==> exists i | 0 <= i < |rows| :: CategoryKey(rows[i]) == k
  {
    GroupByKeys(rows, CategoryKey);
    SkillList(rows, rows == [], AsMap(GroupBy(rows, CategoryKey)), |rows|)
  }

  /**
   * Every row is listed in exactly one bucket, its category's (or "Other"); each bucket
   * keeps the rows' order; and the bucket sizes add up to `count`.
   */
  lemma ListSkillsBuckets(rows: seq<Skill>)
    ensures var r := ListSkills(rows);
            && (forall k | k in r.byCategory :: r.byCategory[k] == Bucket(rows, CategoryKey, k))
            && (forall s | s in rows :: CategoryKey(s) in r.byCategory && s in r.byCategory[CategoryKey(s)])
            && (forall k, s | k in r.byCategory && s in r.byCategory[k] :: CategoryKey(s) == k)
            && TotalSize(GroupBy(rows, CategoryKey)) == r.count
  {
    var g := GroupBy(rows, CategoryKey);
    GroupByCorrect(rows, CategoryKey);
    var r := ListSkills(rows);
    forall k | k in r.byCategory
      ensures r.byCategory[k] == Bucket(rows, CategoryKey, k)
    {
      var i :| 0 <= i < |g| && GroupKeys(g)[i] == k;
      AsMapLookup(g, i);
    }
    forall s | s in rows
      ensures CategoryKey(s) in r.byCategory && s in r.byCategory[CategoryKey(s)]
    {
      var n :| 0 <= n < |rows| && rows[n] == s;
      BucketContains(rows, CategoryKey, n);
    }
  }

  /** The reply to the list request; `rows` is None when the query failed. */
  function GetAllSkills(rows: Option<seq<Skill>>): (r: (int, Option<SkillList>))
    ensures rows.None? <==> r.0 == 500
    ensures rows.None? ==> r.1.None?
    ensures rows.Some? ==> r.1 == Some(ListSkills(rows.value)) && r.1.value.count == |rows.value|
  {
    match rows
    case None => (500, None)
    case Some(rs) => (200, Some(ListSkills(rs)))
  }

  /** `Update`'s `allowedFields`: `display_order` is listed as false. */
  const SKILL_ALLOWED: Allowlist := map[
    "name" := true, "category" := true, "proficiency_level" := true,
    "years_experience" := true, "status" := true, "first_learned_date" := true,
    "last_used_date" := true, "description" := true, "icon" := true,
    "display_order" := false]

  /** `display_order` and keys outside the allowlist never become columns. */
  lemma SkillUpdateIgnores(updates: map<string, Json>, order: seq<string>, field: string)
    requires IsIterationOrder(order, updates)
    ensures field == "display_order" || field !in SKILL_ALLOWED ==> field !in Kept(order, SKILL_ALLOWED)
  {
    KeptMembers(order, SKILL_ALLOWED);
  }

  /** `Update` up to the query. The bad-body message is spelled as in the handler. */
  method UpdateSkill(id: string, isUuid: string -> bool, body: Option<map<string, Json>>, order: seq<string>)
    returns (r: Handled)
    requires body.Some? ==> IsIterationOrder(order, body.value)
    ensures !isUuid(id) ==> r == Reject(400, "Invalid Skill Id format")
    ensures isUuid(id) && body.None? ==> r == Reject(400, "Ibvalid request body")
    ensures r.Execute? ==>
              var cols := Kept(order, SKILL_ALLOWED);
              && r.query == Head("skills") + Sets(cols, 1) + Tail(|cols| + 1)
              && r.args == Values(cols, body.value, (f, v) => v) + [Id(id)]
  {
    r := HandleUpdate("skills", SKILL_ALLOWED, (f, v) => v, id, isUuid,
                      "Invalid Skill Id format", "Ibvalid request body", body, order);
  }

  /** The reply once the UPDATE has run: the bare row. */
  function UpdateSkillReply(result: RowResult): (r: Reply)
    ensures r.status == 404 <==> result.NoRows?
    ensures result.Row? ==> r == Reply(200, result.row)
    ensures result.QueryFailed? ==> r == Reply(500, ErrorBody("Failed to update skill"))
  {
    UpdateReply(result, false, "Skill not found", "Failed to update skill", false)
  }

  /** `Delete`: a failed DELETE is a 400 here, not a 500; zero affected rows is a 404. */
  function DeleteSkill(idValid: bool, rows: Option<nat>): (r: Reply)
    ensures !idValid ==> r.status == 400
    ensures idValid && rows.None? ==> r.status == 400
    ensures idValid ==> (r.status == 404 <==> rows == Some(0))
    ensures r.status != 500
  {
    DeleteReply(idValid, rows, "Invalid Skill id format", 400, "Failed to delete skill",
                "Skill not found", "Skill deleted successfully")
  }
}
