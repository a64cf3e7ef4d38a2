/**
 * The education handler (backend/internal/handlers/education.go): the degree and module
 * update flows, the `detailed_content` normalisation, `CreateModule`'s checks, and deletion.
 */
module Education {
  import opened Wrappers
  import opened Js
  import opened Patch
  import opened JsonText

  /** `Update`'s `allowedFields`: `display_order` is listed as false and `slug` is absent. */
  const EDUCATION_ALLOWED: Allowlist := map[
    "degree" := true, "institution" := true, "field_of_study" := true,
    "start_date" := true, "end_date" := true, "grade" := true,
    "description" := true, "display_order" := false]

  /** `UpdateModule`'s `allowedFields`. */
  const MODULE_ALLOWED: Allowlist := map[
    "name" := true, "code" := true, "grade" := true, "credits" := true,
    "semester" := true, "description" := true, "detailed_content" := true,
    "display_order" := false]

  /** Neither `display_order` nor `slug` can be changed through `Update`. */
  lemma EducationUpdateIgnores(updates: map<string, Json>, order: seq<string>)
    requires IsIterationOrder(order, updates)
    ensures "display_order" !in Kept(order, EDUCATION_ALLOWED)
    ensures "slug" !in Kept(order, EDUCATION_ALLOWED)
  {
    KeptMembers(order, EDUCATION_ALLOWED);
  }

  /** `display_order` cannot be changed through `UpdateModule`. */
  lemma ModuleUpdateIgnores(updates: map<string, Json>, order: seq<string>)
    requires IsIterationOrder(order, updates)
    ensures "display_order" !in Kept(order, MODULE_ALLOWED)
  {
    KeptMembers(order, MODULE_ALLOWED);
  }

  /** `Update` up to the query. The bad-id message is spelled as in the handler. */
  method UpdateEducation(id: string, isUuid: string -> bool, body: Option<map<string, Json>>, order: seq<string>)
    returns (r: Handled)
    requires body.Some? ==> IsIterationOrder(order, body.value)
    ensures !isUuid(id) ==> r == Reject(400, "Inavlid request body")
    ensures isUuid(id) && body.None? ==> r == Reject(400, "Invalid request body")
    ensures r.Execute? ==>
              var cols := Kept(order, EDUCATION_ALLOWED);
              && r.query == Head("education") + Sets(cols, 1) + Tail(|cols| + 1)
              && r.args == Values(cols, body.value, (f, v) => v) + [Id(id)]
  {
    r := HandleUpdate("education", EDUCATION_ALLOWED, (f, v) => v, id, isUuid,
                      "Inavlid request body", "Invalid request body", body, order);
  }

  /** The reply once the UPDATE has run: the bare row. */
  function UpdateEducationReply(result: RowResult): (r: Reply)
    ensures r.status == 404 <==> result.NoRows?
    ensures result.Row? ==> r == Reply(200, result.row)
    ensures result.QueryFailed? ==> r == Reply(500, ErrorBody("Failed to update education"))
  {
    UpdateReply(result, false, "education record not found", "Failed to update education", false)
  }

  /** `Delete`: 404 exactly when no row was deleted. */
  function DeleteEducation(idValid: bool, rows: Option<nat>): (r: Reply)
    ensures !idValid ==> r.status == 400
    ensures idValid ==> (r.status == 404 <==> rows == Some(0))
    ensures idValid ==> (r.status == 500 <==> rows.None?)
  {
    DeleteReply(idValid, rows, "Invalid education ID format", 500, "Failed to delete education record",
                "Record not found", "Education deleted successfully")
  }

  /**
   * `UpdateModule`'s in-loop rewrite: a `detailed_content` string that is not valid JSON is
   * replaced by the text of `{"content": s}`; anything else passes through. `isJson` stands
   * for `json.Unmarshal` succeeding.
   */
  function NormaliseDetailed(isJson: string -> bool, field: string, value: Json): (v: Json)
    ensures field != "detailed_content" || !value.JStr? || isJson(value.s) ==> v == value
    ensures field == "detailed_content" && value.JStr? && !isJson(value.s) ==>
              v.JStr? && UnwrapContent(v.s) == Some(value.s)
  {
    if field == "detailed_content" && value != JNull && value.JStr? && !isJson(value.s) then
      WrapContentRoundTrip(value.s);
      JStr(WrapContent(value.s))
    else value
  }

  /** `UpdateModule` up to the query: the shared builder with the rewrite applied to each value. */
  method UpdateModule(id: string, isUuid: string -> bool, isJson: string -> bool,
                      body: Option<map<string, Json>>, order: seq<string>)
    returns (r: Handled)
    requires body.Some? ==> IsIterationOrder(order, body.value)
    ensures !isUuid(id) ==> r == Reject(400, "Invalid Module Id")
    ensures isUuid(id) && body.None? ==> r == Reject(400, "Invalid request body")
    ensures r.Execute? ==>
              var cols := Kept(order, MODULE_ALLOWED);
              && r.query == Head("modules") + Sets(cols, 1) + Tail(|cols| + 1)
              && r.args == Values(cols, body.value, (f, v) => NormaliseDetailed(isJson, f, v)) + [Id(id)]
  {
    r := HandleUpdate("modules", MODULE_ALLOWED, (f, v) => NormaliseDetailed(isJson, f, v), id, isUuid,
                      "Invalid Module Id", "Invalid request body", body, order);
  }

  /** The reply once the module UPDATE has run. */
  function UpdateModuleReply(result: RowResult): (r: Reply)
    ensures r.status == 404 <==> result.NoRows?
    ensures result.Row? ==> r == Reply(200, SuccessBody(result.row))
    ensures result.QueryFailed? ==> r == Reply(500, DetailedErrorBody("Failed to update module", result.err))
  {
    UpdateReply(result, true, "Module not found", "Failed to update module", true)
  }

  /** `DeleteModule`: 404 exactly when no row was deleted. */
  function DeleteModule(idValid: bool, rows: Option<nat>): (r: Reply)
    ensures !idValid ==> r.status == 400
    ensures idValid ==> (r.status == 404 <==> rows == Some(0))
    ensures idValid ==> (r.status == 500 <==> rows.None?)
  {
    DeleteReply(idValid, rows, "Invalid Module ID format", 500, "Failed to delete module",
                "Module not found", "Module deleted successfully")
  }

  /**
   * `CreateModule`'s `detailed_content`: nil stays nil, a non-empty string that is not
   * valid JSON is wrapped, and a JSON string, the empty string or a non-string value is
   * stored as given.
   */
  function CreateDetailed(isJson: string -> bool, given: Json): (v: Json)
    ensures given == JNull ==> v == JNull
    ensures given.JStr? && given.s != "" && !isJson(given.s) ==> v.JStr? && UnwrapContent(v.s) == Some(given.s)
    ensures !(given.JStr? && given.s != "" && !isJson(given.s)) ==> v == given
  {
    if given != JNull then
      if given.JStr? && given.s != "" then
        if !isJson(given.s) then
          WrapContentRoundTrip(given.s);
          JStr(WrapContent(given.s))
        else given
      else given
    else JNull
  }

  /**
   * The two paths disagree only on the empty string: an update wraps "" (it is not valid
   * JSON) while a create stores it as given.
   */
  lemma DetailedPathsDiffer(isJson: string -> bool, value: Json)
    requires !isJson("")
    ensures (value == JStr("")) == (NormaliseDetailed(isJson, "detailed_content", value) != CreateDetailed(isJson, value))
  {
    if value == JStr("") {
      assert WrapContent("") != "";
    }
  }

  /** The `CreateModule` body fields that decide anything. */
  datatype ModuleInput = ModuleInput(educationId: string, name: string, detailedContent: Json, rest: map<string, Json>)

  /** The parsed request body, or the parser's error text when `BodyParser` failed. */
  datatype ModuleBody = Unparsable(err: string) | Parsed(input: ModuleInput)

  datatype CreateModuleOutcome = ModuleRejected(reply: Reply) | InsertModule(input: ModuleInput)

  /**
   * `CreateModule` up to the INSERT: an unparsable body is refused with the parser's text as
   * `details`; then the parent id is checked before the name.
   */
  function CheckCreateModule(body: ModuleBody, isUuid: string -> bool, isJson: string -> bool): (r: CreateModuleOutcome)
    ensures body.Unparsable? ==>
              r == ModuleRejected(Reply(400, DetailedErrorBody("Invalid request body", body.err)))
    ensures body.Parsed? && !isUuid(body.input.educationId) ==>
              r == ModuleRejected(Reply(400, ErrorBody("Invalid education_id format")))
    ensures body.Parsed? && isUuid(body.input.educationId) && body.input.name == "" ==>
              r == ModuleRejected(Reply(400, ErrorBody("name is required")))
    ensures r.InsertModule? <==> body.Parsed? && isUuid(body.input.educationId) && body.input.name != ""
    ensures r.InsertModule? ==>
              r.input == body.input.(detailedContent := CreateDetailed(isJson, body.input.detailedContent))
  {
    match body
    case Unparsable(err) => ModuleRejected(Reply(400, DetailedErrorBody("Invalid request body", err)))
    case Parsed(input) =>
      if !isUuid(input.educationId) then ModuleRejected(Reply(400, ErrorBody("Invalid education_id format")))
      else if input.name == "" then ModuleRejected(Reply(400, ErrorBody("name is required")))
      else InsertModule(input.(detailedContent := CreateDetailed(isJson, input.detailedContent)))
  }

  /**
   * The reply once the INSERT has run: 201 with the wrapped row, or 500 with the driver's
   * text as `details`. A row result of "no rows" is a failure here like any other error.
   */
  function CreateModuleReply(result: RowResult): (r: Reply)
    ensures r.status == 201 <==> result.Row?
    ensures result.Row? ==> r.body == SuccessBody(result.row)
    ensures result.QueryFailed? ==> r == Reply(500, DetailedErrorBody("Failed to create module", result.err))
    ensures !result.Row? ==> r.status == 500 && Prop(r.body, "error") == JStr("Failed to create module")
  {
    match result
    case Row(row) => Reply(201, SuccessBody(row))
    case NoRows => Reply(500, DetailedErrorBody("Failed to create module", "sql: no rows in result set"))
    case QueryFailed(err) => Reply(500, DetailedErrorBody("Failed to create module", err))
  }
}
