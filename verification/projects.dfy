/**
 * The projects handler (backend/internal/handlers/projects.go): creation checks, the update
 * flow with its `skill_ids` side channel, deletion, and image upload checks and naming.
 */
module Projects {
  import opened Wrappers
  import opened Js
  import opened Patch

  /** The `CreateProject` body fields that decide anything; the rest are inserted as given. */
  datatype ProjectInput = ProjectInput(name: string, slug: string, skillIds: seq<string>, rest: map<string, Json>)

  datatype CreateOutcome = CreateRejected(status: int, message: string) | InsertProject(input: ProjectInput)

  /** `CreateProject` up to the INSERT: the name is checked before the slug. */
  function CheckCreateProject(body: Option<ProjectInput>): (r: CreateOutcome)
    ensures body.None? ==> r == CreateRejected(400, "Invalid request body")
    ensures body.Some? && body.value.name == "" ==> r == CreateRejected(400, "name is required")
    ensures body.Some? && body.value.name != "" && body.value.slug == "" ==> r == CreateRejected(400, "slug is required")
    ensures r.InsertProject? <==> body.Some? && body.value.name != "" && body.value.slug != ""
    ensures r.InsertProject? ==> r.input == body.value
  {
    match body
    case None => CreateRejected(400, "Invalid request body")
    case Some(input) =>
      if input.name == "" then CreateRejected(400, "name is required")
      else if input.slug == "" then CreateRejected(400, "slug is required")
      else InsertProject(input)
  }

  /** The string elements of a JSON array, in order; other elements are skipped. */
  function StringElements(items: seq<Json>): (r: seq<string>)
    ensures |r| <= |items|
    ensures forall s | s in r :: JStr(s) in items
    ensures forall s | JStr(s) in items :: s in r
  {
    if items == [] then []
    else (if items[0].JStr? then [items[0].s] else []) + StringElements(items[1..])
  }

  /** Skill ids are inserted in order, and the strings among the given elements survive in order. */
  lemma {:induction false} StringElementsAppend(a: seq<Json>, b: seq<Json>)
    ensures StringElements(a + b) == StringElements(a) + StringElements(b)
    decreases |a|
  {
    if a != [] {
      assert (a + b)[1..] == a[1..] + b;
      StringElementsAppend(a[1..], b);
    } else {
      assert a + b == b;
    }
  }

  /**
   * The `skill_ids` extraction: when the key is present its string elements are taken (none
   * when it is not an array) and the key is removed; otherwise the body is untouched.
   */
  function ExtractSkillIds(updates: map<string, Json>): (r: (seq<string>, map<string, Json>))
    ensures "skill_ids" !in r.1
    ensures r.1 == updates - {"skill_ids"}
    ensures "skill_ids" !in updates ==> r.0 == [] && r.1 == updates
    ensures "skill_ids" in updates && updates["skill_ids"].JArr? ==> r.0 == StringElements(updates["skill_ids"].items)
    ensures "skill_ids" in updates && !updates["skill_ids"].JArr? ==> r.0 == []
  {
    if "skill_ids" in updates then
      var raw := updates["skill_ids"];
      (if raw.JArr? then StringElements(raw.items) else [], updates - {"skill_ids"})
    else
      assert updates - {"skill_ids"} == updates;
      ([], updates)
  }

  /** `Update`'s `allowedFields`. */
  const PROJECT_ALLOWED: Allowlist := map[
    "name" := true, "slug" := true, "short_description" := true,
    "full_description" := true, "status" := true, "start_date" := true,
    "end_date" := true, "github_url" := true, "live_url" := true,
    "featured" := true, "difficulty_level" := true, "image_url" := true,
    "demo_video_url" := true, "display_order" := true]

  /** `skill_ids` is never a column: it is not allowlisted, and it is removed before the loop. */
  lemma SkillIdsNeverAColumn(updates: map<string, Json>, order: seq<string>)
    requires IsIterationOrder(order, ExtractSkillIds(updates).1)
    ensures "skill_ids" !in Kept(order, PROJECT_ALLOWED)
  {
    KeptMembers(order, PROJECT_ALLOWED);
  }

  /**
   * `Update` up to the query: id check, body parse, `skill_ids` extraction, then the shared
   * builder over the remaining keys. `order` is the range order of the remaining map.
   */
  method UpdateProject(id: string, isUuid: string -> bool, body: Option<map<string, Json>>, order: seq<string>)
    returns (r: Handled, skillIds: seq<string>)
    requires body.Some? ==> IsIterationOrder(order, ExtractSkillIds(body.value).1)
    ensures !isUuid(id) ==> r == Reject(400, "Invalid project ID format")
    ensures isUuid(id) && body.None? ==> r == Reject(400, "Invalid request body")
    ensures r.Execute? ==>
              var (ids, rest) := ExtractSkillIds(body.value);
              var cols := Kept(order, PROJECT_ALLOWED);
              && skillIds == ids
              && "skill_ids" !in cols
              && r.query == Head("projects") + Sets(cols, 1) + Tail(|cols| + 1)
              && r.args == Values(cols, rest, (f, v) => v) + [Id(id)]
  {
    if !isUuid(id) {
      return Reject(400, "Invalid project ID format"), [];
    }
    if body.None? {
      return Reject(400, "Invalid request body"), [];
    }
    var rest;
    skillIds, rest := ExtractSkillIds(body.value).0, ExtractSkillIds(body.value).1;
    SkillIdsNeverAColumn(body.value, order);
    var query, args := BuildUpdate("projects", PROJECT_ALLOWED, rest, order, (f, v) => v, id);
    r := Execute(query, args);
  }

  /** The ids that parse as UUIDs, in order: the ones the insert loop does not skip. */
  function ValidIds(ids: seq<string>, isUuid: string -> bool): (r: seq<string>)
    ensures |r| <= |ids|
    ensures forall s | s in r :: s in ids && isUuid(s)
    ensures forall s | s in ids && isUuid(s) :: s in r
  {
    if ids == [] then []
    else (if isUuid(ids[0]) then [ids[0]] else []) + ValidIds(ids[1..], isUuid)
  }

  /** What happens to a project's skill links after a successful update. */
  datatype SkillAction = KeepSkills | ReplaceSkills(inserted: seq<string>)

  /** The existing links are replaced only when the extracted list is non-empty. */
  function SkillUpdate(skillIds: seq<string>, isUuid: string -> bool): (r: SkillAction)
    ensures r.KeepSkills? <==> skillIds == []
    ensures r.ReplaceSkills? ==> r.inserted == ValidIds(skillIds, isUuid)
  {
    if |skillIds| > 0 then ReplaceSkills(ValidIds(skillIds, isUuid)) else KeepSkills
  }

  /** Filtering by a predicate every id satisfies keeps the whole list. */
  lemma {:induction false} AllKept(ids: seq<string>, p: string -> bool)
    requires forall s | s in ids :: p(s)
    ensures ValidIds(ids, p) == ids
  {
    if ids != [] {
      AllKept(ids[1..], p);
    }
  }

  /**
   * A project's skill links after the action. The handler discards the result of the link
   * DELETE and of every INSERT: `deleted` says whether the DELETE took effect, `stored` which
   * INSERTs did (one naming no skill row fails), and a failed one is silently skipped.
   */
  function ApplySkillAction(current: seq<string>, action: SkillAction, deleted: bool,
                            stored: string -> bool): (links: seq<string>)
    ensures action.KeepSkills? ==> links == current
    ensures action.ReplaceSkills? ==>
              forall s :: s in links <==> (!deleted && s in current) || (s in action.inserted && stored(s))
    ensures action.ReplaceSkills? && deleted && (forall s | s in action.inserted :: stored(s)) ==>
              links == action.inserted
  {
    match action
    case KeepSkills => current
    case ReplaceSkills(inserted) =>
      var links := (if deleted then [] else current) + ValidIds(inserted, stored);
      if deleted && forall s | s in inserted :: stored(s) then AllKept(inserted, stored); links else links
  }

  /**
   * The update's effect on the links: when no string id was extracted (the key is absent,
   * not an array, or holds no strings) they are left alone, so an update can never clear
   * them; otherwise they are the valid ids given whose INSERT took effect, plus the old links
   * if the DELETE failed, and exactly the valid ids, in order, when every statement succeeds.
   */
  lemma SkillLinksAfterUpdate(current: seq<string>, updates: map<string, Json>, isUuid: string -> bool,
                              deleted: bool, stored: string -> bool)
    ensures var ids := ExtractSkillIds(updates).0;
            var links := ApplySkillAction(current, SkillUpdate(ids, isUuid), deleted, stored);
            && (ids == [] ==> links == current)
            && (ids != [] ==> forall s :: s in links <==>
                                (!deleted && s in current) || (s in ids && isUuid(s) && stored(s)))
            && (ids != [] && deleted && (forall s :: stored(s)) ==> links == ValidIds(ids, isUuid))
  {
  }

  /**
   * The links `CreateProject` leaves after inserting the project: one INSERT per valid id,
   * whose result is discarded as in the update, so the links are the valid ids whose INSERT
   * took effect.
   */
  function CreatedLinks(skillIds: seq<string>, isUuid: string -> bool, stored: string -> bool): (links: seq<string>)
    ensures forall s :: s in links <==> s in skillIds && isUuid(s) && stored(s)
    ensures (forall s :: stored(s)) ==> links == ValidIds(skillIds, isUuid)
  {
    var valid := ValidIds(skillIds, isUuid);
    if forall s | s in valid :: stored(s) then AllKept(valid, stored); ValidIds(valid, stored) else ValidIds(valid, stored)
  }

  /** The reply to the executed UPDATE, and what happens to the skill links. */
  function UpdateProjectReply(result: RowResult, skillIds: seq<string>, isUuid: string -> bool): (r: (Reply, SkillAction))
    ensures r.0 == UpdateReply(result, true, "Project not found", "Failed to update project", false)
    ensures !result.Row? ==> r.1 == KeepSkills
    ensures result.Row? ==> r.1 == SkillUpdate(skillIds, isUuid)
  {
    (UpdateReply(result, true, "Project not found", "Failed to update project", false),
     if result.Row? then SkillUpdate(skillIds, isUuid) else KeepSkills)
  }

  /** `Delete`: 404 exactly when no row was deleted, 500 when the DELETE fails. */
  function DeleteProject(idValid: bool, rows: Option<nat>): (r: Reply)
    ensures !idValid ==> r.status == 400
    ensures idValid ==> (r.status == 404 <==> rows == Some(0))
    ensures idValid ==> (r.status == 500 <==> rows.None?)
  {
    DeleteReply(idValid, rows, "Invalid project ID format", 500, "Failed to delete project",
                "Project not found", "Project deleted successfully")
  }

  /** 5 MiB, the largest accepted upload. */
  const MAX_UPLOAD: int := 5 * 1024 * 1024

  /** The file extension for an accepted content type; None for every other type. */
  function Extension(contentType: string): (ext: Option<string>)
    ensures ext.Some? <==> contentType in {"image/jpeg", "image/jpg", "image/png", "image/gif", "image/webp"}
    ensures contentType == "image/jpeg" || contentType == "image/jpg" ==> ext == Some(".jpg")
    ensures contentType == "image/png" ==> ext == Some(".png")
    ensures contentType == "image/gif" ==> ext == Some(".gif")
    ensures contentType == "image/webp" ==> ext == Some(".webp")
  {
    if contentType == "image/jpeg" || contentType == "image/jpg" then Some(".jpg")
    else if contentType == "image/png" then Some(".png")
    else if contentType == "image/gif" then Some(".gif")
    else if contentType == "image/webp" then Some(".webp")
    else None
  }

  /** The canonical content type for each extension: `Extension` inverted on its image. */
  function ContentTypeFor(ext: string): Option<string> {
    if ext == ".jpg" then Some("image/jpeg")
    else if ext == ".png" then Some("image/png")
    else if ext == ".gif" then Some("image/gif")
    else if ext == ".webp" then Some("image/webp")
    else None
  }

  lemma ExtensionRoundTrip(contentType: string)
    requires Extension(contentType).Some?
    ensures ContentTypeFor(Extension(contentType).value).Some?
    ensures Extension(ContentTypeFor(Extension(contentType).value).value) == Extension(contentType)
  {
  }

  /** Where uploads are saved, and the URL prefix they are served under. */
  const UPLOAD_DIR: string := "/app/uploads/projects/"
  const PUBLIC_DIR: string := "/uploads/projects/"

  /** The uploaded form file: its size in bytes and its declared Content-Type. */
  datatype UploadedFile = UploadedFile(size: int, contentType: string)

  /** `UploadImage` up to saving the file: a rejection, or where to save it and its public URL. */
  datatype UploadOutcome = UploadRejected(status: int, message: string) | SaveImage(path: string, publicUrl: string)

  /**
   * `UploadImage`'s checks in order: id, project existence, presence of a file, size, type.
   * `fileId` is the random UUID the handler names the file with.
   */
  function CheckUpload(idValid: bool, projectExists: bool, file: Option<UploadedFile>, fileId: string): (r: UploadOutcome)
    ensures !idValid ==> r == UploadRejected(400, "Invalid project ID format")
    ensures idValid && !projectExists ==> r == UploadRejected(404, "Project not found")
    ensures idValid && projectExists && file.None? ==> r == UploadRejected(400, "No file uploaded")
    ensures idValid && projectExists && file.Some? && file.value.size > MAX_UPLOAD ==>
              r == UploadRejected(400, "File size too large (max 5MB)")
    ensures r.SaveImage? <==>
              idValid && projectExists && file.Some? && file.value.size <= MAX_UPLOAD
              && Extension(file.value.contentType).Some?
    ensures r.SaveImage? ==>
              var filename := fileId + Extension(file.value.contentType).value;
              r.publicUrl == PUBLIC_DIR + filename && r.path == UPLOAD_DIR + filename
  {
    if !idValid then UploadRejected(400, "Invalid project ID format")
    else if !projectExists then UploadRejected(404, "Project not found")
    else match file
      case None => UploadRejected(400, "No file uploaded")
      case Some(f) =>
        if f.size > MAX_UPLOAD then UploadRejected(400, "File size too large (max 5MB)")
        else match Extension(f.contentType)
          case None => UploadRejected(400, "Invalid file type (only images allowed)")
          case Some(ext) =>
            var filename := fileId + ext;
            SaveImage(UPLOAD_DIR + filename, PUBLIC_DIR + filename)
  }

  /**
   * The size check is a threshold: a file that is saved would be saved, under the same name,
   * at any smaller size, and one that is refused for its size is refused at any larger size.
   */
  lemma UploadSizeMonotone(idValid: bool, projectExists: bool, f: UploadedFile, fileId: string, size: int)
    ensures size <= f.size && CheckUpload(idValid, projectExists, Some(f), fileId).SaveImage? ==>
              CheckUpload(idValid, projectExists, Some(f.(size := size)), fileId)
              == CheckUpload(idValid, projectExists, Some(f), fileId)
    ensures size >= f.size && CheckUpload(idValid, projectExists, Some(f), fileId) == UploadRejected(400, "File size too large (max 5MB)") ==>
              CheckUpload(idValid, projectExists, Some(f.(size := size)), fileId)
              == UploadRejected(400, "File size too large (max 5MB)")
  {
  }

  /** The reply after the save and the `image_url` UPDATE. */
  function UploadReply(outcome: UploadOutcome, saved: bool, updated: bool): (r: Reply)
    ensures outcome.UploadRejected? ==> r == Reply(outcome.status, ErrorBody(outcome.message))
    ensures outcome.SaveImage? ==> (r.status == 200 <==> saved && updated)
    ensures outcome.SaveImage? && r.status == 200 ==>
              r.body.JObj? && "image_url" in r.body.fields && r.body.fields["image_url"] == JStr(outcome.publicUrl)
  {
    match outcome
    case UploadRejected(status, message) => Reply(status, ErrorBody(message))
    case SaveImage(_, publicUrl) =>
      if !saved then Reply(500, ErrorBody("Failed to save file"))
      else if !updated then Reply(500, ErrorBody("Failed to update project"))
      else Reply(200, JObj(map["success" := JBool(true), "image_url" := JStr(publicUrl),
                               "message" := JStr("Image uploaded successfully")]))
  }
}
