# Portfolio site: request handling and admin editors in Dafny

This project models the logic of a personal portfolio site made of a Go (Fiber) API and a
Next.js frontend. It covers:

- **Backend handlers:**
  - the login checks, the e-mail shape check, the password policy and the bearer-token extraction;
  - blog slug generation and the create defaults;
  - the dynamic `UPDATE … SET` builder shared by the PATCH handlers, and the replies they give;
  - the `skill_ids` handling and image-upload checks of projects;
  - the `detailed_content` wrapping of modules;
  - the skill list grouping;
  - the contact form;
  - the per-IP login rate limiter.
- **Frontend:**
  - the admin collection editors (projects, modules, education, blog, skills), modelled as pure transitions of an `Editor` state given the outcome of the HTTP call;
  - the analytics and dashboard aggregations;
  - the CV category ordering;
  - the public skills and education sections;
  - the sitemap.

The database, JWT and bcrypt, SMTP delivery and the network are not modelled. Their results are parameters:
- a query's rows or affected-row count;
- a token check;
- whether a send succeeded;
- a fetch `Outcome`.

UUID parsing and JSON validity are predicates passed in as parameters.

Go strings that the code slices by byte are `seq<byte>` (`Auth`). JSON values on the frontend
are the `Js.Json` datatype, with `undefined` as a constructor and integers as the only numbers.

## Model

| member | source | states |
|---|---|---|
| Auth.IsValidEmail | backend/internal/handlers/auth.go:178-205 | accepts exactly the addresses of 3 to 254 bytes with a single '@' that is neither first nor last and a '.' somewhere after it; too short or too long, two or more '@', or a missing, leading or trailing '@' each rejects |
| Auth.WellFormedEmailEnds | backend/internal/handlers/auth.go:193-195 | every accepted address contains an '@' and neither starts nor ends with one |
| Auth.CountSplit | backend/internal/handlers/auth.go:184-192 | the '@' count of the address is the sum of the counts of any split of it, which is what lets the scan stop at the first '@' |
| Auth.CountOneUnique | backend/internal/handlers/auth.go:184-195 | a byte that occurs exactly once has only one position, so the '@' the scan finds is the only one |
| Auth.CheckLogin | backend/internal/handlers/auth.go:25-44 | an unparsable body, an empty e-mail or password, and a malformed e-mail are each rejected with 400 and their own message, in that order; the user lookup is reached exactly when the body parses, both fields are non-empty and the e-mail is well formed |
| Auth.ValidatePassword | backend/internal/handlers/auth.go:208-252 | no error exactly when the password has 12 or more bytes and an upper-case letter, a lower-case letter, a digit and one of the listed specials; a short password always reports the length error, and otherwise the first missing class in the order upper, lower, digit, special is reported |
| Auth.ExtractToken | backend/internal/handlers/auth.go:114-117 | with a "Bearer " or "bearer " prefix and at least one more byte the token is the rest of the header; otherwise it is the whole header |
| Auth.ExtractTokenInverse | backend/internal/handlers/auth.go:114-117 | prefixing a non-empty token with either spelling of the scheme and extracting gives the token back |
| Auth.ExtractTokenIsSuffix | backend/internal/handlers/auth.go:114-117 | the extracted token is a suffix of the header, and it is shorter only when the header starts with one of the two scheme prefixes |
| Auth.DecideClaims | backend/internal/handlers/auth.go:127-149 | an invalid token is a 401 "Invalid or expired token", claims that are not a map a 401 "Invalid token claims", and an `is_admin` that is not the boolean true a 403 "Access denied"; past those, a `user_id` or `username` that is not a string panics in its type assertion; the request proceeds exactly when all of these checks pass |
| Auth.VerifyTokenAsWritten | backend/internal/handlers/auth.go:105-153 | the middleware as written: no header is a 401, and any extracted token shorter than 20 bytes panics in the debug print before it is parsed |
| Auth.ShortTokenPanics | backend/internal/handlers/auth.go:118 | for the header "Bearer abc" the written middleware answers 500 where the intended one answers 401 "Invalid or expired token" |
| Auth.VerifyToken | backend/internal/handlers/auth.go:105-153 | the middleware without the panic: no header is a 401, an invalid token is a 401, and the request proceeds exactly when the header is present and the claims of the extracted token admit it |
| Auth.VerifyTokenAgreesOnLongTokens | backend/internal/handlers/auth.go:114-153 | for every token of at least 20 bytes the written and the intended middleware decide the same |
| Blog.GenerateSlug | backend/internal/handlers/blog.go:267-275 | the slug uses only the characters a-z, 0-9 and '-', and it is never longer than the title |
| Blog.AsciiSlugOf | backend/internal/handlers/blog.go:269-273 | for an ASCII character a space becomes '-', a capital becomes its lower-case letter, a-z, 0-9 and '-' are kept and everything else is dropped |
| Blog.GenerateSlugByChar | backend/internal/handlers/blog.go:267-275 | the three-stage pipeline (lower-case, spaces to hyphens, filter) equals the character-by-character translation, so the kept characters keep their order |
| Blog.GenerateSlugAppend | backend/internal/handlers/blog.go:267-275 | the slug of a concatenation is the concatenation of the slugs |
| Blog.StripAppend | backend/internal/handlers/blog.go:272 | the filter distributes over concatenation |
| Blog.SlugFixedPoint | backend/internal/handlers/blog.go:267-275 | a string that is already a slug is its own slug |
| Blog.GenerateSlugIdempotent | backend/internal/handlers/blog.go:267-275 | generating a slug from a slug changes nothing |
| Blog.PrepareBlogPost | backend/internal/handlers/blog.go:125-149 | an unparsable body or an empty title or content is a 400; otherwise the post is inserted with the slug generated from the title only when the given slug is empty, and `published_at` set to now only when the status is "published" and no date was given |
| Blog.PrepareBlogPostIdempotent | backend/internal/handlers/blog.go:141-149 | preparing an already prepared post again, at any later time, inserts the same post |
| Blog.UpdateBlogPost | backend/internal/handlers/blog.go:177-215 | a non-UUID id and an unparsable body are 400s in that order; otherwise the statement sets exactly the allowlisted keys of the body with consecutive placeholders and binds the id last |
| Blog.UpdateBlogPostReply | backend/internal/handlers/blog.go:218-233 | 404 exactly when no row came back; a row is answered 200 wrapped as `{success, data}` |
| Blog.DeleteBlogPost | backend/internal/handlers/blog.go:237-264 | a bad id is a 400; a valid id is a 404 exactly when no row was deleted and a 500 exactly when the DELETE failed |
| Patch.KeptMembers | backend/internal/handlers/blog.go:206-212 | a key becomes a SET column exactly when the body has it and the allowlist maps it to true; keys outside the allowlist never reach the statement |
| Patch.KeptDistinct | backend/internal/handlers/blog.go:206-212 | no column is set twice |
| Patch.Assignment | backend/internal/handlers/blog.go:206-212 | the meaning of a built statement: the column-to-value map, whose columns are exactly the allowlisted keys of the body |
| Patch.AppendSets | backend/internal/handlers/blog.go:206-212 | the `range` loop appends one `, col = $n` fragment and one argument per kept key, numbering from $1, and leaves the position one past the last placeholder |
| Patch.BuildUpdate | backend/internal/handlers/blog.go:195-215 | the statement is the fixed head, one fragment per kept key with placeholders $1..$k in visiting order, and `WHERE id = $(k+1)`; the arguments are the k values followed by the id |
| Patch.BuiltStatementShape | backend/internal/handlers/blog.go:195-215 | the SET columns of any built statement are distinct and exactly the allowlisted keys of the body; there are k+1 arguments, the i-th is that column's assigned value and the id is last |
| Patch.OrderIrrelevant | backend/internal/handlers/blog.go:206-212 | for any two orders in which Go may range over the body, the same set of columns is set, with the same count |
| Patch.SetsSnoc | backend/internal/handlers/blog.go:208 | appending a column appends its fragment, numbered after all earlier ones |
| Patch.HandleUpdate | backend/internal/handlers/blog.go:177-215 | the handler prologue shared by the PATCH handlers: the id is checked before the body, and a statement is built exactly when both pass |
| Patch.UpdateReply | backend/internal/handlers/education.go:309-325 | 200 exactly for a returned row, 404 exactly when there were no rows, 500 exactly on any other error; the 500 body carries the handler's failure message, plus the driver's error text as `details` where the handler sends it |
| Patch.DeleteReply | backend/internal/handlers/blog.go:237-264 | a bad id is a 400, a failed DELETE gets the handler's failure status, zero affected rows is a 404, and any deleted row is a 200 with the handler's message |
| Education.EducationUpdateIgnores | backend/internal/handlers/education.go:188-200 | neither `display_order` (allowlisted as false) nor `slug` (absent) is ever set through the education update |
| Education.ModuleUpdateIgnores | backend/internal/handlers/education.go:276-280 | `display_order` is never set through the module update |
| Education.UpdateEducation | backend/internal/handlers/education.go:166-203 | a non-UUID id is a 400 with the handler's "Inavlid request body" spelling, before the body is parsed; otherwise the shared builder runs over the education allowlist |
| Education.UpdateEducationReply | backend/internal/handlers/education.go:207-220 | 404 exactly when no row came back; a row is answered bare, not wrapped |
| Education.DeleteEducation | backend/internal/handlers/education.go:224-251 | 404 exactly when zero rows were deleted, 500 exactly when the DELETE failed, 400 for a bad id |
| Education.NormaliseDetailed | backend/internal/handlers/education.go:284-297 | a string `detailed_content` that is not valid JSON becomes the JSON text of `{"content": s}`, from which `s` reads back; JSON strings, other fields and non-strings pass through |
| Education.UpdateModule | backend/internal/handlers/education.go:254-306 | a non-UUID id and an unparsable body are 400s in that order; otherwise the builder runs over the module allowlist, with each value rewritten by the `detailed_content` rule |
| Education.UpdateModuleReply | backend/internal/handlers/education.go:309-325 | 404 exactly when no row came back; a row is answered wrapped as `{success, data}`; a failed UPDATE is a 500 with "Failed to update module" and the driver's error text as `details` |
| Education.DeleteModule | backend/internal/handlers/education.go:329-357 | 404 exactly when zero rows were deleted, 500 exactly when the DELETE failed, 400 for a bad id |
| Education.CreateDetailed | backend/internal/handlers/education.go:399-414 | nil stays nil; a non-empty non-JSON string is wrapped as `{"content": s}`, which reads back to `s`; anything else passes through as given |
| Education.DetailedPathsDiffer | backend/internal/handlers/education.go:284-297 | the create and update rules for `detailed_content` differ on exactly one input, the empty string |
| Education.CheckCreateModule | backend/internal/handlers/education.go:373-396 | an unparsable body is a 400 carrying the parser's error text as `details`; then a non-UUID `education_id` and an empty name are rejected in that order; the insert is reached exactly when all three pass, with `detailed_content` normalised |
| Education.CreateModuleReply | backend/internal/handlers/education.go:449-461 | 201 with the wrapped row exactly when the INSERT returned one; any failure is a 500 with "Failed to create module" and the driver's error text as `details` |
| Projects.CheckCreateProject | backend/internal/handlers/projects.go:142-164 | the name is checked before the slug; the insert is reached exactly when both are non-empty, with the body unchanged |
| Projects.StringElements | backend/internal/handlers/projects.go:259-269 | the string elements of the `skill_ids` array, and only those, are kept |
| Projects.StringElementsAppend | backend/internal/handlers/projects.go:259-269 | the kept skill ids keep their relative order |
| Projects.ExtractSkillIds | backend/internal/handlers/projects.go:259-269 | `skill_ids` is removed from the update map and nothing else is; the ids are its string elements when it is an array, and none otherwise |
| Projects.SkillIdsNeverAColumn | backend/internal/handlers/projects.go:259-293 | `skill_ids` never becomes a SET column |
| Projects.UpdateProject | backend/internal/handlers/projects.go:240-293 | a bad id and an unparsable body are 400s; otherwise the statement is the shared builder over the body without `skill_ids`, and the extracted ids are carried to the skill step |
| Projects.ValidIds | backend/internal/handlers/projects.go:224-232 | the inserted skill ids are exactly the given ids that parse as UUIDs; the others are skipped and the rest still inserted |
| Projects.SkillUpdate | backend/internal/handlers/projects.go:309-321 | existing skill links are replaced only when the extracted list is non-empty, and then by its valid ids |
| Projects.ApplySkillAction | backend/internal/handlers/projects.go:309-321 | keeping leaves the links as they were; replacing leaves a link exactly for each inserted id whose INSERT took effect, plus the old links when the ignored DELETE failed; with every statement succeeding the links are exactly the inserted ids |
| Projects.SkillLinksAfterUpdate | backend/internal/handlers/projects.go:259-321 | an update whose body has no `skill_ids`, or an empty or non-array one, leaves the skill links untouched, so the editor cannot clear every skill of a project; otherwise the links are the valid given ids whose INSERT took effect (plus the old ones if the DELETE failed), and exactly the valid ids in order when nothing fails |
| Projects.CreatedLinks | backend/internal/handlers/projects.go:223-232 | a created project is linked exactly to the valid given ids whose INSERT took effect, failures being skipped silently; when every INSERT succeeds, to all the valid ids in order |
| Projects.UpdateProjectReply | backend/internal/handlers/projects.go:297-326 | the row reply is the shared wrapped reply, and the skill links change only after a returned row |
| Projects.DeleteProject | backend/internal/handlers/projects.go:330-357 | 404 exactly when zero rows were deleted, 500 exactly when the DELETE failed, 400 for a bad id |
| Projects.Extension | backend/internal/handlers/projects.go:395-421 | only the five image types are accepted; jpeg and jpg map to ".jpg", and png, gif and webp to their own extensions |
| Projects.ExtensionRoundTrip | backend/internal/handlers/projects.go:411-421 | each produced extension maps back to a content type that produces the same extension |
| Projects.CheckUpload | backend/internal/handlers/projects.go:360-434 | bad id 400, missing project 404, no file 400, over 5 MiB 400, other type 400, in that order; otherwise the file is saved as `<uuid><ext>` and served under "/uploads/projects/" |
| Projects.UploadSizeMonotone | backend/internal/handlers/projects.go:388-392 | the 5 MiB limit is a threshold: a file that would be saved is saved, under the same path and URL, at every smaller size, and one refused as too large is refused at every larger size |
| Projects.UploadReply | backend/internal/handlers/projects.go:427-446 | a rejection is answered with its status; an accepted file is a 200 exactly when both the save and the `image_url` update succeed, and the reply carries the URL |
| Skills.ListQuery | backend/internal/handlers/skills.go:27-42 | the category clause and its one argument are added exactly when the category parameter is non-empty |
| Skills.ListSkills | backend/internal/handlers/skills.go:44-68 | the body lists the rows unchanged with their count, `data` is encoded as `null` exactly when there is no row, and it has a `by_category` bucket exactly for the categories that occur, nil categories under "Other" |
| Skills.ListSkillsBuckets | backend/internal/handlers/skills.go:54-61 | each bucket holds exactly its category's rows in query order, and every row is in its own category's bucket |
| Skills.GetAllSkills | backend/internal/handlers/skills.go:22-68 | a failed query is a 500 with no body data; otherwise the list body with `count` equal to the number of rows |
| Skills.SkillUpdateIgnores | backend/internal/handlers/skills.go:93-106 | `display_order` and keys outside the allowlist are never set |
| Skills.UpdateSkill | backend/internal/handlers/skills.go:72-109 | a non-UUID id and an unparsable body ("Ibvalid request body") are 400s in that order; otherwise the shared builder runs over the skill allowlist |
| Skills.UpdateSkillReply | backend/internal/handlers/skills.go:111-124 | 404 exactly when no row came back; a row is answered bare |
| Skills.DeleteSkill | backend/internal/handlers/skills.go:128-155 | a failed DELETE is a 400, never a 500, and zero affected rows is a 404 |
| Contact.MessageBody | backend/internal/handlers/contact.go:78-97 | the mail text opens with the From header, has the To header and the subject prefixed "Portfolio Contact: ", and contains all four submitted fields |
| Contact.Deliver | backend/internal/handlers/contact.go:48-97 | a valid submission is only acknowledged exactly when host, port, user or password is unset; otherwise one mail is sent from the SMTP user to RECIPIENT_EMAIL, or to the SMTP user when that is unset, through host:port, carrying the composed message |
| Contact.HandleContact | backend/internal/handlers/contact.go:26-97 | an unparsable body, an empty field and an e-mail without '@' are rejected in that order with their own messages; a submission is rejected exactly when one of these holds; otherwise it is acknowledged without SMTP settings and mailed with them |
| Contact.ContactReply | backend/internal/handlers/contact.go:99-114 | a rejection is a 400 with its message, an unsent acknowledgement is a 200, and a sent mail is a 200 exactly when delivery succeeded and a 500 otherwise |
| RateLimit.Handle | backend/internal/middleware/ratelimit.go:43-81 | an unseen IP, or one idle for more than the window, is accepted with its count reset to 1; within the window a count at the limit is refused with the state unchanged; otherwise the request is accepted, counted and timestamped; other IPs are untouched |
| RateLimit.Cleanup | backend/internal/middleware/ratelimit.go:33-38 | the pass forgets exactly the visitors idle for more than the window and keeps the rest unchanged |
| RateLimit.HandlePreservesInv | backend/internal/middleware/ratelimit.go:49-80 | with a limit of at least 1, every tracked count stays between 1 and the limit after a request |
| RateLimit.CleanupPreservesInv | backend/internal/middleware/ratelimit.go:33-38 | the cleanup pass keeps every count between 1 and the limit |
| RateLimit.RunPreservesInv | backend/internal/middleware/ratelimit.go:33-80 | over any interleaving of requests and cleanup passes every tracked count stays between 1 and the limit |
| RateLimit.BlockTimeIrrelevant | backend/internal/middleware/ratelimit.go:24 | changing `BlockTime` changes no decision and no table |
| RateLimit.CleanupInvisible | backend/internal/middleware/ratelimit.go:33-65 | forgetting an idle visitor does not change the decision on that IP's next request |
| RateLimit.BurstBound | backend/internal/middleware/ratelimit.go:59-80 | from a fresh IP, at most the limit of requests are accepted while the requests stay within one window of the first |
| RateLimit.LoginBurstBound | backend/internal/middleware/ratelimit.go:68-80 | the login limiter accepts at most five attempts from a fresh IP within fifteen minutes |
| JsonText.Escape | backend/internal/handlers/education.go:292-293 | the body of the quoted string `json.Marshal` writes, never shorter than the input |
| JsonText.EscapeRoundTrip | backend/internal/handlers/education.go:292-293 | reading the escaped text back as a JSON string literal gives the original string |
| JsonText.EscapeInjective | backend/internal/handlers/education.go:292-293 | different strings are never escaped to the same text |
| JsonText.WrapContentRoundTrip | backend/internal/handlers/education.go:292-293 | the wrapped `{"content": s}` text always reads back to `s`, so no plain-text content is lost |
| Text.NatToStringRoundTrip | backend/internal/handlers/blog.go:208 | a placeholder number rendered in decimal reads back as that number |
| Text.NatToStringInjective | backend/internal/handlers/blog.go:208-214 | different placeholder numbers render differently |
| Js.DataCount | frontend/app/admin/page.tsx:47-50 | `data?.length \|\| 0` is the array's length, and 0 for an empty or missing `data` |
| Js.ListOf | frontend/app/admin/analytics/page.tsx:55 | `data \|\| []` is the array when `data` is one, and empty when `data` is falsy |
| Js.StoredList | frontend/app/components/EducationSection.tsx:38-49 | a failed fetch or a `null` body leaves the initial []; otherwise `data.data` is stored unchecked, and the render can iterate it exactly when it is an array |
| Grouping.GroupByCorrect | frontend/app/admin/skills/page.tsx:49-57 | one group per distinct key in order of first appearance, each holding exactly that key's items in input order |
| Grouping.GroupByTotal | frontend/app/admin/skills/page.tsx:49-57 | the group sizes add up to the number of items |
| Grouping.GroupByKeys | frontend/app/admin/skills/page.tsx:49-57 | the group keys are the distinct keys of the input in first-appearance order |
| Grouping.GroupByBuckets | frontend/app/admin/skills/page.tsx:49-57 | each group holds its key's bucket |
| Grouping.ItemInOwnGroup | frontend/app/components/SkillsSection.tsx:46-53 | every item lies in the group of its own key and in no other |
| Grouping.GroupIntoObject | frontend/app/admin/skills/page.tsx:49-56 | grouping into a plain `{}` throws exactly when some key names an inherited `Object.prototype` property; otherwise the groups have distinct keys, each holding exactly its key's items in input order, with sizes summing to the input length |
| Grouping.AsMapLookup | backend/internal/handlers/skills.go:54-61 | with distinct keys, looking a key up in the map form finds its group |
| Collections.ServerError | frontend/app/admin/projects/page.tsx:165-168 | the thrown message is the server's non-empty `error` text, the fallback when it is falsy, or, for a `null` error body, the message of the `TypeError` that reading `errorData.error` raises |
| Collections.Attempted | frontend/app/admin/projects/page.tsx:146-188 | the `try` block succeeds exactly for an ok response; a non-ok response fails with the server's error, a thrown call with its own message |
| Collections.AttemptedReading | frontend/app/admin/projects/page.tsx:171-172 | a `try` block that reads `result.data` from the ok body succeeds exactly for an ok, non-null body; a `null` body fails with that read's `TypeError`, and every other outcome is the plain `try` block's |
| Collections.Unwrapped | frontend/app/admin/modules/page.tsx:155 | `result.data \|\| result` is `data` when it is truthy, else the whole response |
| Collections.KeepMultiset | frontend/app/admin/education/page.tsx:210 | a filter keeps every copy of a surviving value and no copy of a removed one |
| Collections.KeepAppend | frontend/app/admin/blog/page.tsx:215 | a filter keeps the survivors in their relative order |
| Collections.KeepDisjoint | frontend/app/admin/analytics/page.tsx:72-77 | two filters with disjoint predicates keep at most the whole list between them |
| Collections.MapWhere | frontend/app/admin/education/page.tsx:111 | the map changes exactly the matching elements, by the given function, and keeps the length |
| Collections.MapWhereNone | frontend/app/admin/education/page.tsx:111 | an update that matches nothing leaves the list unchanged |
| Collections.Merge | frontend/app/admin/education/page.tsx:111 | `{...x, ...patch}` has the keys of both, the patch's values winning |
| Collections.MergeIdempotent | frontend/app/admin/education/page.tsx:111 | merging the same response twice equals merging it once |
| Collections.Draft | frontend/app/admin/education/page.tsx:62-72 | the draft has exactly the listed fields, each copied from the entity |
| Collections.RemoveIdExactly | frontend/app/admin/education/page.tsx:210 | a delete removes every copy of an entity with the id and keeps every copy of the others |
| Collections.RemoveIdOrder | frontend/app/admin/blog/page.tsx:215 | the survivors of a delete keep their order |
| Collections.MergeId | frontend/app/admin/education/page.tsx:110-112 | the entities with the id are merged with the response, the others unchanged, the length kept |
| Collections.MergeIdKeepsId | frontend/app/admin/education/page.tsx:110-112 | a merged entity keeps its id unless the response carries a different one |
| Collections.Run | frontend/app/admin/projects/page.tsx:137-189 | an editor action: without a token only "Not authenticated" is set; a refused gate only sets its message; a cancelled confirm changes nothing; a failure sets the error and leaves the list and draft; only a success applies the change |
| Collections.OnlySuccessChangesData | frontend/app/admin/skills/page.tsx:91-110 | whatever the gate or the outcome, an action that did not succeed leaves the list, the drafts and the selections as they were |
| Collections.CancelEditing | frontend/app/admin/projects/page.tsx:108-112 | leaving the edit form clears the editing id, the draft and the selected skills, and nothing else |
| AdminProjects.NormaliseItem | frontend/app/admin/projects/page.tsx:61-64 | every stored item has a truthy `project` and a `skills` array, [] when the response's was not an array |
| AdminProjects.NormaliseProjects | frontend/app/admin/projects/page.tsx:60-65 | a non-array `data` gives []; otherwise one normalised item per element |
| AdminProjects.NormalisedShape | frontend/app/admin/projects/page.tsx:60-65 | every stored item has exactly the `project` and `skills` slots, the latter an array |
| AdminProjects.RemoveProject | frontend/app/admin/projects/page.tsx:283-285 | after a delete no item has the project id, and every item with another id survives |
| AdminProjects.RemoveProjectExactly | frontend/app/admin/projects/page.tsx:283-285 | the delete removes every copy of a matching item and keeps every copy of the others |
| AdminProjects.RemoveProjectOrder | frontend/app/admin/projects/page.tsx:283-285 | the surviving items keep their order |
| AdminProjects.SetImage | frontend/app/admin/projects/page.tsx:330-339 | after an upload the matching projects carry the returned `image_url`, the length kept |
| AdminProjects.SetImageOnlyImage | frontend/app/admin/projects/page.tsx:330-339 | the upload changes only `image_url` of the matching project; other items and other fields are unchanged |
| AdminProjects.ToggleSkill | frontend/app/admin/projects/page.tsx:600-605 | checking appends the id; unchecking removes every copy of it and keeps the others in order |
| AdminProjects.CheckThenUncheck | frontend/app/admin/projects/page.tsx:996-1004 | checking and then unchecking a skill leaves what unchecking alone leaves |
| AdminProjects.UncheckAbsent | frontend/app/admin/projects/page.tsx:996-1004 | unchecking a skill that is not selected changes nothing |
| AdminProjects.CreateGate | frontend/app/admin/projects/page.tsx:197-200 | the create proceeds exactly when both name and slug are truthy, and is otherwise refused with "Name and slug are required" |
| AdminProjects.Payload | frontend/app/admin/projects/page.tsx:159-162 | the request body is the form with `skill_ids` set to the selected ids |
| AdminProjects.SkillIds | frontend/app/admin/projects/page.tsx:89-103 | the selected ids are the ids of the project's skills in order, none when skills is null |
| AdminProjects.StartEditing | frontend/app/admin/projects/page.tsx:87-106 | starting an edit records the project id, drafts exactly its nine editable fields and selects its skill ids |
| AdminProjects.StartEditingNullSkills | frontend/app/admin/projects/page.tsx:89 | a project whose skills are null starts its edit with no skill selected |
| AdminProjects.Save | frontend/app/admin/projects/page.tsx:137-189 | without a token only the error is set; a failure, or an ok `null` body whose `result.data` throws, keeps the editing id, draft and list and sets the error; a success leaves the form and awaits the page's reload, which replaces the list, or on failure keeps the old list and leaves "Failed to load projects" |
| AdminProjects.Create | frontend/app/admin/projects/page.tsx:191-244 | without a token or with a refused gate only the error is set; an ok `null` body fails on `result.data`; a success closes and clears the form and awaits the reload, which replaces the list, or on failure keeps it and leaves "Failed to load projects" |
| AdminProjects.Delete | frontend/app/admin/projects/page.tsx:246-295 | without a token only the error is set; a cancelled confirm changes nothing; only a success removes the project |
| AdminProjects.Upload | frontend/app/admin/projects/page.tsx:297-350 | only a successful upload stores the returned `image_url` on the matching projects; a failure keeps the list and sets the error; an ok `null` body with a listed project throws in the state updater, outside the `try`, and has no resulting state |
| AdminModules.NormaliseDegree | frontend/app/admin/modules/page.tsx:57-60 | every degree keeps its other fields and gets a `modules` array, [] when it had none |
| AdminModules.LoadDegrees | frontend/app/admin/modules/page.tsx:54-60 | a bare array or `data.data` is accepted, a falsy `data` gives []; every loaded degree has a `modules` array |
| AdminModules.LoadKeepsDegrees | frontend/app/admin/modules/page.tsx:54-60 | each loaded degree is the response's degree with only `modules` normalised |
| AdminModules.AddModule | frontend/app/admin/modules/page.tsx:158-167 | a created module is appended to the degree with the matching id only; the other degrees are unchanged |
| AdminModules.AddModuleAppends | frontend/app/admin/modules/page.tsx:158-167 | the target degree grows by one, with the created module last and the earlier modules in place |
| AdminModules.RemoveModule | frontend/app/admin/modules/page.tsx:219-230 | a delete removes the module id from the given degree only |
| AdminModules.RemoveModuleElsewhere | frontend/app/admin/modules/page.tsx:219-230 | a module filed under another degree survives the delete |
| AdminModules.MergeModule | frontend/app/admin/modules/page.tsx:285-292 | a save merges the response into every module with that id, in every degree |
| AdminModules.MergeModuleKeeps | frontend/app/admin/modules/page.tsx:285-292 | the merge keeps each degree's module count and every module with another id |
| AdminModules.CreateGate | frontend/app/admin/modules/page.tsx:114-117 | the create proceeds exactly when the name is truthy, and is otherwise refused with "Module name is required" |
| AdminModules.CreatePayload | frontend/app/admin/modules/page.tsx:126-138 | the POST body has the degree id, the name, `display_order` 0, the coerced optional fields and the credits |
| AdminModules.SavePayload | frontend/app/admin/modules/page.tsx:252-262 | the PATCH body has exactly credits, grade, description and `detailed_content` |
| AdminModules.PayloadCoercion | frontend/app/admin/modules/page.tsx:126-138 | in both payloads a falsy optional field or credits value becomes null and a truthy one is sent as given |
| AdminModules.ZeroCreditsBecomeNull | frontend/app/admin/modules/page.tsx:130-132 | zero credits are sent as null, not 0 |
| AdminModules.StartEditing | frontend/app/admin/modules/page.tsx:71-81 | the edit draft holds exactly credits, grade, description and `detailed_content`, copied from the module |
| AdminModules.Create | frontend/app/admin/modules/page.tsx:108-172 | only a successful create with a non-null body appends the module to its degree and clears the form; a `null` body fails on `result.data` and sets that error |
| AdminModules.Delete | frontend/app/admin/modules/page.tsx:182-240 | only a confirmed, successful delete removes the module from its degree |
| AdminModules.Save | frontend/app/admin/modules/page.tsx:242-306 | only a successful save with a non-null body merges the response into the modules with that id and leaves the form; a `null` body fails on `result.data` and sets that error |
| AdminEducation.CreateGate | frontend/app/admin/education/page.tsx:132-135 | the create proceeds exactly when degree, institution and slug are all truthy |
| AdminEducation.NewFormRefused | frontend/app/admin/education/page.tsx:162-173 | the reset form cannot be submitted unchanged |
| AdminEducation.StartEditing | frontend/app/admin/education/page.tsx:60-75 | starting an edit records the id and copies exactly the nine editable fields |
| AdminEducation.StartThenCancel | frontend/app/admin/education/page.tsx:60-80 | cancelling after starting an edit clears both the editing id and the draft |
| AdminEducation.Save | frontend/app/admin/education/page.tsx:82-124 | only a successful save merges the response into the entries with that id; the others are unchanged |
| AdminEducation.Create | frontend/app/admin/education/page.tsx:126-180 | a successful create resets the form to its initial defaults and awaits the page's reload, which replaces the list, or on failure keeps the old list and leaves "Failed to load education data" |
| AdminEducation.Delete | frontend/app/admin/education/page.tsx:182-219 | only a confirmed, successful delete removes exactly the entries with that id |
| AdminBlog.LoadPosts | frontend/app/admin/blog/page.tsx:46-70 | the posts are `data.data` when it is an array, and [] for a failed fetch or any other response |
| AdminBlog.CancelCreating | frontend/app/admin/blog/page.tsx:90-96 | cancelling closes the form and resets the draft to `{status: "draft", featured: false}`, touching nothing else |
| Collections.RequireFields | frontend/app/admin/blog/page.tsx:148-151 | a create form's gate proceeds exactly when every required field is truthy, and otherwise refuses with the page's message |
| AdminBlog.CreateGate | frontend/app/admin/blog/page.tsx:148-151 | the create proceeds exactly when title and content are truthy |
| AdminBlog.DraftDefaultRefused | frontend/app/admin/blog/page.tsx:84-96 | the reset draft cannot be submitted unchanged |
| AdminBlog.Checked | frontend/app/admin/blog/page.tsx:118-134 | a non-ok response fails with the fixed fallback; an ok response succeeds exactly when it carries `data.data.id`; a `null` body fails with the `TypeError` of reading `data.data`, any other body without an id with "Invalid response from server" |
| AdminBlog.StartEditing | frontend/app/admin/blog/page.tsx:72-75 | the whole post becomes the draft |
| AdminBlog.ReplaceId | frontend/app/admin/blog/page.tsx:127 | the posts with the id are replaced by the response entity; the others and the length are kept |
| AdminBlog.Save | frontend/app/admin/blog/page.tsx:98-140 | the matching posts are replaced only when the response carries an id; otherwise the list is unchanged and the error is "Invalid response from server", or the `TypeError` for a `null` body |
| AdminBlog.Create | frontend/app/admin/blog/page.tsx:142-187 | without a token or with a refused gate only the error is set; a response without an id leaves the list |
| AdminBlog.CreatePrepends | frontend/app/admin/blog/page.tsx:174-178 | a successful create grows the list by one, with the created post first and the old posts after it |
| AdminBlog.Delete | frontend/app/admin/blog/page.tsx:189-223 | only a confirmed, successful delete removes exactly the posts with that id |
| AdminSkills.LoadSkills | frontend/app/admin/skills/page.tsx:43-63 | loading fails, into the `catch`, exactly for a null response, a truthy `data` without `forEach`, a null skill, or a category named after an inherited `Object.prototype` property; otherwise a falsy `data` gives no groups and an array is grouped by `category` |
| AdminSkills.LoadSkillsCorrect | frontend/app/admin/skills/page.tsx:49-57 | when loading succeeds, each skill is under its own category, in fetched order, with distinct keys and sizes summing to the number of skills |
| AdminSkills.MapGroupsKeys | frontend/app/admin/skills/page.tsx:96-104 | rewriting every group never adds, drops or renames a category |
| AdminSkills.UpdateLocal | frontend/app/admin/skills/page.tsx:96-104 | the submitted updates are merged into every skill with the id, in every category; the keys are unchanged |
| AdminSkills.DeleteLocal | frontend/app/admin/skills/page.tsx:201-209 | the id is filtered out of every category and every key is kept, possibly with an empty list |
| AdminSkills.DeleteEverywhere | frontend/app/admin/skills/page.tsx:201-209 | no group holds the deleted id afterwards, and every other skill stays in its group |
| AdminSkills.DigitPrefix | frontend/app/admin/skills/page.tsx:324-327 | the longest run of leading digits, which `parseInt` reads |
| AdminSkills.ParseInt | frontend/app/admin/skills/page.tsx:324-327 | `parseInt` is NaN exactly when no digit follows the optional sign |
| AdminSkills.Proficiency | frontend/app/admin/skills/page.tsx:324-327 | the level is always within 0..100; non-numeric input is 0, in-range input is kept, larger is 100 and negative is 0 |
| AdminSkills.ProficiencyKeepsInRange | frontend/app/admin/skills/page.tsx:446-449 | typing any level from 0 to 100 in decimal keeps exactly that level |
| AdminSkills.CreateGate | frontend/app/admin/skills/page.tsx:122-125 | the create proceeds exactly when name and category are truthy, and is otherwise refused with "Name and category are required" |
| AdminSkills.Update | frontend/app/admin/skills/page.tsx:68-114 | only a successful PATCH merges the submitted updates locally; a failure leaves the groups and sets the error |
| AdminSkills.UpdateIgnoresResponse | frontend/app/admin/skills/page.tsx:96-104 | the local state after a successful update does not depend on the server's answer |
| AdminSkills.Create | frontend/app/admin/skills/page.tsx:116-169 | a successful create resets and closes the form and awaits the page's reload, which replaces the groups, or on failure keeps the old groups and leaves "Failed to load skills" |
| AdminSkills.CreateThenBrokenReload | frontend/app/admin/skills/page.tsx:43-61 | a create followed by a reload whose list holds a null skill keeps the old groups, shows "Failed to load skills", and still resets the form |
| AdminSkills.Delete | frontend/app/admin/skills/page.tsx:171-219 | only a confirmed, successful delete filters the id out of every category |
| Analytics.ViewCount | frontend/app/admin/analytics/page.tsx:59 | a numeric view count is used as is, and a missing one counts 0 |
| Analytics.SumAppend | frontend/app/admin/analytics/page.tsx:62-65 | the view total of a concatenation is the sum of the totals |
| Analytics.SumOfUnviewed | frontend/app/admin/analytics/page.tsx:79-82 | rows without recorded views add nothing to the total |
| Analytics.InsertPermutes | frontend/app/admin/analytics/page.tsx:67 | inserting into the sorted list adds exactly one copy of the row and loses nothing |
| Analytics.InsertSorted | frontend/app/admin/analytics/page.tsx:67 | inserting into a sorted list keeps it sorted by non-increasing views |
| Analytics.SortPermutes | frontend/app/admin/analytics/page.tsx:66-67 | the sort is a permutation of its input |
| Analytics.SortSorted | frontend/app/admin/analytics/page.tsx:66-67 | the sorted rows have non-increasing views |
| Analytics.SortStable | frontend/app/admin/analytics/page.tsx:66-67 | rows with equal views keep their input order, as the stable `Array.prototype.sort` keeps them |
| Analytics.SortKeepsSum | frontend/app/admin/analytics/page.tsx:62-68 | sorting does not change the total views |
| Analytics.MostViewed | frontend/app/admin/analytics/page.tsx:66-68 | the list has five rows, or all rows if fewer, in non-increasing order of views |
| Analytics.MostViewedFromInput | frontend/app/admin/analytics/page.tsx:84-91 | every listed row is an input row, repeated no more often than in the input |
| Analytics.MostViewedBeatsRest | frontend/app/admin/analytics/page.tsx:66-68 | an input row with more views than some listed row is itself listed |
| Analytics.PublishedPlusDrafts | frontend/app/admin/analytics/page.tsx:72-77 | the published and draft counts together never exceed the number of posts |
| Analytics.OtherStatusUncounted | frontend/app/admin/analytics/page.tsx:72-77 | a post whose status is neither "published" nor "draft" is counted in neither |
| Analytics.Average | frontend/app/admin/analytics/page.tsx:229-233 | the average is 0 with no items, and otherwise the integer nearest to total/count, halves rounding up |
| Analytics.AverageExact | frontend/app/admin/analytics/page.tsx:382-396 | a total that is an exact multiple of the count averages to the quotient |
| Analytics.Popular | frontend/app/admin/analytics/page.tsx:371-373 | "Projects" exactly when project views strictly exceed blog views; a tie shows "Blog Posts" |
| Analytics.Compute | frontend/app/admin/analytics/page.tsx:55-112 | the statistics exist exactly when no response is null and both lists map without raising; the totals are the list lengths and view sums, `published` and `drafts` count the posts whose status is exactly "published" and "draft", the two top lists are the five most viewed of the mapped entries, and the skill and education counts default to 0 |
| Analytics.ComputeBounds | frontend/app/admin/analytics/page.tsx:55-112 | published plus drafts never exceeds the post total, each top list has at most five rows in non-increasing order, and each listed row comes from an input item |
| Analytics.EntriesFromInput | frontend/app/admin/analytics/page.tsx:56-60 | every most-viewed row is the row of some input item |
| Dashboard.ModuleLength | frontend/app/admin/page.tsx:40-42 | a degree adds the length of its `modules` array, and nothing when `modules` is falsy |
| Dashboard.ModuleCountAppend | frontend/app/admin/page.tsx:39-43 | the module count of a concatenation is the sum of the counts |
| Dashboard.ModuleCountNoModules | frontend/app/admin/page.tsx:40-42 | degrees without a `modules` field contribute 0 |
| Dashboard.ModuleCountIsTotal | frontend/app/admin/page.tsx:37-44 | for degrees whose modules are arrays or missing, the count is the number of modules there are |
| Dashboard.FetchStats | frontend/app/admin/page.tsx:36-54 | the stats are set exactly when nothing raises; the module count is 0 without `data`, and the collection counts default to 0 |
| Sitemap.Static | frontend/app/sitemap.ts:7-32 | the four static pages, the home page first |
| Sitemap.BlogUrls | frontend/app/sitemap.ts:45-50 | one `base/blog/slug` URL per post, in order |
| Sitemap.ProjectSlug | frontend/app/sitemap.ts:70 | a project URL uses `project.slug`, falling back to the item's own `slug` |
| Sitemap.ProjectUrls | frontend/app/sitemap.ts:69-74 | one `base/projects/slug` URL per project, in order |
| Sitemap.SitemapAsWritten | frontend/app/sitemap.ts:34-82 | as written: the static pages always lead; a usable blog response returns the blog pages at once; otherwise a usable project response gives the project pages; otherwise only the static pages |
| Sitemap.NotProjectUrl | frontend/app/sitemap.ts:7-50 | neither a static page nor a blog page is a project page |
| Sitemap.AsWrittenDropsProjects | frontend/app/sitemap.ts:52 | whenever the blog response is usable, the written sitemap holds no project page |
| Sitemap.AsWrittenCounterexample | frontend/app/sitemap.ts:52-76 | with one post and one project, the project's page is missing from the written sitemap |
| Sitemap.Sitemap | frontend/app/sitemap.ts:7-82 | the intended sitemap: the static pages, then every blog page in order when the blog response is usable, then every project page in order when that response is usable, and nothing else |
| Sitemap.SitemapAgreesWithoutBlog | frontend/app/sitemap.ts:58-82 | without a usable blog response the intended and written sitemaps agree |
| Sitemap.SitemapAgreesWithoutProjects | frontend/app/sitemap.ts:41-52 | when only the blog response is usable they agree too |
| Cv.FlattenProject | frontend/app/cv/page.tsx:68-71 | a flattened project has the project's fields and a `skills` array, [] when the item's was not an array |
| Cv.FlattenProjects | frontend/app/cv/page.tsx:64-73 | a non-array payload gives []; otherwise one flattened project per item |
| Cv.FlattenedSkills | frontend/app/cv/page.tsx:64-73 | every flattened project carries a skills array |
| Cv.Load | frontend/app/cv/page.tsx:56-81 | if any of the three loads raises nothing is stored; otherwise education and skills are their `data` arrays, or [], and projects are flattened |
| Cv.ToggleDegree | frontend/app/cv/page.tsx:84-90 | toggling the expanded degree collapses it and toggling any other expands that one, so at most one degree is open |
| Cv.IndexOf | frontend/app/cv/page.tsx:111-112 | `indexOf` gives the first position of the category in the list, or -1 when it is not listed |
| Cv.Rank | frontend/app/cv/page.tsx:110-118 | a listed category ranks at its list position and every unlisted one ranks 4 |
| Cv.CompareIsRank | frontend/app/cv/page.tsx:110-118 | the comparator's sign is the comparison of the two ranks, so two unlisted categories compare equal |
| Cv.ListedFirst | frontend/app/cv/page.tsx:110-118 | Backend, Frontend, Languages and Tools come in that order, ahead of any unlisted category |
| Cv.SortSorted | frontend/app/cv/page.tsx:110-118 | the sorted categories are ordered by the comparator |
| Cv.SortPermutation | frontend/app/cv/page.tsx:110-118 | sorting neither drops nor duplicates a category |
| Cv.SortStable | frontend/app/cv/page.tsx:113 | categories of equal rank, including all unlisted ones, keep their insertion order |
| Cv.TotalFromAll | frontend/app/cv/page.tsx:103-118 | the skill counts of all rank blocks add up to the total number of grouped skills |
| Cv.SkillSections | frontend/app/cv/page.tsx:103-118 | the CV's sections fail exactly where the grouping throws; otherwise they are the skill groups, permuted into comparator order, with every skill kept |
| SkillsSection.CategoryKey | frontend/app/components/SkillsSection.tsx:47 | the key is the category, or "Other" when it is falsy |
| SkillsSection.GroupSkills | frontend/app/components/SkillsSection.tsx:46-53 | the grouping throws exactly when a skill is null or its key names an inherited `Object.prototype` property; otherwise the group sizes add up to the number of skills |
| SkillsSection.Render | frontend/app/components/SkillsSection.tsx:22-53 | after loading, the section groups the stored list; a `data` that is not an array (such as `null`) makes `skills.reduce` throw, and a failed fetch leaves the empty initial list |
| SkillsSection.EmptyTableCrashes | frontend/app/components/SkillsSection.tsx:26-46 | the reply to an empty skills table, `"data": null`, makes the section's render throw |
| SkillsSection.OrdinaryCategoriesGroup | frontend/app/components/SkillsSection.tsx:46-53 | non-null skills whose keys name no inherited property always group without throwing |
| SkillsSection.ConstructorCategoryThrows | frontend/app/components/SkillsSection.tsx:48-51 | one skill filed under "constructor" makes the whole grouping throw, wherever it stands in the list |
| SkillsSection.GroupSkillsCorrect | frontend/app/components/SkillsSection.tsx:46-53 | when the grouping succeeds, every skill appears in a group, and only in the group of its own key; each group keeps input order |
| SkillsSection.UncategorisedUnderOther | frontend/app/components/SkillsSection.tsx:46-53 | when the grouping succeeds, a skill without a category is listed under "Other" |
| EducationSection.Toggle | frontend/app/components/EducationSection.tsx:52-55 | toggling the expanded id collapses it; toggling any other id expands that one |
| EducationSection.ToggleTwice | frontend/app/components/EducationSection.tsx:52-55 | toggling the same degree twice from any other state collapses it again |
| EducationSection.Cached | frontend/app/components/EducationSection.tsx:58-67 | a successful fetch caches `data.modules`, or [] when it is missing, under the id; a failed one changes nothing; every other entry is kept |
| EducationSection.BeginToggle | frontend/app/components/EducationSection.tsx:51-62 | before the `await`: the expanded id follows the toggle, and a fetch starts exactly when the degree is being expanded without a truthy cache entry, capturing the cache as it is then |
| EducationSection.CompleteAsWritten | frontend/app/components/EducationSection.tsx:63-67 | after the `await`, as written: a failed fetch stores nothing; a successful one replaces the cache with the captured one plus the new entry, dropping entries stored in the meantime |
| EducationSection.Complete | frontend/app/components/EducationSection.tsx:63-67 | the intended continuation: a failed fetch stores nothing; a successful one adds a truthy entry for the degree and keeps every other current entry |
| EducationSection.CompleteAgreesWhenSequential | frontend/app/components/EducationSection.tsx:58-67 | when no other fetch completed since the handler started, the written and the intended continuation give the same state |
| EducationSection.HandleToggle | frontend/app/components/EducationSection.tsx:51-69 | a toggle run to completion: the expanded id follows the toggle, and modules are requested and cached only when no truthy entry exists for the id |
| EducationSection.FetchedOnce | frontend/app/components/EducationSection.tsx:58-64 | with toggles that each finish before the next, after a successful fetch for a degree no later toggle fetches it again |
| EducationSection.CachedStaysCached | frontend/app/components/EducationSection.tsx:51-67 | with the intended continuation a truthy cache entry survives every toggle start and every completion, so a cached degree is never fetched again under any interleaving |
| EducationSection.AsWrittenLosesEntry | frontend/app/components/EducationSection.tsx:64 | as written, expanding "a" and then "b" before "a"'s response arrives loses "a"'s entry although both fetches succeed, so "a" is fetched again |
| EducationSection.OverlapKeepsBoth | frontend/app/components/EducationSection.tsx:64 | with the intended continuation the same interleaving keeps both entries and neither degree is fetched again |
| EducationSection.EmptyTableCrashes | frontend/app/components/EducationSection.tsx:42-95 | a `"data": null` reply, what the list endpoint sends for an empty table, leaves a list `educationData.map` cannot iterate, while `[]` renders as empty |

## Left out

- The database: SQL execution, `RETURNING *` scanning and the visibility filters inside SQL text. Query results, affected-row counts and failures are parameters.
- JWT signing and parsing and bcrypt. A token check is the `Auth.TokenCheck` value the library would report.
- UUID parsing and `json.Unmarshal` validity are oracles passed as `string -> bool`.
- `Login` after its body checks: the user lookup, the admin flag, the password comparison and the token issue.
- SMTP delivery is a parameter (`sent`), and so are `fetch`, `FormData` uploads, `localStorage`, `confirm()` and the `setTimeout` clearing of success banners.
- Loading, saving and deleting flags and success messages are not part of the editor state, and neither is rendering.
- The rate limiter's mutex and the cleanup goroutine: the limiter is sequential, and the cleanup is an event at an integer time.
- Go map iteration order is a parameter, and the builder's properties are proved for every order.
- Floating point:
  - `parseFloat` of credits is the identity on integer credits;
  - `Math.round` is modelled exactly on integers;
  - sitemap priorities, modification dates and change frequencies are not modelled.
- Object key order: groups are ordered by first appearance. A JavaScript object lists integer-like keys first, which is not modelled.
- Js.Prop: reading a property of `null` or `undefined` yields `undefined`, where JavaScript throws a `TypeError`. The places where that throw decides the outcome return `None`, check `Nullish` explicitly or fail with `Js.NullReadMessage`: `AdminModules.LoadDegrees`, `EducationSection.Cached`, `Analytics.Compute`, `Dashboard.FetchStats`, `Sitemap`, `AdminSkills.LoadSkills`, `SkillsSection.GroupSkills`, `Collections.ServerError`, `Collections.AttemptedReading` (used by `AdminProjects.Save`, `AdminProjects.Create`, `AdminModules.Create`, `AdminModules.Save`), `AdminBlog.Checked` and `AdminProjects.Upload`. `AdminBlog.LoadPosts` stores [] for a `null` body just as its `catch` does, and the editors take a failed reload, a throw included, as a `None` parameter. The backend never sends a `null` body.
- Js.NullReadMessage: the `TypeError` text is V8's wording; other engines word it differently.
- AdminProjects.Upload: when the state updater throws during rendering the page is torn down; the model only says that no editor state results.
- Skills.ListSkills: `data` is the list of rows plus the `nullData` flag; with zero rows the nil slice is written as `null`, not `[]`. The admin pages, the dashboard and the CV page read it through `|| []`, `?.` or a truthiness check, but the public skills and education sections store it unchecked and their render throws on an empty table (`SkillsSection.EmptyTableCrashes`, `EducationSection.EmptyTableCrashes`). The education list handler, which has the same nil slice, is not modelled beyond that lemma.
- SkillsSection.GroupSkills: its input is already a list; the crash on a non-array `data` is in `SkillsSection.Render`, outside it.
- Logging: the handlers' `println` and `fmt.Printf` output (auth.go, contact.go, education.go, projects.go) and the pages' `console.error` calls are side effects with no bearing on any reply or state, and are not modelled; the one exception, the slice inside the debug print at auth.go:118, is modelled because it can panic.
- AdminSkills.ParseInt: leading whitespace and `0x` prefixes, which `parseInt` also accepts, are not modelled.
- Analytics.ViewCount: a truthy non-numeric view count reads as 0. JavaScript would concatenate it or produce NaN.
- Dashboard.ModuleLength: a truthy `modules` whose length is not a number adds 0. JavaScript would produce NaN.
- Blog.LowerRune: only the case mappings that can land in [a-z0-9-] are modelled. Every other rune is dropped by the filter whatever it lowers to.
- JsonText.Escape: it writes `\b` and `\f` as short escapes, as `json.Marshal` does from Go 1.22 on; earlier Go versions write `\u0008` and `\u000c`. The repository does not pin a Go version.
- JsonText.Unescape: it refuses `\u` surrogate escapes, which `json.Marshal` never writes for a well-formed string.
- Patch.Field: a key absent from the body would read as null. The builder only looks up keys the body has, so this never happens.
- The modules page's `creatingFor` degree id is reduced to the `creating` flag plus the degree id passed to `AdminModules.Create`.
- Blog listing and lookup by slug, project listing and lookup, and the other GET handlers are SQL with no logic of their own.
- The admin pages' `fetchSkills` for the project form is not modelled.

## Findings

| source | as written | input that shows it | evidently intended | confidence | as-written member | corrected member |
|---|---|---|---|---|---|---|
| backend/internal/handlers/auth.go:118 | the debug print slices `tokenString[:20]` before the token is parsed, which panics for any token shorter than 20 bytes; the recover middleware turns that into a 500 | Authorization header "Bearer abc" | a short or garbage token is rejected with 401 "Invalid or expired token" like any other invalid token | not executed | Auth.VerifyTokenAsWritten, Auth.ShortTokenPanics | Auth.VerifyToken |
| frontend/app/sitemap.ts:52 | a usable blog response returns at once with the static and blog pages, so the project fetch below is never reached | both fetches ok, one post with slug "hello" and one project with slug "site": "https://x.dev/projects/site" is missing | the sitemap lists the static pages, the blog pages and the project pages | not executed | Sitemap.SitemapAsWritten, Sitemap.AsWrittenCounterexample | Sitemap.Sitemap |
| frontend/app/components/EducationSection.tsx:64 | `setModules({ ...modules, [id]: ... })` runs after the `await` and spreads the `modules` captured when the handler started, so an entry stored by another toggle while the fetch was in flight is overwritten | expand degree "a", then degree "b" before "a"'s response arrives; both fetches succeed; afterwards the cache holds only "b" and expanding "a" fetches it again | a functional update of the current cache that keeps every entry stored meanwhile | not executed | EducationSection.CompleteAsWritten, EducationSection.AsWrittenLosesEntry | EducationSection.Complete, EducationSection.CachedStaysCached |
