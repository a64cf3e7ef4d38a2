/**
 * The blog handler (backend/internal/handlers/blog.go): slug generation, the defaults
 * `CreateBlogPost` applies before inserting, and the update and delete flows.
 */
module Blog {
  import opened Wrappers
  import opened Js
  import opened Patch

  /** The characters the slug filter keeps: the complement of the regular expression `[^a-z0-9-]`. */
  predicate IsSlugChar(c: char) {
    'a' <= c <= 'z' || '0' <= c <= '9' || c == '-'
  }

  predicate IsSlug(s: string) {
    forall i | 0 <= i < |s| :: IsSlugChar(s[i])
  }

  /**
   * Go's `unicode.ToLower` as far as the slug can observe it: ASCII capitals are lowered,
   * KELVIN SIGN becomes 'k' and LATIN CAPITAL LETTER I WITH DOT ABOVE becomes 'i'. Every
   * other rune lowers to itself or to a non-ASCII rune, which the filter drops either way,
   * so the model keeps it as it is.
   */
  function LowerRune(c: char): (l: char)
    ensures IsSlugChar(c) ==> l == c
  {
    if 'A' <= c <= 'Z' then (c as int + 32) as char
    else if c == '\U{212A}' then 'k'
    else if c == '\U{0130}' then 'i'
    else c
  }

  /** `strings.ToLower`. */
  function ToLower(t: string): (r: string)
    ensures |r| == |t|
    ensures forall i | 0 <= i < |t| :: r[i] == LowerRune(t[i])
  {
    if t == [] then [] else [LowerRune(t[0])] + ToLower(t[1..])
  }

  /** `strings.ReplaceAll(s, " ", "-")`. */
  function ReplaceSpaces(t: string): (r: string)
    ensures |r| == |t|
    ensures forall i | 0 <= i < |t| :: r[i] == (if t[i] == ' ' then '-' else t[i])
  {
    if t == [] then [] else [if t[0] == ' ' then '-' else t[0]] + ReplaceSpaces(t[1..])
  }

  /** Replacing every match of `[^a-z0-9-]+` by the empty string: dropping every other character. */
  function StripNonSlug(t: string): (r: string)
    ensures |r| <= |t|
    ensures IsSlug(r)
  {
    if t == [] then []
    else (if IsSlugChar(t[0]) then [t[0]] else []) + StripNonSlug(t[1..])
  }

  /** `generateSlug`: lower-case, spaces to hyphens, then drop everything outside [a-z0-9-]. */
  function GenerateSlug(title: string): (slug: string)
    ensures IsSlug(slug)
    ensures |slug| <= |title|
  {
    StripNonSlug(ReplaceSpaces(ToLower(title)))
  }

  /** What a single character of the title contributes to the slug. */
  function SlugOf(c: char): (s: string)
    ensures |s| <= 1 && IsSlug(s)
  {
    if c == ' ' then "-"
    else if IsSlugChar(LowerRune(c)) then [LowerRune(c)]
    else ""
  }

  /** For an ASCII character: a space becomes '-', a capital is lowered, [a-z0-9-] stays, the rest is dropped. */
  lemma AsciiSlugOf(c: char)
    requires c < '\U{0080}'
    ensures c == ' ' ==> SlugOf(c) == "-"
    ensures 'A' <= c <= 'Z' ==> SlugOf(c) == [(c as int + 32) as char]
    ensures IsSlugChar(c) ==> SlugOf(c) == [c]
    ensures c != ' ' && !('A' <= c <= 'Z') && !IsSlugChar(c) ==> SlugOf(c) == ""
  {
  }

  lemma {:induction false} StripAppend(a: string, b: string)
    ensures StripNonSlug(a + b) == StripNonSlug(a) + StripNonSlug(b)
    decreases |a|
  {
    if a != [] {
      assert (a + b)[1..] == a[1..] + b;
      StripAppend(a[1..], b);
    } else {
      assert a + b == b;
    }
  }

  /** The slug of a concatenation is the concatenation of the slugs, so order is preserved. */
  lemma GenerateSlugAppend(a: string, b: string)
    ensures GenerateSlug(a + b) == GenerateSlug(a) + GenerateSlug(b)
  {
    assert ToLower(a + b) == ToLower(a) + ToLower(b);
    assert ReplaceSpaces(ToLower(a) + ToLower(b)) == ReplaceSpaces(ToLower(a)) + ReplaceSpaces(ToLower(b));
    StripAppend(ReplaceSpaces(ToLower(a)), ReplaceSpaces(ToLower(b)));
  }

  /** The three-stage pipeline agrees with the character-by-character reading. */
  lemma {:induction false} GenerateSlugByChar(title: string)
    ensures title != [] ==> GenerateSlug(title) == SlugOf(title[0]) + GenerateSlug(title[1..])
  {
    if title != [] {
      assert title == [title[0]] + title[1..];
      GenerateSlugAppend([title[0]], title[1..]);
      assert ToLower([title[0]]) == [LowerRune(title[0])];
      assert ReplaceSpaces([LowerRune(title[0])]) == [if title[0] == ' ' then '-' else LowerRune(title[0])];
    }
  }

  lemma {:induction false} StripKeepsSlug(s: string)
    requires IsSlug(s)
    ensures StripNonSlug(s) == s
  {
    if s != [] {
      StripKeepsSlug(s[1..]);
    }
  }

  /** A slug is its own slug. */
  lemma SlugFixedPoint(s: string)
    requires IsSlug(s)
    ensures GenerateSlug(s) == s
  {
    assert ToLower(s) == s;
    assert ReplaceSpaces(s) == s;
    StripKeepsSlug(s);
  }

  /** `generateSlug` is idempotent. */
  lemma GenerateSlugIdempotent(title: string)
    ensures GenerateSlug(GenerateSlug(title)) == GenerateSlug(title)
  {
    SlugFixedPoint(GenerateSlug(title));
  }

  /** The fields of a blog post that `CreateBlogPost` inserts; timestamps are integers. */
  datatype BlogPost = BlogPost(
    title: string,
    slug: string,
    excerpt: Option<string>,
    content: string,
    status: string,
    publishedAt: Option<int>,
    readingTimeMinutes: Option<int>,
    featured: bool,
    series: Option<string>,
    seriesOrder: Option<int>,
    coverImageUrl: Option<string>)

  /** What `CreateBlogPost` does before the INSERT: reject the body, or insert this post. */
  datatype CreateOutcome = CreateRejected(status: int, message: string) | Insert(post: BlogPost)

  /**
   * `CreateBlogPost` up to the INSERT: an unparsable body or an empty title or content is
   * a 400; an empty slug is generated from the title; a published post without a date is
   * stamped with `now`. Every other field is inserted as given.
   */
  function PrepareBlogPost(body: Option<BlogPost>, now: int): (r: CreateOutcome)
    ensures body.None? ==> r == CreateRejected(400, "Invalid request body")
    ensures body.Some? && (body.value.title == "" || body.value.content == "") ==>
              r == CreateRejected(400, "Title and content are required")
    ensures r.Insert? <==> body.Some? && body.value.title != "" && body.value.content != ""
    ensures r.Insert? ==>
              var p := body.value;
              && r.post.slug == (if p.slug == "" then GenerateSlug(p.title) else p.slug)
              && IsSlug(r.post.slug) == (p.slug == "" || IsSlug(p.slug))
              && (p.status == "published" && p.publishedAt.None? ==> r.post.publishedAt == Some(now))
              && (p.status != "published" || p.publishedAt.Some? ==> r.post.publishedAt == p.publishedAt)
              && r.post == p.(slug := r.post.slug, publishedAt := r.post.publishedAt)
  {
    match body
    case None => CreateRejected(400, "Invalid request body")
    case Some(p) =>
      if p.title == "" || p.content == "" then CreateRejected(400, "Title and content are required")
      else
        var slug := if p.slug == "" then GenerateSlug(p.title) else p.slug;
        var publishedAt := if p.status == "published" && p.publishedAt.None? then Some(now) else p.publishedAt;
        Insert(p.(slug := slug, publishedAt := publishedAt))
  }

  /** Preparing an already prepared post changes nothing, whatever the clock says. */
  lemma PrepareBlogPostIdempotent(body: Option<BlogPost>, now: int, later: int)
    requires PrepareBlogPost(body, now).Insert?
    ensures var p := PrepareBlogPost(body, now).post;
            PrepareBlogPost(Some(p), later) == Insert(p)
  {
    var p := PrepareBlogPost(body, now).post;
    if body.value.slug == "" {
      SlugFixedPoint(p.slug);
      GenerateSlugIdempotent(body.value.title);
    }
  }

  /** `UpdateBlogPost`'s `allowedFields`. */
  const BLOG_ALLOWED: Allowlist := map[
    "title" := true, "slug" := true, "excerpt" := true, "content" := true,
    "status" := true, "published_at" := true, "reading_time_minutes" := true,
    "featured" := true, "series" := true, "series_order" := true,
    "cover_image_url" := true]

  /** `UpdateBlogPost` up to the query: id check, body parse, then the shared builder. */
  method UpdateBlogPost(id: string, isUuid: string -> bool, body: Option<map<string, Json>>, order: seq<string>)
    returns (r: Handled)
    requires body.Some? ==> IsIterationOrder(order, body.value)
    ensures !isUuid(id) ==> r == Reject(400, "Invalid blog post ID format")
    ensures isUuid(id) && body.None? ==> r == Reject(400, "Invalid request body")
    ensures r.Execute? ==>
              var cols := Kept(order, BLOG_ALLOWED);
              && r.query == Head("blog_posts") + Sets(cols, 1) + Tail(|cols| + 1)
              && r.args == Values(cols, body.value, (f, v) => v) + [Id(id)]
  {
    r := HandleUpdate("blog_posts", BLOG_ALLOWED, (f, v) => v, id, isUuid,
                      "Invalid blog post ID format", "Invalid request body", body, order);
  }

  /** The reply once the UPDATE has run. */
  function UpdateBlogPostReply(result: RowResult): (r: Reply)
    ensures r.status == 404 <==> result.NoRows?
    ensures result.Row? ==> r == Reply(200, SuccessBody(result.row))
    ensures result.QueryFailed? ==> r == Reply(500, ErrorBody("Failed to update blog post"))
  {
    UpdateReply(result, true, "Blog post not found", "Failed to update blog post", false)
  }

  /** `DeleteBlogPost`: 404 exactly when no row was deleted, 500 when the DELETE fails. */
  function DeleteBlogPost(idValid: bool, rows: Option<nat>): (r: Reply)
    ensures !idValid ==> r.status == 400
    ensures idValid ==> (r.status == 404 <==> rows == Some(0))
    ensures idValid ==> (r.status == 500 <==> rows.None?)
  {
    DeleteReply(idValid, rows, "Invalid blog post ID format", 500, "Failed to delete blog post",
                "Blog post not found", "Blog post deleted successfully")
  }
}
