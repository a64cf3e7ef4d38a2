/**
 * The sitemap's URL list: four static pages, then the blog post pages or the project pages.
 * Only the URLs are modelled; modification dates, change frequencies and priorities are not.
 *
 * A response is `None` when the fetch raised, the status was not ok, or the body was not
 * JSON; `Some(body)` is the decoded body of an ok response.
 */
module Sitemap {
  import opened Wrappers
  import opened Js

  /** The four static pages, in order. */
  function Static(base: string): (r: seq<string>)
    ensures |r| == 4 && r[0] == base
  {
    [base, base + "/cv", base + "/blog", base + "/contact"]
  }

  /** `${baseUrl}/blog/${post.slug}` for every post. */
  function BlogUrls(base: string, posts: seq<Json>): (r: seq<string>)
    ensures |r| == |posts|
    ensures forall i | 0 <= i < |posts| :: r[i] == base + "/blog/" + JsString(Prop(posts[i], "slug"))
  {
    seq(|posts|, i requires 0 <= i < |posts| => base + "/blog/" + JsString(Prop(posts[i], "slug")))
  }

  /** The slug a project page is published under: `item.project?.slug || item.slug`. */
  function ProjectSlug(item: Json): (slug: Json)
    ensures Truthy(Prop(Prop(item, "project"), "slug")) ==> slug == Prop(Prop(item, "project"), "slug")
    ensures !Truthy(Prop(Prop(item, "project"), "slug")) ==> slug == Prop(item, "slug")
  {
    Or(Prop(Prop(item, "project"), "slug"), Prop(item, "slug"))
  }

  /** `${baseUrl}/projects/${slug}` for every project item. */
  function ProjectUrls(base: string, items: seq<Json>): (r: seq<string>)
    ensures |r| == |items|
    ensures forall i | 0 <= i < |items| :: r[i] == base + "/projects/" + JsString(ProjectSlug(items[i]))
  {
    seq(|items|, i requires 0 <= i < |items| => base + "/projects/" + JsString(ProjectSlug(items[i])))
  }

  /** Whether a response yields a URL list: it arrived ok and its list maps without raising. */
  predicate Usable(resp: Option<Json>) {
    resp.Some? && Listable(resp.value)
  }

  /**
   * The function as written: a usable blog response returns at once with the blog pages,
   * so the project fetch is never reached; otherwise a usable project response gives the
   * project pages; otherwise only the static pages.
   */
  function SitemapAsWritten(base: string, blog: Option<Json>, projects: Option<Json>): (r: seq<string>)
    ensures |r| >= 4 && r[..4] == Static(base)
    ensures Usable(blog) ==> r == Static(base) + BlogUrls(base, ListOf(blog.value))
    ensures !Usable(blog) && Usable(projects) ==> r == Static(base) + ProjectUrls(base, ListOf(projects.value))
    ensures !Usable(blog) && !Usable(projects) ==> r == Static(base)
  {
    if Usable(blog) then Static(base) + BlogUrls(base, ListOf(blog.value))
    else if Usable(projects) then Static(base) + ProjectUrls(base, ListOf(projects.value))
    else Static(base)
  }

  /** Whether a URL is a project page of the site at `base`. */
  predicate IsProjectUrl(base: string, u: string) {
    base + "/projects/" <= u
  }

  /** A static page or a blog page is never a project page. */
  lemma NotProjectUrl(base: string, u: string)
    requires u in Static(base) || (base + "/blog/" <= u)
    ensures !IsProjectUrl(base, u)
  {
    var n := |base|;
    if u in Static(base) {
      assert |u| < |base + "/projects/"|;
    } else {
      assert u[n + 1] == (base + "/blog/")[n + 1] == 'b';
      assert (base + "/projects/")[n + 1] == 'p';
    }
  }

  /**
   * As written, whenever the blog response is usable the sitemap holds no project page at
   * all, however many projects the project endpoint would have listed.
   */
  lemma AsWrittenDropsProjects(base: string, blog: Option<Json>, projects: Option<Json>)
    requires Usable(blog)
    ensures forall u | u in SitemapAsWritten(base, blog, projects) :: !IsProjectUrl(base, u)
  {
    var posts := ListOf(blog.value);
    forall u | u in SitemapAsWritten(base, blog, projects)
      ensures !IsProjectUrl(base, u)
    {
      if u !in Static(base) {
        var i :| 0 <= i < |BlogUrls(base, posts)| && BlogUrls(base, posts)[i] == u;
        assert u == (base + "/blog/") + JsString(Prop(posts[i], "slug"));
      }
      NotProjectUrl(base, u);
    }
  }

  /** A concrete case: one blog post and one project, and the project page is missing. */
  lemma AsWrittenCounterexample()
    ensures var blog := Some(JObj(map["data" := JArr([JObj(map["slug" := JStr("hello")])])]));
            var projects := Some(JObj(map["data" := JArr([JObj(map["slug" := JStr("site")])])]));
            "https://x.dev/projects/site" !in SitemapAsWritten("https://x.dev", blog, projects)
  {
    var blog := Some(JObj(map["data" := JArr([JObj(map["slug" := JStr("hello")])])]));
    var projects := Some(JObj(map["data" := JArr([JObj(map["slug" := JStr("site")])])]));
    assert Usable(blog);
    AsWrittenDropsProjects("https://x.dev", blog, projects);
    assert IsProjectUrl("https://x.dev", "https://x.dev/projects/site");
  }

  /**
   * The evidently intended sitemap: the static pages, then the blog pages when the blog
   * response is usable, then the project pages when the project response is usable.
   */
  function Sitemap(base: string, blog: Option<Json>, projects: Option<Json>): (r: seq<string>)
    ensures |r| >= 4 && r[..4] == Static(base)
    ensures |r| == 4 + (if Usable(blog) then |ListOf(blog.value)| else 0)
                     + (if Usable(projects) then |ListOf(projects.value)| else 0)
    ensures Usable(blog) ==> forall u | u in BlogUrls(base, ListOf(blog.value)) :: u in r
    ensures Usable(projects) ==> forall u | u in ProjectUrls(base, ListOf(projects.value)) :: u in r
    ensures Usable(blog) ==> r[4..4 + |ListOf(blog.value)|] == BlogUrls(base, ListOf(blog.value))
    ensures Usable(projects) ==>
              r[|r| - |ListOf(projects.value)|..] == ProjectUrls(base, ListOf(projects.value))
  {
    var b := if Usable(blog) then BlogUrls(base, ListOf(blog.value)) else [];
    var p := if Usable(projects) then ProjectUrls(base, ListOf(projects.value)) else [];
    Static(base) + b + p
  }

  /** Where the blog response is unusable, the intended sitemap and the written one agree. */
  lemma SitemapAgreesWithoutBlog(base: string, blog: Option<Json>, projects: Option<Json>)
    requires !Usable(blog)
    ensures Sitemap(base, blog, projects) == SitemapAsWritten(base, blog, projects)
  {
    if !Usable(projects) {
      assert Static(base) + [] + [] == Static(base);
    } else {
      assert Static(base) + [] + ProjectUrls(base, ListOf(projects.value))
          == Static(base) + ProjectUrls(base, ListOf(projects.value));
    }
  }

  /** Where only the blog response is usable, they agree too. */
  lemma SitemapAgreesWithoutProjects(base: string, blog: Option<Json>, projects: Option<Json>)
    requires Usable(blog) && !Usable(projects)
    ensures Sitemap(base, blog, projects) == SitemapAsWritten(base, blog, projects)
  {
    assert Static(base) + BlogUrls(base, ListOf(blog.value)) + []
        == Static(base) + BlogUrls(base, ListOf(blog.value));
  }
}
