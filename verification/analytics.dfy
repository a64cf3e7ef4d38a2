/**
 * The analytics page: per-collection counts, view totals, the top-five most-viewed lists
 * (a stable sort by non-increasing views), the published/draft split, the rounded averages
 * and the "most popular content type" choice.
 */
module Analytics {
  import opened Wrappers
  import opened Js
  import opened Collections

  /** One row of a most-viewed list: the displayed name or title, the slug and the views. */
  datatype Ranked = Ranked(title: Json, slug: Json, views: int)

  /** `v || 0` used as a number of views. */
  function ViewCount(v: Json): (n: int)
    ensures v.JNum? ==> n == v.n
    ensures !Truthy(v) ==> n == 0
  {
    match Or(v, JNum(0))
    case JNum(n) => n
    case _ => 0
  }

  /** A project row: `project?.name || name`, `project?.slug || slug`, `project?.view_count || view_count || 0`. */
  function ProjectEntry(item: Json): Ranked {
    var p := Prop(item, "project");
    Ranked(Or(Prop(p, "name"), Prop(item, "name")), Or(Prop(p, "slug"), Prop(item, "slug")),
           ViewCount(Or(Prop(p, "view_count"), Prop(item, "view_count"))))
  }

  /** A post row: its title, its slug and `view_count || 0`. */
  function PostEntry(post: Json): Ranked {
    Ranked(Prop(post, "title"), Prop(post, "slug"), ViewCount(Prop(post, "view_count")))
  }

  /** `xs.map(f)`. */
  function Entries(xs: seq<Json>, f: Json -> Ranked): (r: seq<Ranked>)
    ensures |r| == |xs| && forall i | 0 <= i < |xs| :: r[i] == f(xs[i])
  {
    seq(|xs|, i requires 0 <= i < |xs| => f(xs[i]))
  }

  // ---------------------------------------------------------------------------------------
  // View totals
  // ---------------------------------------------------------------------------------------

  /** The `reduce` that adds up the views, starting from 0. */
  function Sum(xs: seq<Ranked>): int {
    if xs == [] then 0 else xs[0].views + Sum(xs[1..])
  }

  /** The total of a concatenation is the sum of the totals. */
  lemma {:induction false} SumAppend(xs: seq<Ranked>, ys: seq<Ranked>)
    ensures Sum(xs + ys) == Sum(xs) + Sum(ys)
  {
    if xs == [] {
      assert xs + ys == ys;
    } else {
      assert (xs + ys)[1..] == xs[1..] + ys;
      SumAppend(xs[1..], ys);
    }
  }

  /** Rows with no recorded views add nothing: a total of all-zero rows is 0. */
  lemma {:induction false} SumOfUnviewed(xs: seq<Ranked>)
    requires forall i | 0 <= i < |xs| :: xs[i].views == 0
    ensures Sum(xs) == 0
  {
    if xs != [] {
      SumOfUnviewed(xs[1..]);
    }
  }

  // ---------------------------------------------------------------------------------------
  // Most viewed: `.sort((a, b) => b.views - a.views).slice(0, 5)`
  // ---------------------------------------------------------------------------------------

  /** Non-increasing by views. */
  predicate Sorted(s: seq<Ranked>) {
    forall i, j | 0 <= i < j < |s| :: s[i].views >= s[j].views
  }

  /** Places `x` after every row with at least its views, so equal rows keep their order. */
  function Insert(s: seq<Ranked>, x: Ranked): (r: seq<Ranked>)
    ensures |r| == |s| + 1
  {
    if s == [] then [x]
    else if s[0].views >= x.views then [s[0]] + Insert(s[1..], x)
    else [x] + s
  }

  /** Inserting adds exactly one copy of `x` and loses nothing. */
  lemma {:induction false} InsertPermutes(s: seq<Ranked>, x: Ranked)
    ensures multiset(Insert(s, x)) == multiset(s) + multiset{x}
  {
    if s != [] && s[0].views >= x.views {
      InsertPermutes(s[1..], x);
      assert s == [s[0]] + s[1..];
    }
  }

  /** Inserting into a sorted list keeps it sorted. */
  lemma {:induction false} InsertSorted(s: seq<Ranked>, x: Ranked)
    requires Sorted(s)
    ensures Sorted(Insert(s, x))
  {
    if s != [] && s[0].views >= x.views {
      var t := Insert(s[1..], x);
      InsertSorted(s[1..], x);
      InsertPermutes(s[1..], x);
      forall j | 0 <= j < |t|
        ensures s[0].views >= t[j].views
      {
        assert t[j] in multiset(t);
        if t[j] != x {
          assert t[j] in multiset(s[1..]);
        }
      }
      assert Insert(s, x) == [s[0]] + t;
    }
  }

  /** The stable sort `Array.prototype.sort` performs with the comparator `b.views - a.views`. */
  function Sort(xs: seq<Ranked>): (r: seq<Ranked>)
    ensures |r| == |xs|
  {
    if xs == [] then [] else Insert(Sort(xs[..|xs| - 1]), xs[|xs| - 1])
  }

  /** The sort is a permutation of its input. */
  lemma {:induction false} SortPermutes(xs: seq<Ranked>)
    ensures multiset(Sort(xs)) == multiset(xs)
  {
    if xs != [] {
      SortPermutes(xs[..|xs| - 1]);
      InsertPermutes(Sort(xs[..|xs| - 1]), xs[|xs| - 1]);
      assert xs == xs[..|xs| - 1] + [xs[|xs| - 1]];
    }
  }

  /** The sort's result is non-increasing by views. */
  lemma {:induction false} SortSorted(xs: seq<Ranked>)
    ensures Sorted(Sort(xs))
  {
    if xs != [] {
      SortSorted(xs[..|xs| - 1]);
      InsertSorted(Sort(xs[..|xs| - 1]), xs[|xs| - 1]);
    }
  }

  /** Selects the rows with exactly `k` views. */
  function ViewsIs(k: int): Ranked -> bool {
    (e: Ranked) => e.views == k
  }

  /** Filtering a list with a known first element. */
  lemma KeepCons(a: Ranked, t: seq<Ranked>, p: Ranked -> bool)
    ensures Keep([a] + t, p) == (if p(a) then [a] else []) + Keep(t, p)
  {
    assert ([a] + t)[1..] == t;
  }

  /** Inserting before a sorted list of rows with fewer views: none of them has `x`'s count. */
  lemma InsertFront(s: seq<Ranked>, x: Ranked, k: int)
    requires Sorted(s) && s != [] && s[0].views < x.views
    ensures Keep(Insert(s, x), ViewsIs(k)) == Keep(s, ViewsIs(k)) + (if x.views == k then [x] else [])
  {
    var p := ViewsIs(k);
    assert Insert(s, x) == [x] + s;
    KeepCons(x, s, p);
    if x.views == k {
      forall i | 0 <= i < |s|
        ensures !p(s[i])
      {
        assert s[0].views >= s[i].views;
      }
      KeepEmpty(s, p);
    }
  }

  /** The tail of a sorted list is sorted. */
  lemma SortedTail(s: seq<Ranked>)
    requires Sorted(s) && s != []
    ensures Sorted(s[1..])
  {
    forall i, j | 0 <= i < j < |s| - 1
      ensures s[1..][i].views >= s[1..][j].views
    {
      assert s[1..][i] == s[i + 1] && s[1..][j] == s[j + 1];
    }
  }

  /** Filtering a non-empty list: its head's contribution, then the filtered tail. */
  lemma KeepHead(s: seq<Ranked>, p: Ranked -> bool)
    requires s != []
    ensures Keep(s, p) == (if p(s[0]) then [s[0]] else []) + Keep(s[1..], p)
  {
    assert s == [s[0]] + s[1..];
    KeepCons(s[0], s[1..], p);
  }

  /** Inserting behind the head: the head's contribution, then the insertion into the tail. */
  lemma InsertBehind(s: seq<Ranked>, x: Ranked, p: Ranked -> bool)
    requires s != [] && s[0].views >= x.views
    ensures Keep(Insert(s, x), p) == (if p(s[0]) then [s[0]] else []) + Keep(Insert(s[1..], x), p)
  {
    assert Insert(s, x) == [s[0]] + Insert(s[1..], x);
    KeepCons(s[0], Insert(s[1..], x), p);
  }

  /** Inserting into a sorted list appends `x` to the rows with its own view count. */
  lemma {:induction false} InsertStable(s: seq<Ranked>, x: Ranked, k: int)
    requires Sorted(s)
    ensures Keep(Insert(s, x), ViewsIs(k)) == Keep(s, ViewsIs(k)) + (if x.views == k then [x] else [])
  {
    var p := ViewsIs(k);
    var e := if x.views == k then [x] else [];
    if s == [] {
      assert Insert(s, x) == [x] + [];
      KeepCons(x, [], p);
    } else if s[0].views >= x.views {
      var h := if p(s[0]) then [s[0]] else [];
      SortedTail(s);
      InsertStable(s[1..], x, k);
      InsertBehind(s, x, p);
      KeepHead(s, p);
      assert h + (Keep(s[1..], p) + e) == (h + Keep(s[1..], p)) + e;
    } else {
      InsertFront(s, x, k);
    }
  }

  /** Rows with equal views appear in the sorted list in their original order. */
  lemma {:induction false} SortStable(xs: seq<Ranked>, k: int)
    ensures Keep(Sort(xs), ViewsIs(k)) == Keep(xs, ViewsIs(k))
  {
    if xs != [] {
      var init, last := xs[..|xs| - 1], xs[|xs| - 1];
      SortStable(init, k);
      SortSorted(init);
      InsertStable(Sort(init), last, k);
      assert Sort(xs) == Insert(Sort(init), last);
      assert xs == init + [last];
      KeepAppend(init, [last], ViewsIs(k));
      assert [last] == [last] + [];
      KeepCons(last, [], ViewsIs(k));
      var e := if last.views == k then [last] else [];
      calc {
        Keep(Sort(xs), ViewsIs(k));
        Keep(Sort(init), ViewsIs(k)) + e;
        Keep(init, ViewsIs(k)) + Keep([last], ViewsIs(k));
        Keep(xs, ViewsIs(k));
      }
    }
  }

  /** Inserting a row adds exactly its views to the total. */
  lemma {:induction false} SumInsert(s: seq<Ranked>, x: Ranked)
    ensures Sum(Insert(s, x)) == Sum(s) + x.views
  {
    if s != [] && s[0].views >= x.views {
      SumInsert(s[1..], x);
    }
  }

  /** Sorting does not change the total views. */
  lemma {:induction false} SortKeepsSum(xs: seq<Ranked>)
    ensures Sum(Sort(xs)) == Sum(xs)
  {
    if xs != [] {
      var init, last := xs[..|xs| - 1], xs[|xs| - 1];
      SortKeepsSum(init);
      SumInsert(Sort(init), last);
      assert xs == init + [last];
      SumAppend(init, [last]);
    }
  }

  const TOP: nat := 5

  /** The most-viewed list: the first five rows of the sorted list, or all of them if fewer. */
  function MostViewed(xs: seq<Ranked>): (r: seq<Ranked>)
    ensures |r| == if |xs| < TOP then |xs| else TOP
    ensures Sorted(r)
  {
    var s := Sort(xs);
    SortSorted(xs);
    s[..if |s| < TOP then |s| else TOP]
  }

  /** Every most-viewed row is an input row, repeated no more often than in the input. */
  lemma MostViewedFromInput(xs: seq<Ranked>)
    ensures multiset(MostViewed(xs)) <= multiset(xs)
    ensures forall e | e in MostViewed(xs) :: e in xs
  {
    var s, r := Sort(xs), MostViewed(xs);
    SortPermutes(xs);
    assert s == r + s[|r|..];
    assert multiset(s) == multiset(r) + multiset(s[|r|..]);
    forall e | e in r
      ensures e in xs
    {
      assert e in multiset(r);
      assert e in multiset(xs);
    }
  }

  /** An input row with more views than some listed row is itself listed. */
  lemma MostViewedBeatsRest(xs: seq<Ranked>)
    ensures var r := MostViewed(xs);
            forall e, i | e in xs && 0 <= i < |r| && e.views > r[i].views :: e in r
  {
    var s, r := Sort(xs), MostViewed(xs);
    SortPermutes(xs);
    SortSorted(xs);
    forall e, i | e in xs && 0 <= i < |r| && e.views > r[i].views
      ensures e in r
    {
      assert e in multiset(xs);
      assert e in multiset(s);
      var j :| 0 <= j < |s| && s[j] == e;
      assert s[i] == r[i];
      assert j < |r|;
      assert r[j] == e;
    }
  }

  // ---------------------------------------------------------------------------------------
  // Blog status counts, averages, the popular type
  // ---------------------------------------------------------------------------------------

  /** Selects the posts whose `status` is exactly `s`. */
  function StatusIs(s: string): Json -> bool {
    (p: Json) => Prop(p, "status") == JStr(s)
  }

  /** The published and draft counts never exceed the number of posts together. */
  lemma PublishedPlusDrafts(posts: seq<Json>)
    ensures |Keep(posts, StatusIs("published"))| + |Keep(posts, StatusIs("draft"))| <= |posts|
  {
    KeepDisjoint(posts, StatusIs("published"), StatusIs("draft"));
  }

  /** A post whose status is neither is counted in neither list. */
  lemma OtherStatusUncounted(posts: seq<Json>, p: Json)
    requires Prop(p, "status") != JStr("published") && Prop(p, "status") != JStr("draft")
    ensures p !in Keep(posts, StatusIs("published")) && p !in Keep(posts, StatusIs("draft"))
  {
  }

  /**
   * `count > 0 ? Math.round(total / count) : 0` on exact integers: the nearest integer to
   * the quotient, halves rounding up.
   */
  function Average(total: int, count: nat): (r: int)
    ensures count == 0 ==> r == 0
    ensures count > 0 ==> 2 * count * r - count <= 2 * total < 2 * count * r + count
  {
    if count == 0 then 0
    else
      var q := (2 * total + count) / (2 * count);
      var m := (2 * total + count) % (2 * count);
      assert 2 * total + count == 2 * count * q + m;
      q
  }

  /** Euclidean division's quotient is the only one with a remainder in `[0, d)`. */
  lemma DivUnique(a: int, d: int, q: int, m: int)
    requires d > 0 && 0 <= m < d && a == d * q + m
    ensures a / d == q
  {
    assert d * (q - a / d) == a % d - m;
    if q - a / d >= 1 {
      assert false;
    } else if q - a / d <= -1 {
      assert false;
    }
  }

  /** An exact multiple averages to its quotient. */
  lemma AverageExact(k: int, count: nat)
    requires count > 0
    ensures Average(count * k, count) == k
  {
    assert 2 * (count * k) + count == (2 * count) * k + count;
    DivUnique(2 * (count * k) + count, 2 * count, k, count);
  }

  /** The "most popular content type" label. */
  function Popular(projectViews: int, blogViews: int): (kind: string)
    ensures kind == "Projects" || kind == "Blog Posts"
    ensures kind == "Projects" <==> projectViews > blogViews
  {
    if projectViews > blogViews then "Projects" else "Blog Posts"
  }

  // ---------------------------------------------------------------------------------------
  // The whole computation
  // ---------------------------------------------------------------------------------------

  datatype Stats = Stats(
    projectsTotal: nat, projectViews: int, topProjects: seq<Ranked>,
    blogTotal: nat, blogViews: int, published: nat, drafts: nat, topPosts: seq<Ranked>,
    skillsTotal: Json, educationTotal: Json)

  /**
   * The statistics computed from the four responses' JSON; `None` where the page's
   * `try` block would raise (a null response, a non-array list, a null element) and show
   * "Failed to load analytics data".
   */
  function Compute(projectsData: Json, blogData: Json, skillsData: Json, educationData: Json): (r: Option<Stats>)
    ensures r.Some? <==> !Nullish(projectsData) && !Nullish(blogData) && !Nullish(skillsData)
                         && !Nullish(educationData) && Listable(projectsData) && Listable(blogData)
    ensures r.Some? ==>
              && r.value.projectsTotal == |ListOf(projectsData)| && r.value.blogTotal == |ListOf(blogData)|
              && r.value.projectViews == Sum(Entries(ListOf(projectsData), ProjectEntry))
              && r.value.blogViews == Sum(Entries(ListOf(blogData), PostEntry))
              && r.value.skillsTotal == DataCount(skillsData) && r.value.educationTotal == DataCount(educationData)
    ensures r.Some? ==>
              && r.value.published == |Keep(ListOf(blogData), StatusIs("published"))|
              && r.value.drafts == |Keep(ListOf(blogData), StatusIs("draft"))|
    ensures r.Some? ==>
              && r.value.topProjects == MostViewed(Entries(ListOf(projectsData), ProjectEntry))
              && r.value.topPosts == MostViewed(Entries(ListOf(blogData), PostEntry))
  {
    if Nullish(projectsData) || Nullish(blogData) || Nullish(skillsData) || Nullish(educationData)
       || !Listable(projectsData) || !Listable(blogData) then None
    else
      var projects, posts := ListOf(projectsData), ListOf(blogData);
      var pe, be := Entries(projects, ProjectEntry), Entries(posts, PostEntry);
      Some(Stats(|projects|, Sum(pe), MostViewed(pe),
                 |posts|, Sum(be), |Keep(posts, StatusIs("published"))|, |Keep(posts, StatusIs("draft"))|,
                 MostViewed(be), DataCount(skillsData), DataCount(educationData)))
  }

  /**
   * The page's invariants: the status counts fit within the post total, each most-viewed list
   * has at most five rows in non-increasing order, and every listed row comes from an input item.
   */
  lemma ComputeBounds(projectsData: Json, blogData: Json, skillsData: Json, educationData: Json)
    requires Compute(projectsData, blogData, skillsData, educationData).Some?
    ensures var st := Compute(projectsData, blogData, skillsData, educationData).value;
            var projects, posts := ListOf(projectsData), ListOf(blogData);
            && st.published + st.drafts <= st.blogTotal
            && |st.topProjects| <= TOP && Sorted(st.topProjects)
            && |st.topPosts| <= TOP && Sorted(st.topPosts)
            && (forall e | e in st.topProjects :: exists i | 0 <= i < |projects| :: e == ProjectEntry(projects[i]))
            && (forall e | e in st.topPosts :: exists i | 0 <= i < |posts| :: e == PostEntry(posts[i]))
  {
    var st := Compute(projectsData, blogData, skillsData, educationData).value;
    var projects, posts := ListOf(projectsData), ListOf(blogData);
    PublishedPlusDrafts(posts);
    EntriesFromInput(projects, ProjectEntry);
    EntriesFromInput(posts, PostEntry);
  }

  /** Every most-viewed row of `xs.map(f)` is `f` of some element of `xs`. */
  lemma EntriesFromInput(xs: seq<Json>, f: Json -> Ranked)
    ensures forall e | e in MostViewed(Entries(xs, f)) :: exists i | 0 <= i < |xs| :: e == f(xs[i])
  {
    var es := Entries(xs, f);
    MostViewedFromInput(es);
    forall e | e in MostViewed(es)
      ensures exists i | 0 <= i < |xs| :: e == f(xs[i])
    {
      var i :| 0 <= i < |es| && es[i] == e;
      assert e == f(xs[i]);
    }
  }
}
