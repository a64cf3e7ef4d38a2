/**
 * The CV page: the lists it loads, project flattening, the skill groups and the order the
 * categories are shown in (Backend, Frontend, Languages, Tools, then the rest as found).
 */
module Cv {
  import opened Wrappers
  import opened Js
  import opened Grouping
  import opened Collections
  import SkillsSection
  import EducationSection

  /** `{...(item?.project || {}), skills: Array.isArray(item?.skills) ? item.skills : []}`. */
  function FlattenProject(item: Json): (r: Obj)
    ensures r.Keys == Spread(Or(Prop(item, "project"), JObj(map[]))).Keys + {"skills"}
    ensures r["skills"] == JArr(ArrayOrEmpty(Prop(item, "skills")))
    ensures Prop(item, "project").JObj? ==>
              forall k | k in Prop(item, "project").fields && k != "skills" ::
                r[k] == Prop(item, "project").fields[k]
  {
    Spread(Or(Prop(item, "project"), JObj(map[])))["skills" := JArr(ArrayOrEmpty(Prop(item, "skills")))]
  }

  /** The projects the page lists: one flattened project per element of `data`, or []. */
  function FlattenProjects(projectsData: Json): (r: seq<Obj>)
    ensures !Prop(projectsData, "data").JArr? ==> r == []
    ensures Prop(projectsData, "data").JArr? ==> |r| == |Prop(projectsData, "data").items|
    ensures forall i | 0 <= i < |r| :: r[i] == FlattenProject(Prop(projectsData, "data").items[i])
  {
    var xs := ArrayOrEmpty(Prop(projectsData, "data"));
    seq(|xs|, i requires 0 <= i < |xs| => FlattenProject(xs[i]))
  }

  /** A flattened project always carries a skills array, [] when the item's was not an array. */
  lemma FlattenedSkills(projectsData: Json, i: nat)
    requires i < |FlattenProjects(projectsData)|
    ensures var p := FlattenProjects(projectsData)[i];
            var item := Prop(projectsData, "data").items[i];
            "skills" in p && p["skills"].JArr?
            && (!Prop(item, "skills").JArr? ==> p["skills"] == JArr([]))
  {
  }

  /** What the page holds after loading: degrees, skills and projects. */
  datatype CvData = CvData(education: seq<Json>, skills: seq<Json>, projects: seq<Obj>)

  /**
   * The three loads run together: if any fetch or decode raises (`None`), nothing is stored
   * and all three lists stay empty.
   */
  function Load(edu: Option<Json>, skills: Option<Json>, projects: Option<Json>): (r: CvData)
    ensures edu.None? || skills.None? || projects.None? ==> r == CvData([], [], [])
    ensures edu.Some? && skills.Some? && projects.Some? ==>
              r.education == ArrayOrEmpty(Prop(edu.value, "data"))
              && r.skills == ArrayOrEmpty(Prop(skills.value, "data"))
              && r.projects == FlattenProjects(projects.value)
  {
    if edu.None? || skills.None? || projects.None? then CvData([], [], [])
    else CvData(ArrayOrEmpty(Prop(edu.value, "data")), ArrayOrEmpty(Prop(skills.value, "data")),
                FlattenProjects(projects.value))
  }

  /** The degree toggle is the education section's. */
  function ToggleDegree(expanded: Option<string>, id: string): (r: Option<string>)
    ensures expanded == Some(id) ==> r == None
    ensures expanded != Some(id) ==> r == Some(id)
  {
    EducationSection.Toggle(expanded, id)
  }

  // ---------------------------------------------------------------------------------------
  // Category order
  // ---------------------------------------------------------------------------------------

  const CATEGORY_ORDER: seq<string> := ["Backend", "Frontend", "Languages", "Tools"]

  /** `xs.indexOf(x)`: the first position of `x`, or -1. */
  function IndexOf(xs: seq<string>, x: string): (i: int)
    ensures -1 <= i < |xs|
    ensures i == -1 <==> x !in xs
    ensures i >= 0 ==> xs[i] == x && forall j | 0 <= j < i :: xs[j] != x
  {
    if xs == [] then -1
    else if xs[0] == x then 0
    else var j := IndexOf(xs[1..], x); if j == -1 then -1 else j + 1
  }

  /** The sort comparator: listed categories in list order, unlisted ones after them and tied. */
  function Compare(a: string, b: string): int {
    var ia := IndexOf(CATEGORY_ORDER, a);
    var ib := IndexOf(CATEGORY_ORDER, b);
    if ia == -1 && ib == -1 then 0
    else if ia == -1 then 1
    else if ib == -1 then -1
    else ia - ib
  }

  /** The place a category sorts into: its list position, or 4 for any unlisted category. */
  function Rank(c: string): (k: nat)
    ensures k <= 4
    ensures k < 4 <==> c in CATEGORY_ORDER
    ensures k < 4 ==> CATEGORY_ORDER[k] == c
  {
    var i := IndexOf(CATEGORY_ORDER, c);
    if i == -1 then 4 else i
  }

  /**
   * The comparator orders exactly by rank, so it is a consistent total preorder; in
   * particular two unlisted categories compare equal.
   */
  lemma CompareIsRank(a: string, b: string)
    ensures Compare(a, b) < 0 <==> Rank(a) < Rank(b)
    ensures Compare(a, b) == 0 <==> Rank(a) == Rank(b)
    ensures Compare(a, b) > 0 <==> Rank(a) > Rank(b)
  {
  }

  /** The four listed categories come in list order, ahead of everything else. */
  lemma ListedFirst(c: string)
    requires c !in CATEGORY_ORDER
    ensures Compare("Backend", "Frontend") < 0 && Compare("Frontend", "Languages") < 0
    ensures Compare("Languages", "Tools") < 0 && Compare("Tools", c) < 0
  {
  }

  type Entry = (string, seq<Json>)

  function RankIs(k: nat): Entry -> bool {
    (e: Entry) => Rank(e.0) == k
  }

  /** The entries of one rank, in their original order. */
  function Block(g: seq<Entry>, k: nat): seq<Entry> {
    Keep(g, RankIs(k))
  }

  /** The blocks of rank `k` through 4, in rank order. */
  function Blocks(g: seq<Entry>, k: nat): seq<Entry>
    decreases 5 - k
  {
    if k > 4 then [] else Block(g, k) + Blocks(g, k + 1)
  }

  /**
   * The categories as the stable sort with `Compare` leaves them: the entries of rank 0,
   * then rank 1, ..., then the unlisted ones, each block in its original order.
   */
  function SortCategories(g: seq<Entry>): seq<Entry> {
    Blocks(g, 0)
  }

  /** Ordered by the comparator: no entry sorts after a later one. */
  predicate SortedByCompare(s: seq<Entry>) {
    forall i, j | 0 <= i < j < |s| :: Compare(s[i].0, s[j].0) <= 0
  }

  /** Every entry of a block has the block's rank. */
  lemma BlockRanks(g: seq<Entry>, k: nat, i: nat)
    requires i < |Block(g, k)|
    ensures Rank(Block(g, k)[i].0) == k
  {
    assert Block(g, k)[i] in Block(g, k);
  }

  /** A run of rank-`k` entries followed by a sorted run of higher ranks is sorted. */
  lemma SortedJoin(b: seq<Entry>, rest: seq<Entry>, k: nat)
    requires forall i | 0 <= i < |b| :: Rank(b[i].0) == k
    requires forall i | 0 <= i < |rest| :: Rank(rest[i].0) >= k + 1
    requires SortedByCompare(rest)
    ensures SortedByCompare(b + rest)
  {
    var t := b + rest;
    forall i, j | 0 <= i < j < |t|
      ensures Compare(t[i].0, t[j].0) <= 0
    {
      CompareIsRank(t[i].0, t[j].0);
      if j >= |b| {
        assert t[j] == rest[j - |b|];
        if i >= |b| {
          assert t[i] == rest[i - |b|];
        }
      }
    }
  }

  /** The blocks from rank `k` on are ordered by the comparator and hold ranks `k` and above. */
  lemma {:induction false} BlocksSorted(g: seq<Entry>, k: nat)
    ensures SortedByCompare(Blocks(g, k))
    ensures forall i | 0 <= i < |Blocks(g, k)| :: Rank(Blocks(g, k)[i].0) >= k
    decreases 5 - k
  {
    if k <= 4 {
      BlocksSorted(g, k + 1);
      var b, rest := Block(g, k), Blocks(g, k + 1);
      forall i | 0 <= i < |b|
        ensures Rank(b[i].0) == k
      {
        BlockRanks(g, k, i);
      }
      SortedJoin(b, rest, k);
      var t := b + rest;
      assert forall i | 0 <= i < |t| :: t[i] == if i < |b| then b[i] else rest[i - |b|];
    }
  }

  /** The sorted categories are ordered by the comparator. */
  lemma SortSorted(g: seq<Entry>)
    ensures SortedByCompare(SortCategories(g))
  {
    BlocksSorted(g, 0);
  }

  /** The blocks from rank `k` on hold every copy of each entry of rank `k` or above, and nothing else. */
  lemma {:induction false} BlocksCount(g: seq<Entry>, k: nat, x: Entry)
    ensures multiset(Blocks(g, k))[x] == if Rank(x.0) >= k then multiset(g)[x] else 0
    decreases 5 - k
  {
    if k <= 4 {
      BlocksCount(g, k + 1, x);
      KeepMultiset(g, RankIs(k), x);
    }
  }

  /** Sorting neither drops nor duplicates a category entry. */
  lemma SortPermutation(g: seq<Entry>)
    ensures multiset(SortCategories(g)) == multiset(g)
  {
    forall x: Entry
      ensures multiset(SortCategories(g))[x] == multiset(g)[x]
    {
      BlocksCount(g, 0, x);
    }
  }

  /** Filtering a block by its own rank keeps it whole; by another rank empties it. */
  lemma BlockFilter(g: seq<Entry>, j: nat, k: nat)
    ensures Keep(Block(g, j), RankIs(k)) == if j == k then Block(g, j) else []
  {
    forall i | 0 <= i < |Block(g, j)|
      ensures Rank(Block(g, j)[i].0) == j
    {
      BlockRanks(g, j, i);
    }
    if j == k {
      KeepNone(Block(g, j), RankIs(k));
    } else {
      KeepEmpty(Block(g, j), RankIs(k));
    }
  }

  /** Within the blocks from rank `k` on, the entries of rank `j` are exactly block `j`. */
  lemma {:induction false} BlocksStable(g: seq<Entry>, k: nat, j: nat)
    requires j <= 4
    ensures Keep(Blocks(g, k), RankIs(j)) == if k <= j then Block(g, j) else []
    decreases 5 - k
  {
    if k <= 4 {
      BlocksStable(g, k + 1, j);
      KeepAppend(Block(g, k), Blocks(g, k + 1), RankIs(j));
      BlockFilter(g, k, j);
    }
  }

  /** Entries of one rank keep their original relative order: the sort is stable. */
  lemma SortStable(g: seq<Entry>, k: nat)
    requires k <= 4
    ensures Keep(SortCategories(g), RankIs(k)) == Keep(g, RankIs(k))
  {
    BlocksStable(g, 0, k);
  }

  /** The skill counts of the blocks from rank `k` on. */
  function TotalFrom(g: seq<Entry>, k: nat): nat
    decreases 5 - k
  {
    if k > 4 then 0 else TotalSize(Block(g, k)) + TotalFrom(g, k + 1)
  }

  lemma {:induction false} TotalSplit(a: seq<Entry>, b: seq<Entry>)
    ensures TotalSize(a + b) == TotalSize(a) + TotalSize(b)
    decreases |a|
  {
    if a == [] {
      assert a + b == b;
    } else {
      assert (a + b)[0] == a[0];
      assert (a + b)[1..] == a[1..] + b;
      TotalSplit(a[1..], b);
    }
  }

  lemma {:induction false} BlocksTotal(g: seq<Entry>, k: nat)
    ensures TotalSize(Blocks(g, k)) == TotalFrom(g, k)
    decreases 5 - k
  {
    if k <= 4 {
      BlocksTotal(g, k + 1);
      TotalSplit(Block(g, k), Blocks(g, k + 1));
    }
  }

  lemma {:induction false} TotalFromCons(g: seq<Entry>, k: nat)
    requires g != []
    ensures TotalFrom(g, k) == (if Rank(g[0].0) >= k then |g[0].1| else 0) + TotalFrom(g[1..], k)
    decreases 5 - k
  {
    if k <= 4 {
      TotalFromCons(g, k + 1);
      var head: seq<Entry> := if RankIs(k)(g[0]) then [g[0]] else [];
      assert Block(g, k) == head + Block(g[1..], k);
      TotalSplit(head, Block(g[1..], k));
    }
  }

  lemma {:induction false} TotalFromAll(g: seq<Entry>)
    ensures TotalFrom(g, 0) == TotalSize(g)
  {
    if g == [] {
      TotalFromEmpty(0);
    } else {
      TotalFromCons(g, 0);
      TotalFromAll(g[1..]);
    }
  }

  lemma {:induction false} TotalFromEmpty(k: nat)
    ensures TotalFrom([], k) == 0
    decreases 5 - k
  {
    if k <= 4 {
      TotalFromEmpty(k + 1);
    }
  }

  /**
   * The sections the CV shows: the skill groups in category order, every skill kept. `None`
   * where the grouping throws (a null skill, or a category named after an inherited property).
   */
  function SkillSections(skills: seq<Json>): (r: Option<seq<Entry>>)
    ensures r.None? <==> SkillsSection.GroupSkills(skills).None?
    ensures r.Some? ==> multiset(r.value) == multiset(SkillsSection.GroupSkills(skills).value)
    ensures r.Some? ==> SortedByCompare(r.value)
    ensures r.Some? ==> TotalSize(r.value) == |skills|
  {
    match SkillsSection.GroupSkills(skills)
    case None => None
    case Some(g) =>
      SortPermutation(g);
      SortSorted(g);
      BlocksTotal(g, 0);
      TotalFromAll(g);
      Some(SortCategories(g))
  }
}
