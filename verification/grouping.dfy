/**
 * Grouping a list by a string key, as several parts of the site do: the skills handler's
 * `by_category` map (backend/internal/handlers/skills.go:54-61), the skills admin page, the CV
 * page and the skills section. Groups are kept in order of first appearance, each holding its
 * items in input order.
 */
module Grouping {
  import opened Wrappers
  import opened Text
  import opened Js

  type Groups<T> = seq<(string, seq<T>)>

  function GroupKeys<T>(g: Groups<T>): (ks: seq<string>)
    ensures |ks| == |g|
    ensures forall i | 0 <= i < |g| :: ks[i] == g[i].0
  {
    if g == [] then [] else [g[0].0] + GroupKeys(g[1..])
  }

  predicate DistinctKeys<T>(g: Groups<T>) {
    Distinct(GroupKeys(g))
  }

  /** The items with key `k`, in input order: the reference for each bucket. */
  function Bucket<T>(xs: seq<T>, key: T -> string, k: string): (b: seq<T>)
    ensures |b| <= |xs|
    ensures forall y | y in b :: y in xs && key(y) == k
  {
    if xs == [] then []
    else Bucket(xs[..|xs| - 1], key, k) + (if key(xs[|xs| - 1]) == k then [xs[|xs| - 1]] else [])
  }

  /** The distinct keys of `xs` in order of first appearance. */
  function FirstKeys<T>(xs: seq<T>, key: T -> string): (ks: seq<string>)
    ensures forall k :: k in ks <==> exists i | 0 <= i < |xs| :: key(xs[i]) == k
  {
    if xs == [] then []
    else
      var init := FirstKeys(xs[..|xs| - 1], key);
      var k := key(xs[|xs| - 1]);
      assert forall i | 0 <= i < |xs| - 1 :: xs[..|xs| - 1][i] == xs[i];
      init + (if k in init then [] else [k])
  }

  /** One step of the reduce: append `x` to the group of `k`, opening a new group at the end if needed. */
  function AddTo<T>(g: Groups<T>, k: string, x: T): (r: Groups<T>)
    ensures |r| == |g| || |r| == |g| + 1
  {
    if g == [] then [(k, [x])]
    else if g[0].0 == k then [(k, g[0].1 + [x])] + g[1..]
    else [g[0]] + AddTo(g[1..], k, x)
  }

  /** The grouping loop: each item, in order, is added to its key's group. */
  function GroupBy<T>(xs: seq<T>, key: T -> string): (g: Groups<T>)
  {
    if xs == [] then [] else AddTo(GroupBy(xs[..|xs| - 1], key), key(xs[|xs| - 1]), xs[|xs| - 1])
  }

  /** Total number of items over all groups. */
  function TotalSize<T>(g: Groups<T>): nat {
    if g == [] then 0 else |g[0].1| + TotalSize(g[1..])
  }

  /** The position of the first group with key `k`, or -1. */
  function KeyIndex<T>(g: Groups<T>, k: string): (j: int)
    ensures -1 <= j < |g|
    ensures j >= 0 ==> g[j].0 == k && forall i | 0 <= i < j :: g[i].0 != k
    ensures j == -1 <==> k !in GroupKeys(g)
  {
    if g == [] then -1
    else if g[0].0 == k then 0
    else
      var j := KeyIndex(g[1..], k);
      if j == -1 then -1 else j + 1
  }

  /** Updating past the head of a list is updating its tail. */
  lemma UpdateTail<T>(g: Groups<T>, j: nat, v: (string, seq<T>))
    requires 0 < j < |g|
    ensures g[j := v] == [g[0]] + g[1..][j - 1 := v]
  {
  }

  lemma {:induction false} AddToPresent<T>(g: Groups<T>, k: string, x: T)
    requires KeyIndex(g, k) >= 0
    ensures AddTo(g, k, x) == g[KeyIndex(g, k) := (k, g[KeyIndex(g, k)].1 + [x])]
  {
    var j := KeyIndex(g, k);
    if g[0].0 == k {
      assert j == 0;
      assert AddTo(g, k, x) == [(k, g[0].1 + [x])] + g[1..];
    } else {
      var t := g[1..];
      assert j == KeyIndex(t, k) + 1;
      AddToPresent(t, k, x);
      assert AddTo(g, k, x) == [g[0]] + AddTo(t, k, x);
      assert t[j - 1] == g[j];
      UpdateTail(g, j, (k, g[j].1 + [x]));
    }
  }

  lemma {:induction false} AddToAbsent<T>(g: Groups<T>, k: string, x: T)
    requires KeyIndex(g, k) == -1
    ensures AddTo(g, k, x) == g + [(k, [x])]
  {
    if g != [] {
      AddToAbsent(g[1..], k, x);
      assert g == [g[0]] + g[1..];
    }
  }

  lemma {:induction false} AddToTotal<T>(g: Groups<T>, k: string, x: T)
    ensures TotalSize(AddTo(g, k, x)) == TotalSize(g) + 1
  {
    if g != [] {
      if g[0].0 == k {
        assert AddTo(g, k, x)[1..] == g[1..];
      } else {
        AddToTotal(g[1..], k, x);
        assert AddTo(g, k, x)[1..] == AddTo(g[1..], k, x);
      }
    }
  }

  /** Every item is counted once: the group sizes add up to the input length. */
  lemma {:induction false} GroupByTotal<T>(xs: seq<T>, key: T -> string)
    ensures TotalSize(GroupBy(xs, key)) == |xs|
  {
    if xs != [] {
      GroupByTotal(xs[..|xs| - 1], key);
      AddToTotal(GroupBy(xs[..|xs| - 1], key), key(xs[|xs| - 1]), xs[|xs| - 1]);
    }
  }

  /** Changing a group's items keeps the key list. */
  lemma KeysOfUpdate<T>(g: Groups<T>, j: nat, v: seq<T>)
    requires j < |g|
    ensures GroupKeys(g[j := (g[j].0, v)]) == GroupKeys(g)
  {
  }

  /** Opening a new group at the end appends its key. */
  lemma KeysOfAppend<T>(g: Groups<T>, k: string, v: seq<T>)
    ensures GroupKeys(g + [(k, v)]) == GroupKeys(g) + [k]
  {
  }

  /** One step of the reduce extends the key list exactly as one step of `FirstKeys` does. */
  lemma KeysOfAddTo<T>(g: Groups<T>, k: string, x: T)
    ensures GroupKeys(AddTo(g, k, x)) == GroupKeys(g) + (if k in GroupKeys(g) then [] else [k])
  {
    var j := KeyIndex(g, k);
    if j >= 0 {
      AddToPresent(g, k, x);
      KeysOfUpdate(g, j, g[j].1 + [x]);
    } else {
      AddToAbsent(g, k, x);
      KeysOfAppend(g, k, [x]);
    }
  }

  /** The groups appear in order of their key's first appearance, one per distinct key. */
  lemma {:induction false} GroupByKeys<T>(xs: seq<T>, key: T -> string)
    ensures GroupKeys(GroupBy(xs, key)) == FirstKeys(xs, key)
  {
    if xs != [] {
      var init := xs[..|xs| - 1];
      var x := xs[|xs| - 1];
      GroupByKeys(init, key);
      KeysOfAddTo(GroupBy(init, key), key(x), x);
    }
  }

  lemma {:induction false} FirstKeysDistinct<T>(xs: seq<T>, key: T -> string)
    ensures Distinct(FirstKeys(xs, key))
  {
    if xs != [] {
      FirstKeysDistinct(xs[..|xs| - 1], key);
    }
  }

  /** Each group holds exactly its key's items, in input order. */
  lemma {:induction false} GroupByBuckets<T>(xs: seq<T>, key: T -> string)
    ensures var g := GroupBy(xs, key);
            forall i | 0 <= i < |g| :: g[i].1 == Bucket(xs, key, g[i].0)
  {
    if xs != [] {
      var init := xs[..|xs| - 1];
      var x := xs[|xs| - 1];
      var k := key(x);
      var g0 := GroupBy(init, key);
      var g := GroupBy(xs, key);
      GroupByBuckets(init, key);
      if KeyIndex(g0, k) >= 0 {
        AddToPresent(g0, k, x);
        GroupByKeys(init, key);
        FirstKeysDistinct(init, key);
        var j := KeyIndex(g0, k);
        forall i | 0 <= i < |g|
          ensures g[i].1 == Bucket(xs, key, g[i].0)
        {
          if i != j {
            assert g[i] == g0[i];
            assert GroupKeys(g0)[i] != GroupKeys(g0)[j];
          }
        }
      } else {
        AddToAbsent(g0, k, x);
        GroupByKeys(init, key);
        BucketEmpty(init, key, k);
        forall i | 0 <= i < |g|
          ensures g[i].1 == Bucket(xs, key, g[i].0)
        {
          if i < |g0| {
            assert g[i] == g0[i];
            assert GroupKeys(g0)[i] != k;
          }
        }
      }
    }
  }

  /** The grouping is the reference: one group per distinct key in first-appearance order, holding that key's bucket. */
  lemma GroupByCorrect<T>(xs: seq<T>, key: T -> string)
    ensures var g := GroupBy(xs, key);
            && GroupKeys(g) == FirstKeys(xs, key)
            && DistinctKeys(g)
            && (forall i | 0 <= i < |g| :: g[i].1 == Bucket(xs, key, g[i].0))
            && TotalSize(g) == |xs|
  {
    GroupByKeys(xs, key);
    FirstKeysDistinct(xs, key);
    GroupByBuckets(xs, key);
    GroupByTotal(xs, key);
  }

  lemma {:induction false} BucketEmpty<T>(xs: seq<T>, key: T -> string, k: string)
    requires k !in FirstKeys(xs, key)
    ensures Bucket(xs, key, k) == []
  {
    if xs != [] {
      BucketEmpty(xs[..|xs| - 1], key, k);
    }
  }

  /** An item lies in exactly one group: the one for its own key. */
  lemma ItemInOwnGroup<T>(xs: seq<T>, key: T -> string, x: T)
    requires x in xs
    ensures var g := GroupBy(xs, key);
            exists i | 0 <= i < |g| :: g[i].0 == key(x) && x in g[i].1
    ensures var g := GroupBy(xs, key);
            forall i | 0 <= i < |g| && x in g[i].1 :: g[i].0 == key(x)
  {
    GroupByCorrect(xs, key);
    var g := GroupBy(xs, key);
    var n :| 0 <= n < |xs| && xs[n] == x;
    assert key(x) in FirstKeys(xs, key);
    var i :| 0 <= i < |g| && GroupKeys(g)[i] == key(x);
    BucketContains(xs, key, n);
  }

  lemma {:induction false} BucketContains<T>(xs: seq<T>, key: T -> string, n: nat)
    requires n < |xs|
    ensures xs[n] in Bucket(xs, key, key(xs[n]))
  {
    if n < |xs| - 1 {
      BucketContains(xs[..|xs| - 1], key, n);
    }
  }

  /** The groups as a map from key to bucket. */
  function AsMap<T>(g: Groups<T>): (m: map<string, seq<T>>)
    ensures forall k :: k in m <==> k in GroupKeys(g)
  {
    if g == [] then map[] else AsMap(g[1..])[g[0].0 := g[0].1]
  }

  /** With distinct keys, looking a key up in the map finds its group. */
  lemma {:induction false} AsMapLookup<T>(g: Groups<T>, i: nat)
    requires DistinctKeys(g)
    requires i < |g|
    ensures AsMap(g)[g[i].0] == g[i].1
  {
    if i > 0 {
      assert DistinctKeys(g[1..]) by {
        assert GroupKeys(g[1..]) == GroupKeys(g)[1..];
      }
      AsMapLookup(g[1..], i - 1);
      assert GroupKeys(g)[0] != GroupKeys(g)[i];
    }
  }

  /** Whether some item's key is a property every plain object already has. */
  predicate HitsPrototype<T>(xs: seq<T>, key: T -> string) {
    exists i | 0 <= i < |xs| :: key(xs[i]) in PROTOTYPE_KEYS
  }

  /**
   * Grouping into a plain `{}` with `if (!acc[k]) acc[k] = []; acc[k].push(x)`: at the first
   * item whose key is inherited, `acc[k]` is already truthy and has no `push`, so the loop
   * throws a TypeError (`None`); without such a key the groups are those of `GroupBy`.
   */
  function GroupIntoObject<T>(xs: seq<T>, key: T -> string): (r: Option<Groups<T>>)
    ensures r.None? <==> HitsPrototype(xs, key)
    ensures r.Some? ==> r.value == GroupBy(xs, key)
    ensures r.Some? ==> DistinctKeys(r.value) && TotalSize(r.value) == |xs|
                        && forall i | 0 <= i < |r.value| :: r.value[i].1 == Bucket(xs, key, r.value[i].0)
  {
    GroupByCorrect(xs, key);
    if HitsPrototype(xs, key) then None else Some(GroupBy(xs, key))
  }
}
