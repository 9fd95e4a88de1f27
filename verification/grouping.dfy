/** Grouping by key, as the client app's roll-ups do it: a loop over the
    items that reads `map.get(key) ?? fresh`, updates that summary with the
    item and stores it back, followed by `Array.from(map.values())`.

    A JavaScript `Map` iterates in first-insertion order and `set` on an
    existing key keeps its position, so the model is a sequence of summaries
    in order of each key's first occurrence. The key of a summary is read
    with `keyOfS`; the fresh summary carries the item's key and updating
    keeps it. */
module Grouping {
  import opened Wrappers
  import opened Seqs

  /** `for (const x of xs) s = step(s, x)`. */
  function FoldLeft<T, S>(xs: seq<T>, s: S, step: (S, T) -> S): S {
    if |xs| == 0 then s else step(FoldLeft(xs[..|xs| - 1], s, step), xs[|xs| - 1])
  }

  /** The fresh summary for an item has that item's key, and updating keeps the key. */
  ghost predicate KeyPreserving<T(!new), S(!new)>(keyOf: T -> string, start: T -> S, step: (S, T) -> S, keyOfS: S -> string) {
    && (forall x :: keyOfS(start(x)) == keyOf(x))
    && (forall s, x :: keyOfS(step(s, x)) == keyOfS(s))
  }

  /** One loop iteration: update the summary stored under the item's key,
      or append a fresh one updated with the item. */
  function Upsert<T, S>(groups: seq<S>, x: T, keyOf: T -> string, start: T -> S, step: (S, T) -> S,
                        keyOfS: S -> string): seq<S>
  {
    match FirstIndex(groups, (g: S) => keyOfS(g) == keyOf(x))
    case Some(i) => groups[i := step(groups[i], x)]
    case None => groups + [step(start(x), x)]
  }

  /** No two groups share a key. */
  ghost predicate DistinctKeys<S>(gs: seq<S>, keyOfS: S -> string) {
    forall i, j :: 0 <= i < j < |gs| ==> keyOfS(gs[i]) != keyOfS(gs[j])
  }

  /** The keys the groups are stored under. */
  ghost function GroupKeys<S(!new)>(gs: seq<S>, keyOfS: S -> string): set<string> {
    set g | g in gs :: keyOfS(g)
  }

  /** The keys the items carry. */
  ghost function ItemKeys<T(!new)>(data: seq<T>, keyOf: T -> string): set<string> {
    set x | x in data :: keyOf(x)
  }

  /** The groups of `data`: one per key, in order of first occurrence. */
  function GroupBy<T(!new), S(!new)>(data: seq<T>, keyOf: T -> string, start: T -> S, step: (S, T) -> S,
                                     keyOfS: S -> string): (gs: seq<S>)
    requires KeyPreserving(keyOf, start, step, keyOfS)
    ensures DistinctKeys(gs, keyOfS)
    ensures GroupKeys(gs, keyOfS) == ItemKeys(data, keyOf)
  {
    if |data| == 0 then []
    else
      var init, last := data[..|data| - 1], data[|data| - 1];
      var prev := GroupBy(init, keyOf, start, step, keyOfS);
      UpsertKeys(prev, last, keyOf, start, step, keyOfS);
      ItemKeysSnoc(init, last, keyOf);
      assert data == init + [last];
      Upsert(prev, last, keyOf, start, step, keyOfS)
  }

  lemma ItemKeysSnoc<T(!new)>(init: seq<T>, last: T, keyOf: T -> string)
    ensures ItemKeys(init + [last], keyOf) == ItemKeys(init, keyOf) + {keyOf(last)}
  {
    assert forall x :: x in init + [last] <==> x in init || x == last;
  }

  /** One iteration keeps the keys distinct and adds exactly the item's key. */
  lemma UpsertKeys<T(!new), S(!new)>(groups: seq<S>, x: T, keyOf: T -> string, start: T -> S, step: (S, T) -> S,
                                     keyOfS: S -> string)
    requires KeyPreserving(keyOf, start, step, keyOfS)
    requires DistinctKeys(groups, keyOfS)
    ensures DistinctKeys(Upsert(groups, x, keyOf, start, step, keyOfS), keyOfS)
    ensures GroupKeys(Upsert(groups, x, keyOf, start, step, keyOfS), keyOfS) == GroupKeys(groups, keyOfS) + {keyOf(x)}
  {
    var r := Upsert(groups, x, keyOf, start, step, keyOfS);
    match FirstIndex(groups, (g: S) => keyOfS(g) == keyOf(x))
    case Some(i) =>
      assert forall j :: 0 <= j < |r| ==> keyOfS(r[j]) == keyOfS(groups[j]);
      assert forall g :: g in r <==> exists j :: 0 <= j < |r| && r[j] == g;
      assert forall g :: g in groups <==> exists j :: 0 <= j < |groups| && groups[j] == g;
      assert keyOf(x) in GroupKeys(groups, keyOfS) by {
        assert groups[i] in groups;
      }
    case None =>
      assert r == groups + [step(start(x), x)];
      assert forall g :: g in r <==> g in groups || g == step(start(x), x);
  }

  /** Distinct keys: as many keys as groups. */
  lemma DistinctKeysCount<S(!new)>(gs: seq<S>, keyOfS: S -> string)
    requires DistinctKeys(gs, keyOfS)
    ensures |GroupKeys(gs, keyOfS)| == |gs|
  {
    ToSetMap(gs, keyOfS);
    DistinctToSetSize(Map(gs, keyOfS));
  }

  /** Reordering the groups keeps their keys. */
  lemma GroupKeysOfPermutation<S(!new)>(a: seq<S>, b: seq<S>, keyOfS: S -> string)
    requires multiset(a) == multiset(b)
    ensures GroupKeys(a, keyOfS) == GroupKeys(b, keyOfS)
  {
    assert forall g :: g in a <==> g in multiset(a);
    assert forall g :: g in b <==> g in multiset(b);
  }

  /** The items with key `k`. */
  function ItemsWithKey<T>(data: seq<T>, keyOf: T -> string, k: string): seq<T> {
    Filter(data, (x: T) => keyOf(x) == k)
  }

  lemma ItemsWithKeySnoc<T>(init: seq<T>, last: T, keyOf: T -> string, k: string)
    ensures ItemsWithKey(init + [last], keyOf, k) ==
      ItemsWithKey(init, keyOf, k) + (if keyOf(last) == k then [last] else [])
  {
    FilterAppend(init, [last], (x: T) => keyOf(x) == k);
  }

  /** No items carry a key that is not among the item keys. */
  lemma ItemsWithAbsentKey<T(!new)>(data: seq<T>, keyOf: T -> string, k: string)
    requires k !in ItemKeys(data, keyOf)
    ensures ItemsWithKey(data, keyOf, k) == []
  {
    forall i | 0 <= i < |data|
      ensures keyOf(data[i]) != k
    {
      assert keyOf(data[i]) in ItemKeys(data, keyOf);
    }
    FilterNone(data, (x: T) => keyOf(x) == k);
  }

  lemma FoldLeftSnoc<T, S>(xs: seq<T>, x: T, s: S, step: (S, T) -> S)
    ensures FoldLeft(xs + [x], s, step) == step(FoldLeft(xs, s, step), x)
  {
    assert (xs + [x])[..|xs|] == xs;
  }

  /** A group after one iteration is an untouched group of another key, the
      updated group of the item's key, or the item's fresh group. */
  lemma UpsertMember<T(!new), S(!new)>(prev: seq<S>, x: T, keyOf: T -> string, start: T -> S, step: (S, T) -> S,
                                       keyOfS: S -> string, g: S)
    requires KeyPreserving(keyOf, start, step, keyOfS)
    requires DistinctKeys(prev, keyOfS)
    requires g in Upsert(prev, x, keyOf, start, step, keyOfS)
    ensures keyOfS(g) != keyOf(x) ==> g in prev
    ensures keyOfS(g) == keyOf(x) ==>
      || (exists i :: 0 <= i < |prev| && keyOfS(prev[i]) == keyOf(x) && g == step(prev[i], x))
      || (keyOf(x) !in GroupKeys(prev, keyOfS) && g == step(start(x), x))
  {
    match FirstIndex(prev, (h: S) => keyOfS(h) == keyOf(x))
    case Some(i) =>
      var j :| 0 <= j < |prev| && prev[i := step(prev[i], x)][j] == g;
      if j != i {
        assert keyOfS(prev[j]) != keyOfS(prev[i]);
        assert prev[j] in prev;
      }
    case None =>
      var j :| 0 <= j <= |prev| && (prev + [step(start(x), x)])[j] == g;
      if j < |prev| {
        assert prev[j] in prev;
      }
  }

  /** Every group is the fold of the items with its key, started from the
      fresh summary of the first such item. */
  lemma {:induction false} GroupValue<T(!new), S(!new)>(data: seq<T>, keyOf: T -> string, start: T -> S,
                                                        step: (S, T) -> S, keyOfS: S -> string, g: S)
    requires KeyPreserving(keyOf, start, step, keyOfS)
    requires g in GroupBy(data, keyOf, start, step, keyOfS)
    ensures |ItemsWithKey(data, keyOf, keyOfS(g))| > 0
    ensures g == FoldLeft(ItemsWithKey(data, keyOf, keyOfS(g)), start(ItemsWithKey(data, keyOf, keyOfS(g))[0]), step)
  {
    var init, last := data[..|data| - 1], data[|data| - 1];
    assert data == init + [last];
    var prev := GroupBy(init, keyOf, start, step, keyOfS);
    var k := keyOfS(g);
    ItemsWithKeySnoc(init, last, keyOf, k);
    var before := ItemsWithKey(init, keyOf, k);
    UpsertMember(prev, last, keyOf, start, step, keyOfS, g);
    if k != keyOf(last) {
      assert ItemsWithKey(data, keyOf, k) == before + [] == before;
      GroupValue(init, keyOf, start, step, keyOfS, g);
    } else if exists i :: 0 <= i < |prev| && keyOfS(prev[i]) == keyOf(last) && g == step(prev[i], last) {
      var i :| 0 <= i < |prev| && keyOfS(prev[i]) == keyOf(last) && g == step(prev[i], last);
      assert prev[i] in prev;
      GroupValue(init, keyOf, start, step, keyOfS, prev[i]);
      FoldLeftSnoc(before, last, start(before[0]), step);
    } else {
      ItemsWithAbsentKey(init, keyOf, k);
      assert [last][..0] == [];
    }
  }

  /** When a fresh summary has size 0 and each update adds 1, the sizes of
      the groups add up to the number of items. */
  lemma {:induction false} GroupSizes<T(!new), S(!new)>(data: seq<T>, keyOf: T -> string, start: T -> S, step: (S, T) -> S,
                                            keyOfS: S -> string, size: S -> int)
    requires KeyPreserving(keyOf, start, step, keyOfS)
    requires forall x :: size(start(x)) == 0
    requires forall s, x :: size(step(s, x)) == size(s) + 1
    ensures SumOf(GroupBy(data, keyOf, start, step, keyOfS), size) == |data|
  {
    if |data| > 0 {
      var init, last := data[..|data| - 1], data[|data| - 1];
      var prev := GroupBy(init, keyOf, start, step, keyOfS);
      GroupSizes(init, keyOf, start, step, keyOfS, size);
      match FirstIndex(prev, (h: S) => keyOfS(h) == keyOf(last))
      case Some(i) =>
        SumOfUpdate(prev, i, step(prev[i], last), size);
      case None =>
        SumOfAppend(prev, [step(start(last), last)], size);
    }
  }

  /** The groups in any order: one per distinct item key, each of them a group. */
  lemma GroupsReordered<T(!new), S(!new)>(data: seq<T>, keyOf: T -> string, start: T -> S, step: (S, T) -> S,
                                          keyOfS: S -> string, r: seq<S>)
    requires KeyPreserving(keyOf, start, step, keyOfS)
    requires multiset(r) == multiset(GroupBy(data, keyOf, start, step, keyOfS))
    ensures |r| == |ItemKeys(data, keyOf)|
    ensures GroupKeys(r, keyOfS) == ItemKeys(data, keyOf)
    ensures forall g :: g in r ==> g in GroupBy(data, keyOf, start, step, keyOfS)
  {
    var groups := GroupBy(data, keyOf, start, step, keyOfS);
    DistinctKeysCount(groups, keyOfS);
    GroupKeysOfPermutation(r, groups, keyOfS);
    assert |r| == |multiset(r)| == |multiset(groups)| == |groups|;
    assert forall g :: g in r ==> g in multiset(groups);
  }

  /** Reordered groups keep the sizes' total. */
  lemma GroupSizesReordered<T(!new), S(!new)>(data: seq<T>, keyOf: T -> string, start: T -> S, step: (S, T) -> S,
                                              keyOfS: S -> string, size: S -> int, r: seq<S>)
    requires KeyPreserving(keyOf, start, step, keyOfS)
    requires forall x :: size(start(x)) == 0
    requires forall s, x :: size(step(s, x)) == size(s) + 1
    requires multiset(r) == multiset(GroupBy(data, keyOf, start, step, keyOfS))
    ensures SumOf(r, size) == |data|
  {
    GroupSizes(data, keyOf, start, step, keyOfS, size);
    SumOfPermutation(r, GroupBy(data, keyOf, start, step, keyOfS), size);
  }
}
