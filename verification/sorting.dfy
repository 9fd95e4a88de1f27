/** Ordering used by every `Array.prototype.sort` call of the system.

    The comparators in the source compare epoch numbers and, for ties,
    names with `localeCompare`. Each comparator is modelled by a sort key
    `Key(rank, time, name)` ordered lexicographically, and the sort itself
    by a stable insertion sort, since `Array.prototype.sort` is stable.
    `localeCompare` (ICU collation) is replaced by the code-unit
    lexicographic order `NameLe`, which is also a total order. */
module Sorting {

  /** Code-unit lexicographic order on strings; stands in for `localeCompare`. */
  predicate NameLe(a: string, b: string)
  {
    if |a| == 0 then true
    else if |b| == 0 then false
    else if a[0] != b[0] then a[0] < b[0]
    else NameLe(a[1..], b[1..])
  }

  lemma {:induction false} NameLeTotal(a: string, b: string)
    ensures NameLe(a, b) || NameLe(b, a)
  {
    if |a| > 0 && |b| > 0 && a[0] == b[0] {
      NameLeTotal(a[1..], b[1..]);
    }
  }

  lemma {:induction false} NameLeAntisymmetric(a: string, b: string)
    requires NameLe(a, b) && NameLe(b, a)
    ensures a == b
  {
    if |a| > 0 && |b| > 0 {
      NameLeAntisymmetric(a[1..], b[1..]);
      assert a == [a[0]] + a[1..];
      assert b == [b[0]] + b[1..];
    }
  }

  lemma {:induction false} NameLeTransitive(a: string, b: string, c: string)
    requires NameLe(a, b) && NameLe(b, c)
    ensures NameLe(a, c)
  {
    if |a| > 0 && |b| > 0 && |c| > 0 && a[0] == b[0] && b[0] == c[0] {
      NameLeTransitive(a[1..], b[1..], c[1..]);
    }
  }

  /** `a.localeCompare(b)`: negative, zero or positive. */
  function NameCompare(a: string, b: string): (r: int)
    ensures r == 0 <==> a == b
    ensures r <= 0 <==> NameLe(a, b)
    ensures r >= 0 <==> NameLe(b, a)
  {
    NameLeTotal(a, b);
    if a == b then 0
    else if NameLe(a, b) then NameLeStrict(a, b); -1
    else 1
  }

  /** Distinct names are ordered one way only. */
  lemma NameLeStrict(a: string, b: string)
    requires a != b && NameLe(a, b)
    ensures !NameLe(b, a)
  {
    if NameLe(b, a) {
      NameLeAntisymmetric(a, b);
    }
  }

  /** A sort key: compared by `rank`, then `time`, then `name`. */
  datatype Key = Key(rank: int, time: int, name: string)

  predicate KeyLe(a: Key, b: Key)
  {
    || a.rank < b.rank
    || (a.rank == b.rank && a.time < b.time)
    || (a.rank == b.rank && a.time == b.time && NameLe(a.name, b.name))
  }

  lemma KeyLeTotal(a: Key, b: Key)
    ensures KeyLe(a, b) || KeyLe(b, a)
  {
    NameLeTotal(a.name, b.name);
  }

  lemma KeyLeTransitive(a: Key, b: Key, c: Key)
    requires KeyLe(a, b) && KeyLe(b, c)
    ensures KeyLe(a, c)
  {
    if a.rank == b.rank == c.rank && a.time == b.time == c.time {
      NameLeTransitive(a.name, b.name, c.name);
    }
  }

  /** `s` is ordered by `key`: every earlier element's key is at most every later one's. */
  ghost predicate SortedBy<T>(s: seq<T>, key: T -> Key)
  {
    forall i, j :: 0 <= i < j < |s| ==> KeyLe(key(s[i]), key(s[j]))
  }

  /** Inserts `x` in front of the first element whose key is not below it,
      so `x` lands before the elements it ties with. */
  function Insert<T>(x: T, s: seq<T>, key: T -> Key): (r: seq<T>)
    requires SortedBy(s, key)
    ensures |r| == |s| + 1
    ensures multiset(r) == multiset(s) + multiset{x}
    ensures SortedBy(r, key)
  {
    if |s| == 0 then [x]
    else if KeyLe(key(x), key(s[0])) then
      InsertFrontSorted(x, s, key);
      [x] + s
    else
      KeyLeTotal(key(x), key(s[0]));
      var rest := Insert(x, s[1..], key);
      assert s == [s[0]] + s[1..];
      HeadBelowAll(s[0], rest, x, s[1..], key);
      [s[0]] + rest
  }

  lemma InsertFrontSorted<T>(x: T, s: seq<T>, key: T -> Key)
    requires SortedBy(s, key) && |s| > 0 && KeyLe(key(x), key(s[0]))
    ensures SortedBy([x] + s, key)
  {
    forall j | 0 < j < |s|
      ensures KeyLe(key(x), key(s[j]))
    {
      KeyLeTransitive(key(x), key(s[0]), key(s[j]));
    }
  }

  lemma HeadBelowAll<T>(h: T, rest: seq<T>, x: T, tail: seq<T>, key: T -> Key)
    requires SortedBy(rest, key) && SortedBy([h] + tail, key)
    requires multiset(rest) == multiset(tail) + multiset{x}
    requires KeyLe(key(h), key(x))
    ensures SortedBy([h] + rest, key)
  {
    forall j | 0 <= j < |rest|
      ensures KeyLe(key(h), key(rest[j]))
    {
      assert rest[j] in multiset(rest);
      if rest[j] != x {
        assert rest[j] in multiset(tail);
        assert rest[j] in tail;
        var k :| 0 <= k < |tail| && tail[k] == rest[j];
        assert ([h] + tail)[0] == h;
        assert ([h] + tail)[k + 1] == tail[k];
      }
    }
  }

  /** `[...s].sort(cmp)` for a comparator that orders like `key`. */
  function SortBy<T>(s: seq<T>, key: T -> Key): (r: seq<T>)
    ensures |r| == |s|
    ensures multiset(r) == multiset(s)
    ensures SortedBy(r, key)
  {
    if |s| == 0 then []
    else
      assert s == [s[0]] + s[1..];
      Insert(s[0], SortBy(s[1..], key), key)
  }

  /** Two elements already in key order stay as they are. */
  lemma SortPair<T>(x: T, y: T, key: T -> Key)
    requires KeyLe(key(x), key(y))
    ensures SortBy([x, y], key) == [x, y]
  {
    assert [x, y][1..] == [y];
    assert [y][1..] == [];
    assert SortBy([y], key) == [y];
  }

  /** The end index `Array.prototype.slice(0, limit)` uses on an array of length `n`. */
  function SliceEnd(n: nat, limit: int): (e: nat)
    ensures e <= n
    ensures limit >= 0 ==> e == if limit < n then limit else n
    ensures limit < 0 ==> e == if n + limit > 0 then n + limit else 0
  {
    if limit < 0 then (if n + limit > 0 then n + limit else 0)
    else if limit < n then limit else n
  }

  /** `[...s].sort(cmp).slice(0, limit)`: the first `limit` elements in key order. */
  function TopN<T>(s: seq<T>, key: T -> Key, limit: int): (r: seq<T>)
    ensures |r| == SliceEnd(|s|, limit)
    ensures SortedBy(r, key)
    ensures multiset(r) <= multiset(s)
    ensures forall y, i :: y in multiset(s) - multiset(r) && 0 <= i < |r| ==> KeyLe(key(r[i]), key(y))
  {
    var sorted := SortBy(s, key);
    var e := SliceEnd(|s|, limit);
    assert sorted == sorted[..e] + sorted[e..];
    TopNRest(sorted, e, key);
    sorted[..e]
  }

  lemma TopNRest<T>(sorted: seq<T>, e: nat, key: T -> Key)
    requires e <= |sorted| && SortedBy(sorted, key)
    ensures forall y, i :: y in multiset(sorted) - multiset(sorted[..e]) && 0 <= i < e ==> KeyLe(key(sorted[i]), key(y))
  {
    assert sorted == sorted[..e] + sorted[e..];
    forall y, i | y in multiset(sorted) - multiset(sorted[..e]) && 0 <= i < e
      ensures KeyLe(key(sorted[i]), key(y))
    {
      assert multiset(sorted) == multiset(sorted[..e]) + multiset(sorted[e..]);
      assert y in multiset(sorted[e..]);
      var k :| e <= k < |sorted| && sorted[k] == y;
    }
  }

  /** With a limit covering the whole sequence nothing is cut off. */
  lemma TopNAll<T>(s: seq<T>, key: T -> Key, limit: int)
    ensures limit >= |s| ==> multiset(TopN(s, key, limit)) == multiset(s)
  {
    if limit >= |s| {
      var r := TopN(s, key, limit);
      var d := multiset(s) - multiset(r);
      assert multiset(s) == multiset(r) + d;
      assert |multiset(r)| == |multiset(s)|;
    }
  }

  /** Two elements in key order, limit at least two: both kept, in order. */
  lemma TopNPair<T>(x: T, y: T, key: T -> Key, limit: int)
    requires KeyLe(key(x), key(y)) && limit >= 2
    ensures TopN([x, y], key, limit) == [x, y]
  {
    SortPair(x, y, key);
    assert [x, y][..2] == [x, y];
  }
}
