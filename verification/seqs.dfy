/** Sequence helpers shared by every data module: the JavaScript array
    operations `filter`, `find`, `map`, `Math.max(...xs)` and the
    size of a `Set` built from an array. */
module Seqs {
  import opened Wrappers

  /** `xs.filter(p)`: the elements satisfying `p`, in their original order. */
  function Filter<T>(xs: seq<T>, p: T -> bool): (r: seq<T>)
    ensures |r| <= |xs|
    ensures forall x :: x in r ==> x in xs && p(x)
    ensures forall i :: 0 <= i < |xs| && p(xs[i]) ==> xs[i] in r
    ensures multiset(r) <= multiset(xs)
  {
    if |xs| == 0 then []
    else
      assert xs == [xs[0]] + xs[1..];
      if p(xs[0]) then [xs[0]] + Filter(xs[1..], p)
      else Filter(xs[1..], p)
  }

  /** Filtering a sequence with a known head. */
  lemma FilterCons<T>(x: T, t: seq<T>, p: T -> bool)
    ensures Filter([x] + t, p) == if p(x) then [x] + Filter(t, p) else Filter(t, p)
  {
    assert ([x] + t)[1..] == t;
  }

  /** Filtering three elements of which the first fails. */
  lemma FilterDropFirst<T>(a: T, b: T, c: T, p: T -> bool)
    requires !p(a) && p(b) && p(c)
    ensures Filter([a, b, c], p) == [b, c]
  {
    assert [a, b, c][1..] == [b, c];
    assert [b, c][1..] == [c];
    assert [c][1..] == [];
  }

  /** Filtering three elements of which the last fails. */
  lemma FilterDropLast<T>(a: T, b: T, c: T, p: T -> bool)
    requires p(a) && p(b) && !p(c)
    ensures Filter([a, b, c], p) == [a, b]
  {
    assert [a, b, c][1..] == [b, c];
    assert [b, c][1..] == [c];
    assert [c][1..] == [];
  }

  /** How often a value occurs in a filtered sequence. */
  lemma {:induction false} FilterCount<T>(xs: seq<T>, p: T -> bool, x: T)
    ensures multiset(Filter(xs, p))[x] == if p(x) then multiset(xs)[x] else 0
  {
    if |xs| > 0 {
      FilterCount(xs[1..], p, x);
      assert xs == [xs[0]] + xs[1..];
    }
  }

  /** Filtering distributes over concatenation, so it keeps the input order. */
  lemma {:induction false} FilterAppend<T>(a: seq<T>, b: seq<T>, p: T -> bool)
    ensures Filter(a + b, p) == Filter(a, p) + Filter(b, p)
  {
    if |a| == 0 {
      assert a + b == b;
    } else {
      assert (a + b)[1..] == a[1..] + b;
      FilterAppend(a[1..], b, p);
    }
  }

  /** A predicate and its complement `q` split the sequence between them. */
  lemma {:induction false} FilterComplement<T>(xs: seq<T>, p: T -> bool, q: T -> bool)
    requires forall x :: q(x) == !p(x)
    ensures |Filter(xs, p)| + |Filter(xs, q)| == |xs|
  {
    if |xs| > 0 {
      FilterComplement(xs[1..], p, q);
    }
  }

  /** A filter keeps nothing when its predicate fails throughout. */
  lemma {:induction false} FilterNone<T>(xs: seq<T>, p: T -> bool)
    requires forall i :: 0 <= i < |xs| ==> !p(xs[i])
    ensures Filter(xs, p) == []
  {
    if |xs| > 0 {
      FilterNone(xs[1..], p);
    }
  }

  /** The positions of `xs` whose element satisfies `p`. */
  function IndicesWhere<T>(xs: seq<T>, p: T -> bool): set<nat> {
    set i: nat | i < |xs| && p(xs[i])
  }

  /** A filter keeps one element per satisfying position. */
  lemma {:induction false} FilterSizeIsIndexCount<T>(xs: seq<T>, p: T -> bool)
    ensures |Filter(xs, p)| == |IndicesWhere(xs, p)|
  {
    if |xs| > 0 {
      var init, x := xs[..|xs| - 1], xs[|xs| - 1];
      assert xs == init + [x];
      FilterSizeIsIndexCount(init, p);
      FilterSnocSize(init, x, p);
      IndicesWhereSnoc(init, x, p);
    }
  }

  lemma FilterSnocSize<T>(init: seq<T>, x: T, p: T -> bool)
    ensures |Filter(init + [x], p)| == |Filter(init, p)| + if p(x) then 1 else 0
  {
    FilterAppend(init, [x], p);
    assert [x][1..] == [];
  }

  lemma IndicesWhereSnoc<T>(init: seq<T>, x: T, p: T -> bool)
    ensures |IndicesWhere(init + [x], p)| == |IndicesWhere(init, p)| + if p(x) then 1 else 0
  {
    var xs := init + [x];
    var before := IndicesWhere(init, p);
    forall i: nat | i < |init|
      ensures xs[i] == init[i]
    {
    }
    assert |init| !in before;
    if p(x) {
      assert IndicesWhere(xs, p) == before + {|init|};
    } else {
      assert IndicesWhere(xs, p) == before;
    }
  }

  /** Filters by predicates that agree everywhere are equal. */
  lemma {:induction false} FilterExtensional<T>(xs: seq<T>, p: T -> bool, q: T -> bool)
    requires forall x :: p(x) == q(x)
    ensures Filter(xs, p) == Filter(xs, q)
  {
    if |xs| > 0 {
      FilterExtensional(xs[1..], p, q);
    }
  }

  /** Filtering twice is filtering once by the conjunction. */
  lemma {:induction false} FilterFilter<T>(xs: seq<T>, p: T -> bool, q: T -> bool)
    ensures Filter(Filter(xs, p), q) == Filter(xs, x => p(x) && q(x))
  {
    if |xs| > 0 {
      FilterFilter(xs[1..], p, q);
      if p(xs[0]) {
        assert Filter(xs, p) == [xs[0]] + Filter(xs[1..], p);
        assert Filter(xs, p)[1..] == Filter(xs[1..], p);
      }
    }
  }

  /** A filter keeps everything when its predicate holds throughout. */
  lemma {:induction false} FilterAll<T>(xs: seq<T>, p: T -> bool)
    requires forall i :: 0 <= i < |xs| ==> p(xs[i])
    ensures Filter(xs, p) == xs
  {
    if |xs| > 0 {
      FilterAll(xs[1..], p);
    }
  }

  /** `xs.map(f)`. */
  function Map<A, B>(xs: seq<A>, f: A -> B): (r: seq<B>)
    ensures |r| == |xs|
    ensures forall i :: 0 <= i < |xs| ==> r[i] == f(xs[i])
  {
    if |xs| == 0 then [] else [f(xs[0])] + Map(xs[1..], f)
  }

  /** The image of every element is in the mapped sequence. */
  lemma MapMembers<A, B>(xs: seq<A>, f: A -> B)
    ensures forall x :: x in xs ==> f(x) in Map(xs, f)
  {
    forall x | x in xs
      ensures f(x) in Map(xs, f)
    {
      var i :| 0 <= i < |xs| && xs[i] == x;
      assert Map(xs, f)[i] == f(x);
    }
  }

  /** Mapping distributes over concatenation. */
  lemma MapAppend<A, B>(a: seq<A>, b: seq<A>, f: A -> B)
    ensures Map(a + b, f) == Map(a, f) + Map(b, f)
  {
    assert |Map(a + b, f)| == |Map(a, f) + Map(b, f)|;
    forall i | 0 <= i < |a + b|
      ensures Map(a + b, f)[i] == (Map(a, f) + Map(b, f))[i]
    {
    }
  }

  /** Mapping a sequence with one extra element adds that element's image. */
  lemma MapInsert<A, B>(lo: seq<A>, x: A, hi: seq<A>, f: A -> B)
    ensures multiset(Map(lo + [x] + hi, f)) == multiset(Map(lo + hi, f)) + multiset{f(x)}
  {
    MapAppend(lo + [x], hi, f);
    MapAppend(lo, [x], f);
    MapAppend(lo, hi, f);
  }

  lemma MultisetCancel<T>(m1: multiset<T>, m2: multiset<T>, x: T)
    requires m1 + multiset{x} == m2 + multiset{x}
    ensures m1 == m2
  {
    assert m1 == (m1 + multiset{x}) - multiset{x};
    assert m2 == (m2 + multiset{x}) - multiset{x};
  }

  /** Taking out the element at `k` leaves the rest of the multiset. */
  lemma RemoveAt<T>(b: seq<T>, k: nat)
    requires k < |b|
    ensures b == b[..k] + [b[k]] + b[k + 1..]
    ensures multiset(b) == multiset(b[..k] + b[k + 1..]) + multiset{b[k]}
  {
    assert b == b[..k] + [b[k]] + b[k + 1..];
  }

  /** A nonempty sequence's multiset is its head's and its tail's. */
  lemma ConsMultiset<T>(a: seq<T>)
    requires |a| > 0
    ensures multiset(a) == multiset(a[1..]) + multiset{a[0]}
  {
    assert a == [a[0]] + a[1..];
  }

  /** The image of a nonempty sequence is its head's image and its tail's. */
  lemma MapHead<A, B>(a: seq<A>, f: A -> B)
    requires |a| > 0
    ensures multiset(Map(a, f)) == multiset(Map(a[1..], f)) + multiset{f(a[0])}
  {
    var m := Map(a, f);
    assert m == [f(a[0])] + Map(a[1..], f);
    assert m[1..] == Map(a[1..], f);
    ConsMultiset(m);
  }

  /** Mapping a permutation gives a permutation. */
  lemma {:induction false} MapPermutation<A, B>(a: seq<A>, b: seq<A>, f: A -> B)
    requires multiset(a) == multiset(b)
    ensures multiset(Map(a, f)) == multiset(Map(b, f))
    decreases |a|
  {
    if |a| == 0 {
      assert |b| == |multiset(b)| == 0;
    } else {
      var x := a[0];
      assert x in b by {
        assert x in multiset(b);
      }
      var k :| 0 <= k < |b| && b[k] == x;
      var lo, hi := b[..k], b[k + 1..];
      RemoveAt(b, k);
      ConsMultiset(a);
      MapHead(a, f);
      MultisetCancel(multiset(a[1..]), multiset(lo + hi), x);
      MapPermutation(a[1..], lo + hi, f);
      MapInsert(lo, x, hi, f);
    }
  }

  /** Index of the first element satisfying `p` (`findIndex`, with -1 as None). */
  function FirstIndex<T>(xs: seq<T>, p: T -> bool): (r: Option<nat>)
    ensures r.None? <==> forall j :: 0 <= j < |xs| ==> !p(xs[j])
    ensures r.Some? ==> r.value < |xs| && p(xs[r.value])
    ensures r.Some? ==> forall j :: 0 <= j < r.value ==> !p(xs[j])
  {
    if |xs| == 0 then None
    else if p(xs[0]) then Some(0)
    else match FirstIndex(xs[1..], p)
      case None => None
      case Some(i) => Some(i + 1)
  }

  /** `i` is the first position whose element has id `id`. */
  ghost predicate IsFirstWithId<T>(xs: seq<T>, idOf: T -> string, id: string, i: int) {
    0 <= i < |xs| && idOf(xs[i]) == id && forall j :: 0 <= j < i ==> idOf(xs[j]) != id
  }

  /** `xs.find((x) => x.id === id)`: the first element with that id, or
      absent when there is none. */
  function FindById<T>(xs: seq<T>, idOf: T -> string, id: string): (r: Option<T>)
    ensures r.None? <==> forall j :: 0 <= j < |xs| ==> idOf(xs[j]) != id
    ensures r.Some? ==> exists i :: IsFirstWithId(xs, idOf, id, i) && xs[i] == r.value
  {
    match FirstIndex(xs, x => idOf(x) == id)
    case None => None
    case Some(i) => Some(xs[i])
  }

  /** The first element kept by an id filter is the element the id lookup finds. */
  lemma {:induction false} FilterHeadIsFind<T>(xs: seq<T>, idOf: T -> string, id: string)
    ensures |Filter(xs, (x: T) => idOf(x) == id)| > 0 <==> FindById(xs, idOf, id).Some?
    ensures FindById(xs, idOf, id).Some? ==> Filter(xs, (x: T) => idOf(x) == id)[0] == FindById(xs, idOf, id).value
  {
    if |xs| > 0 && idOf(xs[0]) != id {
      FilterHeadIsFind(xs[1..], idOf, id);
    }
  }

  /** Some element has id `id`. */
  predicate HasId<T>(xs: seq<T>, idOf: T -> string, id: string) {
    exists i :: 0 <= i < |xs| && idOf(xs[i]) == id
  }

  /** With distinct ids, the element found for an id is the one holding it. */
  lemma FindByUniqueId<T>(xs: seq<T>, idOf: T -> string, k: nat)
    requires k < |xs|
    requires forall i, j :: 0 <= i < j < |xs| ==> idOf(xs[i]) != idOf(xs[j])
    ensures FindById(xs, idOf, idOf(xs[k])) == Some(xs[k])
  {
    var r := FindById(xs, idOf, idOf(xs[k]));
    var i :| IsFirstWithId(xs, idOf, idOf(xs[k]), i) && xs[i] == r.value;
  }

  /** Sum of `f` over the elements (`reduce((acc, x) => acc + f(x), 0)`). */
  function SumOf<T>(xs: seq<T>, f: T -> int): int {
    if |xs| == 0 then 0 else f(xs[0]) + SumOf(xs[1..], f)
  }

  lemma SumOfCons<T>(x: T, t: seq<T>, f: T -> int)
    ensures SumOf([x] + t, f) == f(x) + SumOf(t, f)
  {
    assert ([x] + t)[1..] == t;
  }

  lemma {:induction false} SumOfAppend<T>(a: seq<T>, b: seq<T>, f: T -> int)
    ensures SumOf(a + b, f) == SumOf(a, f) + SumOf(b, f)
  {
    if |a| == 0 {
      assert a + b == b;
    } else {
      assert (a + b)[1..] == a[1..] + b;
      SumOfAppend(a[1..], b, f);
    }
  }

  /** Replacing one element changes the sum by the difference. */
  lemma {:induction false} SumOfUpdate<T>(xs: seq<T>, i: nat, v: T, f: T -> int)
    requires i < |xs|
    ensures SumOf(xs[i := v], f) == SumOf(xs, f) - f(xs[i]) + f(v)
  {
    if i > 0 {
      assert xs[i := v][1..] == xs[1..][i - 1 := v];
      SumOfUpdate(xs[1..], i - 1, v, f);
    }
  }

  /** A sum does not depend on the order of its terms. */
  lemma {:induction false} SumOfPermutation<T>(a: seq<T>, b: seq<T>, f: T -> int)
    requires multiset(a) == multiset(b)
    ensures SumOf(a, f) == SumOf(b, f)
    decreases |a|
  {
    if |a| == 0 {
      assert |b| == |multiset(b)| == 0;
    } else {
      var x := a[0];
      assert x in b by {
        assert x in multiset(b);
      }
      var k :| 0 <= k < |b| && b[k] == x;
      var lo, hi := b[..k], b[k + 1..];
      assert b == lo + [x] + hi;
      var rest := a[1..];
      assert a == [x] + rest;
      assert multiset(b) == multiset(lo + hi) + multiset{x};
      MultisetCancel(multiset(rest), multiset(lo + hi), x);
      SumOfPermutation(rest, lo + hi, f);
      SumOfAppend(lo + [x], hi, f);
      SumOfAppend(lo, [x], f);
      SumOfAppend(lo, hi, f);
    }
  }

  /** `Math.max(...xs)` on a nonempty array. */
  function MaxOf(xs: seq<int>): (m: int)
    requires |xs| > 0
    ensures m in xs
    ensures forall i :: 0 <= i < |xs| ==> xs[i] <= m
    ensures forall x :: x in xs ==> x <= m
  {
    if |xs| == 1 then xs[0]
    else
      var rest := MaxOf(xs[1..]);
      assert forall i :: 1 <= i < |xs| ==> xs[i] == xs[1..][i - 1];
      if xs[0] >= rest then xs[0] else rest
  }

  /** `xs.length > 0 ? Math.max(...xs) : undefined`. */
  function MaxOrNone(xs: seq<int>): (r: Option<int>)
    ensures r.None? <==> |xs| == 0
    ensures r.Some? ==> r.value in xs && forall i :: 0 <= i < |xs| ==> xs[i] <= r.value
  {
    if |xs| == 0 then None else Some(MaxOf(xs))
  }

  /** The elements of a sequence as a set (`new Set(xs)`). */
  function ToSet<T>(xs: seq<T>): set<T> {
    set x | x in xs
  }

  /** No value occurs twice. */
  predicate Distinct<T(==)>(xs: seq<T>) {
    forall i, j :: 0 <= i < j < |xs| ==> xs[i] != xs[j]
  }

  /** A set built from a sequence is no larger than the sequence, and is
      nonempty when the sequence is. */
  lemma {:induction false} ToSetSize<T>(xs: seq<T>)
    ensures |ToSet(xs)| <= |xs|
    ensures |xs| > 0 ==> |ToSet(xs)| >= 1
  {
    if |xs| > 0 {
      ToSetSize(xs[1..]);
      assert ToSet(xs) == {xs[0]} + ToSet(xs[1..]);
      assert xs[0] in ToSet(xs);
    }
  }

  /** The set of images of a sequence. */
  lemma ToSetMap<A, B>(xs: seq<A>, f: A -> B)
    ensures ToSet(Map(xs, f)) == set x | x in xs :: f(x)
  {
    MapMembers(xs, f);
    forall y | y in ToSet(Map(xs, f))
      ensures exists x :: x in xs && f(x) == y
    {
      var i :| 0 <= i < |xs| && Map(xs, f)[i] == y;
      assert xs[i] in xs;
    }
  }

  /** Sequences with the same elements, counted, have the same set. */
  lemma ToSetOfPermutation<T>(a: seq<T>, b: seq<T>)
    requires multiset(a) == multiset(b)
    ensures ToSet(a) == ToSet(b)
  {
    assert forall x :: x in a <==> x in multiset(a);
    assert forall x :: x in b <==> x in multiset(b);
  }

  /** Without repetitions the set has exactly as many elements as the sequence. */
  lemma {:induction false} DistinctToSetSize<T>(xs: seq<T>)
    requires Distinct(xs)
    ensures |ToSet(xs)| == |xs|
  {
    if |xs| > 0 {
      DistinctToSetSize(xs[1..]);
      assert ToSet(xs) == {xs[0]} + ToSet(xs[1..]);
      assert xs[0] !in ToSet(xs[1..]);
    }
  }
}
