/** Path strings as the three route parsers and link builders see them
    (apps/admin/src/app/admin/navigation.ts and its store and client
    copies): `split('/')`, `join('/')`, the trailing-slash trim
    `replace(/\/+$/, '')`, the slash-run collapse `replace(/\/+/g, '/')`,
    and the parser and link builder written over a table of route names. */
module Paths {
  import opened Wrappers
  import opened Seqs

  predicate SlashFree(s: string) {
    forall i :: 0 <= i < |s| ==> s[i] != '/'
  }

  /** What `filter(Boolean)` keeps and a route name is: a nonempty, slash-free string. */
  predicate IsSegment(s: string) {
    |s| > 0 && SlashFree(s)
  }

  predicate AllSegments(xs: seq<string>) {
    forall i :: 0 <= i < |xs| ==> IsSegment(xs[i])
  }

  predicate NonEmpty(s: string) { |s| > 0 }

  // ---------------------------------------------------------------------
  // split and join.

  /** `s.split('/')`: the slash-free pieces between slashes, at least one. */
  function Split(s: string): (r: seq<string>)
    ensures |r| >= 1
    ensures forall i :: 0 <= i < |r| ==> SlashFree(r[i])
  {
    if |s| == 0 then [""]
    else if s[0] == '/' then [""] + Split(s[1..])
    else
      var rest := Split(s[1..]);
      [[s[0]] + rest[0]] + rest[1..]
  }

  /** `xs.join('/')`. */
  function Join(xs: seq<string>): string {
    if |xs| == 0 then ""
    else if |xs| == 1 then xs[0]
    else xs[0] + "/" + Join(xs[1..])
  }

  /** Joining the pieces restores the string. */
  lemma {:induction false} JoinSplit(s: string)
    ensures Join(Split(s)) == s
  {
    if |s| > 0 {
      JoinSplit(s[1..]);
      var rest := Split(s[1..]);
      if s[0] == '/' {
        assert ([""] + rest)[1..] == rest;
        assert s == "/" + s[1..];
      } else {
        var r := [[s[0]] + rest[0]] + rest[1..];
        assert r[1..] == rest[1..];
        if |rest| > 1 {
          assert Join(rest) == rest[0] + "/" + Join(rest[1..]);
          assert Join(r) == [s[0]] + rest[0] + "/" + Join(rest[1..]);
        }
        assert s == [s[0]] + s[1..];
      }
    }
  }

  /** A slash splits a string into the pieces of either side. */
  lemma {:induction false} SplitAround(a: string, b: string)
    ensures Split(a + "/" + b) == Split(a) + Split(b)
  {
    var s := a + "/" + b;
    if |a| == 0 {
      assert s == "/" + b;
      assert s[1..] == b;
    } else {
      var t := a[1..] + "/" + b;
      assert s[0] == a[0] && s[1..] == t;
      SplitAround(a[1..], b);
      if a[0] == '/' {
        assert Split(s) == [""] + Split(t);
      } else {
        var ra := Split(a[1..]);
        assert Split(t)[0] == ra[0];
        assert Split(t)[1..] == ra[1..] + Split(b);
      }
    }
  }

  lemma {:induction false} SplitSlashFree(s: string)
    requires SlashFree(s)
    ensures Split(s) == [s]
  {
    if |s| > 0 {
      SplitSlashFree(s[1..]);
      assert s == [s[0]] + s[1..];
    }
  }

  /** Splitting a join of slash-free pieces gives the pieces back. */
  lemma {:induction false} SplitJoin(xs: seq<string>)
    requires |xs| >= 1
    requires forall i :: 0 <= i < |xs| ==> SlashFree(xs[i])
    ensures Split(Join(xs)) == xs
  {
    if |xs| == 1 {
      SplitSlashFree(xs[0]);
    } else {
      SplitJoin(xs[1..]);
      SplitSlashFree(xs[0]);
      SplitAround(xs[0], Join(xs[1..]));
      assert xs == [xs[0]] + xs[1..];
    }
  }

  lemma {:induction false} JoinSnoc(xs: seq<string>, y: string)
    requires |xs| >= 1
    ensures Join(xs + [y]) == Join(xs) + "/" + y
  {
    if |xs| == 1 {
      assert (xs + [y])[1..] == [y];
    } else {
      assert (xs + [y])[1..] == xs[1..] + [y];
      JoinSnoc(xs[1..], y);
    }
  }

  // ---------------------------------------------------------------------
  // Segments.

  /** `s.split('/').filter(Boolean)`: the nonempty pieces. */
  function Pieces(s: string): seq<string> {
    Filter(Split(s), NonEmpty)
  }

  lemma PiecesAreSegments(s: string)
    ensures AllSegments(Pieces(s))
  {
    var r := Pieces(s);
    forall i | 0 <= i < |r|
      ensures IsSegment(r[i])
    {
      assert r[i] in r;
      var k :| 0 <= k < |Split(s)| && Split(s)[k] == r[i];
    }
  }

  /** A slash only separates: the segments of either side, in order. */
  lemma PiecesAround(a: string, b: string)
    ensures Pieces(a + "/" + b) == Pieces(a) + Pieces(b)
  {
    SplitAround(a, b);
    FilterAppend(Split(a), Split(b), NonEmpty);
  }

  lemma PiecesEmpty()
    ensures Pieces("") == []
  {
    assert Split("") == [""];
    assert [""][1..] == [];
  }

  /** A leading slash adds only an empty piece. */
  lemma PiecesLeadingSlash(t: string)
    ensures Pieces("/" + t) == Pieces(t)
  {
    assert ("/" + t)[1..] == t;
    assert Split("/" + t) == [""] + Split(t);
    FilterAppend([""], Split(t), NonEmpty);
    assert [""][1..] == [];
  }

  /** The segments of `'/' + xs.join('/')` are `xs`. */
  lemma PiecesOfJoin(xs: seq<string>)
    requires |xs| >= 1 && AllSegments(xs)
    ensures Pieces(Join(xs)) == xs
    ensures Pieces("/" + Join(xs)) == xs
  {
    SplitJoin(xs);
    FilterAll(xs, NonEmpty);
    PiecesLeadingSlash(Join(xs));
  }

  /** `replace(/\/+$/, '')`: drops the trailing run of slashes. */
  function TrimTrailing(s: string): (r: string)
    ensures |r| <= |s| && r == s[..|r|]
    ensures |r| == 0 || r[|r| - 1] != '/'
    ensures forall i :: |r| <= i < |s| ==> s[i] == '/'
  {
    if |s| > 0 && s[|s| - 1] == '/' then TrimTrailing(s[..|s| - 1]) else s
  }

  /** One trailing slash adds only an empty piece. */
  lemma PiecesTrailingSlash(t: string)
    ensures Pieces(t + "/") == Pieces(t)
  {
    assert t + "/" == t + "/" + "";
    PiecesAround(t, "");
    PiecesEmpty();
    assert Pieces(t) + [] == Pieces(t);
  }

  /** Trailing slashes add only empty pieces. */
  lemma {:induction false} PiecesTrimTrailing(s: string)
    ensures Pieces(TrimTrailing(s)) == Pieces(s)
  {
    if |s| > 0 && s[|s| - 1] == '/' {
      var t := s[..|s| - 1];
      assert TrimTrailing(s) == TrimTrailing(t);
      PiecesTrimTrailing(t);
      assert s == t + "/";
      PiecesTrailingSlash(t);
    }
  }

  /** `pathname.replace(/\/+$/, '').split('/').filter(Boolean)`. */
  function Segments(p: string): (r: seq<string>)
    ensures r == Pieces(p)
  {
    PiecesTrimTrailing(p);
    Pieces(TrimTrailing(p))
  }

  // ---------------------------------------------------------------------
  // Collapsing slash runs.

  predicate NoDoubleSlash(s: string) {
    forall i :: 0 <= i < |s| - 1 ==> !(s[i] == '/' && s[i + 1] == '/')
  }

  /** `s.replace(/\/+/g, '/')`: every run of slashes becomes one slash. */
  function Collapse(s: string): (r: string)
    ensures NoDoubleSlash(r)
    ensures |r| <= |s|
    ensures |s| > 0 ==> |r| > 0 && r[0] == s[0] && r[|r| - 1] == s[|s| - 1]
  {
    if |s| <= 1 then s
    else if s[0] == '/' && s[1] == '/' then Collapse(s[1..])
    else
      var rest := Collapse(s[1..]);
      assert s == [s[0]] + s[1..];
      [s[0]] + rest
  }

  /** A string without a slash run is left as it is. */
  lemma {:induction false} CollapseClean(s: string)
    requires NoDoubleSlash(s)
    ensures Collapse(s) == s
  {
    if |s| > 1 {
      var t := s[1..];
      assert NoDoubleSlash(t) by {
        forall i | 0 <= i < |t| - 1
          ensures !(t[i] == '/' && t[i + 1] == '/')
        {
          assert t[i] == s[i + 1] && t[i + 1] == s[i + 2];
        }
      }
      CollapseClean(t);
      assert s == [s[0]] + t;
    }
  }

  /** Collapsing twice is collapsing once. */
  lemma CollapseIdempotent(s: string)
    ensures Collapse(Collapse(s)) == Collapse(s)
  {
    CollapseClean(Collapse(s));
  }

  /** A slash-free tail is untouched by the collapse. */
  lemma {:induction false} CollapseSlashFreeTail(x: string, k: string)
    requires SlashFree(k)
    ensures Collapse(x + k) == Collapse(x) + k
  {
    var s := x + k;
    assert NoDoubleSlash(k);
    CollapseClean(k);
    if |x| == 0 {
      assert s == k;
    } else if |x| == 1 {
      assert Collapse(x) == x;
      if |k| > 0 {
        assert s[0] == x[0] && s[1] == k[0] && s[1..] == k;
        assert Collapse(s) == [x[0]] + Collapse(k);
      } else {
        assert s == x;
      }
    } else {
      var t := x[1..] + k;
      assert s[0] == x[0] && s[1] == x[1] && s[1..] == t;
      CollapseSlashFreeTail(x[1..], k);
      if !(x[0] == '/' && x[1] == '/') {
        assert Collapse(s) == [x[0]] + Collapse(t);
        assert Collapse(x) == [x[0]] + Collapse(x[1..]);
      }
    }
  }

  /** Collapsing never changes the segments. */
  lemma {:induction false} PiecesCollapse(s: string)
    ensures Pieces(Collapse(s)) == Pieces(s)
    decreases |s|
  {
    if !SlashFree(s) {
      var a, b := FirstSlash(s);
      var sb := "/" + b;
      assert s == a + sb;
      CollapseSlashFreeHead(a, sb);
      assert Collapse(s) == a + Collapse(sb);
      PiecesAround(a, b);
      assert Pieces(s) == Pieces(a) + Pieces(b);
      PiecesCollapse(b);
      PiecesCollapseStep(a, b);
    } else {
      CollapseClean(s);
    }
  }

  lemma CollapseTailPieces(b: string)
    requires Pieces(Collapse(b)) == Pieces(b)
    ensures |Collapse("/" + b)| > 0 && Collapse("/" + b)[0] == '/'
    ensures Pieces(Collapse("/" + b)[1..]) == Pieces(b)
  {
    if |b| > 0 && b[0] == '/' {
      TailPiecesRun(b);
    } else {
      TailPiecesSingle(b);
    }
  }

  lemma TailPiecesRun(b: string)
    requires |b| > 0 && b[0] == '/'
    requires Pieces(Collapse(b)) == Pieces(b)
    ensures |Collapse("/" + b)| > 0 && Collapse("/" + b)[0] == '/'
    ensures Pieces(Collapse("/" + b)[1..]) == Pieces(b)
  {
    CollapseSlashRun(b);
    var c := Collapse(b);
    var tail := c[1..];
    assert c == "/" + tail;
    PiecesLeadingSlash(tail);
  }

  lemma TailPiecesSingle(b: string)
    requires |b| == 0 || b[0] != '/'
    requires Pieces(Collapse(b)) == Pieces(b)
    ensures |Collapse("/" + b)| > 0 && Collapse("/" + b)[0] == '/'
    ensures Pieces(Collapse("/" + b)[1..]) == Pieces(b)
  {
    CollapseSingleSlash(b);
    var c := Collapse(b);
    assert ("/" + c)[1..] == c;
  }

  lemma PiecesAtSlash(a: string, c: string)
    requires |c| > 0 && c[0] == '/'
    ensures Pieces(a + c) == Pieces(a) + Pieces(c[1..])
  {
    var tail := c[1..];
    assert c == "/" + tail;
    assert a + c == a + "/" + tail;
    PiecesAround(a, tail);
  }

  /** One step of the above: a slash run after a slash-free head. */
  lemma PiecesCollapseStep(a: string, b: string)
    requires Pieces(Collapse(b)) == Pieces(b)
    ensures Pieces(a + Collapse("/" + b)) == Pieces(a) + Pieces(b)
  {
    CollapseTailPieces(b);
    PiecesAtSlash(a, Collapse("/" + b));
  }

  /** A leading slash merges into a slash run that follows it. */
  lemma CollapseSlashRun(b: string)
    requires |b| > 0 && b[0] == '/'
    ensures Collapse("/" + b) == Collapse(b)
    ensures Collapse(b)[0] == '/'
  {
    assert ("/" + b)[1..] == b;
  }

  /** A slash that starts no run is kept. */
  lemma CollapseSingleSlash(b: string)
    requires |b| == 0 || b[0] != '/'
    ensures Collapse("/" + b) == "/" + Collapse(b)
  {
    assert ("/" + b)[1..] == b;
    if |b| == 0 {
      assert "/" + b == "/";
    }
  }

  /** Splits at the first slash. */
  lemma FirstSlash(s: string) returns (a: string, b: string)
    requires !SlashFree(s)
    ensures s == a + "/" + b && SlashFree(a)
  {
    var i :| 0 <= i < |s| && s[i] == '/' && forall j :: 0 <= j < i ==> s[j] != '/' by {
      var k :| 0 <= k < |s| && s[k] == '/';
      var m := FirstIndex(s, (ch: char) => ch == '/');
      assert m.Some?;
      assert s[m.value] == '/';
    }
    a, b := s[..i], s[i + 1..];
    assert s == s[..i] + [s[i]] + s[i + 1..];
  }

  /** A character other than a slash is kept in front of the collapsed rest. */
  lemma CollapseCons(x: char, u: string)
    requires x != '/'
    ensures Collapse([x] + u) == [x] + Collapse(u)
  {
    var s := [x] + u;
    assert s[0] == x && s[1..] == u;
  }

  /** A slash-free head is untouched by the collapse. */
  lemma {:induction false} CollapseSlashFreeHead(a: string, t: string)
    requires SlashFree(a)
    ensures Collapse(a + t) == a + Collapse(t)
  {
    if |a| == 0 {
      assert a + t == t;
    } else {
      var u := a[1..] + t;
      assert a + t == [a[0]] + u;
      CollapseCons(a[0], u);
      CollapseSlashFreeHead(a[1..], t);
      assert [a[0]] + (a[1..] + Collapse(t)) == a + Collapse(t);
    }
  }

  /** A base path in canonical form: empty, or '/' followed by the joined segments. */
  function BaseOf(xs: seq<string>): string {
    if |xs| == 0 then "" else "/" + Join(xs)
  }

  // ---------------------------------------------------------------------
  // The parser and the link builder, over a table of route names.

  datatype Location<K> = Location(basePath: string, route: K)

  /** `parseLocation(pathname)` with `ofName` the route-table lookup:
      no segments gives the dashboard at the empty base; a last segment
      naming a route gives that route below the preceding segments; any
      other last segment gives the dashboard below all segments. */
  function ParseWith<K>(p: string, ofName: string -> Option<K>, dashboard: K): (r: Location<K>)
    ensures var segs := Pieces(p);
      && (|segs| == 0 ==> r == Location("", dashboard))
      && (|segs| > 0 && ofName(segs[|segs| - 1]).Some? ==>
            r == Location(BaseOf(segs[..|segs| - 1]), ofName(segs[|segs| - 1]).value))
      && (|segs| > 0 && ofName(segs[|segs| - 1]).None? ==> r == Location(BaseOf(segs), dashboard))
  {
    var segs := Segments(p);
    if |segs| == 0 then Location("", dashboard)
    else
      var last := segs[|segs| - 1];
      match ofName(last)
      case Some(k) =>
        var baseSegments := segs[..|segs| - 1];
        Location(if |baseSegments| > 0 then "/" + Join(baseSegments) else "", k)
      case None => Location("/" + Join(segs), dashboard)
  }

  /** `getRouteHref(basePath, key)` with `segment` the key's name: a root
      base counts as empty, and slash runs collapse. */
  function HrefWith(basePath: string, segment: string): (r: string)
    ensures NoDoubleSlash(r)
    ensures IsSegment(segment) ==> |r| > |segment| && r[|r| - |segment| - 1..] == "/" + segment
    ensures |r| > 0 && r[0] == if basePath == "" || basePath == "/" then '/' else basePath[0]
  {
    var normalizedBase := if basePath == "/" then "" else basePath;
    HrefEndsWithSegment(normalizedBase, segment);
    Collapse(normalizedBase + "/" + segment)
  }

  /** Two strings without slash runs meet without one unless both sides
      of the seam are slashes. */
  lemma NoDoubleSlashConcat(a: string, b: string)
    requires NoDoubleSlash(a) && NoDoubleSlash(b)
    requires |a| == 0 || |b| == 0 || a[|a| - 1] != '/' || b[0] != '/'
    ensures NoDoubleSlash(a + b)
  {
    var s := a + b;
    forall i | 0 <= i < |s| - 1
      ensures !(s[i] == '/' && s[i + 1] == '/')
    {
      if i + 1 < |a| {
        assert s[i] == a[i] && s[i + 1] == a[i + 1];
      } else if i >= |a| {
        assert s[i] == b[i - |a|] && s[i + 1] == b[i + 1 - |a|];
      }
    }
  }

  /** The join of segments starts with a segment and has no slash run. */
  lemma {:induction false} JoinClean(xs: seq<string>)
    requires |xs| > 0 && AllSegments(xs)
    ensures |Join(xs)| > 0 && Join(xs)[0] != '/' && NoDoubleSlash(Join(xs))
  {
    assert IsSegment(xs[0]);
    if |xs| > 1 {
      JoinClean(xs[1..]);
      var rest := Join(xs[1..]);
      NoDoubleSlashConcat(xs[0], "/");
      NoDoubleSlashConcat(xs[0] + "/", rest);
      assert Join(xs) == xs[0] + "/" + rest;
    }
  }

  /** Below a canonical base, the link is exactly the canonical base of the
      base's segments followed by the route's segment. */
  lemma HrefOfBase(xs: seq<string>, segment: string)
    requires AllSegments(xs) && IsSegment(segment)
    ensures HrefWith(BaseOf(xs), segment) == BaseOf(xs + [segment])
  {
    var ys := xs + [segment];
    assert AllSegments(ys) by {
      forall i | 0 <= i < |ys|
        ensures IsSegment(ys[i])
      {
        if i < |xs| { assert ys[i] == xs[i]; }
      }
    }
    var linked := "/" + Join(ys);
    if |xs| == 0 {
      assert ys == [segment];
      assert "" + "/" + segment == linked;
    } else {
      JoinSnoc(xs, segment);
      assert |BaseOf(xs)| > 1;
      assert BaseOf(xs) + "/" + segment == linked;
    }
    JoinClean(ys);
    NoDoubleSlashConcat("/", Join(ys));
    CollapseClean(linked);
  }

  lemma HrefEndsWithSegment(base: string, segment: string)
    ensures var r := Collapse(base + "/" + segment);
      IsSegment(segment) ==> |r| > |segment| && r[|r| - |segment| - 1..] == "/" + segment
  {
    if IsSegment(segment) {
      var head := base + "/";
      CollapseSlashFreeTail(head, segment);
      assert base + "/" + segment == head + segment;
      var c := Collapse(head);
      assert |c| > 0 && c[|c| - 1] == '/';
      var r := c + segment;
      assert r[|r| - |segment| - 1..] == [c[|c| - 1]] + segment;
    }
  }

  /** The parsed base is canonical: built from the first `n` of the path's segments. */
  lemma ParseBaseCanonical<K>(p: string, ofName: string -> Option<K>, dashboard: K) returns (n: nat)
    ensures n <= |Pieces(p)| && ParseWith(p, ofName, dashboard).basePath == BaseOf(Pieces(p)[..n])
  {
    var segs := Pieces(p);
    if |segs| == 0 {
      n := 0;
    } else if ofName(segs[|segs| - 1]).Some? {
      n := |segs| - 1;
    } else {
      n := |segs|;
      assert segs[..n] == segs;
    }
  }

  /** A canonical base's segments are the ones it was built from. */
  lemma PiecesOfBase(xs: seq<string>)
    requires AllSegments(xs)
    ensures Pieces(BaseOf(xs)) == xs
  {
    if |xs| == 0 {
      PiecesEmpty();
    } else {
      PiecesOfJoin(xs);
    }
  }

  /** A link below a canonical base parses back to that base and route. */
  lemma HrefParses<K>(xs: seq<string>, name: string, k: K, ofName: string -> Option<K>, dashboard: K)
    requires AllSegments(xs) && IsSegment(name) && ofName(name) == Some(k)
    ensures ParseWith(HrefWith(BaseOf(xs), name), ofName, dashboard) == Location(BaseOf(xs), k)
  {
    HrefRoute(BaseOf(xs), name, k, ofName, dashboard);
    PiecesOfBase(xs);
  }

  /** Round trip: the link to route `k` below a parsed base parses back to that base and `k`. */
  lemma ParseHrefRoundTrip<K>(p: string, name: string, k: K, ofName: string -> Option<K>, dashboard: K)
    requires IsSegment(name) && ofName(name) == Some(k)
    ensures var b := ParseWith(p, ofName, dashboard).basePath;
      ParseWith(HrefWith(b, name), ofName, dashboard) == Location(b, k)
  {
    var n := ParseBaseCanonical(p, ofName, dashboard);
    var xs := Pieces(p)[..n];
    PiecesAreSegments(p);
    assert AllSegments(xs);
    HrefParses(xs, name, k, ofName, dashboard);
  }

  /** The root path has no segments. */
  lemma PiecesRoot()
    ensures Pieces("/") == []
  {
    assert "/" == "" + "/" + "";
    PiecesAround("", "");
    PiecesEmpty();
  }

  /** A segment is its own only piece. */
  lemma PiecesOfSegment(segment: string)
    requires IsSegment(segment)
    ensures Pieces(segment) == [segment]
  {
    SplitSlashFree(segment);
    assert [segment][1..] == [];
  }

  /** A single segment after a slash. */
  lemma PiecesRooted(x: string)
    requires IsSegment(x)
    ensures Pieces("/" + x) == [x]
  {
    PiecesLeadingSlash(x);
    PiecesOfSegment(x);
  }

  /** Two segments, each after a slash. */
  lemma PiecesRootedPair(a: string, x: string)
    requires IsSegment(a) && IsSegment(x)
    ensures Pieces("/" + a + "/" + x) == [a, x]
  {
    var head := "/" + a;
    PiecesAround(head, x);
    PiecesRooted(a);
    PiecesOfSegment(x);
  }

  /** The segments of a link: the base's segments, then the route name. */
  lemma HrefSegments(base: string, segment: string)
    requires IsSegment(segment)
    ensures Pieces(HrefWith(base, segment)) == Pieces(base) + [segment]
  {
    var nb := if base == "/" then "" else base;
    var joined := nb + "/" + segment;
    assert HrefWith(base, segment) == Collapse(joined);
    PiecesCollapse(joined);
    PiecesAround(nb, segment);
    PiecesOfSegment(segment);
    if base == "/" {
      PiecesRoot();
      PiecesEmpty();
    }
    assert Pieces(nb) == Pieces(base);
  }

  /** Whatever the base, the link to a route parses to that route below the base's segments. */
  lemma HrefRoute<K>(base: string, segment: string, k: K, ofName: string -> Option<K>, dashboard: K)
    requires IsSegment(segment) && ofName(segment) == Some(k)
    ensures ParseWith(HrefWith(base, segment), ofName, dashboard) == Location(BaseOf(Pieces(base)), k)
  {
    HrefSegments(base, segment);
    var ys := Pieces(base) + [segment];
    assert ys[..|ys| - 1] == Pieces(base);
  }

  /** The parse depends on the path only through its segments. */
  lemma ParseBySegments<K>(p: string, q: string, ofName: string -> Option<K>, dashboard: K)
    requires Pieces(p) == Pieces(q)
    ensures ParseWith(p, ofName, dashboard) == ParseWith(q, ofName, dashboard)
  {
  }

  lemma PiecesRepeatedSlash(a: string, b: string)
    ensures Pieces(a + "//" + b) == Pieces(a + "/" + b)
  {
    var b2 := "/" + b;
    var x := a + "//" + b;
    var y := a + "/" + b;
    assert x == a + "/" + b2;
    PiecesAround(a, b2);
    PiecesAround(a, b);
    PiecesLeadingSlash(b);
    assert Pieces(b2) == Pieces(b);
  }

  /** Trailing slashes do not change the parse. */
  lemma ParseTrailingSlash<K>(p: string, ofName: string -> Option<K>, dashboard: K)
    ensures ParseWith(p + "/", ofName, dashboard) == ParseWith(p, ofName, dashboard)
  {
    PiecesTrailingSlash(p);
    ParseBySegments(p + "/", p, ofName, dashboard);
  }

  /** Repeated slashes do not change the parse. */
  lemma ParseRepeatedSlash<K>(a: string, b: string, ofName: string -> Option<K>, dashboard: K)
    ensures ParseWith(a + "//" + b, ofName, dashboard) == ParseWith(a + "/" + b, ofName, dashboard)
  {
    PiecesRepeatedSlash(a, b);
    ParseBySegments(a + "//" + b, a + "/" + b, ofName, dashboard);
  }

  /** An empty or all-slash path parses to the dashboard at the empty base. */
  lemma ParseAllSlashes<K>(p: string, ofName: string -> Option<K>, dashboard: K)
    requires forall i :: 0 <= i < |p| ==> p[i] == '/'
    ensures ParseWith(p, ofName, dashboard) == Location("", dashboard)
  {
    assert TrimTrailing(p) == "";
    PiecesEmpty();
    PiecesTrimTrailing(p);
  }

  /** The root base builds the same links as the empty base. */
  lemma HrefRootBase(segment: string)
    ensures HrefWith("/", segment) == HrefWith("", segment)
  {
  }
}
