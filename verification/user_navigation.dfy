/** The user app's routes (apps/user/src/app/user/navigation.ts): three
    route keys, their table with link targets, the table lookup and the
    prefix-based resolver that maps a pathname to a route. */
module UserNavigation {
  import opened Wrappers
  import opened Seqs
  import opened Paths

  /** `UserRouteKey`. */
  datatype UserRoute = Dashboard | Salons | Reservations

  /** The key as the string the source uses for it. */
  function Name(k: UserRoute): string {
    match k
    case Dashboard => "dashboard"
    case Salons => "salons"
    case Reservations => "reservations"
  }

  /** `UserRouteMeta`; `label` is called `caption` because `label` is a Dafny keyword. */
  datatype UserRouteMeta = UserRouteMeta(key: UserRoute, caption: string, description: string, to: string)

  /** `userRoutes`. */
  function Routes(): seq<UserRouteMeta> {
    [ UserRouteMeta(Dashboard, "ダッシュボード", "今日の予定やおすすめ情報を確認できます", "dashboard"),
      UserRouteMeta(Salons, "サロン一覧", "近くのサロンや空き状況を確認できます", "salons"),
      UserRouteMeta(Reservations, "予約一覧", "過去と今後の予約をまとめて確認できます", "reservations") ]
  }

  /** `getRouteMeta(key)`: the first row with that key. The source throws
      when there is none; every key has a row, so the lookup never fails,
      and the row links to the key's own path. */
  function GetRouteMeta(k: UserRoute): (meta: UserRouteMeta)
    ensures meta.key == k
    ensures meta in Routes()
    ensures meta.to == Name(k)
  {
    var rows := Routes();
    var found := FirstIndex(rows, (m: UserRouteMeta) => m.key == k);
    assert rows[match k case Dashboard => 0 case Salons => 1 case Reservations => 2].key == k;
    rows[found.value]
  }

  // ---------------------------------------------------------------------
  // Path normalisation.

  /** Drops the leading run of slashes. */
  function TrimLeading(s: string): (r: string)
    ensures |r| <= |s| && r == s[|s| - |r|..]
    ensures |r| == 0 || r[0] != '/'
    ensures forall i :: 0 <= i < |s| - |r| ==> s[i] == '/'
  {
    if |s| > 0 && s[0] == '/' then TrimLeading(s[1..]) else s
  }

  /** The length of the leading slash run. */
  function LeadingSlashes(p: string): nat {
    |p| - |TrimLeading(p)|
  }

  /** `pathname.replace(/^\/+|\/+$/g, '')`: the leading and the trailing
      slash runs removed. On an all-slash path the leading run is the whole
      path, so both readings (leading first, or one global pass) agree.
      What is kept is the stretch after the leading run, and everything
      dropped is a slash. */
  function Normalize(p: string): (r: string)
    ensures |r| == 0 || (r[0] != '/' && r[|r| - 1] != '/')
    ensures LeadingSlashes(p) + |r| <= |p| && r == p[LeadingSlashes(p)..LeadingSlashes(p) + |r|]
    ensures forall i :: 0 <= i < |p| && (i < LeadingSlashes(p) || LeadingSlashes(p) + |r| <= i) ==> p[i] == '/'
  {
    var lead := TrimLeading(p);
    var r := TrimTrailing(lead);
    assert forall i :: LeadingSlashes(p) <= i < |p| ==> p[i] == lead[i - LeadingSlashes(p)];
    r
  }

  /** `s.startsWith(prefix)`. */
  predicate StartsWith(s: string, prefix: string) {
    |prefix| <= |s| && s[..|prefix|] == prefix
  }

  /** `resolveRouteKey(pathname)`: the normalised path is matched against
      the route names as prefixes, salons first, and anything else is the
      dashboard. */
  function ResolveRouteKey(p: string): (r: UserRoute)
    ensures r != Dashboard ==> StartsWith(Normalize(p), Name(r))
    ensures r == Dashboard <==> !StartsWith(Normalize(p), "salons") && !StartsWith(Normalize(p), "reservations")
  {
    var n := Normalize(p);
    if StartsWith(n, "salons") then Salons
    else if StartsWith(n, "reservations") then Reservations
    else Dashboard
  }

  lemma TrimLeadingSlash(p: string)
    ensures TrimLeading("/" + p) == TrimLeading(p)
  {
    assert ("/" + p)[1..] == p;
  }

  /** A trailing slash survives the leading trim unless the whole path is slashes. */
  lemma {:induction false} TrimLeadingTrailingSlash(p: string)
    ensures TrimLeading(p + "/") == TrimLeading(p) + "/" || (TrimLeading(p + "/") == "" && TrimLeading(p) == "")
  {
    if |p| > 0 && p[0] == '/' {
      assert (p + "/")[1..] == p[1..] + "/";
      TrimLeadingTrailingSlash(p[1..]);
    } else if |p| == 0 {
      assert TrimLeading("/") == TrimLeading("");
    }
  }

  lemma TrimTrailingSlash(s: string)
    ensures TrimTrailing(s + "/") == TrimTrailing(s)
  {
    assert (s + "/")[..|s + "/"| - 1] == s;
  }

  /** Outer slashes do not matter: the normal form of `'/' + p + '/'` is that of `p`. */
  lemma NormalizeOuterSlashes(p: string)
    ensures Normalize("/" + p + "/") == Normalize(p)
  {
    var q := p + "/";
    assert "/" + p + "/" == "/" + q;
    TrimLeadingSlash(q);
    TrimLeadingTrailingSlash(p);
    if TrimLeading(q) != "" {
      TrimTrailingSlash(TrimLeading(p));
    }
  }

  /** Leading and trailing slash runs are ignored by the resolver. */
  lemma ResolveIgnoresOuterSlashes(p: string)
    ensures ResolveRouteKey("/" + p + "/") == ResolveRouteKey(p)
  {
    NormalizeOuterSlashes(p);
  }

  /** A path that starts with a route name keeps that name after normalising. */
  lemma NormalizeKeepsName(k: UserRoute, rest: string)
    ensures StartsWith(Normalize(Name(k) + rest), Name(k))
  {
    var p := Name(k) + rest;
    var n := |Name(k)|;
    assert p[0] != '/';
    assert TrimLeading(p) == p;
    var r := Normalize(p);
    assert r == TrimTrailing(p);
    assert |r| >= n by {
      assert p[n - 1] == Name(k)[n - 1] != '/';
    }
    assert r[..n] == Name(k);
  }

  /** A string that starts with a nonempty prefix starts with its first character. */
  lemma HeadOfPrefix(s: string, prefix: string)
    requires |prefix| > 0
    ensures StartsWith(s, prefix) ==> |s| > 0 && s[0] == prefix[0]
  {
    if StartsWith(s, prefix) {
      assert s[..|prefix|][0] == s[0];
    }
  }

  /** The prefix rule holds whatever follows the name, as in `salonsX`. */
  lemma ResolvePrefix(k: UserRoute, rest: string)
    ensures ResolveRouteKey(Name(k) + rest) == k
  {
    var n := Normalize(Name(k) + rest);
    NormalizeKeepsName(k, rest);
    HeadOfPrefix(n, Name(k));
    HeadOfPrefix(n, "salons");
    HeadOfPrefix(n, "reservations");
  }

  /** Each route's own path resolves to it. */
  lemma ResolveOwnPath(k: UserRoute)
    ensures ResolveRouteKey("/" + Name(k)) == k
  {
    TrimLeadingSlash(Name(k));
    assert Name(k) + "" == Name(k);
    ResolvePrefix(k, "");
  }
}
