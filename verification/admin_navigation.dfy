/** The admin app's routes (apps/admin/src/app/admin/navigation.ts): six
    route keys, their table, the key test, the table lookup, the link
    builder and the location parser. */
module AdminNavigation {
  import opened Wrappers
  import opened Paths
  import opened RouteTables

  /** `AdminRouteKey`. */
  datatype AdminRoute = Dashboard | Users | Salons | Stylists | Menus | Posts

  /** The key as the string the source uses for it. */
  function Name(k: AdminRoute): string {
    match k
    case Dashboard => "dashboard"
    case Users => "users"
    case Salons => "salons"
    case Stylists => "stylists"
    case Menus => "menus"
    case Posts => "posts"
  }

  /** `adminRoutes`. */
  function Routes(): seq<RouteMeta<AdminRoute>> {
    [ RouteMeta(Dashboard, "ダッシュボード", "管理サマリーと重要指標"),
      RouteMeta(Users, "利用者一覧", "利用者情報の検索・出力"),
      RouteMeta(Salons, "拠点一覧", "提携拠点の基本情報"),
      RouteMeta(Stylists, "専門サポーター", "看護師・専門スタッフの管理"),
      RouteMeta(Menus, "メニュー管理", "提供メニューと料金の整理"),
      RouteMeta(Posts, "お知らせ配信", "通知・お知らせの配信履歴") ]
  }

  /** The row of `Routes()` that carries `k`. */
  function Position(k: AdminRoute): nat {
    match k
    case Dashboard => 0
    case Users => 1
    case Salons => 2
    case Stylists => 3
    case Menus => 4
    case Posts => 5
  }

  /** Every key has exactly one row, and names tell keys apart. */
  lemma RoutesShape()
    ensures |Routes()| == 6 && DistinctNames(Routes(), Name)
    ensures forall k :: Position(k) < |Routes()| && Routes()[Position(k)].key == k
    ensures forall a, b :: Name(a) == Name(b) ==> a == b
  {
  }

  /** Looking up a key's name finds that key's row. */
  lemma NameFindsRow(k: AdminRoute)
    ensures MapGet(Routes(), Name, Name(k)) == Some(Routes()[Position(k)])
    ensures Routes()[Position(k)].key == k
  {
    RoutesShape();
    RowInMap(Routes(), Name, Position(k));
  }

  /** `isAdminRoute(value)`. */
  function IsAdminRoute(value: string): (r: bool)
    ensures r <==> exists k :: Name(k) == value
  {
    var found := MapGet(Routes(), Name, value);
    if found.Some? then
      assert Name(found.value.key) == value;
      true
    else
      assert forall k :: Name(k) != value by {
        forall k ensures Name(k) != value {
          NameFindsRow(k);
        }
      }
      false
  }

  /** The key a route-table string names, if any: the narrowing
      `value is AdminRouteKey` that `isAdminRoute` performs. */
  function OfName(value: string): (r: Option<AdminRoute>)
    ensures r.Some? <==> IsAdminRoute(value)
    ensures r.Some? ==> Name(r.value) == value
  {
    match MapGet(Routes(), Name, value)
    case Some(meta) => Some(meta.key)
    case None => None
  }

  lemma OfNameOfName(k: AdminRoute)
    ensures OfName(Name(k)) == Some(k)
  {
    RoutesShape();
    assert IsAdminRoute(Name(k));
  }

  /** `getRouteMeta(key)`: the table row of `key`. The source throws when
      the map has no entry; every key has one, so the lookup never fails. */
  function GetRouteMeta(k: AdminRoute): (meta: RouteMeta<AdminRoute>)
    ensures meta.key == k
    ensures meta in Routes()
  {
    NameFindsRow(k);
    MapGet(Routes(), Name, Name(k)).value
  }

  /** `getRoutePathSegment(key)`: a segment that names `key` again. */
  function PathSegment(k: AdminRoute): (s: string)
    ensures IsSegment(s)
    ensures OfName(s) == Some(k)
  {
    OfNameOfName(k);
    Name(k)
  }

  /** `getRouteHref(basePath, key)`. */
  function GetRouteHref(basePath: string, k: AdminRoute): (r: string)
    ensures NoDoubleSlash(r)
    ensures |r| > |PathSegment(k)| && r[|r| - |PathSegment(k)| - 1..] == "/" + PathSegment(k)
    ensures Pieces(r) == Pieces(basePath) + [PathSegment(k)]
    ensures r[0] == if basePath == "" || basePath == "/" then '/' else basePath[0]
  {
    HrefSegments(basePath, PathSegment(k));
    HrefWith(basePath, PathSegment(k))
  }

  /** Below a canonical base (one a parse returns), the link is exactly
      that base followed by `/` and the key's segment. */
  lemma HrefOfBase(xs: seq<string>, k: AdminRoute)
    requires AllSegments(xs)
    ensures GetRouteHref(BaseOf(xs), k) == BaseOf(xs + [PathSegment(k)])
  {
    Paths.HrefOfBase(xs, PathSegment(k));
  }

  /** `parseLocation(pathname)`, stated over the path's nonempty segments. */
  function ParseLocation(p: string): (r: Location<AdminRoute>)
    ensures var segs := Pieces(p);
      && (|segs| == 0 ==> r == Location("", Dashboard))
      && (|segs| > 0 && IsAdminRoute(segs[|segs| - 1]) ==>
            Name(r.route) == segs[|segs| - 1] && r.basePath == BaseOf(segs[..|segs| - 1]))
      && (|segs| > 0 && !IsAdminRoute(segs[|segs| - 1]) ==> r == Location(BaseOf(segs), Dashboard))
  {
    ParseWith(p, OfName, Dashboard)
  }

  /** The root base and the empty base build the same links. */
  lemma HrefRootBase(k: AdminRoute)
    ensures GetRouteHref("/", k) == GetRouteHref("", k)
  {
    Paths.HrefRootBase(PathSegment(k));
  }

  /** An empty or all-slash path is the dashboard at the empty base. */
  lemma ParseAllSlashes(p: string)
    requires forall i :: 0 <= i < |p| ==> p[i] == '/'
    ensures ParseLocation(p) == Location("", Dashboard)
  {
    Paths.ParseAllSlashes(p, OfName, Dashboard);
  }

  /** Trailing and repeated slashes do not change the parse. */
  lemma ParseIgnoresExtraSlashes(a: string, b: string)
    ensures ParseLocation(a + "/") == ParseLocation(a)
    ensures ParseLocation(a + "//" + b) == ParseLocation(a + "/" + b)
  {
    ParseTrailingSlash(a, OfName, Dashboard);
    ParseRepeatedSlash(a, b, OfName, Dashboard);
  }

  /** Round trip: the link to `k` below a parsed base parses back to that base and `k`. */
  lemma HrefRoundTrip(p: string, k: AdminRoute)
    ensures var b := ParseLocation(p).basePath;
      ParseLocation(GetRouteHref(b, k)) == Location(b, k)
  {
    ParseHrefRoundTrip(p, PathSegment(k), k, OfName, Dashboard);
  }

  /** Whatever the base, the link to `k` parses to `k` below the base's segments. */
  lemma HrefParsesToRoute(basePath: string, k: AdminRoute)
    ensures ParseLocation(GetRouteHref(basePath, k)) == Location(BaseOf(Pieces(basePath)), k)
  {
    HrefRoute(basePath, PathSegment(k), k, OfName, Dashboard);
  }
}
