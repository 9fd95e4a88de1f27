/** The client app's routes (apps/client/src/app/client/navigation.ts): four route
    keys, their table, the key test, the table lookup, the link builder
    and the location parser, written as in the admin app. */
module ClientNavigation {
  import opened Wrappers
  import opened Paths
  import opened RouteTables

  /** `ClientRouteKey`. */
  datatype ClientRoute = Dashboard | Salons | Reservations | Users

  /** The key as the string the source uses for it. */
  function Name(k: ClientRoute): string {
    match k
    case Dashboard => "dashboard"
    case Salons => "salons"
    case Reservations => "reservations"
    case Users => "users"
  }

  /** `clientRoutes`. */
  function Routes(): seq<RouteMeta<ClientRoute>> {
    [ RouteMeta(Dashboard, "ダッシュボード", "主要指標と共有リソース"),
      RouteMeta(Salons, "提携サロン", "拠点の運営状況と予定"),
      RouteMeta(Reservations, "派遣予約", "訪問予定と状態の確認"),
      RouteMeta(Users, "利用者", "従業員の利用状況") ]
  }

  /** The row of `Routes()` that carries `k`. */
  function Position(k: ClientRoute): nat {
    match k
    case Dashboard => 0
    case Salons => 1
    case Reservations => 2
    case Users => 3
  }

  /** Every key has exactly one row, and names tell keys apart. */
  lemma RoutesShape()
    ensures |Routes()| == 4 && DistinctNames(Routes(), Name)
    ensures forall k :: Position(k) < |Routes()| && Routes()[Position(k)].key == k
    ensures forall a, b :: Name(a) == Name(b) ==> a == b
  {
  }

  /** Looking up a key's name finds that key's row. */
  lemma NameFindsRow(k: ClientRoute)
    ensures MapGet(Routes(), Name, Name(k)) == Some(Routes()[Position(k)])
    ensures Routes()[Position(k)].key == k
  {
    RoutesShape();
    RowInMap(Routes(), Name, Position(k));
  }

  /** `isClientRoute(value)`. */
  function IsClientRoute(value: string): (r: bool)
    ensures r <==> exists k :: Name(k) == value
  {
    var found := MapGet(Routes(), Name, value);
    if found.Some? then
      assert Name(found.value.key) == value;
      true
    else
      assert forall k :: Name(k) != value by {
        forall k ensures Name(k) != value {
          NameFindsRow(k);
        }
      }
      false
  }

  /** The key a route-table string names, if any: the narrowing
      `value is ClientRouteKey` that `isClientRoute` performs. */
  function OfName(value: string): (r: Option<ClientRoute>)
    ensures r.Some? <==> IsClientRoute(value)
    ensures r.Some? ==> Name(r.value) == value
  {
    match MapGet(Routes(), Name, value)
    case Some(meta) => Some(meta.key)
    case None => None
  }

  lemma OfNameOfName(k: ClientRoute)
    ensures OfName(Name(k)) == Some(k)
  {
    RoutesShape();
    assert IsClientRoute(Name(k));
  }

  /** `getClientRouteMeta(key)`: the table row of `key`. The source throws when
      the map has no entry; every key has one, so the lookup never fails. */
  function GetClientRouteMeta(k: ClientRoute): (meta: RouteMeta<ClientRoute>)
    ensures meta.key == k
    ensures meta in Routes()
  {
    NameFindsRow(k);
    MapGet(Routes(), Name, Name(k)).value
  }

  /** `getClientRoutePathSegment(key)`: a segment that names `key` again. */
  function ClientPathSegment(k: ClientRoute): (s: string)
    ensures IsSegment(s)
    ensures OfName(s) == Some(k)
  {
    OfNameOfName(k);
    Name(k)
  }

  /** `getClientRouteHref(basePath, key)`. */
  function GetClientRouteHref(basePath: string, k: ClientRoute): (r: string)
    ensures NoDoubleSlash(r)
    ensures |r| > |ClientPathSegment(k)| && r[|r| - |ClientPathSegment(k)| - 1..] == "/" + ClientPathSegment(k)
    ensures Pieces(r) == Pieces(basePath) + [ClientPathSegment(k)]
    ensures r[0] == if basePath == "" || basePath == "/" then '/' else basePath[0]
  {
    HrefSegments(basePath, ClientPathSegment(k));
    HrefWith(basePath, ClientPathSegment(k))
  }

  /** Below a canonical base (one a parse returns), the link is exactly
      that base followed by `/` and the key's segment. */
  lemma HrefOfBase(xs: seq<string>, k: ClientRoute)
    requires AllSegments(xs)
    ensures GetClientRouteHref(BaseOf(xs), k) == BaseOf(xs + [ClientPathSegment(k)])
  {
    Paths.HrefOfBase(xs, ClientPathSegment(k));
  }

  /** `parseClientLocation(pathname)`, stated over the path's nonempty segments. */
  function ParseClientLocation(p: string): (r: Location<ClientRoute>)
    ensures var segs := Pieces(p);
      && (|segs| == 0 ==> r == Location("", Dashboard))
      && (|segs| > 0 && IsClientRoute(segs[|segs| - 1]) ==>
            Name(r.route) == segs[|segs| - 1] && r.basePath == BaseOf(segs[..|segs| - 1]))
      && (|segs| > 0 && !IsClientRoute(segs[|segs| - 1]) ==> r == Location(BaseOf(segs), Dashboard))
  {
    ParseWith(p, OfName, Dashboard)
  }

  /** The root base and the empty base build the same links. */
  lemma HrefRootBase(k: ClientRoute)
    ensures GetClientRouteHref("/", k) == GetClientRouteHref("", k)
  {
    Paths.HrefRootBase(ClientPathSegment(k));
  }

  /** An empty or all-slash path is the dashboard at the empty base. */
  lemma ParseAllSlashes(p: string)
    requires forall i :: 0 <= i < |p| ==> p[i] == '/'
    ensures ParseClientLocation(p) == Location("", Dashboard)
  {
    Paths.ParseAllSlashes(p, OfName, Dashboard);
  }

  /** Trailing and repeated slashes do not change the parse. */
  lemma ParseIgnoresExtraSlashes(a: string, b: string)
    ensures ParseClientLocation(a + "/") == ParseClientLocation(a)
    ensures ParseClientLocation(a + "//" + b) == ParseClientLocation(a + "/" + b)
  {
    ParseTrailingSlash(a, OfName, Dashboard);
    ParseRepeatedSlash(a, b, OfName, Dashboard);
  }

  /** Round trip: the link to `k` below a parsed base parses back to that base and `k`. */
  lemma HrefRoundTrip(p: string, k: ClientRoute)
    ensures var b := ParseClientLocation(p).basePath;
      ParseClientLocation(GetClientRouteHref(b, k)) == Location(b, k)
  {
    ParseHrefRoundTrip(p, ClientPathSegment(k), k, OfName, Dashboard);
  }

  /** Whatever the base, the link to `k` parses to `k` below the base's segments. */
  lemma HrefParsesToRoute(basePath: string, k: ClientRoute)
    ensures ParseClientLocation(GetClientRouteHref(basePath, k)) == Location(BaseOf(Pieces(basePath)), k)
  {
    HrefRoute(basePath, ClientPathSegment(k), k, OfName, Dashboard);
  }
}
