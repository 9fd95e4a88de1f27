/** The store app's salon routes (apps/store/src/app/salon/navigation.ts): five route
    keys, their table, the key test, the table lookup, the link builder
    and the location parser, written as in the admin app. */
module SalonNavigation {
  import opened Wrappers
  import opened Paths
  import opened RouteTables

  /** `SalonRouteKey`. */
  datatype SalonRoute = Dashboard | Reservations | Stylists | Menus | Posts

  /** The key as the string the source uses for it. */
  function Name(k: SalonRoute): string {
    match k
    case Dashboard => "dashboard"
    case Reservations => "reservations"
    case Stylists => "stylists"
    case Menus => "menus"
    case Posts => "posts"
  }

  /** `salonRoutes`. */
  function Routes(): seq<RouteMeta<SalonRoute>> {
    [ RouteMeta(Dashboard, "ダッシュボード", "日次サマリーと通知"),
      RouteMeta(Reservations, "予約一覧", "予約の検索と状態確認"),
      RouteMeta(Stylists, "専門スタッフ", "担当者の稼働状況管理"),
      RouteMeta(Menus, "提供メニュー", "サービス内容と料金の調整"),
      RouteMeta(Posts, "お知らせ配信", "店舗向け・利用者向け情報") ]
  }

  /** The row of `Routes()` that carries `k`. */
  function Position(k: SalonRoute): nat {
    match k
    case Dashboard => 0
    case Reservations => 1
    case Stylists => 2
    case Menus => 3
    case Posts => 4
  }

  /** Every key has exactly one row, and names tell keys apart. */
  lemma RoutesShape()
    ensures |Routes()| == 5 && DistinctNames(Routes(), Name)
    ensures forall k :: Position(k) < |Routes()| && Routes()[Position(k)].key == k
    ensures forall a, b :: Name(a) == Name(b) ==> a == b
  {
  }

  /** Looking up a key's name finds that key's row. */
  lemma NameFindsRow(k: SalonRoute)
    ensures MapGet(Routes(), Name, Name(k)) == Some(Routes()[Position(k)])
    ensures Routes()[Position(k)].key == k
  {
    RoutesShape();
    RowInMap(Routes(), Name, Position(k));
  }

  /** `isSalonRoute(value)`. */
  function IsSalonRoute(value: string): (r: bool)
    ensures r <==> exists k :: Name(k) == value
  {
    var found := MapGet(Routes(), Name, value);
    if found.Some? then
      assert Name(found.value.key) == value;
      true
    else
      assert forall k :: Name(k) != value by {
        forall k ensures Name(k) != value {
          NameFindsRow(k);
        }
      }
      false
  }

  /** The key a route-table string names, if any: the narrowing
      `value is SalonRouteKey` that `isSalonRoute` performs. */
  function OfName(value: string): (r: Option<SalonRoute>)
    ensures r.Some? <==> IsSalonRoute(value)
    ensures r.Some? ==> Name(r.value) == value
  {
    match MapGet(Routes(), Name, value)
    case Some(meta) => Some(meta.key)
    case None => None
  }

  lemma OfNameOfName(k: SalonRoute)
    ensures OfName(Name(k)) == Some(k)
  {
    RoutesShape();
    assert IsSalonRoute(Name(k));
  }

  /** `getSalonRouteMeta(key)`: the table row of `key`. The source throws when
      the map has no entry; every key has one, so the lookup never fails. */
  function GetSalonRouteMeta(k: SalonRoute): (meta: RouteMeta<SalonRoute>)
    ensures meta.key == k
    ensures meta in Routes()
  {
    NameFindsRow(k);
    MapGet(Routes(), Name, Name(k)).value
  }

  /** `getSalonRoutePathSegment(key)`: a segment that names `key` again. */
  function SalonPathSegment(k: SalonRoute): (s: string)
    ensures IsSegment(s)
    ensures OfName(s) == Some(k)
  {
    OfNameOfName(k);
    Name(k)
  }

  /** `getSalonRouteHref(basePath, key)`. */
  function GetSalonRouteHref(basePath: string, k: SalonRoute): (r: string)
    ensures NoDoubleSlash(r)
    ensures |r| > |SalonPathSegment(k)| && r[|r| - |SalonPathSegment(k)| - 1..] == "/" + SalonPathSegment(k)
    ensures Pieces(r) == Pieces(basePath) + [SalonPathSegment(k)]
    ensures r[0] == if basePath == "" || basePath == "/" then '/' else basePath[0]
  {
    HrefSegments(basePath, SalonPathSegment(k));
    HrefWith(basePath, SalonPathSegment(k))
  }

  /** Below a canonical base (one a parse returns), the link is exactly
      that base followed by `/` and the key's segment. */
  lemma HrefOfBase(xs: seq<string>, k: SalonRoute)
    requires AllSegments(xs)
    ensures GetSalonRouteHref(BaseOf(xs), k) == BaseOf(xs + [SalonPathSegment(k)])
  {
    Paths.HrefOfBase(xs, SalonPathSegment(k));
  }

  /** `parseSalonLocation(pathname)`, stated over the path's nonempty segments. */
  function ParseSalonLocation(p: string): (r: Location<SalonRoute>)
    ensures var segs := Pieces(p);
      && (|segs| == 0 ==> r == Location("", Dashboard))
      && (|segs| > 0 && IsSalonRoute(segs[|segs| - 1]) ==>
            Name(r.route) == segs[|segs| - 1] && r.basePath == BaseOf(segs[..|segs| - 1]))
      && (|segs| > 0 && !IsSalonRoute(segs[|segs| - 1]) ==> r == Location(BaseOf(segs), Dashboard))
  {
    ParseWith(p, OfName, Dashboard)
  }

  /** The root base and the empty base build the same links. */
  lemma HrefRootBase(k: SalonRoute)
    ensures GetSalonRouteHref("/", k) == GetSalonRouteHref("", k)
  {
    Paths.HrefRootBase(SalonPathSegment(k));
  }

  /** An empty or all-slash path is the dashboard at the empty base. */
  lemma ParseAllSlashes(p: string)
    requires forall i :: 0 <= i < |p| ==> p[i] == '/'
    ensures ParseSalonLocation(p) == Location("", Dashboard)
  {
    Paths.ParseAllSlashes(p, OfName, Dashboard);
  }

  /** Trailing and repeated slashes do not change the parse. */
  lemma ParseIgnoresExtraSlashes(a: string, b: string)
    ensures ParseSalonLocation(a + "/") == ParseSalonLocation(a)
    ensures ParseSalonLocation(a + "//" + b) == ParseSalonLocation(a + "/" + b)
  {
    ParseTrailingSlash(a, OfName, Dashboard);
    ParseRepeatedSlash(a, b, OfName, Dashboard);
  }

  /** Round trip: the link to `k` below a parsed base parses back to that base and `k`. */
  lemma HrefRoundTrip(p: string, k: SalonRoute)
    ensures var b := ParseSalonLocation(p).basePath;
      ParseSalonLocation(GetSalonRouteHref(b, k)) == Location(b, k)
  {
    ParseHrefRoundTrip(p, SalonPathSegment(k), k, OfName, Dashboard);
  }

  /** Whatever the base, the link to `k` parses to `k` below the base's segments. */
  lemma HrefParsesToRoute(basePath: string, k: SalonRoute)
    ensures ParseSalonLocation(GetSalonRouteHref(basePath, k)) == Location(BaseOf(Pieces(basePath)), k)
  {
    HrefRoute(basePath, SalonPathSegment(k), k, OfName, Dashboard);
  }
}
