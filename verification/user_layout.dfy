/** The pure helpers of the user app's layout (apps/user/src/app/user/layout.tsx):
    the `tel:` link of the support phone number, the path of a route in
    either audience view, and the two links of the audience toggle. */
module UserLayout {
  import opened Seqs
  import opened Paths
  import opened UserNavigation
  import opened Audiences

  // ---------------------------------------------------------------------
  // Telephone links.

  /** What `/[^0-9+]/g` leaves in place: ASCII digits and `+`. */
  predicate IsTelChar(c: char) {
    ('0' <= c <= '9') || c == '+'
  }

  /** `toTelHref(input)`: `tel:` followed by the digits and `+` signs of the input, in order. */
  function TelHref(input: string): (r: string)
    ensures |r| >= 4 && r[..4] == "tel:"
    ensures r[4..] == Filter(input, IsTelChar)
    ensures forall i :: 4 <= i < |r| ==> IsTelChar(r[i])
  {
    var normalized := Filter(input, IsTelChar);
    if |normalized| > 0 then "tel:" + normalized else "tel:"
  }

  /** The number part of a link to two pieces is the two number parts in order. */
  lemma TelHrefAppend(a: string, b: string)
    ensures TelHref(a + b)[4..] == TelHref(a)[4..] + TelHref(b)[4..]
  {
    FilterAppend(a, b, IsTelChar);
  }

  /** Building a link from a link's own number part gives the same link. */
  lemma TelHrefIdempotent(input: string)
    ensures TelHref(TelHref(input)[4..]) == TelHref(input)
  {
    var digits := TelHref(input)[4..];
    FilterAll(digits, IsTelChar);
    assert TelHref(input) == "tel:" + digits;
  }

  // ---------------------------------------------------------------------
  // Audience paths.

  /** The segments that select a view: `family` for the family view, none for the senior view. */
  function ViewSegments(a: Audience): seq<string> {
    if a == Family then ["family"] else []
  }

  /** The segments that select a route: none for the dashboard, the route's name otherwise. */
  function RouteSegments(route: UserRoute): seq<string> {
    if route == Dashboard then [] else [Name(route)]
  }

  /** `getAudiencePath(audience, route)`. The family view lives under
      `/family`; the dashboard is the view's root. */
  function AudiencePath(a: Audience, route: UserRoute): (p: string)
    ensures |p| > 0 && p[0] == '/'
    ensures a == Family <==> StartsWith(p, "/family")
    ensures p == "/" + Join(ViewSegments(a) + RouteSegments(route))
  {
    if route == Dashboard then (if a == Family then "/family" else "/")
    else if a == Family then
      var p := "/family/" + Name(route);
      assert p[..7] == "/family";
      p
    else
      var p := "/" + Name(route);
      HeadOfPrefix(p[1..], "family");
      assert p[1..][..6] == p[1..7];
      p
  }

  /** The segments of a view's path: the view's, then the route's. */
  lemma AudiencePathSegments(a: Audience, route: UserRoute)
    ensures Pieces(AudiencePath(a, route)) == ViewSegments(a) + RouteSegments(route)
  {
    if route == Dashboard {
      if a == Family {
        FamilyRootSegments();
      } else {
        SeniorRootSegments();
      }
    } else if a == Family {
      FamilyRouteSegments(route);
    } else {
      SeniorRouteSegments(route);
    }
  }

  lemma SeniorRootSegments()
    ensures Pieces(AudiencePath(Senior, Dashboard)) == []
  {
    PiecesRoot();
  }

  lemma FamilyRootSegments()
    ensures Pieces(AudiencePath(Family, Dashboard)) == ["family"]
  {
    PiecesFamily();
  }

  lemma SeniorRouteSegments(route: UserRoute)
    requires route != Dashboard
    ensures Pieces(AudiencePath(Senior, route)) == [Name(route)]
  {
    PiecesRooted(Name(route));
  }

  lemma FamilyRouteSegments(route: UserRoute)
    requires route != Dashboard
    ensures Pieces(AudiencePath(Family, route)) == ["family", Name(route)]
  {
    PiecesFamilyRoute(Name(route));
  }

  lemma PiecesFamily()
    ensures Pieces("/family") == ["family"]
  {
    var fam := "family";
    assert "/" + fam == "/family";
    PiecesRooted(fam);
  }

  lemma PiecesFamilyRoute(x: string)
    requires IsSegment(x)
    ensures Pieces("/family/" + x) == ["family", x]
  {
    var fam := "family";
    assert IsSegment(fam);
    assert "/family/" + x == "/" + fam + "/" + x;
    PiecesRootedPair(fam, x);
  }

  /** Normalising a slash followed by a path without outer slashes gives that path. */
  lemma NormalizeRooted(x: string)
    requires |x| > 0 && x[0] != '/' && x[|x| - 1] != '/'
    ensures Normalize("/" + x) == x
  {
    var p := "/" + x;
    assert p[1..] == x;
    assert TrimLeading(p) == x;
  }

  /** Every senior path resolves back to its route. */
  lemma SeniorPathResolves(route: UserRoute)
    ensures ResolveRouteKey(AudiencePath(Senior, route)) == route
  {
    if route == Dashboard {
      assert TrimLeading("/") == "";
    } else {
      ResolveOwnPath(route);
    }
  }

  /** A family path normalises to `family`, then the route's name if it has one. */
  lemma FamilyNormalForm(route: UserRoute)
    ensures Normalize(AudiencePath(Family, route)) == if route == Dashboard then "family" else "family/" + Name(route)
  {
    if route == Dashboard {
      NormalizeRooted("family");
    } else {
      var x := "family/" + Name(route);
      assert "/family/" + Name(route) == "/" + x;
      NormalizeRooted(x);
    }
  }

  /** A senior path normalises to the route's name, or to nothing for the dashboard. */
  lemma SeniorNormalForm(route: UserRoute)
    ensures Normalize(AudiencePath(Senior, route)) == if route == Dashboard then "" else Name(route)
  {
    if route == Dashboard {
      assert TrimLeading("/") == "";
    } else {
      NormalizeRooted(Name(route));
    }
  }

  /** As written, every family path resolves to the dashboard: the prefix
      rule is anchored at the start, which is `family`. */
  lemma FamilyPathResolvesToDashboard(route: UserRoute)
    ensures ResolveRouteKey(AudiencePath(Family, route)) == Dashboard
  {
    var n := Normalize(AudiencePath(Family, route));
    FamilyNormalForm(route);
    assert n[0] == 'f';
    HeadOfPrefix(n, "salons");
    HeadOfPrefix(n, "reservations");
  }

  /** The leading segment of a normalised path is `family`. */
  predicate FamilyHead(n: string) {
    n == "family" || StartsWith(n, "family/")
  }

  /** The route of a pathname in either view: a leading `family` segment is
      skipped before the prefix rule is applied. */
  function ResolveAudienceRouteKey(p: string): (r: UserRoute)
    ensures !FamilyHead(Normalize(p)) ==> r == ResolveRouteKey(p)
    ensures Normalize(p) == "family" ==> r == Dashboard
    ensures FamilyHead(Normalize(p)) && |Normalize(p)| > 7 ==> r == ResolveRouteKey(Normalize(p)[7..])
  {
    var n := Normalize(p);
    if n == "family" then Dashboard
    else if StartsWith(n, "family/") then ResolveRouteKey(n[7..])
    else ResolveRouteKey(p)
  }

  /** Every path of either view resolves back to its route. */
  lemma AudiencePathRoundTrip(a: Audience, route: UserRoute)
    ensures ResolveAudienceRouteKey(AudiencePath(a, route)) == route
  {
    if a == Senior {
      SeniorPathRoundTrip(route);
    } else {
      FamilyPathRoundTrip(route);
    }
  }

  lemma SeniorPathRoundTrip(route: UserRoute)
    ensures ResolveAudienceRouteKey(AudiencePath(Senior, route)) == route
  {
    SeniorPathResolves(route);
    var n := Normalize(AudiencePath(Senior, route));
    SeniorNormalForm(route);
    assert |n| == 0 || n[0] != 'f';
    HeadOfPrefix(n, "family/");
  }

  lemma FamilyPathRoundTrip(route: UserRoute)
    ensures ResolveAudienceRouteKey(AudiencePath(Family, route)) == route
  {
    FamilyNormalForm(route);
    if route != Dashboard {
      FamilyTailResolves(route, "family/" + Name(route));
    }
  }

  /** Past the `family/` head, the prefix rule sees the route's own name. */
  lemma FamilyTailResolves(route: UserRoute, x: string)
    requires x == "family/" + Name(route)
    ensures StartsWith(x, "family/") && ResolveRouteKey(x[7..]) == route
  {
    assert x[..7] == "family/";
    assert x[7..] == Name(route) + "";
    ResolvePrefix(route, "");
  }

  // ---------------------------------------------------------------------
  // The audience toggle.

  /** One tab of `AudienceToggle`. */
  datatype AudienceTab = AudienceTab(key: Audience, caption: string, to: string)

  /** The toggle's two tabs for the current route: the same route in the
      senior view and in the family view. */
  function ToggleTabs(currentRoute: UserRoute): (tabs: seq<AudienceTab>)
    ensures |tabs| == 2 && tabs[0].key == Senior && tabs[1].key == Family
    ensures ResolveAudienceRouteKey(tabs[0].to) == currentRoute
    ensures ResolveAudienceRouteKey(tabs[1].to) == currentRoute
    ensures !StartsWith(tabs[0].to, "/family") && StartsWith(tabs[1].to, "/family")
  {
    var senior := AudiencePath(Senior, currentRoute);
    var family := AudiencePath(Family, currentRoute);
    AudiencePathRoundTrip(Senior, currentRoute);
    AudiencePathRoundTrip(Family, currentRoute);
    [AudienceTab(Senior, "かんたん表示", senior), AudienceTab(Family, "ご家族向け表示", family)]
  }

  /** As written, the layout takes the current route from `resolveRouteKey`,
      so on a family page the toggle offers the dashboards instead of the
      page being shown. */
  lemma FamilyToggleLosesRoute(route: UserRoute)
    requires route != Dashboard
    ensures ToggleTabs(ResolveRouteKey(AudiencePath(Family, route)))[0].to == "/"
  {
    FamilyPathResolvesToDashboard(route);
  }

  /** With the audience-aware resolver, the toggle on any page of either
      view links to that page in both views. */
  lemma ToggleKeepsRoute(a: Audience, route: UserRoute)
    ensures var tabs := ToggleTabs(ResolveAudienceRouteKey(AudiencePath(a, route)));
      tabs[0].to == AudiencePath(Senior, route) && tabs[1].to == AudiencePath(Family, route)
  {
    AudiencePathRoundTrip(a, route);
  }
}
