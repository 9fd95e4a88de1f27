/** The store (salon) app's data layer (apps/store/src/app/salon/data.ts):
    the joined reservations, their status tally, the catalogue counts and
    totals, and the two "latest first" lists.

    The module-level constants of the source are computed from the fixture
    arrays; here they are functions of those arrays, and each list function
    takes the array it reads. */
module StoreData {
  import opened Wrappers
  import opened Seqs
  import opened Sorting
  import opened Entities
  import opened MockData
  import opened Grouping
  import opened SalonCatalog

  // ---------------------------------------------------------------------
  // Reservation status tally.

  datatype StatusTally = StatusTally(total: nat, confirmed: nat, cancelled: nat, draft: nat)

  predicate IsConfirmed(j: JoinedReservation) { j.reservation.status == Confirmed }
  predicate IsCancelled(j: JoinedReservation) { j.reservation.status == Cancelled }
  predicate IsDraft(j: JoinedReservation) { j.reservation.status == Draft }

  /** The `reduce` callback: count the item, then one status bucket; any
      status other than confirmed and cancelled falls through to draft. */
  function TallyStep(acc: StatusTally, j: JoinedReservation): StatusTally {
    var counted := acc.(total := acc.total + 1);
    match j.reservation.status
    case Confirmed => counted.(confirmed := counted.confirmed + 1)
    case Cancelled => counted.(cancelled := counted.cancelled + 1)
    // The status type has exactly three values, so this arm is reached by `Draft` alone.
    case _ => counted.(draft := counted.draft + 1)
  }

  const EmptyTally := StatusTally(0, 0, 0, 0)

  /** `reservationStats` over the joined reservations `joined`: every bucket
      counts exactly the items with that status, and the buckets partition
      the total. */
  function ReservationStatsOf(joined: seq<JoinedReservation>): (t: StatusTally)
    ensures t.total == |joined|
    ensures t.confirmed == |Filter(joined, IsConfirmed)|
    ensures t.cancelled == |Filter(joined, IsCancelled)|
    ensures t.draft == |Filter(joined, IsDraft)|
    ensures t.total == t.confirmed + t.cancelled + t.draft
  {
    TallyCounts(joined);
    FoldLeft(joined, EmptyTally, TallyStep)
  }

  lemma {:induction false} TallyCounts(joined: seq<JoinedReservation>)
    ensures var t := FoldLeft(joined, EmptyTally, TallyStep);
      && t.total == |joined|
      && t.confirmed == |Filter(joined, IsConfirmed)|
      && t.cancelled == |Filter(joined, IsCancelled)|
      && t.draft == |Filter(joined, IsDraft)|
      && t.total == t.confirmed + t.cancelled + t.draft
  {
    if |joined| > 0 {
      var init, last := joined[..|joined| - 1], joined[|joined| - 1];
      assert joined == init + [last];
      TallyCounts(init);
      FilterSnocSize(init, last, IsConfirmed);
      FilterSnocSize(init, last, IsCancelled);
      FilterSnocSize(init, last, IsDraft);
    }
  }

  /** The store's joined reservations: `reservations.map(joinReservation).filter(Boolean)`,
      one per reservation whose slot resolves, in the reservations' order
      (the batch join, whose order `MockData.JoinAllAppend` states). */
  function JoinedReservations(ds: Dataset): (joined: seq<JoinedReservation>)
    requires Resolvable(ds, ds.reservations)
    ensures joined == JoinAll(ds, ds.reservations)
    ensures |joined| == |Filter(ds.reservations, r => HasSlot(ds, r))|
    ensures forall j :: j in joined ==> j.reservation in ds.reservations && JoinReservation(ds, j.reservation) == Some(j)
    ensures forall r :: r in ds.reservations && HasSlot(ds, r) ==> JoinReservation(ds, r).value in joined
  {
    var joined := JoinAll(ds, ds.reservations);
    assert forall j :: j in joined ==> exists k :: 0 <= k < |joined| && joined[k] == j;
    joined
  }

  // ---------------------------------------------------------------------
  // Catalogue counts and totals.

  predicate IsActiveStylist(s: Stylist) { s.status == StylistActive }
  predicate IsPublishedMenu(m: MenuItem) { m.isPublished }
  predicate IsPublishedPost(p: Post) { p.status == PostPublished }

  /** Anything not yet published (draft or scheduled) counts as upcoming. */
  predicate IsUpcomingPost(p: Post) { p.status != PostPublished }

  /** `activeStylistCount`: one per position holding an active stylist; the
      rest are inactive or on sabbatical. */
  function ActiveStylistCount(stylists: seq<Stylist>): (n: nat)
    ensures n == |IndicesWhere(stylists, IsActiveStylist)|
    ensures n + |Filter(stylists, (s: Stylist) => s.status == StylistInactive || s.status == StylistSabbatical)|
            == |stylists|
  {
    FilterSizeIsIndexCount(stylists, IsActiveStylist);
    FilterComplement(stylists, IsActiveStylist,
                     (s: Stylist) => s.status == StylistInactive || s.status == StylistSabbatical);
    |Filter(stylists, IsActiveStylist)|
  }

  /** `publishedMenuCount`: one per position holding a published menu; the
      rest are unpublished. */
  function PublishedMenuCount(menus: seq<MenuItem>): (n: nat)
    ensures n == |IndicesWhere(menus, IsPublishedMenu)|
    ensures n + |Filter(menus, (m: MenuItem) => !m.isPublished)| == |menus|
  {
    FilterSizeIsIndexCount(menus, IsPublishedMenu);
    FilterComplement(menus, IsPublishedMenu, (m: MenuItem) => !m.isPublished);
    |Filter(menus, IsPublishedMenu)|
  }

  /** `upcomingPostCount`: the posts that are not published, i.e. all posts
      but the published ones. */
  function UpcomingPostCount(posts: seq<Post>): (n: nat)
    ensures n == |IndicesWhere(posts, IsUpcomingPost)|
    ensures n == |posts| - |Filter(posts, IsPublishedPost)|
  {
    FilterSizeIsIndexCount(posts, IsUpcomingPost);
    FilterComplement(posts, IsPublishedPost, IsUpcomingPost);
    |Filter(posts, IsUpcomingPost)|
  }

  datatype SalonTotals = SalonTotals(reservations: nat, stylists: nat, menus: nat, posts: nat)

  /** `salonTotals`: the tally's total and the catalogue sizes; the
      reservation total counts the reservations whose slot resolves. */
  function SalonTotalsOf(ds: Dataset, stylists: seq<Stylist>, menus: seq<MenuItem>, posts: seq<Post>): (t: SalonTotals)
    requires Resolvable(ds, ds.reservations)
    ensures t.reservations == |Filter(ds.reservations, r => HasSlot(ds, r))|
    ensures t.reservations <= |ds.reservations|
    ensures t.stylists == |stylists| && t.menus == |menus| && t.posts == |posts|
    ensures ActiveStylistCount(stylists) <= t.stylists && PublishedMenuCount(menus) <= t.menus
    ensures UpcomingPostCount(posts) <= t.posts
  {
    var stats := ReservationStatsOf(JoinedReservations(ds));
    SalonTotals(stats.total, |stylists|, |menus|, |posts|)
  }

  /** On the catalogue fixtures two of the three stylists are active. */
  lemma FixtureActiveStylists(stores: seq<Store>)
    ensures ActiveStylistCount(Stylists(stores)) == 2
  {
    var xs := Stylists(stores);
    assert xs == [xs[0], xs[1], xs[2]];
    FilterDropLast(xs[0], xs[1], xs[2], IsActiveStylist);
  }

  /** On the catalogue fixtures two of the three menus are published. */
  lemma FixturePublishedMenus(stores: seq<Store>)
    ensures PublishedMenuCount(Menus(stores)) == 2
  {
    var xs := Menus(stores);
    assert xs == [xs[0], xs[1], xs[2]];
    FilterDropLast(xs[0], xs[1], xs[2], IsPublishedMenu);
  }

  /** On the post fixture two of the three posts are upcoming. */
  lemma FixtureUpcomingCount()
    ensures UpcomingPostCount(Posts()) == 2
  {
    var xs := Posts();
    assert xs == [xs[0], xs[1], xs[2]];
    FilterDropFirst(xs[0], xs[1], xs[2], IsUpcomingPost);
  }

  // ---------------------------------------------------------------------
  // Latest-first lists.

  /** Later starts sort first. */
  function RecentKey(j: JoinedReservation): Key { Key(0, -j.slot.startAt, "") }

  /** The comparator `b.slot.startAt - a.slot.startAt`. */
  function CompareRecent(a: JoinedReservation, b: JoinedReservation): int { b.slot.startAt - a.slot.startAt }

  lemma RecentComparatorMatchesKey(a: JoinedReservation, b: JoinedReservation)
    ensures CompareRecent(a, b) <= 0 <==> KeyLe(RecentKey(a), RecentKey(b))
  {
  }

  /** `getRecentReservations(limit)` over the joined reservations: the
      `limit` latest-starting items (JavaScript `slice` semantics for the
      length), latest first, none left out starting later than one kept. */
  function GetRecentReservations(joined: seq<JoinedReservation>, limit: int): (r: seq<JoinedReservation>)
    ensures |r| == SliceEnd(|joined|, limit)
    ensures multiset(r) <= multiset(joined)
    ensures forall i, k :: 0 <= i < k < |r| ==> r[i].slot.startAt >= r[k].slot.startAt
    ensures forall y, i :: y in multiset(joined) - multiset(r) && 0 <= i < |r| ==> r[i].slot.startAt >= y.slot.startAt
    ensures limit >= |joined| ==> multiset(r) == multiset(joined)
  {
    var r := TopN(joined, RecentKey, limit);
    RecentOrder(r);
    TopNAll(joined, RecentKey, limit);
    r
  }

  lemma RecentOrder(r: seq<JoinedReservation>)
    requires SortedBy(r, RecentKey)
    ensures forall i, k :: 0 <= i < k < |r| ==> r[i].slot.startAt >= r[k].slot.startAt
  {
    assert forall i, k :: 0 <= i < k < |r| ==> KeyLe(RecentKey(r[i]), RecentKey(r[k]));
  }

  /** The time a post is ordered by: when it is (to be) published, else when it was last edited. */
  function PostShownAt(p: Post): Millis { p.publishedAt.GetOr(p.updatedAt) }

  function PostRecencyKey(p: Post): Key { Key(0, -PostShownAt(p), "") }

  /** `(a, b) => (b.publishedAt ?? b.updatedAt) - (a.publishedAt ?? a.updatedAt)`. */
  function ComparePostRecency(a: Post, b: Post): int { PostShownAt(b) - PostShownAt(a) }

  lemma PostComparatorMatchesKey(a: Post, b: Post)
    ensures ComparePostRecency(a, b) <= 0 <==> KeyLe(PostRecencyKey(a), PostRecencyKey(b))
  {
  }

  /** `getUpcomingPosts(limit)`: of the unpublished posts, the `limit`
      latest by publication (else edit) time, latest first, none left out
      later than one kept. */
  function GetUpcomingPosts(posts: seq<Post>, limit: int): (r: seq<Post>)
    ensures |r| == SliceEnd(|Filter(posts, IsUpcomingPost)|, limit)
    ensures multiset(r) <= multiset(Filter(posts, IsUpcomingPost))
    ensures forall p :: p in r ==> p in posts && IsUpcomingPost(p)
    ensures forall i, k :: 0 <= i < k < |r| ==> PostShownAt(r[i]) >= PostShownAt(r[k])
    ensures forall y, i :: y in multiset(Filter(posts, IsUpcomingPost)) - multiset(r) && 0 <= i < |r| ==>
      PostShownAt(r[i]) >= PostShownAt(y)
    ensures limit >= |Filter(posts, IsUpcomingPost)| ==> multiset(r) == multiset(Filter(posts, IsUpcomingPost))
  {
    UpcomingPostsOrdered(posts, limit);
    UpcomingPostsKept(posts, limit);
    TopN(Filter(posts, IsUpcomingPost), PostRecencyKey, limit)
  }

  lemma UpcomingPostsOrdered(posts: seq<Post>, limit: int)
    ensures var r := TopN(Filter(posts, IsUpcomingPost), PostRecencyKey, limit);
      && (forall p :: p in r ==> p in posts && IsUpcomingPost(p))
      && (forall i, k :: 0 <= i < k < |r| ==> PostShownAt(r[i]) >= PostShownAt(r[k]))
  {
    var r := TopN(Filter(posts, IsUpcomingPost), PostRecencyKey, limit);
    UpcomingMembers(posts, r);
    PostOrder(r);
  }

  lemma UpcomingPostsKept(posts: seq<Post>, limit: int)
    ensures var upcoming := Filter(posts, IsUpcomingPost);
      var r := TopN(upcoming, PostRecencyKey, limit);
      && (forall y, i :: y in multiset(upcoming) - multiset(r) && 0 <= i < |r| ==> PostShownAt(r[i]) >= PostShownAt(y))
      && (limit >= |upcoming| ==> multiset(r) == multiset(upcoming))
  {
    TopNAll(Filter(posts, IsUpcomingPost), PostRecencyKey, limit);
  }

  lemma PostOrder(r: seq<Post>)
    requires SortedBy(r, PostRecencyKey)
    ensures forall i, k :: 0 <= i < k < |r| ==> PostShownAt(r[i]) >= PostShownAt(r[k])
  {
    assert forall i, k :: 0 <= i < k < |r| ==> KeyLe(PostRecencyKey(r[i]), PostRecencyKey(r[k]));
  }

  /** Posts drawn from the upcoming ones are upcoming posts of the list. */
  lemma UpcomingMembers(posts: seq<Post>, r: seq<Post>)
    requires multiset(r) <= multiset(Filter(posts, IsUpcomingPost))
    ensures forall p :: p in r ==> p in posts && IsUpcomingPost(p)
  {
    forall p | p in r
      ensures p in posts && IsUpcomingPost(p)
    {
      assert p in multiset(r);
      assert p in Filter(posts, IsUpcomingPost);
    }
  }

  /** A published post followed by two upcoming ones, the later-dated first:
      both upcoming posts are listed, in that order. */
  lemma UpcomingOfThree(a: Post, b: Post, c: Post, limit: int)
    requires IsPublishedPost(a) && IsUpcomingPost(b) && IsUpcomingPost(c)
    requires PostShownAt(b) >= PostShownAt(c) && limit >= 2
    ensures GetUpcomingPosts([a, b, c], limit) == [b, c]
  {
    FilterDropFirst(a, b, c, IsUpcomingPost);
    TopNPair(b, c, PostRecencyKey, limit);
  }

  /** On the post fixtures the upcoming list is the scheduled post, then the draft. */
  lemma FixtureUpcomingPosts()
    ensures GetUpcomingPosts(Posts(), 3) == [Posts()[1], Posts()[2]]
  {
    var posts := Posts();
    assert posts == [posts[0], posts[1], posts[2]];
    UpcomingOfThree(posts[0], posts[1], posts[2], 3);
  }
}
