/** The client (staffing agency) app's data layer
    (apps/client/src/app/client/data.ts): the joined reservations whose
    client resolved, their statistics, and the per-user and per-salon
    roll-ups.

    `Date.now()` defaults become the `referenceTime` parameter. */
module ClientData {
  import opened Wrappers
  import opened Seqs
  import opened Sorting
  import opened Entities
  import opened MockData
  import opened Grouping

  // ---------------------------------------------------------------------
  // Client-only filtering.

  /** `isClientJoinedReservation`: the join found a client (records are truthy). */
  predicate IsClientJoined(j: JoinedReservation) { j.client.Some? }

  /** The reservation's slot resolves and names a client that resolves. */
  predicate HasClientJoin(ds: Dataset, r: Reservation) {
    match FindById(ds.slots, SlotIdOf, r.slotId)
    case None => false
    case Some(slot) => ClientOf(ds.clients, slot).Some?
  }

  /** `getJoinedClientReservations()` over the reservations `rs`: the joins
      that resolved a client, one per such reservation, in input order. */
  function GetJoinedClientReservations(ds: Dataset, rs: seq<Reservation>): (r: seq<JoinedReservation>)
    requires Resolvable(ds, rs)
    ensures |r| == |Filter(rs, (x: Reservation) => HasClientJoin(ds, x))|
    ensures forall j :: j in r ==> j.client.Some? && j.reservation in rs && JoinReservation(ds, j.reservation) == Some(j)
    ensures forall i :: 0 <= i < |rs| && HasSlot(ds, rs[i]) && JoinReservation(ds, rs[i]).value.client.Some? ==>
                          JoinReservation(ds, rs[i]).value in r
  {
    var joined := JoinAll(ds, rs);
    assert forall i :: 0 <= i < |joined| ==> joined[i] in joined;
    ClientJoinCount(ds, rs);
    Filter(joined, IsClientJoined)
  }

  /** One client join per reservation whose slot and client both resolve. */
  lemma {:induction false} ClientJoinCount(ds: Dataset, rs: seq<Reservation>)
    requires Resolvable(ds, rs)
    ensures |Filter(JoinAll(ds, rs), IsClientJoined)| == |Filter(rs, (x: Reservation) => HasClientJoin(ds, x))|
  {
    if |rs| > 0 {
      assert rs == [rs[0]] + rs[1..];
      ClientJoinCount(ds, rs[1..]);
    }
  }

  /** The filter respects input order: reservations listed first come first. */
  lemma ClientReservationsAppend(ds: Dataset, a: seq<Reservation>, b: seq<Reservation>)
    requires Resolvable(ds, a) && Resolvable(ds, b)
    ensures Resolvable(ds, a + b)
    ensures GetJoinedClientReservations(ds, a + b) == GetJoinedClientReservations(ds, a) + GetJoinedClientReservations(ds, b)
  {
    JoinAllAppend(ds, a, b);
    FilterAppend(JoinAll(ds, a), JoinAll(ds, b), IsClientJoined);
  }

  // ---------------------------------------------------------------------
  // Statistics.

  datatype ReservationStats = ReservationStats(total: nat, confirmed: nat, upcoming: nat, uniqueClients: nat)

  predicate IsConfirmed(j: JoinedReservation) { j.reservation.status == Confirmed }

  /** Confirmed and starting strictly after `referenceTime` (the start time, not the end). */
  predicate IsUpcomingConfirmed(j: JoinedReservation, referenceTime: Millis) {
    IsConfirmed(j) && j.slot.startAt > referenceTime
  }

  /** `client.id` of an item whose client resolved. */
  function ItemClientId(j: JoinedReservation): Id {
    if j.client.Some? then j.client.value.id else ""
  }

  /** The distinct client ids of the items. */
  function ClientIds(data: seq<JoinedReservation>): set<Id> {
    set j | j in data && j.client.Some? :: j.client.value.id
  }

  /** `calculateReservationStats(data, referenceTime)`; every item carries a client. */
  function CalculateReservationStats(data: seq<JoinedReservation>, referenceTime: Millis): (s: ReservationStats)
    requires forall j :: j in data ==> j.client.Some?
    ensures s.total == |data|
    ensures s.confirmed == |Filter(data, IsConfirmed)|
    ensures s.upcoming == |Filter(data, (j: JoinedReservation) => IsUpcomingConfirmed(j, referenceTime))|
    ensures s.upcoming <= s.confirmed <= s.total
    ensures s.uniqueClients == |ClientIds(data)|
    ensures s.uniqueClients <= s.total && (|data| > 0 ==> s.uniqueClients >= 1)
  {
    var confirmed := Filter(data, IsConfirmed);
    var upcoming := Filter(confirmed, (j: JoinedReservation) => j.slot.startAt > referenceTime);
    UpcomingIsNested(data, referenceTime);
    ClientIdsCount(data);
    ReservationStats(|data|, |confirmed|, |upcoming|, |ToSet(Map(data, ItemClientId))|)
  }

  /** Filtering the confirmed items by start time is filtering by
      `IsUpcomingConfirmed`. */
  lemma UpcomingIsNested(data: seq<JoinedReservation>, referenceTime: Millis)
    ensures Filter(Filter(data, IsConfirmed), (j: JoinedReservation) => j.slot.startAt > referenceTime)
         == Filter(data, (j: JoinedReservation) => IsUpcomingConfirmed(j, referenceTime))
  {
    var startsLater := (j: JoinedReservation) => j.slot.startAt > referenceTime;
    FilterFilter(data, IsConfirmed, startsLater);
    FilterExtensional(data, (j: JoinedReservation) => IsConfirmed(j) && startsLater(j),
                      (j: JoinedReservation) => IsUpcomingConfirmed(j, referenceTime));
  }

  /** The `Set` of mapped client ids is the set of distinct client ids. */
  lemma ClientIdsCount(data: seq<JoinedReservation>)
    requires forall j :: j in data ==> j.client.Some?
    ensures ToSet(Map(data, ItemClientId)) == ClientIds(data)
    ensures |ClientIds(data)| <= |data|
    ensures |data| > 0 ==> |ClientIds(data)| >= 1
  {
    ToSetMap(data, ItemClientId);
    ToSetSize(Map(data, ItemClientId));
  }

  /** The counting statistics add up over a concatenation of item lists. */
  lemma StatsAppend(a: seq<JoinedReservation>, b: seq<JoinedReservation>, referenceTime: Millis)
    requires forall j :: j in a + b ==> j.client.Some?
    ensures CalculateReservationStats(a + b, referenceTime).total
         == CalculateReservationStats(a, referenceTime).total + CalculateReservationStats(b, referenceTime).total
    ensures CalculateReservationStats(a + b, referenceTime).confirmed
         == CalculateReservationStats(a, referenceTime).confirmed + CalculateReservationStats(b, referenceTime).confirmed
    ensures CalculateReservationStats(a + b, referenceTime).upcoming
         == CalculateReservationStats(a, referenceTime).upcoming + CalculateReservationStats(b, referenceTime).upcoming
  {
    FilterAppend(a, b, IsConfirmed);
    FilterAppend(a, b, (j: JoinedReservation) => IsUpcomingConfirmed(j, referenceTime));
  }

  // ---------------------------------------------------------------------
  // Per-user roll-up.

  datatype UserSummary = UserSummary(id: Id, name: string, totalReservations: nat, latestReservationAt: Option<Millis>)

  function ItemUserId(j: JoinedReservation): Id { j.user.id }
  function UserSummaryId(u: UserSummary): Id { u.id }
  function UserSummaryTotal(u: UserSummary): int { u.totalReservations }

  /** The summary `map.get` falls back to. */
  function FreshUserSummary(j: JoinedReservation): UserSummary { UserSummary(j.user.id, j.user.name, 0, None) }

  /** One loop body: count the item and raise the latest start, starting from 0. */
  function AddToUserSummary(u: UserSummary, j: JoinedReservation): UserSummary {
    var latest := u.latestReservationAt.GetOr(0);
    u.(totalReservations := u.totalReservations + 1,
       latestReservationAt := Some(if latest >= j.slot.startAt then latest else j.slot.startAt))
  }

  lemma UserKeyPreserving()
    ensures KeyPreserving(ItemUserId, FreshUserSummary, AddToUserSummary, UserSummaryId)
  {
  }

  /** Folding one user's items: identity kept, items counted, and the latest
      start is the largest start time, or 0 when all are earlier. */
  lemma {:induction false} UserFold(items: seq<JoinedReservation>, u0: UserSummary)
    requires u0.latestReservationAt.None?
    ensures FoldLeft(items, u0, AddToUserSummary).id == u0.id
    ensures FoldLeft(items, u0, AddToUserSummary).name == u0.name
    ensures FoldLeft(items, u0, AddToUserSummary).totalReservations == u0.totalReservations + |items|
    ensures FoldLeft(items, u0, AddToUserSummary).latestReservationAt.None? <==> |items| == 0
    ensures var latest := FoldLeft(items, u0, AddToUserSummary).latestReservationAt;
      latest.Some? ==>
        && latest.value >= 0
        && (forall x :: x in items ==> x.slot.startAt <= latest.value)
        && (latest.value == 0 || exists x :: x in items && x.slot.startAt == latest.value)
  {
    if |items| > 0 {
      var init, last := items[..|items| - 1], items[|items| - 1];
      assert items == init + [last];
      UserFold(init, u0);
    }
  }

  /** What the roll-up holds for the user `u.id`: named after that user's
      first item, counting that user's items, latest start clamped below at 0. */
  ghost predicate IsUserSummaryOf(data: seq<JoinedReservation>, u: UserSummary) {
    && FindById(data, ItemUserId, u.id).Some?
    && u.name == FindById(data, ItemUserId, u.id).value.user.name
    && u.totalReservations == |ItemsWithKey(data, ItemUserId, u.id)|
    && u.latestReservationAt.Some?
    && u.latestReservationAt.value >= 0
    && (forall x :: x in data && x.user.id == u.id ==> x.slot.startAt <= u.latestReservationAt.value)
    && (u.latestReservationAt.value == 0 ||
        exists x :: x in data && x.user.id == u.id && x.slot.startAt == u.latestReservationAt.value)
  }

  lemma UserGroupFacts(data: seq<JoinedReservation>, u: UserSummary)
    requires KeyPreserving(ItemUserId, FreshUserSummary, AddToUserSummary, UserSummaryId)
    requires u in GroupBy(data, ItemUserId, FreshUserSummary, AddToUserSummary, UserSummaryId)
    ensures IsUserSummaryOf(data, u)
  {
    GroupValue(data, ItemUserId, FreshUserSummary, AddToUserSummary, UserSummaryId, u);
    var items := ItemsWithKey(data, ItemUserId, u.id);
    UserFold(items, FreshUserSummary(items[0]));
    FilterHeadIsFind(data, ItemUserId, u.id);
    assert forall x :: x in data && x.user.id == u.id ==> x in items;
  }

  function UserSummaryKey(u: UserSummary): Key {
    Key(0, -u.latestReservationAt.GetOr(0), u.name)
  }

  /** The comparator passed to `sort`, as written. */
  function CompareUserSummaries(a: UserSummary, b: UserSummary): int {
    var latestA := a.latestReservationAt.GetOr(0);
    var latestB := b.latestReservationAt.GetOr(0);
    if latestA != latestB then latestB - latestA else NameCompare(a.name, b.name)
  }

  /** The key orders exactly as the comparator. */
  lemma UserComparatorMatchesKey(a: UserSummary, b: UserSummary)
    ensures CompareUserSummaries(a, b) <= 0 <==> KeyLe(UserSummaryKey(a), UserSummaryKey(b))
  {
  }

  /** `buildUserSummaries(data)`: one entry per distinct user id, counts
      adding up to the number of items, latest first and then by name. */
  function BuildUserSummaries(data: seq<JoinedReservation>): (r: seq<UserSummary>)
    ensures |r| == |ItemKeys(data, ItemUserId)|
    ensures GroupKeys(r, UserSummaryId) == ItemKeys(data, ItemUserId)
    ensures forall u :: u in r ==> IsUserSummaryOf(data, u)
    ensures SumOf(r, UserSummaryTotal) == |data|
    ensures forall i, j :: 0 <= i < j < |r| ==>
      r[i].latestReservationAt.GetOr(0) >= r[j].latestReservationAt.GetOr(0)
    ensures forall i, j :: 0 <= i < j < |r| && r[i].latestReservationAt.GetOr(0) == r[j].latestReservationAt.GetOr(0) ==>
      NameLe(r[i].name, r[j].name)
  {
    UserKeyPreserving();
    var groups := GroupBy(data, ItemUserId, FreshUserSummary, AddToUserSummary, UserSummaryId);
    var sorted := SortBy(groups, UserSummaryKey);
    GroupsReordered(data, ItemUserId, FreshUserSummary, AddToUserSummary, UserSummaryId, sorted);
    GroupSizesReordered(data, ItemUserId, FreshUserSummary, AddToUserSummary, UserSummaryId, UserSummaryTotal, sorted);
    UserGroupsFacts(data, sorted);
    UserSummaryOrder(sorted);
    sorted
  }

  lemma UserGroupsFacts(data: seq<JoinedReservation>, r: seq<UserSummary>)
    requires KeyPreserving(ItemUserId, FreshUserSummary, AddToUserSummary, UserSummaryId)
    requires forall u :: u in r ==> u in GroupBy(data, ItemUserId, FreshUserSummary, AddToUserSummary, UserSummaryId)
    ensures forall u :: u in r ==> IsUserSummaryOf(data, u)
  {
    forall u | u in r
      ensures IsUserSummaryOf(data, u)
    {
      UserGroupFacts(data, u);
    }
  }

  lemma UserSummaryOrder(r: seq<UserSummary>)
    requires SortedBy(r, UserSummaryKey)
    ensures forall i, j :: 0 <= i < j < |r| ==>
      r[i].latestReservationAt.GetOr(0) >= r[j].latestReservationAt.GetOr(0)
    ensures forall i, j :: 0 <= i < j < |r| && r[i].latestReservationAt.GetOr(0) == r[j].latestReservationAt.GetOr(0) ==>
      NameLe(r[i].name, r[j].name)
  {
    assert forall i, j :: 0 <= i < j < |r| ==> KeyLe(UserSummaryKey(r[i]), UserSummaryKey(r[j]));
  }

  // ---------------------------------------------------------------------
  // Per-salon roll-up.

  datatype SalonSummary = SalonSummary(id: Id, name: string, address: string, reservationCount: nat,
                                       nextReservationAt: Option<Millis>, lastReservationAt: Option<Millis>)

  function ItemStoreId(j: JoinedReservation): Id { j.store.id }
  function SalonSummaryId(s: SalonSummary): Id { s.id }
  function SalonSummaryCount(s: SalonSummary): int { s.reservationCount }

  function FreshSalonSummary(j: JoinedReservation): SalonSummary {
    SalonSummary(j.store.id, j.store.name, j.store.address, 0, None, None)
  }

  /** JavaScript truthiness of an optional number: absent and 0 are both false. */
  predicate Truthy(o: Option<int>) { o.Some? && o.value != 0 }

  /** One loop body, as written: a start at or after `referenceTime` lowers
      the next reservation, an earlier one raises the last; a stored value
      that is falsy (absent, or 0) is replaced instead of compared. */
  function AddToSalonSummaryAsWritten(s: SalonSummary, j: JoinedReservation, referenceTime: Millis): SalonSummary {
    var at := j.slot.startAt;
    var next :=
      if at >= referenceTime then
        Some(if Truthy(s.nextReservationAt) && s.nextReservationAt.value <= at then s.nextReservationAt.value else at)
      else s.nextReservationAt;
    var last :=
      if at < referenceTime then
        Some(if Truthy(s.lastReservationAt) && s.lastReservationAt.value >= at then s.lastReservationAt.value else at)
      else s.lastReservationAt;
    s.(reservationCount := s.reservationCount + 1, nextReservationAt := next, lastReservationAt := last)
  }

  /** The loop body as intended: a stored value is compared whenever it is
      present, so a start time of 0 counts like any other. */
  function AddToSalonSummary(s: SalonSummary, j: JoinedReservation, referenceTime: Millis): SalonSummary {
    var at := j.slot.startAt;
    var next :=
      if at >= referenceTime then
        Some(if s.nextReservationAt.Some? && s.nextReservationAt.value <= at then s.nextReservationAt.value else at)
      else s.nextReservationAt;
    var last :=
      if at < referenceTime then
        Some(if s.lastReservationAt.Some? && s.lastReservationAt.value >= at then s.lastReservationAt.value else at)
      else s.lastReservationAt;
    s.(reservationCount := s.reservationCount + 1, nextReservationAt := next, lastReservationAt := last)
  }

  lemma SalonKeyPreserving(referenceTime: Millis)
    ensures KeyPreserving(ItemStoreId, FreshSalonSummary,
                          (s: SalonSummary, j: JoinedReservation) => AddToSalonSummary(s, j, referenceTime), SalonSummaryId)
  {
  }

  /** Folding one salon's items with the loop body as written: identity
      kept, items counted, each item feeding the next or the last bucket;
      only when no start time is 0 are the two the earliest start at or
      after `referenceTime` and the latest one before it. */
  lemma {:induction false} SalonFoldAsWritten(items: seq<JoinedReservation>, s0: SalonSummary, referenceTime: Millis)
    requires s0.nextReservationAt.None? && s0.lastReservationAt.None?
    ensures var s := FoldLeft(items, s0, (s: SalonSummary, j: JoinedReservation) => AddToSalonSummaryAsWritten(s, j, referenceTime));
      && s.id == s0.id && s.name == s0.name && s.address == s0.address
      && s.reservationCount == s0.reservationCount + |items|
      && (s.nextReservationAt.None? <==> forall x :: x in items ==> x.slot.startAt < referenceTime)
      && (s.lastReservationAt.None? <==> forall x :: x in items ==> x.slot.startAt >= referenceTime)
      && (s.nextReservationAt.Some? ==>
            s.nextReservationAt.value >= referenceTime && exists x :: x in items && x.slot.startAt == s.nextReservationAt.value)
      && (s.lastReservationAt.Some? ==>
            s.lastReservationAt.value < referenceTime && exists x :: x in items && x.slot.startAt == s.lastReservationAt.value)
      && ((forall x :: x in items ==> x.slot.startAt != 0) ==>
            && (forall x :: x in items && x.slot.startAt >= referenceTime ==>
                  s.nextReservationAt.Some? && s.nextReservationAt.value <= x.slot.startAt)
            && (forall x :: x in items && x.slot.startAt < referenceTime ==>
                  s.lastReservationAt.Some? && s.lastReservationAt.value >= x.slot.startAt))
  {
    if |items| > 0 {
      var init, last := items[..|items| - 1], items[|items| - 1];
      assert items == init + [last];
      SalonFoldAsWritten(init, s0, referenceTime);
    }
  }

  /** An item at `startAt` with the other fields fixed, for the example below. */
  function ItemAt(startAt: Millis): JoinedReservation {
    var store := Store("st_1", "salon", "S1", "address", 0, 0);
    JoinedReservation(Reservation("r", "sl", "u", Confirmed, None, 0, 0),
                      Slot("sl", "st_1", None, startAt, startAt + 1, 1, SlotActive, None, None, 0, 0),
                      store, None, User("u", "user", 0, 0))
  }

  /** With `referenceTime` 0, items starting at 0 and then 5: the loop as
      written reports 5 as the next reservation, since the stored 0 is falsy;
      the intended body keeps the earliest start, 0. */
  lemma SalonNextSkipsZero()
    ensures var items := [ItemAt(0), ItemAt(5)];
      && FoldLeft(items, FreshSalonSummary(items[0]),
                  (s: SalonSummary, j: JoinedReservation) => AddToSalonSummaryAsWritten(s, j, 0)).nextReservationAt
         == Some(5)
      && FoldLeft(items, FreshSalonSummary(items[0]),
                  (s: SalonSummary, j: JoinedReservation) => AddToSalonSummary(s, j, 0)).nextReservationAt
         == Some(0)
  {
    var items := [ItemAt(0), ItemAt(5)];
    assert items[..1] == [ItemAt(0)] && items[..1][..0] == [];
  }

  /** Folding one salon's items with the intended body: identity kept, items
      counted, the next reservation is the earliest start at or after
      `referenceTime` and the last one the latest start before it. */
  lemma {:induction false} SalonFold(items: seq<JoinedReservation>, s0: SalonSummary, referenceTime: Millis)
    requires s0.nextReservationAt.None? && s0.lastReservationAt.None?
    ensures var s := FoldLeft(items, s0, (s: SalonSummary, j: JoinedReservation) => AddToSalonSummary(s, j, referenceTime));
      && s.id == s0.id && s.name == s0.name && s.address == s0.address
      && s.reservationCount == s0.reservationCount + |items|
      && (s.nextReservationAt.None? <==> forall x :: x in items ==> x.slot.startAt < referenceTime)
      && (s.lastReservationAt.None? <==> forall x :: x in items ==> x.slot.startAt >= referenceTime)
      && (s.nextReservationAt.Some? ==>
            s.nextReservationAt.value >= referenceTime && exists x :: x in items && x.slot.startAt == s.nextReservationAt.value)
      && (s.lastReservationAt.Some? ==>
            s.lastReservationAt.value < referenceTime && exists x :: x in items && x.slot.startAt == s.lastReservationAt.value)
      && (forall x :: x in items && x.slot.startAt >= referenceTime ==>
            s.nextReservationAt.Some? && s.nextReservationAt.value <= x.slot.startAt)
      && (forall x :: x in items && x.slot.startAt < referenceTime ==>
            s.lastReservationAt.Some? && s.lastReservationAt.value >= x.slot.startAt)
  {
    if |items| > 0 {
      var init, last := items[..|items| - 1], items[|items| - 1];
      assert items == init + [last];
      SalonFold(init, s0, referenceTime);
    }
  }

  /** What the roll-up holds for the salon `s.id`: named after that salon's
      first item, counting its items, with the earliest start at or after
      `referenceTime` as the next reservation and the latest start before it
      as the last. */
  ghost predicate IsSalonSummaryOf(data: seq<JoinedReservation>, s: SalonSummary, referenceTime: Millis) {
    && FindById(data, ItemStoreId, s.id).Some?
    && s.name == FindById(data, ItemStoreId, s.id).value.store.name
    && s.address == FindById(data, ItemStoreId, s.id).value.store.address
    && s.reservationCount == |ItemsWithKey(data, ItemStoreId, s.id)|
    && (s.nextReservationAt.None? <==> forall x :: x in data && x.store.id == s.id ==> x.slot.startAt < referenceTime)
    && (s.lastReservationAt.None? <==> forall x :: x in data && x.store.id == s.id ==> x.slot.startAt >= referenceTime)
    && (s.nextReservationAt.Some? ==>
          && s.nextReservationAt.value >= referenceTime
          && exists x :: x in data && x.store.id == s.id && x.slot.startAt == s.nextReservationAt.value)
    && (s.lastReservationAt.Some? ==>
          && s.lastReservationAt.value < referenceTime
          && exists x :: x in data && x.store.id == s.id && x.slot.startAt == s.lastReservationAt.value)
    && (forall x :: x in data && x.store.id == s.id && x.slot.startAt >= referenceTime ==>
          s.nextReservationAt.Some? && s.nextReservationAt.value <= x.slot.startAt)
    && (forall x :: x in data && x.store.id == s.id && x.slot.startAt < referenceTime ==>
          s.lastReservationAt.Some? && s.lastReservationAt.value >= x.slot.startAt)
  }

  lemma SalonGroupFacts(data: seq<JoinedReservation>, s: SalonSummary, referenceTime: Millis)
    requires KeyPreserving(ItemStoreId, FreshSalonSummary,
                           (s: SalonSummary, j: JoinedReservation) => AddToSalonSummary(s, j, referenceTime), SalonSummaryId)
    requires s in GroupBy(data, ItemStoreId, FreshSalonSummary,
                          (s: SalonSummary, j: JoinedReservation) => AddToSalonSummary(s, j, referenceTime), SalonSummaryId)
    ensures IsSalonSummaryOf(data, s, referenceTime)
  {
    var step := (s: SalonSummary, j: JoinedReservation) => AddToSalonSummary(s, j, referenceTime);
    GroupValue(data, ItemStoreId, FreshSalonSummary, step, SalonSummaryId, s);
    var items := ItemsWithKey(data, ItemStoreId, s.id);
    SalonFold(items, FreshSalonSummary(items[0]), referenceTime);
    FilterHeadIsFind(data, ItemStoreId, s.id);
    assert forall x :: x in data && x.store.id == s.id ==> x in items;
  }

  function SalonSummaryKey(s: SalonSummary): Key {
    Key(0, -(s.reservationCount as int), s.name)
  }

  /** The comparator passed to `sort`, as written. */
  function CompareSalonSummaries(a: SalonSummary, b: SalonSummary): int {
    if a.reservationCount != b.reservationCount then b.reservationCount - a.reservationCount
    else NameCompare(a.name, b.name)
  }

  /** The key orders exactly as the comparator. */
  lemma SalonComparatorMatchesKey(a: SalonSummary, b: SalonSummary)
    ensures CompareSalonSummaries(a, b) <= 0 <==> KeyLe(SalonSummaryKey(a), SalonSummaryKey(b))
  {
  }

  /** `buildSalonSummaries(data, referenceTime)`: one entry per distinct
      store id, counts adding up to the number of items, busiest first and
      then by name. */
  function BuildSalonSummaries(data: seq<JoinedReservation>, referenceTime: Millis): (r: seq<SalonSummary>)
    ensures |r| == |ItemKeys(data, ItemStoreId)|
    ensures GroupKeys(r, SalonSummaryId) == ItemKeys(data, ItemStoreId)
    ensures forall s :: s in r ==> IsSalonSummaryOf(data, s, referenceTime)
    ensures SumOf(r, SalonSummaryCount) == |data|
    ensures forall i, j :: 0 <= i < j < |r| ==> r[i].reservationCount >= r[j].reservationCount
    ensures forall i, j :: 0 <= i < j < |r| && r[i].reservationCount == r[j].reservationCount ==>
      NameLe(r[i].name, r[j].name)
  {
    var step := (s: SalonSummary, j: JoinedReservation) => AddToSalonSummary(s, j, referenceTime);
    SalonKeyPreserving(referenceTime);
    var groups := GroupBy(data, ItemStoreId, FreshSalonSummary, step, SalonSummaryId);
    var sorted := SortBy(groups, SalonSummaryKey);
    GroupsReordered(data, ItemStoreId, FreshSalonSummary, step, SalonSummaryId, sorted);
    GroupSizesReordered(data, ItemStoreId, FreshSalonSummary, step, SalonSummaryId, SalonSummaryCount, sorted);
    SalonGroupsFacts(data, sorted, referenceTime);
    SalonSummaryOrder(sorted);
    sorted
  }

  lemma SalonGroupsFacts(data: seq<JoinedReservation>, r: seq<SalonSummary>, referenceTime: Millis)
    requires KeyPreserving(ItemStoreId, FreshSalonSummary,
                           (s: SalonSummary, j: JoinedReservation) => AddToSalonSummary(s, j, referenceTime), SalonSummaryId)
    requires forall s :: s in r ==> s in GroupBy(data, ItemStoreId, FreshSalonSummary,
                          (s: SalonSummary, j: JoinedReservation) => AddToSalonSummary(s, j, referenceTime), SalonSummaryId)
    ensures forall s :: s in r ==> IsSalonSummaryOf(data, s, referenceTime)
  {
    forall s | s in r
      ensures IsSalonSummaryOf(data, s, referenceTime)
    {
      SalonGroupFacts(data, s, referenceTime);
    }
  }

  lemma SalonSummaryOrder(r: seq<SalonSummary>)
    requires SortedBy(r, SalonSummaryKey)
    ensures forall i, j :: 0 <= i < j < |r| ==> r[i].reservationCount >= r[j].reservationCount
    ensures forall i, j :: 0 <= i < j < |r| && r[i].reservationCount == r[j].reservationCount ==>
      NameLe(r[i].name, r[j].name)
  {
    assert forall i, j :: 0 <= i < j < |r| ==> KeyLe(SalonSummaryKey(r[i]), SalonSummaryKey(r[j]));
  }
}
