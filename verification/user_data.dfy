/** The end-user app's aggregation engine (apps/user/src/app/user/data.ts):
    per-store upcoming-slot summaries, per-reservation summaries with their
    status label and tone, dashboard statistics and the last-updated time.

    The fixture collections are a `Dataset` parameter; `referenceTime` and
    the `Date.now()` fallback of the last-updated time are parameters. */
module UserData {
  import opened Wrappers
  import opened Seqs
  import opened Sorting
  import opened Entities
  import opened MockData

  // ---------------------------------------------------------------------
  // Status label and tone (`statusLabelMap`).

  datatype Tone = Positive | Attention | Neutral

  datatype StatusMeta = StatusMeta(caption: string, tone: Tone)

  function StatusMetaOf(status: ReservationStatus): StatusMeta {
    match status
    case Draft => StatusMeta("調整中", Attention)
    case Confirmed => StatusMeta("確定済み", Positive)
    case Cancelled => StatusMeta("キャンセル", Neutral)
  }

  /** Reads the table backwards: the status a tone stands for. */
  function StatusOfTone(tone: Tone): (status: ReservationStatus)
    ensures StatusMetaOf(status).tone == tone
  {
    match tone
    case Attention => Draft
    case Positive => Confirmed
    case Neutral => Cancelled
  }

  /** The table is one-to-one: a tone identifies its status, and so does a label. */
  lemma StatusTableInjective(a: ReservationStatus, b: ReservationStatus)
    ensures StatusOfTone(StatusMetaOf(a).tone) == a
    ensures StatusMetaOf(a).caption == StatusMetaOf(b).caption ==> a == b
  {
  }

  // ---------------------------------------------------------------------
  // Store summaries.

  /** `isUpcomingSlot`: active and not yet ended at `referenceTime`. */
  predicate IsUpcomingSlot(slot: Slot, referenceTime: Millis) {
    slot.status == SlotActive && slot.endAt >= referenceTime
  }

  /** The slot belongs to the store and is upcoming. */
  predicate UpcomingAtStore(slot: Slot, store: Store, referenceTime: Millis) {
    slot.storeId == store.id && IsUpcomingSlot(slot, referenceTime)
  }

  datatype StoreSummary = StoreSummary(store: Store, upcomingSlots: seq<Slot>, totalUpcoming: nat,
                                       nextSlot: Option<Slot>, maxCapacity: int)

  /** Sort key of `(a, b) => a.startAt - b.startAt`. */
  function SlotStartKey(s: Slot): Key { Key(0, s.startAt, "") }

  /** `(a, b) => a.startAt - b.startAt` over slots. */
  function CompareSlotStart(a: Slot, b: Slot): int { a.startAt - b.startAt }

  lemma SlotComparatorMatchesKey(a: Slot, b: Slot)
    ensures CompareSlotStart(a, b) <= 0 <==> KeyLe(SlotStartKey(a), SlotStartKey(b))
  {
  }

  /** The store's upcoming slots, ascending by start time. */
  function StoreUpcomingSlots(store: Store, slots: seq<Slot>, referenceTime: Millis): (r: seq<Slot>)
    ensures forall x :: multiset(r)[x] == if UpcomingAtStore(x, store, referenceTime) then multiset(slots)[x] else 0
    ensures forall i, j :: 0 <= i < j < |r| ==> r[i].startAt <= r[j].startAt
  {
    var atStore := Filter(slots, (s: Slot) => s.storeId == store.id);
    var upcoming := Filter(atStore, (s: Slot) => IsUpcomingSlot(s, referenceTime));
    var sorted := SortBy(upcoming, SlotStartKey);
    forall x
      ensures multiset(sorted)[x] == if UpcomingAtStore(x, store, referenceTime) then multiset(slots)[x] else 0
    {
      FilterCount(slots, (s: Slot) => s.storeId == store.id, x);
      FilterCount(atStore, (s: Slot) => IsUpcomingSlot(s, referenceTime), x);
    }
    sorted
  }

  /** `upcoming.reduce((max, slot) => Math.max(max, slot.capacity), 0)`. */
  function MaxCapacity(slots: seq<Slot>): (m: int)
    ensures m >= 0
    ensures forall s :: s in slots ==> s.capacity <= m
    ensures m == 0 || exists s :: s in slots && s.capacity == m
  {
    if |slots| == 0 then 0
    else
      var init := slots[..|slots| - 1];
      var last := slots[|slots| - 1];
      assert slots == init + [last];
      var prev := MaxCapacity(init);
      if last.capacity > prev then last.capacity else prev
  }

  /** One store's summary. */
  function BuildStoreSummary(store: Store, slots: seq<Slot>, referenceTime: Millis): (s: StoreSummary)
    ensures s.store == store
    ensures forall x :: multiset(s.upcomingSlots)[x] ==
                          if UpcomingAtStore(x, store, referenceTime) then multiset(slots)[x] else 0
    ensures forall i, j :: 0 <= i < j < |s.upcomingSlots| ==> s.upcomingSlots[i].startAt <= s.upcomingSlots[j].startAt
    ensures s.totalUpcoming == |s.upcomingSlots|
    ensures s.nextSlot.None? <==> |s.upcomingSlots| == 0
    ensures s.nextSlot.Some? ==> s.nextSlot.value == s.upcomingSlots[0]
    ensures s.nextSlot.Some? ==> forall x :: x in s.upcomingSlots ==> s.nextSlot.value.startAt <= x.startAt
    ensures s.maxCapacity >= 0 && forall x :: x in s.upcomingSlots ==> x.capacity <= s.maxCapacity
    ensures s.maxCapacity == 0 || exists x :: x in s.upcomingSlots && x.capacity == s.maxCapacity
  {
    var upcoming := StoreUpcomingSlots(store, slots, referenceTime);
    HeadIsEarliest(upcoming);
    StoreSummary(store, upcoming, |upcoming|,
                 if |upcoming| > 0 then Some(upcoming[0]) else None,
                 MaxCapacity(upcoming))
  }

  /** In slots ordered by start time, the first starts no later than any. */
  lemma HeadIsEarliest(r: seq<Slot>)
    requires forall i, j :: 0 <= i < j < |r| ==> r[i].startAt <= r[j].startAt
    ensures |r| > 0 ==> forall x :: x in r ==> r[0].startAt <= x.startAt
  {
    if |r| > 0 {
      forall x | x in r
        ensures r[0].startAt <= x.startAt
      {
        var k :| 0 <= k < |r| && r[k] == x;
        if k > 0 {
          assert r[0].startAt <= r[k].startAt;
        }
      }
    }
  }

  /** Sort key of the store-summary comparator: stores with a next slot
      first, by its start time; then the others by name. */
  function StoreSummaryKey(s: StoreSummary): Key {
    match s.nextSlot
    case Some(slot) => Key(0, slot.startAt, "")
    case None => Key(1, 0, s.store.name)
  }

  /** The comparator passed to `sort`, as written. */
  function CompareStoreSummaries(a: StoreSummary, b: StoreSummary): int {
    if a.nextSlot.Some? && b.nextSlot.Some? then a.nextSlot.value.startAt - b.nextSlot.value.startAt
    else if a.nextSlot.Some? then -1
    else if b.nextSlot.Some? then 1
    else NameCompare(a.store.name, b.store.name)
  }

  /** The key orders exactly as the comparator: `a` may precede `b` iff the
      comparator does not put `b` first. Two stores with equal next start
      times tie whatever their names. */
  lemma StoreComparatorMatchesKey(a: StoreSummary, b: StoreSummary)
    ensures CompareStoreSummaries(a, b) <= 0 <==> KeyLe(StoreSummaryKey(a), StoreSummaryKey(b))
    ensures a.nextSlot.Some? && b.nextSlot.Some? && a.nextSlot.value.startAt == b.nextSlot.value.startAt
            ==> StoreSummaryKey(a) == StoreSummaryKey(b)
  {
  }

  function SummaryStore(s: StoreSummary): Store { s.store }

  /** `s` is the summary its own store gets. */
  predicate IsOwnSummary(s: StoreSummary, slots: seq<Slot>, referenceTime: Millis) {
    s == BuildStoreSummary(s.store, slots, referenceTime)
  }

  lemma MappedSummaries(stores: seq<Store>, slots: seq<Slot>, referenceTime: Millis)
    ensures Map(Map(stores, (st: Store) => BuildStoreSummary(st, slots, referenceTime)), SummaryStore) == stores
    ensures forall s :: s in Map(stores, (st: Store) => BuildStoreSummary(st, slots, referenceTime)) ==>
      IsOwnSummary(s, slots, referenceTime)
  {
    var summaries := Map(stores, (st: Store) => BuildStoreSummary(st, slots, referenceTime));
    assert forall i :: 0 <= i < |stores| ==> Map(summaries, SummaryStore)[i] == stores[i];
  }

  /** What ordering by `StoreSummaryKey` means for the summaries. */
  lemma StoreSummaryOrder(r: seq<StoreSummary>)
    requires SortedBy(r, StoreSummaryKey)
    ensures forall i, j :: 0 <= i < j < |r| && r[j].nextSlot.Some? ==> r[i].nextSlot.Some?
    ensures forall i, j :: 0 <= i < j < |r| && r[i].nextSlot.Some? && r[j].nextSlot.Some? ==>
      r[i].nextSlot.value.startAt <= r[j].nextSlot.value.startAt
    ensures forall i, j :: 0 <= i < j < |r| && r[i].nextSlot.None? && r[j].nextSlot.None? ==>
      NameLe(r[i].store.name, r[j].store.name)
  {
    forall i, j | 0 <= i < j < |r|
      ensures r[j].nextSlot.Some? ==> r[i].nextSlot.Some?
      ensures r[i].nextSlot.Some? && r[j].nextSlot.Some? ==> r[i].nextSlot.value.startAt <= r[j].nextSlot.value.startAt
      ensures r[i].nextSlot.None? && r[j].nextSlot.None? ==> NameLe(r[i].store.name, r[j].store.name)
    {
      assert KeyLe(StoreSummaryKey(r[i]), StoreSummaryKey(r[j]));
    }
  }

  /** `buildStoreSummariesInternal`: one summary per store, ordered for display. */
  function BuildStoreSummaries(stores: seq<Store>, slots: seq<Slot>, referenceTime: Millis): (r: seq<StoreSummary>)
    ensures |r| == |stores|
    ensures multiset(Map(r, SummaryStore)) == multiset(stores)
    ensures forall s :: s in r ==> IsOwnSummary(s, slots, referenceTime)
    ensures forall i, j :: 0 <= i < j < |r| && r[j].nextSlot.Some? ==> r[i].nextSlot.Some?
    ensures forall i, j :: 0 <= i < j < |r| && r[i].nextSlot.Some? && r[j].nextSlot.Some? ==>
      r[i].nextSlot.value.startAt <= r[j].nextSlot.value.startAt
    ensures forall i, j :: 0 <= i < j < |r| && r[i].nextSlot.None? && r[j].nextSlot.None? ==>
      NameLe(r[i].store.name, r[j].store.name)
  {
    var summaries := Map(stores, (st: Store) => BuildStoreSummary(st, slots, referenceTime));
    var sorted := SortBy(summaries, StoreSummaryKey);
    MappedSummaries(stores, slots, referenceTime);
    MapPermutation(sorted, summaries, SummaryStore);
    assert forall s :: s in sorted ==> s in multiset(summaries);
    StoreSummaryOrder(sorted);
    sorted
  }

  // ---------------------------------------------------------------------
  // Reservation summaries.

  datatype ReservationSummary = ReservationSummary(
    id: Id, startAt: Millis, endAt: Millis, status: ReservationStatus, statusLabel: string, tone: Tone,
    storeName: string, userName: string, clientName: Option<string>, slotTitle: Option<string>,
    note: Option<string>, isUpcoming: bool)

  /** The per-reservation view built inside `buildReservationSummariesInternal`. */
  function SummarizeReservation(j: JoinedReservation, referenceTime: Millis): ReservationSummary {
    var meta := StatusMetaOf(j.reservation.status);
    ReservationSummary(
      j.reservation.id, j.slot.startAt, j.slot.endAt, j.reservation.status, meta.caption, meta.tone,
      j.store.name, j.user.name, if j.client.Some? then Some(j.client.value.name) else None,
      j.slot.title, j.reservation.note,
      j.slot.endAt >= referenceTime && j.reservation.status != Cancelled)
  }

  /** A reservation stays upcoming at every earlier reference time, so the
      upcoming set only shrinks as time advances; a cancelled one never is. */
  lemma UpcomingShrinksOverTime(j: JoinedReservation, t1: Millis, t2: Millis)
    requires t1 <= t2
    ensures SummarizeReservation(j, t2).isUpcoming ==> SummarizeReservation(j, t1).isUpcoming
    ensures SummarizeReservation(j, t1).isUpcoming <==> j.slot.endAt >= t1 && j.reservation.status != Cancelled
  {
  }

  function SummaryStartKey(s: ReservationSummary): Key { Key(0, s.startAt, "") }

  /** `(a, b) => a.startAt - b.startAt` over reservation summaries. */
  function CompareSummaryStart(a: ReservationSummary, b: ReservationSummary): int { a.startAt - b.startAt }

  lemma SummaryComparatorMatchesKey(a: ReservationSummary, b: ReservationSummary)
    ensures CompareSummaryStart(a, b) <= 0 <==> KeyLe(SummaryStartKey(a), SummaryStartKey(b))
  {
  }

  /** `buildReservationSummariesInternal`: the summaries of the joinable
      reservations, ascending by slot start. */
  function BuildReservationSummaries(ds: Dataset, referenceTime: Millis): (r: seq<ReservationSummary>)
    requires Resolvable(ds, ds.reservations)
    ensures |r| == |Filter(ds.reservations, (x: Reservation) => HasSlot(ds, x))|
    ensures multiset(r) ==
      multiset(Map(JoinAll(ds, ds.reservations), (j: JoinedReservation) => SummarizeReservation(j, referenceTime)))
    ensures forall i, j :: 0 <= i < j < |r| ==> r[i].startAt <= r[j].startAt
  {
    var joined := JoinAll(ds, ds.reservations);
    var summaries := Map(joined, (j: JoinedReservation) => SummarizeReservation(j, referenceTime));
    var sorted := SortBy(summaries, SummaryStartKey);
    StartOrder(sorted);
    sorted
  }

  lemma StartOrder(r: seq<ReservationSummary>)
    requires SortedBy(r, SummaryStartKey)
    ensures forall i, j :: 0 <= i < j < |r| ==> r[i].startAt <= r[j].startAt
  {
    assert forall i, j :: 0 <= i < j < |r| ==> KeyLe(SummaryStartKey(r[i]), SummaryStartKey(r[j]));
  }

  /** Each summary is that of a listed reservation whose slot resolves. */
  lemma ReservationSummariesSound(ds: Dataset, referenceTime: Millis)
    requires Resolvable(ds, ds.reservations)
    ensures forall s :: s in BuildReservationSummaries(ds, referenceTime) ==>
                          exists r :: r in ds.reservations && HasSlot(ds, r) &&
                                      s == SummarizeReservation(JoinReservation(ds, r).value, referenceTime)
  {
    var joined := JoinAll(ds, ds.reservations);
    var summaries := Map(joined, (j: JoinedReservation) => SummarizeReservation(j, referenceTime));
    forall s | s in BuildReservationSummaries(ds, referenceTime)
      ensures exists r :: r in ds.reservations && HasSlot(ds, r) &&
                          s == SummarizeReservation(JoinReservation(ds, r).value, referenceTime)
    {
      assert s in multiset(summaries);
      var m :| 0 <= m < |summaries| && summaries[m] == s;
      assert JoinReservation(ds, joined[m].reservation) == Some(joined[m]);
    }
  }

  /** Each listed reservation whose slot resolves is summarised. */
  lemma ReservationSummariesComplete(ds: Dataset, referenceTime: Millis)
    requires Resolvable(ds, ds.reservations)
    ensures forall r :: r in ds.reservations && HasSlot(ds, r) ==>
                          SummarizeReservation(JoinReservation(ds, r).value, referenceTime)
                            in BuildReservationSummaries(ds, referenceTime)
  {
    var joined := JoinAll(ds, ds.reservations);
    var summaries := Map(joined, (j: JoinedReservation) => SummarizeReservation(j, referenceTime));
    forall r | r in ds.reservations && HasSlot(ds, r)
      ensures SummarizeReservation(JoinReservation(ds, r).value, referenceTime)
                in BuildReservationSummaries(ds, referenceTime)
    {
      var k :| 0 <= k < |ds.reservations| && ds.reservations[k] == r;
      var j := JoinReservation(ds, r).value;
      var m :| 0 <= m < |joined| && joined[m] == j;
      assert summaries[m] in multiset(BuildReservationSummaries(ds, referenceTime));
    }
  }

  // ---------------------------------------------------------------------
  // Dashboard statistics.

  datatype DashboardStats = DashboardStats(totalSalons: nat, activeSalons: nat, upcomingSlots: nat,
                                           upcomingReservations: nat, nextSlotStartAt: Option<Millis>,
                                           nextSlotStoreName: Option<string>)

  datatype SlotPair = SlotPair(slot: Slot, storeName: string)

  function PairStartKey(p: SlotPair): Key { Key(0, p.slot.startAt, "") }

  /** `(a, b) => a.slot.startAt - b.slot.startAt` over slot pairs. */
  function ComparePairStart(a: SlotPair, b: SlotPair): int { a.slot.startAt - b.slot.startAt }

  lemma PairComparatorMatchesKey(a: SlotPair, b: SlotPair)
    ensures ComparePairStart(a, b) <= 0 <==> KeyLe(PairStartKey(a), PairStartKey(b))
  {
  }

  function UpcomingCount(s: StoreSummary): int { |s.upcomingSlots| }

  /** `flatMap` of each summary's upcoming slots, paired with its store name. */
  function SlotPairs(summaries: seq<StoreSummary>): (r: seq<SlotPair>)
    ensures |r| == SumOf(summaries, UpcomingCount)
    ensures forall p :: p in r ==> exists s :: s in summaries && p.slot in s.upcomingSlots && p.storeName == s.store.name
    ensures forall s, x :: s in summaries && x in s.upcomingSlots ==> SlotPair(x, s.store.name) in r
  {
    if |summaries| == 0 then []
    else
      var s := summaries[0];
      var here := Map(s.upcomingSlots, (slot: Slot) => SlotPair(slot, s.store.name));
      var rest := SlotPairs(summaries[1..]);
      assert forall x :: x in s.upcomingSlots ==> SlotPair(x, s.store.name) in here by {
        MapMembers(s.upcomingSlots, (slot: Slot) => SlotPair(slot, s.store.name));
      }
      assert forall p :: p in here ==> p.slot in s.upcomingSlots && p.storeName == s.store.name;
      assert forall t :: t in summaries ==> t == s || t in summaries[1..];
      here + rest
  }

  predicate IsActive(s: StoreSummary) { s.totalUpcoming > 0 }

  predicate CountsAsUpcoming(r: ReservationSummary) { r.isUpcoming && r.status != Cancelled }

  /** The first pair in start order starts no later than any upcoming slot
      of an active summary, and is one of them. */
  lemma EarliestPair(summaries: seq<StoreSummary>, sorted: seq<SlotPair>)
    requires multiset(sorted) == multiset(SlotPairs(Filter(summaries, IsActive)))
    requires SortedBy(sorted, PairStartKey)
    ensures forall s, x :: s in summaries && IsActive(s) && x in s.upcomingSlots ==>
      |sorted| > 0 && sorted[0].slot.startAt <= x.startAt
    ensures |sorted| > 0 ==>
              exists s :: s in summaries && IsActive(s) && sorted[0].slot in s.upcomingSlots && sorted[0].storeName == s.store.name
  {
    var active := Filter(summaries, IsActive);
    forall s, x | s in summaries && IsActive(s) && x in s.upcomingSlots
      ensures |sorted| > 0 && sorted[0].slot.startAt <= x.startAt
    {
      var p := SlotPair(x, s.store.name);
      assert p in multiset(sorted);
      var m :| 0 <= m < |sorted| && sorted[m] == p;
      if m > 0 {
        assert KeyLe(PairStartKey(sorted[0]), PairStartKey(sorted[m]));
      }
    }
    if |sorted| > 0 {
      assert sorted[0] in multiset(SlotPairs(active));
    }
  }

  /** `createDashboardStatsInternal`; `totalSalons` is the store count it reads. */
  function CreateDashboardStats(totalSalons: nat, storeSummaries: seq<StoreSummary>,
                                reservationSummaries: seq<ReservationSummary>): (d: DashboardStats)
    ensures d.totalSalons == totalSalons
    ensures d.activeSalons == |Filter(storeSummaries, IsActive)| <= |storeSummaries|
    ensures d.upcomingSlots == SumOf(Filter(storeSummaries, IsActive), UpcomingCount)
    ensures d.upcomingReservations == |Filter(reservationSummaries, CountsAsUpcoming)| <= |reservationSummaries|
    ensures d.nextSlotStartAt.None? <==> d.upcomingSlots == 0
    ensures d.nextSlotStartAt.Some? <==> d.nextSlotStoreName.Some?
    ensures forall s, x :: s in storeSummaries && IsActive(s) && x in s.upcomingSlots ==>
      d.nextSlotStartAt.Some? && d.nextSlotStartAt.value <= x.startAt
    ensures d.nextSlotStartAt.Some? ==>
      exists s :: s in storeSummaries && IsActive(s) && s.store.name == d.nextSlotStoreName.value &&
        exists x :: x in s.upcomingSlots && x.startAt == d.nextSlotStartAt.value
  {
    var active := Filter(storeSummaries, IsActive);
    var sorted := SortBy(SlotPairs(active), PairStartKey);
    var upcomingReservations := Filter(reservationSummaries, CountsAsUpcoming);
    EarliestPair(storeSummaries, sorted);
    if |sorted| == 0 then
      DashboardStats(totalSalons, |active|, 0, |upcomingReservations|, None, None)
    else
      DashboardStats(totalSalons, |active|, |sorted|, |upcomingReservations|,
                     Some(sorted[0].slot.startAt), Some(sorted[0].storeName))
  }

  // ---------------------------------------------------------------------
  // Last update and the bundle.

  /** The timestamps `calcLastUpdatedAt` takes the maximum of. */
  function UserTimestamps(ds: Dataset): seq<Millis> {
    Map(ds.stores, StoreUpdatedAt) + Map(ds.slots, SlotUpdatedAt) + Map(ds.reservations, ReservationUpdatedAt)
  }

  lemma UserTimestampsCover(ds: Dataset)
    ensures forall s :: s in ds.stores ==> s.updatedAt in UserTimestamps(ds)
    ensures forall s :: s in ds.slots ==> s.updatedAt in UserTimestamps(ds)
    ensures forall r :: r in ds.reservations ==> r.updatedAt in UserTimestamps(ds)
  {
    var a, b, c := Map(ds.stores, StoreUpdatedAt), Map(ds.slots, SlotUpdatedAt), Map(ds.reservations, ReservationUpdatedAt);
    assert UserTimestamps(ds) == a + b + c;
    MapMembers(ds.stores, StoreUpdatedAt);
    MapMembers(ds.slots, SlotUpdatedAt);
    MapMembers(ds.reservations, ReservationUpdatedAt);
  }

  /** `calcLastUpdatedAt`: the latest `updatedAt` among stores, slots and
      reservations, or `clockNow` (the `Date.now()` read) when all three are empty. */
  function CalcLastUpdatedAt(ds: Dataset, clockNow: Millis): (t: Millis)
    ensures forall s :: s in ds.stores ==> s.updatedAt <= t
    ensures forall s :: s in ds.slots ==> s.updatedAt <= t
    ensures forall r :: r in ds.reservations ==> r.updatedAt <= t
    ensures |ds.stores| + |ds.slots| + |ds.reservations| > 0 ==> t in UserTimestamps(ds)
    ensures |ds.stores| + |ds.slots| + |ds.reservations| == 0 ==> t == clockNow
  {
    var ts := UserTimestamps(ds);
    UserTimestampsCover(ds);
    if |ts| > 0 then MaxOf(ts) else clockNow
  }

  datatype UserDataBundle = UserDataBundle(storeSummaries: seq<StoreSummary>,
                                           reservationSummaries: seq<ReservationSummary>,
                                           stats: DashboardStats, lastUpdatedAt: Millis, now: Millis)

  function TotalUpcomingOf(s: StoreSummary): int { s.totalUpcoming }

  predicate IsUpcomingSummary(r: ReservationSummary) { r.isUpcoming }

  /** Inactive summaries contribute nothing, so summing over the active ones
      is summing `totalUpcoming` over all. */
  lemma {:induction false} ActiveSumIsTotal(ss: seq<StoreSummary>)
    requires forall s :: s in ss ==> s.totalUpcoming == |s.upcomingSlots|
    ensures SumOf(Filter(ss, IsActive), UpcomingCount) == SumOf(ss, TotalUpcomingOf)
  {
    if |ss| > 0 {
      var s, t := ss[0], ss[1..];
      assert ss == [s] + t;
      assert s.totalUpcoming == |s.upcomingSlots| by {
        assert s in ss;
      }
      assert forall x :: x in t ==> x.totalUpcoming == |x.upcomingSlots| by {
        forall x | x in t
          ensures x.totalUpcoming == |x.upcomingSlots|
        {
          assert x in ss;
        }
      }
      ActiveSumIsTotal(t);
      ActiveSumStep(s, t);
    }
  }

  /** One step of the above: the head counts the same on both sides. */
  lemma ActiveSumStep(s: StoreSummary, t: seq<StoreSummary>)
    requires s.totalUpcoming == |s.upcomingSlots|
    requires SumOf(Filter(t, IsActive), UpcomingCount) == SumOf(t, TotalUpcomingOf)
    ensures SumOf(Filter([s] + t, IsActive), UpcomingCount) == SumOf([s] + t, TotalUpcomingOf)
  {
    var active := Filter(t, IsActive);
    FilterCons(s, t, IsActive);
    SumOfCons(s, t, TotalUpcomingOf);
    if IsActive(s) {
      assert Filter([s] + t, IsActive) == [s] + active;
      SumOfCons(s, active, UpcomingCount);
    } else {
      assert Filter([s] + t, IsActive) == active;
      assert TotalUpcomingOf(s) == 0;
    }
  }

  /** The dashboard's extra `status !== 'cancelled'` test is redundant:
      `isUpcoming` already excludes cancelled reservations. */
  lemma {:induction false} UpcomingFilterRedundant(rs: seq<ReservationSummary>)
    requires forall r :: r in rs ==> (r.isUpcoming ==> r.status != Cancelled)
    ensures Filter(rs, CountsAsUpcoming) == Filter(rs, IsUpcomingSummary)
  {
    if |rs| > 0 {
      assert rs[0] in rs;
      assert forall r :: r in rs[1..] ==> r in rs;
      UpcomingFilterRedundant(rs[1..]);
    }
  }

  /** Every reservation summary flags itself upcoming only when not cancelled. */
  lemma SummariesNeverUpcomingCancelled(ds: Dataset, referenceTime: Millis)
    requires Resolvable(ds, ds.reservations)
    ensures forall r :: r in BuildReservationSummaries(ds, referenceTime) ==> (r.isUpcoming ==> r.status != Cancelled)
  {
    ReservationSummariesSound(ds, referenceTime);
  }

  /** A slot in a store's own summary is an upcoming slot of that store. */
  lemma OwnSummarySlot(store: Store, slots: seq<Slot>, referenceTime: Millis, x: Slot)
    ensures x in BuildStoreSummary(store, slots, referenceTime).upcomingSlots <==>
      x in slots && UpcomingAtStore(x, store, referenceTime)
  {
    var u := BuildStoreSummary(store, slots, referenceTime).upcomingSlots;
    assert x in u <==> multiset(u)[x] > 0;
    assert x in slots <==> multiset(slots)[x] > 0;
  }

  /** The summary of a listed store is among the summaries, and a summary's store is listed. */
  lemma SummaryOfListedStore(stores: seq<Store>, ss: seq<StoreSummary>, s: Store) returns (sm: StoreSummary)
    requires multiset(Map(ss, SummaryStore)) == multiset(stores)
    requires s in stores
    ensures sm in ss && sm.store == s
  {
    assert s in multiset(Map(ss, SummaryStore));
    var i :| 0 <= i < |Map(ss, SummaryStore)| && Map(ss, SummaryStore)[i] == s;
    sm := ss[i];
  }

  lemma ListedStoreOfSummary(stores: seq<Store>, ss: seq<StoreSummary>, sm: StoreSummary)
    requires multiset(Map(ss, SummaryStore)) == multiset(stores)
    requires sm in ss
    ensures sm.store in stores
  {
    var i :| 0 <= i < |ss| && ss[i] == sm;
    assert Map(ss, SummaryStore)[i] == sm.store;
    assert sm.store in multiset(stores);
  }

  /** The dashboard's next start time is no later than any upcoming slot of any store. */
  lemma NextSlotBelowEveryStore(ds: Dataset, referenceTime: Millis, ss: seq<StoreSummary>, stats: DashboardStats)
    requires multiset(Map(ss, SummaryStore)) == multiset(ds.stores)
    requires forall s :: s in ss ==> IsOwnSummary(s, ds.slots, referenceTime)
    requires forall s, x :: s in ss && IsActive(s) && x in s.upcomingSlots ==>
      stats.nextSlotStartAt.Some? && stats.nextSlotStartAt.value <= x.startAt
    ensures forall s, x :: s in ds.stores && x in ds.slots && UpcomingAtStore(x, s, referenceTime) ==>
      stats.nextSlotStartAt.Some? && stats.nextSlotStartAt.value <= x.startAt
  {
    forall s, x | s in ds.stores && x in ds.slots && UpcomingAtStore(x, s, referenceTime)
      ensures stats.nextSlotStartAt.Some? && stats.nextSlotStartAt.value <= x.startAt
    {
      var sm := SummaryOfListedStore(ds.stores, ss, s);
      OwnSummarySlot(s, ds.slots, referenceTime, x);
      assert IsActive(sm);
    }
  }

  /** The dashboard's next slot is an upcoming slot of a listed store. */
  lemma NextSlotFromListedStore(ds: Dataset, referenceTime: Millis, ss: seq<StoreSummary>, stats: DashboardStats)
    requires multiset(Map(ss, SummaryStore)) == multiset(ds.stores)
    requires forall s :: s in ss ==> IsOwnSummary(s, ds.slots, referenceTime)
    requires stats.nextSlotStartAt.Some? ==>
               && stats.nextSlotStoreName.Some?
               && exists s :: s in ss && IsActive(s) && s.store.name == stats.nextSlotStoreName.value &&
                                exists x :: x in s.upcomingSlots && x.startAt == stats.nextSlotStartAt.value
    ensures stats.nextSlotStartAt.Some? ==>
      exists s :: s in ds.stores && s.name == stats.nextSlotStoreName.value &&
        exists x :: x in ds.slots && UpcomingAtStore(x, s, referenceTime) && x.startAt == stats.nextSlotStartAt.value
  {
    if stats.nextSlotStartAt.Some? {
      var sm :| sm in ss && IsActive(sm) && sm.store.name == stats.nextSlotStoreName.value &&
        exists x :: x in sm.upcomingSlots && x.startAt == stats.nextSlotStartAt.value;
      var x :| x in sm.upcomingSlots && x.startAt == stats.nextSlotStartAt.value;
      ListedStoreOfSummary(ds.stores, ss, sm);
      OwnSummarySlot(sm.store, ds.slots, referenceTime, x);
    }
  }

  /** `loadUserData(referenceTime)`: the store and reservation summaries, the
      dashboard statistics over them and the last update. */
  function LoadUserData(ds: Dataset, referenceTime: Millis, clockNow: Millis): (b: UserDataBundle)
    requires Resolvable(ds, ds.reservations)
    ensures b.now == referenceTime
    ensures b.storeSummaries == BuildStoreSummaries(ds.stores, ds.slots, referenceTime)
    ensures b.reservationSummaries == BuildReservationSummaries(ds, referenceTime)
    ensures b.stats.totalSalons == |ds.stores| == |b.storeSummaries|
    ensures b.stats.activeSalons == |Filter(b.storeSummaries, IsActive)|
    ensures b.stats.upcomingSlots == SumOf(b.storeSummaries, TotalUpcomingOf)
    ensures b.stats.upcomingReservations == |Filter(b.reservationSummaries, IsUpcomingSummary)|
    ensures forall s, x :: s in ds.stores && x in ds.slots && UpcomingAtStore(x, s, referenceTime) ==>
      b.stats.nextSlotStartAt.Some? && b.stats.nextSlotStartAt.value <= x.startAt
    ensures b.stats.nextSlotStartAt.Some? ==>
              && b.stats.nextSlotStoreName.Some?
              && exists s :: s in ds.stores && s.name == b.stats.nextSlotStoreName.value &&
                               exists x :: x in ds.slots && UpcomingAtStore(x, s, referenceTime) &&
                                           x.startAt == b.stats.nextSlotStartAt.value
    ensures b.lastUpdatedAt == CalcLastUpdatedAt(ds, clockNow)
  {
    var storeSummaries := BuildStoreSummaries(ds.stores, ds.slots, referenceTime);
    var reservationSummaries := BuildReservationSummaries(ds, referenceTime);
    var stats := CreateDashboardStats(|ds.stores|, storeSummaries, reservationSummaries);
    ActiveSumIsTotal(storeSummaries);
    SummariesNeverUpcomingCancelled(ds, referenceTime);
    UpcomingFilterRedundant(reservationSummaries);
    NextSlotBelowEveryStore(ds, referenceTime, storeSummaries, stats);
    NextSlotFromListedStore(ds, referenceTime, storeSummaries, stats);
    UserDataBundle(storeSummaries, reservationSummaries, stats, CalcLastUpdatedAt(ds, clockNow), referenceTime)
  }
}
