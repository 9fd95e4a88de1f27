/** The mock dataset and the reservation join (packages/mocks/src/data.ts).

    The module-level fixture arrays become a `Dataset` parameter, and the
    `Date.now()` read at module load becomes the `now` parameter of `Fixture`. */
module MockData {
  import opened Wrappers
  import opened Seqs
  import opened Entities

  datatype Dataset = Dataset(stores: seq<Store>, clients: seq<Client>, users: seq<User>,
                             slots: seq<Slot>, reservations: seq<Reservation>)

  function StoreIdOf(s: Store): Id { s.id }
  function ClientIdOf(c: Client): Id { c.id }
  function UserIdOf(u: User): Id { u.id }
  function SlotIdOf(s: Slot): Id { s.id }

  /** The reservation's slot resolves. */
  predicate HasSlot(ds: Dataset, r: Reservation) {
    FindById(ds.slots, SlotIdOf, r.slotId).Some?
  }

  /** What the two non-null assertions (`!`) of the join take for granted:
      once the slot resolves, so do its store and the reservation's user. */
  predicate JoinIntegrity(ds: Dataset, r: Reservation) {
    match FindById(ds.slots, SlotIdOf, r.slotId)
    case None => true
    case Some(slot) =>
      && FindById(ds.stores, StoreIdOf, slot.storeId).Some?
      && FindById(ds.users, UserIdOf, r.userId).Some?
  }

  /** Every reservation in `rs` joins so that the join's non-null assumptions hold. */
  predicate Resolvable(ds: Dataset, rs: seq<Reservation>) {
    forall r :: r in rs ==> JoinIntegrity(ds, r)
  }

  /** `slot.clientId ? clients.find(...) : undefined`; an empty id is falsy. */
  function ClientOf(clients: seq<Client>, slot: Slot): Option<Client> {
    if slot.clientId.Some? && slot.clientId.value != "" then FindById(clients, ClientIdOf, slot.clientId.value)
    else None
  }

  /** `joinReservation(r)`: resolves the slot, then its store, optional client
      and the user; absent exactly when the slot does not resolve. What each
      part resolves to is stated by `JoinReservationParts`. */
  function JoinReservation(ds: Dataset, r: Reservation): (j: Option<JoinedReservation>)
    requires JoinIntegrity(ds, r)
    ensures j.None? <==> forall i :: 0 <= i < |ds.slots| ==> ds.slots[i].id != r.slotId
    ensures j.Some? ==> j.value.reservation == r
  {
    match FindById(ds.slots, SlotIdOf, r.slotId)
    case None => None
    case Some(slot) =>
      var store := FindById(ds.stores, StoreIdOf, slot.storeId).value;
      var client := ClientOf(ds.clients, slot);
      var user := FindById(ds.users, UserIdOf, r.userId).value;
      Some(JoinedReservation(r, slot, store, client, user))
  }

  /** The parts of a join: the first slot with the reservation's slot id,
      the first store with the slot's store id, the first user with the
      reservation's user id, and the first client with the slot's client
      id when the slot names a (nonempty) one. */
  lemma JoinReservationParts(ds: Dataset, r: Reservation)
    requires JoinIntegrity(ds, r)
    ensures var j := JoinReservation(ds, r);
      && (j.Some? ==> exists i :: IsFirstWithId(ds.slots, SlotIdOf, r.slotId, i) && ds.slots[i] == j.value.slot)
      && (j.Some? ==> exists i :: IsFirstWithId(ds.stores, StoreIdOf, j.value.slot.storeId, i) && ds.stores[i] == j.value.store)
      && (j.Some? ==> exists i :: IsFirstWithId(ds.users, UserIdOf, r.userId, i) && ds.users[i] == j.value.user)
      && (j.Some? && (j.value.slot.clientId.None? || j.value.slot.clientId == Some("")) ==> j.value.client.None?)
      && (j.Some? && j.value.slot.clientId.Some? && j.value.slot.clientId.value != "" ==>
            (j.value.client.None? <==> forall i :: 0 <= i < |ds.clients| ==> ds.clients[i].id != j.value.slot.clientId.value))
      && (j.Some? && j.value.client.Some? ==>
            exists i :: IsFirstWithId(ds.clients, ClientIdOf, j.value.slot.clientId.value, i) && ds.clients[i] == j.value.client.value)
  {
  }

  /** `reservations.map(joinReservation).filter(Boolean)`. */
  function JoinAll(ds: Dataset, rs: seq<Reservation>): (out: seq<JoinedReservation>)
    requires Resolvable(ds, rs)
    ensures |out| == |Filter(rs, r => HasSlot(ds, r))|
    ensures forall j :: j in out ==> j.reservation in rs && JoinReservation(ds, j.reservation) == Some(j)
    ensures forall r :: r in rs && HasSlot(ds, r) ==> JoinReservation(ds, r).value in out
  {
    if |rs| == 0 then []
    else
      var head, tail := rs[0], rs[1..];
      assert rs == [head] + tail;
      var rest := JoinAll(ds, tail);
      match JoinReservation(ds, head)
      case None => rest
      case Some(j) => [j] + rest
  }

  /** Joining distributes over concatenation: unjoinable reservations are
      dropped and the others keep their order. */
  lemma {:induction false} JoinAllAppend(ds: Dataset, a: seq<Reservation>, b: seq<Reservation>)
    requires Resolvable(ds, a) && Resolvable(ds, b)
    ensures Resolvable(ds, a + b)
    ensures JoinAll(ds, a + b) == JoinAll(ds, a) + JoinAll(ds, b)
  {
    if |a| == 0 {
      assert a + b == b;
    } else {
      assert (a + b)[1..] == a[1..] + b;
      assert a == [a[0]] + a[1..];
      JoinAllAppend(ds, a[1..], b);
    }
  }

  // ---------------------------------------------------------------------
  // The fixture (`stores`, `clients`, `users`, `slots`, `reservations`).

  const HourMillis: int := 60 * 60 * 1000

  /** `jst(h)`: `h` hours after `now`. */
  function Jst(now: Millis, h: int): Millis { now + h * HourMillis }

  function FixtureStore1(now: Millis): Store { Store("st_1", "銀座サロン", "GINZA", "東京都中央区", now, now) }
  function FixtureStore2(now: Millis): Store { Store("st_2", "渋谷サロン", "SHIBUYA", "東京都渋谷区", now, now) }
  function FixtureClient1(now: Millis): Client { Client("cl_1", "ABC派遣", "ABC", "東京都千代田区", now, now) }
  function FixtureUser1(now: Millis): User { User("u_1", "山田太郎", now, now) }
  function FixtureUser2(now: Millis): User { User("u_2", "佐藤花子", now, now) }

  function FixtureSlot1(now: Millis): Slot {
    Slot("sl_1", "st_1", Some("cl_1"), Jst(now, 24), Jst(now, 25), 2, SlotActive,
         Some("カット/カラー"), Some("スタイリスト指名可"), now, now)
  }

  function FixtureSlot2(now: Millis): Slot {
    Slot("sl_2", "st_2", None, Jst(now, 48), Jst(now, 49), 1, SlotActive,
         Some("シャンプーのみ"), None, now, now)
  }

  function FixtureReservation1(now: Millis): Reservation { Reservation("r_1", "sl_1", "u_1", Confirmed, None, now, now) }
  function FixtureReservation2(now: Millis): Reservation { Reservation("r_2", "sl_2", "u_2", Draft, None, now, now) }

  function Fixture(now: Millis): Dataset {
    Dataset([FixtureStore1(now), FixtureStore2(now)],
            [FixtureClient1(now)],
            [FixtureUser1(now), FixtureUser2(now)],
            [FixtureSlot1(now), FixtureSlot2(now)],
            [FixtureReservation1(now), FixtureReservation2(now)])
  }

  /** The fixture's reservations can all be joined. */
  lemma FixtureResolvable(now: Millis)
    ensures Resolvable(Fixture(now), Fixture(now).reservations)
  {
    var ds := Fixture(now);
    FixtureJoinsFirst(now);
    FixtureJoinsSecond(now);
    assert ds.reservations == [FixtureReservation1(now), FixtureReservation2(now)];
    ResolvablePair(ds, FixtureReservation1(now), FixtureReservation2(now));
  }

  lemma ResolvablePair(ds: Dataset, a: Reservation, b: Reservation)
    requires JoinIntegrity(ds, a) && JoinIntegrity(ds, b)
    ensures Resolvable(ds, [a, b])
  {
  }

  /** On the fixture r_1 joins with store st_1 and client cl_1. */
  lemma FixtureJoinsFirst(now: Millis)
    ensures JoinIntegrity(Fixture(now), FixtureReservation1(now))
    ensures JoinReservation(Fixture(now), FixtureReservation1(now))
      == Some(JoinedReservation(FixtureReservation1(now), FixtureSlot1(now), FixtureStore1(now),
                                Some(FixtureClient1(now)), FixtureUser1(now)))
  {
    var ds := Fixture(now);
    FindByUniqueId(ds.slots, SlotIdOf, 0);
    FindByUniqueId(ds.stores, StoreIdOf, 0);
    FindByUniqueId(ds.users, UserIdOf, 0);
    FindByUniqueId(ds.clients, ClientIdOf, 0);
  }

  /** On the fixture r_2 joins with store st_2 and no client. */
  lemma FixtureJoinsSecond(now: Millis)
    ensures JoinIntegrity(Fixture(now), FixtureReservation2(now))
    ensures JoinReservation(Fixture(now), FixtureReservation2(now))
      == Some(JoinedReservation(FixtureReservation2(now), FixtureSlot2(now), FixtureStore2(now),
                                None, FixtureUser2(now)))
  {
    var ds := Fixture(now);
    FindByUniqueId(ds.slots, SlotIdOf, 1);
    FindByUniqueId(ds.stores, StoreIdOf, 1);
    FindByUniqueId(ds.users, UserIdOf, 1);
  }
}
