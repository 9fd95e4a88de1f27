/** The shared reservation records (packages/mocks/src/types.ts).

    Every record carries the audit pair `createdAt`/`updatedAt` in epoch
    milliseconds. Optional (`?:`) fields are `Option`s. The closed string
    unions for statuses become enumerations. */
module Entities {
  import opened Wrappers

  type Id = string

  /** Epoch milliseconds (JavaScript numbers; only integral values occur). */
  type Millis = int

  datatype ReservationStatus = Draft | Confirmed | Cancelled

  /** A slot is `'active' | 'cancelled'`. */
  datatype SlotStatus = SlotActive | SlotCancelled

  datatype Store = Store(id: Id, name: string, code: string, address: string,
                         createdAt: Millis, updatedAt: Millis)

  datatype Client = Client(id: Id, name: string, code: string, address: string,
                           createdAt: Millis, updatedAt: Millis)

  datatype User = User(id: Id, name: string, createdAt: Millis, updatedAt: Millis)

  /** A bookable window at a store. `storeId` is required, `clientId` optional;
      `capacity` is documented as at least 1 but not enforced by the type. */
  datatype Slot = Slot(id: Id, storeId: Id, clientId: Option<Id>,
                       startAt: Millis, endAt: Millis, capacity: int,
                       status: SlotStatus, title: Option<string>, note: Option<string>,
                       createdAt: Millis, updatedAt: Millis)

  /** A user's claim on a slot. It holds no store or client id: those are
      reachable only through the slot. */
  datatype Reservation = Reservation(id: Id, slotId: Id, userId: Id,
                                     status: ReservationStatus, note: Option<string>,
                                     createdAt: Millis, updatedAt: Millis)

  /** A reservation resolved through its slot; only the client may be absent. */
  datatype JoinedReservation = JoinedReservation(reservation: Reservation, slot: Slot, store: Store,
                                                 client: Option<Client>, user: User)

  // The audit timestamp of each record, as named projections.
  function StoreUpdatedAt(s: Store): Millis { s.updatedAt }
  function ClientUpdatedAt(c: Client): Millis { c.updatedAt }
  function UserUpdatedAt(u: User): Millis { u.updatedAt }
  function SlotUpdatedAt(s: Slot): Millis { s.updatedAt }
  function ReservationUpdatedAt(r: Reservation): Millis { r.updatedAt }
}
