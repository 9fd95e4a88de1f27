/** The admin app's data (apps/admin/src/app/admin/data.ts): the count
    shown for each list route, the latest update time of users and of
    salons, and the salon-name lookup. The mocks' collections are the
    fields of an `AdminCatalog`. */
module AdminData {
  import opened Wrappers
  import opened Seqs
  import opened Entities
  import SalonCatalog
  import MockData
  import opened AdminNavigation

  datatype AdminCatalog = AdminCatalog(users: seq<User>, salons: seq<Store>, stylists: seq<SalonCatalog.Stylist>,
                                       menus: seq<SalonCatalog.MenuItem>, posts: seq<SalonCatalog.Post>)

  /** `summaryCounts[route]`: a count for every route but the dashboard,
      namely the length of the list that route shows. */
  function SummaryCount(c: AdminCatalog, route: AdminRoute): (n: Option<nat>)
    ensures n.None? <==> route == Dashboard
    ensures route == Users ==> n == Some(|c.users|)
    ensures route == Salons ==> n == Some(|c.salons|)
    ensures route == Stylists ==> n == Some(|c.stylists|)
    ensures route == Menus ==> n == Some(|c.menus|)
    ensures route == Posts ==> n == Some(|c.posts|)
  {
    match route
    case Dashboard => None
    case Users => Some(|c.users|)
    case Salons => Some(|c.salons|)
    case Stylists => Some(|c.stylists|)
    case Menus => Some(|c.menus|)
    case Posts => Some(|c.posts|)
  }

  /** A list route counts zero exactly when its list has no latest update. */
  lemma SummaryCountsMatchLatest(c: AdminCatalog)
    ensures SummaryCount(c, Users) == Some(0) <==> LastUserUpdatedAt(c.users).None?
    ensures SummaryCount(c, Salons) == Some(0) <==> LastSalonUpdatedAt(c.salons).None?
  {
  }

  /** `users.length > 0 ? Math.max(...users.map(u => u.updatedAt)) : undefined`. */
  function LastUserUpdatedAt(users: seq<User>): (t: Option<Millis>)
    ensures t.None? <==> |users| == 0
    ensures t.Some? ==> exists u :: u in users && u.updatedAt == t.value
    ensures t.Some? ==> forall u :: u in users ==> u.updatedAt <= t.value
  {
    var times := Map(users, UserUpdatedAt);
    var t := MaxOrNone(times);
    MapMembers(users, UserUpdatedAt);
    if t.Some? then
      var i :| 0 <= i < |times| && times[i] == t.value;
      assert users[i] in users;
      t
    else t
  }

  /** `salons.length > 0 ? Math.max(...salons.map(s => s.updatedAt)) : undefined`. */
  function LastSalonUpdatedAt(salons: seq<Store>): (t: Option<Millis>)
    ensures t.None? <==> |salons| == 0
    ensures t.Some? ==> exists s :: s in salons && s.updatedAt == t.value
    ensures t.Some? ==> forall s :: s in salons ==> s.updatedAt <= t.value
  {
    var times := Map(salons, StoreUpdatedAt);
    var t := MaxOrNone(times);
    MapMembers(salons, StoreUpdatedAt);
    if t.Some? then
      var i :| 0 <= i < |times| && times[i] == t.value;
      assert salons[i] in salons;
      t
    else t
  }

  /** `lastAdminDataUpdatedAt`, the catalogue-wide latest update, is never
      earlier than the latest user or salon update. */
  lemma LastUpdatesWithinCatalog(c: AdminCatalog, clockNow: Millis)
    ensures var all := SalonCatalog.SalonDataLastUpdatedAt(c.users, c.salons, c.stylists, c.menus, c.posts, clockNow);
      && (LastUserUpdatedAt(c.users).Some? ==> LastUserUpdatedAt(c.users).value <= all)
      && (LastSalonUpdatedAt(c.salons).Some? ==> LastSalonUpdatedAt(c.salons).value <= all)
  {
    var all := SalonCatalog.SalonDataLastUpdatedAt(c.users, c.salons, c.stylists, c.menus, c.posts, clockNow);
    if LastUserUpdatedAt(c.users).Some? {
      var u :| u in c.users && u.updatedAt == LastUserUpdatedAt(c.users).value;
    }
    if LastSalonUpdatedAt(c.salons).Some? {
      var s :| s in c.salons && s.updatedAt == LastSalonUpdatedAt(c.salons).value;
    }
  }

  /** `getSalonName(salonId)`: the mocks' lookup over the admin's salons,
      so the first salon with the id names it, and an unknown id gets the
      placeholder. */
  function GetSalonName(c: AdminCatalog, salonId: Id): (name: string)
    ensures (forall i :: 0 <= i < |c.salons| ==> c.salons[i].id != salonId) ==> name == SalonCatalog.UnregisteredName
    ensures (exists i :: 0 <= i < |c.salons| && c.salons[i].id == salonId) ==>
      exists i :: IsFirstWithId(c.salons, MockData.StoreIdOf, salonId, i) && c.salons[i].name == name
  {
    SalonCatalog.GetSalonName(c.salons, salonId)
  }
}
