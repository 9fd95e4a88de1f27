/** Salon staff, menus and posts and the salon-name lookup
    (packages/mocks/src/salon.ts).

    The stylist and menu fixtures take `salonId` and `salonName` from the
    same store record (`salonStores[k]`, falling back to the first store and
    then to the literal pair), which the pairing lemma below relies on. */
module SalonCatalog {
  import opened Wrappers
  import opened Seqs
  import opened Entities
  import MockData

  datatype StylistStatus = StylistActive | StylistInactive | StylistSabbatical

  datatype Stylist = Stylist(id: Id, name: string, salonId: Id, salonName: string, role: string,
                             status: StylistStatus, certifications: seq<string>,
                             createdAt: Millis, updatedAt: Millis)

  datatype MenuItem = MenuItem(id: Id, salonId: Id, salonName: string, title: string, category: string,
                               price: int, durationMinutes: int, isPublished: bool,
                               createdAt: Millis, updatedAt: Millis)

  /** `'利用者' | '店舗' | '医療機関'`. */
  datatype PostAudience = ForUsers | ForStores | ForMedical

  datatype PostStatus = PostDraft | PostScheduled | PostPublished

  datatype Post = Post(id: Id, title: string, audience: PostAudience, status: PostStatus, summary: string,
                       publishedAt: Option<Millis>, createdAt: Millis, updatedAt: Millis)

  /** The name shown for an id no store has. */
  const UnregisteredName: string := "未登録拠点"

  /** `getSalonName(salonId)`: the name of the first store with that id,
      or the placeholder when no store has it. */
  function GetSalonName(stores: seq<Store>, salonId: Id): (name: string)
    ensures (forall i :: 0 <= i < |stores| ==> stores[i].id != salonId) ==> name == UnregisteredName
    ensures (exists i :: 0 <= i < |stores| && stores[i].id == salonId) ==>
      exists i :: IsFirstWithId(stores, MockData.StoreIdOf, salonId, i) && stores[i].name == name
  {
    match FindById(stores, MockData.StoreIdOf, salonId)
    case Some(store) => store.name
    case None => UnregisteredName
  }

  /** The placeholder is returned exactly when the id is unknown, provided no
      store is itself named like the placeholder. */
  lemma UnregisteredExactly(stores: seq<Store>, salonId: Id)
    requires forall i :: 0 <= i < |stores| ==> stores[i].name != UnregisteredName
    ensures GetSalonName(stores, salonId) == UnregisteredName
            <==> forall i :: 0 <= i < |stores| ==> stores[i].id != salonId
  {
    var found := FindById(stores, MockData.StoreIdOf, salonId);
    if found.Some? {
      var i :| IsFirstWithId(stores, MockData.StoreIdOf, salonId, i) && stores[i] == found.value;
      assert GetSalonName(stores, salonId) == stores[i].name;
    }
  }

  // ---------------------------------------------------------------------
  // Fixtures derived from the store list.

  /** `new Date('2025-09-10T09:00:00+09:00').getTime()`. */
  const FallbackDate: Millis := 1757462400000

  const DayMillis: int := 24 * 60 * 60 * 1000

  /** `(salonStores[k]?.id ?? fallbackSalon?.id ?? 'st_1', salonStores[k]?.name ?? fallbackSalon?.name ?? '銀座サロン')`. */
  function SalonRef(stores: seq<Store>, k: nat): (ref: (Id, string))
    ensures |stores| > 0 ==> exists i :: 0 <= i < |stores| && ref == (stores[i].id, stores[i].name)
  {
    if k < |stores| then (stores[k].id, stores[k].name)
    else if |stores| > 0 then (stores[0].id, stores[0].name)
    else ("st_1", "銀座サロン")
  }

  function Stylists(stores: seq<Store>): seq<Stylist> {
    [ Stylist("sty_1", "井上 あかり", SalonRef(stores, 0).0, SalonRef(stores, 0).1, "正看護師", StylistActive,
              ["正看護師免許", "認知症サポーター研修"], FallbackDate, FallbackDate),
      Stylist("sty_2", "吉田 颯太", SalonRef(stores, 1).0, SalonRef(stores, 1).1, "理学療法士", StylistActive,
              ["理学療法士免許"], FallbackDate + DayMillis, FallbackDate + DayMillis),
      Stylist("sty_3", "渡辺 美咲", SalonRef(stores, 2).0, SalonRef(stores, 2).1, "管理栄養士", StylistSabbatical,
              ["管理栄養士"], FallbackDate + 2 * DayMillis, FallbackDate + 30 * DayMillis) ]
  }

  function Menus(stores: seq<Store>): seq<MenuItem> {
    [ MenuItem("menu_1", SalonRef(stores, 0).0, SalonRef(stores, 0).1, "朝の健康チェック", "健康相談",
               0, 15, true, FallbackDate, FallbackDate),
      MenuItem("menu_2", SalonRef(stores, 1).0, SalonRef(stores, 1).1, "オンライン診療サポート", "遠隔医療",
               1500, 30, true, FallbackDate + 3 * DayMillis, FallbackDate + 7 * DayMillis),
      MenuItem("menu_3", SalonRef(stores, 2).0, SalonRef(stores, 2).1, "見守り訪問プラン", "生活支援",
               3000, 45, false, FallbackDate + 5 * DayMillis, FallbackDate + 10 * DayMillis) ]
  }

  function Posts(): seq<Post> {
    [ Post("post_1", "9月のサロン開催予定", ForUsers, PostPublished,
           "津島市内3拠点の巡回スケジュールを公開しました。",
           Some(FallbackDate - 5 * DayMillis), FallbackDate - 7 * DayMillis, FallbackDate - 5 * DayMillis),
      Post("post_2", "カフェ事業者向け説明会のご案内", ForStores, PostScheduled,
           "新規参画希望者向けのオンライン説明会を実施します。",
           Some(FallbackDate + 2 * DayMillis), FallbackDate, FallbackDate),
      Post("post_3", "訪問看護連携アンケートのお願い", ForMedical, PostDraft,
           "今後の訪問看護連携強化に向けたアンケートご協力のお願いです。",
           None, FallbackDate + DayMillis, FallbackDate + DayMillis) ]
  }

  /** Store ids are unique (the documented key of the store table). */
  predicate UniqueStoreIds(stores: seq<Store>) {
    forall i, j :: 0 <= i < j < |stores| ==> stores[i].id != stores[j].id
  }

  /** A store reference built from one record names that record's store. */
  lemma SalonRefResolves(stores: seq<Store>, k: nat)
    requires |stores| > 0 && UniqueStoreIds(stores)
    ensures GetSalonName(stores, SalonRef(stores, k).0) == SalonRef(stores, k).1
  {
    var i :| 0 <= i < |stores| && SalonRef(stores, k) == (stores[i].id, stores[i].name);
    FindByUniqueId(stores, MockData.StoreIdOf, i);
  }

  /** For a nonempty store list with unique ids, every stylist and menu names
      the salon its id resolves to. */
  lemma FixturePairsAgree(stores: seq<Store>)
    requires |stores| > 0 && UniqueStoreIds(stores)
    ensures forall s :: s in Stylists(stores) ==> GetSalonName(stores, s.salonId) == s.salonName
    ensures forall m :: m in Menus(stores) ==> GetSalonName(stores, m.salonId) == m.salonName
  {
    SalonRefResolves(stores, 0);
    SalonRefResolves(stores, 1);
    SalonRefResolves(stores, 2);
  }

  function StylistUpdatedAt(s: Stylist): Millis { s.updatedAt }
  function MenuUpdatedAt(m: MenuItem): Millis { m.updatedAt }
  function PostUpdatedAt(p: Post): Millis { p.updatedAt }

  /** The timestamps `salonDataLastUpdatedAt` takes the maximum of. */
  function CatalogTimestamps(users: seq<User>, stores: seq<Store>, stylists: seq<Stylist>,
                             menus: seq<MenuItem>, posts: seq<Post>): seq<Millis>
  {
    Map(users, UserUpdatedAt) + Map(stores, StoreUpdatedAt) + Map(stylists, StylistUpdatedAt)
    + Map(menus, MenuUpdatedAt) + Map(posts, PostUpdatedAt)
  }

  lemma TimestampsCover(users: seq<User>, stores: seq<Store>, stylists: seq<Stylist>,
                        menus: seq<MenuItem>, posts: seq<Post>)
    ensures forall u :: u in users ==> u.updatedAt in CatalogTimestamps(users, stores, stylists, menus, posts)
    ensures forall s :: s in stores ==> s.updatedAt in CatalogTimestamps(users, stores, stylists, menus, posts)
    ensures forall s :: s in stylists ==> s.updatedAt in CatalogTimestamps(users, stores, stylists, menus, posts)
    ensures forall m :: m in menus ==> m.updatedAt in CatalogTimestamps(users, stores, stylists, menus, posts)
    ensures forall p :: p in posts ==> p.updatedAt in CatalogTimestamps(users, stores, stylists, menus, posts)
  {
    var a, b, c, d, e := Map(users, UserUpdatedAt), Map(stores, StoreUpdatedAt), Map(stylists, StylistUpdatedAt),
                         Map(menus, MenuUpdatedAt), Map(posts, PostUpdatedAt);
    var ts := CatalogTimestamps(users, stores, stylists, menus, posts);
    assert ts == a + b + c + d + e;
    MapMembers(users, UserUpdatedAt);
    MapMembers(stores, StoreUpdatedAt);
    MapMembers(stylists, StylistUpdatedAt);
    MapMembers(menus, MenuUpdatedAt);
    MapMembers(posts, PostUpdatedAt);
  }

  /** `salonDataLastUpdatedAt`: the latest `updatedAt` of users, stores,
      stylists, menus and posts; `clockNow` (the `Date.now()` read) when all
      are empty. */
  function SalonDataLastUpdatedAt(users: seq<User>, stores: seq<Store>, stylists: seq<Stylist>,
                                  menus: seq<MenuItem>, posts: seq<Post>, clockNow: Millis): (t: Millis)
    ensures forall u :: u in users ==> u.updatedAt <= t
    ensures forall s :: s in stores ==> s.updatedAt <= t
    ensures forall s :: s in stylists ==> s.updatedAt <= t
    ensures forall m :: m in menus ==> m.updatedAt <= t
    ensures forall p :: p in posts ==> p.updatedAt <= t
    ensures |users| + |stores| + |stylists| + |menus| + |posts| > 0 ==>
      t in CatalogTimestamps(users, stores, stylists, menus, posts)
    ensures |users| + |stores| + |stylists| + |menus| + |posts| == 0 ==> t == clockNow
  {
    var ts := CatalogTimestamps(users, stores, stylists, menus, posts);
    TimestampsCover(users, stores, stylists, menus, posts);
    if |ts| > 0 then MaxOf(ts) else clockNow
  }
}
