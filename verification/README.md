# Salon de Morning: reservation data layer and route helpers in Dafny

Salon de Morning is a set of four small web apps: admin, store (salon), client (staffing agency) and user (senior or family). They share one mock dataset of stores, clients, users, bookable slots and reservations. This project models the part of the apps that is not view code:

- the reservation join of the mock dataset (`joinReservation`) and the fixture it runs on;
- the data layer of each app:
  - store summaries, reservation summaries, dashboard statistics and the last-update time of the user app;
  - the client-only reservations, their statistics and the per-user and per-salon roll-ups of the client app;
  - the status tally, catalogue counts and "latest first" lists of the store app;
  - the route counts and latest-update times of the admin app;
- the salon catalogue of the mocks: stylists, menus, posts, the salon-name lookup and the catalogue-wide last update;
- the route tables, link builders and location parsers of the admin, store and client apps;
- the prefix-based route resolver of the user app, its audience normaliser, and the pure helpers of the user layout: telephone links, audience paths and the audience toggle.

The model is functional. Module-level arrays become parameters (`Dataset`, `AdminCatalog`, the store list). So do the clock reads (`Date.now()` as `referenceTime` or `clockNow`).

Every `sort` comparator becomes a sort key `Key(rank, time, name)`, and the sort is a stable insertion sort (`Sorting.SortBy`), because `Array.prototype.sort` is stable. For each comparator a lemma proves that the key orders exactly as the comparator does.

The JavaScript `Map`s of the roll-ups become `Grouping.GroupBy`: a fold that keeps groups in order of each key's first appearance.

Path handling is modelled once, in `Paths`, and instantiated by each app's route table:
- `split('/')` and `join('/')`;
- the two slash regexes;
- the parser and link builder.

## Model

| member | source | states |
|---|---|---|
| MockData.JoinReservation | packages/mocks/src/data.ts:52-59 | the join is absent exactly when no slot carries the reservation's slot id; otherwise it holds that reservation |
| MockData.JoinReservationParts | packages/mocks/src/data.ts:53-58 | the joined slot, store and user are the first records with the referenced ids; the client is absent when the slot names none (or the empty id), and otherwise absent exactly when no client has the id, else the first client with it |
| MockData.JoinAll | apps/store/src/app/salon/data.ts:18-20 | `map(joinReservation).filter(Boolean)` keeps one join per reservation whose slot resolves: every kept join is the join of a listed reservation, and every resolvable reservation's join is kept |
| MockData.JoinAllAppend | apps/user/src/app/user/data.ts:89-91 | joining distributes over concatenation, so input order is preserved and unresolvable reservations just drop out |
| MockData.FixtureJoinsFirst | packages/mocks/src/data.ts:6-50 | on the fixture, r_1 joins slot sl_1, store st_1, client cl_1 and user u_1 |
| MockData.FixtureJoinsSecond | packages/mocks/src/data.ts:6-50 | on the fixture, r_2 joins slot sl_2, store st_2, no client and user u_2 |
| MockData.FixtureResolvable | packages/mocks/src/data.ts:47-58 | the non-null assertions of the join hold for every fixture reservation |
| UserData.StatusOfTone | apps/user/src/app/user/data.ts:54-58 | reading the status table backwards: each tone belongs to a status whose entry carries that tone |
| UserData.StatusTableInjective | apps/user/src/app/user/data.ts:54-58 | the table is one-to-one: the tone gives back the status, and equal labels mean equal statuses |
| UserData.StoreUpcomingSlots | apps/user/src/app/user/data.ts:66-70 | a store's upcoming slots are, with multiplicity, exactly the input slots of that store that are active and not yet ended, in ascending start order |
| UserData.MaxCapacity | apps/user/src/app/user/data.ts:71 | the reduce from 0 bounds every capacity from above, is non-negative, and is 0 or one of the capacities |
| UserData.BuildStoreSummary | apps/user/src/app/user/data.ts:64-79 | a store summary: its upcoming slots (as above), the count of them, the next slot (present exactly when one exists, the earliest), and the maximum capacity |
| UserData.SlotComparatorMatchesKey | apps/user/src/app/user/data.ts:70 | the slot comparator `a.startAt - b.startAt` and the ascending-start key agree on every pair |
| UserData.StoreComparatorMatchesKey | apps/user/src/app/user/data.ts:80-85 | the store comparator and its sort key agree on every pair; equal next start times tie regardless of name |
| UserData.BuildStoreSummaries | apps/user/src/app/user/data.ts:64-86 | one summary per store (a permutation of the stores), each the store's own, with stores that have a next slot first, by start time, and the rest by name |
| UserData.UpcomingShrinksOverTime | apps/user/src/app/user/data.ts:95 | a reservation is upcoming exactly when its slot has not ended and it is not cancelled; being upcoming at a later reference time implies it at an earlier one |
| UserData.BuildReservationSummaries | apps/user/src/app/user/data.ts:88-112 | the summaries are a permutation of the summaries of the joinable reservations, ascending by start |
| UserData.SummaryComparatorMatchesKey | apps/user/src/app/user/data.ts:111 | the reservation-summary comparator `a.startAt - b.startAt` and the ascending-start key agree on every pair |
| UserData.ReservationSummariesSound | apps/user/src/app/user/data.ts:88-112 | every summary is that of a listed reservation whose slot resolves |
| UserData.ReservationSummariesComplete | apps/user/src/app/user/data.ts:88-112 | every listed reservation whose slot resolves has its summary in the list |
| UserData.SlotPairs | apps/user/src/app/user/data.ts:119-121 | the flattened (slot, store name) pairs number the total of upcoming slots and are exactly the pairs of a summary's slot with its store's name |
| UserData.PairComparatorMatchesKey | apps/user/src/app/user/data.ts:122 | the slot-pair comparator `a.slot.startAt - b.slot.startAt` and the ascending-start key agree on every pair |
| UserData.EarliestPair | apps/user/src/app/user/data.ts:122-123 | after sorting, the first pair starts no later than any upcoming slot of an active store, and belongs to one |
| UserData.CreateDashboardStats | apps/user/src/app/user/data.ts:114-136 | active salons and upcoming slots are counted over stores with upcoming slots; upcoming reservations are the non-cancelled upcoming ones; the next start and store name are present together, exactly when a slot is upcoming, and are the earliest such slot |
| UserData.CalcLastUpdatedAt | apps/user/src/app/user/data.ts:138-145 | the result is at least every store, slot and reservation update, is one of them when any exists, and is the clock otherwise |
| UserData.ActiveSumIsTotal | apps/user/src/app/user/data.ts:118-122 | summing upcoming slots over the active stores equals summing `totalUpcoming` over all stores |
| UserData.UpcomingFilterRedundant | apps/user/src/app/user/data.ts:124-126 | the dashboard's extra "not cancelled" test filters nothing once `isUpcoming` excludes cancelled reservations |
| UserData.NextSlotBelowEveryStore | apps/user/src/app/user/data.ts:114-136 | the dashboard's next start is no later than any upcoming slot of any listed store |
| UserData.NextSlotFromListedStore | apps/user/src/app/user/data.ts:114-136 | the dashboard's next start and store name are those of an upcoming slot of a listed store |
| UserData.LoadUserData | apps/user/src/app/user/data.ts:147-159 | the bundle's store summaries and reservation summaries are those the two builders give for the dataset (so their permutation, soundness and ordering promises carry over); the statistics are consistent with them; the next slot is the earliest upcoming slot of any store; the last update is the dataset's latest update or the clock |
| ClientData.GetJoinedClientReservations | apps/client/src/app/client/data.ts:7-15 | exactly the joins whose client resolved: each such join is kept, nothing else is, and there is one per reservation whose slot and client both resolve |
| ClientData.ClientJoinCount | apps/client/src/app/client/data.ts:7-15 | filtering the batch join for a client leaves as many items as there are reservations whose slot and client both resolve |
| ClientData.ClientReservationsAppend | apps/client/src/app/client/data.ts:11-15 | the client-only list distributes over concatenation of the reservations (order kept) |
| ClientData.CalculateReservationStats | apps/client/src/app/client/data.ts:24-39 | total, confirmed, confirmed-and-starting-after-the-reference-time, and distinct client ids, with upcoming ≤ confirmed ≤ total and 1 ≤ distinct ≤ total on nonempty input |
| ClientData.UpcomingIsNested | apps/client/src/app/client/data.ts:29-30 | filtering confirmed items by start time is filtering by "confirmed and starting later" |
| ClientData.ClientIdsCount | apps/client/src/app/client/data.ts:31 | the `Set` of mapped client ids is the set of distinct client ids, of size between 1 and the item count on nonempty input |
| ClientData.StatsAppend | apps/client/src/app/client/data.ts:24-39 | total, confirmed and upcoming add up over a concatenation |
| ClientData.UserFold | apps/client/src/app/client/data.ts:51-63 | folding one user's items keeps id and name, counts every item, and leaves the latest start ≥ every start, equal to one of them or to the 0 it starts from |
| ClientData.UserComparatorMatchesKey | apps/client/src/app/client/data.ts:65-70 | the user comparator and its sort key agree on every pair |
| ClientData.BuildUserSummaries | apps/client/src/app/client/data.ts:48-71 | one summary per distinct user id, each named after that user's first item and counting that user's items; the counts add up to the item count; latest first, then by name |
| ClientData.SalonFold | apps/client/src/app/client/data.ts:90-115 | with the intended loop body, a salon's fold counts its items and has as next reservation the earliest start at or after the reference time, and as last the latest start before it, each absent exactly when no such start exists |
| ClientData.SalonFoldAsWritten | apps/client/src/app/client/data.ts:100-112 | with the loop body as written, the same holds only when no start time is 0 |
| ClientData.SalonNextSkipsZero | apps/client/src/app/client/data.ts:102-106 | items at 0 and then 5 with reference time 0: the loop as written reports 5 as next, the intended body 0 |
| ClientData.SalonComparatorMatchesKey | apps/client/src/app/client/data.ts:117-122 | the salon comparator and its sort key agree on every pair |
| ClientData.BuildSalonSummaries | apps/client/src/app/client/data.ts:82-123 | one summary per distinct store id with its name, address, count and next/last reservation as in `SalonFold`; the counts add up to the item count; busiest first, then by name |
| StoreData.ReservationStatsOf | apps/store/src/app/salon/data.ts:22-39 | the tally counts every item and exactly the confirmed, cancelled and draft items, which partition the total |
| StoreData.TallyCounts | apps/store/src/app/salon/data.ts:22-39 | the reduce's buckets equal the status filters' sizes, item by item |
| StoreData.JoinedReservations | apps/store/src/app/salon/data.ts:18-20 | the batch join of the dataset's reservations (so in their order, by `MockData.JoinAllAppend`): one join per reservation whose slot resolves, each the join of a listed reservation, and every such reservation's join present |
| StoreData.ActiveStylistCount | apps/store/src/app/salon/data.ts:41 | the count of positions holding an active stylist, complementing the inactive and sabbatical ones |
| StoreData.PublishedMenuCount | apps/store/src/app/salon/data.ts:43 | the count of positions holding a published menu, complementing the unpublished ones |
| StoreData.UpcomingPostCount | apps/store/src/app/salon/data.ts:45 | the count of posts not published, equal to all posts less the published ones |
| StoreData.SalonTotalsOf | apps/store/src/app/salon/data.ts:47-52 | the reservation total is the number of joinable reservations; the other totals are the catalogue sizes and bound their counts |
| StoreData.FixtureActiveStylists | packages/mocks/src/salon.ts:47-81 | two of the three fixture stylists are active |
| StoreData.FixturePublishedMenus | packages/mocks/src/salon.ts:83-120 | two of the three fixture menus are published |
| StoreData.FixtureUpcomingCount | packages/mocks/src/salon.ts:122-152 | two of the three fixture posts are not published |
| StoreData.RecentComparatorMatchesKey | apps/store/src/app/salon/data.ts:58 | the comparator `b.startAt - a.startAt` and the latest-first key agree on every pair |
| StoreData.GetRecentReservations | apps/store/src/app/salon/data.ts:56-60 | `slice` length of the joins, drawn from them, latest first, none left out starting later than one kept, and all of them when the limit covers the list |
| StoreData.PostComparatorMatchesKey | apps/store/src/app/salon/data.ts:65 | the post comparator (publication time, else edit time, latest first) and the recency key agree on every pair |
| StoreData.GetUpcomingPosts | apps/store/src/app/salon/data.ts:62-67 | a sub-multiset of the unpublished posts, the `slice` length many, latest by publication (else edit) time first, none left out later than one kept, and all when the limit covers them |
| StoreData.UpcomingOfThree | apps/store/src/app/salon/data.ts:62-67 | a published post followed by two unpublished ones in date order lists exactly those two, in that order |
| StoreData.FixtureUpcomingPosts | packages/mocks/src/salon.ts:122-152 | on the fixture posts the upcoming list is the scheduled post, then the draft |
| SalonCatalog.GetSalonName | packages/mocks/src/salon.ts:42-45 | the name of the first store with the id, or the placeholder 未登録拠点 when no store has it |
| SalonCatalog.UnregisteredExactly | packages/mocks/src/salon.ts:42-45 | when no store is itself named like the placeholder, the placeholder comes back exactly for unknown ids |
| SalonCatalog.SalonRef | packages/mocks/src/salon.ts:62-63 | a stylist or menu's salon id and name come from one and the same store record when there are stores |
| SalonCatalog.SalonRefResolves | packages/mocks/src/salon.ts:40-74 | with unique store ids, looking up a reference's id gives back its name |
| SalonCatalog.FixturePairsAgree | packages/mocks/src/salon.ts:47-120 | every fixture stylist and menu names the salon its id resolves to |
| SalonCatalog.SalonDataLastUpdatedAt | packages/mocks/src/salon.ts:154-163 | at least every user, store, stylist, menu and post update, one of them when any exists, the clock otherwise |
| AdminData.SummaryCount | apps/admin/src/app/admin/data.ts:27-33 | a count for every route but the dashboard, the length of the list that route shows |
| AdminData.SummaryCountsMatchLatest | apps/admin/src/app/admin/data.ts:27-36 | the users and salons counts are zero exactly when the corresponding latest update is absent |
| AdminData.LastUserUpdatedAt | apps/admin/src/app/admin/data.ts:35 | absent exactly for no users; otherwise a user's update time no earlier than any |
| AdminData.LastSalonUpdatedAt | apps/admin/src/app/admin/data.ts:36 | absent exactly for no salons; otherwise a salon's update time no earlier than any |
| AdminData.LastUpdatesWithinCatalog | apps/admin/src/app/admin/data.ts:25-36 | the catalogue-wide last update is never earlier than the latest user or salon update |
| AdminData.GetSalonName | apps/admin/src/app/admin/data.ts:40-42 | the mocks' lookup over the admin's salons: first salon with the id, or the placeholder |
| RouteTables.MapGet | apps/admin/src/app/admin/navigation.ts:20 | `new Map(rows.map(...)).get(s)`: absent exactly when no row has the name, otherwise a row with that name |
| RouteTables.RowInMap | apps/admin/src/app/admin/navigation.ts:20 | with distinct names, looking a row's name up returns that very row |
| AdminNavigation.RoutesShape | apps/admin/src/app/admin/navigation.ts:3-18 | six rows, one per key, with distinct names |
| AdminNavigation.IsAdminRoute | apps/admin/src/app/admin/navigation.ts:28-30 | true exactly for the name of a key |
| AdminNavigation.OfName | apps/admin/src/app/admin/navigation.ts:28-30 | the key a string names, present exactly when `isAdminRoute` holds |
| AdminNavigation.GetRouteMeta | apps/admin/src/app/admin/navigation.ts:32-36 | the table row carrying the key; the throw is unreachable |
| AdminNavigation.PathSegment | apps/admin/src/app/admin/navigation.ts:38-40 | a slash-free nonempty segment that names the key again |
| AdminNavigation.GetRouteHref | apps/admin/src/app/admin/navigation.ts:42-46 | no slash runs, starts as the base does (with `/` for an empty or root base), ends in `/` plus the segment, and its segments are the base's followed by the key's |
| AdminNavigation.HrefOfBase | apps/admin/src/app/admin/navigation.ts:42-46 | below a canonical base `/a/b`, the link is exactly `/a/b/` plus the key's segment (and `/` plus the segment below the empty base) |
| AdminNavigation.ParseLocation | apps/admin/src/app/admin/navigation.ts:53-70 | no segments: dashboard at empty base; last segment a key: that key below the other segments; otherwise dashboard below all segments |
| AdminNavigation.HrefRoundTrip | apps/admin/src/app/admin/navigation.ts:42-70 | the link to a key below a parsed base parses back to that base and key |
| AdminNavigation.HrefParsesToRoute | apps/admin/src/app/admin/navigation.ts:42-70 | the link to a key below any base parses to that key below the base's segments |
| AdminNavigation.ParseAllSlashes | apps/admin/src/app/admin/navigation.ts:54-59 | an empty or all-slash path is the dashboard at the empty base |
| AdminNavigation.ParseIgnoresExtraSlashes | apps/admin/src/app/admin/navigation.ts:54-55 | a trailing slash and a doubled slash do not change the parse |
| AdminNavigation.HrefRootBase | apps/admin/src/app/admin/navigation.ts:43 | the root base builds the same link as the empty base |
| SalonNavigation.RoutesShape | apps/store/src/app/salon/navigation.ts:1-15 | five rows, one per key, with distinct names |
| SalonNavigation.IsSalonRoute | apps/store/src/app/salon/navigation.ts:25-27 | true exactly for the name of a key |
| SalonNavigation.OfName | apps/store/src/app/salon/navigation.ts:25-27 | the key a string names, present exactly when `isSalonRoute` holds |
| SalonNavigation.GetSalonRouteMeta | apps/store/src/app/salon/navigation.ts:19-23 | the table row carrying the key; the throw is unreachable |
| SalonNavigation.SalonPathSegment | apps/store/src/app/salon/navigation.ts:29-31 | a slash-free nonempty segment that names the key again |
| SalonNavigation.GetSalonRouteHref | apps/store/src/app/salon/navigation.ts:33-37 | no slash runs, starts as the base does (with `/` for an empty or root base), ends in `/` plus the segment, segments are the base's followed by the key's |
| SalonNavigation.HrefOfBase | apps/store/src/app/salon/navigation.ts:33-37 | below a canonical base, the link is exactly that base, `/` and the key's segment |
| SalonNavigation.ParseSalonLocation | apps/store/src/app/salon/navigation.ts:44-60 | the three cases of the parser over the path's nonempty segments |
| SalonNavigation.HrefRoundTrip | apps/store/src/app/salon/navigation.ts:33-60 | the link to a key below a parsed base parses back to that base and key |
| SalonNavigation.HrefParsesToRoute | apps/store/src/app/salon/navigation.ts:33-60 | the link to a key below any base parses to that key below the base's segments |
| SalonNavigation.ParseAllSlashes | apps/store/src/app/salon/navigation.ts:45-50 | an empty or all-slash path is the dashboard at the empty base |
| SalonNavigation.ParseIgnoresExtraSlashes | apps/store/src/app/salon/navigation.ts:45-46 | a trailing slash and a doubled slash do not change the parse |
| SalonNavigation.HrefRootBase | apps/store/src/app/salon/navigation.ts:34 | the root base builds the same link as the empty base |
| ClientNavigation.RoutesShape | apps/client/src/app/client/navigation.ts:1-14 | four rows, one per key, with distinct names |
| ClientNavigation.IsClientRoute | apps/client/src/app/client/navigation.ts:24-26 | true exactly for the name of a key |
| ClientNavigation.OfName | apps/client/src/app/client/navigation.ts:24-26 | the key a string names, present exactly when `isClientRoute` holds |
| ClientNavigation.GetClientRouteMeta | apps/client/src/app/client/navigation.ts:18-22 | the table row carrying the key; the throw is unreachable |
| ClientNavigation.ClientPathSegment | apps/client/src/app/client/navigation.ts:28-30 | a slash-free nonempty segment that names the key again |
| ClientNavigation.GetClientRouteHref | apps/client/src/app/client/navigation.ts:32-37 | no slash runs, starts as the base does (with `/` for an empty or root base), ends in `/` plus the segment, segments are the base's followed by the key's |
| ClientNavigation.HrefOfBase | apps/client/src/app/client/navigation.ts:32-37 | below a canonical base, the link is exactly that base, `/` and the key's segment |
| ClientNavigation.ParseClientLocation | apps/client/src/app/client/navigation.ts:44-60 | the three cases of the parser over the path's nonempty segments |
| ClientNavigation.HrefRoundTrip | apps/client/src/app/client/navigation.ts:32-60 | the link to a key below a parsed base parses back to that base and key |
| ClientNavigation.HrefParsesToRoute | apps/client/src/app/client/navigation.ts:32-60 | the link to a key below any base parses to that key below the base's segments |
| ClientNavigation.ParseAllSlashes | apps/client/src/app/client/navigation.ts:45-50 | an empty or all-slash path is the dashboard at the empty base |
| ClientNavigation.ParseIgnoresExtraSlashes | apps/client/src/app/client/navigation.ts:45-46 | a trailing slash and a doubled slash do not change the parse |
| ClientNavigation.HrefRootBase | apps/client/src/app/client/navigation.ts:33 | the root base builds the same link as the empty base |
| Paths.Split | apps/admin/src/app/admin/navigation.ts:55 | `split('/')` yields at least one piece, none containing a slash |
| Paths.JoinSplit | apps/admin/src/app/admin/navigation.ts:55-64 | joining the pieces of a split with `/` restores the string |
| Paths.SplitJoin | apps/admin/src/app/admin/navigation.ts:55-64 | splitting a join of slash-free pieces gives the pieces back |
| Paths.TrimTrailing | apps/admin/src/app/admin/navigation.ts:54 | `replace(/\/+$/, '')` keeps a prefix, drops only slashes, and leaves no trailing slash |
| Paths.PiecesTrimTrailing | apps/admin/src/app/admin/navigation.ts:54-55 | trimming trailing slashes does not change the nonempty segments |
| Paths.Segments | apps/admin/src/app/admin/navigation.ts:54-55 | the trim-split-filter pipeline equals the nonempty pieces of the untrimmed path |
| Paths.Collapse | apps/admin/src/app/admin/navigation.ts:45 | `replace(/\/+/g, '/')` leaves no doubled slash, is no longer, and keeps the first and last characters |
| Paths.CollapseClean | apps/admin/src/app/admin/navigation.ts:45 | a string without a doubled slash is left unchanged |
| Paths.CollapseIdempotent | apps/admin/src/app/admin/navigation.ts:45 | collapsing twice is collapsing once |
| Paths.PiecesCollapse | apps/admin/src/app/admin/navigation.ts:45-55 | collapsing slash runs does not change the nonempty segments |
| Paths.ParseWith | apps/admin/src/app/admin/navigation.ts:53-70 | the shared parser: the three cases over the nonempty segments, for any route table |
| Paths.HrefWith | apps/admin/src/app/admin/navigation.ts:42-46 | the shared link builder: no doubled slash, first character that of the base (`/` for an empty or root base), ends in `/` plus the segment |
| Paths.HrefOfBase | apps/admin/src/app/admin/navigation.ts:42-46 | for a base built from segments, the link is the base built from those segments plus the route's segment, character for character |
| Paths.HrefSegments | apps/admin/src/app/admin/navigation.ts:42-46 | the link's segments are the base's followed by the route name |
| Paths.ParseBaseCanonical | apps/admin/src/app/admin/navigation.ts:63-69 | a parsed base is the canonical base of a prefix of the path's segments |
| Paths.PiecesOfBase | apps/admin/src/app/admin/navigation.ts:64 | a canonical base's segments are those it was built from |
| Paths.ParseHrefRoundTrip | apps/admin/src/app/admin/navigation.ts:42-70 | for any route table, the link to a route below a parsed base parses back to that base and route |
| Paths.ParseBySegments | apps/admin/src/app/admin/navigation.ts:54-55 | the parse depends on the path only through its nonempty segments |
| UserNavigation.GetRouteMeta | apps/user/src/app/user/navigation.ts:31-37 | the first row with the key, linking to the key's own path; the throw is unreachable |
| UserNavigation.Normalize | apps/user/src/app/user/navigation.ts:40 | the stretch after the leading slash run with the trailing run removed; no outer slash is left and only slashes are dropped |
| UserNavigation.ResolveRouteKey | apps/user/src/app/user/navigation.ts:39-44 | salons or reservations exactly when the normalised path starts with that name (salons checked first); the dashboard exactly when it starts with neither |
| UserNavigation.ResolveIgnoresOuterSlashes | apps/user/src/app/user/navigation.ts:40 | adding a slash at both ends does not change the resolved route |
| UserNavigation.ResolvePrefix | apps/user/src/app/user/navigation.ts:41-43 | any path that starts with a route's name resolves to that route, whatever follows |
| UserNavigation.ResolveOwnPath | apps/user/src/app/user/navigation.ts:39-44 | each route's own path resolves to it |
| Audiences.NormalizeAudience | apps/user/src/app/user/audience.ts:3-6 | family exactly for the string `family`; each audience's own string reads back as that audience |
| Audiences.NormalizeIdempotent | apps/user/src/app/user/audience.ts:3-6 | normalising the string of a normalised audience returns it |
| UserLayout.TelHref | apps/user/src/app/user/layout.tsx:319-322 | `tel:` followed by exactly the digits and plus signs of the input, in order |
| UserLayout.TelHrefAppend | apps/user/src/app/user/layout.tsx:319-322 | the number part of a concatenation is the concatenation of the number parts |
| UserLayout.TelHrefIdempotent | apps/user/src/app/user/layout.tsx:319-322 | building a link from a link's number part gives the same link |
| UserLayout.AudiencePath | apps/user/src/app/user/layout.tsx:411-414 | every audience path is absolute, lies under `/family` exactly in the family view, and is `/` followed by the view's segments and then the route's, joined by `/` (so `/`, `/family`, `/salons`, `/family/salons`) |
| UserLayout.AudiencePathSegments | apps/user/src/app/user/layout.tsx:411-414 | a path's segments are `family` in the family view (none in the senior view), then the route's name unless it is the dashboard |
| UserLayout.SeniorPathResolves | apps/user/src/app/user/layout.tsx:411-414 | every senior path resolves back to its route under the prefix rule |
| UserLayout.FamilyPathResolvesToDashboard | apps/user/src/app/user/layout.tsx:33-34 | every family path resolves to the dashboard under the prefix rule |
| UserLayout.ResolveAudienceRouteKey | apps/user/src/App.tsx:20-26 | an audience-aware resolver: the bare `family` path is the family dashboard; below it the prefix rule applies after the `family` segment; otherwise the plain rule applies |
| UserLayout.AudiencePathRoundTrip | apps/user/src/App.tsx:13-26 | every path of either view resolves back to its route under the audience-aware resolver |
| UserLayout.ToggleTabs | apps/user/src/app/user/layout.tsx:383-387 | the toggle's senior tab links outside `/family` and its family tab inside it, and both link to pages that resolve to the current route |
| UserLayout.FamilyToggleLosesRoute | apps/user/src/app/user/layout.tsx:33-34 | as written, on a family page other than the dashboard the toggle's senior tab links to `/` |
| UserLayout.ToggleKeepsRoute | apps/user/src/app/user/layout.tsx:383-387 | with the audience-aware resolver, on any page of either view the toggle links to that page in both views |
| Sorting.NameCompare | apps/client/src/app/client/data.ts:69 | the tie-breaking comparison: zero exactly for equal names, its sign agreeing with a total order |
| Sorting.SortBy | apps/user/src/app/user/data.ts:70 | a sort: same length, a permutation, ordered by the key |
| Sorting.SliceEnd | apps/store/src/app/salon/data.ts:59 | the end index of `slice(0, limit)` for non-negative and negative limits, never past the length |
| Sorting.TopN | apps/store/src/app/salon/data.ts:57-59 | sort and slice: the slice length, drawn from the input, ordered, and no element left out is ordered before one kept |
| Grouping.GroupBy | apps/client/src/app/client/data.ts:49-65 | the `Map` roll-up: one group per distinct item key and no other |
| Grouping.GroupValue | apps/client/src/app/client/data.ts:51-63 | each group is the fold, over the items with its key, of the loop body starting from the fresh summary of the first such item |
| Grouping.GroupSizes | apps/client/src/app/client/data.ts:59 | when the body adds one per item, group sizes sum to the item count |

## Left out

- React components, pages, `useEffect`/`useMemo`, the document, `Intl` date formatting and the support contact environment variables: view code and browser I/O.
- `Date.now()` is not modelled. Each read becomes a parameter (`referenceTime`, `clockNow`, and `now` of the fixture). Default arguments such as `limit = 3` are not modelled either; the limit is always passed.
- `localeCompare` is modelled by code-unit lexicographic order (`Sorting.NameLe`). Collation by ICU is locale data outside the model. Every comparator whose tie-break is by name (stores without a next slot, users, salons) therefore orders ties in code-unit order.
- Sorting.SortBy: stable insertion sort. The contract states ordering and permutation, not stability.
- The route-table field `label` is called `caption` because `label` is a Dafny keyword.
- `getRouteMeta` in each app throws when the key has no row. The model proves every key has a row, so the throw is not modelled.
- `useDocumentTitle` calls `getRouteMeta(route, audience)`, and the layout imports `getRoutes`. Neither that second parameter nor `getRoutes` exists in the user app's navigation file, so the page title and the menu list are not modelled.
- MockData.JoinReservation: requires `JoinIntegrity`. That is what the two non-null assertions `!` in the join take for granted: a resolved slot's store and the reservation's user exist. The fixture satisfies it (`MockData.FixtureResolvable`).
- The JSON ingestion path (`data.json.d.ts`), the client app's directories (`clientDirectory` and the like), and the `lastAdminDataUpdatedAt` and `salonUpdatedAt` aliases. These are re-exports with no logic; the aliased value is `SalonCatalog.SalonDataLastUpdatedAt`.
- UserData.CreateDashboardStats: when several upcoming slots share the earliest start time, the contract says the store name is that of one of them, not which one the stable sort picks.
- StoreData.GetRecentReservations: among reservations with equal start times, the contract does not say which ones the slice keeps.
- StoreData.GetUpcomingPosts: same as above, for posts with equal display times.
- Numbers are unbounded integers. JavaScript doubles are exact for epoch milliseconds, so no rounding is modelled.

## Findings

| source | as written | input that shows it | evidently intended | confidence | as-written member | corrected member |
|---|---|---|---|---|---|---|
| apps/client/src/app/client/data.ts:102-112 | a stored next or last reservation time is checked for truthiness, so a stored `0` counts as absent and is replaced instead of compared | reference time 0 and one salon with items starting at 0 and then 5: the next reservation comes out as 5 | compare whenever a value is stored (`!== undefined`): the next reservation is the earliest start at or after the reference time, 0 here | not executed; needs a start time of exactly 0, so low impact | ClientData.SalonNextSkipsZero, ClientData.SalonFoldAsWritten | ClientData.SalonFold, ClientData.BuildSalonSummaries |
| apps/user/src/app/user/layout.tsx:33-34 | the layout takes the current route from `resolveRouteKey(location.pathname)`, whose prefix rule is anchored at the start, yet the family view's pages live under `/family/…` | pathname `/family/salons` resolves to the dashboard, so the audience toggle on that page links to `/` and `/family` | skip the leading `family` segment before applying the prefix rule, so every page of either view resolves to its own route and the toggle keeps the page | not executed; medium, follows from the route table and the resolver together | UserLayout.FamilyPathResolvesToDashboard, UserLayout.FamilyToggleLosesRoute | UserLayout.ResolveAudienceRouteKey, UserLayout.AudiencePathRoundTrip, UserLayout.ToggleKeepsRoute |
