/** The route tables of the admin, store and client apps: a list of rows
    `{ key, label, description }` turned into `new Map(rows.map(item =>
    [item.key, item]))`, queried with `has` and `get`. A key is a string
    literal type in the source; here it is a datatype value `k` whose
    string is `name(k)`, and the map is keyed by that string. The field
    `label` is called `caption` because `label` is a Dafny keyword. */
module RouteTables {
  import opened Wrappers

  datatype RouteMeta<K> = RouteMeta(key: K, caption: string, description: string)

  /** `routeMap.get(s)` for `routeMap = new Map(rows.map(item => [item.key, item]))`:
      the map keeps the last row stored under a name, so the lookup scans
      from the end. Absent exactly when no row carries the name. */
  function MapGet<K>(rows: seq<RouteMeta<K>>, name: K -> string, s: string): (r: Option<RouteMeta<K>>)
    ensures r.None? <==> forall i :: 0 <= i < |rows| ==> name(rows[i].key) != s
    ensures r.Some? ==> name(r.value.key) == s && r.value in rows
  {
    if |rows| == 0 then None
    else if name(rows[|rows| - 1].key) == s then Some(rows[|rows| - 1])
    else
      var init := rows[..|rows| - 1];
      var r := MapGet(init, name, s);
      assert forall i :: 0 <= i < |init| ==> init[i] == rows[i];
      r
  }

  /** No two rows share a key name. */
  predicate DistinctNames<K>(rows: seq<RouteMeta<K>>, name: K -> string) {
    forall i, j :: 0 <= i < j < |rows| ==> name(rows[i].key) != name(rows[j].key)
  }

  /** With distinct names, looking a row's name up finds that very row. */
  lemma {:induction false} RowInMap<K>(rows: seq<RouteMeta<K>>, name: K -> string, i: nat)
    requires DistinctNames(rows, name) && i < |rows|
    ensures MapGet(rows, name, name(rows[i].key)) == Some(rows[i])
  {
    if i < |rows| - 1 {
      var init := rows[..|rows| - 1];
      assert init[i] == rows[i];
      RowInMap(init, name, i);
    }
  }
}
