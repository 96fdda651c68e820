/** The snapshot file of a group (db_extraction.py, lines 222-232): the run description merged
    with the station snapshot. `total_json` is a local of the whole extraction, so when a run
    has no description it is not reassigned and keeps the object of an earlier group, or is
    still unbound (`UnboundLocalError`). */
module Snapshot {
  import opened Wrappers

  /** A decoded JSON object: member name to its encoded value. */
  type Json = map<string, string>

  /** `{**a, **b}`: the members of both objects, with `b`'s value where both have a member. */
  function MergeObjects(a: Json, b: Json): (r: Json)
    ensures r.Keys == a.Keys + b.Keys
    ensures forall k :: k in b ==> r[k] == b[k]
    ensures forall k :: k in a && k !in b ==> r[k] == a[k]
  {
    a + b
  }

  /** `total_json` after lines 224-231, from the decoded description (`None` when the run has
      none), the snapshot (an empty object is falsy, as a missing one is) and the value left by an
      earlier group (`None` while unbound). */
  function TotalJson(description: Option<Json>, snapshot: Json, last: Option<Json>): Option<Json> {
    if snapshot != map[] && description.Some? then Some(MergeObjects(description.value, snapshot))
    else if snapshot == map[] && description.Some? then Some(MergeObjects(description.value, map[]))
    else last
  }

  /** With a description the written object is always the merge, the snapshot winning on shared
      members; without one it is whatever an earlier group left, the stale object or nothing. */
  lemma TotalJsonSpec(description: Option<Json>, snapshot: Json, last: Option<Json>)
    ensures description.Some? ==> TotalJson(description, snapshot, last) == Some(description.value + snapshot)
    ensures description.None? ==> TotalJson(description, snapshot, last) == last
  {
    if description.Some? && snapshot == map[] {
      assert description.value + map[] == description.value + snapshot;
    }
  }

  /** Every member of the snapshot is written with the snapshot's value, every other member of
      the description with the description's value, and nothing else is written. */
  lemma SnapshotPrecedence(description: Json, snapshot: Json, last: Option<Json>)
    ensures TotalJson(Some(description), snapshot, last).Some?
    ensures var j := TotalJson(Some(description), snapshot, last).value;
      && j.Keys == description.Keys + snapshot.Keys
      && (forall k :: k in snapshot ==> j[k] == snapshot[k])
      && (forall k :: k in description && k !in snapshot ==> j[k] == description[k])
  {
    TotalJsonSpec(Some(description), snapshot, last);
  }
}
