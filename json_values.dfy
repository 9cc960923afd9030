/**
  Already-parsed JSON values, as the metadata handler sees them after
  `json.fromBytes`. An object keeps its entries in document order; looking a
  key up (`TypedMap.get`) returns the value of the first entry with that key,
  or nothing when no entry has it.
 */
module JsonValues {

  datatype Option<+T> = None | Some(value: T)

  datatype Json =
    | JNull
    | JBool(b: bool)
    | JNumber(literal: string)
    | JString(str: string)
    | JArray(items: seq<Json>)
    | JObject(entries: seq<(string, Json)>)

  /** Entry i is the first entry of the object named key. */
  predicate FirstWithKey(entries: seq<(string, Json)>, key: string, i: int) {
    0 <= i < |entries| && entries[i].0 == key &&
    forall j :: 0 <= j < i ==> entries[j].0 != key
  }

  /** `TypedMap.get`: the value of the first entry named key. */
  function Get(entries: seq<(string, Json)>, key: string): (r: Option<Json>)
    ensures r.None? <==> forall i :: 0 <= i < |entries| ==> entries[i].0 != key
    ensures r.Some? ==> exists i :: FirstWithKey(entries, key, i) && entries[i].1 == r.value
  {
    if entries == [] then None
    else if entries[0].0 == key then
      assert FirstWithKey(entries, key, 0);
      Some(entries[0].1)
    else
      var r := Get(entries[1..], key);
      assert r.Some? ==> exists i :: FirstWithKey(entries, key, i) && entries[i].1 == r.value by {
        if r.Some? {
          var i :| FirstWithKey(entries[1..], key, i) && entries[1..][i].1 == r.value;
          forall j | 0 <= j < i + 1 ensures entries[j].0 != key {
            if j > 0 { assert entries[j] == entries[1..][j - 1]; }
          }
          assert FirstWithKey(entries, key, i + 1);
        }
      }
      assert r.None? ==> forall i :: 0 <= i < |entries| ==> entries[i].0 != key by {
        if r.None? {
          forall i | 0 <= i < |entries| ensures entries[i].0 != key {
            if i > 0 { assert entries[i] == entries[1..][i - 1]; }
          }
        }
      }
      r
  }

  /** The key is present in the object (a present `null` still counts: it is a non-null JSONValue). */
  predicate Has(entries: seq<(string, Json)>, key: string) {
    Get(entries, key).Some?
  }
}
