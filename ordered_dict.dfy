/** The Python dict the export fills in: keys in insertion order plus the
    mapping itself. */
module OrderedDicts {
  import opened HassData

  datatype ExposedData = ExposedData(keys: seq<EntityId>, values: map<EntityId, ExportedEntity>) {

    /** Every key once, and exactly the keys of the mapping. */
    ghost predicate Valid() {
      && (forall i, j :: 0 <= i < j < |keys| ==> keys[i] != keys[j])
      && (forall k :: k in values <==> k in keys)
    }
  }

  /** The empty dict `{}`. */
  const Empty: ExposedData := ExposedData([], map[])

  /** `d[k] = v`: a new key goes last, an existing key keeps its place and
      gets the new value. */
  function Put(d: ExposedData, k: EntityId, v: ExportedEntity): (r: ExposedData)
    requires d.Valid()
    ensures r.Valid()
    ensures r.values == d.values[k := v]
    ensures d.keys <= r.keys && |r.keys| <= |d.keys| + 1
  {
    if k in d.values then ExposedData(d.keys, d.values[k := v])
    else ExposedData(d.keys + [k], d.values[k := v])
  }
}
