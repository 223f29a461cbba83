/** The browser's key-value store (IndexedDB behind `idbGet`/`idbSet`), as an
    in-memory map from record ids to stored values. Every operation is atomic. */
module Store {
  import opened Wrappers
  import opened Bytes

  /** What the sessions keep in the store: a Uint8Array (the salt) or a blob record
      `{iv, cipher}` whose fields are arrays of numbers. A field can be missing. */
  datatype Value = ByteArray(bytes: seq<byte>) | Packed(iv: Option<seq<int>>, cipher: Option<seq<int>>)

  /** `idbGet(id)`: the stored value, or undefined. */
  function Lookup(records: map<string, Value>, id: string): Option<Value>
  {
    if id in records then Some(records[id]) else None
  }

  class BlobStore {
    var records: map<string, Value>

    constructor ()
      ensures records == map[]
    {
      records := map[];
    }

    method Get(id: string) returns (v: Option<Value>)
      ensures v == Lookup(records, id)
    {
      v := if id in records then Some(records[id]) else None;
    }

    /** `idbSet(id, v)`: overwrites the record under `id` and no other. */
    method Set(id: string, v: Value)
      modifies this
      ensures records == old(records)[id := v]
    {
      records := records[id := v];
    }
  }
}
