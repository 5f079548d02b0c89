/** The Redis hashes the post data lives in: each key (a post id) holds a
    flat map from field names to string values. */
module Store {

  type Hash = map<string, string>
  type Db = map<string, Hash>

  /** `hGetAll(key)`: the hash under `key`; a missing key reads as empty. */
  function HGetAll(db: Db, key: string): Hash
  {
    if key in db then db[key] else map[]
  }

  /** `hSet(key, fields)`: merges `fields` into the hash under `key`. The
      given fields overwrite, every other field of that hash is kept, and no
      other key changes. */
  function HSet(db: Db, key: string, fields: Hash): (r: Db)
    ensures key in r
    ensures r[key].Keys == HGetAll(db, key).Keys + fields.Keys
    ensures forall f :: f in fields ==> r[key][f] == fields[f]
    ensures forall f :: f in HGetAll(db, key) && f !in fields ==> r[key][f] == HGetAll(db, key)[f]
    ensures r.Keys == db.Keys + {key}
    ensures forall k :: k in db && k != key ==> r[k] == db[k]
  {
    db[key := HGetAll(db, key) + fields]
  }

  /** Writing the same fields twice is the same as writing them once. */
  lemma HSetIdempotent(db: Db, key: string, fields: Hash)
    ensures HSet(HSet(db, key, fields), key, fields) == HSet(db, key, fields)
  {
    var once := HSet(db, key, fields);
    assert HGetAll(once, key) + fields == HGetAll(once, key);
  }

  /** A field as the card reads it: an absent field reads as "". */
  function Field(h: Hash, name: string): (v: string)
    ensures name in h ==> v == h[name]
    ensures name !in h ==> v == ""
  {
    if name in h then h[name] else ""
  }
}
