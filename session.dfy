/** The encrypted-blob database session of scripts/db.js (Core) and scripts/vault.js
    (Vault). Both files hold the same module-level state machine: a sql.js namespace,
    an open database, its AES-GCM key and the salt the key was derived from. Here it is
    one class, instantiated once per store; the two instances share the key-value store
    and the salt record, and each has its own blob record. */
module Session {
  import opened Wrappers
  import opened Bytes
  import opened Crypto
  import opened Engine
  import opened Store

  const ID_SALT := "kdf-salt"
  const ID_DB := "db-core"
  const ID_DB_VAULT := "db-vault"

  const CORE_NOT_OPEN := "DB nicht offen"
  const VAULT_NOT_OPEN := "Vault nicht offen"

  /** db.js reports every failure of its loader chain with one message; this is its
      first sentence only, a placeholder for the whole text (the advice on which files to
      install is left out). */
  const CORE_INIT_ERROR := "sql-wasm.js konnte nicht initialisiert werden. "
  /** vault.js has no message of its own: the failing dynamic import rejects with
      whatever error the browser raises. This text is a placeholder for that error. */
  const VAULT_INIT_ERROR := "import('../lib/sqljs/sql-wasm.js') failed"

  /** How WebCrypto rejects a failed AES-GCM authentication check. */
  const DECRYPT_ERROR := "OperationError"

  function EmptyTable(name: string, columns: seq<string>): Table
  {
    Table(name, columns, [])
  }

  /** The tables `bootstrapSchema` creates (indexes and the user_version pragma are not modelled). */
  const CORE_SCHEMA: seq<Table> := [
    EmptyTable("student", ["id", "vorname", "name", "geburtstag", "adresse", "bemerkung", "created_at"]),
    EmptyTable("kontakt", ["id", "student_id", "rolle", "name", "telefon", "email", "adresse"]),
    EmptyTable("status_flag", ["id", "key", "bezeichnung"]),
    EmptyTable("student_status", ["student_id", "flag_id"]),
    EmptyTable("rilz_fach", ["id", "student_id", "fach", "details"]),
    EmptyTable("historie", ["id", "student_id", "titel", "beschreibung", "von", "bis"]),
    EmptyTable("plan", ["id", "student_id", "titel", "status", "fach", "startdatum", "endedatum", "created_at"]),
    EmptyTable("ziel", ["id", "plan_id", "titel", "beschreibung", "status", "verantwortlich", "sort_index", "created_at"]),
    EmptyTable("teilziel", ["id", "ziel_id", "titel", "status", "sort_index", "created_at"]),
    EmptyTable("indikator", ["id", "ziel_id", "text", "sort_index"]),
    EmptyTable("beobachtung", ["id", "ziel_id", "autor", "text", "sichtbarkeit", "created_at", "edited_at"])
  ]

  /** The tables `bootstrapVault` creates. */
  const VAULT_SCHEMA: seq<Table> := [
    EmptyTable("dokument", ["id", "student_id", "titel", "dateiname", "mime", "groesse_bytes", "sha256", "created_at", "blob"]),
    EmptyTable("foto", ["student_id", "mime", "groesse_bytes", "created_at", "blob"])
  ]

  /** A loaded sql.js namespace (`SQL`), told apart by the build it came from. */
  datatype Runtime = SqlJs(build: nat)

  /** The store after open's salt step: a new salt is written only when none is stored. */
  function Salted(records: map<string, Value>, freshSalt: Salt): map<string, Value>
  {
    if ID_SALT in records then records else records[ID_SALT := ByteArray(freshSalt)]
  }

  /** `new Uint8Array(storedSalt)`: a copy of a Uint8Array; an object without a
      length gives an empty array. */
  function SaltBytes(v: Value): seq<byte>
  {
    match v
    case ByteArray(b) => b
    case Packed(_, _) => []
  }

  /** `packed && packed.iv && packed.cipher`: a record counts as present only with both
      fields (an array, even an empty one, is truthy). */
  predicate BlobPresent(packed: Option<Value>)
  {
    packed.Some? && packed.value.Packed? && packed.value.iv.Some? && packed.value.cipher.Some?
  }

  /** The record `persist` writes: `{ iv: Array.from(iv), cipher: Array.from(cipher) }`. */
  function Seal(k: Key, iv: seq<byte>, plain: seq<byte>): Value
  {
    Packed(Some(Pack(iv)), Some(Pack(Encrypt(k, iv, plain))))
  }

  /** What open recovers from a record: unpack both fields, then decrypt. */
  function Unseal(k: Key, packed: Option<Value>): Option<seq<byte>>
  {
    if BlobPresent(packed) then Decrypt(k, Unpack(packed.value.iv.value), Unpack(packed.value.cipher.value))
    else None
  }

  /** A record written by persist opens under the key it was written with, to exactly
      the exported bytes, and under no other key. */
  lemma UnsealSeal(k: Key, k': Key, iv: seq<byte>, plain: seq<byte>)
    ensures BlobPresent(Some(Seal(k, iv, plain)))
    ensures Unseal(k', Some(Seal(k, iv, plain))) == if k' == k then Some(plain) else None
  {
    UnpackPack(iv);
    UnpackPack(Encrypt(k, iv, plain));
    DecryptEncrypt(k, iv, k', iv, plain);
  }

  /** The salt step never overwrites a stored salt, and the salt the key is derived from
      is the one in the store afterwards. */
  lemma SaltedKeepsSalt(records: map<string, Value>, freshSalt: Salt)
    ensures ID_SALT in Salted(records, freshSalt)
    ensures ID_SALT in records ==> Salted(records, freshSalt) == records
    ensures ID_SALT !in records ==> SaltBytes(Salted(records, freshSalt)[ID_SALT]) == freshSalt
    ensures forall id :: id != ID_SALT ==> Lookup(Salted(records, freshSalt), id) == Lookup(records, id)
  {
  }

  class Session {
    const store: BlobStore
    const blobId: string
    const notOpen: string
    const initError: string
    const schema: seq<Table>

    var sql: Option<Runtime>
    var db: Database?
    var key: Option<Key>
    var salt: Option<seq<byte>>

    /** The handle and the key are both-or-neither in one direction: a database is never
        open without a key (a failed open can leave a key without a database). */
    ghost predicate Valid()
      reads this, db
    {
      && (db != null ==> key.Some? && !db.closed)
      && blobId != ID_SALT
    }

    /** The module state of scripts/db.js when it is first loaded. */
    constructor Core(store: BlobStore)
      ensures Valid()
      ensures this.store == store && blobId == ID_DB && notOpen == CORE_NOT_OPEN
      ensures initError == CORE_INIT_ERROR && schema == CORE_SCHEMA
      ensures sql == None && db == null && key == None && salt == None
    {
      this.store := store;
      blobId, notOpen, initError, schema := ID_DB, CORE_NOT_OPEN, CORE_INIT_ERROR, CORE_SCHEMA;
      sql, db, key, salt := None, null, None, None;
    }

    /** The module state of scripts/vault.js when it is first loaded. */
    constructor Vault(store: BlobStore)
      ensures Valid()
      ensures this.store == store && blobId == ID_DB_VAULT && notOpen == VAULT_NOT_OPEN
      ensures initError == VAULT_INIT_ERROR && schema == VAULT_SCHEMA
      ensures sql == None && db == null && key == None && salt == None
    {
      this.store := store;
      blobId, notOpen, initError, schema := ID_DB_VAULT, VAULT_NOT_OPEN, VAULT_INIT_ERROR, VAULT_SCHEMA;
      sql, db, key, salt := None, null, None, None;
    }

    /** `loadSqlJs()`: once a namespace is loaded it is returned as it is, whatever the
        environment would offer now. `available` is what the loader chain would produce. */
    method LoadSqlJs(available: Option<Runtime>) returns (r: Result<Runtime>)
      modifies this`sql
      ensures old(sql).Some? ==> sql == old(sql) && r == Ok(old(sql).value)
      ensures old(sql).None? && available.Some? ==> sql == available && r == Ok(available.value)
      ensures old(sql).None? && available.None? ==> sql == None && r == Err(initError)
    {
      if sql.Some? {
        return Ok(sql.value);
      }
      if available.None? {
        return Err(initError);
      }
      sql := available;
      return Ok(available.value);
    }

    /** `openDatabase(passphrase)` / `openVault(passphrase)`. `freshSalt` and `iv` are the
        random bytes the call would draw (used only if no salt is stored, and only for the
        bootstrap persist). The key and salt are replaced before decryption is tried, so a
        failed decryption leaves the new key beside the old database. */
    method Open(passphrase: string, runtime: Option<Runtime>, freshSalt: Salt, iv: Iv) returns (r: Result<bool>)
      requires Valid()
      modifies this, store
      ensures Valid()
      ensures sql == if old(sql).Some? then old(sql) else runtime
      ensures sql.None? ==> r == Err(initError) && db == old(db) && key == old(key) && salt == old(salt)
                            && store.records == old(store.records)
      ensures sql.Some? ==>
        var salted := Salted(old(store.records), freshSalt);
        var k := DeriveKey(passphrase, SaltBytes(salted[ID_SALT]));
        var packed := Lookup(salted, blobId);
        && salt == Some(SaltBytes(salted[ID_SALT]))
        && key == Some(k)
        && (BlobPresent(packed) && Unseal(k, packed).None? ==>
              r == Err(DECRYPT_ERROR) && db == old(db) && store.records == salted)
        && (BlobPresent(packed) && Unseal(k, packed).Some? ==>
              r == Ok(true) && fresh(db) && db.tables == ImportImage(Unseal(k, packed).value)
              && store.records == salted)
        && (!BlobPresent(packed) ==>
              r == Ok(true) && fresh(db) && db.tables == CreateTables([], schema)
              && store.records == salted[blobId := Seal(k, iv, db.Export())])
    {
      var loaded := LoadSqlJs(runtime);
      if loaded.Err? {
        return Err(loaded.message);
      }

      var storedSalt := store.Get(ID_SALT);
      if storedSalt.None? {
        storedSalt := Some(ByteArray(freshSalt));
        store.Set(ID_SALT, storedSalt.value);
      }
      assert store.records == Salted(old(store.records), freshSalt);
      salt := Some(SaltBytes(storedSalt.value));
      key := Some(DeriveKey(passphrase, salt.value));

      var packed := store.Get(blobId);
      if BlobPresent(packed) {
        var ivBytes := Unpack(packed.value.iv.value);
        var cipher := Unpack(packed.value.cipher.value);
        var plain := Decrypt(key.value, ivBytes, cipher);
        if plain.None? {
          return Err(DECRYPT_ERROR);
        }
        db := new Database.Load(plain.value);
      } else {
        db := new Database.Empty();
        db.CreateSchema(schema);
        var _ := Persist(iv);
      }
      return Ok(true);
    }

    /** `persist()` / `persistVault()`: a full-state overwrite of this session's blob
        record, and of no other record. */
    method Persist(iv: Iv) returns (r: Result<()>)
      modifies store
      ensures db == null || key.None? ==> r == Err(notOpen) && store.records == old(store.records)
      ensures db != null && key.Some? ==>
        r == Ok(()) && store.records == old(store.records)[blobId := Seal(key.value, iv, db.Export())]
    {
      if db == null || key.None? {
        return Err(notOpen);
      }
      var bytes := db.Export();
      var cipher := Encrypt(key.value, iv, bytes);
      store.Set(blobId, Packed(Some(Pack(iv)), Some(Pack(cipher))));
      return Ok(());
    }

    /** `isOpen()` / `isVaultOpen()`: decided by the handle alone. */
    method IsOpen() returns (b: bool)
      ensures b <==> db != null
    {
      b := db != null;
    }

    /** `closeDatabase()` / `closeVault()`: closes the engine, forgets handle and key,
        keeps the salt and writes nothing. */
    method Close()
      requires Valid()
      modifies this, db
      ensures Valid()
      ensures db == null && key == None && salt == old(salt) && sql == old(sql)
      ensures old(db) != null ==> old(db).closed && old(db).tables == old(db.tables)
    {
      if db != null {
        db.Close();
      }
      db, key := null, None;
    }

    /** `getHandle()`: the engine object itself, for collaborators to query and mutate. */
    method GetHandle() returns (h: Database?)
      ensures h == db
    {
      h := db;
    }
  }
}
