/** Whole-session behaviours of scripts/db.js and scripts/vault.js, for any session
    (either blob record, any schema whose table names are distinct), so they hold for
    the Core and the Vault alike; `SchemasDistinct` discharges the schema condition for
    both. */
module Scenarios {
  import opened Wrappers
  import opened Bytes
  import opened Crypto
  import opened Engine
  import opened Store
  import opened Session

  /** Neither bootstrap schema names a table twice. */
  lemma SchemasDistinct()
    ensures DistinctNames(CORE_SCHEMA)
    ensures DistinctNames(VAULT_SCHEMA)
  {
    forall i, j | 0 <= i < j < |CORE_SCHEMA| ensures CORE_SCHEMA[i].name != CORE_SCHEMA[j].name {
      var a, b := CORE_SCHEMA[i].name, CORE_SCHEMA[j].name;
      assert |a| != |b| || a[0] != b[0] || a[|a| - 1] != b[|b| - 1];
    }
  }

  /** The salt every key of this store is derived from, once one is stored. */
  function StoredSalt(records: map<string, Value>): seq<byte>
  {
    if ID_SALT in records then SaltBytes(records[ID_SALT]) else []
  }

  /** Opening with no blob record stored: the salt step, then the whole schema is created
      and sealed at once under the key derived from the passphrase and the stored salt. */
  method Bootstrap(s: Session, passphrase: string, rt: Runtime, freshSalt: Salt, iv: Iv) returns (ok: bool)
    requires s.Valid() && s.db == null && Lookup(s.store.records, s.blobId) == None && DistinctNames(s.schema)
    modifies s, s.store
    ensures ok && s.Valid() && s.db != null && fresh(s.db) && s.db.tables == s.schema
    ensures s.sql.Some?
    ensures ID_SALT in s.store.records
    ensures s.key == Some(DeriveKey(passphrase, StoredSalt(s.store.records)))
    ensures s.salt == Some(StoredSalt(s.store.records))
    ensures s.store.records == Salted(old(s.store.records), freshSalt)[s.blobId := Seal(s.key.value, iv, s.db.Export())]
    ensures s.store.records.Keys == old(s.store.records).Keys + {ID_SALT, s.blobId}
    ensures Unseal(s.key.value, Lookup(s.store.records, s.blobId)) == Some(s.db.Export())
    ensures ImportImage(s.db.Export()) == s.schema
  {
    var r := s.Open(passphrase, Some(rt), freshSalt, iv);
    CreateTablesFresh([], s.schema);
    assert [] + s.schema == s.schema;
    UnsealSeal(s.key.value, s.key.value, iv, s.db.Export());
    ImportExport(s.db.tables);
    ok := r.Ok?;
  }

  /** Whatever the tables hold when persisted, closing and opening again with the same
      passphrase restores exactly those tables, and the open writes nothing. */
  method ReopenRestores(s: Session, passphrase: string, rt: Runtime, salt2: Salt, iv2: Iv, iv3: Iv, content: seq<Table>)
    returns (ok: bool)
    requires s.Valid() && s.db != null && s.sql.Some? && ID_SALT in s.store.records
    requires s.key == Some(DeriveKey(passphrase, StoredSalt(s.store.records)))
    modifies s, s.db, s.store
    ensures ok && s.Valid() && s.db != null && s.db.tables == content
    ensures s.store.records == old(s.store.records)[s.blobId := Seal(old(s.key).value, iv2, EncodeImage(content))]
  {
    var h := s.GetHandle();
    h.tables := content;
    var _ := s.Persist(iv2);
    s.Close();
    var r := s.Open(passphrase, Some(rt), salt2, iv3);
    UnsealSeal(DeriveKey(passphrase, StoredSalt(s.store.records)), DeriveKey(passphrase, StoredSalt(s.store.records)),
               iv2, EncodeImage(content));
    ImportExport(content);
    ok := r.Ok?;
  }

  /** A passphrase other than the one the record was sealed with fails with the
      authentication error and opens nothing; the store is not touched, but the session
      now holds the key derived from the wrong passphrase. */
  method WrongPassphraseRejected(s: Session, right: string, wrong: string, rt: Runtime, salt2: Salt, iv: Iv, iv2: Iv,
                                 plain: seq<byte>)
    returns (r: Result<bool>)
    requires s.Valid() && s.db == null && right != wrong && ID_SALT in s.store.records
    requires Lookup(s.store.records, s.blobId) == Some(Seal(DeriveKey(right, StoredSalt(s.store.records)), iv, plain))
    modifies s, s.store
    ensures r == Err(DECRYPT_ERROR) && s.Valid() && s.db == null
    ensures s.key == Some(DeriveKey(wrong, StoredSalt(s.store.records)))
    ensures s.store.records == old(s.store.records)
  {
    UnsealSeal(DeriveKey(right, StoredSalt(s.store.records)), DeriveKey(wrong, StoredSalt(s.store.records)), iv, plain);
    var sql := s.LoadSqlJs(Some(rt));
    r := s.Open(wrong, Some(rt), salt2, iv2);
  }

  /** Re-opening an open session with a wrong passphrase fails, but the handle stays open
      and the next persist seals it under the wrong key: afterwards the record opens only
      with the wrong passphrase, no longer with the original one. */
  method StaleKeyPersist(s: Session, right: string, wrong: string, rt: Runtime, salt2: Salt, iv: Iv, iv2: Iv, iv3: Iv,
                         plain: seq<byte>)
    returns (failed: bool, stillOpen: bool)
    requires s.Valid() && s.db != null && right != wrong && ID_SALT in s.store.records
    requires s.key == Some(DeriveKey(right, StoredSalt(s.store.records)))
    requires Lookup(s.store.records, s.blobId) == Some(Seal(s.key.value, iv, plain))
    modifies s, s.store
    ensures failed && stillOpen && s.db == old(s.db)
    ensures Unseal(old(s.key).value, Lookup(s.store.records, s.blobId)) == None
    ensures Unseal(DeriveKey(wrong, StoredSalt(s.store.records)), Lookup(s.store.records, s.blobId)) == Some(s.db.Export())
  {
    var kRight, kWrong := DeriveKey(right, StoredSalt(s.store.records)), DeriveKey(wrong, StoredSalt(s.store.records));
    UnsealSeal(kRight, kWrong, iv, plain);
    var r := s.Open(wrong, Some(rt), salt2, iv2);
    failed := r.Err?;
    stillOpen := s.IsOpen();
    var _ := s.Persist(iv3);
    UnsealSeal(kWrong, kRight, iv3, s.db.Export());
    UnsealSeal(kWrong, kWrong, iv3, s.db.Export());
  }

  /** Core and Vault derive their keys from the same stored salt: after both are
      bootstrapped with one passphrase they hold the same salt and the same key, and
      opening the second leaves the first one's record as it was. Under distinct IVs the
      two records differ. */
  method SharedSalt(core: Session, vault: Session, passphrase: string, rt1: Runtime, rt2: Runtime,
                    salt1: Salt, salt2: Salt, iv1: Iv, iv2: Iv)
    requires core != vault && core.store == vault.store && core.blobId != vault.blobId
    requires core.Valid() && vault.Valid() && core.db == null && vault.db == null
    requires Lookup(core.store.records, core.blobId) == None && Lookup(core.store.records, vault.blobId) == None
    requires DistinctNames(core.schema) && DistinctNames(vault.schema)
    modifies core, vault, core.store
    ensures core.Valid() && vault.Valid() && core.db != null && vault.db != null && core.db != vault.db
    ensures vault.key == core.key && vault.salt == core.salt
    ensures core.db.tables == core.schema && vault.db.tables == vault.schema
    ensures Unseal(core.key.value, Lookup(core.store.records, core.blobId)) == Some(core.db.Export())
    ensures Unseal(vault.key.value, Lookup(core.store.records, vault.blobId)) == Some(vault.db.Export())
    ensures Lookup(core.store.records, core.blobId) == Some(Seal(core.key.value, iv1, core.db.Export()))
    ensures Lookup(core.store.records, vault.blobId) == Some(Seal(vault.key.value, iv2, vault.db.Export()))
    ensures iv1 != iv2 ==> Lookup(core.store.records, core.blobId) != Lookup(core.store.records, vault.blobId)
  {
    var _ := Bootstrap(core, passphrase, rt1, salt1, iv1);
    var coreRecord := Lookup(core.store.records, core.blobId);
    var _ := Bootstrap(vault, passphrase, rt2, salt2, iv2);
    assert Lookup(core.store.records, core.blobId) == coreRecord;
    if iv1 != iv2 {
      UnpackPack(iv1);
      UnpackPack(iv2);
    }
  }
}
