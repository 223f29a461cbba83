# Förderplanung: encrypted sessions, document vault, report texts and goal tree

Förderplanung is a browser application for planning special-needs support. It keeps its
data in two SQLite databases that run in the browser (sql.js). Each database is stored
as one encrypted blob in IndexedDB:

- **Core.** Students, plans, goals, sub-goals, indicators and observations
  (`scripts/db.js`, blob record `db-core`).
- **Vault.** Documents and one photo per student (`scripts/vault.js`, blob record
  `db-vault`).

Both derive their AES-GCM key with PBKDF2 from a passphrase and one shared salt, stored
under `kdf-salt`. The model covers five parts:

- **The session state machine** that both files implement (module `Session`). That is:
  loading sql.js once; opening, with the salt created only when absent, then decryption,
  or a bootstrap when there is no usable blob; persisting, which overwrites the whole
  blob; closing; the open check; and the handle. There is one `Session` class with two
  constructors, `Core` and `Vault`. Both instances share one `BlobStore`.
- **The Vault's document and photo API** (module `Vault`) on the engine's tables
  (module `Engine`), plus the Core's `listStudents` (module `CoreDb`).
- **The text builders of `scripts/export.js`** (module `Export`): the RTF escaping and
  wrapping, the plain-text report, and the export file name.
- **The header of `scripts/header-extras.js`** (module `HeaderExtras`): avatar initials,
  and the lazy opening of Core and Vault with the cached passphrases.
- **The ARIA goal tree of `scripts/tree.js`** (module `TreeView`): a `Tree` class over
  arrays of attributes, with toggling, group synchronisation, roving tabindex, and the
  click and keydown handlers; the focus moves only onto rendered items. A corrected
  keydown handler moves among the rendered items only (see Findings).

Supporting modules:

- `Wrappers`: `Option` and `Result`.
- `Bytes`: Uint8Array and `Array.from`.
- `Codec`: self-delimiting encodings used by the stand-ins.
- `Crypto`: a deterministic stand-in for PBKDF2 and AES-GCM. It decrypts exactly under
  the key and IV it encrypted with, and under no other, and rejects a ciphertext with
  bytes appended or with a tag that does not match.
- `Store`: IndexedDB as a map.
- `JsText`: JavaScript truthiness, `${}` of null, `\s`, `trim`, `join`.
- `Scenarios`: multi-call lifecycles proved from the session contracts.

The model keeps the code's order of effects in `openDatabase`/`openVault`: `key` and
`salt` are replaced *before* decryption is tried (`scripts/db.js:82-83`,
`scripts/vault.js:35-36`). So a failed open leaves the old handle paired with a key
derived from the wrong passphrase, and a later persist seals the old data under that
wrong key (`Scenarios.StaleKeyPersist`). A failed open does not leave the session as
it was.

## Model

| member | source | states |
|---|---|---|
| Bytes.UnpackPack | scripts/db.js:102-104 | `new Uint8Array(Array.from(b))` gives back `b`: storing a byte array as a number array is lossless |
| Bytes.PackInRange | scripts/db.js:104 | every number `Array.from` stores is the byte itself, in 0..255 |
| Bytes.UnpackAt | scripts/db.js:88-89 | reading a number array back applies ToUint8 to each element (value modulo 256) |
| Crypto.DecryptEncrypt | scripts/crypto.js:21-30 | decryption returns the plaintext exactly under the key and IV used to encrypt; any other key or IV makes it fail |
| Crypto.DecryptRejectsBadTag | scripts/crypto.js:27-29 | a ciphertext whose tag does not match its plaintext is rejected under every key, the right one included |
| Crypto.DecryptRejectsTrailing | scripts/crypto.js:27-29 | a ciphertext with bytes appended is rejected under every key |
| Session.UnsealSeal | scripts/db.js:86-90 | a record written by persist counts as present, opens under its own key to exactly the exported bytes, and fails under every other key |
| Session.SaltedKeepsSalt | scripts/db.js:77-83 | the salt step writes a salt only when none is stored, never overwrites one, changes no other record, and the salt read back is the fresh one when it was written |
| Session.Session.Core | scripts/db.js:7-13 | Core starts closed, with no namespace, handle, key or salt, on blob id `db-core` |
| Session.Session.Vault | scripts/vault.js:9-23 | Vault starts in the same empty state, on blob id `db-vault` |
| Session.Session.LoadSqlJs | scripts/db.js:27-28 | once a namespace is cached it is returned unchanged, whatever the environment offers; otherwise the loaded one is cached, or the load fails and nothing is cached |
| Session.Session.Open | scripts/db.js:73-98 | after loading: the salt is created only if absent; key and salt are replaced before decryption; a present, undecryptable blob fails with the handle and the blob record unchanged; a present, decryptable blob gives a fresh handle with exactly the decrypted tables and no write; a missing or malformed blob (no `iv` or no `cipher`) gives a fresh bootstrapped database that is sealed and written under the blob id. `openVault` (scripts/vault.js:26-51) is the same code on `db-vault` and the shared salt |
| Session.Session.Persist | scripts/db.js:100-105 | fails with the not-open message unless both handle and key are set; otherwise overwrites only this session's blob record with the export sealed under the current key, so `persistVault` (scripts/vault.js:53-58) never touches `db-core` or the salt |
| Session.Session.IsOpen | scripts/db.js:107 | true exactly when a handle is set |
| Session.Session.Close | scripts/db.js:109-112 | closes the engine if open, forgets handle and key, keeps salt and namespace, writes nothing; `closeVault` (scripts/vault.js:61-64) is the same |
| Session.Session.GetHandle | scripts/db.js:114 | returns the handle itself |
| Engine.TableIndex | scripts/vault.js:114-117 | the position found is the first table of that name, and none is found exactly when no table has that name |
| Engine.CreateTablesFresh | scripts/db.js:93-94 | on a database with none of the schema's tables, `CREATE TABLE IF NOT EXISTS` creates exactly the schema, in order |
| Engine.Database.Empty | scripts/db.js:93 | `new SQL.Database()` is open and has no tables |
| Engine.Database.Load | scripts/db.js:91 | `new SQL.Database(plain)` is open and has the tables read from the bytes |
| Engine.Database.CreateSchema | scripts/db.js:94 | the bootstrap script runs `CREATE TABLE IF NOT EXISTS` for each schema table in turn, and does not close the database |
| Engine.Database.Close | scripts/db.js:110 | `db.close()` marks the database closed and leaves its tables as they were |
| Engine.ImportExport | scripts/db.js:91 | `new SQL.Database(db.export())` has exactly the tables that were exported |
| Engine.ZipObjectAt | scripts/export.js:26 | with distinct column names, `Object.fromEntries` maps each column name to the value in that column and has no other property |
| Engine.RowObjects | scripts/export.js:22-27 | `rows`: no result set gives `[]`; otherwise one object per result row, and with distinct column names each object has exactly the names of the columns its row reaches as properties, each holding that row's value in the column |
| Engine.RowObjectsAt | scripts/export.js:24-26 | each object carries every column's value under the column's name |
| Engine.SelectedObject | scripts/vault.js:143-144 | each object of a SELECT result holds, under each selected name, that column of the matching row |
| CoreDb.StudentColumnsDistinct | scripts/db.js:242 | the four selected student columns have distinct names |
| CoreDb.ListStudents | scripts/db.js:241-246 | on the null handle the call throws; without a `student` table it fails with the engine's error; otherwise one object `{id, vorname, name, geburtstag}` per student row |
| CoreDb.ListedStudent | scripts/db.js:244-245 | the listing has one object per row, and object `i` maps each selected column to row `i`'s value |
| Scenarios.SchemasDistinct | scripts/db.js:116-230 | no bootstrap schema declares a table name twice |
| Scenarios.Bootstrap | scripts/db.js:87-95 | opening with no blob: sql.js loaded, salt and blob records added and no others changed, the tables are the schema, the key comes from the stored salt, and the new record opens to the export, which imports back to the schema |
| Scenarios.ReopenRestores | scripts/db.js:100-112 | persist, close, then open with the same passphrase restores exactly the persisted tables, and that open writes nothing |
| Scenarios.WrongPassphraseRejected | scripts/db.js:83-91 | a wrong passphrase fails with the authentication error: nothing is opened and the store is unchanged, but the key is now the wrong one |
| Scenarios.StaleKeyPersist | scripts/db.js:83-105 | re-opening an open session with a wrong passphrase fails but stays open; the next persist makes the record unreadable under the right key and readable under the wrong one |
| Scenarios.SharedSalt | scripts/vault.js:17-36 | bootstrapping Core then Vault with one passphrase gives both the same salt and key; opening the Vault leaves the record the Core bootstrap wrote exactly as it was, each record opens to its own export, and under distinct IVs the two records differ |
| Vault.ByteHexDigits | scripts/vault.js:100 | each byte becomes exactly two hex digits, high nibble first, zero-padded |
| Vault.ByteHexReads | scripts/vault.js:100 | both digits of a byte are lowercase hex and read back as the byte |
| Vault.HexStringRoundTrip | scripts/vault.js:97-101 | the hash string has twice the digest's length and only lowercase hex digits, and parsing it gives back the digest |
| Vault.Matching | scripts/vault.js:139 | `WHERE col = ?` keeps exactly the table's rows with that key |
| Vault.Without | scripts/vault.js:174-175 | `DELETE ... WHERE col = ?` keeps exactly the rows with another key |
| Vault.FirstIndex | scripts/vault.js:190 | the position found is the first row holding the key; none is found exactly when no row has it |
| Vault.MatchingUnique | scripts/vault.js:151 | under a primary key at most one row matches, namely the one at the key's position |
| Vault.UpsertSpec | scripts/vault.js:187-196 | `ON CONFLICT(student_id) DO UPDATE` keeps the key unique, leaves exactly the new row under its key, and leaves every other key's rows unchanged |
| Vault.UpsertReplaces | scripts/vault.js:190-194 | on a conflict the stored row is replaced where it stands, with the same effect as above |
| Vault.UpsertAppends | scripts/vault.js:187-189 | without a conflict the row is appended, with the same effect as above |
| Vault.WithoutSpec | scripts/vault.js:217-218 | after a delete no row is left under the key, and every other key keeps its rows |
| Vault.ReadLastRow | scripts/vault.js:163-167 | the `while (stmt.step())` loop returns the last row it sees: the last match for a freshly bound statement, the last match after the first for a statement `getAsObject` has already stepped |
| Vault.AsWrittenLookupMisses | scripts/vault.js:162-169 | under a primary key the as-written loop never sees the stored row |
| Vault.PhotoLookupAfterSet | scripts/vault.js:183-221 | after `setPhoto` the corrected lookup returns exactly the new photo (mime, size, time, bytes); after `deletePhoto` it returns null; the as-written lookup returns null after `setPhoto` |
| Vault.DocumentLookupAfterAdd | scripts/vault.js:107-170 | after `addDocument` with a new id the corrected blob getter returns the stored bytes, and the as-written one returns null |
| Vault.ListColumnsDistinct | scripts/vault.js:137 | the listed document columns have distinct names |
| Vault.ListedDocument | scripts/vault.js:134-145 | every listed object belongs to a document of the student and carries each listed column of it under its name |
| Vault.AddDocument | scripts/vault.js:107-132 | throws "Vault nicht offen" or rejects non-Uint8Array bytes before any change; otherwise appends the row (with `groesse_bytes` = byte length and the hex hash), persists, and returns id and hash. A missing table or a duplicate id fails without change |
| Vault.ListDocumentsByStudent | scripts/vault.js:134-145 | not open: error; otherwise the selected columns of exactly the student's documents |
| Vault.GetDocumentMeta | scripts/vault.js:147-157 | not open: error; no match: null; otherwise the metadata object of the first matching row |
| Vault.GetDocumentBlob | scripts/vault.js:159-170 | as the code is written: the blob of the last match after the first, or null |
| Vault.GetDocumentBlobBound | scripts/vault.js:159-170 | corrected: the blob of the last matching row, or null |
| Vault.DeleteDocument | scripts/vault.js:172-178 | not open: error and no write; otherwise removes the id's rows, persists, and returns true |
| Vault.SetPhoto | scripts/vault.js:183-200 | not open or non-Uint8Array bytes: error before any change; otherwise upserts the student's photo row, persists, and returns true |
| Vault.GetPhoto | scripts/vault.js:202-213 | as the code is written: the photo of the last match after the first, or null |
| Vault.GetPhotoBound | scripts/vault.js:202-213 | corrected: the photo of the student's row, or null |
| Vault.DeletePhoto | scripts/vault.js:215-221 | not open: error and no write; otherwise removes the student's photo, persists, and returns true |
| JsText.TrimStart | scripts/header-extras.js:12 | the result is a suffix that starts with no whitespace, and every character removed is whitespace |
| JsText.TrimEnd | scripts/header-extras.js:12 | the result is a prefix that ends with no whitespace, and every character removed is whitespace |
| JsText.TrimStartRun | scripts/export.js:186 | a whitespace run in front of a visible character is removed entirely |
| JsText.TrimStartPrefix | scripts/header-extras.js:12 | leading whitespace does not survive `trimStart` |
| JsText.TrimEndSuffix | scripts/header-extras.js:12 | trailing whitespace does not survive `trimEnd` |
| JsText.TrimStartAppend | scripts/header-extras.js:12 | once `trimStart` stops at a visible character, everything after it is kept |
| JsText.TrimPadding | scripts/header-extras.js:12 | `trim` ignores whitespace padding on either side |
| JsText.TrimEmptyIff | scripts/header-extras.js:12-14 | `trim` gives "" exactly for whitespace-only strings |
| HeaderExtras.ToUpper | scripts/header-extras.js:13-14 | upper-casing a character gives one or two characters |
| HeaderExtras.ToUpperAscii | scripts/header-extras.js:13-14 | capitals, digits and "?" are unchanged; a lowercase ASCII letter becomes its capital |
| HeaderExtras.Initials | scripts/header-extras.js:11-16 | the initials are never the empty string |
| HeaderExtras.InitialIsFirstVisible | scripts/header-extras.js:12-14 | a name is blank exactly when it has no visible character; its initial is then empty, and otherwise it is its first visible character upper-cased |
| HeaderExtras.FirstVisibleTrim | scripts/header-extras.js:12 | a trimmed non-blank string starts with its first visible character |
| HeaderExtras.BlankNamesGiveQuestionMark | scripts/header-extras.js:15 | two null, empty or whitespace-only names give "?" |
| HeaderExtras.QuestionMarkNotOnlyForBlank | scripts/header-extras.js:15 | "?" does not imply blank names: the first name "?" alone also gives "?" |
| HeaderExtras.InitialsOf | scripts/header-extras.js:12-15 | the initials depend on the trimmed names only |
| HeaderExtras.InitialsOfNames | scripts/header-extras.js:12-15 | unless both names are blank, the result is the first name's initial followed by the last name's, each omitted when blank |
| HeaderExtras.InitialsIgnorePadding | scripts/header-extras.js:12 | whitespace around either name does not change the initials |
| HeaderExtras.TrimOrEmpty | scripts/header-extras.js:12 | `(v \|\| "").trim()` ignores padding around a present name |
| HeaderExtras.VaultPassphraseOrder | scripts/header-extras.js:39-40 | the Vault passphrase is the cached `fpVaultPass`, else `fpCorePass`, else the prompt; a truthy choice cached back is chosen again, and a falsy one is asked for again |
| HeaderExtras.CorePassphraseOrder | scripts/header-extras.js:30-31 | the Core passphrase is the cached `fpCorePass`, else the prompt; a truthy cached choice is stable |
| HeaderExtras.Header.constructor | scripts/header-extras.js:5-6 | neither module is loaded and no passphrase is cached |
| HeaderExtras.Header.EnsureCoreOpen | scripts/header-extras.js:26-34 | once loaded, or when Core is already open, nothing is asked, cached or opened. Otherwise the passphrase is chosen and cached, the prompt is shown exactly when no truthy one was cached, and Core is opened with it (null as "null"); the call succeeds exactly when a handle is open afterwards |
| HeaderExtras.Header.EnsureVaultOpen | scripts/header-extras.js:35-43 | the same for the Vault, with its three-step order; the prompt is shown exactly when neither cached passphrase is truthy |
| Export.ReplaceCharConcat | scripts/export.js:98-101 | a global one-character `replace` distributes over concatenation |
| Export.ReplaceCharAbsent | scripts/export.js:98-101 | a global `replace` of an absent character changes nothing |
| Export.ReplaceCharOne | scripts/export.js:98-101 | on one character, `replace` rewrites it exactly when it matches |
| Export.PrepassChar | scripts/export.js:98-101 | the first four passes rewrite one character as the one-pass table says |
| Export.PrepassCons | scripts/export.js:98-101 | the first four passes work character by character |
| Export.LineBreaksPlainPrefix | scripts/export.js:102 | text without CR or LF passes the line-break pass unchanged |
| Export.EscIsEscRef | scripts/export.js:97-102 | the five passes equal the one-pass reference: each backslash and brace gets exactly one backslash (inserted backslashes are not doubled again), a no-break space becomes a space, and CR LF, CR and LF each become one `\par` line break whose backslash is not escaped |
| Export.EscRefNoCarriageReturn | scripts/export.js:102 | the escaped text contains no CR |
| Export.EscRefPlain | scripts/export.js:97-102 | text with no backslash, brace, no-break space, CR or LF is unchanged |
| Export.UnescapePiece | scripts/export.js:97-102 | reading back one escaped character gives the character, normalised |
| Export.UnescapeEscRef | scripts/export.js:97-102 | reading the escaped text back gives the text with no-break spaces as spaces and each line break as one LF: escaping loses nothing else |
| Export.TextToRtfParts | scripts/export.js:104-107 | the document is the Arial header, then the black colour table, then the escaped text, then `"\n}"`; the body has no CR and reads back as the normalised text |
| Export.PushSubgoals | scripts/export.js:68-70 | the loop appends exactly the sub-goal lines, in order |
| Export.PushIndicators | scripts/export.js:73-75 | the loop appends exactly the indicator lines, in order |
| Export.PushObservations | scripts/export.js:80-85 | the loop appends exactly the observation lines, in order |
| Export.PushGoal | scripts/export.js:64-88 | one goal iteration appends exactly that goal's lines |
| Export.PushGoals | scripts/export.js:63-89 | the goal loop appends the goals' lines in input order |
| Export.PushPlan | scripts/export.js:57-90 | one plan iteration appends the plan's heading, its goals and an empty line |
| Export.BuildTextReport | scripts/export.js:48-93 | the report is the report lines joined with "\n" |
| Export.ReportOpening | scripts/export.js:50-54 | the report opens with the title and the name line; a null birthday prints "-"; address and remark lines appear exactly when truthy; an empty line follows |
| Export.ZeitraumLine | scripts/export.js:58-59 | the period line appears exactly when a start or end date is set, joined by " bis " when both are |
| Export.PlansLinesConcat | scripts/export.js:56-91 | plans are reported in input order: reporting a concatenation concatenates the reports |
| Export.MissingEntries | scripts/export.js:62-77 | a plan or goal with no lookup entry reports as if its lists were empty |
| Export.SubgoalLinesShape | scripts/export.js:69 | every sub-goal line has 'T' after its four-space indent (the `Teilziel` label), so none is the observations header |
| Export.IndicatorLinesShape | scripts/export.js:74 | every indicator line has 'I' after its four-space indent (the `Indikator` label), so none is the observations header |
| Export.ObservationsHeaderIff | scripts/export.js:77-86 | the observations header is printed exactly when the goal has at least one observation |
| Export.CollapseSpacesNoSpace | scripts/export.js:186 | after `replace(/\s+/g, '_')` no whitespace is left |
| Export.CollapseSpacesPlain | scripts/export.js:186 | text without whitespace is unchanged |
| Export.CollapseSpacesRun | scripts/export.js:186 | a whitespace run becomes exactly one underscore, and normalising twice changes nothing |
| Export.ExportBaseNoSpace | scripts/export.js:185-186 | the file base name holds no whitespace and is already normalised |
| TreeView.ToggledSpec | scripts/tree.js:24-27 | a leaf stays a leaf, an item's open state flips to "true" or "false", and toggling twice restores "true"/"false" |
| TreeView.ToggleTwiceNormalises | scripts/tree.js:26-27 | toggling twice need not restore another attribute value ("yes" ends as "false") |
| TreeView.ToggleFlipsOwnGroups | scripts/tree.js:9-10 | toggling an item flips exactly the hidden state of the group it controls |
| TreeView.ExactlyOneTabbable | scripts/tree.js:17-21 | after a focus move exactly the target item has tabindex 0 and every other item -1 |
| TreeView.KeyActionInRange | scripts/tree.js:46-60 | focus moves land on an item; ArrowDown/ArrowUp move by one and stay put at the last/first item; a toggle only concerns the focused item; no focus gives the first item |
| TreeView.ArrowLeftAndRight | scripts/tree.js:61-73 | ArrowLeft collapses an open item in place, else moves to the parent item, else does nothing; ArrowRight, Enter and Space toggle, collapsing an open item too |
| TreeView.Tree.ParentItem | scripts/tree.js:70-71 | the parent found is an item of the tree |
| TreeView.Tree.constructor | scripts/tree.js:78-81 | at start the first item is selected and the groups are synchronised |
| TreeView.Tree.SyncGroups | scripts/tree.js:6-14 | each group is hidden exactly when its controller is not expanded, and each controller's twisty shows ▾ when open and ▸ when closed |
| TreeView.Focused | scripts/tree.js:20 | `el?.focus()` moves the focus to `el` when it is rendered and otherwise leaves it where it was |
| TreeView.DisplayedParent | scripts/tree.js:6-10 | the parent item of a rendered item is rendered, since the groups around it surround the parent too |
| TreeView.ArrowDownStuck | scripts/tree.js:46-54 | as written, when the item after `i` is inside a hidden group, any number of ArrowDown presses from `i` leaves the focus on `i` |
| TreeView.CollapsedItemBlocksArrowDown | scripts/tree.js:46-54 | a collapsed item, a hidden child and a rendered top-level sibling: the sibling is never reached by ArrowDown |
| TreeView.NextShown | scripts/tree.js:53-54 | the corrected ArrowDown target: the first rendered item after `i`, or `i` when none follows |
| TreeView.PrevShown | scripts/tree.js:55-56 | the corrected ArrowUp target: the last rendered item before `i`, or `i` when none precedes |
| TreeView.VisibleKeyActionShown | scripts/tree.js:46-73 | under the corrected decision every focus move from a rendered item lands on a rendered item: the next, the previous, the first or the last one |
| TreeView.VisibleArrowDownReaches | scripts/tree.js:53-54 | under the corrected decision, repeated ArrowDown from any item reaches every rendered item after it |
| TreeView.VisibleArrowDownSkipsCollapsed | scripts/tree.js:53-54 | on the tree that blocks the handler as written, the corrected ArrowDown skips the hidden item and lands on the sibling |
| TreeView.Tree.SetOnlyTabbable | scripts/tree.js:17-21 | every item gets tabindex -1 and the target 0; the focus moves to the target only when no group around it is hidden, else it stays put |
| TreeView.Tree.Toggle | scripts/tree.js:24-29 | a leaf changes nothing; otherwise only that item's `aria-expanded` flips and groups and twisties are re-synchronised |
| TreeView.Tree.Click | scripts/tree.js:32-43 | a click outside items changes nothing; on a twisty or a double click the item toggles; a plain click leaves exactly that item selected, the only tabbable one, and focused when it is rendered |
| TreeView.Tree.Perform | scripts/tree.js:52-73 | a decided key press changes exactly what `Performed` describes: a focus move rewrites the tabindex values and moves the focus onto a rendered target, a toggle flips one item and re-synchronises the groups, and nothing else changes |
| TreeView.Tree.Keydown | scripts/tree.js:46-76 | the handler does what `KeyAction` decides, and a focus move takes effect only on a rendered target; it changes no selection, and prevents the default exactly for the handled keys with an item focused |
| TreeView.Tree.KeydownVisible | scripts/tree.js:46-76 | the corrected handler does what `VisibleKeyAction` decides; from a rendered item every focus move lands on its target, which is rendered |

## Left out

- PBKDF2 and AES-GCM are not modelled. `Crypto` stands in for them with the properties
  the sessions rely on: deterministic derivation, and decryption that succeeds exactly
  under the key and IV used. The stand-in has no secrecy.
- Crypto.Decrypt: the stand-in's tag is a copy of the plaintext, not a keyed MAC. It
  detects appended bytes and a tag that disagrees with the plaintext, but not a
  forgery that changes the plaintext and its copy alike, which AES-GCM would reject.
- Session.Session.LoadSqlJs: the failure messages are placeholders. Core's is only the
  first sentence of the db.js message (the installation advice is left out). The Vault's
  stands for whatever error the browser's failing dynamic import raises.
- Randomness (`randomBytes` for salt and IV, `crypto.randomUUID`), the clock (`Date.now`),
  the SHA-256 digest and `fmtDateISO` are parameters.
- IndexedDB is a synchronous in-memory map. Asynchronous durability, and concurrent or
  unawaited opens and persists (including the race on first salt creation), are out of
  scope: each operation is one atomic step.
- The sql.js engine is abstract tables. SQL parsing, indexes, `PRAGMA user_version` and the
  SQLite file format are not modelled, and the export format is a stand-in codec.
- Session.Session.LoadSqlJs: the loader fallback chain (global `initSqlJs`, dynamic
  `import`, the `waitFor` timer loop) is a parameter `available`. The timing and the
  WebAssembly-module case are not modelled.
- Engine.ImportExport: bytes that are not an exported image load as a database without
  tables. The engine's own rejection of corrupt input is not modelled.
- CoreDb.ListStudents: `ORDER BY name, vorname` is not modelled; rows come in table order.
- Vault.ListDocumentsByStudent: `ORDER BY created_at DESC` is not modelled; rows come in table order.
- Vault.AddDocument: a duplicate random id fails with the engine's unique-constraint
  error; the engine's other constraint checks are not modelled.
- HeaderExtras.ToUpper: `toUpperCase` is only modelled for Basic Latin, Latin-1, Latin
  Extended-A, Greek and Cyrillic. Other characters are left unchanged.
- JavaScript strings are UTF-16. The model uses code points, so `v[0]` on a character
  outside the Basic Multilingual Plane is not the lone surrogate JavaScript would return.
- HeaderExtras.Header.EnsureCoreOpen, HeaderExtras.Header.EnsureVaultOpen: `undefined`
  and `null` are the same value (None). A failing dynamic import of the module is not
  modelled.
- TreeView.Tree: the DOM is arrays indexed by item and by group. A group's
  `previousElementSibling` is assumed to be a tree item or absent. `aria-selected` is a
  boolean, and browser focus on click beyond `setOnlyTabbable` is not modelled. The
  tree element itself is taken to be shown, and groups are assumed to nest in document
  order (`Nested`). A click on an ancestor's twisty that hides the focused item is not
  modelled to move the focus away from it.
- UI glue is not part of this model: `svgPlaceholder`, avatar rendering,
  `loadStudentsIntoDatalist`, `gatherAll`, `downloadBlob`, tabs, localStorage,
  `scripts/ui-students.js` and `scripts/ui-docs.js`, including the floating-point
  scaling in `imageToBytes`.
- `addStudent` and the other example APIs of `scripts/db.js` outside `listStudents` are
  not part of this model.

## Findings

| source | as written | input that shows it | evidently intended | confidence | as-written member | corrected member |
|---|---|---|---|---|---|---|
| scripts/vault.js:159-170 | `stmt.getAsObject([id])` binds and already steps onto the first result row, so `while (stmt.step())` starts at the second row | a vault whose `dokument` table holds one document with id `d1`; `getDocumentBlob('d1')` returns null | return the blob of the stored document | not executed | Vault.GetDocumentBlob, Vault.AsWrittenLookupMisses, Vault.DocumentLookupAfterAdd | Vault.GetDocumentBlobBound, Vault.DocumentLookupAfterAdd |
| scripts/vault.js:202-213 | the same stepping in `getPhoto`: since `student_id` is the primary key, the loop never sees the one row | `setPhoto('s1', bytes, 'image/webp')` followed by `getPhoto('s1')` returns null | return the stored photo `{mime, groesse_bytes, created_at, bytes}` | not executed | Vault.GetPhoto, Vault.AsWrittenLookupMisses, Vault.PhotoLookupAfterSet | Vault.GetPhotoBound, Vault.PhotoLookupAfterSet |
| scripts/tree.js:52-60 | ArrowDown, ArrowUp, Home and End pick from every tree item, including those inside a hidden group, and `focus()` on an item that is not rendered does nothing | item 0 collapsed with item 1 in its group, item 2 a top-level sibling, focus on item 0: ArrowDown targets item 1, the focus stays on item 0, and the next ArrowDown targets item 1 again, so item 2 is never reached | move among the rendered items, as the ARIA tree pattern prescribes | not executed | TreeView.Tree.Keydown, TreeView.ArrowDownStuck, TreeView.CollapsedItemBlocksArrowDown | TreeView.Tree.KeydownVisible, TreeView.VisibleKeyActionShown, TreeView.VisibleArrowDownReaches, TreeView.VisibleArrowDownSkipsCollapsed |
