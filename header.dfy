/** The header of scripts/header-extras.js: the initials shown on a student's avatar
    placeholder, and the lazy opening of the Core and Vault sessions, with the
    passphrase cached on `window` and asked for only when no cached one is usable. */
module HeaderExtras {
  import opened Wrappers
  import opened Crypto
  import opened JsText
  import opened Session

  // ---- initials ----

  /** `String.prototype.toUpperCase` on one character, for the Basic Latin, Latin-1
      Supplement, Latin Extended-A, basic Greek and basic Cyrillic blocks; other
      characters are kept. Some characters upper-case to two. */
  function ToUpper(c: char): (r: string)
    ensures |r| == 1 || |r| == 2
  {
    if 'a' <= c <= 'z' then [(c as int - 32) as char]
    else if c == '\U{B5}' then "\U{39C}"
    else if c == '\U{DF}' then "SS"
    else if '\U{E0}' <= c <= '\U{FE}' && c != '\U{F7}' then [(c as int - 32) as char]
    else if c == '\U{FF}' then "\U{178}"
    else if c == '\U{131}' then "I"
    else if c == '\U{149}' then "\U{2BC}N"
    else if c == '\U{17F}' then "S"
    else if ('\U{100}' <= c <= '\U{12F}' || '\U{132}' <= c <= '\U{137}' || '\U{14A}' <= c <= '\U{177}') && c as int % 2 == 1
    then [(c as int - 1) as char]
    else if ('\U{139}' <= c <= '\U{148}' || '\U{179}' <= c <= '\U{17E}') && c as int % 2 == 0
    then [(c as int - 1) as char]
    else if c == '\U{3C2}' then "\U{3A3}"
    else if '\U{3B1}' <= c <= '\U{3C9}' then [(c as int - 32) as char]
    else if '\U{430}' <= c <= '\U{44F}' then [(c as int - 32) as char]
    else if '\U{450}' <= c <= '\U{45F}' then [(c as int - 80) as char]
    else [c]
  }

  /** Upper-casing leaves the upper-case Latin letters, digits and the question mark alone,
      and maps each lower-case ASCII letter to its capital. */
  lemma ToUpperAscii(c: char)
    ensures 'A' <= c <= 'Z' || '0' <= c <= '9' || c == '?' ==> ToUpper(c) == [c]
    ensures 'a' <= c <= 'z' ==> |ToUpper(c)| == 1 && 'A' <= ToUpper(c)[0] <= 'Z' && ToUpper(c)[0] as int == c as int - 32
  {
  }

  /** `v ? v[0].toUpperCase() : ""` on an already trimmed string. */
  function Initial(v: string): string
  {
    if v != "" then ToUpper(v[0]) else ""
  }

  /** `initials(vorname, name)`. */
  function Initials(vorname: Text, name: Text): (r: string)
    ensures r != ""
  {
    InitialsOfTrimmed(Trim(OrEmpty(vorname)), Trim(OrEmpty(name)))
  }

  /** `(i1 + i2) || "?"`, from the trimmed names `v` and `n`. */
  function InitialsOfTrimmed(v: string, n: string): string
  {
    var i := Initial(v) + Initial(n);
    if i != "" then i else "?"
  }

  /** A name that contributes no initial: null, or made of whitespace only. */
  predicate Blank(t: Text)
  {
    t.None? || AllSpace(t.value)
  }

  /** The first character of `s` that is not whitespace, found by a scan of its own. */
  function FirstVisible(s: string): Option<char>
  {
    if s == [] then None
    else if IsSpace(s[0]) then FirstVisible(s[1..])
    else Some(s[0])
  }

  /** The initial a name contributes, defined by the scan: none for a blank name. */
  function VisibleInitial(t: Text): string
  {
    match FirstVisible(OrEmpty(t))
    case None => ""
    case Some(c) => ToUpper(c)
  }

  /** The initial of a name is its first visible character, upper-cased; a blank name
      has none. */
  lemma {:induction false} InitialIsFirstVisible(t: Text)
    ensures Blank(t) <==> FirstVisible(OrEmpty(t)).None?
    ensures Initial(Trim(OrEmpty(t))) == VisibleInitial(t)
    ensures Blank(t) <==> VisibleInitial(t) == ""
  {
    var s := OrEmpty(t);
    assert Blank(t) <==> AllSpace(s);
    TrimEmptyIff(s);
    FirstVisibleTrim(s);
  }

  lemma {:induction false} FirstVisibleTrim(s: string)
    ensures AllSpace(s) <==> FirstVisible(s).None?
    ensures !AllSpace(s) ==> Trim(s) != [] && Trim(s)[0] == FirstVisible(s).value
  {
    if s != [] {
      FirstVisibleTrim(s[1..]);
      if !IsSpace(s[0]) {
        assert TrimStart(s) == s;
        assert TrimEnd(s) == s[..|TrimEnd(s)|];
      } else {
        assert AllSpace(s) <==> AllSpace(s[1..]) by {
          if AllSpace(s[1..]) {
            forall i | 0 <= i < |s| ensures IsSpace(s[i]) {
              if i > 0 { assert s[i] == s[1..][i - 1]; }
            }
          }
        }
      }
    }
  }

  /** Two blank names give the placeholder "?". (The converse does not hold: a first
      name "?" gives "?" too.) */
  lemma BlankNamesGiveQuestionMark(vorname: Text, name: Text)
    requires Blank(vorname) && Blank(name)
    ensures Initials(vorname, name) == "?"
  {
    InitialIsFirstVisible(vorname);
    InitialIsFirstVisible(name);
    InitialsOf(vorname, name, Trim(OrEmpty(vorname)), Trim(OrEmpty(name)));
  }

  lemma QuestionMarkNotOnlyForBlank()
    ensures !Blank(Some("?")) && Initials(Some("?"), None) == "?"
  {
    var q := "?";
    assert !IsSpace(q[0]);
    assert TrimStart(q) == q;
    assert TrimEnd(q) == q;
    ToUpperAscii('?');
    assert Initial(q) == q;
    InitialsOf(Some(q), None, q, "");
  }

  /** Initials depend on the trimmed names only. */
  lemma InitialsOf(vorname: Text, name: Text, v: string, n: string)
    requires Trim(OrEmpty(vorname)) == v && Trim(OrEmpty(name)) == n
    ensures Initials(vorname, name) == if Initial(v) + Initial(n) != "" then Initial(v) + Initial(n) else "?"
  {
    assert Initials(vorname, name) == InitialsOfTrimmed(v, n);
  }

  /** Otherwise the upper-cased first visible character of the first name, followed
      by that of the name, each left out when its name is blank. */
  lemma InitialsOfNames(vorname: Text, name: Text)
    requires !Blank(vorname) || !Blank(name)
    ensures Initials(vorname, name) == VisibleInitial(vorname) + VisibleInitial(name)
  {
    InitialIsFirstVisible(vorname);
    InitialIsFirstVisible(name);
    InitialsOf(vorname, name, Trim(OrEmpty(vorname)), Trim(OrEmpty(name)));
  }

  /** Whitespace added around either name changes nothing. */
  lemma InitialsIgnorePadding(w1: string, v: string, w2: string, w3: string, n: string, w4: string)
    requires AllSpace(w1) && AllSpace(w2) && AllSpace(w3) && AllSpace(w4)
    ensures Initials(Some(w1 + v + w2), Some(w3 + n + w4)) == Initials(Some(v), Some(n))
  {
    TrimOrEmpty(w1, v, w2);
    TrimOrEmpty(w3, n, w4);
    InitialsOf(Some(w1 + v + w2), Some(w3 + n + w4), Trim(OrEmpty(Some(v))), Trim(OrEmpty(Some(n))));
    InitialsOf(Some(v), Some(n), Trim(OrEmpty(Some(v))), Trim(OrEmpty(Some(n))));
  }

  lemma TrimOrEmpty(w1: string, x: string, w2: string)
    requires AllSpace(w1) && AllSpace(w2)
    ensures Trim(OrEmpty(Some(w1 + x + w2))) == Trim(OrEmpty(Some(x)))
  {
    OrEmptySome(w1 + x + w2);
    OrEmptySome(x);
    TrimPadding(w1, x, w2);
  }

  // ---- passphrase choice ----

  /** `a || b` on strings-or-null. */
  function Or(a: Text, b: Text): Text
  {
    if Truthy(a) then a else b
  }

  /** The Core passphrase: the cached `fpCorePass`, else what the prompt returns. */
  function CorePassphrase(fpCorePass: Text, prompted: Text): Text
  {
    Or(fpCorePass, prompted)
  }

  /** The Vault passphrase: the cached `fpVaultPass`, then `fpCorePass`, then the prompt. */
  function VaultPassphrase(fpVaultPass: Text, fpCorePass: Text, prompted: Text): Text
  {
    Or(fpVaultPass, Or(fpCorePass, prompted))
  }

  /** The order of preference, and: a usable choice, cached back, is chosen again
      whatever the prompt would return; an unusable one (a cancelled or empty prompt)
      makes the next call ask again. */
  lemma VaultPassphraseOrder(fv: Text, fc: Text, p: Text, p': Text)
    ensures Truthy(fv) ==> VaultPassphrase(fv, fc, p) == fv
    ensures !Truthy(fv) && Truthy(fc) ==> VaultPassphrase(fv, fc, p) == fc
    ensures !Truthy(fv) && !Truthy(fc) ==> VaultPassphrase(fv, fc, p) == p
    ensures var c := VaultPassphrase(fv, fc, p);
      Truthy(c) ==> VaultPassphrase(c, fc, p') == c
    ensures var c := VaultPassphrase(fv, fc, p);
      !Truthy(c) && !Truthy(fc) ==> VaultPassphrase(c, fc, p') == p'
  {
  }

  lemma CorePassphraseOrder(fc: Text, p: Text, p': Text)
    ensures Truthy(fc) ==> CorePassphrase(fc, p) == fc
    ensures !Truthy(fc) ==> CorePassphrase(fc, p) == p
    ensures Truthy(CorePassphrase(fc, p)) ==> CorePassphrase(CorePassphrase(fc, p), p') == CorePassphrase(fc, p)
  {
  }

  /** The module state of the header: whether `db.js` / `vault.js` have been imported
      (`core` / `vault`), and the cached passphrases on `window`. */
  class Header {
    const core: Session
    const vault: Session

    var coreLoaded: bool
    var vaultLoaded: bool
    var fpCorePass: Text
    var fpVaultPass: Text

    ghost predicate Valid()
      reads this, core, core.db, vault, vault.db
    {
      core != vault && core.Valid() && vault.Valid()
    }

    constructor (core: Session, vault: Session)
      requires core != vault && core.Valid() && vault.Valid()
      ensures Valid()
      ensures this.core == core && this.vault == vault
      ensures !coreLoaded && !vaultLoaded && fpCorePass == None && fpVaultPass == None
    {
      this.core, this.vault := core, vault;
      coreLoaded, vaultLoaded, fpCorePass, fpVaultPass := false, false, None, None;
    }

    /** `ensureCoreOpen()`. `prompted` is what `prompt` would return; `asked` tells
        whether it was shown. `used` is the passphrase handed to `openDatabase`; a null
        passphrase reaches the key derivation as the text "null". Once the module is
        loaded nothing is opened again, even after a failed open. */
    method EnsureCoreOpen(prompted: Text, rt: Option<Runtime>, freshSalt: Salt, iv: Iv)
      returns (r: Result<bool>, asked: bool, used: Option<string>)
      requires Valid()
      modifies this, core, core.store
      ensures Valid() && coreLoaded
      ensures vaultLoaded == old(vaultLoaded) && fpVaultPass == old(fpVaultPass)
      ensures old(coreLoaded) || old(core.db) != null ==>
        r == Ok(true) && !asked && used == None && fpCorePass == old(fpCorePass)
        && core.db == old(core.db) && core.key == old(core.key) && core.store.records == old(core.store.records)
      ensures !old(coreLoaded) && old(core.db) == null ==>
        && fpCorePass == CorePassphrase(old(fpCorePass), prompted)
        && (asked <==> !Truthy(old(fpCorePass)))
        && used == Some(Show(fpCorePass))
        && (core.sql.Some? ==> core.key.Some? && core.key.value.passphrase == used.value)
        && (r.Ok? <==> core.db != null)
    {
      if coreLoaded {
        return Ok(true), false, None;
      }
      coreLoaded := true;
      var open := core.IsOpen();
      if open {
        return Ok(true), false, None;
      }
      var pass := fpCorePass;
      asked := false;
      if !Truthy(pass) {
        pass, asked := prompted, true;
      }
      fpCorePass := pass;
      used := Some(Show(pass));
      r := core.Open(used.value, rt, freshSalt, iv);
    }

    /** `ensureVaultOpen()`, the same with the Vault's order of passphrases. */
    method EnsureVaultOpen(prompted: Text, rt: Option<Runtime>, freshSalt: Salt, iv: Iv)
      returns (r: Result<bool>, asked: bool, used: Option<string>)
      requires Valid()
      modifies this, vault, vault.store
      ensures Valid() && vaultLoaded
      ensures coreLoaded == old(coreLoaded) && fpCorePass == old(fpCorePass)
      ensures old(vaultLoaded) || old(vault.db) != null ==>
        r == Ok(true) && !asked && used == None && fpVaultPass == old(fpVaultPass)
        && vault.db == old(vault.db) && vault.key == old(vault.key) && vault.store.records == old(vault.store.records)
      ensures !old(vaultLoaded) && old(vault.db) == null ==>
        && fpVaultPass == VaultPassphrase(old(fpVaultPass), fpCorePass, prompted)
        && (asked <==> !Truthy(old(fpVaultPass)) && !Truthy(fpCorePass))
        && used == Some(Show(fpVaultPass))
        && (vault.sql.Some? ==> vault.key.Some? && vault.key.value.passphrase == used.value)
        && (r.Ok? <==> vault.db != null)
    {
      if vaultLoaded {
        return Ok(true), false, None;
      }
      vaultLoaded := true;
      var open := vault.IsOpen();
      if open {
        return Ok(true), false, None;
      }
      var pass := fpVaultPass;
      asked := false;
      if !Truthy(pass) {
        pass := fpCorePass;
        if !Truthy(pass) {
          pass, asked := prompted, true;
        }
      }
      fpVaultPass := pass;
      used := Some(Show(pass));
      r := vault.Open(used.value, rt, freshSalt, iv);
    }
  }
}
