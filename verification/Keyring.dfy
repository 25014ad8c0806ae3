/** The keyring: one data key under many wraps. Cryptography is symbolic: a key is
    the term that derives it, and a sealed value opens under exactly its own key. */
module Keyring {
  import opened Wrappers
  import opened Base64

  // ----- symbolic cryptography -----

  datatype Key =
    | DataKey(seed: int)
    | PassphraseKey(passphrase: string, salt: Bytes, memory: nat, time: nat, threads: nat)
    | OperationalKey(raw: Bytes)

  datatype Plain = KeyMaterial(key: Key) | Text(text: Bytes)

  datatype Sealed = Unreadable | Sealed(key: Key, nonce: int, plain: Plain)

  /** Authenticated decryption. */
  function Unseal(key: Key, s: Sealed): Option<Plain> {
    if s.Sealed? && s.key == key then Some(s.plain) else None
  }

  // ----- wraps -----

  const KIND_PASSPHRASE := "passphrase"
  const KIND_OPERATIONAL := "operational"

  const KDF_MEMORY := 256 * 1024
  const KDF_TIME := 4
  const KDF_THREADS := 4
  const MIN_OPERATIONAL_LEN := 16

  datatype Wrap = Wrap(id: string, kind: string, tag: string, salt: string,
                       kdfMemory: nat, kdfTime: nat, kdfThreads: nat, ciphertext: Sealed)

  datatype KeyFile = Malformed | KeyFile(version: int, wraps: seq<Wrap>)

  datatype Secrets = Secrets(passphrase: string, operationalKey: string)

  function PassphraseKek(passphrase: string, w: Wrap): Option<Key> {
    match DecodeRaw(Standard, w.salt)
    case None => None
    case Some(salt) =>
      if w.kdfMemory == 0 || w.kdfTime == 0 || w.kdfThreads == 0 then None
      else Some(PassphraseKey(passphrase, salt, w.kdfMemory, w.kdfTime, w.kdfThreads))
  }

  /** Unpadded URL base64, or else padded standard base64; at least 16 bytes. */
  function OperationalKek(key: string): Option<Key> {
    var decoded := match DecodeRaw(Url, key)
                   case Some(raw) => Some(raw)
                   case None => DecodePadded(Standard, key);
    match decoded
    case None => None
    case Some(raw) => if |raw| < MIN_OPERATIONAL_LEN then None else Some(OperationalKey(raw))
  }

  function Unwrap(kek: Key, w: Wrap): Option<Key> {
    match Unseal(kek, w.ciphertext)
    case Some(KeyMaterial(key)) => Some(key)
    case _ => None
  }

  function NewPassphraseWrap(dataKey: Key, passphrase: string, tag: string, id: string, salt: Bytes, nonce: int): Wrap {
    Wrap(id, KIND_PASSPHRASE, tag, Encode(Standard, salt), KDF_MEMORY, KDF_TIME, KDF_THREADS,
         Sealed(PassphraseKey(passphrase, salt, KDF_MEMORY, KDF_TIME, KDF_THREADS), nonce, KeyMaterial(dataKey)))
  }

  /** None when the operational key itself is unusable. */
  function NewOperationalWrap(dataKey: Key, key: string, tag: string, id: string, nonce: int): Option<Wrap> {
    match OperationalKek(key)
    case Some(kek) => Some(Wrap(id, KIND_OPERATIONAL, tag, "", 0, 0, 0, Sealed(kek, nonce, KeyMaterial(dataKey))))
    case None => None
  }

  // ----- opening -----

  /** What one turn of Open's loop makes of a wrap. */
  function TryWrap(w: Wrap, secrets: Secrets): Option<Key> {
    var kek :=
      if w.kind == KIND_PASSPHRASE then
        (if secrets.passphrase == "" then None else PassphraseKek(secrets.passphrase, w))
      else if w.kind == KIND_OPERATIONAL then
        (if secrets.operationalKey == "" then None else OperationalKek(secrets.operationalKey))
      else None;
    match kek
    case Some(k) => Unwrap(k, w)
    case None => None
  }

  datatype OpenError = NotFound | ParseError | BadVersion | NoWraps | Locked

  /** The key of the first wrap that opens. */
  function FirstKey(wraps: seq<Wrap>, secrets: Secrets): Option<Key> {
    if wraps == [] then None
    else
      match TryWrap(wraps[0], secrets)
      case Some(key) => Some(key)
      case None => FirstKey(wraps[1..], secrets)
  }

  function OpenFile(file: Option<KeyFile>, secrets: Secrets): Result<Key, OpenError> {
    match file
    case None => Err(NotFound)
    case Some(Malformed) => Err(ParseError)
    case Some(KeyFile(version, wraps)) =>
      if version != 1 then Err(BadVersion)
      else if wraps == [] then Err(NoWraps)
      else
        match FirstKey(wraps, secrets)
        case Some(key) => Ok(key)
        case None => Err(Locked)
  }

  /** Open's loop over the wraps. */
  method Open(file: Option<KeyFile>, secrets: Secrets) returns (r: Result<Key, OpenError>)
    ensures r == OpenFile(file, secrets)
    ensures r == Err(NotFound) <==> file.None?
    ensures r == Err(ParseError) <==> file == Some(Malformed)
    ensures r == Err(BadVersion) <==> file.Some? && file.value.KeyFile? && file.value.version != 1
    ensures r == Err(NoWraps) <==> file == Some(KeyFile(1, []))
  {
    match file
    case None => return Err(NotFound);
    case Some(Malformed) => return Err(ParseError);
    case Some(KeyFile(version, wraps)) =>
      if version != 1 {
        return Err(BadVersion);
      }
      if wraps == [] {
        return Err(NoWraps);
      }
      for i := 0 to |wraps|
        invariant FirstKey(wraps, secrets) == FirstKey(wraps[i..], secrets)
      {
        var key := TryWrap(wraps[i], secrets);
        if key.Some? {
          return Ok(key.value);
        }
        assert wraps[i..][1..] == wraps[i + 1..];
      }
      assert wraps[|wraps|..] == [];
      r := Err(Locked);
  }

  // ----- good wraps -----

  /** The wrap gives up the data key or nothing, and some secret opens it. */
  ghost predicate WrapOk(w: Wrap, dataKey: Key) {
    && (forall secrets :: TryWrap(w, secrets) == None || TryWrap(w, secrets) == Some(dataKey))
    && (exists secrets :: TryWrap(w, secrets) == Some(dataKey))
  }

  ghost predicate WrapsOk(wraps: seq<Wrap>, dataKey: Key) {
    wraps != [] && forall i | 0 <= i < |wraps| :: WrapOk(wraps[i], dataKey)
  }

  /** A passphrase wrap opens under its own passphrase and no other. */
  lemma PassphraseWrapOpens(
      dataKey: Key, passphrase: string, tag: string, id: string, salt: Bytes, nonce: int, secrets: Secrets)
    requires passphrase != ""
    ensures var w := NewPassphraseWrap(dataKey, passphrase, tag, id, salt, nonce);
            && WrapOk(w, dataKey)
            && (TryWrap(w, secrets) == Some(dataKey) <==> secrets.passphrase == passphrase)
  {
    var w := NewPassphraseWrap(dataKey, passphrase, tag, id, salt, nonce);
    RawRoundTrip(Standard, salt);
    assert TryWrap(w, Secrets(passphrase, "")) == Some(dataKey);
  }

  /** A passphrase wrap whose salt is no base64 or that lacks a parameter opens under
      nothing, and one that is complete opens under the key its own parameters give. */
  lemma ParametersAreTheWraps(w: Wrap, passphrase: string)
    ensures PassphraseKek(passphrase, w).None?
       <==> DecodeRaw(Standard, w.salt).None? || w.kdfMemory == 0 || w.kdfTime == 0 || w.kdfThreads == 0
    ensures PassphraseKek(passphrase, w).Some? ==>
              PassphraseKek(passphrase, w).value
              == PassphraseKey(passphrase, DecodeRaw(Standard, w.salt).value, w.kdfMemory, w.kdfTime, w.kdfThreads)
  {
  }

  /** An operational wrap opens under every spelling of the same key material. */
  lemma OperationalWrapOpens(dataKey: Key, key: string, tag: string, id: string, nonce: int, secrets: Secrets)
    requires key != "" && OperationalKek(key).Some?
    ensures var w := NewOperationalWrap(dataKey, key, tag, id, nonce);
            && w.Some? && WrapOk(w.value, dataKey)
            && (TryWrap(w.value, secrets) == Some(dataKey)
                <==> secrets.operationalKey != "" && OperationalKek(secrets.operationalKey) == OperationalKek(key))
  {
    var w := NewOperationalWrap(dataKey, key, tag, id, nonce).value;
    assert TryWrap(w, Secrets("", key)) == Some(dataKey);
  }

  lemma {:induction false} SharedCharsReadAlike(s: string)
    requires InAlphabet(Url, s) && InAlphabet(Standard, s)
    ensures Read(Url, s) == Read(Standard, s)
  {
    if s != "" {
      assert ValueOf(Url, s[0]) == ValueOf(Standard, s[0]);
      assert forall i | 0 <= i < |s[1..]| :: s[1..][i] == s[i + 1];
      SharedCharsReadAlike(s[1..]);
    }
  }

  lemma PaddingIsNoUrlText(raw: Bytes)
    ensures |raw| % 3 != 0 ==> !InAlphabet(Url, Padded(Standard, raw))
  {
    var s := Padded(Standard, raw);
    if |raw| % 3 != 0 {
      assert s[|s| - 1] == '=';
    }
  }

  /** Read as unpadded URL text, padded standard text gives the same bytes or nothing. */
  lemma PaddedReadAsUrl(raw: Bytes)
    ensures DecodeRaw(Url, Padded(Standard, raw)) == None || DecodeRaw(Url, Padded(Standard, raw)) == Some(raw)
  {
    var s, e := Padded(Standard, raw), Encode(Standard, raw);
    PaddedTextIsClean(Standard, raw);
    PaddedLength(Standard, raw);
    RawDecodesIff(Url, s);
    if DecodeRaw(Url, s).Some? {
      PaddingIsNoUrlText(raw);
      assert s == e;
      RawRoundTrip(Standard, raw);
      EncodedTextIsClean(Standard, raw);
      CleanTextStaysAsIs(e);
      RawDecodesIff(Standard, e);
      SharedCharsReadAlike(e);
    }
  }

  /** Either spelling of key material is understood, and at least 16 bytes are asked. */
  lemma OperationalKeysAreRead(raw: Bytes)
    ensures OperationalKek(Encode(Url, raw)) == (if 16 <= |raw| then Some(OperationalKey(raw)) else None)
    ensures OperationalKek(Padded(Standard, raw)) == (if 16 <= |raw| then Some(OperationalKey(raw)) else None)
  {
    RawRoundTrip(Url, raw);
    PaddedRoundTrip(Standard, raw);
    PaddedReadAsUrl(raw);
  }

  /** A key from NewOperationalKey, 32 random bytes in URL base64, is always usable. */
  lemma FreshOperationalKeysWork(raw: Bytes)
    requires |raw| == 32
    ensures OperationalKek(Encode(Url, raw)) == Some(OperationalKey(raw)) && Encode(Url, raw) != ""
  {
    RawRoundTrip(Url, raw);
  }

  /** Open returns the data key exactly when some wrap of the file opens, whatever
      wraps precede it, and is locked otherwise. */
  lemma {:induction false} SearchFindsTheKey(wraps: seq<Wrap>, dataKey: Key, secrets: Secrets)
    requires forall i | 0 <= i < |wraps| :: WrapOk(wraps[i], dataKey)
    ensures FirstKey(wraps, secrets)
         == (if exists i :: 0 <= i < |wraps| && TryWrap(wraps[i], secrets).Some? then Some(dataKey) else None)
  {
    if wraps != [] {
      assert WrapOk(wraps[0], dataKey);
      SearchFindsTheKey(wraps[1..], dataKey, secrets);
      if i :| 0 <= i < |wraps| && TryWrap(wraps[i], secrets).Some? {
        if i > 0 {
          assert TryWrap(wraps[1..][i - 1], secrets).Some?;
        }
      }
    }
  }

  // ----- a keyring over time -----

  /** A file and whether its contents would survive a crash. */
  datatype Stored = Stored(file: KeyFile, synced: bool)

  datatype Memory = Memory(dataKey: Key, wraps: seq<Wrap>)

  /** The file in place, those it replaced since the directory last reached the disk,
      the temporary file of a save under way, and the keyring of the running
      process, if any. */
  datatype Vault = Vault(disk: Stored, older: seq<Stored>, temp: Option<Stored>, memory: Option<Memory>, saving: bool)

  datatype Action =
    | AddPassphrase(passphrase: string, tag: string, id: string, salt: Bytes, nonce: int)
    | AddOperational(key: string, tag: string, id: string, nonce: int)
    | Remove(id: string)
    | SaveWrite
    | SaveSync
    | SaveRename
    | SaveFails(removed: bool)     // any step of save; so may the removal of its temporary file
    | Flush                        // the system writes the directory out
    | Crash(lost: KeyFile, back: Option<nat>) // unsynced contents turn into anything; an older file may be back
    | Reopen(secrets: Secrets)

  /** The index of the first wrap with an id, or the length. */
  function IndexOf(wraps: seq<Wrap>, id: string): (i: nat)
    ensures i <= |wraps| && (i < |wraps| ==> wraps[i].id == id)
    ensures forall k | 0 <= k < i :: wraps[k].id != id
  {
    if wraps == [] then 0 else if wraps[0].id == id then 0 else 1 + IndexOf(wraps[1..], id)
  }

  datatype RemoveError = UnknownWrap | LastWrap

  /** RemoveWrap on the list in memory, refusing to remove the last wrap. */
  function Without(wraps: seq<Wrap>, id: string): Result<seq<Wrap>, RemoveError> {
    var i := IndexOf(wraps, id);
    if i == |wraps| then Err(UnknownWrap)
    else if |wraps| == 1 then Err(LastWrap)
    else Ok(wraps[..i] + wraps[i + 1..])
  }

  predicate Enabled(v: Vault, a: Action) {
    match a
    case AddPassphrase(passphrase, _, _, _, _) => v.memory.Some? && !v.saving && passphrase != ""
    case AddOperational(key, _, _, _) => v.memory.Some? && !v.saving && key != ""
    case Remove(_) => v.memory.Some? && !v.saving
    case SaveWrite => v.saving && v.memory.Some?
    case SaveSync => v.saving && v.temp.Some?
    case SaveRename => v.saving && v.temp.Some? && v.temp.value.synced
    case SaveFails(_) => v.saving
    case Flush => true
    case Crash(_, back) => back.Some? ==> back.value < |v.older|
    case Reopen(_) => v.memory.None?
  }

  function AfterCrash(s: Stored, lost: KeyFile): Stored {
    if s.synced then s else Stored(lost, true)
  }

  function Apply(v: Vault, a: Action): Vault
    requires Enabled(v, a)
  {
    match a
    case AddPassphrase(passphrase, tag, id, salt, nonce) =>
      var m := v.memory.value;
      v.(memory := Some(m.(wraps := m.wraps + [NewPassphraseWrap(m.dataKey, passphrase, tag, id, salt, nonce)])),
         temp := None, saving := true)
    case AddOperational(key, tag, id, nonce) =>
      var m := v.memory.value;
      (match NewOperationalWrap(m.dataKey, key, tag, id, nonce)
       case Some(w) => v.(memory := Some(m.(wraps := m.wraps + [w])), temp := None, saving := true)
       case None => v)
    case Remove(id) =>
      var m := v.memory.value;
      (match Without(m.wraps, id)
       case Ok(wraps) => v.(memory := Some(m.(wraps := wraps)), temp := None, saving := true)
       case Err(_) => v)
    case SaveWrite => v.(temp := Some(Stored(KeyFile(1, v.memory.value.wraps), false)))
    case SaveSync => v.(temp := Some(v.temp.value.(synced := true)))
    case SaveRename => v.(disk := v.temp.value, older := v.older + [v.disk], temp := None, saving := false)
    case SaveFails(removed) => v.(temp := if removed then None else v.temp, saving := false)
    case Flush => v.(older := [])
    case Crash(lost, back) =>
      v.(disk := AfterCrash(if back.Some? then v.older[back.value] else v.disk, lost), older := [],
         temp := if v.temp.Some? then Some(AfterCrash(v.temp.value, lost)) else None,
         memory := None, saving := false)
    case Reopen(secrets) =>
      match OpenFile(Some(v.disk.file), secrets)
      case Ok(key) =>
        if v.disk.file.KeyFile? then v.(memory := Some(Memory(key, v.disk.file.wraps))) else v
      case Err(_) => v
  }

  // ----- creating -----

  datatype Creation = Creation(secrets: Secrets, salt: Bytes, seed: int, passTag: string, opTag: string,
                               passId: string, opId: string, passNonce: int, opNonce: int)

  /** The wraps of a new keyring: one per secret given; None when no secret is
      given or the operational key is unusable. */
  function CreateWraps(c: Creation): Option<seq<Wrap>> {
    var dataKey := DataKey(c.seed);
    var first := if c.secrets.passphrase != ""
                 then [NewPassphraseWrap(dataKey, c.secrets.passphrase, c.passTag, c.passId, c.salt, c.passNonce)]
                 else [];
    if c.secrets.passphrase == "" && c.secrets.operationalKey == "" then None
    else if c.secrets.operationalKey == "" then Some(first)
    else
      match NewOperationalWrap(dataKey, c.secrets.operationalKey, c.opTag, c.opId, c.opNonce)
      case Some(w) => Some(first + [w])
      case None => None
  }

  datatype Run = Start(creation: Creation) | Then(before: Run, action: Action)

  function DataKeyOf(r: Run): Key {
    match r
    case Start(c) => DataKey(c.seed)
    case Then(before, _) => DataKeyOf(before)
  }

  /** A run begins when Create has saved. */
  function End(r: Run): Vault {
    match r
    case Start(c) =>
      var wraps := match CreateWraps(c) case Some(ws) => ws case None => [];
      Vault(Stored(KeyFile(1, wraps), true), [], None, Some(Memory(DataKey(c.seed), wraps)), false)
    case Then(before, a) => if Enabled(End(before), a) then Apply(End(before), a) else End(before)
  }

  predicate IsRun(r: Run) {
    match r
    case Start(c) => CreateWraps(c).Some?
    case Then(before, a) => IsRun(before) && Enabled(End(before), a)
  }

  // ----- what every run keeps -----

  ghost predicate FileOk(s: Stored, dataKey: Key) {
    s.synced && s.file.KeyFile? && s.file.version == 1 && WrapsOk(s.file.wraps, dataKey)
  }

  ghost predicate VaultOk(v: Vault, dataKey: Key) {
    && FileOk(v.disk, dataKey) && (forall i | 0 <= i < |v.older| :: FileOk(v.older[i], dataKey))
    && (v.memory.Some? ==> v.memory.value.dataKey == dataKey && WrapsOk(v.memory.value.wraps, dataKey))
    && (v.saving ==> v.memory.Some?)
    && (v.saving && v.temp.Some? ==> v.temp.value.file == KeyFile(1, v.memory.value.wraps))
  }

  lemma CreateIsOk(c: Creation)
    requires CreateWraps(c).Some?
    ensures WrapsOk(CreateWraps(c).value, DataKey(c.seed))
  {
    var dataKey := DataKey(c.seed);
    if c.secrets.passphrase != "" {
      PassphraseWrapOpens(dataKey, c.secrets.passphrase, c.passTag, c.passId, c.salt, c.passNonce, c.secrets);
    }
    if c.secrets.operationalKey != "" {
      OperationalWrapOpens(dataKey, c.secrets.operationalKey, c.opTag, c.opId, c.opNonce, c.secrets);
    }
  }

  /** Create is refused exactly when no secret is given or the operational key is
      unusable; and the file it makes opens under exactly the secrets given. */
  lemma CreatedKeyringsOpen(c: Creation, secrets: Secrets)
    ensures CreateWraps(c).None?
       <==> if c.secrets.operationalKey == "" then c.secrets.passphrase == ""
            else OperationalKek(c.secrets.operationalKey).None?
    ensures CreateWraps(c).Some? ==>
              (OpenFile(Some(KeyFile(1, CreateWraps(c).value)), secrets) == Ok(DataKey(c.seed))
               <==> || (c.secrets.passphrase != "" && secrets.passphrase == c.secrets.passphrase)
                    || (c.secrets.operationalKey != "" && secrets.operationalKey != ""
                        && OperationalKek(secrets.operationalKey) == OperationalKek(c.secrets.operationalKey)))
    ensures CreateWraps(c).Some? ==>
              && IsRun(Start(c)) && End(Start(c)).disk.file == KeyFile(1, CreateWraps(c).value)
              && End(Start(c)).memory == Some(Memory(DataKey(c.seed), CreateWraps(c).value))
              && !End(Start(c)).saving && End(Start(c)).older == []
  {
    var dataKey := DataKey(c.seed);
    if CreateWraps(c).Some? {
      var wraps := CreateWraps(c).value;
      if c.secrets.passphrase != "" {
        PassphraseWrapOpens(dataKey, c.secrets.passphrase, c.passTag, c.passId, c.salt, c.passNonce, secrets);
        assert wraps[0] == NewPassphraseWrap(dataKey, c.secrets.passphrase, c.passTag, c.passId, c.salt, c.passNonce);
      }
      if c.secrets.operationalKey != "" {
        OperationalWrapOpens(dataKey, c.secrets.operationalKey, c.opTag, c.opId, c.opNonce, secrets);
        assert Some(wraps[|wraps| - 1])
            == NewOperationalWrap(dataKey, c.secrets.operationalKey, c.opTag, c.opId, c.opNonce);
      }
      CreateIsOk(c);
      SearchFindsTheKey(wraps, dataKey, secrets);
    }
  }

  lemma AppendKeepsWraps(wraps: seq<Wrap>, w: Wrap, dataKey: Key)
    requires WrapsOk(wraps, dataKey) && WrapOk(w, dataKey)
    ensures WrapsOk(wraps + [w], dataKey)
  {
    var all := wraps + [w];
    forall i | 0 <= i < |all|
      ensures WrapOk(all[i], dataKey)
    {
      assert all[i] == if i < |wraps| then wraps[i] else w;
    }
  }

  lemma RemovalKeepsWraps(wraps: seq<Wrap>, id: string, dataKey: Key)
    requires WrapsOk(wraps, dataKey) && Without(wraps, id).Ok?
    ensures WrapsOk(Without(wraps, id).value, dataKey)
  {
    var at := IndexOf(wraps, id);
    var rest := Without(wraps, id).value;
    forall i | 0 <= i < |rest|
      ensures WrapOk(rest[i], dataKey)
    {
      assert rest[i] == if i < at then wraps[i] else wraps[i + 1];
    }
  }

  lemma StepKeepsVault(v: Vault, a: Action, dataKey: Key)
    requires VaultOk(v, dataKey) && Enabled(v, a)
    ensures VaultOk(Apply(v, a), dataKey)
  {
    if a.AddPassphrase? {
      PassphraseWrapOpens(dataKey, a.passphrase, a.tag, a.id, a.salt, a.nonce, Secrets("", ""));
      AppendKeepsWraps(v.memory.value.wraps,
                       NewPassphraseWrap(dataKey, a.passphrase, a.tag, a.id, a.salt, a.nonce), dataKey);
    } else if a.AddOperational? {
      if OperationalKek(a.key).Some? {
        OperationalWrapOpens(dataKey, a.key, a.tag, a.id, a.nonce, Secrets("", ""));
        AppendKeepsWraps(v.memory.value.wraps,
                         NewOperationalWrap(dataKey, a.key, a.tag, a.id, a.nonce).value, dataKey);
      }
    } else if a.Remove? {
      if Without(v.memory.value.wraps, a.id).Ok? {
        RemovalKeepsWraps(v.memory.value.wraps, a.id, dataKey);
      }
    } else if a.Reopen? {
      SearchFindsTheKey(v.disk.file.wraps, dataKey, a.secrets);
    }
  }

  /** Through any sequence of additions and removals, with saves failing and the
      process dying at any step, the wraps on disk and in memory are never empty
      and all hold the key the keyring was created with. */
  lemma {:induction false} WrapsNeverRunOut(r: Run)
    requires IsRun(r)
    ensures VaultOk(End(r), DataKeyOf(r))
  {
    match r
    case Start(c) => CreateIsOk(c);
    case Then(before, a) =>
      WrapsNeverRunOut(before);
      StepKeepsVault(End(before), a, DataKeyOf(before));
  }

  /** So opening what is on disk yields the original data key exactly when some
      wrap there opens, and never any other key. */
  lemma AnySecretOnDiskOpens(r: Run, secrets: Secrets)
    requires IsRun(r)
    ensures End(r).disk.file.KeyFile?
    ensures OpenFile(Some(End(r).disk.file), secrets)
         == (if exists i :: 0 <= i < |End(r).disk.file.wraps| && TryWrap(End(r).disk.file.wraps[i], secrets).Some?
             then Ok(DataKeyOf(r)) else Err(Locked))
  {
    WrapsNeverRunOut(r);
    SearchFindsTheKey(End(r).disk.file.wraps, DataKeyOf(r), secrets);
  }

  /** A process that starts anew with a secret that opens the file has the original
      key and the file's wraps; with any other it has no keyring. */
  lemma ReopeningOpens(r: Run, secrets: Secrets)
    requires IsRun(r) && End(r).memory.None?
    ensures IsRun(Then(r, Reopen(secrets))) && End(r).disk.file.KeyFile?
    ensures var wraps := End(r).disk.file.wraps;
            End(Then(r, Reopen(secrets))).memory
            == if exists i :: 0 <= i < |wraps| && TryWrap(wraps[i], secrets).Some?
               then Some(Memory(DataKeyOf(r), wraps)) else None
  {
    AnySecretOnDiskOpens(r, secrets);
  }

  /** A crash ends the process and whatever save was under way; the file is then the
      one in place or any that it replaced since the directory was written out. */
  lemma CrashesLeaveAFile(r: Run, lost: KeyFile, back: Option<nat>)
    requires IsRun(r) && (back.Some? ==> back.value < |End(r).older|)
    ensures var crashed := Then(r, Crash(lost, back));
            && IsRun(crashed) && End(crashed).memory.None? && !End(crashed).saving && End(crashed).older == []
            && End(crashed).disk == if back.Some? then End(r).older[back.value] else End(r).disk
  {
    WrapsNeverRunOut(r);
    assert back.Some? ==> FileOk(End(r).older[back.value], DataKeyOf(r));
  }

  /** A save is renamed into place only once it is durable. */
  lemma RenamesFollowTheSync(v: Vault)
    requires v.saving && v.memory.Some?
    ensures Enabled(v, SaveWrite) && !Enabled(Apply(v, SaveWrite), SaveRename)
    ensures Enabled(Apply(v, SaveWrite), SaveSync) && Enabled(Apply(Apply(v, SaveWrite), SaveSync), SaveRename)
  {
  }

  // ----- sealed data -----

  function Encrypt(m: Memory, nonce: int, text: Bytes): Sealed {
    Sealed(m.dataKey, nonce, Text(text))
  }

  function Decrypt(m: Memory, sealed: Sealed): Option<Bytes> {
    match Unseal(m.dataKey, sealed)
    case Some(Text(text)) => Some(text)
    case _ => None
  }

  ghost predicate Extends(later: Run, r: Run) {
    later == r || (later.Then? && Extends(later.before, r))
  }

  lemma {:induction false} ExtensionsShareTheKey(r: Run, later: Run)
    requires Extends(later, r)
    ensures DataKeyOf(later) == DataKeyOf(r)
  {
    if later != r {
      ExtensionsShareTheKey(r, later.before);
    }
  }

  /** Data sealed at any time decrypts at every later time a keyring is open,
      whatever happened to the wraps in between. */
  lemma SealedDataStaysReadable(r: Run, later: Run, nonce: int, text: Bytes)
    requires IsRun(r) && IsRun(later) && Extends(later, r)
    requires End(r).memory.Some? && End(later).memory.Some?
    ensures Decrypt(End(later).memory.value, Encrypt(End(r).memory.value, nonce, text)) == Some(text)
  {
    WrapsNeverRunOut(r);
    WrapsNeverRunOut(later);
    ExtensionsShareTheKey(r, later);
  }

  datatype VerifyResult = Right | WrongSecret | Broken(error: OpenError)

  /** Verify: open what is on disk and compare with the key in memory. */
  function VerifySecrets(m: Memory, file: Option<KeyFile>, secrets: Secrets): VerifyResult {
    match OpenFile(file, secrets)
    case Ok(key) => if key == m.dataKey then Right else WrongSecret
    case Err(e) => if e.Locked? then WrongSecret else Broken(e)
  }

  /** A recovery secret tests as right exactly when it would open the keyring now on
      disk, and never reports a fault. */
  lemma VerifyTellsTheTruth(r: Run, secrets: Secrets)
    requires IsRun(r) && End(r).memory.Some?
    ensures var file := Some(End(r).disk.file);
            VerifySecrets(End(r).memory.value, file, secrets)
            == (if OpenFile(file, secrets).Ok? then Right else WrongSecret)
  {
    WrapsNeverRunOut(r);
    AnySecretOnDiskOpens(r, secrets);
  }

  // ----- what each change does for those who hold a secret -----

  /** Where a save stops. */
  datatype SaveFault = NoFault | CreateFault | WriteFault | SyncFault | LateFault   // closing, permissions, rename

  /** The protocol's steps of a save that stops there and then removes its file. */
  function SaveSteps(fault: SaveFault): seq<Action> {
    match fault
    case NoFault => [SaveWrite, SaveSync, SaveRename]
    case CreateFault => [SaveFails(true)]
    case WriteFault => [SaveWrite, SaveFails(true)]
    case SyncFault => [SaveWrite, SaveFails(true)]
    case LateFault => [SaveWrite, SaveSync, SaveFails(true)]
  }

  function Performed(v: Vault, steps: seq<Action>): Vault
    decreases |steps|
  {
    if steps == [] then v
    else Performed(if Enabled(v, steps[0]) then Apply(v, steps[0]) else v, steps[1..])
  }

  /** The change is refused before anything is saved. */
  predicate IsRefused(m: Memory, a: Action) {
    match a
    case AddPassphrase(passphrase, _, _, _, _) => passphrase == ""
    case AddOperational(key, _, _, _) => key == "" || OperationalKek(key).None?
    case Remove(id) => Without(m.wraps, id).Err?
    case _ => true
  }

  /** Some wrap other than this one opens. */
  ghost predicate OpensWithout(wraps: seq<Wrap>, at: nat, secrets: Secrets) {
    exists k :: 0 <= k < |wraps| && k != at && TryWrap(wraps[k], secrets).Some?
  }

  /** A secret opens the list once the change is made: what opened it before, less
      what opened nothing but the wrap removed, and the secret added. */
  ghost predicate OpensAfter(wraps: seq<Wrap>, a: Action, secrets: Secrets) {
    match a
    case AddPassphrase(passphrase, _, _, _, _) => secrets.passphrase == passphrase || FirstKey(wraps, secrets).Some?
    case AddOperational(key, _, _, _) =>
      || (secrets.operationalKey != "" && OperationalKek(secrets.operationalKey) == OperationalKek(key))
      || FirstKey(wraps, secrets).Some?
    case Remove(id) => OpensWithout(wraps, IndexOf(wraps, id), secrets)
    case _ => false
  }

  lemma AppendingOpens(wraps: seq<Wrap>, w: Wrap, dataKey: Key, secrets: Secrets)
    requires WrapsOk(wraps, dataKey) && WrapOk(w, dataKey)
    ensures FirstKey(wraps + [w], secrets).Some? <==> FirstKey(wraps, secrets).Some? || TryWrap(w, secrets).Some?
  {
    AppendKeepsWraps(wraps, w, dataKey);
    SearchFindsTheKey(wraps, dataKey, secrets);
    SearchFindsTheKey(wraps + [w], dataKey, secrets);
    var all := wraps + [w];
    assert forall i | 0 <= i < |wraps| :: all[i] == wraps[i];
    assert all[|wraps|] == w;
  }

  lemma WithoutOpens(wraps: seq<Wrap>, at: nat, secrets: Secrets)
    requires at < |wraps|
    ensures var rest := wraps[..at] + wraps[at + 1..];
            OpensWithout(wraps, at, secrets) <==> OpensWithout(rest, |rest|, secrets)
  {
    var rest := wraps[..at] + wraps[at + 1..];
    if k :| 0 <= k < |wraps| && k != at && TryWrap(wraps[k], secrets).Some? {
      var i := if k < at then k else k - 1;
      assert rest[i] == wraps[k];
    }
    assert forall i | 0 <= i < |rest| :: rest[i] == wraps[if i < at then i else i + 1];
  }

  lemma RemovingOpens(wraps: seq<Wrap>, id: string, dataKey: Key, secrets: Secrets)
    requires WrapsOk(wraps, dataKey) && Without(wraps, id).Ok?
    ensures FirstKey(Without(wraps, id).value, secrets).Some? <==> OpensWithout(wraps, IndexOf(wraps, id), secrets)
  {
    var rest := Without(wraps, id).value;
    WithoutOpens(wraps, IndexOf(wraps, id), secrets);
    RemovalKeepsWraps(wraps, id, dataKey);
    SearchFindsTheKey(rest, dataKey, secrets);
  }

  lemma ChangeOpens(v: Vault, a: Action, dataKey: Key, secrets: Secrets)
    requires VaultOk(v, dataKey) && Enabled(v, a) && v.memory.Some? && !IsRefused(v.memory.value, a)
    ensures var v' := Apply(v, a);
            && VaultOk(v', dataKey) && v'.disk == v.disk && v'.saving && v'.temp.None? && v'.memory.Some?
            && (FirstKey(v'.memory.value.wraps, secrets).Some? <==> OpensAfter(v.memory.value.wraps, a, secrets))
  {
    StepKeepsVault(v, a, dataKey);
    var wraps := v.memory.value.wraps;
    if a.AddPassphrase? {
      var w := NewPassphraseWrap(dataKey, a.passphrase, a.tag, a.id, a.salt, a.nonce);
      PassphraseWrapOpens(dataKey, a.passphrase, a.tag, a.id, a.salt, a.nonce, secrets);
      AppendingOpens(wraps, w, dataKey, secrets);
    } else if a.AddOperational? {
      var w := NewOperationalWrap(dataKey, a.key, a.tag, a.id, a.nonce).value;
      OperationalWrapOpens(dataKey, a.key, a.tag, a.id, a.nonce, secrets);
      AppendingOpens(wraps, w, dataKey, secrets);
    } else {
      RemovingOpens(wraps, a.id, dataKey, secrets);
    }
  }

  /** A save replaces the file whole or leaves it as it was. */
  lemma SavesAreAtomic(v: Vault, fault: SaveFault)
    requires v.saving && v.memory.Some? && v.temp.None?
    ensures Performed(v, SaveSteps(fault))
         == v.(saving := false,
               disk := if fault.NoFault? then Stored(KeyFile(1, v.memory.value.wraps), true) else v.disk,
               older := if fault.NoFault? then v.older + [v.disk] else v.older)
  {
    var written := Apply(v, SaveWrite);
    match fault
    case NoFault =>
      assert SaveSteps(fault)[1..] == [SaveSync, SaveRename];
      assert [SaveSync, SaveRename][1..] == [SaveRename];
      assert [SaveRename][1..] == [];
      var synced := Apply(written, SaveSync);
      assert Performed(synced, [SaveRename]) == Performed(Apply(synced, SaveRename), []);
    case CreateFault => assert SaveSteps(fault)[1..] == [];
    case WriteFault => AbandonedSave(v, SaveWrite);
    case SyncFault => AbandonedSave(v, SaveWrite);
    case LateFault =>
      assert SaveSteps(fault)[1..] == [SaveSync, SaveFails(true)];
      AbandonedSave(written, SaveSync);
  }

  lemma AbandonedSave(v: Vault, step: Action)
    requires Enabled(v, step) && (step.SaveWrite? || step.SaveSync?)
    ensures Performed(v, [step, SaveFails(true)]) == v.(temp := None, saving := false)
  {
    assert [step, SaveFails(true)][1..] == [SaveFails(true)];
    assert [SaveFails(true)][1..] == [];
    assert Performed(Apply(v, step), [SaveFails(true)]) == Performed(Apply(Apply(v, step), SaveFails(true)), []);
  }

  /** After a change that reports success, the file opens under exactly the secrets
      it should; after one that does not, under exactly those it did before. */
  lemma ChangesAreExact(v: Vault, a: Action, fault: SaveFault, dataKey: Key, secrets: Secrets)
    requires VaultOk(v, dataKey) && Enabled(v, a) && v.memory.Some? && !IsRefused(v.memory.value, a)
    ensures var v' := Performed(v, [a] + SaveSteps(fault));
            && VaultOk(v', dataKey) && !v'.saving && v'.temp.None?
            && (fault.NoFault? ==>
                  (OpenFile(Some(v'.disk.file), secrets) == Ok(dataKey)
                   <==> OpensAfter(v.memory.value.wraps, a, secrets)))
            && (!fault.NoFault? ==> v'.disk == v.disk)
  {
    ChangeOpens(v, a, dataKey, secrets);
    SavesAreAtomic(Apply(v, a), fault);
    assert ([a] + SaveSteps(fault))[1..] == SaveSteps(fault);
    SearchFindsTheKey(Apply(v, a).memory.value.wraps, dataKey, secrets);
  }

  // ----- wraps whose addition was reported -----

  /** The wrap whose addition is being saved. */
  function Adding(r: Run): Option<Wrap> {
    match r
    case Start(_) => None
    case Then(before, a) =>
      match a
      case AddPassphrase(passphrase, tag, id, salt, nonce) =>
        Some(NewPassphraseWrap(DataKeyOf(r), passphrase, tag, id, salt, nonce))
      case AddOperational(key, tag, id, nonce) => NewOperationalWrap(DataKeyOf(r), key, tag, id, nonce)
      case SaveWrite => Adding(before)
      case Flush => Adding(before)
      case SaveSync => Adding(before)
      case Reopen(_) => Adding(before)
      case _ => None
  }

  /** The wraps whose Create or addition returned without an error. */
  function Confirmed(r: Run): set<Wrap> {
    match r
    case Start(c) => (match CreateWraps(c) case Some(wraps) => (set w | w in wraps) case None => {})
    case Then(before, a) =>
      if a.SaveRename? && Adding(before).Some? then Confirmed(before) + {Adding(before).value} else Confirmed(before)
  }

  ghost predicate HoldsConfirmed(wraps: seq<Wrap>, r: Run) {
    exists w :: w in wraps && w in Confirmed(r)
  }

  /** The removal, if it is not refused, leaves a confirmed wrap in memory. */
  ghost predicate Spares(r: Run, id: string) {
    End(r).memory.Some? ==>
      match Without(End(r).memory.value.wraps, id)
      case Ok(rest) => HoldsConfirmed(rest, r)
      case Err(_) => true
  }

  ghost predicate AlwaysSpares(r: Run) {
    r.Then? ==> AlwaysSpares(r.before) && (r.action.Remove? ==> Spares(r.before, r.action.id))
  }

  ghost predicate FileConfirmed(s: Stored, r: Run) {
    s.file.KeyFile? && HoldsConfirmed(s.file.wraps, r)
  }

  ghost predicate KeepsConfirmed(r: Run) {
    && FileConfirmed(End(r).disk, r) && (forall i | 0 <= i < |End(r).older| :: FileConfirmed(End(r).older[i], r))
    && (End(r).memory.Some? ==> HoldsConfirmed(End(r).memory.value.wraps, r))
  }

  lemma StepKeepsConfirmed(before: Run, a: Action)
    requires IsRun(Then(before, a)) && VaultOk(End(before), DataKeyOf(before)) && KeepsConfirmed(before)
    requires a.Remove? ==> Spares(before, a.id)
    ensures KeepsConfirmed(Then(before, a))
  {
    ConfirmedGrows(before, a);
    if a.AddPassphrase? || a.AddOperational? || a.Remove? {
      ChangeKeepsConfirmed(before, a);
    }
  }

  lemma ChangeKeepsConfirmed(before: Run, a: Action)
    requires IsRun(Then(before, a)) && VaultOk(End(before), DataKeyOf(before)) && KeepsConfirmed(before)
    requires a.AddPassphrase? || a.AddOperational? || (a.Remove? && Spares(before, a.id))
    ensures KeepsConfirmed(Then(before, a))
  {
    var r := Then(before, a);
    ConfirmedGrows(before, a);
    var wraps := End(before).memory.value.wraps;
    if a.Remove? {
      assert HoldsConfirmed(if Without(wraps, a.id).Ok? then Without(wraps, a.id).value else wraps, r);
    } else {
      AppendingKeepsConfirmed(wraps, End(r).memory.value.wraps, r);
    }
  }

  lemma ConfirmedGrows(before: Run, a: Action)
    ensures forall wraps | HoldsConfirmed(wraps, before) :: HoldsConfirmed(wraps, Then(before, a))
  {
    forall wraps | HoldsConfirmed(wraps, before)
      ensures HoldsConfirmed(wraps, Then(before, a))
    {
      var w :| w in wraps && w in Confirmed(before);
      assert w in Confirmed(Then(before, a));
    }
  }

  lemma AppendingKeepsConfirmed(wraps: seq<Wrap>, longer: seq<Wrap>, r: Run)
    requires HoldsConfirmed(wraps, r) && |wraps| <= |longer| && longer[..|wraps|] == wraps
    ensures HoldsConfirmed(longer, r)
  {
    var w :| w in wraps && w in Confirmed(r);
    assert w in longer[..|wraps|];
  }

  lemma {:induction false} ConfirmedStays(r: Run)
    requires IsRun(r) && AlwaysSpares(r)
    ensures KeepsConfirmed(r)
  {
    match r
    case Start(c) =>
      CreateIsOk(c);
      var wraps := CreateWraps(c).value;
      assert wraps[0] in wraps && wraps[0] in Confirmed(r);
      assert End(r).older == [];
    case Then(before, a) =>
      ConfirmedStays(before);
      WrapsNeverRunOut(before);
      StepKeepsConfirmed(before, a);
  }

  /** As long as each removal spares one, some secret that its holder was told is in
      place opens the file on disk. */
  lemma ConfirmedSecretsOpen(r: Run)
    requires IsRun(r) && AlwaysSpares(r)
    ensures End(r).disk.file.KeyFile?
    ensures exists w, secrets ::
              && w in Confirmed(r) && w in End(r).disk.file.wraps && TryWrap(w, secrets) == Some(DataKeyOf(r))
              && OpenFile(Some(End(r).disk.file), secrets) == Ok(DataKeyOf(r))
  {
    ConfirmedStays(r);
    WrapsNeverRunOut(r);
    var wraps := End(r).disk.file.wraps;
    var w :| w in wraps && w in Confirmed(r);
    var i :| 0 <= i < |wraps| && wraps[i] == w;
    assert WrapOk(wraps[i], DataKeyOf(r));
    var secrets :| TryWrap(w, secrets) == Some(DataKeyOf(r));
    AnySecretOnDiskOpens(r, secrets);
  }

  // ----- when an addition is safe -----

  /** `later` continues `r` and does not remove the wrap. */
  ghost predicate ExtendsKeeping(later: Run, r: Run, w: Wrap) {
    later == r || (later.Then? && later.action != Remove(w.id) && ExtendsKeeping(later.before, r, w))
  }

  predicate IsIn(w: Wrap, s: Stored) {
    s.file.KeyFile? && w in s.file.wraps
  }

  /** The wrap is in every file a crash can leave, and in memory. */
  ghost predicate IsSafe(w: Wrap, v: Vault) {
    && IsIn(w, v.disk) && (forall i | 0 <= i < |v.older| :: IsIn(w, v.older[i]))
    && (v.memory.Some? ==> w in v.memory.value.wraps)
  }

  lemma StepKeepsSafe(v: Vault, a: Action, w: Wrap, dataKey: Key)
    requires VaultOk(v, dataKey) && IsSafe(w, v) && Enabled(v, a) && a != Remove(w.id)
    ensures IsSafe(w, Apply(v, a))
  {
    if a.Remove? {
      OthersSurviveRemoval(v.memory.value.wraps, w, a.id);
    }
  }

  lemma OthersSurviveRemoval(wraps: seq<Wrap>, w: Wrap, id: string)
    requires w in wraps && w.id != id
    ensures Without(wraps, id).Ok? ==> w in Without(wraps, id).value
  {
    var at := IndexOf(wraps, id);
    var i :| 0 <= i < |wraps| && wraps[i] == w;
    if Without(wraps, id).Ok? {
      var rest := Without(wraps, id).value;
      assert rest[if i < at then i else i - 1] == w;
    }
  }

  lemma {:induction false} SafeStaysSafe(r: Run, later: Run, w: Wrap)
    requires IsRun(later) && ExtendsKeeping(later, r, w) && IsSafe(w, End(r))
    ensures IsSafe(w, End(later))
  {
    if later != r {
      SafeStaysSafe(r, later.before, w);
      WrapsNeverRunOut(later.before);
      StepKeepsSafe(End(later.before), later.action, w, DataKeyOf(later.before));
    }
  }

  /** Exactly when a wrap in memory stays in the file on disk through whatever comes
      but its own removal: when it is there and in every file that a crash could bring
      back. */
  lemma {:induction false} AdditionIsSafeIff(r: Run, w: Wrap)
    requires IsRun(r) && (End(r).memory.Some? ==> w in End(r).memory.value.wraps)
    ensures IsSafe(w, End(r))
       <==> forall later | IsRun(later) && ExtendsKeeping(later, r, w) :: IsIn(w, End(later).disk)
  {
    WrapsNeverRunOut(r);
    if IsSafe(w, End(r)) {
      forall later | IsRun(later) && ExtendsKeeping(later, r, w)
        ensures IsIn(w, End(later).disk)
      {
        SafeStaysSafe(r, later, w);
      }
    } else if !IsIn(w, End(r).disk) {
      assert ExtendsKeeping(r, r, w);
    } else {
      var i: nat :| i < |End(r).older| && !IsIn(w, End(r).older[i]);
      CrashTakesBack(r, i, w);
    }
  }

  lemma CrashTakesBack(r: Run, i: nat, w: Wrap)
    requires IsRun(r) && i < |End(r).older|
    ensures var crashed := Then(r, Crash(Malformed, Some(i)));
            IsRun(crashed) && ExtendsKeeping(crashed, r, w) && End(crashed).disk == End(r).older[i]
  {
    WrapsNeverRunOut(r);
    assert FileOk(End(r).older[i], DataKeyOf(r));
    assert ExtendsKeeping(r, r, w);
  }

  /** The rename that completes an addition does not make it safe: the file without
      the wrap may still come back. It is safe once the directory is written out. */
  lemma NewAdditionsAreAtRisk(r: Run, w: Wrap)
    requires IsRun(r) && Enabled(End(r), SaveRename) && End(r).memory.Some?
    requires w in End(r).memory.value.wraps && !IsIn(w, End(r).disk)
    ensures var renamed := Then(r, SaveRename);
            && IsRun(renamed) && IsIn(w, End(renamed).disk) && !IsSafe(w, End(renamed))
            && IsRun(Then(renamed, Flush)) && IsSafe(w, End(Then(renamed, Flush)))
  {
    WrapsNeverRunOut(r);
    assert End(Then(r, SaveRename)).older[|End(r).older|] == End(r).disk;
  }

  // ----- which removals are safe -----

  /** A refused removal changes nothing, and so spares what there was. */
  lemma RefusedRemovalsSpare(r: Run, id: string)
    requires IsRun(r) && Enabled(End(r), Remove(id)) && Without(End(r).memory.value.wraps, id).Err?
    ensures Apply(End(r), Remove(id)) == End(r) && Spares(r, id)
  {
  }

  /** An addition whose save succeeds is confirmed and in the file. */
  lemma SavedAdditionsAreConfirmed(r: Run, a: Action)
    requires IsRun(r) && Enabled(End(r), a) && (a.AddPassphrase? || a.AddOperational?)
    requires End(r).memory.Some? && !IsRefused(End(r).memory.value, a)
    ensures var saved := Saved(Then(r, a));
            && IsRun(saved) && End(saved).memory.Some? && End(saved).disk.file.KeyFile?
            && End(saved).memory.value.wraps == End(saved).disk.file.wraps
            && |End(saved).disk.file.wraps| == |End(r).memory.value.wraps| + 1
            && End(saved).disk.file.wraps[|End(r).memory.value.wraps|] in Confirmed(saved)
  {
    WrapsNeverRunOut(r);
    var added := Then(r, a);
    var saved := Saved(added);
    assert IsRun(added) && IsRun(saved.before.before) && IsRun(saved.before) && IsRun(saved);
    var w := End(added).memory.value.wraps[|End(r).memory.value.wraps|];
    assert Adding(added) == Some(w) && Adding(saved.before.before) == Some(w) && Adding(saved.before) == Some(w);
  }

  function Saved(r: Run): Run {
    Then(Then(Then(r, SaveWrite), SaveSync), SaveRename)
  }

  /** Exactly which removals are safe: saving one leaves a confirmed wrap on disk if
      and only if it spares one in memory. It always does while no addition whose
      save failed is still in memory. */
  lemma RemovalIsSafeIff(r: Run, id: string)
    requires IsRun(r) && Enabled(End(r), Remove(id)) && Without(End(r).memory.value.wraps, id).Ok?
    ensures var saved := Saved(Then(r, Remove(id)));
            && IsRun(saved) && End(saved).disk.file == KeyFile(1, Without(End(r).memory.value.wraps, id).value)
            && (HoldsConfirmed(End(saved).disk.file.wraps, saved) <==> Spares(r, id))
    ensures (forall w | w in End(r).memory.value.wraps :: w in Confirmed(r)) ==> Spares(r, id)
  {
    var rest := Without(End(r).memory.value.wraps, id).value;
    var removed := Then(r, Remove(id));
    assert End(removed).memory.value.wraps == rest;
    var saved := Saved(removed);
    assert IsRun(removed) && IsRun(saved.before.before) && IsRun(saved.before) && IsRun(saved);
    assert Adding(removed) == None && Adding(saved.before.before) == None && Adding(saved.before) == None;
    assert Confirmed(saved.before.before) == Confirmed(removed) == Confirmed(r);
    assert Confirmed(saved) == Confirmed(saved.before) == Confirmed(r);
    assert End(saved).disk.file == KeyFile(1, rest);
    assert rest[0] in rest && rest[0] in End(r).memory.value.wraps;
  }

  /** From a keyring with one wrap: adding a passphrase fails to save, and the wrap
      that was there is then removed. */
  function Stranded(r: Run, passphrase: string, tag: string, id: string, salt: Bytes, nonce: int): Run
    requires End(r).memory.Some? && |End(r).memory.value.wraps| == 1
  {
    var failed := Then(Then(r, AddPassphrase(passphrase, tag, id, salt, nonce)), SaveFails(true));
    Saved(Then(failed, Remove(End(r).memory.value.wraps[0].id)))
  }

  lemma FailedAdditionStays(r: Run, passphrase: string, tag: string, id: string, salt: Bytes, nonce: int)
    requires IsRun(r) && Enabled(End(r), AddPassphrase(passphrase, tag, id, salt, nonce))
    ensures var failed := Then(Then(r, AddPassphrase(passphrase, tag, id, salt, nonce)), SaveFails(true));
            var w := NewPassphraseWrap(DataKeyOf(r), passphrase, tag, id, salt, nonce);
            && IsRun(failed) && !End(failed).saving && Confirmed(failed) == Confirmed(r)
            && End(failed).memory == Some(Memory(DataKeyOf(r), End(r).memory.value.wraps + [w]))
  {
    WrapsNeverRunOut(r);
    assert IsRun(Then(r, AddPassphrase(passphrase, tag, id, salt, nonce)));
  }

  /** The refusal to remove the last wrap counts wraps whose addition was reported as
      failed: so every keyring with one wrap can be brought to where no confirmed
      wrap is left, and the file opens under the passphrase that was reported as
      not added and under nothing else. */
  lemma LastWrapRefusalCountsFailures(
      r: Run, passphrase: string, tag: string, id: string, salt: Bytes, nonce: int, secrets: Secrets)
    requires IsRun(r) && Enabled(End(r), AddPassphrase(passphrase, tag, id, salt, nonce))
    requires |End(r).memory.value.wraps| == 1
    requires NewPassphraseWrap(DataKeyOf(r), passphrase, tag, id, salt, nonce) !in Confirmed(r)
    ensures var stranded := Stranded(r, passphrase, tag, id, salt, nonce);
            && IsRun(stranded) && End(stranded).disk.file.KeyFile?
            && !HoldsConfirmed(End(stranded).disk.file.wraps, stranded)
            && (OpenFile(Some(End(stranded).disk.file), secrets).Ok? <==> secrets.passphrase == passphrase)
  {
    StrandedEnds(r, passphrase, tag, id, salt, nonce);
    PassphraseWrapOpens(DataKeyOf(r), passphrase, tag, id, salt, nonce, secrets);
    OnlyWrapOpens(NewPassphraseWrap(DataKeyOf(r), passphrase, tag, id, salt, nonce), secrets);
  }

  lemma StrandedEnds(r: Run, passphrase: string, tag: string, id: string, salt: Bytes, nonce: int)
    requires IsRun(r) && Enabled(End(r), AddPassphrase(passphrase, tag, id, salt, nonce))
    requires |End(r).memory.value.wraps| == 1
    ensures var stranded, w := Stranded(r, passphrase, tag, id, salt, nonce),
                               NewPassphraseWrap(DataKeyOf(r), passphrase, tag, id, salt, nonce);
            && IsRun(stranded) && End(stranded).disk.file == KeyFile(1, [w])
            && (w !in Confirmed(r) ==> !HoldsConfirmed([w], stranded))
  {
    var failed := Then(Then(r, AddPassphrase(passphrase, tag, id, salt, nonce)), SaveFails(true));
    var first := End(r).memory.value.wraps[0];
    var second := NewPassphraseWrap(DataKeyOf(r), passphrase, tag, id, salt, nonce);
    FailedAdditionStays(r, passphrase, tag, id, salt, nonce);
    assert End(r).memory.value.wraps + [second] == [first, second];
    assert IndexOf([first, second], first.id) == 0;
    assert [first, second][..0] + [first, second][1..] == [second];
    RemovalIsSafeIff(failed, first.id);
  }

  lemma OnlyWrapOpens(w: Wrap, secrets: Secrets)
    ensures FirstKey([w], secrets) == TryWrap(w, secrets)
  {
    assert [w][1..] == [];
  }

  // ----- the keyring object -----

  /** The key file, with the files it has replaced and the temporary one. */
  class KeyringFile {
    var stored: Stored
    var older: seq<Stored>
    var temp: Option<Stored>

    constructor (stored: Stored)
      ensures this.stored == stored && older == [] && temp == None
    {
      this.stored, older, temp := stored, [], None;
    }
  }

  class Ring {
    const dataKey: Key
    const disk: KeyringFile
    var wraps: seq<Wrap>

    constructor (dataKey: Key, wraps: seq<Wrap>, disk: KeyringFile)
      ensures this.dataKey == dataKey && this.wraps == wraps && this.disk == disk
    {
      this.dataKey, this.wraps, this.disk := dataKey, wraps, disk;
    }

    /** The keyring and its file as the protocol sees them between operations. */
    ghost function AsVault(): Vault
      reads this, disk
    {
      Vault(disk.stored, disk.older, disk.temp, Some(Memory(dataKey, wraps)), false)
    }

    /** Write a temporary file, make it durable, and rename it over the key file; the
        temporary file is removed whatever happens. */
    method Save(fault: SaveFault) returns (ok: bool)
      modifies disk
      ensures AsVault() == Performed(old(AsVault()).(temp := None, saving := true), SaveSteps(fault))
      ensures ok <==> fault.NoFault?
    {
      ghost var v := AsVault().(temp := None, saving := true);
      SavesAreAtomic(v, fault);
      disk.temp := None;
      if fault.CreateFault? {
        return false;
      }
      disk.temp := Some(Stored(KeyFile(1, wraps), false));
      if fault.WriteFault? || fault.SyncFault? {
        disk.temp := None;
        return false;
      }
      disk.temp := Some(Stored(KeyFile(1, wraps), true));
      ok := fault.NoFault?;
      if ok {
        disk.stored, disk.older := disk.temp.value, disk.older + [disk.stored];
      }
      disk.temp := None;
    }

    /** Does what the protocol's steps do, wherever the save stops. */
    method AddPassphrase(passphrase: string, tag: string, id: string, salt: Bytes, nonce: int, fault: SaveFault)
      returns (ok: bool)
      requires VaultOk(AsVault(), dataKey)
      modifies this, disk
      ensures VaultOk(AsVault(), dataKey)
      ensures var a := Action.AddPassphrase(passphrase, tag, id, salt, nonce);
              AsVault() == Performed(old(AsVault()), if passphrase == "" then [] else [a] + SaveSteps(fault))
      ensures ok <==> passphrase != "" && fault.NoFault?
      ensures passphrase != "" ==>
                && |wraps| == |old(wraps)| + 1 && wraps[..|old(wraps)|] == old(wraps)
                && (var w := wraps[|old(wraps)|];
                    && w.id == id && w.kind == "passphrase" && w.tag == tag && w.salt == Encode(Standard, salt)
                    && w.kdfMemory == 262_144 && w.kdfTime == 4 && w.kdfThreads == 4)
      ensures ok ==> OpenFile(Some(disk.stored.file), Secrets(passphrase, "")) == Ok(dataKey)
      ensures !ok ==> disk.stored == old(disk.stored)
    {
      if passphrase == "" {
        return false;
      }
      ghost var a := Action.AddPassphrase(passphrase, tag, id, salt, nonce);
      ChangesAreExact(AsVault(), a, fault, dataKey, Secrets(passphrase, ""));
      assert ([a] + SaveSteps(fault))[1..] == SaveSteps(fault);
      wraps := wraps + [NewPassphraseWrap(dataKey, passphrase, tag, id, salt, nonce)];
      ok := Save(fault);
    }

    method AddOperationalKey(key: string, tag: string, id: string, nonce: int, fault: SaveFault) returns (ok: bool)
      requires VaultOk(AsVault(), dataKey)
      modifies this, disk
      ensures VaultOk(AsVault(), dataKey)
      ensures var refused := key == "" || OperationalKek(key).None?;
              && AsVault() == Performed(old(AsVault()),
                   if refused then [] else [AddOperational(key, tag, id, nonce)] + SaveSteps(fault))
              && (ok <==> !refused && fault.NoFault?)
              && (!refused ==>
                    && |wraps| == |old(wraps)| + 1 && wraps[..|old(wraps)|] == old(wraps)
                    && (var added := wraps[|old(wraps)|];
                        && added.id == id && added.kind == "operational" && added.tag == tag && added.salt == ""
                        && added.kdfMemory == 0 && added.kdfTime == 0 && added.kdfThreads == 0))
      ensures ok ==> OpenFile(Some(disk.stored.file), Secrets("", key)) == Ok(dataKey)
      ensures !ok ==> disk.stored == old(disk.stored)
    {
      var w := NewOperationalWrap(dataKey, key, tag, id, nonce);
      if key == "" || w.None? {
        return false;
      }
      ghost var a := AddOperational(key, tag, id, nonce);
      ChangesAreExact(AsVault(), a, fault, dataKey, Secrets("", key));
      assert ([a] + SaveSteps(fault))[1..] == SaveSteps(fault);
      wraps := wraps + [w.value];
      ok := Save(fault);
    }

    /** Refuses an unknown id and the last wrap; a failed save has still removed the
        wrap from memory. */
    method RemoveWrap(id: string, fault: SaveFault) returns (r: Result<bool, RemoveError>)
      requires VaultOk(AsVault(), dataKey)
      modifies this, disk
      ensures VaultOk(AsVault(), dataKey)
      ensures r == Err(UnknownWrap) <==> forall w | w in old(wraps) :: w.id != id
      ensures r == Err(LastWrap) <==> |old(wraps)| == 1 && old(wraps)[0].id == id
      ensures r.Ok? ==> r.value == fault.NoFault?
      ensures AsVault() == Performed(old(AsVault()), if r.Err? then [] else [Remove(id)] + SaveSteps(fault))
      ensures r != Ok(true) ==> disk.stored == old(disk.stored)
    {
      match Without(wraps, id)
      case Err(e) =>
        r := Err(e);
        assert e.UnknownWrap? || wraps[0] in wraps;
      case Ok(rest) =>
        assert wraps[IndexOf(wraps, id)] in wraps;
        ChangesAreExact(AsVault(), Remove(id), fault, dataKey, Secrets("", ""));
        assert ([Remove(id)] + SaveSteps(fault))[1..] == SaveSteps(fault);
        wraps := rest;
        var ok := Save(fault);
        r := Ok(ok);
    }
  }
}
