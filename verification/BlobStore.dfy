/** The content-addressed blob store: concurrent uploads, each a temporary file
    that is hashed, synced and renamed, with crashes at any point. Uploads sync
    their contents but never a directory, so a crash may undo what was lately done
    to a name: a new entry may vanish and a removed one may return.

    The hash is a parameter `h`, of which only its hexadecimal form is assumed;
    freedom from collisions is a hypothesis where it is needed. */
module BlobStore {
  import opened Wrappers

  type Hash = Bytes -> string

  const DIGEST_LEN := 64

  predicate IsHex(c: char) {
    '0' <= c <= '9' || 'a' <= c <= 'f'
  }

  predicate ValidDigest(digest: string) {
    |digest| == DIGEST_LEN && forall i | 0 <= i < |digest| :: IsHex(digest[i])
  }

  ghost predicate IsHash(h: Hash) {
    forall b :: ValidDigest(h(b))
  }

  /** No two of these contents have the same digest. */
  ghost predicate CollisionFree(h: Hash, contents: set<Bytes>) {
    forall a, b | a in contents && b in contents && h(a) == h(b) :: a == b
  }

  // ----- paths -----

  /** A path below the store's root, one name per level. */
  type Path = seq<string>

  /** Two levels of fan-out; None for anything that is not a digest. */
  function PathFor(digest: string): Option<Path> {
    if ValidDigest(digest) then Some([digest[0..2], digest[2..4], digest]) else None
  }

  function TempPath(name: nat): Path {
    ["tmp", Upload(name)]
  }

  /** Distinct temporary names. */
  function Upload(name: nat): string {
    if name == 0 then "upload-" else Upload(name - 1) + "x"
  }

  predicate IsBlobPath(p: Path) {
    |p| == 3 && PathFor(p[2]) == Some(p)
  }

  lemma {:induction false} UploadLength(name: nat)
    ensures |Upload(name)| == 7 + name
  {
    if name > 0 {
      UploadLength(name - 1);
    }
  }

  lemma TempPathsDiffer(a: nat, b: nat)
    requires TempPath(a) == TempPath(b)
    ensures a == b
  {
    UploadLength(a);
    UploadLength(b);
    assert TempPath(a)[1] == TempPath(b)[1];
  }

  /** Exactly the digests have paths: the first four characters fan out. */
  lemma DigestsLeadInTwoLevels(d: string)
    ensures PathFor(d).Some? <==> |d| == 64 && forall i | 0 <= i < |d| :: d[i] in "0123456789abcdef"
    ensures PathFor(d).Some? ==>
              var p := PathFor(d).value;
              |p| == 3 && |p[0]| == 2 && |p[1]| == 2 && p[0] + p[1] <= d && p[2] == d
  {
  }

  /** A digest never leads out of the store: every name on its path is plain
      hexadecimal, the path is not that of an upload in progress, and distinct
      digests have distinct paths. */
  lemma DigestsStayInside(d: string, e: string, i: nat, j: nat, name: nat)
    requires PathFor(d).Some? && i < 3 && j < |PathFor(d).value[i]|
    ensures PathFor(d).value[i][j] !in {'/', '\\', '.'}
    ensures PathFor(d).value != TempPath(name)
    ensures PathFor(d) == PathFor(e) ==> d == e
  {
    assert IsHex(PathFor(d).value[i][j]) by {
      assert PathFor(d).value[i][j] == d[if i == 1 then 2 + j else j];
    }
    if PathFor(d) == PathFor(e) {
      assert PathFor(e).value[2] == e;
    }
  }

  // ----- the protocol -----

  /** File contents; unsynced data may not survive a crash. */
  datatype File = File(bytes: Bytes, synced: bool)

  type Files = map<Path, File>

  datatype Phase = Writing | Synced | Closed | Absent | Renamed

  /** A Put in progress: what it is asked to store, how much it has read, hashed
      and written, and how far it has come. */
  datatype Put = Put(name: nat, source: Bytes, read: nat, phase: Phase)

  type PutId = nat

  datatype Store = Store(
    files: Files,
    puts: map<PutId, Put>,
    names: set<nat>,           // temporary names ever used
    asked: set<Bytes>,         // everything a Put was ever asked to store
    stored: set<Bytes>,        // uploads whose reference was returned
    unflushed: set<Path>,      // entries made since their directory last reached the disk
    removed: set<(Path, File)>) // entries removed or replaced since then

  datatype Action =
    | Begin(put: PutId, name: nat, source: Bytes)
    | Write(put: PutId, count: nat)
    | Sync(put: PutId)
    | Close(put: PutId)
    | Stat(put: PutId)                      // the check for an existing copy
    | Rename(put: PutId)
    | RenameFails(put: PutId)
    | Chmod(put: PutId, ok: bool)
    | Abort(put: PutId, removed: bool)      // any earlier failure; removing the temporary file may fail too
    | Delete(digest: string)
    | CleanTemp(stuck: set<Path>)           // files whose removal fails
    | Flush(paths: set<Path>)               // the system writes directory entries out
    | Crash(survives: map<Path, Bytes>, dropped: set<Path>, back: map<Path, File>)

  function Final(h: Hash, p: Put): Path
    requires p.read <= |p.source|
  {
    match PathFor(h(p.source[..p.read]))
    case Some(path) => path
    case None => []
  }

  predicate Enabled(h: Hash, s: Store, a: Action) {
    match a
    case Begin(put, name, _) => put !in s.puts && name !in s.names && TempPath(name) !in s.files
    case Write(put, count) =>
      put in s.puts && s.puts[put].phase == Writing && s.puts[put].read + count <= |s.puts[put].source|
    case Sync(put) => put in s.puts && s.puts[put].phase == Writing && s.puts[put].read == |s.puts[put].source|
    case Close(put) => put in s.puts && s.puts[put].phase == Synced
    case Stat(put) => put in s.puts && s.puts[put].phase == Closed && s.puts[put].read <= |s.puts[put].source|
    case Rename(put) =>
      put in s.puts && s.puts[put].phase == Absent && s.puts[put].read <= |s.puts[put].source|
      && TempPath(s.puts[put].name) in s.files
    case RenameFails(put) => put in s.puts && s.puts[put].phase == Absent && s.puts[put].read <= |s.puts[put].source|
    case Chmod(put, _) => put in s.puts && s.puts[put].phase == Renamed
    case Abort(put, _) => put in s.puts && s.puts[put].phase != Renamed
    case Delete(_) => true
    case CleanTemp(_) => true
    case Flush(_) => true
    case Crash(_, dropped, back) => dropped <= s.unflushed && forall p | p in back :: (p, back[p]) in s.removed
  }

  predicate IsTempPath(p: Path) {
    |p| == 2 && p[0] == "tmp" && "upload-" <= p[1]
  }

  /** Give a file a name, in place of whatever had it. A name in use stays in use. */
  function Link(s: Store, p: Path, f: File): Store {
    s.(files := s.files[p := f],
       unflushed := if p in s.files then s.unflushed else s.unflushed + {p},
       removed := if p in s.files then s.removed + {(p, s.files[p])} else s.removed)
  }

  function Unlink(s: Store, p: Path): Store {
    if p in s.files then s.(files := s.files - {p}, removed := s.removed + {(p, s.files[p])}) else s
  }

  /** The deferred cleanup: the temporary file goes, the Put is over. */
  function Discard(s: Store, put: PutId): Store
    requires put in s.puts
  {
    Unlink(s, TempPath(s.puts[put].name)).(puts := s.puts - {put})
  }

  function Return(s: Store, put: PutId): Store
    requires put in s.puts
  {
    Discard(s, put).(stored := s.stored + {s.puts[put].source})
  }

  /** What a crash leaves: dropped entries are gone, returning ones are back, and
      unsynced contents are whatever reached the disk, if anything did. */
  function Surviving(s: Store, survives: map<Path, Bytes>, dropped: set<Path>, back: map<Path, File>): Files {
    map p | p in s.files.Keys - dropped + back.Keys && (FileAfter(s, back, p).synced || p in survives) ::
      if FileAfter(s, back, p).synced then FileAfter(s, back, p) else File(survives[p], false)
  }

  function FileAfter(s: Store, back: map<Path, File>, p: Path): File
    requires p in s.files || p in back
  {
    if p in back then back[p] else s.files[p]
  }

  function Apply(h: Hash, s: Store, a: Action): Store
    requires Enabled(h, s, a)
  {
    match a
    case Begin(put, name, source) =>
      Link(s, TempPath(name), File([], false)).(
        puts := s.puts[put := Put(name, source, 0, Writing)],
        names := s.names + {name}, asked := s.asked + {source})
    case Write(put, count) =>
      var p := s.puts[put];
      var temp := TempPath(p.name);
      var chunk := p.source[p.read..p.read + count];
      s.(files := if temp in s.files then s.files[temp := File(s.files[temp].bytes + chunk, false)] else s.files,
         puts := s.puts[put := p.(read := p.read + count)])
    case Sync(put) =>
      var temp := TempPath(s.puts[put].name);
      s.(files := if temp in s.files then s.files[temp := s.files[temp].(synced := true)] else s.files,
         puts := s.puts[put := s.puts[put].(phase := Synced)])
    case Close(put) => s.(puts := s.puts[put := s.puts[put].(phase := Closed)])
    case Stat(put) =>
      if Final(h, s.puts[put]) in s.files then Return(s, put)
      else s.(puts := s.puts[put := s.puts[put].(phase := Absent)])
    case Rename(put) =>
      var p := s.puts[put];
      Link(Unlink(s, TempPath(p.name)), Final(h, p), s.files[TempPath(p.name)]).(
        puts := s.puts[put := p.(phase := Renamed)])
    case RenameFails(put) =>
      if Final(h, s.puts[put]) in s.files then Return(s, put) else Discard(s, put)
    case Chmod(put, ok) =>
      if ok then s.(puts := s.puts - {put}, stored := s.stored + {s.puts[put].source})
      else s.(puts := s.puts - {put})
    case Abort(put, removed) => if removed then Discard(s, put) else s.(puts := s.puts - {put})
    case Delete(digest) =>
      (match PathFor(digest)
       case Some(path) => Unlink(s, path)
       case None => s)
    case CleanTemp(stuck) =>
      var gone := set p | p in s.files && IsTempPath(p) && p !in stuck;
      s.(files := s.files - gone, removed := s.removed + (set p | p in gone :: (p, s.files[p])))
    case Flush(paths) => s.(unflushed := s.unflushed - paths, removed := set e | e in s.removed && e.0 !in paths)
    case Crash(survives, dropped, back) =>
      Store(Surviving(s, survives, dropped, back), map[], s.names, s.asked, s.stored, {}, {})
  }

  datatype Run = Start | Then(before: Run, action: Action)

  function End(h: Hash, r: Run): Store {
    match r
    case Start => Store(map[], map[], {}, {}, {}, {}, {})
    case Then(before, a) => var s := End(h, before); if Enabled(h, s, a) then Apply(h, s, a) else s
  }

  predicate IsRun(h: Hash, r: Run) {
    match r
    case Start => true
    case Then(before, a) => IsRun(h, before) && Enabled(h, End(h, before), a)
  }

  // ----- the invariant -----

  /** Every committed file, in place or removed, has durable contents, is some whole
      upload, and is named after its own bytes. */
  ghost predicate BlobsOk(h: Hash, s: Store) {
    && (forall p | p in s.files && IsBlobPath(p) :: BlobOk(h, s, p, s.files[p]))
    && (forall e | e in s.removed && IsBlobPath(e.0) :: BlobOk(h, s, e.0, e.1))
  }

  ghost predicate BlobOk(h: Hash, s: Store, p: Path, f: File)
    requires IsBlobPath(p)
  {
    f.synced && h(f.bytes) == p[2] && f.bytes in s.asked
  }

  /** A temporary file, unless it was cleaned away, holds what its Put has read;
      once synced, all of it, durably. */
  ghost predicate TempOk(s: Store, p: Put) {
    && p.name in s.names && p.source in s.asked
    && p.read <= |p.source|
    && (!p.phase.Writing? ==> p.read == |p.source|)
    && (!p.phase.Renamed? && TempPath(p.name) in s.files ==>
          && s.files[TempPath(p.name)].bytes == p.source[..p.read]
          && (!p.phase.Writing? ==> s.files[TempPath(p.name)].synced))
  }

  ghost predicate PutsOk(s: Store) {
    && (forall u | u in s.puts :: TempOk(s, s.puts[u]))
    && (forall u, v | u in s.puts && v in s.puts && s.puts[u].name == s.puts[v].name :: u == v)
  }

  ghost predicate StoreOk(h: Hash, s: Store) {
    BlobsOk(h, s) && PutsOk(s) && s.stored <= s.asked
  }

  lemma TempsAreNotBlobs(name: nat)
    ensures !IsBlobPath(TempPath(name))
  {
  }

  lemma FinalIsBlob(h: Hash, p: Put)
    requires IsHash(h) && p.read <= |p.source|
    ensures IsBlobPath(Final(h, p)) && Final(h, p)[2] == h(p.source[..p.read])
    ensures PathFor(h(p.source[..p.read])) == Some(Final(h, p))
  {
  }

  /** Cleaning up is for uploads: it matches every one and no blob. */
  lemma UploadsAreTemporary(name: nat, p: Path)
    ensures IsTempPath(TempPath(name))
    ensures IsTempPath(p) <==> exists rest :: p == ["tmp", "upload-" + rest]
    ensures IsBlobPath(p) ==> !IsTempPath(p)
  {
    UploadsShareAPrefix(name);
    if IsTempPath(p) {
      assert p[1] == "upload-" + p[1][7..];
      assert p == ["tmp", "upload-" + p[1][7..]];
    }
  }

  lemma {:induction false} UploadsShareAPrefix(name: nat)
    ensures "upload-" <= Upload(name)
  {
    if name > 0 {
      UploadsShareAPrefix(name - 1);
    }
  }

  /** A Put that has returned, with or without an error, does nothing more. */
  lemma PutsEnd(h: Hash, s: Store, a: Action)
    requires Enabled(h, s, a)
    requires a.Chmod? || a.RenameFails? || a.Abort? || (a.Stat? && Final(h, s.puts[a.put]) in s.files)
    ensures a.put !in Apply(h, s, a).puts
  {
  }

  /** Whatever removes a file or puts another in its place, a crash may undo. */
  lemma RemovedFilesMayReturn(h: Hash, s: Store, a: Action, p: Path)
    requires Enabled(h, s, a) && p in s.files
    requires !a.Write? && !a.Sync? && !a.Crash?
    requires p !in Apply(h, s, a).files || Apply(h, s, a).files[p] != s.files[p]
    ensures var gone, crash := Apply(h, s, a), Crash(map[p := s.files[p].bytes], {}, map[p := s.files[p]]);
            && Enabled(h, gone, crash) && p in Apply(h, gone, crash).files
            && Apply(h, gone, crash).files[p].bytes == s.files[p].bytes
  {
  }

  /** Deleting a digest removes its blob and nothing else. */
  lemma DeletesExactlyThat(h: Hash, s: Store, digest: string, other: string)
    ensures ReadAll(Apply(h, s, Delete(digest)), other)
         == if ValidDigest(digest) && other == digest then None else ReadAll(s, other)
    ensures forall p :: p in Apply(h, s, Delete(digest)).files <==> p in s.files && PathFor(digest) != Some(p)
  {
  }

  lemma RenameKeepsBlobs(h: Hash, s: Store, put: PutId)
    requires IsHash(h) && StoreOk(h, s) && Enabled(h, s, Rename(put))
    ensures BlobsOk(h, Apply(h, s, Rename(put)))
  {
    var p := s.puts[put];
    assert TempOk(s, p);
    assert p.source[..p.read] == p.source;
    FinalIsBlob(h, p);
    TempsAreNotBlobs(p.name);
  }

  lemma StepKeepsBlobs(h: Hash, s: Store, a: Action)
    requires IsHash(h) && StoreOk(h, s) && Enabled(h, s, a)
    ensures BlobsOk(h, Apply(h, s, a))
  {
    if a.Begin? {
      TempsAreNotBlobs(a.name);
    } else if a.Write? || a.Sync? {
      TempsAreNotBlobs(s.puts[a.put].name);
    } else if a.Rename? {
      RenameKeepsBlobs(h, s, a.put);
    }
  }

  /** Other uploads' temporary files are out of reach of one upload's steps. */
  lemma StepKeepsPuts(h: Hash, s: Store, a: Action)
    requires IsHash(h) && StoreOk(h, s) && Enabled(h, s, a)
    ensures PutsOk(Apply(h, s, a))
  {
    var s' := Apply(h, s, a);
    forall u | u in s'.puts
      ensures TempOk(s', s'.puts[u])
    {
      if u in s.puts {
        assert TempOk(s, s.puts[u]);
        PutKeepsTemp(h, s, a, u);
      }
    }
  }

  lemma PutKeepsTemp(h: Hash, s: Store, a: Action, u: PutId)
    requires IsHash(h) && StoreOk(h, s) && Enabled(h, s, a) && u in s.puts && TempOk(s, s.puts[u])
    requires u in Apply(h, s, a).puts
    ensures TempOk(Apply(h, s, a), Apply(h, s, a).puts[u])
  {
    if a.Begin? {
      BeginKeepsTemp(h, s, a, u);
    } else if a.Write? {
      WriteKeepsTemp(h, s, a, u);
    } else if a.Sync? {
      SyncKeepsTemp(h, s, a, u);
    } else if a.Rename? {
      RenameKeepsTemp(h, s, a, u);
    } else {
      TempsAreNotBlobs(s.puts[u].name);
    }
  }

  lemma BeginKeepsTemp(h: Hash, s: Store, a: Action, u: PutId)
    requires a.Begin? && Enabled(h, s, a) && u in s.puts && TempOk(s, s.puts[u])
    ensures TempOk(Apply(h, s, a), Apply(h, s, a).puts[u])
  {
    if TempPath(a.name) == TempPath(s.puts[u].name) {
      TempPathsDiffer(a.name, s.puts[u].name);
    }
  }

  lemma RenameKeepsTemp(h: Hash, s: Store, a: Action, u: PutId)
    requires IsHash(h) && StoreOk(h, s) && a.Rename? && Enabled(h, s, a) && u in s.puts && TempOk(s, s.puts[u])
    ensures TempOk(Apply(h, s, a), Apply(h, s, a).puts[u])
  {
    TempsAreNotBlobs(s.puts[u].name);
    FinalIsBlob(h, s.puts[a.put]);
  }

  lemma SyncKeepsTemp(h: Hash, s: Store, a: Action, u: PutId)
    requires PutsOk(s) && a.Sync? && Enabled(h, s, a) && u in s.puts && TempOk(s, s.puts[u])
    ensures TempOk(Apply(h, s, a), Apply(h, s, a).puts[u])
  {
    var p := s.puts[u];
    if TempPath(s.puts[a.put].name) == TempPath(p.name) {
      TempPathsDiffer(s.puts[a.put].name, p.name);
    }
    assert p.source[..|p.source|] == p.source;
  }

  lemma WriteKeepsTemp(h: Hash, s: Store, a: Action, u: PutId)
    requires PutsOk(s) && a.Write? && Enabled(h, s, a) && u in s.puts && TempOk(s, s.puts[u])
    ensures TempOk(Apply(h, s, a), Apply(h, s, a).puts[u])
  {
    var p := s.puts[u];
    if TempPath(s.puts[a.put].name) == TempPath(p.name) {
      TempPathsDiffer(s.puts[a.put].name, p.name);
      assert p.source[..p.read] + p.source[p.read..p.read + a.count] == p.source[..p.read + a.count];
    }
  }

  lemma {:induction false} RunsKeepStore(h: Hash, r: Run)
    requires IsHash(h) && IsRun(h, r)
    ensures StoreOk(h, End(h, r))
  {
    if r.Then? {
      RunsKeepStore(h, r.before);
      StepKeepsBlobs(h, End(h, r.before), r.action);
      StepKeepsPuts(h, End(h, r.before), r.action);
    }
  }

  /** In every interleaving, crash or not, a file at a blob path holds bytes whose
      digest is its name, so re-hashing never finds a truncated upload; and equal
      contents are stored once. */
  lemma BlobsAreWhatTheirNamesSay(h: Hash, r: Run, p: Path, q: Path)
    requires IsHash(h) && IsRun(h, r)
    requires p in End(h, r).files && IsBlobPath(p) && q in End(h, r).files && IsBlobPath(q)
    ensures h(End(h, r).files[p].bytes) == p[2]
    ensures End(h, r).files[p].bytes == End(h, r).files[q].bytes ==> p == q
  {
    RunsKeepStore(h, r);
  }

  // ----- reading back -----

  function ReadAll(s: Store, digest: string): Option<Bytes> {
    match PathFor(digest)
    case Some(path) => if path in s.files then Some(s.files[path].bytes) else None
    case None => None
  }

  /** There is a file where the digest of these contents leads. */
  ghost predicate InPlace(h: Hash, s: Store, b: Bytes) {
    PathFor(h(b)).Some? && PathFor(h(b)).value in s.files
  }

  /** Its directory entry has reached the disk. */
  ghost predicate OnDisk(h: Hash, s: Store, b: Bytes) {
    InPlace(h, s, b) && PathFor(h(b)).value !in s.unflushed
  }

  /** Under the name of an upload there is that upload or nothing. */
  lemma NeverWrong(h: Hash, s: Store, b: Bytes)
    requires IsHash(h) && StoreOk(h, s) && CollisionFree(h, s.asked) && b in s.asked
    ensures ReadAll(s, h(b)) == if InPlace(h, s, b) then Some(b) else None
  {
    if InPlace(h, s, b) {
      assert BlobOk(h, s, PathFor(h(b)).value, s.files[PathFor(h(b)).value]);
    }
  }

  /** Until it is deleted, a blob leaves its path only to a crash that drops its
      entry, and one whose entry is on disk stays, on disk. */
  lemma StepKeepsInPlace(h: Hash, s: Store, a: Action, b: Bytes)
    requires IsHash(h) && StoreOk(h, s) && Enabled(h, s, a) && a != Delete(h(b)) && InPlace(h, s, b)
    ensures (a.Crash? && PathFor(h(b)).value in a.dropped) || InPlace(h, Apply(h, s, a), b)
    ensures OnDisk(h, s, b) ==> OnDisk(h, Apply(h, s, a), b)
  {
    var path := PathFor(h(b)).value;
    assert IsBlobPath(path);
    forall name: nat
      ensures TempPath(name) != path
    {
      TempsAreNotBlobs(name);
    }
  }

  lemma PutIsInPlace(h: Hash, s: Store, a: Action)
    requires IsHash(h) && StoreOk(h, s) && Enabled(h, s, a)
    requires a.Rename? || ((a.Stat? || a.RenameFails?) && Final(h, s.puts[a.put]) in s.files)
    ensures InPlace(h, Apply(h, s, a), s.puts[a.put].source)
  {
    var p := s.puts[a.put];
    assert TempOk(s, p);
    assert p.source[..p.read] == p.source;
    FinalIsBlob(h, p);
    TempsAreNotBlobs(p.name);
  }

  ghost predicate NeverDeletes(r: Run, digest: string) {
    r.Then? ==> r.action != Delete(digest) && NeverDeletes(r.before, digest)
  }

  ghost predicate NeverDrops(r: Run) {
    r.Then? ==> (r.action.Crash? ==> r.action.dropped == {}) && NeverDrops(r.before)
  }

  /** Once returned, and once its rename is finished, an upload is in place. */
  ghost predicate StoredOk(h: Hash, s: Store, b: Bytes) {
    && (b in s.stored ==> InPlace(h, s, b))
    && (forall u | u in s.puts && s.puts[u].phase == Renamed && s.puts[u].source == b :: InPlace(h, s, b))
  }

  lemma StepKeepsStored(h: Hash, s: Store, a: Action, b: Bytes)
    requires IsHash(h) && StoreOk(h, s) && StoredOk(h, s, b) && Enabled(h, s, a) && a != Delete(h(b))
    requires a.Crash? ==> a.dropped == {}
    ensures StoredOk(h, Apply(h, s, a), b)
  {
    if InPlace(h, s, b) {
      StepKeepsInPlace(h, s, a, b);
    } else if a.Rename? || ((a.Stat? || a.RenameFails?) && Final(h, s.puts[a.put]) in s.files) {
      PutIsInPlace(h, s, a);
    }
  }

  lemma {:induction false} RunsKeepStored(h: Hash, r: Run, b: Bytes)
    requires IsHash(h) && IsRun(h, r) && NeverDeletes(r, h(b)) && NeverDrops(r)
    ensures StoredOk(h, End(h, r), b)
  {
    if r.Then? {
      RunsKeepStored(h, r.before, b);
      RunsKeepStore(h, r.before);
      StepKeepsStored(h, End(h, r.before), r.action, b);
    }
  }

  /** When no two uploads collide, and crashes lose unsynced data but no directory
      entry, every reference Put has returned reads back exactly the bytes uploaded,
      ever after, unless that very digest is deleted. */
  lemma CommittedReferencesReadBack(h: Hash, r: Run, b: Bytes)
    requires IsHash(h) && IsRun(h, r) && CollisionFree(h, End(h, r).asked) && NeverDeletes(r, h(b)) && NeverDrops(r)
    requires b in End(h, r).stored
    ensures ReadAll(End(h, r), h(b)) == Some(b)
  {
    RunsKeepStore(h, r);
    RunsKeepStored(h, r, b);
    NeverWrong(h, End(h, r), b);
  }

  /** `later` continues `r` and does not delete the digest. */
  ghost predicate ExtendsKeeping(later: Run, r: Run, digest: string) {
    later == r || (later.Then? && later.action != Delete(digest) && ExtendsKeeping(later.before, r, digest))
  }

  /** A continuation without collisions in which this digest is not deleted. */
  ghost predicate Continues(h: Hash, later: Run, r: Run, digest: string) {
    IsRun(h, later) && ExtendsKeeping(later, r, digest) && CollisionFree(h, End(h, later).asked)
  }

  lemma StoredStays(h: Hash, s: Store, a: Action)
    requires Enabled(h, s, a)
    ensures s.stored <= Apply(h, s, a).stored
  {
  }

  lemma {:induction false} OnDiskStays(h: Hash, r: Run, later: Run, b: Bytes)
    requires IsHash(h) && IsRun(h, later) && ExtendsKeeping(later, r, h(b))
    requires b in End(h, r).stored && OnDisk(h, End(h, r), b)
    ensures b in End(h, later).stored && OnDisk(h, End(h, later), b)
  {
    if later != r {
      OnDiskStays(h, r, later.before, b);
      RunsKeepStore(h, later.before);
      StoredStays(h, End(h, later.before), later.action);
      StepKeepsInPlace(h, End(h, later.before), later.action, b);
    }
  }

  /** The crash that drops one entry. */
  lemma CrashDrops(h: Hash, r: Run, b: Bytes)
    requires IsHash(h) && IsRun(h, r) && CollisionFree(h, End(h, r).asked)
    requires PathFor(h(b)).Some? && PathFor(h(b)).value in End(h, r).unflushed
    ensures var later := Then(r, Crash(map[], {PathFor(h(b)).value}, map[]));
            Continues(h, later, r, h(b)) && ReadAll(End(h, later), h(b)) == None
  {
    var later := Then(r, Crash(map[], {PathFor(h(b)).value}, map[]));
    assert ExtendsKeeping(r, r, h(b)) && ExtendsKeeping(later, r, h(b));
    assert End(h, later).asked == End(h, r).asked;
  }

  /** Exactly which returned references are safe: one reads back its upload at every
      later time, in every continuation that does not delete it, if and only if it is
      in place and its directory entry has reached the disk. Put returns without seeing to that. */
  lemma ReferencesReadBackIff(h: Hash, r: Run, b: Bytes)
    requires IsHash(h) && IsRun(h, r) && CollisionFree(h, End(h, r).asked)
    requires b in End(h, r).stored
    ensures OnDisk(h, End(h, r), b)
       <==> forall later | Continues(h, later, r, h(b)) :: ReadAll(End(h, later), h(b)) == Some(b)
  {
    if OnDisk(h, End(h, r), b) {
      forall later | Continues(h, later, r, h(b))
        ensures ReadAll(End(h, later), h(b)) == Some(b)
      {
        OnDiskStays(h, r, later, b);
        RunsKeepStore(h, later);
        NeverWrong(h, End(h, later), b);
      }
    } else if !InPlace(h, End(h, r), b) {
      assert Continues(h, r, r, h(b)) && ReadAll(End(h, r), h(b)) == None;
    } else {
      CrashDrops(h, r, b);
    }
  }

  // ----- one Put at a time -----

  /** Where an upload may fail. */
  datatype Fault = NoFault | ReadFault(chunk: nat) | SyncFault | CloseFault | MkdirFault | RenameFault | ChmodFault

  datatype Ref = Ref(digest: string, size: nat)

  function Flatten(chunks: seq<Bytes>): Bytes {
    if chunks == [] then [] else Flatten(chunks[..|chunks| - 1]) + chunks[|chunks| - 1]
  }

  /** The upload is read, hashed and durable. */
  predicate Readable(chunks: seq<Bytes>, fault: Fault) {
    !(fault.ReadFault? && fault.chunk < |chunks|) && !fault.SyncFault? && !fault.CloseFault?
  }

  /** What one Put, undisturbed, makes of the files. */
  function FilesAfterPut(h: Hash, f: Files, chunks: seq<Bytes>, fault: Fault): Files
    requires PathFor(h(Flatten(chunks))).Some?
  {
    var path := PathFor(h(Flatten(chunks))).value;
    if Readable(chunks, fault) && path !in f && !fault.MkdirFault? && !fault.RenameFault?
    then f[path := File(Flatten(chunks), true)] else f
  }

  /** It returns a reference. */
  predicate PutSucceeds(h: Hash, f: Files, chunks: seq<Bytes>, fault: Fault)
    requires PathFor(h(Flatten(chunks))).Some?
  {
    && Readable(chunks, fault)
    && (PathFor(h(Flatten(chunks))).value in f || !(fault.MkdirFault? || fault.RenameFault? || fault.ChmodFault?))
  }

  /** The pieces an upload is read in, one after the other, make up the upload. */
  ghost predicate Cuts(source: Bytes, chunks: seq<Bytes>) {
    if chunks == [] then source == []
    else chunks[0] <= source && Cuts(source[|chunks[0]|..], chunks[1..])
  }

  lemma {:induction false} FlattenTakesInOrder(first: Bytes, chunks: seq<Bytes>)
    ensures Flatten([first] + chunks) == first + Flatten(chunks)
  {
    var all := [first] + chunks;
    if chunks == [] {
      assert all[..0] == [] && all == [first];
    } else {
      assert all[..|all| - 1] == [first] + chunks[..|chunks| - 1];
      FlattenTakesInOrder(first, chunks[..|chunks| - 1]);
    }
  }

  /** However an upload is read, what is put together is the upload. */
  lemma {:induction false} PiecesMakeTheUpload(source: Bytes, chunks: seq<Bytes>)
    ensures Cuts(source, chunks) <==> Flatten(chunks) == source
  {
    if chunks != [] {
      FlattenTakesInOrder(chunks[0], chunks[1..]);
      assert chunks == [chunks[0]] + chunks[1..];
      if chunks[0] <= source {
        PiecesMakeTheUpload(source[|chunks[0]|..], chunks[1..]);
        assert source == chunks[0] + source[|chunks[0]|..];
      }
    }
  }

  class FileTree {
    var files: Files

    constructor ()
      ensures files == map[]
    {
      files := map[];
    }

    /** Copy an upload into its temporary file, hashing what is written. */
    method Copy(temp: Path, chunks: seq<Bytes>, fault: Fault) returns (hashed: Bytes, ok: bool)
      requires temp in files && files[temp] == File([], false)
      modifies this
      ensures files == old(files)[temp := File(hashed, false)]
      ensures ok <==> !(fault.ReadFault? && fault.chunk < |chunks|)
      ensures ok ==> hashed == Flatten(chunks)
    {
      hashed := [];
      assert files == files[temp := File([], false)];
      for i := 0 to |chunks|
        invariant files == old(files)[temp := File(hashed, false)]
        invariant hashed == Flatten(chunks[..i])
        invariant fault.ReadFault? ==> i <= fault.chunk
      {
        if fault == ReadFault(i) {
          return hashed, false;
        }
        assert chunks[..i + 1][..i] == chunks[..i];
        hashed := hashed + chunks[i];
        files := files[temp := File(hashed, false)];
      }
      assert chunks[..|chunks|] == chunks;
      ok := true;
    }

    /** Rename a finished upload to where its digest leads, unless it is there. */
    method Place(h: Hash, temp: Path, hashed: Bytes, fault: Fault) returns (r: Result<Ref, Fault>, renamed: bool)
      requires IsHash(h) && temp in files && files[temp] == File(hashed, true) && !IsBlobPath(temp)
      modifies this
      ensures var path := PathFor(h(hashed)).value;
              && (renamed <==> path !in old(files) && !fault.MkdirFault? && !fault.RenameFault?)
              && files == (if renamed then (old(files) - {temp})[path := File(hashed, true)] else old(files))
              && r == (if path in old(files) || (renamed && !fault.ChmodFault?)
                       then Ok(Ref(h(hashed), |hashed|)) else Err(fault))
    {
      r, renamed := Err(fault), false;
      var ref := Ref(h(hashed), |hashed|);
      var final := PathFor(ref.digest).value;
      if final in files {
        return Ok(ref), false;
      }
      if fault.MkdirFault? || fault.RenameFault? {
        return;
      }
      files := (files - {temp})[final := files[temp]];
      renamed := true;
      if !fault.ChmodFault? {
        r := Ok(ref);
      }
    }

    /** Store an upload under its digest. Nothing but its own blob ever changes;
        the temporary file is gone afterwards; bytes already stored are kept; and
        a failed upload leaves no blob unless only setting permissions failed. */
    method Put(h: Hash, name: nat, chunks: seq<Bytes>, fault: Fault) returns (r: Result<Ref, Fault>)
      requires IsHash(h) && TempPath(name) !in files
      modifies this
      ensures files == FilesAfterPut(h, old(files), chunks, fault)
      ensures r.Ok? <==> PutSucceeds(h, old(files), chunks, fault)
      ensures r.Ok? ==>
                && r.value == Ref(h(Flatten(chunks)), |Flatten(chunks)|)
                && PathFor(r.value.digest).value in files
      ensures forall source | Cuts(source, chunks) && r.Ok? ::
                && r.value == Ref(h(source), |source|)
                && (files == old(files) || files == old(files)[PathFor(h(source)).value := File(source, true)])
    {
      ghost var f := files;
      forall source | Cuts(source, chunks)
        ensures Flatten(chunks) == source
      {
        PiecesMakeTheUpload(source, chunks);
      }
      var temp := TempPath(name);
      files := files[temp := File([], false)];
      var renamed := false;
      r := Err(fault);
      var hashed, ok := Copy(temp, chunks, fault);
      if ok && !fault.SyncFault? {
        files := files[temp := File(hashed, true)];
        assert files == f[temp := File(hashed, true)];
        TempsAreNotBlobs(name);
        if !fault.CloseFault? {
          r, renamed := Place(h, temp, hashed, fault);
          assert renamed ==> files == f[PathFor(h(hashed)).value := File(hashed, true)];
        }
      }
      assert !renamed ==> files - {temp} == f;
      if !renamed {
        files := files - {temp};
      }
    }

    /** Remove leftover uploads and nothing else, going on past any that cannot be
        removed. */
    method CleanTempFiles(stuck: set<Path>) returns (ok: bool)
      modifies this
      ensures files == map p | p in old(files) && (!IsTempPath(p) || p in stuck) :: old(files)[p]
      ensures ok <==> forall p | p in files :: !IsTempPath(p)
    {
      ok := true;
      var rest := files.Keys;
      ghost var before := files;
      while rest != {}
        invariant rest <= files.Keys && files.Keys <= before.Keys
        invariant files == map p | p in before && (p in rest || !IsTempPath(p) || p in stuck) :: before[p]
        invariant ok <==> forall p | p in files && p !in rest :: !IsTempPath(p)
        decreases |rest|
      {
        var p := Pick(rest);
        if IsTempPath(p) {
          if p in stuck {
            ok := false;
          } else {
            files := files - {p};
          }
        }
        rest := rest - {p};
      }
    }
  }

  // ----- the methods refine the protocol -----

  function Performed(h: Hash, s: Store, steps: seq<Action>): Store {
    if steps == [] then s
    else
      var before := Performed(h, s, steps[..|steps| - 1]);
      if Enabled(h, before, steps[|steps| - 1]) then Apply(h, before, steps[|steps| - 1]) else before
  }

  predicate Allowed(h: Hash, s: Store, steps: seq<Action>) {
    steps != [] ==>
      && Allowed(h, s, steps[..|steps| - 1])
      && Enabled(h, Performed(h, s, steps[..|steps| - 1]), steps[|steps| - 1])
  }

  lemma OneMore(h: Hash, s: Store, steps: seq<Action>, a: Action)
    requires Allowed(h, s, steps) && Enabled(h, Performed(h, s, steps), a)
    ensures Allowed(h, s, steps + [a])
    ensures Performed(h, s, steps + [a]) == Apply(h, Performed(h, s, steps), a)
  {
    assert (steps + [a])[..|steps|] == steps;
  }

  /** The protocol's steps of a Put that the given fault stops. */
  function PutSteps(h: Hash, f: Files, put: PutId, name: nat, chunks: seq<Bytes>, fault: Fault): seq<Action>
    requires PathFor(h(Flatten(chunks))).Some?
  {
    var source := Flatten(chunks);
    var stored := PathFor(h(source)).value in f;
    if fault.ReadFault? && fault.chunk < |chunks| then
      ReadSteps(put, name, source, |Flatten(chunks[..fault.chunk])|) + [Abort(put, true)]
    else if fault.SyncFault? then ReadSteps(put, name, source, |source|) + [Abort(put, true)]
    else if fault.CloseFault? then ReadSteps(put, name, source, |source|) + [Sync(put)] + [Abort(put, true)]
    else
      var looked := ReadSteps(put, name, source, |source|) + [Sync(put)] + [Close(put)] + [Stat(put)];
      if stored then looked
      else if fault.MkdirFault? then looked + [Abort(put, true)]
      else if fault.RenameFault? then looked + [RenameFails(put)]
      else looked + [Rename(put)] + [Chmod(put, !fault.ChmodFault?)]
  }

  function ReadSteps(put: PutId, name: nat, source: Bytes, count: nat): seq<Action> {
    [Begin(put, name, source)] + [Write(put, count)]
  }

  /** A Put that has come so far, on top of the files `f`. */
  ghost predicate Underway(s: Store, f: Files, put: PutId, p: Put) {
    && put in s.puts && s.puts[put] == p && p.read <= |p.source| && !p.phase.Renamed?
    && (!p.phase.Writing? ==> p.read == |p.source|)
    && TempPath(p.name) !in f
    && s.files == f[TempPath(p.name) := File(p.source[..p.read], !p.phase.Writing?)]
  }

  lemma ReadingGetsUnderway(h: Hash, s: Store, put: PutId, name: nat, source: Bytes, count: nat)
    requires put !in s.puts && name !in s.names && TempPath(name) !in s.files && count <= |source|
    ensures Allowed(h, s, ReadSteps(put, name, source, count))
    ensures var s' := Performed(h, s, ReadSteps(put, name, source, count));
            Underway(s', s.files, put, Put(name, source, count, Writing)) && s'.stored == s.stored
  {
    BeginningIsUnderway(h, s, put, name, source);
    var begun := Apply(h, s, Begin(put, name, source));
    WritingGoesOn(h, begun, s.files, put, Put(name, source, 0, Writing), count);
    FirstTwo(h, s, Begin(put, name, source), Write(put, count));
  }

  lemma FirstTwo(h: Hash, s: Store, a: Action, b: Action)
    requires Enabled(h, s, a) && Enabled(h, Apply(h, s, a), b)
    ensures Allowed(h, s, [a] + [b]) && Performed(h, s, [a] + [b]) == Apply(h, Apply(h, s, a), b)
  {
    assert [a][..0] == [];
    assert Performed(h, s, [a]) == Apply(h, s, a) && Allowed(h, s, [a]);
    OneMore(h, s, [a], b);
  }

  lemma BeginningIsUnderway(h: Hash, s: Store, put: PutId, name: nat, source: Bytes)
    requires put !in s.puts && name !in s.names && TempPath(name) !in s.files
    ensures Enabled(h, s, Begin(put, name, source)) && Apply(h, s, Begin(put, name, source)).stored == s.stored
    ensures Underway(Apply(h, s, Begin(put, name, source)), s.files, put, Put(name, source, 0, Writing))
  {
  }

  lemma WritingGoesOn(h: Hash, s: Store, f: Files, put: PutId, p: Put, count: nat)
    requires Underway(s, f, put, p) && p.phase.Writing? && p.read == 0 && count <= |p.source|
    ensures Enabled(h, s, Write(put, count)) && Apply(h, s, Write(put, count)).stored == s.stored
    ensures Underway(Apply(h, s, Write(put, count)), f, put, p.(read := count))
  {
    assert p.source[..0] + p.source[0..count] == p.source[..count];
  }

  /** Syncing and closing move a Put on; giving up takes its file away. */
  lemma UnderwayGoesOn(h: Hash, s: Store, f: Files, put: PutId, p: Put)
    requires Underway(s, f, put, p)
    ensures p.phase.Writing? && p.read == |p.source| ==>
              && Enabled(h, s, Sync(put)) && Apply(h, s, Sync(put)).stored == s.stored
              && Underway(Apply(h, s, Sync(put)), f, put, p.(phase := Synced))
    ensures p.phase.Synced? ==>
              && Enabled(h, s, Close(put)) && Apply(h, s, Close(put)).stored == s.stored
              && Underway(Apply(h, s, Close(put)), f, put, p.(phase := Closed))
    ensures Enabled(h, s, Abort(put, true)) && Apply(h, s, Abort(put, true)).files == f
    ensures Apply(h, s, Abort(put, true)).stored == s.stored
  {
    assert f[TempPath(p.name) := File(p.source[..p.read], !p.phase.Writing?)] - {TempPath(p.name)} == f;
  }

  lemma ClosedLooks(h: Hash, s: Store, f: Files, put: PutId, p: Put)
    requires IsHash(h) && Underway(s, f, put, p) && p.phase.Closed?
    ensures Enabled(h, s, Stat(put))
    ensures var s' := Apply(h, s, Stat(put));
            if PathFor(h(p.source)).value in f then s'.files == f && s'.stored == s.stored + {p.source}
            else s'.stored == s.stored && Underway(s', f, put, p.(phase := Absent))
  {
    assert p.source[..p.read] == p.source;
    FinalIsBlob(h, p);
    TempsAreNotBlobs(p.name);
    assert f[TempPath(p.name) := File(p.source, true)] - {TempPath(p.name)} == f;
  }

  lemma AbsentIsPlaced(h: Hash, s: Store, f: Files, put: PutId, p: Put, ok: bool)
    requires IsHash(h) && Underway(s, f, put, p) && p.phase.Absent? && PathFor(h(p.source)).value !in f
    ensures Enabled(h, s, RenameFails(put)) && Apply(h, s, RenameFails(put)).files == f
    ensures Apply(h, s, RenameFails(put)).stored == s.stored
    ensures Enabled(h, s, Rename(put)) && Enabled(h, Apply(h, s, Rename(put)), Chmod(put, ok))
    ensures var s' := Apply(h, Apply(h, s, Rename(put)), Chmod(put, ok));
            && s'.files == f[PathFor(h(p.source)).value := File(p.source, true)]
            && s'.stored == (if ok then s.stored + {p.source} else s.stored)
            && PathFor(h(p.source)).value in s'.unflushed
  {
    assert p.source[..p.read] == p.source;
    FinalIsBlob(h, p);
    TempsAreNotBlobs(p.name);
    assert f[TempPath(p.name) := File(p.source, true)] - {TempPath(p.name)} == f;
  }

  lemma ClosedSteps(h: Hash, s: Store, put: PutId, name: nat, source: Bytes)
    requires IsHash(h) && put !in s.puts && name !in s.names && TempPath(name) !in s.files
    ensures var steps := ReadSteps(put, name, source, |source|) + [Sync(put)] + [Close(put)];
            && Allowed(h, s, steps) && Performed(h, s, steps).stored == s.stored
            && Underway(Performed(h, s, steps), s.files, put, Put(name, source, |source|, Closed))
  {
    var read := ReadSteps(put, name, source, |source|);
    var p := Put(name, source, |source|, Writing);
    ReadingGetsUnderway(h, s, put, name, source, |source|);
    UnderwayGoesOn(h, Performed(h, s, read), s.files, put, p);
    OneMore(h, s, read, Sync(put));
    UnderwayGoesOn(h, Performed(h, s, read + [Sync(put)]), s.files, put, p.(phase := Synced));
    OneMore(h, s, read + [Sync(put)], Close(put));
  }

  lemma {:induction false} PrefixIsShorter(chunks: seq<Bytes>, n: nat)
    requires n <= |chunks|
    ensures |Flatten(chunks[..n])| <= |Flatten(chunks)|
  {
    if n < |chunks| {
      assert chunks[..|chunks| - 1][..n] == chunks[..n];
      PrefixIsShorter(chunks[..|chunks| - 1], n);
    } else {
      assert chunks[..n] == chunks;
    }
  }

  /** The upload is stopped before it is closed. */
  lemma BrokenPutRefines(h: Hash, s: Store, put: PutId, name: nat, chunks: seq<Bytes>, fault: Fault)
    requires IsHash(h) && put !in s.puts && name !in s.names && TempPath(name) !in s.files
    requires !Readable(chunks, fault)
    ensures var steps := PutSteps(h, s.files, put, name, chunks, fault);
            && Allowed(h, s, steps) && Performed(h, s, steps).files == s.files
            && Performed(h, s, steps).stored == s.stored
  {
    var source := Flatten(chunks);
    if fault.ReadFault? {
      PrefixIsShorter(chunks, fault.chunk);
    }
    var count := if fault.ReadFault? then |Flatten(chunks[..fault.chunk])| else |source|;
    var read := ReadSteps(put, name, source, count);
    var p := Put(name, source, count, Writing);
    ReadingGetsUnderway(h, s, put, name, source, count);
    UnderwayGoesOn(h, Performed(h, s, read), s.files, put, p);
    if fault.CloseFault? {
      OneMore(h, s, read, Sync(put));
      UnderwayGoesOn(h, Performed(h, s, read + [Sync(put)]), s.files, put, p.(phase := Synced));
      OneMore(h, s, read + [Sync(put)], Abort(put, true));
    } else {
      OneMore(h, s, read, Abort(put, true));
    }
  }

  /** Left alone, and whatever fault stops it, the protocol's Put does to the files
      what the method does, and returns a reference exactly when the method does. */
  lemma SoloPutRefines(h: Hash, s: Store, put: PutId, name: nat, chunks: seq<Bytes>, fault: Fault)
    requires IsHash(h) && put !in s.puts && name !in s.names && TempPath(name) !in s.files
    ensures var steps, source := PutSteps(h, s.files, put, name, chunks, fault), Flatten(chunks);
            && Allowed(h, s, steps)
            && Performed(h, s, steps).files == FilesAfterPut(h, s.files, chunks, fault)
            && Performed(h, s, steps).stored
               == (if PutSucceeds(h, s.files, chunks, fault) then s.stored + {source} else s.stored)
            && (Performed(h, s, steps).files != s.files ==>
                  PathFor(h(source)).value in Performed(h, s, steps).unflushed)
  {
    if !Readable(chunks, fault) {
      BrokenPutRefines(h, s, put, name, chunks, fault);
      return;
    }
    var source := Flatten(chunks);
    var p := Put(name, source, |source|, Closed);
    var closed := ReadSteps(put, name, source, |source|) + [Sync(put)] + [Close(put)];
    ClosedSteps(h, s, put, name, source);
    ClosedLooks(h, Performed(h, s, closed), s.files, put, p);
    OneMore(h, s, closed, Stat(put));
    if PathFor(h(source)).value !in s.files {
      var looked, absent := closed + [Stat(put)], p.(phase := Absent);
      UnderwayGoesOn(h, Performed(h, s, looked), s.files, put, absent);
      AbsentIsPlaced(h, Performed(h, s, looked), s.files, put, absent, !fault.ChmodFault?);
      if fault.MkdirFault? {
        OneMore(h, s, looked, Abort(put, true));
      } else if fault.RenameFault? {
        OneMore(h, s, looked, RenameFails(put));
      } else {
        OneMore(h, s, looked, Rename(put));
        OneMore(h, s, looked + [Rename(put)], Chmod(put, !fault.ChmodFault?));
      }
    }
  }

  function Continued(r: Run, steps: seq<Action>): Run {
    if steps == [] then r else Then(Continued(r, steps[..|steps| - 1]), steps[|steps| - 1])
  }

  lemma {:induction false} ContinuedIsPerformed(h: Hash, r: Run, steps: seq<Action>)
    requires IsRun(h, r) && Allowed(h, End(h, r), steps)
    ensures IsRun(h, Continued(r, steps)) && End(h, Continued(r, steps)) == Performed(h, End(h, r), steps)
  {
    if steps != [] {
      ContinuedIsPerformed(h, r, steps[..|steps| - 1]);
    }
  }

  /** Put never makes its reference safe itself: whenever it stores new contents, it
      returns before the entry is on disk. Once the directory is flushed, it is. */
  lemma {:induction false} NewReferencesAreAtRisk(h: Hash, r: Run, put: PutId, name: nat, chunks: seq<Bytes>)
    requires IsHash(h) && IsRun(h, r) && put !in End(h, r).puts && name !in End(h, r).names
    requires TempPath(name) !in End(h, r).files && PathFor(h(Flatten(chunks))).value !in End(h, r).files
    ensures var returned := Continued(r, PutSteps(h, End(h, r).files, put, name, chunks, NoFault));
            && IsRun(h, returned) && Flatten(chunks) in End(h, returned).stored
            && InPlace(h, End(h, returned), Flatten(chunks)) && !OnDisk(h, End(h, returned), Flatten(chunks))
            && var flushed := Then(returned, Flush({PathFor(h(Flatten(chunks))).value}));
               IsRun(h, flushed) && OnDisk(h, End(h, flushed), Flatten(chunks))
  {
    SoloPutRefines(h, End(h, r), put, name, chunks, NoFault);
    ContinuedIsPerformed(h, r, PutSteps(h, End(h, r).files, put, name, chunks, NoFault));
  }

  /** Nothing is asked for but what the steps begin. */
  lemma {:induction false} AskedOnce(h: Hash, steps: seq<Action>, b: Bytes)
    requires forall i | 0 <= i < |steps| :: steps[i].Begin? ==> steps[i].source == b
    ensures End(h, Continued(Start, steps)).asked <= {b}
  {
    if steps != [] {
      AskedOnce(h, steps[..|steps| - 1], b);
    }
  }

  /** So a reference that was returned can be lost, in a run from an empty store. */
  lemma ReferencesCanBeLost(h: Hash, chunks: seq<Bytes>)
    requires IsHash(h)
    ensures exists r: Run :: && IsRun(h, r) && CollisionFree(h, End(h, r).asked)
                             && Flatten(chunks) in End(h, r).stored && ReadAll(End(h, r), h(Flatten(chunks))) == None
  {
    var steps := PutSteps(h, End(h, Start).files, 0, 0, chunks, NoFault);
    NewReferencesAreAtRisk(h, Start, 0, 0, chunks);
    AskedOnce(h, steps, Flatten(chunks));
    LosesTheReference(h, Continued(Start, steps), Flatten(chunks));
  }

  lemma LosesTheReference(h: Hash, r: Run, b: Bytes)
    requires IsHash(h) && IsRun(h, r) && b in End(h, r).stored && End(h, r).asked <= {b}
    requires InPlace(h, End(h, r), b) && !OnDisk(h, End(h, r), b)
    ensures exists lost: Run :: && IsRun(h, lost) && CollisionFree(h, End(h, lost).asked)
                                && b in End(h, lost).stored && ReadAll(End(h, lost), h(b)) == None
  {
    CrashDrops(h, r, b);
    var lost := Then(r, Crash(map[], {PathFor(h(b)).value}, map[]));
    StoredStays(h, End(h, r), lost.action);
  }

  /** Cleaning up is the protocol's step of the same name. */
  lemma CleaningRefines(h: Hash, s: Store, stuck: set<Path>)
    ensures Apply(h, s, CleanTemp(stuck)).files
         == map p | p in s.files && (!IsTempPath(p) || p in stuck) :: s.files[p]
  {
  }
}
