/**
  One backup set on disk: made, sealed, verified and restored.  The cipher, the archive format,
  the digest and the dump check are parameters; what is asked of the cipher and the format is
  that they invert themselves and that a wrong key is noticed.
 */
module BackupSet {
  import opened Basics
  import opened StableSort
  import opened ObjectBackup
  import Text

  /** Arguments of the cipher are key, nonce and text. */
  datatype Tools = Tools(encrypt: (Bytes, Bytes, Bytes) -> Bytes, decrypt: (Bytes, Bytes, Bytes) -> Option<Bytes>,
                         pack: seq<Member> -> Bytes, unpack: Bytes -> Option<seq<Member>>, digest: Bytes -> nat,
                         wellFormed: Bytes -> bool)

  const MAGIC: Bytes := [77, 66, 83, 69, 78, 67, 49, 10]
  const NONCE_LENGTH := 12

  ghost predicate Sound(t: Tools) {
    && (forall key, nonce, data | |nonce| == NONCE_LENGTH ::
         t.decrypt(key, nonce, t.encrypt(key, nonce, data)) == Some(data))
    && (forall key, other, nonce, data | |nonce| == NONCE_LENGTH && key != other ::
         t.decrypt(other, nonce, t.encrypt(key, nonce, data)) == None)
    && (forall members :: t.unpack(t.pack(members)) == Some(members))
  }

  // ----- sealing ----------------------------------------------------------------------------

  predicate IsEncrypted(content: Bytes) {
    |content| >= |MAGIC| && content[..|MAGIC|] == MAGIC
  }

  /** The header is "MBSENC1" and a line feed. */
  lemma {:induction false} HeaderAsWritten(content: Bytes)
    ensures IsEncrypted(content) <==>
      && |content| >= 8 && content[7] == 10
      && content[..7] == ['M' as nat, 'B' as nat, 'S' as nat, 'E' as nat, 'N' as nat, 'C' as nat, '1' as nat]
  {
    if |content| >= 8 {
      assert content[..8] == content[..7] + [content[7]];
      assert MAGIC[..7] == ['M' as nat, 'B' as nat, 'S' as nat, 'E' as nat, 'N' as nat, 'C' as nat, '1' as nat];
    }
  }

  /** `encrypt_file`: content that already carries the header is left alone. */
  function Sealed(t: Tools, content: Bytes, key: Bytes, nonce: Bytes): Bytes {
    if IsEncrypted(content) then content else MAGIC + nonce + t.encrypt(key, nonce, content)
  }

  /** `decrypt_bytes`; None is the error. */
  function Opened(t: Tools, blob: Bytes, key: Bytes): Option<Bytes> {
    if !IsEncrypted(blob) then None
    else
      var rest := blob[|MAGIC|..];
      var cut := if |rest| < NONCE_LENGTH then |rest| else NONCE_LENGTH;
      t.decrypt(key, rest[..cut], rest[cut..])
  }

  /** Opening undoes sealing with the same key and fails with any other, for every content
      without the header; content with it is not sealed at all. */
  lemma {:induction false} SealOpens(t: Tools, content: Bytes, key: Bytes, nonce: Bytes, other: Bytes)
    requires Sound(t) && |nonce| == NONCE_LENGTH
    ensures IsEncrypted(Sealed(t, content, key, nonce))
    ensures !IsEncrypted(content) ==>
      Opened(t, Sealed(t, content, key, nonce), other) == if other == key then Some(content) else None
    ensures IsEncrypted(content) ==> Sealed(t, content, key, nonce) == content
    ensures Sealed(t, Sealed(t, content, key, nonce), key, nonce) == Sealed(t, content, key, nonce)
  {
    if !IsEncrypted(content) {
      var text := t.encrypt(key, nonce, content);
      var blob := MAGIC + nonce + text;
      assert blob[..|MAGIC|] == MAGIC;
      assert blob[|MAGIC|..] == nonce + text;
      assert (nonce + text)[..NONCE_LENGTH] == nonce && (nonce + text)[NONCE_LENGTH..] == text;
    }
  }

  // ----- the files of a set -----------------------------------------------------------------

  datatype Component = Absent | Failed | Done

  datatype SetManifest = SetManifest(mysql: Component, objects: Component, encrypted: bool, completed: bool)

  /** A file that is not there is None; each checksum is that of the bytes it was taken of. */
  datatype OnDisk = OnDisk(dump: Option<Bytes>, dumpSum: Option<nat>, archive: Option<Bytes>, archiveSum: Option<nat>,
                           listing: Option<Manifest>, manifest: Option<SetManifest>)

  const NO_FILES := OnDisk(None, None, None, None, None, None)

  datatype Settings = Settings(includeObjects: bool, encryption: bool, verification: bool)

  predicate SumMatches(t: Tools, content: Bytes, sum: Option<nat>) {
    sum.None? || sum.value == t.digest(content)
  }

  /** What a file holds once it is opened, if it must be. */
  function Content(t: Tools, content: Bytes, encrypted: bool, key: Bytes): Option<Bytes> {
    if encrypted then Opened(t, content, key) else Some(content)
  }

  predicate DumpOk(t: Tools, f: OnDisk, encrypted: bool, key: Bytes) {
    && f.dump.Some? && SumMatches(t, f.dump.value, f.dumpSum)
    && var plain := Content(t, f.dump.value, encrypted, key);
       plain.Some? && t.wellFormed(plain.value)
  }

  predicate ArchiveOk(t: Tools, f: OnDisk, encrypted: bool, key: Bytes) {
    && f.archive.Some? && f.listing.Some? && SumMatches(t, f.archive.value, f.archiveSum)
    && var plain := Content(t, f.archive.value, encrypted, key);
       plain.Some? && t.unpack(plain.value).Some?
       && Files(t.unpack(plain.value).value, |t.unpack(plain.value).value|) == f.listing.value.count
  }

  /** `verify_backup`: every component the manifest counts as made. */
  predicate Verifies(t: Tools, f: OnDisk, key: Bytes) {
    f.manifest.Some? &&
    var m := f.manifest.value;
    && (m.mysql.Done? ==> DumpOk(t, f, m.encrypted, key))
    && (m.objects.Done? ==> ArchiveOk(t, f, m.encrypted, key))
  }

  /** The set holds this dump, and this archive with its listing, under the key. */
  predicate Keeps(t: Tools, f: OnDisk, key: Bytes, dump: Bytes, members: seq<Member>, listing: Manifest) {
    f.manifest.Some? &&
    var m := f.manifest.value;
    && m.mysql.Done? && m.completed
    && f.dump.Some? && Content(t, f.dump.value, m.encrypted, key) == Some(dump)
    && f.dumpSum == Some(t.digest(f.dump.value))
    && (m.objects.Done? ==>
          && f.archive.Some? && Content(t, f.archive.value, m.encrypted, key) == Some(t.pack(members))
          && f.archiveSum == Some(t.digest(f.archive.value)) && f.listing == Some(listing))
  }

  /** A set that keeps its contents verifies. */
  lemma {:induction false} KeptSetVerifies(t: Tools, f: OnDisk, key: Bytes, dump: Bytes, members: seq<Member>,
                                           listing: Manifest)
    requires Sound(t) && Keeps(t, f, key, dump, members, listing)
    requires t.wellFormed(dump) && Files(members, |members|) == listing.count
    ensures Verifies(t, f, key)
  {
  }

  /** With any other key a set fails to verify as soon as either file was sealed. */
  lemma {:induction false} WrongKeyFailsClosed(t: Tools, f: OnDisk, plain: Bytes, key: Bytes, nonce: Bytes,
                                               other: Bytes)
    requires Sound(t) && |nonce| == NONCE_LENGTH && !IsEncrypted(plain) && key != other
    requires f.manifest.Some? && f.manifest.value.encrypted
    ensures f.manifest.value.mysql.Done? && f.dump == Some(Sealed(t, plain, key, nonce)) ==> !Verifies(t, f, other)
    ensures f.manifest.value.objects.Done? && f.archive == Some(Sealed(t, plain, key, nonce)) ==> !Verifies(t, f, other)
  {
    SealOpens(t, plain, key, nonce, other);
  }

  /** Bytes of either file of a kept set changed on disk are noticed, encrypted or not and whatever
      the key, as long as the digest tells them from the original. */
  lemma {:induction false} CorruptionIsNoticed(t: Tools, f: OnDisk, key: Bytes, dump: Bytes, members: seq<Member>,
                                               listing: Manifest, changed: Bytes, other: Bytes)
    requires Keeps(t, f, key, dump, members, listing)
    ensures t.digest(changed) != t.digest(f.dump.value) ==> !Verifies(t, f.(dump := Some(changed)), other)
    ensures f.manifest.value.objects.Done? && t.digest(changed) != t.digest(f.archive.value) ==>
      !Verifies(t, f.(archive := Some(changed)), other)
  {
  }

  /** Only what was made is looked at: neither the set's status nor how a component failed to be
      made matters, and a set without any made component verifies. */
  lemma {:induction false} StatusIsNotLookedAt(t: Tools, f: OnDisk, key: Bytes, other: SetManifest)
    requires f.manifest.Some? && other.encrypted == f.manifest.value.encrypted
    requires other.mysql.Done? <==> f.manifest.value.mysql.Done?
    requires other.objects.Done? <==> f.manifest.value.objects.Done?
    ensures Verifies(t, f.(manifest := Some(other)), key) <==> Verifies(t, f, key)
    ensures !other.mysql.Done? && !other.objects.Done? ==> Verifies(t, f, key)
  {
  }

  // ----- what a backup leaves -----------------------------------------------------------------

  /** What was archived: every object of the configured buckets, if objects are included. */
  ghost predicate Made(settings: Settings, objects: map<Name, Object>, buckets: seq<string>, members: seq<Member>,
                       listing: Manifest)
  {
    settings.includeObjects ==>
      && Archived(members, listing, objects)
      && (forall b, k | b in buckets :: (b, k) in objects ==> Covered(listing.entries, b, k))
      && (forall i | 0 <= i < |listing.entries| :: listing.entries[i].bucket in buckets)
  }

  lemma {:induction false} MadeCounts(settings: Settings, objects: map<Name, Object>, buckets: seq<string>,
                                      members: seq<Member>, listing: Manifest)
    requires Made(settings, objects, buckets, members, listing)
    ensures settings.includeObjects ==> Files(members, |members|) == listing.count
  {
    if settings.includeObjects {
      assert forall i | 0 <= i < |members| :: Describes(members[i], listing.entries[i], objects);
      AllFiles(members, |members|);
    }
  }

  function Stored(t: Tools, settings: Settings, plain: Bytes, key: Bytes, nonce: Bytes): Bytes {
    if settings.encryption then Sealed(t, plain, key, nonce) else plain
  }

  /** The set of a backup whose every component was made. */
  predicate Complete(t: Tools, settings: Settings, f: OnDisk, dump: Bytes, members: seq<Member>, listing: Manifest,
                     key: Bytes, dumpNonce: Bytes, archiveNonce: Bytes)
  {
    var d := Stored(t, settings, dump, key, dumpNonce);
    var a := Stored(t, settings, t.pack(members), key, archiveNonce);
    && t.wellFormed(dump)
    && f.manifest ==
       Some(SetManifest(Done, if settings.includeObjects then Done else Absent, settings.encryption, true))
    && f.dump == Some(d) && f.dumpSum == Some(t.digest(d))
    && (settings.includeObjects ==>
          f.archive == Some(a) && f.archiveSum == Some(t.digest(a)) && f.listing == Some(listing))
  }

  predicate Archive(t: Tools, members: seq<Member>, listing: Manifest, archive: Option<Bytes>, sum: Option<nat>,
                    stored: Option<Manifest>)
  {
    && archive == Some(t.pack(members)) && sum == Some(t.digest(t.pack(members)))
    && stored == Some(listing) && Files(members, |members|) == listing.count
  }

  /** The set of a backup of which some component failed: what was made is there, unsealed. */
  ghost predicate Incomplete(t: Tools, f: OnDisk) {
    f.manifest.Some? &&
    var m := f.manifest.value;
    && !m.completed && !m.encrypted
    && (m.mysql.Done? ==> f.dump.Some? && t.wellFormed(f.dump.value) && f.dumpSum == Some(t.digest(f.dump.value)))
    && (m.objects.Done? ==>
          exists members, listing :: Archive(t, members, listing, f.archive, f.archiveSum, f.listing))
  }

  /** Neither plaintext begins with the header that marks a sealed file. */
  predicate Sealable(t: Tools, settings: Settings, dump: Bytes, members: seq<Member>) {
    settings.encryption ==> !IsEncrypted(dump) && (settings.includeObjects ==> !IsEncrypted(t.pack(members)))
  }

  /** What comes back of a plaintext: with encryption, one that begins with the header was left as
      it was and is opened all the same. */
  function Reread(t: Tools, settings: Settings, plain: Bytes, key: Bytes): Option<Bytes> {
    if settings.encryption && IsEncrypted(plain) then Opened(t, plain, key) else Some(plain)
  }

  /** What comes back of dump and archive passes their checks. */
  predicate Rereads(t: Tools, settings: Settings, dump: Bytes, members: seq<Member>, listing: Manifest, key: Bytes) {
    var d := Reread(t, settings, dump, key);
    var a := Reread(t, settings, t.pack(members), key);
    && d.Some? && t.wellFormed(d.value)
    && (settings.includeObjects ==>
          && a.Some? && t.unpack(a.value).Some?
          && Files(t.unpack(a.value).value, |t.unpack(a.value).value|) == listing.count)
  }

  lemma {:induction false} StoredIsReread(t: Tools, settings: Settings, plain: Bytes, key: Bytes, nonce: Bytes)
    requires Sound(t) && |nonce| == NONCE_LENGTH
    ensures Content(t, Stored(t, settings, plain, key, nonce), settings.encryption, key) ==
            Reread(t, settings, plain, key)
  {
    SealOpens(t, plain, key, nonce, key);
  }

  lemma {:induction false} CompleteSet(t: Tools, settings: Settings, f: OnDisk, dump: Bytes, members: seq<Member>,
                                       listing: Manifest, key: Bytes, dumpNonce: Bytes, archiveNonce: Bytes)
    requires Sound(t) && |dumpNonce| == NONCE_LENGTH && |archiveNonce| == NONCE_LENGTH
    requires Complete(t, settings, f, dump, members, listing, key, dumpNonce, archiveNonce)
    requires settings.includeObjects ==> Files(members, |members|) == listing.count
    ensures Verifies(t, f, key) <==> Rereads(t, settings, dump, members, listing, key)
    ensures Sealable(t, settings, dump, members) ==> Verifies(t, f, key) && Keeps(t, f, key, dump, members, listing)
  {
    StoredIsReread(t, settings, dump, key, dumpNonce);
    StoredIsReread(t, settings, t.pack(members), key, archiveNonce);
  }

  lemma {:induction false} IncompleteSetVerifies(t: Tools, f: OnDisk, key: Bytes)
    requires Sound(t) && Incomplete(t, f)
    ensures Verifies(t, f, key)
  {
    if f.manifest.value.objects.Done? {
      var members, listing :| Archive(t, members, listing, f.archive, f.archiveSum, f.listing);
      assert t.unpack(t.pack(members)) == Some(members);
    }
  }

  // ----- the operations ---------------------------------------------------------------------

  class Set {
    const t: Tools
    var f: OnDisk

    constructor (t: Tools)
      ensures this.t == t && f == NO_FILES
    {
      this.t, f := t, NO_FILES;
    }

    /** The dump, if the dump command yields a well-formed one. */
    method BackupDump(dumped: Option<Bytes>) returns (done: bool)
      modifies this
      ensures done <==> dumped.Some? && t.wellFormed(dumped.value)
      ensures done ==> f == old(f).(dump := dumped, dumpSum := Some(t.digest(dumped.value)))
      ensures !done ==> f == old(f)
    {
      done := dumped.Some? && t.wellFormed(dumped.value);
      if done {
        f := f.(dump := dumped);
        f := f.(dumpSum := Some(t.digest(dumped.value)));
      }
    }

    method BackupArchive(store: ObjectStore, buckets: seq<string>, list: string -> seq<string>)
      returns (members: seq<Member>, listing: Manifest)
      requires Lists(list, buckets, store.objects)
      modifies this
      ensures Archived(members, listing, store.objects)
      ensures forall b, k | b in buckets :: (b, k) in store.objects ==> Covered(listing.entries, b, k)
      ensures forall i | 0 <= i < |listing.entries| :: listing.entries[i].bucket in buckets
      ensures f == old(f).(archive := Some(t.pack(members)), archiveSum := Some(t.digest(t.pack(members))),
                           listing := Some(listing))
    {
      members, listing := BackupObjects(store, buckets, list);
      f := f.(archive := Some(t.pack(members)), listing := Some(listing));
      f := f.(archiveSum := Some(t.digest(f.archive.value)));
    }

    /** Sealing in place, and the checksums taken again over what is now on disk. */
    method Encrypt(key: Bytes, dumpNonce: Bytes, archiveNonce: Bytes, withArchive: bool)
      requires f.dump.Some? && (withArchive ==> f.archive.Some?)
      modifies this
      ensures var dump := Sealed(t, old(f).dump.value, key, dumpNonce);
        if withArchive then
          var archive := Sealed(t, old(f).archive.value, key, archiveNonce);
          f == old(f).(dump := Some(dump), dumpSum := Some(t.digest(dump)),
                       archive := Some(archive), archiveSum := Some(t.digest(archive)))
        else f == old(f).(dump := Some(dump), dumpSum := Some(t.digest(dump)))
    {
      f := f.(dump := Some(Sealed(t, f.dump.value, key, dumpNonce)));
      f := f.(dumpSum := Some(t.digest(f.dump.value)));
      if withArchive {
        f := f.(archive := Some(Sealed(t, f.archive.value, key, archiveNonce)));
        f := f.(archiveSum := Some(t.digest(f.archive.value)));
      }
    }

    /** The components of `run_backup` and the manifest.  `reachable` is whether object storage
        answers. */
    method MakeSet(settings: Settings, dumped: Option<Bytes>, store: ObjectStore, reachable: bool,
                   buckets: seq<string>, list: string -> seq<string>, key: Bytes, dumpNonce: Bytes,
                   archiveNonce: Bytes)
      returns (done: bool, ghost members: seq<Member>, ghost listing: Manifest)
      requires f == NO_FILES && Lists(list, buckets, store.objects)
      modifies this
      ensures done <==> dumped.Some? && t.wellFormed(dumped.value) && (settings.includeObjects ==> reachable)
      ensures done ==> Made(settings, store.objects, buckets, members, listing)
      ensures done ==> Complete(t, settings, f, dumped.value, members, listing, key, dumpNonce, archiveNonce)
      ensures !done ==> Incomplete(t, f)
    {
      members, listing := [], Manifest([], 0);
      done := BackupDump(dumped);
      var manifest := SetManifest(if done then Done else Failed, Absent, false, false);
      if settings.includeObjects {
        if reachable {
          members, listing := BackupArchive(store, buckets, list);
          MadeCounts(settings, store.objects, buckets, members, listing);
          manifest := manifest.(objects := Done);
        } else {
          done := false;
          manifest := manifest.(objects := Failed);
        }
      }
      if done && settings.encryption {
        Encrypt(key, dumpNonce, archiveNonce, manifest.objects.Done?);
        manifest := manifest.(encrypted := true);
      }
      f := f.(manifest := Some(manifest.(completed := done)));
      assert !done && manifest.objects.Done? ==> Archive(t, members, listing, f.archive, f.archiveSum, f.listing);
    }

    /** `run_backup`, up to the set it leaves: a completed set keeps what was backed up and
        verifies exactly if what comes back of it passes the checks; a failed one, never sealed,
        verifies as well, and only the result tells. */
    method RunBackup(settings: Settings, dumped: Option<Bytes>, store: ObjectStore, reachable: bool,
                     buckets: seq<string>, list: string -> seq<string>, key: Bytes, dumpNonce: Bytes,
                     archiveNonce: Bytes)
      returns (ok: bool, ghost members: seq<Member>, ghost listing: Manifest)
      requires f == NO_FILES && Sound(t) && Lists(list, buckets, store.objects)
      requires |dumpNonce| == NONCE_LENGTH && |archiveNonce| == NONCE_LENGTH
      modifies this
      ensures f.manifest.Some?
      ensures f.manifest.value.completed <==>
        dumped.Some? && t.wellFormed(dumped.value) && (settings.includeObjects ==> reachable)
      ensures f.manifest.value.completed ==> Made(settings, store.objects, buckets, members, listing)
      ensures f.manifest.value.completed ==>
        (Verifies(t, f, key) <==> Rereads(t, settings, dumped.value, members, listing, key))
      ensures f.manifest.value.completed && Sealable(t, settings, dumped.value, members) ==>
        Verifies(t, f, key) && Keeps(t, f, key, dumped.value, members, listing)
      ensures !f.manifest.value.completed ==> Verifies(t, f, key)
      ensures ok <==> f.manifest.value.completed && (settings.verification ==> Verifies(t, f, key))
    {
      ok, members, listing := MakeSet(settings, dumped, store, reachable, buckets, list, key, dumpNonce, archiveNonce);
      if ok {
        MadeCounts(settings, store.objects, buckets, members, listing);
        CompleteSet(t, settings, f, dumped.value, members, listing, key, dumpNonce, archiveNonce);
      } else {
        IncompleteSetVerifies(t, f, key);
      }
      if ok && settings.verification {
        ok := Verify(key);
      }
    }

    /** `verify_backup`. */
    method Verify(key: Bytes) returns (ok: bool)
      ensures ok <==> Verifies(t, f, key)
    {
      if f.manifest.None? {
        return false;
      }
      var m := f.manifest.value;
      ok := true;
      if m.mysql.Done? {
        ok := ok && DumpOk(t, f, m.encrypted, key);
      }
      if m.objects.Done? {
        ok := ok && ArchiveOk(t, f, m.encrypted, key);
      }
    }

    /** `run_restore`: nothing is touched unless the set is there and, where that is asked for,
        verifies.  `loaded` is what the database client was given. */
    method RunRestore(settings: Settings, key: Bytes, store: ObjectStore, includeObjects: bool)
      returns (ok: bool, loaded: Option<Bytes>)
      modifies store
      ensures f.manifest.None? || (settings.verification && !Verifies(t, f, key)) ==>
        !ok && loaded == None && store.objects == old(store.objects)
      ensures !(includeObjects && settings.includeObjects) ==> store.objects == old(store.objects)
      ensures ok ==> f.dump.Some? && loaded == Content(t, f.dump.value, f.manifest.value.encrypted, key)
      ensures forall dump, members, listing |
                && Sound(t) && Keeps(t, f, key, dump, members, listing) && f.manifest.value.objects.Done?
                && t.wellFormed(dump) && Files(members, |members|) == listing.count ::
        && ok && loaded == Some(dump)
        && (includeObjects && settings.includeObjects ==>
              store.objects == Restored(old(store.objects), members, |members|, listing))
    {
      if f.manifest.None? {
        return false, None;
      }
      if settings.verification {
        var verified := Verify(key);
        if !verified {
          return false, None;
        }
      }
      var encrypted := f.manifest.value.encrypted;
      loaded := if f.dump.Some? then Content(t, f.dump.value, encrypted, key) else None;
      ok := loaded.Some?;
      if includeObjects && settings.includeObjects {
        var plain := if f.archive.Some? then Content(t, f.archive.value, encrypted, key) else None;
        var members := if plain.Some? then t.unpack(plain.value) else None;
        if members.Some? && f.listing.Some? {
          var _ := RestoreObjects(members.value, f.listing.value, store);
        } else {
          ok := false;
        }
      }
    }
  }

  /** Sealed or not, a backup whose plaintexts do not begin with the header verifies, and restored
      with objects into an empty store reproduces every object of the configured buckets. */
  lemma {:induction false} BackupRoundTrip(t: Tools, f: OnDisk, settings: Settings, key: Bytes, dump: Bytes,
                                           members: seq<Member>, listing: Manifest, objects: map<Name, Object>,
                                           buckets: seq<string>)
    requires Sound(t) && Keeps(t, f, key, dump, members, listing) && t.wellFormed(dump)
    requires settings.includeObjects && Made(settings, objects, buckets, members, listing)
    requires forall b | b in buckets :: Text.Lacks(b, '/')
    ensures Verifies(t, f, key)
    ensures Restored(map[], members, |members|, listing) == map x | x in objects && x.0 in buckets :: objects[x]
  {
    ObjectsRoundTrip(members, listing, objects, buckets);
    KeptSetVerifies(t, f, key, dump, members, listing);
  }

  // ----- pruning ----------------------------------------------------------------------------

  /** A directory among the backups; its name is its timestamp. */
  datatype Info = Info(name: nat, drills: bool, mtime: int)

  predicate ByName(a: Info, b: Info) {
    a.name <= b.name
  }

  /** The sets among the first `n` directories: all but the one that holds drill evidence. */
  function SetsOf(dirs: seq<Info>, n: nat): seq<Info>
    requires n <= |dirs|
  {
    if n == 0 then [] else if dirs[n - 1].drills then SetsOf(dirs, n - 1) else SetsOf(dirs, n - 1) + [dirs[n - 1]]
  }

  function Keep(minKeep: int): nat {
    if minKeep < 1 then 1 else minKeep
  }

  /** How many sets stand before the newest few. */
  function Candidates(sets: seq<Info>, minKeep: int): (n: nat)
    ensures n <= |sets| && (n > 0 ==> n + Keep(minKeep) == |sets|)
  {
    if |sets| <= Keep(minKeep) then 0 else |sets| - Keep(minKeep)
  }

  predicate Prunable(sets: seq<Info>, n: nat, cutoff: int, d: Info)
    requires n <= |sets|
  {
    exists i | 0 <= i < n :: sets[i] == d && d.mtime < cutoff
  }

  /** The sets made after this one. */
  function MadeAfter(sets: seq<Info>, d: Info): set<Info> {
    set x | x in sets && d.name < x.name
  }

  lemma {:induction false} SetsAreNotDrills(dirs: seq<Info>, n: nat)
    requires n <= |dirs|
    ensures forall d :: d in SetsOf(dirs, n) <==> d in dirs[..n] && !d.drills
  {
    if n > 0 {
      SetsAreNotDrills(dirs, n - 1);
      assert dirs[..n] == dirs[..n - 1] + [dirs[n - 1]];
    }
  }

  predicate DistinctNames(dirs: seq<Info>) {
    forall i, j | 0 <= i < j < |dirs| :: dirs[i].name != dirs[j].name
  }

  /** `cleanup_old_backups`: exactly the sets that are older than the cutoff and have the newest few
      after them go. */
  method Cleanup(dirs: seq<Info>, minKeep: int, cutoff: int) returns (deleted: seq<Info>)
    ensures var sets := Sort(SetsOf(dirs, |dirs|), ByName);
      && (forall d :: d in deleted <==> Prunable(sets, Candidates(sets, minKeep), cutoff, d))
      && |deleted| <= Candidates(sets, minKeep)
    ensures DistinctNames(dirs) ==> forall d :: d in deleted <==>
      var after := set x | x in dirs && !x.drills && d.name < x.name;
      d in dirs && !d.drills && d.mtime < cutoff && |after| >= 1 && |after| >= minKeep
  {
    var sets := Sort(SetsOf(dirs, |dirs|), ByName);
    deleted := [];
    for i := 0 to Candidates(sets, minKeep)
      invariant |deleted| <= i
      invariant forall d :: d in deleted <==> Prunable(sets, i, cutoff, d)
    {
      if sets[i].mtime < cutoff {
        deleted := deleted + [sets[i]];
      }
    }
    if DistinctNames(dirs) {
      forall d
        ensures d in deleted <==>
          var after := set x | x in dirs && !x.drills && d.name < x.name;
          d in dirs && !d.drills && d.mtime < cutoff && |after| >= 1 && |after| >= minKeep
      {
        PrunableExactly(dirs, minKeep, cutoff, d);
        SetsAreNotDrills(dirs, |dirs|);
        assert dirs[..|dirs|] == dirs;
        assert MadeAfter(SetsOf(dirs, |dirs|), d) == set x | x in dirs && !x.drills && d.name < x.name;
      }
    }
  }

  lemma {:induction false} SetsAreDirs(dirs: seq<Info>, n: nat)
    requires n <= |dirs| && DistinctNames(dirs)
    ensures DistinctNames(SetsOf(dirs, n)) && forall x | x in SetsOf(dirs, n) :: x in dirs[..n]
  {
    if n > 0 {
      SetsAreDirs(dirs, n - 1);
      forall x | x in SetsOf(dirs, n - 1)
        ensures x.name != dirs[n - 1].name
      {
        assert x in dirs[..n - 1];
      }
    }
  }

  lemma {:induction false} SortedByName(sets: seq<Info>)
    requires DistinctNames(sets)
    ensures var s := Sort(sets, ByName);
      && (forall i, j | 0 <= i < j < |s| :: s[i].name < s[j].name) && (forall x :: x in s <==> x in sets)
  {
    var s := Sort(sets, ByName);
    SortHolds(sets, ByName);
    forall i, j | 0 <= i < j < |s|
      ensures s[i].name < s[j].name
    {
      assert s[i] in sets && s[j] in sets && s[i] != s[j];
      assert ByName(s[i], s[j]);
    }
  }

  lemma {:induction false} MadeAfterCounts(s: seq<Info>, i: nat)
    requires i < |s| && forall a, b | 0 <= a < b < |s| :: s[a].name < s[b].name
    ensures |MadeAfter(s, s[i])| == |s| - i - 1
    decreases |s| - i
  {
    if i + 1 < |s| {
      MadeAfterCounts(s, i + 1);
      assert MadeAfter(s, s[i]) == {s[i + 1]} + MadeAfter(s, s[i + 1]) by {
        forall x | x in MadeAfter(s, s[i])
          ensures x == s[i + 1] || s[i + 1].name < x.name
        {
          var j :| 0 <= j < |s| && s[j] == x;
          assert j > i;
        }
      }
    } else {
      assert MadeAfter(s, s[i]) == {};
    }
  }

  lemma {:induction false} PrunableExactly(dirs: seq<Info>, minKeep: int, cutoff: int, d: Info)
    requires DistinctNames(dirs)
    ensures var sets := SetsOf(dirs, |dirs|);
      var s := Sort(sets, ByName);
      Prunable(s, Candidates(s, minKeep), cutoff, d) <==>
      d in sets && d.mtime < cutoff && |MadeAfter(sets, d)| >= Keep(minKeep)
  {
    var sets := SetsOf(dirs, |dirs|);
    var s := Sort(sets, ByName);
    SetsAreDirs(dirs, |dirs|);
    SortedByName(sets);
    if d in sets {
      var i :| 0 <= i < |s| && s[i] == d;
      MadeAfterCounts(s, i);
      assert MadeAfter(s, d) == MadeAfter(sets, d);
    }
  }

  /** Whatever the ages, as many sets as are to be kept stay, or all where there are fewer; so one does
      where there is one. */
  lemma {:induction false} NewestSetsStay(dirs: seq<Info>, minKeep: int, cutoff: int, deleted: seq<Info>)
    requires DistinctNames(dirs)
    requires forall d :: d in deleted <==>
      var after := set x | x in dirs && !x.drills && d.name < x.name;
      d in dirs && !d.drills && d.mtime < cutoff && |after| >= 1 && |after| >= minKeep
    ensures var sets, kept := set x | x in dirs && !x.drills, set x | x in dirs && !x.drills && x !in deleted;
      kept == sets || (|kept| >= 1 && |kept| >= minKeep)
  {
    var sets := SetsOf(dirs, |dirs|);
    SetsAreDirs(dirs, |dirs|);
    SetsAreNotDrills(dirs, |dirs|);
    assert dirs[..|dirs|] == dirs;
    var newest := Newest(sets, Keep(minKeep));
    var kept := set x | x in dirs && !x.drills && x !in deleted;
    forall d | d in newest
      ensures d in kept
    {
      assert MadeAfter(sets, d) == set x | x in dirs && !x.drills && d.name < x.name;
    }
    InfoSubsetSize(newest, kept);
    if |sets| < Keep(minKeep) {
      forall d | d in sets
        ensures d in kept
      {
        AfterFits(sets, d);
        assert MadeAfter(sets, d) == set x | x in dirs && !x.drills && d.name < x.name;
      }
    }
  }

  lemma {:induction false} AfterFits(sets: seq<Info>, d: Info)
    requires DistinctNames(sets) && d in sets
    ensures |MadeAfter(sets, d)| < |sets|
  {
    var s := Sort(sets, ByName);
    SortedByName(sets);
    SortHolds(sets, ByName);
    var i :| 0 <= i < |s| && s[i] == d;
    MadeAfterCounts(s, i);
    assert MadeAfter(s, d) == MadeAfter(sets, d);
  }

  lemma {:induction false} Newest(sets: seq<Info>, k: nat) returns (newest: set<Info>)
    requires DistinctNames(sets) && k >= 1
    ensures |newest| == if |sets| < k then |sets| else k
    ensures forall x | x in newest :: x in sets && |MadeAfter(sets, x)| < k
  {
    var s := Sort(sets, ByName);
    SortedByName(sets);
    SortHolds(sets, ByName);
    newest := {};
    if sets != [] {
      var first := if |s| < k then 0 else |s| - k;
      newest := {s[first]} + MadeAfter(s, s[first]);
      MadeAfterCounts(s, first);
      assert MadeAfter(s, s[first]) == MadeAfter(sets, s[first]);
      forall x | x in MadeAfter(sets, s[first])
        ensures |MadeAfter(sets, x)| < k
      {
        LaterHasFewerAfter(sets, s[first], x);
      }
    }
  }

  lemma {:induction false} LaterHasFewerAfter(sets: seq<Info>, d: Info, x: Info)
    requires x in MadeAfter(sets, d)
    ensures |MadeAfter(sets, x)| < |MadeAfter(sets, d)|
  {
    InfoSubsetSize(MadeAfter(sets, x) + {x}, MadeAfter(sets, d));
  }

  lemma {:induction false} InfoSubsetSize(a: set<Info>, b: set<Info>)
    requires a <= b
    ensures |a| <= |b|
  {
    assert b == a + (b - a);
  }
}
