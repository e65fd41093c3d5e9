/**
  Object storage to one archive and back: the archive's members beside a manifest of their
  metadata.
 */
module ObjectBackup {
  import opened Basics
  import opened Text

  type Bytes = seq<nat>

  datatype Object = Object(data: Bytes, contentType: Option<string>, metadata: map<string, string>)

  /** Bucket and key. */
  type Name = (string, string)

  class ObjectStore {
    var objects: map<Name, Object>
    var present: set<string>

    method EnsureBucket(bucket: string)
      modifies this`present
      ensures present == old(present) + {bucket}
    {
      present := present + {bucket};
    }

    method Write(name: Name, o: Object)
      modifies this`objects
      ensures objects == old(objects)[name := o]
    {
      objects := objects[name := o];
    }
  }

  // ----- the archive and its manifest -------------------------------------------------------

  datatype Entry = Entry(bucket: string, key: string, size: nat, contentType: Option<string>,
                         metadata: map<string, string>)

  datatype Manifest = Manifest(entries: seq<Entry>, count: nat)

  datatype Member = Member(name: string, isFile: bool, data: Bytes)

  /** The name an object has in the archive. */
  function Joined(bucket: string, key: string): string {
    Rejoin(bucket, '/', Some(key))
  }

  /** What the archive and the manifest say of one object. */
  predicate Describes(m: Member, e: Entry, objects: map<Name, Object>) {
    && (e.bucket, e.key) in objects
    && var o := objects[(e.bucket, e.key)];
       && m == Member(Joined(e.bucket, e.key), true, o.data)
       && e.size == |o.data| && e.contentType == o.contentType && e.metadata == o.metadata
  }

  predicate Archived(members: seq<Member>, manifest: Manifest, objects: map<Name, Object>) {
    && |members| == |manifest.entries| == manifest.count
    && forall i | 0 <= i < |members| :: Describes(members[i], manifest.entries[i], objects)
  }

  /** An object is among the first `n` entries. */
  predicate Covered(entries: seq<Entry>, bucket: string, key: string) {
    exists i | 0 <= i < |entries| :: entries[i].bucket == bucket && entries[i].key == key
  }

  /** The listing names the stored keys of every configured bucket. */
  ghost predicate Lists(list: string -> seq<string>, buckets: seq<string>, objects: map<Name, Object>) {
    forall b, k | b in buckets :: k in list(b) <==> (b, k) in objects
  }

  /** Every listed object of the first `n` buckets has its entry. */
  ghost predicate Covers(entries: seq<Entry>, buckets: seq<string>, n: nat, list: string -> seq<string>)
    requires n <= |buckets|
  {
    forall i, k | 0 <= i < n && k in list(buckets[i]) :: Covered(entries, buckets[i], k)
  }

  lemma {:induction false} CoversOneMore(entries: seq<Entry>, more: seq<Entry>, buckets: seq<string>, n: nat,
                                         list: string -> seq<string>)
    requires n < |buckets| && Covers(entries, buckets, n, list) && |more| == |list(buckets[n])|
    requires forall i | 0 <= i < |more| :: more[i].bucket == buckets[n] && more[i].key == list(buckets[n])[i]
    ensures Covers(entries + more, buckets, n + 1, list)
  {
    CoveredStays(entries, more);
    forall k | k in list(buckets[n])
      ensures Covered(more, buckets[n], k)
    {
      var i :| 0 <= i < |more| && list(buckets[n])[i] == k;
      assert more[i].key == k;
    }
  }

  /** `backup_objects`. */
  method BackupObjects(store: ObjectStore, buckets: seq<string>, list: string -> seq<string>)
    returns (members: seq<Member>, manifest: Manifest)
    requires Lists(list, buckets, store.objects)
    ensures Archived(members, manifest, store.objects)
    ensures forall b, k | b in buckets :: (b, k) in store.objects ==> Covered(manifest.entries, b, k)
    ensures forall i | 0 <= i < |manifest.entries| :: manifest.entries[i].bucket in buckets
  {
    members := [];
    var entries: seq<Entry> := [];
    for a := 0 to |buckets|
      invariant Archived(members, Manifest(entries, |members|), store.objects)
      invariant Covers(entries, buckets, a, list)
      invariant forall i | 0 <= i < |entries| :: entries[i].bucket in buckets
    {
      var more, described := ArchiveBucket(store, buckets[a], list(buckets[a]));
      CoversOneMore(entries, described, buckets, a, list);
      members, entries := members + more, entries + described;
    }
    manifest := Manifest(entries, |members|);
    forall b, k | b in buckets && (b, k) in store.objects
      ensures Covered(manifest.entries, b, k)
    {
      var i :| 0 <= i < |buckets| && buckets[i] == b;
      assert k in list(buckets[i]);
    }
  }

  method ArchiveBucket(store: ObjectStore, bucket: string, keys: seq<string>)
    returns (members: seq<Member>, entries: seq<Entry>)
    requires forall i | 0 <= i < |keys| :: (bucket, keys[i]) in store.objects
    ensures |members| == |entries| == |keys|
    ensures forall i | 0 <= i < |keys| ::
      Describes(members[i], entries[i], store.objects) && entries[i].bucket == bucket && entries[i].key == keys[i]
  {
    members, entries := [], [];
    for i := 0 to |keys|
      invariant |members| == |entries| == i
      invariant forall j | 0 <= j < i ::
        Describes(members[j], entries[j], store.objects) && entries[j].bucket == bucket && entries[j].key == keys[j]
    {
      var o := store.objects[(bucket, keys[i])];
      members := members + [Member(Joined(bucket, keys[i]), true, o.data)];
      entries := entries + [Entry(bucket, keys[i], |o.data|, o.contentType, o.metadata)];
    }
  }

  lemma {:induction false} CoveredStays(a: seq<Entry>, b: seq<Entry>)
    ensures forall bucket, key | Covered(a, bucket, key) || Covered(b, bucket, key) :: Covered(a + b, bucket, key)
  {
    forall bucket, key | Covered(a, bucket, key) || Covered(b, bucket, key)
      ensures Covered(a + b, bucket, key)
    {
      if Covered(a, bucket, key) {
        var i :| 0 <= i < |a| && a[i].bucket == bucket && a[i].key == key;
        assert (a + b)[i] == a[i];
      } else {
        var i :| 0 <= i < |b| && b[i].bucket == bucket && b[i].key == key;
        assert (a + b)[|a| + i] == b[i];
      }
    }
  }

  // ----- restoring --------------------------------------------------------------------------

  /** Bucket and key of a member name: up to the first slash, and the rest. */
  function NameOf(name: string): Name {
    var (bucket, key) := Partition(name, '/');
    (bucket, if key.Some? then key.value else "")
  }

  /** The manifest's entry for a name; the last one counts. */
  function MetaOf(entries: seq<Entry>, n: nat, name: Name): Option<Entry>
    requires n <= |entries|
  {
    if n == 0 then None
    else if (entries[n - 1].bucket, entries[n - 1].key) == name then Some(entries[n - 1])
    else MetaOf(entries, n - 1, name)
  }

  function ObjectOf(m: Member, meta: Option<Entry>): Object {
    if meta.Some? then Object(m.data, meta.value.contentType, meta.value.metadata) else Object(m.data, None, map[])
  }

  /** A store after the first `n` members of an archive are written to it. */
  function Restored(objects: map<Name, Object>, members: seq<Member>, n: nat, manifest: Manifest): map<Name, Object>
    requires n <= |members|
  {
    if n == 0 then objects
    else
      var m := members[n - 1];
      var before := Restored(objects, members, n - 1, manifest);
      var name := NameOf(m.name);
      if m.isFile then before[name := ObjectOf(m, MetaOf(manifest.entries, |manifest.entries|, name))] else before
  }

  function Files(members: seq<Member>, n: nat): nat
    requires n <= |members|
  {
    if n == 0 then 0 else Files(members, n - 1) + if members[n - 1].isFile then 1 else 0
  }

  /** `restore_objects`. */
  method RestoreObjects(members: seq<Member>, manifest: Manifest, store: ObjectStore) returns (restored: nat)
    modifies store
    ensures store.objects == Restored(old(store.objects), members, |members|, manifest)
    ensures forall i | 0 <= i < |manifest.entries| :: manifest.entries[i].bucket in store.present
    ensures restored == Files(members, |members|)
  {
    var metaBy: map<Name, Entry> := map[];
    for n := 0 to |manifest.entries|
      invariant store.objects == old(store.objects)
      invariant forall x :: (if x in metaBy then Some(metaBy[x]) else None) == MetaOf(manifest.entries, n, x)
      invariant forall i | 0 <= i < n :: manifest.entries[i].bucket in store.present
    {
      var e := manifest.entries[n];
      metaBy := metaBy[(e.bucket, e.key) := e];
      store.EnsureBucket(e.bucket);
    }
    restored := 0;
    for n := 0 to |members|
      invariant store.objects == Restored(old(store.objects), members, n, manifest)
      invariant forall i | 0 <= i < |manifest.entries| :: manifest.entries[i].bucket in store.present
      invariant restored == Files(members, n)
    {
      var m := members[n];
      if m.isFile {
        var name := NameOf(m.name);
        store.Write(name, ObjectOf(m, if name in metaBy then Some(metaBy[name]) else None));
        restored := restored + 1;
      }
    }
  }

  /** The structural half of `verify_objects_archive`: as many file members as the manifest
      counts. */
  method CountMatches(members: seq<Member>, manifest: Manifest) returns (ok: bool)
    ensures ok <==> Files(members, |members|) == manifest.count
  {
    var files := 0;
    for n := 0 to |members|
      invariant files == Files(members, n)
    {
      if members[n].isFile {
        files := files + 1;
      }
    }
    ok := files == manifest.count;
  }

  function FileMembers(members: seq<Member>, n: nat): set<nat>
    requires n <= |members|
  {
    set i: nat | i < n && members[i].isFile
  }

  /** Counted are the members that are files. */
  lemma {:induction false} FilesAsWritten(members: seq<Member>, n: nat)
    requires n <= |members|
    ensures Files(members, n) == |FileMembers(members, n)|
  {
    if n > 0 {
      FilesAsWritten(members, n - 1);
      assert FileMembers(members, n) == FileMembers(members, n - 1) + if members[n - 1].isFile then {n - 1} else {};
    } else {
      assert FileMembers(members, 0) == {};
    }
  }

  /** And a member that is none restores nothing, while one that is writes the one object it names. */
  lemma {:induction false} MembersAsWritten(objects: map<Name, Object>, members: seq<Member>, n: nat,
                                            manifest: Manifest, name: Name)
    requires n < |members|
    ensures var before, after := Restored(objects, members, n, manifest), Restored(objects, members, n + 1, manifest);
      && (!members[n].isFile ==> after == before)
      && (members[n].isFile && name != NameOf(members[n].name) ==>
            (name in after <==> name in before) && (name in after ==> after[name] == before[name]))
      && (members[n].isFile && name == NameOf(members[n].name) ==>
            name in after && after[name].data == members[n].data)
  {
  }

  // ----- round trip -------------------------------------------------------------------------

  /** A name in the archive leads back to its object exactly if the bucket has no slash. */
  lemma {:induction false} NamesLeadBack(bucket: string, key: string)
    ensures NameOf(Joined(bucket, key)) == (bucket, key) <==> Lacks(bucket, '/')
  {
    var name := Joined(bucket, key);
    PartitionSplits(name, '/');
    if Lacks(bucket, '/') {
      PartitionIs(bucket, '/', Some(key));
    }
  }

  /** The entry carries its object's metadata. */
  predicate Carries(e: Entry, objects: map<Name, Object>) {
    && (e.bucket, e.key) in objects
    && e.contentType == objects[(e.bucket, e.key)].contentType && e.metadata == objects[(e.bucket, e.key)].metadata
  }

  lemma {:induction false} MetaIsTheObjects(entries: seq<Entry>, n: nat, name: Name, objects: map<Name, Object>)
    requires n <= |entries| && forall i | 0 <= i < n :: Carries(entries[i], objects)
    ensures var e := MetaOf(entries, n, name);
      && (e.Some? ==> Carries(e.value, objects) && (e.value.bucket, e.value.key) == name)
      && (e.None? ==> forall i | 0 <= i < n :: (entries[i].bucket, entries[i].key) != name)
  {
    if n > 0 {
      MetaIsTheObjects(entries, n - 1, name, objects);
    }
  }

  /** A member restores to the object it was made from. */
  lemma {:induction false} MemberRestoresItsObject(members: seq<Member>, i: nat, manifest: Manifest,
                                                   objects: map<Name, Object>)
    requires i < |members| && Archived(members, manifest, objects) && Lacks(manifest.entries[i].bucket, '/')
    ensures var e := manifest.entries[i]; var name := (e.bucket, e.key);
      && NameOf(members[i].name) == name && members[i].isFile && name in objects
      && ObjectOf(members[i], MetaOf(manifest.entries, |manifest.entries|, name)) == objects[name]
  {
    var e := manifest.entries[i];
    assert Describes(members[i], e, objects);
    NamesLeadBack(e.bucket, e.key);
    forall j | 0 <= j < |members|
      ensures Carries(manifest.entries[j], objects)
    {
      assert Describes(members[j], manifest.entries[j], objects);
    }
    MetaIsTheObjects(manifest.entries, |manifest.entries|, (e.bucket, e.key), objects);
  }

  /** The name of the object an entry describes. */
  function EntryName(e: Entry): Name {
    (e.bucket, e.key)
  }

  lemma {:induction false} OneMemberMore(members: seq<Member>, n: nat, manifest: Manifest, objects: map<Name, Object>)
    requires 0 < n <= |members| && Archived(members, manifest, objects) && Lacks(manifest.entries[n - 1].bucket, '/')
    ensures var name := EntryName(manifest.entries[n - 1]);
      && name in objects
      && Restored(map[], members, n, manifest) == Restored(map[], members, n - 1, manifest)[name := objects[name]]
  {
    MemberRestoresItsObject(members, n - 1, manifest, objects);
  }

  /** The objects with the first `n` of some names. */
  function Picked(names: seq<Name>, n: nat, objects: map<Name, Object>): map<Name, Object>
    requires n <= |names| && forall i | 0 <= i < |names| :: names[i] in objects
  {
    if n == 0 then map[] else Picked(names, n - 1, objects)[names[n - 1] := objects[names[n - 1]]]
  }

  lemma {:induction false} PickedHolds(names: seq<Name>, n: nat, objects: map<Name, Object>)
    requires n <= |names| && forall i | 0 <= i < |names| :: names[i] in objects
    ensures forall x :: x in Picked(names, n, objects) <==> x in names[..n]
    ensures forall x | x in Picked(names, n, objects) :: x in objects && Picked(names, n, objects)[x] == objects[x]
  {
    if n > 0 {
      PickedHolds(names, n - 1, objects);
      assert names[..n] == names[..n - 1] + [names[n - 1]];
    }
  }

  function Names(entries: seq<Entry>): (names: seq<Name>)
    ensures |names| == |entries|
  {
    seq(|entries|, i requires 0 <= i < |entries| => EntryName(entries[i]))
  }

  /** Restoring over an empty store gives the objects of the entries, whole. */
  lemma {:induction false} RestoredAreTheOriginals(members: seq<Member>, n: nat, manifest: Manifest,
                                                   objects: map<Name, Object>)
    requires n <= |members| && Archived(members, manifest, objects)
    requires forall i | 0 <= i < |members| :: Lacks(manifest.entries[i].bucket, '/')
    requires forall i | 0 <= i < |members| :: Names(manifest.entries)[i] in objects
    ensures Restored(map[], members, n, manifest) == Picked(Names(manifest.entries), n, objects)
  {
    if n > 0 {
      RestoredAreTheOriginals(members, n - 1, manifest, objects);
      OneMemberMore(members, n, manifest, objects);
    }
  }

  lemma {:induction false} AllFiles(members: seq<Member>, n: nat)
    requires n <= |members| && forall i | 0 <= i < n :: members[i].isFile
    ensures Files(members, n) == n
  {
    if n > 0 {
      AllFiles(members, n - 1);
    }
  }

  /** Backup and restore reproduce exactly the objects of the configured buckets, bytes, content
      type and metadata, and the archive passes its own check. */
  lemma {:induction false} ObjectsRoundTrip(members: seq<Member>, manifest: Manifest, objects: map<Name, Object>,
                                            buckets: seq<string>)
    requires Archived(members, manifest, objects)
    requires forall b, k | b in buckets :: (b, k) in objects ==> Covered(manifest.entries, b, k)
    requires forall i | 0 <= i < |manifest.entries| :: manifest.entries[i].bucket in buckets
    requires forall b | b in buckets :: Lacks(b, '/')
    ensures Restored(map[], members, |members|, manifest) == map x | x in objects && x.0 in buckets :: objects[x]
    ensures Files(members, |members|) == manifest.count
  {
    var names := Names(manifest.entries);
    EntriesNameTheObjects(members, manifest, objects, buckets);
    RestoredAreTheOriginals(members, |members|, manifest, objects);
    PickedHolds(names, |names|, objects);
    assert names[..|names|] == names;
    AllFiles(members, |members|);
  }

  lemma {:induction false} EntriesNameTheObjects(members: seq<Member>, manifest: Manifest, objects: map<Name, Object>,
                                                 buckets: seq<string>)
    requires Archived(members, manifest, objects)
    requires forall b, k | b in buckets :: (b, k) in objects ==> Covered(manifest.entries, b, k)
    requires forall i | 0 <= i < |manifest.entries| :: manifest.entries[i].bucket in buckets
    ensures forall i | 0 <= i < |members| :: Names(manifest.entries)[i] in objects && members[i].isFile
    ensures forall x :: x in Names(manifest.entries) <==> x in objects && x.0 in buckets
  {
    var names := Names(manifest.entries);
    forall i | 0 <= i < |members|
      ensures names[i] in objects && names[i].0 in buckets && members[i].isFile
    {
      assert Describes(members[i], manifest.entries[i], objects);
    }
    forall x: Name | x in objects && x.0 in buckets
      ensures x in names
    {
      assert x == (x.0, x.1) && Covered(manifest.entries, x.0, x.1);
      var i :| 0 <= i < |manifest.entries| && manifest.entries[i].bucket == x.0 && manifest.entries[i].key == x.1;
      assert names[i] == x;
    }
  }
}
