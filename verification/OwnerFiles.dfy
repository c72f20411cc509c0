/** Writing, restoring and trashing files and directories of a workspace root, while others change the
    volume at every await: nothing is overwritten or moved away before a record that reads back to its
    content is attached to the journal row. */
module OwnerFiles {
  import opened Base64
  import opened Documents
  import opened Formats
  import J = Journal
  import opened Octets
  import opened Recovery
  import Utf8
  import opened Wrappers

  class Owner {
    const root: Root
    const store: Store
    const journal: J.Repository
    const parse: string -> Option<Descriptor>
    const sha: Bytes -> Digest
    var volume: Volume

    constructor (root: Root, store: Store, journal: J.Repository, parse: string -> Option<Descriptor>, sha: Bytes -> Digest,
                 volume: Volume)
      requires journal.Valid() && Ideal(store.codec) && Reparses(parse)
      ensures Valid()
      ensures this.root == root && this.store == store && this.journal == journal && this.parse == parse && this.sha == sha
      ensures this.volume == volume
    {
      this.root, this.store, this.journal, this.parse, this.sha := root, store, journal, parse, sha;
      this.volume := volume;
    }

    ghost predicate Valid()
      reads journal
    {
      journal.Valid() && Ideal(store.codec) && Reparses(parse)
    }

    /** Ids and nonces not used before. */
    predicate Fresh(l: Luck)
      reads store
    {
      IsUuid(l.recoveryId) && l.recoveryId !in store.files && |l.nonce| == NONCE && IsUuid(l.vaultId)
    }

    function VersionOf(path: string, content: Bytes): Version {
      Version(root, path, content)
    }

    /** The journal row of an operation points at a record of this content. */
    predicate Recorded(id: string, path: string, identity: string, operation: Operation, content: Bytes)
      reads journal, store
    {
      && id in journal.rows && journal.rows[id].recoveryId.Some?
      && store.Reads(journal.rows[id].recoveryId.value) == Some(Record(ContextOf(root, path, Some(identity), operation), content))
    }

    // ----- what the words mean -----

    /** What a write that changed anything has done. */
    lemma {:induction false} OverwrittenMeans(before: Volume, id: string, path: string, expected: Option<Version>, bytes: Bytes, l: Luck)
      requires Overwritten(before, id, path, expected, bytes, l)
      ensures var (seen, met) := (l.others(0, before), l.others(2, l.others(1, l.others(0, before))));
              && path in volume.files && volume.files[path].File? && volume.files[path].bytes == bytes
              && volume.vault == met.vault && volume.files.Keys == met.files.Keys + {path}
              && (forall p :: p in met.files && p != path ==> volume.files[p] == met.files[p])
              && (expected.None? ==> path !in met.files)
              && (expected.Some? ==>
                    && path in seen.files && path in met.files && met.files[path] == seen.files[path]
                    && seen.files[path] == File(volume.files[path].identity, expected.value.bytes)
                    && expected.value.root == root && expected.value.path == path && |expected.value.bytes| <= 0x10_0000
                    && id in journal.rows && journal.rows[id].recoveryId == Some(l.recoveryId)
                    && store.Reads(l.recoveryId) ==
                       Some(Record(Context(root.id, root.identity, path, Some(volume.files[path].identity), Write), expected.value.bytes)))
    {
    }

    /** What a trash that changed anything has done. */
    lemma {:induction false} VaultedMeans(before: Volume, id: string, path: string, expected: Version, l: Luck)
      requires Vaulted(before, id, path, expected, l)
      ensures var (seen, met) := (l.others(0, before), l.others(2, l.others(1, l.others(0, before))));
              && path in met.files && path !in volume.files && l.vaultId !in met.vault
              && volume.files == met.files - {path} && volume.vault == met.vault[l.vaultId := met.files[path]]
              && expected.root == root && expected.path == path
              && exists o :: && MovingLook(sha, seen, path) == Some(o) && Summary(sha, met.files[path]) == Some(o)
                             && expected.bytes == Content(o)
                             && id in journal.rows && journal.rows[id].recoveryId == Some(l.recoveryId)
                             && store.Reads(l.recoveryId) ==
                                Some(Record(Context(root.id, root.identity, path, Some(o.identity), Trash), DescriptorOf(o, l.vaultId)))
    {
      hide Content, Summary, DescriptorOf;
      var o := MovingLook(sha, Seen(l, before), path).value;
      assert MovingLook(sha, Seen(l, before), path) == Some(o);
    }

    /** What a restore from the vault that changed anything has done. */
    lemma {:induction false} RevivedMeans(before: Volume, r: Record, path: string, l: Luck)
      requires Revived(before, r, path, l)
      ensures var met := l.others(2, l.others(1, l.others(0, before)));
              && Described(r).Some? && var t := Described(r).value;
                 && path !in met.files && t.vaultId in met.vault && Summary(sha, met.vault[t.vaultId]) == Some(t.original)
                 && volume.files == met.files[path := met.vault[t.vaultId]] && volume.vault == met.vault - {t.vaultId}
    {
      hide Described, Summary;
    }

    lemma {:induction false} IsForIff(recoveryId: string, path: string)
      ensures IsFor(recoveryId, path) <==>
              exists source, operation, bytes ::
                store.Reads(recoveryId) == Some(Record(Context(root.id, root.identity, path, source, operation), bytes))
    {
      if IsFor(recoveryId, path) {
        var r := store.Reads(recoveryId).value;
        assert r == Record(Context(root.id, root.identity, path, r.context.sourceIdentity, r.context.operation), r.bytes);
      }
    }

    // ----- when a call goes through -----

    /** The store takes the content as a record, and the journal takes the record's id. */
    ghost predicate Records(id: string, path: string, identity: string, operation: Operation, content: Bytes, l: Luck)
      reads journal
    {
      var x := ContextOf(root, path, Some(identity), operation);
      && IsContext(x) && |content| <= LIMIT && l.io.Whole?
      && |Written(store.codec, x, content, l.recoveryId, l.nonce)| <= FILE_LIMIT
      && J.Accepts(journal.Contents(), J.Attach(id, l.recoveryId))
    }

    /** The first look finds the version the caller saw. */
    predicate Current(v: Volume, path: string, expected: Version) {
      Look(v, path).Some? && expected == VersionOf(path, Look(v, path).value.bytes)
    }

    /** What the looks, the owner and the helper must find for a write. */
    predicate WriteFits(v: Volume, path: string, expected: Option<Version>, l: Luck) {
      && l.fate.Applied? && (l.sensitive ==> l.authorized)
      && if expected.None? then path !in Met(l, v).files
         else
           && Current(Seen(l, v), path, expected.value)
           && (l.sensitive ==> Look(Asked(l, v), path) == Look(Seen(l, v), path))
           && Held(Met(l, v).files, path) == Look(Seen(l, v), path)
    }

    ghost predicate Replaceable(id: string, path: string, expected: Option<Version>, l: Luck)
      reads this, journal
    {
      && WriteFits(volume, path, expected, l)
      && (expected.Some? ==>
            var d := Look(Seen(l, volume), path).value; Records(id, path, d.identity, Write, d.bytes, l))
    }

    predicate MovingCurrent(v: Volume, path: string, expected: Version) {
      MovingLook(sha, v, path).Some? && expected == VersionOf(path, Content(MovingLook(sha, v, path).value))
    }

    /** The second look compares identity and version. */
    predicate Alike(a: Option<Original>, b: Option<Original>) {
      a.Some? && b.Some? && a.value.identity == b.value.identity && Content(a.value) == Content(b.value)
    }

    predicate TrashFits(v: Volume, path: string, expected: Version, l: Luck) {
      && l.fate.Applied? && l.authorized && MovingCurrent(Seen(l, v), path, expected)
      && Alike(MovingLook(sha, Asked(l, v), path), MovingLook(sha, Seen(l, v), path))
      && path in Met(l, v).files && Summary(sha, Met(l, v).files[path]) == MovingLook(sha, Seen(l, v), path)
      && l.vaultId !in Met(l, v).vault
    }

    ghost predicate Trashable(id: string, path: string, expected: Version, l: Luck)
      reads this, journal
    {
      && TrashFits(volume, path, expected, l)
      && var o := MovingLook(sha, Seen(l, volume), path).value; Records(id, path, o.identity, Trash, DescriptorOf(o, l.vaultId), l)
    }

    /** The id reads as a record of this very path. */
    predicate IsFor(recoveryId: string, path: string)
      reads store
    {
      && store.Reads(recoveryId).Some?
      && var x := store.Reads(recoveryId).value.context; x.rootId == root.id && x.rootIdentity == root.identity && x.path == path
    }

    /** What a trash record describes is in the vault, and its place is free. */
    predicate Revivable(r: Record, v: Volume, path: string, expected: Option<Version>, l: Luck)
      reads store
    {
      && expected.None? && Described(r).Some? && l.fate.Applied?
      && var t := Described(r).value;
         && (l.sensitive || t.original.FolderWas? ==> l.authorized)
         && path !in Met(l, v).files && t.vaultId in Met(l, v).vault
         && Summary(sha, Met(l, v).vault[t.vaultId]) == Some(t.original)
    }

    ghost predicate Restorable(id: string, recoveryId: string, path: string, expected: Option<Version>, l: Luck)
      reads this, store, journal
    {
      && IsFor(recoveryId, path)
      && var r := store.Reads(recoveryId).value;
         if r.context.operation == Trash then Revivable(r, volume, path, expected, l)
         else r.context.operation != Directory && |r.bytes| <= SNAPSHOT_LIMIT && Replaceable(id, path, expected, l)
    }

    /** Others act while the call waits. */
    method Await(k: nat, l: Luck)
      modifies this
      ensures volume == l.others(k, old(volume))
    {
      volume := l.others(k, volume);
    }

    // ----- write -----

    /** The native write. It may be dispatched over an existing file only once that file's content is
        on record. The helper compares identity and bytes before it changes anything. */
    method DispatchWrite(id: string, path: string, expected: Option<Document>, bytes: Bytes, l: Luck)
      returns (applied: bool, ghost changed: bool)
      requires expected.Some? ==> expected.value.File? && Recorded(id, path, expected.value.identity, Write, expected.value.bytes)
      modifies this
      ensures var met := l.others(2, old(volume));
              && (applied <==> l.fate.Applied? && Held(met.files, path) == expected)
              && (changed ==> Held(met.files, path) == expected) && (applied ==> changed)
              && volume == if changed then met.(files := met.files[path := Rewritten(expected, bytes, l)]) else met
    {
      Await(2, l);
      changed := false;
      if Held(volume.files, path) != expected || l.fate.Refused? { return false, false; }
      if l.fate.Applied? || l.fate.changed {
        volume, changed := volume.(files := volume.files[path := Rewritten(expected, bytes, l)]), true;
      }
      applied := l.fate.Applied?;
    }

    /** A rewritten file keeps its identity. */
    function Rewritten(expected: Option<Document>, bytes: Bytes, l: Luck): Document {
      File(if expected.Some? then expected.value.identity else l.identity, bytes)
    }

    /** The record of a preimage or a descriptor, and its id in the journal: all of it or no success. */
    method KeepRecord(id: string, path: string, identity: string, operation: Operation, content: Bytes, l: Luck) returns (ok: bool)
      requires Valid() && Fresh(l)
      modifies store, journal
      ensures Valid()
      ensures ok <==> old(Records(id, path, identity, operation, content, l))
      ensures ok ==> Recorded(id, path, identity, operation, content) && journal.rows[id].recoveryId == Some(l.recoveryId)
                     && IsIdentity(identity)
      ensures ok ==> journal.Contents() == J.Apply(old(journal.Contents()), J.Attach(id, l.recoveryId))
      ensures Apart(old(journal.Contents()), id, l)
      ensures forall other :: other != l.recoveryId ==> store.Reads(other) == old(store.Reads(other))
      ensures store.files.Keys <= old(store.files).Keys + {l.recoveryId}
    {
      hide IsUuid, IsId, IsRootId, IsIdentity, IsRelativePath, ReadBack, Ideal, Written, J.Sound;
      var captured := store.Capture(ContextOf(root, path, Some(identity), operation), content, l.recoveryId, l.nonce, l.io);
      if !captured { return false; }
      ok := journal.AttachRecovery(id, l.recoveryId);
    }

    /** All a body does to the journal is to attach its record. */
    predicate Apart(before: J.Store, id: string, l: Luck)
      reads journal
    {
      journal.Contents() == before || journal.Contents() == J.Apply(before, J.Attach(id, l.recoveryId))
    }

    /** Capture the preimage, attach it, dispatch. Nothing changes before the record is there. */
    method Replace(id: string, path: string, preimage: Option<Document>, bytes: Bytes, l: Luck) returns (ok: bool, ghost changed: bool)
      requires Valid() && Fresh(l) && (preimage.Some? ==> preimage.value.File?)
      modifies this, store, journal
      ensures Valid()
      ensures ok <==> && l.fate.Applied? && Held(l.others(2, old(volume)).files, path) == preimage
                      && (preimage.Some? ==> old(Records(id, path, preimage.value.identity, Write, preimage.value.bytes, l)))
      ensures ok ==> changed
      ensures changed ==>
                && Held(l.others(2, old(volume)).files, path) == preimage
                && volume == l.others(2, old(volume)).(files := l.others(2, old(volume)).files[path := Rewritten(preimage, bytes, l)])
                && (preimage.Some? ==> && Recorded(id, path, preimage.value.identity, Write, preimage.value.bytes)
                                       && journal.rows[id].recoveryId == Some(l.recoveryId))
      ensures !changed ==> volume == old(volume) || volume == l.others(2, old(volume))
      ensures ok && preimage.Some? ==> journal.Contents() == J.Apply(old(journal.Contents()), J.Attach(id, l.recoveryId))
      ensures Apart(old(journal.Contents()), id, l)
      ensures forall other :: other != l.recoveryId ==> store.Reads(other) == old(store.Reads(other))
      ensures store.files.Keys <= old(store.files).Keys + {l.recoveryId}
    {
      hide IsUuid, Records, Ideal, Reparses, J.Sound, J.Apply;
      if preimage.Some? {
        var kept := KeepRecord(id, path, preimage.value.identity, Write, preimage.value.bytes, l);
        if !kept { return false, false; }
      }
      ok, changed := DispatchWrite(id, path, preimage, bytes, l);
    }

    /** Where a write that does nothing, or nothing more, leaves the volume. */
    predicate Aside(before: Volume, l: Luck)
      reads this
    {
      volume == before || volume == Seen(l, before) || volume == Asked(l, before) || volume == Met(l, before)
    }

    /** What a write may leave behind: the new content in place of what was recorded, and nothing else. */
    predicate Overwritten(before: Volume, id: string, path: string, expected: Option<Version>, bytes: Bytes, l: Luck)
      reads this, store, journal
    {
      var (seen, met) := (Seen(l, before), Met(l, before));
      && path in volume.files && volume == met.(files := met.files[path := volume.files[path]])
      && volume.files[path].File? && volume.files[path].bytes == bytes
      && if expected.None? then path !in met.files
         else && Current(seen, path, expected.value) && Held(met.files, path) == Look(seen, path)
              && volume.files[path].identity == seen.files[path].identity
              && Recorded(id, path, seen.files[path].identity, Write, seen.files[path].bytes)
              && journal.rows[id].recoveryId == Some(l.recoveryId)
    }

    /** Write new content over a file of a known version, or create a file. */
    method WriteFile(id: string, path: string, expected: Option<Version>, bytes: Bytes, l: Luck) returns (ok: bool, ghost changed: bool)
      requires Valid() && Fresh(l)
      modifies this, store, journal
      ensures Valid()
      ensures ok <==> |bytes| <= WRITE_LIMIT && old(Replaceable(id, path, expected, l))
      ensures ok ==> changed
      ensures if changed then Overwritten(old(volume), id, path, expected, bytes, l) else Aside(old(volume), l)
      ensures changed ==> (l.sensitive ==> l.authorized) && |bytes| <= 0x4_0000
      ensures ok && expected.Some? ==> journal.Contents() == J.Apply(old(journal.Contents()), J.Attach(id, l.recoveryId))
      ensures Apart(old(journal.Contents()), id, l)
      ensures forall other :: other != l.recoveryId ==> store.Reads(other) == old(store.Reads(other))
      ensures store.files.Keys <= old(store.files).Keys + {l.recoveryId}
    {
      hide IsUuid, Records, Ideal, Reparses, J.Sound, J.Apply, Overwritten, Replaceable;
      if |bytes| > WRITE_LIMIT { return false, false; }
      ok, changed := ReplaceVersion(id, path, expected, bytes, l);
    }

    /** The part that write and restore share: a look, its version, consent with a second look where the
        content is sensitive, the replacement. */
    method ReplaceVersion(id: string, path: string, expected: Option<Version>, bytes: Bytes, l: Luck)
      returns (ok: bool, ghost changed: bool)
      requires Valid() && Fresh(l)
      modifies this, store, journal
      ensures Valid()
      ensures ok <==> old(Replaceable(id, path, expected, l))
      ensures ok ==> changed
      ensures if changed then Overwritten(old(volume), id, path, expected, bytes, l) else Aside(old(volume), l)
      ensures changed ==> (l.sensitive ==> l.authorized)
      ensures ok && expected.Some? ==> journal.Contents() == J.Apply(old(journal.Contents()), J.Attach(id, l.recoveryId))
      ensures Apart(old(journal.Contents()), id, l)
      ensures forall other :: other != l.recoveryId ==> store.Reads(other) == old(store.Reads(other))
      ensures store.files.Keys <= old(store.files).Keys + {l.recoveryId}
    {
      hide IsUuid, Records, Ideal, Reparses, Recorded, J.Sound, J.Apply;
      changed := false;
      Await(0, l);
      var preimage: Option<Document> := None;
      if expected.Some? {
        preimage := Look(volume, path);
        if preimage.None? || VersionOf(path, preimage.value.bytes) != expected.value { return false, false; }
      }
      Await(1, l);
      if l.sensitive {
        if !l.authorized { return false, false; }
        if preimage.Some? && Look(volume, path) != preimage { return false, false; }
      }
      ok, changed := Replace(id, path, preimage, bytes, l);
    }

    // ----- trash -----

    /** The native move into the vault, allowed only once the descriptor is on record. The helper
        compares kind, identity and content before it moves anything. */
    method DispatchTrash(id: string, path: string, o: Original, l: Luck) returns (applied: bool, ghost changed: bool)
      requires Recorded(id, path, o.identity, Trash, DescriptorOf(o, l.vaultId))
      modifies this
      ensures var met := l.others(2, old(volume));
              && (applied <==> l.fate.Applied? && Movable(met, path, o, l))
              && (changed ==> Movable(met, path, o, l)) && (applied ==> changed)
              && volume == if changed then Moved(met, path, l.vaultId) else met
    {
      Await(2, l);
      changed := false;
      if !Movable(volume, path, o, l) || l.fate.Refused? { return false, false; }
      if l.fate.Applied? || l.fate.changed {
        volume, changed := Moved(volume, path, l.vaultId), true;
      }
      applied := l.fate.Applied?;
    }

    predicate Movable(v: Volume, path: string, o: Original, l: Luck) {
      path in v.files && Summary(sha, v.files[path]) == Some(o) && l.vaultId !in v.vault
    }

    function Moved(v: Volume, path: string, vaultId: string): Volume
      requires path in v.files
    {
      Volume(v.files - {path}, v.vault[vaultId := v.files[path]])
    }

    /** What a trash may leave behind: the very document that was recorded, in the vault. */
    predicate Vaulted(before: Volume, id: string, path: string, expected: Version, l: Luck)
      reads this, store, journal
    {
      var (seen, met) := (Seen(l, before), Met(l, before));
      && MovingCurrent(seen, path, expected) && Movable(met, path, MovingLook(sha, seen, path).value, l)
      && volume == Moved(met, path, l.vaultId)
      && var o := MovingLook(sha, seen, path).value;
         Recorded(id, path, o.identity, Trash, DescriptorOf(o, l.vaultId)) && journal.rows[id].recoveryId == Some(l.recoveryId)
    }

    method TrashFile(id: string, path: string, expected: Version, l: Luck) returns (ok: bool, ghost changed: bool)
      requires Valid() && Fresh(l)
      modifies this, store, journal
      ensures Valid()
      ensures ok <==> old(Trashable(id, path, expected, l))
      ensures ok ==> changed && IsIdentity(MovingLook(sha, Seen(l, old(volume)), path).value.identity)
      ensures if changed then Vaulted(old(volume), id, path, expected, l) else Aside(old(volume), l)
      ensures changed ==> l.authorized
      ensures ok ==> journal.Contents() == J.Apply(old(journal.Contents()), J.Attach(id, l.recoveryId))
      ensures Apart(old(journal.Contents()), id, l)
      ensures forall other :: other != l.recoveryId ==> store.Reads(other) == old(store.Reads(other))
      ensures store.files.Keys <= old(store.files).Keys + {l.recoveryId}
    {
      hide IsUuid, IsIdentity, Records, Ideal, Reparses, Recorded, DescriptorOf, Summary, Content, J.Sound, J.Apply;
      changed := false;
      Await(0, l);
      var snapshot := MovingLook(sha, volume, path);
      if snapshot.None? || VersionOf(path, Content(snapshot.value)) != expected { return false, false; }
      Await(1, l);
      if !l.authorized || !Alike(MovingLook(sha, volume, path), snapshot) { return false, false; }
      var o := snapshot.value;
      var kept := KeepRecord(id, path, o.identity, Trash, DescriptorOf(o, l.vaultId), l);
      if !kept { return false, false; }
      ok, changed := DispatchTrash(id, path, o, l);
    }

    // ----- restore -----

    /** The document a trash record describes; None for a record that does not check out. */
    function Described(r: Record): Option<Trashed> {
      match parse(store.codec.text(r.bytes))
      case None => None
      case Some(d) =>
        if !IsIdentity(d.identity) || !IsUuid(d.vaultId) || r.context.sourceIdentity != Some(d.identity) then None
        else match d
          case FileDescriptor(i, base64, vaultId) =>
            var bytes := Decode(base64);
            if bytes.None? || |bytes.value| > SNAPSHOT_LIMIT then None else Some(Trashed(FileWas(i, bytes.value), vaultId))
          case FolderDescriptor(i, version, vaultId) =>
            if !IsDigest(version) then None else Some(Trashed(FolderWas(i, version), vaultId))
    }

    /** A trash record describes exactly what was trashed. */
    lemma {:induction false} DescriptorReads(path: string, o: Original, vaultId: string)
      requires Valid() && IsIdentity(o.identity) && IsUuid(vaultId) && Sizable(o)
      ensures Described(Record(ContextOf(root, path, Some(o.identity), Trash), DescriptorOf(o, vaultId))) == Some(Trashed(o, vaultId))
    {
      hide Encode, Decode, DescriptorText, IsIdentity, IsUuid, IsDigest, J.Sound, Utf8.Encode;
      if o.FileWas? { DecodeUndoesEncode(o.bytes); }
    }

    method DispatchRestore(path: string, t: Trashed, l: Luck) returns (applied: bool, ghost changed: bool)
      modifies this
      ensures var met := l.others(2, old(volume));
              && (applied <==> l.fate.Applied? && Returnable(met, path, t))
              && (changed ==> Returnable(met, path, t)) && (applied ==> changed)
              && volume == if changed then Returned(met, path, t.vaultId) else met
    {
      Await(2, l);
      changed := false;
      if !Returnable(volume, path, t) || l.fate.Refused? { return false, false; }
      if l.fate.Applied? || l.fate.changed {
        volume, changed := Returned(volume, path, t.vaultId), true;
      }
      applied := l.fate.Applied?;
    }

    predicate Returnable(v: Volume, path: string, t: Trashed) {
      path !in v.files && t.vaultId in v.vault && Summary(sha, v.vault[t.vaultId]) == Some(t.original)
    }

    function Returned(v: Volume, path: string, vaultId: string): Volume
      requires vaultId in v.vault
    {
      Volume(v.files[path := v.vault[vaultId]], v.vault - {vaultId})
    }

    /** What a restore from the vault may leave behind: what the record describes, in its place. */
    predicate Revived(before: Volume, r: Record, path: string, l: Luck)
      reads this
    {
      Described(r).Some? && Returnable(Met(l, before), path, Described(r).value)
      && volume == Returned(Met(l, before), path, Described(r).value.vaultId)
    }

    method RestoreFile(id: string, recoveryId: string, path: string, expected: Option<Version>, l: Luck)
      returns (ok: bool, ghost changed: bool)
      requires Valid() && Fresh(l)
      modifies this, store, journal
      ensures Valid()
      ensures ok <==> old(Restorable(id, recoveryId, path, expected, l))
      ensures ok ==> changed
      ensures if !changed then Aside(old(volume), l)
              else
                && old(IsFor(recoveryId, path))
                && var r := old(store.Reads(recoveryId)).value;
                   if r.context.operation == Trash then
                     && Revived(old(volume), r, path, l)
                     && (l.sensitive || Described(r).value.original.FolderWas? ==> l.authorized)
                   else Overwritten(old(volume), id, path, expected, r.bytes, l) && (l.sensitive ==> l.authorized)
      ensures Apart(old(journal.Contents()), id, l)
      ensures forall other :: other != l.recoveryId ==> store.Reads(other) == old(store.Reads(other))
    {
      hide IsUuid, Ideal, Reparses, Described, Summary, Overwritten, Replaceable, J.Sound, J.Apply;
      changed := false;
      var record := store.ReadForTarget(recoveryId, root.id, root.identity, path);
      if record.None? { return false, false; }
      if record.value.context.operation == Trash {
        var t := Described(record.value);
        if expected.Some? || t.None? { return false, false; }
        Await(0, l);
        Await(1, l);
        if (l.sensitive || t.value.original.FolderWas?) && !l.authorized { return false, false; }
        ok, changed := DispatchRestore(path, t.value, l);
      } else {
        if record.value.context.operation == Directory || |record.value.bytes| > SNAPSHOT_LIMIT { return false, false; }
        ok, changed := ReplaceVersion(id, path, expected, record.value.bytes, l);
      }
    }

    // ----- whole calls: admit, run, finish -----

    /** Nobody else touches the volume. */
    ghost predicate Quiet(l: Luck) {
      forall k, v :: l.others(k, v) == v
    }

    /** Consent is given, no I/O fails, the helper applies what it is sent, and nobody interferes. */
    ghost predicate Smooth(l: Luck) {
      l.authorized && l.fate.Applied? && l.io.Whole? && Quiet(l)
    }

    /** A context the store accepts, of a size real identities have. */
    predicate Capturable(path: string, identity: string, operation: Operation) {
      && IsContext(ContextOf(root, path, Some(identity), operation))
      && |identity| <= IDENTITY_LIMIT && |root.identity| <= IDENTITY_LIMIT
    }

    /** A row of the journal as it is right after its admission. */
    predicate Admitted(a: J.Admission)
      reads journal
    {
      IsId(a.id) && a.id in journal.rows && journal.rows[a.id] == J.Row(a, J.Prepared, None, None)
    }

    /** Anything that can be looked at can be recorded. */
    lemma {:induction false} CanRecord(a: J.Admission, path: string, identity: string, operation: Operation, content: Bytes, l: Luck)
      requires Valid() && Fresh(l) && Capturable(path, identity, operation) && |content| <= LIMIT && l.io.Whole? && Admitted(a)
      ensures Records(a.id, path, identity, operation, content, l)
    {
      hide IsContext, IsIdentity, Written, J.Sound;
      FileFits(store.codec, ContextOf(root, path, Some(identity), operation), content, l.recoveryId, l.nonce);
    }

    /** A write that meets nothing in its way. */
    ghost predicate CanWrite(a: J.Admission, path: string, expected: Version, bytes: Bytes, report: J.Metadata, l: Luck)
      reads this, journal
    {
      && J.Ready(journal.Contents(), a) && J.Reportable(report) && Current(volume, path, expected)
      && Capturable(path, volume.files[path].identity, Write) && |bytes| <= WRITE_LIMIT && Smooth(l)
    }

    ghost predicate CanTrash(a: J.Admission, path: string, expected: Version, report: J.Metadata, l: Luck)
      reads this, journal
    {
      && J.Ready(journal.Contents(), a) && J.Reportable(report) && MovingCurrent(volume, path, expected)
      && Capturable(path, MovingLook(sha, volume, path).value.identity, Trash) && l.vaultId !in volume.vault && Smooth(l)
    }

    /** The record and the volume fit together for a restore. */
    predicate Reachable(recoveryId: string, path: string, expected: Option<Version>)
      reads this, store
    {
      && IsFor(recoveryId, path)
      && var r := store.Reads(recoveryId).value;
         if r.context.operation == Trash then
           expected.None? && Described(r).Some? && Returnable(volume, path, Described(r).value)
         else
           && r.context.operation != Directory && |r.bytes| <= SNAPSHOT_LIMIT
           && if expected.None? then path !in volume.files
              else Current(volume, path, expected.value) && Capturable(path, volume.files[path].identity, Write)
    }

    ghost predicate CanRestore(a: J.Admission, recoveryId: string, path: string, expected: Option<Version>, report: J.Metadata, l: Luck)
      reads this, store, journal
    {
      J.Ready(journal.Contents(), a) && J.Reportable(report) && Smooth(l) && Reachable(recoveryId, path, expected)
    }

    /** In a quiet volume every look sees the same. */
    lemma {:induction false} AllTheSame(v: Volume, l: Luck)
      requires Quiet(l)
      ensures Seen(l, v) == v && Asked(l, v) == v && Met(l, v) == v
    {
    }

    lemma {:induction false} WouldWrite(a: J.Admission, path: string, expected: Version, l: Luck)
      requires Valid() && Fresh(l) && Smooth(l) && Admitted(a)
      requires Current(volume, path, expected) && Capturable(path, volume.files[path].identity, Write)
      ensures Replaceable(a.id, path, Some(expected), l)
    {
      hide IsUuid, IsId, Records, Capturable, Ideal, Reparses, J.Sound, Admitted, Quiet;
      AllTheSame(volume, l);
      CanRecord(a, path, volume.files[path].identity, Write, volume.files[path].bytes, l);
    }

    lemma {:induction false} Short(path: string, identity: string)
      requires Capturable(path, identity, Trash)
      ensures |identity| <= IDENTITY_LIMIT
    {
    }

    lemma {:induction false} LooksAreSummaries(path: string)
      requires MovingLook(sha, volume, path).Some?
      ensures path in volume.files && Summary(sha, volume.files[path]) == MovingLook(sha, volume, path)
    {
    }

    lemma {:induction false} LooksAreSizable(path: string)
      requires MovingLook(sha, volume, path).Some?
      ensures Sizable(MovingLook(sha, volume, path).value)
    {
    }

    lemma {:induction false} WouldTrash(a: J.Admission, path: string, expected: Version, l: Luck)
      requires Valid() && Fresh(l) && Smooth(l) && Admitted(a) && MovingCurrent(volume, path, expected) && l.vaultId !in volume.vault
      requires Capturable(path, MovingLook(sha, volume, path).value.identity, Trash)
      ensures Trashable(a.id, path, expected, l)
    {
      hide IsId, Records, Capturable, Ideal, Reparses, DescriptorOf, J.Sound, Admitted, Quiet, Summary, Content, Sizable, MovingLook;
      var o := MovingLook(sha, volume, path).value;
      LooksAreSizable(path);
      Short(path, o.identity);
      DescriptorFits(o, l.vaultId);
      CanRecord(a, path, o.identity, Trash, DescriptorOf(o, l.vaultId), l);
      AllTheSame(volume, l);
      LooksAreSummaries(path);
    }

    lemma {:induction false} WouldRestore(a: J.Admission, recoveryId: string, path: string, expected: Option<Version>, l: Luck)
      requires Valid() && Fresh(l) && Smooth(l) && Admitted(a) && Reachable(recoveryId, path, expected)
      ensures Restorable(a.id, recoveryId, path, expected, l)
    {
      hide IsUuid, IsId, ReadBack, Records, Described, Capturable, Ideal, Reparses, J.Sound, Admitted, Quiet, Summary;
      AllTheSame(volume, l);
      if store.Reads(recoveryId).value.context.operation != Trash && expected.Some? {
        WouldWrite(a, path, expected.value, l);
      }
    }

    method AdmitNew(a: J.Admission) returns (ok: bool)
      requires Valid()
      modifies journal
      ensures Valid()
      ensures ok ==> journal.Contents() == J.Apply(old(journal.Contents()), J.Op.Admit(a))
      ensures old(J.Ready(journal.Contents(), a)) ==> ok && Admitted(a)
    {
      hide IsId, IsIdentity, IsDigest, IsRootId, J.Sound, J.IsVolume, Ideal, Reparses;
      var r := journal.Admit(a);
      ok := r.Ok? && r.value.created;
    }

    lemma {:induction false} Accepted(a: J.Admission, report: J.Metadata, l: Luck)
      requires Fresh(l)
      ensures J.Ready(journal.Contents(), a) && J.Reportable(report) ==>
                var s := J.Apply(J.Apply(journal.Contents(), J.Op.Admit(a)), J.Attach(a.id, l.recoveryId));
                J.Accepts(s, J.Finish(a.id, J.Applied, report))
    {
      if J.Ready(journal.Contents(), a) && J.Reportable(report) {
        J.TurnAccepted(journal.Contents(), a, l.recoveryId, report);
      }
      hide J.Ready, J.Reportable, J.Accepts, J.Apply;
    }

    method WriteCall(a: J.Admission, path: string, expected: Version, bytes: Bytes, report: J.Metadata, l: Luck)
      returns (ok: bool)
      requires Valid() && Fresh(l)
      modifies this, store, journal
      ensures Valid()
      ensures old(CanWrite(a, path, expected, bytes, report, l)) ==> ok
      ensures ok ==>
                var (seen, met) := (Seen(l, old(volume)), Met(l, old(volume)));
                && Current(seen, path, expected) && Held(met.files, path) == Look(seen, path) && |bytes| <= WRITE_LIMIT
                && volume == met.(files := met.files[path := File(seen.files[path].identity, bytes)])
                && store.Reads(l.recoveryId) ==
                   Some(Record(ContextOf(root, path, Some(seen.files[path].identity), Write), seen.files[path].bytes))
                && journal.Contents() == J.Turn(old(journal.Contents()), a, l.recoveryId, report)
      ensures store.files.Keys <= old(store.files).Keys + {l.recoveryId}
    {
      hide IsUuid, IsId, IsContext, IsIdentity, Records, Ideal, Reparses, ReadBack, Replaceable,
        J.Sound, J.Apply, J.Ready, J.Reportable, Capturable, Admitted, Quiet;
      ghost var good := CanWrite(a, path, expected, bytes, report, l);
      Accepted(a, report, l);
      var admitted := AdmitNew(a);
      if !admitted { return false; }
      if good { WouldWrite(a, path, expected, l); }
      ghost var changed;
      ok, changed := WriteFile(a.id, path, Some(expected), bytes, l);
      if !ok { return; }
      ok := journal.Finish(a.id, J.Applied, report);
    }

    method TrashCall(a: J.Admission, path: string, expected: Version, report: J.Metadata, l: Luck) returns (ok: bool)
      requires Valid() && Fresh(l)
      modifies this, store, journal
      ensures Valid()
      ensures old(CanTrash(a, path, expected, report, l)) ==> ok
      ensures ok ==>
                var (seen, met) := (Seen(l, old(volume)), Met(l, old(volume)));
                && MovingCurrent(seen, path, expected) && Movable(met, path, MovingLook(sha, seen, path).value, l)
                && volume == Moved(met, path, l.vaultId)
                && var o := MovingLook(sha, seen, path).value;
                   && IsIdentity(o.identity)
                   && store.Reads(l.recoveryId) ==
                      Some(Record(ContextOf(root, path, Some(o.identity), Trash), DescriptorOf(o, l.vaultId)))
                   && journal.Contents() == J.Turn(old(journal.Contents()), a, l.recoveryId, report)
      ensures store.files.Keys <= old(store.files).Keys + {l.recoveryId}
    {
      hide IsUuid, IsId, IsContext, IsIdentity, Records, Ideal, Reparses, ReadBack, Trashable, DescriptorOf, Summary, Content,
        J.Sound, J.Apply, J.Ready, J.Reportable, Capturable, Admitted, Quiet;
      ghost var good := CanTrash(a, path, expected, report, l);
      Accepted(a, report, l);
      var admitted := AdmitNew(a);
      if !admitted { return false; }
      if good { WouldTrash(a, path, expected, l); }
      ghost var changed;
      ok, changed := TrashFile(a.id, path, expected, l);
      if !ok { return; }
      ok := journal.Finish(a.id, J.Applied, report);
    }

    method RestoreCall(a: J.Admission, recoveryId: string, path: string, expected: Option<Version>, report: J.Metadata, l: Luck)
      returns (ok: bool)
      requires Valid() && Fresh(l)
      modifies this, store, journal
      ensures Valid()
      ensures old(CanRestore(a, recoveryId, path, expected, report, l)) ==> ok
      ensures ok ==>
                && old(IsFor(recoveryId, path))
                && var (r, seen, met) := (old(store.Reads(recoveryId)).value, Seen(l, old(volume)), Met(l, old(volume)));
                   if r.context.operation == Trash then Revived(old(volume), r, path, l)
                   else
                     && path in volume.files && volume == met.(files := met.files[path := volume.files[path]])
                     && volume.files[path].File? && volume.files[path].bytes == r.bytes
                     && if expected.None? then path !in met.files
                        else Current(seen, path, expected.value) && volume.files[path].identity == seen.files[path].identity
    {
      hide IsUuid, IsId, IsContext, IsIdentity, Records, Ideal, Reparses, Described, Summary, Capturable, Recorded, Quiet,
        J.Sound, J.Apply, J.Accepts, J.Ready, J.Reportable, ReadBack, Reachable, Restorable, Revived;
      ghost var good := CanRestore(a, recoveryId, path, expected, report, l);
      var admitted := AdmitNew(a);
      if !admitted { return false; }
      if good {
        WouldRestore(a, recoveryId, path, expected, l);
        J.CanFinish(journal.Contents(), a.id, l.recoveryId, report);
      }
      ghost var changed;
      ok, changed := RestoreFile(a.id, recoveryId, path, expected, l);
      if !ok { return; }
      ok := journal.Finish(a.id, J.Applied, report);
    }

    // ----- round trips -----

    /** Two different mutations of one volume, each of which would be admitted now. */
    predicate InTurn(a: J.Admission, b: J.Admission)
      reads journal
    {
      J.Ready(journal.Contents(), a) && J.Ready(journal.Contents(), b) && a.id != b.id && a.volumeKey == b.volumeKey
    }

    /** After the first call the second one's turn has come. */
    lemma {:induction false} NextTurn(a: J.Admission, b: J.Admission, report: J.Metadata, l: Luck)
      requires Fresh(l)
      ensures InTurn(a, b) && J.Reportable(report) ==> J.Ready(J.Turn(journal.Contents(), a, l.recoveryId, report), b)
    {
      if InTurn(a, b) && J.Reportable(report) {
        J.TurnFrees(journal.Contents(), a, l.recoveryId, report, b);
      }
      hide IsIdentity, J.Ready, J.Turn, J.Reportable;
    }

    lemma {:induction false} AfterWrite(recoveryId: string, path: string, d: Document, bytes: Bytes)
      requires d.File? && |d.bytes| <= SNAPSHOT_LIMIT && |bytes| <= WRITE_LIMIT
      requires store.Reads(recoveryId) == Some(Record(ContextOf(root, path, Some(d.identity), Write), d.bytes))
      requires path in volume.files && volume.files[path] == File(d.identity, bytes)
      ensures IsFor(recoveryId, path)
      ensures Capturable(path, d.identity, Write) ==> Reachable(recoveryId, path, Some(VersionOf(path, bytes)))
    {
      hide ReadBack, IsContext, Described, Summary;
    }

    lemma {:induction false} AfterTrash(recoveryId: string, path: string, o: Original, vaultId: string)
      requires Valid() && IsIdentity(o.identity) && IsUuid(vaultId) && Sizable(o)
      requires store.Reads(recoveryId) == Some(Record(ContextOf(root, path, Some(o.identity), Trash), DescriptorOf(o, vaultId)))
      ensures IsFor(recoveryId, path)
      ensures store.Reads(recoveryId).value.context.operation == Trash
      ensures Described(store.Reads(recoveryId).value) == Some(Trashed(o, vaultId))
      ensures Returnable(volume, path, Trashed(o, vaultId)) ==> Reachable(recoveryId, path, None)
    {
      hide ReadBack, IsContext, Described, Ideal, Reparses, J.Sound, Summary;
      DescriptorReads(path, o, vaultId);
    }

    /** Write over a file, then restore what the write recorded: whatever others do meanwhile, the file
        has the bytes again that the write replaced. In a quiet volume everything is as it was, and if
        nothing gets in the way both calls go through. */
    method WriteThenRestore(a: J.Admission, b: J.Admission, path: string, expected: Version, bytes: Bytes, report: J.Metadata,
                            l: Luck, m: Luck)
      returns (written: bool, restored: bool)
      requires Valid() && Fresh(l) && Fresh(m) && l.recoveryId != m.recoveryId
      modifies this, store, journal
      ensures restored ==>
                && written && path in volume.files && volume.files[path].File?
                && Look(Seen(l, old(volume)), path).Some? && Held(Met(l, old(volume)).files, path) == Look(Seen(l, old(volume)), path)
                && volume.files[path].bytes == Look(Seen(l, old(volume)), path).value.bytes
      ensures restored && Quiet(l) && Quiet(m) ==> volume == old(volume)
      ensures old(InTurn(a, b) && CanWrite(a, path, expected, bytes, report, l)) && Smooth(m) ==> restored
    {
      hide InTurn, IsId, IsUuid, IsIdentity, IsContext, ReadBack, Ideal, Reparses, Described, DescriptorOf, Capturable,
        Reachable, IsFor, Summary, Quiet, Revived, J.Sound, J.Ready, J.Turn, J.Reportable, J.Accepts, J.Apply;
      restored := false;
      NextTurn(a, b, report, l);
      written := WriteCall(a, path, expected, bytes, report, l);
      if written {
        AfterWrite(l.recoveryId, path, Look(Seen(l, old(volume)), path).value, bytes);
        ghost var between := volume;
        restored := RestoreCall(b, l.recoveryId, path, Some(VersionOf(path, bytes)), report, m);
        if Quiet(l) { AllTheSame(old(volume), l); }
        if Quiet(m) { AllTheSame(between, m); }
      }
    }

    /** Trash a file or a directory, then restore it: whatever others do meanwhile, what comes back has
        the kind, the identity and the content of what went away. In a quiet volume everything is as it
        was, and if nothing gets in the way both calls go through. */
    method TrashThenRestore(a: J.Admission, b: J.Admission, path: string, expected: Version, report: J.Metadata, l: Luck, m: Luck)
      returns (trashed: bool, restored: bool)
      requires Valid() && Fresh(l) && Fresh(m) && l.recoveryId != m.recoveryId
      modifies this, store, journal
      ensures restored ==>
                && trashed && path in volume.files && path in Met(l, old(volume)).files
                && Summary(sha, volume.files[path]) == Summary(sha, Met(l, old(volume)).files[path])
                && Summary(sha, volume.files[path]).Some?
      ensures restored && Quiet(l) && Quiet(m) ==> volume == old(volume)
      ensures old(InTurn(a, b) && CanTrash(a, path, expected, report, l)) && Smooth(m) ==> restored
    {
      hide InTurn, IsId, IsUuid, IsIdentity, IsContext, ReadBack, Ideal, Reparses, Described, DescriptorOf, Capturable,
        Reachable, IsFor, Summary, Quiet, Content, J.Sound, J.Ready, J.Turn, J.Reportable, J.Accepts, J.Apply;
      restored := false;
      NextTurn(a, b, report, l);
      trashed := TrashCall(a, path, expected, report, l);
      if trashed {
        ghost var o := MovingLook(sha, Seen(l, old(volume)), path).value;
        SummariesAreSizable(Seen(l, old(volume)), path);
        AfterTrash(l.recoveryId, path, o, l.vaultId);
        ghost var between := volume;
        restored := RestoreCall(b, l.recoveryId, path, None, report, m);
        if Quiet(l) { AllTheSame(old(volume), l); }
        if Quiet(m) { AllTheSame(between, m); }
      }
    }

    lemma {:induction false} SummariesAreSizable(v: Volume, path: string)
      requires MovingLook(sha, v, path).Some?
      ensures Sizable(MovingLook(sha, v, path).value)
    {
    }
  }
}
