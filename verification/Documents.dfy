/** Files and directories of a workspace root: how they are looked at, versioned and described in the
    record of a trash. */
module Documents {
  import opened Base64
  import opened Formats
  import opened Json
  import M = Manifest
  import opened Octets
  import opened Recovery
  import Utf8
  import opened Wrappers

  const SNAPSHOT_LIMIT := 1024 * 1024
  const WRITE_LIMIT := 256 * 1024

  datatype Root = Root(id: string, identity: string)

  /** What a path names; a directory is moved as a whole. */
  datatype Document = File(identity: string, bytes: Bytes) | Folder(identity: string, tree: M.Node)

  /** The files of a root, and the vault that trashed ones are moved to. */
  datatype Volume = Volume(files: map<string, Document>, vault: map<string, Document>)

  /** What is remembered of a document: the bytes of a file, the tree version of a directory. */
  datatype Original = FileWas(identity: string, bytes: Bytes) | FolderWas(identity: string, version: string)

  /** A content version: a keyed digest of root, path and bytes, taken as ideal. */
  datatype Version = Version(root: Root, path: string, bytes: Bytes)

  /** SHA-256 in hexadecimal digits, whatever it computes. */
  type Digest = s: string | IsDigest(s) witness seq(64, _ => '0')

  /** What a dispatched native operation did, where it was allowed to do anything. */
  datatype Fate = Applied | Refused | Lost(changed: bool)

  /** Everything a call meets besides its arguments: fresh ids, screening, the owner's consent, failing
      I/O, the native outcome, and what others do to the volume while it looks (0), asks for consent (1)
      and waits for the helper (2). */
  datatype Luck = Luck(recoveryId: string, nonce: Bytes, vaultId: string, identity: string, sensitive: bool, authorized: bool,
                       io: Io, fate: Fate, others: (nat, Volume) -> Volume)

  function Seen(l: Luck, v: Volume): Volume { l.others(0, v) }

  function Asked(l: Luck, v: Volume): Volume { l.others(1, Seen(l, v)) }

  function Met(l: Luck, v: Volume): Volume { l.others(2, Asked(l, v)) }

  function Held(docs: map<string, Document>, path: string): Option<Document> {
    if path in docs then Some(docs[path]) else None
  }

  // ----- looking -----

  /** A file small enough to be read whole. */
  function Look(v: Volume, path: string): Option<Document> {
    if path in v.files && v.files[path].File? && |v.files[path].bytes| <= SNAPSHOT_LIMIT then Some(v.files[path]) else None
  }

  /** What the helper computes of a document before it moves it. */
  function Summary(sha: Bytes -> Digest, d: Document): Option<Original> {
    match d
    case File(i, bytes) => Some(FileWas(i, bytes))
    case Folder(i, tree) => if M.Fits(tree, 0, 0, 0) then Some(FolderWas(i, sha(M.Stream(M.Canonical(tree))))) else None
  }

  /** What a move is told of: any directory within the caps, and any file small enough. */
  function MovingLook(sha: Bytes -> Digest, v: Volume, path: string): Option<Original> {
    if path !in v.files || (v.files[path].File? && |v.files[path].bytes| > SNAPSHOT_LIMIT) then None
    else Summary(sha, v.files[path])
  }

  function FolderText(identity: string, version: string): string {
    Member("{\"identity\":", identity, Member(",\"nativeVersion\":", version, "}"))
  }

  /** What a version is computed from. */
  function Content(o: Original): Bytes {
    match o
    case FileWas(_, bytes) => bytes
    case FolderWas(i, version) => Utf8.Encode(FolderText(i, version))
  }

  lemma {:induction false} FolderTextInjective(i: string, v: string, j: string, w: string)
    requires FolderText(i, v) == FolderText(j, w)
    ensures i == j && v == w
  {
    hide Member;
    MemberCut("{\"identity\":", i, j, Member(",\"nativeVersion\":", v, "}"), Member(",\"nativeVersion\":", w, "}"));
    MemberCut(",\"nativeVersion\":", v, w, "}", "}");
  }

  /** Versions of two directories agree exactly for the same identity and tree version, of two files
      exactly for the same bytes; a file has a directory's version exactly if it spells it out. */
  lemma {:induction false} VersionsAgreeIff(a: Original, b: Original)
    ensures a.FolderWas? && b.FolderWas? ==> (Content(a) == Content(b) <==> a == b)
    ensures a.FileWas? && b.FolderWas? ==> (Content(a) == Content(b) <==> a.bytes == Utf8.Encode(FolderText(b.identity, b.version)))
  {
    hide FolderText, Utf8.Encode;
    if a.FolderWas? && b.FolderWas? && Content(a) == Content(b) {
      Utf8.EncodeInjective(FolderText(a.identity, a.version), FolderText(b.identity, b.version));
      FolderTextInjective(a.identity, a.version, b.identity, b.version);
    }
  }

  /** Two directories of one summary are the same tree, in whatever order they are listed, unless the
      hash collides. */
  lemma {:induction false} SameSummarySameTree(sha: Bytes -> Digest, a: Document, b: Document)
    requires a.Folder? && b.Folder? && Summary(sha, a).Some? && Summary(sha, a) == Summary(sha, b)
    requires M.Distinct(a.tree) && M.Distinct(b.tree)
    ensures a.identity == b.identity
    ensures var (s, t) := (M.Stream(M.Canonical(a.tree)), M.Stream(M.Canonical(b.tree)));
            M.ShapeOf(a.tree) == M.ShapeOf(b.tree) || (s != t && sha(s) == sha(t))
  {
    hide M.Fits, M.Stream, M.Canonical, M.Distinct, M.ShapeOf;
    M.ManifestIffSameTree(a.tree, b.tree);
  }

  // ----- what a trash record holds -----

  datatype Descriptor =
    | FileDescriptor(identity: string, base64: string, vaultId: string)
    | FolderDescriptor(identity: string, nativeVersion: string, vaultId: string)

  function DescriptorText(d: Descriptor): string {
    match d
    case FileDescriptor(i, base64, vaultId) =>
      Member("{\"kind\":\"file\",\"identity\":", i, Member(",\"base64\":", base64, Member(",\"vaultId\":", vaultId, "}")))
    case FolderDescriptor(i, version, vaultId) =>
      Member("{\"kind\":\"directory\",\"identity\":", i, Member(",\"nativeVersion\":", version, Member(",\"vaultId\":", vaultId, "}")))
  }

  ghost predicate Reparses(parse: string -> Option<Descriptor>) {
    forall d :: parse(DescriptorText(d)) == Some(d)
  }

  lemma {:induction false} KindShows(d: Descriptor)
    ensures |DescriptorText(d)| > 9 && (DescriptorText(d)[9] == 'f' <==> d.FileDescriptor?)
  {
    hide Quoted;
  }

  lemma {:induction false} DescriptorTextInjective(a: Descriptor, b: Descriptor)
    requires DescriptorText(a) == DescriptorText(b)
    ensures a == b
  {
    hide Member;
    KindShows(a);
    KindShows(b);
    var (x, y) := (Member(",\"vaultId\":", a.vaultId, "}"), Member(",\"vaultId\":", b.vaultId, "}"));
    if a.FileDescriptor? {
      var (s, t) := (Member(",\"base64\":", a.base64, x), Member(",\"base64\":", b.base64, y));
      MemberCut("{\"kind\":\"file\",\"identity\":", a.identity, b.identity, s, t);
      MemberCut(",\"base64\":", a.base64, b.base64, x, y);
    } else {
      var (s, t) := (Member(",\"nativeVersion\":", a.nativeVersion, x), Member(",\"nativeVersion\":", b.nativeVersion, y));
      MemberCut("{\"kind\":\"directory\",\"identity\":", a.identity, b.identity, s, t);
      MemberCut(",\"nativeVersion\":", a.nativeVersion, b.nativeVersion, x, y);
    }
    MemberCut(",\"vaultId\":", a.vaultId, b.vaultId, "}", "}");
  }

  ghost function DescriptorFrom(t: string): Option<Descriptor> {
    if exists d :: DescriptorText(d) == t then Some(var d :| DescriptorText(d) == t; d) else None
  }

  lemma {:induction false} ReparsesExists() returns (parse: string -> Option<Descriptor>)
    ensures Reparses(parse)
  {
    hide DescriptorText;
    parse := t => DescriptorFrom(t);
    forall d ensures parse(DescriptorText(d)) == Some(d) {
      DescriptorTextInjective(DescriptorFrom(DescriptorText(d)).value, d);
    }
  }

  function ContextOf(root: Root, path: string, source: Option<string>, operation: Operation): Context {
    Context(root.id, root.identity, path, source, operation)
  }

  function DescriptorFor(o: Original, vaultId: string): Descriptor {
    match o
    case FileWas(i, bytes) => FileDescriptor(i, Encode(bytes), vaultId)
    case FolderWas(i, version) => FolderDescriptor(i, version, vaultId)
  }

  /** The descriptor bytes of a document about to be trashed. */
  function DescriptorOf(o: Original, vaultId: string): Bytes {
    Utf8.Encode(DescriptorText(DescriptorFor(o, vaultId)))
  }

  /** What the vault and the records can hold. */
  predicate Sizable(o: Original) {
    match o
    case FileWas(_, bytes) => |bytes| <= SNAPSHOT_LIMIT
    case FolderWas(_, version) => IsDigest(version)
  }

  /** The descriptor of any document that can be moved fits a record. */
  lemma {:induction false} DescriptorFits(o: Original, vaultId: string)
    requires Sizable(o) && |o.identity| <= IDENTITY_LIMIT && IsUuid(vaultId)
    ensures |DescriptorOf(o, vaultId)| <= LIMIT
  {
    var m := Member(",\"vaultId\":", vaultId, "}");
    if o.FileWas? {
      var e := Encode(o.bytes);
      EncodeLength(o.bytes);
      EncodeIsPlain(o.bytes);
      hide Encode, Member, Utf8.Size;
      MemberSize("{\"kind\":\"file\",\"identity\":", o.identity, Member(",\"base64\":", e, m));
      MemberSize(",\"base64\":", e, m);
    } else {
      hide Encode, Member, Utf8.Size;
      MemberSize("{\"kind\":\"directory\",\"identity\":", o.identity, Member(",\"nativeVersion\":", o.version, m));
      MemberSize(",\"nativeVersion\":", o.version, m);
    }
    hide Encode, Member, Utf8.Size;
    MemberSize(",\"vaultId\":", vaultId, "}");
    Utf8.SizeBound("}");
    Utf8.EncodeLength(DescriptorText(DescriptorFor(o, vaultId)));
  }

  /** What a trash record describes. */
  datatype Trashed = Trashed(original: Original, vaultId: string)

  // ----- what a look sees -----

  /** A file is seen whole up to one mebibyte, and nothing else is. */
  lemma {:induction false} LookIff(v: Volume, path: string, d: Document)
    ensures Look(v, path) == Some(d) <==> path in v.files && v.files[path] == d && d.File? && |d.bytes| <= 0x10_0000
  {
  }

  /** What a move is told: the bytes of such a file, or the manifest's hash of a directory that passes every
      check of the walk over it. */
  lemma {:induction false} MovingLookIff(sha: Bytes -> Digest, v: Volume, path: string, o: Original)
    ensures MovingLook(sha, v, path) == Some(o) <==>
            && path in v.files
            && match v.files[path]
               case File(i, bytes) => |bytes| <= 0x10_0000 && o == FileWas(i, bytes)
               case Folder(i, tree) => M.Fits(tree, 0, 0, 0) && o == FolderWas(i, sha(M.Stream(M.Canonical(tree))))
  {
    hide M.Fits, M.Stream, M.Canonical;
  }
}
