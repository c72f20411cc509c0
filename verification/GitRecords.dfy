/** Reading Git's NUL-separated status and raw-diff output, and accepting a commit only if its diff is
    exactly what was approved. */
module GitRecords {
  import opened Formats
  import opened Lexical
  import opened Sequences
  import ShellSyntax
  import opened Wrappers

  const NUL := '\0'
  const ZERO := "0000000000000000000000000000000000000000"
  const ABSENT := "000000"

  // ----- paths -----

  predicate Space(c: char) {
    '\t' <= c <= '\r' || c == ' ' || c == '\U{a0}' || c == '\U{1680}' || '\U{2000}' <= c <= '\U{200a}'
    || c in {'\U{2028}', '\U{2029}', '\U{202f}', '\U{205f}', '\U{3000}', '\U{feff}'}
  }

  function Lower(s: string): string {
    if s == "" then "" else [if 'A' <= s[0] <= 'Z' then s[0] + ('a' - 'A') else s[0]] + Lower(s[1..])
  }

  /** A repository-relative path that names no directory of Git's own and is no option or pattern. */
  predicate IsRepositoryPath(p: string) {
    && p != "" && !Space(p[0]) && !Space(p[|p| - 1]) && p[0] != '/' && p[0] != '-'
    && (forall k :: 0 <= k < |p| ==>
          p[k] !in {'\\', ':', '*', '?', '[', ']', '\U{fffd}'} && p[k] >= ' ' && p[k] != '\U{7f}')
    && forall k :: 0 <= k < |Segments(p)| ==> Segments(p)[k] !in {"", ".", ".."} && Lower(Segments(p)[k]) != ".git"
  }

  // ----- NUL-separated records -----

  function Terminated(records: seq<string>): string {
    if records == [] then "" else records[0] + ([NUL] + Terminated(records[1..]))
  }

  predicate NoNul(records: seq<string>) {
    forall k :: 0 <= k < |records| ==> NUL !in records[k]
  }

  /** The records of an output; None unless it is empty or ends with a NUL. */
  function Records(output: string): Option<seq<string>> {
    if output == "" then Some([])
    else if output[|output| - 1] != NUL then None
    else Some(Split(output[..|output| - 1], NUL))
  }

  lemma {:induction false} SplitPart(part: string, r: string, rest: string, mark: char)
    requires mark !in r
    ensures SplitFrom(part, r + rest, mark) == SplitFrom(part + r, rest, mark)
    decreases |r|
  {
    if r == "" {
      assert r + rest == rest && part + r == part;
    } else {
      assert (r + rest)[1..] == r[1..] + rest;
      assert (part + [r[0]]) + r[1..] == part + r;
      SplitPart(part + [r[0]], r[1..], rest, mark);
    }
  }

  /** Terminated records read back as the same records. */
  lemma {:induction false} RecordsRoundTrip(records: seq<string>)
    requires NoNul(records)
    ensures Records(Terminated(records)) == Some(records)
  {
    if records != [] {
      TerminatedEnds(records);
      SplitRecords(records);
    }
  }

  lemma {:induction false} TerminatedEnds(records: seq<string>)
    requires records != []
    ensures Terminated(records) != "" && Terminated(records)[|Terminated(records)| - 1] == NUL
  {
    if |records| > 1 { TerminatedEnds(records[1..]); }
  }

  lemma {:induction false} SplitRecords(records: seq<string>)
    requires records != [] && NoNul(records)
    ensures var t := Terminated(records); |t| > 0 && Split(t[..|t| - 1], NUL) == records
    decreases |records|
  {
    var t := Terminated(records);
    if |records| == 1 {
      assert t[..|t| - 1] == records[0] + "";
      SplitPart("", records[0], "", NUL);
      assert "" + records[0] == records[0];
    } else {
      var u := Terminated(records[1..]);
      TerminatedEnds(records[1..]);
      var rest := [NUL] + u[..|u| - 1];
      assert t[..|t| - 1] == records[0] + rest;
      SplitPart("", records[0], rest, NUL);
      assert "" + records[0] == records[0];
      assert rest[1..] == u[..|u| - 1];
      SplitRecords(records[1..]);
    }
  }

  lemma {:induction false} SplitRejoins(part: string, s: string)
    requires NUL !in part
    ensures NoNul(SplitFrom(part, s, NUL)) && Terminated(SplitFrom(part, s, NUL)) == part + (s + [NUL])
    decreases |s|
  {
    if s == "" {
      assert Terminated([part]) == part + ([NUL] + Terminated([])) by { assert [part][1..] == []; }
      assert [NUL] + Terminated([]) == [NUL] && s + [NUL] == [NUL];
    } else if s[0] == NUL {
      var rest := SplitFrom("", s[1..], NUL);
      SplitRejoins("", s[1..]);
      assert ([part] + rest)[1..] == rest;
      assert "" + (s[1..] + [NUL]) == s[1..] + [NUL];
      assert [NUL] + (s[1..] + [NUL]) == s + [NUL];
    } else {
      SplitRejoins(part + [s[0]], s[1..]);
      assert (part + [s[0]]) + (s[1..] + [NUL]) == part + (s + [NUL]);
    }
  }

  /** Records that are read are what the output consists of. */
  lemma {:induction false} RecordsOnly(output: string)
    requires Records(output).Some?
    ensures NoNul(Records(output).value) && Terminated(Records(output).value) == output
  {
    if output != "" {
      var s := output[..|output| - 1];
      SplitRejoins("", s);
      assert "" + (s + [NUL]) == output;
    }
  }

  // ----- status -----

  /** One change: a two-letter status, a path, and for a rename or copy the path it came from. */
  datatype Change = Change(status: string, path: string, source: Option<string>)

  predicate StatusLetter(c: char) {
    c in {' ', 'M', 'A', 'D', 'R', 'C', 'U', '?', '!'}
  }

  predicate Supported(s: string) {
    && |s| == 2 && StatusLetter(s[0]) && StatusLetter(s[1])
    && s !in {"  ", "!!", "AA", "DD"} && 'U' !in s
  }

  predicate Relocates(s: string) {
    'R' in s || 'C' in s
  }

  /** The paths the records name, in the order they are met. */
  function ReadStatus(records: seq<string>): Option<seq<string>>
    decreases |records|
  {
    if records == [] then Some([])
    else
      var r := records[0];
      if |r| < 3 || r[2] != ' ' || !Supported(r[..2]) || !IsRepositoryPath(r[3..]) then None
      else if !Relocates(r[..2]) then Prepend([r[3..]], ReadStatus(records[1..]))
      else if |records| < 2 || !IsRepositoryPath(records[1]) then None
      else Prepend([r[3..], records[1]], ReadStatus(records[2..]))
  }

  function Once(list: seq<string>): seq<string> {
    if list == [] then []
    else
      var before := Once(list[..|list| - 1]);
      if list[|list| - 1] in before then before else before + [list[|list| - 1]]
  }

  function Same(s: string): string { s }

  function StatusPaths(output: string): Option<seq<string>> {
    match Records(output)
    case None => None
    case Some(records) => match ReadStatus(records)
      case None => None
      case Some(list) => Some(Sort(Once(list), Same))
  }

  function PrintChange(c: Change): seq<string> {
    [c.status + (" " + c.path)] + (if c.source.Some? then [c.source.value] else [])
  }

  function PrintChanges(changes: seq<Change>): seq<string> {
    if changes == [] then [] else PrintChange(changes[0]) + PrintChanges(changes[1..])
  }

  /** What Git can print: a source exactly for renames and copies, no NUL in a path. */
  predicate Printable(c: Change) {
    |c.status| == 2 && (c.source.Some? <==> Relocates(c.status)) && NUL !in c.status && NUL !in c.path
    && (c.source.Some? ==> NUL !in c.source.value)
  }

  predicate AllPrintable(changes: seq<Change>) {
    changes != [] ==> Printable(changes[0]) && AllPrintable(changes[1..])
  }

  predicate Readable(c: Change) {
    Supported(c.status) && IsRepositoryPath(c.path) && (c.source.Some? ==> IsRepositoryPath(c.source.value))
  }

  predicate AllReadable(changes: seq<Change>) {
    changes != [] ==> Readable(changes[0]) && AllReadable(changes[1..])
  }

  function Named(c: Change): seq<string> {
    [c.path] + (if c.source.Some? then [c.source.value] else [])
  }

  function AllNamed(changes: seq<Change>): seq<string> {
    if changes == [] then [] else Named(changes[0]) + AllNamed(changes[1..])
  }

  lemma {:induction false} ReadsOneChange(c: Change, rest: seq<string>)
    requires Printable(c)
    ensures ReadStatus(PrintChange(c) + rest) == if Readable(c) then Prepend(Named(c), ReadStatus(rest)) else None
  {
    var r := c.status + (" " + c.path);
    var all := PrintChange(c) + rest;
    assert all[0] == r && r[..2] == c.status && r[2] == ' ' && r[3..] == c.path;
    if c.source.Some? {
      assert all[1] == c.source.value && all[2..] == rest;
      assert Named(c) == [r[3..], all[1]];
    } else {
      assert all[1..] == rest;
      assert Named(c) == [r[3..]];
    }
    hide IsRepositoryPath, Supported, Relocates;
  }

  lemma {:induction false} ReadsChanges(changes: seq<Change>)
    requires AllPrintable(changes)
    ensures ReadStatus(PrintChanges(changes)) == if AllReadable(changes) then Some(AllNamed(changes)) else None
  {
    if changes != [] {
      ReadsOneChange(changes[0], PrintChanges(changes[1..]));
      ReadsChanges(changes[1..]);
      hide Readable, Printable, ReadStatus;
    }
  }

  lemma {:induction false} NoNulTogether(a: seq<string>, b: seq<string>)
    requires NoNul(a) && NoNul(b)
    ensures NoNul(a + b)
  {
    forall k | 0 <= k < |a + b| ensures NUL !in (a + b)[k] {
      assert (a + b)[k] == if k < |a| then a[k] else b[k - |a|];
    }
  }

  lemma {:induction false} PrintsNoNul(changes: seq<Change>)
    requires AllPrintable(changes)
    ensures NoNul(PrintChanges(changes))
  {
    if changes != [] {
      PrintsNoNul(changes[1..]);
      assert NoNul(PrintChange(changes[0])) by {
        assert NUL !in changes[0].status + (" " + changes[0].path);
      }
      NoNulTogether(PrintChange(changes[0]), PrintChanges(changes[1..]));
    }
  }

  lemma {:induction false} OnceIsDistinct(list: seq<string>)
    ensures DistinctKeys(Once(list), Same)
    ensures forall p :: p in Once(list) <==> p in list
  {
    if list != [] {
      var (before, last) := (list[..|list| - 1], list[|list| - 1]);
      assert list == before + [last];
      OnceIsDistinct(before);
    }
  }

  /** Status output reads back as exactly the paths it names, sorted and without repetition: the
      source of a rename is among them, and one unsupported status or unsafe path refuses it all. */
  lemma {:induction false} StatusRoundTrip(changes: seq<Change>)
    requires AllPrintable(changes)
    ensures var r := StatusPaths(Terminated(PrintChanges(changes)));
            if AllReadable(changes)
            then r.Some? && Increasing(r.value, Same) && forall p :: p in r.value <==> p in AllNamed(changes)
            else r == None
  {
    PrintsNoNul(changes);
    RecordsRoundTrip(PrintChanges(changes));
    ReadsChanges(changes);
    if AllReadable(changes) {
      var list := AllNamed(changes);
      OnceIsDistinct(list);
      SortIncreasing(Once(list), Same);
      SameElements(Sort(Once(list), Same), Once(list));
    }
  }

  lemma {:induction false} NamedIff(changes: seq<Change>, p: string)
    ensures p in AllNamed(changes) <==>
            exists k :: 0 <= k < |changes| && (p == changes[k].path || changes[k].source == Some(p))
  {
    if changes != [] {
      NamedIff(changes[1..], p);
      forall k | 0 < k < |changes| ensures changes[k] == changes[1..][k - 1] { }
      assert p in Named(changes[0]) <==> p == changes[0].path || changes[0].source == Some(p);
    }
  }

  /** Whenever status output is accepted, exactly the paths of its changes and the sources of its
      renames and copies are reported. */
  lemma {:induction false} StatusNames(changes: seq<Change>, p: string)
    requires AllPrintable(changes) && StatusPaths(Terminated(PrintChanges(changes))).Some?
    ensures p in StatusPaths(Terminated(PrintChanges(changes))).value <==>
            exists k :: 0 <= k < |changes| && (p == changes[k].path || changes[k].source == Some(p))
  {
    hide StatusPaths, AllPrintable, AllNamed, PrintChanges, Terminated;
    StatusRoundTrip(changes);
    NamedIff(changes, p);
  }

  lemma {:induction false} OneChangeRead(records: seq<string>) returns (c: Change, rest: seq<string>)
    requires ReadStatus(records).Some? && NoNul(records) && records != []
    ensures Printable(c) && Readable(c) && records == PrintChange(c) + rest && ReadStatus(rest).Some? && |rest| < |records|
  {
    hide IsRepositoryPath, Supported;
    var r := records[0];
    assert NUL !in r && r == r[..2] + (" " + r[3..]);
    if Relocates(r[..2]) {
      c, rest := Change(r[..2], r[3..], Some(records[1])), records[2..];
      assert records == [r, records[1]] + rest;
    } else {
      c, rest := Change(r[..2], r[3..], None), records[1..];
      assert records == [r] + rest;
    }
  }

  lemma {:induction false} ChangesRead(records: seq<string>) returns (changes: seq<Change>)
    requires ReadStatus(records).Some? && NoNul(records)
    ensures AllPrintable(changes) && AllReadable(changes) && PrintChanges(changes) == records
    decreases |records|
  {
    hide ReadStatus, Printable, Readable, PrintChange;
    changes := [];
    if records != [] {
      var c, rest := OneChangeRead(records);
      forall k | 0 <= k < |rest| ensures NUL !in rest[k] {
        assert rest[k] == records[|records| - |rest| + k];
      }
      var more := ChangesRead(rest);
      changes := [c] + more;
      assert changes[1..] == more;
    }
  }

  /** The reader accepts exactly what prints well-formed, supported changes with safe paths. */
  lemma {:induction false} StatusAcceptedIff(output: string)
    ensures StatusPaths(output).Some? <==>
            exists changes :: AllPrintable(changes) && AllReadable(changes) && output == Terminated(PrintChanges(changes))
  {
    hide AllPrintable, AllReadable, PrintChanges, Terminated, ReadStatus, Sort, Once, NoNul, Records;
    if StatusPaths(output).Some? {
      RecordsOnly(output);
      var changes := ChangesRead(Records(output).value);
      assert AllPrintable(changes) && AllReadable(changes) && output == Terminated(PrintChanges(changes));
    }
    forall changes | AllPrintable(changes) && AllReadable(changes) && output == Terminated(PrintChanges(changes))
      ensures StatusPaths(output).Some?
    {
      StatusRoundTrip(changes);
    }
  }

  // ----- the status reader's loop -----

  method ReadStatusPaths(output: string) returns (r: Option<seq<string>>)
    ensures r == StatusPaths(output)
  {
    var records := Records(output);
    if records.None? { return None; }
    var list := ReadPaths(records.value);
    if list.None? { return None; }
    return Some(Sort(list.value, Same));
  }

  lemma {:induction false} OnceNothing()
    ensures Once([]) == []
  {
  }

  /** The set of paths keeps the order in which they were first met. */
  method ReadPaths(records: seq<string>) returns (r: Option<seq<string>>)
    ensures r == match ReadStatus(records) case None => None case Some(list) => Some(Once(list))
  {
    hide IsRepositoryPath, Supported, Relocates, Once;
    OnceNothing();
    var paths: seq<string> := [];
    ghost var list: seq<string> := [];
    ghost var whole := ReadStatus(records);
    PrependNothing(whole);
    assert records[0..] == records;
    var index := 0;
    while index < |records|
      invariant index <= |records| && paths == Once(list)
      invariant whole == Prepend(list, ReadStatus(records[index..]))
    {
      var record := records[index];
      ghost var rest := records[index..];
      if |record| < 3 || record[2] != ' ' || !Supported(record[..2]) { return None; }
      var path := record[3..];
      if !IsRepositoryPath(path) { return None; }
      paths := Add(paths, list, path);
      if Relocates(record[..2]) {
        if index + 1 >= |records| || !IsRepositoryPath(records[index + 1]) { return None; }
        var source := records[index + 1];
        assert rest[1] == source && rest[2..] == records[index + 2..];
        PrependTwice(list, [path, source], ReadStatus(rest[2..]));
        assert (list + [path]) + [source] == list + [path, source];
        paths := Add(paths, list + [path], source);
        list := list + [path, source];
        index := index + 2;
      } else {
        assert rest[1..] == records[index + 1..];
        PrependTwice(list, [path], ReadStatus(rest[1..]));
        list := list + [path];
        index := index + 1;
      }
    }
    assert list + [] == list;
    return Some(paths);
  }

  method Add(paths: seq<string>, ghost list: seq<string>, path: string) returns (more: seq<string>)
    requires paths == Once(list)
    ensures more == Once(list + [path])
  {
    assert (list + [path])[..|list|] == list;
    more := if path in paths then paths else paths + [path];
  }

  // ----- the raw diff of a commit -----

  datatype Entry = Entry(path: string, mode: string, oid: Option<string>)

  /** One raw-diff record: both modes, both blobs, a status letter, a path. */
  datatype Raw = Raw(oldMode: string, newMode: string, oldOid: string, newOid: string, status: char, path: string)

  predicate Octal(s: string) {
    |s| == 6 && forall k :: 0 <= k < 6 ==> '0' <= s[k] <= '7'
  }

  lemma {:induction false} OctalIff(s: string)
    ensures Octal(s) <==> |s| == 6 && forall c :: c in s ==> c in "01234567"
  {
    var digits := "01234567";
    forall c ensures c in digits <==> '0' <= c <= '7' {
      if '0' <= c <= '7' { assert digits[(c - '0') as nat] == c; }
    }
    forall k | 0 <= k < |s| ensures s[k] in s { }
  }

  const MODES := {"100644", "100755"}

  /** The metadata field: fixed columns. */
  function ReadMetadata(f: string, path: string): Option<Raw> {
    if |f| != 98 || f[0] != ':' || f[7] != ' ' || f[14] != ' ' || f[55] != ' ' || f[96] != ' ' then None
    else
      var r := Raw(f[1..7], f[8..14], f[15..55], f[56..96], f[97], path);
      if Octal(r.oldMode) && Octal(r.newMode) && IsSha(r.oldOid) && IsSha(r.newOid) && r.status in {'A', 'M', 'D', 'T'}
      then Some(r) else None
  }

  /** The entry a record stands for: a deletion, or a regular file with a real blob. */
  function EntryOf(r: Raw): Option<Entry> {
    if !IsRepositoryPath(r.path) then None
    else if r.newMode == ABSENT then (if r.status == 'D' && r.newOid == ZERO then Some(Entry(r.path, ABSENT, None)) else None)
    else if r.newMode in MODES && r.newOid != ZERO && r.status != 'D' then Some(Entry(r.path, r.newMode, Some(r.newOid)))
    else None
  }

  function ReadEntries(fields: seq<string>): Option<seq<Entry>>
    decreases |fields|
  {
    if fields == [] then Some([])
    else if |fields| == 1 then None
    else match ReadMetadata(fields[0], fields[1])
      case None => None
      case Some(r) => match EntryOf(r)
        case None => None
        case Some(e) => Prepend([e], ReadEntries(fields[2..]))
  }

  function PathOf(e: Entry): string { e.path }

  function CommittedEntries(output: string): Option<seq<Entry>> {
    match Records(output)
    case None => None
    case Some(fields) => match ReadEntries(fields)
      case None => None
      case Some(list) => Some(Sort(list, PathOf))
  }

  function Columns(r: Raw): string {
    ":" + (r.oldMode + (" " + (r.newMode + (" " + (r.oldOid + (" " + (r.newOid + (" " + [r.status]))))))))
  }

  function PrintRaw(rs: seq<Raw>): seq<string> {
    if rs == [] then [] else [Columns(rs[0]), rs[0].path] + PrintRaw(rs[1..])
  }

  /** What Git prints for a file or its absence: full-width fields, no NUL in a path. */
  predicate Wellformed(r: Raw) {
    Octal(r.oldMode) && Octal(r.newMode) && IsSha(r.oldOid) && IsSha(r.newOid) && r.status in {'A', 'M', 'D', 'T'} && NUL !in r.path
  }

  predicate AllWellformed(rs: seq<Raw>) {
    rs != [] ==> Wellformed(rs[0]) && AllWellformed(rs[1..])
  }

  /** The entries of a diff, if every record stands for one. */
  function EntriesOf(rs: seq<Raw>): Option<seq<Entry>> {
    if rs == [] then Some([])
    else if EntryOf(rs[0]).None? then None
    else Prepend([EntryOf(rs[0]).value], EntriesOf(rs[1..]))
  }

  lemma {:induction false} MetadataRoundTrip(r: Raw)
    requires Wellformed(r)
    ensures ReadMetadata(Columns(r), r.path) == Some(r) && NUL !in Columns(r)
  {
    var f := Columns(r);
    assert |f| == 98;
    assert f[0] == ':' && f[7] == ' ' && f[14] == ' ' && f[55] == ' ' && f[96] == ' ' && f[97] == r.status;
    assert f[1..7] == r.oldMode && f[8..14] == r.newMode && f[15..55] == r.oldOid && f[56..96] == r.newOid;
    NoNulIn(r.oldMode);
    NoNulIn(r.newMode);
    NoNulIn(r.oldOid);
    NoNulIn(r.newOid);
    hide Octal, IsSha;
  }

  lemma {:induction false} NoNulIn(s: string)
    requires Octal(s) || IsSha(s)
    ensures NUL !in s
  {
  }

  lemma {:induction false} EntriesRoundTrip(rs: seq<Raw>)
    requires AllWellformed(rs)
    ensures ReadEntries(PrintRaw(rs)) == EntriesOf(rs) && NoNul(PrintRaw(rs))
  {
    if rs != [] {
      MetadataRoundTrip(rs[0]);
      EntriesRoundTrip(rs[1..]);
      var first := [Columns(rs[0]), rs[0].path];
      NoNulTogether(first, PrintRaw(rs[1..]));
      assert PrintRaw(rs)[0] == first[0] && PrintRaw(rs)[1] == first[1] && PrintRaw(rs)[2..] == PrintRaw(rs[1..]);
      hide ReadMetadata, Columns, EntryOf, Wellformed;
    }
  }

  /** Raw-diff output reads back as exactly the entries it prints, sorted by path. */
  lemma {:induction false} DiffRoundTrip(rs: seq<Raw>)
    requires AllWellformed(rs)
    ensures CommittedEntries(Terminated(PrintRaw(rs))) ==
            if EntriesOf(rs).None? then None else Some(Sort(EntriesOf(rs).value, PathOf))
  {
    EntriesRoundTrip(rs);
    RecordsRoundTrip(PrintRaw(rs));
  }

  lemma {:induction false} MetadataRead(f: string, path: string)
    requires ReadMetadata(f, path).Some? && NUL !in path
    ensures Wellformed(ReadMetadata(f, path).value) && Columns(ReadMetadata(f, path).value) == f
    ensures ReadMetadata(f, path).value.path == path
  {
    hide Octal, IsSha;
    Pieces98(f);
  }

  lemma {:induction false} Pieces98(f: string)
    requires |f| == 98 && f[0] == ':' && f[7] == ' ' && f[14] == ' ' && f[55] == ' ' && f[96] == ' '
    ensures f == ":" + (f[1..7] + (" " + (f[8..14] + (" " + (f[15..55] + (" " + (f[56..96] + (" " + [f[97]]))))))))
  {
    assert " " + [f[97]] == f[96..];
    assert f[56..96] + f[96..] == f[56..];
    assert " " + f[56..] == f[55..];
    assert f[15..55] + f[55..] == f[15..];
    assert " " + f[15..] == f[14..];
    assert f[8..14] + f[14..] == f[8..];
    assert " " + f[8..] == f[7..];
    assert f[1..7] + f[7..] == f[1..];
  }

  lemma {:induction false} EntriesRead(fields: seq<string>) returns (rs: seq<Raw>)
    requires ReadEntries(fields).Some? && NoNul(fields)
    ensures AllWellformed(rs) && EntriesOf(rs) == ReadEntries(fields) && PrintRaw(rs) == fields
    decreases |fields|
  {
    hide ReadMetadata, EntryOf, Columns, Wellformed;
    rs := [];
    if fields != [] {
      MetadataRead(fields[0], fields[1]);
      var r := ReadMetadata(fields[0], fields[1]).value;
      forall k | 0 <= k < |fields[2..]| ensures NUL !in fields[2..][k] {
        assert fields[2..][k] == fields[k + 2];
      }
      var more := EntriesRead(fields[2..]);
      rs := [r] + more;
      assert rs[1..] == more;
      assert fields == [fields[0], fields[1]] + fields[2..];
    }
  }

  /** Whatever the reader accepts is a print of well-formed records, and reads as their entries. */
  lemma {:induction false} DiffAccepted(output: string) returns (rs: seq<Raw>)
    requires CommittedEntries(output).Some?
    ensures AllWellformed(rs) && output == Terminated(PrintRaw(rs))
    ensures EntriesOf(rs).Some? && CommittedEntries(output).value == Sort(EntriesOf(rs).value, PathOf)
  {
    hide AllWellformed, PrintRaw, Terminated, ReadEntries, EntriesOf, Sort, NoNul, Records;
    RecordsOnly(output);
    rs := EntriesRead(Records(output).value);
  }

  method ReadCommittedEntries(output: string) returns (r: Option<seq<Entry>>)
    ensures r == CommittedEntries(output)
  {
    var records := Records(output);
    if records.None? { return None; }
    var fields := records.value;
    var entries: seq<Entry> := [];
    ghost var whole := ReadEntries(fields);
    PrependNothing(whole);
    assert fields[0..] == fields;
    if |fields| % 2 != 0 {
      OddRefused(fields);
      return None;
    }
    hide ReadMetadata, EntryOf;
    var index := 0;
    while index < |fields|
      invariant index <= |fields| && index % 2 == 0
      invariant whole == Prepend(entries, ReadEntries(fields[index..]))
    {
      ghost var rest := fields[index..];
      assert rest[0] == fields[index] && rest[1] == fields[index + 1] && rest[2..] == fields[index + 2..];
      var raw := ReadMetadata(fields[index], fields[index + 1]);
      if raw.None? { return None; }
      var entry := EntryOf(raw.value);
      if entry.None? { return None; }
      PrependTwice(entries, [entry.value], ReadEntries(rest[2..]));
      entries := entries + [entry.value];
      index := index + 2;
    }
    assert entries + [] == entries;
    return Some(Sort(entries, PathOf));
  }

  lemma {:induction false} OddRefused(fields: seq<string>)
    requires |fields| % 2 != 0
    ensures ReadEntries(fields) == None
    decreases |fields|
  {
    if |fields| > 1 { OddRefused(fields[2..]); }
  }

  // ----- accepting a commit -----

  datatype Snapshot = Snapshot(task: string, headSha: string, entries: seq<Entry>)

  predicate Verifiable(e: Entry) {
    IsRepositoryPath(e.path)
    && (if e.mode == ABSENT then e.oid.None? else e.mode in MODES && e.oid.Some? && IsSha(e.oid.value))
  }

  function Find(entries: seq<Entry>, path: string): Option<Entry> {
    if entries == [] then None
    else if entries[0].path == path then Some(entries[0]) else Find(entries[1..], path)
  }

  predicate NoRepeats(paths: seq<string>) {
    forall i, j :: 0 <= i < j < |paths| ==> paths[i] != paths[j]
  }

  /** The approved entries in path order, or None if snapshot and paths do not fit together. */
  method ApprovedEntries(task: string, snapshot: Snapshot, paths: seq<string>) returns (r: Option<seq<Entry>>)
    ensures r == Approved(task, snapshot, paths)
  {
    if snapshot.task != task || !IsSha(snapshot.headSha) { return None; }
    var i := 0;
    while i < |snapshot.entries|
      invariant i <= |snapshot.entries|
      invariant forall k :: 0 <= k < i ==> Verifiable(snapshot.entries[k])
      invariant forall l :: 1 <= l < i ==> Less(snapshot.entries[l - 1].path, snapshot.entries[l].path)
    {
      if !Verifiable(snapshot.entries[i]) { return None; }
      if i > 0 && !Less(snapshot.entries[i - 1].path, snapshot.entries[i].path) { return None; }
      i := i + 1;
    }
    if |paths| == 0 || !NoRepeats(paths) { return None; }
    var chosen := Choose(snapshot.entries, paths);
    if chosen.None? { return None; }
    return Some(Sort(chosen.value, PathOf));
  }

  function Choose(entries: seq<Entry>, paths: seq<string>): Option<seq<Entry>> {
    if paths == [] then Some([])
    else if !IsRepositoryPath(paths[0]) || Find(entries, paths[0]).None? then None
    else Prepend([Find(entries, paths[0]).value], Choose(entries, paths[1..]))
  }

  predicate Coherent(task: string, snapshot: Snapshot) {
    && snapshot.task == task && IsSha(snapshot.headSha)
    && (forall k :: 0 <= k < |snapshot.entries| ==> Verifiable(snapshot.entries[k]))
    && forall l :: 1 <= l < |snapshot.entries| ==> Less(snapshot.entries[l - 1].path, snapshot.entries[l].path)
  }

  function Approved(task: string, snapshot: Snapshot, paths: seq<string>): Option<seq<Entry>> {
    if !Coherent(task, snapshot) || paths == [] || !NoRepeats(paths) then None
    else match Choose(snapshot.entries, paths)
      case None => None
      case Some(chosen) => Some(Sort(chosen, PathOf))
  }

  /** The commit check on what Git reports: one parent, the verified HEAD, and a diff that reads as
      the approved entries. */
  predicate Accepts(task: string, snapshot: Snapshot, paths: seq<string>, parent: string, raw: string) {
    Approved(task, snapshot, paths).Some? && parent == snapshot.headSha
    && CommittedEntries(raw).Some? && CommittedEntries(raw).value == Approved(task, snapshot, paths).value
  }

  lemma {:induction false} FoundEntry(entries: seq<Entry>, path: string)
    requires Find(entries, path).Some?
    ensures Find(entries, path).value in entries && Find(entries, path).value.path == path
  {
    if entries[0].path != path { FoundEntry(entries[1..], path); }
  }

  lemma {:induction false} ChosenPaths(entries: seq<Entry>, paths: seq<string>)
    requires Choose(entries, paths).Some?
    ensures |Choose(entries, paths).value| == |paths|
    ensures forall k :: 0 <= k < |paths| ==> Choose(entries, paths).value[k].path == paths[k] && Choose(entries, paths).value[k] in entries
  {
    if paths != [] {
      FoundEntry(entries, paths[0]);
      ChosenPaths(entries, paths[1..]);
    }
  }

  lemma {:induction false} ChosenDistinct(entries: seq<Entry>, paths: seq<string>)
    requires Choose(entries, paths).Some? && NoRepeats(paths)
    ensures DistinctKeys(Choose(entries, paths).value, PathOf)
  {
    ChosenPaths(entries, paths);
  }

  /** A commit is accepted if and only if its diff consists of exactly the approved entries, each
      once: same paths, same modes, same blobs, deletions included, in whatever order Git lists them. */
  lemma {:induction false} AcceptedIffExactlyApproved(task: string, snapshot: Snapshot, paths: seq<string>, parent: string, rs: seq<Raw>)
    requires AllWellformed(rs) && Coherent(task, snapshot) && paths != [] && NoRepeats(paths) && parent == snapshot.headSha
    requires Choose(snapshot.entries, paths).Some?
    ensures Accepts(task, snapshot, paths, parent, Terminated(PrintRaw(rs))) <==>
            && EntriesOf(rs).Some?
            && multiset(EntriesOf(rs).value) == multiset(Choose(snapshot.entries, paths).value)
  {
    hide Sort, AllWellformed, NoRepeats, Choose, EntriesOf, CommittedEntries, PrintRaw, Terminated;
    DiffRoundTrip(rs);
    ChosenDistinct(snapshot.entries, paths);
    if EntriesOf(rs).Some? {
      SortsAlikeIff(Choose(snapshot.entries, paths).value, EntriesOf(rs).value, PathOf);
    }
  }

  /** The output is a print of well-formed records that stand for exactly these entries. */
  ghost predicate Prints(raw: string, entries: seq<Entry>) {
    exists rs :: AllWellformed(rs) && raw == Terminated(PrintRaw(rs)) && EntriesOf(rs).Some?
                 && multiset(EntriesOf(rs).value) == multiset(entries)
  }

  /** For any output whatever: a commit is accepted if and only if the snapshot and the paths fit
      together, the parent is the verified HEAD, and the output prints exactly the approved entries. */
  lemma {:induction false} AcceptedIff(task: string, snapshot: Snapshot, paths: seq<string>, parent: string, raw: string)
    ensures Accepts(task, snapshot, paths, parent, raw) <==>
            && Coherent(task, snapshot) && paths != [] && NoRepeats(paths) && parent == snapshot.headSha
            && Choose(snapshot.entries, paths).Some? && Prints(raw, Choose(snapshot.entries, paths).value)
  {
    hide Coherent, AllWellformed, NoRepeats, Choose, EntriesOf, CommittedEntries, PrintRaw, Terminated, Sort;
    if Coherent(task, snapshot) && paths != [] && NoRepeats(paths) && parent == snapshot.headSha && Choose(snapshot.entries, paths).Some? {
      if Accepts(task, snapshot, paths, parent, raw) {
        var rs := DiffAccepted(raw);
        AcceptedIffExactlyApproved(task, snapshot, paths, parent, rs);
      }
      forall rs | AllWellformed(rs) && raw == Terminated(PrintRaw(rs)) && EntriesOf(rs).Some?
                  && multiset(EntriesOf(rs).value) == multiset(Choose(snapshot.entries, paths).value)
        ensures Accepts(task, snapshot, paths, parent, raw)
      {
        AcceptedIffExactlyApproved(task, snapshot, paths, parent, rs);
      }
    }
  }

  // ----- what the reader and the check make of the fields themselves -----

  /** What a record must say for the reader to take it as an entry. */
  lemma {:induction false} EntryOfIff(r: Raw, e: Entry)
    requires IsRepositoryPath(r.path)
    ensures EntryOf(r) == Some(e) <==>
            && e.path == r.path && e.mode == r.newMode
            && if r.newMode == "000000" then
                 e.oid == None && r.newOid == "0000000000000000000000000000000000000000" && r.status == 'D'
               else
                 && (r.newMode == "100644" || r.newMode == "100755")
                 && e.oid == Some(r.newOid) && r.newOid != "0000000000000000000000000000000000000000" && r.status != 'D'
  {
    hide IsRepositoryPath;
  }

  lemma {:induction false} EntriesAt(rs: seq<Raw>)
    ensures EntriesOf(rs).Some? <==> forall k :: 0 <= k < |rs| ==> EntryOf(rs[k]).Some?
    ensures EntriesOf(rs).Some? ==> |EntriesOf(rs).value| == |rs|
    ensures EntriesOf(rs).Some? ==> forall k :: 0 <= k < |rs| ==> EntryOf(rs[k]) == Some(EntriesOf(rs).value[k])
  {
    hide EntryOf;
    if rs != [] {
      EntriesAt(rs[1..]);
      forall k | 0 < k < |rs| ensures rs[k] == rs[1..][k - 1] { }
    }
  }

  lemma {:induction false} WellformedAt(rs: seq<Raw>)
    ensures AllWellformed(rs) <==> forall k :: 0 <= k < |rs| ==> Wellformed(rs[k])
  {
    hide Wellformed;
    if rs != [] {
      WellformedAt(rs[1..]);
      forall k | 0 < k < |rs| ensures rs[k] == rs[1..][k - 1] { }
    }
  }

  /** Whatever the old sides were: records that carry these entries on their new sides read back as
      these entries, in path order. A deletion is a `D` with neither mode nor blob. */
  lemma {:induction false} WrittenEntriesReadBack(es: seq<Entry>, rs: seq<Raw>)
    requires |rs| == |es| && AllWellformed(rs)
    requires forall k :: 0 <= k < |es| ==>
               && IsRepositoryPath(es[k].path) && rs[k].path == es[k].path && rs[k].newMode == es[k].mode
               && if es[k].oid.None? then
                    es[k].mode == "000000" && rs[k].newOid == "0000000000000000000000000000000000000000" && rs[k].status == 'D'
                  else
                    && (es[k].mode == "100644" || es[k].mode == "100755") && rs[k].status != 'D'
                    && rs[k].newOid == es[k].oid.value && es[k].oid.value != "0000000000000000000000000000000000000000"
    ensures CommittedEntries(Terminated(PrintRaw(rs))) == Some(Sort(es, PathOf))
  {
    hide IsRepositoryPath, Sort, AllWellformed, EntryOf, EntriesOf, CommittedEntries;
    forall k | 0 <= k < |rs| ensures EntryOf(rs[k]) == Some(es[k]) { EntryOfIff(rs[k], es[k]); }
    EntriesAt(rs);
    assert EntriesOf(rs).value == es;
    DiffRoundTrip(rs);
  }

  /** The record is of this entry's path and leaves there what the entry says. */
  predicate Leaves(r: Raw, e: Entry) {
    && r.path == e.path && r.newMode == e.mode
    && if e.oid.None? then r.newMode == "000000" && r.newOid == "0000000000000000000000000000000000000000" && r.status == 'D'
       else && (r.newMode == "100644" || r.newMode == "100755") && r.status != 'D'
            && r.newOid == e.oid.value && r.newOid != "0000000000000000000000000000000000000000"
  }

  /** One record for each approved path, and none besides, each leaving there what was verified. */
  ghost predicate DiffIsApproved(snapshot: Snapshot, paths: seq<string>, rs: seq<Raw>) {
    && |rs| == |paths|
    && forall k :: 0 <= k < |paths| ==>
         exists r, e :: r in rs && e in snapshot.entries && e.path == paths[k] && Leaves(r, e)
  }

  lemma {:induction false} LeavesIff(r: Raw, e: Entry)
    requires IsRepositoryPath(e.path)
    ensures Leaves(r, e) <==> EntryOf(r) == Some(e) && r.path == e.path
  {
    hide IsRepositoryPath;
    if r.path == e.path { EntryOfIff(r, e); }
  }

  lemma {:induction false} FoundIff(entries: seq<Entry>, path: string, e: Entry)
    requires forall l :: 1 <= l < |entries| ==> Less(entries[l - 1].path, entries[l].path)
    ensures Find(entries, path) == Some(e) <==> e in entries && e.path == path
  {
    if entries != [] {
      forall l | 1 <= l < |entries[1..]| ensures Less(entries[1..][l - 1].path, entries[1..][l].path) {
        assert Less(entries[l].path, entries[l + 1].path);
      }
      FoundIff(entries[1..], path, e);
      if entries[0].path == path && e in entries[1..] && e.path == path {
        var k :| 1 <= k < |entries| && entries[k] == e;
        LaterIsGreater(entries, k);
        LessIrreflexive(path);
        assert false;
      }
    }
  }

  lemma {:induction false} LaterIsGreater(entries: seq<Entry>, k: nat)
    requires forall l :: 1 <= l < |entries| ==> Less(entries[l - 1].path, entries[l].path)
    requires 1 <= k < |entries|
    ensures Less(entries[0].path, entries[k].path)
  {
    if k > 1 {
      LaterIsGreater(entries, k - 1);
      LessTransitive(entries[0].path, entries[k - 1].path, entries[k].path);
    }
  }

  lemma {:induction false} ChosenIff(entries: seq<Entry>, paths: seq<string>)
    requires forall l :: 1 <= l < |entries| ==> Less(entries[l - 1].path, entries[l].path)
    ensures Choose(entries, paths).Some? <==>
            forall k :: 0 <= k < |paths| ==> IsRepositoryPath(paths[k]) && exists e :: e in entries && e.path == paths[k]
  {
    hide IsRepositoryPath;
    if paths != [] {
      ChosenIff(entries, paths[1..]);
      forall k | 0 < k < |paths| ensures paths[k] == paths[1..][k - 1] { }
      forall e ensures Find(entries, paths[0]) == Some(e) <==> e in entries && e.path == paths[0] { FoundIff(entries, paths[0], e); }
      if Find(entries, paths[0]).Some? {
        var e := Find(entries, paths[0]).value;
        assert Find(entries, paths[0]) == Some(e);
      }
    }
  }

  lemma {:induction false} PathOfEntry(r: Raw, e: Entry)
    requires EntryOf(r) == Some(e)
    ensures r.path == e.path && IsRepositoryPath(r.path)
  {
    hide IsRepositoryPath;
  }

  lemma {:induction false} ApprovedLeaves(snapshot: Snapshot, paths: seq<string>, rs: seq<Raw>)
    requires Choose(snapshot.entries, paths).Some? && EntriesOf(rs).Some?
    requires multiset(EntriesOf(rs).value) == multiset(Choose(snapshot.entries, paths).value)
    ensures DiffIsApproved(snapshot, paths, rs)
  {
    hide IsRepositoryPath, Choose, EntriesOf, EntryOf, Leaves;
    var (chosen, found) := (Choose(snapshot.entries, paths).value, EntriesOf(rs).value);
    ChosenPaths(snapshot.entries, paths);
    EntriesAt(rs);
    SameElements(chosen, found);
    assert |chosen| == |multiset(chosen)| && |found| == |multiset(found)|;
    forall k | 0 <= k < |paths|
      ensures exists r, e :: r in rs && e in snapshot.entries && e.path == paths[k] && Leaves(r, e)
    {
      assert chosen[k] in found;
      var m :| 0 <= m < |found| && found[m] == chosen[k];
      PathOfEntry(rs[m], found[m]);
      LeavesIff(rs[m], chosen[k]);
    }
  }

  /** The record that leaves what was verified at the k-th path, and what was verified there. */
  lemma {:induction false} RecordFor(snapshot: Snapshot, paths: seq<string>, rs: seq<Raw>, k: nat) returns (m: nat)
    requires Coherent("", snapshot.(task := "")) && DiffIsApproved(snapshot, paths, rs) && k < |paths|
    requires Choose(snapshot.entries, paths).Some? && IsRepositoryPath(paths[k])
    ensures k < |Choose(snapshot.entries, paths).value|
    ensures m < |rs| && rs[m].path == paths[k] && EntryOf(rs[m]) == Some(Choose(snapshot.entries, paths).value[k])
  {
    hide IsRepositoryPath, EntryOf, Leaves, Choose, Verifiable;
    ChosenPaths(snapshot.entries, paths);
    var r, e :| r in rs && e in snapshot.entries && e.path == paths[k] && Leaves(r, e);
    m :| 0 <= m < |rs| && rs[m] == r;
    LeavesIff(r, e);
    PathOfEntry(r, e);
    var c := Choose(snapshot.entries, paths).value[k];
    FoundIff(snapshot.entries, paths[k], e);
    FoundIff(snapshot.entries, paths[k], c);
  }

  lemma {:induction false} RecordsFor(snapshot: Snapshot, paths: seq<string>, rs: seq<Raw>, n: nat) returns (f: seq<nat>)
    requires Coherent("", snapshot.(task := "")) && DiffIsApproved(snapshot, paths, rs) && n <= |paths|
    requires Choose(snapshot.entries, paths).Some? && forall k :: 0 <= k < |paths| ==> IsRepositoryPath(paths[k])
    ensures |f| == n
    ensures |Choose(snapshot.entries, paths).value| == |paths|
    ensures forall k :: 0 <= k < n ==>
              f[k] < |rs| && rs[f[k]].path == paths[k] && EntryOf(rs[f[k]]) == Some(Choose(snapshot.entries, paths).value[k])
  {
    hide Coherent, DiffIsApproved, IsRepositoryPath, EntryOf, Choose;
    ChosenPaths(snapshot.entries, paths);
    f := [];
    if n > 0 {
      var before := RecordsFor(snapshot, paths, rs, n - 1);
      var m := RecordFor(snapshot, paths, rs, n - 1);
      f := before + [m];
    }
  }

  lemma {:induction false} LeavingIsApproved(snapshot: Snapshot, paths: seq<string>, rs: seq<Raw>)
    requires Coherent("", snapshot.(task := "")) && DiffIsApproved(snapshot, paths, rs) && NoRepeats(paths)
    requires Choose(snapshot.entries, paths).Some? && forall k :: 0 <= k < |paths| ==> IsRepositoryPath(paths[k])
    ensures EntriesOf(rs).Some? && multiset(EntriesOf(rs).value) == multiset(Choose(snapshot.entries, paths).value)
  {
    var n := |rs|;
    assert n == |paths|;
    var f := RecordsFor(snapshot, paths, rs, |paths|);
    hide Coherent, IsRepositoryPath, EntryOf, EntriesOf, Choose, DiffIsApproved;
    var chosen := Choose(snapshot.entries, paths).value;
    forall i, j | 0 <= i < j < |f| ensures f[i] != f[j] { assert paths[i] != paths[j]; }
    Pigeonhole(f, n);
    forall m | 0 <= m < n ensures EntryOf(rs[m]).Some? {
      assert m in f;
      var k :| 0 <= k < |f| && f[k] == m;
    }
    EntriesAt(rs);
    ChosenDistinct(snapshot.entries, paths);
    forall k | 0 <= k < |chosen| ensures chosen[k] in EntriesOf(rs).value {
      assert EntriesOf(rs).value[f[k]] == chosen[k];
    }
    Rearranged(chosen, EntriesOf(rs).value);
  }

  /** For any output whatever, and from the fields alone: a commit is accepted exactly if the snapshot is
      this task's, well-formed and strictly in path order, the paths are safe, different and all in it,
      the parent is the verified HEAD, and the output prints one record for each path and no other, which
      leaves there the verified mode and blob, or nothing where nothing was. */
  lemma {:induction false} AcceptedIffDiffIsApproved(task: string, snapshot: Snapshot, paths: seq<string>, parent: string, raw: string)
    ensures Accepts(task, snapshot, paths, parent, raw) <==>
            && snapshot.task == task && IsSha(snapshot.headSha) && parent == snapshot.headSha
            && (forall k :: 0 <= k < |snapshot.entries| ==>
                  var e := snapshot.entries[k];
                  && IsRepositoryPath(e.path)
                  && if e.mode == "000000" then e.oid == None
                     else (e.mode == "100644" || e.mode == "100755") && e.oid.Some? && IsSha(e.oid.value))
            && (forall l :: 1 <= l < |snapshot.entries| ==> Less(snapshot.entries[l - 1].path, snapshot.entries[l].path))
            && |paths| > 0 && (forall i, j :: 0 <= i < j < |paths| ==> paths[i] != paths[j])
            && exists rs :: && (forall k :: 0 <= k < |rs| ==> Wellformed(rs[k])) && raw == Terminated(PrintRaw(rs))
                            && DiffIsApproved(snapshot, paths, rs)
  {
    AcceptedIff(task, snapshot, paths, parent, raw);
    CoherentIff(task, snapshot);
    hide Accepts, Coherent, IsRepositoryPath, Choose, PrintRaw, Terminated, EntriesOf, DiffIsApproved, IsSha, Wellformed, AllWellformed;
    if Coherent(task, snapshot) && NoRepeats(paths) {
      CoherentAnyTask(task, snapshot);
      if Choose(snapshot.entries, paths).Some? && Prints(raw, Choose(snapshot.entries, paths).value) {
        var rs :| AllWellformed(rs) && raw == Terminated(PrintRaw(rs)) && EntriesOf(rs).Some?
                  && multiset(EntriesOf(rs).value) == multiset(Choose(snapshot.entries, paths).value);
        WellformedAt(rs);
        ApprovedLeaves(snapshot, paths, rs);
      }
      forall rs | (forall k :: 0 <= k < |rs| ==> Wellformed(rs[k])) && raw == Terminated(PrintRaw(rs)) && DiffIsApproved(snapshot, paths, rs)
        ensures Choose(snapshot.entries, paths).Some? && Prints(raw, Choose(snapshot.entries, paths).value)
      {
        WellformedAt(rs);
        ApprovedAreChosen(task, snapshot, paths, rs);
        LeavingIsApproved(snapshot, paths, rs);
      }
    }
  }

  lemma {:induction false} CoherentIff(task: string, snapshot: Snapshot)
    ensures Coherent(task, snapshot) <==>
            && snapshot.task == task && IsSha(snapshot.headSha)
            && (forall k :: 0 <= k < |snapshot.entries| ==>
                  var e := snapshot.entries[k];
                  && IsRepositoryPath(e.path)
                  && if e.mode == "000000" then e.oid == None
                     else (e.mode == "100644" || e.mode == "100755") && e.oid.Some? && IsSha(e.oid.value))
            && (forall l :: 1 <= l < |snapshot.entries| ==> Less(snapshot.entries[l - 1].path, snapshot.entries[l].path))
  {
    hide IsRepositoryPath, IsSha;
    forall k | 0 <= k < |snapshot.entries|
      ensures var e := snapshot.entries[k];
              Verifiable(e) <==> && IsRepositoryPath(e.path)
                                 && if e.mode == "000000" then e.oid == None
                                    else (e.mode == "100644" || e.mode == "100755") && e.oid.Some? && IsSha(e.oid.value)
    {
    }
  }

  lemma {:induction false} CoherentAnyTask(task: string, snapshot: Snapshot)
    requires Coherent(task, snapshot)
    ensures Coherent("", snapshot.(task := ""))
  {
    hide IsRepositoryPath, IsSha, Verifiable;
  }

  lemma {:induction false} ApprovedAreChosen(task: string, snapshot: Snapshot, paths: seq<string>, rs: seq<Raw>)
    requires Coherent(task, snapshot) && DiffIsApproved(snapshot, paths, rs)
    ensures Choose(snapshot.entries, paths).Some?
    ensures forall k :: 0 <= k < |paths| ==> IsRepositoryPath(paths[k])
  {
    hide IsRepositoryPath, IsSha, Choose, Leaves;
    ChosenIff(snapshot.entries, paths);
    forall k | 0 <= k < |paths| ensures IsRepositoryPath(paths[k]) && exists e :: e in snapshot.entries && e.path == paths[k] {
      var r, e :| r in rs && e in snapshot.entries && e.path == paths[k] && Leaves(r, e);
      var l :| 0 <= l < |snapshot.entries| && snapshot.entries[l] == e;
      assert Verifiable(snapshot.entries[l]);
    }
  }

  // ----- the formats themselves -----

  lemma {:induction false} FourLetters(x: string)
    ensures Lower(x) == ".git" <==>
            |x| == 4 && x[0] == '.' && x[1] in {'g', 'G'} && x[2] in {'i', 'I'} && x[3] in {'t', 'T'}
  {
    LowerAt(x);
    assert Lower(x) == ".git" ==> Lower(x)[0] == '.' && Lower(x)[1] == 'g' && Lower(x)[2] == 'i' && Lower(x)[3] == 't';
  }

  lemma {:induction false} LowerAt(x: string)
    ensures |Lower(x)| == |x|
    ensures forall k :: 0 <= k < |x| ==> Lower(x)[k] == if 'A' <= x[k] <= 'Z' then x[k] + ('a' - 'A') else x[k]
  {
    if x != "" { LowerAt(x[1..]); }
  }

  /** A part of a path that is not empty, does not climb and is not Git's own directory. */
  predicate Ordinary(x: string) {
    && x != "" && x != "." && x != ".."
    && !(|x| == 4 && x[0] == '.' && x[1] in {'g', 'G'} && x[2] in {'i', 'I'} && x[3] in {'t', 'T'})
  }

  lemma {:induction false} OrdinaryIff(x: string)
    ensures Ordinary(x) <==> x !in {"", ".", ".."} && Lower(x) != ".git"
  {
    FourLetters(x);
  }

  lemma {:induction false} PartsIff(p: string)
    ensures (forall k :: 0 <= k < |Segments(p)| ==> Segments(p)[k] !in {"", ".", ".."} && Lower(Segments(p)[k]) != ".git") <==>
            forall a, x, b :: Between(p, '/', a, x, b) ==> Ordinary(x)
  {
    hide *;
    forall x ensures x in Segments(p) <==> IsPart(p, '/', x) { IsPartIff(p, x); }
    forall a, x, b | Between(p, '/', a, x, b) ensures IsPart(p, '/', x) { PartBetween(p, a, x, b); }
    if forall a, x, b :: Between(p, '/', a, x, b) ==> Ordinary(x) {
      forall k | 0 <= k < |Segments(p)| ensures Segments(p)[k] !in {"", ".", ".."} && Lower(Segments(p)[k]) != ".git" {
        assert Segments(p)[k] in Segments(p);
        var a, b := SomewherePart(p, Segments(p)[k]);
        OrdinaryIff(Segments(p)[k]);
      }
    }
    if forall k :: 0 <= k < |Segments(p)| ==> Segments(p)[k] !in {"", ".", ".."} && Lower(Segments(p)[k]) != ".git" {
      forall a, x, b | Between(p, '/', a, x, b) ensures Ordinary(x) {
        assert x in Segments(p);
        OrdinaryIff(x);
      }
    }
  }

  lemma {:induction false} IsPartIff(p: string, x: string)
    ensures x in Segments(p) <==> IsPart(p, '/', x)
  {
    PartsFrom("", p, '/', x);
    assert "" + p == p;
  }

  lemma {:induction false} PartBetween(p: string, a: string, x: string, b: string)
    requires Between(p, '/', a, x, b)
    ensures IsPart(p, '/', x)
  {
  }

  lemma {:induction false} SomewherePart(p: string, x: string) returns (a: string, b: string)
    requires IsPart(p, '/', x)
    ensures Between(p, '/', a, x, b)
  {
    hide Between;
    a, b :| Between(p, '/', a, x, b);
  }

  lemma {:induction false} CharsIff(p: string)
    ensures (forall k :: 0 <= k < |p| ==>
               p[k] !in {'\\', ':', '*', '?', '[', ']', '\U{fffd}'} && p[k] >= ' ' && p[k] != '\U{7f}') <==>
            forall c :: c in p ==>
              ' ' <= c && c != '\U{7f}' && c != '\U{fffd}'
              && c != '\\' && c != ':' && c != '*' && c != '?' && c != '[' && c != ']'
  {
    forall k | 0 <= k < |p| ensures p[k] in p { }
  }

  lemma {:induction false} SpacesAgree(c: char)
    ensures Space(c) <==> ShellSyntax.IsSpace(c)
  {
  }

  /** A path is safe exactly if it is no option, is not absolute, has no space at either end and no
      pattern, control or replacement character, and nothing that stands in it between slashes is empty,
      climbs, or is Git's own directory in whatever letter case. */
  lemma {:induction false} RepositoryPathIff(p: string)
    ensures IsRepositoryPath(p) <==>
            && p != "" && !ShellSyntax.IsSpace(p[0]) && !ShellSyntax.IsSpace(p[|p| - 1]) && p[0] != '/' && p[0] != '-'
            && (forall c :: c in p ==>
                  ' ' <= c && c != '\U{7f}' && c != '\U{fffd}'
                  && c != '\\' && c != ':' && c != '*' && c != '?' && c != '[' && c != ']')
            && forall a, x, b :: Between(p, '/', a, x, b) ==> Ordinary(x)
  {
    hide Segments, Between, Ordinary, Lower, Space, ShellSyntax.IsSpace;
    PartsIff(p);
    CharsIff(p);
    if p != "" {
      SpacesAgree(p[0]);
      SpacesAgree(p[|p| - 1]);
    }
  }

  lemma {:induction false} TerminatedTwo(a: string, b: string)
    ensures Terminated([a]) == a + "\0" && Terminated([a, b]) == a + ("\0" + (b + "\0"))
  {
    assert [a][1..] == [] && [a, b][1..] == [b] && [b][1..] == [];
    assert Terminated([b]) == b + ([NUL] + "") == b + "\0";
    assert a + ([NUL] + "") == a + "\0";
  }

  lemma {:induction false} OneEntry(r: Raw)
    ensures PrintRaw([r]) == [Columns(r), r.path]
    ensures EntriesOf([r]) == if EntryOf(r).None? then None else Some([EntryOf(r).value])
    ensures AllWellformed([r]) <==> Wellformed(r)
    ensures forall e: Entry :: Sort([e], PathOf) == [e]
  {
    assert [r][1..] == [];
    assert EntriesOf([]) == Some([]) && PrintRaw([]) == [];
    hide EntryOf, Columns, Wellformed;
    forall e: Entry ensures Sort([e], PathOf) == [e] { assert [e][1..] == []; }
  }

  /** One record of a raw diff, spelled out, and what it reads as. */
  lemma {:induction false} OneRecordReads(oldMode: string, newMode: string, oldOid: string, newOid: string, status: char, path: string)
    requires Octal(oldMode) && Octal(newMode) && IsSha(oldOid) && IsSha(newOid) && status in {'A', 'M', 'D', 'T'}
    requires NUL !in path && IsRepositoryPath(path)
    ensures var columns := ":" + (oldMode + (" " + (newMode + (" " + (oldOid + (" " + (newOid + (" " + [status]))))))));
            CommittedEntries(columns + ("\0" + (path + "\0"))) ==
            if newMode == "000000" && newOid == "0000000000000000000000000000000000000000" && status == 'D' then
              Some([Entry(path, "000000", None)])
            else if (newMode == "100644" || newMode == "100755") && newOid != "0000000000000000000000000000000000000000" && status != 'D' then
              Some([Entry(path, newMode, Some(newOid))])
            else None
  {
    hide IsRepositoryPath, Octal, IsSha, Sort, CommittedEntries, Terminated, PrintRaw, EntriesOf, AllWellformed;
    var r := Raw(oldMode, newMode, oldOid, newOid, status, path);
    TerminatedTwo(Columns(r), path);
    OneEntry(r);
    DiffRoundTrip([r]);
  }

  lemma {:induction false} ReadsOne(x: char, y: char, path: string)
    requires x !in {'R', 'C'} && y !in {'R', 'C'} && IsRepositoryPath(path)
    ensures ReadStatus([[x, y, ' '] + path]) ==
            if x in {' ', 'M', 'A', 'D', '?', '!'} && y in {' ', 'M', 'A', 'D', '?', '!'}
               && !(x == ' ' && y == ' ') && !(x == '!' && y == '!') && !(x == 'A' && y == 'A') && !(x == 'D' && y == 'D')
            then Some([path]) else None
  {
    hide IsRepositoryPath;
    var r := [x, y, ' '] + path;
    assert r[..2] == [x, y] && r[3..] == path;
    var records: seq<string> := [r];
    assert |records[1..]| == 0;
    assert Supported([x, y]) <==>
           x in {' ', 'M', 'A', 'D', '?', '!'} && y in {' ', 'M', 'A', 'D', '?', '!'}
           && !(x == ' ' && y == ' ') && !(x == '!' && y == '!') && !(x == 'A' && y == 'A') && !(x == 'D' && y == 'D');
    assert [path] + [] == [path];
  }

  lemma {:induction false} OnceTwo(p: string, q: string)
    ensures Once([p]) == [p] && Once([p, q]) == if p == q then [p] else [p, q]
  {
    hide Less;
    var (one, two) := ([p], [p, q]);
    assert one[..0] == [] && two[..1] == one;
  }

  lemma {:induction false} SortTwo(p: string, q: string)
    ensures Sort([p], Same) == [p]
    ensures Sort([p, q], Same) == if p == q || Less(p, q) then [p, q] else [q, p]
  {
    hide Less;
    var (one, two, last) := ([p], [p, q], [q]);
    assert one[1..] == [] && two[1..] == last && last[1..] == [];
    LessTotal(p, q);
    LessIrreflexive(p);
    if Less(p, q) { LessAsymmetric(p, q); }
    assert Sort(two, Same) == Insert(p, last, Same);
    assert Insert(p, last, Same) == if !Less(q, p) then [p] + last else [q] + Insert(p, last[1..], Same);
  }

  lemma {:induction false} SortedPaths(p: string, q: string)
    ensures Sort(Once([p]), Same) == [p]
    ensures Sort(Once([p, q]), Same) == if p == q then [p] else if Less(p, q) then [p, q] else [q, p]
  {
    hide Less, Sort, Once;
    OnceTwo(p, q);
    SortTwo(p, q);
  }

  /** One change that is no rename or copy, spelled out: its path, or a refusal of what is ignored,
      unmerged or unknown. */
  lemma {:induction false} OneChangeReads(x: char, y: char, path: string)
    requires NUL !in path && x != NUL && y != NUL && x !in {'R', 'C'} && y !in {'R', 'C'} && IsRepositoryPath(path)
    ensures StatusPaths([x, y, ' '] + path + "\0") ==
            if x in {' ', 'M', 'A', 'D', '?', '!'} && y in {' ', 'M', 'A', 'D', '?', '!'}
               && !(x == ' ' && y == ' ') && !(x == '!' && y == '!') && !(x == 'A' && y == 'A') && !(x == 'D' && y == 'D')
            then Some([path]) else None
  {
    hide IsRepositoryPath, Terminated, Records, ReadStatus, Sort, Once;
    var r := [x, y, ' '] + path;
    TerminatedTwo(r, r);
    RecordsRoundTrip([r]);
    ReadsOne(x, y, path);
    SortedPaths(path, path);
  }

  lemma {:induction false} ReadsRename(x: char, path: string, source: string)
    requires x in {'R', 'C'} && IsRepositoryPath(path) && IsRepositoryPath(source)
    ensures ReadStatus([[x, ' ', ' '] + path, source]) == Some([path, source])
  {
    hide IsRepositoryPath;
    var r := [x, ' ', ' '] + path;
    var records := [r, source];
    assert r[..2] == [x, ' '] && r[3..] == path && records[2..] == [];
    assert x in r[..2];
    assert [path, source] + [] == [path, source];
  }

  /** A rename or a copy, spelled out: both paths, in order, and once if they are the same. */
  lemma {:induction false} OneRenameReads(x: char, path: string, source: string)
    requires NUL !in path && NUL !in source && x in {'R', 'C'} && IsRepositoryPath(path) && IsRepositoryPath(source)
    ensures StatusPaths([x, ' ', ' '] + path + ("\0" + (source + "\0"))) ==
            Some(if path == source then [path] else if Less(path, source) then [path, source] else [source, path])
  {
    hide IsRepositoryPath, Terminated, Records, ReadStatus, Sort, Once, Less;
    var r := [x, ' ', ' '] + path;
    TerminatedTwo(r, source);
    RecordsRoundTrip([r, source]);
    ReadsRename(x, path, source);
    SortedPaths(path, source);
  }
}
