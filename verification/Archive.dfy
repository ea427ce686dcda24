/**
 Checking a decrypted backup: which paths an archive may contain, extraction against the manifest,
 and the later check of the staged files against the same manifest.
 */
module Archive {
  import opened Basics
  import opened Text

  const MAX_BYTES: int := 0x2_0000_0000
  const MAX_FILES: int := 50_000
  const MAX_FILE_BYTES: int := 0x1_8000_0000
  const MAX_MANIFEST_BYTES: int := 0x10_0000
  const MAX_RATIO: int := 1_000

  // ----- paths

  /** One segment of a relative path, processed after the ones already kept. */
  function Walk(kept: seq<string>, segment: string): seq<string> {
    if segment == "" || segment == "." then kept
    else if segment == ".." && kept != [] && kept[|kept| - 1] != ".." then kept[..|kept| - 1]
    else kept + [segment]
  }

  function WalkAll(segments: seq<string>): seq<string> {
    if segments == [] then [] else Walk(WalkAll(segments[..|segments| - 1]), segments[|segments| - 1])
  }

  /** The shortest equivalent of a relative path, by dropping "." and resolving "..". */
  function Clean(name: string): string {
    var kept := WalkAll(Split(name, '/'));
    if kept == [] then "." else Join(kept, '/')
  }

  predicate StartsWith(s: string, prefix: string) { |prefix| <= |s| && s[..|prefix|] == prefix }

  predicate SafeArchivePath(name: string) {
    && name != "" && '\\' !in name && !StartsWith(name, "/") && Clean(name) == name
    && name != "." && name != ".." && !StartsWith(name, "../")
  }

  predicate SafePayloadPath(name: string) {
    SafeArchivePath(name) && (name == "hostpin.db" || name == "master.key" || StartsWith(name, "themes/"))
  }

  /** A segment that names something inside its directory. */
  predicate Inside(segment: string) { segment != "" && segment != "." && segment != ".." }

  /** Kept segments are never empty or ".", and ".." occurs only in front. */
  ghost predicate Normal(kept: seq<string>) {
    && (forall i :: 0 <= i < |kept| ==> kept[i] != "" && kept[i] != ".")
    && (forall i, j :: 0 <= i < j < |kept| && kept[j] == ".." ==> kept[i] == "..")
  }

  lemma {:induction false} WalkAllNormal(segments: seq<string>)
    ensures Normal(WalkAll(segments))
    ensures forall k :: k in WalkAll(segments) ==> k in segments
    decreases |segments|
  {
    if segments != [] { WalkAllNormal(segments[..|segments| - 1]); }
  }

  lemma {:induction false} WalkAllInside(segments: seq<string>)
    requires forall i :: 0 <= i < |segments| ==> Inside(segments[i])
    ensures WalkAll(segments) == segments
    decreases |segments|
  {
    if segments != [] {
      WalkAllInside(segments[..|segments| - 1]);
      assert segments == segments[..|segments| - 1] + [segments[|segments| - 1]];
    }
  }

  lemma {:induction false} FirstSegmentIsBefore(name: string)
    ensures Split(name, '/')[0] == Before(name, '/')
  {
    if '/' !in name { BeforeAbsent(name, '/'); }
  }

  lemma {:induction false} ParentPrefix(name: string)
    ensures name == ".." || StartsWith(name, "../") <==> Before(name, '/') == ".."
  {
    hide Before;
    if '/' in name {
      BeforeIsPrefix(name, '/');
      if Before(name, '/') == ".." {
        assert name[..3] == "../";
      }
      if StartsWith(name, "../") {
        assert name == ".." + ['/'] + name[3..];
        BeforeSeparator("..", '/', name[3..]);
      }
    } else {
      BeforeAbsent(name, '/');
      assert |name| >= 3 ==> name[..3][2] == name[2] && name[2] in name;
    }
  }

  lemma {:induction false} RootPrefix(name: string)
    requires name != ""
    ensures StartsWith(name, "/") <==> Before(name, '/') == ""
  {
    assert name[..1] == [name[0]];
  }

  /** What the textual prefix tests say about the first segment. */
  lemma {:induction false} FirstSegment(name: string)
    requires name != ""
    ensures StartsWith(name, "/") <==> Split(name, '/')[0] == ""
    ensures name == ".." || StartsWith(name, "../") <==> Split(name, '/')[0] == ".."
  {
    hide Before, Split, StartsWith;
    FirstSegmentIsBefore(name);
    ParentPrefix(name);
    RootPrefix(name);
  }

  /** The path test accepts exactly the names whose every segment stays inside the destination. */
  lemma {:induction false} SafePathExactlyWhen(name: string)
    ensures SafeArchivePath(name) <==>
            '\\' !in name && forall i :: 0 <= i < |Split(name, '/')| ==> Inside(Split(name, '/')[i])
  {
    hide Split, Join, StartsWith, WalkAll;
    var segments := Split(name, '/');
    if name == "" {
      EmptyNameHasEmptySegment();
    } else {
      FirstSegment(name);
      SplitAvoids(name, '/');
      JoinInvertsSplit(name, '/');
      if SafeArchivePath(name) {
        CleanNameIsNormal(name);
        assert segments[0] != "..";
        forall i | 0 <= i < |segments| ensures Inside(segments[i]) {}
      } else if '\\' !in name && forall i :: 0 <= i < |segments| ==> Inside(segments[i]) {
        WalkAllInside(segments);
        assert Inside(segments[0]);
        SingleSegment(name);
      }
    }
  }

  lemma EmptyNameHasEmptySegment()
    ensures Split("", '/') == [""]
  {}

  lemma {:induction false} SingleSegment(name: string)
    ensures '/' !in name ==> Split(name, '/') == [name]
  {}

  lemma {:induction false} CleanNameIsNormal(name: string)
    requires Clean(name) == name && name != "."
    ensures Normal(Split(name, '/'))
  {
    var segments := Split(name, '/');
    var kept := WalkAll(segments);
    WalkAllNormal(segments);
    SplitAvoids(name, '/');
    if kept != [] { SplitInvertsJoin(kept, '/'); }
  }

  // ----- archives and manifests

  datatype Entry = Entry(name: string, regular: bool, size: nat, compressed: nat, content: string)

  datatype Record = Record(path: string, size: int, sha256: string)

  /**
   Hashing, decoding of a manifest with its format and version checks, and whether the operating
   system reads and writes the file of a name without an error of its own.
   */
  datatype Codec = Codec(hash: string -> string, decode: string -> Option<seq<Record>>, accessible: string -> bool)

  function Lower(c: char): char { if 'A' <= c <= 'F' then (c as int + 32) as char else c }

  /** Hexadecimal digests are compared without regard to case. */
  predicate SameDigest(a: string, b: string) { |a| == |b| && forall i :: 0 <= i < |a| ==> Lower(a[i]) == Lower(b[i]) }

  predicate EntryOk(e: Entry) {
    && SafeArchivePath(e.name) && e.regular && e.size <= MAX_FILE_BYTES
    && (e.compressed > 0 ==> e.size / e.compressed <= MAX_RATIO)
  }

  predicate RecordOk(r: Record) { SafePayloadPath(r.path) && 0 <= r.size <= MAX_FILE_BYTES && |r.sha256| == 64 }

  function EntryNames(entries: seq<Entry>): set<string> { set i | 0 <= i < |entries| :: entries[i].name }

  function RecordPaths(records: seq<Record>): set<string> { set i | 0 <= i < |records| :: records[i].path }

  ghost predicate DistinctEntries(entries: seq<Entry>) {
    forall i, j :: 0 <= i < j < |entries| ==> entries[i].name != entries[j].name
  }

  ghost predicate DistinctRecords(records: seq<Record>) {
    forall i, j :: 0 <= i < j < |records| ==> records[i].path != records[j].path
  }

  ghost predicate EntriesPass(entries: seq<Entry>) {
    (forall i :: 0 <= i < |entries| ==> EntryOk(entries[i])) && DistinctEntries(entries)
  }

  ghost predicate RecordsPass(records: seq<Record>) {
    && (forall i :: 0 <= i < |records| ==> RecordOk(records[i]))
    && DistinctRecords(records) && Total(records) <= MAX_BYTES
  }

  function Total(records: seq<Record>): int {
    if records == [] then 0 else Total(records[..|records| - 1]) + records[|records| - 1].size
  }

  /** The file can be accessed and its bytes are those the manifest promises. */
  predicate Matches(c: Codec, content: string, r: Record) {
    c.accessible(r.path) && |content| == r.size && SameDigest(c.hash(content), r.sha256)
  }

  /** First pass: all entries acceptable and differently named. */
  method IndexEntries(entries: seq<Entry>) returns (seen: Option<map<string, Entry>>)
    ensures seen.Some? <==> EntriesPass(entries)
    ensures seen.Some? ==> seen.value.Keys == EntryNames(entries)
    ensures seen.Some? ==> forall i :: 0 <= i < |entries| ==>
              entries[i].name in seen.value && seen.value[entries[i].name] == entries[i]
  {
    hide EntryOk, EntryNames, DistinctEntries;
    NoEntries(entries);
    var index: map<string, Entry> := map[];
    for i := 0 to |entries|
      invariant forall k :: 0 <= k < i ==> EntryOk(entries[k])
      invariant DistinctEntries(entries[..i]) && index.Keys == EntryNames(entries[..i])
      invariant forall k :: 0 <= k < i ==> entries[k].name in index && index[entries[k].name] == entries[k]
    {
      if !EntryOk(entries[i]) { return None; }
      if entries[i].name in index {
        RepeatedName(entries, i);
        return None;
      }
      NewName(entries, i);
      index := index[entries[i].name := entries[i]];
      EntryNamesExtend(entries, i);
    }
    assert entries[..|entries|] == entries;
    seen := Some(index);
  }

  lemma NoEntries(entries: seq<Entry>)
    ensures EntryNames(entries[..0]) == {} && DistinctEntries(entries[..0])
  {}

  lemma RepeatedName(entries: seq<Entry>, i: nat)
    requires i < |entries| && entries[i].name in EntryNames(entries[..i])
    ensures !DistinctEntries(entries)
  {
    var k :| 0 <= k < i && entries[..i][k].name == entries[i].name;
    assert entries[k].name == entries[i].name;
  }

  lemma NewName(entries: seq<Entry>, i: nat)
    requires i < |entries| && entries[i].name !in EntryNames(entries[..i]) && DistinctEntries(entries[..i])
    ensures DistinctEntries(entries[..i + 1])
    ensures forall k :: 0 <= k < i ==> entries[k].name != entries[i].name
  {
    forall k | 0 <= k < i ensures entries[k].name != entries[i].name {
      assert entries[..i][k].name in EntryNames(entries[..i]);
    }
  }

  lemma {:induction false} EntryNamesExtend(entries: seq<Entry>, i: nat)
    requires i < |entries|
    ensures EntryNames(entries[..i + 1]) == EntryNames(entries[..i]) + {entries[i].name}
  {
    forall n | n in EntryNames(entries[..i]) + {entries[i].name} ensures n in EntryNames(entries[..i + 1]) {
      if n == entries[i].name {
        assert entries[..i + 1][i].name == n;
      } else {
        ghost var k :| 0 <= k < i && entries[..i][k].name == n;
        assert entries[..i + 1][k].name == n;
      }
    }
    forall n | n in EntryNames(entries[..i + 1]) ensures n in EntryNames(entries[..i]) + {entries[i].name} {
      var k :| 0 <= k < i + 1 && entries[..i + 1][k].name == n;
      if k < i { assert entries[..i][k].name == n; }
    }
  }

  lemma {:induction false} RecordPathsExtend(records: seq<Record>, i: nat)
    requires i < |records|
    ensures RecordPaths(records[..i + 1]) == RecordPaths(records[..i]) + {records[i].path}
  {
    forall n | n in RecordPaths(records[..i]) + {records[i].path} ensures n in RecordPaths(records[..i + 1]) {
      if n == records[i].path {
        assert records[..i + 1][i].path == n;
      } else {
        var k :| 0 <= k < i && records[..i][k].path == n;
        assert records[..i + 1][k].path == n;
      }
    }
    forall n | n in RecordPaths(records[..i + 1]) ensures n in RecordPaths(records[..i]) + {records[i].path} {
      var k :| 0 <= k < i + 1 && records[..i + 1][k].path == n;
      if k < i { assert records[..i][k].path == n; }
    }
  }

  lemma {:induction false} PrefixTotals(records: seq<Record>, i: nat)
    requires i <= |records| && forall k :: 0 <= k < |records| ==> RecordOk(records[k])
    ensures Total(records[..i]) <= Total(records)
    decreases |records|
  {
    if i < |records| {
      var before := records[..|records| - 1];
      PrefixTotals(before, i);
      assert before[..i] == records[..i];
    } else {
      assert records[..i] == records;
    }
  }

  lemma RecordSize(r: Record)
    requires RecordOk(r)
    ensures r.size >= 0
  {}

  lemma RepeatedPath(records: seq<Record>, i: nat)
    requires i < |records| && records[i].path in RecordPaths(records[..i])
    ensures !DistinctRecords(records)
  {
    var k :| 0 <= k < i && records[..i][k].path == records[i].path;
    assert records[k].path == records[i].path;
  }

  lemma NewPath(records: seq<Record>, i: nat)
    requires i < |records| && records[i].path !in RecordPaths(records[..i]) && DistinctRecords(records[..i])
    ensures DistinctRecords(records[..i + 1])
    ensures forall k :: 0 <= k < i ==> records[k].path != records[i].path
  {
    forall k | 0 <= k < i ensures records[k].path != records[i].path {
      assert records[..i][k].path in RecordPaths(records[..i]);
    }
  }

  lemma TooLargeFails(records: seq<Record>, i: nat)
    requires i <= |records| && Total(records[..i]) > MAX_BYTES
    ensures !RecordsPass(records)
  {
    hide RecordOk, Total;
    if forall k :: 0 <= k < |records| ==> RecordOk(records[k]) { PrefixTotals(records, i); }
  }

  lemma NoRecords(records: seq<Record>)
    ensures Total(records[..0]) == 0 && RecordPaths(records[..0]) == {} && DistinctRecords(records[..0])
  {}

  lemma TotalExtend(records: seq<Record>, i: nat)
    requires i < |records|
    ensures Total(records[..i + 1]) == Total(records[..i]) + records[i].size
  {
    assert records[..i + 1][..i] == records[..i];
  }

  /** Second pass: all manifest records acceptable, differently named, and small enough together. */
  method IndexRecords(records: seq<Record>) returns (index: Option<map<string, Record>>)
    ensures index.Some? <==> RecordsPass(records)
    ensures index.Some? ==> index.value.Keys == RecordPaths(records)
    ensures index.Some? ==> forall i :: 0 <= i < |records| ==>
              records[i].path in index.value && index.value[records[i].path] == records[i]
    ensures index.Some? ==> forall p :: p in index.value ==> index.value[p].size >= 0
  {
    hide RecordOk, Total, RecordPaths, DistinctRecords;
    NoRecords(records);
    var byPath: map<string, Record> := map[];
    var declared := 0;
    for i := 0 to |records|
      invariant forall k :: 0 <= k < i ==> RecordOk(records[k])
      invariant DistinctRecords(records[..i]) && byPath.Keys == RecordPaths(records[..i])
      invariant forall k :: 0 <= k < i ==> records[k].path in byPath && byPath[records[k].path] == records[k]
      invariant declared == Total(records[..i]) && declared <= MAX_BYTES
      invariant forall p :: p in byPath ==> byPath[p].size >= 0
    {
      if !RecordOk(records[i]) { return None; }
      if records[i].path in byPath {
        RepeatedPath(records, i);
        return None;
      }
      NewPath(records, i);
      RecordSize(records[i]);
      byPath := byPath[records[i].path := records[i]];
      RecordPathsExtend(records, i);
      TotalExtend(records, i);
      declared := declared + records[i].size;
      if declared > MAX_BYTES {
        TooLargeFails(records, i + 1);
        return None;
      }
    }
    assert records[..|records|] == records;
    index := Some(byPath);
  }

  /** What makes one archived file agree with its record. */
  predicate FileAgrees(c: Codec, seen: map<string, Entry>, r: Record, path: string) {
    path in seen && seen[path].size == r.size && Matches(c, seen[path].content, r)
  }

  /** The directories above a path, as its prefixes that end before a slash. */
  function Parents(path: string): set<string> { set k | 0 <= k < |path| && path[k] == '/' :: path[..k] }

  /** A directory is above a path exactly if the path continues it with a slash. */
  lemma ParentIff(directory: string, path: string)
    ensures directory in Parents(path) <==> StartsWith(path, directory + "/")
  {
    var k := |directory|;
    if StartsWith(path, directory + "/") {
      assert path[..k + 1][k] == '/' && path[..k + 1][..k] == path[..k];
    }
    if directory in Parents(path) {
      assert path[..k] == directory && path[k] == '/';
      assert path[..k + 1] == directory + "/";
    }
  }

  /** No path lies below another one, so that all of them can be files of one tree. */
  ghost predicate Unnested(paths: set<string>) {
    forall p, q :: p in paths && q in paths ==> !StartsWith(q, p + "/")
  }

  /** The directories that the files copied so far have made. */
  ghost predicate MadeFor(directories: set<string>, files: set<string>) {
    forall d :: d in directories <==> exists p :: p in files && d in Parents(p)
  }

  lemma OneMoreFile(directories: set<string>, files: set<string>, name: string)
    requires MadeFor(directories, files) && Unnested(files)
    ensures MadeFor(directories + Parents(name), files + {name})
    ensures Parents(name) !! files && name !in directories + Parents(name) <==> Unnested(files + {name})
  {
    hide Parents, StartsWith;
    forall p, q ensures p in Parents(q) <==> StartsWith(q, p + "/") { ParentIff(p, q); }
    if Unnested(files + {name}) {
      assert name !in Parents(name);
    }
    if Parents(name) !! files && name !in directories + Parents(name) {
      forall p, q | p in files + {name} && q in files + {name} ensures !StartsWith(q, p + "/") {
        assert p in Parents(q) <==> StartsWith(q, p + "/");
        assert p == name && q in files && p in Parents(q) ==> p in directories;
      }
    }
  }

  lemma UnnestedSubset(some: set<string>, all: set<string>)
    requires some <= all && Unnested(all)
    ensures Unnested(some)
  {}

  /**
   Third pass: copies the recorded files out, in any order, checking size and digest. The directories
   above a file are made first, which fails if one of them is a file already; the file itself must
   not exist yet, as a file or as a directory.
   */
  method CopyFiles(
    c: Codec, seen: map<string, Entry>, records: map<string, Record>) returns (files: Option<map<string, string>>)
    requires forall p :: p in records ==> records[p].size >= 0
    ensures files.Some? <==> Unnested(records.Keys) && forall p :: p in records ==> FileAgrees(c, seen, records[p], p)
    ensures files.Some? ==> files.value.Keys == records.Keys
    ensures files.Some? ==> forall p :: p in records ==> p in seen && files.value[p] == seen[p].content
  {
    hide Parents, StartsWith, Unnested, MadeFor;
    var copied: map<string, string> := map[];
    var directories: set<string> := {};
    var todo := records.Keys;
    NothingCopied();
    assert copied.Keys == {};
    while todo != {}
      invariant todo <= records.Keys && copied.Keys == records.Keys - todo
      invariant MadeFor(directories, copied.Keys) && Unnested(copied.Keys)
      invariant forall p :: p in copied ==> FileAgrees(c, seen, records[p], p) && copied[p] == seen[p].content
    {
      var name :| name in todo;
      var record := records[name];
      if name !in seen || seen[name].size != record.size { return None; }
      OneMoreFile(directories, copied.Keys, name);
      if Unnested(records.Keys) { UnnestedSubset(copied.Keys + {name}, records.Keys); }
      if !(Parents(name) !! copied.Keys) { return None; }
      directories := directories + Parents(name);
      if name in directories || name in copied { return None; }
      var content := seen[name].content;
      var written := if |content| <= record.size then content else content[..record.size + 1];
      if !c.accessible(record.path) || |written| != record.size
          || !SameDigest(c.hash(written), record.sha256) { return None; }
      assert copied[name := written].Keys == copied.Keys + {name};
      copied := copied[name := written];
      todo := todo - {name};
    }
    assert copied.Keys == records.Keys;
    files := Some(copied);
  }

  lemma NothingCopied()
    ensures MadeFor({}, {}) && Unnested({})
  {}

  /** The entries are the recorded files plus the manifest, and each agrees with its record. */
  ghost predicate Fits(c: Codec, entries: seq<Entry>, records: seq<Record>) {
    && "hostpin.db" in RecordPaths(records) && "master.key" in RecordPaths(records)
    && EntryNames(entries) == RecordPaths(records) + {"manifest.json"} && Unnested(RecordPaths(records))
    && (forall i, j :: 0 <= i < |entries| && 0 <= j < |records| && entries[i].name == records[j].path ==>
          entries[i].size == records[j].size && Matches(c, entries[i].content, records[j]))
  }

  /** Entries and records are acceptable on their own and fit together. */
  ghost predicate Consistent(c: Codec, entries: seq<Entry>, records: seq<Record>) {
    && 0 < |entries| <= MAX_FILES + 1 && EntriesPass(entries)
    && ManifestIs(c, entries, records) && RecordsPass(records) && Fits(c, entries, records)
  }

  /** The archive's manifest entry is small enough and decodes to the records. */
  ghost predicate ManifestIs(c: Codec, entries: seq<Entry>, records: seq<Record>) {
    exists i :: 0 <= i < |entries| && entries[i].name == "manifest.json" && Decodes(c, entries[i], records)
  }

  /** A manifest entry that can be read, is small enough and decodes to the records. */
  predicate Decodes(c: Codec, manifest: Entry, records: seq<Record>) {
    && manifest.size <= MAX_MANIFEST_BYTES && c.accessible("manifest.json")
    && |manifest.content| <= MAX_MANIFEST_BYTES && c.decode(manifest.content) == Some(records)
  }

  lemma ManifestIsNoPayload(records: seq<Record>)
    requires forall i :: 0 <= i < |records| ==> RecordOk(records[i])
    ensures "manifest.json" !in RecordPaths(records)
  {
    hide SafeArchivePath;
    assert "manifest.json"[..7][0] == 'm' && "themes/"[0] == 't';
  }

  /** Equal counts and inclusion leave no undeclared entry. */
  lemma CountsForceEquality(names: set<string>, paths: set<string>)
    requires "manifest.json" in names && "manifest.json" !in paths && paths <= names
    ensures |paths| + 1 == |names| <==> names == paths + {"manifest.json"}
  {
    var all := paths + {"manifest.json"};
    assert |all| == |paths| + 1 && all <= names;
    if |paths| + 1 == |names| { SubsetOfSameSize(all, names); }
  }

  lemma {:induction false} SubsetOfSameSize(a: set<string>, b: set<string>)
    requires a <= b && |a| == |b|
    ensures a == b
  {
    assert b == a + (b - a);
    assert |b - a| == 0;
  }

  /** The lookup tables that the passes build, as far as the comparison needs them. */
  ghost predicate Indexed(
    entries: seq<Entry>, seen: map<string, Entry>, records: seq<Record>, byPath: map<string, Record>) {
    && seen.Keys == EntryNames(entries) && (forall i :: 0 <= i < |entries| ==> seen[entries[i].name] == entries[i])
    && byPath.Keys == RecordPaths(records) && (forall j :: 0 <= j < |records| ==> byPath[records[j].path] == records[j])
  }

  lemma AgreementByName(
    c: Codec, entries: seq<Entry>, seen: map<string, Entry>, records: seq<Record>, byPath: map<string, Record>)
    requires Indexed(entries, seen, records, byPath) && byPath.Keys <= seen.Keys
    ensures (forall p :: p in byPath ==> FileAgrees(c, seen, byPath[p], p)) <==>
            (forall i, j :: 0 <= i < |entries| && 0 <= j < |records| && entries[i].name == records[j].path ==>
               entries[i].size == records[j].size && Matches(c, entries[i].content, records[j]))
  {
    hide Matches;
    if forall i, j :: 0 <= i < |entries| && 0 <= j < |records| && entries[i].name == records[j].path ==>
         entries[i].size == records[j].size && Matches(c, entries[i].content, records[j])
    {
      forall p | p in byPath ensures FileAgrees(c, seen, byPath[p], p) {
        var j :| 0 <= j < |records| && records[j].path == p;
        var i :| 0 <= i < |entries| && entries[i].name == p;
      }
    }
    if forall p :: p in byPath ==> FileAgrees(c, seen, byPath[p], p) {
      forall i, j | 0 <= i < |entries| && 0 <= j < |records| && entries[i].name == records[j].path
        ensures entries[i].size == records[j].size && Matches(c, entries[i].content, records[j])
      {
        assert FileAgrees(c, seen, byPath[records[j].path], records[j].path);
      }
    }
  }

  /** Comparing counts and looking up each record decides whether entries and records fit. */
  lemma FitsIffCountsAndFilesAgree(
    c: Codec, entries: seq<Entry>, seen: map<string, Entry>, records: seq<Record>, byPath: map<string, Record>)
    requires Indexed(entries, seen, records, byPath) && RecordsPass(records) && "manifest.json" in seen
    ensures Fits(c, entries, records) <==>
            && "hostpin.db" in byPath && "master.key" in byPath && |byPath| + 1 == |seen| && Unnested(byPath.Keys)
            && forall p :: p in byPath ==> FileAgrees(c, seen, byPath[p], p)
  {
    hide RecordOk, Total, Matches, Unnested, DistinctRecords, EntryNames, RecordPaths;
    ManifestIsNoPayload(records);
    if byPath.Keys <= seen.Keys {
      AgreementByName(c, entries, seen, records, byPath);
      CountsForceEquality(seen.Keys, byPath.Keys);
    } else {
      var p :| p in byPath && p !in seen;
      assert !FileAgrees(c, seen, byPath[p], p);
    }
  }

  lemma ManifestUnique(c: Codec, entries: seq<Entry>, i: nat, records: seq<Record>)
    requires DistinctEntries(entries) && i < |entries| && entries[i].name == "manifest.json"
    ensures ManifestIs(c, entries, records) <==> Decodes(c, entries[i], records)
  {}

  datatype Extraction = Extraction(records: seq<Record>, files: map<string, string>)

  /**
   Extraction succeeds exactly on archives whose entries are the manifest's files, none below another,
   plus the manifest itself, each with the declared size and digest, within all limits; it then yields those files.
   */
  method ExtractAndValidate(c: Codec, entries: seq<Entry>) returns (r: Option<Extraction>)
    ensures r.Some? <==> exists records :: Consistent(c, entries, records)
    ensures r.Some? ==> Consistent(c, entries, r.value.records)
    ensures r.Some? ==> r.value.files.Keys == RecordPaths(r.value.records)
    ensures r.Some? ==> forall i :: 0 <= i < |entries| && entries[i].name in r.value.files ==>
              r.value.files[entries[i].name] == entries[i].content
  {
    hide EntriesPass, RecordsPass, Fits, ManifestIs, FileAgrees, Unnested;
    if |entries| == 0 || |entries| > MAX_FILES + 1 { return None; }
    var seen := IndexEntries(entries);
    if seen.None? { return None; }
    if "manifest.json" !in seen.value {
      NoManifest(c, entries);
      return None;
    }
    var manifest := seen.value["manifest.json"];
    ManifestDecides(c, entries, manifest);
    if manifest.size > MAX_MANIFEST_BYTES { return None; }
    if !c.accessible("manifest.json") || |manifest.content| > MAX_MANIFEST_BYTES { return None; }
    var decoded := c.decode(manifest.content);
    if decoded.None? { return None; }
    var records := decoded.value;
    var byPath := IndexRecords(records);
    if byPath.None? { return None; }
    FitsIffCountsAndFilesAgree(c, entries, seen.value, records, byPath.value);
    if "hostpin.db" !in byPath.value || "master.key" !in byPath.value
        || |byPath.value| + 1 != |seen.value| { return None; }
    var files := CopyFiles(c, seen.value, byPath.value);
    if files.None? { return None; }
    assert Consistent(c, entries, records);
    r := Some(Extraction(records, files.value));
  }

  lemma NoManifest(c: Codec, entries: seq<Entry>)
    requires "manifest.json" !in EntryNames(entries)
    ensures forall records :: !ManifestIs(c, entries, records)
  {}

  lemma ManifestDecides(c: Codec, entries: seq<Entry>, manifest: Entry)
    requires EntriesPass(entries) && manifest.name == "manifest.json" && manifest in entries
    ensures forall records :: ManifestIs(c, entries, records) <==> Decodes(c, manifest, records)
  {
    hide EntryOk;
    var i :| 0 <= i < |entries| && entries[i] == manifest;
    forall records
      ensures ManifestIs(c, entries, records) <==> Decodes(c, manifest, records)
    {
      ManifestUnique(c, entries, i, records);
    }
  }

  // ----- checking the staged files again

  const BOOKKEEPING: set<string> := {"restore.json", "hostpin.db-wal", "hostpin.db-shm"}

  /** The staged payload: the regular files below the pending directory that are not bookkeeping. */
  function Payload(tree: map<string, string>): set<string> { tree.Keys - BOOKKEEPING }

  /** The manifest's paths are safe and different. */
  ghost predicate ManifestUsable(records: seq<Record>) {
    (forall i :: 0 <= i < |records| ==> SafePayloadPath(records[i].path)) && DistinctRecords(records)
  }

  /** The staged payload is exactly what the manifest lists, with matching sizes and digests. */
  ghost predicate TreeMatches(c: Codec, tree: map<string, string>, records: seq<Record>) {
    && Payload(tree) == RecordPaths(records)
    && forall j :: 0 <= j < |records| ==> records[j].path in tree && Matches(c, tree[records[j].path], records[j])
  }

  method IndexExpected(records: seq<Record>) returns (expected: Option<map<string, Record>>)
    ensures expected.Some? <==> ManifestUsable(records)
    ensures expected.Some? ==> expected.value.Keys == RecordPaths(records)
    ensures expected.Some? ==> forall i :: 0 <= i < |records| ==>
              records[i].path in expected.value && expected.value[records[i].path] == records[i]
  {
    hide SafePayloadPath, RecordPaths, DistinctRecords;
    NoRecords(records);
    var byPath: map<string, Record> := map[];
    for i := 0 to |records|
      invariant forall k :: 0 <= k < i ==> SafePayloadPath(records[k].path)
      invariant DistinctRecords(records[..i]) && byPath.Keys == RecordPaths(records[..i])
      invariant forall k :: 0 <= k < i ==> records[k].path in byPath && byPath[records[k].path] == records[k]
    {
      if !SafePayloadPath(records[i].path) { return None; }
      if records[i].path in byPath {
        RepeatedPath(records, i);
        return None;
      }
      NewPath(records, i);
      byPath := byPath[records[i].path := records[i]];
      RecordPathsExtend(records, i);
    }
    assert records[..|records|] == records;
    expected := Some(byPath);
  }

  predicate FileExpected(c: Codec, tree: map<string, string>, expected: map<string, Record>, name: string)
    requires name in tree
  {
    name in expected && Matches(c, tree[name], expected[name])
  }

  /** The walk over the staged files: none undeclared or changed, and as many as declared. */
  method WalkTree(c: Codec, tree: map<string, string>, expected: map<string, Record>) returns (ok: bool)
    ensures ok <==>
            (forall p :: p in Payload(tree) ==> FileExpected(c, tree, expected, p)) && |Payload(tree)| == |expected|
  {
    hide Matches;
    var actual: set<string> := {};
    var todo := tree.Keys;
    while todo != {}
      invariant todo <= tree.Keys && actual == Payload(tree) - todo
      invariant forall p :: p in actual ==> FileExpected(c, tree, expected, p)
    {
      var name :| name in todo;
      if name !in BOOKKEEPING {
        if !FileExpected(c, tree, expected, name) {
          assert name in Payload(tree);
          return false;
        }
        actual := actual + {name};
      }
      todo := todo - {name};
    }
    assert actual == Payload(tree);
    ok := |actual| == |expected|;
  }

  /** Declared files that are all there, counted, are the whole tree. */
  lemma TreeMatchesIff(c: Codec, tree: map<string, string>, records: seq<Record>, expected: map<string, Record>)
    requires expected.Keys == RecordPaths(records)
    requires forall j :: 0 <= j < |records| ==> records[j].path in expected && expected[records[j].path] == records[j]
    ensures TreeMatches(c, tree, records) <==>
            (forall p :: p in Payload(tree) ==> FileExpected(c, tree, expected, p)) && |Payload(tree)| == |expected|
  {
    hide Matches;
    assert |expected| == |expected.Keys|;
    if (forall p :: p in Payload(tree) ==> FileExpected(c, tree, expected, p)) && |Payload(tree)| == |expected| {
      assert Payload(tree) <= expected.Keys;
      SubsetOfSameSize(Payload(tree), expected.Keys);
      forall j | 0 <= j < |records| ensures records[j].path in tree && Matches(c, tree[records[j].path], records[j]) {
        assert FileExpected(c, tree, expected, records[j].path);
      }
    }
    if TreeMatches(c, tree, records) {
      forall p | p in Payload(tree) ensures FileExpected(c, tree, expected, p) {
        var j :| 0 <= j < |records| && records[j].path == p;
      }
    }
  }

  /** The staged tree is accepted exactly when it holds the manifest's files and nothing else. */
  method VerifyPendingChecksums(c: Codec, tree: map<string, string>, records: seq<Record>) returns (ok: bool)
    ensures ok <==> ManifestUsable(records) && TreeMatches(c, tree, records)
  {
    hide ManifestUsable, TreeMatches, FileExpected;
    var expected := IndexExpected(records);
    if expected.None? { return false; }
    TreeMatchesIff(c, tree, records, expected.value);
    ok := WalkTree(c, tree, expected.value);
  }

  // ----- what the checks mean

  /** The same hexadecimal digit, perhaps in the other case. */
  predicate SameDigit(a: char, b: char) {
    a == b || ('a' <= a <= 'f' && b as int == a as int - 32) || ('a' <= b <= 'f' && a as int == b as int - 32)
  }

  /** Case is all that a comparison of digests ignores. */
  lemma DigestComparisonMeans(a: string, b: string)
    ensures SameDigest(a, b) <==> |a| == |b| && forall i :: 0 <= i < |a| ==> SameDigit(a[i], b[i])
  {
    if |a| == |b| {
      forall i | 0 <= i < |a| ensures Lower(a[i]) == Lower(b[i]) <==> SameDigit(a[i], b[i]) {
        LowerMeans(a[i], b[i]);
      }
      if forall i :: 0 <= i < |a| ==> SameDigit(a[i], b[i]) {
        assert forall i :: 0 <= i < |a| ==> Lower(a[i]) == Lower(b[i]);
      }
    }
  }

  lemma LowerMeans(a: char, b: char)
    ensures Lower(a) == Lower(b) <==> SameDigit(a, b)
  {}

  /** Digests without upper-case letters are the same only if they are equal. */
  lemma LowerCaseDigestsCompareEqual(a: string, b: string)
    requires forall i :: 0 <= i < |a| ==> !('A' <= a[i] <= 'F')
    requires forall i :: 0 <= i < |b| ==> !('A' <= b[i] <= 'F')
    ensures SameDigest(a, b) <==> a == b
  {
    if SameDigest(a, b) {
      assert forall i :: 0 <= i < |a| ==> Lower(a[i]) == a[i] && Lower(b[i]) == b[i];
    }
  }

  /** A file whose digest differs from the recorded one in more than case does not pass. */
  lemma ChangedFileDoesNotMatch(c: Codec, content: string, r: Record, i: nat)
    requires |c.hash(content)| == |r.sha256| && i < |r.sha256| && !SameDigit(c.hash(content)[i], r.sha256[i])
    ensures !Matches(c, content, r)
  {
    DigestComparisonMeans(c.hash(content), r.sha256);
  }

  /** The bytes are as many as recorded and hash to the recorded digest, up to the case of its letters. */
  ghost predicate HashesAsRecorded(c: Codec, content: string, r: Record) {
    |content| == r.size && |c.hash(content)| == |r.sha256|
    && forall i :: 0 <= i < |r.sha256| ==> SameDigit(c.hash(content)[i], r.sha256[i])
  }

  /** Every recorded file of an archive that extracts is there, below the limits, and hashes as recorded. */
  lemma ExtractedFilesHashAsRecorded(c: Codec, entries: seq<Entry>, records: seq<Record>, j: nat)
    requires Consistent(c, entries, records) && j < |records|
    ensures exists i :: 0 <= i < |entries| && entries[i].name == records[j].path && entries[i].size == records[j].size
              && HashesAsRecorded(c, entries[i].content, records[j])
    ensures 0 <= records[j].size <= 0x1_8000_0000 && |records[j].sha256| == 64
  {
    hide EntriesPass, ManifestIs, Unnested, SafePayloadPath;
    var r := records[j];
    assert RecordOk(r);
    assert r.path in EntryNames(entries);
    var i :| 0 <= i < |entries| && entries[i].name == r.path;
    DigestComparisonMeans(c.hash(entries[i].content), r.sha256);
    assert HashesAsRecorded(c, entries[i].content, r);
  }

  /** Every staged file of a payload name that passes the later check hashes as recorded, too. */
  lemma StagedFilesHashAsRecorded(c: Codec, tree: map<string, string>, records: seq<Record>, p: string)
    requires ManifestUsable(records) && TreeMatches(c, tree, records) && p in tree && p !in BOOKKEEPING
    ensures exists j :: 0 <= j < |records| && records[j].path == p && HashesAsRecorded(c, tree[p], records[j])
  {
    hide SafePayloadPath, DistinctRecords;
    assert p in Payload(tree);
    var j :| 0 <= j < |records| && records[j].path == p;
    DigestComparisonMeans(c.hash(tree[p]), records[j].sha256);
    assert HashesAsRecorded(c, tree[p], records[j]);
  }

  /** Nothing that a manifest may list is exempt from the check of the staged files. */
  lemma BookkeepingIsNoPayload(name: string)
    requires name in BOOKKEEPING
    ensures !SafePayloadPath(name)
  {
    hide SafeArchivePath;
    assert name[0] != 't';
  }

  /** A payload path is the database, the key, or a file somewhere below the themes directory. */
  lemma {:induction false} PayloadPathExactlyWhen(name: string)
    ensures SafePayloadPath(name) <==>
            SafeArchivePath(name)
            && (name in {"hostpin.db", "master.key"} || (Split(name, '/')[0] == "themes" && |Split(name, '/')| > 1))
  {
    hide SafeArchivePath, Split, Before, StartsWith;
    ThemesPrefix(name);
  }

  lemma {:induction false} ThemesPrefix(name: string)
    ensures StartsWith(name, "themes/") <==> Split(name, '/')[0] == "themes" && |Split(name, '/')| > 1
  {
    hide Before;
    if '/' in name {
      BeforeIsPrefix(name, '/');
      assert Split(name, '/')[0] == Before(name, '/') && |Split(name, '/')| > 1;
      if Before(name, '/') == "themes" {
        assert name[..7] == "themes/";
      }
      if StartsWith(name, "themes/") {
        assert name == "themes" + ['/'] + name[7..];
        BeforeSeparator("themes", '/', name[7..]);
      }
    } else {
      assert |name| >= 7 ==> name[..7][6] == name[6] && name[6] in name;
    }
  }

  /** What extraction demands of an archive, in full and in numbers. */
  lemma {:induction false} ArchiveAcceptedExactlyWhen(c: Codec, entries: seq<Entry>, records: seq<Record>)
    ensures Consistent(c, entries, records) <==>
            && 1 <= |entries| <= 50_001 && (forall i :: 0 <= i < |entries| ==> EntryOk(entries[i]))
            && (forall i, j :: 0 <= i < j < |entries| ==> entries[i].name != entries[j].name)
            && (exists i :: 0 <= i < |entries| && ManifestWithin(c, entries[i], 0x10_0000, records))
            && (forall j :: 0 <= j < |records| ==> RecordOk(records[j])) && Total(records) <= 0x2_0000_0000
            && (forall i, j :: 0 <= i < j < |records| ==> records[i].path != records[j].path)
            && {"hostpin.db", "master.key"} <= RecordPaths(records) && Unnested(RecordPaths(records))
            && EntryNames(entries) == RecordPaths(records) + {"manifest.json"}
            && (forall i, j :: 0 <= i < |entries| && 0 <= j < |records| && entries[i].name == records[j].path ==>
                  entries[i].size == records[j].size && Matches(c, entries[i].content, records[j]))
  {
    hide EntryOk, RecordOk, Total, Matches, EntryNames, RecordPaths, Unnested;
    forall i | 0 <= i < |entries|
      ensures ManifestWithin(c, entries[i], 0x10_0000, records)
         <==> entries[i].name == "manifest.json" && Decodes(c, entries[i], records)
    {}
  }

  /** An entry that is the manifest, of no more than so many bytes, and decodes to the records. */
  predicate ManifestWithin(c: Codec, e: Entry, bytes: nat, records: seq<Record>) {
    && e.name == "manifest.json" && e.size <= bytes && |e.content| <= bytes
    && c.accessible(e.name) && c.decode(e.content) == Some(records)
  }

  /**
   An archive entry passes exactly if its path is safe, it is a regular file, and it unpacks to less
   than 1001 times its size, up to 6 GiB.
   */
  lemma EntryPassesExactlyWhen(e: Entry)
    ensures EntryOk(e) <==>
            SafeArchivePath(e.name) && e.regular && e.size <= 6 * 0x4000_0000
                && (e.compressed == 0 || e.size < 1001 * e.compressed)
  {
    hide SafeArchivePath;
    if e.compressed > 0 {
      var q := e.size / e.compressed;
      assert q * e.compressed <= e.size < q * e.compressed + e.compressed;
      if q <= 1000 { assert q * e.compressed <= 1000 * e.compressed; }
      if q >= 1001 { assert q * e.compressed >= 1001 * e.compressed; }
    }
  }

  /** A record passes exactly if it names a payload file of up to 6 GiB with 64 digits of digest. */
  lemma RecordPassesExactlyWhen(r: Record)
    ensures RecordOk(r) <==> SafePayloadPath(r.path) && 0 <= r.size <= 6 * 0x4000_0000 && |r.sha256| == 64
  {}

  /** The declared total adds up over any cut of the records, and 8 GiB is the most it may come to. */
  lemma {:induction false} TotalAddsUp(a: seq<Record>, b: seq<Record>)
    ensures Total(a + b) == Total(a) + Total(b)
    ensures RecordsPass(a) ==> Total(a) <= 8 * 0x4000_0000
    decreases |b|
  {
    hide RecordOk, DistinctRecords;
    if b == [] {
      assert a + b == a;
    } else {
      var n := |b| - 1;
      TotalAddsUp(a, b[..n]);
      assert (a + b)[..|a| + n] == a + b[..n];
    }
  }
}
