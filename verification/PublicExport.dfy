/** The public export: selection of a commit's paths, writing them out, and verifying a directory against the commit. */
module PublicExport {
  import opened Common
  import opened PathGlob
  import Utf

  type Bytes = string

  /** One record of a commit's recursive listing. */
  datatype Entry = Entry(path: string, mode: string, kind: string, blob: string)

  datatype Repo = Repo(commits: map<string, seq<Entry>>, objects: map<string, Bytes>)

  datatype Generated = Generated(sha: string, required: bool)

  datatype Manifest = Manifest(sha: string, includes: seq<seq<Piece>>, excludes: seq<seq<Piece>>,
                               forbidden: seq<string>,
                               baseline: Option<string>, newPaths: set<string>, removedPaths: set<string>,
                               generated: map<string, Generated>)

  datatype Row = Row(path: string, mode: string, blob: string)

  datatype FileRow = FileRow(row: Row, sha: string, size: nat)

  datatype Receipt = Receipt(commit: string, baseline: Option<string>, manifestSha: string, toolSha: string,
                             treeSha: string, files: seq<FileRow>, generated: map<string, Generated>)

  datatype DiskFile = DiskFile(regular: bool, executable: bool, content: Bytes)

  datatype Disk = Disk(files: map<string, DiskFile>, linkedDirectory: bool)

  /** The digests, and the digest of this tool itself. */
  datatype Tools = Tools(sha: Bytes -> string, blobId: Bytes -> string, treeDigest: seq<FileRow> -> string,
                         receiptSha: Receipt -> string, toolSha: string)

  /** What the caller of a verification trusts: a commit, the pinned digest of a receipt, or nothing. */
  datatype Trust = FromCommit(commit: string) | FromDigest(sha: string) | Untrusted

  datatype Error =
    | UnknownCommit | UnsafePath(path: string) | ForbiddenPath(path: string) | NotRegular(path: string) | EmptySelection
    | UnnamedNewPath | StaleNewPath | UnapprovedRemoval | StaleRemoval | Collision(path: string) | OutputNotEmpty

  const RECEIPT_NAME := "PUBLIC-EXPORT-RECEIPT.json"

  // ---- the manifest's rules ----

  predicate AnyMatches(patterns: seq<seq<Piece>>, path: string) {
    exists k :: 0 <= k < |patterns| && Matches(patterns[k], path)
  }

  predicate Selects(m: Manifest, path: string) {
    AnyMatches(m.includes, path) && !AnyMatches(m.excludes, path)
  }

  function StripSlashes(prefix: string): string {
    if prefix != "" && prefix[|prefix| - 1] == '/' then StripSlashes(prefix[..|prefix| - 1]) else prefix
  }

  predicate Under(prefix: string, path: string) {
    path == StripSlashes(prefix)
      || (if prefix != "" && prefix[|prefix| - 1] == '/' then prefix else prefix + "/") <= path
  }

  predicate Forbidden(m: Manifest, path: string) {
    exists k :: 0 <= k < |m.forbidden| && Under(m.forbidden[k], path)
  }

  predicate SafeRelative(path: string) {
    && Parts(path) != [] && (path == "" || path[0] != '/') && ".." !in Parts(path) && '\\' !in path && '\0' !in path
    && Parts(path)[0] != ".git" && path != RECEIPT_NAME
  }

  /** A path is safe if it is relative, not the receipt's, without a backslash or a zero character, has a component that
      is neither empty nor a dot, the first of which is not `.git`, and none that is `..`. */
  lemma SafeMeans(path: string, parts: seq<string>)
    requires Components(parts, path)
    ensures SafeRelative(path) <==>
      && !("/" <= path) && path != RECEIPT_NAME && '\\' !in path && '\0' !in path && ".." !in parts
      && exists n :: FirstName(parts, n) && parts[n] != ".git"
  {
    SplitMeans(parts, path);
    SignificantMeans(parts);
    if n :| FirstName(parts, n) {
      assert Parts(path)[..1] == [parts[n]];
      assert Parts(path)[0] == Parts(path)[..1][0];
      if i :| FirstName(parts, i) && parts[i] != ".git" { assert Parts(path)[..1] == [parts[i]]; }
    }
  }

  predicate RegularMode(mode: string) { mode == "100644" || mode == "100755" }

  /** What reading a manifest guarantees. */
  ghost predicate ManifestValid(m: Manifest) {
    && (m.baseline.None? ==> m.newPaths == {} && m.removedPaths == {})
    && forall p :: p in m.generated ==> SafeRelative(p) && !Forbidden(m, p)
  }

  // ---- rows in path order ----

  function Codes(s: string): (r: seq<nat>)
    ensures |r| == |s|
  {
    seq(|s|, k requires 0 <= k < |s| => s[k] as nat)
  }

  predicate Before(a: string, b: string) { Utf.Less(Codes(a), Codes(b)) }

  lemma BeforeTotal(a: string, b: string)
    ensures Before(a, b) || a == b || Before(b, a)
    ensures !(Before(a, b) && Before(b, a)) && !(a == b && Before(a, b))
  {
    Utf.LessTotal(Codes(a), Codes(b));
    if Codes(a) == Codes(b) {
      forall k | 0 <= k < |a|
        ensures a[k] == b[k]
      {
        assert Codes(a)[k] == Codes(b)[k];
      }
    }
  }

  /** Paths are ordered by the character at which they first differ. */
  lemma BeforeMeans(a: string, b: string)
    ensures Before(a, b) <==> exists k :: SortsFirst(a, b, k)
  {
    Utf.LessMeans(Codes(a), Codes(b));
    if k :| SortsFirst(a, b, k) {
      CodesAgree(a, b, k);
      assert Utf.DiffersUp(Codes(a), Codes(b), k);
    }
    if k :| Utf.DiffersUp(Codes(a), Codes(b), k) {
      CodesAgree(a, b, k);
      assert SortsFirst(a, b, k);
    }
  }

  /** The first k characters agree, and the next is greater in b or is there only in b. */
  ghost predicate SortsFirst(a: string, b: string, k: int) {
    0 <= k <= |a| && k < |b| && a[..k] == b[..k] && (k == |a| || a[k] < b[k])
  }

  lemma CodesAgree(a: string, b: string, k: nat)
    requires k <= |a| && k <= |b|
    ensures Codes(a)[..k] == Codes(b)[..k] <==> a[..k] == b[..k]
  {
    if Codes(a)[..k] == Codes(b)[..k] {
      forall i | 0 <= i < k
        ensures a[i] == b[i]
      {
        assert Codes(a)[..k][i] == Codes(b)[..k][i];
      }
    }
  }

  lemma BeforeTransitive(a: string, b: string, c: string)
    requires Before(a, b) && Before(b, c)
    ensures Before(a, c)
  {
    Utf.LessTransitive(Codes(a), Codes(b), Codes(c));
  }

  function Insert(r: Row, sorted: seq<Row>): seq<Row> {
    if sorted == [] || !Before(sorted[0].path, r.path) then [r] + sorted else [sorted[0]] + Insert(r, sorted[1..])
  }

  function Sort(rows: seq<Row>): seq<Row> {
    if rows == [] then [] else Insert(rows[0], Sort(rows[1..]))
  }

  ghost predicate Ascending(rows: seq<Row>) {
    forall i, j :: 0 <= i < j < |rows| ==> Before(rows[i].path, rows[j].path)
  }

  ghost predicate DistinctPaths(rows: seq<Row>) {
    forall i, j :: 0 <= i < j < |rows| ==> rows[i].path != rows[j].path
  }

  lemma {:induction false} InsertElements(r: Row, sorted: seq<Row>)
    ensures |Insert(r, sorted)| == |sorted| + 1 && forall x :: x in Insert(r, sorted) <==> x == r || x in sorted
  {
    if sorted != [] && Before(sorted[0].path, r.path) {
      InsertElements(r, sorted[1..]);
      assert forall x :: x in sorted <==> x == sorted[0] || x in sorted[1..];
    }
  }

  lemma {:induction false} InsertAscends(r: Row, sorted: seq<Row>)
    requires Ascending(sorted) && forall x :: x in sorted ==> x.path != r.path
    ensures Ascending(Insert(r, sorted))
  {
    if sorted != [] {
      BeforeTotal(sorted[0].path, r.path);
      assert sorted[0] in sorted;
      if Before(sorted[0].path, r.path) {
        InsertAscends(r, sorted[1..]);
        InsertElements(r, sorted[1..]);
        AscendingCons(sorted[0], Insert(r, sorted[1..]));
      } else {
        forall x | x in sorted
          ensures Before(r.path, x.path)
        {
          var k :| 0 <= k < |sorted| && sorted[k] == x;
          if k > 0 { BeforeTransitive(r.path, sorted[0].path, x.path); }
        }
        AscendingCons(r, sorted);
      }
    }
  }

  lemma AscendingCons(r: Row, rest: seq<Row>)
    requires Ascending(rest) && forall x :: x in rest ==> Before(r.path, x.path)
    ensures Ascending([r] + rest)
  {
    forall i, j | 0 <= i < j < |[r] + rest|
      ensures Before(([r] + rest)[i].path, ([r] + rest)[j].path)
    {
      if i == 0 { assert rest[j - 1] in rest; }
    }
  }

  /** Sorting distinct paths keeps the rows and puts them in ascending order. */
  lemma {:induction false} SortAscends(rows: seq<Row>)
    requires DistinctPaths(rows)
    ensures Ascending(Sort(rows)) && |Sort(rows)| == |rows| && forall x :: x in Sort(rows) <==> x in rows
  {
    if rows != [] {
      SortAscends(rows[1..]);
      InsertElements(rows[0], Sort(rows[1..]));
      forall x | x in Sort(rows[1..])
        ensures x.path != rows[0].path
      {
        var k :| 0 <= k < |rows[1..]| && rows[1..][k] == x;
        assert rows[k + 1] == x;
      }
      InsertAscends(rows[0], Sort(rows[1..]));
      assert forall x :: x in rows <==> x == rows[0] || x in rows[1..];
    }
  }

  // ---- the selection ----

  function RowOf(e: Entry): Row { Row(e.path, e.mode, e.blob) }

  function SelectedRows(m: Manifest, entries: seq<Entry>): seq<Row> {
    if entries == [] then []
    else (if Selects(m, entries[0].path) then [RowOf(entries[0])] else []) + SelectedRows(m, entries[1..])
  }

  function PathSet(entries: seq<Entry>): set<string> {
    set k | 0 <= k < |entries| :: entries[k].path
  }

  function SelectedPaths(m: Manifest, entries: seq<Entry>): set<string> {
    set k | 0 <= k < |entries| && Selects(m, entries[k].path) :: entries[k].path
  }

  /** Published paths that the manifest selects and this export neither carries nor generates. */
  function Dropped(m: Manifest, published: set<string>, selected: set<string>): set<string> {
    (set p | p in published && Selects(m, p)) - selected - m.generated.Keys
  }

  predicate Exportable(m: Manifest, e: Entry) {
    SafeRelative(e.path) && !Forbidden(m, e.path) && e.kind == "blob" && RegularMode(e.mode)
  }

  /** Exactly when a commit can be exported, with every new and every dropped path named. */
  ghost predicate Selectable(repo: Repo, commit: string, m: Manifest) {
    && commit in repo.commits
    && var entries := repo.commits[commit];
    && var selected := SelectedPaths(m, entries);
    && (forall k :: 0 <= k < |entries| && Selects(m, entries[k].path) ==> Exportable(m, entries[k]))
    && selected != {}
    && (m.baseline.Some? ==>
          && m.baseline.value in repo.commits
          && var published := PathSet(repo.commits[m.baseline.value]);
          && m.newPaths == selected - published
          && m.removedPaths == Dropped(m, published, selected))
    && m.generated.Keys !! selected
  }

  ghost predicate RepoValid(repo: Repo, tools: Tools) {
    && (forall c :: c in repo.commits ==>
          forall i, j :: 0 <= i < j < |repo.commits[c]| ==> repo.commits[c][i].path != repo.commits[c][j].path)
    && (forall c :: c in repo.commits ==>
          forall i :: 0 <= i < |repo.commits[c]| && repo.commits[c][i].kind == "blob" ==>
            repo.commits[c][i].blob in repo.objects)
    && forall b :: b in repo.objects ==> tools.blobId(repo.objects[b]) == b
  }

  lemma {:induction false} SelectedRowsElements(m: Manifest, entries: seq<Entry>)
    ensures forall r :: r in SelectedRows(m, entries) <==>
      exists k :: 0 <= k < |entries| && Selects(m, entries[k].path) && RowOf(entries[k]) == r
  {
    if entries != [] {
      SelectedRowsElements(m, entries[1..]);
      forall r
        ensures r in SelectedRows(m, entries) <==>
          exists k :: 0 <= k < |entries| && Selects(m, entries[k].path) && RowOf(entries[k]) == r
      {
        if k :| 0 <= k < |entries| && Selects(m, entries[k].path) && RowOf(entries[k]) == r {
          if k > 0 { assert entries[1..][k - 1] == entries[k]; }
        }
        if r in SelectedRows(m, entries[1..]) {
          var k :| 0 <= k < |entries[1..]| && Selects(m, entries[1..][k].path) && RowOf(entries[1..][k]) == r;
          assert entries[k + 1] == entries[1..][k];
        }
      }
    }
  }

  lemma {:induction false} SelectedRowsDistinct(m: Manifest, entries: seq<Entry>)
    requires forall i, j :: 0 <= i < j < |entries| ==> entries[i].path != entries[j].path
    ensures DistinctPaths(SelectedRows(m, entries))
  {
    if entries != [] {
      SelectedRowsDistinct(m, entries[1..]);
      SelectedRowsElements(m, entries[1..]);
      var rest := SelectedRows(m, entries[1..]);
      forall j | 0 <= j < |rest|
        ensures rest[j].path != entries[0].path
      {
        assert rest[j] in rest;
        var k :| 0 <= k < |entries[1..]| && Selects(m, entries[1..][k].path) && RowOf(entries[1..][k]) == rest[j];
        assert entries[k + 1] == entries[1..][k];
      }
    }
  }

  /** The rows of the selection, in path order. */
  function Selection(m: Manifest, entries: seq<Entry>): seq<Row> { Sort(SelectedRows(m, entries)) }

  /** The rows are those of the selected entries, one for each, in ascending order. */
  lemma SelectionRows(repo: Repo, tools: Tools, commit: string, m: Manifest)
    requires RepoValid(repo, tools) && commit in repo.commits
    ensures var rows := Selection(m, repo.commits[commit]);
      && Ascending(rows)
      && var entries := repo.commits[commit];
      && forall r :: r in rows <==>
        exists k :: 0 <= k < |entries| && Selects(m, entries[k].path) && RowOf(entries[k]) == r
  {
    SelectedRowsElements(m, repo.commits[commit]);
    SelectedRowsDistinct(m, repo.commits[commit]);
    SortAscends(SelectedRows(m, repo.commits[commit]));
  }

  method Select(repo: Repo, commit: string, m: Manifest) returns (r: Result<seq<Row>, Error>)
    ensures r.Ok? <==> Selectable(repo, commit, m)
    ensures r.Ok? ==> r.value == Selection(m, repo.commits[commit])
  {
    if commit !in repo.commits {
      return Err(UnknownCommit);
    }
    var entries := repo.commits[commit];
    var rows := SelectRows(m, entries);
    if rows.Err? {
      return rows;
    }
    RowsEmpty(m, entries);
    if rows.value == [] {
      return Err(EmptySelection);
    }
    var selected := SelectedPaths(m, entries);
    if m.baseline.Some? {
      if m.baseline.value !in repo.commits {
        return Err(UnknownCommit);
      }
      var failure := CheckBaseline(m, PathSet(repo.commits[m.baseline.value]), selected);
      if failure.Some? {
        return Err(failure.value);
      }
    }
    if !(m.generated.Keys !! selected) {
      var path :| path in m.generated && path in selected;
      return Err(Collision(path));
    }
    return Ok(Sort(rows.value));
  }

  lemma RowsEmpty(m: Manifest, entries: seq<Entry>)
    ensures SelectedRows(m, entries) == [] <==> SelectedPaths(m, entries) == {}
  {
    SelectedRowsElements(m, entries);
    var rows := SelectedRows(m, entries);
    if rows != [] {
      assert rows[0] in rows;
      assert rows[0].path in SelectedPaths(m, entries);
    }
    if SelectedPaths(m, entries) != {} {
      var p :| p in SelectedPaths(m, entries);
      var k :| 0 <= k < |entries| && Selects(m, entries[k].path) && entries[k].path == p;
      assert RowOf(entries[k]) in rows;
    }
  }

  /** The selected entries, each of which must be exportable. */
  lemma SelectedRowsNext(m: Manifest, entries: seq<Entry>, k: nat)
    requires k < |entries|
    ensures SelectedRows(m, entries[k..])
      == if Selects(m, entries[k].path) then [RowOf(entries[k])] + SelectedRows(m, entries[k + 1..])
         else SelectedRows(m, entries[k + 1..])
  {
    assert entries[k..][1..] == entries[k + 1..];
  }

  method SelectRows(m: Manifest, entries: seq<Entry>) returns (r: Result<seq<Row>, Error>)
    ensures r.Ok? <==> forall k :: 0 <= k < |entries| && Selects(m, entries[k].path) ==> Exportable(m, entries[k])
    ensures r.Ok? ==> r.value == SelectedRows(m, entries)
  {
    var rows: seq<Row> := [];
    assert entries[0..] == entries;
    for k := 0 to |entries|
      invariant forall i :: 0 <= i < k && Selects(m, entries[i].path) ==> Exportable(m, entries[i])
      invariant rows + SelectedRows(m, entries[k..]) == SelectedRows(m, entries)
    {
      var e := entries[k];
      SelectedRowsNext(m, entries, k);
      if Selects(m, e.path) {
        if !SafeRelative(e.path) {
          return Err(UnsafePath(e.path));
        }
        if Forbidden(m, e.path) {
          return Err(ForbiddenPath(e.path));
        }
        if e.kind != "blob" || !RegularMode(e.mode) {
          return Err(NotRegular(e.path));
        }
        ConcatAssociates(rows, [RowOf(e)], SelectedRows(m, entries[k + 1..]));
        rows := rows + [RowOf(e)];
      }
    }
    assert entries[|entries|..] == [] && rows + [] == rows;
    return Ok(rows);
  }

  /** Both lists name exactly what they must: nothing unnamed, nothing stale. */
  method CheckBaseline(m: Manifest, published: set<string>, selected: set<string>) returns (failure: Option<Error>)
    ensures failure.None? <==> m.newPaths == selected - published && m.removedPaths == Dropped(m, published, selected)
  {
    if selected - published - m.newPaths != {} {
      return Some(UnnamedNewPath);
    }
    if m.newPaths - (selected - published) != {} {
      return Some(StaleNewPath);
    }
    assert m.newPaths == selected - published;
    var dropped := Dropped(m, published, selected);
    if dropped - m.removedPaths != {} {
      return Some(UnapprovedRemoval);
    }
    if m.removedPaths - dropped != {} {
      return Some(StaleRemoval);
    }
    assert m.removedPaths == dropped;
    return None;
  }

  // ---- writing the export ----

  ghost predicate Stored(repo: Repo, rows: seq<Row>) {
    forall k :: 0 <= k < |rows| ==> rows[k].blob in repo.objects
  }

  function FileRowOf(repo: Repo, tools: Tools, r: Row): FileRow
    requires r.blob in repo.objects
  {
    FileRow(r, tools.sha(repo.objects[r.blob]), |repo.objects[r.blob]|)
  }

  function FileRows(repo: Repo, tools: Tools, rows: seq<Row>): (f: seq<FileRow>)
    requires Stored(repo, rows)
    ensures |f| == |rows| && forall k :: 0 <= k < |rows| ==> f[k] == FileRowOf(repo, tools, rows[k])
  {
    seq(|rows|, k requires 0 <= k < |rows| => FileRowOf(repo, tools, rows[k]))
  }

  function Written(repo: Repo, r: Row): DiskFile
    requires r.blob in repo.objects
  {
    DiskFile(true, r.mode == "100755", repo.objects[r.blob])
  }

  function ReceiptFor(repo: Repo, tools: Tools, commit: string, m: Manifest, rows: seq<Row>): Receipt
    requires Stored(repo, rows)
  {
    var files := FileRows(repo, tools, rows);
    Receipt(commit, m.baseline, m.sha, tools.toolSha, tools.treeDigest(files), files, m.generated)
  }

  /** The directory holds each row's file, and nothing else. */
  ghost predicate Holds(repo: Repo, rows: seq<Row>, files: map<string, DiskFile>) {
    && Stored(repo, rows)
    && (forall k :: 0 <= k < |rows| ==> rows[k].path in files && files[rows[k].path] == Written(repo, rows[k]))
    && (forall p :: p in files ==> exists k :: 0 <= k < |rows| && rows[k].path == p)
  }

  lemma SelectionStored(repo: Repo, tools: Tools, commit: string, m: Manifest)
    requires RepoValid(repo, tools) && Selectable(repo, commit, m)
    ensures Stored(repo, Selection(m, repo.commits[commit]))
  {
    SelectionRows(repo, tools, commit, m);
    var rows := Selection(m, repo.commits[commit]);
    forall i | 0 <= i < |rows|
      ensures rows[i].blob in repo.objects
    {
      assert rows[i] in rows;
    }
  }

  method Export(repo: Repo, tools: Tools, commit: string, m: Manifest, out: Disk)
    returns (r: Result<(Receipt, Disk), Error>)
    requires RepoValid(repo, tools)
    ensures r.Ok? <==> Selectable(repo, commit, m) && out.files == map[]
    ensures r.Ok? ==>
      var rows := Selection(m, repo.commits[commit]);
      Holds(repo, rows, r.value.1.files) && r.value.0 == ReceiptFor(repo, tools, commit, m, rows)
      && r.value.1.linkedDirectory == out.linkedDirectory
  {
    var selected := Select(repo, commit, m);
    if selected.Err? {
      return Err(selected.error);
    }
    if out.files != map[] {
      return Err(OutputNotEmpty);
    }
    var rows := selected.value;
    SelectionStored(repo, tools, commit, m);
    SelectionRows(repo, tools, commit, m);
    var listed, files := WriteRows(repo, tools, rows);
    return Ok((Receipt(commit, m.baseline, m.sha, tools.toolSha, tools.treeDigest(listed), listed, m.generated),
               Disk(files, out.linkedDirectory)));
  }

  /** Write the rows one by one, noting digest and size of each. */
  method WriteRows(repo: Repo, tools: Tools, rows: seq<Row>)
    returns (listed: seq<FileRow>, files: map<string, DiskFile>)
    requires Stored(repo, rows) && Ascending(rows)
    ensures listed == FileRows(repo, tools, rows) && Holds(repo, rows, files)
  {
    listed, files := [], map[];
    for k := 0 to |rows|
      invariant Holds(repo, rows[..k], files)
      invariant |listed| == k && forall i :: 0 <= i < k ==> listed[i] == FileRowOf(repo, tools, rows[i])
    {
      var row := rows[k];
      HoldsMore(repo, rows, k, files);
      files := files[row.path := Written(repo, row)];
      listed := listed + [FileRowOf(repo, tools, row)];
    }
    assert rows[..|rows|] == rows;
  }

  lemma HoldsMore(repo: Repo, rows: seq<Row>, k: nat, files: map<string, DiskFile>)
    requires Stored(repo, rows) && Ascending(rows) && k < |rows| && Holds(repo, rows[..k], files)
    ensures Holds(repo, rows[..k + 1], files[rows[k].path := Written(repo, rows[k])])
  {
    var before, row := rows[..k], rows[k];
    forall i | 0 <= i < k
      ensures before[i].path != row.path
    {
      BeforeTotal(before[i].path, row.path);
    }
    HoldsOne(repo, before, row, files);
    assert rows[..k + 1] == before + [row];
  }

  lemma HoldsOne(repo: Repo, before: seq<Row>, row: Row, files: map<string, DiskFile>)
    requires Holds(repo, before, files) && row.blob in repo.objects
    requires forall i :: 0 <= i < |before| ==> before[i].path != row.path
    ensures Holds(repo, before + [row], files[row.path := Written(repo, row)])
  {
    var more := before + [row];
    forall p | p in files
      ensures exists i :: 0 <= i < |more| && more[i].path == p
    {
      var i :| 0 <= i < |before| && before[i].path == p;
      assert more[i].path == p;
    }
    assert more[|before|].path == row.path;
  }

  // ---- verifying a directory against what is trusted ----

  ghost predicate RowsMatch(claimed: seq<FileRow>, rows: seq<Row>) {
    |claimed| == |rows| && forall k :: 0 <= k < |rows| ==> claimed[k].row == rows[k]
  }

  /** The checks on the receipt's rows that do not look at the directory. */
  ghost predicate RowsAccepted(tools: Tools, m: Manifest, receipt: Receipt) {
    && receipt.files != []
    && (forall k :: 0 <= k < |receipt.files| ==>
          RowAllowed(m, receipt.files[k].row))
    && Ascending(Rows(receipt.files)) && receipt.treeSha == tools.treeDigest(receipt.files)
  }

  predicate RowAllowed(m: Manifest, r: Row) {
    SafeRelative(r.path) && Selects(m, r.path) && !Forbidden(m, r.path) && RegularMode(r.mode)
  }

  function Rows(files: seq<FileRow>): (r: seq<Row>)
    ensures |r| == |files| && forall k :: 0 <= k < |r| ==> r[k] == files[k].row
  {
    seq(|files|, k requires 0 <= k < |files| => files[k].row)
  }

  predicate ListedPath(files: seq<FileRow>, path: string) {
    exists k :: 0 <= k < |files| && files[k].row.path == path
  }

  /** Nothing in the directory that is forbidden or unlisted; the receipt itself aside. */
  ghost predicate NothingElse(m: Manifest, receipt: Receipt, disk: Disk) {
    forall p :: p in disk.files && p != RECEIPT_NAME ==>
      !Forbidden(m, p) && (ListedPath(receipt.files, p) || p in m.generated)
  }

  /** Only a commit vouches for the object ids, so only then they are compared. */
  predicate FileAccepted(tools: Tools, f: FileRow, disk: Disk, fromSource: bool) {
    && f.row.path in disk.files && f.row.path != RECEIPT_NAME
    && var file := disk.files[f.row.path];
    && file.regular && tools.sha(file.content) == f.sha && (fromSource ==> tools.blobId(file.content) == f.row.blob)
    && file.executable == (f.row.mode == "100755")
  }

  predicate GeneratedAccepted(tools: Tools, m: Manifest, path: string, disk: Disk, staging: bool)
    requires path in m.generated
  {
    var entry := m.generated[path];
    if path !in disk.files || path == RECEIPT_NAME then !entry.required || staging
    else disk.files[path].regular && tools.sha(disk.files[path].content) == entry.sha
  }

  /** The receipt is what the caller trusts. */
  ghost predicate Expected(repo: Repo, tools: Tools, trust: Trust, m: Manifest, receipt: Receipt) {
    match trust
    case FromCommit(commit) =>
      receipt.commit == commit && Selectable(repo, commit, m)
        && RowsMatch(receipt.files, Selection(m, repo.commits[commit]))
    case FromDigest(sha) => tools.receiptSha(receipt) == sha
    case Untrusted => false
  }

  /** Everything that is checked of a receipt and a directory. */
  ghost predicate Accepts(repo: Repo, tools: Tools, trust: Trust, m: Manifest, receipt: Receipt, disk: Disk,
                          staging: bool) {
    && receipt.manifestSha == m.sha && receipt.toolSha == tools.toolSha && receipt.baseline == m.baseline
    && Expected(repo, tools, trust, m, receipt)
    && RowsAccepted(tools, m, receipt) && receipt.generated == m.generated
    && !disk.linkedDirectory && NothingElse(m, receipt, disk)
    && (forall k :: 0 <= k < |receipt.files| ==> FileAccepted(tools, receipt.files[k], disk, trust.FromCommit?))
    && (forall p :: p in m.generated ==> GeneratedAccepted(tools, m, p, disk, staging))
  }

  method Verify(repo: Repo, tools: Tools, trust: Trust, m: Manifest, receipt: Receipt, disk: Disk, staging: bool)
    returns (ok: bool)
    ensures ok <==> Accepts(repo, tools, trust, m, receipt, disk, staging)
  {
    if receipt.manifestSha != m.sha || receipt.toolSha != tools.toolSha || receipt.baseline != m.baseline {
      return false;
    }
    ok := CheckExpected(repo, tools, trust, m, receipt);
    if !ok {
      return false;
    }
    ok := CheckRows(tools, m, receipt);
    if !ok || receipt.generated != m.generated || disk.linkedDirectory {
      return false;
    }
    ok := CheckDirectory(tools, m, receipt, disk, trust.FromCommit?, staging);
  }

  method CheckExpected(repo: Repo, tools: Tools, trust: Trust, m: Manifest, receipt: Receipt) returns (ok: bool)
    ensures ok <==> Expected(repo, tools, trust, m, receipt)
  {
    match trust {
      case FromCommit(commit) =>
        if receipt.commit != commit {
          return false;
        }
        var derived := Select(repo, commit, m);
        if derived.Err? {
          return false;
        }
        ok := SameRows(receipt.files, derived.value);
      case FromDigest(sha) =>
        return tools.receiptSha(receipt) == sha;
      case Untrusted =>
        return false;
    }
  }

  method SameRows(claimed: seq<FileRow>, rows: seq<Row>) returns (ok: bool)
    ensures ok <==> RowsMatch(claimed, rows)
  {
    if |claimed| != |rows| {
      return false;
    }
    for k := 0 to |rows|
      invariant forall i :: 0 <= i < k ==> claimed[i].row == rows[i]
    {
      if claimed[k].row != rows[k] {
        return false;
      }
    }
    return true;
  }

  method CheckRows(tools: Tools, m: Manifest, receipt: Receipt) returns (ok: bool)
    ensures ok <==> RowsAccepted(tools, m, receipt)
  {
    if receipt.files == [] || receipt.treeSha != tools.treeDigest(receipt.files) {
      return false;
    }
    ok := CheckEachRow(m, receipt.files);
    if ok {
      ok := CheckOrder(Rows(receipt.files));
    }
  }

  method CheckEachRow(m: Manifest, files: seq<FileRow>) returns (ok: bool)
    ensures ok <==> forall k :: 0 <= k < |files| ==> RowAllowed(m, files[k].row)
  {
    for k := 0 to |files|
      invariant forall i :: 0 <= i < k ==> RowAllowed(m, files[i].row)
    {
      if !RowAllowed(m, files[k].row) {
        return false;
      }
    }
    return true;
  }

  method CheckOrder(rows: seq<Row>) returns (ok: bool)
    ensures ok <==> Ascending(rows)
  {
    for k := 0 to |rows|
      invariant Ascending(rows[..k])
    {
      if k > 0 && !Before(rows[k - 1].path, rows[k].path) {
        return false;
      }
      AscendingSnoc(rows, k);
    }
    assert rows[..|rows|] == rows;
    return true;
  }

  lemma AscendingSnoc(rows: seq<Row>, k: nat)
    requires k < |rows| && Ascending(rows[..k]) && (k > 0 ==> Before(rows[k - 1].path, rows[k].path))
    ensures Ascending(rows[..k + 1])
  {
    forall i, j | 0 <= i < j < k + 1
      ensures Before(rows[i].path, rows[j].path)
    {
      if j < k {
        assert Before(rows[..k][i].path, rows[..k][j].path);
      } else if i < k - 1 {
        assert Before(rows[..k][i].path, rows[..k][k - 1].path);
        BeforeTransitive(rows[i].path, rows[k - 1].path, rows[k].path);
      }
    }
  }

  method CheckDirectory(tools: Tools, m: Manifest, receipt: Receipt, disk: Disk, fromSource: bool, staging: bool)
    returns (ok: bool)
    ensures ok <==>
      && NothingElse(m, receipt, disk)
      && (forall k :: 0 <= k < |receipt.files| ==> FileAccepted(tools, receipt.files[k], disk, fromSource))
      && (forall p :: p in m.generated ==> GeneratedAccepted(tools, m, p, disk, staging))
  {
    var paths := disk.files.Keys - {RECEIPT_NAME};
    while paths != {}
      invariant paths <= disk.files.Keys - {RECEIPT_NAME}
      invariant forall p :: p in disk.files && p != RECEIPT_NAME && p !in paths ==>
        !Forbidden(m, p) && (ListedPath(receipt.files, p) || p in m.generated)
    {
      var p :| p in paths;
      if Forbidden(m, p) || (!ListedPath(receipt.files, p) && p !in m.generated) {
        return false;
      }
      paths := paths - {p};
    }
    for k := 0 to |receipt.files|
      invariant forall i :: 0 <= i < k ==> FileAccepted(tools, receipt.files[i], disk, fromSource)
    {
      if !FileAccepted(tools, receipt.files[k], disk, fromSource) {
        return false;
      }
    }
    var names := m.generated.Keys;
    while names != {}
      invariant names <= m.generated.Keys
      invariant forall p :: p in m.generated && p !in names ==> GeneratedAccepted(tools, m, p, disk, staging)
    {
      var p :| p in names;
      if !GeneratedAccepted(tools, m, p, disk, staging) {
        return false;
      }
      names := names - {p};
    }
    return true;
  }

  // ---- export and verify match ----

  /** Every row of the selection comes from an exportable, selected entry. */
  lemma SelectionExportable(repo: Repo, tools: Tools, commit: string, m: Manifest)
    requires RepoValid(repo, tools) && Selectable(repo, commit, m)
    ensures forall r :: r in Selection(m, repo.commits[commit]) ==>
      && SafeRelative(r.path) && Selects(m, r.path) && !Forbidden(m, r.path) && RegularMode(r.mode)
      && r.path in SelectedPaths(m, repo.commits[commit])
    ensures Selection(m, repo.commits[commit]) != []
  {
    SelectionRows(repo, tools, commit, m);
    var p :| p in SelectedPaths(m, repo.commits[commit]);
    var r := SelectionCovers(repo, tools, commit, m, p);
  }

  lemma SelectionCovers(repo: Repo, tools: Tools, commit: string, m: Manifest, p: string) returns (r: Row)
    requires RepoValid(repo, tools) && commit in repo.commits && p in SelectedPaths(m, repo.commits[commit])
    ensures r in Selection(m, repo.commits[commit]) && r.path == p
  {
    var entries := repo.commits[commit];
    var k :| 0 <= k < |entries| && Selects(m, entries[k].path) && entries[k].path == p;
    r := RowOf(entries[k]);
    SelectionRows(repo, tools, commit, m);
  }

  /** Whatever is exported passes verification in staging mode against the same commit, with or without the receipt
      file beside it. */
  lemma ExportVerifies(repo: Repo, tools: Tools, commit: string, m: Manifest, disk: Disk)
    requires RepoValid(repo, tools) && ManifestValid(m) && Selectable(repo, commit, m) && !disk.linkedDirectory
    requires var rows := Selection(m, repo.commits[commit]); Holds(repo, rows, disk.files - {RECEIPT_NAME})
    ensures var rows := Selection(m, repo.commits[commit]);
      Stored(repo, rows) && Accepts(repo, tools, FromCommit(commit), m, ReceiptFor(repo, tools, commit, m, rows), disk,
                                    true)
  {
    var rows := Selection(m, repo.commits[commit]);
    SelectionExportable(repo, tools, commit, m);
    SelectionRows(repo, tools, commit, m);
    SelectionStored(repo, tools, commit, m);
    var receipt := ReceiptFor(repo, tools, commit, m, rows);
    ExportRows(repo, tools, m, rows, receipt);
    ExportDirectory(repo, tools, m, rows, receipt, disk, SelectedPaths(m, repo.commits[commit]));
  }

  lemma ExportRows(repo: Repo, tools: Tools, m: Manifest, rows: seq<Row>, receipt: Receipt)
    requires Stored(repo, rows) && Ascending(rows) && rows != []
    requires forall r :: r in rows ==>
      SafeRelative(r.path) && Selects(m, r.path) && !Forbidden(m, r.path) && RegularMode(r.mode)
    requires receipt.files == FileRows(repo, tools, rows) && receipt.treeSha == tools.treeDigest(receipt.files)
    ensures RowsMatch(receipt.files, rows) && RowsAccepted(tools, m, receipt)
  {
    assert Rows(receipt.files) == rows;
    forall k | 0 <= k < |receipt.files|
      ensures receipt.files[k].row in rows
    {
      assert receipt.files[k].row == rows[k];
    }
  }

  lemma ExportDirectory(repo: Repo, tools: Tools, m: Manifest, rows: seq<Row>, receipt: Receipt, disk: Disk,
                        selected: set<string>)
    requires RepoValid(repo, tools) && Holds(repo, rows, disk.files - {RECEIPT_NAME})
    requires receipt.files == FileRows(repo, tools, rows)
    requires forall r :: r in rows ==> SafeRelative(r.path) && !Forbidden(m, r.path) && r.path in selected
    requires m.generated.Keys !! selected
    ensures NothingElse(m, receipt, disk)
    ensures forall k :: 0 <= k < |receipt.files| ==> FileAccepted(tools, receipt.files[k], disk, true)
    ensures forall p :: p in m.generated ==> GeneratedAccepted(tools, m, p, disk, true)
  {
    var files := disk.files - {RECEIPT_NAME};
    forall p | p in files
      ensures !Forbidden(m, p) && ListedPath(receipt.files, p) && p !in m.generated
    {
      var k :| 0 <= k < |rows| && rows[k].path == p;
      assert rows[k] in rows && receipt.files[k].row == rows[k];
    }
    forall k | 0 <= k < |receipt.files|
      ensures FileAccepted(tools, receipt.files[k], disk, true)
    {
      assert rows[k] in rows && rows[k].path in files && files[rows[k].path] == Written(repo, rows[k]);
    }
    forall p | p in m.generated
      ensures p !in files
    {}
  }

  ghost predicate Injective(f: Bytes -> string) {
    forall a, b :: f(a) == f(b) ==> a == b
  }

  /** The directory is the selection with the commit's contents and modes, plus some of the named generated files with
      their digests, all the required ones among them unless staging. */
  ghost predicate Exact(repo: Repo, tools: Tools, commit: string, m: Manifest, disk: Disk, staging: bool)
    requires commit in repo.commits
  {
    var rows := Selection(m, repo.commits[commit]);
    var files := disk.files - {RECEIPT_NAME};
    && Stored(repo, rows)
    && (forall k :: 0 <= k < |rows| ==> rows[k].path in files && files[rows[k].path] == Written(repo, rows[k]))
    && (forall p :: p in files ==> (exists k :: 0 <= k < |rows| && rows[k].path == p) || p in m.generated)
    && (forall p :: p in m.generated ==>
          if p in files then files[p].regular && tools.sha(files[p].content) == m.generated[p].sha
          else !m.generated[p].required || staging)
  }

  /** Acceptance against a commit means that the directory is exactly the selection and named generated files. */
  lemma AcceptedExact(repo: Repo, tools: Tools, commit: string, m: Manifest, receipt: Receipt, disk: Disk,
                      staging: bool)
    requires RepoValid(repo, tools) && Injective(tools.blobId)
    requires Accepts(repo, tools, FromCommit(commit), m, receipt, disk, staging)
    ensures Exact(repo, tools, commit, m, disk, staging) && !disk.linkedDirectory
  {
    var rows, files := Selection(m, repo.commits[commit]), disk.files - {RECEIPT_NAME};
    SelectionStored(repo, tools, commit, m);
    forall k | 0 <= k < |rows|
      ensures rows[k].path in files && files[rows[k].path] == Written(repo, rows[k])
    {
      assert FileAccepted(tools, receipt.files[k], disk, true);
      AcceptedWritten(repo, tools, receipt.files[k], disk);
    }
    forall p | p in files && p !in m.generated
      ensures exists k :: 0 <= k < |rows| && rows[k].path == p
    {
      AcceptedListed(m, receipt, rows, disk, p);
    }
    forall p | p in m.generated
      ensures if p in files then files[p].regular && tools.sha(files[p].content) == m.generated[p].sha
              else !m.generated[p].required || staging
    {
      assert GeneratedAccepted(tools, m, p, disk, staging);
    }
  }

  // ---- acceptance on the manifest's own terms ----

  /** Some include pattern can be laid over the path, and no exclude pattern can. */
  ghost predicate Chosen(m: Manifest, path: string) {
    && (exists k, parts :: Laid(m.includes, k, parts, path))
    && !exists k, parts :: Laid(m.excludes, k, parts, path)
  }

  ghost predicate Laid(patterns: seq<seq<Piece>>, k: nat, parts: seq<string>, path: string) {
    k < |patterns| && CutInto(patterns[k], parts, path)
  }

  lemma LaidMeans(patterns: seq<seq<Piece>>, path: string)
    ensures AnyMatches(patterns, path) <==> exists k, parts :: Laid(patterns, k, parts, path)
  {
    if k: nat :| k < |patterns| && Matches(patterns[k], path) {
      MatchesCut(patterns[k], path);
      var parts :| CutInto(patterns[k], parts, path);
      assert Laid(patterns, k, parts, path);
    }
    if k: nat, parts :| Laid(patterns, k, parts, path) { MatchesCut(patterns[k], path); }
  }

  lemma ChosenMeans(m: Manifest, path: string)
    ensures Selects(m, path) <==> Chosen(m, path)
  {
    LaidMeans(m.includes, path);
    LaidMeans(m.excludes, path);
  }

  ghost predicate Lists(entries: seq<Entry>, path: string) {
    exists k :: 0 <= k < |entries| && entries[k].path == path
  }

  /** An export publishes and drops exactly what is named: the new paths are the chosen ones that the baseline lacks,
      and the removed ones those that the choice still covers but neither the commit nor a release step provides. */
  lemma NamedExactly(repo: Repo, commit: string, m: Manifest, path: string)
    requires Selectable(repo, commit, m) && m.baseline.Some?
    ensures m.baseline.value in repo.commits
    ensures var now, before := repo.commits[commit], repo.commits[m.baseline.value];
      && (path in m.newPaths <==> Lists(now, path) && Chosen(m, path) && !Lists(before, path))
      && (path in m.removedPaths <==>
            Lists(before, path) && Chosen(m, path) && !Lists(now, path) && path !in m.generated)
  {
    ChosenMeans(m, path);
    var now, before := repo.commits[commit], repo.commits[m.baseline.value];
    assert path in PathSet(before) <==> Lists(before, path);
    assert path in SelectedPaths(m, now) <==> Lists(now, path) && Selects(m, path);
  }

  /** A forbidden directory, written with or without its slash, covers itself and everything below it. */
  lemma ForbiddenDirectory(m: Manifest, k: nat, name: string, path: string)
    requires k < |m.forbidden| && m.forbidden[k] in {name, name + "/"} && (name == "" || name[|name| - 1] != '/')
    requires !Forbidden(m, path)
    ensures path != name && !(name + "/" <= path)
  {
    assert (name + "/")[..|name|] == name;
    assert !Under(m.forbidden[k], path);
    if m.forbidden[k] == name + "/" { assert StripSlashes(name + "/") == StripSlashes(name) == name; }
  }

  /** What an accepted directory holds beside generated files: the chosen paths of the commit with their contents and
      modes, all of them and no others, and nothing that is forbidden. */
  lemma AcceptedContents(repo: Repo, tools: Tools, commit: string, m: Manifest, receipt: Receipt, disk: Disk,
                         staging: bool, path: string)
    requires RepoValid(repo, tools) && Injective(tools.blobId) && path != RECEIPT_NAME
    requires Accepts(repo, tools, FromCommit(commit), m, receipt, disk, staging)
    ensures path in disk.files && path !in m.generated ==>
      exists k :: 0 <= k < |repo.commits[commit]| && Holding(repo, m, repo.commits[commit][k], disk, path)
    ensures forall k :: 0 <= k < |repo.commits[commit]| && repo.commits[commit][k].path == path && Chosen(m, path) ==>
      Holding(repo, m, repo.commits[commit][k], disk, path)
    ensures path in disk.files ==> !Forbidden(m, path)
  {
    AcceptedExact(repo, tools, commit, m, receipt, disk, staging);
    if path in disk.files && path !in m.generated {
      var k := FoundHolding(repo, tools, commit, m, disk, staging, path);
    }
    forall k | 0 <= k < |repo.commits[commit]| && repo.commits[commit][k].path == path && Chosen(m, path)
      ensures Holding(repo, m, repo.commits[commit][k], disk, path)
    {
      ChosenHolding(repo, tools, commit, m, disk, staging, k);
    }
  }

  lemma FoundHolding(repo: Repo, tools: Tools, commit: string, m: Manifest, disk: Disk, staging: bool, path: string)
    returns (k: nat)
    requires RepoValid(repo, tools) && commit in repo.commits && Exact(repo, tools, commit, m, disk, staging)
    requires path in disk.files && path != RECEIPT_NAME && path !in m.generated
    ensures k < |repo.commits[commit]| && Holding(repo, m, repo.commits[commit][k], disk, path)
  {
    var entries := repo.commits[commit];
    var rows := Selection(m, entries);
    SelectionRows(repo, tools, commit, m);
    assert path in disk.files - {RECEIPT_NAME};
    var i :| 0 <= i < |rows| && rows[i].path == path;
    assert rows[i] in rows;
    k :| 0 <= k < |entries| && Selects(m, entries[k].path) && RowOf(entries[k]) == rows[i];
    ChosenMeans(m, path);
  }

  lemma ChosenHolding(repo: Repo, tools: Tools, commit: string, m: Manifest, disk: Disk, staging: bool, k: nat)
    requires RepoValid(repo, tools) && commit in repo.commits && Exact(repo, tools, commit, m, disk, staging)
    requires k < |repo.commits[commit]| && Chosen(m, repo.commits[commit][k].path)
    ensures Holding(repo, m, repo.commits[commit][k], disk, repo.commits[commit][k].path)
  {
    var e := repo.commits[commit][k];
    var rows := Selection(m, repo.commits[commit]);
    SelectionRows(repo, tools, commit, m);
    ChosenMeans(m, e.path);
    assert RowOf(e) in rows;
    var i :| 0 <= i < |rows| && rows[i] == RowOf(e);
    assert rows[i].path in disk.files - {RECEIPT_NAME};
  }

  /** The directory has the entry's file at the path, with its content and mode. */
  ghost predicate Holding(repo: Repo, m: Manifest, e: Entry, disk: Disk, path: string) {
    && e.path == path && Chosen(m, path) && path in disk.files && e.blob in repo.objects
    && disk.files[path] == DiskFile(true, e.mode == "100755", repo.objects[e.blob])
  }

  /** The object id ties an accepted file to the commit's content. */
  lemma AcceptedWritten(repo: Repo, tools: Tools, f: FileRow, disk: Disk)
    requires RepoValid(repo, tools) && Injective(tools.blobId) && f.row.blob in repo.objects
    requires FileAccepted(tools, f, disk, true)
    ensures f.row.path in disk.files - {RECEIPT_NAME}
    ensures disk.files[f.row.path] == Written(repo, f.row)
  {
    assert tools.blobId(repo.objects[f.row.blob]) == f.row.blob;
  }

  lemma AcceptedListed(m: Manifest, receipt: Receipt, rows: seq<Row>, disk: Disk, p: string)
    requires NothingElse(m, receipt, disk) && RowsMatch(receipt.files, rows)
    requires p in disk.files - {RECEIPT_NAME} && p !in m.generated
    ensures exists k :: 0 <= k < |rows| && rows[k].path == p
  {
    assert ListedPath(receipt.files, p);
    var k :| 0 <= k < |receipt.files| && receipt.files[k].row.path == p;
    assert rows[k].path == p;
  }

  /** Conversely every such directory is accepted with the receipt that the export wrote: acceptance is exact. */
  lemma AcceptedIffExact(repo: Repo, tools: Tools, commit: string, m: Manifest, disk: Disk, staging: bool)
    requires RepoValid(repo, tools) && Injective(tools.blobId) && ManifestValid(m) && Selectable(repo, commit, m)
    ensures var rows := Selection(m, repo.commits[commit]);
      && Stored(repo, rows)
      && var accepted := Accepts(repo, tools, FromCommit(commit), m, ReceiptFor(repo, tools, commit, m, rows), disk,
                                 staging);
      accepted <==> Exact(repo, tools, commit, m, disk, staging) && !disk.linkedDirectory
  {
    var rows := Selection(m, repo.commits[commit]);
    SelectionExportable(repo, tools, commit, m);
    SelectionRows(repo, tools, commit, m);
    SelectionStored(repo, tools, commit, m);
    var receipt := ReceiptFor(repo, tools, commit, m, rows);
    ExportRows(repo, tools, m, rows, receipt);
    if Accepts(repo, tools, FromCommit(commit), m, receipt, disk, staging) {
      AcceptedExact(repo, tools, commit, m, receipt, disk, staging);
    }
    if Exact(repo, tools, commit, m, disk, staging) {
      ExactAccepted(repo, tools, commit, m, rows, receipt, disk, staging);
    }
  }

  lemma ExactAccepted(repo: Repo, tools: Tools, commit: string, m: Manifest, rows: seq<Row>, receipt: Receipt,
                      disk: Disk, staging: bool)
    requires RepoValid(repo, tools) && ManifestValid(m) && commit in repo.commits
    requires Exact(repo, tools, commit, m, disk, staging)
    requires rows == Selection(m, repo.commits[commit]) && receipt.files == FileRows(repo, tools, rows)
    requires forall r :: r in rows ==> SafeRelative(r.path) && !Forbidden(m, r.path)
    ensures NothingElse(m, receipt, disk)
    ensures forall k :: 0 <= k < |receipt.files| ==> FileAccepted(tools, receipt.files[k], disk, true)
    ensures forall p :: p in m.generated ==> GeneratedAccepted(tools, m, p, disk, staging)
  {
    var files := disk.files - {RECEIPT_NAME};
    forall p | p in files
      ensures !Forbidden(m, p) && (ListedPath(receipt.files, p) || p in m.generated)
    {
      if k :| 0 <= k < |rows| && rows[k].path == p {
        assert rows[k] in rows && receipt.files[k].row == rows[k];
      }
    }
    forall k | 0 <= k < |receipt.files|
      ensures FileAccepted(tools, receipt.files[k], disk, true)
    {
      WrittenAccepted(repo, tools, rows[k], disk);
    }
  }

  /** The file as the commit has it passes against its row. */
  lemma WrittenAccepted(repo: Repo, tools: Tools, r: Row, disk: Disk)
    requires RepoValid(repo, tools) && r.blob in repo.objects
    requires r.path in disk.files - {RECEIPT_NAME} && disk.files[r.path] == Written(repo, r)
    ensures FileAccepted(tools, FileRowOf(repo, tools, r), disk, true)
  {}

  // ---- a pinned receipt ----

  ghost predicate InjectiveReceipt(f: Receipt -> string) {
    forall a, b :: f(a) == f(b) ==> a == b
  }

  /** The pinned digest of an export's receipt is as good as its commit: only that receipt is accepted, and with it
      exactly the directories that hold the selection and named generated files. */
  lemma PinnedIffExact(repo: Repo, tools: Tools, commit: string, m: Manifest, receipt: Receipt, disk: Disk,
                       staging: bool)
    requires RepoValid(repo, tools) && ManifestValid(m) && Selectable(repo, commit, m)
    requires Injective(tools.blobId) && Injective(tools.sha) && InjectiveReceipt(tools.receiptSha)
    ensures Stored(repo, Selection(m, repo.commits[commit]))
    ensures var exported := ReceiptFor(repo, tools, commit, m, Selection(m, repo.commits[commit]));
      Accepts(repo, tools, FromDigest(tools.receiptSha(exported)), m, receipt, disk, staging)
      <==> receipt == exported && Exact(repo, tools, commit, m, disk, staging) && !disk.linkedDirectory
  {
    AcceptedIffExact(repo, tools, commit, m, disk, staging);
    var exported := ReceiptFor(repo, tools, commit, m, Selection(m, repo.commits[commit]));
    if receipt == exported {
      PinnedAsCommit(repo, tools, commit, m, disk, staging);
    }
  }

  lemma PinnedAsCommit(repo: Repo, tools: Tools, commit: string, m: Manifest, disk: Disk, staging: bool)
    requires RepoValid(repo, tools) && Selectable(repo, commit, m) && Injective(tools.sha)
    ensures Stored(repo, Selection(m, repo.commits[commit]))
    ensures var exported := ReceiptFor(repo, tools, commit, m, Selection(m, repo.commits[commit]));
      Accepts(repo, tools, FromDigest(tools.receiptSha(exported)), m, exported, disk, staging)
      <==> Accepts(repo, tools, FromCommit(commit), m, exported, disk, staging)
  {
    SelectionStored(repo, tools, commit, m);
    var rows := Selection(m, repo.commits[commit]);
    var exported := ReceiptFor(repo, tools, commit, m, rows);
    assert RowsMatch(exported.files, rows);
    forall k | 0 <= k < |exported.files|
      ensures FileAccepted(tools, exported.files[k], disk, true)
        <==> FileAccepted(tools, exported.files[k], disk, false)
    {
      ContentPinned(repo, tools, rows[k], disk);
    }
  }

  /** A file with the digest of the object has the object's content, and so its id. */
  lemma ContentPinned(repo: Repo, tools: Tools, r: Row, disk: Disk)
    requires RepoValid(repo, tools) && r.blob in repo.objects && Injective(tools.sha)
    ensures var f := FileRowOf(repo, tools, r);
      FileAccepted(tools, f, disk, true) <==> FileAccepted(tools, f, disk, false)
  {
    assert tools.blobId(repo.objects[r.blob]) == r.blob;
  }
}
