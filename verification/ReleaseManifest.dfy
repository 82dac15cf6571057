/** Release manifests: what the generator writes, the verifier accepts; SHA256SUMS is parsed back entry for entry. */
module ReleaseManifest {
  import opened Common

  type Name = string

  type Bytes = string

  // ---- SHA256SUMS ----

  datatype Line = Line(digest: string, name: Name)

  predicate HexDigit(c: char) { '0' <= c <= '9' || 'a' <= c <= 'f' }

  predicate Sha256(s: string) { |s| == 64 && forall k :: 0 <= k < |s| ==> HexDigit(s[k]) }

  predicate NameStart(c: char) { '0' <= c <= '9' || 'a' <= c <= 'z' || 'A' <= c <= 'Z' }

  predicate NameChar(c: char) { NameStart(c) || c == '.' || c == '_' || c == '+' || c == '-' }

  /** A flat file name: no separators, no leading dot, no two dots in a row. */
  predicate SafeFilename(s: Name) {
    s != "" && NameStart(s[0]) && (forall k :: 0 <= k < |s| ==> NameChar(s[k]))
    && forall k :: 0 < k < |s| ==> !(s[k - 1] == '.' && s[k] == '.')
  }

  /** Where Python's splitlines() ends a line. */
  predicate LineBreak(c: char) {
    c == '\n' || c == '\r' || 0x0B <= c as int <= 0x0C || 0x1C <= c as int <= 0x1E || c as int == 0x85
    || 0x2028 <= c as int <= 0x2029
  }

  function SplitLines(s: string): seq<string> {
    if s == "" then []
    else var n := LineLength(s);
      var end := if n == |s| then n else if |s| > n + 1 && s[n] == '\r' && s[n + 1] == '\n' then n + 2 else n + 1;
      [s[..n]] + SplitLines(s[end..])
  }

  function LineLength(s: string): (n: nat)
    ensures n <= |s| && (n < |s| ==> LineBreak(s[n]))
  {
    if s == "" || LineBreak(s[0]) then 0 else 1 + LineLength(s[1..])
  }

  /** A digest, a space, a space or star, and the file name. */
  function ParseLine(s: string): Option<Line> {
    if |s| > 66 && Sha256(s[..64]) && s[64] == ' ' && (s[65] == ' ' || s[65] == '*') && SafeFilename(s[66..])
    then Some(Line(s[..64], s[66..])) else None
  }

  /** A line is accepted exactly if it is a digest, a space, a space or a star, and a safe file name. */
  lemma LineExact(s: string, line: Line)
    ensures ParseLine(s) == Some(line) <==>
      && (s == line.digest + "  " + line.name || s == line.digest + " *" + line.name)
      && Sha256(line.digest) && SafeFilename(line.name)
  {
    if ParseLine(s) == Some(line) {
      assert s[64..66] == [s[64], s[65]] && s == s[..64] + s[64..66] + s[66..];
    }
    if (s == line.digest + "  " + line.name || s == line.digest + " *" + line.name) && |line.digest| == 64 {
      assert s[..64] == line.digest && s[66..] == line.name;
    }
  }

  function Entries(lines: seq<string>): Option<seq<Line>> {
    if lines == [] then Some([])
    else match (ParseLine(lines[0]), Entries(lines[1..]))
      case (Some(first), Some(rest)) => Some([first] + rest)
      case _ => None
  }

  ghost predicate DistinctNames(lines: seq<Line>) {
    forall i, j :: 0 <= i < j < |lines| ==> lines[i].name != lines[j].name
  }

  function Mapping(lines: seq<Line>): map<Name, string> {
    if lines == [] then map[] else Mapping(lines[..|lines| - 1])[lines[|lines| - 1].name := lines[|lines| - 1].digest]
  }

  /** Every line well formed, no name twice, at least one entry. */
  ghost function ChecksumsSpec(text: string): Option<map<Name, string>> {
    match Entries(SplitLines(text))
    case None => None
    case Some(lines) => if lines != [] && DistinctNames(lines) then Some(Mapping(lines)) else None
  }

  method ParseChecksums(text: string) returns (r: Option<map<Name, string>>)
    ensures r == ChecksumsSpec(text)
  {
    var lines := SplitLines(text);
    var checksums: map<Name, string> := map[];
    ghost var done: seq<Line> := [];
    assert lines[0..] == lines;
    AfterNothing(Entries(lines));
    for k := 0 to |lines|
      invariant |done| == k && DistinctNames(done) && checksums == Mapping(done)
      invariant Entries(lines) == After(done, Entries(lines[k..]))
    {
      var line := ParseLine(lines[k]);
      EntriesNext(lines, k, done);
      if line.None? {
        return None;
      }
      if line.value.name in checksums {
        RepeatedName(done, line.value, Entries(lines[k + 1..]));
        return None;
      }
      NewName(done, line.value);
      done := done + [line.value];
      checksums := checksums[line.value.name := line.value.digest];
    }
    assert lines[|lines|..] == [] && done + [] == done;
    return if lines == [] then None else Some(checksums);
  }

  function After(done: seq<Line>, r: Option<seq<Line>>): Option<seq<Line>> {
    match r
    case None => None
    case Some(rest) => Some(done + rest)
  }

  lemma AfterNothing(r: Option<seq<Line>>)
    ensures After([], r) == r
  {
    if r.Some? { assert [] + r.value == r.value; }
  }

  lemma EntriesNext(lines: seq<string>, k: nat, done: seq<Line>)
    requires k < |lines|
    ensures After(done, Entries(lines[k..])) == match ParseLine(lines[k])
      case None => None
      case Some(line) => After(done + [line], Entries(lines[k + 1..]))
  {
    assert lines[k..][1..] == lines[k + 1..];
    var line := ParseLine(lines[k]);
    if line.Some? { AfterOne(done, line.value, Entries(lines[k + 1..])); }
  }

  lemma NewName(done: seq<Line>, line: Line)
    requires DistinctNames(done) && line.name !in Mapping(done)
    ensures DistinctNames(done + [line]) && Mapping(done + [line]) == Mapping(done)[line.name := line.digest]
  {
    MappingKeys(done);
    assert (done + [line])[..|done|] == done;
  }

  lemma AfterOne(done: seq<Line>, line: Line, r: Option<seq<Line>>)
    ensures After(done, After([line], r)) == After(done + [line], r)
  {
    if r.Some? { assert done + ([line] + r.value) == done + [line] + r.value; }
  }

  lemma {:induction false} MappingKeys(lines: seq<Line>)
    ensures forall n :: n in Mapping(lines) <==> exists k :: 0 <= k < |lines| && lines[k].name == n
  {
    if lines != [] {
      var rest := lines[..|lines| - 1];
      MappingKeys(rest);
      forall n
        ensures n in Mapping(lines) <==> exists k :: 0 <= k < |lines| && lines[k].name == n
      {
        if k :| 0 <= k < |lines| && lines[k].name == n {
          if k < |rest| { assert rest[k].name == n; }
        }
        if n in Mapping(rest) {
          var k :| 0 <= k < |rest| && rest[k].name == n;
          assert lines[k].name == n;
        }
      }
    }
  }

  lemma RepeatedName(done: seq<Line>, line: Line, r: Option<seq<Line>>)
    requires line.name in Mapping(done)
    ensures After(done + [line], r).Some? ==> !DistinctNames(After(done + [line], r).value)
  {
    MappingKeys(done);
    if r.Some? {
      var k :| 0 <= k < |done| && done[k].name == line.name;
      var all := done + [line] + r.value;
      assert all[k].name == all[|done|].name;
    }
  }

  // ---- the printer ----

  function Printed(line: Line): string { LineText(line) + "\n" }

  function PrintChecksums(lines: seq<Line>): string {
    if lines == [] then "" else Printed(lines[0]) + PrintChecksums(lines[1..])
  }

  lemma PrintNext(text: string, lines: seq<Line>, k: nat)
    requires k < |lines|
    ensures text + PrintChecksums(lines[k..]) == text + Printed(lines[k]) + PrintChecksums(lines[k + 1..])
  {
    assert lines[k..][1..] == lines[k + 1..];
    assert text + (Printed(lines[k]) + PrintChecksums(lines[k + 1..]))
      == text + Printed(lines[k]) + PrintChecksums(lines[k + 1..]);
  }

  predicate LineValid(line: Line) { Sha256(line.digest) && SafeFilename(line.name) }

  lemma {:induction false} LineLengthMarked(s: string, rest: string)
    requires (forall k :: 0 <= k < |s| ==> !LineBreak(s[k])) && rest != "" && LineBreak(rest[0])
    ensures LineLength(s + rest) == |s|
  {
    if s == "" {
      assert s + rest == rest;
    } else {
      LineLengthMarked(s[1..], rest);
      assert (s + rest)[1..] == s[1..] + rest;
    }
  }

  function LineText(line: Line): string { line.digest + "  " + line.name }

  lemma ParsesLine(line: Line)
    requires LineValid(line)
    ensures ParseLine(LineText(line)) == Some(line)
  {
    var s := LineText(line);
    assert s[..64] == line.digest && s[66..] == line.name;
  }

  /** A line break, or a carriage return and line feed together, ends one line. */
  lemma SplitsAt(s: string, mark: string, rest: string)
    requires forall k :: 0 <= k < |s| ==> !LineBreak(s[k])
    requires mark == "\r\n" || (|mark| == 1 && LineBreak(mark[0]) && !(mark == "\r" && "\n" <= rest))
    ensures SplitLines(s + (mark + rest)) == [s] + SplitLines(rest)
  {
    LineLengthMarked(s, mark + rest);
    var all := s + (mark + rest);
    assert all[..|s|] == s && all[|s| + |mark|..] == rest && all[|s|] == mark[0];
    if |all| > |s| + 1 { assert all[|s| + 1] == if |mark| == 2 then mark[1] else rest[0]; }
  }

  lemma SplitsLine(s: string, rest: string)
    requires forall k :: 0 <= k < |s| ==> !LineBreak(s[k])
    ensures SplitLines(s + ("\n" + rest)) == [s] + SplitLines(rest)
  {
    SplitsAt(s, "\n", rest);
  }

  lemma NoBreaks(line: Line)
    requires LineValid(line)
    ensures var s := LineText(line); forall k :: 0 <= k < |s| ==> !LineBreak(s[k])
  {
    var s := LineText(line);
    forall k | 0 <= k < |s|
      ensures !LineBreak(s[k])
    {
      if k < 64 { assert HexDigit(line.digest[k]); } else if k >= 66 { assert NameChar(line.name[k - 66]); }
    }
  }

  lemma {:induction false} EntriesPrinted(lines: seq<Line>)
    requires forall k :: 0 <= k < |lines| ==> LineValid(lines[k])
    ensures Entries(SplitLines(PrintChecksums(lines))) == Some(lines)
  {
    if lines != [] {
      EntriesPrinted(lines[1..]);
      EntriesPrintedFirst(lines[0], lines[1..], PrintChecksums(lines[1..]));
      assert lines == [lines[0]] + lines[1..];
    }
  }

  lemma EntriesPrintedFirst(line: Line, lines: seq<Line>, rest: string)
    requires LineValid(line) && Entries(SplitLines(rest)) == Some(lines)
    ensures Entries(SplitLines(Printed(line) + rest)) == Some([line] + lines)
  {
    SplitsPrinted(line, rest);
    ParsesLine(line);
    EntriesCons(LineText(line), SplitLines(rest), line, lines);
  }

  lemma SplitsPrinted(line: Line, rest: string)
    requires LineValid(line)
    ensures SplitLines(Printed(line) + rest) == [LineText(line)] + SplitLines(rest)
  {
    NoBreaks(line);
    SplitsLine(LineText(line), rest);
    ConcatAssociates(LineText(line), "\n", rest);
  }

  lemma EntriesCons(s: string, rest: seq<string>, line: Line, lines: seq<Line>)
    requires ParseLine(s) == Some(line) && Entries(rest) == Some(lines)
    ensures Entries([s] + rest) == Some([line] + lines)
  {
    assert ([s] + rest)[1..] == rest;
  }

  /** The parser inverts the printer entry for entry. */
  lemma ChecksumsRoundTrip(lines: seq<Line>)
    requires lines != [] && DistinctNames(lines) && forall k :: 0 <= k < |lines| ==> LineValid(lines[k])
    ensures ChecksumsSpec(PrintChecksums(lines)) == Some(Mapping(lines))
  {
    EntriesPrinted(lines);
  }

  // ---- the manifest ----

  datatype Kind = Binary | Source | Supplemental

  /** What a manifest says of one artifact. Older manifests have no kinds. */
  datatype Details = Details(sha: string, size: nat, kind: Option<Kind>, payload: Option<string>,
                             source: Option<string>)

  datatype Manifest = Manifest(tag: string, commit: string, artifacts: map<Name, Details>, sbomSha: string,
                               checksumsSha: string)

  /** A release directory: its regular files, and the manifest file as it parses. */
  datatype Directory = Directory(files: map<Name, Bytes>, manifest: Option<Manifest>)

  /** The fixed names, the supplemental assets with their sources, the hash, and the digest of the one binary inside an
      archive, where there is exactly one. */
  datatype Inventory = Inventory(sbom: Name, sums: Name, supplemental: map<Name, string>, verifiable: map<Name, string>,
                                 sha: Bytes -> string, payload: (Name, Bytes) -> Option<string>,
                                 wellFormedSbom: Bytes -> bool, sourceName: string -> Name, binaryName: Name -> bool) {

    ghost predicate Lawful() {
      && sbom in supplemental && sums !in verifiable
      && (forall n :: n in supplemental ==> n in verifiable && verifiable[n] == supplemental[n])
      && (forall b :: Sha256(sha(b))) && (forall n, b :: payload(n, b).Some? ==> Sha256(payload(n, b).value))
      && (forall tag :: sums != sourceName(tag)) && !binaryName(sums)
    }

    function KindOf(name: Name, tag: string): Option<Kind> {
      if !SafeFilename(name) then None
      else if name in verifiable then Some(Supplemental)
      else if !SafeFilename(tag) then None
      else if name == sourceName(tag) then Some(Source)
      else if binaryName(name) then Some(Binary)
      else None
    }

    // ---- generating ----

    /** A known kind, and not one of the supplemental names that are only accepted from older releases. */
    predicate Collectable(name: Name, tag: string) {
      KindOf(name, tag).Some? && (name in verifiable ==> name in supplemental)
    }

    /** What collecting a release directory guarantees of the names, in order. */
    ghost predicate Collected(names: seq<Name>, tag: string, files: map<Name, Bytes>) {
      && tag != ""
      && (forall i, j :: 0 <= i < j < |names| ==> names[i] != names[j])
      && (forall k :: 0 <= k < |names| ==> names[k] in files && Collectable(names[k], tag))
      && (forall n :: n in supplemental ==> n in names)
    }

    ghost predicate Payloads(names: seq<Name>, tag: string, files: map<Name, Bytes>)
      requires Collected(names, tag, files)
    {
      forall k :: 0 <= k < |names| && KindOf(names[k], tag) == Some(Binary) ==> payload(names[k], files[names[k]]).Some?
    }

    function DetailsOf(name: Name, tag: string, data: Bytes): Details
      requires Collectable(name, tag)
    {
      var kind := KindOf(name, tag).value;
      Details(sha(data), |data|, Some(kind), if kind == Binary then payload(name, data) else None,
              if kind == Supplemental then Some(supplemental[name]) else None)
    }

    ghost function Lines(names: seq<Name>, files: map<Name, Bytes>): (r: seq<Line>)
      requires forall k :: 0 <= k < |names| ==> names[k] in files
      ensures |r| == |names| && forall k :: 0 <= k < |r| ==> r[k] == Line(sha(files[names[k]]), names[k])
    {
      seq(|names|, k requires 0 <= k < |names| => Line(sha(files[names[k]]), names[k]))
    }

    /** The first n records: every name bound to the digest, size, kind, payload and source of its file. */
    ghost predicate Recorded(artifacts: map<Name, Details>, names: seq<Name>, n: nat, tag: string,
                             files: map<Name, Bytes>)
      requires Collected(names, tag, files) && n <= |names|
    {
      && (forall a :: a in artifacts <==> a in names[..n])
      && forall k :: 0 <= k < n ==>
        names[k] in artifacts && artifacts[names[k]] == DetailsOf(names[k], tag, files[names[k]])
    }

    lemma RecordedNext(artifacts: map<Name, Details>, names: seq<Name>, n: nat, tag: string, files: map<Name, Bytes>)
      requires Collected(names, tag, files) && n < |names| && Recorded(artifacts, names, n, tag, files)
      ensures Recorded(artifacts[names[n] := DetailsOf(names[n], tag, files[names[n]])], names, n + 1, tag, files)
    {
      var more := artifacts[names[n] := DetailsOf(names[n], tag, files[names[n]])];
      assert names[..n + 1] == names[..n] + [names[n]];
      forall k | 0 <= k < n
        ensures names[k] in more && more[names[k]] == DetailsOf(names[k], tag, files[names[k]])
      {
        assert names[k] != names[n];
      }
    }

    /** The manifest binds every collected artifact, and SHA256SUMS lists them in order. */
    ghost predicate Generated(names: seq<Name>, tag: string, commit: string, before: map<Name, Bytes>, after: Directory)
      requires Collected(names, tag, before)
    {
      && after.files == before[sums := PrintChecksums(Lines(names, before))]
      && after.manifest.Some?
      && var m := after.manifest.value;
      && m.tag == tag && m.commit == commit
      && Recorded(m.artifacts, names, |names|, tag, before)
      && sbom in before && m.sbomSha == sha(before[sbom]) && m.checksumsSha == sha(after.files[sums])
    }

    /** The generator: it fails only where a binary's archive does not hold exactly one binary. */
    method Generate(names: seq<Name>, tag: string, commit: string, before: map<Name, Bytes>)
      returns (r: Option<Directory>)
      requires Lawful() && Collected(names, tag, before)
      ensures r.Some? <==> Payloads(names, tag, before)
      ensures r.Some? ==> Generated(names, tag, commit, before, r.value)
    {
      var artifacts: map<Name, Details> := map[];
      for k := 0 to |names|
        invariant forall i :: 0 <= i < k && KindOf(names[i], tag) == Some(Binary) ==>
          payload(names[i], before[names[i]]).Some?
        invariant Recorded(artifacts, names, k, tag, before)
      {
        var name := names[k];
        if KindOf(name, tag) == Some(Binary) && payload(name, before[name]).None? {
          return None;
        }
        RecordedNext(artifacts, names, k, tag, before);
        artifacts := artifacts[name := DetailsOf(name, tag, before[name])];
      }
      var after := Bind(names, tag, commit, before, artifacts);
      return Some(after);
    }

    /** Write the checksums file and the manifest over the recorded artifacts. */
    method Bind(names: seq<Name>, tag: string, commit: string, before: map<Name, Bytes>, artifacts: map<Name, Details>)
      returns (after: Directory)
      requires Lawful() && Collected(names, tag, before) && Recorded(artifacts, names, |names|, tag, before)
      ensures Generated(names, tag, commit, before, after)
    {
      var text := SumsText(names, tag, before, artifacts);
      NotSums(names, tag, before);
      var files := before[sums := text];
      after := Directory(files, Some(Manifest(tag, commit, artifacts, sha(files[sbom]), sha(text))));
    }

    method SumsText(names: seq<Name>, tag: string, ghost files: map<Name, Bytes>, artifacts: map<Name, Details>)
      returns (text: string)
      requires Collected(names, tag, files) && Recorded(artifacts, names, |names|, tag, files)
      ensures text == PrintChecksums(Lines(names, files))
    {
      text := "";
      ghost var lines := Lines(names, files);
      assert lines[0..] == lines;
      for k := 0 to |names|
        invariant text + PrintChecksums(lines[k..]) == PrintChecksums(lines)
      {
        assert names[k] in names[..|names|];
        PrintNext(text, lines, k);
        text := text + Printed(Line(artifacts[names[k]].sha, names[k]));
      }
      assert lines[|names|..] == [] && text + "" == text;
    }

    /** No artifact is called SHA256SUMS. */
    lemma NotSums(names: seq<Name>, tag: string, files: map<Name, Bytes>)
      requires Lawful() && Collected(names, tag, files)
      ensures sums !in names && sbom != sums && sbom in files
    {
      assert sbom in names;
    }

    // ---- verifying ----

    predicate Commit(s: string) { |s| == 40 && forall k :: 0 <= k < |s| ==> HexDigit(s[k]) }

    predicate Typed(m: Manifest) { exists n :: n in m.artifacts && m.artifacts[n].kind.Some? }

    predicate DetailsValid(tag: string, name: Name, d: Details, typed: bool) {
      && SafeFilename(name) && Sha256(d.sha) && (d.payload.Some? ==> Sha256(d.payload.value))
      && (if typed then
            && KindOf(name, tag).Some? && d.kind == KindOf(name, tag)
            && (d.kind == Some(Binary) <==> d.payload.Some?) && (d.kind == Some(Supplemental) <==> d.source.Some?)
            && (d.source.Some? ==> d.source.value == verifiable[name])
          else d.kind.None? && d.source.None?)
      && (name != sourceName(tag) && !(typed && d.kind == Some(Supplemental)) ==> d.payload.Some?)
    }

    predicate ManifestValid(m: Manifest) {
      && m.tag != "" && Commit(m.commit) && Sha256(m.sbomSha) && Sha256(m.checksumsSha) && m.artifacts != map[]
      && (forall n :: n in m.artifacts ==> DetailsValid(m.tag, n, m.artifacts[n], Typed(m)))
      && (Typed(m) ==>
            && (forall n :: n in supplemental ==> n in m.artifacts)
            && (sbom in m.artifacts ==> m.artifacts[sbom].sha == m.sbomSha))
    }

    predicate ArtifactVerified(d: Directory, checksums: map<Name, string>, details: Details, name: Name)
      requires name in checksums
    {
      && name in d.files && sha(d.files[name]) == checksums[name] && sha(d.files[name]) == details.sha
      && |d.files[name]| == details.size && (details.payload.Some? ==> payload(name, d.files[name]) == details.payload)
    }

    /** When a release directory verifies for a tag. */
    ghost predicate Verifies(tag: string, d: Directory) {
      && d.manifest.Some? && ManifestValid(d.manifest.value) && d.manifest.value.tag == tag
      && sbom in d.files && sha(d.files[sbom]) == d.manifest.value.sbomSha && wellFormedSbom(d.files[sbom])
      && sums in d.files && sha(d.files[sums]) == d.manifest.value.checksumsSha
      && ChecksumsSpec(d.files[sums]).Some?
      && var checksums := ChecksumsSpec(d.files[sums]).value;
      && checksums.Keys == d.manifest.value.artifacts.Keys
      && forall n :: n in checksums ==> ArtifactVerified(d, checksums, d.manifest.value.artifacts[n], n)
    }

    method VerifyRelease(tag: string, d: Directory) returns (verified: bool)
      ensures verified <==> Verifies(tag, d)
    {
      if d.manifest.None? || !ManifestValid(d.manifest.value) || d.manifest.value.tag != tag {
        return false;
      }
      var m := d.manifest.value;
      if sbom !in d.files || sha(d.files[sbom]) != m.sbomSha || !wellFormedSbom(d.files[sbom]) {
        return false;
      }
      if sums !in d.files || sha(d.files[sums]) != m.checksumsSha {
        return false;
      }
      var parsed := ParseChecksums(d.files[sums]);
      if parsed.None? || parsed.value.Keys != m.artifacts.Keys {
        return false;
      }
      var checksums := parsed.value;
      var names := checksums.Keys;
      while names != {}
        invariant names <= checksums.Keys
        invariant forall n :: n in checksums && n !in names ==> ArtifactVerified(d, checksums, m.artifacts[n], n)
      {
        var n :| n in names;
        if !ArtifactVerified(d, checksums, m.artifacts[n], n) {
          return false;
        }
        names := names - {n};
      }
      return true;
    }

    // ---- the round trip ----

    lemma {:induction false} MappingAt(lines: seq<Line>, k: nat)
      requires k < |lines| && DistinctNames(lines)
      ensures lines[k].name in Mapping(lines) && Mapping(lines)[lines[k].name] == lines[k].digest
    {
      if k < |lines| - 1 { MappingAt(lines[..|lines| - 1], k); }
    }

    /** Each record of a generated manifest is of a collected artifact that is unchanged on disk. */
    lemma RecordOf(n: Name, names: seq<Name>, tag: string, before: map<Name, Bytes>, artifacts: map<Name, Details>)
      requires Collected(names, tag, before) && Payloads(names, tag, before)
      requires Recorded(artifacts, names, |names|, tag, before) && n in artifacts
      ensures n in before && n in names && Collectable(n, tag) && artifacts[n] == DetailsOf(n, tag, before[n])
      ensures artifacts[n].kind == Some(Binary) ==> artifacts[n].payload.Some?
    {
      assert names[..|names|] == names;
      var k :| 0 <= k < |names| && names[k] == n;
    }

    lemma DetailsOfValid(n: Name, tag: string, data: Bytes)
      requires Lawful() && Collectable(n, tag)
      requires KindOf(n, tag) == Some(Binary) ==> payload(n, data).Some?
      ensures DetailsValid(tag, n, DetailsOf(n, tag, data), true)
    {}

    lemma GeneratedValid(names: seq<Name>, tag: string, commit: string, before: map<Name, Bytes>, after: Directory)
      requires Lawful() && Collected(names, tag, before) && Payloads(names, tag, before) && Commit(commit)
      requires Generated(names, tag, commit, before, after)
      ensures ManifestValid(after.manifest.value)
    {
      var m := after.manifest.value;
      assert names[..|names|] == names && sbom in names;
      RecordOf(sbom, names, tag, before, m.artifacts);
      assert m.artifacts[sbom].kind.Some?;
      forall n | n in m.artifacts
        ensures DetailsValid(tag, n, m.artifacts[n], true)
      {
        RecordOf(n, names, tag, before, m.artifacts);
        DetailsOfValid(n, tag, before[n]);
      }
    }

    lemma GeneratedChecksums(names: seq<Name>, tag: string, files: map<Name, Bytes>)
      requires Lawful() && Collected(names, tag, files)
      ensures ChecksumsSpec(PrintChecksums(Lines(names, files))).Some?
      ensures var checksums := ChecksumsSpec(PrintChecksums(Lines(names, files))).value;
        && (forall n :: n in checksums <==> n in names)
        && forall k :: 0 <= k < |names| ==> names[k] in checksums && checksums[names[k]] == sha(files[names[k]])
    {
      var lines := Lines(names, files);
      assert sbom in names;
      ChecksumsRoundTrip(lines);
      LinesMapped(names, tag, files);
    }

    lemma LinesMapped(names: seq<Name>, tag: string, files: map<Name, Bytes>)
      requires Collected(names, tag, files)
      ensures var m := Mapping(Lines(names, files));
        && (forall n :: n in m <==> n in names)
        && forall k :: 0 <= k < |names| ==> names[k] in m && m[names[k]] == sha(files[names[k]])
    {
      var lines := Lines(names, files);
      MappingKeys(lines);
      forall k | 0 <= k < |names|
        ensures names[k] in Mapping(lines) && Mapping(lines)[names[k]] == sha(files[names[k]])
      {
        MappingAt(lines, k);
        assert lines[k].name == names[k];
      }
      forall n | n in Mapping(lines)
        ensures n in names
      {
        var k :| 0 <= k < |lines| && lines[k].name == n;
        assert names[k] == n;
      }
    }

    /** What the generator writes verifies for the same tag, given a full commit id and a well-formed SBOM. */
    lemma ReleaseRoundTrip(names: seq<Name>, tag: string, commit: string, before: map<Name, Bytes>, after: Directory)
      requires Lawful() && Collected(names, tag, before) && Payloads(names, tag, before) && Commit(commit)
      requires Generated(names, tag, commit, before, after) && wellFormedSbom(before[sbom])
      ensures Verifies(tag, after)
    {
      GeneratedValid(names, tag, commit, before, after);
      NotSums(names, tag, before);
      GeneratedVerified(names, tag, commit, before, after);
    }

    /** The checksums and the manifest of a generated release list the same artifacts, and each passes. */
    lemma GeneratedVerified(names: seq<Name>, tag: string, commit: string, before: map<Name, Bytes>, after: Directory)
      requires Lawful() && Collected(names, tag, before) && Payloads(names, tag, before)
      requires Generated(names, tag, commit, before, after)
      ensures ChecksumsSpec(after.files[sums]).Some?
      ensures var checksums, artifacts := ChecksumsSpec(after.files[sums]).value, after.manifest.value.artifacts;
        && checksums.Keys == artifacts.Keys
        && forall n :: n in checksums ==> ArtifactVerified(after, checksums, artifacts[n], n)
    {
      GeneratedChecksums(names, tag, before);
      NotSums(names, tag, before);
      var artifacts := after.manifest.value.artifacts;
      var checksums := ChecksumsSpec(after.files[sums]).value;
      assert names[..|names|] == names;
      forall n | n in checksums
        ensures ArtifactVerified(after, checksums, artifacts[n], n)
      {
        RecordOf(n, names, tag, before, artifacts);
        RecordVerified(after, checksums, n, tag, before[n]);
      }
    }

    // ---- what verification means ----

    /** In a verified directory every manifest entry gives the digest and the size of the file of its name, every line
        of the checksums the digest of the file it names, and both name the same files. */
    lemma VerifiedMeans(tag: string, d: Directory)
      requires Verifies(tag, d)
      ensures forall n :: n in d.manifest.value.artifacts ==>
        && n in d.files && d.manifest.value.artifacts[n].sha == sha(d.files[n])
        && d.manifest.value.artifacts[n].size == |d.files[n]|
      ensures Entries(SplitLines(d.files[sums])).Some?
      ensures var lines := Entries(SplitLines(d.files[sums])).value;
        && (forall k :: 0 <= k < |lines| ==> lines[k].name in d.files && lines[k].digest == sha(d.files[lines[k].name]))
        && forall n :: n in d.manifest.value.artifacts <==> exists k :: 0 <= k < |lines| && lines[k].name == n
    {
      var lines := Entries(SplitLines(d.files[sums])).value;
      var checksums := ChecksumsSpec(d.files[sums]).value;
      assert checksums == Mapping(lines);
      MappingKeys(lines);
      forall n | n in d.manifest.value.artifacts
        ensures n in checksums && ArtifactVerified(d, checksums, d.manifest.value.artifacts[n], n)
      {
        assert n in checksums.Keys;
      }
      forall k | 0 <= k < |lines|
        ensures lines[k].name in d.files && lines[k].digest == sha(d.files[lines[k].name])
      {
        MappingAt(lines, k);
        assert ArtifactVerified(d, checksums, d.manifest.value.artifacts[lines[k].name], lines[k].name);
      }
      forall n
        ensures n in d.manifest.value.artifacts <==> exists k :: 0 <= k < |lines| && lines[k].name == n
      {
        assert n in checksums.Keys <==> n in d.manifest.value.artifacts.Keys;
      }
    }

    /** With a collision-free digest, a directory with the manifest of a generated release verifies exactly if it has
        the release's files, byte for byte. */
    lemma VerifiedExact(names: seq<Name>, tag: string, commit: string, before: map<Name, Bytes>, after: Directory,
                        d: Directory)
      requires Lawful() && Collected(names, tag, before) && Payloads(names, tag, before) && Commit(commit)
      requires Generated(names, tag, commit, before, after) && wellFormedSbom(before[sbom])
      requires d.manifest == after.manifest && forall a, b :: sha(a) == sha(b) ==> a == b
      ensures Verifies(tag, d)
        <==> (&& sums in d.files && d.files[sums] == after.files[sums]
              && forall k :: 0 <= k < |names| ==> names[k] in d.files && d.files[names[k]] == before[names[k]])
    {
      ReleaseRoundTrip(names, tag, commit, before, after);
      NotSums(names, tag, before);
      assert sbom in names && names[..|names|] == names;
      if Verifies(tag, d) {
        VerifiedMeans(tag, d);
        forall k | 0 <= k < |names|
          ensures names[k] in d.files && d.files[names[k]] == before[names[k]]
        {
          RecordOf(names[k], names, tag, before, d.manifest.value.artifacts);
        }
      }
      if sums in d.files && d.files[sums] == after.files[sums]
        && forall k :: 0 <= k < |names| ==> names[k] in d.files && d.files[names[k]] == before[names[k]]
      {
        SameFilesVerify(names, tag, commit, before, after, d);
      }
    }

    lemma SameFilesVerify(names: seq<Name>, tag: string, commit: string, before: map<Name, Bytes>, after: Directory,
                          d: Directory)
      requires Lawful() && Collected(names, tag, before) && Generated(names, tag, commit, before, after)
      requires Verifies(tag, after) && d.manifest == after.manifest
      requires sums in d.files && d.files[sums] == after.files[sums]
      requires forall k :: 0 <= k < |names| ==> names[k] in d.files && d.files[names[k]] == before[names[k]]
      ensures Verifies(tag, d)
    {
      NotSums(names, tag, before);
      var checksums, artifacts := ChecksumsSpec(d.files[sums]).value, d.manifest.value.artifacts;
      assert names[..|names|] == names;
      forall n | n in checksums
        ensures ArtifactVerified(d, checksums, artifacts[n], n)
      {
        assert ArtifactVerified(after, checksums, artifacts[n], n);
        assert n in artifacts.Keys;
        assert n in names;
        var k :| 0 <= k < |names| && names[k] == n;
        assert after.files[n] == before[n];
      }
      assert sbom in names;
    }

    lemma RecordVerified(d: Directory, checksums: map<Name, string>, n: Name, tag: string, data: Bytes)
      requires n in checksums && n in d.files && d.files[n] == data && checksums[n] == sha(data) && Collectable(n, tag)
      ensures ArtifactVerified(d, checksums, DetailsOf(n, tag, data), n)
    {}
  }

  // ---- the names of this repository's releases ----

  predicate StartsWith(s: string, prefix: string) { |s| >= |prefix| && s[..|prefix|] == prefix }

  predicate EndsWith(s: string, suffix: string) { |s| >= |suffix| && s[|s| - |suffix|..] == suffix }

  function SourceName(tag: string): Name {
    "lean-ctx-" + (if tag != "" && tag[0] == 'v' then tag[1..] else tag) + "-source.tar.gz"
  }

  predicate BinaryName(s: Name) {
    || (StartsWith(s, "lean-ctx-") && (EndsWith(s, ".tar.gz") || EndsWith(s, ".zip")))
    || (StartsWith(s, "thinkery_leanctx_engine") && EndsWith(s, ".whl"))
  }

  const SUMS := "SHA256SUMS"

  const SUPPLEMENTAL := map["SBOM.cdx.json" := "SBOM.cdx.json", "THIRD_PARTY_NOTICES" := "THIRD_PARTY_NOTICES",
                            "LICENSE.md" := "LICENSE.md", "LICENSES-Apache-2.0.txt" := "LICENSES/Apache-2.0.txt"]

  const LEGACY := "LICENSES-LeanCTX-Commercial-Source-License-2.0.txt"

  const LEGACY_SOURCE := "LICENSES/LeanCTX-Commercial-Source-License-2.0.txt"

  function LeanCtx(sha: Bytes -> string, payload: (Name, Bytes) -> Option<string>,
                   wellFormedSbom: Bytes -> bool): Inventory {
    Inventory("SBOM.cdx.json", SUMS, SUPPLEMENTAL, SUPPLEMENTAL[LEGACY := LEGACY_SOURCE], sha, payload, wellFormedSbom,
              SourceName, BinaryName)
  }

  /** The repository's own tables meet every condition of the round trip, for any hash printed as 64 hex digits. */
  lemma LeanCtxLawful(sha: Bytes -> string, payload: (Name, Bytes) -> Option<string>, wellFormedSbom: Bytes -> bool)
    requires forall b :: Sha256(sha(b))
    requires forall n, b :: payload(n, b).Some? ==> Sha256(payload(n, b).value)
    ensures LeanCtx(sha, payload, wellFormedSbom).Lawful()
  {
    assert SUMS[1] == 'H' && |LEGACY| == 50;
    forall tag
      ensures SUMS != SourceName(tag)
    {
      assert SourceName(tag)[0] == 'l';
    }
    assert !BinaryName(SUMS) by {
      assert SUMS[..9][0] == 'S' && "lean-ctx-"[0] == 'l' && |SUMS| < |"thinkery_leanctx_engine"|;
    }
    assert SUMS !in SUPPLEMENTAL && LEGACY !in SUPPLEMENTAL;
  }
}
