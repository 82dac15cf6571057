/** Re-pinning: five steps recompute the digests pinned in a checkout, each reading what the ones before derived. */
module PinnedEvidence {
  import opened Common

  type Path = string

  type Files = map<Path, File>

  /** A path and the digest pinned for it. */
  datatype Pin = Pin(path: Path, sha: string)

  datatype Policy = Policy(rest: string, sourcePath: Path, sources: seq<Pin>, commit: string, report: Path,
                           reportSha: string)

  /** What the policy fingerprint covers: everything but the report's digest. */
  datatype Material = Material(rest: string, sourcePath: Path, sources: seq<Pin>, commit: string, report: Path)

  datatype Report = Report(rest: string, commit: string, policySha: string)

  datatype Pack = Pack(rest: string, version: string, supported: seq<string>, artifacts: seq<Pin>)

  datatype Manifest = Manifest(rest: string, packDigest: string, packVersion: string,
                               sbom: Pin, provenance: Pin, vulnerability: Pin, signature: Pin)

  /** What the release signature covers: everything but the signature entry. */
  datatype Payload = Payload(rest: string, packDigest: string, packVersion: string, sbom: Pin, provenance: Pin,
                             vulnerability: Pin)

  datatype Receipt = Receipt(keyId: string, payloadSha: string, signature: Signature)

  type Signature = seq<byte>

  /** A JSON value whose objects are dictionaries. */
  datatype Value = Text(s: string) | Other(t: string) | List(items: seq<Value>) | Dict(members: map<string, Value>)

  /** The bytes of a file, by what they say and how it is written down: the two forms that the scripts write,
      or any other. Writing a document and reading it back gives the same document. */
  datatype File = File(doc: Document, form: Form)

  datatype Form = Pretty | Canonical | Foreign(text: string)

  datatype Document =
    | PolicyDoc(policy: Policy) | ReportDoc(report: Report) | PackDoc(pack: Pack) | ManifestDoc(manifest: Manifest)
    | ReceiptDoc(receipt: Receipt) | ContractDoc(contract: Value) | TrustDoc(public: seq<byte>, keyId: string)
    | MaterialDoc(material: Material) | PayloadDoc(payload: Payload) | Opaque(text: string)

  /** What the five steps stage. */
  datatype Outputs = Outputs(pack: Files, fixture: Files, evidence: Files, policy: Files, baseline: Files) {

    /** The files after the first chain, and after both. */
    function First(files: Files): Files { files + pack + fixture + evidence }
    function Second(files: Files): Files { First(files) + policy + baseline }

    /** Everything staged: what is written at the end. */
    function All(): Files { pack + fixture + evidence + policy + baseline }

    lemma FirstView(files: Files)
      ensures files + (pack + fixture + evidence) == First(files)
    {
      UnionAssociates(files, pack, fixture);
      UnionAssociates(files, pack + fixture, evidence);
    }

    lemma Written(files: Files)
      ensures files + All() == Second(files)
    {
      FirstView(files);
      UnionAssociates(files, pack + fixture + evidence, policy);
      UnionAssociates(files, pack + fixture + evidence + policy, baseline);
    }
  }

  lemma UnionAssociates(a: Files, b: Files, c: Files)
    ensures a + (b + c) == a + b + c
  {}

  datatype Refusal =
    | Missing | Malformed | StaleSource | UnboundReport | OutOfScope | ArtifactSet | ForeignKey | NoReference

  /** Where the derived files and the trust root are. */
  datatype Layout = Layout(policy: Path, pack: Path, evidence: Path, manifest: Path, receipt: Path, trustRoot: Path) {

    /** Six different files, of which only the policy is under security/. */
    ghost predicate Distinct() {
      && pack !in {receipt, manifest, evidence, policy, trustRoot}
      && receipt !in {manifest, evidence, policy, trustRoot}
      && manifest !in {evidence, policy, trustRoot} && evidence !in {policy, trustRoot} && policy != trustRoot
      && forall p :: InScope(p, "security/") ==> p !in {pack, receipt, manifest, evidence, trustRoot}
    }
  }

  predicate InScope(path: Path, scope: string) { scope <= path }

  const LAYOUT := Layout(
    "security/history-policy-v1.json",
    "docs/contracts/ocla-contract-pack-v1.json",
    "docs/contracts/delivery-evidence-v1.json",
    "tests/delivery/valid/delivery-manifest.json",
    "tests/delivery/valid/signature.bundle.json",
    "tests/delivery/valid/release-trust-root.json")

  lemma LayoutDistinct()
    ensures LAYOUT.Distinct()
  {
    var l := LAYOUT;
    FirstLetters();
    assert l.pack[15] != l.evidence[15];
    assert l.manifest[21] != l.receipt[21] && l.manifest[21] != l.trustRoot[21] && l.receipt[21] != l.trustRoot[21];
    forall p | InScope(p, "security/")
      ensures p !in {l.pack, l.receipt, l.manifest, l.evidence, l.trustRoot}
    {
      assert p[0] == "security/"[0] == 's';
    }
  }

  lemma FirstLetters()
    ensures var l := LAYOUT; l.policy[0] == 's' && l.pack[0] == 'd' && l.evidence[0] == 'd'
    ensures var l := LAYOUT; l.manifest[0] == 't' && l.receipt[0] == 't' && l.trustRoot[0] == 't'
  {}

  /** Hashing, signing and the schema checks that the steps take as given. */
  datatype World = World(
    sha: File -> string, hex: string -> bool, sign: File -> Signature, public: seq<byte>,
    policyCore: (string, string, Path) -> bool, reportCore: string -> bool, supported: string -> Option<seq<string>>,
    at: Layout, artifacts: set<Path>
  ) {

    ghost predicate Lawful() {
      at.Distinct() && forall f :: hex(sha(f))
    }

    // ---- pins ----

    predicate Present(files: Files, pins: seq<Pin>) {
      forall k :: 0 <= k < |pins| ==> pins[k].path in files
    }

    function Repinned(files: Files, pins: seq<Pin>): (r: seq<Pin>)
      requires Present(files, pins)
      ensures |r| == |pins| && forall k :: 0 <= k < |r| ==> r[k] == Pin(pins[k].path, sha(files[pins[k].path]))
    {
      seq(|pins|, k requires 0 <= k < |pins| => Pin(pins[k].path, sha(files[pins[k].path])))
    }

    /** Every pin has the digest of the file it names. */
    predicate Pinned(files: Files, pins: seq<Pin>) {
      Present(files, pins) && forall k :: 0 <= k < |pins| ==> pins[k].sha == sha(files[pins[k].path])
    }

    // ---- history-policy ----

    /** The scanner-source contract: distinct sources, the policy itself not among them, hexadecimal digests. */
    predicate PolicyValid(p: Policy) {
      && policyCore(p.rest, p.commit, p.report) && hex(p.reportSha) && p.sources != []
      && (forall k :: 0 <= k < |p.sources| ==> p.sources[k].path != p.sourcePath && hex(p.sources[k].sha))
      && (forall i, k :: 0 <= i < k < |p.sources| ==> p.sources[i].path != p.sources[k].path)
    }

    function PolicyIn(files: Files): Result<Policy, Refusal> {
      if at.policy !in files then Err(Missing)
      else match files[at.policy].doc
        case PolicyDoc(p) => if PolicyValid(p) && p.sourcePath == at.policy then Ok(p) else Err(Malformed)
        case _ => Err(Malformed)
    }

    function HistoryPolicy(files: Files): Result<Files, Refusal> {
      match PolicyIn(files)
      case Err(e) => Err(e)
      case Ok(p) =>
        if !Present(files, p.sources) then Err(Missing)
        else Ok(map[at.policy := File(PolicyDoc(p.(sources := Repinned(files, p.sources))), Pretty)])
    }

    // ---- baseline-reattest ----

    function Fingerprint(p: Policy): string {
      sha(File(MaterialDoc(Material(p.rest, p.sourcePath, p.sources, p.commit, p.report)), Canonical))
    }

    function Baseline(files: Files): Result<Files, Refusal> {
      match PolicyIn(files)
      case Err(e) => Err(e)
      case Ok(p) =>
        if !Present(files, p.sources) then Err(Missing)
        else if !Pinned(files, p.sources) then Err(StaleSource)
        else if p.report !in files then Err(Missing)
        else match files[p.report].doc
          case ReportDoc(r) =>
            if r.commit != p.commit then Err(UnboundReport)
            else if !InScope(p.report, "security/") then Err(OutOfScope)
            else
              var rendered := File(ReportDoc(r.(policySha := Fingerprint(p))), Canonical);
              Ok(map[p.report := rendered] + map[at.policy := File(PolicyDoc(p.(reportSha := sha(rendered))), Pretty)])
          case _ => Err(UnboundReport)
    }

    // ---- contract-pack ----

    function Paths(pins: seq<Pin>): set<Path> {
      set k | 0 <= k < |pins| :: pins[k].path
    }

    predicate PackValid(p: Pack) {
      p.artifacts != [] && supported(p.version) == Some(p.supported)
    }

    function Versioned(p: Pack, version: Option<string>): Option<Pack> {
      if version.None? then Some(p)
      else match supported(version.value)
        case None => None
        case Some(s) => Some(p.(version := version.value, supported := s))
    }

    function ContractPack(files: Files, version: Option<string>): Result<Files, Refusal> {
      if at.pack !in files then Err(Missing)
      else if !files[at.pack].doc.PackDoc? then Err(Malformed)
      else
        var p := files[at.pack].doc.pack;
        if !PackValid(p) then Err(Malformed)
        else if Paths(p.artifacts) != artifacts then Err(ArtifactSet)
        else if !Present(files, p.artifacts) then Err(Missing)
        else match Versioned(p.(artifacts := Repinned(files, p.artifacts)), version)
          case None => Err(Malformed)
          case Some(p') => Ok(map[at.pack := File(PackDoc(p'), Pretty)])
    }

    // ---- delivery-fixture ----

    function PayloadOf(m: Manifest): Payload {
      Payload(m.rest, m.packDigest, m.packVersion, m.sbom, m.provenance, m.vulnerability)
    }

    function Evidence(m: Manifest): seq<Pin> { [m.sbom, m.provenance, m.vulnerability] }

    /** The manifest with its contract and evidence digests recomputed. */
    function Bound(files: Files, m: Manifest, pack: Pack): Manifest
      requires Present(files, Evidence(m))
    {
      var e := Repinned(files, Evidence(m));
      m.(packDigest := "sha256:" + sha(File(PackDoc(pack), Canonical)), packVersion := pack.version,
         sbom := e[0], provenance := e[1], vulnerability := e[2])
    }

    function ReceiptFor(keyId: string, m: Manifest): Receipt {
      var payload := File(PayloadDoc(PayloadOf(m)), Canonical);
      Receipt(keyId, sha(payload), sign(payload))
    }

    function Fixture(files: Files): Result<Files, Refusal> {
      if !(at.trustRoot in files && at.manifest in files && at.pack in files) then Err(Missing)
      else match (files[at.trustRoot].doc, files[at.manifest].doc, files[at.pack].doc)
        case (TrustDoc(key, keyId), ManifestDoc(m), PackDoc(pack)) =>
          if key != public then Err(ForeignKey)
          else if m.signature.path != at.receipt then Err(Malformed)
          else if !Present(files, Evidence(m)) || at.receipt !in files then Err(Missing)
          else
            var bound := Bound(files, m, pack);
            var receipt := File(ReceiptDoc(ReceiptFor(keyId, bound)), Canonical);
            var signed := bound.(signature := Pin(at.receipt, sha(receipt)));
            Ok(map[at.receipt := receipt, at.manifest := File(ManifestDoc(signed), Canonical)])
        case _ => Err(Malformed)
    }

    // ---- delivery-evidence ----

    /** Whether every reference below the value names a file that can be read. */
    predicate CanPin(files: Files, v: Value)
      decreases v
    {
      match v
      case List(items) => forall k :: 0 <= k < |items| ==> CanPin(files, items[k])
      case Dict(m) =>
        && Readable(files, m, "path", "sha256") && Readable(files, m, "source_path", "source_sha256")
        && forall k :: k in m && !DigestKey(m, k) ==> CanPin(files, m[k])
      case _ => true
    }

    predicate Readable(files: Files, m: map<string, Value>, path: string, digest: string) {
      path in m && digest in m ==> m[path].Text? && m[path].s in files
    }

    function PinMember(files: Files, m: map<string, Value>, path: string, digest: string): (r: map<string, Value>)
      ensures r.Keys == m.Keys
    {
      if path in m && digest in m && m[path].Text? && m[path].s in files then m[digest := Text(sha(files[m[path].s]))]
        else m
    }

    /** The members of an object with both kinds of reference recomputed. */
    function PinMembers(files: Files, m: map<string, Value>): (r: map<string, Value>)
      ensures r.Keys == m.Keys
    {
      PinMember(files, PinMember(files, m, "path", "sha256"), "source_path", "source_sha256")
    }

    predicate DigestKey(m: map<string, Value>, k: string) {
      (k == "sha256" && "path" in m) || (k == "source_sha256" && "source_path" in m)
    }

    /** Every digest reference recomputed, at every depth. */
    function Repin(files: Files, v: Value): Value
      decreases v
    {
      match v
      case List(items) => List(seq(|items|, k requires 0 <= k < |items| => Repin(files, items[k])))
      case Dict(m) =>
        var pinned := PinMembers(files, m);
        Dict(map k | k in m :: if DigestKey(m, k) then pinned[k] else Repin(files, m[k]))
      case _ => v
    }

    predicate HasReference(v: Value)
      decreases v
    {
      match v
      case List(items) => exists k :: 0 <= k < |items| && HasReference(items[k])
      case Dict(m) =>
        || ("path" in m && "sha256" in m) || ("source_path" in m && "source_sha256" in m)
        || exists k :: k in m && !DigestKey(m, k) && HasReference(m[k])
      case _ => false
    }

    /** The files a value's references name. */
    ghost predicate Names(v: Value, path: Path)
      decreases v
    {
      match v
      case List(items) => exists k :: 0 <= k < |items| && Names(items[k], path)
      case Dict(m) =>
        || ("path" in m && "sha256" in m && m["path"] == Text(path))
        || ("source_path" in m && "source_sha256" in m && m["source_path"] == Text(path))
        || exists k :: k in m && !DigestKey(m, k) && Names(m[k], path)
      case _ => false
    }

    function EvidenceStep(files: Files): Result<Files, Refusal> {
      if at.evidence !in files then Err(Missing)
      else match files[at.evidence].doc
        case ContractDoc(v) =>
          if !CanPin(files, v) then Err(Missing)
          else if !HasReference(v) then Err(NoReference)
          else Ok(map[at.evidence := File(ContractDoc(Repin(files, v)), Canonical)])
        case _ => Err(Malformed)
    }

    // ---- what each step leaves: its documents agree with the files they name ----

    /** Each of the files named is there and has the digest that is named with it. */
    ghost predicate Agree(files: Files, pins: seq<Pin>) {
      forall k :: 0 <= k < |pins| ==> pins[k].path in files && pins[k].sha == sha(files[pins[k].path])
    }

    /** What the report's fingerprint must cover: the policy but for the report's digest. */
    ghost function Fingerprinted(p: Policy): File {
      File(MaterialDoc(Material(p.rest, p.sourcePath, p.sources, p.commit, p.report)), Canonical)
    }

    ghost predicate PolicyPinned(files: Files) {
      && PolicyIn(files).Ok?
      && var p := PolicyIn(files).value;
      && Agree(files, p.sources) && files[at.policy] == File(PolicyDoc(p), Pretty)
    }

    ghost predicate BaselinePinned(files: Files) {
      && PolicyPinned(files)
      && var p := PolicyIn(files).value;
      && p.report in files && files[p.report].doc.ReportDoc?
      && var r := files[p.report].doc.report;
      && files[p.report] == File(ReportDoc(r), Canonical) && r.commit == p.commit && InScope(p.report, "security/")
      && r.policySha == sha(Fingerprinted(p)) && p.reportSha == sha(files[p.report])
    }

    ghost predicate PackPinned(files: Files, version: Option<string>) {
      && at.pack in files && files[at.pack].doc.PackDoc?
      && var p := files[at.pack].doc.pack;
      && PackValid(p) && Paths(p.artifacts) == artifacts && Agree(files, p.artifacts)
      && files[at.pack] == File(PackDoc(p), Pretty)
      && (version.Some? ==> p.version == version.value)
    }

    /** The manifest names its contract pack and its evidence by their digests. */
    ghost predicate ManifestAgrees(files: Files, m: Manifest, pack: Pack) {
      && m.packDigest == "sha256:" + sha(File(PackDoc(pack), Canonical)) && m.packVersion == pack.version
      && forall pin :: pin in {m.sbom, m.provenance, m.vulnerability} ==>
        pin.path in files && pin.sha == sha(files[pin.path])
    }

    /** What the release signature must cover: the manifest but for the signature entry. */
    ghost function Covered(m: Manifest): File {
      File(PayloadDoc(Payload(m.rest, m.packDigest, m.packVersion, m.sbom, m.provenance, m.vulnerability)), Canonical)
    }

    ghost predicate FixturePinned(files: Files) {
      && at.trustRoot in files && at.manifest in files && at.pack in files && at.receipt in files
      && files[at.trustRoot].doc.TrustDoc? && files[at.manifest].doc.ManifestDoc? && files[at.pack].doc.PackDoc?
      && var trust, m, pack := files[at.trustRoot].doc, files[at.manifest].doc.manifest, files[at.pack].doc.pack;
      && trust.public == public && ManifestAgrees(files, m, pack)
      && files[at.manifest] == File(ManifestDoc(m), Canonical)
      && m.signature == Pin(at.receipt, sha(files[at.receipt]))
      && files[at.receipt] == File(ReceiptDoc(Receipt(trust.keyId, sha(Covered(m)), sign(Covered(m)))), Canonical)
    }

    /** Every reference below the value has the digest of the file it names. */
    ghost predicate Consistent(files: Files, v: Value)
      decreases v
    {
      match v
      case List(items) => forall k :: 0 <= k < |items| ==> Consistent(files, items[k])
      case Dict(m) =>
        && ("path" in m && "sha256" in m ==>
              m["path"].Text? && m["path"].s in files && m["sha256"] == Text(sha(files[m["path"].s])))
        && ("source_path" in m && "source_sha256" in m ==>
              m["source_path"].Text? && m["source_path"].s in files
              && m["source_sha256"] == Text(sha(files[m["source_path"].s])))
        && forall k :: k in m ==> Consistent(files, m[k])
      case _ => true
    }

    ghost predicate EvidencePinned(files: Files) {
      && at.evidence in files && files[at.evidence].doc.ContractDoc?
      && var v := files[at.evidence].doc.contract;
      && Consistent(files, v) && HasReference(v) && files[at.evidence] == File(ContractDoc(v), Canonical)
    }

    /** The step changes nothing. */
    ghost predicate Fixed(r: Result<Files, Refusal>, files: Files) {
      r.Ok? && forall p :: p in r.value ==> p in files && files[p] == r.value[p]
    }

    // ---- policy and baseline ----

    lemma PolicyAfter(files: Files, o: Files)
      requires Lawful() && HistoryPolicy(files) == Ok(o)
      ensures PolicyPinned(files + o)
    {
      var p := PolicyIn(files).value;
      var p' := p.(sources := Repinned(files, p.sources));
      assert (files + o)[at.policy] == File(PolicyDoc(p'), Pretty);
      assert PolicyValid(p');
    }

    lemma PolicyFixed(files: Files)
      requires PolicyPinned(files)
      ensures Fixed(HistoryPolicy(files), files) && HistoryPolicy(files).value.Keys == {at.policy}
    {
      var p := PolicyIn(files).value;
      assert Repinned(files, p.sources) == p.sources;
    }

    lemma BaselineAfter(files: Files, o: Files)
      requires Lawful() && Baseline(files) == Ok(o)
      requires var p := PolicyIn(files).value; p.report != at.policy && p.report !in Paths(p.sources)
      ensures BaselinePinned(files + o)
      ensures o.Keys == {at.policy, PolicyIn(files).value.report}
      ensures PolicyIn(files + o).value.report == PolicyIn(files).value.report
    {
      var p := PolicyIn(files).value;
      var r := files[p.report].doc.report;
      var r' := r.(policySha := Fingerprint(p));
      var p' := p.(reportSha := sha(File(ReportDoc(r'), Canonical)));
      assert o[at.policy] == File(PolicyDoc(p'), Pretty) && o[p.report] == File(ReportDoc(r'), Canonical);
      assert PolicyValid(p');
      assert Fingerprint(p') == Fingerprint(p);
      forall k | 0 <= k < |p.sources|
        ensures p.sources[k].path !in o
      {
        assert p.sources[k].path in Paths(p.sources);
      }
    }

    lemma BaselineFixed(files: Files)
      requires BaselinePinned(files)
      ensures Fixed(Baseline(files), files) && Baseline(files).value.Keys == {at.policy, PolicyIn(files).value.report}
    {
      var p := PolicyIn(files).value;
      var r := files[p.report].doc.report;
      assert r.(policySha := Fingerprint(p)) == r && p.(reportSha := sha(files[p.report])) == p;
    }

    // ---- contract pack ----

    lemma PackAfter(files: Files, version: Option<string>, o: Files)
      requires Lawful() && ContractPack(files, version) == Ok(o) && at.pack !in artifacts
      ensures PackPinned(files + o, version) && o.Keys == {at.pack}
    {
      var p := files[at.pack].doc.pack;
      var p' := Versioned(p.(artifacts := Repinned(files, p.artifacts)), version).value;
      assert (files + o)[at.pack] == File(PackDoc(p'), Pretty);
      assert Paths(p'.artifacts) == Paths(p.artifacts) by {
        assert forall k :: 0 <= k < |p.artifacts| ==> p'.artifacts[k].path == p.artifacts[k].path;
      }
      forall k | 0 <= k < |p.artifacts|
        ensures p.artifacts[k].path != at.pack
      {
        assert p.artifacts[k].path in Paths(p.artifacts);
      }
    }

    lemma PackFixed(files: Files, version: Option<string>)
      requires PackPinned(files, version)
      ensures Fixed(ContractPack(files, version), files) && ContractPack(files, version).value.Keys == {at.pack}
    {
      var p := files[at.pack].doc.pack;
      assert p.(artifacts := Repinned(files, p.artifacts)) == p
        by { assert Repinned(files, p.artifacts) == p.artifacts; }
    }

    lemma PackKept(files: Files, version: Option<string>, o: Files)
      requires PackPinned(files, version) && at.pack !in o && forall a :: a in artifacts ==> a !in o
      ensures PackPinned(files + o, version)
    {
      var p := files[at.pack].doc.pack;
      forall k | 0 <= k < |p.artifacts|
        ensures p.artifacts[k].path !in o
      {
        assert p.artifacts[k].path in Paths(p.artifacts);
      }
    }

    // ---- delivery fixture ----

    lemma FixtureAfter(files: Files, o: Files)
      requires Lawful() && Fixture(files) == Ok(o)
      requires forall k :: 0 <= k < 3 ==>
        Evidence(files[at.manifest].doc.manifest)[k].path !in {at.receipt, at.manifest}
      ensures FixturePinned(files + o) && o.Keys == {at.receipt, at.manifest}
      ensures forall k :: 0 <= k < 3 ==>
        Evidence((files + o)[at.manifest].doc.manifest)[k].path == Evidence(files[at.manifest].doc.manifest)[k].path
    {
      var trust, m, pack := files[at.trustRoot].doc, files[at.manifest].doc.manifest, files[at.pack].doc.pack;
      var bound := Bound(files, m, pack);
      var receipt := File(ReceiptDoc(ReceiptFor(trust.keyId, bound)), Canonical);
      var m' := bound.(signature := Pin(at.receipt, sha(receipt)));
      var after := files + o;
      assert after[at.manifest] == File(ManifestDoc(m'), Canonical) && after[at.receipt] == receipt;
      assert after[at.pack] == files[at.pack] && after[at.trustRoot] == files[at.trustRoot];
      assert ReceiptFor(trust.keyId, m') == ReceiptFor(trust.keyId, bound);
      FixtureAgrees(files, after, m, pack, bound, m');
    }

    lemma FixtureAgrees(files: Files, after: Files, m: Manifest, pack: Pack, bound: Manifest, m': Manifest)
      requires Present(files, Evidence(m)) && bound == Bound(files, m, pack)
      requires m' == bound.(signature := m'.signature)
      requires forall k :: 0 <= k < 3 ==>
        Evidence(m)[k].path in after && after[Evidence(m)[k].path] == files[Evidence(m)[k].path]
      ensures ManifestAgrees(after, m', pack) && Covered(m') == File(PayloadDoc(PayloadOf(bound)), Canonical)
    {
      assert Evidence(m)[0] == m.sbom && Evidence(m)[1] == m.provenance && Evidence(m)[2] == m.vulnerability;
    }

    lemma FixtureFixed(files: Files)
      requires FixturePinned(files)
      ensures Fixed(Fixture(files), files) && Fixture(files).value.Keys == {at.receipt, at.manifest}
    {
      var m, pack := files[at.manifest].doc.manifest, files[at.pack].doc.pack;
      AgreesFixed(files, m, pack);
      assert m.(signature := m.signature) == m;
    }

    lemma AgreesFixed(files: Files, m: Manifest, pack: Pack)
      requires ManifestAgrees(files, m, pack)
      ensures Present(files, Evidence(m)) && Bound(files, m, pack) == m
      ensures Covered(m) == File(PayloadDoc(PayloadOf(m)), Canonical)
    {
      var e := Evidence(m);
      assert e[0] == m.sbom && e[1] == m.provenance && e[2] == m.vulnerability;
      assert Repinned(files, e) == e;
    }

    lemma FixtureKept(files: Files, o: Files)
      requires FixturePinned(files)
      requires at.trustRoot !in o && at.manifest !in o && at.pack !in o && at.receipt !in o
      requires forall k :: 0 <= k < 3 ==> Evidence(files[at.manifest].doc.manifest)[k].path !in o
      ensures FixturePinned(files + o)
    {
      var m := files[at.manifest].doc.manifest;
      assert Evidence(m)[0] == m.sbom && Evidence(m)[1] == m.provenance && Evidence(m)[2] == m.vulnerability;
    }

    // ---- delivery evidence ----

    /** The files that the value names are the same in both views. */
    ghost predicate AgreeOn(files: Files, after: Files, v: Value) {
      forall p :: Names(v, p) ==> p in after && (p in files ==> after[p] == files[p])
    }

    lemma {:induction false} RepinAgain(files: Files, after: Files, v: Value)
      requires CanPin(files, v) && AgreeOn(files, after, v)
      ensures CanPin(after, Repin(files, v)) && Repin(after, Repin(files, v)) == Repin(files, v)
      ensures HasReference(Repin(files, v)) <==> HasReference(v)
      decreases v, 1
    {
      match v
      case List(items) =>
        var w := Repin(files, v);
        forall k | 0 <= k < |items|
          ensures CanPin(after, w.items[k]) && Repin(after, w.items[k]) == w.items[k]
          ensures HasReference(w.items[k]) <==> HasReference(items[k])
        {
          forall p | Names(items[k], p)
            ensures Names(v, p)
          {}
          RepinAgain(files, after, items[k]);
        }
      case Dict(m) => RepinDict(files, after, v);
      case _ =>
    }

    lemma {:induction false} RepinDict(files: Files, after: Files, v: Value)
      requires v.Dict? && CanPin(files, v) && AgreeOn(files, after, v)
      ensures CanPin(after, Repin(files, v)) && Repin(after, Repin(files, v)) == Repin(files, v)
      ensures HasReference(Repin(files, v)) <==> HasReference(v)
      decreases v, 0
    {
      var m, m' := v.members, Repin(files, v).members;
      forall k | k in m && !DigestKey(m, k)
        ensures CanPin(after, m'[k]) && Repin(after, m'[k]) == m'[k] && (HasReference(m'[k]) <==> HasReference(m[k]))
      {
        forall p | Names(m[k], p)
          ensures Names(v, p)
        {}
        RepinAgain(files, after, m[k]);
      }
      PathKept(files, after, m, m', "path", "sha256");
      PathKept(files, after, m, m', "source_path", "source_sha256");
      assert forall k :: DigestKey(m', k) <==> DigestKey(m, k);
      DigestsKept(after, m');
      DictFixed(after, m');
      SameReferences(m, m');
    }

    lemma DigestsKept(after: Files, m: map<string, Value>)
      requires forall p, d :: (p == "path" && d == "sha256") || (p == "source_path" && d == "source_sha256") ==>
        (p in m && d in m ==> m[p].Text? && m[p].s in after && m[d] == Text(sha(after[m[p].s])))
      ensures PinMembers(after, m) == m && Readable(after, m, "path", "sha256")
      ensures Readable(after, m, "source_path", "source_sha256")
    {
      assert PinMember(after, m, "path", "sha256") == m;
    }

    lemma DictFixed(after: Files, m: map<string, Value>)
      requires PinMembers(after, m) == m && forall k :: k in m && !DigestKey(m, k) ==> Repin(after, m[k]) == m[k]
      ensures Repin(after, Dict(m)) == Dict(m)
    {
      var again := Repin(after, Dict(m)).members;
      forall k | k in m
        ensures k in again && again[k] == m[k]
      {}
      assert again == m;
    }

    lemma SameReferences(m: map<string, Value>, m': map<string, Value>)
      requires m.Keys == m'.Keys && (forall k :: DigestKey(m', k) <==> DigestKey(m, k))
      requires forall k :: k in m && !DigestKey(m, k) ==> (HasReference(m'[k]) <==> HasReference(m[k]))
      ensures HasReference(Dict(m')) <==> HasReference(Dict(m))
    {
      assert forall k :: k in m <==> k in m';
    }

    lemma PathKept(files: Files, after: Files, m: map<string, Value>, m': map<string, Value>, path: string,
                   digest: string)
      requires (path == "path" && digest == "sha256") || (path == "source_path" && digest == "source_sha256")
      requires m' == Repin(files, Dict(m)).members && Readable(files, m, path, digest) && AgreeOn(files, after, Dict(m))
      ensures path in m && digest in m ==>
        && m[path].Text? && m'[path] == m[path] && m[path].s in after && after[m[path].s] == files[m[path].s]
        && m'[digest] == Text(sha(files[m[path].s]))
    {
      if path in m && digest in m {
        assert Names(Dict(m), m[path].s);
        assert !DigestKey(m, path) by { assert |path| != |digest|; DigestLengths(); }
        DigestLengths();
      }
    }

    lemma DigestLengths()
      ensures |"path"| == 4 && |"sha256"| == 6 && |"source_path"| == 11 && |"source_sha256"| == 13
    {}

    lemma EvidenceAfter(files: Files, o: Files)
      requires EvidenceStep(files) == Ok(o) && Lawful() && !Names(files[at.evidence].doc.contract, at.evidence)
      ensures EvidencePinned(files + o) && o.Keys == {at.evidence}
    {
      var v := files[at.evidence].doc.contract;
      NamesPresent(files, files + o, v);
      RepinAgain(files, files + o, v);
      ConsistentIff(files + o, Repin(files, v));
      assert (files + o)[at.evidence] == File(ContractDoc(Repin(files, v)), Canonical);
    }

    /** Every digest is right exactly if every reference can be read and re-pinning changes nothing. */
    lemma {:induction false} ConsistentIff(files: Files, v: Value)
      ensures Consistent(files, v) <==> CanPin(files, v) && Repin(files, v) == v
      decreases v
    {
      match v
      case List(items) =>
        forall k | 0 <= k < |items|
          ensures Consistent(files, items[k]) <==> CanPin(files, items[k]) && Repin(files, v).items[k] == items[k]
        {
          ConsistentIff(files, items[k]);
        }
        if CanPin(files, v) && forall k :: 0 <= k < |items| ==> Repin(files, v).items[k] == items[k] {
          assert Repin(files, v).items == items;
        }
      case Dict(m) =>
        forall k | k in m
          ensures Consistent(files, m[k]) <==> CanPin(files, m[k]) && Repin(files, m[k]) == m[k]
        {
          ConsistentIff(files, m[k]);
        }
        if Consistent(files, v) {
          DigestsKept(files, m);
          DictFixed(files, m);
        }
        if CanPin(files, v) && Repin(files, v) == v { FixedDigests(files, m); }
      case _ =>
    }

    lemma FixedDigests(files: Files, m: map<string, Value>)
      requires CanPin(files, Dict(m)) && Repin(files, Dict(m)) == Dict(m)
      requires forall k :: k in m ==> (Consistent(files, m[k]) <==> CanPin(files, m[k]) && Repin(files, m[k]) == m[k])
      ensures Consistent(files, Dict(m))
    {
      var again := Repin(files, Dict(m)).members;
      NamesPresent(files, files, Dict(m));
      PathKept(files, files, m, again, "path", "sha256");
      PathKept(files, files, m, again, "source_path", "source_sha256");
      forall k | k in m
        ensures Consistent(files, m[k])
      {
        assert again[k] == m[k];
      }
    }

    /** A value that can be pinned has a reference exactly if it names a file. */
    lemma ReferencesNamed(files: Files, v: Value)
      requires CanPin(files, v)
      ensures HasReference(v) <==> exists p :: Names(v, p)
    {
      if HasReference(v) {
        var p := NamedReference(files, v);
        assert Names(v, p);
      }
      if p :| Names(v, p) {
        ReferenceNamed(files, v, p);
        assert Names(v, p);
      }
    }

    lemma {:induction false} NamedReference(files: Files, v: Value) returns (p: Path)
      requires CanPin(files, v) && HasReference(v)
      ensures Names(v, p)
      decreases v
    {
      match v
      case List(items) =>
        var k :| 0 <= k < |items| && HasReference(items[k]);
        p := NamedReference(files, items[k]);
      case Dict(m) =>
        if "path" in m && "sha256" in m {
          p := m["path"].s;
        } else if "source_path" in m && "source_sha256" in m {
          p := m["source_path"].s;
        } else {
          var k :| k in m && !DigestKey(m, k) && HasReference(m[k]);
          p := NamedReference(files, m[k]);
        }
    }

    lemma {:induction false} ReferenceNamed(files: Files, v: Value, p: Path)
      requires CanPin(files, v) && Names(v, p)
      ensures HasReference(v)
      decreases v
    {
      match v
      case List(items) =>
        var k :| 0 <= k < |items| && Names(items[k], p);
        ReferenceNamed(files, items[k], p);
      case Dict(m) =>
        if k :| k in m && !DigestKey(m, k) && Names(m[k], p) { ReferenceNamed(files, m[k], p); }
    }

    /** What can be pinned names only files that exist. */
    lemma {:induction false} NamesPresent(files: Files, after: Files, v: Value)
      requires CanPin(files, v)
      requires forall p :: p in files ==> p in after && (Names(v, p) ==> after[p] == files[p])
      ensures AgreeOn(files, after, v)
    {
      forall p | Names(v, p)
        ensures p in files
      {
        NamedPresent(files, v, p);
      }
    }

    lemma {:induction false} NamedPresent(files: Files, v: Value, p: Path)
      requires CanPin(files, v) && Names(v, p)
      ensures p in files
      decreases v
    {
      match v
      case List(items) =>
        var k :| 0 <= k < |items| && Names(items[k], p);
        NamedPresent(files, items[k], p);
      case Dict(m) =>
        if k :| k in m && !DigestKey(m, k) && Names(m[k], p) {
          NamedPresent(files, m[k], p);
        }
      case _ =>
    }

    lemma EvidenceFixed(files: Files)
      requires EvidencePinned(files)
      ensures Fixed(EvidenceStep(files), files) && EvidenceStep(files).value.Keys == {at.evidence}
    {
      ConsistentIff(files, files[at.evidence].doc.contract);
    }

    lemma EvidenceKept(files: Files, o: Files)
      requires EvidencePinned(files) && at.evidence !in o
        && forall p :: p in o ==> !Names(files[at.evidence].doc.contract, p)
      ensures EvidencePinned(files + o)
    {
      var v := files[at.evidence].doc.contract;
      ConsistentIff(files, v);
      NamesPresent(files, files + o, v);
      RepinAgain(files, files + o, v);
      ConsistentIff(files + o, v);
    }

    // ---- one run ----

    /** All five steps, each on the files the ones before left. */
    predicate Run(files: Files, version: Option<string>, o: Outputs) {
      FirstRun(files, version, o.pack, o.fixture, o.evidence) && SecondRun(o.First(files), o.policy, o.baseline)
    }

    /** Pack, fixture and evidence contract. */
    predicate FirstRun(files: Files, version: Option<string>, a: Files, b: Files, c: Files) {
      ContractPack(files, version) == Ok(a) && Fixture(files + a) == Ok(b) && EvidenceStep(files + a + b) == Ok(c)
    }

    /** The policy and its baseline report. */
    predicate SecondRun(files: Files, d: Files, e: Files) {
      HistoryPolicy(files) == Ok(d) && Baseline(files + d) == Ok(e)
    }

    ghost predicate NoRun(files: Files, version: Option<string>) {
      forall o: Outputs :: !Run(files, version, o)
    }

    predicate SecondRefusal(files: Files) {
      HistoryPolicy(files).Err? || Baseline(files + HistoryPolicy(files).value).Err?
    }

    /** A run is determined step by step. */
    lemma SameFirst(files: Files, version: Option<string>, o: Outputs, other: Outputs)
      requires FirstRun(files, version, o.pack, o.fixture, o.evidence) && Run(files, version, other)
      ensures o.First(files) == other.First(files)
    {}

    /** Where the second chain is refused there is no run at all. */
    lemma SecondRefused(files: Files, version: Option<string>, o: Outputs)
      requires FirstRun(files, version, o.pack, o.fixture, o.evidence)
      requires SecondRefusal(o.First(files))
      ensures NoRun(files, version)
    {
      forall other: Outputs
        ensures !Run(files, version, other)
      {
        if Run(files, version, other) { SameFirst(files, version, o, other); }
      }
    }

    /** After the first chain the second decides whether there is a run. */
    lemma Outcome(files: Files, version: Option<string>, o: Outputs, view: Files, second: bool)
      requires FirstRun(files, version, o.pack, o.fixture, o.evidence) && view == o.First(files)
      requires if second then SecondRun(view, o.policy, o.baseline) else SecondRefusal(view)
      ensures if second then Run(files, version, o) else NoRun(files, version)
    {
      if !second { SecondRefused(files, version, o); }
    }

    /** No listed path is derived later than the step that pins it. */
    ghost predicate Separated(files: Files) {
      && at.policy in files && files[at.policy].doc.PolicyDoc? && at.manifest in files
      && files[at.manifest].doc.ManifestDoc?
      && at.evidence in files && files[at.evidence].doc.ContractDoc?
      && var p := files[at.policy].doc.policy;
      && p.report != at.policy && p.report !in Paths(p.sources)
      && artifacts !! Derived(p.report)
      && Unnamed(files, {at.receipt, at.manifest, at.evidence, at.policy, p.report})
      && (forall q :: q in {at.evidence, at.policy, p.report} ==> !Names(files[at.evidence].doc.contract, q))
    }

    /** Everything that is pinned agrees. */
    ghost predicate AllPinned(files: Files, version: Option<string>) {
      FirstPinned(files, version) && BaselinePinned(files)
    }

    ghost predicate FirstPinned(files: Files, version: Option<string>) {
      PackPinned(files, version) && FixturePinned(files) && EvidencePinned(files)
    }

    /** The fixture manifest names none of the files. */
    ghost predicate Unnamed(files: Files, derived: set<Path>)
      requires at.manifest in files && files[at.manifest].doc.ManifestDoc?
    {
      forall k :: 0 <= k < 3 ==> Evidence(files[at.manifest].doc.manifest)[k].path !in derived
    }

    /** The chain of the contract pack, the fixture and the evidence contract. */
    lemma FirstChain(files: Files, version: Option<string>, a: Files, b: Files, c: Files, later: set<Path>)
      requires Lawful() && at.manifest in files && files[at.manifest].doc.ManifestDoc?
      requires at.evidence in files && files[at.evidence].doc.ContractDoc?
      requires ContractPack(files, version) == Ok(a) && Fixture(files + a) == Ok(b)
      requires EvidenceStep(files + a + b) == Ok(c)
      requires artifacts !! {at.pack, at.receipt, at.manifest, at.evidence}
      requires Unnamed(files, {at.receipt, at.manifest, at.evidence} + later)
      requires !Names(files[at.evidence].doc.contract, at.evidence)
      ensures FirstPinned(files + a + b + c, version)
      ensures a.Keys == {at.pack} && b.Keys == {at.receipt, at.manifest} && c.Keys == {at.evidence}
      ensures Unnamed(files + a + b + c, later)
    {
      PackAfter(files, version, a);
      FixtureAfter(files + a, b);
      PackKept(files + a, version, b);
      EvidenceAfter(files + a + b, c);
      PackKept(files + a + b, version, c);
      FixtureKept(files + a + b, c);
    }

    /** Re-pinning makes no value name another file. */
    lemma {:induction false} NamesRepinned(files: Files, v: Value, p: Path)
      requires CanPin(files, v)
      ensures Names(Repin(files, v), p) ==> Names(v, p)
      decreases v
    {
      match v
      case List(items) =>
        if Names(Repin(files, v), p) {
          var k :| 0 <= k < |items| && Names(Repin(files, v).items[k], p);
          NamesRepinned(files, items[k], p);
        }
      case Dict(m) =>
        var m' := Repin(files, v).members;
        if k :| k in m' && !DigestKey(m', k) && Names(m'[k], p) {
          NamesRepinned(files, m[k], p);
        }
        TextRepinned(files, m, "path", p);
        TextRepinned(files, m, "source_path", p);
      case _ =>
    }

    lemma TextRepinned(files: Files, m: map<string, Value>, key: string, p: Path)
      requires key == "path" || key == "source_path"
      ensures var m' := Repin(files, Dict(m)).members; key in m ==> (m'[key] == Text(p) <==> m[key] == Text(p))
    {
      DigestLengths();
      assert !DigestKey(m, key);
    }

    /** Later outputs leave the first chain as it is. */
    lemma FirstChainKept(files: Files, version: Option<string>, o: Files, report: Path)
      requires Lawful() && FirstPinned(files, version) && InScope(report, "security/")
      requires o.Keys == {at.policy, report} && artifacts !! Derived(report)
      requires Unnamed(files, {at.policy, report})
      requires forall p :: p in {at.policy, report} ==> !Names(files[at.evidence].doc.contract, p)
      ensures FirstPinned(files + o, version)
    {
      PackKept(files, version, o);
      FixtureKept(files, o);
      EvidenceKept(files, o);
    }

    /** The chain of the policy and its baseline report. */
    lemma SecondChain(files: Files, d: Files, e: Files)
      requires Lawful() && HistoryPolicy(files) == Ok(d) && Baseline(files + d) == Ok(e)
      requires var p := files[at.policy].doc.policy; p.report != at.policy && p.report !in Paths(p.sources)
      ensures BaselinePinned(files + d + e) && d.Keys == {at.policy}
      ensures e.Keys == {at.policy, files[at.policy].doc.policy.report}
      ensures InScope(files[at.policy].doc.policy.report, "security/")
      ensures PolicyIn(files + d + e).value.report == files[at.policy].doc.policy.report
    {
      PolicyAfter(files, d);
      var p, p' := PolicyIn(files).value, PolicyIn(files + d).value;
      assert p' == p.(sources := Repinned(files, p.sources));
      assert Paths(p'.sources) == Paths(p.sources) by {
        assert forall k :: 0 <= k < |p.sources| ==> p'.sources[k].path == p.sources[k].path;
      }
      BaselineAfter(files + d, e);
    }

    lemma SeparatedParts(files: Files, report: Path)
      requires Separated(files) && report == files[at.policy].doc.policy.report
      ensures artifacts !! Derived(report) && artifacts !! {at.pack, at.receipt, at.manifest, at.evidence}
      ensures Unnamed(files, {at.receipt, at.manifest, at.evidence} + {at.policy, report})
      ensures !Names(files[at.evidence].doc.contract, at.evidence)
      ensures forall p :: p in {at.policy, report} ==> !Names(files[at.evidence].doc.contract, p)
    {
      assert {at.receipt, at.manifest, at.evidence} + {at.policy, report}
        == {at.receipt, at.manifest, at.evidence, at.policy, report};
    }

    lemma FirstKeys(files: Files, version: Option<string>, o: Outputs)
      requires FirstRun(files, version, o.pack, o.fixture, o.evidence) && Lawful() && at.policy in files
      ensures o.pack.Keys == {at.pack} && o.fixture.Keys == {at.receipt, at.manifest}
      ensures o.evidence.Keys == {at.evidence}
      ensures at.policy in o.First(files) && o.First(files)[at.policy] == files[at.policy]
    {
      PackKeys(files, version, o.pack);
      FixtureKeys(files + o.pack, o.fixture);
      EvidenceKeys(files + o.pack + o.fixture, o.evidence);
      PolicyUntouched(files, o);
    }

    lemma PolicyUntouched(files: Files, o: Outputs)
      requires at.Distinct() && at.policy in files && o.pack.Keys == {at.pack}
      requires o.fixture.Keys == {at.receipt, at.manifest} && o.evidence.Keys == {at.evidence}
      ensures at.policy in o.First(files) && o.First(files)[at.policy] == files[at.policy]
    {}

    lemma PackKeys(files: Files, version: Option<string>, a: Files)
      requires ContractPack(files, version) == Ok(a)
      ensures a.Keys == {at.pack}
    {}

    lemma FixtureKeys(files: Files, b: Files)
      requires Fixture(files) == Ok(b)
      ensures b.Keys == {at.receipt, at.manifest}
    {}

    lemma EvidenceKeys(files: Files, c: Files)
      requires EvidenceStep(files) == Ok(c)
      ensures c.Keys == {at.evidence}
    {}

    /** The first chain's pins agree at the end of the run. */
    lemma FirstHolds(files: Files, version: Option<string>, o: Outputs, report: Path)
      requires Lawful() && Separated(files) && report == files[at.policy].doc.policy.report
      requires InScope(report, "security/")
      requires FirstRun(files, version, o.pack, o.fixture, o.evidence)
      requires o.policy.Keys == {at.policy} && o.baseline.Keys == {at.policy, report}
      ensures FirstPinned(o.Second(files), version)
    {
      SeparatedParts(files, report);
      FirstKeys(files, version, o);
      ContractNames(files, o, {at.policy, report});
      FirstChain(files, version, o.pack, o.fixture, o.evidence, {at.policy, report});
      SecondKeeps(o.First(files), version, o.policy, o.baseline, report);
    }

    /** After a run, everything that is pinned agrees. */
    lemma RunPins(files: Files, version: Option<string>, o: Outputs)
      requires Lawful() && Separated(files) && Run(files, version, o)
      ensures AllPinned(o.Second(files), version)
      ensures o.All().Keys == Derived(PolicyIn(o.Second(files)).value.report)
    {
      var p := files[at.policy].doc.policy;
      FirstKeys(files, version, o);
      SecondChain(o.First(files), o.policy, o.baseline);
      FirstHolds(files, version, o, p.report);
      AllKeys(o, p.report);
    }

    // ---- what a run leaves alone ----

    ghost predicate SamePaths(pins: seq<Pin>, others: seq<Pin>) {
      |pins| == |others| && forall k :: 0 <= k < |pins| ==> pins[k].path == others[k].path
    }

    /** The same value but for the digests beside a path. */
    ghost predicate SameButDigests(v: Value, w: Value)
      decreases v
    {
      match v
      case List(items) =>
        w.List? && |w.items| == |items| && forall k :: 0 <= k < |items| ==> SameButDigests(items[k], w.items[k])
      case Dict(m) =>
        && w.Dict? && w.members.Keys == m.Keys
        && forall k :: k in m ==>
          (k == "sha256" && "path" in m) || (k == "source_sha256" && "source_path" in m)
          || SameButDigests(m[k], w.members[k])
      case _ => v == w
    }

    lemma {:induction false} RepinKeeps(files: Files, v: Value)
      ensures SameButDigests(v, Repin(files, v))
      decreases v
    {
      match v
      case List(items) =>
        forall k | 0 <= k < |items|
          ensures SameButDigests(items[k], Repin(files, v).items[k])
        {
          RepinKeeps(files, items[k]);
        }
      case Dict(m) =>
        forall k | k in m && !DigestKey(m, k)
          ensures SameButDigests(m[k], Repin(files, v).members[k])
        {
          RepinKeeps(files, m[k]);
        }
      case _ =>
    }

    lemma PackKeeps(files: Files, version: Option<string>, a: Files)
      requires ContractPack(files, version) == Ok(a)
      ensures at.pack in files && files[at.pack].doc.PackDoc? && a.Keys == {at.pack} && a[at.pack].doc.PackDoc?
      ensures var p, p' := files[at.pack].doc.pack, a[at.pack].doc.pack;
        p'.rest == p.rest && SamePaths(p.artifacts, p'.artifacts) && (version.None? ==> p'.version == p.version)
    {}

    lemma FixtureKeeps(files: Files, b: Files)
      requires Fixture(files) == Ok(b)
      ensures at.manifest in files && files[at.manifest].doc.ManifestDoc?
      ensures b.Keys == {at.receipt, at.manifest} && b[at.manifest].doc.ManifestDoc?
      ensures var m, m' := files[at.manifest].doc.manifest, b[at.manifest].doc.manifest;
        && m'.rest == m.rest && m'.sbom.path == m.sbom.path && m'.provenance.path == m.provenance.path
        && m'.vulnerability.path == m.vulnerability.path && m'.signature.path == m.signature.path
    {
      var m := files[at.manifest].doc.manifest;
      assert Evidence(m)[0] == m.sbom && Evidence(m)[1] == m.provenance && Evidence(m)[2] == m.vulnerability;
    }

    lemma EvidenceKeeps(files: Files, c: Files)
      requires EvidenceStep(files) == Ok(c)
      ensures at.evidence in files && files[at.evidence].doc.ContractDoc?
      ensures c.Keys == {at.evidence} && c[at.evidence].doc.ContractDoc?
      ensures SameButDigests(files[at.evidence].doc.contract, c[at.evidence].doc.contract)
    {
      RepinKeeps(files, files[at.evidence].doc.contract);
    }

    lemma PolicyKeeps(files: Files, d: Files)
      requires HistoryPolicy(files) == Ok(d)
      ensures at.policy in files && files[at.policy].doc.PolicyDoc? && d.Keys == {at.policy}
      ensures d[at.policy].doc.PolicyDoc?
      ensures var p, p' := files[at.policy].doc.policy, d[at.policy].doc.policy;
        p' == p.(sources := p'.sources) && SamePaths(p.sources, p'.sources)
    {}

    lemma BaselineKeeps(files: Files, e: Files)
      requires Baseline(files) == Ok(e)
      ensures at.policy in files && files[at.policy].doc.PolicyDoc?
      ensures var p := files[at.policy].doc.policy;
        && e.Keys == {at.policy, p.report} && e[at.policy].doc.PolicyDoc? && InScope(p.report, "security/")
        && e[at.policy].doc.policy == p.(reportSha := e[at.policy].doc.policy.reportSha)
        && p.report in files && files[p.report].doc.ReportDoc? && e[p.report].doc.ReportDoc?
        && e[p.report].doc.report
           == files[p.report].doc.report.(policySha := e[p.report].doc.report.policySha)
    {}

    lemma FirstKept(files: Files, version: Option<string>, o: Outputs)
      requires Lawful() && FirstRun(files, version, o.pack, o.fixture, o.evidence)
      ensures KeptFirst(files, o.First(files), version.None?)
    {
      PackKeeps(files, version, o.pack);
      FixtureKeeps(files + o.pack, o.fixture);
      EvidenceKeeps(files + o.pack + o.fixture, o.evidence);
      FirstLookups(files, o);
    }

    lemma SecondKept(files: Files, o: Outputs)
      requires Lawful() && SecondRun(files, o.policy, o.baseline)
      ensures at.policy in files && files[at.policy].doc.PolicyDoc?
      ensures InScope(files[at.policy].doc.policy.report, "security/")
      ensures KeptSecond(files, files + o.policy + o.baseline, files[at.policy].doc.policy.report)
    {
      PolicyKeeps(files, o.policy);
      BaselineKeeps(files + o.policy, o.baseline);
      SecondLookups(files, o, files[at.policy].doc.policy.report);
    }

    /** A run changes digests only, and a contract pack's version if another is asked for: no other field of a document
        and no other file. */
    lemma RunKeeps(files: Files, version: Option<string>, o: Outputs)
      requires Lawful() && Run(files, version, o)
      ensures at.policy in files && files[at.policy].doc.PolicyDoc?
      ensures Kept(files, o.Second(files), files[at.policy].doc.policy.report, version.None?)
    {
      FirstKept(files, version, o);
      SecondKept(o.First(files), o);
      KeptTogether(files, o.First(files), o.Second(files), version.None?);
    }

    lemma KeptTogether(files: Files, middle: Files, after: Files, sameVersion: bool)
      requires at.Distinct() && KeptFirst(files, middle, sameVersion)
      requires at.policy in middle && middle[at.policy].doc.PolicyDoc?
      requires var report := middle[at.policy].doc.policy.report;
        InScope(report, "security/") && KeptSecond(middle, after, report)
      ensures at.policy in files && files[at.policy].doc.PolicyDoc?
      ensures Kept(files, after, files[at.policy].doc.policy.report, sameVersion)
    {}

    lemma FirstLookups(files: Files, o: Outputs)
      requires at.Distinct() && o.pack.Keys == {at.pack} && o.fixture.Keys == {at.receipt, at.manifest}
      requires o.evidence.Keys == {at.evidence}
      ensures at.manifest in files + o.pack ==>
        at.manifest in files && (files + o.pack)[at.manifest] == files[at.manifest]
      ensures at.evidence in files + o.pack + o.fixture ==>
        at.evidence in files && (files + o.pack + o.fixture)[at.evidence] == files[at.evidence]
      ensures forall q :: q !in {at.pack, at.receipt, at.manifest, at.evidence} ==>
        (q in files <==> q in o.First(files)) && (q in files ==> o.First(files)[q] == files[q])
      ensures at.pack in o.First(files) && o.First(files)[at.pack] == o.pack[at.pack]
      ensures at.manifest in o.First(files) && o.First(files)[at.manifest] == o.fixture[at.manifest]
      ensures at.evidence in o.First(files) && o.First(files)[at.evidence] == o.evidence[at.evidence]
    {}

    lemma SecondLookups(files: Files, o: Outputs, report: Path)
      requires at.Distinct() && o.policy.Keys == {at.policy} && o.baseline.Keys == {at.policy, report}
      ensures (files + o.policy)[at.policy] == o.policy[at.policy]
      ensures report != at.policy && report in files + o.policy ==>
        report in files && (files + o.policy)[report] == files[report]
      ensures var after := files + o.policy + o.baseline;
        && at.policy in after && report in after
        && after[at.policy] == o.baseline[at.policy] && after[report] == o.baseline[report]
        && forall q :: q !in {at.policy, report} ==>
          (q in files <==> q in after) && (q in files ==> after[q] == files[q])
    {}

    /** All but digests is the same, in all documents and all other files. */
    ghost predicate Kept(files: Files, after: Files, report: Path, sameVersion: bool) {
      && (forall q :: q !in Derived(report) ==> (q in files <==> q in after) && (q in files ==> after[q] == files[q]))
      && KeptDocuments(files, after, sameVersion) && KeptBaseline(files, after, report)
    }

    ghost predicate KeptFirst(files: Files, after: Files, sameVersion: bool) {
      && (forall q :: q !in {at.pack, at.receipt, at.manifest, at.evidence} ==>
            (q in files <==> q in after) && (q in files ==> after[q] == files[q]))
      && KeptDocuments(files, after, sameVersion)
    }

    ghost predicate KeptSecond(files: Files, after: Files, report: Path) {
      && (forall q :: q !in {at.policy, report} ==>
        (q in files <==> q in after) && (q in files ==> after[q] == files[q]))
      && KeptBaseline(files, after, report)
    }

    ghost predicate KeptDocuments(files: Files, after: Files, sameVersion: bool) {
      && {at.pack, at.manifest, at.evidence} <= files.Keys && {at.pack, at.manifest, at.evidence} <= after.Keys
      && files[at.pack].doc.PackDoc? && files[at.manifest].doc.ManifestDoc? && files[at.evidence].doc.ContractDoc?
      && after[at.pack].doc.PackDoc? && after[at.manifest].doc.ManifestDoc? && after[at.evidence].doc.ContractDoc?
      && KeptPack(files[at.pack].doc.pack, after[at.pack].doc.pack, sameVersion)
      && KeptManifest(files[at.manifest].doc.manifest, after[at.manifest].doc.manifest)
      && SameButDigests(files[at.evidence].doc.contract, after[at.evidence].doc.contract)
    }

    ghost predicate KeptBaseline(files: Files, after: Files, report: Path) {
      && {at.policy, report} <= files.Keys && {at.policy, report} <= after.Keys
      && files[at.policy].doc.PolicyDoc? && files[report].doc.ReportDoc?
      && after[at.policy].doc.PolicyDoc? && after[report].doc.ReportDoc?
      && KeptPolicy(files[at.policy].doc.policy, after[at.policy].doc.policy)
      && after[report].doc.report == files[report].doc.report.(policySha := after[report].doc.report.policySha)
    }

    ghost predicate KeptPolicy(p: Policy, p': Policy) {
      && p'.rest == p.rest && p'.sourcePath == p.sourcePath && p'.commit == p.commit && p'.report == p.report
      && SamePaths(p.sources, p'.sources)
    }

    ghost predicate KeptPack(p: Pack, p': Pack, sameVersion: bool) {
      p'.rest == p.rest && SamePaths(p.artifacts, p'.artifacts) && (sameVersion ==> p'.version == p.version)
    }

    ghost predicate KeptManifest(m: Manifest, m': Manifest) {
      && m'.rest == m.rest && m'.sbom.path == m.sbom.path && m'.provenance.path == m.provenance.path
      && m'.vulnerability.path == m.vulnerability.path && m'.signature.path == m.signature.path
    }

    lemma SecondKeeps(files: Files, version: Option<string>, d: Files, e: Files, report: Path)
      requires Lawful() && FirstPinned(files, version) && InScope(report, "security/") && artifacts !! Derived(report)
      requires d.Keys == {at.policy} && e.Keys == {at.policy, report} && Unnamed(files, {at.policy, report})
      requires forall p :: p in {at.policy, report} ==> !Names(files[at.evidence].doc.contract, p)
      ensures FirstPinned(files + d + e, version)
    {
      UnionAssociates(files, d, e);
      FirstChainKept(files, version, d + e, report);
    }

    function Derived(report: Path): set<Path> {
      {at.pack, at.receipt, at.manifest, at.evidence, at.policy, report}
    }

    /** The evidence contract still names none of the later outputs. */
    lemma ContractNames(files: Files, o: Outputs, later: set<Path>)
      requires at.evidence in files && files[at.evidence].doc.ContractDoc?
      requires EvidenceStep(files + o.pack + o.fixture) == Ok(o.evidence)
      requires at.evidence !in o.pack && at.evidence !in o.fixture
      requires forall q :: q in later ==> !Names(files[at.evidence].doc.contract, q)
      ensures forall p :: p in later ==> !Names(o.First(files)[at.evidence].doc.contract, p)
    {
      var f2 := files + o.pack + o.fixture;
      var v := f2[at.evidence].doc.contract;
      assert f2[at.evidence] == files[at.evidence];
      assert o.First(files) == f2 + o.evidence;
      assert (f2 + o.evidence)[at.evidence].doc.contract == Repin(f2, v);
      forall p | p in later
        ensures !Names(Repin(f2, v), p)
      {
        NamesRepinned(f2, v, p);
      }
    }

    lemma Absorbed(files: Files, o: Files)
      requires forall p :: p in o ==> p in files && files[p] == o[p]
      ensures files + o == files
    {}

    /** Where everything that is pinned agrees, deriving again changes nothing. */
    lemma PinsFixed(files: Files, version: Option<string>) returns (o: Outputs)
      requires AllPinned(files, version)
      ensures Run(files, version, o) && o.All().Keys == Derived(PolicyIn(files).value.report)
      ensures o.Second(files) == files
    {
      PackFixed(files, version);
      FixtureFixed(files);
      EvidenceFixed(files);
      PolicyFixed(files);
      BaselineFixed(files);
      o := Outputs(ContractPack(files, version).value, Fixture(files).value, EvidenceStep(files).value,
        HistoryPolicy(files).value, Baseline(files).value);
      AllAbsorbed(files, o);
      AllKeys(o, PolicyIn(files).value.report);
    }

    lemma AllAbsorbed(files: Files, o: Outputs)
      requires Fixed(Ok(o.pack), files) && Fixed(Ok(o.fixture), files) && Fixed(Ok(o.evidence), files)
      requires Fixed(Ok(o.policy), files) && Fixed(Ok(o.baseline), files)
      ensures files + o.pack == files && files + o.pack + o.fixture == files && o.First(files) == files
      ensures o.First(files) + o.policy == files && o.Second(files) == files
    {
      Absorbed(files, o.pack);
      Absorbed(files, o.fixture);
      Absorbed(files, o.evidence);
      Absorbed(files, o.policy);
      Absorbed(files, o.baseline);
    }

    lemma AllKeys(o: Outputs, report: Path)
      requires o.pack.Keys == {at.pack} && o.fixture.Keys == {at.receipt, at.manifest}
      requires o.evidence.Keys == {at.evidence}
      requires o.policy.Keys == {at.policy} && o.baseline.Keys == {at.policy, report}
      ensures o.All().Keys == Derived(report)
    {}

    /** Re-pinning reaches its fixed point in one run: deriving again after writing stages identical bytes. */
    lemma OneRun(files: Files, version: Option<string>, o: Outputs) returns (again: Outputs)
      requires Lawful() && Separated(files) && Run(files, version, o)
      ensures Run(files + o.All(), version, again) && again.All() == o.All()
    {
      RunPins(files, version, o);
      o.Written(files);
      var after := files + o.All();
      again := PinsFixed(after, version);
      again.Written(after);
      SameFiles(files, o.All(), again.All());
    }

    lemma SameFiles(files: Files, a: Files, b: Files)
      requires a.Keys == b.Keys && files + a + b == files + a
      ensures a == b
    {
      forall p | p in a
        ensures a[p] == b[p]
      {
        assert (files + a + b)[p] == b[p] && (files + a)[p] == a[p];
      }
    }

    // ---- the acceptance side ----

    /** The digest checks of the history-policy gate on its baseline. */
    ghost predicate BaselineAccepted(files: Files) {
      && PolicyIn(files).Ok?
      && var p := PolicyIn(files).value;
      && Agree(files, p.sources)
      && p.report in files && sha(files[p.report]) == p.reportSha && files[p.report].doc.ReportDoc?
      && var r := files[p.report].doc.report;
      && files[p.report] == File(ReportDoc(r), Canonical) && r.commit == p.commit
      && r.policySha == sha(Fingerprinted(p))
      && reportCore(r.rest)
    }

    /** The report passes the checks on its content, and is not a scanner source or keeps its digest. */
    predicate Acceptable(p: Policy, files: Files, o: Files)
      requires p.report in files && p.report in o && files[p.report].doc.ReportDoc?
    {
      && reportCore(files[p.report].doc.report.rest)
      && (p.report !in Paths(p.sources) || sha(o[p.report]) == sha(files[p.report]))
    }

    /** Re-attesting the baseline satisfies the gate if and only if the report passes the checks on its content, and
        is not a scanner source or keeps its digest: its new bytes make the policy's digest of a source stale. */
    lemma BaselineExact(files: Files, o: Files)
      requires Lawful() && Baseline(files) == Ok(o)
      ensures var p := PolicyIn(files).value;
        && p.report in files && files[p.report].doc.ReportDoc? && p.report in o
        && (BaselineAccepted(files + o) <==> Acceptable(p, files, o))
    {
      var p := PolicyIn(files).value;
      BaselineBinds(files, o);
      if p.report in Paths(p.sources) && sha(o[p.report]) != sha(files[p.report]) {
        ListedReportRejected(files, o);
      } else {
        SourcesStay(files, o);
      }
    }

    /** Sources first: a report that is listed and changes is a stale source afterwards. */
    lemma ListedReportRejected(files: Files, o: Files)
      requires Baseline(files) == Ok(o)
      requires var p := PolicyIn(files).value;
        p.report in Paths(p.sources) && p.report in o && sha(o[p.report]) != sha(files[p.report])
      ensures !BaselineAccepted(files + o)
    {
      var p := PolicyIn(files).value;
      var k :| 0 <= k < |p.sources| && p.sources[k].path == p.report;
      assert p.sources[k].sha == sha(files[p.report]);
      assert (files + o)[at.policy].doc.policy.sources == p.sources;
    }

    lemma SourcesStay(files: Files, o: Files)
      requires Baseline(files) == Ok(o)
      requires var p := PolicyIn(files).value;
        p.report in o && (p.report !in Paths(p.sources) || sha(o[p.report]) == sha(files[p.report]))
      ensures Agree(files + o, PolicyIn(files).value.sources)
    {
      var p := PolicyIn(files).value;
      forall k | 0 <= k < |p.sources|
        ensures p.sources[k].path in files && sha((files + o)[p.sources[k].path]) == p.sources[k].sha
      {
        assert p.sources[k].path in Paths(p.sources);
      }
    }

    /** What re-attesting leaves, whatever the sources are: the two digests between policy and report. */
    lemma BaselineBinds(files: Files, o: Files)
      requires Lawful() && Baseline(files) == Ok(o)
      ensures var p, after := PolicyIn(files).value, files + o;
        && p.report in files && p.report in o && files[p.report].doc.ReportDoc? && p.report != at.policy
        && PolicyIn(after).Ok?
        && var p', r := PolicyIn(after).value, files[p.report].doc.report.(policySha := Fingerprint(p));
        && p' == p.(reportSha := sha(o[p.report])) && o[p.report] == File(ReportDoc(r), Canonical)
        && after[p.report] == o[p.report] && r.commit == p'.commit && r.policySha == Fingerprint(p')
    {
      var p := PolicyIn(files).value;
      var p' := p.(reportSha := sha(o[p.report]));
      assert o[at.policy] == File(PolicyDoc(p'), Pretty);
      assert PolicyValid(p');
    }

    /** With a collision-free digest, one report is not accepted under two policies that differ in anything. */
    lemma FingerprintBinds(files: Files, other: Files)
      requires BaselineAccepted(files) && BaselineAccepted(other)
      requires forall f, g :: sha(f) == sha(g) ==> f == g
      requires files[PolicyIn(files).value.report] == other[PolicyIn(other).value.report]
      ensures PolicyIn(files) == PolicyIn(other)
    {
      var p, q := PolicyIn(files).value, PolicyIn(other).value;
      assert Fingerprinted(p) == Fingerprinted(q);
    }

    /** Both digest checks of the gate hold at once, since the fingerprint does not cover the report's digest. */
    lemma PinnedBaselineAccepted(files: Files)
      requires BaselinePinned(files)
      ensures BaselineAccepted(files) <==> reportCore(files[PolicyIn(files).value.report].doc.report.rest)
    {}
  }

  /** It happens: a report that is its own scanner source, with a fingerprint that is out of date. */
  lemma ListedReportExample() returns (w: World, files: Files, o: Files)
    ensures w.Lawful() && w.Baseline(files) == Ok(o) && !w.BaselineAccepted(files + o)
    ensures var report := w.PolicyIn(files).value.report;
      report in files && files[report].doc.ReportDoc? && w.reportCore(files[report].doc.report.rest)
  {
    LayoutDistinct();
    var path, report := "security/report", File(ReportDoc(Report("", "", "old")), Canonical);
    w := World(FirstDigest, _ => true, _ => [], [], (_, _, _) => true, _ => true, _ => None, LAYOUT, {});
    assert path[9] == 'r' && LAYOUT.policy[9] == 'h';
    var policy := Policy("", LAYOUT.policy, [Pin(path, "old")], "", path, "");
    files := map[LAYOUT.policy := File(PolicyDoc(policy), Pretty), path := report];
    assert w.PolicyIn(files) == Ok(policy);
    assert w.Fingerprint(policy) == "";
    o := w.Baseline(files).value;
    assert policy.sources[0].path == path && path in w.Paths(policy.sources);
    w.BaselineExact(files, o);
    assert |w.sha(o[path])| != |w.sha(report)|;
  }

  /** A digest that shows only the fingerprint in a report. */
  function FirstDigest(f: File): string {
    if f.doc.ReportDoc? then f.doc.report.policySha else ""
  }

  /** The checkout together with what this run has derived so far. */
  class Tree {
    const w: World
    const disk: Files
    var staged: Files

    constructor (w: World, disk: Files)
      ensures this.w == w && this.disk == disk && staged == map[]
    {
      this.w, this.disk, staged := w, disk, map[];
    }

    function View(): Files
      reads this
    {
      disk + staged
    }

    method DeriveContractPack(version: Option<string>) returns (failure: Option<Refusal>)
      modifies this
      ensures Did(old(staged), old(w.ContractPack(View(), version)), staged, failure)
    {
      var view := View();
      if w.at.pack !in view {
        return Some(Missing);
      }
      if !view[w.at.pack].doc.PackDoc? || !w.PackValid(view[w.at.pack].doc.pack) {
        return Some(Malformed);
      }
      var pack := view[w.at.pack].doc.pack;
      if w.Paths(pack.artifacts) != w.artifacts {
        return Some(ArtifactSet);
      }
      var pins := Repin(pack.artifacts);
      if pins.None? {
        return Some(Missing);
      }
      var versioned := w.Versioned(pack.(artifacts := pins.value), version);
      if versioned.None? {
        return Some(Malformed);
      }
      staged := staged + map[w.at.pack := File(PackDoc(versioned.value), Pretty)];
      return None;
    }

    /** Recompute each listed digest, one after the other. */
    method Repin(pins: seq<Pin>) returns (r: Option<seq<Pin>>)
      ensures r.Some? <==> w.Present(View(), pins)
      ensures r.Some? ==> r.value == w.Repinned(View(), pins)
    {
      var done: seq<Pin> := [];
      for k := 0 to |pins|
        invariant |done| == k
        invariant forall i :: 0 <= i < k ==>
          pins[i].path in View() && done[i] == Pin(pins[i].path, w.sha(View()[pins[i].path]))
      {
        if pins[k].path !in View() {
          return None;
        }
        done := done + [Pin(pins[k].path, w.sha(View()[pins[k].path]))];
      }
      return Some(done);
    }

    method DeriveDeliveryFixture() returns (failure: Option<Refusal>)
      modifies this
      ensures Did(old(staged), old(w.Fixture(View())), staged, failure)
    {
      var view := View();
      if w.at.trustRoot !in view || w.at.manifest !in view || w.at.pack !in view {
        return Some(Missing);
      }
      var trust, manifest, pack := view[w.at.trustRoot].doc, view[w.at.manifest].doc, view[w.at.pack].doc;
      if !trust.TrustDoc? || !manifest.ManifestDoc? || !pack.PackDoc? {
        return Some(Malformed);
      }
      var m := manifest.manifest;
      if trust.public != w.public {
        return Some(ForeignKey);
      }
      if m.signature.path != w.at.receipt {
        return Some(Malformed);
      }
      if !w.Present(view, w.Evidence(m)) || w.at.receipt !in view {
        return Some(Missing);
      }
      var receipt, signed := Sign(trust.keyId, w.Bound(view, m, pack.pack));
      staged := staged + map[w.at.receipt := receipt, w.at.manifest := signed];
      return None;
    }

    /** The receipt for a manifest, and the manifest bound to it. */
    method Sign(keyId: string, m: Manifest) returns (receipt: File, signed: File)
      ensures receipt == File(ReceiptDoc(w.ReceiptFor(keyId, m)), Canonical)
      ensures signed == File(ManifestDoc(m.(signature := Pin(w.at.receipt, w.sha(receipt)))), Canonical)
    {
      var payload := File(PayloadDoc(w.PayloadOf(m)), Canonical);
      receipt := File(ReceiptDoc(Receipt(keyId, w.sha(payload), w.sign(payload))), Canonical);
      signed := File(ManifestDoc(m.(signature := Pin(w.at.receipt, w.sha(receipt)))), Canonical);
    }

    method DeriveDeliveryEvidence() returns (failure: Option<Refusal>)
      modifies this
      ensures Did(old(staged), old(w.EvidenceStep(View())), staged, failure)
    {
      var view := View();
      if w.at.evidence !in view {
        return Some(Missing);
      }
      if !view[w.at.evidence].doc.ContractDoc? {
        return Some(Malformed);
      }
      var contract := view[w.at.evidence].doc.contract;
      if !w.CanPin(view, contract) {
        return Some(Missing);
      }
      if !w.HasReference(contract) {
        return Some(NoReference);
      }
      staged := staged + map[w.at.evidence := File(ContractDoc(w.Repin(view, contract)), Canonical)];
      return None;
    }

    method DeriveHistoryPolicy() returns (failure: Option<Refusal>)
      modifies this
      ensures Did(old(staged), old(w.HistoryPolicy(View())), staged, failure)
    {
      var policy := w.PolicyIn(View());
      if policy.Err? {
        return Some(policy.error);
      }
      var pins := Repin(policy.value.sources);
      if pins.None? {
        return Some(Missing);
      }
      staged := staged + map[w.at.policy := File(PolicyDoc(policy.value.(sources := pins.value)), Pretty)];
      return None;
    }

    method DeriveBaselineReattest() returns (failure: Option<Refusal>)
      modifies this
      ensures Did(old(staged), old(w.Baseline(View())), staged, failure)
    {
      var view := View();
      var policy := w.PolicyIn(view);
      if policy.Err? {
        return Some(policy.error);
      }
      var p := policy.value;
      if !w.Present(view, p.sources) {
        return Some(Missing);
      }
      if !w.Pinned(view, p.sources) {
        return Some(StaleSource);
      }
      if p.report !in view {
        return Some(Missing);
      }
      if !view[p.report].doc.ReportDoc? || view[p.report].doc.report.commit != p.commit {
        return Some(UnboundReport);
      }
      if !InScope(p.report, "security/") {
        return Some(OutOfScope);
      }
      var rendered := File(ReportDoc(view[p.report].doc.report.(policySha := w.Fingerprint(p))), Canonical);
      staged := staged + (map[p.report := rendered]
        + map[w.at.policy := File(PolicyDoc(p.(reportSha := w.sha(rendered))), Pretty)]);
      return None;
    }

    /** Pack, fixture and evidence contract; the first refusal ends the chain. */
    method FirstChain(version: Option<string>)
      returns (failure: Option<Refusal>, ghost a: Files, ghost b: Files, ghost c: Files)
      requires staged == map[]
      modifies this
      ensures failure.None? ==> w.FirstRun(disk, version, a, b, c) && staged == a + b + c
      ensures failure.Some? ==> w.NoRun(disk, version)
    {
      a, b, c := map[], map[], map[];
      assert View() == disk;
      ghost var r := w.ContractPack(disk, version);
      failure := DeriveContractPack(version);
      if failure.Some? {
        return;
      }
      a := r.value;
      assert staged == a && View() == disk + a;
      r := w.Fixture(disk + a);
      failure := DeriveDeliveryFixture();
      if failure.Some? {
        return;
      }
      b := r.value;
      UnionAssociates(disk, a, b);
      assert View() == disk + a + b;
      r := w.EvidenceStep(disk + a + b);
      failure := DeriveDeliveryEvidence();
      if failure.None? { c := r.value; }
    }

    /** The policy and its baseline report. */
    method SecondChain() returns (failure: Option<Refusal>, ghost d: Files, ghost e: Files)
      modifies this
      ensures failure.None? ==> old(w.SecondRun(View(), d, e)) && staged == old(staged) + d + e
      ensures failure.Some? ==> old(w.SecondRefusal(View()))
    {
      d, e := map[], map[];
      ghost var before := View();
      failure := DeriveHistoryPolicy();
      if failure.Some? {
        return;
      }
      d := w.HistoryPolicy(before).value;
      UnionAssociates(disk, old(staged), d);
      ghost var r := w.Baseline(before + d);
      failure := DeriveBaselineReattest();
      if failure.None? { e := r.value; }
    }

    /** Both chains in turn, the second even where the first is refused. Without refusals the run is the one specified,
        and a refusal means there is none. */
    method DeriveAll(version: Option<string>) returns (refusals: seq<Refusal>, ghost o: Outputs)
      requires staged == map[]
      modifies this
      ensures refusals == [] ==> w.Run(disk, version, o) && staged == o.All()
      ensures refusals != [] ==> w.NoRun(disk, version)
    {
      ghost var a, b, c, d, e;
      var first, second;
      first, a, b, c := FirstChain(version);
      ghost var view := View();
      second, d, e := SecondChain();
      o := Outputs(a, b, c, d, e);
      refusals := [];
      if first.Some? {
        refusals := [first.value];
      } else {
        o.FirstView(disk);
        w.Outcome(disk, version, o, view, second.None?);
      }
      if second.Some? {
        refusals := refusals + [second.value];
      }
    }

    /** Write the derived files, but only if no step was refused. */
    method Write(version: Option<string>) returns (after: Files, refusals: seq<Refusal>)
      requires staged == map[]
      modifies this
      ensures refusals != [] ==> after == disk
      ensures refusals == [] ==> exists o: Outputs :: w.Run(disk, version, o) && after == disk + o.All()
    {
      ghost var o;
      refusals, o := DeriveAll(version);
      after := if refusals == [] then disk + staged else disk;
    }
  }

  /** A step stages what it specifies, or nothing. */
  ghost predicate Did(before: Files, r: Result<Files, Refusal>, staged: Files, failure: Option<Refusal>) {
    match r
    case Ok(o) => failure.None? && staged == before + o
    case Err(e) => failure == Some(e) && staged == before
  }
}
