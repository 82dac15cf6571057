/** Record bundles and the compare-and-swap rule over them: every accepted record has a complete version chain. */
module VersionChains {
  import opened Common

  /** A field value, by its canonical text; only an object can be a scope. */
  datatype Field = Object(text: string) | Scalar(text: string)

  /** The members of a record that the rule reads. */
  datatype Record = Record(version: Option<int>, parent: Option<string>, fields: map<string, Field>)

  datatype Entry = Entry(kind: string, record: Record)

  /** The labels in reporting order, what they stand for, the record digest, and the fields that name a logical
      record, in the order in which they are tried. */
  datatype Graph = Graph(order: seq<string>, entries: map<string, Entry>, digest: Record -> string,
                         idFields: seq<string>) {

    ghost predicate Valid() {
      && (forall l :: l in order <==> l in entries)
      && forall i, j :: 0 <= i < j < |order| ==> order[i] != order[j]
    }
  }

  datatype Violation =
    | GenesisWithParent | NoParent | Unresolved | VersionGap | OtherType | OtherIdentity | OtherScope

  const ID_FIELDS := ["object_id", "promotion_id", "membership_id", "role_binding_id", "lease_id", "policy_id",
    "decision_id", "conflict_id", "invite_id", "checkpoint_id", "provenance_id", "receipt_id", "envelope_id",
    "member_id", "workspace_id", "organization_id"]

  function Get(r: Record, field: string): Option<Field> {
    if field in r.fields then Some(r.fields[field]) else None
  }

  /** The first of the names that the record has. */
  function FirstField(r: Record, names: seq<string>): Option<string> {
    if names == [] then None else if names[0] in r.fields then Some(names[0]) else FirstField(r, names[1..])
  }

  predicate SameIdentity(idFields: seq<string>, r: Record, p: Record) {
    var f := FirstField(r, idFields);
    f.Some? && Get(p, f.value) == Get(r, f.value)
  }

  predicate SameScope(r: Record, p: Record) {
    var s, t := Get(r, "scope"), Get(p, "scope");
    (s.None? && t.None?) || (s.Some? && s.value.Object? && t == s)
  }

  /** The labels whose record has the digest. */
  function WithDigest(g: Graph, labels: seq<string>, d: string): seq<string>
    requires forall l :: l in labels ==> l in g.entries
  {
    if labels == [] then []
    else (if g.digest(g.entries[labels[0]].record) == d then [labels[0]] else []) + WithDigest(g, labels[1..], d)
  }

  /** The one label with the digest, if it is the only one. */
  function Resolve(g: Graph, d: string): (r: Option<string>)
    requires g.Valid()
    ensures r.Some? ==> r.value in g.entries && g.digest(g.entries[r.value].record) == d
  {
    var labels := WithDigest(g, g.order, d);
    if |labels| == 1 then WithDigestElement(g, g.order, d, 0); Some(labels[0]) else None
  }

  lemma {:induction false} WithDigestElement(g: Graph, labels: seq<string>, d: string, k: nat)
    requires (forall l :: l in labels ==> l in g.entries) && k < |WithDigest(g, labels, d)|
    ensures WithDigest(g, labels, d)[k] in labels && g.digest(g.entries[WithDigest(g, labels, d)[k]].record) == d
  {
    var first := g.digest(g.entries[labels[0]].record) == d;
    if !first || k > 0 {
      WithDigestElement(g, labels[1..], d, if first then k - 1 else k);
    }
  }

  function Verdict(g: Graph, name: string): Option<Violation>
    requires g.Valid() && name in g.entries
  {
    var r := g.entries[name].record;
    if r.version.None? then None
    else if r.version.value == 1 then (if r.parent.Some? then Some(GenesisWithParent) else None)
    else if r.parent.None? then Some(NoParent)
    else match Resolve(g, r.parent.value)
      case None => Some(Unresolved)
      case Some(p) =>
        var pred := g.entries[p];
        if pred.record.version != Some(r.version.value - 1) then Some(VersionGap)
        else if pred.kind != g.entries[name].kind then Some(OtherType)
        else if !SameIdentity(g.idFields, r, pred.record) then Some(OtherIdentity)
        else if !SameScope(r, pred.record) then Some(OtherScope)
        else None
  }

  function Reports(g: Graph, labels: seq<string>): (r: seq<(string, Violation)>)
    requires g.Valid() && forall l :: l in labels ==> l in g.entries
    ensures r == [] <==> forall l :: l in labels ==> Verdict(g, l).None?
  {
    if labels == [] then []
    else
      assert forall l :: l in labels <==> l == labels[0] || l in labels[1..];
      match Verdict(g, labels[0])
      case None => Reports(g, labels[1..])
      case Some(v) => [(labels[0], v)] + Reports(g, labels[1..])
  }

  // ---- the bundle ----

  class Bundle {
    const g: Graph
    var byDigest: map<string, seq<string>>

    ghost predicate Valid()
      reads this
    {
      g.Valid() && forall d :: Labels(d) == WithDigest(g, g.order, d)
    }

    function Labels(d: string): seq<string>
      reads this
    {
      if d in byDigest then byDigest[d] else []
    }

    /** Index every record by its digest. */
    constructor (g: Graph)
      requires g.Valid()
      ensures Valid() && this.g == g
    {
      this.g := g;
      byDigest := map[];
      new;
      assert g.order[..0] == [];
      for k := 0 to |g.order|
        invariant this.g == g && forall d :: Labels(d) == WithDigest(g, g.order[..k], d)
      {
        var name := g.order[k];
        var d := g.digest(g.entries[name].record);
        ghost var before := byDigest;
        byDigest := byDigest[d := Labels(d) + [name]];
        forall e
          ensures Labels(e) == WithDigest(g, g.order[..k + 1], e)
        {
          WithDigestNext(g, k, e);
          assert (if e in before then before[e] else []) == WithDigest(g, g.order[..k], e);
        }
      }
      assert g.order[..|g.order|] == g.order;
    }

    function ResolveLabel(d: string): (r: Option<string>)
      requires Valid()
      reads this
      ensures r == Resolve(g, d)
    {
      var labels := Labels(d);
      if |labels| == 1 then Some(labels[0]) else None
    }

    /** The rule, over every record in turn. */
    method Rule11() returns (messages: seq<(string, Violation)>)
      requires Valid()
      ensures messages == Reports(g, g.order)
    {
      messages := [];
      assert g.order[0..] == g.order;
      for k := 0 to |g.order|
        invariant Reported(messages, k)
      {
        messages := ReportOne(messages, k);
      }
    }

    /** What is reported so far and what the remaining records will add is all there is to report. */
    ghost predicate Reported(messages: seq<(string, Violation)>, k: nat)
      requires g.Valid() && k <= |g.order|
    {
      messages + Reports(g, g.order[k..]) == Reports(g, g.order)
    }

    method ReportOne(messages: seq<(string, Violation)>, k: nat) returns (more: seq<(string, Violation)>)
      requires Valid() && k < |g.order| && Reported(messages, k)
      ensures Reported(more, k + 1)
    {
      var name := g.order[k];
      var violation := CheckRecord(name);
      ReportsNext(g, k, messages, violation);
      more := if violation.Some? then messages + [(name, violation.value)] else messages;
    }

    method CheckRecord(name: string) returns (violation: Option<Violation>)
      requires Valid() && name in g.entries
      ensures violation == Verdict(g, name)
    {
      var r := g.entries[name].record;
      if r.version.None? {
        return None;
      }
      if r.version.value == 1 {
        return if r.parent.Some? then Some(GenesisWithParent) else None;
      }
      if r.parent.None? {
        return Some(NoParent);
      }
      var p := ResolveLabel(r.parent.value);
      if p.None? {
        return Some(Unresolved);
      }
      var pred := g.entries[p.value];
      if pred.record.version != Some(r.version.value - 1) {
        return Some(VersionGap);
      }
      if pred.kind != g.entries[name].kind {
        return Some(OtherType);
      }
      if !SameIdentity(g.idFields, r, pred.record) {
        return Some(OtherIdentity);
      }
      if !SameScope(r, pred.record) {
        return Some(OtherScope);
      }
      return None;
    }
  }

  lemma ReportsNext(g: Graph, k: nat, messages: seq<(string, Violation)>, violation: Option<Violation>)
    requires g.Valid() && k < |g.order| && violation == Verdict(g, g.order[k])
    ensures messages + Reports(g, g.order[k..])
         == (if violation.Some? then messages + [(g.order[k], violation.value)] else messages)
           + Reports(g, g.order[k + 1..])
  {
    var labels := g.order[k..];
    assert labels[1..] == g.order[k + 1..] && labels[0] == g.order[k];
    var rest := Reports(g, labels[1..]);
    assert Reports(g, labels) == if violation.Some? then [(labels[0], violation.value)] + rest else rest;
    if violation.Some? {
      var message := (labels[0], violation.value);
      assert messages + ([message] + rest) == messages + [message] + rest;
    }
  }

  lemma {:induction false} WithDigestConcat(g: Graph, a: seq<string>, b: seq<string>, d: string)
    requires (forall l :: l in a ==> l in g.entries) && forall l :: l in b ==> l in g.entries
    ensures forall l :: l in a + b ==> l in g.entries
    ensures WithDigest(g, a + b, d) == WithDigest(g, a, d) + WithDigest(g, b, d)
  {
    if a == [] {
      assert a + b == b;
    } else {
      WithDigestConcat(g, a[1..], b, d);
      assert (a + b)[1..] == a[1..] + b && (a + b)[0] == a[0];
      var head := if g.digest(g.entries[a[0]].record) == d then [a[0]] else [];
      ConcatAssociates(head, WithDigest(g, a[1..], d), WithDigest(g, b, d));
    }
  }

  lemma WithDigestNext(g: Graph, k: nat, d: string)
    requires g.Valid() && k < |g.order|
    ensures WithDigest(g, g.order[..k + 1], d)
         == WithDigest(g, g.order[..k], d) + (if g.digest(g.entries[g.order[k]].record) == d then [g.order[k]] else [])
  {
    var name := g.order[k];
    assert g.order[..k + 1] == g.order[..k] + [name];
    WithDigestConcat(g, g.order[..k], [name], d);
    assert WithDigest(g, [name][1..], d) == [];
  }

  // ---- version chains ----

  /** Each label's record names the next one's record as its parent, one version down, of one type and scope. */
  ghost predicate Descends(g: Graph, chain: seq<string>)
    requires g.Valid()
  {
    && (forall i :: 0 <= i < |chain| ==> chain[i] in g.entries)
    && forall i :: 0 < i < |chain| ==> Step(g, chain[i - 1], chain[i])
  }

  ghost predicate Step(g: Graph, name: string, parent: string)
    requires g.Valid()
  {
    && name in g.entries && parent in g.entries
    && var e, p := g.entries[name], g.entries[parent];
    && e.record.parent.Some? && OnlyWith(g, e.record.parent.value, parent)
    && e.record.version.Some? && p.record.version == Some(e.record.version.value - 1)
    && e.kind == p.kind && ScopesAgree(e.record, p.record) && NamesAgree(g.idFields, e.record, p.record)
  }

  /** The digest is that of this record and of no other in the bundle. */
  ghost predicate OnlyWith(g: Graph, d: string, name: string) {
    && name in g.entries && g.digest(g.entries[name].record) == d
    && forall l :: l in g.entries && g.digest(g.entries[l].record) == d ==> l == name
  }

  /** Neither has a scope, or both have the same one and it is an object. */
  ghost predicate ScopesAgree(r: Record, p: Record) {
    && ("scope" in r.fields <==> "scope" in p.fields)
    && ("scope" in r.fields ==> r.fields["scope"].Object? && r.fields["scope"] == p.fields["scope"])
  }

  /** The first identity field that the record carries has the same value in both. */
  ghost predicate NamesAgree(idFields: seq<string>, r: Record, p: Record) {
    exists k :: 0 <= k < |idFields| && FirstCarried(idFields, r, k)
      && idFields[k] in p.fields && p.fields[idFields[k]] == r.fields[idFields[k]]
  }

  ghost predicate FirstCarried(idFields: seq<string>, r: Record, k: nat)
    requires k < |idFields|
  {
    idFields[k] in r.fields && forall i :: 0 <= i < k ==> idFields[i] !in r.fields
  }

  lemma {:induction false} FirstFieldAt(r: Record, names: seq<string>, k: nat)
    requires k < |names| && FirstCarried(names, r, k)
    ensures FirstField(r, names) == Some(names[k])
  {
    if k > 0 { FirstFieldAt(r, names[1..], k - 1); }
  }

  lemma {:induction false} FirstFieldFound(r: Record, names: seq<string>) returns (k: nat)
    requires FirstField(r, names).Some?
    ensures k < |names| && FirstCarried(names, r, k) && FirstField(r, names) == Some(names[k])
  {
    if names[0] in r.fields {
      k := 0;
    } else {
      var i := FirstFieldFound(r, names[1..]);
      k := i + 1;
      forall j | 0 <= j < k
        ensures names[j] !in r.fields
      {
        if j > 0 { assert names[1..][j - 1] == names[j]; }
      }
    }
  }

  lemma NamesMean(idFields: seq<string>, r: Record, p: Record)
    ensures SameIdentity(idFields, r, p) <==> NamesAgree(idFields, r, p)
  {
    if SameIdentity(idFields, r, p) {
      var k := FirstFieldFound(r, idFields);
    }
    if k :| 0 <= k < |idFields| && FirstCarried(idFields, r, k) { FirstFieldAt(r, idFields, k); }
  }

  lemma ScopesMean(r: Record, p: Record)
    ensures SameScope(r, p) <==> ScopesAgree(r, p)
  {}

  /** A digest resolves to a label exactly if the label is the only one with it. */
  lemma ResolveMeans(g: Graph, d: string, name: string)
    requires g.Valid()
    ensures Resolve(g, d) == Some(name) <==> OnlyWith(g, d, name)
  {
    if OnlyWith(g, d, name) { WithDigestOnly(g, g.order, name); }
    if Resolve(g, d) == Some(name) {
      forall l | l in g.entries && g.digest(g.entries[l].record) == d
        ensures l == name
      {
        WithDigestHas(g, g.order, d, l);
      }
    }
  }

  lemma {:induction false} WithDigestHas(g: Graph, labels: seq<string>, d: string, name: string)
    requires (forall l :: l in labels ==> l in g.entries) && name in labels && g.digest(g.entries[name].record) == d
    ensures name in WithDigest(g, labels, d)
  {
    if labels[0] != name { WithDigestHas(g, labels[1..], d, name); }
  }

  /** A record is accepted with a parent exactly if it is a step down to it. */
  lemma StepMeans(g: Graph, name: string, parent: string)
    requires g.Valid() && name in g.entries
    ensures Step(g, name, parent) && g.entries[name].record.version != Some(1)
      <==> (var r := g.entries[name].record;
            && r.version.Some? && r.version != Some(1) && r.parent.Some? && Resolve(g, r.parent.value) == Some(parent)
            && Verdict(g, name).None?)
  {
    var e := g.entries[name];
    if e.record.parent.Some? { ResolveMeans(g, e.record.parent.value, parent); }
    if parent in g.entries {
      NamesMean(g.idFields, e.record, g.entries[parent].record);
      ScopesMean(e.record, g.entries[parent].record);
    }
  }

  /** A chain from the label down to a first version without parent, one record for each version. */
  ghost predicate CompleteChain(g: Graph, name: string, chain: seq<string>)
    requires g.Valid()
  {
    && chain != [] && chain[0] == name && Descends(g, chain)
    && g.entries[name].record.version == Some(|chain|)
    && var genesis := g.entries[chain[|chain| - 1]].record;
    && genesis.version == Some(1) && genesis.parent.None?
  }

  ghost predicate Visit(name: string) { true }

  /** Every record with a version has a parent step, or is a parentless first version. */
  ghost predicate Founded(g: Graph)
    requires g.Valid()
  {
    forall name {:trigger Visit(name)} :: name in g.entries && g.entries[name].record.version.Some? ==>
      if g.entries[name].record.version == Some(1) then g.entries[name].record.parent.None?
        else exists p :: Step(g, name, p)
  }

  /** The rule reports nothing only if the records are founded. */
  lemma ReportsFounded(g: Graph)
    requires g.Valid() && Reports(g, g.order) == []
    ensures Founded(g)
  {
    forall name | name in g.entries && g.entries[name].record.version.Some? && g.entries[name].record.version != Some(1)
      ensures exists p :: Step(g, name, p)
    {
      assert name in g.order && Verdict(g, name).None?;
      VerdictStep(g, name);
    }
    forall name | name in g.entries && g.entries[name].record.version == Some(1)
      ensures g.entries[name].record.parent.None?
    {
      assert name in g.order && Verdict(g, name).None?;
    }
  }

  lemma VerdictStep(g: Graph, name: string)
    requires g.Valid() && name in g.entries && Verdict(g, name).None?
    requires g.entries[name].record.version.Some? && g.entries[name].record.version != Some(1)
    ensures g.entries[name].record.parent.Some? && Resolve(g, g.entries[name].record.parent.value).Some?
    ensures Step(g, name, Resolve(g, g.entries[name].record.parent.value).value)
  {
    StepMeans(g, name, Resolve(g, g.entries[name].record.parent.value).value);
  }

  lemma ParentStep(g: Graph, name: string) returns (p: string)
    requires g.Valid() && Founded(g) && name in g.entries && g.entries[name].record.version.Some?
    requires g.entries[name].record.version != Some(1)
    ensures Step(g, name, p)
  {
    assert Visit(name);
    p :| Step(g, name, p);
  }

  lemma {:induction false} Descent(g: Graph, name: string, n: nat) returns (chain: seq<string>)
    requires g.Valid() && Founded(g) && name in g.entries && g.entries[name].record.version.Some?
    requires var v := g.entries[name].record.version.value; v < 1 || n < v
    ensures |chain| == n + 1 && chain[0] == name && Descends(g, chain)
    ensures Numbered(g, chain, g.entries[name].record.version.value)
  {
    var v := g.entries[name].record.version.value;
    if n == 0 {
      chain := [name];
    } else {
      var before := Descent(g, name, n - 1);
      assert g.entries[before[n - 1]].record.version == Some(v - (n - 1));
      var p := ParentStep(g, before[n - 1]);
      DescendsMore(g, before, p, v);
      chain := before + [p];
    }
  }

  lemma DescendsMore(g: Graph, chain: seq<string>, p: string, v: int)
    requires g.Valid() && chain != [] && Descends(g, chain) && Numbered(g, chain, v) && Step(g, chain[|chain| - 1], p)
    ensures Descends(g, chain + [p]) && Numbered(g, chain + [p], v)
  {
    var more := chain + [p];
    forall i | 0 < i < |more|
      ensures Step(g, more[i - 1], more[i])
    {
      if i < |chain| { assert Step(g, chain[i - 1], chain[i]); }
    }
  }

  /** The versions along the chain count down from v. */
  ghost predicate Numbered(g: Graph, chain: seq<string>, v: int)
    requires g.Valid() && Descends(g, chain)
  {
    forall i :: 0 <= i < |chain| ==> g.entries[chain[i]].record.version == Some(v - i)
  }

  /** A list without repetition is no longer than the list of all labels. */
  lemma DistinctBound(g: Graph, chain: seq<string>)
    requires g.Valid() && (forall i :: 0 <= i < |chain| ==> chain[i] in g.entries)
    requires forall i, j :: 0 <= i < j < |chain| ==> chain[i] != chain[j]
    ensures |chain| <= |g.entries|
  {
    var s := set l | l in chain;
    DistinctCount(chain, s);
    assert s <= g.entries.Keys;
    SubsetCount(s, g.entries.Keys);
  }

  lemma {:induction false} DistinctCount(chain: seq<string>, s: set<string>)
    requires (forall i, j :: 0 <= i < j < |chain| ==> chain[i] != chain[j]) && s == set l | l in chain
    ensures |s| == |chain|
  {
    if chain != [] {
      var rest := chain[1..];
      assert s - {chain[0]} == set l | l in rest by {
        assert forall l :: l in chain <==> l == chain[0] || l in rest;
      }
      DistinctCount(rest, s - {chain[0]});
    }
  }

  lemma {:induction false} SubsetCount(a: set<string>, b: set<string>)
    requires a <= b
    ensures |a| <= |b|
  {
    if a != {} {
      var x :| x in a;
      SubsetCount(a - {x}, b - {x});
    }
  }

  /** If the rule reports nothing, every record with a version has a complete chain:
      its version is at least one, no chain is longer than the bundle, and type and scope are those of the genesis. */
  lemma VersionChainsComplete(g: Graph, name: string) returns (chain: seq<string>)
    requires g.Valid() && Reports(g, g.order) == [] && name in g.entries && g.entries[name].record.version.Some?
    ensures CompleteChain(g, name, chain) && 1 <= |chain| <= |g.entries|
    ensures forall i :: 0 <= i < |chain| ==>
      && g.entries[chain[i]].kind == g.entries[name].kind
      && Get(g.entries[chain[i]].record, "scope") == Get(g.entries[name].record, "scope")
  {
    var v := g.entries[name].record.version.value;
    ReportsFounded(g);
    VersionPositive(g, name);
    chain := Descent(g, name, v - 1);
    DistinctVersions(g, chain, v);
    DistinctBound(g, chain);
    assert Visit(chain[v - 1]);
    SameThroughout(g, chain, v - 1);
  }

  /** Below version one the descent would never end, and the bundle is finite. */
  lemma VersionPositive(g: Graph, name: string)
    requires g.Valid() && Founded(g) && name in g.entries && g.entries[name].record.version.Some?
    ensures g.entries[name].record.version.value >= 1
  {
    var v := g.entries[name].record.version.value;
    if v < 1 {
      var chain := Descent(g, name, |g.entries|);
      DistinctVersions(g, chain, v);
      DistinctBound(g, chain);
    }
  }

  lemma DistinctVersions(g: Graph, chain: seq<string>, v: int)
    requires g.Valid() && Descends(g, chain) && Numbered(g, chain, v)
    ensures forall i, j :: 0 <= i < j < |chain| ==> chain[i] != chain[j]
  {}

  lemma {:induction false} SameThroughout(g: Graph, chain: seq<string>, n: nat)
    requires g.Valid() && Descends(g, chain) && n < |chain|
    ensures forall i :: 0 <= i <= n ==>
      && g.entries[chain[i]].kind == g.entries[chain[0]].kind
      && Get(g.entries[chain[i]].record, "scope") == Get(g.entries[chain[0]].record, "scope")
  {
    if n > 0 {
      SameThroughout(g, chain, n - 1);
      assert Step(g, chain[n - 1], chain[n]);
    }
  }

  /** The rule reports nothing if and only if every record with a version has a complete chain. */
  lemma QuietIffComplete(g: Graph)
    requires g.Valid()
    ensures Reports(g, g.order) == []
      <==> forall name :: name in g.entries && g.entries[name].record.version.Some? ==>
        exists chain :: CompleteChain(g, name, chain)
  {
    if Reports(g, g.order) == [] {
      forall name | name in g.entries && g.entries[name].record.version.Some?
        ensures exists chain :: CompleteChain(g, name, chain)
      {
        var chain := VersionChainsComplete(g, name);
      }
    }
    if forall name :: name in g.entries && g.entries[name].record.version.Some? ==>
      exists chain :: CompleteChain(g, name, chain) {
      forall name | name in g.order
        ensures Verdict(g, name).None?
      {
        if g.entries[name].record.version.Some? {
          var chain :| CompleteChain(g, name, chain);
          ChainPasses(g, name, chain);
        }
      }
    }
  }

  lemma ChainPasses(g: Graph, name: string, chain: seq<string>)
    requires g.Valid() && name in g.entries && CompleteChain(g, name, chain)
    ensures Verdict(g, name).None?
  {
    if |chain| > 1 {
      assert Step(g, chain[0], chain[1]);
      StepPasses(g, name, chain[1]);
    }
  }

  // ---- one logical identity along a chain ----

  /** What a record calls itself: the first identity field it carries, and the value. */
  function Identity(idFields: seq<string>, r: Record): Option<(string, Option<Field>)> {
    var f := FirstField(r, idFields);
    if f.None? then None else Some((f.value, Get(r, f.value)))
  }

  ghost predicate OneIdentity(g: Graph, chain: seq<string>)
    requires forall i :: 0 <= i < |chain| ==> chain[i] in g.entries
  {
    forall i :: 0 <= i < |chain| ==>
      Identity(g.idFields, g.entries[chain[i]].record) == Identity(g.idFields, g.entries[chain[0]].record)
  }

  /** Every record is named by the same field. */
  ghost predicate OneField(g: Graph, chain: seq<string>)
    requires forall i :: 0 <= i < |chain| ==> chain[i] in g.entries
  {
    forall i :: 0 <= i < |chain| ==>
      FirstField(g.entries[chain[i]].record, g.idFields) == FirstField(g.entries[chain[0]].record, g.idFields)
  }

  /** Step by step the rule compares one field only, so a chain keeps its identity exactly if it keeps that field. */
  lemma IdentityExact(g: Graph, chain: seq<string>)
    requires g.Valid() && Descends(g, chain)
    ensures OneIdentity(g, chain) <==> OneField(g, chain)
  {
    if OneField(g, chain) {
      forall i | 0 <= i < |chain|
        ensures Identity(g.idFields, g.entries[chain[i]].record) == Identity(g.idFields, g.entries[chain[0]].record)
      {
        IdentityKept(g, chain, i);
      }
    } else {
      var i :| 0 <= i < |chain|
        && FirstField(g.entries[chain[i]].record, g.idFields) != FirstField(g.entries[chain[0]].record, g.idFields);
      assert Identity(g.idFields, g.entries[chain[i]].record) != Identity(g.idFields, g.entries[chain[0]].record);
    }
  }

  lemma {:induction false} IdentityKept(g: Graph, chain: seq<string>, i: nat)
    requires g.Valid() && Descends(g, chain) && OneField(g, chain) && i < |chain|
    ensures Identity(g.idFields, g.entries[chain[i]].record) == Identity(g.idFields, g.entries[chain[0]].record)
  {
    if i > 0 {
      IdentityKept(g, chain, i - 1);
      assert Step(g, chain[i - 1], chain[i]);
      NamesMean(g.idFields, g.entries[chain[i - 1]].record, g.entries[chain[i]].record);
    }
  }

  /** Where one field names every versioned record of the type, a quiet rule does give each chain one identity. */
  lemma IdentityOfGenesis(g: Graph, name: string, field: string) returns (chain: seq<string>)
    requires g.Valid() && Reports(g, g.order) == [] && name in g.entries && g.entries[name].record.version.Some?
    requires forall l :: l in g.entries ==> g.entries[l].kind == g.entries[name].kind ==>
      g.entries[l].record.version.Some? ==> FirstField(g.entries[l].record, g.idFields) == Some(field)
    ensures CompleteChain(g, name, chain) && OneIdentity(g, chain)
  {
    chain := VersionChainsComplete(g, name);
    forall i | 0 <= i < |chain|
      ensures FirstField(g.entries[chain[i]].record, g.idFields) == Some(field)
    {
      ChainVersioned(g, name, chain, i);
    }
    IdentityExact(g, chain);
  }

  lemma ChainVersioned(g: Graph, name: string, chain: seq<string>, i: nat)
    requires g.Valid() && name in g.entries && CompleteChain(g, name, chain) && i < |chain|
    ensures g.entries[chain[i]].record.version.Some?
  {
    if i > 0 { assert Step(g, chain[i - 1], chain[i]); }
  }

  /** Three versions of a promotion; the last drops the object that the first two are about. */
  function Drifting(digest: Record -> string): (Record, Record, Record) {
    var first := Record(Some(1), None, map["object_id" := Scalar("x"), "promotion_id" := Scalar("1")]);
    var second := Record(Some(2), Some(digest(first)), map["object_id" := Scalar("x"), "promotion_id" := Scalar("2")]);
    (first, second, Record(Some(3), Some(digest(second)), map["promotion_id" := Scalar("2")]))
  }

  /** It need not keep it: the rule reports nothing on these three, though the first and the last disagree on the very
      field that names the last. */
  lemma IdentityDrifts(digest: Record -> string) returns (g: Graph)
    requires var (first, second, third) := Drifting(digest);
      digest(first) != digest(second) && digest(third) !in {digest(first), digest(second)}
    ensures g.Valid() && g.idFields == ID_FIELDS && g.digest == digest && g.order == ["a", "b", "c"]
    ensures Reports(g, g.order) == [] && CompleteChain(g, "c", ["c", "b", "a"])
    ensures var first, third := g.entries["a"].record, g.entries["c"].record;
      && Identity(g.idFields, third) == Some(("promotion_id", Some(Scalar("2"))))
      && Get(first, "promotion_id") == Some(Scalar("1"))
  {
    var (first, second, third) := Drifting(digest);
    var entries := map["a" := Entry("promotion", first), "b" := Entry("promotion", second)];
    g := Graph(["a", "b", "c"], entries["c" := Entry("promotion", third)], digest, ID_FIELDS);
    DriftsUnseen(digest);
    ThreePass(g, "a", "b", "c");
  }

  /** Three records, each the parent of the next, pass if each step does. */
  lemma ThreePass(g: Graph, a: string, b: string, c: string)
    requires g.Valid() && g.order == [a, b, c]
    requires var first, second := g.entries[a].record, g.entries[b].record;
      && g.digest(first) != g.digest(second) && g.digest(g.entries[c].record) !in {g.digest(first), g.digest(second)}
      && first.version == Some(1) && first.parent.None? && second.version == Some(2)
      && second.parent == Some(g.digest(first))
    requires var first, second, third := g.entries[a], g.entries[b], g.entries[c];
      && third.record.version == Some(3) && third.record.parent == Some(g.digest(second.record))
      && third.kind == second.kind == first.kind
      && SameIdentity(g.idFields, second.record, first.record) && SameIdentity(g.idFields, third.record, second.record)
      && SameScope(second.record, first.record) && SameScope(third.record, second.record)
    ensures Reports(g, g.order) == [] && CompleteChain(g, c, [c, b, a])
  {
    assert Verdict(g, a).None?;
    ThreeSteps(g, a, b);
    ThreeSteps(g, b, c);
    StepPasses(g, b, a);
    StepPasses(g, c, b);
  }

  lemma ThreeSteps(g: Graph, parent: string, name: string)
    requires g.Valid() && name in g.entries && parent in g.entries
    requires var e, p := g.entries[name], g.entries[parent];
      && e.record.parent == Some(g.digest(p.record)) && e.record.version.Some?
      && p.record.version == Some(e.record.version.value - 1) && e.kind == p.kind
      && SameIdentity(g.idFields, e.record, p.record) && SameScope(e.record, p.record)
      && forall l :: l in g.order && l != parent ==> g.digest(g.entries[l].record) != g.digest(p.record)
    ensures Step(g, name, parent)
  {
    var e, p := g.entries[name].record, g.entries[parent].record;
    NamesMean(g.idFields, e, p);
    ScopesMean(e, p);
    assert OnlyWith(g, g.digest(p), parent);
  }

  lemma StepPasses(g: Graph, name: string, parent: string)
    requires g.Valid() && Step(g, name, parent) && g.entries[name].record.version != Some(1)
    ensures Verdict(g, name).None?
  {
    StepMeans(g, name, parent);
  }

  lemma DriftsUnseen(digest: Record -> string)
    ensures var (first, second, third) := Drifting(digest);
      && SameIdentity(ID_FIELDS, second, first) && SameIdentity(ID_FIELDS, third, second)
      && SameScope(second, first) && SameScope(third, second)
      && FirstField(third, ID_FIELDS) == Some("promotion_id")
  {
    var (first, second, third) := Drifting(digest);
    assert "object_id"[0] == 'o' && "promotion_id"[0] == 'p' && "scope"[0] == 's';
    assert "object_id" !in third.fields;
    assert "scope" !in first.fields && "scope" !in second.fields && "scope" !in third.fields;
    assert ID_FIELDS[1..][0] == "promotion_id";
    FirstIs(second, ID_FIELDS);
    FirstIs(third, ID_FIELDS[1..]);
  }

  lemma FirstIs(r: Record, names: seq<string>)
    requires names != [] && names[0] in r.fields
    ensures FirstField(r, names) == Some(names[0])
  {}

  /** A digest that only one of the labels has is found there only. */
  lemma {:induction false} WithDigestOnly(g: Graph, labels: seq<string>, name: string)
    requires name in labels && forall i, j :: 0 <= i < j < |labels| ==> labels[i] != labels[j]
    requires forall l :: l in labels ==> l in g.entries
    requires forall l :: l in labels && l != name ==> g.digest(g.entries[l].record) != g.digest(g.entries[name].record)
    ensures WithDigest(g, labels, g.digest(g.entries[name].record)) == [name]
  {
    if labels[0] == name {
      WithDigestNone(g, labels[1..], g.digest(g.entries[name].record));
    } else {
      WithDigestOnly(g, labels[1..], name);
    }
  }

  lemma {:induction false} WithDigestNone(g: Graph, labels: seq<string>, d: string)
    requires forall l :: l in labels ==> l in g.entries && g.digest(g.entries[l].record) != d
    ensures WithDigest(g, labels, d) == []
  {
    if labels != [] { WithDigestNone(g, labels[1..], d); }
  }

  // ---- forks ----

  /** The bundle with one more record, reported at the given place. */
  function Added(g: Graph, at: nat, added: string, e: Entry): (more: Graph)
    requires g.Valid() && at <= |g.order| && added !in g.entries
    ensures more.Valid()
  {
    var order := g.order[..at] + [added] + g.order[at..];
    assert forall l :: l in order <==> l == added || l in g.order by {
      assert g.order == g.order[..at] + g.order[at..];
    }
    Graph(order, g.entries[added := e], g.digest, g.idFields)
  }

  /** The same type, version, parent, identity and scope. */
  predicate Rival(idFields: seq<string>, e: Entry, r: Entry) {
    && e.kind == r.kind && e.record.version == r.record.version && e.record.parent == r.record.parent
    && Identity(idFields, e.record) == Identity(idFields, r.record)
    && Get(e.record, "scope") == Get(r.record, "scope")
  }

  /** The rule does not exclude forks: next to any accepted record with a parent, a rival with a digest of its own
      passes too, whatever the bundle, and the two share the parent. */
  lemma ForkPasses(g: Graph, name: string, at: nat, added: string, e: Entry) returns (parent: string)
    requires g.Valid() && Reports(g, g.order) == [] && name in g.entries && added !in g.entries && at <= |g.order|
    requires g.entries[name].record.version.Some? && g.entries[name].record.version != Some(1)
    requires Rival(g.idFields, e, g.entries[name])
    requires forall l :: l in g.entries ==> g.digest(g.entries[l].record) != g.digest(e.record)
    ensures var more := Added(g, at, added, e);
      Reports(more, more.order) == [] && Step(more, name, parent) && Step(more, added, parent)
  {
    var more := Added(g, at, added, e);
    AddedResolves(g, at, added, e);
    assert Verdict(g, name).None?;
    parent := RivalPasses(g, more, name, added);
    forall l | l in more.order
      ensures Verdict(more, l).None?
    {
      if l != added { VerdictKept(g, more, l); }
    }
  }

  /** The records of the one bundle are in the other, and what resolved still does. */
  ghost predicate Extends(more: Graph, g: Graph)
    requires g.Valid() && more.Valid()
  {
    && more.idFields == g.idFields && more.digest == g.digest
    && (forall l :: l in g.entries ==> l in more.entries && more.entries[l] == g.entries[l])
    && forall d :: Resolve(g, d).Some? ==> Resolve(more, d) == Resolve(g, d)
  }

  lemma VerdictKept(g: Graph, more: Graph, l: string)
    requires g.Valid() && more.Valid() && Extends(more, g) && l in g.entries && Verdict(g, l).None?
    ensures Verdict(more, l).None?
  {}

  lemma RivalPasses(g: Graph, more: Graph, name: string, added: string) returns (parent: string)
    requires g.Valid() && more.Valid() && Extends(more, g) && name in g.entries && Verdict(g, name).None?
    requires g.entries[name].record.version.Some? && g.entries[name].record.version != Some(1)
    requires added in more.entries && Rival(g.idFields, more.entries[added], g.entries[name])
    ensures Verdict(more, added).None? && Step(more, name, parent) && Step(more, added, parent)
  {
    VerdictKept(g, more, name);
    RivalVerdict(more, name, added);
    VerdictStep(more, name);
    VerdictStep(more, added);
    parent := Resolve(more, more.entries[name].record.parent.value).value;
  }

  lemma RivalVerdict(g: Graph, name: string, added: string)
    requires g.Valid() && name in g.entries && added in g.entries
    requires Rival(g.idFields, g.entries[added], g.entries[name])
    requires Verdict(g, name).None? && g.entries[name].record.version.Some? && g.entries[name].record.version != Some(1)
    ensures Verdict(g, added).None?
  {
    var parent := Resolve(g, g.entries[name].record.parent.value).value;
    RivalMatches(g.idFields, g.entries[added], g.entries[name], g.entries[parent].record);
  }

  lemma RivalMatches(idFields: seq<string>, e: Entry, r: Entry, p: Record)
    requires Rival(idFields, e, r) && SameIdentity(idFields, r.record, p) && SameScope(r.record, p)
    ensures SameIdentity(idFields, e.record, p) && SameScope(e.record, p)
  {}

  lemma AddedResolves(g: Graph, at: nat, added: string, e: Entry)
    requires g.Valid() && added !in g.entries && at <= |g.order|
    requires forall l :: l in g.entries ==> g.digest(g.entries[l].record) != g.digest(e.record)
    ensures Extends(Added(g, at, added, e), g)
  {
    var more := Added(g, at, added, e);
    var before, after := g.order[..at], g.order[at..];
    assert g.order == before + after && more.order == before + ([added] + after);
    forall d | Resolve(g, d).Some?
      ensures Resolve(more, d) == Resolve(g, d)
    {
      AddedElsewhere(g, more, before, added, after, d);
    }
  }

  /** A digest that is not the new record's is found where it was. */
  lemma AddedElsewhere(g: Graph, more: Graph, before: seq<string>, added: string, after: seq<string>, d: string)
    requires forall l :: l in before + after ==> l in g.entries && l in more.entries && more.entries[l] == g.entries[l]
    requires added in more.entries && g.digest == more.digest && g.digest(more.entries[added].record) != d
    ensures forall l :: l in before + ([added] + after) ==> l in more.entries
    ensures WithDigest(more, before + ([added] + after), d) == WithDigest(g, before + after, d)
  {
    assert forall l :: l in before ==> l in before + after;
    assert forall l :: l in after ==> l in before + after;
    WithDigestAgrees(g, more, before, d);
    WithDigestAgrees(g, more, after, d);
    WithDigestConcat(g, before, after, d);
    var rest := [added] + after;
    assert rest[1..] == after;
    WithDigestConcat(more, before, rest, d);
  }

  lemma {:induction false} WithDigestAgrees(g: Graph, more: Graph, labels: seq<string>, d: string)
    requires g.digest == more.digest
    requires forall l :: l in labels ==> l in g.entries && l in more.entries && more.entries[l] == g.entries[l]
    ensures WithDigest(more, labels, d) == WithDigest(g, labels, d)
  {
    if labels != [] { WithDigestAgrees(g, more, labels[1..], d); }
  }
}
