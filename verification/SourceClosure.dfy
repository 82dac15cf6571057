/** The dependency closure of the source-layout check: a worklist over a manifest graph that may be cyclic. */
module SourceClosure {
  import opened Common

  /** A manifest, as the file it resolves to. */
  datatype Node = Node(inside: bool, parts: seq<string>)

  datatype Dependency = Version | Detailed(git: bool, path: Option<string>)

  /** A workspace member pattern: one that leaves the workspace, or the manifests it matches. */
  datatype Member = Escaping | Matching(paths: seq<string>)

  datatype Manifest = Manifest(duplicate: bool, tables: seq<seq<Dependency>>, members: seq<Member>, gitLocked: bool)

  /** The checkout: what each path resolves to, and what each manifest says. */
  datatype Tree = Tree(resolve: map<string, Node>, manifests: map<Node, Manifest>)

  datatype Profile = Product | Community

  datatype Layout = Layout(core: string, protocol: string, storage: string, ocla: Option<string>, commercial: string,
                           entrypoints: seq<string>)

  datatype Error =
    | Missing(path: string) | EscapesCheckout | TooManyManifests | SeparatelyLicensed | Unreadable | Duplicate
    | GitDependency | MemberEscapes | MemberMissing | GitLocked | OutsideClosure(path: string)

  const MAX_MANIFESTS := 500

  // ---- one manifest ----

  /** What is found so far, followed by what is still to come. */
  function After(paths: seq<string>, r: Result<seq<string>, Error>): Result<seq<string>, Error> {
    match r
    case Err(e) => Err(e)
    case Ok(more) => Ok(paths + more)
  }

  function PathOf(d: Dependency): seq<string> {
    if d.Detailed? && d.path.Some? then [d.path.value] else []
  }

  function TablePaths(table: seq<Dependency>): Result<seq<string>, Error> {
    if table == [] then Ok([])
    else if table[0].Detailed? && table[0].git then Err(GitDependency)
    else After(PathOf(table[0]), TablePaths(table[1..]))
  }

  function TablesPaths(tables: seq<seq<Dependency>>): Result<seq<string>, Error> {
    if tables == [] then Ok([])
    else match TablePaths(tables[0])
      case Err(e) => Err(e)
      case Ok(paths) => After(paths, TablesPaths(tables[1..]))
  }

  function MembersPaths(members: seq<Member>): Result<seq<string>, Error> {
    if members == [] then Ok([])
    else if members[0].Escaping? then Err(MemberEscapes)
    else if members[0].paths == [] then Err(MemberMissing)
    else After(members[0].paths, MembersPaths(members[1..]))
  }

  /** The paths a manifest leads to, or what is wrong with it. */
  function Outgoing(m: Manifest): Result<seq<string>, Error> {
    if m.duplicate then Err(Duplicate)
    else match TablesPaths(m.tables)
      case Err(e) => Err(e)
      case Ok(paths) => match MembersPaths(m.members)
        case Err(e) => Err(e)
        case Ok(more) => if m.gitLocked then Err(GitLocked) else Ok(paths + more)
  }

  predicate Separate(n: Node) {
    n.parts != [] && (n.parts[0] == "ee" || n.parts[0] == "sdk")
  }

  /** What is wrong with the node itself, or the paths it leads to. */
  function Leads(t: Tree, profile: Profile, n: Node): Result<seq<string>, Error> {
    if !n.inside then Err(EscapesCheckout)
    else if profile.Community? && Separate(n) then Err(SeparatelyLicensed)
    else if n !in t.manifests then Err(Unreadable)
    else Outgoing(t.manifests[n])
  }

  // ---- what that means, in the manifest's own terms ----

  /** A table with a dependency from a git repository. */
  ghost predicate FromGit(tables: seq<seq<Dependency>>) {
    exists d :: Listed(tables, d) && d.Detailed? && d.git
  }

  ghost predicate Listed(tables: seq<seq<Dependency>>, d: Dependency) {
    exists k :: 0 <= k < |tables| && d in tables[k]
  }

  /** A dependency's path, or a manifest that a member pattern matches. */
  ghost predicate Names(m: Manifest, path: string) {
    || (exists d :: Listed(m.tables, d) && d.Detailed? && d.path == Some(path))
    || (exists k :: 0 <= k < |m.members| && m.members[k].Matching? && path in m.members[k].paths)
  }

  /** A manifest passes exactly if it is inside, not separately licensed in the community profile, read, without a
      duplicate or a git dependency in its tables or its lock, and every member pattern stays inside and matches; then
      it leads to exactly the paths it names. */
  lemma LeadsMeans(t: Tree, profile: Profile, n: Node)
    ensures Leads(t, profile, n).Ok? <==>
      (&& n.inside && !(profile == Community && n.parts != [] && n.parts[0] in {"ee", "sdk"}) && n in t.manifests
       && var m := t.manifests[n];
       && !m.duplicate && !m.gitLocked && !FromGit(m.tables)
       && forall k :: 0 <= k < |m.members| ==> m.members[k].Matching? && m.members[k].paths != [])
    ensures Leads(t, profile, n).Ok? ==>
      forall path :: path in Leads(t, profile, n).value <==> Names(t.manifests[n], path)
  {
    if n in t.manifests {
      var m := t.manifests[n];
      TablesMean(m.tables);
      MembersMean(m.members);
    }
  }

  lemma {:induction false} TableMeans(table: seq<Dependency>)
    ensures TablePaths(table).Ok? <==> forall d :: d in table && d.Detailed? ==> !d.git
    ensures TablePaths(table).Ok? ==> forall path ::
      path in TablePaths(table).value <==> exists d :: d in table && d.Detailed? && d.path == Some(path)
  {
    if table != [] {
      TableMeans(table[1..]);
      assert forall d :: d in table <==> d == table[0] || d in table[1..];
    }
  }

  lemma {:induction false} TablesMean(tables: seq<seq<Dependency>>)
    ensures TablesPaths(tables).Ok? <==> !FromGit(tables)
    ensures TablesPaths(tables).Ok? ==> forall path ::
      path in TablesPaths(tables).value <==> exists d :: Listed(tables, d) && d.Detailed? && d.path == Some(path)
  {
    if tables != [] {
      TableMeans(tables[0]);
      TablesMean(tables[1..]);
      forall d
        ensures Listed(tables, d) <==> d in tables[0] || Listed(tables[1..], d)
      {
        if k :| 0 <= k < |tables[1..]| && d in tables[1..][k] { assert d in tables[k + 1]; }
        if k :| 0 < k < |tables| && d in tables[k] { assert d in tables[1..][k - 1]; }
      }
    }
  }

  lemma {:induction false} MembersMean(members: seq<Member>)
    ensures MembersPaths(members).Ok? <==>
      forall k :: 0 <= k < |members| ==> members[k].Matching? && members[k].paths != []
    ensures MembersPaths(members).Ok? ==> forall path ::
      path in MembersPaths(members).value <==>
      exists k :: 0 <= k < |members| && members[k].Matching? && path in members[k].paths
  {
    if members != [] {
      MembersMean(members[1..]);
      assert forall k :: 0 < k < |members| ==> members[k] == members[1..][k - 1];
    }
  }

  function Entries(l: Layout, profile: Profile): seq<string> {
    if profile.Community? then [l.core] else l.entrypoints
  }

  function Required(l: Layout, profile: Profile): seq<string> {
    [l.core, l.protocol, l.storage] + (if l.ocla.Some? then [l.ocla.value] else [])
      + (if profile.Product? then [l.commercial] else [])
  }

  // ---- reachability ----

  /** The path leads from the one node to the other. */
  ghost predicate Edge(t: Tree, profile: Profile, path: string, next: string) {
    path in t.resolve && Leads(t, profile, t.resolve[path]).Ok? && next in Leads(t, profile, t.resolve[path]).value
  }

  ghost predicate Walk(t: Tree, profile: Profile, entries: seq<string>, w: seq<string>) {
    w != [] && w[0] in entries && forall i :: 0 < i < |w| ==> Edge(t, profile, w[i - 1], w[i])
  }

  ghost predicate Reached(t: Tree, profile: Profile, entries: seq<string>, path: string) {
    exists w :: Walk(t, profile, entries, w) && w[|w| - 1] == path
  }

  ghost predicate ReachedNode(t: Tree, profile: Profile, entries: seq<string>, n: Node) {
    exists path :: Reached(t, profile, entries, path) && path in t.resolve && t.resolve[path] == n
  }

  ghost predicate ReachedPath(t: Tree, profile: Profile, entries: seq<string>, path: string) {
    path in t.resolve && ReachedNode(t, profile, entries, t.resolve[path])
  }

  /** The path resolves to a node with nothing wrong. */
  predicate Good(t: Tree, profile: Profile, path: string) {
    path in t.resolve && Leads(t, profile, t.resolve[path]).Ok?
  }

  /** The reachable nodes, when there are finitely many. */
  ghost predicate IsClosure(t: Tree, profile: Profile, entries: seq<string>, visited: set<Node>) {
    forall n :: n in visited <==> ReachedNode(t, profile, entries, n)
  }

  /** The core, the protocol and the storage manifest, the OCLA one where there is one, and for the product the
      commercial one. */
  predicate MustReach(l: Layout, profile: Profile, path: string) {
    || path == l.core || path == l.protocol || path == l.storage || l.ocla == Some(path)
    || (profile == Product && path == l.commercial)
  }

  /** When the check should accept. */
  ghost predicate Acceptable(t: Tree, profile: Profile, l: Layout) {
    && (forall path :: Reached(t, profile, Entries(l, profile), path) ==> Good(t, profile, path))
    && (exists visited :: IsClosure(t, profile, Entries(l, profile), visited) && |visited| <= MAX_MANIFESTS)
    && (forall path :: MustReach(l, profile, path) ==> ReachedPath(t, profile, Entries(l, profile), path))
  }

  lemma ReachedEntry(t: Tree, profile: Profile, entries: seq<string>, path: string)
    requires path in entries
    ensures Reached(t, profile, entries, path)
  {
    assert Walk(t, profile, entries, [path]);
  }

  lemma ReachedNext(t: Tree, profile: Profile, entries: seq<string>, path: string, next: string)
    requires Reached(t, profile, entries, path) && Edge(t, profile, path, next)
    ensures Reached(t, profile, entries, next)
  {
    var w :| Walk(t, profile, entries, w) && w[|w| - 1] == path;
    assert Walk(t, profile, entries, w + [next]);
  }

  // ---- the worklist ----

  /** What is pending can be reached, what is visited can be reached and is good. */
  ghost predicate Inside(t: Tree, profile: Profile, entries: seq<string>, pending: seq<string>, visited: set<Node>) {
    && (forall path :: path in pending ==> Reached(t, profile, entries, path))
    && (forall n :: n in visited ==> ReachedNode(t, profile, entries, n) && Leads(t, profile, n).Ok?)
  }

  ghost predicate Seen(t: Tree, pending: seq<string>, visited: set<Node>, path: string) {
    path in pending || (path in t.resolve && t.resolve[path] in visited)
  }

  /** Nothing that a visited manifest or an entry point leads to is forgotten. */
  ghost predicate Covered(t: Tree, profile: Profile, entries: seq<string>, pending: seq<string>, visited: set<Node>) {
    && (forall path :: path in entries ==> Seen(t, pending, visited, path))
    && (forall n, path :: n in visited && Leads(t, profile, n).Ok? && path in Leads(t, profile, n).value ==>
          Seen(t, pending, visited, path))
  }

  lemma {:induction false} WalkVisited(t: Tree, profile: Profile, entries: seq<string>, visited: set<Node>,
                                       w: seq<string>)
    requires Inside(t, profile, entries, [], visited) && Covered(t, profile, entries, [], visited)
    requires Walk(t, profile, entries, w)
    ensures w[|w| - 1] in t.resolve && t.resolve[w[|w| - 1]] in visited
    decreases |w|
  {
    if |w| == 1 {
      assert Seen(t, [], visited, w[0]);
    } else {
      var before := w[..|w| - 1];
      WalkVisited(t, profile, entries, visited, before);
      assert Edge(t, profile, w[|w| - 2], w[|w| - 1]);
      assert Seen(t, [], visited, w[|w| - 1]);
    }
  }

  /** With nothing pending, what is visited is the closure, and all of it is good. */
  lemma ClosureReached(t: Tree, profile: Profile, entries: seq<string>, visited: set<Node>)
    requires Inside(t, profile, entries, [], visited) && Covered(t, profile, entries, [], visited)
    ensures IsClosure(t, profile, entries, visited)
    ensures forall path :: Reached(t, profile, entries, path) ==> Good(t, profile, path)
  {
    forall path | Reached(t, profile, entries, path)
      ensures path in t.resolve && t.resolve[path] in visited
    {
      var w :| Walk(t, profile, entries, w) && w[|w| - 1] == path;
      WalkVisited(t, profile, entries, visited, w);
    }
  }

  lemma {:induction false} SubsetCount(a: set<Node>, b: set<Node>)
    requires a <= b
    ensures |a| <= |b|
  {
    if a != {} {
      var x :| x in a;
      SubsetCount(a - {x}, b - {x});
    }
  }

  /** More reachable manifests than the limit allows: no closure is within it. */
  lemma TooMany(t: Tree, profile: Profile, l: Layout, visited: set<Node>)
    requires (forall n :: n in visited ==> ReachedNode(t, profile, Entries(l, profile), n)) && |visited| > MAX_MANIFESTS
    ensures !Acceptable(t, profile, l)
  {
    if Acceptable(t, profile, l) {
      var closure :| IsClosure(t, profile, Entries(l, profile), closure) && |closure| <= MAX_MANIFESTS;
      SubsetCount(visited, closure);
    }
  }

  lemma NodeVisited(t: Tree, profile: Profile, entries: seq<string>, path: string, rest: seq<string>,
                    visited: set<Node>)
    requires Inside(t, profile, entries, rest + [path], visited) && Covered(t, profile, entries, rest + [path], visited)
    requires Good(t, profile, path)
    ensures var n := t.resolve[path];
      var next := rest + Leads(t, profile, n).value;
      Inside(t, profile, entries, next, visited + {n}) && Covered(t, profile, entries, next, visited + {n})
  {
    var n := t.resolve[path];
    var leads := Leads(t, profile, n).value;
    assert path in rest + [path];
    forall p | p in leads
      ensures Reached(t, profile, entries, p)
    {
      ReachedNext(t, profile, entries, path, p);
    }
    assert ReachedNode(t, profile, entries, n);
    forall p | Seen(t, rest + [path], visited, p)
      ensures Seen(t, rest + leads, visited + {n}, p)
    {}
  }

  lemma NodeSkipped(t: Tree, profile: Profile, entries: seq<string>, path: string, rest: seq<string>,
                    visited: set<Node>)
    requires Inside(t, profile, entries, rest + [path], visited) && Covered(t, profile, entries, rest + [path], visited)
    requires path in t.resolve && t.resolve[path] in visited
    ensures Inside(t, profile, entries, rest, visited) && Covered(t, profile, entries, rest, visited)
  {
    forall p | Seen(t, rest + [path], visited, p)
      ensures Seen(t, rest, visited, p)
    {}
  }

  /** Why the check may refuse: a reachable path with something wrong, or too many reachable manifests. */
  ghost predicate Refusal(t: Tree, profile: Profile, l: Layout) {
    || (exists path :: Reached(t, profile, Entries(l, profile), path) && !Good(t, profile, path))
    || (exists visited: set<Node> :: |visited| > MAX_MANIFESTS
          && forall n :: n in visited ==> ReachedNode(t, profile, Entries(l, profile), n))
  }

  lemma RefusalJustified(t: Tree, profile: Profile, l: Layout)
    requires Refusal(t, profile, l)
    ensures !Acceptable(t, profile, l)
  {
    if visited: set<Node> :|
      |visited| > MAX_MANIFESTS && forall n :: n in visited ==> ReachedNode(t, profile, Entries(l, profile), n) {
      TooMany(t, profile, l, visited);
    }
  }

  lemma EntriesPending(t: Tree, profile: Profile, l: Layout)
    ensures Inside(t, profile, Entries(l, profile), Entries(l, profile), {})
    ensures Covered(t, profile, Entries(l, profile), Entries(l, profile), {})
  {
    forall path | path in Entries(l, profile)
      ensures Reached(t, profile, Entries(l, profile), path)
    {
      ReachedEntry(t, profile, Entries(l, profile), path);
    }
  }

  /** The worklist: it terminates on every graph, and what it visits is the closure. */
  method Close(t: Tree, profile: Profile, l: Layout) returns (r: Result<set<Node>, Error>)
    ensures r.Err? ==> Refusal(t, profile, l)
    ensures r.Ok? ==>
      && |r.value| <= MAX_MANIFESTS
      && Inside(t, profile, Entries(l, profile), [], r.value) && Covered(t, profile, Entries(l, profile), [], r.value)
  {
    ghost var entries := Entries(l, profile);
    var pending := Entries(l, profile);
    var visited: set<Node> := {};
    EntriesPending(t, profile, l);
    while pending != []
      invariant Inside(t, profile, entries, pending, visited)
      invariant Covered(t, profile, entries, pending, visited)
      invariant |visited| <= MAX_MANIFESTS
      decreases MAX_MANIFESTS - |visited|, |pending|
    {
      var path, rest := pending[|pending| - 1], pending[..|pending| - 1];
      assert pending == rest + [path];
      var failure;
      pending, visited, failure := Visit(t, profile, l, path, rest, visited);
      if failure.Some? {
        return Err(failure.value);
      }
    }
    assert pending == [];
    return Ok(visited);
  }

  /** One turn of the worklist. */
  method Visit(t: Tree, profile: Profile, l: Layout, path: string, rest: seq<string>, visited: set<Node>)
    returns (pending': seq<string>, visited': set<Node>, failure: Option<Error>)
    requires Inside(t, profile, Entries(l, profile), rest + [path], visited) && |visited| <= MAX_MANIFESTS
    requires Covered(t, profile, Entries(l, profile), rest + [path], visited)
    ensures failure.Some? ==> Refusal(t, profile, l)
    ensures failure.None? ==>
      && Inside(t, profile, Entries(l, profile), pending', visited')
      && Covered(t, profile, Entries(l, profile), pending', visited')
      && |visited'| <= MAX_MANIFESTS
      && (|visited'| > |visited| || (visited' == visited && pending' == rest))
  {
    pending', visited', failure := rest, visited, None;
    assert Reached(t, profile, Entries(l, profile), path) by { assert path in rest + [path]; }
    if path !in t.resolve {
      assert !Good(t, profile, path);
      failure := Some(Missing(path));
      return;
    }
    var n := t.resolve[path];
    if n in visited {
      NodeSkipped(t, profile, Entries(l, profile), path, rest, visited);
      return;
    }
    var leads := Examine(t, profile, n, |visited| + 1);
    match leads {
      case Err(e) =>
        NodeRefused(t, profile, l, path, visited);
        failure := Some(e);
      case Ok(paths) =>
        NodeVisited(t, profile, Entries(l, profile), path, rest, visited);
        visited', pending' := visited + {n}, rest + paths;
    }
  }

  lemma NodeRefused(t: Tree, profile: Profile, l: Layout, path: string, visited: set<Node>)
    requires Reached(t, profile, Entries(l, profile), path) && path in t.resolve && t.resolve[path] !in visited
    requires forall n :: n in visited ==> ReachedNode(t, profile, Entries(l, profile), n)
    requires Leads(t, profile, t.resolve[path]).Err? || |visited| + 1 > MAX_MANIFESTS
    ensures Refusal(t, profile, l)
  {
    var n := t.resolve[path];
    if Leads(t, profile, n).Err? {
      assert !Good(t, profile, path);
    } else {
      assert ReachedNode(t, profile, Entries(l, profile), n);
      assert |visited + {n}| == |visited| + 1;
    }
  }

  /** The checks on one new manifest, the count of manifests among them. */
  method Examine(t: Tree, profile: Profile, n: Node, count: nat) returns (r: Result<seq<string>, Error>)
    ensures r.Ok? ==> r == Leads(t, profile, n) && count <= MAX_MANIFESTS
    ensures r.Err? ==> Leads(t, profile, n).Err? || count > MAX_MANIFESTS
  {
    if !n.inside {
      return Err(EscapesCheckout);
    }
    if count > MAX_MANIFESTS {
      return Err(TooManyManifests);
    }
    if profile.Community? && Separate(n) {
      return Err(SeparatelyLicensed);
    }
    if n !in t.manifests {
      return Err(Unreadable);
    }
    r := Scan(t.manifests[n]);
  }

  /** Collect what a manifest leads to, table by table and member by member. */
  method Scan(m: Manifest) returns (r: Result<seq<string>, Error>)
    ensures r == Outgoing(m)
  {
    if m.duplicate {
      return Err(Duplicate);
    }
    var tables := ScanTables(m.tables);
    if tables.Err? {
      return tables;
    }
    var members := ScanMembers(m.members);
    if members.Err? {
      return members;
    }
    if m.gitLocked {
      return Err(GitLocked);
    }
    return Ok(tables.value + members.value);
  }

  method ScanTable(table: seq<Dependency>, found: seq<string>) returns (r: Result<seq<string>, Error>)
    ensures r == After(found, TablePaths(table))
  {
    var paths := found;
    assert table[0..] == table;
    for k := 0 to |table|
      invariant After(found, TablePaths(table)) == After(paths, TablePaths(table[k..]))
    {
      assert table[k..][1..] == table[k + 1..];
      if table[k].Detailed? && table[k].git {
        return Err(GitDependency);
      }
      AfterTwice(paths, PathOf(table[k]), TablePaths(table[k + 1..]));
      paths := paths + PathOf(table[k]);
    }
    assert table[|table|..] == [] && paths + [] == paths;
    return Ok(paths);
  }

  method ScanTables(tables: seq<seq<Dependency>>) returns (r: Result<seq<string>, Error>)
    ensures r == TablesPaths(tables)
  {
    var paths: seq<string> := [];
    assert tables[0..] == tables;
    AfterNothing(TablesPaths(tables));
    for k := 0 to |tables|
      invariant TablesPaths(tables) == After(paths, TablesPaths(tables[k..]))
    {
      assert tables[k..][1..] == tables[k + 1..];
      var more := ScanTable(tables[k], paths);
      if more.Err? {
        return more;
      }
      AfterTwice(paths, TablePaths(tables[k]).value, TablesPaths(tables[k + 1..]));
      paths := more.value;
    }
    assert tables[|tables|..] == [] && paths + [] == paths;
    return Ok(paths);
  }

  method ScanMembers(members: seq<Member>) returns (r: Result<seq<string>, Error>)
    ensures r == MembersPaths(members)
  {
    var paths: seq<string> := [];
    assert members[0..] == members;
    AfterNothing(MembersPaths(members));
    for k := 0 to |members|
      invariant MembersPaths(members) == After(paths, MembersPaths(members[k..]))
    {
      assert members[k..][1..] == members[k + 1..];
      match members[k] {
        case Escaping =>
          return Err(MemberEscapes);
        case Matching(matches) =>
          if matches == [] {
            return Err(MemberMissing);
          }
          AfterTwice(paths, matches, MembersPaths(members[k + 1..]));
          paths := paths + matches;
      }
    }
    assert members[|members|..] == [] && paths + [] == paths;
    return Ok(paths);
  }

  lemma AfterTwice(a: seq<string>, b: seq<string>, r: Result<seq<string>, Error>)
    ensures After(a, After(b, r)) == After(a + b, r)
  {
    if r.Ok? { assert a + (b + r.value) == a + b + r.value; }
  }

  lemma AfterNothing(r: Result<seq<string>, Error>)
    ensures After([], r) == r
  {
    if r.Ok? { assert [] + r.value == r.value; }
  }

  ghost predicate AllVisited(t: Tree, paths: seq<string>, visited: set<Node>) {
    forall path :: path in paths ==> path in t.resolve && t.resolve[path] in visited
  }

  method FirstOutside(t: Tree, required: seq<string>, visited: set<Node>) returns (failure: Option<Error>)
    ensures failure.None? <==> AllVisited(t, required, visited)
  {
    for k := 0 to |required|
      invariant AllVisited(t, required[..k], visited)
    {
      if required[k] !in t.resolve {
        return Some(Missing(required[k]));
      }
      if t.resolve[required[k]] !in visited {
        return Some(OutsideClosure(required[k]));
      }
      assert required[..k + 1] == required[..k] + [required[k]];
    }
    assert required[..|required|] == required;
    return None;
  }

  /** Once the worklist has ended, the required manifests decide. */
  lemma ClosedAcceptable(t: Tree, profile: Profile, l: Layout, visited: set<Node>)
    requires Inside(t, profile, Entries(l, profile), [], visited)
    requires Covered(t, profile, Entries(l, profile), [], visited)
    requires |visited| <= MAX_MANIFESTS
    ensures Acceptable(t, profile, l) <==> AllVisited(t, Required(l, profile), visited)
    ensures IsClosure(t, profile, Entries(l, profile), visited)
    ensures profile.Community? ==> forall n :: n in visited ==> !Separate(n)
  {
    ClosureReached(t, profile, Entries(l, profile), visited);
    forall path
      ensures path in Required(l, profile) <==> MustReach(l, profile, path)
    {
      RequiredMeans(l, profile, path);
    }
    if AllVisited(t, Required(l, profile), visited) {
      assert forall path :: path in Required(l, profile) ==> ReachedPath(t, profile, Entries(l, profile), path);
    }
  }

  lemma RequiredMeans(l: Layout, profile: Profile, path: string)
    ensures path in Required(l, profile) <==> MustReach(l, profile, path)
  {}

  /** The check terminates on every graph, accepts exactly what it should, and returns exactly the reachable manifests;
      in the Community profile none of them is separately licensed. */
  method Verify(t: Tree, profile: Profile, l: Layout) returns (r: Result<set<Node>, Error>)
    ensures r.Ok? <==> Acceptable(t, profile, l)
    ensures r.Ok? ==> IsClosure(t, profile, Entries(l, profile), r.value)
    ensures r.Ok? && profile.Community? ==> forall n :: n in r.value ==> !Separate(n)
  {
    r := Close(t, profile, l);
    if r.Err? {
      RefusalJustified(t, profile, l);
    } else {
      ClosedAcceptable(t, profile, l, r.value);
      var failure := FirstOutside(t, Required(l, profile), r.value);
      if failure.Some? {
        r := Err(failure.value);
      }
    }
  }
}
