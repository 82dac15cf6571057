/** Resolution of use aliases to rooted paths: an iteration that must reach its least fixed point within a
    bounded number of passes, or fail. */
module AliasResolution {
  import opened Common

  /** One leaf of a use declaration. */
  datatype Leaf = Leaf(line: nat, statement: string, components: seq<string>, alias: Option<string>, glob: bool)

  type Path = seq<string>

  type Aliases = map<string, set<Path>>

  type Glob = (nat, string, Path)

  datatype Error = LimitExceeded

  const ROOTS := {"crate", "self", "super", "lean_ctx_protocol"}

  predicate Rooted(l: Leaf) { l.components != [] && l.components[0] in ROOTS }

  /** The name a leaf binds, if it binds one. */
  function Binding(l: Leaf): Option<string> {
    var b := if l.alias.None? && !l.glob && |l.components| > 1 then Some(l.components[|l.components| - 1]) else l.alias;
    if b == Some("") || b == Some("_") then None else b
  }

  /** What the leaf stands for, given the aliases found so far. */
  function Canonicals(l: Leaf, aliases: Aliases): set<Path> {
    if l.components == [] then {}
    else if l.components[0] in ROOTS then {l.components}
    else if l.components[0] in aliases then set p | p in aliases[l.components[0]] :: p + l.components[1..]
    else {}
  }

  function Lookup(aliases: Aliases, name: string): set<Path> {
    if name in aliases then aliases[name] else {}
  }

  // ---- the specification: chains of leaves ----

  ghost predicate Follows(a: Leaf, b: Leaf) {
    b.components != [] && b.components[0] !in ROOTS && Binding(a) == Some(b.components[0])
  }

  /** A rooted leaf, then leaves that each begin with the name the one before binds. */
  ghost predicate Chain(parsed: seq<Leaf>, ls: seq<nat>) {
    && ls != [] && Within(parsed, ls)
    && Rooted(parsed[ls[0]]) && Linked(parsed, ls)
  }

  ghost predicate Linked(parsed: seq<Leaf>, ls: seq<nat>)
    requires Within(parsed, ls)
  {
    forall i :: 0 < i < |ls| ==> Follows(parsed[ls[i - 1]], parsed[ls[i]])
  }

  ghost predicate Within(parsed: seq<Leaf>, ls: seq<nat>) {
    forall i :: 0 <= i < |ls| ==> ls[i] < |parsed| && parsed[ls[i]].components != []
  }

  ghost function Tail(parsed: seq<Leaf>, ls: seq<nat>): Path
    requires Within(parsed, ls)
  {
    if ls == [] then [] else parsed[ls[0]].components[1..] + Tail(parsed, ls[1..])
  }

  /** The path a chain spells out. */
  ghost function Spelled(parsed: seq<Leaf>, ls: seq<nat>): Path
    requires Chain(parsed, ls)
  {
    [parsed[ls[0]].components[0]] + Tail(parsed, ls)
  }

  ghost predicate DerivedBy(parsed: seq<Leaf>, name: string, path: Path, ls: seq<nat>) {
    Chain(parsed, ls) && Binding(parsed[ls[|ls| - 1]]) == Some(name) && Spelled(parsed, ls) == path
  }

  ghost predicate Derivable(parsed: seq<Leaf>, name: string, path: Path) {
    exists ls :: DerivedBy(parsed, name, path, ls)
  }

  /** The leaf stands for the path, by some chain that ends with it. */
  ghost predicate Stands(parsed: seq<Leaf>, k: nat, path: Path) {
    exists ls :: Chain(parsed, ls) && ls[|ls| - 1] == k && Spelled(parsed, ls) == path
  }

  lemma {:induction false} TailConcat(parsed: seq<Leaf>, a: seq<nat>, b: seq<nat>)
    requires Within(parsed, a) && Within(parsed, b)
    ensures Within(parsed, a + b) && Tail(parsed, a + b) == Tail(parsed, a) + Tail(parsed, b)
  {
    if a == [] {
      assert a + b == b;
    } else {
      TailConcat(parsed, a[1..], b);
      assert (a + b)[1..] == a[1..] + b;
    }
  }

  lemma ChainOne(parsed: seq<Leaf>, k: nat)
    requires k < |parsed| && Rooted(parsed[k])
    ensures Chain(parsed, [k]) && Spelled(parsed, [k]) == parsed[k].components
  {
    var c := parsed[k].components;
    assert Tail(parsed, [k]) == c[1..] + Tail(parsed, []);
    assert c == [c[0]] + c[1..];
  }

  lemma ChainSnoc(parsed: seq<Leaf>, ls: seq<nat>, k: nat)
    requires Chain(parsed, ls) && k < |parsed| && Follows(parsed[ls[|ls| - 1]], parsed[k])
    ensures Chain(parsed, ls + [k]) && Spelled(parsed, ls + [k]) == Spelled(parsed, ls) + parsed[k].components[1..]
  {
    TailConcat(parsed, ls, [k]);
    assert Tail(parsed, [k]) == parsed[k].components[1..] + Tail(parsed, []);
  }

  lemma ChainPrefix(parsed: seq<Leaf>, ls: seq<nat>)
    requires Chain(parsed, ls) && |ls| > 1
    ensures Chain(parsed, ls[..|ls| - 1])
    ensures Spelled(parsed, ls) == Spelled(parsed, ls[..|ls| - 1]) + parsed[ls[|ls| - 1]].components[1..]
  {
    var n := |ls| - 1;
    assert ls == ls[..n] + [ls[n]];
    ChainSnoc(parsed, ls[..n], ls[n]);
  }

  // ---- what the iteration keeps ----

  ghost predicate Sound(parsed: seq<Leaf>, aliases: Aliases) {
    forall name, path :: name in aliases && path in aliases[name] ==> Derivable(parsed, name, path)
  }

  /** Every chain of at most n leaves has been followed. */
  ghost predicate Complete(parsed: seq<Leaf>, aliases: Aliases, n: nat) {
    forall name, path, ls :: DerivedBy(parsed, name, path, ls) && |ls| <= n ==> path in Lookup(aliases, name)
  }

  ghost predicate Extends(more: Aliases, aliases: Aliases) {
    forall name :: Lookup(aliases, name) <= Lookup(more, name)
  }

  /** No leaf adds anything. */
  ghost predicate Closed(parsed: seq<Leaf>, aliases: Aliases) {
    forall k :: 0 <= k < |parsed| ==> Absorbed(parsed[k], aliases, aliases)
  }

  ghost predicate Absorbed(l: Leaf, from: Aliases, aliases: Aliases) {
    Binding(l).Some? ==> Canonicals(l, from) <= Lookup(aliases, Binding(l).value)
  }

  lemma CanonicalsStand(parsed: seq<Leaf>, k: nat, aliases: Aliases, path: Path)
    requires k < |parsed| && Sound(parsed, aliases) && path in Canonicals(parsed[k], aliases)
    ensures Stands(parsed, k, path)
    ensures Binding(parsed[k]).Some? ==> Derivable(parsed, Binding(parsed[k]).value, path)
  {
    var ls := CanonicalChain(parsed, k, aliases, path);
    if Binding(parsed[k]).Some? { assert DerivedBy(parsed, Binding(parsed[k]).value, path, ls); }
  }

  lemma CanonicalChain(parsed: seq<Leaf>, k: nat, aliases: Aliases, path: Path) returns (ls: seq<nat>)
    requires k < |parsed| && Sound(parsed, aliases) && path in Canonicals(parsed[k], aliases)
    ensures Chain(parsed, ls) && ls[|ls| - 1] == k && Spelled(parsed, ls) == path
  {
    var l := parsed[k];
    if Rooted(l) {
      ls := [k];
      ChainOne(parsed, k);
    } else {
      var p :| p in aliases[l.components[0]] && path == p + l.components[1..];
      assert Derivable(parsed, l.components[0], p);
      var before :| DerivedBy(parsed, l.components[0], p, before);
      ls := before + [k];
      ChainSnoc(parsed, before, k);
    }
  }

  /** A pass follows every chain one leaf further. */
  lemma PassCompletes(parsed: seq<Leaf>, from: Aliases, aliases: Aliases, n: nat)
    requires Complete(parsed, from, n) && forall k :: 0 <= k < |parsed| ==> Absorbed(parsed[k], from, aliases)
    ensures Complete(parsed, aliases, n + 1)
  {
    forall name, path, ls | DerivedBy(parsed, name, path, ls) && |ls| <= n + 1
      ensures path in Lookup(aliases, name)
    {
      ChainCanonical(parsed, from, n, ls);
      assert Absorbed(parsed[ls[|ls| - 1]], from, aliases);
    }
  }

  lemma ChainCanonical(parsed: seq<Leaf>, from: Aliases, n: nat, ls: seq<nat>)
    requires Complete(parsed, from, n) && Chain(parsed, ls) && |ls| <= n + 1
    ensures Spelled(parsed, ls) in Canonicals(parsed[ls[|ls| - 1]], from)
  {
    var last := parsed[ls[|ls| - 1]];
    if |ls| == 1 {
      assert ls == [ls[0]];
      ChainOne(parsed, ls[0]);
    } else {
      ChainPrefix(parsed, ls);
      var before := ls[..|ls| - 1];
      assert DerivedBy(parsed, last.components[0], Spelled(parsed, before), before);
      assert Spelled(parsed, before) in Lookup(from, last.components[0]);
    }
  }

  // ---- when chains can be kept short ----

  /** A chain that comes back to a leaf with a longer path than before: it can go round for ever. */
  ghost predicate Loop(parsed: seq<Leaf>, a: seq<nat>, m: seq<nat>) {
    && a != [] && m != [] && Chain(parsed, a + m) && a[|a| - 1] == m[|m| - 1]
    && Within(parsed, m) && Tail(parsed, m) != []
    && Binding(parsed[m[|m| - 1]]).Some?
  }

  ghost predicate Growing(parsed: seq<Leaf>) {
    exists a, m :: Loop(parsed, a, m)
  }

  /** Some leaves depend on each other in a circle. */
  ghost predicate Circle(parsed: seq<Leaf>, ls: seq<nat>) {
    && ls != [] && Within(parsed, ls) && Linked(parsed, ls)
    && Follows(parsed[ls[|ls| - 1]], parsed[ls[0]])
  }

  ghost predicate Acyclic(parsed: seq<Leaf>) {
    forall ls :: !Circle(parsed, ls)
  }

  /** More entries than values: two entries are equal. */
  lemma {:induction false} Pigeonhole(ls: seq<nat>, n: nat) returns (i: nat, j: nat)
    requires |ls| > n && forall k :: 0 <= k < |ls| ==> ls[k] < n
    ensures i < j < |ls| && ls[i] == ls[j]
    decreases n
  {
    var last := |ls| - 1;
    if k :| 0 <= k < last && ls[k] == ls[last] {
      i, j := k, last;
    } else {
      var closed := seq(last, k requires 0 <= k < last => if ls[k] > ls[last] then ls[k] - 1 else ls[k]);
      i, j := Pigeonhole(closed, n - 1);
    }
  }

  lemma LinkedSlice(parsed: seq<Leaf>, ls: seq<nat>, lo: nat, hi: nat)
    requires Within(parsed, ls) && Linked(parsed, ls) && lo <= hi <= |ls|
    ensures Within(parsed, ls[lo..hi]) && Linked(parsed, ls[lo..hi])
  {
    forall k | 0 < k < |ls[lo..hi]|
      ensures Follows(parsed[ls[lo..hi][k - 1]], parsed[ls[lo..hi][k]])
    {
      assert Follows(parsed[ls[lo + k - 1]], parsed[ls[lo + k]]);
    }
  }

  lemma LinkedJoin(parsed: seq<Leaf>, a: seq<nat>, b: seq<nat>)
    requires Within(parsed, a) && Within(parsed, b) && Linked(parsed, a) && Linked(parsed, b) && a != []
    requires b != [] ==> Follows(parsed[a[|a| - 1]], parsed[b[0]])
    ensures Within(parsed, a + b) && Linked(parsed, a + b)
  {
    forall k | 0 < k < |a + b|
      ensures Follows(parsed[(a + b)[k - 1]], parsed[(a + b)[k]])
    {
      if k > |a| { assert Follows(parsed[b[k - |a| - 1]], parsed[b[k - |a|]]); }
    }
  }

  /** Where a chain passes the same leaf twice it can be cut in three: a start, a circle and a rest. */
  lemma ChainSplit(parsed: seq<Leaf>, ls: seq<nat>, i: nat, j: nat) returns (a: seq<nat>, m: seq<nat>, b: seq<nat>)
    requires Chain(parsed, ls) && i < j < |ls| && ls[i] == ls[j]
    ensures ls == a + m + b && |a| == i + 1 && |m| == j - i && a[i] == m[|m| - 1]
    ensures Chain(parsed, a) && Circle(parsed, m) && Within(parsed, b) && Linked(parsed, b)
    ensures b != [] ==> Follows(parsed[a[i]], parsed[b[0]])
  {
    a, m, b := ls[..i + 1], ls[i + 1..j + 1], ls[j + 1..];
    LinkedSlice(parsed, ls, 0, i + 1);
    LinkedSlice(parsed, ls, j + 1, |ls|);
    CircleSlice(parsed, ls, i, j);
    assert a[i] == ls[i] && m[|m| - 1] == ls[j];
    if b != [] {
      FollowsAt(parsed, ls, j);
      assert b[0] == ls[j + 1];
    }
  }

  lemma CircleSlice(parsed: seq<Leaf>, ls: seq<nat>, i: nat, j: nat)
    requires Chain(parsed, ls) && i < j < |ls| && ls[i] == ls[j]
    ensures Circle(parsed, ls[i + 1..j + 1])
  {
    LinkedSlice(parsed, ls, i + 1, j + 1);
    FollowsAt(parsed, ls, i);
  }

  lemma FollowsAt(parsed: seq<Leaf>, ls: seq<nat>, k: nat)
    requires Chain(parsed, ls) && k + 1 < |ls|
    ensures Follows(parsed[ls[k]], parsed[ls[k + 1]])
  {
    assert Follows(parsed[ls[k + 1 - 1]], parsed[ls[k + 1]]);
  }

  lemma AcyclicNotGrowing(parsed: seq<Leaf>)
    requires Acyclic(parsed)
    ensures !Growing(parsed)
  {
    if a, m :| Loop(parsed, a, m) {
      var ls := a + m;
      var a', m', b' := ChainSplit(parsed, ls, |a| - 1, |ls| - 1);
    }
  }

  /** Without a growing loop, whatever is derivable has a chain no longer than the list of leaves. */
  lemma {:induction false} ShortChain(parsed: seq<Leaf>, name: string, path: Path, ls: seq<nat>)
    returns (short: seq<nat>)
    requires !Growing(parsed) && DerivedBy(parsed, name, path, ls)
    ensures DerivedBy(parsed, name, path, short) && |short| <= |parsed|
    decreases |ls|
  {
    if |ls| <= |parsed| {
      short := ls;
    } else {
      var i, j := Pigeonhole(ls, |parsed|);
      var a, m, b := ChainSplit(parsed, ls, i, j);
      CutLoop(parsed, name, path, ls, a, m, b);
      short := ShortChain(parsed, name, path, a + b);
    }
  }

  /** A circle that adds nothing to the path can be left out. */
  lemma CutLoop(parsed: seq<Leaf>, name: string, path: Path, ls: seq<nat>, a: seq<nat>, m: seq<nat>, b: seq<nat>)
    requires !Growing(parsed) && DerivedBy(parsed, name, path, ls) && ls == a + m + b
    requires Chain(parsed, a) && Circle(parsed, m) && Within(parsed, b) && Linked(parsed, b) && a[|a| - 1] == m[|m| - 1]
    requires b != [] ==> Follows(parsed[a[|a| - 1]], parsed[b[0]])
    ensures DerivedBy(parsed, name, path, a + b)
  {
    LinkedJoin(parsed, a, b);
    LoopTail(parsed, a, m);
    CutTail(parsed, a, m, b);
    SameEnds(a, m, b);
  }

  lemma CutTail(parsed: seq<Leaf>, a: seq<nat>, m: seq<nat>, b: seq<nat>)
    requires Within(parsed, a) && Within(parsed, m) && Within(parsed, b) && Tail(parsed, m) == []
    ensures Within(parsed, a + m + b) && Within(parsed, a + b) && Tail(parsed, a + m + b) == Tail(parsed, a + b)
  {
    TailConcat(parsed, a, m);
    TailConcat(parsed, a + m, b);
    TailConcat(parsed, a, b);
  }

  lemma SameEnds(a: seq<nat>, m: seq<nat>, b: seq<nat>)
    requires a != [] && m != [] && a[|a| - 1] == m[|m| - 1]
    ensures (a + m + b)[0] == (a + b)[0] && (a + m + b)[|a + m + b| - 1] == (a + b)[|a + b| - 1]
  {}

  lemma LoopTail(parsed: seq<Leaf>, a: seq<nat>, m: seq<nat>)
    requires !Growing(parsed) && Chain(parsed, a) && Circle(parsed, m) && a[|a| - 1] == m[|m| - 1]
    ensures Tail(parsed, m) == []
  {
    LinkedJoin(parsed, a, m);
    assert !Loop(parsed, a, m);
  }

  lemma LoopLinks(parsed: seq<Leaf>, a: seq<nat>, m: seq<nat>)
    requires Loop(parsed, a, m)
    ensures Linked(parsed, m) && Follows(parsed[a[|a| - 1]], parsed[m[0]])
  {
    LinkedSlice(parsed, a + m, |a|, |a + m|);
    assert (a + m)[|a|..|a + m|] == m;
    assert Follows(parsed[(a + m)[|a| - 1]], parsed[(a + m)[|a|]]);
  }

  /** A growing loop spells out paths of every length. */
  lemma {:induction false} Pump(parsed: seq<Leaf>, a: seq<nat>, m: seq<nat>, k: nat) returns (ls: seq<nat>)
    requires Loop(parsed, a, m)
    ensures Chain(parsed, ls) && ls[|ls| - 1] == m[|m| - 1] && |Tail(parsed, ls)| >= k
  {
    if k == 0 {
      ls := a + m;
    } else {
      var before := Pump(parsed, a, m, k - 1);
      ls := before + m;
      LoopLinks(parsed, a, m);
      LinkedJoin(parsed, before, m);
      TailConcat(parsed, before, m);
    }
  }

  // ---- the program ----

  ghost predicate SoundGlobs(parsed: seq<Leaf>, broad: bool, globs: set<Glob>) {
    forall g :: g in globs ==> broad && exists k :: 0 <= k < |parsed| && IsGlob(parsed[k], g) && Stands(parsed, k, g.2)
  }

  ghost predicate IsGlob(l: Leaf, g: Glob) { l.glob && g.0 == l.line && g.1 == l.statement }

  function GlobsOf(l: Leaf, broad: bool, canonicals: set<Path>): set<Glob> {
    if l.glob && broad then set c | c in canonicals :: (l.line, l.statement, c) else {}
  }

  /** Let one leaf add what it stands for. */
  function Bind(l: Leaf, aliases: Aliases): Aliases {
    var canonicals := Canonicals(l, aliases);
    if canonicals == {} || Binding(l).None? then aliases
    else aliases[Binding(l).value := Lookup(aliases, Binding(l).value) + canonicals]
  }

  lemma BindKeeps(parsed: seq<Leaf>, k: nat, from: Aliases, aliases: Aliases)
    requires k < |parsed| && Sound(parsed, aliases) && Extends(aliases, from)
    ensures var more := Bind(parsed[k], aliases);
      Sound(parsed, more) && Extends(more, aliases) && Extends(more, from) && Absorbed(parsed[k], from, more)
  {
    var l, more := parsed[k], Bind(parsed[k], aliases);
    forall name, path | name in more && path in more[name]
      ensures Derivable(parsed, name, path)
    {
      if path !in Lookup(aliases, name) {
        CanonicalsStand(parsed, k, aliases, path);
      }
    }
    CanonicalsGrow(l, from, aliases);
  }

  lemma CanonicalsGrow(l: Leaf, from: Aliases, aliases: Aliases)
    requires Extends(aliases, from)
    ensures Canonicals(l, from) <= Canonicals(l, aliases)
  {
    if l.components != [] && !Rooted(l) {
      var c := l.components[0];
      assert Lookup(from, c) <= Lookup(aliases, c);
    }
  }

  ghost predicate Progress(from: Aliases, aliases: Aliases, changed: bool) {
    if changed then exists name, path :: Gained(from, aliases, name, path)
    else forall name :: Lookup(aliases, name) == Lookup(from, name)
  }

  ghost predicate Gained(from: Aliases, aliases: Aliases, name: string, path: Path) {
    path in Lookup(aliases, name) && path !in Lookup(from, name)
  }

  lemma ProgressStep(l: Leaf, from: Aliases, aliases: Aliases, changed: bool)
    requires Progress(from, aliases, changed) && Extends(aliases, from)
    ensures var adds := Binding(l).Some? && !(Canonicals(l, aliases) <= Lookup(aliases, Binding(l).value));
      Progress(from, Bind(l, aliases), changed || adds)
  {
    var more, canonicals := Bind(l, aliases), Canonicals(l, aliases);
    if changed {
      var name, path :| Gained(from, aliases, name, path);
      assert Gained(from, more, name, path);
    } else if Binding(l).Some? && !(canonicals <= Lookup(aliases, Binding(l).value)) {
      var path :| path in canonicals && path !in Lookup(aliases, Binding(l).value);
      assert Gained(from, more, Binding(l).value, path);
    }
  }

  ghost predicate Visited(parsed: seq<Leaf>, broad: bool, from: Aliases, k: nat, aliases: Aliases, globs: set<Glob>)
    requires k <= |parsed|
  {
    forall i :: 0 <= i < k ==>
      Absorbed(parsed[i], from, aliases) && GlobsOf(parsed[i], broad, Canonicals(parsed[i], from)) <= globs
  }

  /** One pass over all leaves, in place. */
  method Pass(parsed: seq<Leaf>, broad: bool, from: Aliases, before: set<Glob>)
    returns (aliases: Aliases, globs: set<Glob>, changed: bool)
    requires Sound(parsed, from) && SoundGlobs(parsed, broad, before)
    ensures Sound(parsed, aliases) && SoundGlobs(parsed, broad, globs)
    ensures Visited(parsed, broad, from, |parsed|, aliases, globs) && Progress(from, aliases, changed)
  {
    aliases, globs, changed := from, before, false;
    for k := 0 to |parsed|
      invariant Sound(parsed, aliases) && SoundGlobs(parsed, broad, globs) && Extends(aliases, from)
      invariant Visited(parsed, broad, from, k, aliases, globs) && Progress(from, aliases, changed)
    {
      aliases, globs, changed := PassLeaf(parsed, k, broad, from, aliases, globs, changed);
    }
  }

  method PassLeaf(parsed: seq<Leaf>, k: nat, broad: bool, ghost from: Aliases, aliases0: Aliases, globs0: set<Glob>,
                  changed0: bool)
    returns (aliases: Aliases, globs: set<Glob>, changed: bool)
    requires k < |parsed| && Sound(parsed, aliases0) && SoundGlobs(parsed, broad, globs0) && Extends(aliases0, from)
    requires Visited(parsed, broad, from, k, aliases0, globs0) && Progress(from, aliases0, changed0)
    ensures Sound(parsed, aliases) && SoundGlobs(parsed, broad, globs) && Extends(aliases, from)
    ensures Visited(parsed, broad, from, k + 1, aliases, globs) && Progress(from, aliases, changed)
  {
    aliases, globs, changed := aliases0, globs0, changed0;
    var l := parsed[k];
    var canonicals := Canonicals(l, aliases);
    if canonicals != {} {
      globs := globs + GlobsOf(l, broad, canonicals);
      var binding := Binding(l);
      if binding.Some? {
        var existing := Lookup(aliases, binding.value);
        var additions := canonicals - existing;
        if additions != {} {
          changed := true;
        }
        assert existing + additions == existing + canonicals;
        aliases := aliases[binding.value := existing + additions];
      }
    }
    BindKeeps(parsed, k, from, aliases0);
    ProgressStep(l, from, aliases0, changed0);
    GlobsKeep(parsed, k, broad, aliases0, globs0);
    VisitedMore(parsed, broad, from, k, aliases0, globs0, aliases, globs);
  }

  lemma VisitedMore(parsed: seq<Leaf>, broad: bool, from: Aliases, k: nat, aliases0: Aliases, globs0: set<Glob>,
                    aliases: Aliases, globs: set<Glob>)
    requires k < |parsed| && Visited(parsed, broad, from, k, aliases0, globs0) && Extends(aliases0, from)
    requires Extends(aliases, aliases0) && Absorbed(parsed[k], from, aliases)
    requires globs0 <= globs && GlobsOf(parsed[k], broad, Canonicals(parsed[k], aliases0)) <= globs
    ensures Visited(parsed, broad, from, k + 1, aliases, globs)
  {
    CanonicalsGrow(parsed[k], from, aliases0);
    forall i | 0 <= i < k
      ensures Absorbed(parsed[i], from, aliases)
    {
      assert Absorbed(parsed[i], from, aliases0);
    }
  }

  lemma GlobsKeep(parsed: seq<Leaf>, k: nat, broad: bool, aliases: Aliases, globs: set<Glob>)
    requires k < |parsed| && Sound(parsed, aliases) && SoundGlobs(parsed, broad, globs)
    ensures SoundGlobs(parsed, broad, globs + GlobsOf(parsed[k], broad, Canonicals(parsed[k], aliases)))
  {
    forall g | g in GlobsOf(parsed[k], broad, Canonicals(parsed[k], aliases))
      ensures broad && IsGlob(parsed[k], g) && Stands(parsed, k, g.2)
    {
      CanonicalsStand(parsed, k, aliases, g.2);
    }
  }

  // ---- the result ----

  /** Exactly what can be derived. */
  ghost predicate Least(parsed: seq<Leaf>, aliases: Aliases) {
    forall name, path :: path in Lookup(aliases, name) <==> Derivable(parsed, name, path)
  }

  /** Exactly the globs of the paths that the glob leaves stand for. */
  ghost predicate Covers(parsed: seq<Leaf>, broad: bool, globs: set<Glob>) {
    forall g :: g in globs <==> broad && exists k :: 0 <= k < |parsed| && IsGlob(parsed[k], g) && Stands(parsed, k, g.2)
  }

  /** Once a pass adds nothing, every chain has been followed. */
  lemma {:induction false} ChainFollowed(parsed: seq<Leaf>, aliases: Aliases, ls: seq<nat>)
    requires Closed(parsed, aliases) && Chain(parsed, ls)
    ensures Spelled(parsed, ls) in Canonicals(parsed[ls[|ls| - 1]], aliases)
    decreases |ls|
  {
    var last := parsed[ls[|ls| - 1]];
    if |ls| == 1 {
      assert ls == [ls[0]];
      ChainOne(parsed, ls[0]);
    } else {
      ChainPrefix(parsed, ls);
      var before := ls[..|ls| - 1];
      assert Follows(parsed[ls[|ls| - 2]], parsed[ls[|ls| - 1]]);
      ChainFollowed(parsed, aliases, before);
      assert Absorbed(parsed[before[|before| - 1]], aliases, aliases);
    }
  }

  lemma FixedPoint(parsed: seq<Leaf>, broad: bool, from: Aliases, aliases: Aliases, globs: set<Glob>)
    requires Sound(parsed, aliases) && SoundGlobs(parsed, broad, globs)
    requires Visited(parsed, broad, from, |parsed|, aliases, globs) && Progress(from, aliases, false)
    ensures Least(parsed, aliases) && Covers(parsed, broad, globs)
  {
    forall k | 0 <= k < |parsed|
      ensures Canonicals(parsed[k], aliases) == Canonicals(parsed[k], from) && Absorbed(parsed[k], aliases, aliases)
    {
      CanonicalsGrow(parsed[k], from, aliases);
      CanonicalsGrow(parsed[k], aliases, from);
      assert Absorbed(parsed[k], from, aliases);
    }
    forall name, path | Derivable(parsed, name, path)
      ensures path in Lookup(aliases, name)
    {
      var ls :| DerivedBy(parsed, name, path, ls);
      ChainFollowed(parsed, aliases, ls);
      assert Absorbed(parsed[ls[|ls| - 1]], aliases, aliases);
    }
    forall g: Glob, k | broad && 0 <= k < |parsed| && IsGlob(parsed[k], g) && Stands(parsed, k, g.2)
      ensures g in globs
    {
      var ls :| Chain(parsed, ls) && ls[|ls| - 1] == k && Spelled(parsed, ls) == g.2;
      ChainFollowed(parsed, aliases, ls);
      assert g in GlobsOf(parsed[k], broad, Canonicals(parsed[k], from));
    }
  }

  lemma {:induction false} LongestPath(paths: set<Path>) returns (n: nat)
    ensures forall p :: p in paths ==> |p| <= n
    decreases paths
  {
    if paths == {} {
      n := 0;
    } else {
      var p :| p in paths;
      n := LongestPath(paths - {p});
      n := if |p| > n then |p| else n;
    }
  }

  /** Nothing that is derivable without end fits in a finite map. */
  lemma LeastNotGrowing(parsed: seq<Leaf>, aliases: Aliases)
    requires Least(parsed, aliases)
    ensures !Growing(parsed)
  {
    if a, m :| Loop(parsed, a, m) {
      var name := Binding(parsed[m[|m| - 1]]).value;
      var n := LongestPath(Lookup(aliases, name));
      var ls := Pump(parsed, a, m, n);
      assert DerivedBy(parsed, name, Spelled(parsed, ls), ls);
      assert Derivable(parsed, name, Spelled(parsed, ls));
    }
  }

  /** When every chain as long as the list has been followed and the next pass still adds something, a loop grows. */
  lemma LateGainGrows(parsed: seq<Leaf>, from: Aliases, aliases: Aliases)
    requires Complete(parsed, from, |parsed|) && Sound(parsed, aliases) && Progress(from, aliases, true)
    ensures Growing(parsed)
  {
    if !Growing(parsed) {
      var name, path :| Gained(from, aliases, name, path);
      assert Derivable(parsed, name, path);
      var ls :| DerivedBy(parsed, name, path, ls);
      var short := ShortChain(parsed, name, path, ls);
    }
  }

  /** The iteration yields the least fixed point, or fails; and it fails exactly when a loop grows for ever. */
  method ResolveAliases(parsed: seq<Leaf>, broadContext: bool) returns (r: Result<(Aliases, set<Glob>), Error>)
    ensures r.Ok? <==> !Growing(parsed)
    ensures r.Ok? ==> Least(parsed, r.value.0) && Covers(parsed, broadContext, r.value.1)
    ensures r.Err? ==> forall aliases :: !Least(parsed, aliases)
  {
    var aliases: Aliases := map[];
    var globs: set<Glob> := {};
    for pass := 0 to |parsed| + 1
      invariant Sound(parsed, aliases) && SoundGlobs(parsed, broadContext, globs) && Complete(parsed, aliases, pass)
      invariant pass == |parsed| + 1 ==> Growing(parsed)
    {
      ghost var from := aliases;
      var changed;
      aliases, globs, changed := Pass(parsed, broadContext, aliases, globs);
      if !changed {
        FixedPoint(parsed, broadContext, from, aliases, globs);
        LeastNotGrowing(parsed, aliases);
        return Ok((aliases, globs));
      }
      assert forall k :: 0 <= k < |parsed| ==> Absorbed(parsed[k], from, aliases);
      PassCompletes(parsed, from, aliases, pass);
      if pass == |parsed| { LateGainGrows(parsed, from, aliases); }
    }
    forall other
      ensures !Least(parsed, other)
    {
      if Least(parsed, other) { LeastNotGrowing(parsed, other); }
    }
    return Err(LimitExceeded);
  }

  // ---- the same, on the fields of the leaves ----

  type Table = (string, Path) -> bool

  /** The leaf gives the name: as its alias or, for a plain leaf of several components, as its last one. */
  ghost predicate Gives(l: Leaf, name: string) {
    && name != "" && name != "_"
    && (l.alias == Some(name)
        || (l.alias == None && !l.glob && |l.components| > 1 && l.components[|l.components| - 1] == name))
  }

  /** The leaf spells the path out from a root, or continues a path that the table has under its first component. */
  ghost predicate Means(l: Leaf, table: Table, path: Path) {
    && l.components != []
    && if l.components[0] in {"crate", "self", "super", "lean_ctx_protocol"} then path == l.components
       else exists prefix :: Continues(l, table, prefix, path)
  }

  ghost predicate Continues(l: Leaf, table: Table, prefix: Path, path: Path)
    requires l.components != []
  {
    table(l.components[0], prefix) && path == prefix + l.components[1..]
  }

  /** Every name that a leaf gives is in the table under every path that the leaf means. */
  ghost predicate Obeys(parsed: seq<Leaf>, table: Table) {
    forall k, name, path :: 0 <= k < |parsed| && Gives(parsed[k], name) && Means(parsed[k], table, path) ==>
      table(name, path)
  }

  ghost function Derived(parsed: seq<Leaf>): Table {
    (name: string, path: Path) => Derivable(parsed, name, path)
  }

  /** A leaf stands for exactly the paths it means, given what is derivable. */
  lemma StandsExact(parsed: seq<Leaf>, k: nat, path: Path)
    requires k < |parsed|
    ensures Stands(parsed, k, path) <==> Means(parsed[k], Derived(parsed), path)
  {
    if Stands(parsed, k, path) {
      var ls :| Chain(parsed, ls) && ls[|ls| - 1] == k && Spelled(parsed, ls) == path;
      ChainMeans(parsed, ls);
    }
    if Means(parsed[k], Derived(parsed), path) {
      MeansChain(parsed, k, path);
    }
  }

  lemma MeansChain(parsed: seq<Leaf>, k: nat, path: Path)
    requires k < |parsed| && Means(parsed[k], Derived(parsed), path)
    ensures Stands(parsed, k, path)
  {
    if Rooted(parsed[k]) {
      RootMeans(parsed[k], Derived(parsed), path);
      RootedStands(parsed, k);
    } else {
      var prefix := PrefixMeant(parsed[k], Derived(parsed), path);
      ContinuedStands(parsed, k, prefix);
    }
  }

  lemma RootMeans(l: Leaf, table: Table, path: Path)
    requires Rooted(l) && Means(l, table, path)
    ensures path == l.components
  {}

  lemma PrefixMeant(l: Leaf, table: Table, path: Path) returns (prefix: Path)
    requires !Rooted(l) && Means(l, table, path)
    ensures l.components != [] && Continues(l, table, prefix, path)
  {
    prefix :| Continues(l, table, prefix, path);
  }

  lemma RootedStands(parsed: seq<Leaf>, k: nat)
    requires k < |parsed| && Rooted(parsed[k])
    ensures Stands(parsed, k, parsed[k].components)
  {
    ChainOne(parsed, k);
    StandsBy(parsed, k, [k]);
  }

  lemma ContinuedStands(parsed: seq<Leaf>, k: nat, prefix: Path)
    requires k < |parsed| && parsed[k].components != [] && !Rooted(parsed[k])
    requires Derivable(parsed, parsed[k].components[0], prefix)
    ensures Stands(parsed, k, prefix + parsed[k].components[1..])
  {
    var before :| DerivedBy(parsed, parsed[k].components[0], prefix, before);
    ChainSnoc(parsed, before, k);
    StandsBy(parsed, k, before + [k]);
  }

  lemma StandsBy(parsed: seq<Leaf>, k: nat, ls: seq<nat>)
    requires Chain(parsed, ls) && ls[|ls| - 1] == k
    ensures Stands(parsed, k, Spelled(parsed, ls))
  {}

  lemma ChainMeans(parsed: seq<Leaf>, ls: seq<nat>)
    requires Chain(parsed, ls)
    ensures Means(parsed[ls[|ls| - 1]], Derived(parsed), Spelled(parsed, ls))
  {
    var n := |ls| - 1;
    if n == 0 {
      assert ls == [ls[0]];
      ChainOne(parsed, ls[0]);
    } else {
      ChainPrefix(parsed, ls);
      var before, name := ls[..n], parsed[ls[n]].components[0];
      assert Follows(parsed[ls[n - 1]], parsed[ls[n]]);
      assert DerivedBy(parsed, name, Spelled(parsed, before), before);
      assert Continues(parsed[ls[n]], Derived(parsed), Spelled(parsed, before), Spelled(parsed, ls));
    }
  }

  lemma BindingGives(l: Leaf, name: string)
    ensures Binding(l) == Some(name) <==> Gives(l, name)
  {}

  /** What is derivable is the least table that obeys the leaves. */
  lemma DerivableLeast(parsed: seq<Leaf>, table: Table)
    ensures Obeys(parsed, Derived(parsed))
    ensures Obeys(parsed, table) ==> forall name, path :: Derivable(parsed, name, path) ==> table(name, path)
  {
    forall k, name, path | 0 <= k < |parsed| && Gives(parsed[k], name) && Means(parsed[k], Derived(parsed), path)
      ensures Derivable(parsed, name, path)
    {
      StandsExact(parsed, k, path);
      var ls :| Chain(parsed, ls) && ls[|ls| - 1] == k && Spelled(parsed, ls) == path;
      BindingGives(parsed[k], name);
      assert DerivedBy(parsed, name, path, ls);
    }
    if Obeys(parsed, table) {
      forall name, path | Derivable(parsed, name, path)
        ensures table(name, path)
      {
        var ls :| DerivedBy(parsed, name, path, ls);
        ChainObeys(parsed, table, name, ls);
      }
    }
  }

  lemma {:induction false} ChainObeys(parsed: seq<Leaf>, table: Table, name: string, ls: seq<nat>)
    requires Obeys(parsed, table) && Chain(parsed, ls) && Binding(parsed[ls[|ls| - 1]]) == Some(name)
    ensures table(name, Spelled(parsed, ls))
    decreases |ls|
  {
    var n := |ls| - 1;
    var last := parsed[ls[n]];
    if n == 0 {
      assert ls == [ls[0]];
      ChainOne(parsed, ls[0]);
    } else {
      ChainPrefix(parsed, ls);
      assert Follows(parsed[ls[n - 1]], last);
      ChainObeys(parsed, table, last.components[0], ls[..n]);
      assert Continues(last, table, Spelled(parsed, ls[..n]), Spelled(parsed, ls));
    }
    BindingGives(last, name);
    assert Means(last, table, Spelled(parsed, ls));
  }

  /** A rooted leaf without an alias binds its last component to itself, and nothing else. */
  lemma PlainUse(line: nat, statement: string)
    ensures var parsed := [Leaf(line, statement, ["crate", "proto", "Envelope"], None, false)];
      forall name, path :: Derivable(parsed, name, path)
        <==> name == "Envelope" && path == ["crate", "proto", "Envelope"]
  {
    var l := Leaf(line, statement, ["crate", "proto", "Envelope"], None, false);
    var parsed := [l];
    assert |"Envelope"| == 8 && |"_"| == 1;
    var only: Table := (name, path) => name == "Envelope" && path == l.components;
    assert forall name :: Gives(l, name) <==> name == "Envelope";
    assert forall table, path :: Means(l, table, path) <==> path == l.components;
    assert Obeys(parsed, only);
    DerivableLeast(parsed, only);
    assert Gives(parsed[0], "Envelope") && Means(parsed[0], Derived(parsed), l.components);
    assert Derived(parsed)("Envelope", l.components);
  }

  /** Leaves that do not depend on each other in a circle never reach the limit. */
  lemma AcyclicResolves(parsed: seq<Leaf>)
    requires Acyclic(parsed)
    ensures !Growing(parsed) && forall name, path :: Derivable(parsed, name, path) ==>
      exists ls :: DerivedBy(parsed, name, path, ls) && |ls| <= |parsed|
  {
    AcyclicNotGrowing(parsed);
    forall name, path | Derivable(parsed, name, path)
      ensures exists ls :: DerivedBy(parsed, name, path, ls) && |ls| <= |parsed|
    {
      var ls :| DerivedBy(parsed, name, path, ls);
      var short := ShortChain(parsed, name, path, ls);
    }
  }

  /** `use crate::x as a; use a::y as a;` never settles. */
  lemma GrowingExample()
    ensures var parsed := [Leaf(1, "", ["crate", "x"], Some("a"), false), Leaf(2, "", ["a", "y"], Some("a"), false)];
      Growing(parsed)
  {
    var parsed := [Leaf(1, "", ["crate", "x"], Some("a"), false), Leaf(2, "", ["a", "y"], Some("a"), false)];
    var a, m: seq<nat> := [0, 1], [1];
    assert parsed[0].components[0] == "crate" && parsed[1].components[0] == "a";
    assert "a" !in ROOTS by { assert |"a"| == 1; }
    assert Linked(parsed, a + m);
    assert Tail(parsed, m) == ["y"] by { assert Tail(parsed, []) == []; assert ["a", "y"][1..] == ["y"]; }
    assert Loop(parsed, a, m);
  }

  /** `use crate::x as a; use a as b; use b as a;` is circular, yet settles. */
  lemma CircleThatSettles()
    ensures var parsed := [Leaf(1, "", ["crate", "x"], Some("a"), false), Leaf(2, "", ["a"], Some("b"), false),
                           Leaf(3, "", ["b"], Some("a"), false)];
      !Acyclic(parsed) && !Growing(parsed)
  {
    var parsed := [Leaf(1, "", ["crate", "x"], Some("a"), false), Leaf(2, "", ["a"], Some("b"), false),
                   Leaf(3, "", ["b"], Some("a"), false)];
    assert "a" !in ROOTS && "b" !in ROOTS by { assert |"a"| == 1 && |"b"| == 1; }
    assert Circle(parsed, [1, 2]);
    if a, m :| Loop(parsed, a, m) {
      forall k | 0 <= k < |m|
        ensures parsed[m[k]].components[1..] == []
      {
        assert m[k] == (a + m)[|a| + k];
        assert Follows(parsed[(a + m)[|a| + k - 1]], parsed[(a + m)[|a| + k]]);
      }
      EmptyTail(parsed, m);
    }
  }

  lemma {:induction false} EmptyTail(parsed: seq<Leaf>, m: seq<nat>)
    requires Within(parsed, m) && forall k :: 0 <= k < |m| ==> parsed[m[k]].components[1..] == []
    ensures Tail(parsed, m) == []
  {
    if m != [] { EmptyTail(parsed, m[1..]); }
  }
}
