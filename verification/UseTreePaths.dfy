/** What expansion means: a printed use tree expands to its root-to-leaf paths, in order. */
module UseTreePaths {
  import opened Common
  import opened UseTree

  /** A use tree with the white space it is printed with. */
  datatype Tree =
    | Leaf(path: string)
    | Node(base: string, gap: string, colons: bool, gap': string, items: seq<Item>, close: string)

  datatype Item = Item(before: string, tree: Tree, after: string)

  // ---- printing ----

  function Head(t: Tree): string
    requires t.Node?
  {
    t.base + t.gap + (if t.colons then "::" else "") + t.gap'
  }

  function Text(t: Tree): string
    decreases t
  {
    match t
    case Leaf(path) => path
    case Node(_, _, _, _, items, close) => Head(t) + ("{" + (Inner(items) + close) + "}")
  }

  function Inner(items: seq<Item>): string
    decreases items
  {
    if items == [] then ""
    else ItemText(items[0]) + (if |items| == 1 then "" else "," + Inner(items[1..]))
  }

  function ItemText(item: Item): string
    decreases item
  {
    item.before + Text(item.tree) + item.after
  }

  /** The paths from the root to the leaves. */
  function Paths(t: Tree, prefix: string): seq<string>
    decreases t
  {
    match t
    case Leaf(path) => [Joined(prefix, path)]
    case Node(base, _, _, _, items, _) => ItemPaths(items, Joined(prefix, base))
  }

  function ItemPaths(items: seq<Item>, prefix: string): seq<string>
    decreases items
  {
    if items == [] then [] else Paths(items[0].tree, prefix) + ItemPaths(items[1..], prefix)
  }

  /** The names on the way to each leaf. */
  function Routes(t: Tree, above: seq<string>): seq<seq<string>>
    decreases t
  {
    match t
    case Leaf(path) => [above + [path]]
    case Node(base, _, _, _, items, _) => ItemRoutes(items, if base == "" then above else above + [base])
  }

  function ItemRoutes(items: seq<Item>, above: seq<string>): seq<seq<string>>
    decreases items
  {
    if items == [] then [] else Routes(items[0].tree, above) + ItemRoutes(items[1..], above)
  }

  /** Names with "::" between them. */
  function Spelled(names: seq<string>): string {
    if names == [] then "" else if |names| == 1 then names[0] else names[0] + "::" + Spelled(names[1..])
  }

  function SpellAll(routes: seq<seq<string>>): seq<string> {
    if routes == [] then [] else [Spelled(routes[0])] + SpellAll(routes[1..])
  }

  // ---- well-formed trees ----

  ghost predicate Plain(s: string) {
    forall k :: 0 <= k < |s| ==> !Opener(s[k]) && !Closer(s[k])
  }

  /** Nonempty text that stripping leaves alone. */
  ghost predicate Trim(s: string) {
    s != "" && !Space(s[0]) && !Space(s[|s| - 1])
  }

  ghost predicate Name(s: string) { Trim(s) && Plain(s) && ',' !in s }

  ghost predicate Wf(t: Tree)
    decreases t
  {
    match t
    case Leaf(path) => Name(path)
    case Node(base, gap, colons, gap', items, close) =>
      && (base == "" || (Name(base) && colons)) && Spaces(gap) && Spaces(gap')
      && (base == "" ==> gap == "") && (!colons ==> gap' == "")
      && Closing(close) && WfItems(items)
  }

  ghost predicate WfItems(items: seq<Item>)
    decreases items
  {
    forall k :: 0 <= k < |items| ==> Spaces(items[k].before) && Wf(items[k].tree) && Spaces(items[k].after)
  }

  // ---- stripping ----

  lemma {:induction false} StripPadded(before: string, s: string, after: string)
    requires Spaces(before) && Trim(s) && Spaces(after)
    ensures Strip(before + s + after) == s
  {
    var all := before + s + after;
    if before != "" {
      StripPadded(before[1..], s, after);
      assert all[0] == before[0] && all[1..] == before[1..] + s + after;
    } else if after != "" {
      StripPadded(before, s, after[..|after| - 1]);
      assert all[0] == s[0] && all[|all| - 1] == after[|after| - 1]
        && all[..|all| - 1] == before + s + after[..|after| - 1];
    } else {
      assert all == s;
    }
  }

  lemma {:induction false} StripSpaces(s: string)
    requires Spaces(s)
    ensures Strip(s) == ""
  {
    if s != "" { StripSpaces(s[1..]); }
  }

  // ---- cutting at top-level commas ----

  function After(a: string, depth: nat): nat {
    if a == "" then depth else After(a[1..], Deeper(a[0], depth))
  }

  /** No comma outside brackets. */
  predicate Calm(a: string, depth: nat) {
    a == "" || (!(a[0] == ',' && depth == 0) && Calm(a[1..], Deeper(a[0], depth)))
  }

  lemma {:induction false} CalmConcat(a: string, b: string, depth: nat)
    ensures Calm(a + b, depth) <==> Calm(a, depth) && Calm(b, After(a, depth))
    ensures After(a + b, depth) == After(b, After(a, depth))
  {
    if a == "" {
      assert a + b == b;
    } else {
      CalmConcat(a[1..], b, Deeper(a[0], depth));
      assert (a + b)[1..] == a[1..] + b;
    }
  }

  lemma {:induction false} CutOver(a: string, rest: string, depth: nat)
    requires Calm(a, depth)
    ensures Cut(a + rest, depth) == Glue(a, Cut(rest, After(a, depth)))
  {
    if a == "" {
      assert a + rest == rest;
      GlueNothing(Cut(rest, depth));
    } else {
      CutOver(a[1..], rest, Deeper(a[0], depth));
      assert (a + rest)[1..] == a[1..] + rest;
      GlueTwice([a[0]], a[1..], Cut(rest, After(a, depth)));
      assert [a[0]] + a[1..] == a;
    }
  }

  lemma {:induction false} PlainCalm(s: string, depth: nat)
    requires Plain(s) && (',' !in s || depth > 0)
    ensures Level(s, depth)
  {
    if s != "" { PlainCalm(s[1..], depth); }
  }

  /** Scanning the text meets no comma outside brackets and comes back to the depth it began with. */
  ghost predicate Level(a: string, depth: nat) { Calm(a, depth) && After(a, depth) == depth }

  lemma LevelJoin(a: string, b: string, depth: nat)
    requires Level(a, depth) && Level(b, depth)
    ensures Level(a + b, depth)
  {
    CalmConcat(a, b, depth);
  }

  lemma LevelBraces(inner: string, depth: nat)
    requires Level(inner, depth + 1)
    ensures Level("{" + inner + "}", depth)
  {
    CalmConcat("{", inner, depth);
    CalmConcat("{" + inner, "}", depth);
    BracketCalm(depth);
  }

  lemma BracketCalm(depth: nat)
    ensures Calm("{", depth) && After("{", depth) == depth + 1 && Calm("}", depth + 1) && After("}", depth + 1) == depth
  {}

  /** A printed tree keeps its commas inside brackets, and closes every bracket it opens. */
  lemma {:induction false} TextCalm(t: Tree, depth: nat)
    requires Wf(t)
    ensures Level(Text(t), depth)
    decreases t
  {
    match t
    case Leaf(path) => PlainCalm(path, depth);
    case Node(base, gap, colons, gap', items, close) =>
      HeadPlain(t);
      PlainCalm(Head(t), depth);
      PlainCalm(close, depth + 1);
      InnerCalm(items, depth + 1);
      LevelJoin(Inner(items), close, depth + 1);
      LevelBraces(Inner(items) + close, depth);
      LevelJoin(Head(t), "{" + (Inner(items) + close) + "}", depth);
  }

  lemma HeadPlain(t: Tree)
    requires t.Node? && Wf(t)
    ensures Plain(Head(t)) && ',' !in Head(t) && Plain(t.close)
  {
    assert forall c :: Space(c) ==> !Opener(c) && !Closer(c) && c != ',';
  }

  lemma {:induction false} InnerCalm(items: seq<Item>, depth: nat)
    requires WfItems(items) && depth > 0
    ensures Level(Inner(items), depth)
    decreases items
  {
    if items != [] {
      ItemCalm(items[0], depth);
      if |items| > 1 {
        InnerCalm(items[1..], depth);
        PlainCalm(",", depth);
        LevelJoin(",", Inner(items[1..]), depth);
        LevelJoin(ItemText(items[0]), "," + Inner(items[1..]), depth);
      } else {
        assert ItemText(items[0]) + "" == ItemText(items[0]);
      }
    }
  }

  lemma {:induction false} ItemCalm(item: Item, depth: nat)
    requires Spaces(item.before) && Wf(item.tree) && Spaces(item.after)
    ensures Level(ItemText(item), depth)
    decreases item
  {
    SpacesPlain(item.before);
    SpacesPlain(item.after);
    PlainCalm(item.before, depth);
    PlainCalm(item.after, depth);
    TextCalm(item.tree, depth);
    LevelJoin(item.before, Text(item.tree), depth);
    LevelJoin(item.before + Text(item.tree), item.after, depth);
  }

  lemma SpacesPlain(s: string)
    requires Spaces(s)
    ensures Plain(s) && ',' !in s
  {
    assert forall c :: Space(c) ==> !Opener(c) && !Closer(c) && c != ',';
  }

  // ---- the items of a list ----

  function Texts(items: seq<Item>): seq<string> {
    if items == [] then [] else [Text(items[0].tree)] + Texts(items[1..])
  }

  /** No printed tree begins or ends with white space. */
  lemma TextTrim(t: Tree)
    requires Wf(t)
    ensures Trim(Text(t))
  {
    if t.Node? {
      var h, b := Head(t), Inner(t.items) + t.close;
      assert Text(t) == h + ("{" + b + "}");
      assert !Space('{') && !Space('}') && !Space(':');
      if t.base != "" { assert h[0] == t.base[0]; } else if t.colons { assert h[0] == ':'; }
    }
  }

  lemma ItemStrip(item: Item)
    requires Spaces(item.before) && Wf(item.tree) && Spaces(item.after)
    ensures Strip(ItemText(item)) == Text(item.tree) && Text(item.tree) != ""
  {
    TextTrim(item.tree);
    StripPadded(item.before, Text(item.tree), item.after);
  }

  lemma CutLast(a: string)
    requires Level(a, 0)
    ensures Cut(a, 0) == [a]
  {
    CutOver(a, "", 0);
    assert a + "" == a;
  }

  lemma CutNext(a: string, rest: string)
    requires Level(a, 0)
    ensures Cut(a + "," + rest, 0) == [a] + Cut(rest, 0)
  {
    assert a + "," + rest == a + ("," + rest);
    CutOver(a, "," + rest, 0);
    assert ("," + rest)[1..] == rest;
    assert a + "" == a;
  }

  lemma ItemsLast(a: string)
    requires Level(a, 0)
    ensures TopLevelItems(a) == if Strip(a) == "" then [] else [Strip(a)]
  {
    CutLast(a);
    StripFirst(a, []);
    assert [a] + [] == [a];
    NonemptyFirst(Strip(a), []);
    assert [Strip(a)] + [] == [Strip(a)];
  }

  lemma NonemptyFirst(item: string, items: seq<string>)
    ensures Nonempty([item] + items) == (if item == "" then [] else [item]) + Nonempty(items)
  {
    assert ([item] + items)[1..] == items;
  }

  lemma ItemsNext(a: string, rest: string)
    requires Level(a, 0) && Strip(a) != ""
    ensures TopLevelItems(a + "," + rest) == [Strip(a)] + TopLevelItems(rest)
  {
    CutNext(a, rest);
    StripFirst(a, Cut(rest, 0));
    NonemptyFirst(Strip(a), StripAll(Cut(rest, 0)));
  }

  lemma ItemsSpaced(item: Item, close: string)
    requires Spaces(item.before) && Wf(item.tree) && Spaces(item.after) && Spaces(close)
    ensures TopLevelItems(ItemText(item) + close) == [Text(item.tree)]
  {
    ItemCalm(item.(after := item.after + close), 0);
    ItemStrip(item.(after := item.after + close));
    assert ItemText(item) + close == ItemText(item.(after := item.after + close));
    ItemsLast(ItemText(item) + close);
  }

  lemma ItemsClosed(close: string)
    requires Spaces(close)
    ensures TopLevelItems(close) == []
  {
    SpacesPlain(close);
    PlainCalm(close, 0);
    StripSpaces(close);
    ItemsLast(close);
  }

  ghost predicate Closing(close: string) {
    Spaces(close) || (close != "" && close[0] == ',' && Spaces(close[1..]))
  }

  /** The items of a printed list are its trees, whatever the spacing and a trailing comma. */
  lemma {:induction false} ItemsOfInner(items: seq<Item>, close: string)
    requires WfItems(items) && Closing(close)
    ensures TopLevelItems(Inner(items) + close) == Texts(items)
  {
    if items == [] {
      assert Inner(items) + close == close;
      ItemsOfClose(close);
    } else if |items| == 1 {
      InnerOne(items);
      assert Texts(items) == [Text(items[0].tree)] by { assert Texts(items[1..]) == []; }
      ItemsOfOne(items[0], close);
    } else {
      ItemsOfInner(items[1..], close);
      InnerMore(items, close);
      ItemsOfMore(items[0], Inner(items[1..]) + close);
      assert Texts(items) == [Text(items[0].tree)] + Texts(items[1..]);
    }
  }

  lemma InnerOne(items: seq<Item>)
    requires |items| == 1
    ensures Inner(items) == ItemText(items[0])
  {}

  lemma InnerMore(items: seq<Item>, close: string)
    requires |items| > 1
    ensures Inner(items) + close == ItemText(items[0]) + "," + (Inner(items[1..]) + close)
  {}

  lemma ItemsOfClose(close: string)
    requires Closing(close)
    ensures TopLevelItems(close) == []
  {
    if Spaces(close) { ItemsClosed(close); } else { CommaOnly(close); }
  }

  lemma ItemsOfOne(item: Item, close: string)
    requires Spaces(item.before) && Wf(item.tree) && Spaces(item.after) && Closing(close)
    ensures TopLevelItems(ItemText(item) + close) == [Text(item.tree)]
  {
    if Spaces(close) {
      ItemsSpaced(item, close);
    } else {
      ItemsClosed(close[1..]);
      ItemsOfMore(item, close[1..]);
      assert ItemText(item) + close == ItemText(item) + "," + close[1..];
    }
  }

  lemma ItemsOfMore(item: Item, rest: string)
    requires Spaces(item.before) && Wf(item.tree) && Spaces(item.after)
    ensures TopLevelItems(ItemText(item) + "," + rest) == [Text(item.tree)] + TopLevelItems(rest)
  {
    ItemCalm(item, 0);
    ItemStrip(item);
    ItemsNext(ItemText(item), rest);
  }

  lemma CommaOnly(close: string)
    requires close != "" && close[0] == ',' && Spaces(close[1..])
    ensures TopLevelItems(close) == []
  {
    var rest := close[1..];
    SpacesPlain(rest);
    PlainCalm(rest, 0);
    CutLast(rest);
    StripSpaces(rest);
    StripSpaces("");
    CutNext("", rest);
    assert "" + "," + rest == close;
    StripFirst("", [rest]);
    StripFirst(rest, []);
    assert [rest] + [] == [rest];
    NonemptyFirst("", [""]);
    NonemptyFirst("", []);
    assert [""] + [] == [""];
  }

  // ---- matching braces ----

  lemma LaterTwice(a: nat, b: nat, r: Option<nat>)
    ensures Later(a, Later(b, r)) == Later(a + b, r)
  {}

  /** Scanning for the closing brace passes over the text. */
  ghost predicate Passed(a: string, depth: int) {
    forall rest {:trigger GroupEnd(a + rest, depth)} :: GroupEnd(a + rest, depth) == Later(|a|, GroupEnd(rest, depth))
  }

  lemma PlainPassed(s: string, depth: nat)
    requires Plain(s) && depth > 0
    ensures Passed(s, depth)
  {
    forall rest
      ensures GroupEnd(s + rest, depth) == Later(|s|, GroupEnd(rest, depth))
    {
      EndOverPlain(s, rest, depth);
    }
  }

  lemma {:induction false} EndOverPlain(s: string, rest: string, depth: nat)
    requires Plain(s) && depth > 0
    ensures GroupEnd(s + rest, depth) == Later(|s|, GroupEnd(rest, depth))
  {
    if s == "" {
      assert s + rest == rest;
    } else {
      EndOverPlain(s[1..], rest, depth);
      assert (s + rest)[1..] == s[1..] + rest;
    }
  }

  lemma JoinPassed(a: string, b: string, depth: int)
    requires Passed(a, depth) && Passed(b, depth)
    ensures Passed(a + b, depth)
  {
    forall rest
      ensures GroupEnd(a + b + rest, depth) == Later(|a + b|, GroupEnd(rest, depth))
    {
      assert a + b + rest == a + (b + rest);
      LaterTwice(|a|, |b|, GroupEnd(rest, depth));
    }
  }

  lemma BracesPassed(inner: string, depth: nat)
    requires depth > 0 && Passed(inner, depth + 1)
    ensures Passed("{" + inner + "}", depth)
  {
    forall rest
      ensures GroupEnd("{" + inner + "}" + rest, depth) == Later(|inner| + 2, GroupEnd(rest, depth))
    {
      var tail := "}" + rest;
      assert "{" + inner + "}" + rest == "{" + (inner + tail) && ("{" + (inner + tail))[1..] == inner + tail;
      assert tail[1..] == rest;
    }
  }

  lemma {:induction false} TextPassed(t: Tree, depth: nat)
    requires Wf(t) && depth > 0
    ensures Passed(Text(t), depth)
    decreases t
  {
    match t
    case Leaf(path) => PlainPassed(path, depth);
    case Node(base, gap, colons, gap', items, close) =>
      HeadPlain(t);
      InnerPassed(items, close, depth + 1);
      BracesPassed(Inner(items) + close, depth);
      PlainPassed(Head(t), depth);
      JoinPassed(Head(t), "{" + (Inner(items) + close) + "}", depth);
  }

  lemma {:induction false} InnerPassed(items: seq<Item>, close: string, depth: nat)
    requires WfItems(items) && Plain(close) && depth > 0
    ensures Passed(Inner(items) + close, depth)
    decreases items
  {
    if items == [] {
      assert Inner(items) + close == close;
      PlainPassed(close, depth);
    } else {
      ItemPassed(items[0], depth);
      if |items| == 1 {
        InnerOne(items);
        PlainPassed(close, depth);
        JoinPassed(ItemText(items[0]), close, depth);
      } else {
        InnerMore(items, close);
        InnerPassed(items[1..], close, depth);
        PlainPassed(",", depth);
        JoinPassed(ItemText(items[0]), ",", depth);
        JoinPassed(ItemText(items[0]) + ",", Inner(items[1..]) + close, depth);
      }
    }
  }

  lemma {:induction false} ItemPassed(item: Item, depth: nat)
    requires Spaces(item.before) && Wf(item.tree) && Spaces(item.after) && depth > 0
    ensures Passed(ItemText(item), depth)
    decreases item
  {
    SpacesPlain(item.before);
    SpacesPlain(item.after);
    PlainPassed(item.before, depth);
    TextPassed(item.tree, depth);
    PlainPassed(item.after, depth);
    JoinPassed(item.before, Text(item.tree), depth);
    JoinPassed(item.before + Text(item.tree), item.after, depth);
  }

  lemma {:induction false} StartOverPlain(s: string, rest: string)
    requires Plain(s)
    ensures GroupStart(s + rest, 0) == Later(|s|, GroupStart(rest, 0))
  {
    if s == "" {
      assert s + rest == rest;
    } else {
      StartOverPlain(s[1..], rest);
      StartOverOne(s[0], s[1..] + rest);
      assert s + rest == [s[0]] + (s[1..] + rest);
    }
  }

  lemma StartOverOne(c: char, rest: string)
    requires !Opener(c) && !Closer(c)
    ensures GroupStart([c] + rest, 0) == Later(1, GroupStart(rest, 0))
  {
    assert ([c] + rest)[1..] == rest;
  }

  // ---- the group of a printed node ----

  lemma LeafGroup(path: string)
    requires Name(path)
    ensures GroupOf(path) == None
  {
    StartOverPlain(path, "");
    assert path + "" == path;
  }

  /** The path in front of the braces, its colons and spacing removed. */
  lemma HeadBase(t: Tree)
    requires t.Node? && Wf(t) && t.colons
    ensures Strip(RemoveColons(Strip(Head(t)))) == t.base
  {
    var name := t.base + t.gap + "::";
    NameTrim(t.base, t.gap);
    StripAfter(name, t.gap');
    ColonsRemoved(t.base + t.gap);
    if t.base == "" {
      StripSpaces(t.base + t.gap);
    } else {
      StripAfter(t.base, t.gap);
    }
  }

  lemma NameTrim(base: string, gap: string)
    requires base == "" ==> gap == ""
    requires base != "" ==> !Space(base[0])
    ensures Trim(base + gap + "::")
  {
    assert !Space(':');
    if base != "" { assert (base + gap + "::")[0] == base[0]; }
  }

  lemma StripAfter(s: string, after: string)
    requires Trim(s) && Spaces(after)
    ensures Strip(s + after) == s
  {
    StripPadded("", s, after);
    assert "" + s + after == s + after;
  }

  lemma ColonsRemoved(s: string)
    ensures RemoveColons(s + "::") == s
  {}

  lemma NodeGroup(t: Tree)
    requires t.Node? && Wf(t)
    ensures GroupOf(Text(t)) == Some(Group(t.base, Inner(t.items) + t.close))
  {
    var h, inner := Head(t), Inner(t.items) + t.close;
    if t.base == "" && !t.colons {
      assert h == "";
      BareGroup(inner);
      assert h + ("{" + inner + "}") == "{" + inner + "}";
    } else {
      HeadPlain(t);
      HeadBase(t);
      InnerPassed(t.items, t.close, 1);
      HeadedGroup(h, inner);
    }
  }

  lemma BareGroup(inner: string)
    ensures GroupOf("{" + inner + "}") == Some(Group("", inner))
  {
    var v := "{" + inner + "}";
    assert v[1..|v| - 1] == inner;
  }

  lemma HeadedGroup(h: string, inner: string)
    requires h != "" && Plain(h) && Passed(inner, 1)
    ensures GroupOf(h + ("{" + inner + "}")) == Some(Group(Strip(RemoveColons(Strip(h))), inner))
  {
    var v := h + ("{" + inner + "}");
    StartOverPlain(h, "{" + inner + "}");
    assert v[|h| + 1..] == inner + "}";
    assert GroupEnd("}", 1) == Some(0);
    assert GroupEnd(inner + "}", 1) == Later(|inner|, GroupEnd("}", 1));
    NodeParts(h, inner);
    GroupFound(v, |h|, |h| + 1 + |inner|);
  }

  lemma NodeParts(h: string, inner: string)
    requires h != ""
    ensures var v := h + ("{" + inner + "}");
      && v[0] == h[0] && v[..|h|] == h && v[|h| + 1..|h| + 1 + |inner|] == inner && v[|h| + 1 + |inner| + 1..] == ""
  {}

  lemma GroupFound(v: string, start: nat, end: nat)
    requires v != "" && v[0] != '{' && start < end < |v|
    requires GroupStart(v, 0) == Some(start) && Later(start + 1, GroupEnd(v[start + 1..], 1)) == Some(end)
    requires v[end + 1..] == ""
    ensures GroupOf(v) == Some(Group(Strip(RemoveColons(Strip(v[..start]))), v[start + 1..end]))
  {
    StripSpaces("");
  }

  // ---- the theorem ----

  /** Expanding a printed use tree yields exactly its root-to-leaf paths, in order, at every nesting depth. */
  lemma {:induction false} ExpandsToPaths(t: Tree, before: string, after: string, prefix: string)
    requires Wf(t) && Spaces(before) && Spaces(after)
    ensures Expand(before + Text(t) + after, prefix) == Paths(t, prefix)
    decreases t, 1
  {
    TextTrim(t);
    StripPadded(before, Text(t), after);
    if t.Leaf? {
      LeafGroup(t.path);
      ExpandLeaf(before + Text(t) + after, prefix, t.path);
    } else {
      var v, g, texts := NodeFacts(t, before + Text(t) + after);
      ExpandsNode(t, before + Text(t) + after, prefix, v, g, texts);
    }
  }

  lemma {:induction false} ExpandsNode(t: Tree, value: string, prefix: string, v: string, g: Group, texts: seq<string>)
    requires Strip(value) == v && GroupOf(v) == Some(g) && TopLevelItems(g.inner) == texts
    requires t.Node? && g.base == t.base && texts == Texts(t.items) && WfItems(t.items)
    ensures Expand(value, prefix) == Paths(t, prefix)
    decreases t, 0
  {
    ExpandGroup(value, prefix, v, g, texts);
    ExpandsItems(t.items, Joined(prefix, t.base), |v| - 2);
  }

  lemma NodeFacts(t: Tree, value: string) returns (v: string, g: Group, texts: seq<string>)
    requires t.Node? && Wf(t) && Strip(value) == Text(t)
    ensures Strip(value) == v && GroupOf(v) == Some(g) && TopLevelItems(g.inner) == texts
    ensures g.base == t.base && texts == Texts(t.items) && WfItems(t.items)
  {
    v := Text(t);
    g := Group(t.base, Inner(t.items) + t.close);
    texts := Texts(t.items);
    NodeGroup(t);
    ItemsOfInner(t.items, t.close);
  }

  lemma {:induction false} ExpandsItems(items: seq<Item>, prefix: string, bound: nat)
    requires WfItems(items) && Within(Texts(items), bound)
    ensures ExpandAll(Texts(items), prefix, bound) == ItemPaths(items, prefix)
    decreases items, 2
  {
    if items != [] {
      var t := items[0].tree;
      ExpandsToPaths(t, "", "", prefix);
      assert "" + Text(t) + "" == Text(t);
      ExpandFirst(Text(t), Texts(items[1..]), prefix, bound);
      ExpandsItems(items[1..], prefix, bound);
    }
  }

  // ---- the paths are the names on the way, with "::" between them ----

  ghost predicate Named(names: seq<string>) { forall k :: 0 <= k < |names| ==> names[k] != "" }

  lemma {:induction false} JoinSpelled(above: seq<string>, name: string)
    requires Named(above) && name != ""
    ensures Joined(Spelled(above), name) == Spelled(above + [name])
    ensures above != [] ==> Spelled(above) != ""
  {
    if above == [] {
      assert [] + [name] == [name];
    } else {
      JoinSpelled(above[1..], name);
      assert (above + [name])[1..] == above[1..] + [name];
      if |above| > 1 { JoinedDeeper(above[0], Spelled(above[1..]), name); }
    }
  }

  lemma JoinedDeeper(first: string, rest: string, name: string)
    requires first != "" && rest != "" && name != ""
    ensures Joined(first + "::" + rest, name) == first + "::" + Joined(rest, name)
  {
    assert first + "::" + rest + "::" + name == first + "::" + (rest + "::" + name);
  }

  lemma {:induction false} SpellConcat(a: seq<seq<string>>, b: seq<seq<string>>)
    ensures SpellAll(a + b) == SpellAll(a) + SpellAll(b)
  {
    if a == [] {
      assert a + b == b;
    } else {
      SpellConcat(a[1..], b);
      assert (a + b)[1..] == a[1..] + b;
    }
  }

  lemma {:induction false} PathsSpelled(t: Tree, above: seq<string>)
    requires Wf(t) && Named(above)
    ensures Paths(t, Spelled(above)) == SpellAll(Routes(t, above))
    decreases t
  {
    match t
    case Leaf(path) => JoinSpelled(above, path);
    case Node(base, _, _, _, items, _) =>
      if base != "" {
        JoinSpelled(above, base);
        ItemsSpelled(items, above + [base]);
      } else {
        ItemsSpelled(items, above);
      }
  }

  lemma {:induction false} ItemsSpelled(items: seq<Item>, above: seq<string>)
    requires WfItems(items) && Named(above)
    ensures ItemPaths(items, Spelled(above)) == SpellAll(ItemRoutes(items, above))
    decreases items
  {
    if items != [] {
      PathsSpelled(items[0].tree, above);
      ItemsSpelled(items[1..], above);
      SpellConcat(Routes(items[0].tree, above), ItemRoutes(items[1..], above));
    }
  }

  /** Expanding a printed tree gives, leaf by leaf, the names from the root down with "::" between them. */
  lemma ExpandsToRoutes(t: Tree, before: string, after: string)
    requires Wf(t) && Spaces(before) && Spaces(after)
    ensures Expand(before + Text(t) + after, "") == SpellAll(Routes(t, []))
  {
    ExpandsToPaths(t, before, after, "");
    PathsSpelled(t, []);
  }
}
