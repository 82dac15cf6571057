/** Expansion of Rust use trees: nested groups become independent paths. */
module UseTree {
  import opened Common

  /** What Python's str.strip() removes. */
  predicate Space(c: char) {
    if c as int < 0x80 then 0x09 <= c as int <= 0x0D || 0x1C <= c as int <= 0x20 else WideSpace(c as int)
  }

  predicate WideSpace(n: int) {
    || n == 0x85 || n == 0xA0 || n == 0x1680 || 0x2000 <= n <= 0x200A
    || n == 0x2028 || n == 0x2029 || n == 0x202F || n == 0x205F || n == 0x3000
  }

  predicate Spaces(s: string) { forall k :: 0 <= k < |s| ==> Space(s[k]) }

  function Strip(s: string): (r: string)
    ensures |r| <= |s|
  {
    if s == "" then ""
    else if Space(s[0]) then Strip(s[1..])
    else if Space(s[|s| - 1]) then Strip(s[..|s| - 1])
    else s
  }

  // ---- the specification ----

  predicate Opener(c: char) { c == '{' || c == '[' || c == '(' }

  predicate Closer(c: char) { c == '}' || c == ']' || c == ')' }

  function Deeper(c: char, depth: nat): nat {
    if Opener(c) then depth + 1 else if Closer(c) && depth > 0 then depth - 1 else depth
  }

  /** The text cut at the commas outside all brackets. */
  function Cut(s: string, depth: nat): (r: seq<string>)
    ensures r != []
  {
    if s == "" then [""]
    else if s[0] == ',' && depth == 0 then [""] + Cut(s[1..], 0)
    else Glue([s[0]], Cut(s[1..], Deeper(s[0], depth)))
  }

  function Glue(a: string, r: seq<string>): (q: seq<string>)
    requires r != []
    ensures q != []
  {
    [a + r[0]] + r[1..]
  }

  function StripAll(pieces: seq<string>): seq<string> {
    if pieces == [] then [] else [Strip(pieces[0])] + StripAll(pieces[1..])
  }

  function Nonempty(items: seq<string>): seq<string> {
    if items == [] then [] else (if items[0] == "" then [] else [items[0]]) + Nonempty(items[1..])
  }

  function TopLevelItems(s: string): seq<string> {
    Nonempty(StripAll(Cut(s, 0)))
  }

  ghost predicate Within(items: seq<string>, bound: int) {
    forall k :: 0 <= k < |items| ==> |items[k]| <= bound
  }

  lemma {:induction false} CutWithin(s: string, depth: nat)
    ensures Within(Cut(s, depth), |s|)
  {
    if s != "" { CutWithin(s[1..], if s[0] == ',' && depth == 0 then 0 else Deeper(s[0], depth)); }
  }

  lemma {:induction false} StripWithin(pieces: seq<string>, bound: nat)
    requires Within(pieces, bound)
    ensures Within(Nonempty(StripAll(pieces)), bound)
  {
    if pieces != [] {
      StripWithin(pieces[1..], bound);
      assert StripAll(pieces)[1..] == StripAll(pieces[1..]);
    }
  }

  lemma ItemsWithin(s: string)
    ensures Within(TopLevelItems(s), |s|)
  {
    CutWithin(s, 0);
    StripWithin(Cut(s, 0), |s|);
  }

  /** Where the first brace outside parentheses and square brackets is. */
  function GroupStart(s: string, depth: nat): (r: Option<nat>)
    ensures r.Some? ==> r.value < |s|
  {
    if s == "" then None
    else if s[0] == '{' && depth == 0 then Some(0)
    else match GroupStart(s[1..], Nested(s[0], depth))
      case Some(k) => Some(k + 1)
      case None => None
  }

  /** How deep the text is in parentheses and brackets after one more character. */
  function Nested(c: char, depth: nat): nat {
    if c == '(' || c == '[' then depth + 1 else if (c == ')' || c == ']') && depth > 0 then depth - 1 else depth
  }

  function Later(index: nat, r: Option<nat>): Option<nat> {
    match r
    case Some(k) => Some(index + k)
    case None => None
  }

  /** Where the brace is that closes the open ones. */
  function GroupEnd(s: string, depth: int): (r: Option<nat>)
    ensures r.Some? ==> r.value < |s|
  {
    if s == "" then None
    else if s[0] == '}' && depth == 1 then Some(0)
    else
      var d := if s[0] == '{' then depth + 1 else if s[0] == '}' then depth - 1 else depth;
      match GroupEnd(s[1..], d)
      case Some(k) => Some(k + 1)
      case None => None
  }

  function Joined(prefix: string, base: string): string {
    if prefix == "" then base else if base == "" then prefix else prefix + "::" + base
  }

  function RemoveColons(s: string): string {
    if |s| >= 2 && s[|s| - 2] == ':' && s[|s| - 1] == ':' then s[..|s| - 2] else s
  }

  /** A braced list, with the path in front of it. */
  datatype Group = Group(base: string, inner: string)

  function GroupOf(v: string): (r: Option<Group>)
    ensures r.Some? ==> |r.value.inner| + 2 <= |v|
  {
    if |v| >= 2 && v[0] == '{' && v[|v| - 1] == '}' then Some(Group("", v[1..|v| - 1]))
    else match GroupStart(v, 0)
      case None => None
      case Some(start) => Headed(v, start, Later(start + 1, GroupEnd(v[start + 1..], 1)))
  }

  /** The group between the braces at start and end, if nothing follows it. */
  function Headed(v: string, start: nat, end: Option<nat>): (r: Option<Group>)
    requires start < |v| && (end.Some? ==> start < end.value < |v|)
    ensures r.Some? ==> |r.value.inner| + 2 <= |v|
  {
    match end
    case None => None
    case Some(e) =>
      if Strip(v[e + 1..]) != "" then None
      else Some(Group(Strip(RemoveColons(Strip(v[..start]))), v[start + 1..e]))
  }

  function Expand(value: string, prefix: string): (r: seq<string>)
    decreases |value|, 1
  {
    Stripped(Strip(value), prefix)
  }

  function Stripped(v: string, prefix: string): (r: seq<string>)
    decreases |v|, 0
  {
    match GroupOf(v)
    case None => [Joined(prefix, v)]
    case Some(g) => ItemsWithin(g.inner); ExpandAll(TopLevelItems(g.inner), Joined(prefix, g.base), |v| - 2)
  }

  function ExpandAll(items: seq<string>, prefix: string, bound: nat): seq<string>
    requires Within(items, bound)
    decreases bound + 1, |items|
  {
    if items == [] then [] else Expand(items[0], prefix) + ExpandAll(items[1..], prefix, bound)
  }

  // ---- the program ----

  method TopLevelUseItems(value: string) returns (result: seq<string>)
    ensures result == TopLevelItems(value)
  {
    var items: seq<string> := [];
    var start, depth := 0, 0;
    ghost var whole := StripAll(Cut(value, 0));
    CutsStart(value);
    for index := 0 to |value|
      invariant 0 <= start <= index && Cuts(whole, value, items, start, index, depth)
    {
      CutsStep(whole, value, items, start, index, depth);
      var character := value[index];
      if character == ',' && depth == 0 {
        items := items + [Strip(value[start..index])];
        start := index + 1;
      } else {
        depth := Deeper(character, depth);
      }
    }
    CutsEnd(whole, value, items, start, depth);
    items := items + [Strip(value[start..])];
    result := Nonempty(items);
  }

  /** The items found, the piece in hand and the cut of what is left make the whole result. */
  ghost predicate Cuts(whole: seq<string>, value: string, items: seq<string>, start: nat, index: nat, depth: nat)
    requires start <= index <= |value|
  {
    items + StripAll(Glue(value[start..index], Cut(value[index..], depth))) == whole
  }

  lemma CutsStart(value: string)
    ensures Cuts(StripAll(Cut(value, 0)), value, [], 0, 0, 0)
  {
    assert value[0..] == value && value[0..0] == "";
    GlueNothing(Cut(value, 0));
  }

  lemma CutsStep(whole: seq<string>, value: string, items: seq<string>, start: nat, index: nat, depth: nat)
    requires start <= index < |value| && Cuts(whole, value, items, start, index, depth)
    ensures if value[index] == ',' && depth == 0
            then Cuts(whole, value, items + [Strip(value[start..index])], index + 1, index + 1, 0)
      else Cuts(whole, value, items, start, index + 1, Deeper(value[index], depth))
  {
    var c, a, rest := value[index], value[start..index], value[index + 1..];
    assert value[index..] == [c] + rest && ([c] + rest)[1..] == rest;
    if c == ',' && depth == 0 {
      var r := Cut(rest, 0);
      assert Cut(value[index..], 0) == [""] + r;
      CutAtComma(a, r);
      assert value[index + 1..index + 1] == "";
      assert items + ([Strip(a)] + StripAll(Glue("", r))) == items + [Strip(a)] + StripAll(Glue("", r));
    } else {
      var r := Cut(rest, Deeper(c, depth));
      assert Cut(value[index..], depth) == Glue([c], r);
      GlueMore(a, c, r);
      assert value[start..index + 1] == a + [c];
    }
  }

  lemma CutsEnd(whole: seq<string>, value: string, items: seq<string>, start: nat, depth: nat)
    requires start <= |value| && Cuts(whole, value, items, start, |value|, depth)
    ensures items + [Strip(value[start..])] == whole
  {
    assert value[|value|..] == "" && value[start..|value|] == value[start..];
    LastPiece(value[start..], depth);
  }

  lemma LastPiece(a: string, depth: nat)
    ensures StripAll(Glue(a, Cut("", depth))) == [Strip(a)]
  {
    assert Glue(a, [""]) == [a] by { assert a + "" == a; }
    StripFirst(a, []);
    assert [a] + [] == [a] && [Strip(a)] + [] == [Strip(a)];
  }

  lemma StripFirst(a: string, r: seq<string>)
    ensures StripAll([a] + r) == [Strip(a)] + StripAll(r)
  {
    assert ([a] + r)[1..] == r;
  }

  lemma GlueNothing(r: seq<string>)
    requires r != []
    ensures Glue("", r) == r
  {
    assert "" + r[0] == r[0];
  }

  lemma CutAtComma(a: string, r: seq<string>)
    requires r != []
    ensures StripAll(Glue(a, [""] + r)) == [Strip(a)] + StripAll(Glue("", r))
  {
    GlueNothing(r);
    assert Glue(a, [""] + r) == [a] + r by { assert a + "" == a; }
    StripFirst(a, r);
  }

  lemma GlueMore(a: string, c: char, r: seq<string>)
    requires r != []
    ensures Glue(a, Glue([c], r)) == Glue(a + [c], r)
  {
    GlueTwice(a, [c], r);
  }

  lemma GlueTwice(a: string, b: string, r: seq<string>)
    requires r != []
    ensures Glue(a, Glue(b, r)) == Glue(a + b, r)
  {
    assert a + (b + r[0]) == a + b + r[0];
  }

  lemma GroupStartNext(s: string, index: nat, depth: nat)
    requires index < |s|
    ensures Later(index, GroupStart(s[index..], depth))
      == if s[index] == '{' && depth == 0 then Some(index)
         else Later(index + 1, GroupStart(s[index + 1..], Nested(s[index], depth)))
  {
    assert s[index..][1..] == s[index + 1..];
  }

  method FindGroupStart(value: string) returns (start: Option<nat>)
    ensures start == GroupStart(value, 0)
  {
    var depth := 0;
    assert value[0..] == value;
    for index := 0 to |value|
      invariant GroupStart(value, 0) == Later(index, GroupStart(value[index..], depth))
    {
      GroupStartNext(value, index, depth);
      if value[index] == '{' && depth == 0 {
        return Some(index);
      }
      if value[index] == '(' || value[index] == '[' {
        depth := depth + 1;
      } else if (value[index] == ')' || value[index] == ']') && depth > 0 {
        depth := depth - 1;
      }
    }
    return None;
  }

  method FindGroupEnd(value: string, start: nat) returns (end: Option<nat>)
    requires start < |value| && value[start] == '{'
    ensures end == Later(start + 1, GroupEnd(value[start + 1..], 1))
  {
    var depth := 1;
    for index := start + 1 to |value|
      invariant Later(start + 1, GroupEnd(value[start + 1..], 1)) == Later(index, GroupEnd(value[index..], depth))
    {
      assert value[index..][1..] == value[index + 1..];
      if value[index] == '{' {
        depth := depth + 1;
      } else if value[index] == '}' {
        depth := depth - 1;
        if depth == 0 {
          return Some(index);
        }
      }
    }
    return None;
  }

  method FindGroup(v: string) returns (g: Option<Group>)
    ensures g == GroupOf(v)
  {
    if |v| >= 2 && v[0] == '{' && v[|v| - 1] == '}' {
      return Some(Group("", v[1..|v| - 1]));
    }
    var start := FindGroupStart(v);
    if start.None? {
      return None;
    }
    GroupStartBrace(v, 0);
    var end := FindGroupEnd(v, start.value);
    return Headed(v, start.value, end);
  }

  lemma ExpandFirst(a: string, r: seq<string>, prefix: string, bound: nat)
    requires Within([a] + r, bound)
    ensures Within(r, bound) && ExpandAll([a] + r, prefix, bound) == Expand(a, prefix) + ExpandAll(r, prefix, bound)
  {
    assert forall k :: 0 <= k < |r| ==> r[k] == ([a] + r)[k + 1];
    assert ([a] + r)[1..] == r;
  }

  lemma ExpandLeaf(value: string, prefix: string, v: string)
    requires Strip(value) == v && GroupOf(v) == None
    ensures Expand(value, prefix) == [Joined(prefix, v)]
  {}

  lemma ExpandGroup(value: string, prefix: string, v: string, g: Group, items: seq<string>)
    requires Strip(value) == v && GroupOf(v) == Some(g) && TopLevelItems(g.inner) == items
    ensures |g.inner| + 2 <= |v| && Within(items, |v| - 2)
    ensures Expand(value, prefix) == ExpandAll(items, Joined(prefix, g.base), |v| - 2)
  {
    ItemsWithin(g.inner);
  }

  method ExpandUseTree(value: string, prefix: string) returns (leaves: seq<string>)
    ensures leaves == Expand(value, prefix)
    decreases |value|, 0
  {
    var v := Strip(value);
    var group := FindGroup(v);
    if group.None? {
      ExpandLeaf(value, prefix, v);
      return [Joined(prefix, v)];
    }
    var items := TopLevelUseItems(group.value.inner);
    ExpandGroup(value, prefix, v, group.value, items);
    leaves := ExpandUseItems(items, Joined(prefix, group.value.base), |v| - 2);
  }

  method ExpandUseItems(items: seq<string>, prefix: string, ghost bound: nat) returns (leaves: seq<string>)
    requires Within(items, bound)
    ensures leaves == ExpandAll(items, prefix, bound)
    decreases bound + 1, 1
  {
    leaves := [];
    ghost var whole := ExpandAll(items, prefix, bound);
    assert items[0..] == items;
    for k := 0 to |items|
      invariant Within(items[k..], bound) && leaves + ExpandAll(items[k..], prefix, bound) == whole
    {
      var more := ExpandUseTree(items[k], prefix);
      assert items[k..] == [items[k]] + items[k + 1..];
      ExpandFirst(items[k], items[k + 1..], prefix, bound);
      leaves := leaves + more;
    }
  }

  lemma {:induction false} GroupStartBrace(s: string, depth: nat)
    ensures GroupStart(s, depth).Some? ==> s[GroupStart(s, depth).value] == '{'
  {
    if s != "" {
      GroupStartBrace(s[1..], depth);
      if depth > 0 { GroupStartBrace(s[1..], depth - 1); }
      GroupStartBrace(s[1..], depth + 1);
    }
  }
}
