/** Path patterns of the publish manifest, compiled piece by piece. */
module PathGlob {
  import opened Common

  /** What each part of a pattern matches: any directories, anything, part of one component, one character of a
      component, or the character itself. */
  datatype Piece = Directories | Anything | Within | OneWithin | Literal(c: char)

  /** `**` at position i. */
  predicate Stars(glob: string, i: nat) {
    i + 2 <= |glob| && glob[i] == '*' && glob[i + 1] == '*'
  }

  /** A star-star component at position i, with its slash. */
  predicate StarsSlash(glob: string, i: nat) {
    i + 3 <= |glob| && glob[i] == '*' && glob[i + 1] == '*' && glob[i + 2] == '/'
  }

  function Split(path: string): (r: seq<string>)
    ensures r != []
  {
    if path == "" then [""]
    else if path[0] == '/' then [""] + Split(path[1..])
    else var r := Split(path[1..]); [[path[0]] + r[0]] + r[1..]
  }

  /** The components of a path, without empty ones and dots. */
  function Parts(path: string): seq<string> {
    Significant(Split(path))
  }

  function Significant(parts: seq<string>): seq<string> {
    if parts == [] then [] else (if parts[0] == "" || parts[0] == "." then [] else [parts[0]]) + Significant(parts[1..])
  }

  predicate ValidGlob(glob: string) {
    glob != "" && glob[0] != '/' && '\\' !in glob && ".." !in Parts(glob)
  }

  // ---- what the components are ----

  /** These are the texts between the slashes of the path. */
  ghost predicate Components(parts: seq<string>, path: string) {
    parts != [] && Slashed(parts) == path && forall k :: 0 <= k < |parts| ==> '/' !in parts[k]
  }

  function Slashed(parts: seq<string>): string {
    if parts == [] then "" else if |parts| == 1 then parts[0] else parts[0] + "/" + Slashed(parts[1..])
  }

  /** A path is cut into components in one way. */
  lemma {:induction false} SplitMeans(parts: seq<string>, path: string)
    ensures Split(path) == parts <==> Components(parts, path)
    decreases |path|
  {
    SplitJoins(path);
    if Components(parts, path) { SplitSlashed(parts, path); }
  }

  lemma {:induction false} SplitJoins(path: string)
    ensures Components(Split(path), path)
  {
    if path != "" {
      SplitJoins(path[1..]);
      var r := Split(path[1..]);
      if path[0] == '/' {
        assert ([""] + r)[1..] == r && "" + "/" + Slashed(r) == path;
      } else {
        FirstLonger(path[0], r);
      }
    }
  }

  lemma FirstLonger(c: char, r: seq<string>)
    requires r != [] && c != '/' && forall k :: 0 <= k < |r| ==> '/' !in r[k]
    ensures var q := [[c] + r[0]] + r[1..]; Slashed(q) == [c] + Slashed(r) && forall k :: 0 <= k < |q| ==> '/' !in q[k]
  {
    var q := [[c] + r[0]] + r[1..];
    assert q[1..] == r[1..];
    assert [c] + r[0] + "/" + Slashed(r[1..]) == [c] + (r[0] + "/" + Slashed(r[1..]));
  }

  lemma {:induction false} SplitSlashed(parts: seq<string>, path: string)
    requires Components(parts, path)
    ensures Split(path) == parts
    decreases |path|
  {
    var p := parts[0];
    if p == "" && |parts| > 1 {
      assert path[1..] == Slashed(parts[1..]) && parts == [""] + parts[1..];
      SplitSlashed(parts[1..], path[1..]);
    } else if p != "" {
      var shorter := [p[1..]] + parts[1..];
      assert shorter[1..] == parts[1..] && p == [p[0]] + p[1..] && parts == [p] + parts[1..];
      FirstLonger(p[0], shorter);
      assert path == [p[0]] + Slashed(shorter);
      SplitSlashed(shorter, path[1..]);
    }
  }

  /** The first component that is neither empty nor a dot. */
  ghost predicate FirstName(parts: seq<string>, n: int) {
    0 <= n < |parts| && parts[n] != "" && parts[n] != "."
    && forall k :: 0 <= k < n ==> parts[k] == "" || parts[k] == "."
  }

  lemma {:induction false} SignificantMeans(parts: seq<string>)
    ensures ".." in Significant(parts) <==> ".." in parts
    ensures Significant(parts) != [] <==> exists n :: FirstName(parts, n)
    ensures forall n :: FirstName(parts, n) ==> Significant(parts)[..1] == [parts[n]]
  {
    if parts != [] {
      SignificantMeans(parts[1..]);
      forall n
        ensures parts[0] in {"", "."} ==> (FirstName(parts, n) <==> FirstName(parts[1..], n - 1))
      {}
      if parts[0] !in {"", "."} {
        assert FirstName(parts, 0);
      } else {
        if n :| FirstName(parts[1..], n) { assert FirstName(parts, n + 1); }
      }
    }
  }

  /** A pattern is valid if it is relative, without a backslash, and no component of it is `..`. */
  lemma ValidMeans(glob: string, parts: seq<string>)
    requires Components(parts, glob)
    ensures ValidGlob(glob) <==> glob != "" && !("/" <= glob) && '\\' !in glob && ".." !in parts
  {
    SplitMeans(parts, glob);
    SignificantMeans(parts);
  }

  /** The piece at position i, and how many characters it takes. */
  function PieceAt(glob: string, i: nat): (r: (Piece, nat))
    requires i < |glob|
    ensures 1 <= r.1 && i + r.1 <= |glob|
  {
    if StarsSlash(glob, i) then (Directories, 3)
    else if Stars(glob, i) then (Anything, 2)
    else if glob[i] == '*' then (Within, 1)
    else if glob[i] == '?' then (OneWithin, 1)
    else (Literal(glob[i]), 1)
  }

  function Compile(glob: string): seq<Piece> {
    if glob == "" then [] else [PieceAt(glob, 0).0] + Compile(glob[PieceAt(glob, 0).1..])
  }

  method Pattern(glob: string) returns (r: Option<seq<Piece>>)
    ensures r == if ValidGlob(glob) then Some(Compile(glob)) else None
  {
    if !ValidGlob(glob) {
      return None;
    }
    var out: seq<Piece>, i := [], 0;
    ghost var whole := Compile(glob);
    assert glob[0..] == glob;
    while i < |glob|
      invariant i <= |glob| && out + Compile(glob[i..]) == whole
    {
      CompileStep(glob, i, out);
      if StarsSlash(glob, i) {
        out, i := out + [Directories], i + 3;
      } else if Stars(glob, i) {
        out, i := out + [Anything], i + 2;
      } else if glob[i] == '*' {
        out, i := out + [Within], i + 1;
      } else if glob[i] == '?' {
        out, i := out + [OneWithin], i + 1;
      } else {
        out, i := out + [Literal(glob[i])], i + 1;
      }
    }
    assert glob[|glob|..] == "" && out + [] == out;
    return Some(out);
  }

  lemma CompileStep(glob: string, i: nat, out: seq<Piece>)
    requires i < |glob|
    ensures var p := PieceAt(glob, i); out + Compile(glob[i..]) == out + [p.0] + Compile(glob[i + p.1..])
  {
    var t, p := glob[i..], PieceAt(glob, i);
    assert PieceAt(t, 0) == p;
    assert t[p.1..] == glob[i + p.1..];
    assert out + ([p.0] + Compile(t[p.1..])) == out + [p.0] + Compile(t[p.1..]);
  }

  // ---- matching ----

  predicate Matches(pieces: seq<Piece>, s: string)
    decreases |pieces|, |s|
  {
    if pieces == [] then s == ""
    else match pieces[0]
      case Literal(c) => s != "" && s[0] == c && Matches(pieces[1..], s[1..])
      case OneWithin => s != "" && s[0] != '/' && Matches(pieces[1..], s[1..])
      case Within => exists n :: 0 <= n <= |s| && '/' !in s[..n] && Matches(pieces[1..], s[n..])
      case Anything => exists n :: 0 <= n <= |s| && '\n' !in s[..n] && Matches(pieces[1..], s[n..])
      case Directories =>
        || Matches(pieces[1..], s)
        || exists n :: 0 < n <= |s| && s[n - 1] == '/' && '\n' !in s[..n - 1] && Matches(pieces[1..], s[n..])
  }

  // ---- the same without backtracking: a path matches if it can be cut into parts that fit the pieces ----

  ghost predicate Fits(piece: Piece, part: string) {
    match piece
    case Literal(c) => part == [c]
    case OneWithin => |part| == 1 && part != "/"
    case Within => forall k :: 0 <= k < |part| ==> part[k] != '/'
    case Anything => forall k :: 0 <= k < |part| ==> part[k] != '\n'
    case Directories =>
      part == "" || (part[|part| - 1] == '/' && forall k :: 0 <= k < |part| - 1 ==> part[k] != '\n')
  }

  ghost predicate CutInto(pieces: seq<Piece>, parts: seq<string>, s: string) {
    |parts| == |pieces| && Joined(parts) == s && forall k :: 0 <= k < |parts| ==> Fits(pieces[k], parts[k])
  }

  function Joined(parts: seq<string>): string {
    if parts == [] then "" else parts[0] + Joined(parts[1..])
  }

  lemma MatchesCut(pieces: seq<Piece>, s: string)
    ensures Matches(pieces, s) <==> exists parts :: CutInto(pieces, parts, s)
  {
    if Matches(pieces, s) {
      var parts := CutFound(pieces, s);
    }
    if parts :| CutInto(pieces, parts, s) { CutMatches(pieces, parts, s); }
  }

  lemma {:induction false} CutFound(pieces: seq<Piece>, s: string) returns (parts: seq<string>)
    requires Matches(pieces, s)
    ensures CutInto(pieces, parts, s)
    decreases |pieces|
  {
    if pieces == [] {
      parts := [];
    } else {
      var n := FirstPart(pieces, s);
      var rest := CutFound(pieces[1..], s[n..]);
      parts := [s[..n]] + rest;
      assert parts[1..] == rest && s == s[..n] + s[n..];
    }
  }

  lemma FirstPart(pieces: seq<Piece>, s: string) returns (n: nat)
    requires pieces != [] && Matches(pieces, s)
    ensures n <= |s| && Fits(pieces[0], s[..n]) && Matches(pieces[1..], s[n..])
  {
    match pieces[0]
    case Literal(c) => n := 1;
    case OneWithin => n := 1;
    case Within => n :| 0 <= n <= |s| && '/' !in s[..n] && Matches(pieces[1..], s[n..]);
    case Anything => n :| 0 <= n <= |s| && '\n' !in s[..n] && Matches(pieces[1..], s[n..]);
    case Directories => n := FirstDirectories(pieces, s);
  }

  lemma FirstDirectories(pieces: seq<Piece>, s: string) returns (n: nat)
    requires pieces != [] && pieces[0] == Directories && Matches(pieces, s)
    ensures n <= |s| && Fits(Directories, s[..n]) && Matches(pieces[1..], s[n..])
  {
    if Matches(pieces[1..], s) {
      n := 0;
      assert s[0..] == s;
    } else {
      n :| 0 < n <= |s| && s[n - 1] == '/' && '\n' !in s[..n - 1] && Matches(pieces[1..], s[n..]);
      assert forall k :: 0 <= k < n - 1 ==> s[..n][k] == s[..n - 1][k];
    }
  }

  lemma {:induction false} CutMatches(pieces: seq<Piece>, parts: seq<string>, s: string)
    requires CutInto(pieces, parts, s)
    ensures Matches(pieces, s)
    decreases |pieces|
  {
    if pieces != [] {
      var n := |parts[0]|;
      assert s[..n] == parts[0] && s[n..] == Joined(parts[1..]);
      forall k | 0 <= k < |parts[1..]|
        ensures Fits(pieces[1..][k], parts[1..][k])
      {
        assert Fits(pieces[k + 1], parts[k + 1]);
      }
      CutMatches(pieces[1..], parts[1..], s[n..]);
      PartFirst(pieces, s, n);
    }
  }

  lemma PartFirst(pieces: seq<Piece>, s: string, n: nat)
    requires pieces != [] && n <= |s| && Fits(pieces[0], s[..n]) && Matches(pieces[1..], s[n..])
    ensures Matches(pieces, s)
  {
    match pieces[0]
    case Literal(c) => assert s[..n][0] == s[0];
    case OneWithin => assert s[..n] == [s[0]];
    case Within => assert '/' !in s[..n];
    case Anything => assert '\n' !in s[..n];
    case Directories =>
      if n == 0 {
        assert s[0..] == s;
      } else {
        assert s[..n][n - 1] == s[n - 1] && s[..n - 1] == s[..n][..n - 1];
        assert '\n' !in s[..n - 1];
      }
  }

  /** A pattern without stars or question marks matches itself only. */
  lemma {:induction false} PlainGlob(glob: string, s: string)
    requires '*' !in glob && '?' !in glob
    ensures Matches(Compile(glob), s) <==> s == glob
    decreases |glob|
  {
    if glob != "" {
      assert !Stars(glob, 0) && PieceAt(glob, 0) == (Literal(glob[0]), 1);
      CompileFirst(glob);
      if s != "" { PlainGlob(glob[1..], s[1..]); }
      assert glob == [glob[0]] + glob[1..] && (s != "" ==> s == [s[0]] + s[1..]);
    }
  }

  function Slashes(s: string): nat {
    if s == "" then 0 else (if s[0] == '/' then 1 else 0) + Slashes(s[1..])
  }

  function LiteralSlashes(pieces: seq<Piece>): nat {
    if pieces == [] then 0 else (if pieces[0] == Literal('/') then 1 else 0) + LiteralSlashes(pieces[1..])
  }

  predicate OneLevel(pieces: seq<Piece>) {
    forall k :: 0 <= k < |pieces| ==> !pieces[k].Anything? && !pieces[k].Directories?
  }

  lemma {:induction false} SlashesConcat(a: string, b: string)
    ensures Slashes(a + b) == Slashes(a) + Slashes(b)
  {
    if a == "" {
      assert a + b == b;
    } else {
      SlashesConcat(a[1..], b);
      assert (a + b)[1..] == a[1..] + b;
    }
  }

  lemma {:induction false} NoSlashes(s: string)
    requires '/' !in s
    ensures Slashes(s) == 0
  {
    if s != "" { NoSlashes(s[1..]); }
  }

  /** `*` and `?` stay inside one component: a path matches a pattern without `**` only at the pattern's own depth. */
  lemma StaysInComponent(glob: string, s: string)
    requires (forall i: nat :: !Stars(glob, i)) && Matches(Compile(glob), s)
    ensures Slashes(s) == Slashes(glob)
  {
    CompilesOneLevel(glob);
    OneLevelDepth(Compile(glob), s);
  }

  /** Without `**` every piece stays in a component, and the slashes are the pattern's own. */
  lemma {:induction false} CompilesOneLevel(glob: string)
    requires forall i: nat :: !Stars(glob, i)
    ensures OneLevel(Compile(glob)) && LiteralSlashes(Compile(glob)) == Slashes(glob)
  {
    if glob != "" {
      assert !Stars(glob, 0);
      forall i: nat
        ensures !Stars(glob[1..], i)
      {
        assert !Stars(glob, i + 1);
      }
      CompilesOneLevel(glob[1..]);
      CompileFirst(glob);
    }
  }

  lemma CompileFirst(glob: string)
    requires glob != "" && !Stars(glob, 0)
    ensures PieceAt(glob, 0).1 == 1 && Compile(glob)[0] == PieceAt(glob, 0).0
    ensures Compile(glob)[1..] == Compile(glob[1..])
  {}

  lemma {:induction false} OneLevelDepth(pieces: seq<Piece>, s: string)
    requires OneLevel(pieces) && Matches(pieces, s)
    ensures Slashes(s) == LiteralSlashes(pieces)
    decreases |pieces|
  {
    if pieces != [] {
      match pieces[0]
      case Literal(c) => OneLevelDepth(pieces[1..], s[1..]);
      case OneWithin => OneLevelDepth(pieces[1..], s[1..]);
      case Within =>
        var n :| 0 <= n <= |s| && '/' !in s[..n] && Matches(pieces[1..], s[n..]);
        OneLevelDepth(pieces[1..], s[n..]);
        NoSlashes(s[..n]);
        SlashesConcat(s[..n], s[n..]);
        assert s == s[..n] + s[n..];
    }
  }

  /** A trailing `**` crosses directories: everything below a literal directory matches. */
  lemma {:induction false} CrossesDirectories(directory: string, s: string)
    requires '*' !in directory && '?' !in directory && '\n' !in s
    ensures Matches(Compile(directory + "**"), directory + s)
  {
    if directory == "" {
      assert directory + "**" == "**" && directory + s == s;
      TrailingStars(s);
    } else {
      CrossesDirectories(directory[1..], s);
      assert (directory + "**")[1..] == directory[1..] + "**" && (directory + s)[1..] == directory[1..] + s;
      LiteralFirst(directory + "**", directory + s);
    }
  }

  lemma TrailingStars(s: string)
    requires '\n' !in s
    ensures Matches(Compile("**"), s)
  {
    assert "**"[2..] == "";
    var pieces := Compile("**");
    assert PieceAt("**", 0) == (Anything, 2);
    assert pieces == [Anything] + Compile("") == [Anything];
    assert pieces[1..] == [] && s[..|s|] == s && s[|s|..] == "";
    assert Matches(pieces[1..], s[|s|..]);
  }

  lemma LiteralFirst(glob: string, s: string)
    requires glob != "" && s != "" && glob[0] == s[0] && glob[0] != '*' && glob[0] != '?'
    requires Matches(Compile(glob[1..]), s[1..])
    ensures Matches(Compile(glob), s)
  {
    var pieces := Compile(glob);
    assert PieceAt(glob, 0) == (Literal(glob[0]), 1);
    assert pieces == [Literal(glob[0])] + Compile(glob[1..]);
    assert pieces[1..] == Compile(glob[1..]);
  }

  /** A leading double star and slash stands for any directories, none included: below it a literal name matches at
      every depth, and nothing else does. */
  lemma AnyDepth(name: string, s: string)
    requires '*' !in name && '?' !in name
    ensures Matches(Compile("**/" + name), s) <==> exists n: nat :: Below(name, s, n)
  {
    AnyDepthPieces(name);
    DirectoriesThen(Compile("**/" + name), name, s);
  }

  lemma DirectoriesThen(pieces: seq<Piece>, name: string, s: string)
    requires pieces != [] && pieces[0] == Directories && pieces[1..] == Compile(name) && '*' !in name && '?' !in name
    ensures Matches(pieces, s) <==> exists n: nat :: Below(name, s, n)
  {
    if Matches(pieces, s) {
      var n := FirstPart(pieces, s);
      PlainGlob(name, s[n..]);
      assert Below(name, s, n);
    }
    if n: nat :| Below(name, s, n) {
      PlainGlob(name, s[n..]);
      PartFirst(pieces, s, n);
    }
  }

  lemma AnyDepthPieces(name: string)
    ensures var pieces := Compile("**/" + name);
      pieces != [] && pieces[0] == Directories && pieces[1..] == Compile(name)
  {
    var glob := "**/" + name;
    assert glob[3..] == name && PieceAt(glob, 0) == (Directories, 3);
  }

  /** The path is the name, below the directories that its first n characters spell out. */
  ghost predicate Below(name: string, s: string, n: nat) {
    n <= |s| && s[n..] == name && Fits(Directories, s[..n])
  }
}
