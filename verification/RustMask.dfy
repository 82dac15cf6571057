/** Masking of comments and literals in Rust source: what is left is code, at its original offsets. */
module RustMask {
  import opened Common

  // ---- the lexer, on the text that is still to be read ----

  predicate Starts(t: string, c: char) { t != [] && t[0] == c }

  predicate StartsTwo(t: string, c: char, e: char) { |t| >= 2 && t[0] == c && t[1] == e }

  /** How far the line feed is, or the end of the text. */
  function LineLength(t: string): (n: nat)
    ensures n <= |t|
  {
    if t == [] || t[0] == '\n' then 0 else 1 + LineLength(t[1..])
  }

  /** How much of the text closes the open block comments; comments nest. */
  function BlockLength(t: string, depth: nat): (n: nat)
    ensures n <= |t|
  {
    if t == [] || depth == 0 then 0
    else if StartsTwo(t, '/', '*') then 2 + BlockLength(t[2..], depth + 1)
    else if StartsTwo(t, '*', '/') then 2 + BlockLength(t[2..], depth - 1)
    else 1 + BlockLength(t[1..], depth)
  }

  /** How much of the text a quoted literal takes after its opening quote. */
  function QuotedLength(t: string): (n: nat)
    ensures n <= |t|
  {
    if t == [] then 0
    else if t[0] == '\\' then (if |t| == 1 then 1 else 2 + QuotedLength(t[2..]))
    else if t[0] == '"' then 1
    else 1 + QuotedLength(t[1..])
  }

  /** Through the first occurrence of p, or to the end of the text. */
  function ThroughLength(t: string, p: string): (n: nat)
    ensures n <= |t|
  {
    if p <= t then |p| else if t == [] then 0 else 1 + ThroughLength(t[1..], p)
  }

  function Hashes(t: string): (n: nat)
    ensures n <= |t|
  {
    if t != [] && t[0] == '#' then 1 + Hashes(t[1..]) else 0
  }

  function Repeat(c: char, n: nat): (s: string)
    ensures |s| == n
  {
    if n == 0 then "" else [c] + Repeat(c, n - 1)
  }

  /** What ends a raw string: a quote and as many hashes as opened it. */
  function Terminator(hashes: nat): string { "\"" + Repeat('#', hashes) }

  function RawPrefix(t: string): (n: nat)
    ensures n <= |t|
  {
    if StartsTwo(t, 'b', 'r') || StartsTwo(t, 'c', 'r') then 2 else if Starts(t, 'r') then 1 else 0
  }

  /** A raw string: prefix, hashes, quote, anything, quote, as many hashes. */
  function RawLength(t: string): (n: Option<nat>)
    ensures n.Some? ==> 2 <= n.value <= |t|
  {
    var p := RawPrefix(t);
    if p == 0 then None
    else
      var h := Hashes(t[p..]);
      if |t| > p + h && t[p + h] == '"' then Some(p + h + 1 + ThroughLength(t[p + h + 1..], Terminator(h))) else None
  }

  /** A character literal: one character, or a backslash and one, between apostrophes. */
  function CharLength(t: string): (n: Option<nat>)
    ensures n.Some? ==> 2 <= n.value <= |t|
  {
    if t == [] || t[0] != '\'' then None
    else
      var e := if |t| > 1 && t[1] == '\\' then 3 else if |t| > 1 then 2 else 1;
      if |t| > e && t[e] == '\'' then Some(e + 1) else None
  }

  /** The length of the comment or literal the text begins with. */
  function TokenLength(t: string): (n: Option<nat>)
    ensures n.Some? ==> 1 <= n.value <= |t|
  {
    if StartsTwo(t, '/', '/') then Some(LineLength(t))
    else if StartsTwo(t, '/', '*') then Some(2 + BlockLength(t[2..], 1))
    else if RawLength(t).Some? then RawLength(t)
    else if Starts(t, '"') then Some(1 + QuotedLength(t[1..]))
    else if StartsTwo(t, 'b', '"') || StartsTwo(t, 'c', '"') then Some(2 + QuotedLength(t[2..]))
    else CharLength(t)
  }

  function BlankChar(c: char): char {
    if c == '\r' || c == '\n' then c else ' '
  }

  function Blank(t: string): (r: string)
    ensures |r| == |t| && forall k :: 0 <= k < |t| ==> r[k] == BlankChar(t[k])
  {
    seq(|t|, k requires 0 <= k < |t| => BlankChar(t[k]))
  }

  function Mask(t: string): (r: string)
    ensures |r| == |t|
  {
    if t == [] then []
    else match TokenLength(t)
      case Some(n) => Blank(t[..n]) + Mask(t[n..])
      case None => [t[0]] + Mask(t[1..])
  }

  // ---- the program ----

  function EndOf(index: nat, length: Option<nat>): Option<nat> {
    match length
    case Some(n) => Some(index + n)
    case None => None
  }

  /** Overwrite a stretch with spaces, keeping line ends. */
  method BlankRange(source: string, masked: array<char>, start: nat, end: nat, ghost done: string)
    requires start <= end <= |source| == masked.Length && |done| == start && masked[..] == done + source[start..]
    modifies masked
    ensures masked[..] == done + Blank(source[start..end]) + source[end..]
  {
    for index := start to end
      invariant masked[..] == done + Blank(source[start..index]) + source[index..]
    {
      var before := masked[..];
      if source[index] != '\r' && source[index] != '\n' {
        masked[index] := ' ';
      }
      assert masked[..] == before[index := BlankChar(source[index])];
      BlankNext(source, done, start, index);
    }
  }

  lemma BlankNext(source: string, done: string, start: nat, index: nat)
    requires start <= index < |source| && |done| == start
    ensures (done + Blank(source[start..index]) + source[index..])[index] == source[index]
    ensures (done + Blank(source[start..index]) + source[index..])[index := BlankChar(source[index])]
         == done + Blank(source[start..index + 1]) + source[index + 1..]
  {}

  /** The end of a quoted literal whose opening quote is at start. */
  method QuotedEnd(source: string, start: nat) returns (end: nat)
    requires start < |source|
    ensures end == start + 1 + QuotedLength(source[start + 1..])
  {
    var index := start + 1;
    while index < |source|
      invariant start < index <= |source| + 1
      invariant index <= |source| ==>
        start + 1 + QuotedLength(source[start + 1..]) == index + QuotedLength(source[index..])
      invariant index > |source| ==> start + 1 + QuotedLength(source[start + 1..]) == |source|
    {
      var t := source[index..];
      if source[index] == '\\' {
        assert |t| > 1 ==> t[2..] == source[index + 2..];
        index := index + 2;
      } else if source[index] == '"' {
        return index + 1;
      } else {
        assert t[1..] == source[index + 1..];
        index := index + 1;
      }
    }
    return |source|;
  }

  /** The end of a block comment that starts at index. */
  method BlockEnd(source: string, index: nat) returns (end: nat)
    requires index + 2 <= |source|
    ensures end == index + 2 + BlockLength(source[index + 2..], 1)
  {
    end := index + 2;
    var depth := 1;
    ghost var total := index + 2 + BlockLength(source[index + 2..], 1);
    while end < |source| && depth != 0
      invariant index + 2 <= end <= |source| && Closes(source, end, depth, total)
    {
      if source[end] == '/' && end + 1 < |source| && source[end + 1] == '*' {
        BlockOpens(source, end, depth, total);
        depth := depth + 1;
        end := end + 2;
      } else if source[end] == '*' && end + 1 < |source| && source[end + 1] == '/' {
        BlockCloses(source, end, depth, total);
        depth := depth - 1;
        end := end + 2;
      } else {
        BlockContinues(source, end, depth, total);
        end := end + 1;
      }
    }
  }

  ghost predicate Closes(source: string, end: nat, depth: nat, total: nat) {
    end <= |source| && total == end + BlockLength(source[end..], depth)
  }

  lemma BlockOpens(source: string, end: nat, depth: nat, total: nat)
    requires depth > 0 && Closes(source, end, depth, total) && end + 1 < |source| && source[end] == '/'
    requires source[end + 1] == '*'
    ensures Closes(source, end + 2, depth + 1, total)
  {
    assert source[end..][2..] == source[end + 2..];
  }

  lemma BlockCloses(source: string, end: nat, depth: nat, total: nat)
    requires depth > 0 && Closes(source, end, depth, total) && end + 1 < |source| && source[end] == '*'
    requires source[end + 1] == '/'
    ensures Closes(source, end + 2, depth - 1, total)
  {
    assert source[end..][2..] == source[end + 2..];
  }

  lemma BlockContinues(source: string, end: nat, depth: nat, total: nat)
    requires depth > 0 && Closes(source, end, depth, total) && end < |source|
    requires end + 1 < |source| && source[end] == '/' ==> source[end + 1] != '*'
    requires end + 1 < |source| && source[end] == '*' ==> source[end + 1] != '/'
    ensures Closes(source, end + 1, depth, total)
  {
    assert source[end..][1..] == source[end + 1..];
  }

  /** Where a character literal that opens at index ends, if there is one. */
  method CharEnd(source: string, index: nat) returns (end: Option<nat>)
    requires index < |source| && source[index] == '\''
    ensures end == EndOf(index, CharLength(source[index..]))
  {
    var last := index + 1;
    if last < |source| && source[last] == '\\' {
      last := last + 2;
    } else if last < |source| {
      last := last + 1;
    }
    if last < |source| && source[last] == '\'' {
      return Some(last + 1);
    }
    return None;
  }

  /** Where the comment or literal that begins at index ends, if one begins there. */
  method TokenEnd(source: string, index: nat) returns (end: Option<nat>)
    requires index < |source|
    ensures end == EndOf(index, TokenLength(source[index..]))
  {
    var t := source[index..];
    assert t[1..] == source[index + 1..] && (|t| >= 2 ==> t[2..] == source[index + 2..]);
    if StartsTwo(t, '/', '/') {
      return Some(index + LineLength(t));
    }
    if StartsTwo(t, '/', '*') {
      var last := BlockEnd(source, index);
      return Some(last);
    }
    if RawLength(t).Some? {
      return Some(index + RawLength(t).value);
    }
    if Starts(t, '"') || StartsTwo(t, 'b', '"') || StartsTwo(t, 'c', '"') {
      var last := QuotedEnd(source, if source[index] == '"' then index else index + 1);
      return Some(last);
    }
    if source[index] == '\'' {
      end := CharEnd(source, index);
      return;
    }
    return None;
  }

  /** Mask comments and literals in place, one token after the other. */
  method MaskRustNonCode(source: string) returns (text: string)
    ensures text == Mask(source)
  {
    var masked := new char[|source|](k requires 0 <= k < |source| => source[k]);
    var index := 0;
    ghost var done, whole := "", Mask(source);
    assert masked[..] == source && source[0..] == source;
    while index < |source|
      invariant index <= |source| == masked.Length && |done| == index
      invariant masked[..] == done + source[index..]
      invariant Remaining(whole, source, done, index)
    {
      index, done := MaskOne(whole, source, masked, index, done);
    }
    return masked[..];
  }

  /** What is done, followed by the masking of what is left, is the whole result. */
  ghost predicate Remaining(whole: string, source: string, done: string, index: nat) {
    index <= |source| && done + Mask(source[index..]) == whole
  }

  method MaskOne(ghost whole: string, source: string, masked: array<char>, index: nat, ghost done: string)
    returns (next: nat, ghost done': string)
    requires index < |source| == masked.Length && |done| == index && masked[..] == done + source[index..]
    requires Remaining(whole, source, done, index)
    modifies masked
    ensures index < next <= |source| && |done'| == next && masked[..] == done' + source[next..]
    ensures Remaining(whole, source, done', next)
  {
    var end := StepEnd(whole, source, index, done);
    if end.Some? {
      next, done' := end.value, done + Blank(source[index..end.value]);
      BlankRange(source, masked, index, next, done);
    } else {
      next, done' := index + 1, done + [source[index]];
    }
  }

  /** The boundary moves past the token at index, if one ends at `end`, and else past one character. */
  ghost predicate Moves(whole: string, source: string, done: string, index: nat, end: Option<nat>)
    requires index < |source|
  {
    match end
    case Some(next) => index < next <= |source| && Remaining(whole, source, done + Blank(source[index..next]), next)
    case None =>
      && Remaining(whole, source, done + [source[index]], index + 1)
      && done + source[index..] == done + [source[index]] + source[index + 1..]
  }

  method StepEnd(ghost whole: string, source: string, index: nat, ghost done: string) returns (end: Option<nat>)
    requires index < |source| && Remaining(whole, source, done, index)
    ensures Moves(whole, source, done, index, end)
  {
    end := TokenEnd(source, index);
    MaskStep(whole, source, done, index, end);
  }

  // One step of the scan moves the boundary between what is done and what is left.

  lemma MaskStep(whole: string, source: string, done: string, index: nat, end: Option<nat>)
    requires index < |source| && end == EndOf(index, TokenLength(source[index..]))
    requires Remaining(whole, source, done, index)
    ensures Moves(whole, source, done, index, end)
  {
    if end.Some? {
      MaskStepToken(whole, source, done, index, end.value);
    } else {
      MaskStepCode(whole, source, done, index);
    }
  }

  lemma MaskStepToken(whole: string, source: string, done: string, index: nat, next: nat)
    requires index < |source| && Some(next) == EndOf(index, TokenLength(source[index..]))
    requires Remaining(whole, source, done, index)
    ensures index < next <= |source| && Remaining(whole, source, done + Blank(source[index..next]), next)
  {
    MaskOfToken(source[index..], next - index);
    assert source[index..][next - index..] == source[next..];
    TokenMoves(whole, source, done, index, next, Mask(source[index..]), Mask(source[next..]));
  }

  lemma MaskOfToken(t: string, n: nat)
    requires t != [] && TokenLength(t) == Some(n)
    ensures Mask(t) == Blank(t[..n]) + Mask(t[n..])
  {}

  lemma MaskStepCode(whole: string, source: string, done: string, index: nat)
    requires index < |source| && TokenLength(source[index..]) == None && Remaining(whole, source, done, index)
    ensures Moves(whole, source, done, index, None)
  {
    assert source[index..][1..] == source[index + 1..];
    CodeMoves(whole, source, done, index, Mask(source[index..]), Mask(source[index + 1..]));
  }

  lemma TokenMoves(whole: string, source: string, done: string, index: nat, next: nat, m: string, rest: string)
    requires index < next <= |source| && whole == done + m && m == Blank(source[index..][..next - index]) + rest
    ensures whole == done + Blank(source[index..next]) + rest
  {
    assert source[index..][..next - index] == source[index..next];
    Regroup(done, Blank(source[index..next]), rest);
  }

  lemma CodeMoves(whole: string, source: string, done: string, index: nat, m: string, rest: string)
    requires index < |source| && whole == done + m && m == [source[index]] + rest
    ensures whole == done + [source[index]] + rest
    ensures done + source[index..] == done + [source[index]] + source[index + 1..]
  {
    Regroup(done, [source[index]], rest);
    Regroup(done, [source[index]], source[index + 1..]);
    assert source[index..] == [source[index]] + source[index + 1..];
  }

  lemma Regroup(a: string, b: string, c: string)
    ensures a + (b + c) == a + b + c
  {}

  lemma MaskSplit(t: string)
    requires t != []
    ensures Mask(t) == match TokenLength(t)
      case Some(n) => Blank(t[..n]) + Mask(t[n..])
      case None => [t[0]] + Mask(t[1..])
  {}

  // ---- what masking keeps and what it leaves ----

  /** A character is kept, or, unless it ends a line, becomes a space. */
  ghost predicate Masks(r: string, t: string) {
    |r| == |t| && forall k :: 0 <= k < |t| ==> r[k] == t[k] || (r[k] == ' ' && t[k] != '\r' && t[k] != '\n')
  }

  lemma {:induction false} MaskKeepsLines(t: string)
    ensures Masks(Mask(t), t)
  {
    if t != [] {
      match TokenLength(t)
      case Some(n) =>
        MaskKeepsLines(t[n..]);
        MasksPrefix(t, Blank(t[..n]), n);
      case None =>
        MaskKeepsLines(t[1..]);
        MasksPrefix(t, t[..1], 1);
    }
  }

  lemma MasksPrefix(t: string, a: string, n: nat)
    requires n <= |t| && Masks(a, t[..n]) && Masks(Mask(t[n..]), t[n..])
    ensures Masks(a + Mask(t[n..]), t)
  {
    MasksJoin(a, t[..n], Mask(t[n..]), t[n..]);
    assert t == t[..n] + t[n..];
  }

  lemma MasksJoin(a: string, b: string, c: string, d: string)
    requires Masks(a, b) && Masks(c, d)
    ensures Masks(a + c, b + d)
  {}

  /** No comment or literal begins anywhere. */
  ghost predicate Quiet(m: string) {
    m == [] || (TokenLength(m).None? && Quiet(m[1..]))
  }

  /** No double quote, and no comment opener, anywhere. */
  ghost predicate Clean(m: string) {
    && (forall k :: 0 <= k < |m| ==> m[k] != '"')
    && (forall k :: 0 <= k < |m| - 1 ==> m[k] == '/' ==> m[k + 1] != '/' && m[k + 1] != '*')
  }

  lemma {:induction false} QuietClean(m: string)
    requires Quiet(m)
    ensures Clean(m)
  {
    if m != [] {
      QuietClean(m[1..]);
      CleanFirst(m);
    }
  }

  lemma CleanFirst(m: string)
    requires m != [] && TokenLength(m).None? && Clean(m[1..])
    ensures Clean(m)
  {
    assert forall k :: 1 <= k < |m| ==> m[k] == m[1..][k - 1];
  }

  lemma {:induction false} QuietFixed(m: string)
    requires Quiet(m)
    ensures Mask(m) == m
  {
    if m != [] {
      QuietFixed(m[1..]);
      MaskSplit(m);
    }
  }

  lemma BlankQuiet(c: char, m: string)
    requires c == ' ' || c == '\r' || c == '\n'
    ensures TokenLength([c] + m).None?
  {}

  lemma {:induction false} BlanksQuiet(b: string, m: string)
    requires Quiet(m) && forall k :: 0 <= k < |b| ==> b[k] == BlankChar(b[k])
    ensures Quiet(b + m)
  {
    if b == [] {
      assert b + m == m;
    } else {
      BlanksQuiet(b[1..], m);
      BlankQuiet(b[0], b[1..] + m);
      QuietNext(b[0], b[1..] + m);
      Regroup([b[0]], b[1..], m);
      assert b == [b[0]] + b[1..];
    }
  }

  lemma QuietNext(c: char, m: string)
    requires Quiet(m) && TokenLength([c] + m).None?
    ensures Quiet([c] + m)
  {
    assert ([c] + m)[1..] == m;
  }

  /** A backslash begins no comment or literal, so at the head of the text it is kept. */
  lemma BackslashKept(t: string)
    requires t != [] && t[0] == '\\'
    ensures Mask(t)[0] == '\\'
  {
    MaskSplit(t);
  }

  /** The text begins with no opener; raw strings and character literals aside. */
  predicate NoOpener(t: string) {
    && !StartsTwo(t, '/', '/') && !StartsTwo(t, '/', '*') && !Starts(t, '"')
    && !StartsTwo(t, 'b', '"') && !StartsTwo(t, 'c', '"')
  }

  lemma NoToken(t: string)
    ensures TokenLength(t).None? <==> NoOpener(t) && RawLength(t).None? && CharLength(t).None?
  {}

  /** Masking what follows a kept character does not make it begin a literal. */
  lemma KeptQuiet(t: string, m: string)
    requires t != [] && TokenLength(t).None? && m == Mask(t[1..]) && Clean(m)
    ensures TokenLength([t[0]] + m).None?
  {
    MaskKeepsLines(t[1..]);
    if |t| > 1 && t[1] == '\\' { BackslashKept(t[1..]); }
    RawQuote(t[0], m);
    NoToken(t);
    KeptPlain(t, m, [t[0]] + m);
    NoToken([t[0]] + m);
  }

  lemma KeptPlain(t: string, m: string, r: string)
    requires t != [] && r == [t[0]] + m && Masks(m, t[1..]) && Clean(m) && NoOpener(t) && CharLength(t).None?
    requires |t| > 1 && t[1] == '\\' ==> m[0] == '\\'
    ensures NoOpener(r) && CharLength(r).None?
  {
    assert forall k :: 1 <= k < |t| ==> (r[k] == m[k - 1] && t[k] == t[1..][k - 1]);
    KeptCharacter(t, r);
  }

  lemma RawQuote(c: char, m: string)
    ensures RawLength([c] + m).Some? ==> exists k :: 0 <= k < |m| && m[k] == '"'
  {
    var r := [c] + m;
    if RawLength(r).Some? {
      var q := RawPrefix(r) + Hashes(r[RawPrefix(r)..]);
      assert m[q - 1] == r[q];
    }
  }

  lemma KeptCharacter(t: string, r: string)
    requires |r| == |t| > 0 && r[0] == t[0] && CharLength(t).None?
    requires forall k :: 0 <= k < |t| ==> r[k] == t[k] || r[k] == ' '
    requires |t| > 1 && t[1] == '\\' ==> r[1] == '\\'
    ensures CharLength(r).None?
  {}

  lemma {:induction false} MaskQuiet(t: string)
    ensures Quiet(Mask(t))
  {
    if t != [] {
      MaskSplit(t);
      match TokenLength(t)
      case Some(n) =>
        MaskQuiet(t[n..]);
        BlanksQuiet(Blank(t[..n]), Mask(t[n..]));
      case None =>
        var m := Mask(t[1..]);
        MaskQuiet(t[1..]);
        QuietClean(m);
        KeptQuiet(t, m);
        QuietNext(t[0], m);
    }
  }

  /** Masking is total and stable: it keeps every offset and line end, changes characters only to spaces,
      leaves no double quote and no comment opener, and masking again changes nothing. */
  lemma MaskStable(t: string)
    ensures Masks(Mask(t), t) && Clean(Mask(t)) && Mask(Mask(t)) == Mask(t)
  {
    MaskKeepsLines(t);
    MaskQuiet(t);
    QuietClean(Mask(t));
    QuietFixed(Mask(t));
  }
}
