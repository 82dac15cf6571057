/** Rust source built from tokens: masking its text blanks exactly the comments and literals. */
module RustTokens {
  import opened Common
  import opened RustMask

  /** One character of a quoted literal: any but the quote and the backslash, or a backslash and any. */
  datatype Quotable = Plain(c: char) | Escape(c: char)

  /** The inside of a block comment: characters and nested comments. */
  datatype Piece = Letter(c: char) | Nested(body: seq<Piece>)

  datatype Token =
    | Code(c: char)
    | Line(text: string)
    | Block(body: seq<Piece>)
    | Quoted(prefix: string, chars: seq<Quotable>)
    | Raw(prefix: string, hashes: nat, text: string)
    | Character(text: string)

  // ---- printing ----

  function QuotedText(chars: seq<Quotable>): string {
    if chars == [] then "\""
    else match chars[0]
      case Plain(c) => [c] + QuotedText(chars[1..])
      case Escape(c) => ['\\', c] + QuotedText(chars[1..])
  }

  /** The pieces, then whatever follows the comment's closing mark. */
  function PiecesText(body: seq<Piece>, after: string): string
    decreases body
  {
    if body == [] then "*/" + after
    else match body[0]
      case Letter(c) => [c] + PiecesText(body[1..], after)
      case Nested(inner) => "/*" + PiecesText(inner, PiecesText(body[1..], after))
  }

  function TokenText(t: Token, after: string): string {
    match t
    case Code(c) => [c] + after
    case Line(text) => "//" + text + after
    case Block(body) => "/*" + PiecesText(body, after)
    case Quoted(prefix, chars) => prefix + "\"" + (QuotedText(chars) + after)
    case Raw(prefix, hashes, text) => prefix + Repeat('#', hashes) + "\"" + (text + (Terminator(hashes) + after))
    case Character(text) => "'" + text + "'" + after
  }

  function Source(tokens: seq<Token>): string {
    if tokens == [] then "" else TokenText(tokens[0], Source(tokens[1..]))
  }

  // ---- code: what no comment or literal begins with ----

  /** A comment, a quote with or without a prefix, a raw string or a closed character literal begins here. */
  ghost predicate Opens(t: string) {
    || "//" <= t || "/*" <= t || "\"" <= t || "b\"" <= t || "c\"" <= t
    || (exists prefix, n :: OpensRaw(t, prefix, n))
    || (exists text :: ClosedCharacter(t, text))
  }

  ghost predicate OpensRaw(t: string, prefix: string, n: nat) {
    prefix in {"r", "br", "cr"} && prefix + Repeat('#', n) + "\"" <= t
  }

  /** One character, or a backslash and one, between apostrophes: a lifetime is not closed. */
  ghost predicate ClosedCharacter(t: string, text: string) {
    && ((|text| == 1 && text[0] != '\\') || (|text| == 2 && text[0] == '\\'))
    && "'" + text + "'" <= t
  }

  // ---- well-formedness: each token is what its text says it is, given what follows ----

  /** No character of the comment pairs up with the next to open or close a comment. */
  ghost predicate PiecesFit(body: seq<Piece>, after: string)
    decreases body
  {
    body == [] ||
    match body[0]
    case Letter(c) =>
      && !StartsTwo([c] + PiecesText(body[1..], after), '/', '*')
      && !StartsTwo([c] + PiecesText(body[1..], after), '*', '/')
      && PiecesFit(body[1..], after)
    case Nested(inner) => PiecesFit(inner, PiecesText(body[1..], after)) && PiecesFit(body[1..], after)
  }

  ghost predicate TokenFits(t: Token, after: string) {
    match t
    case Code(c) => !Opens([c] + after)
    case Line(text) => '\n' !in text && (after == "" || after[0] == '\n')
    case Block(body) => PiecesFit(body, after)
    case Quoted(prefix, chars) =>
      && prefix in ["", "b", "c"]
      && forall k :: 0 <= k < |chars| ==> chars[k].Plain? ==> chars[k].c != '"' && chars[k].c != '\\'
    case Raw(prefix, hashes, text) =>
      && prefix in ["r", "br", "cr"]
      && forall k :: 0 <= k < |text| ==> !(Terminator(hashes) <= (text + Terminator(hashes))[k..])
    case Character(text) => (|text| == 1 && text[0] != '\\') || (|text| == 2 && text[0] == '\\')
  }

  ghost predicate Fits(tokens: seq<Token>) {
    tokens == [] || (TokenFits(tokens[0], Source(tokens[1..])) && Fits(tokens[1..]))
  }

  /** What masking should leave of one token. */
  ghost function Left(t: Token, after: string): string {
    var n := |TokenText(t, after)| - |after|;
    if t.Code? then [t.c] else if n >= 0 then Blank(TokenText(t, after)[..n]) else ""
  }

  ghost function LeftOf(tokens: seq<Token>): string {
    if tokens == [] then "" else Left(tokens[0], Source(tokens[1..])) + LeftOf(tokens[1..])
  }

  // ---- each kind of token is recognised whole ----

  lemma {:induction false} QuotedRecognised(chars: seq<Quotable>, after: string)
    requires forall k :: 0 <= k < |chars| ==> chars[k].Plain? ==> chars[k].c != '"' && chars[k].c != '\\'
    ensures QuotedLength(QuotedText(chars) + after) == |QuotedText(chars)|
  {
    var t := QuotedText(chars) + after;
    if chars != [] {
      QuotedRecognised(chars[1..], after);
      var n := if chars[0].Plain? then 1 else 2;
      assert t[n..] == QuotedText(chars[1..]) + after;
    }
  }

  ghost predicate EndsWith(t: string, after: string) {
    |t| >= |after| && t[|t| - |after|..] == after
  }

  /** A comment body, with its closing mark, is exactly what closes the open comments: nested marks balance. */
  lemma {:induction false} PiecesRecognised(body: seq<Piece>, after: string, depth: nat)
    requires PiecesFit(body, after) && depth > 0
    ensures EndsWith(PiecesText(body, after), after)
    ensures BlockLength(PiecesText(body, after), depth)
      == |PiecesText(body, after)| - |after| + BlockLength(after, depth - 1)
    decreases body
  {
    if body == [] {
      MarkStep("*/", after, depth);
    } else {
      var u := PiecesText(body[1..], after);
      PiecesRecognised(body[1..], after, depth);
      match body[0]
      case Letter(c) =>
        LetterStep(c, u, depth);
        Suffix([c], u, after);
      case Nested(inner) =>
        PiecesRecognised(inner, u, depth + 1);
        var w := PiecesText(inner, u);
        MarkStep("/*", w, depth);
        SuffixTransitive(w, u, after);
        Suffix("/*", w, after);
    }
  }

  lemma LetterStep(c: char, u: string, depth: nat)
    requires depth > 0 && !StartsTwo([c] + u, '/', '*') && !StartsTwo([c] + u, '*', '/')
    ensures BlockLength([c] + u, depth) == 1 + BlockLength(u, depth)
  {
    assert ([c] + u)[1..] == u;
  }

  lemma MarkStep(mark: string, u: string, depth: nat)
    requires depth > 0 && (mark == "/*" || mark == "*/")
    ensures BlockLength(mark + u, depth) == 2 + BlockLength(u, if mark == "/*" then depth + 1 else depth - 1)
    ensures EndsWith(mark + u, u)
  {
    assert (mark + u)[2..] == u;
  }

  lemma SuffixTransitive(w: string, u: string, after: string)
    requires EndsWith(w, u) && EndsWith(u, after)
    ensures EndsWith(w, after)
  {}

  lemma Suffix(a: string, u: string, after: string)
    requires EndsWith(u, after)
    ensures EndsWith(a + u, after)
  {}

  lemma {:induction false} LineRecognised(text: string, after: string)
    requires '\n' !in text && (after == "" || after[0] == '\n')
    ensures LineLength(text + after) == |text|
  {
    if text == "" {
      assert text + after == after;
    } else {
      LineRecognised(text[1..], after);
      assert (text + after)[1..] == text[1..] + after;
    }
  }

  lemma {:induction false} HashesRecognised(n: nat, after: string)
    requires after != "" && after[0] != '#'
    ensures Hashes(Repeat('#', n) + after) == n
  {
    if n == 0 {
      assert Repeat('#', 0) + after == after;
    } else {
      HashesRecognised(n - 1, after);
      assert (Repeat('#', n) + after)[1..] == Repeat('#', n - 1) + after;
    }
  }

  lemma {:induction false} ThroughRecognised(text: string, p: string, after: string)
    requires p != "" && forall k :: 0 <= k < |text| ==> !(p <= (text + p)[k..])
    ensures ThroughLength(text + (p + after), p) == |text| + |p|
  {
    var t := text + (p + after);
    if text == "" {
      assert t == p + after;
    } else {
      assert text + p <= t by { assert t == text + p + after; }
      assert !(p <= (text + p)[0..]) && (text + p)[0..] == text + p;
      if p <= t { ShorterPrefix(p, text + p, t); }
      forall k | 0 <= k < |text[1..]|
        ensures !(p <= (text[1..] + p)[k..])
      {
        assert (text[1..] + p)[k..] == (text + p)[k + 1..];
      }
      ThroughRecognised(text[1..], p, after);
      assert t[1..] == text[1..] + (p + after);
    }
  }

  lemma ShorterPrefix(p: string, s: string, t: string)
    requires p <= t && s <= t && |p| <= |s|
    ensures p <= s
  {}

  // ---- the theorem ----

  /** The lexer takes exactly the token. */
  ghost predicate Recognised(s: string, after: string) {
    EndsWith(s, after) && |s| > |after| && TokenLength(s) == Some(|s| - |after|)
  }

  lemma LineToken(text: string, after: string)
    requires TokenFits(Line(text), after)
    ensures Recognised(TokenText(Line(text), after), after)
  {
    var t := TokenText(Line(text), after);
    LineRecognised(text, after);
    LineOpened(t, text + after);
    Suffix("//", text + after, after);
    assert t == "//" + (text + after);
  }

  lemma LineOpened(t: string, rest: string)
    requires t == "//" + rest
    ensures StartsTwo(t, '/', '/') && LineLength(t) == 2 + LineLength(rest)
  {
    assert t[1..] == ['/'] + rest && t[1..][1..] == rest;
  }

  lemma BlockToken(body: seq<Piece>, after: string)
    requires TokenFits(Block(body), after)
    ensures Recognised(TokenText(Block(body), after), after)
  {
    PiecesRecognised(body, after, 1);
    assert TokenText(Block(body), after)[2..] == PiecesText(body, after);
    Suffix("/*", PiecesText(body, after), after);
    assert BlockLength(after, 0) == 0;
  }

  lemma QuotedToken(prefix: string, chars: seq<Quotable>, after: string)
    requires TokenFits(Quoted(prefix, chars), after)
    ensures Recognised(TokenText(Quoted(prefix, chars), after), after)
  {
    var t, u := TokenText(Quoted(prefix, chars), after), QuotedText(chars) + after;
    QuotedRecognised(chars, after);
    assert t[|prefix| + 1..] == u;
    assert t[|prefix|] == '"' && (|prefix| == 1 ==> t[0] == prefix[0]);
  }

  lemma RawToken(prefix: string, hashes: nat, text: string, after: string)
    requires TokenFits(Raw(prefix, hashes, text), after)
    ensures Recognised(TokenText(Raw(prefix, hashes, text), after), after)
  {
    RawTerminated(prefix, hashes, text, after);
    RawRead(TokenText(Raw(prefix, hashes, text), after), prefix, hashes, text + (Terminator(hashes) + after), after);
  }

  /** The raw string's body ends, with its terminator, where `after` begins. */
  ghost predicate Terminated(hashes: nat, body: string, after: string) {
    |body| > |after| && EndsWith(body, after) && ThroughLength(body, Terminator(hashes)) == |body| - |after|
  }

  lemma RawTerminated(prefix: string, hashes: nat, text: string, after: string)
    requires TokenFits(Raw(prefix, hashes, text), after)
    ensures Terminated(hashes, text + (Terminator(hashes) + after), after)
  {
    ThroughRecognised(text, Terminator(hashes), after);
    Suffix(text, Terminator(hashes) + after, after);
  }

  lemma RawRead(t: string, prefix: string, hashes: nat, body: string, after: string)
    requires t == prefix + Repeat('#', hashes) + "\"" + body
    requires prefix in ["r", "br", "cr"] && Terminated(hashes, body, after)
    ensures Recognised(t, after)
  {
    HashesRecognised(hashes, "\"" + body);
    RawPieces(prefix, hashes, body);
    RawStart(t, prefix);
    RawOf(t, |prefix|, hashes, body, after);
  }

  lemma RawOf(t: string, p: nat, hashes: nat, body: string, after: string)
    requires RawPrefix(t) == p > 0 && Hashes(t[p..]) == hashes && |t| > p + hashes && t[p + hashes] == '"'
    requires t[p + hashes + 1..] == body && Terminated(hashes, body, after)
    ensures Recognised(t, after)
  {
    RawMeasured(t, p, hashes, body);
    RawChosen(t, after);
  }

  lemma RawMeasured(t: string, p: nat, hashes: nat, body: string)
    requires RawPrefix(t) == p > 0 && Hashes(t[p..]) == hashes && |t| > p + hashes && t[p + hashes] == '"'
    requires t[p + hashes + 1..] == body
    ensures RawLength(t) == Some(p + hashes + 1 + ThroughLength(body, Terminator(hashes)))
  {}

  lemma RawChosen(t: string, after: string)
    requires EndsWith(t, after) && |t| > |after| && RawLength(t) == Some(|t| - |after|)
    ensures Recognised(t, after)
  {}

  lemma RawPieces(prefix: string, hashes: nat, body: string)
    ensures var t := prefix + Repeat('#', hashes) + "\"" + body;
      && t[|prefix|..] == Repeat('#', hashes) + ("\"" + body)
      && t[|prefix| + hashes] == '"' && t[|prefix| + hashes + 1..] == body
  {}

  lemma RawStart(t: string, prefix: string)
    requires prefix in ["r", "br", "cr"] && |t| > |prefix| && prefix <= t && (t[|prefix|] == '#' || t[|prefix|] == '"')
    ensures RawPrefix(t) == |prefix|
  {
    assert t[..|prefix|] == prefix;
    assert t[0] == prefix[0] && (|prefix| == 2 ==> t[1] == prefix[1]);
  }

  lemma CharacterToken(text: string, after: string)
    requires TokenFits(Character(text), after)
    ensures Recognised(TokenText(Character(text), after), after)
  {
    var t := TokenText(Character(text), after);
    assert t[0] == '\'' && t[1] == text[0] && t[|text| + 1] == '\'';
  }

  lemma TokenRecognised(t: Token, after: string)
    requires TokenFits(t, after) && !t.Code?
    ensures Recognised(TokenText(t, after), after)
  {
    match t
    case Line(text) => LineToken(text, after);
    case Block(body) => BlockToken(body, after);
    case Quoted(prefix, chars) => QuotedToken(prefix, chars, after);
    case Raw(prefix, hashes, text) => RawToken(prefix, hashes, text, after);
    case Character(text) => CharacterToken(text, after);
  }

  lemma MaskToken(t: Token, after: string)
    requires TokenFits(t, after)
    ensures Mask(TokenText(t, after)) == Left(t, after) + Mask(after)
  {
    if t.Code? {
      OpensToken([t.c] + after);
      MaskCode(t.c, after);
    } else {
      TokenRecognised(t, after);
      MaskRecognised(TokenText(t, after), after);
    }
  }

  /** The lexer takes something for a token exactly where one opens. */
  lemma OpensToken(t: string)
    ensures TokenLength(t).Some? <==> Opens(t)
  {
    NoToken(t);
    OpenersSpelled(t);
    if RawLength(t).Some? { RawOpens(t); }
    if prefix, n :| OpensRaw(t, prefix, n) { OpensRawLength(t, prefix, n); }
    if CharLength(t).Some? { ClosedSpelled(t); }
    if text :| ClosedCharacter(t, text) { SpelledClosed(t, text); }
  }

  lemma OpenersSpelled(t: string)
    ensures NoOpener(t) <==> !("//" <= t) && !("/*" <= t) && !("\"" <= t) && !("b\"" <= t) && !("c\"" <= t)
  {}

  lemma RawOpens(t: string)
    requires RawLength(t).Some?
    ensures OpensRaw(t, t[..RawPrefix(t)], Hashes(t[RawPrefix(t)..]))
  {
    var p := RawPrefix(t);
    var rest := t[p..];
    var h := Hashes(rest);
    HashesSpelled(rest);
    assert rest[h] == t[p + h] == '"' && t == t[..p] + rest;
    QuoteFollows(t, t[..p], Repeat('#', h), rest);
    PrefixSpelled(t);
  }

  lemma PrefixSpelled(t: string)
    requires RawPrefix(t) > 0
    ensures t[..RawPrefix(t)] in {"r", "br", "cr"}
  {
    assert t[..RawPrefix(t)] == (if RawPrefix(t) == 1 then "r" else if t[0] == 'b' then "br" else "cr");
  }

  lemma QuoteFollows(t: string, prefix: string, hashes: string, rest: string)
    requires t == prefix + rest && hashes <= rest && |rest| > |hashes| && rest[|hashes|] == '"'
    ensures prefix + hashes + "\"" <= t
  {
    assert rest == hashes + ("\"" + rest[|hashes| + 1..]);
    ConcatAssociates(prefix, hashes, "\"" + rest[|hashes| + 1..]);
    ConcatAssociates(prefix + hashes, "\"", rest[|hashes| + 1..]);
  }

  lemma {:induction false} HashesSpelled(t: string)
    ensures t == Repeat('#', Hashes(t)) + t[Hashes(t)..]
  {
    if t != [] && t[0] == '#' {
      HashesSpelled(t[1..]);
      var n := Hashes(t[1..]);
      assert t == [t[0]] + t[1..] && t[1..][n..] == t[n + 1..];
      ConcatAssociates(['#'], Repeat('#', n), t[n + 1..]);
    }
  }

  lemma OpensRawLength(t: string, prefix: string, n: nat)
    requires OpensRaw(t, prefix, n)
    ensures RawLength(t).Some?
  {
    var open := prefix + Repeat('#', n) + "\"";
    var body := t[|open|..];
    assert t == open + body;
    HashesRecognised(n, "\"" + body);
    RawPieces(prefix, n, body);
    RawStart(t, prefix);
    RawMeasured(t, |prefix|, n, body);
  }

  lemma ClosedSpelled(t: string)
    requires CharLength(t).Some?
    ensures ClosedCharacter(t, t[1..CharLength(t).value - 1])
  {
    var e := CharLength(t).value;
    assert t[..e] == "'" + t[1..e - 1] + "'";
  }

  lemma SpelledClosed(t: string, text: string)
    requires ClosedCharacter(t, text)
    ensures CharLength(t).Some?
  {
    var whole := "'" + text + "'";
    assert forall k :: 0 <= k < |whole| ==> t[k] == whole[k];
  }

  /** A lifetime is kept: an apostrophe that no second one follows in the place for it. */
  lemma LifetimeKept(c: char, rest: string)
    requires c != '\\' && (rest == "" || rest[0] != '\'')
    ensures Mask("'" + [c] + rest) == "'" + Mask([c] + rest)
  {
    var t := ['\''] + ([c] + rest);
    assert t == "'" + [c] + rest;
    assert t[0] == '\'' && t[1] == c && (rest != "" ==> t[2] == rest[0]);
    NotClosed(t);
    MaskCode('\'', [c] + rest);
  }

  lemma NotClosed(t: string)
    requires |t| > 1 && t[0] == '\'' && t[1] != '\\' && (|t| > 2 ==> t[2] != '\'')
    ensures TokenLength(t).None?
  {
    NoToken(t);
  }

  lemma MaskCode(c: char, after: string)
    requires TokenLength([c] + after).None?
    ensures Mask([c] + after) == [c] + Mask(after)
  {
    MaskSplit([c] + after);
    assert ([c] + after)[1..] == after;
  }

  lemma MaskRecognised(s: string, after: string)
    requires Recognised(s, after)
    ensures Mask(s) == Blank(s[..|s| - |after|]) + Mask(after)
  {
    MaskTaken(s, |s| - |after|, after);
  }

  lemma MaskTaken(s: string, n: nat, after: string)
    requires s != "" && TokenLength(s) == Some(n) && n <= |s| && s[n..] == after
    ensures Mask(s) == Blank(s[..n]) + Mask(after)
  {
    MaskOfToken(s, n);
  }

  /** Masking printed tokens keeps the code characters and blanks every comment and literal, whole. */
  lemma {:induction false} MaskTokens(tokens: seq<Token>)
    requires Fits(tokens)
    ensures Mask(Source(tokens)) == LeftOf(tokens)
  {
    if tokens != [] {
      MaskTokens(tokens[1..]);
      MaskToken(tokens[0], Source(tokens[1..]));
    }
  }
}
