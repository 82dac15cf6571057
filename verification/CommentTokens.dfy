/** Rust source built from tokens: stripping comments keeps code and literals and drops or blanks each comment. */
module CommentTokens {
  import opened Common
  import opened CommentStrip
  import M = RustMask
  import opened T = RustTokens

  // ---- what a token is, from the text alone; `free` says that no word character stands before it ----

  /** A comment, a quote, a raw string at the head of a word or a closed character literal begins here. */
  ghost predicate OpensHere(t: string, free: bool) {
    || "//" <= t || "/*" <= t || "\"" <= t
    || (exists prefix, n :: OpensRawHere(t, free, prefix, n))
    || (exists x :: ClosedHere(t, x))
  }

  /** A raw string opens only at the head of a word, and its opening is not overlong. */
  ghost predicate OpensRawHere(t: string, free: bool, prefix: string, n: nat) {
    free && prefix in {"r", "br"} && |prefix| + n < 260 && prefix + M.Repeat('#', n) + "\"" <= t
  }

  ghost predicate ClosedHere(t: string, x: string) {
    Closed(x) && "'" + x + "'" <= t
  }

  /** One character that is neither an apostrophe nor a backslash, or a backslash, one character of the line and up to
      eight more. */
  ghost predicate Closed(x: string) {
    || (|x| == 1 && x[0] != '\\' && x[0] != '\'')
    || (2 <= |x| <= 10 && x[0] == '\\' && x[1] != '\n' && '\'' !in x[2..])
  }

  ghost predicate FitsHere(t: Token, free: bool, after: string) {
    match t
    case Code(c) => !OpensHere([c] + after, free)
    case Line(x) => '\n' !in x && (after == "" || after[0] == '\n')
    case Block(body) => PiecesFit(body, after)
    case Quoted(prefix, chars) => prefix == "" && TokenFits(t, after)
    case Raw(prefix, n, x) => free && prefix in {"r", "br"} && |prefix| + n < 260 && TokenFits(t, after)
    case Character(x) => Closed(x)
  }

  /** Whether a word character ends the token. */
  predicate FreeAfter(word: WordTest, t: Token) {
    match t
    case Code(c) => !word(c)
    case Line(x) => !word(if x == "" then '/' else x[|x| - 1])
    case Block(_) => !word('/')
    case Quoted(_, _) => !word('"')
    case Raw(_, n, _) => !word(if n == 0 then '"' else '#')
    case Character(_) => !word('\'')
  }

  /** Each token fits where it stands. */
  ghost predicate FitTogether(word: WordTest, free: bool, tokens: seq<Token>)
    decreases |tokens|
  {
    tokens != [] ==>
      && FitsHere(tokens[0], free, Source(tokens[1..]))
      && FitTogether(word, FreeAfter(word, tokens[0]), tokens[1..])
  }

  // ---- what should be left ----

  /** A block comment leaves its line feeds and a space for every other character between the marks. */
  ghost function Blanked(body: seq<Piece>): string
    decreases body
  {
    if body == [] then ""
    else match body[0]
      case Letter(c) => (if c == '\n' then "\n" else " ") + Blanked(body[1..])
      case Nested(inner) => Blanked(inner) + Blanked(body[1..])
  }

  /** Code and literals stay as they are, and a line comment leaves nothing. */
  ghost function Remains(t: Token, after: string): string {
    match t
    case Line(_) => ""
    case Block(body) => Blanked(body)
    case _ => if |after| <= |TokenText(t, after)| then TokenText(t, after)[..|TokenText(t, after)| - |after|] else ""
  }

  ghost function RemainsOf(tokens: seq<Token>): string {
    if tokens == [] then "" else Remains(tokens[0], Source(tokens[1..])) + RemainsOf(tokens[1..])
  }

  // ---- the scanner on the text that is left to read ----

  datatype Move = Move(n: nat, edit: Edit, depth: nat)

  ghost function RawLengthHere(t: string, free: bool): (n: nat)
    ensures n <= |t|
  {
    var p := PrefixLength(t);
    if p == 0 || !free then 0 else RawLengthAfter(t[p..], p)
  }

  ghost function PrefixLength(t: string): (p: nat)
    ensures p <= |t|
  {
    if M.StartsTwo(t, 'b', 'r') then 2 else if M.Starts(t, 'r') then 1 else 0
  }

  /** The length of a raw string of which so many characters stand before t. */
  ghost function RawLengthAfter(t: string, p: nat): (n: nat)
    ensures n <= p + |t|
  {
    var h := M.Hashes(t);
    if p + h >= RAW_WINDOW || |t| <= h || t[h] != '"' then 0
    else p + h + 1 + M.ThroughLength(t[h + 1..], M.Terminator(h))
  }

  ghost function ApostropheLength(t: string): (n: nat)
    ensures n <= |t| && '\'' !in t[..n] && (n < |t| ==> t[n] == '\'')
  {
    if t == "" || t[0] == '\'' then 0
    else
      var n := ApostropheLength(t[1..]);
      assert t[..n + 1] == [t[0]] + t[1..][..n];
      1 + n
  }

  ghost function CharLengthHere(t: string): (n: nat)
    ensures n <= |t|
  {
    if |t| < 3 || t[0] != '\'' then 0
    else if t[1] == '\\' then
      var q := ApostropheLength(t[3..]);
      if t[2] == '\n' || q > ESCAPE_WINDOW || 3 + q == |t| then 0 else 3 + q + 1
    else if t[1] != '\'' && t[2] == '\'' then 3
    else 0
  }

  /** The length of the literal at the head of the text, or of the one character of code. */
  ghost function LiteralLength(t: string, free: bool): (n: nat)
    requires t != ""
    ensures 1 <= n <= |t|
  {
    if RawLengthHere(t, free) > 0 then RawLengthHere(t, free)
    else if t[0] == '"' then 1 + M.QuotedLength(t[1..])
    else if CharLengthHere(t) > 0 then CharLengthHere(t)
    else 1
  }

  ghost function MoveOf(t: string, free: bool, depth: nat): (m: Move)
    requires t != ""
    ensures 1 <= m.n <= |t|
  {
    if depth > 0 then
      if M.StartsTwo(t, '/', '*') then Move(2, Drop, depth + 1)
      else if M.StartsTwo(t, '*', '/') then Move(2, Drop, depth - 1)
      else Move(1, if t[0] == '\n' then Keep else Space, depth)
    else if M.StartsTwo(t, '/', '/') then Move(2 + M.LineLength(t[2..]), Drop, 0)
    else if M.StartsTwo(t, '/', '*') then Move(2, Drop, 1)
    else Move(LiteralLength(t, free), Keep, 0)
  }

  /** Where the scanner may stand: what is left to read, whether no word character is before it, the open comments. */
  datatype Place = Place(t: string, free: bool, depth: nat)

  /** What is written from each place of one text on. */
  type Rests = imap<Place, string>

  /** From p on, out is written and the scanner is at q. */
  ghost predicate Writes(rest: Rests, p: Place, out: string, q: Place) {
    p in rest ==> q in rest && rest[p] == out + rest[q]
  }

  ghost predicate FreeAt(word: WordTest, text: string, i: nat)
    requires i <= |text|
  {
    i == 0 || !word(text[i - 1])
  }

  ghost predicate StandsAt(word: WordTest, text: string, p: Place) {
    && |p.t| <= |text| && text[|text| - |p.t|..] == p.t
    && p.free == FreeAt(word, text, |text| - |p.t|)
  }

  datatype Spot = Spot(i: nat, depth: nat)

  ghost predicate StepAt(word: WordTest, text: string, p: Spot, s: Step) {
    p.i < s.end <= |text| && Next(word, text, p.i, p.depth) == s
  }

  /** The scanner makes this move from there. */
  ghost predicate MovesBy(word: WordTest, text: string, p: Place, m: Move) {
    && |p.t| <= |text| && 1 <= m.n <= |p.t|
    && var i := |text| - |p.t|; Next(word, text, i, p.depth) == Step(i + m.n, m.edit, m.depth)
  }

  ghost predicate MoveWritten(word: WordTest, rest: Rests, p: Place, m: Move)
    requires 1 <= m.n <= |p.t|
  {
    Writes(rest, p, Written(p.t[..m.n], m.edit), Place(p.t[m.n..], !word(p.t[m.n - 1]), m.depth))
  }

  /** Each move is written. */
  ghost predicate Obeys(word: WordTest, text: string, rest: Rests) {
    && (forall p: Place {:trigger StandsAt(word, text, p)} :: p in rest ==> StandsAt(word, text, p))
    && (forall p: Place, m {:trigger MovesBy(word, text, p, m)} ::
          p in rest && MovesBy(word, text, p, m) ==> MoveWritten(word, rest, p, m))
  }

  lemma {:induction false} LineMeasured(text: string, i: nat)
    requires i <= |text|
    ensures LineEnd(text, i) == i + M.LineLength(text[i..])
    decreases |text| - i
  {
    if i < |text| && text[i] != '\n' {
      LineMeasured(text, i + 1);
      assert text[i..][1..] == text[i + 1..];
    }
  }

  lemma {:induction false} HashesMeasured(text: string, i: nat)
    requires i <= |text|
    ensures HashesAt(text, i) == M.Hashes(text[i..])
    decreases |text| - i
  {
    if At(text, i, '#') {
      HashesMeasured(text, i + 1);
      assert text[i..][1..] == text[i + 1..];
    }
  }

  lemma {:induction false} QuoteMeasured(text: string, i: nat)
    requires i <= |text|
    ensures QuotedStop(text, i) == i + M.QuotedLength(text[i..])
    decreases |text| - i
  {
    if i < |text| && text[i] == '\\' {
      if i + 2 <= |text| {
        QuoteMeasured(text, i + 2);
        assert text[i..][2..] == text[i + 2..];
      }
    } else if i < |text| && text[i] != '"' {
      QuoteMeasured(text, i + 1);
      assert text[i..][1..] == text[i + 1..];
    }
  }

  lemma {:induction false} HashesAtLeast(t: string, n: nat)
    ensures M.Hashes(t) >= n <==> M.Repeat('#', n) <= t
  {
    if n > 0 && t != [] && t[0] == '#' {
      HashesAtLeast(t[1..], n - 1);
      assert t == [t[0]] + t[1..];
      assert M.Repeat('#', n) == ['#'] + M.Repeat('#', n - 1);
      if M.Repeat('#', n) <= t { assert M.Repeat('#', n)[1..] == M.Repeat('#', n - 1); }
    }
  }

  lemma {:induction false} ClosingMeasured(text: string, i: nat, n: nat)
    requires i <= |text|
    ensures ClosingEnd(text, i, n) == i + M.ThroughLength(text[i..], M.Terminator(n))
    decreases |text| - i
  {
    if i < |text| {
      TerminatorAt(text, i, n);
      assert text[i..][1..] == text[i + 1..];
      ClosingMeasured(text, i + 1, n);
    }
  }

  lemma TerminatorAt(text: string, i: nat, n: nat)
    requires i < |text|
    ensures M.Terminator(n) <= text[i..] <==> text[i] == '"' && HashesAt(text, i + 1) >= n
  {
    var t := text[i..];
    HashesMeasured(text, i + 1);
    HashesAtLeast(text[i + 1..], n);
    assert t == [text[i]] + text[i + 1..];
    if M.Terminator(n) <= t { assert M.Terminator(n)[1..] == M.Repeat('#', n) <= t[1..]; }
  }

  lemma {:induction false} ApostropheMeasured(text: string, i: nat)
    requires i <= |text|
    ensures ApostropheFrom(text, i) == i + ApostropheLength(text[i..])
    decreases |text| - i
  {
    if i < |text| && text[i] != '\'' {
      ApostropheMeasured(text, i + 1);
      assert text[i..][1..] == text[i + 1..];
    }
  }

  lemma RawIs(word: WordTest, text: string, i: nat)
    requires i < |text|
    ensures RawStringEnd(word, text, i) == i + RawLengthHere(text[i..], FreeAt(word, text, i))
  {
    RawHeadIs(text, i);
    var p := PrefixLength(text[i..]);
    if p > 0 && FreeAt(word, text, i) {
      RawEndIs(word, text, i, p);
      RawAfterIs(text, i + p, p);
      Shifts(text, i, p);
    }
  }

  lemma RawEndIs(word: WordTest, text: string, i: nat, p: nat)
    requires i < |text| && p > 0 && FreeAt(word, text, i)
    requires p == if Two(text, i, 'b', 'r') then 2 else if At(text, i, 'r') then 1 else 0
    ensures RawStringEnd(word, text, i) == RawEndAfter(text, i + p, p)
  {}

  function RawEndAfter(text: string, j: nat, p: nat): (e: nat)
    requires p <= j <= |text|
    ensures j - p <= e <= |text|
  {
    var h := HashesAt(text, j);
    if p + h >= RAW_WINDOW || !At(text, j + h, '"') then j - p else ClosingEnd(text, j + h + 1, h)
  }

  lemma Shifts(text: string, i: nat, n: nat)
    requires i + n <= |text|
    ensures text[i..][n..] == text[i + n..]
  {}

  lemma RawAfterIs(text: string, j: nat, p: nat)
    requires p <= j <= |text|
    ensures j - p + RawLengthAfter(text[j..], p) == RawEndAfter(text, j, p)
  {
    HashesMeasured(text, j);
    var h := HashesAt(text, j);
    if j + h < |text| {
      Shifts(text, j, h + 1);
      assert text[j..][h] == text[j + h];
      ClosingMeasured(text, j + h + 1, h);
    }
  }

  lemma RawHeadIs(text: string, i: nat)
    requires i < |text|
    ensures Two(text, i, 'b', 'r') <==> M.StartsTwo(text[i..], 'b', 'r')
    ensures At(text, i, 'r') <==> M.Starts(text[i..], 'r')
  {}

  lemma CharIs(text: string, i: nat)
    requires i < |text|
    ensures CharLiteralEnd(text, i) == i + CharLengthHere(text[i..])
  {
    var t := text[i..];
    if |t| >= 3 {
      assert t[1] == text[i + 1] && t[2] == text[i + 2] && t[3..] == text[i + 3..];
      ApostropheMeasured(text, i + 3);
    }
  }

  lemma LiteralIs(word: WordTest, text: string, i: nat)
    requires i < |text|
    ensures LiteralEnd(word, text, i) == i + LiteralLength(text[i..], FreeAt(word, text, i))
  {
    RawIs(word, text, i);
    CharIs(text, i);
    QuoteMeasured(text, i + 1);
    assert text[i..][1..] == text[i + 1..];
  }

  lemma NextInside(word: WordTest, text: string, i: nat, depth: nat)
    requires i < |text| && depth > 0
    ensures var m := MoveOf(text[i..], FreeAt(word, text, i), depth);
      Next(word, text, i, depth) == Step(i + m.n, m.edit, m.depth)
  {
    assert |text[i..]| >= 2 ==> text[i..][1] == text[i + 1];
  }

  lemma NextOutside(word: WordTest, text: string, i: nat)
    requires i < |text|
    ensures var m := MoveOf(text[i..], FreeAt(word, text, i), 0);
      Next(word, text, i, 0) == Step(i + m.n, m.edit, m.depth)
  {
    var t := text[i..];
    assert |t| >= 2 ==> t[1] == text[i + 1];
    if Two(text, i, '/', '/') {
      LineMeasured(text, i + 2);
      assert t[2..] == text[i + 2..];
    } else if !Two(text, i, '/', '*') {
      LiteralIs(word, text, i);
    }
  }

  lemma NextIs(word: WordTest, text: string, i: nat, depth: nat)
    requires i < |text|
    ensures var m := MoveOf(text[i..], FreeAt(word, text, i), depth);
      Next(word, text, i, depth) == Step(i + m.n, m.edit, m.depth)
  {
    if depth > 0 { NextInside(word, text, i, depth); } else { NextOutside(word, text, i); }
  }

  /** What is written from i on with so many comments open. */
  ghost function Rest(word: WordTest, text: string, i: nat, depth: nat): string
    requires i <= |text|
  {
    Output(text, i, Reading(word, text, i, depth))
  }

  lemma RestStep(word: WordTest, text: string, i: nat, depth: nat, s: Step)
    requires i < |text| && Next(word, text, i, depth) == s
    ensures Rest(word, text, i, depth) == Written(text[i..s.end], s.edit) + Rest(word, text, s.end, s.depth)
  {}

  lemma StandsNext(word: WordTest, text: string, p: Place, n: nat, depth: nat)
    requires StandsAt(word, text, p) && 1 <= n <= |p.t|
    ensures StandsAt(word, text, Place(p.t[n..], !word(p.t[n - 1]), depth))
  {
    Shifted(text, |text| - |p.t|, n);
  }

  /** What is written from each position of the text on. */
  ghost predicate Reads(word: WordTest, text: string, read: imap<Spot, string>) {
    && (forall p: Spot :: p in read <==> p.i <= |text|)
    && (forall p: Spot, s {:trigger StepAt(word, text, p, s)} ::
          StepAt(word, text, p, s) ==> read[p] == Written(text[p.i..s.end], s.edit) + read[Spot(s.end, s.depth)])
  }

  lemma ReadMove(word: WordTest, text: string, read: imap<Spot, string>, p: Place, m: Move)
    requires Reads(word, text, read) && MovesBy(word, text, p, m)
    ensures ReadFrom(text, read, |text| - |p.t|, p.depth, m)
  {
    var i := |text| - |p.t|;
    assert StepAt(word, text, Spot(i, p.depth), Step(i + m.n, m.edit, m.depth));
  }

  ghost predicate ReadFrom(text: string, read: imap<Spot, string>, i: nat, depth: nat, m: Move) {
    && i + m.n <= |text| && Spot(i, depth) in read && Spot(i + m.n, m.depth) in read
    && read[Spot(i, depth)] == Written(text[i..i + m.n], m.edit) + read[Spot(i + m.n, m.depth)]
  }

  lemma PlaceWrites(word: WordTest, text: string, read: imap<Spot, string>, p: Place, m: Move, q: Place)
    requires StandsAt(word, text, p) && 1 <= m.n <= |p.t| && q.t == p.t[m.n..] && q.depth == m.depth
    requires ReadFrom(text, read, |text| - |p.t|, p.depth, m)
    ensures SpotOf(text, p) in read && SpotOf(text, q) in read
    ensures read[SpotOf(text, p)] == Written(p.t[..m.n], m.edit) + read[SpotOf(text, q)]
  {
    Shifted(text, |text| - |p.t|, m.n);
  }

  ghost function SpotOf(text: string, p: Place): Spot {
    if |p.t| <= |text| then Spot(|text| - |p.t|, p.depth) else Spot(0, p.depth)
  }

  lemma RestObeys(word: WordTest, text: string, read: imap<Spot, string>, rest: Rests)
    requires Reads(word, text, read)
    requires forall p: Place {:trigger p in rest} :: p in rest <==> StandsAt(word, text, p)
    requires forall p: Place {:trigger rest[p]} ::
      p in rest ==> SpotOf(text, p) in read && rest[p] == read[SpotOf(text, p)]
    ensures Obeys(word, text, rest)
  {
    forall p: Place, m | p in rest && MovesBy(word, text, p, m)
      ensures MoveWritten(word, rest, p, m)
    {
      var q := Place(p.t[m.n..], !word(p.t[m.n - 1]), m.depth);
      StandsNext(word, text, p, m.n, m.depth);
      ReadMove(word, text, read, p, m);
      PlaceWrites(word, text, read, p, m, q);
    }
  }

  lemma Shifted(text: string, i: nat, n: nat)
    requires i + n <= |text| && n > 0
    ensures text[i..][n..] == text[i + n..] && text[i..][..n] == text[i..i + n] && text[i..][n - 1] == text[i + n - 1]
  {}

  // ---- each token is stripped whole ----

  lemma WritesBoth(rest: Rests, p: Place, a: string, q: Place, b: string, r: Place)
    requires Writes(rest, p, a, q) && Writes(rest, q, b, r)
    ensures Writes(rest, p, a + b, r)
  {
    if p in rest { ConcatAssociates(a, b, rest[r]); }
  }

  lemma MoveOfMoves(word: WordTest, text: string, p: Place, m: Move)
    requires StandsAt(word, text, p) && p.t != "" && MoveOf(p.t, p.free, p.depth) == m
    ensures MovesBy(word, text, p, m)
  {
    NextIs(word, text, |text| - |p.t|, p.depth);
  }

  lemma MoveWrites(word: WordTest, text: string, rest: Rests, p: Place, m: Move, out: string, after: string, c: char)
    requires Obeys(word, text, rest) && p.t != "" && MoveOf(p.t, p.free, p.depth) == m
    requires Written(p.t[..m.n], m.edit) == out && p.t[m.n..] == after && p.t[m.n - 1] == c
    ensures Writes(rest, p, out, Place(after, !word(c), m.depth))
  {
    if p in rest {
      assert StandsAt(word, text, p);
      MoveOfMoves(word, text, p, m);
      assert MoveWritten(word, rest, p, m);
    }
  }

  /** A literal or a character of code stands at the head of the text, and after is what follows it. */
  ghost predicate LiteralThen(t: string, free: bool, after: string) {
    && |after| < |t| && LiteralLength(t, free) == |t| - |after| && t[|t| - |after|..] == after
    && !M.StartsTwo(t, '/', '/') && !M.StartsTwo(t, '/', '*')
  }

  lemma AfterHead(t: string, u: string, after: string)
    requires t == u + after && u != ""
    ensures t[|t| - |after|..] == after && |after| < |t| && t[0] == u[0]
  {}

  lemma RawOpensHere(t: string, free: bool)
    requires RawLengthHere(t, free) > 0
    ensures exists prefix, n :: OpensRawHere(t, free, prefix, n)
  {
    var p := PrefixLength(t);
    var prefix := if p == 2 then "br" else "r";
    assert t == prefix + t[p..];
    RawOpensAt(t, free, prefix, t[p..]);
  }

  lemma RawOpensAt(t: string, free: bool, prefix: string, rest: string)
    requires t == prefix + rest && free && prefix in {"r", "br"} && RawLengthAfter(rest, |prefix|) > 0
    ensures OpensRawHere(t, free, prefix, M.Hashes(rest))
  {
    T.HashesSpelled(rest);
    T.QuoteFollows(t, prefix, M.Repeat('#', M.Hashes(rest)), rest);
  }

  lemma CharacterOpensHere(t: string)
    requires CharLengthHere(t) > 0
    ensures ClosedHere(t, t[1..CharLengthHere(t) - 1])
  {
    var e := CharLengthHere(t);
    var x := t[1..e - 1];
    assert t[..e] == "'" + x + "'";
    if t[1] == '\\' {
      assert x[0] == t[1] && x[1] == t[2] && x[2..] == t[3..][..e - 4];
    } else {
      assert x == [t[1]];
    }
  }

  lemma CodeMove(t: string, free: bool)
    requires t != "" && !OpensHere(t, free)
    ensures LiteralThen(t, free, t[1..])
  {
    if RawLengthHere(t, free) > 0 { RawOpensHere(t, free); }
    if CharLengthHere(t) > 0 { CharacterOpensHere(t); }
    NotMarked(t);
  }

  lemma NotMarked(t: string)
    ensures M.StartsTwo(t, '/', '/') ==> "//" <= t
    ensures M.StartsTwo(t, '/', '*') ==> "/*" <= t
    ensures t != "" && t[0] == '"' ==> "\"" <= t
  {}

  lemma LineMove(t: string, x: string, after: string, free: bool)
    requires t == "//" + x + after && '\n' !in x && (after == "" || after[0] == '\n')
    ensures MoveOf(t, free, 0) == Move(2 + |x|, Drop, 0) && t[2 + |x|..] == after
  {
    assert t[2..] == x + after && t[0] == '/' && t[1] == '/';
    T.LineRecognised(x, after);
  }

  lemma QuotedMove(t: string, chars: seq<Quotable>, after: string, free: bool)
    requires t == "\"" + (QuotedText(chars) + after)
    requires forall k :: 0 <= k < |chars| ==> chars[k].Plain? ==> chars[k].c != '"' && chars[k].c != '\\'
    ensures LiteralThen(t, free, after)
  {
    T.QuotedRecognised(chars, after);
    QuotedMoved(t, QuotedText(chars), after, free);
  }

  lemma QuotedMoved(t: string, q: string, after: string, free: bool)
    requires t == "\"" + (q + after) && M.QuotedLength(q + after) == |q|
    ensures LiteralThen(t, free, after)
  {
    assert t[1..] == q + after && t[0] == '"' && t == ("\"" + q) + after;
    AfterHead(t, "\"" + q, after);
  }

  lemma RawMove(t: string, prefix: string, n: nat, x: string, after: string)
    requires t == prefix + M.Repeat('#', n) + "\"" + (x + (M.Terminator(n) + after))
    requires prefix in {"r", "br"} && |prefix| + n < 260
    requires forall k :: 0 <= k < |x| ==> !(M.Terminator(n) <= (x + M.Terminator(n))[k..])
    ensures LiteralThen(t, true, after)
  {
    RawAfter(t, prefix, n, x, after);
    RawSpelled(t, prefix, n, x + (M.Terminator(n) + after));
    T.ThroughRecognised(x, M.Terminator(n), after);
    RawMoved(t, |prefix|, n, x + (M.Terminator(n) + after));
  }

  lemma RawSpelled(t: string, prefix: string, n: nat, body: string)
    requires t == prefix + M.Repeat('#', n) + "\"" + body && prefix in {"r", "br"}
    ensures |t| > |prefix| + n && M.Hashes(t[|prefix|..]) == n && t[|prefix| + n] == '"'
    ensures t[|prefix| + n + 1..] == body
    ensures if |prefix| == 2 then M.StartsTwo(t, 'b', 'r') else M.Starts(t, 'r')
  {
    T.RawPieces(prefix, n, body);
    T.HashesRecognised(n, "\"" + body);
    assert t[0] == prefix[0] && (|prefix| == 2 ==> t[1] == prefix[1]);
  }

  lemma RawAfter(t: string, prefix: string, n: nat, x: string, after: string)
    requires t == prefix + M.Repeat('#', n) + "\"" + (x + (M.Terminator(n) + after)) && prefix != ""
    ensures t[|t| - |after|..] == after && |after| < |t| && t[0] == prefix[0]
    ensures |t| - |after| == |prefix| + n + 1 + (|x| + (n + 1))
  {
    var u := prefix + M.Repeat('#', n) + "\"";
    assert t == u + x + M.Terminator(n) + after;
    AfterHead(t, u + x + M.Terminator(n), after);
  }

  lemma RawMoved(t: string, p: nat, n: nat, body: string)
    requires p in {1, 2} && |t| > p + n && p + n < 260 && M.Hashes(t[p..]) == n && t[p + n] == '"'
    requires if p == 2 then M.StartsTwo(t, 'b', 'r') else M.Starts(t, 'r')
    requires t[p + n + 1..] == body
    ensures LiteralLength(t, true) == p + n + 1 + M.ThroughLength(body, M.Terminator(n))
    ensures !M.StartsTwo(t, '/', '/') && !M.StartsTwo(t, '/', '*')
  {
    assert t[p..][n + 1..] == body && t[p..][n] == '"';
    RawMeasured(t[p..], p, n, body);
  }

  lemma RawMeasured(u: string, p: nat, n: nat, body: string)
    requires |u| > n && p + n < 260 && M.Hashes(u) == n && u[n] == '"' && u[n + 1..] == body
    ensures RawLengthAfter(u, p) == p + n + 1 + M.ThroughLength(body, M.Terminator(n))
  {}

  lemma CharacterMove(t: string, x: string, after: string, free: bool)
    requires t == "'" + x + "'" + after && Closed(x)
    ensures LiteralThen(t, free, after)
  {
    AfterHead(t, "'" + x + "'", after);
    assert t[0] == '\'' && t[|x| + 1] == '\'' && forall k :: 0 <= k < |x| ==> t[k + 1] == x[k];
    if |x| > 1 {
      assert t[3..] == x[2..] + ("'" + after);
      ApostropheAfter(x[2..], "'" + after);
    }
  }

  lemma {:induction false} ApostropheAfter(x: string, rest: string)
    requires '\'' !in x && rest != "" && rest[0] == '\''
    ensures ApostropheLength(x + rest) == |x|
  {
    if x == "" {
      assert x + rest == rest;
    } else {
      assert (x + rest)[1..] == x[1..] + rest;
      ApostropheAfter(x[1..], rest);
    }
  }

  /** The inside of a block comment, with its closing mark. */
  lemma {:induction false} PiecesWrite(word: WordTest, text: string, rest: Rests, body: seq<Piece>,
                                       after: string, free: bool, depth: nat)
    requires Obeys(word, text, rest) && PiecesFit(body, after) && depth > 0
    ensures Writes(rest, Place(PiecesText(body, after), free, depth), Blanked(body),
                   Place(after, !word('/'), depth - 1))
    decreases body
  {
    if body == [] {
      MarkWrites(word, text, rest, "*/", after, free, depth);
    } else {
      var u, q := PiecesText(body[1..], after), Place(after, !word('/'), depth - 1);
      match body[0]
      case Letter(c) =>
        PiecesWrite(word, text, rest, body[1..], after, !word(c), depth);
        LetterThen(word, text, rest, c, u, free, depth, Blanked(body[1..]), q);
      case Nested(inner) =>
        var t := PiecesText(inner, u);
        PiecesWrite(word, text, rest, inner, u, !word('*'), depth + 1);
        PiecesWrite(word, text, rest, body[1..], after, !word('/'), depth);
        NestedThen(word, text, rest, t, free, depth, Blanked(inner), u, Blanked(body[1..]), q);
    }
  }

  lemma LetterThen(word: WordTest, text: string, rest: Rests, c: char, u: string, free: bool, depth: nat,
                   b: string, q: Place)
    requires Obeys(word, text, rest) && Writes(rest, Place(u, !word(c), depth), b, q)
    requires depth > 0 && !M.StartsTwo([c] + u, '/', '*') && !M.StartsTwo([c] + u, '*', '/')
    ensures Writes(rest, Place([c] + u, free, depth), (if c == '\n' then "\n" else " ") + b, q)
  {
    var out := if c == '\n' then "\n" else " ";
    LetterWrites(word, text, rest, c, out, u, free, depth);
    WritesBoth(rest, Place([c] + u, free, depth), out, Place(u, !word(c), depth), b, q);
  }

  lemma NestedThen(word: WordTest, text: string, rest: Rests, t: string, free: bool, depth: nat,
                   a: string, u: string, b: string, q: Place)
    requires Obeys(word, text, rest) && depth > 0
    requires Writes(rest, Place(t, !word('*'), depth + 1), a, Place(u, !word('/'), depth))
    requires Writes(rest, Place(u, !word('/'), depth), b, q)
    ensures Writes(rest, Place("/*" + t, free, depth), a + b, q)
  {
    var p, r := Place("/*" + t, free, depth), Place(u, !word('/'), depth);
    MarkWrites(word, text, rest, "/*", t, free, depth);
    WritesBoth(rest, p, "", Place(t, !word('*'), depth + 1), a, r);
    assert "" + a == a;
    WritesBoth(rest, p, a, r, b, q);
  }

  lemma MarkWrites(word: WordTest, text: string, rest: Rests, mark: string, u: string, free: bool, depth: nat)
    requires Obeys(word, text, rest) && ((depth > 0 && mark == "*/") || mark == "/*")
    ensures Writes(rest, Place(mark + u, free, depth), "",
                   Place(u, !word(mark[1]), if mark == "/*" then depth + 1 else depth - 1))
  {
    MarkMove(mark, u, free, depth);
    var m := Move(2, Drop, if mark == "/*" then depth + 1 else depth - 1);
    MoveWrites(word, text, rest, Place(mark + u, free, depth), m, "", u, mark[1]);
  }

  lemma MarkMove(mark: string, u: string, free: bool, depth: nat)
    requires (depth > 0 && mark == "*/") || mark == "/*"
    ensures MoveOf(mark + u, free, depth) == Move(2, Drop, if mark == "/*" then depth + 1 else depth - 1)
    ensures (mark + u)[2..] == u && (mark + u)[1] == mark[1]
  {
    assert (mark + u)[0] == mark[0] && (mark + u)[1] == mark[1];
  }

  lemma LetterWrites(word: WordTest, text: string, rest: Rests, c: char, out: string, u: string, free: bool, depth: nat)
    requires Obeys(word, text, rest) && depth > 0 && !M.StartsTwo([c] + u, '/', '*') && !M.StartsTwo([c] + u, '*', '/')
    requires out == if c == '\n' then "\n" else " "
    ensures Writes(rest, Place([c] + u, free, depth), out, Place(u, !word(c), depth))
  {
    var t, m := [c] + u, Move(1, if c == '\n' then Keep else Space, depth);
    assert t[0] == c && t[1..] == u && t[..1] == [c];
    MoveWrites(word, text, rest, Place(t, free, depth), m, out, u, c);
  }

  // ---- the theorem ----

  lemma TokenWrites(word: WordTest, text: string, rest: Rests, t: Token, free: bool, after: string)
    requires Obeys(word, text, rest) && FitsHere(t, free, after)
    ensures Writes(rest, Place(TokenText(t, after), free, 0), Remains(t, after), Place(after, FreeAfter(word, t), 0))
  {
    match t
    case Line(x) => LineWrites(word, text, rest, x, after, free);
    case Block(body) => BlockWrites(word, text, rest, body, after, free);
    case _ => KeptWrites(word, text, rest, t, free, after);
  }

  lemma BlockWrites(word: WordTest, text: string, rest: Rests, body: seq<Piece>, after: string, free: bool)
    requires Obeys(word, text, rest) && PiecesFit(body, after)
    ensures Writes(rest, Place("/*" + PiecesText(body, after), free, 0), Blanked(body), Place(after, !word('/'), 0))
  {
    var u := PiecesText(body, after);
    MarkWrites(word, text, rest, "/*", u, free, 0);
    PiecesWrite(word, text, rest, body, after, !word('*'), 1);
    WritesBoth(rest, Place("/*" + u, free, 0), "", Place(u, !word('*'), 1), Blanked(body), Place(after, !word('/'), 0));
    assert "" + Blanked(body) == Blanked(body);
  }

  lemma LineWrites(word: WordTest, text: string, rest: Rests, x: string, after: string, free: bool)
    requires Obeys(word, text, rest) && '\n' !in x && (after == "" || after[0] == '\n')
    ensures Writes(rest, Place("//" + x + after, free, 0), "",
                   Place(after, !word(if x == "" then '/' else x[|x| - 1]), 0))
  {
    var t := "//" + x + after;
    LineMove(t, x, after, free);
    assert t[|x| + 1] == (if x == "" then '/' else x[|x| - 1]);
    MoveWrites(word, text, rest, Place(t, free, 0), Move(2 + |x|, Drop, 0), "", after, t[|x| + 1]);
  }

  /** Code and literals are kept in one move. */
  lemma KeptWrites(word: WordTest, text: string, rest: Rests, t: Token, free: bool, after: string)
    requires Obeys(word, text, rest) && FitsHere(t, free, after) && !t.Line? && !t.Block?
    ensures Writes(rest, Place(TokenText(t, after), free, 0), Remains(t, after), Place(after, FreeAfter(word, t), 0))
  {
    var whole := TokenText(t, after);
    match t {
      case Code(c) => CodeWrites(word, text, rest, whole, free, after);
      case Quoted(prefix, chars) => QuotedWrites(word, text, rest, whole, chars, free, after);
      case Raw(prefix, n, x) => RawWrites(word, text, rest, whole, prefix, n, x, after);
      case Character(x) => CharacterWrites(word, text, rest, whole, x, free, after);
    }
    KeptEnd(word, t, after);
  }

  ghost predicate Kept(word: WordTest, rest: Rests, whole: string, free: bool, after: string) {
    && |after| < |whole|
    && var n := |whole| - |after|;
    Writes(rest, Place(whole, free, 0), whole[..n], Place(after, !word(whole[n - 1]), 0))
  }

  lemma LiteralMove(t: string, free: bool, after: string)
    requires LiteralThen(t, free, after)
    ensures MoveOf(t, free, 0) == Move(|t| - |after|, Keep, 0)
  {}

  lemma KeptMove(word: WordTest, text: string, rest: Rests, whole: string, free: bool, after: string)
    requires Obeys(word, text, rest) && LiteralThen(whole, free, after)
    ensures Kept(word, rest, whole, free, after)
  {
    var n := |whole| - |after|;
    LiteralMove(whole, free, after);
    MoveWrites(word, text, rest, Place(whole, free, 0), Move(n, Keep, 0), whole[..n], after, whole[n - 1]);
  }

  lemma CodeWrites(word: WordTest, text: string, rest: Rests, whole: string, free: bool, after: string)
    requires Obeys(word, text, rest) && !OpensHere(whole, free) && whole != "" && after == whole[1..]
    ensures Kept(word, rest, whole, free, after)
  {
    CodeMove(whole, free);
    KeptMove(word, text, rest, whole, free, after);
  }

  lemma QuotedWrites(word: WordTest, text: string, rest: Rests, whole: string, chars: seq<Quotable>,
                     free: bool, after: string)
    requires Obeys(word, text, rest) && whole == "\"" + (QuotedText(chars) + after)
    requires forall k :: 0 <= k < |chars| ==> chars[k].Plain? ==> chars[k].c != '"' && chars[k].c != '\\'
    ensures Kept(word, rest, whole, free, after)
  {
    QuotedMove(whole, chars, after, free);
    KeptMove(word, text, rest, whole, free, after);
  }

  lemma RawWrites(word: WordTest, text: string, rest: Rests, whole: string, prefix: string, n: nat, x: string,
                  after: string)
    requires Obeys(word, text, rest)
    requires whole == prefix + M.Repeat('#', n) + "\"" + (x + (M.Terminator(n) + after))
    requires prefix in {"r", "br"} && |prefix| + n < 260
    requires forall k :: 0 <= k < |x| ==> !(M.Terminator(n) <= (x + M.Terminator(n))[k..])
    ensures Kept(word, rest, whole, true, after)
  {
    RawMove(whole, prefix, n, x, after);
    KeptMove(word, text, rest, whole, true, after);
  }

  lemma CharacterWrites(word: WordTest, text: string, rest: Rests, whole: string, x: string, free: bool, after: string)
    requires Obeys(word, text, rest) && whole == "'" + x + "'" + after && Closed(x)
    ensures Kept(word, rest, whole, free, after)
  {
    CharacterMove(whole, x, after, free);
    KeptMove(word, text, rest, whole, free, after);
  }

  lemma KeptEnd(word: WordTest, t: Token, after: string)
    requires !t.Line? && !t.Block? && |after| < |TokenText(t, after)|
    ensures var whole := TokenText(t, after);
      && Remains(t, after) == whole[..|whole| - |after|]
      && FreeAfter(word, t) == !word(whole[|whole| - |after| - 1])
  {
    match t
    case Code(c) => LastBefore([c], after, c);
    case Quoted(prefix, chars) =>
      QuotedEnd(prefix, chars, after);
    case Raw(prefix, n, x) =>
      RawLast(prefix + M.Repeat('#', n) + "\"", n, x, after);
    case Character(x) => LastBefore("'" + x + "'", after, '\'');
  }

  lemma QuotedEnd(prefix: string, chars: seq<Quotable>, after: string)
    ensures var whole := prefix + "\"" + (QuotedText(chars) + after); whole[|whole| - |after| - 1] == '"'
  {
    var q := QuotedText(chars);
    QuotedLast(chars);
    assert prefix + "\"" + (q + after) == (prefix + "\"" + q) + after;
    LastBefore(prefix + "\"" + q, after, '"');
  }

  lemma RawLast(u: string, n: nat, x: string, after: string)
    ensures var whole := u + (x + (M.Terminator(n) + after));
      whole[|whole| - |after| - 1] == if n == 0 then '"' else '#'
  {
    var v := M.Terminator(n);
    RepeatLast(n);
    assert u + (x + (v + after)) == (u + x + v) + after;
    LastBefore(u + x + v, after, v[|v| - 1]);
  }

  lemma {:induction false} RepeatLast(n: nat)
    ensures n > 0 ==> M.Repeat('#', n)[n - 1] == '#'
  {
    if n > 1 { RepeatLast(n - 1); }
  }

  lemma LastBefore(u: string, after: string, c: char)
    requires u != "" && u[|u| - 1] == c
    ensures (u + after)[|u + after| - |after| - 1] == c
  {}

  lemma {:induction false} QuotedLast(chars: seq<Quotable>)
    ensures QuotedText(chars)[|QuotedText(chars)| - 1] == '"'
  {
    if chars != [] { QuotedLast(chars[1..]); }
  }

  lemma {:induction false} TokensWrite(word: WordTest, text: string, rest: Rests, free: bool, tokens: seq<Token>)
    requires Obeys(word, text, rest) && FitTogether(word, free, tokens) && Place(Source(tokens), free, 0) in rest
    requires forall p: Place :: p in rest && p.t == "" ==> rest[p] == ""
    ensures rest[Place(Source(tokens), free, 0)] == RemainsOf(tokens)
    decreases |tokens|
  {
    if tokens != [] {
      TokenWrites(word, text, rest, tokens[0], free, Source(tokens[1..]));
      TokensWrite(word, text, rest, FreeAfter(word, tokens[0]), tokens[1..]);
    }
  }

  /** Stripping a text of tokens keeps code and literals as they are, drops line comments up to the line feed and blanks
      block comments, nested ones included. */
  lemma StripTokens(word: WordTest, tokens: seq<Token>)
    requires FitTogether(word, true, tokens)
    ensures Strip(word, Source(tokens)) == RemainsOf(tokens)
  {
    var text := Source(tokens);
    var read := imap p: Spot | p.i <= |text| :: Rest(word, text, p.i, p.depth);
    RestReads(word, text, read);
    SourceRead(word, text, read, tokens);
    StripRead(word, text);
  }

  lemma SourceRead(word: WordTest, text: string, read: imap<Spot, string>, tokens: seq<Token>)
    requires FitTogether(word, true, tokens) && text == Source(tokens) && Reads(word, text, read)
    requires forall d: nat :: Spot(|text|, d) in read ==> read[Spot(|text|, d)] == ""
    ensures Spot(0, 0) in read && read[Spot(0, 0)] == RemainsOf(tokens)
  {
    var rest := TextPlaced(word, text, read);
    TokensWrite(word, text, rest, true, tokens);
  }

  lemma TextPlaced(word: WordTest, text: string, read: imap<Spot, string>) returns (rest: Rests)
    requires Reads(word, text, read)
    requires forall d: nat :: Spot(|text|, d) in read ==> read[Spot(|text|, d)] == ""
    ensures Obeys(word, text, rest) && Place(text, true, 0) in rest && Spot(0, 0) in read
    ensures rest[Place(text, true, 0)] == read[Spot(0, 0)]
    ensures forall p: Place :: p in rest && p.t == "" ==> rest[p] == ""
  {
    rest := PlacesRead(word, text, read);
    var p := Place(text, true, 0);
    assert text[0..] == text && StandsAt(word, text, p) && SpotOf(text, p) == Spot(0, 0) && rest[p] == rest[p];
  }

  lemma PlacesRead(word: WordTest, text: string, read: imap<Spot, string>) returns (rest: Rests)
    requires Reads(word, text, read)
    ensures Obeys(word, text, rest)
    ensures forall p: Place {:trigger p in rest} :: p in rest <==> StandsAt(word, text, p)
    ensures forall p: Place {:trigger rest[p]} ::
      p in rest ==> SpotOf(text, p) in read && rest[p] == read[SpotOf(text, p)]
  {
    rest := imap p: Place | StandsAt(word, text, p) :: read[SpotOf(text, p)];
    RestObeys(word, text, read, rest);
  }

  lemma RestReads(word: WordTest, text: string, read: imap<Spot, string>)
    requires forall p: Spot :: p in read <==> p.i <= |text|
    requires forall p: Spot :: p in read ==> read[p] == Rest(word, text, p.i, p.depth)
    ensures Reads(word, text, read)
    ensures forall d: nat :: Spot(|text|, d) in read ==> read[Spot(|text|, d)] == ""
  {
    forall p: Spot, s | StepAt(word, text, p, s)
      ensures read[p] == Written(text[p.i..s.end], s.edit) + read[Spot(s.end, s.depth)]
    {
      RestStep(word, text, p.i, p.depth, s);
    }
  }

  lemma StripRead(word: WordTest, text: string)
    ensures Strip(word, text) == Rest(word, text, 0, 0)
  {}
}
