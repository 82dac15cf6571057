/** Removing comments from Rust source while keeping every line where it was. */
module CommentStrip {
  import opened Common

  /** What becomes of one character: it stays, it goes, or a space takes its place. */
  datatype Edit = Keep | Drop | Space

  /** The characters up to end share one fate, after which so many block comments are open. */
  datatype Step = Step(end: nat, edit: Edit, depth: nat)

  /** Whether a character belongs to a word: isalnum() or the underscore. */
  type WordTest = char -> bool

  const RAW_WINDOW := 260

  const ESCAPE_WINDOW := 8

  predicate At(text: string, i: nat, c: char) { i < |text| && text[i] == c }

  predicate Two(text: string, i: nat, c: char, e: char) { At(text, i, c) && At(text, i + 1, e) }

  /** The first line feed from i on, or the end of the text. */
  function LineEnd(text: string, i: nat): (e: nat)
    requires i <= |text|
    ensures i <= e <= |text|
    decreases |text| - i
  {
    if i == |text| || text[i] == '\n' then i else LineEnd(text, i + 1)
  }

  function HashesAt(text: string, i: nat): (n: nat)
    requires i <= |text|
    ensures i + n <= |text|
    decreases |text| - i
  {
    if At(text, i, '#') then 1 + HashesAt(text, i + 1) else 0
  }

  /** Past the first quote with so many hashes after it, or the end of the text. */
  function ClosingEnd(text: string, i: nat, hashes: nat): (e: nat)
    requires i <= |text|
    ensures i <= e <= |text|
    decreases |text| - i
  {
    if i == |text| then i
    else if text[i] == '"' && HashesAt(text, i + 1) >= hashes then i + 1 + hashes
    else ClosingEnd(text, i + 1, hashes)
  }

  /** Past a raw string: no word before it, r or br, hashes, quote, anything, quote, as many hashes. */
  function RawStringEnd(word: WordTest, text: string, i: nat): (e: nat)
    requires i < |text|
    ensures i <= e <= |text|
  {
    var p := if Two(text, i, 'b', 'r') then 2 else if At(text, i, 'r') then 1 else 0;
    var h := HashesAt(text, i + p);
    if p == 0 || (i > 0 && word(text[i - 1])) || p + h >= RAW_WINDOW || !At(text, i + p + h, '"') then i
    else ClosingEnd(text, i + p + h + 1, h)
  }

  /** Past the closing quote of a quoted literal, or the end of the text. */
  function QuotedStop(text: string, j: nat): (e: nat)
    requires j <= |text|
    ensures j <= e <= |text|
    decreases |text| - j
  {
    if j == |text| then j
    else if text[j] == '"' then j + 1
    else if text[j] != '\\' then QuotedStop(text, j + 1)
    else if j + 2 <= |text| then QuotedStop(text, j + 2)
    else |text|
  }

  function ApostropheFrom(text: string, i: nat): (e: nat)
    requires i <= |text|
    ensures i <= e <= |text|
    decreases |text| - i
  {
    if i == |text| || text[i] == '\'' then i else ApostropheFrom(text, i + 1)
  }

  /** Past a character literal: one character, or an escape of up to eight more, between apostrophes. */
  function CharLiteralEnd(text: string, i: nat): (e: nat)
    requires i < |text|
    ensures i <= e <= |text|
  {
    if text[i] != '\'' || i + 2 >= |text| then i
    else if text[i + 1] == '\\' then
      var q := ApostropheFrom(text, i + 3);
      if text[i + 2] == '\n' || q - (i + 3) > ESCAPE_WINDOW || q == |text| then i else q + 1
    else if text[i + 1] != '\'' && text[i + 2] == '\'' then i + 3
    else i
  }

  /** Past the literal at i, or past the one character of code. */
  function LiteralEnd(word: WordTest, text: string, i: nat): (e: nat)
    requires i < |text|
    ensures i < e <= |text|
  {
    if RawStringEnd(word, text, i) > i then RawStringEnd(word, text, i)
    else if text[i] == '"' then QuotedStop(text, i + 1)
    else if CharLiteralEnd(text, i) > i then CharLiteralEnd(text, i)
    else i + 1
  }

  function Next(word: WordTest, text: string, i: nat, depth: nat): (s: Step)
    requires i < |text|
    ensures i < s.end <= |text|
  {
    if depth > 0 then
      if Two(text, i, '/', '*') then Step(i + 2, Drop, depth + 1)
      else if Two(text, i, '*', '/') then Step(i + 2, Drop, depth - 1)
      else Step(i + 1, if text[i] == '\n' then Keep else Space, depth)
    else if Two(text, i, '/', '/') then Step(LineEnd(text, i + 2), Drop, 0)
    else if Two(text, i, '/', '*') then Step(i + 2, Drop, 1)
    else Step(LiteralEnd(word, text, i), Keep, 0)
  }

  function ApplyOne(c: char, e: Edit): string {
    match e
    case Keep => [c]
    case Drop => ""
    case Space => " "
  }

  function Apply(t: string, edits: seq<Edit>): string
    requires |edits| == |t|
  {
    if t == [] then [] else ApplyOne(t[0], edits[0]) + Apply(t[1..], edits[1..])
  }

  function Written(t: string, e: Edit): string {
    match e
    case Keep => t
    case Drop => ""
    case Space => seq(|t|, _ => ' ')
  }

  datatype Steps = Done | More(first: Step, rest: Steps)

  /** How the text is read from i on, with so many comments open. */
  function Reading(word: WordTest, text: string, i: nat, depth: nat): Steps
    requires i <= |text|
    decreases |text| - i
  {
    if i == |text| then Done
    else var s := Next(word, text, i, depth); More(s, Reading(word, text, s.end, s.depth))
  }

  /** What is written for such a reading. */
  function Output(text: string, i: nat, steps: Steps): string
    decreases steps
  {
    match steps
    case Done => ""
    case More(s, rest) =>
      if i <= s.end <= |text| then Written(text[i..s.end], s.edit) + Output(text, s.end, rest) else ""
  }

  function Strip(word: WordTest, text: string): string { Output(text, 0, Reading(word, text, 0, 0)) }

  // ---- the program ----

  /** The end of a quoted literal whose opening quote is at i. */
  method QuotedEnd(text: string, i: nat) returns (end: nat)
    requires i < |text|
    ensures end == QuotedStop(text, i + 1)
  {
    var j := i + 1;
    while j < |text| && text[j] != '"'
      invariant i < j <= |text| + 1
      invariant QuotedStop(text, i + 1) == if j <= |text| then QuotedStop(text, j) else |text|
    {
      j := j + (if text[j] == '\\' then 2 else 1);
    }
    return if j < |text| then j + 1 else |text|;
  }

  /** Where the literal or the single character at i ends. */
  method FindLiteralEnd(word: WordTest, text: string, i: nat) returns (end: nat)
    requires i < |text|
    ensures end == LiteralEnd(word, text, i)
  {
    end := RawStringEnd(word, text, i);
    if end == i {
      if text[i] == '"' {
        end := QuotedEnd(text, i);
      } else {
        end := CharLiteralEnd(text, i);
        end := if end > i then end else i + 1;
      }
    }
  }

  /** One turn of the loop: what it writes, and where and in how many open comments it goes on. */
  method StripOne(word: WordTest, text: string, i: nat, depth: nat) returns (written: string, next: nat, open: nat)
    requires i < |text|
    ensures var s := Next(word, text, i, depth);
      next == s.end && open == s.depth && written == Written(text[i..next], s.edit)
  {
    written, next, open := "", i + 2, depth;
    if depth > 0 {
      if Two(text, i, '/', '*') {
        open := depth + 1;
      } else if Two(text, i, '*', '/') {
        open := depth - 1;
      } else {
        assert text[i..i + 1] == [text[i]];
        written, next := if text[i] == '\n' then "\n" else " ", i + 1;
      }
    } else if Two(text, i, '/', '/') {
      next := LineEnd(text, i + 2);
    } else if Two(text, i, '/', '*') {
      open := 1;
    } else {
      next := FindLiteralEnd(word, text, i);
      written := text[i..next];
    }
  }

  method StripComments(word: WordTest, text: string) returns (out: string)
    ensures out == Strip(word, text)
  {
    out := "";
    var i, depth := 0, 0;
    ghost var steps := Reading(word, text, 0, 0);
    ghost var whole := Output(text, 0, steps);
    while i < |text|
      invariant i <= |text| && steps == Reading(word, text, i, depth) && out + Output(text, i, steps) == whole
    {
      var written, next, open := StripOne(word, text, i, depth);
      ConcatAssociates(out, written, Output(text, next, steps.rest));
      out, i, depth, steps := out + written, next, open, steps.rest;
    }
  }

  // ---- lines ----

  /** The lines of a text; one more than its line feeds. */
  function Lines(t: string): (r: seq<string>)
    ensures r != []
  {
    if t == [] then [[]]
    else if t[0] == '\n' then [[]] + Lines(t[1..])
    else var rest := Lines(t[1..]); [[t[0]] + rest[0]] + rest[1..]
  }

  /** r is t with characters dropped or blanked. */
  ghost predicate Thinned(t: string, r: string) {
    exists edits: seq<Edit> :: |edits| == |t| && r == Apply(t, edits)
  }

  /** Line by line. */
  ghost predicate LinesThinned(t: string, r: string) { Pairwise(Lines(t), Lines(r)) }

  ghost predicate Pairwise(a: seq<string>, b: seq<string>) {
    |b| == |a| && forall k :: 0 <= k < |a| ==> Thinned(a[k], b[k])
  }

  lemma PairwiseFirst(a: seq<string>, b: seq<string>, x: string, y: string)
    requires Pairwise(a, b) && a != [] && Thinned(x, y)
    ensures Pairwise([x] + a[1..], [y] + b[1..])
  {}

  ghost predicate KeepsFeeds(t: string, edits: seq<Edit>) {
    |edits| == |t| && (t != [] ==> (t[0] == '\n' ==> edits[0] == Keep) && KeepsFeeds(t[1..], edits[1..]))
  }

  lemma ThinnedMore(c: char, e: Edit, t: string, r: string)
    requires Thinned(t, r)
    ensures Thinned([c] + t, ApplyOne(c, e) + r)
  {
    var edits: seq<Edit> :| |edits| == |t| && r == Apply(t, edits);
    assert ([c] + t)[1..] == t && ([e] + edits)[1..] == edits;
    assert Apply([c] + t, [e] + edits) == ApplyOne(c, e) + r;
  }

  lemma LinesOfOne(c: char, e: Edit, r: string)
    requires c != '\n'
    ensures Lines(ApplyOne(c, e) + r) == [ApplyOne(c, e) + Lines(r)[0]] + Lines(r)[1..]
  {
    if e == Drop {
      assert "" + r == r && "" + Lines(r)[0] == Lines(r)[0];
    } else {
      assert (ApplyOne(c, e) + r)[1..] == r;
    }
  }

  lemma {:induction false} FeedsKeepLines(t: string, edits: seq<Edit>)
    requires KeepsFeeds(t, edits)
    ensures LinesThinned(t, Apply(t, edits))
  {
    if t == [] {
      assert Thinned([], []) by { assert Apply([], []) == []; }
    } else {
      var c, e, rest, r := t[0], edits[0], t[1..], Apply(t[1..], edits[1..]);
      FeedsKeepLines(rest, edits[1..]);
      assert t == [c] + rest;
      if c == '\n' {
        FeedKept(rest, r);
      } else {
        LineThinned(c, e, rest, r);
      }
    }
  }

  lemma FeedKept(t: string, r: string)
    requires LinesThinned(t, r)
    ensures LinesThinned(['\n'] + t, ['\n'] + r)
  {
    assert Thinned([], []) by { assert Apply([], []) == []; }
    assert (['\n'] + t)[1..] == t && (['\n'] + r)[1..] == r;
  }

  lemma LineThinned(c: char, e: Edit, t: string, r: string)
    requires c != '\n' && LinesThinned(t, r)
    ensures LinesThinned([c] + t, ApplyOne(c, e) + r)
  {
    LinesOfOne(c, Keep, t);
    LinesOfOne(c, e, r);
    ThinnedMore(c, e, Lines(t)[0], Lines(r)[0]);
    PairwiseFirst(Lines(t), Lines(r), [c] + Lines(t)[0], ApplyOne(c, e) + Lines(r)[0]);
  }

  lemma {:induction false} KeepsAppend(a: string, e: seq<Edit>, b: string, f: seq<Edit>) returns (edits: seq<Edit>)
    requires KeepsFeeds(a, e) && KeepsFeeds(b, f)
    ensures KeepsFeeds(a + b, edits) && Apply(a + b, edits) == Apply(a, e) + Apply(b, f)
  {
    if a == [] {
      edits := f;
      assert a + b == b;
    } else {
      var rest := KeepsAppend(a[1..], e[1..], b, f);
      edits := KeepsCons(a[0], e[0], a[1..] + b, rest);
      ConcatAssociates(ApplyOne(a[0], e[0]), Apply(a[1..], e[1..]), Apply(b, f));
      assert a + b == [a[0]] + (a[1..] + b);
    }
  }

  lemma KeepsCons(c: char, e: Edit, t: string, rest: seq<Edit>) returns (edits: seq<Edit>)
    requires KeepsFeeds(t, rest) && (c == '\n' ==> e == Keep)
    ensures KeepsFeeds([c] + t, edits) && Apply([c] + t, edits) == ApplyOne(c, e) + Apply(t, rest)
  {
    edits := [e] + rest;
    assert ([c] + t)[1..] == t && edits[1..] == rest;
  }

  /** A stretch that is kept, or that has no line feed. */
  lemma {:induction false} WrittenKeepsFeeds(t: string, e: Edit) returns (edits: seq<Edit>)
    requires e == Keep || '\n' !in t
    ensures KeepsFeeds(t, edits) && Apply(t, edits) == Written(t, e)
  {
    edits := [];
    if t != [] {
      var rest := WrittenKeepsFeeds(t[1..], e);
      edits := [e] + rest;
      assert ApplyOne(t[0], e) + Written(t[1..], e) == Written(t, e);
    }
  }

  lemma {:induction false} LineFeedless(text: string, i: nat)
    requires i <= |text|
    ensures '\n' !in text[i..LineEnd(text, i)]
    decreases |text| - i
  {
    if i < LineEnd(text, i) {
      LineFeedless(text, i + 1);
      assert text[i..LineEnd(text, i)] == [text[i]] + text[i + 1..LineEnd(text, i)];
    }
  }

  /** No step drops or blanks a line feed. */
  lemma StepKeepsFeeds(word: WordTest, text: string, i: nat, depth: nat)
    requires i < |text|
    ensures var s := Next(word, text, i, depth); s.edit == Keep || '\n' !in text[i..s.end]
  {
    LineFeedless(text, i);
    assert depth == 0 && Two(text, i, '/', '/') ==> LineEnd(text, i) == LineEnd(text, i + 2);
  }

  /** Every step keeps what it reads, or reads no line feed; together they read the whole text. */
  ghost predicate Harmless(text: string, i: nat, steps: Steps)
    decreases steps
  {
    match steps
    case Done => i == |text|
    case More(s, rest) =>
      && i <= s.end <= |text| && (s.edit == Keep || '\n' !in text[i..s.end])
      && Harmless(text, s.end, rest)
  }

  lemma {:induction false} ReadingHarmless(word: WordTest, text: string, i: nat, depth: nat)
    requires i <= |text|
    ensures Harmless(text, i, Reading(word, text, i, depth))
    decreases |text| - i
  {
    if i < |text| {
      var s := Next(word, text, i, depth);
      StepKeepsFeeds(word, text, i, depth);
      ReadingHarmless(word, text, s.end, s.depth);
    }
  }

  lemma KeepsJoin(text: string, i: nat, k: nat, e: seq<Edit>, f: seq<Edit>) returns (edits: seq<Edit>)
    requires i <= k <= |text| && KeepsFeeds(text[i..k], e) && KeepsFeeds(text[k..], f)
    ensures KeepsFeeds(text[i..], edits) && Apply(text[i..], edits) == Apply(text[i..k], e) + Apply(text[k..], f)
  {
    edits := KeepsAppend(text[i..k], e, text[k..], f);
    assert text[i..] == text[i..k] + text[k..];
  }

  lemma {:induction false} OutputEdits(text: string, i: nat, steps: Steps) returns (edits: seq<Edit>)
    requires i <= |text| && Harmless(text, i, steps)
    ensures KeepsFeeds(text[i..], edits) && Output(text, i, steps) == Apply(text[i..], edits)
    decreases steps
  {
    match steps
    case Done =>
      edits := [];
    case More(s, rest) =>
      var e := WrittenKeepsFeeds(text[i..s.end], s.edit);
      var f := OutputEdits(text, s.end, rest);
      edits := KeepsJoin(text, i, s.end, e, f);
  }

  /** For every text, unterminated comments and literals included, each line of the result is the same line of the
      source with characters dropped or blanked, so a line number in one is a line number in the other. */
  lemma LinesKept(word: WordTest, text: string)
    ensures LinesThinned(text, Strip(word, text))
  {
    ReadingHarmless(word, text, 0, 0);
    var edits := OutputEdits(text, 0, Reading(word, text, 0, 0));
    assert text[0..] == text;
    FeedsKeepLines(text, edits);
  }
}
