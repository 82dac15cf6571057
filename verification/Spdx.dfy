/** The SPDX grammar that both license parsers implement, and a recognizer in the shape of their code. */
module Spdx {
  import opened Common

  /** How a parser reads tokens: which are license names, which spell an operator, and whether an exception
      may follow a parenthesised expression. */
  datatype Dialect = Dialect(identifier: string -> bool, spells: (string, string) -> bool, groupExceptions: bool) {

    /** No operator or parenthesis is a license name, and no token spells two operators or a parenthesis. */
    ghost predicate Sound() {
      && (forall t :: identifier(t) ==> t != "(" && t != ")" && !Operator(t))
      && (forall t :: !(spells(t, "AND") && spells(t, "OR")) && !(spells(t, "AND") && spells(t, "WITH"))
            && !(spells(t, "OR") && spells(t, "WITH")))
      && !Operator(")")
    }

    predicate Operator(t: string) { spells(t, "AND") || spells(t, "OR") || spells(t, "WITH") }
  }

  // ---- the grammar, as trees: WITH binds tighter than AND, AND tighter than OR ----

  datatype Or = OrOne(head: And) | OrMore(head: And, op: string, tail: Or)

  datatype And = AndOne(head: With) | AndMore(head: With, op: string, tail: And)

  datatype With = Bare(atom: Atom) | Excepted(atom: Atom, op: string, exception: string)

  datatype Atom = Id(id: string) | Group(inner: Or)

  function OrTokens(t: Or): (r: seq<string>)
    ensures r != []
  {
    match t
    case OrOne(a) => AndTokens(a)
    case OrMore(a, op, tail) => AndTokens(a) + [op] + OrTokens(tail)
  }

  function AndTokens(t: And): (r: seq<string>)
    ensures r != []
  {
    match t
    case AndOne(w) => WithTokens(w)
    case AndMore(w, op, tail) => WithTokens(w) + [op] + AndTokens(tail)
  }

  function WithTokens(t: With): (r: seq<string>)
    ensures r != []
  {
    match t
    case Bare(a) => AtomTokens(a)
    case Excepted(a, op, e) => AtomTokens(a) + [op, e]
  }

  function AtomTokens(t: Atom): (r: seq<string>)
    ensures r != []
  {
    match t
    case Id(id) => [id]
    case Group(inner) => ["("] + OrTokens(inner) + [")"]
  }

  // ---- which trees a dialect allows ----

  predicate OrFits(d: Dialect, t: Or) {
    match t
    case OrOne(a) => AndFits(d, a)
    case OrMore(a, op, tail) => AndFits(d, a) && d.spells(op, "OR") && OrFits(d, tail)
  }

  predicate AndFits(d: Dialect, t: And) {
    match t
    case AndOne(w) => WithFits(d, w)
    case AndMore(w, op, tail) => WithFits(d, w) && d.spells(op, "AND") && AndFits(d, tail)
  }

  predicate WithFits(d: Dialect, t: With) {
    match t
    case Bare(a) => AtomFits(d, a)
    case Excepted(a, op, e) =>
      AtomFits(d, a) && d.spells(op, "WITH") && d.identifier(e) && (a.Group? ==> d.groupExceptions)
  }

  predicate AtomFits(d: Dialect, t: Atom) {
    match t
    case Id(id) => d.identifier(id)
    case Group(inner) => OrFits(d, inner)
  }

  /** The token lists of the grammar. */
  ghost predicate InGrammar(d: Dialect, tokens: seq<string>) {
    exists t :: OrFits(d, t) && OrTokens(t) == tokens
  }

  // ---- the recognizer: what is left after the longest phrase, if there is one ----

  predicate Next(d: Dialect, ts: seq<string>, op: string) { ts != [] && d.spells(ts[0], op) }

  function ReadOr(d: Dialect, ts: seq<string>): (r: Option<seq<string>>)
    ensures r.Some? ==> |r.value| < |ts|
    decreases |ts|, 4
  {
    match ReadAnd(d, ts)
    case None => None
    case Some(rest) => ReadOrTail(d, rest)
  }

  function ReadOrTail(d: Dialect, ts: seq<string>): (r: Option<seq<string>>)
    ensures r.Some? ==> |r.value| <= |ts|
    decreases |ts|, 5
  {
    if !Next(d, ts, "OR") then Some(ts)
    else match ReadAnd(d, ts[1..])
      case None => None
      case Some(rest) => ReadOrTail(d, rest)
  }

  function ReadAnd(d: Dialect, ts: seq<string>): (r: Option<seq<string>>)
    ensures r.Some? ==> |r.value| < |ts|
    decreases |ts|, 2
  {
    match ReadWith(d, ts)
    case None => None
    case Some(rest) => ReadAndTail(d, rest)
  }

  function ReadAndTail(d: Dialect, ts: seq<string>): (r: Option<seq<string>>)
    ensures r.Some? ==> |r.value| <= |ts|
    decreases |ts|, 3
  {
    if !Next(d, ts, "AND") then Some(ts)
    else match ReadWith(d, ts[1..])
      case None => None
      case Some(rest) => ReadAndTail(d, rest)
  }

  function ReadWith(d: Dialect, ts: seq<string>): (r: Option<seq<string>>)
    ensures r.Some? ==> |r.value| < |ts|
    decreases |ts|, 1
  {
    match ReadAtom(d, ts)
    case None => None
    case Some(rest) =>
      if !Next(d, rest, "WITH") || (ts[0] == "(" && !d.groupExceptions) then Some(rest)
      else if |rest| > 1 && d.identifier(rest[1]) then Some(rest[2..])
      else None
  }

  function ReadAtom(d: Dialect, ts: seq<string>): (r: Option<seq<string>>)
    ensures r.Some? ==> |r.value| < |ts|
    decreases |ts|, 0
  {
    if ts == [] then None
    else if ts[0] == "(" then
      match ReadOr(d, ts[1..])
      case None => None
      case Some(rest) => if rest != [] && rest[0] == ")" then Some(rest[1..]) else None
    else if d.identifier(ts[0]) then Some(ts[1..])
    else None
  }

  /** A whole expression: a phrase and nothing after it. */
  predicate Accepts(d: Dialect, tokens: seq<string>) {
    ReadOr(d, tokens) == Some([])
  }

  // ---- soundness: what is read is a phrase ----

  lemma {:induction false} OrSound(d: Dialect, ts: seq<string>) returns (t: Or)
    requires ReadOr(d, ts).Some?
    ensures OrFits(d, t) && ts == OrTokens(t) + ReadOr(d, ts).value
    decreases |ts|, 4
  {
    var a := AndSound(d, ts);
    t := OrTailSound(d, a, ReadAnd(d, ts).value);
    assert AndTokens(a) + ReadAnd(d, ts).value == ts;
  }

  lemma {:induction false} OrTailSound(d: Dialect, a: And, ts: seq<string>) returns (t: Or)
    requires AndFits(d, a) && ReadOrTail(d, ts).Some?
    ensures OrFits(d, t) && AndTokens(a) + ts == OrTokens(t) + ReadOrTail(d, ts).value
    decreases |ts|, 5
  {
    if Next(d, ts, "OR") {
      var b := AndSound(d, ts[1..]);
      var rest := ReadAnd(d, ts[1..]).value;
      var tail := OrTailSound(d, b, rest);
      t := OrMore(a, ts[0], tail);
      Rejoin(AndTokens(a), ts, AndTokens(b) + rest, OrTokens(tail), ReadOrTail(d, ts).value);
    } else {
      t := OrOne(a);
    }
  }

  lemma Rejoin(a: seq<string>, ts: seq<string>, u: seq<string>, tail: seq<string>, rest: seq<string>)
    requires ts != [] && ts[1..] == u && u == tail + rest
    ensures a + ts == a + [ts[0]] + tail + rest
  {
    assert ts == [ts[0]] + u;
  }

  lemma {:induction false} AndSound(d: Dialect, ts: seq<string>) returns (t: And)
    requires ReadAnd(d, ts).Some?
    ensures AndFits(d, t) && ts == AndTokens(t) + ReadAnd(d, ts).value
    decreases |ts|, 2
  {
    var w := WithSound(d, ts);
    t := AndTailSound(d, w, ReadWith(d, ts).value);
    assert WithTokens(w) + ReadWith(d, ts).value == ts;
  }

  lemma {:induction false} AndTailSound(d: Dialect, w: With, ts: seq<string>) returns (t: And)
    requires WithFits(d, w) && ReadAndTail(d, ts).Some?
    ensures AndFits(d, t) && WithTokens(w) + ts == AndTokens(t) + ReadAndTail(d, ts).value
    decreases |ts|, 3
  {
    if Next(d, ts, "AND") {
      var b := WithSound(d, ts[1..]);
      var rest := ReadWith(d, ts[1..]).value;
      var tail := AndTailSound(d, b, rest);
      t := AndMore(w, ts[0], tail);
      Rejoin(WithTokens(w), ts, WithTokens(b) + rest, AndTokens(tail), ReadAndTail(d, ts).value);
    } else {
      t := AndOne(w);
    }
  }

  lemma {:induction false} WithSound(d: Dialect, ts: seq<string>) returns (t: With)
    requires ReadWith(d, ts).Some?
    ensures WithFits(d, t) && ts == WithTokens(t) + ReadWith(d, ts).value
    decreases |ts|, 1
  {
    var a := AtomSound(d, ts);
    var rest := ReadAtom(d, ts).value;
    if !Next(d, rest, "WITH") || (ts[0] == "(" && !d.groupExceptions) {
      t := Bare(a);
    } else {
      t := Excepted(a, rest[0], rest[1]);
      assert ts[0] == AtomTokens(a)[0];
      assert rest == [rest[0], rest[1]] + rest[2..];
    }
  }

  lemma {:induction false} AtomSound(d: Dialect, ts: seq<string>) returns (t: Atom)
    requires ReadAtom(d, ts).Some?
    ensures AtomFits(d, t) && ts == AtomTokens(t) + ReadAtom(d, ts).value && (t.Group? <==> ts[0] == "(")
    decreases |ts|, 0
  {
    if ts[0] == "(" {
      var inner := OrSound(d, ts[1..]);
      var rest := ReadOr(d, ts[1..]).value;
      t := Group(inner);
      assert rest == [")"] + rest[1..] && ts == ["("] + (OrTokens(inner) + rest);
    } else {
      t := Id(ts[0]);
    }
  }

  // ---- completeness: every phrase is read ----

  ghost predicate Ends(d: Dialect, rest: seq<string>) {
    rest == [] || !d.Operator(rest[0])
  }

  lemma {:induction false} OrComplete(d: Dialect, t: Or, rest: seq<string>)
    requires d.Sound() && OrFits(d, t) && Ends(d, rest)
    ensures ReadOr(d, OrTokens(t) + rest) == Some(rest)
    decreases t
  {
    match t
    case OrOne(a) => AndComplete(d, a, rest);
    case OrMore(a, op, tail) =>
      var u := OrTokens(tail) + rest;
      OrComplete(d, tail, rest);
      AndComplete(d, a, [op] + u);
      Regrouped(AndTokens(a), op, OrTokens(tail), rest);
      OrTailRead(d, op, u);
  }

  lemma {:induction false} AndComplete(d: Dialect, t: And, rest: seq<string>)
    requires d.Sound() && AndFits(d, t) && (Ends(d, rest) || Next(d, rest, "OR"))
    ensures ReadAnd(d, AndTokens(t) + rest) == Some(rest)
    decreases t
  {
    match t
    case AndOne(w) =>
      WithComplete(d, w, rest);
      AndEnds(d, rest);
    case AndMore(w, op, tail) =>
      var u := AndTokens(tail) + rest;
      AndComplete(d, tail, rest);
      WithComplete(d, w, [op] + u);
      Regrouped(WithTokens(w), op, AndTokens(tail), rest);
      AndTailRead(d, op, u);
  }

  lemma AndEnds(d: Dialect, rest: seq<string>)
    requires d.Sound() && (Ends(d, rest) || Next(d, rest, "OR"))
    ensures ReadAndTail(d, rest) == Some(rest)
  {}

  lemma Regrouped(a: seq<string>, op: string, b: seq<string>, rest: seq<string>)
    ensures a + [op] + b + rest == a + ([op] + (b + rest))
  {}

  lemma OrTailRead(d: Dialect, op: string, u: seq<string>)
    requires d.spells(op, "OR")
    ensures ReadOrTail(d, [op] + u) == ReadOr(d, u)
  {
    assert ([op] + u)[1..] == u;
  }

  lemma AndTailRead(d: Dialect, op: string, u: seq<string>)
    requires d.spells(op, "AND")
    ensures ReadAndTail(d, [op] + u) == ReadAnd(d, u)
  {
    assert ([op] + u)[1..] == u;
  }

  lemma {:induction false} WithComplete(d: Dialect, t: With, rest: seq<string>)
    requires d.Sound() && WithFits(d, t) && (Ends(d, rest) || Next(d, rest, "OR") || Next(d, rest, "AND"))
    ensures ReadWith(d, WithTokens(t) + rest) == Some(rest)
    decreases t
  {
    match t
    case Bare(a) => AtomComplete(d, a, rest);
    case Excepted(a, op, e) =>
      var u := [op, e] + rest;
      AtomComplete(d, a, u);
      assert WithTokens(t) + rest == AtomTokens(a) + u;
      ExceptionRead(d, a, op, e, rest);
  }

  lemma ExceptionRead(d: Dialect, a: Atom, op: string, e: string, rest: seq<string>)
    requires d.Sound() && WithFits(d, Excepted(a, op, e))
    requires ReadAtom(d, AtomTokens(a) + ([op, e] + rest)) == Some([op, e] + rest)
    ensures ReadWith(d, AtomTokens(a) + ([op, e] + rest)) == Some(rest)
  {
    var u := [op, e] + rest;
    assert u[2..] == rest && (AtomTokens(a) + u)[0] == AtomTokens(a)[0];
  }

  lemma {:induction false} AtomComplete(d: Dialect, t: Atom, rest: seq<string>)
    requires d.Sound() && AtomFits(d, t)
    ensures ReadAtom(d, AtomTokens(t) + rest) == Some(rest)
    decreases t
  {
    var ts := AtomTokens(t) + rest;
    match t
    case Id(id) => assert ts[1..] == rest;
    case Group(inner) =>
      OrComplete(d, inner, [")"] + rest);
      assert ts[1..] == OrTokens(inner) + ([")"] + rest) && ([")"] + rest)[1..] == rest;
  }

  /** The recognizer accepts exactly the token lists of the grammar. */
  lemma AcceptsIffGrammar(d: Dialect, tokens: seq<string>)
    requires d.Sound()
    ensures Accepts(d, tokens) <==> InGrammar(d, tokens)
  {
    if Accepts(d, tokens) {
      var t := OrSound(d, tokens);
      assert OrTokens(t) + [] == OrTokens(t);
    }
    if InGrammar(d, tokens) {
      var t :| OrFits(d, t) && OrTokens(t) == tokens;
      OrComplete(d, t, []);
      assert OrTokens(t) + [] == OrTokens(t);
    }
  }

  // ---- the two dialects ----

  /** The provenance audit reads operators in any case and lets an exception follow a parenthesised expression. */
  function Audit(identifier: string -> bool, upper: string -> string): Dialect {
    Dialect(identifier, (t: string, op: string) => upper(t) == op, true)
  }

  /** The notice generator reads operators in upper case only, with exceptions after license names only. */
  function Notices(identifier: string -> bool): Dialect {
    Dialect(identifier, (t: string, op: string) => t == op, false)
  }

  /** Whether the one shared set of names is disjoint from what either parser reads as an operator. */
  ghost predicate Disjoint(identifier: string -> bool, upper: string -> string) {
    && Audit(identifier, upper).Sound()
    && upper("AND") == "AND" && upper("OR") == "OR" && upper("WITH") == "WITH"
  }

  lemma NoticesSound(identifier: string -> bool, upper: string -> string)
    requires Disjoint(identifier, upper)
    ensures Notices(identifier).Sound()
  {
    var a, n := Audit(identifier, upper), Notices(identifier);
    assert forall t :: n.spells(t, "AND") ==> a.spells(t, "AND");
    assert forall t :: n.spells(t, "OR") ==> a.spells(t, "OR");
    assert forall t :: n.spells(t, "WITH") ==> a.spells(t, "WITH");
    assert forall t :: n.Operator(t) ==> a.Operator(t);
    assert forall t :: n.identifier(t) ==> a.identifier(t);
  }

  lemma {:induction false} OrIncluded(n: Dialect, a: Dialect, t: Or)
    requires Includes(a, n) && OrFits(n, t)
    ensures OrFits(a, t)
  {
    match t
    case OrOne(h) => AndIncluded(n, a, h);
    case OrMore(h, op, tail) => AndIncluded(n, a, h); OrIncluded(n, a, tail);
  }

  lemma {:induction false} AndIncluded(n: Dialect, a: Dialect, t: And)
    requires Includes(a, n) && AndFits(n, t)
    ensures AndFits(a, t)
  {
    match t
    case AndOne(h) => AtomIncluded(n, a, h.atom);
    case AndMore(h, op, tail) => AtomIncluded(n, a, h.atom); AndIncluded(n, a, tail);
  }

  lemma {:induction false} AtomIncluded(n: Dialect, a: Dialect, t: Atom)
    requires Includes(a, n) && AtomFits(n, t)
    ensures AtomFits(a, t)
  {
    if t.Group? { OrIncluded(n, a, t.inner); }
  }

  /** The one dialect reads everything the other does. */
  ghost predicate Includes(a: Dialect, n: Dialect) {
    && (forall t :: n.identifier(t) ==> a.identifier(t))
    && (forall t :: n.spells(t, "AND") ==> a.spells(t, "AND")) && (forall t :: n.spells(t, "OR") ==> a.spells(t, "OR"))
    && (forall t :: n.spells(t, "WITH") ==> a.spells(t, "WITH"))
    && (n.groupExceptions ==> a.groupExceptions)
  }

  /** Over one set of names, whatever the notice generator accepts, the audit accepts. */
  lemma AuditAcceptsNotices(identifier: string -> bool, upper: string -> string, tokens: seq<string>)
    requires Disjoint(identifier, upper) && Accepts(Notices(identifier), tokens)
    ensures Accepts(Audit(identifier, upper), tokens)
  {
    var a, n := Audit(identifier, upper), Notices(identifier);
    NoticesSound(identifier, upper);
    AcceptsIffGrammar(n, tokens);
    AcceptsIffGrammar(a, tokens);
    var t :| OrFits(n, t) && OrTokens(t) == tokens;
    assert Includes(a, n);
    OrIncluded(n, a, t);
  }

  // ---- exactly where the two agree ----

  /** A token that spells an operator only if it is that word. */
  predicate PlainToken(d: Dialect, t: string) {
    (d.spells(t, "AND") ==> t == "AND") && (d.spells(t, "OR") ==> t == "OR") && (d.spells(t, "WITH") ==> t == "WITH")
  }

  /** Operators are spelled as the words, and no parenthesised expression is followed by an exception. */
  predicate Plainly(d: Dialect, ts: seq<string>) {
    && (forall k :: 0 <= k < |ts| ==> PlainToken(d, ts[k]))
    && forall k :: 0 < k < |ts| && ts[k - 1] == ")" ==> !d.spells(ts[k], "WITH")
  }

  lemma PlainlyJoins(d: Dialect, a: seq<string>, b: seq<string>)
    requires a != [] && b != [] && Plainly(d, a) && Plainly(d, b)
    requires a[|a| - 1] == ")" ==> !d.spells(b[0], "WITH")
    ensures Plainly(d, a + b)
  {
    var ts := a + b;
    forall k | 0 < k < |ts| && ts[k - 1] == ")"
      ensures !d.spells(ts[k], "WITH")
    {
      if k > |a| { assert b[k - |a| - 1] == ")"; }
    }
  }

  lemma PlainlyParts(d: Dialect, a: seq<string>, b: seq<string>)
    requires Plainly(d, a + b)
    ensures Plainly(d, a) && Plainly(d, b)
    ensures a != [] && b != [] && a[|a| - 1] == ")" ==> !d.spells(b[0], "WITH")
  {
    var ts := a + b;
    forall k | 0 <= k < |b|
      ensures PlainToken(d, b[k])
      ensures k > 0 && b[k - 1] == ")" ==> !d.spells(b[k], "WITH")
    {
      assert ts[|a| + k] == b[k] && (k > 0 ==> ts[|a| + k - 1] == b[k - 1]);
    }
    forall k | 0 <= k < |a|
      ensures PlainToken(d, a[k])
      ensures k > 0 && a[k - 1] == ")" ==> !d.spells(a[k], "WITH")
    {
      assert ts[k] == a[k] && (k > 0 ==> ts[k - 1] == a[k - 1]);
    }
    if a != [] && b != [] { assert ts[|a|] == b[0] && ts[|a| - 1] == a[|a| - 1]; }
  }

  /** The strict dialect: operators are the words, which the wider one reads too; the same names; no parenthesis is
      an operator. */
  ghost predicate Stricter(n: Dialect, a: Dialect) {
    && a.Sound() && a.groupExceptions && !n.groupExceptions && !a.Operator("(")
    && a.spells("AND", "AND") && a.spells("OR", "OR") && a.spells("WITH", "WITH")
    && (forall t :: n.identifier(t) <==> a.identifier(t))
    && forall t, op :: n.spells(t, op) <==> t == op
  }

  lemma WordsPlain(n: Dialect, a: Dialect, op: string)
    requires Stricter(n, a) && (op == "AND" || op == "OR" || op == "WITH")
    ensures PlainToken(a, op) && Plainly(a, [op]) && (op != "WITH" ==> !a.spells(op, "WITH"))
  {
    assert a.spells(op, op);
  }

  lemma NamePlain(n: Dialect, a: Dialect, t: string)
    requires Stricter(n, a) && (n.identifier(t) || t == "(" || t == ")")
    ensures !a.Operator(t) && Plainly(a, [t])
  {}

  // What the strict dialect allows is plain, and does not begin with an operator.

  lemma {:induction false} OrPlain(n: Dialect, a: Dialect, t: Or)
    requires Stricter(n, a) && OrFits(n, t)
    ensures Plainly(a, OrTokens(t)) && !a.Operator(OrTokens(t)[0])
    decreases t
  {
    match t
    case OrOne(h) => AndPlain(n, a, h);
    case OrMore(h, op, tail) =>
      AndPlain(n, a, h);
      OrPlain(n, a, tail);
      BinaryPlain(n, a, AndTokens(h), op, OrTokens(tail));
  }

  lemma BinaryPlain(n: Dialect, a: Dialect, left: seq<string>, op: string, right: seq<string>)
    requires Stricter(n, a) && (op == "AND" || op == "OR") && left != [] && right != []
    requires Plainly(a, left) && Plainly(a, right) && !a.Operator(right[0])
    ensures Plainly(a, left + [op] + right)
  {
    WordsPlain(n, a, op);
    PlainlyJoins(a, left, [op]);
    PlainlyJoins(a, left + [op], right);
  }

  lemma {:induction false} AndPlain(n: Dialect, a: Dialect, t: And)
    requires Stricter(n, a) && AndFits(n, t)
    ensures Plainly(a, AndTokens(t)) && !a.Operator(AndTokens(t)[0])
    decreases t
  {
    match t
    case AndOne(h) => WithPlain(n, a, h);
    case AndMore(h, op, tail) =>
      WithPlain(n, a, h);
      AndPlain(n, a, tail);
      BinaryPlain(n, a, WithTokens(h), op, AndTokens(tail));
  }

  lemma {:induction false} WithPlain(n: Dialect, a: Dialect, t: With)
    requires Stricter(n, a) && WithFits(n, t)
    ensures Plainly(a, WithTokens(t)) && !a.Operator(WithTokens(t)[0])
    decreases t
  {
    match t
    case Bare(h) => AtomPlain(n, a, h);
    case Excepted(h, op, e) =>
      AtomPlain(n, a, h);
      WordsPlain(n, a, op);
      NamePlain(n, a, e);
      PlainlyJoins(a, [op], [e]);
      PlainlyJoins(a, AtomTokens(h), [op] + [e]);
      assert WithTokens(t) == AtomTokens(h) + ([op] + [e]);
  }

  lemma {:induction false} AtomPlain(n: Dialect, a: Dialect, t: Atom)
    requires Stricter(n, a) && AtomFits(n, t)
    ensures Plainly(a, AtomTokens(t)) && !a.Operator(AtomTokens(t)[0])
    decreases t
  {
    match t
    case Id(id) => NamePlain(n, a, id);
    case Group(inner) =>
      OrPlain(n, a, inner);
      NamePlain(n, a, "(");
      NamePlain(n, a, ")");
      PlainlyJoins(a, ["("], OrTokens(inner));
      PlainlyJoins(a, ["("] + OrTokens(inner), [")"]);
  }

  // What the wider dialect allows and is plain, the strict one allows too.

  lemma {:induction false} OrStrict(n: Dialect, a: Dialect, t: Or)
    requires Stricter(n, a) && OrFits(a, t) && Plainly(a, OrTokens(t))
    ensures OrFits(n, t)
    decreases t
  {
    match t
    case OrOne(h) => AndStrict(n, a, h);
    case OrMore(h, op, tail) =>
      BinaryParts(a, AndTokens(h), op, OrTokens(tail));
      AndStrict(n, a, h);
      OrStrict(n, a, tail);
  }

  lemma BinaryParts(a: Dialect, left: seq<string>, op: string, right: seq<string>)
    requires Plainly(a, left + [op] + right)
    ensures Plainly(a, left) && PlainToken(a, op) && Plainly(a, right)
  {
    PlainlyParts(a, left + [op], right);
    PlainlyParts(a, left, [op]);
    assert [op][0] == op;
  }

  lemma {:induction false} AndStrict(n: Dialect, a: Dialect, t: And)
    requires Stricter(n, a) && AndFits(a, t) && Plainly(a, AndTokens(t))
    ensures AndFits(n, t)
    decreases t
  {
    match t
    case AndOne(h) => WithStrict(n, a, h);
    case AndMore(h, op, tail) =>
      BinaryParts(a, WithTokens(h), op, AndTokens(tail));
      WithStrict(n, a, h);
      AndStrict(n, a, tail);
  }

  lemma {:induction false} WithStrict(n: Dialect, a: Dialect, t: With)
    requires Stricter(n, a) && WithFits(a, t) && Plainly(a, WithTokens(t))
    ensures WithFits(n, t)
    decreases t
  {
    match t
    case Bare(h) => AtomStrict(n, a, h);
    case Excepted(h, op, e) =>
      assert h.Group? ==> AtomTokens(h)[|AtomTokens(h)| - 1] == ")";
      PlainlyParts(a, AtomTokens(h), [op, e]);
      assert PlainToken(a, [op, e][0]);
      AtomStrict(n, a, h);
  }

  lemma {:induction false} AtomStrict(n: Dialect, a: Dialect, t: Atom)
    requires Stricter(n, a) && AtomFits(a, t) && Plainly(a, AtomTokens(t))
    ensures AtomFits(n, t)
    decreases t
  {
    match t
    case Id(id) =>
    case Group(inner) =>
      PlainlyParts(a, ["("] + OrTokens(inner), [")"]);
      PlainlyParts(a, ["("], OrTokens(inner));
      OrStrict(n, a, inner);
  }

  /** The notice generator accepts exactly what the audit accepts and is spelled plainly. */
  lemma NoticesExact(identifier: string -> bool, upper: string -> string, tokens: seq<string>)
    requires Disjoint(identifier, upper) && !Audit(identifier, upper).Operator("(")
    ensures Accepts(Notices(identifier), tokens)
      <==> Accepts(Audit(identifier, upper), tokens) && Plainly(Audit(identifier, upper), tokens)
  {
    var a, n := Audit(identifier, upper), Notices(identifier);
    NoticesSound(identifier, upper);
    assert Stricter(n, a);
    AcceptsIffGrammar(n, tokens);
    AcceptsIffGrammar(a, tokens);
    if Accepts(n, tokens) {
      AuditAcceptsNotices(identifier, upper, tokens);
      var t :| OrFits(n, t) && OrTokens(t) == tokens;
      OrPlain(n, a, t);
    }
    if Accepts(a, tokens) && Plainly(a, tokens) {
      var t :| OrFits(a, t) && OrTokens(t) == tokens;
      OrStrict(n, a, t);
    }
  }

  /** Both ways of not being plain occur: only the audit accepts an exception after a parenthesised expression, and
      only the audit accepts an operator in another case. */
  lemma AuditAcceptsMore(identifier: string -> bool, upper: string -> string, id: string, op: string)
    requires Disjoint(identifier, upper) && identifier(id)
    ensures var grouped := ["(", id, ")", "WITH", id];
      Accepts(Audit(identifier, upper), grouped) && !Accepts(Notices(identifier), grouped)
    ensures op != "AND" && upper(op) == "AND" ==>
      var lower := [id, op, id];
      Accepts(Audit(identifier, upper), lower) && !Accepts(Notices(identifier), lower)
  {
    var a := Audit(identifier, upper);
    GroupException(a, id);
    NoGroupException(identifier, upper, id);
    if op != "AND" && upper(op) == "AND" {
      Conjunction(a, id, op);
      NoOtherCase(identifier, upper, id, op);
    }
  }

  /** Spelled with capitals only, the wider dialect differs from the strict one in group exceptions alone. */
  lemma NoGroupException(identifier: string -> bool, upper: string -> string, id: string)
    requires Disjoint(identifier, upper)
    ensures !Accepts(Notices(identifier), ["(", id, ")", "WITH", id])
  {
    var grouped, same := ["(", id, ")", "WITH", id], (s: string) => s;
    NoticesSound(identifier, upper);
    assert Disjoint(identifier, same) && !Audit(identifier, same).Operator("(");
    NoticesExact(identifier, same, grouped);
    assert grouped[2] == ")" && Audit(identifier, same).spells(grouped[3], "WITH");
  }

  /** A conjunction whose middle word is not the operator itself is none to the strict dialect. */
  lemma NoOtherCase(identifier: string -> bool, upper: string -> string, id: string, op: string)
    requires Disjoint(identifier, upper) && identifier(id) && op != "AND" && upper(op) == "AND"
    ensures !Accepts(Notices(identifier), [id, op, id])
  {
    var n, tokens := Notices(identifier), [id, op, id];
    NoticesSound(identifier, upper);
    assert tokens[1..] == [op, id] && !n.Operator(op) && ReadAtom(n, tokens) == Some([op, id]);
    assert ReadWith(n, tokens) == Some([op, id]);
    assert ReadAndTail(n, [op, id]) == Some([op, id]) && ReadAnd(n, tokens) == Some([op, id]);
    assert ReadOrTail(n, [op, id]) == Some([op, id]) && ReadOr(n, tokens) == Some([op, id]);
  }

  lemma GroupException(a: Dialect, id: string)
    requires a.Sound() && a.identifier(id) && a.spells("WITH", "WITH") && a.groupExceptions
    ensures Accepts(a, ["(", id, ")", "WITH", id])
  {
    var inner := OrOne(AndOne(Bare(Id(id))));
    assert OrTokens(inner) == AndTokens(inner.head) == WithTokens(inner.head.head) == [id];
    assert AtomTokens(Group(inner)) == ["(", id, ")"];
    AuditReads(a, inner, "WITH", id);
    assert ["(", id, ")", "WITH", id] == AtomTokens(Group(inner)) + ["WITH", id];
  }

  lemma Conjunction(a: Dialect, id: string, op: string)
    requires a.Sound() && a.identifier(id) && a.spells(op, "AND")
    ensures Accepts(a, [id, op, id])
  {
    var w := Bare(Id(id));
    assert AtomFits(a, Id(id)) && WithFits(a, w) && WithTokens(w) == AtomTokens(Id(id)) == [id];
    var one := AndOne(w);
    assert AndFits(a, one) && AndTokens(one) == [id];
    var both := AndMore(w, op, one);
    assert AndFits(a, both) && AndTokens(both) == [id] + [op] + [id] == [id, op, id];
    var t := OrOne(both);
    assert OrFits(a, t) && OrTokens(t) == [id, op, id];
    AcceptsIffGrammar(a, [id, op, id]);
  }

  lemma InnerFits(d: Dialect, id: string)
    requires d.identifier(id)
    ensures OrFits(d, OrOne(AndOne(Bare(Id(id)))))
  {
    assert AtomFits(d, Id(id));
    assert WithFits(d, Bare(Id(id)));
    assert AndFits(d, AndOne(Bare(Id(id))));
  }

  lemma AuditReads(a: Dialect, inner: Or, op: string, id: string)
    requires a.Sound() && a.identifier(id) && a.spells(op, "WITH") && a.groupExceptions
    requires inner == OrOne(AndOne(Bare(Id(id))))
    ensures Accepts(a, AtomTokens(Group(inner)) + [op, id])
  {
    InnerFits(a, id);
    var w := Excepted(Group(inner), op, id);
    assert WithFits(a, w);
    assert AndFits(a, AndOne(w));
    var t := OrOne(AndOne(w));
    assert OrTokens(t) == AndTokens(AndOne(w)) == WithTokens(w);
    OrComplete(a, t, []);
    assert OrTokens(t) + [] == OrTokens(t);
  }
}
