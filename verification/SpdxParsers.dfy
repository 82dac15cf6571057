/** The two license-expression parsers, each a set of procedures that advance one shared index. */
module SpdxParsers {
  import opened Common
  import opened Spdx

  /** What a procedure must have done: read a phrase as the recognizer does, or failed as it does. */
  ghost predicate Did(tokens: seq<string>, index: nat, ok: bool, r: Option<seq<string>>) {
    index <= |tokens| && (ok <==> r.Some?) && (ok ==> tokens[index..] == r.value)
  }

  /** parse_spdx of the provenance audit: operators in any case, an exception after any atom. */
  class AuditParser {
    const tokens: seq<string>
    const d: Dialect
    var index: nat

    constructor (tokens: seq<string>, identifier: string -> bool, upper: string -> string)
      ensures this.tokens == tokens && d == Audit(identifier, upper) && index == 0
    {
      this.tokens, this.d, index := tokens, Audit(identifier, upper), 0;
    }

    method ParseAtom() returns (ok: bool)
      requires index <= |tokens| && d.groupExceptions
      modifies this
      ensures Did(tokens, index, ok, old(ReadAtom(d, tokens[index..]))) && index >= old(index)
        && (ok ==> index > old(index))
      decreases |tokens| - index, 0
    {
      if index >= |tokens| {
        return false;
      }
      var token := tokens[index];
      assert tokens[index..][1..] == tokens[index + 1..];
      index := index + 1;
      if token == "(" {
        var inner := ParseOr();
        if !inner || index >= |tokens| || tokens[index] != ")" {
          return false;
        }
        assert tokens[index..][1..] == tokens[index + 1..];
        index := index + 1;
        return true;
      }
      return d.identifier(token);
    }

    method ParseWith() returns (ok: bool)
      requires index <= |tokens| && d.groupExceptions
      modifies this
      ensures Did(tokens, index, ok, old(ReadWith(d, tokens[index..]))) && index >= old(index)
        && (ok ==> index > old(index))
      decreases |tokens| - index, 1
    {
      ok := ParseAtom();
      if ok && index < |tokens| && d.spells(tokens[index], "WITH") {
        assert |tokens[index..]| > 1 ==>
          tokens[index..][1] == tokens[index + 1] && tokens[index..][2..] == tokens[index + 2..];
        index := index + 1;
        if index >= |tokens| || !d.identifier(tokens[index]) {
          return false;
        }
        index := index + 1;
      }
    }

    method ParseAnd() returns (ok: bool)
      requires index <= |tokens| && d.groupExceptions
      modifies this
      ensures Did(tokens, index, ok, old(ReadAnd(d, tokens[index..]))) && index >= old(index)
        && (ok ==> index > old(index))
      decreases |tokens| - index, 2
    {
      ghost var goal := ReadAnd(d, tokens[index..]);
      ok := ParseWith();
      while ok && index < |tokens| && d.spells(tokens[index], "AND")
        invariant old(index) <= index <= |tokens| && (ok ==> index > old(index))
        invariant if ok then goal == ReadAndTail(d, tokens[index..]) else goal == None
        decreases |tokens| - index
      {
        assert tokens[index..][1..] == tokens[index + 1..];
        index := index + 1;
        ok := ParseWith();
      }
    }

    method ParseOr() returns (ok: bool)
      requires index <= |tokens| && d.groupExceptions
      modifies this
      ensures Did(tokens, index, ok, old(ReadOr(d, tokens[index..]))) && index >= old(index)
        && (ok ==> index > old(index))
      decreases |tokens| - index, 3
    {
      ghost var goal := ReadOr(d, tokens[index..]);
      ok := ParseAnd();
      while ok && index < |tokens| && d.spells(tokens[index], "OR")
        invariant old(index) <= index <= |tokens| && (ok ==> index > old(index))
        invariant if ok then goal == ReadOrTail(d, tokens[index..]) else goal == None
        decreases |tokens| - index
      {
        assert tokens[index..][1..] == tokens[index + 1..];
        index := index + 1;
        ok := ParseAnd();
      }
    }
  }

  /** Accepts exactly the grammar, and consumes every token of what it accepts. */
  method ParseSpdx(tokens: seq<string>, identifier: string -> bool, upper: string -> string) returns (ok: bool)
    ensures ok <==> Accepts(Audit(identifier, upper), tokens)
    ensures Audit(identifier, upper).Sound() ==> (ok <==> InGrammar(Audit(identifier, upper), tokens))
  {
    if tokens == [] {
      ok := false;
    } else {
      var parser := new AuditParser(tokens, identifier, upper);
      assert tokens[0..] == tokens;
      ok := parser.ParseOr();
      ok := ok && parser.index == |tokens|;
    }
    if Audit(identifier, upper).Sound() { AcceptsIffGrammar(Audit(identifier, upper), tokens); }
  }

  /** The parser inside _validate_spdx: operators in upper case, an exception after a license name only.
      Where the source raises an error, the procedures return false. */
  class NoticeParser {
    const tokens: seq<string>
    const d: Dialect
    var index: nat

    constructor (tokens: seq<string>, identifier: string -> bool)
      ensures this.tokens == tokens && d == Notices(identifier) && index == 0
    {
      this.tokens, this.d, index := tokens, Notices(identifier), 0;
    }

    static predicate Reserved(token: string) {
      token == "AND" || token == "OR" || token == "WITH" || token == ")" || token == "("
    }

    ghost predicate Fits() {
      d == Notices(d.identifier) && d.Sound()
    }

    /** An atom and the exception that may follow a license name. */
    method ParseAtom() returns (ok: bool)
      requires index <= |tokens| && Fits()
      modifies this
      ensures Did(tokens, index, ok, old(ReadWith(d, tokens[index..]))) && index >= old(index)
        && (ok ==> index > old(index))
      decreases |tokens| - index, 0
    {
      if index >= |tokens| {
        return false;
      }
      assert tokens[index..][1..] == tokens[index + 1..];
      if tokens[index] == "(" {
        index := index + 1;
        ok := ParseOr();
        if !ok || index >= |tokens| || tokens[index] != ")" {
          return false;
        }
        assert tokens[index..][1..] == tokens[index + 1..];
        index := index + 1;
        return true;
      }
      var atom := tokens[index];
      if Reserved(atom) || !d.identifier(atom) {
        return false;
      }
      index := index + 1;
      if index < |tokens| && tokens[index] == "WITH" {
        assert |tokens[index..]| > 1 ==>
          tokens[index..][1] == tokens[index + 1] && tokens[index..][2..] == tokens[index + 2..];
        index := index + 1;
        if index >= |tokens| || Reserved(tokens[index]) || !d.identifier(tokens[index]) {
          return false;
        }
        index := index + 1;
      }
      return true;
    }

    method ParseAnd() returns (ok: bool)
      requires index <= |tokens| && Fits()
      modifies this
      ensures Did(tokens, index, ok, old(ReadAnd(d, tokens[index..]))) && index >= old(index)
        && (ok ==> index > old(index))
      decreases |tokens| - index, 1
    {
      ghost var goal := ReadAnd(d, tokens[index..]);
      ok := ParseAtom();
      while ok && index < |tokens| && tokens[index] == "AND"
        invariant old(index) <= index <= |tokens| && (ok ==> index > old(index))
        invariant if ok then goal == ReadAndTail(d, tokens[index..]) else goal == None
        decreases |tokens| - index
      {
        assert tokens[index..][1..] == tokens[index + 1..];
        index := index + 1;
        ok := ParseAtom();
      }
    }

    method ParseOr() returns (ok: bool)
      requires index <= |tokens| && Fits()
      modifies this
      ensures Did(tokens, index, ok, old(ReadOr(d, tokens[index..]))) && index >= old(index)
        && (ok ==> index > old(index))
      decreases |tokens| - index, 2
    {
      ghost var goal := ReadOr(d, tokens[index..]);
      ok := ParseAnd();
      while ok && index < |tokens| && tokens[index] == "OR"
        invariant old(index) <= index <= |tokens| && (ok ==> index > old(index))
        invariant if ok then goal == ReadOrTail(d, tokens[index..]) else goal == None
        decreases |tokens| - index
      {
        assert tokens[index..][1..] == tokens[index + 1..];
        index := index + 1;
        ok := ParseAnd();
      }
    }
  }

  /** Accepts exactly its grammar. */
  method ValidateSpdx(tokens: seq<string>, identifier: string -> bool) returns (ok: bool)
    requires Notices(identifier).Sound()
    ensures ok <==> Accepts(Notices(identifier), tokens)
    ensures ok <==> InGrammar(Notices(identifier), tokens)
  {
    var parser := new NoticeParser(tokens, identifier);
    assert tokens[0..] == tokens;
    ok := parser.ParseOr();
    ok := ok && parser.index == |tokens|;
    AcceptsIffGrammar(Notices(identifier), tokens);
  }
}
