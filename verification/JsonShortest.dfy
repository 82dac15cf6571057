/** The canonical text is the shortest: what RFC 8785 means by a form without superfluous characters. */
module JsonShortest {
  import opened Common
  import opened Utf
  import opened CanonicalJson
  import opened JsonReader
  import opened JsonIdentity

  // ---- the text of a value with its members in the order they are in ----

  function Body(s: Text): (t: Text)
    ensures t != []
  {
    if s == [] then [34] else Escaped(s[0]) + Body(s[1..])
  }

  function Plain(v: Json): Text
    decreases v
  {
    match v
    case Null => Ascii("null")
    case Bool(b) => Ascii(if b then "true" else "false")
    case Int(n) => Decimal(n)
    case Float(_) => []
    case Str(s) => [34] + Body(s)
    case Arr(items) => if items == [] then [91, 93] else [91] + PlainItems(items)
    case Obj(members) => if members == [] then [123, 125] else [123] + PlainMembers(members)
  }

  function PlainItems(items: seq<Json>): Text
    requires items != []
    decreases items
  {
    Plain(items[0]) + (if |items| == 1 then [93] else [44] + PlainItems(items[1..]))
  }

  function PlainMember(m: Member): Text
    decreases m, 0
  {
    [34] + Body(m.key) + ([58] + Plain(m.value))
  }

  function PlainMembers(members: seq<Member>): Text
    requires members != []
    decreases members
  {
    PlainMember(members[0]) + (if |members| == 1 then [125] else [44] + PlainMembers(members[1..]))
  }

  // ---- nothing that is read is written shorter ----

  /** What is read of the text is at least as long as p, and is p if it is not longer. */
  ghost predicate AtLeast(t: Text, rest: Text, p: Text) {
    |t| - |rest| >= |p| && (|t| - |rest| == |p| ==> t == p + rest)
  }

  lemma AtLeastThen(t: Text, middle: Text, rest: Text, p: Text, q: Text)
    requires AtLeast(t, middle, p) && AtLeast(middle, rest, q)
    ensures AtLeast(t, rest, p + q)
  {
    ConcatAssociates(p, q, rest);
  }

  lemma AtLeastOne(t: Text, c: Code)
    requires t != [] && t[0] == c
    ensures AtLeast(t, t[1..], [c])
  {}

  lemma CharShortest(t: Text, c: Code, n: nat)
    requires ReadChar(t) == Some((c, n)) && !Surrogate(c)
    ensures n >= |Escaped(c)| && AtLeast(t, t[n..], Escaped(c))
  {
    if n == 1 { assert t[..1] == [c]; }
    if n == 2 { assert t[..2] == [t[0], t[1]]; }
    if n == 6 { UnitShortest(t, c); }
    assert t == t[..n] + t[n..];
  }

  lemma UnitShortest(t: Text, c: Code)
    requires ReadUnit(t) == Some(c)
    ensures |Escaped(c)| < 6 || t[..6] == Escaped(c)
  {
    if |Escaped(c)| == 6 {
      assert HexValue(t[2]) == 0 && HexValue(t[3]) == 0 && HexValue(t[4]) == c / 16 && HexValue(t[5]) == c % 16;
      HexDetermined(t[2], 0);
      HexDetermined(t[3], 0);
      HexDetermined(t[4], c / 16);
      HexDetermined(t[5], c % 16);
    }
  }

  lemma HexDetermined(c: Code, n: nat)
    requires HexValue(c) == n < 16
    ensures c == HexDigit(n)
  {}

  lemma {:induction false} BodyShortest(t: Text)
    requires ReadBody(t).Got? && Scalar(ReadBody(t).value)
    ensures AtLeast(t, ReadBody(t).rest, Body(ReadBody(t).value))
    decreases |t|
  {
    var s, rest := ReadBody(t).value, ReadBody(t).rest;
    if t[0] == 34 {
      AtLeastOne(t, 34);
    } else {
      var n := ReadChar(t).value.1;
      assert s[1..] == ReadBody(t[n..]).value;
      CharShortest(t, s[0], n);
      BodyShortest(t[n..]);
      AtLeastThen(t, t[n..], rest, Escaped(s[0]), Body(s[1..]));
    }
  }

  lemma {:induction false} DigitsRead(t: Text, m: nat)
    requires m > 0
    ensures var r := ReadDigits(t, m); Digits(m) + t == Digits(r.value) + r.rest && r.value > 0
  {
    if t != [] && IsDigit(t[0]) {
      var d := DigitValue(t[0]);
      DigitsRead(t[1..], 10 * m + d);
      assert Digits(10 * m + d) == Digits(m) + [t[0]];
      assert t == [t[0]] + t[1..];
      ConcatAssociates(Digits(m), [t[0]], t[1..]);
    }
  }

  lemma NatShortest(t: Text)
    requires ReadNat(t).Got?
    ensures AtLeast(t, ReadNat(t).rest, Digits(ReadNat(t).value))
  {
    assert t == [t[0]] + t[1..];
    if t[0] != 48 { DigitsRead(t[1..], DigitValue(t[0])); }
  }

  lemma LiteralShortest(t: Text, literal: Text)
    requires literal <= t
    ensures AtLeast(t, t[|literal|..], literal)
  {
    assert t == literal + t[|literal|..];
  }

  /** Whatever text is read as the value is at least as long as the plain one, and is that one if it is not longer. */
  lemma {:induction false} ValueShortest(t: Text)
    requires ReadValue(t).Got? && Clean(ReadValue(t).value)
    ensures AtLeast(t, ReadValue(t).rest, Plain(ReadValue(t).value))
    decreases |t|, 0
  {
    var v, rest := ReadValue(t).value, ReadValue(t).rest;
    if Ascii("null") <= t {
      LiteralShortest(t, Ascii("null"));
    } else if Ascii("true") <= t {
      LiteralShortest(t, Ascii("true"));
    } else if Ascii("false") <= t {
      LiteralShortest(t, Ascii("false"));
    } else if t[0] == 34 {
      BodyShortest(t[1..]);
      AtLeastOne(t, 34);
      AtLeastThen(t, t[1..], rest, [34], Body(v.s));
    } else if t[0] == 91 {
      AtLeastOne(t, 91);
      if |t| > 1 && t[1] == 93 {
        LiteralShortest(t, [91, 93]);
      } else {
        ItemsShortest(t[1..]);
        AtLeastThen(t, t[1..], rest, [91], PlainItems(v.items));
      }
    } else if t[0] == 123 {
      AtLeastOne(t, 123);
      if |t| > 1 && t[1] == 125 {
        LiteralShortest(t, [123, 125]);
      } else {
        MembersShortest(t[1..]);
        AtLeastThen(t, t[1..], rest, [123], PlainMembers(v.members));
      }
    } else {
      NumberShortest(t);
    }
  }

  lemma NumberShortest(t: Text)
    requires ReadValue(t).Got? && ReadValue(t).value.Int?
    ensures AtLeast(t, ReadValue(t).rest, Decimal(ReadValue(t).value.n))
  {
    if t[0] == 45 {
      var n, rest := ReadNat(t[1..]).value, ReadNat(t[1..]).rest;
      NatShortest(t[1..]);
      AtLeastOne(t, 45);
      AtLeastThen(t, t[1..], rest, [45], Digits(n));
    } else {
      NatShortest(t);
    }
  }

  lemma {:induction false} ItemsShortest(t: Text)
    requires ReadItems(t).Got? && forall k :: 0 <= k < |ReadItems(t).value| ==> Clean(ReadItems(t).value[k])
    ensures ReadItems(t).value != [] && AtLeast(t, ReadItems(t).rest, PlainItems(ReadItems(t).value))
    decreases |t|, 1
  {
    var items, rest := ReadItems(t).value, ReadItems(t).rest;
    var v, after := ReadValue(t).value, ReadValue(t).rest;
    assert items[0] == v;
    ValueShortest(t);
    if after[0] == 93 {
      AtLeastOne(after, 93);
      AtLeastThen(t, after, rest, Plain(v), [93]);
    } else {
      assert items[1..] == ReadItems(after[1..]).value;
      ItemsShortest(after[1..]);
      AtLeastOne(after, 44);
      AtLeastThen(after, after[1..], rest, [44], PlainItems(items[1..]));
      AtLeastThen(t, after, rest, Plain(v), [44] + PlainItems(items[1..]));
    }
  }

  lemma {:induction false} MembersShortest(t: Text)
    requires ReadMembers(t).Got? && CleanMembers(ReadMembers(t).value)
    ensures ReadMembers(t).value != [] && AtLeast(t, ReadMembers(t).rest, PlainMembers(ReadMembers(t).value))
    decreases |t|, 1
  {
    var members, rest := ReadMembers(t).value, ReadMembers(t).rest;
    var colon := ReadBody(t[1..]).rest;
    var after := ReadValue(colon[1..]).rest;
    assert members[0] in members;
    BodyShortest(t[1..]);
    ValueShortest(colon[1..]);
    MemberShortest(t, colon, after, members[0]);
    if after[0] == 125 {
      AtLeastOne(after, 125);
      AtLeastThen(t, after, rest, PlainMember(members[0]), [125]);
    } else {
      assert members[1..] == ReadMembers(after[1..]).value;
      assert forall m :: m in members[1..] ==> m in members;
      MembersShortest(after[1..]);
      AtLeastOne(after, 44);
      AtLeastThen(after, after[1..], rest, [44], PlainMembers(members[1..]));
      AtLeastThen(t, after, rest, PlainMember(members[0]), [44] + PlainMembers(members[1..]));
    }
  }

  lemma MemberShortest(t: Text, colon: Text, after: Text, m: Member)
    requires t != [] && t[0] == 34 && AtLeast(t[1..], colon, Body(m.key))
    requires colon != [] && colon[0] == 58 && AtLeast(colon[1..], after, Plain(m.value))
    ensures AtLeast(t, after, PlainMember(m))
  {
    AtLeastOne(t, 34);
    AtLeastThen(t, t[1..], colon, [34], Body(m.key));
    AtLeastOne(colon, 58);
    AtLeastThen(colon, colon[1..], after, [58], Plain(m.value));
    AtLeastThen(t, colon, after, [34] + Body(m.key), [58] + Plain(m.value));
  }

  // ---- what is printed is plain, in normal form ----

  lemma {:induction false} BodyPrinted(s: Text)
    requires Scalar(s)
    ensures StringBody(s) == Ok(Body(s))
  {
    if s != [] { BodyPrinted(s[1..]); }
  }

  lemma {:induction false} CanonicalPlain(v: Json)
    requires Clean(v)
    ensures Canonical(v) == Ok(Plain(Normal(v)))
    decreases Size(v), 0
  {
    match v
    case Str(s) => BodyPrinted(s);
    case Arr(items) => if items != [] { ItemsPlain(items); }
    case Obj(members) =>
      SortKeeps(members);
      SortedClean(members);
      if members != [] { MembersPlain(Sort(members)); }
    case _ =>
  }

  lemma {:induction false} ItemsPlain(items: seq<Json>)
    requires items != [] && forall k :: 0 <= k < |items| ==> Clean(items[k])
    ensures Items(items) == Ok(PlainItems(NormalItems(items)))
    decreases Sizes(items), 1
  {
    var n := NormalItems(items);
    CanonicalPlain(items[0]);
    if |items| > 1 {
      ItemsPlain(items[1..]);
      assert n[1..] == NormalItems(items[1..]);
    }
  }

  lemma {:induction false} MembersPlain(members: seq<Member>)
    requires members != [] && CleanMembers(members)
    ensures Members(members) == Ok(PlainMembers(NormalMembers(members)))
    decreases MemberSizes(members), 1
  {
    var n, m := NormalMembers(members), members[0];
    assert m in members;
    BodyPrinted(m.key);
    CanonicalPlain(m.value);
    ConcatAssociates([34] + Body(m.key), [58], Plain(Normal(m.value)));
    if |members| > 1 {
      assert forall x :: x in members[1..] ==> x in members;
      MembersPlain(members[1..]);
      assert n[1..] == NormalMembers(members[1..]);
    }
  }

  // ---- the order of members does not change the length ----

  function Lengths(members: seq<Member>): nat {
    if members == [] then 0 else |PlainMember(members[0])| + 1 + Lengths(members[1..])
  }

  lemma {:induction false} MembersLength(members: seq<Member>)
    requires members != []
    ensures |PlainMembers(members)| == Lengths(members)
  {
    if |members| > 1 { MembersLength(members[1..]); } else { assert Lengths(members[1..]) == 0; }
  }

  lemma {:induction false} InsertLengths(m: Member, sorted: seq<Member>)
    ensures Lengths(Insert(m, sorted)) == |PlainMember(m)| + 1 + Lengths(sorted)
  {
    assert ([m] + sorted)[1..] == sorted;
    if sorted != [] && Before(sorted[0].key, m.key) {
      InsertLengths(m, sorted[1..]);
      assert ([sorted[0]] + Insert(m, sorted[1..]))[1..] == Insert(m, sorted[1..]);
    }
  }

  lemma {:induction false} SortLengths(members: seq<Member>)
    ensures Lengths(Sort(members)) == Lengths(members)
  {
    if members != [] {
      SortLengths(members[1..]);
      InsertLengths(members[0], Sort(members[1..]));
    }
  }

  lemma {:induction false} NormalLength(v: Json)
    ensures |Plain(Normal(v))| == |Plain(v)|
    decreases Size(v), 1
  {
    match v
    case Arr(items) => if items != [] { ItemsLength(items); }
    case Obj(members) =>
      SortKeeps(members);
      if members != [] {
        NormalLengths(Sort(members));
        SortLengths(members);
        MembersLength(members);
        MembersLength(NormalMembers(Sort(members)));
      }
    case _ =>
  }

  lemma {:induction false} ItemsLength(items: seq<Json>)
    requires items != []
    ensures |PlainItems(NormalItems(items))| == |PlainItems(items)|
    decreases Sizes(items), 2
  {
    NormalLength(items[0]);
    if |items| > 1 {
      ItemsLength(items[1..]);
      assert NormalItems(items)[1..] == NormalItems(items[1..]);
    }
  }

  lemma {:induction false} NormalLengths(members: seq<Member>)
    ensures Lengths(NormalMembers(members)) == Lengths(members)
    decreases MemberSizes(members), 2
  {
    if members != [] {
      NormalLength(members[0].value);
      NormalLengths(members[1..]);
      assert NormalMembers(members)[1..] == NormalMembers(members[1..]);
    }
  }

  /** No text that is read as the value, in whatever order of members, is shorter than the canonical one; and one that
      has the members in canonical order and is not longer is the canonical one. */
  lemma CanonicalShortest(v: Json, t: Text, w: Json)
    requires Fine(v) && Fine(w) && Same(w, v) && ReadValue(t) == Got(w, [])
    ensures Canonical(v).Ok? && |Canonical(v).value| <= |t|
    ensures w == Normal(v) && |t| == |Canonical(v).value| ==> t == Canonical(v).value
  {
    CanonicalPlain(v);
    NormalSame(w, v);
    NormalLength(w);
    ValueShortest(t);
    assert Plain(w) + [] == Plain(w);
  }
}
