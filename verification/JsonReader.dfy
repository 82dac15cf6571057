/** A reader of JSON texts (RFC 8259) that have no white space, no fractions or exponents, and small letters in
    escapes; and that it reads back every text the canonical printer writes. */
module JsonReader {
  import opened Common
  import opened Utf
  import opened CanonicalJson

  datatype Parse<+T> = Fail | Got(value: T, rest: Text)

  // ---- the parser ----

  /** What the two-character escapes stand for. */
  function Unescape(c: Code): Option<Code> {
    match c
    case 34 => Some(34)
    case 92 => Some(92)
    case 47 => Some(47)
    case 98 => Some(8)
    case 102 => Some(12)
    case 110 => Some(10)
    case 114 => Some(13)
    case 116 => Some(9)
    case _ => None
  }

  function DigitValue(c: Code): nat
    requires IsDigit(c)
  {
    c - 48
  }

  function HexValue(c: Code): (n: nat)
    ensures n <= 16
  {
    if IsDigit(c) then c - 48 else if 97 <= c <= 102 then c - 87 else 16
  }

  /** A four-digit escape at the head of the text. */
  function ReadUnit(t: Text): Option<Unit> {
    if |t| >= 6 && t[0] == 92 && t[1] == 117 && HexValue(t[2]) < 16 && HexValue(t[3]) < 16
      && HexValue(t[4]) < 16 && HexValue(t[5]) < 16
    then Some(0x1000 * HexValue(t[2]) + 0x100 * HexValue(t[3]) + 0x10 * HexValue(t[4]) + HexValue(t[5]))
    else None
  }

  /** One character of a string literal, and how long it is written: as itself, escaped, or as a surrogate pair. */
  function ReadChar(t: Text): (r: Option<(Code, nat)>)
    ensures r.Some? ==> 1 <= r.value.1 <= |t|
  {
    if t == [] || t[0] == 34 || t[0] < 0x20 then None
    else if t[0] != 92 then Some((t[0], 1))
    else if |t| < 2 then None
    else if Unescape(t[1]).Some? then Some((Unescape(t[1]).value, 2))
    else match ReadUnit(t)
      case None => None
      case Some(u) =>
        if 0xD800 <= u < 0xDC00 && ReadUnit(t[6..]).Some? && 0xDC00 <= ReadUnit(t[6..]).value < 0xE000
        then Some((0x1_0000 + 0x400 * (u - 0xD800) + (ReadUnit(t[6..]).value - 0xDC00), 12))
        else Some((u, 6))
  }

  /** A string body up to its closing quote. */
  function ReadBody(t: Text): (r: Parse<Text>)
    ensures r.Got? ==> |r.rest| < |t|
  {
    if t == [] then Fail
    else if t[0] == 34 then Got([], t[1..])
    else match ReadChar(t)
      case None => Fail
      case Some((c, n)) => Then(c, ReadBody(t[n..]))
  }

  function Then(c: Code, p: Parse<Text>): Parse<Text> {
    match p
    case Fail => Fail
    case Got(s, rest) => Got([c] + s, rest)
  }

  function ReadDigits(t: Text, n: nat): (r: Parse<nat>)
    ensures r.Got? && |r.rest| <= |t|
  {
    if t != [] && IsDigit(t[0]) then ReadDigits(t[1..], 10 * n + DigitValue(t[0])) else Got(n, t)
  }

  /** A number without a superfluous zero in front. */
  function ReadNat(t: Text): (r: Parse<nat>)
    ensures r.Got? ==> |r.rest| < |t|
  {
    if t == [] || !IsDigit(t[0]) then Fail
    else if t[0] != 48 then ReadDigits(t[1..], DigitValue(t[0]))
    else if |t| > 1 && IsDigit(t[1]) then Fail
    else Got(0, t[1..])
  }

  function ReadValue(t: Text): (r: Parse<Json>)
    ensures r.Got? ==> |r.rest| < |t|
    decreases |t|, 0
  {
    if t == [] then Fail
    else if Ascii("null") <= t then Got(Null, t[4..])
    else if Ascii("true") <= t then Got(Bool(true), t[4..])
    else if Ascii("false") <= t then Got(Bool(false), t[5..])
    else if t[0] == 34 then
      match ReadBody(t[1..])
      case Fail => Fail
      case Got(s, rest) => Got(Str(s), rest)
    else if t[0] == 91 then
      if |t| > 1 && t[1] == 93 then Got(Arr([]), t[2..])
      else match ReadItems(t[1..])
        case Fail => Fail
        case Got(items, rest) => Got(Arr(items), rest)
    else if t[0] == 123 then
      if |t| > 1 && t[1] == 125 then Got(Obj([]), t[2..])
      else match ReadMembers(t[1..])
        case Fail => Fail
        case Got(members, rest) => Got(Obj(members), rest)
    else if t[0] == 45 then
      match ReadNat(t[1..])
      case Fail => Fail
      case Got(n, rest) => Got(Int(-(n as int)), rest)
    else match ReadNat(t)
      case Fail => Fail
      case Got(n, rest) => Got(Int(n), rest)
  }

  function ReadItems(t: Text): (r: Parse<seq<Json>>)
    ensures r.Got? ==> |r.rest| < |t|
    decreases |t|, 1
  {
    match ReadValue(t)
    case Fail => Fail
    case Got(v, rest) =>
      if rest == [] then Fail
      else if rest[0] == 93 then Got([v], rest[1..])
      else if rest[0] == 44 then
        match ReadItems(rest[1..])
        case Fail => Fail
        case Got(items, rest') => Got([v] + items, rest')
      else Fail
  }

  function ReadMembers(t: Text): (r: Parse<seq<Member>>)
    ensures r.Got? ==> |r.rest| < |t|
    decreases |t|, 1
  {
    if t == [] || t[0] != 34 then Fail
    else match ReadBody(t[1..])
      case Fail => Fail
      case Got(key, rest) =>
        if rest == [] || rest[0] != 58 then Fail
        else match ReadValue(rest[1..])
          case Fail => Fail
          case Got(v, rest') =>
            if rest' == [] then Fail
            else if rest'[0] == 125 then Got([Member(key, v)], rest'[1..])
            else if rest'[0] == 44 then
              match ReadMembers(rest'[1..])
              case Fail => Fail
              case Got(members, rest'') => Got([Member(key, v)] + members, rest'')
            else Fail
  }

  // ---- the normal form: members in printing order at every depth ----

  function Normal(v: Json): Json
    decreases Size(v), 0
  {
    match v
    case Arr(items) => Arr(NormalItems(items))
    case Obj(members) => Obj(NormalMembers(Sort(members)))
    case _ => v
  }

  function NormalItems(items: seq<Json>): (r: seq<Json>)
    ensures |r| == |items|
    decreases Sizes(items), 1
  {
    if items == [] then [] else [Normal(items[0])] + NormalItems(items[1..])
  }

  function NormalMembers(members: seq<Member>): (r: seq<Member>)
    ensures |r| == |members|
    decreases MemberSizes(members), 1
  {
    if members == [] then []
    else [Member(members[0].key, Normal(members[0].value))] + NormalMembers(members[1..])
  }

  // ---- reading back what was printed ----

  predicate Ends(rest: Text) { rest == [] || !IsDigit(rest[0]) }

  lemma ReadsChar(c: Code, rest: Text)
    requires !Surrogate(c)
    ensures ReadBody(Escaped(c) + rest) == Then(c, ReadBody(rest))
  {
    var e, t := Escaped(c), Escaped(c) + rest;
    assert t[|e|..] == rest && t[0] != 34;
    ReadsEscaped(c, t);
  }

  lemma ReadsEscaped(c: Code, t: Text)
    requires !Surrogate(c) && Escaped(c) <= t
    ensures ReadChar(t) == Some((c, |Escaped(c)|))
  {
    var e := Escaped(c);
    assert forall k :: 0 <= k < |e| ==> t[k] == e[k];
    if |e| == 6 { assert HexValue(HexDigit(c / 16)) == c / 16 && HexValue(HexDigit(c % 16)) == c % 16; }
  }

  lemma {:induction false} ReadsBody(s: Text, rest: Text)
    requires StringBody(s).Ok?
    ensures ReadBody(StringBody(s).value + rest) == Got(s, rest)
  {
    if s == [] {
      assert ([34] + rest)[1..] == rest;
    } else {
      var t := BodyText(s);
      ReadsBody(s[1..], rest);
      ReadsChar(s[0], t + rest);
      Shifted(Escaped(s[0]), t, rest);
      assert s == [s[0]] + s[1..];
    }
  }

  lemma BodyText(s: Text) returns (t: Text)
    requires s != [] && StringBody(s).Ok?
    ensures !Surrogate(s[0]) && StringBody(s[1..]) == Ok(t) && StringBody(s).value == Escaped(s[0]) + t
  {
    t := StringBody(s[1..]).value;
  }

  lemma {:induction false} ReadsDigits(n: nat, rest: Text)
    ensures ReadDigits(Digits(n) + rest, 0) == ReadDigits(rest, n)
  {
    var d: Code := 48 + n % 10;
    ReadsDigit(d, rest, n / 10);
    if n >= 10 {
      ReadsDigits(n / 10, [d] + rest);
      ConcatAssociates(Digits(n / 10), [d], rest);
    }
  }

  lemma ReadsDigit(d: Code, rest: Text, n: nat)
    requires IsDigit(d)
    ensures ReadDigits([d] + rest, n) == ReadDigits(rest, 10 * n + DigitValue(d))
  {
    assert ([d] + rest)[1..] == rest;
  }

  /** Only zero is written with a zero in front. */
  lemma {:induction false} NoLeadingZero(n: nat)
    ensures Digits(n)[0] == 48 <==> n == 0
    ensures n == 0 ==> Digits(n) == [48]
  {
    if n >= 10 { NoLeadingZero(n / 10); }
  }

  lemma ReadsNat(n: nat, rest: Text)
    requires Ends(rest)
    ensures ReadNat(Digits(n) + rest) == Got(n, rest)
  {
    var t := Digits(n) + rest;
    ReadsDigits(n, rest);
    NoLeadingZero(n);
    assert t[0] == Digits(n)[0];
    if n == 0 { assert t[1..] == rest && (rest != [] ==> t[1] == rest[0]); }
  }

  lemma ReadsInt(n: int, rest: Text)
    requires Ends(rest)
    ensures ReadValue(Decimal(n) + rest) == Got(Int(n), rest)
  {
    if n < 0 {
      ReadsNat(-n, rest);
      assert ([45] + Digits(-n) + rest)[1..] == Digits(-n) + rest;
      NegativeStep([45] + Digits(-n) + rest, -n, rest);
    } else {
      ReadsNat(n, rest);
      DigitsStep(Digits(n) + rest, n, rest);
    }
  }

  lemma DigitsStep(t: Text, n: nat, rest: Text)
    requires ReadNat(t) == Got(n, rest)
    ensures ReadValue(t) == Got(Int(n), rest)
  {
    NotLiteral(t);
  }

  lemma NegativeStep(all: Text, n: nat, rest: Text)
    requires all != [] && all[0] == 45 && ReadNat(all[1..]) == Got(n, rest)
    ensures ReadValue(all) == Got(Int(-(n as int)), rest)
  {
    NotLiteral(all);
  }

  lemma NotLiteral(t: Text)
    requires t != [] && t[0] != 110 && t[0] != 116 && t[0] != 102
    ensures !(Ascii("null") <= t) && !(Ascii("true") <= t) && !(Ascii("false") <= t)
  {
    assert Ascii("null")[0] == 110 && Ascii("true")[0] == 116 && Ascii("false")[0] == 102;
  }

  lemma ReadsLiterals(rest: Text)
    ensures ReadValue(Ascii("null") + rest) == Got(Null, rest)
    ensures ReadValue(Ascii("true") + rest) == Got(Bool(true), rest)
    ensures ReadValue(Ascii("false") + rest) == Got(Bool(false), rest)
  {
    var n, t, f := Ascii("null") + rest, Ascii("true") + rest, Ascii("false") + rest;
    assert n[4..] == rest && t[4..] == rest && f[5..] == rest;
    assert n[0] == 110 && t[0] == 116 && f[0] == 102;
    assert Ascii("null")[0] == 110 && Ascii("true")[0] == 116;
  }

  lemma StringStep(all: Text, t: Text, s: Text, rest: Text)
    requires all != [] && all[0] == 34 && all[1..] == t && ReadBody(t) == Got(s, rest)
    ensures ReadValue(all) == Got(Str(s), rest)
  {
    NotLiteral(all);
  }

  lemma ArrayStep(all: Text, t: Text, items: seq<Json>, rest: Text)
    requires all != [] && all[0] == 91 && all[1..] == t && ReadItems(t) == Got(items, rest) && t != [] && t[0] != 93
    ensures ReadValue(all) == Got(Arr(items), rest)
  {
    NotLiteral(all);
  }

  lemma ObjectStep(all: Text, t: Text, members: seq<Member>, rest: Text)
    requires all != [] && all[0] == 123 && all[1..] == t && ReadMembers(t) == Got(members, rest) && t != []
    requires t[0] != 125
    ensures ReadValue(all) == Got(Obj(members), rest)
  {
    NotLiteral(all);
  }

  lemma EmptySteps(rest: Text)
    ensures ReadValue([91, 93] + rest) == Got(Arr([]), rest) && ReadValue([123, 125] + rest) == Got(Obj([]), rest)
  {
    var a, o := [91, 93] + rest, [123, 125] + rest;
    NotLiteral(a);
    NotLiteral(o);
    assert a[2..] == rest && o[2..] == rest;
  }

  lemma LastItem(t: Text, v: Json, after: Text)
    requires ReadValue(t) == Got(v, after) && after != [] && after[0] == 93
    ensures ReadItems(t) == Got([v], after[1..])
  {}

  lemma NextItem(t: Text, v: Json, after: Text, u: Text, items: seq<Json>, rest: Text)
    requires ReadValue(t) == Got(v, after) && after != [] && after[0] == 44 && after[1..] == u
    requires ReadItems(u) == Got(items, rest)
    ensures ReadItems(t) == Got([v] + items, rest)
  {}

  lemma LastMember(all: Text, body: Text, key: Text, colon: Text, u: Text, v: Json, after: Text)
    requires all != [] && all[0] == 34 && all[1..] == body && ReadBody(body) == Got(key, colon)
    requires colon != [] && colon[0] == 58 && colon[1..] == u && ReadValue(u) == Got(v, after)
    requires after != [] && after[0] == 125
    ensures ReadMembers(all) == Got([Member(key, v)], after[1..])
  {}

  lemma NextMember(all: Text, body: Text, key: Text, colon: Text, u: Text, v: Json, after: Text, w: Text,
                   members: seq<Member>, rest: Text)
    requires all != [] && all[0] == 34 && all[1..] == body && ReadBody(body) == Got(key, colon)
    requires colon != [] && colon[0] == 58 && colon[1..] == u && ReadValue(u) == Got(v, after)
    requires after != [] && after[0] == 44 && after[1..] == w && ReadMembers(w) == Got(members, rest)
    ensures ReadMembers(all) == Got([Member(key, v)] + members, rest)
  {}

  /** Every printed value is read back, in normal form, whatever follows it. */
  lemma {:induction false} ReadsValue(v: Json, rest: Text)
    requires Canonical(v).Ok? && Ends(rest)
    ensures ReadValue(Canonical(v).value + rest) == Got(Normal(v), rest)
    decreases Size(v), 1
  {
    match v
    case Null => ReadsLiterals(rest);
    case Bool(b) => ReadsLiterals(rest);
    case Int(n) => ReadsInt(n, rest);
    case Float(_) =>
    case Str(s) => ReadsStr(s, rest);
    case Arr(items) => if items == [] { EmptySteps(rest); NoItems(); } else { ReadsArr(items, rest); }
    case Obj(members) => if members == [] { EmptySteps(rest); NoItems(); } else { ReadsObj(members, rest); }
  }

  lemma NoItems()
    ensures Normal(Arr([])) == Arr([]) && Normal(Obj([])) == Obj([])
    ensures Canonical(Arr([])) == Ok([91, 93]) && Canonical(Obj([])) == Ok([123, 125])
  {
    assert NormalItems([]) == [] && Sort([]) == [] && NormalMembers([]) == [];
  }

  lemma ReadsStr(s: Text, rest: Text)
    requires Canonical(Str(s)).Ok?
    ensures ReadValue(Canonical(Str(s)).value + rest) == Got(Str(s), rest)
  {
    var t := StringBody(s).value;
    ReadsBody(s, rest);
    Opened(34, t, rest);
    StringStep([34] + t + rest, t + rest, s, rest);
  }

  lemma Opened(c: Code, t: Text, rest: Text)
    ensures ([c] + t + rest)[0] == c && ([c] + t + rest)[1..] == t + rest
    ensures t != [] ==> (t + rest)[0] == t[0]
  {}

  lemma {:induction false} ReadsArr(items: seq<Json>, rest: Text)
    requires items != [] && Canonical(Arr(items)).Ok? && Ends(rest)
    ensures ReadValue(Canonical(Arr(items)).value + rest) == Got(Normal(Arr(items)), rest)
    decreases Size(Arr(items)), 0
  {
    CanonicalArr(items);
    var t := Items(items).value;
    ReadsItems(items, rest);
    OpensValue(items[0], t, rest);
    Opened(91, t, rest);
    ArrayStep([91] + t + rest, t + rest, NormalItems(items), rest);
  }

  lemma CanonicalArr(items: seq<Json>)
    requires items != [] && Canonical(Arr(items)).Ok?
    ensures Items(items).Ok? && Canonical(Arr(items)).value == [91] + Items(items).value
    ensures Canonical(items[0]).Ok? && Canonical(items[0]).value <= Items(items).value
  {}

  lemma {:induction false} ReadsObj(members: seq<Member>, rest: Text)
    requires members != [] && Canonical(Obj(members)).Ok? && Ends(rest)
    ensures ReadValue(Canonical(Obj(members)).value + rest) == Got(Normal(Obj(members)), rest)
    decreases Size(Obj(members)), 0
  {
    var sorted, t := CanonicalObj(members);
    ReadsMembers(sorted, rest);
    Opened(123, t, rest);
    ObjectStep([123] + t + rest, t + rest, NormalMembers(sorted), rest);
  }

  lemma CanonicalObj(members: seq<Member>) returns (sorted: seq<Member>, t: Text)
    requires members != [] && Canonical(Obj(members)).Ok?
    ensures sorted != [] && MemberSizes(sorted) < Size(Obj(members))
    ensures Members(sorted) == Ok(t) && t != [] && t[0] == 34 && Canonical(Obj(members)).value == [123] + t
    ensures Normal(Obj(members)) == Obj(NormalMembers(sorted))
  {
    SortKeeps(members);
    sorted := Sort(members);
    t := Members(sorted).value;
  }

  /** No printed value begins with a closing bracket. */
  lemma OpensValue(v: Json, t: Text, rest: Text)
    requires Canonical(v).Ok? && Canonical(v).value <= t
    ensures t != [] && (t + rest)[0] != 93
  {
    assert Canonical(v).value != [] && Canonical(v).value[0] != 93;
  }

  lemma {:induction false} ReadsItems(items: seq<Json>, rest: Text)
    requires items != [] && Items(items).Ok?
    ensures ReadItems(Items(items).value + rest) == Got(NormalItems(items), rest)
    decreases Sizes(items), 2
  {
    var v, t, tail, u := ItemsText(items);
    if tail == [] {
      ReadsValue(v, [93] + rest);
      Shifted(t, [93], rest);
      LastItem(t + ([93] + rest), Normal(v), [93] + rest);
    } else {
      ReadsValue(v, [44] + u + rest);
      ReadsItems(tail, rest);
      Shifted(t, [44] + u, rest);
      Opened(44, u, rest);
      NextItem(t + ([44] + u + rest), Normal(v), [44] + u + rest, u + rest, NormalItems(tail), rest);
    }
  }

  lemma Shifted(t: Text, u: Text, rest: Text)
    ensures t + u + rest == t + (u + rest) && (|u| == 1 ==> (u + rest)[1..] == rest)
  {}

  lemma MemberShifted(k: Text, t: Text, u: Text, rest: Text)
    ensures [34] + k + [58] + t + u + rest == [34] + (k + ([58] + (t + (u + rest))))
    ensures ([34] + (k + ([58] + (t + (u + rest)))))[1..] == k + ([58] + (t + (u + rest)))
    ensures ([58] + (t + (u + rest)))[1..] == t + (u + rest) && (|u| == 1 ==> (u + rest)[1..] == rest)
  {}

  /** The text of an item list, in its parts. */
  lemma ItemsText(items: seq<Json>) returns (v: Json, t: Text, tail: seq<Json>, u: Text)
    requires items != [] && Items(items).Ok?
    ensures Canonical(v) == Ok(t) && Size(v) < Sizes(items) && Sizes(tail) < Sizes(items)
    ensures tail == [] ==> Items(items).value == t + [93] && NormalItems(items) == [Normal(v)]
    ensures tail != [] ==>
      Items(tail) == Ok(u) && Items(items).value == t + ([44] + u)
        && NormalItems(items) == [Normal(v)] + NormalItems(tail)
  {
    v, t, tail := items[0], Canonical(items[0]).value, items[1..];
    u := if tail == [] then [] else Items(tail).value;
    assert NormalItems(items) == [Normal(v)] + NormalItems(tail);
  }

  lemma {:induction false} ReadsMembers(members: seq<Member>, rest: Text)
    requires members != [] && Members(members).Ok?
    ensures ReadMembers(Members(members).value + rest) == Got(NormalMembers(members), rest)
    decreases MemberSizes(members), 2
  {
    var m, k, t, tail, u := MembersText(members);
    if tail == [] {
      ReadsValue(m.value, [125] + rest);
      ReadsBody(m.key, [58] + (t + ([125] + rest)));
      MemberShifted(k, t, [125], rest);
      LastMember([34] + (k + ([58] + (t + ([125] + rest)))), k + ([58] + (t + ([125] + rest))), m.key,
        [58] + (t + ([125] + rest)), t + ([125] + rest), Normal(m.value), [125] + rest);
    } else {
      ReadsValue(m.value, [44] + u + rest);
      ReadsBody(m.key, [58] + (t + ([44] + u + rest)));
      ReadsMembers(tail, rest);
      MemberShifted(k, t, [44] + u, rest);
      Opened(44, u, rest);
      NextMember([34] + (k + ([58] + (t + ([44] + u + rest)))), k + ([58] + (t + ([44] + u + rest))), m.key,
        [58] + (t + ([44] + u + rest)), t + ([44] + u + rest), Normal(m.value), [44] + u + rest, u + rest,
        NormalMembers(tail), rest);
    }
  }

  /** The text of a member list, in its parts. */
  lemma MembersText(members: seq<Member>) returns (m: Member, k: Text, t: Text, tail: seq<Member>, u: Text)
    requires members != [] && Members(members).Ok?
    ensures StringBody(m.key) == Ok(k) && Canonical(m.value) == Ok(t)
    ensures Size(m.value) < MemberSizes(members) && MemberSizes(tail) < MemberSizes(members)
    ensures tail == [] ==>
      Members(members).value == [34] + k + [58] + t + [125]
        && NormalMembers(members) == [Member(m.key, Normal(m.value))]
    ensures tail != [] ==>
      && Members(tail) == Ok(u) && Members(members).value == [34] + k + [58] + t + ([44] + u)
      && NormalMembers(members) == [Member(m.key, Normal(m.value))] + NormalMembers(tail)
  {
    m, tail := members[0], members[1..];
    k, t := StringBody(m.key).value, Canonical(m.value).value;
    u := if tail == [] then [] else Members(tail).value;
    assert NormalMembers(members) == [Member(m.key, Normal(m.value))] + NormalMembers(tail);
  }
}
