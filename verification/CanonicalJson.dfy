/** Canonical JSON (RFC 8785) as the team-context verifier prints it, a parser that inverts the printer,
    and what follows for the digests that rest on it. */
module CanonicalJson {
  import opened Common
  import opened Utf

  /** A JSON value; an object lists its members in insertion order. */
  datatype Json =
    | Null
    | Bool(b: bool)
    | Int(n: int)
    | Float(r: real)
    | Str(s: Text)
    | Arr(items: seq<Json>)
    | Obj(members: seq<Member>)

  datatype Member = Member(key: Text, value: Json)

  datatype Error = LoneSurrogate(code: Code) | UnsafeInteger | NonInteger

  type Printed = Result<Text, Error>

  const MAX_SAFE_INTEGER := 9007199254740991

  // ---- printing ----

  function Ascii(s: string): (t: Text)
    requires forall k :: 0 <= k < |s| ==> s[k] as int < 128
    ensures |t| == |s| && forall k :: 0 <= k < |s| ==> t[k] == s[k] as int
  {
    seq(|s|, k requires 0 <= k < |s| => s[k] as int)
  }

  function HexDigit(n: nat): Code
    requires n < 16
  {
    if n < 10 then 48 + n else 87 + n
  }

  /** One character of a string literal. */
  function Escaped(c: Code): Text {
    match c
    case 34 => [92, 34]
    case 92 => [92, 92]
    case 8 => [92, 98]
    case 12 => [92, 102]
    case 10 => [92, 110]
    case 13 => [92, 114]
    case 9 => [92, 116]
    case _ => if c < 0x20 then [92, 117, 48, 48, HexDigit(c / 16), HexDigit(c % 16)] else [c]
  }

  /** The body of a string literal, with the closing quote. */
  function StringBody(s: Text): Printed {
    if s == [] then Ok([34])
    else if Surrogate(s[0]) then Err(LoneSurrogate(s[0]))
    else match StringBody(s[1..])
      case Err(e) => Err(e)
      case Ok(t) => Ok(Escaped(s[0]) + t)
  }

  function Quoted(s: Text): Printed {
    match StringBody(s)
    case Err(e) => Err(e)
    case Ok(t) => Ok([34] + t)
  }

  function Digits(n: nat): (t: Text)
    ensures t != [] && forall k :: 0 <= k < |t| ==> IsDigit(t[k])
  {
    if n < 10 then [48 + n] else Digits(n / 10) + [48 + n % 10]
  }

  predicate IsDigit(c: Code) { 48 <= c <= 57 }

  function Decimal(n: int): Text {
    if n < 0 then [45] + Digits(-n) else Digits(n)
  }

  /** How much work a value is; sorting an object's members does not change it. */
  function Size(v: Json): nat
    decreases v
  {
    match v
    case Arr(items) => 1 + Sizes(items)
    case Obj(members) => 1 + MemberSizes(members)
    case _ => 1
  }

  function Sizes(items: seq<Json>): nat
    decreases items
  {
    if items == [] then 0 else 1 + Size(items[0]) + Sizes(items[1..])
  }

  function MemberSizes(members: seq<Member>): nat
    decreases members
  {
    if members == [] then 0
      else assert members[0].value < members[0]; 1 + Size(members[0].value) + MemberSizes(members[1..])
  }

  function Insert(m: Member, sorted: seq<Member>): (r: seq<Member>)
    ensures multiset(r) == multiset([m]) + multiset(sorted) && MemberSizes(r) == MemberSizes([m] + sorted)
  {
    if sorted == [] || !Before(sorted[0].key, m.key) then [m] + sorted
    else
      var r := Insert(m, sorted[1..]);
      assert sorted == [sorted[0]] + sorted[1..] && ([sorted[0]] + r)[1..] == r;
      assert ([m] + sorted)[1..] == sorted && ([m] + sorted[1..])[1..] == sorted[1..];
      [sorted[0]] + r
  }

  /** Stable insertion sort by UTF-16BE key. */
  function Sort(members: seq<Member>): (r: seq<Member>)
    ensures multiset(r) == multiset(members) && MemberSizes(r) == MemberSizes(members)
  {
    if members == [] then []
    else
      assert members == [members[0]] + members[1..];
      var r := Sort(members[1..]);
      assert ([members[0]] + r)[1..] == r;
      Insert(members[0], r)
  }

  function Canonical(v: Json): Printed
    decreases Size(v), 0
  {
    match v
    case Null => Ok(Ascii("null"))
    case Bool(b) => Ok(Ascii(if b then "true" else "false"))
    case Int(n) => if -MAX_SAFE_INTEGER <= n <= MAX_SAFE_INTEGER then Ok(Decimal(n)) else Err(UnsafeInteger)
    case Float(_) => Err(NonInteger)
    case Str(s) => Quoted(s)
    case Arr(items) => if items == [] then Ok([91, 93]) else Prefixed([91], Items(items))
    case Obj(members) => if members == [] then Ok([123, 125]) else Prefixed([123], Members(Sort(members)))
  }

  function Prefixed(t: Text, p: Printed): Printed {
    match p
    case Err(e) => Err(e)
    case Ok(u) => Ok(t + u)
  }

  /** The items of an array, separated by commas, with the closing bracket. */
  function Items(items: seq<Json>): Printed
    requires items != []
    decreases Sizes(items), 1
  {
    match Canonical(items[0])
    case Err(e) => Err(e)
    case Ok(t) => Prefixed(t, if |items| == 1 then Ok([93]) else Prefixed([44], Items(items[1..])))
  }

  function Members(members: seq<Member>): Printed
    requires members != []
    decreases MemberSizes(members), 1
  {
    match Quoted(members[0].key)
    case Err(e) => Err(e)
    case Ok(k) => match Canonical(members[0].value)
      case Err(e) => Err(e)
      case Ok(t) => Prefixed(k + [58] + t, if |members| == 1 then Ok([125]) else Prefixed([44], Members(members[1..])))
  }

  // ---- what is refused ----

  /** No non-integer, no integer beyond the exactly representable range, no lone surrogate, at any depth. */
  ghost predicate Clean(v: Json)
    decreases v
  {
    match v
    case Int(n) => -MAX_SAFE_INTEGER <= n <= MAX_SAFE_INTEGER
    case Float(_) => false
    case Str(s) => Scalar(s)
    case Arr(items) => forall k :: 0 <= k < |items| ==> Clean(items[k])
    case Obj(members) => forall k :: 0 <= k < |members| ==> Scalar(members[k].key) && Clean(members[k].value)
    case _ => true
  }

  lemma {:induction false} QuotedOk(s: Text)
    ensures StringBody(s).Ok? <==> Scalar(s)
  {
    if s != [] {
      QuotedOk(s[1..]);
      assert s == [s[0]] + s[1..];
    }
  }

  ghost predicate CleanMembers(members: seq<Member>) {
    forall m :: m in members ==> Scalar(m.key) && Clean(m.value)
  }

  /** The printer accepts exactly the clean values. */
  lemma {:induction false} CanonicalOk(v: Json)
    ensures Canonical(v).Ok? <==> Clean(v)
    decreases Size(v), 0
  {
    match v
    case Str(s) =>
      QuotedOk(s);
    case Arr(items) =>
      if items != [] { ItemsOk(items); }
    case Obj(members) =>
      if members != [] {
        MembersOk(Sort(members));
        SortedClean(members);
      }
    case _ =>
  }

  lemma {:induction false} ItemsOk(items: seq<Json>)
    requires items != []
    ensures Items(items).Ok? <==> forall k :: 0 <= k < |items| ==> Clean(items[k])
    decreases Sizes(items), 1
  {
    CanonicalOk(items[0]);
    if |items| > 1 {
      ItemsOk(items[1..]);
      assert items == [items[0]] + items[1..];
    }
  }

  lemma {:induction false} MembersOk(members: seq<Member>)
    requires members != []
    ensures Members(members).Ok? <==> CleanMembers(members)
    decreases MemberSizes(members), 1
  {
    QuotedOk(members[0].key);
    CanonicalOk(members[0].value);
    assert members == [members[0]] + members[1..];
    if |members| > 1 { MembersOk(members[1..]); }
  }

  lemma SortedClean(members: seq<Member>)
    ensures CleanMembers(Sort(members)) <==> Clean(Obj(members))
  {
    SortKeeps(members);
    assert CleanMembers(members) <==> Clean(Obj(members));
  }

  lemma SortKeeps(members: seq<Member>)
    ensures |Sort(members)| == |members| && forall m :: m in Sort(members) <==> m in members
  {
    var r := Sort(members);
    assert |multiset(r)| == |r| && |multiset(members)| == |members|;
    assert forall m :: m in r <==> m in multiset(r);
    assert forall m :: m in members <==> m in multiset(members);
  }
}
