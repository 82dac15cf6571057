/** Text as code points (lone surrogates included, as in a Python string), with its UTF-16BE and UTF-8 encodings. */
module Utf {
  import opened Common

  type Code = n: nat | n < 0x11_0000

  type Text = seq<Code>

  predicate Surrogate(c: Code) { 0xD800 <= c <= 0xDFFF }

  predicate Scalar(s: Text) { forall k :: 0 <= k < |s| ==> !Surrogate(s[k]) }

  // ---- lexicographic order ----

  predicate Less(a: seq<nat>, b: seq<nat>) {
    if a == [] then b != []
    else b != [] && (a[0] < b[0] || (a[0] == b[0] && Less(a[1..], b[1..])))
  }

  lemma {:induction false} LessTotal(a: seq<nat>, b: seq<nat>)
    ensures Less(a, b) || a == b || Less(b, a)
    ensures !(Less(a, b) && Less(b, a)) && !(a == b && Less(a, b))
  {
    if a != [] && b != [] && a[0] == b[0] {
      LessTotal(a[1..], b[1..]);
      assert a[1..] == b[1..] ==> a == b by { assert a == [a[0]] + a[1..] && b == [b[0]] + b[1..]; }
    }
  }

  lemma {:induction false} LessTransitive(a: seq<nat>, b: seq<nat>, c: seq<nat>)
    requires Less(a, b) && Less(b, c)
    ensures Less(a, c)
  {
    if a != [] && a[0] == b[0] == c[0] { LessTransitive(a[1..], b[1..], c[1..]); }
  }

  /** One sequence is less than another where they first differ, or if it ends there. */
  lemma {:induction false} LessMeans(a: seq<nat>, b: seq<nat>)
    ensures Less(a, b) <==> exists k :: DiffersUp(a, b, k)
  {
    if a == [] || b == [] || a[0] != b[0] {
      if Less(a, b) { assert DiffersUp(a, b, 0); }
      if k :| DiffersUp(a, b, k) { NoneShared(a, b, k); }
    } else {
      LessMeans(a[1..], b[1..]);
      if k :| DiffersUp(a[1..], b[1..], k) {
        assert a[..k + 1] == [a[0]] + a[1..][..k] && b[..k + 1] == [b[0]] + b[1..][..k];
        assert DiffersUp(a, b, k + 1);
      }
      if k :| DiffersUp(a, b, k) {
        assert k > 0 && a[1..][..k - 1] == a[..k][1..] && b[1..][..k - 1] == b[..k][1..];
        assert DiffersUp(a[1..], b[1..], k - 1);
      }
    }
  }

  lemma NoneShared(a: seq<nat>, b: seq<nat>, k: nat)
    requires k <= |a| && k <= |b| && a[..k] == b[..k]
    ensures k > 0 ==> a[0] == b[0]
  {
    if k > 0 { assert a[0] == a[..k][0] && b[0] == b[..k][0]; }
  }

  /** The first k elements agree, and the next is greater in b or is there only in b. */
  ghost predicate DiffersUp(a: seq<nat>, b: seq<nat>, k: int) {
    0 <= k <= |a| && k < |b| && a[..k] == b[..k] && (k == |a| || a[k] < b[k])
  }

  // ---- UTF-16 ----

  type Unit = n: nat | n < 0x1_0000

  /** The code units of one code point; a lone surrogate passes through. */
  function UnitsOf(c: Code): seq<Unit> {
    if c < 0x1_0000 then [c] else [0xD800 + (c - 0x1_0000) / 0x400, 0xDC00 + (c - 0x1_0000) % 0x400]
  }

  /** A code point above the first plane becomes a high and a low surrogate that hold its 20 bits. */
  lemma UnitsDecode(c: Code)
    ensures c < 0x1_0000 ==> UnitsOf(c) == [c]
    ensures c >= 0x1_0000 ==>
      && |UnitsOf(c)| == 2 && 0xD800 <= UnitsOf(c)[0] < 0xDC00 && 0xDC00 <= UnitsOf(c)[1] < 0xE000
      && c == 0x1_0000 + (UnitsOf(c)[0] as int - 0xD800) * 0x400 + (UnitsOf(c)[1] as int - 0xDC00)
  {}

  function Units(s: Text): seq<Unit> {
    if s == [] then [] else UnitsOf(s[0]) + Units(s[1..])
  }

  function BigEndian(u: seq<Unit>): seq<byte> {
    if u == [] then [] else [u[0] / 256, u[0] % 256] + BigEndian(u[1..])
  }

  /** The bytes that the source sorts member names by. */
  function SortKey(s: Text): seq<byte> { BigEndian(Units(s)) }

  predicate Before(s: Text, t: Text) { Less(SortKey(s), SortKey(t)) }

  lemma {:induction false} BigEndianLess(u: seq<Unit>, v: seq<Unit>)
    ensures Less(BigEndian(u), BigEndian(v)) <==> Less(u, v)
  {
    if u != [] && v != [] {
      BigEndianLess(u[1..], v[1..]);
      var a, b := BigEndian(u), BigEndian(v);
      assert a[2..] == BigEndian(u[1..]) && b[2..] == BigEndian(v[1..]);
      assert a[1..][1..] == a[2..] && b[1..][1..] == b[2..];
      assert a[0] == u[0] / 256 && a[1..][0] == u[0] % 256 && b[0] == v[0] / 256 && b[1..][0] == v[0] % 256;
      assert Less(a, b) <==> a[0] < b[0] || (a[0] == b[0] && Less(a[1..], b[1..]));
      assert Less(a[1..], b[1..]) <==> a[1] < b[1] || (a[1] == b[1] && Less(a[2..], b[2..]));
    }
  }

  /** Sorting by UTF-16BE bytes is sorting by UTF-16 code units, as RFC 8785 section 3.2.3 asks. */
  lemma SortsByCodeUnits(s: Text, t: Text)
    ensures Before(s, t) <==> Less(Units(s), Units(t))
  {
    BigEndianLess(Units(s), Units(t));
  }

  lemma {:induction false} UnitsInjective(s: Text, t: Text)
    requires Scalar(s) && Scalar(t) && Units(s) == Units(t)
    ensures s == t
  {
    if s == [] || t == [] {
      assert s != [] ==> |Units(s)| > 0;
      assert t != [] ==> |Units(t)| > 0;
    } else {
      var u := Units(s);
      assert u[0] == UnitsOf(s[0])[0] && u[0] == UnitsOf(t[0])[0];
      FirstUnit(s[0], t[0], u);
      UnitsTail(s);
      UnitsTail(t);
      UnitsInjective(s[1..], t[1..]);
      assert s == [s[0]] + s[1..] && t == [t[0]] + t[1..];
    }
  }

  lemma FirstUnit(c: Code, e: Code, u: seq<Unit>)
    requires !Surrogate(c) && !Surrogate(e) && UnitsOf(c) <= u && UnitsOf(e) <= u
    ensures c == e
  {
    assert u[0] == UnitsOf(c)[0] == UnitsOf(e)[0];
    if c >= 0x1_0000 && e >= 0x1_0000 {
      assert u[1] == UnitsOf(c)[1] == UnitsOf(e)[1];
    }
  }

  lemma UnitsTail(s: Text)
    requires s != []
    ensures |Units(s)| >= |UnitsOf(s[0])| && Units(s)[|UnitsOf(s[0])|..] == Units(s[1..])
  {}

  /** On valid text the order is total: names with equal sort keys are equal. */
  lemma BeforeTotal(s: Text, t: Text)
    requires Scalar(s) && Scalar(t)
    ensures Before(s, t) || s == t || Before(t, s)
    ensures !(Before(s, t) && Before(t, s)) && !(s == t && Before(s, t))
  {
    SortsByCodeUnits(s, t);
    SortsByCodeUnits(t, s);
    LessTotal(Units(s), Units(t));
    if Units(s) == Units(t) { UnitsInjective(s, t); }
  }

  lemma BeforeTransitive(s: Text, t: Text, r: Text)
    requires Before(s, t) && Before(t, r)
    ensures Before(s, r)
  {
    LessTransitive(SortKey(s), SortKey(t), SortKey(r));
  }

  /** Code-point order and code-unit order differ: the first is not what the source sorts by. */
  lemma CodePointOrderDiffers()
    ensures Less([0xFF5E], [0x1_F600]) && !Before([0xFF5E], [0x1_F600]) && Before([0x1_F600], [0xFF5E])
  {
    SortsByCodeUnits([0xFF5E], [0x1_F600]);
    SortsByCodeUnits([0x1_F600], [0xFF5E]);
    assert Units([0x1_F600])[0] == 0xD83D && Units([0xFF5E])[0] == 0xFF5E;
  }

  // ---- UTF-8 ----

  function Utf8Of(c: Code): (b: seq<byte>)
    ensures 1 <= |b| <= 4
  {
    if c < 0x80 then [c]
    else if c < 0x800 then [0xC0 + c / 0x40, 0x80 + c % 0x40]
    else if c < 0x1_0000 then [0xE0 + c / 0x1000, 0x80 + c / 0x40 % 0x40, 0x80 + c % 0x40]
    else [0xF0 + c / 0x4_0000, 0x80 + c / 0x1000 % 0x40, 0x80 + c / 0x40 % 0x40, 0x80 + c % 0x40]
  }

  function Utf8(s: Text): seq<byte> {
    if s == [] then [] else Utf8Of(s[0]) + Utf8(s[1..])
  }

  /** How many bytes the lead byte announces. */
  function Announced(lead: byte): nat {
    if lead < 0x80 then 1 else if lead < 0xE0 then 2 else if lead < 0xF0 then 3 else 4
  }

  function Assembled(b: seq<byte>): int
    requires 1 <= |b| <= 4
  {
    if |b| == 1 then b[0]
    else if |b| == 2 then (b[0] as int - 0xC0) * 0x40 + (b[1] as int - 0x80)
    else if |b| == 3 then (b[0] as int - 0xE0) * 0x1000 + (b[1] as int - 0x80) * 0x40 + (b[2] as int - 0x80)
    else
      (b[0] as int - 0xF0) * 0x4_0000 + (b[1] as int - 0x80) * 0x1000
      + (b[2] as int - 0x80) * 0x40 + (b[3] as int - 0x80)
  }

  /** The bytes are well formed, as few as can be, and hold the bits of the code point. */
  lemma Utf8Decodes(c: Code)
    ensures Announced(Utf8Of(c)[0]) == |Utf8Of(c)| && Assembled(Utf8Of(c)) == c
    ensures |Utf8Of(c)| == if c < 0x80 then 1 else if c < 0x800 then 2 else if c < 0x1_0000 then 3 else 4
    ensures forall k :: 1 <= k < |Utf8Of(c)| ==> 0x80 <= Utf8Of(c)[k] < 0xC0
  {
    var m := c / 0x40;
    assert m / 0x40 == c / 0x1000 && c / 0x1000 / 0x40 == c / 0x4_0000;
  }

  lemma Utf8First(c: Code, e: Code, b: seq<byte>)
    requires Utf8Of(c) <= b && Utf8Of(e) <= b
    ensures c == e
  {
    Utf8Decodes(c);
    Utf8Decodes(e);
    assert b[0] == Utf8Of(c)[0] && b[0] == Utf8Of(e)[0];
    assert Utf8Of(c) == b[..Announced(b[0])] && Utf8Of(e) == b[..Announced(b[0])];
  }

  /** UTF-8 loses nothing. */
  lemma {:induction false} Utf8Injective(s: Text, t: Text)
    requires Utf8(s) == Utf8(t)
    ensures s == t
  {
    if s != [] && t != [] {
      Utf8First(s[0], t[0], Utf8(s));
      assert Utf8(s)[|Utf8Of(s[0])|..] == Utf8(s[1..]) && Utf8(t)[|Utf8Of(t[0])|..] == Utf8(t[1..]);
      Utf8Injective(s[1..], t[1..]);
      assert s == [s[0]] + s[1..] && t == [t[0]] + t[1..];
    }
  }
}
