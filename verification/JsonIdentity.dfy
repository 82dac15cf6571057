/** When two JSON values have the same canonical text, and what the record digests therefore bind. */
module JsonIdentity {
  import opened Common
  import opened Utf
  import opened CanonicalJson
  import opened JsonReader

  /** What a Python dict guarantees: no object has two members with one key. */
  ghost predicate WellFormed(v: Json)
    decreases v
  {
    match v
    case Arr(items) => forall k :: 0 <= k < |items| ==> WellFormed(items[k])
    case Obj(members) => Distinct(members) && forall k :: 0 <= k < |members| ==> WellFormed(members[k].value)
    case _ => true
  }

  ghost predicate Distinct(members: seq<Member>) {
    forall i, j :: 0 <= i < j < |members| ==> members[i].key != members[j].key
  }

  /** The same JSON value, up to the order of object members at every depth. */
  ghost predicate Same(v: Json, w: Json)
    decreases v
  {
    match v
    case Arr(items) => w.Arr? && |items| == |w.items| && forall k :: 0 <= k < |items| ==> Same(items[k], w.items[k])
    case Obj(members) =>
      && w.Obj? && |members| == |w.members|
      && forall k :: 0 <= k < |members| ==> Matched(members[k], w.members)
    case _ => v == w
  }

  /** One of the others has the same key and the same value. */
  ghost predicate Matched(m: Member, others: seq<Member>)
    decreases m
  {
    exists j :: 0 <= j < |others| && m.key == others[j].key && Same(m.value, others[j].value)
  }

  // ---- sorting ----

  ghost predicate Ordered(members: seq<Member>) {
    forall i, j :: 0 <= i < j < |members| ==> Before(members[i].key, members[j].key)
  }

  ghost predicate ScalarKeys(members: seq<Member>) {
    forall k :: 0 <= k < |members| ==> Scalar(members[k].key)
  }

  lemma {:induction false} InsertOrders(m: Member, sorted: seq<Member>)
    requires Ordered(sorted) && ScalarKeys(sorted) && Scalar(m.key)
      && forall k :: 0 <= k < |sorted| ==> sorted[k].key != m.key
    ensures Ordered(Insert(m, sorted)) && ScalarKeys(Insert(m, sorted))
  {
    if sorted != [] {
      BeforeTotal(sorted[0].key, m.key);
      if Before(sorted[0].key, m.key) {
        InsertOrders(m, sorted[1..]);
        InsertMembers(m, sorted[1..]);
        var r := Insert(m, sorted[1..]);
        forall j | 0 <= j < |r|
          ensures Before(sorted[0].key, r[j].key)
        {
          assert r[j] in r;
        }
      } else {
        forall j | 0 <= j < |sorted|
          ensures Before(m.key, sorted[j].key)
        {
          if j > 0 { BeforeTransitive(m.key, sorted[0].key, sorted[j].key); }
        }
      }
    }
  }

  lemma InsertMembers(m: Member, sorted: seq<Member>)
    ensures forall x :: x in Insert(m, sorted) <==> x == m || x in sorted
  {
    var r := Insert(m, sorted);
    forall x
      ensures x in r <==> x == m || x in sorted
    {
      assert x in r <==> x in multiset(r);
      assert x in sorted <==> x in multiset(sorted);
    }
  }

  lemma {:induction false} SortOrders(members: seq<Member>)
    requires Distinct(members) && ScalarKeys(members)
    ensures Ordered(Sort(members)) && ScalarKeys(Sort(members))
  {
    if members != [] {
      SortOrders(members[1..]);
      SortKeeps(members[1..]);
      var r := Sort(members[1..]);
      forall k | 0 <= k < |r|
        ensures r[k].key != members[0].key
      {
        assert r[k] in members[1..];
      }
      InsertOrders(members[0], r);
    }
  }

  /** Distinct keys are distinct names for members. */
  lemma SameMember(members: seq<Member>, m: Member, n: Member)
    requires Distinct(members) && m in members && n in members && m.key == n.key
    ensures m == n
  {}

  ghost predicate HasKey(b: seq<Member>, key: Text) {
    exists j :: 0 <= j < |b| && b[j].key == key
  }

  /** Two ordered member lists with the same keys list them in the same order. */
  lemma SameKeys(a: seq<Member>, b: seq<Member>)
    requires Ordered(a) && Ordered(b) && ScalarKeys(a) && ScalarKeys(b) && |a| == |b|
    requires forall k :: 0 <= k < |a| ==> HasKey(b, a[k].key)
    ensures forall k :: 0 <= k < |a| ==> a[k].key == b[k].key
  {
    var at := Positions(a, b, |a|);
    Squeezed(at);
  }

  lemma {:induction false} Positions(a: seq<Member>, b: seq<Member>, n: nat) returns (at: seq<nat>)
    requires n <= |a| && Ordered(a) && Ordered(b) && ScalarKeys(a) && ScalarKeys(b)
    requires forall k :: 0 <= k < |a| ==> HasKey(b, a[k].key)
    ensures |at| == n && forall k :: 0 <= k < n ==> at[k] < |b| && a[k].key == b[at[k]].key
    ensures Increasing(at)
  {
    if n == 0 {
      at := [];
    } else {
      var before := Positions(a, b, n - 1);
      assert HasKey(b, a[n - 1].key);
      var j :| 0 <= j < |b| && b[j].key == a[n - 1].key;
      at := before + [j];
      forall i | 0 <= i < n - 1
        ensures at[i] < j
      {
        BeforeTotal(a[i].key, a[n - 1].key);
        BeforeTotal(b[j].key, b[at[i]].key);
      }
    }
  }

  ghost predicate Increasing(at: seq<nat>) {
    forall i, k :: 0 <= i < k < |at| ==> at[i] < at[k]
  }

  lemma {:induction false} Climbs(at: seq<nat>, i: nat, k: nat)
    requires i <= k < |at| && Increasing(at)
    ensures at[k] >= at[i] + (k - i)
  {
    if i < k { Climbs(at, i, k - 1); }
  }

  /** As many increasing positions as there are places: position k is place k. */
  lemma Squeezed(at: seq<nat>)
    requires Increasing(at) && forall k :: 0 <= k < |at| ==> at[k] < |at|
    ensures forall k :: 0 <= k < |at| ==> at[k] == k
  {
    forall k | 0 <= k < |at|
      ensures at[k] == k
    {
      Climbs(at, 0, k);
      Climbs(at, k, |at| - 1);
    }
  }

  // ---- normal forms ----

  lemma {:induction false} NormalItemsAt(items: seq<Json>, k: nat)
    requires k < |items|
    ensures NormalItems(items)[k] == Normal(items[k])
  {
    if k > 0 { NormalItemsAt(items[1..], k - 1); }
  }

  lemma {:induction false} NormalMembersAt(members: seq<Member>, k: nat)
    requires k < |members|
    ensures NormalMembers(members)[k] == Member(members[k].key, Normal(members[k].value))
  {
    if k > 0 { NormalMembersAt(members[1..], k - 1); }
  }

  ghost predicate Fine(v: Json) { WellFormed(v) && Clean(v) }

  /** Values are the same up to member order exactly when their normal forms are equal. */
  lemma {:induction false} NormalSame(v: Json, w: Json)
    requires Fine(v) && Fine(w)
    ensures Same(v, w) <==> Normal(v) == Normal(w)
    decreases v
  {
    match v
    case Arr(items) => if w.Arr? { SameItems(items, w.items); }
    case Obj(members) =>
      if w.Obj? {
        if Same(v, w) { SameObjects(members, w.members); }
        if Normal(v) == Normal(w) { EqualObjects(members, w.members); }
      }
    case _ =>
  }

  lemma {:induction false} SameItems(a: seq<Json>, b: seq<Json>)
    requires Fine(Arr(a)) && Fine(Arr(b))
    ensures Same(Arr(a), Arr(b)) <==> Normal(Arr(a)) == Normal(Arr(b))
    decreases a
  {
    if |a| == |b| {
      forall k | 0 <= k < |a|
        ensures NormalItems(a)[k] == NormalItems(b)[k] <==> Same(a[k], b[k])
      {
        NormalItemsAt(a, k);
        NormalItemsAt(b, k);
        NormalSame(a[k], b[k]);
      }
    }
  }

  /** The members of an object in printing order. */
  lemma Arranged(members: seq<Member>) returns (s: seq<Member>)
    requires Fine(Obj(members))
    ensures Ordered(s) && ScalarKeys(s) && |s| == |members| && MemberSizes(s) < Size(Obj(members))
    ensures forall m :: m in s <==> m in members
    ensures Normal(Obj(members)) == Obj(NormalMembers(s))
    ensures members != [] ==> Canonical(Obj(members)) == Prefixed([123], Members(s))
  {
    SortOrders(members);
    SortKeeps(members);
    s := Sort(members);
  }

  lemma {:induction false} SameObjects(a: seq<Member>, b: seq<Member>)
    requires Fine(Obj(a)) && Fine(Obj(b)) && Same(Obj(a), Obj(b))
    ensures Normal(Obj(a)) == Normal(Obj(b))
    decreases a
  {
    var s := Arranged(a);
    var t := Arranged(b);
    forall k | 0 <= k < |s|
      ensures HasKey(t, s[k].key)
    {
      var i, j := Partner(a, b, s[k]);
      assert b[j] in t;
    }
    SameKeys(s, t);
    forall k | 0 <= k < |s|
      ensures s[k].key == t[k].key && Normal(s[k].value) == Normal(t[k].value)
    {
      var i, j := Partner(a, b, s[k]);
      SameMember(b, b[j], t[k]);
      NormalSame(a[i].value, b[j].value);
    }
    NormalMembersEqual(s, t);
  }

  lemma NormalMembersEqual(s: seq<Member>, t: seq<Member>)
    requires |s| == |t|
    ensures NormalMembers(s) == NormalMembers(t)
      <==> forall k :: 0 <= k < |s| ==> s[k].key == t[k].key && Normal(s[k].value) == Normal(t[k].value)
  {
    forall k | 0 <= k < |s|
      ensures NormalMembers(s)[k] == NormalMembers(t)[k]
        <==> s[k].key == t[k].key && Normal(s[k].value) == Normal(t[k].value)
    {
      NormalMembersAt(s, k);
      NormalMembersAt(t, k);
    }
  }

  lemma Partner(a: seq<Member>, b: seq<Member>, m: Member) returns (i: nat, j: nat)
    requires Same(Obj(a), Obj(b)) && m in a
    ensures i < |a| && j < |b| && a[i] == m && b[j].key == m.key && Same(m.value, b[j].value)
  {
    i :| 0 <= i < |a| && a[i] == m;
    j :| 0 <= j < |b| && a[i].key == b[j].key && Same(a[i].value, b[j].value);
  }

  lemma {:induction false} EqualObjects(a: seq<Member>, b: seq<Member>)
    requires Fine(Obj(a)) && Fine(Obj(b)) && Normal(Obj(a)) == Normal(Obj(b))
    ensures Same(Obj(a), Obj(b))
    decreases a, 2
  {
    var s := Arranged(a);
    var t := Arranged(b);
    assert |NormalMembers(s)| == |s| && |NormalMembers(t)| == |t|;
    NormalMembersEqual(s, t);
    EqualMembers(a, b, s, t);
  }

  lemma {:induction false} EqualMembers(a: seq<Member>, b: seq<Member>, s: seq<Member>, t: seq<Member>)
    requires Fine(Obj(a)) && Fine(Obj(b)) && |a| == |b| && |s| == |t|
    requires (forall m :: m in s <==> m in a) && (forall m :: m in t <==> m in b)
    requires forall k :: 0 <= k < |s| ==> s[k].key == t[k].key && Normal(s[k].value) == Normal(t[k].value)
    ensures Same(Obj(a), Obj(b))
    decreases a, 1
  {
    forall i | 0 <= i < |a|
      ensures Matched(a[i], b)
    {
      var k, j := Counterpart(a, b, s, t, i);
      MemberSame(a, b, s, t, i, j, k);
    }
  }

  lemma {:induction false} MemberSame(a: seq<Member>, b: seq<Member>, s: seq<Member>, t: seq<Member>, i: nat, j: nat,
                                      k: nat)
    requires Fine(Obj(a)) && Fine(Obj(b)) && i < |a| && j < |b| && k < |s| == |t| && s[k] == a[i] && b[j] == t[k]
    requires s[k].key == t[k].key && Normal(s[k].value) == Normal(t[k].value)
    ensures a[i].key == b[j].key && Same(a[i].value, b[j].value)
    decreases a, 0
  {
    NormalSame(a[i].value, b[j].value);
  }

  lemma Counterpart(a: seq<Member>, b: seq<Member>, s: seq<Member>, t: seq<Member>, i: nat) returns (k: nat, j: nat)
    requires i < |a| && |s| == |t| && (forall m :: m in s <==> m in a) && (forall m :: m in t <==> m in b)
    ensures k < |s| && s[k] == a[i] && j < |b| && b[j] == t[k]
  {
    assert a[i] in s;
    k :| 0 <= k < |s| && s[k] == a[i];
    assert t[k] in b;
    j :| 0 <= j < |b| && b[j] == t[k];
  }

  lemma {:induction false} SortOrdered(members: seq<Member>)
    requires Ordered(members) && ScalarKeys(members)
    ensures Sort(members) == members
  {
    if members != [] {
      SortOrdered(members[1..]);
      assert members == [members[0]] + members[1..];
      InsertFirst(members[0], members[1..]);
    }
  }

  lemma InsertFirst(m: Member, sorted: seq<Member>)
    requires Ordered([m] + sorted) && ScalarKeys([m] + sorted)
    ensures Insert(m, sorted) == [m] + sorted
  {
    if sorted != [] {
      var all := [m] + sorted;
      assert all[0] == m && all[1] == sorted[0];
      BeforeTotal(all[0].key, all[1].key);
    }
  }

  /** Putting a value in normal form first does not change its text. */
  lemma {:induction false} PrintsNormal(v: Json)
    requires Fine(v)
    ensures Canonical(Normal(v)) == Canonical(v)
    decreases Size(v), 1
  {
    match v
    case Arr(items) => if items != [] { PrintsItems(items); }
    case Obj(members) => PrintsObject(members);
    case _ =>
  }

  lemma {:induction false} PrintsItems(items: seq<Json>)
    requires items != [] && Fine(Arr(items))
    ensures Items(NormalItems(items)) == Items(items)
    decreases Sizes(items), 2
  {
    PrintsNormal(items[0]);
    if |items| > 1 {
      PrintsItems(items[1..]);
      assert NormalItems(items)[1..] == NormalItems(items[1..]);
    }
  }

  lemma {:induction false} PrintsObject(members: seq<Member>)
    requires Fine(Obj(members))
    ensures Canonical(Normal(Obj(members))) == Canonical(Obj(members))
    decreases Size(Obj(members)), 0
  {
    var sorted := Arranged(members);
    if members == [] {
      NoItems();
    } else {
      forall k | 0 <= k < |sorted|
        ensures Fine(sorted[k].value)
      {
        assert sorted[k] in members;
      }
      PrintsMembers(sorted);
      PrintsOrdered(sorted);
    }
  }

  lemma PrintsOrdered(sorted: seq<Member>)
    requires Ordered(sorted) && ScalarKeys(sorted) && sorted != []
    ensures Canonical(Obj(NormalMembers(sorted))) == Prefixed([123], Members(NormalMembers(sorted)))
  {
    NormalOrdered(sorted);
    SortOrdered(NormalMembers(sorted));
    PrintsArranged(NormalMembers(sorted));
  }

  lemma PrintsArranged(n: seq<Member>)
    requires Sort(n) == n && n != []
    ensures Canonical(Obj(n)) == Prefixed([123], Members(n))
  {}

  lemma NormalOrdered(sorted: seq<Member>)
    requires Ordered(sorted) && ScalarKeys(sorted)
    ensures Ordered(NormalMembers(sorted)) && ScalarKeys(NormalMembers(sorted))
  {
    var n := NormalMembers(sorted);
    forall k | 0 <= k < |n|
      ensures n[k].key == sorted[k].key
    {
      NormalMembersAt(sorted, k);
    }
  }

  /** Members in strictly ascending order of the UTF-16 code units of their keys, at every depth. */
  ghost predicate Ascending(v: Json)
    decreases v
  {
    match v
    case Arr(items) => forall k :: 0 <= k < |items| ==> Ascending(items[k])
    case Obj(members) =>
      && (forall i, j :: 0 <= i < j < |members| ==> Less(Units(members[i].key), Units(members[j].key)))
      && forall k :: 0 <= k < |members| ==> Ascending(members[k].value)
    case _ => true
  }

  /** The printed order, which reading gives back, is ascending throughout. */
  lemma {:induction false} NormalAscends(v: Json)
    requires Fine(v)
    ensures Ascending(Normal(v))
    decreases v
  {
    match v
    case Arr(items) =>
      forall k | 0 <= k < |items|
        ensures Ascending(NormalItems(items)[k])
      {
        NormalItemsAt(items, k);
        NormalAscends(items[k]);
      }
    case Obj(members) => MembersAscend(members);
    case _ =>
  }

  lemma {:induction false} MembersAscend(members: seq<Member>)
    requires Fine(Obj(members))
    ensures Ascending(Normal(Obj(members)))
    decreases members
  {
    var sorted := Arranged(members);
    var n := NormalMembers(sorted);
    NormalOrdered(sorted);
    forall i, j | 0 <= i < j < |n|
      ensures Less(Units(n[i].key), Units(n[j].key))
    {
      SortsByCodeUnits(n[i].key, n[j].key);
    }
    forall k | 0 <= k < |n|
      ensures Ascending(n[k].value)
    {
      NormalMembersAt(sorted, k);
      assert sorted[k] in members;
      var i :| 0 <= i < |members| && members[i] == sorted[k];
      NormalAscends(members[i].value);
    }
  }

  lemma {:induction false} PrintsMembers(members: seq<Member>)
    requires members != [] && forall k :: 0 <= k < |members| ==> Fine(members[k].value)
    ensures Members(NormalMembers(members)) == Members(members)
    decreases MemberSizes(members), 2
  {
    PrintsNormal(members[0].value);
    if |members| > 1 {
      PrintsMembers(members[1..]);
      assert NormalMembers(members)[1..] == NormalMembers(members[1..]);
    }
  }

  // ---- the theorem ----

  /** Two accepted values have the same canonical text if and only if they are the same value up to member order. */
  lemma CanonicalIffSame(v: Json, w: Json)
    requires WellFormed(v) && WellFormed(w) && Canonical(v).Ok? && Canonical(w).Ok?
    ensures Canonical(v) == Canonical(w) <==> Same(v, w)
  {
    CanonicalOk(v);
    CanonicalOk(w);
    NormalSame(v, w);
    ReadsValue(v, []);
    ReadsValue(w, []);
    PrintsNormal(v);
    PrintsNormal(w);
    assert Canonical(v).value + [] == Canonical(v).value && Canonical(w).value + [] == Canonical(w).value;
  }

  // ---- digests ----

  type Hash = seq<byte> -> seq<byte>

  ghost predicate Injective(h: Hash) { forall a, b :: h(a) == h(b) ==> a == b }

  /** The digest of a record is the hash of the UTF-8 bytes of its canonical text. */
  function RecordDigest(h: Hash, v: Json): Result<seq<byte>, Error> {
    match Canonical(v)
    case Err(e) => Err(e)
    case Ok(t) => Ok(h(Utf8(t)))
  }

  /** A record without one of its top-level members. */
  function Omitting(members: seq<Member>, key: Text): (r: seq<Member>)
    ensures forall m :: m in r <==> m in members && m.key != key
  {
    if members == [] then []
    else if members[0].key == key then Omitting(members[1..], key)
    else [members[0]] + Omitting(members[1..], key)
  }

  /** A digest over the record with one member left out: the signing preimage leaves out the envelope digest,
      the provenance subject leaves out the provenance digest. */
  function DigestOmitting(h: Hash, members: seq<Member>, key: Text): Result<seq<byte>, Error> {
    RecordDigest(h, Obj(Omitting(members, key)))
  }

  /** With a collision-free hash, a digest binds the value, and nothing about member order. */
  lemma DigestIffSame(h: Hash, v: Json, w: Json)
    requires Injective(h) && WellFormed(v) && WellFormed(w) && Canonical(v).Ok? && Canonical(w).Ok?
    ensures RecordDigest(h, v) == RecordDigest(h, w) <==> Same(v, w)
  {
    CanonicalIffSame(v, w);
    var s, t := Canonical(v).value, Canonical(w).value;
    if h(Utf8(s)) == h(Utf8(t)) { Utf8Injective(s, t); }
  }

  lemma {:induction false} OmittingDistinct(members: seq<Member>, key: Text)
    requires Distinct(members)
    ensures Distinct(Omitting(members, key))
  {
    if members != [] {
      OmittingDistinct(members[1..], key);
      var r := Omitting(members[1..], key);
      forall j | 0 <= j < |r|
        ensures r[j].key != members[0].key
      {
        assert r[j] in members[1..];
      }
    }
  }

  /** The preimage digest binds every member but the omitted one, whose value it ignores. */
  lemma PreimageBinds(h: Hash, a: seq<Member>, b: seq<Member>, key: Text)
    requires Injective(h) && Fine(Obj(a)) && Fine(Obj(b))
    ensures DigestOmitting(h, a, key) == DigestOmitting(h, b, key)
      <==> Same(Obj(Omitting(a, key)), Obj(Omitting(b, key)))
  {
    OmittingFine(a, key);
    OmittingFine(b, key);
    CanonicalOk(Obj(Omitting(a, key)));
    CanonicalOk(Obj(Omitting(b, key)));
    DigestIffSame(h, Obj(Omitting(a, key)), Obj(Omitting(b, key)));
  }

  lemma OmittingFine(members: seq<Member>, key: Text)
    requires Fine(Obj(members))
    ensures Fine(Obj(Omitting(members, key)))
  {
    OmittingDistinct(members, key);
    var r := Omitting(members, key);
    forall k | 0 <= k < |r|
      ensures Scalar(r[k].key) && Fine(r[k].value)
    {
      assert r[k] in members;
    }
  }

  lemma {:induction false} OmittingUpdate(members: seq<Member>, k: nat, v: Json)
    requires k < |members|
    ensures Omitting(members[k := Member(members[k].key, v)], members[k].key) == Omitting(members, members[k].key)
  {
    var changed := members[k := Member(members[k].key, v)];
    if k == 0 {
      assert changed[1..] == members[1..];
    } else {
      OmittingUpdate(members[1..], k - 1, v);
      assert changed[1..] == members[1..][k - 1 := Member(members[k].key, v)];
    }
  }

  lemma {:induction false} OmittingAdded(before: seq<Member>, m: Member, after: seq<Member>)
    ensures Omitting(before + [m] + after, m.key) == Omitting(before + after, m.key)
  {
    var more, fewer := before + [m] + after, before + after;
    if before == [] {
      assert more[1..] == after && fewer == after;
    } else {
      OmittingAdded(before[1..], m, after);
      assert more[1..] == before[1..] + [m] + after && fewer[1..] == before[1..] + after;
    }
  }

  /** Adding the digest to the record afterwards, wherever, leaves the preimage as it was. */
  lemma PreimageFilled(h: Hash, before: seq<Member>, m: Member, after: seq<Member>)
    ensures DigestOmitting(h, before + [m] + after, m.key) == DigestOmitting(h, before + after, m.key)
  {
    OmittingAdded(before, m, after);
  }

  /** So does overwriting it where it is already there. */
  lemma PreimageStable(h: Hash, members: seq<Member>, k: nat, v: Json)
    requires k < |members|
    ensures DigestOmitting(h, members[k := Member(members[k].key, v)], members[k].key)
      == DigestOmitting(h, members, members[k].key)
  {
    OmittingUpdate(members, k, v);
  }
}
