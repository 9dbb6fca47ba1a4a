/** Canonical JSON (RFC 8785): members sorted by key, code unit by code unit. */
module CanonicalJson {
  import opened Texts
  import opened JsonText

  // ---- well-formed UTF-16 ----

  predicate High(c: CodeUnit) {
    0xd800 <= c <= 0xdbff
  }

  predicate Low(c: CodeUnit) {
    0xdc00 <= c <= 0xdfff
  }

  /** Every high surrogate is followed by a low one, and every low one preceded by a high one. */
  predicate Paired(t: Text) {
    forall i | 0 <= i < |t| :: UnitPaired(t, i)
  }

  predicate UnitPaired(t: Text, i: nat)
    requires i < |t|
  {
    && (High(t[i]) ==> i + 1 < |t| && Low(t[i + 1]))
    && (Low(t[i]) ==> i > 0 && High(t[i - 1]))
  }

  /** The scan that refuses unpaired surrogates. */
  method AssertValidUnicode(text: Text) returns (valid: bool)
    ensures valid <==> Paired(text)
  {
    var index := 0;
    while index < |text|
      invariant 0 <= index <= |text|
      invariant index > 0 ==> !High(text[index - 1])
      invariant forall i | 0 <= i < index :: UnitPaired(text, i)
    {
      var code := text[index];
      if High(code) {
        if index + 1 >= |text| || !Low(text[index + 1]) {
          assert !UnitPaired(text, index);
          return false;
        }
        assert UnitPaired(text, index) && UnitPaired(text, index + 1);
        index := index + 2;
      } else if Low(code) {
        assert !UnitPaired(text, index);
        return false;
      } else {
        assert UnitPaired(text, index);
        index := index + 1;
      }
    }
    return true;
  }

  // ---- sorting by key ----

  function Insert<V(!new)>(f: Field<V>, s: seq<Field<V>>): seq<Field<V>> {
    if s == [] || !Less(s[0].key, f.key) then [f] + s else [s[0]] + Insert(f, s[1..])
  }

  function SortFields<V(!new)>(fields: seq<Field<V>>): seq<Field<V>> {
    if fields == [] then [] else Insert(fields[0], SortFields(fields[1..]))
  }

  predicate Ascending<V(!new)>(s: seq<Field<V>>) {
    forall i, j | 0 <= i < j < |s| :: Less(s[i].key, s[j].key)
  }

  lemma {:induction false} InsertMembers<V(!new)>(f: Field<V>, s: seq<Field<V>>)
    ensures |Insert(f, s)| == |s| + 1
    ensures forall x :: x in Insert(f, s) <==> x == f || x in s
  {
    if s != [] && Less(s[0].key, f.key) {
      InsertMembers(f, s[1..]);
      assert s == [s[0]] + s[1..];
    }
  }

  lemma {:induction false} InsertAscends<V(!new)>(f: Field<V>, s: seq<Field<V>>)
    requires Ascending(s) && forall x | x in s :: x.key != f.key
    ensures Ascending(Insert(f, s))
  {
    if s == [] {
    } else if Less(s[0].key, f.key) {
      InsertAscends(f, s[1..]);
      InsertMembers(f, s[1..]);
      var rest := Insert(f, s[1..]);
      forall j | 0 <= j < |rest|
        ensures Less(s[0].key, rest[j].key)
      {
        assert rest[j] in rest;
        assert rest[j] == f || rest[j] in s[1..];
      }
    } else {
      LessTotal(s[0].key, f.key);
      assert s[0] in s;
      forall j | 0 <= j < |s|
        ensures Less(f.key, s[j].key)
      {
        if j > 0 {
          LessTransitive(f.key, s[0].key, s[j].key);
        }
      }
    }
  }

  lemma {:induction false} SortMembers<V(!new)>(fields: seq<Field<V>>)
    ensures |SortFields(fields)| == |fields|
    ensures forall x :: x in SortFields(fields) <==> x in fields
  {
    if fields != [] {
      SortMembers(fields[1..]);
      InsertMembers(fields[0], SortFields(fields[1..]));
      assert fields == [fields[0]] + fields[1..];
    }
  }

  lemma {:induction false} SortAscends<V(!new)>(fields: seq<Field<V>>)
    requires DistinctKeys(fields)
    ensures Ascending(SortFields(fields))
  {
    if fields != [] {
      SortAscends(fields[1..]);
      SortMembers(fields[1..]);
      forall x | x in SortFields(fields[1..]) ensures x.key != fields[0].key {
        assert x in fields[1..];
      }
      InsertAscends(fields[0], SortFields(fields[1..]));
    }
  }

  lemma LessNotBoth(a: Text, b: Text)
    ensures !(Less(a, b) && Less(b, a))
  {
    if Less(a, b) {
      LessAsymmetric(a, b);
    }
  }

  lemma HeadFirst<V(!new)>(s: seq<Field<V>>, x: Field<V>)
    requires Ascending(s) && x in s
    ensures x == s[0] || Less(s[0].key, x.key)
  {
    var i :| 0 <= i < |s| && s[i] == x;
  }

  lemma TailMembers<V(!new)>(s: seq<Field<V>>, x: Field<V>)
    requires Ascending(s) && s != []
    ensures x in s[1..] <==> x in s && x != s[0]
  {
    LessIrreflexive(s[0].key);
    if x in s[1..] {
      var i :| 0 < i < |s| && s[i] == x;
    }
  }

  /** An ascending sequence is determined by its members. */
  lemma {:induction false} AscendingUnique<V(!new)>(a: seq<Field<V>>, b: seq<Field<V>>)
    requires Ascending(a) && Ascending(b)
    requires forall x :: x in a <==> x in b
    ensures a == b
  {
    assert a != [] ==> a[0] in b;
    assert b != [] ==> b[0] in a;
    if a != [] {
      HeadFirst(a, b[0]);
      HeadFirst(b, a[0]);
      LessNotBoth(a[0].key, b[0].key);
      forall x
        ensures x in a[1..] <==> x in b[1..]
      {
        TailMembers(a, x);
        TailMembers(b, x);
      }
      AscendingUnique(a[1..], b[1..]);
      assert a == [a[0]] + a[1..] && b == [b[0]] + b[1..];
    }
  }

  lemma SortUnique<V(!new)>(f: seq<Field<V>>, g: seq<Field<V>>)
    requires DistinctKeys(f) && DistinctKeys(g)
    requires forall x :: x in f <==> x in g
    ensures SortFields(f) == SortFields(g)
  {
    SortMembers(f);
    SortMembers(g);
    SortAscends(f);
    SortAscends(g);
    AscendingUnique(SortFields(f), SortFields(g));
  }

  /** The same keys in the same places, with values related by r. */
  ghost predicate Related<A(!new), B(!new)>(a: seq<Field<A>>, b: seq<Field<B>>, r: (A, B) -> bool) {
    |a| == |b| && forall i | 0 <= i < |a| :: a[i].key == b[i].key && r(a[i].value, b[i].value)
  }

  lemma {:induction false} InsertRelates<A(!new), B(!new)>(x: Field<A>, y: Field<B>, a: seq<Field<A>>, b: seq<Field<B>>, r: (A, B) -> bool)
    requires x.key == y.key && r(x.value, y.value) && Related(a, b, r)
    ensures Related(Insert(x, a), Insert(y, b), r)
  {
    if a != [] && Less(a[0].key, x.key) {
      InsertRelates(x, y, a[1..], b[1..], r);
    }
  }

  /** Sorting looks at keys alone. */
  lemma {:induction false} SortRelates<A(!new), B(!new)>(a: seq<Field<A>>, b: seq<Field<B>>, r: (A, B) -> bool)
    requires Related(a, b, r)
    ensures Related(SortFields(a), SortFields(b), r)
  {
    if a != [] {
      SortRelates(a[1..], b[1..], r);
      InsertRelates(a[0], b[0], SortFields(a[1..]), SortFields(b[1..]), r);
    }
  }

  // ---- the canonical text ----

  /** Members printed as in the source: `"key":value`. */
  function Print(entries: seq<Field<Text>>): (r: seq<Text>)
    ensures |r| == |entries|
    ensures forall i | 0 <= i < |r| :: r[i] == Quote(entries[i].key) + [COLON] + entries[i].value
  {
    seq(|entries|, i requires 0 <= i < |entries| => Quote(entries[i].key) + [COLON] + entries[i].value)
  }

  function Canon(v: Json): Text
    decreases v
  {
    match v
    case Arr(items) => [LBRACKET] + Join(CanonItems(items)) + [RBRACKET]
    case Obj(fields) => [LBRACE] + Join(Print(SortFields(CanonFields(fields)))) + [RBRACE]
    case _ => Write(v)
  }

  function CanonItems(items: seq<Json>): (r: seq<Text>)
    ensures |r| == |items| && forall i | 0 <= i < |items| :: r[i] == Canon(items[i])
    decreases items
  {
    if items == [] then [] else [Canon(items[0])] + CanonItems(items[1..])
  }

  function CanonFields(fields: seq<Field<Json>>): (r: seq<Field<Text>>)
    ensures |r| == |fields|
    ensures forall i | 0 <= i < |fields| :: r[i] == Field(fields[i].key, Canon(fields[i].value))
    decreases fields
  {
    if fields == [] then [] else [Field(fields[0].key, Canon(fields[0].value))] + CanonFields(fields[1..])
  }

  /** The value with the members of every object in ascending order. */
  function Normalize(v: Json): Json
    decreases v
  {
    match v
    case Arr(items) => Arr(NormalItems(items))
    case Obj(fields) => Obj(SortFields(NormalFields(fields)))
    case _ => v
  }

  function NormalItems(items: seq<Json>): (r: seq<Json>)
    ensures |r| == |items| && forall i | 0 <= i < |items| :: r[i] == Normalize(items[i])
    decreases items
  {
    if items == [] then [] else [Normalize(items[0])] + NormalItems(items[1..])
  }

  function NormalFields(fields: seq<Field<Json>>): (r: seq<Field<Json>>)
    ensures |r| == |fields|
    ensures forall i | 0 <= i < |fields| :: r[i] == Field(fields[i].key, Normalize(fields[i].value))
    decreases fields
  {
    if fields == [] then [] else [Field(fields[0].key, Normalize(fields[0].value))] + NormalFields(fields[1..])
  }

  /** Equal up to the order of members. */
  predicate Same(v: Json, w: Json)
    decreases v
  {
    match (v, w)
    case (Arr(a), Arr(b)) => |a| == |b| && forall i | 0 <= i < |a| :: Same(a[i], b[i])
    case (Obj(f), Obj(g)) =>
      && (forall i | 0 <= i < |f| :: MatchedBy(f[i], g))
      && (forall j | 0 <= j < |g| :: Matches(f, g[j]))
    case _ => v == w
  }

  predicate MatchedBy(x: Field<Json>, g: seq<Field<Json>>)
    decreases x
  {
    exists j | 0 <= j < |g| :: x.key == g[j].key && Same(x.value, g[j].value)
  }

  predicate Matches(f: seq<Field<Json>>, y: Field<Json>)
    decreases f
  {
    exists i | 0 <= i < |f| :: f[i].key == y.key && Same(f[i].value, y.value)
  }

  lemma {:induction false} WriteItemsAt(items: seq<Json>, i: nat)
    requires i < |items|
    ensures WriteItems(items)[i] == Write(items[i])
  {
    if i > 0 {
      WriteItemsAt(items[1..], i - 1);
    }
  }

  lemma {:induction false} WriteFieldsAt(fields: seq<Field<Json>>, i: nat)
    requires i < |fields|
    ensures WriteFields(fields)[i] == Quote(fields[i].key) + [COLON] + Write(fields[i].value)
  {
    if i > 0 {
      WriteFieldsAt(fields[1..], i - 1);
    }
  }

  /** The canonical text is the plain text of the normalized value. */
  lemma {:induction false} CanonWrites(v: Json)
    ensures Canon(v) == Write(Normalize(v))
    decreases v
  {
    match v
    case Arr(items) =>
      forall i | 0 <= i < |items|
        ensures CanonItems(items)[i] == WriteItems(NormalItems(items))[i]
      {
        CanonWrites(items[i]);
        WriteItemsAt(NormalItems(items), i);
      }
      assert CanonItems(items) == WriteItems(NormalItems(items));
    case Obj(fields) =>
      var a, b := NormalFields(fields), CanonFields(fields);
      var r := (j: Json, t: Text) => Write(j) == t;
      forall i | 0 <= i < |fields|
        ensures r(a[i].value, b[i].value)
      {
        CanonWrites(fields[i].value);
      }
      SortRelates(a, b, r);
      var sa, sb := SortFields(a), SortFields(b);
      forall i | 0 <= i < |sa|
        ensures WriteFields(sa)[i] == Print(sb)[i]
      {
        WriteFieldsAt(sa, i);
      }
      assert WriteFields(sa) == Print(sb);
    case _ =>
  }

  /** In every object, at every depth: of two members the key of the first is a proper prefix of the
      other's, or smaller at the first code unit where they differ. */
  ghost predicate InCodeUnitOrder(v: Json)
    decreases v
  {
    match v
    case Arr(items) => forall i | 0 <= i < |items| :: InCodeUnitOrder(items[i])
    case Obj(fields) =>
      && (forall i, j | 0 <= i < j < |fields| :: Sooner(fields[i].key, fields[j].key))
      && forall i | 0 <= i < |fields| :: InCodeUnitOrder(fields[i].value)
    case _ => true
  }

  lemma {:induction false} NormalizeOrders(v: Json)
    requires Wellformed(v)
    ensures InCodeUnitOrder(Normalize(v))
    decreases v
  {
    hide Sooner;
    match v
    case Arr(items) =>
      forall i | 0 <= i < |items| ensures InCodeUnitOrder(NormalItems(items)[i]) { NormalizeOrders(items[i]); }
    case Obj(fields) =>
      var normal := NormalFields(fields);
      var sorted := SortFields(normal);
      SortMembers(normal);
      SortAscends(normal);
      forall i, j | 0 <= i < j < |sorted| ensures Sooner(sorted[i].key, sorted[j].key) {
        LessIsSooner(sorted[i].key, sorted[j].key);
      }
      forall i | 0 <= i < |fields| ensures InCodeUnitOrder(normal[i].value) { NormalizeOrders(fields[i].value); }
      forall i | 0 <= i < |sorted| ensures InCodeUnitOrder(sorted[i].value) { assert sorted[i] in normal; }
    case _ =>
  }

  /** The canonical text prints the members of every object in ascending order of code units. */
  lemma CanonPrintsInOrder(v: Json) returns (printed: Json)
    requires Wellformed(v)
    ensures Canon(v) == Write(printed) && Same(v, printed) && Wellformed(printed) && InCodeUnitOrder(printed)
  {
    printed := Normalize(v);
    CanonWrites(v);
    NormalizeOrders(v);
    NormalizeWellformed(v);
    NormalizeTwice(v);
    NormalizesSame(v, printed);
  }

  lemma {:induction false} NormalizeWellformed(v: Json)
    requires Wellformed(v)
    ensures Wellformed(Normalize(v))
    decreases v
  {
    match v
    case Arr(items) =>
      forall i | 0 <= i < |items| ensures Wellformed(NormalItems(items)[i]) { NormalizeWellformed(items[i]); }
    case Obj(fields) =>
      var normal := NormalFields(fields);
      var sorted := SortFields(normal);
      forall i | 0 <= i < |fields| ensures Wellformed(normal[i].value) { NormalizeWellformed(fields[i].value); }
      SortMembers(normal);
      SortAscends(normal);
      forall i | 0 <= i < |sorted| ensures Wellformed(sorted[i].value) {
        assert sorted[i] in sorted;
      }
      forall i, j | 0 <= i < j < |sorted| ensures sorted[i].key != sorted[j].key { LessIrreflexive(sorted[i].key); }
    case _ =>
  }

  lemma {:induction false} SameNormalizes(v: Json, w: Json)
    requires Wellformed(v) && Wellformed(w) && Same(v, w)
    ensures Normalize(v) == Normalize(w)
    decreases v, 1
  {
    match (v, w)
    case (Arr(a), Arr(b)) =>
      forall i | 0 <= i < |a| ensures NormalItems(a)[i] == NormalItems(b)[i] { SameNormalizes(a[i], b[i]); }
      assert NormalItems(a) == NormalItems(b);
    case (Obj(f), Obj(g)) => SameMembers(v, w);
    case _ =>
  }

  lemma {:induction false} SameMembers(v: Json, w: Json)
    requires Wellformed(v) && Wellformed(w) && v.Obj? && w.Obj? && Same(v, w)
    ensures SortFields(NormalFields(v.fields)) == SortFields(NormalFields(w.fields))
    decreases v, 0
  {
    var f, g := v.fields, w.fields;
    var p, q := NormalFields(f), NormalFields(g);
    forall i | 0 <= i < |p| ensures p[i] in q {
      assert MatchedBy(f[i], g);
      var j :| 0 <= j < |g| && f[i].key == g[j].key && Same(f[i].value, g[j].value);
      SameNormalizes(f[i].value, g[j].value);
      assert q[j] == p[i];
    }
    forall j | 0 <= j < |q| ensures q[j] in p {
      assert Matches(f, g[j]);
      var i :| 0 <= i < |f| && f[i].key == g[j].key && Same(f[i].value, g[j].value);
      SameNormalizes(f[i].value, g[j].value);
      assert p[i] == q[j];
    }
    hide Same, Normalize, Wellformed, SortFields;
    SortUnique(p, q) by { KeysStayDistinct(f); KeysStayDistinct(g); }
  }

  lemma {:induction false} NormalizesSame(v: Json, w: Json)
    requires Normalize(v) == Normalize(w)
    ensures Same(v, w)
    decreases v, 1
  {
    match (v, w)
    case (Arr(a), Arr(b)) =>
      forall i | 0 <= i < |a| ensures Same(a[i], b[i]) {
        assert NormalItems(a)[i] == NormalItems(b)[i];
        NormalizesSame(a[i], b[i]);
      }
    case (Obj(f), Obj(g)) =>
      assert SortFields(NormalFields(f)) == SortFields(NormalFields(g));
      hide Normalize, SortFields;
      forall i | 0 <= i < |f| ensures MatchedBy(f[i], g) {
        var j := CommonMember(NormalFields(f), NormalFields(g), i);
        NormalizesSame(f[i].value, g[j].value);
      }
      forall j | 0 <= j < |g| ensures Matches(f, g[j]) {
        var i := CommonMember(NormalFields(g), NormalFields(f), j);
        NormalizesSame(f[i].value, g[j].value);
      }
    case _ =>
  }

  lemma KeysStayDistinct(fields: seq<Field<Json>>)
    requires DistinctKeys(fields)
    ensures DistinctKeys(NormalFields(fields))
  {
  }

  lemma CommonMember<V(!new)>(p: seq<Field<V>>, q: seq<Field<V>>, i: nat) returns (j: nat)
    requires SortFields(p) == SortFields(q) && i < |p|
    ensures j < |q| && q[j] == p[i]
  {
    SortMembers(p);
    SortMembers(q);
    assert p[i] in q;
    j :| 0 <= j < |q| && q[j] == p[i];
  }

  /** A reader gives the printed value back, with members in canonical order. */
  lemma ReadUndoesCanon(v: Json)
    requires Wellformed(v)
    ensures Read(Canon(v)) == Some(Normalize(v)) && Same(v, Normalize(v))
  {
    CanonWrites(v);
    NormalizeWellformed(v);
    ReadUndoesWrite(Normalize(v));
    NormalizeTwice(v);
    NormalizesSame(v, Normalize(v));
  }

  lemma {:induction false} NormalizeTwice(v: Json)
    requires Wellformed(v)
    ensures Normalize(Normalize(v)) == Normalize(v)
    decreases v
  {
    match v
    case Arr(items) =>
      var n := NormalItems(items);
      forall i | 0 <= i < |n| ensures NormalItems(n)[i] == n[i] { NormalizeTwice(items[i]); }
      assert NormalItems(n) == n;
    case Obj(fields) =>
      var p := NormalFields(fields);
      var s := SortFields(p);
      SortMembers(p);
      NormalizeWellformed(v);
      forall i | 0 <= i < |s| ensures NormalFields(s)[i] == s[i] {
        assert s[i] in p;
        var k :| 0 <= k < |p| && p[k] == s[i];
        NormalizeTwice(fields[k].value);
      }
      assert NormalFields(s) == s;
      SortUnique(s, p);
    case _ =>
  }

  /** Two values share their canonical text exactly when they are equal up to the order of members. */
  lemma CanonIdentifies(v: Json, w: Json)
    requires Wellformed(v) && Wellformed(w)
    ensures Canon(v) == Canon(w) <==> Same(v, w)
  {
    if Canon(v) == Canon(w) {
      ReadUndoesCanon(v);
      ReadUndoesCanon(w);
      NormalizesSame(v, w);
    }
    if Same(v, w) {
      SameNormalizes(v, w);
      CanonWrites(v);
      CanonWrites(w);
    }
  }

  /** Printing what a canonical text reads as gives the text back. */
  lemma CanonUndoesRead(v: Json)
    requires Wellformed(v)
    ensures Read(Canon(v)).Some? && Canon(Read(Canon(v)).value) == Canon(v)
  {
    ReadUndoesCanon(v);
    CanonWrites(v);
    CanonWrites(Normalize(v));
    NormalizeTwice(v);
  }
}
