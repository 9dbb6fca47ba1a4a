/** The serializer on an arbitrary finite object graph: shared nodes are printed each time they are
    met, cycles and unsupported values are refused. */
module JsonGraph {
  import opened Texts
  import opened JsonText
  import opened CanonicalJson

  type Ref = nat

  /** A value as the serializer meets it; `Unsupported` covers undefined, bigint, symbol and
      functions, `NonFinite` covers NaN and the infinities. */
  datatype Value =
    | NullValue
    | BoolValue(truth: bool)
    | NumberValue(n: int)
    | NonFinite
    | TextValue(text: Text)
    | Unsupported
    | Reference(ref: Ref)

  /** `Exotic` is an object that is neither an array nor plain. */
  datatype Node =
    | ArrayNode(items: seq<Value>)
    | PlainNode(fields: seq<Field<Value>>, symbols: bool)
    | Exotic

  type Heap = map<Ref, Node>

  function Children(node: Node): seq<Value> {
    match node
    case ArrayNode(items) => items
    case PlainNode(fields, _) => seq(|fields|, i requires 0 <= i < |fields| => fields[i].value)
    case Exotic => []
  }

  predicate InHeap(heap: Heap, v: Value) {
    v.Reference? ==> v.ref in heap
  }

  /** References lead to objects, and an object has one member per key. */
  predicate Closed(heap: Heap) {
    forall r | r in heap ::
      && (forall i | 0 <= i < |Children(heap[r])| :: InHeap(heap, Children(heap[r])[i]))
      && (heap[r].PlainNode? ==> DistinctKeys(heap[r].fields))
  }

  /** The node itself can be printed, whatever its children. */
  predicate Printable(node: Node) {
    match node
    case ArrayNode(_) => true
    case PlainNode(fields, symbols) => !symbols && forall i | 0 <= i < |fields| :: Paired(fields[i].key)
    case Exotic => false
  }

  predicate BadLeaf(heap: Heap, v: Value)
    requires InHeap(heap, v)
  {
    match v
    case NonFinite => true
    case Unsupported => true
    case TextValue(t) => !Paired(t)
    case Reference(r) => !Printable(heap[r])
    case _ => false
  }

  // ---- the tree that a value unfolds to ----

  function Unfold(heap: Heap, v: Value, ancestors: set<Ref>): (r: Option<Json>)
    requires Closed(heap) && InHeap(heap, v)
    decreases heap.Keys - ancestors, 1, 0
  {
    match v
    case NullValue => Some(Null)
    case BoolValue(b) => Some(Bool(b))
    case NumberValue(n) => Some(Number(n))
    case TextValue(t) => if Paired(t) then Some(Str(t)) else None
    case Reference(r) =>
      if r in ancestors || !Printable(heap[r]) then None
      else
        var inside := UnfoldAll(heap, Children(heap[r]), ancestors + {r});
        if inside.None? then None
        else if heap[r].ArrayNode? then Some(Arr(inside.value))
        else Some(Obj(Label(heap[r].fields, inside.value)))
    case NonFinite => None
    case Unsupported => None
  }

  function UnfoldAll(heap: Heap, vs: seq<Value>, ancestors: set<Ref>): (r: Option<seq<Json>>)
    requires Closed(heap) && forall i | 0 <= i < |vs| :: InHeap(heap, vs[i])
    ensures r.Some? ==> |r.value| == |vs|
    decreases heap.Keys - ancestors, 2, |vs|
  {
    if vs == [] then Some([])
    else
      match Unfold(heap, vs[0], ancestors)
      case None => None
      case Some(first) =>
        match UnfoldAll(heap, vs[1..], ancestors)
        case None => None
        case Some(rest) => Some([first] + rest)
  }

  function Label(fields: seq<Field<Value>>, values: seq<Json>): (r: seq<Field<Json>>)
    requires |values| == |fields|
    ensures |r| == |fields| && forall i | 0 <= i < |r| :: r[i] == Field(fields[i].key, values[i])
  {
    seq(|fields|, i requires 0 <= i < |fields| => Field(fields[i].key, values[i]))
  }

  lemma {:induction false} UnfoldAllAt(heap: Heap, vs: seq<Value>, ancestors: set<Ref>)
    requires Closed(heap) && forall i | 0 <= i < |vs| :: InHeap(heap, vs[i])
    ensures UnfoldAll(heap, vs, ancestors).Some? <==> forall i | 0 <= i < |vs| :: Unfold(heap, vs[i], ancestors).Some?
    ensures UnfoldAll(heap, vs, ancestors).Some? ==>
              forall i | 0 <= i < |vs| :: Unfold(heap, vs[i], ancestors) == Some(UnfoldAll(heap, vs, ancestors).value[i])
    decreases |vs|
  {
    if vs != [] {
      UnfoldAllAt(heap, vs[1..], ancestors);
      forall i | 0 < i < |vs| ensures vs[i] == vs[1..][i - 1] {
      }
    }
  }

  // ---- the serializer ----

  /** What is printed for a value: the canonical text of its tree. */
  function Printed(heap: Heap, v: Value, ancestors: set<Ref>): Option<Text>
    requires Closed(heap) && InHeap(heap, v)
  {
    match Unfold(heap, v, ancestors)
    case None => None
    case Some(tree) => Some(Canon(tree))
  }

  class Serializer {
    const heap: Heap
    var ancestors: set<Ref>

    constructor (heap: Heap)
      ensures this.heap == heap && ancestors == {}
    {
      this.heap := heap;
      ancestors := {};
    }

    /** Prints the value or refuses it; either way the ancestors are as they were. */
    method Serialize(item: Value) returns (text: Option<Text>)
      requires Closed(heap) && InHeap(heap, item)
      modifies this
      ensures ancestors == old(ancestors)
      ensures text == Printed(heap, item, ancestors)
      decreases heap.Keys - ancestors, 1, 0
    {
      match item {
        case NullValue => return Some(NULL);
        case BoolValue(b) => return Some(if b then TRUE else FALSE);
        case NumberValue(n) => return Some(Decimal(n));
        case NonFinite => return None;
        case Unsupported => return None;
        case TextValue(t) =>
          var valid := AssertValidUnicode(t);
          return if valid then Some(Quote(t)) else None;
        case Reference(r) =>
          if r in ancestors {
            return None;
          }
          ghost var before := ancestors;
          ancestors := ancestors + {r};
          match heap[r] {
            case ArrayNode(items) => text := SerializeArray(r);
            case PlainNode(fields, symbols) =>
              if symbols {
                text := None;
              } else {
                text := SerializeObject(r);
              }
            case Exotic => text := None;
          }
          ancestors := ancestors - {r};
          assert ancestors == before;
      }
    }

    method SerializeArray(r: Ref) returns (text: Option<Text>)
      requires Closed(heap) && r in heap && heap[r].ArrayNode? && r in ancestors
      modifies this
      ensures ancestors == old(ancestors)
      ensures match UnfoldAll(heap, Children(heap[r]), ancestors)
              case None => text == None
              case Some(values) => text == Some(Canon(Arr(values)))
      decreases heap.Keys - ancestors, 3, 0
    {
      var items := heap[r].items;
      assert items == Children(heap[r]);
      var entries: seq<Text> := [];
      UnfoldAllAt(heap, items, ancestors);
      for index := 0 to |items|
        invariant ancestors == old(ancestors) && |entries| == index
        invariant forall i | 0 <= i < index :: Printed(heap, items[i], ancestors) == Some(entries[i])
      {
        var entry := Serialize(items[index]);
        if entry.None? {
          return None;
        }
        entries := entries + [entry.value];
      }
      ghost var values := UnfoldAll(heap, items, ancestors).value;
      assert CanonItems(values) == entries;
      return Some([LBRACKET] + Join(entries) + [RBRACKET]);
    }

    method SerializeObject(r: Ref) returns (text: Option<Text>)
      requires Closed(heap) && r in heap && heap[r].PlainNode? && !heap[r].symbols && r in ancestors
      modifies this
      ensures ancestors == old(ancestors)
      ensures text == ObjectPrinted(heap, r, ancestors)
      decreases heap.Keys - ancestors, 3, 0
    {
      var fields := heap[r].fields;
      var sorted := SortFields(fields);
      SortMembers(fields);
      hide SortFields, ObjectPrinted, Quote, MemberPrinted, InHeap, Closed;
      var entries: seq<Text> := [];
      ghost var printed: seq<Field<Text>> := [];
      for index := 0 to |sorted|
        invariant ancestors == old(ancestors) && |entries| == |printed| == index
        invariant forall i | 0 <= i < index ::
                    MemberPrinted(heap, sorted[i], ancestors, printed[i]) && entries[i] == Quote(printed[i].key) + [COLON] + printed[i].value
      {
        var field := sorted[index];
        assert field in fields;
        MemberInHeap(heap, r, field);
        var value := SerializeMember(field);
        if value.None? {
          MemberRefused(heap, r, ancestors, field);
          return None;
        }
        entries := entries + [Quote(field.key) + [COLON] + value.value];
        printed := printed + [Field(field.key, value.value)];
      }
      SortedPrints(heap, r, ancestors, printed);
      assert Print(printed) == entries;
      return Some([LBRACE] + Join(entries) + [RBRACE]);
    }

    method SerializeMember(field: Field<Value>) returns (value: Option<Text>)
      requires Closed(heap) && InHeap(heap, field.value)
      modifies this
      ensures ancestors == old(ancestors)
      ensures value.Some? ==> MemberPrinted(heap, field, ancestors, Field(field.key, value.value))
      ensures value.None? ==> !Paired(field.key) || Printed(heap, field.value, ancestors).None?
      decreases heap.Keys - ancestors, 2, 0
    {
      var valid := AssertValidUnicode(field.key);
      if !valid {
        return None;
      }
      value := Serialize(field.value);
    }
  }

  /** The member's key can be printed, and its value prints as the text. */
  ghost predicate MemberPrinted(heap: Heap, field: Field<Value>, ancestors: set<Ref>, text: Field<Text>)
    requires Closed(heap)
  {
    InHeap(heap, field.value) && Paired(field.key) && text.key == field.key
    && Printed(heap, field.value, ancestors) == Some(text.value)
  }

  /** What is printed for a plain object once it is itself among the ancestors. */
  function ObjectPrinted(heap: Heap, r: Ref, ancestors: set<Ref>): Option<Text>
    requires Closed(heap) && r in heap && heap[r].PlainNode?
  {
    match UnfoldAll(heap, Children(heap[r]), ancestors)
    case None => None
    case Some(values) => if Printable(heap[r]) then Some(Canon(Obj(Label(heap[r].fields, values)))) else None
  }

  lemma MemberInHeap(heap: Heap, r: Ref, field: Field<Value>)
    requires Closed(heap) && r in heap && heap[r].PlainNode? && field in heap[r].fields
    ensures InHeap(heap, field.value)
  {
    var k :| 0 <= k < |heap[r].fields| && heap[r].fields[k] == field;
    assert Children(heap[r])[k] == field.value;
  }

  /** One member that cannot be printed refuses the whole object. */
  lemma MemberRefused(heap: Heap, r: Ref, ancestors: set<Ref>, field: Field<Value>)
    requires Closed(heap) && r in heap && heap[r].PlainNode? && field in heap[r].fields && InHeap(heap, field.value)
    requires !Paired(field.key) || Printed(heap, field.value, ancestors).None?
    ensures ObjectPrinted(heap, r, ancestors).None?
  {
    var k :| 0 <= k < |heap[r].fields| && heap[r].fields[k] == field;
    var children := Children(heap[r]);
    assert children[k] == field.value;
    UnfoldAllAt(heap, children, ancestors);
    hide UnfoldAll, Unfold, Canon, Paired;
  }

  /** Printing the members in key order prints the canonical text of the unfolded object. */
  lemma SortedPrints(heap: Heap, r: Ref, ancestors: set<Ref>, printed: seq<Field<Text>>)
    requires Closed(heap) && r in heap && heap[r].PlainNode? && !heap[r].symbols
    requires var sorted := SortFields(heap[r].fields);
             |printed| == |sorted| && forall i | 0 <= i < |sorted| :: MemberPrinted(heap, sorted[i], ancestors, printed[i])
    ensures ObjectPrinted(heap, r, ancestors) == Some([LBRACE] + Join(Print(printed)) + [RBRACE])
  {
    var fields, children := heap[r].fields, Children(heap[r]);
    var sorted := SortFields(fields);
    SortMembers(fields);
    UnfoldAllAt(heap, children, ancestors);
    hide SortFields, Unfold, UnfoldAll, Join, Print;
    forall k | 0 <= k < |fields|
      ensures Paired(fields[k].key) && Unfold(heap, children[k], ancestors).Some?
    {
      assert fields[k] in sorted;
      var i :| 0 <= i < |sorted| && sorted[i] == fields[k];
      assert MemberPrinted(heap, sorted[i], ancestors, printed[i]);
      assert children[k] == sorted[i].value;
    }
    var values := UnfoldAll(heap, children, ancestors).value;
    var texts := CanonFields(Label(fields, values));
    var rel := (v: Value, t: Text) => InHeap(heap, v) && Printed(heap, v, ancestors) == Some(t);
    forall k | 0 <= k < |fields|
      ensures fields[k].key == texts[k].key && rel(fields[k].value, texts[k].value)
    {
      assert children[k] == fields[k].value;
    }
    SortRelates(fields, texts, rel);
    assert SortFields(texts) == printed;
  }

  // ---- what is refused ----

  /** A walk from a value through references. */
  predicate Path(heap: Heap, p: seq<Value>) {
    && p != [] && (forall i | 0 <= i < |p| :: InHeap(heap, p[i]))
    && (forall i | 0 <= i < |p| - 1 :: p[i].Reference? && p[i + 1] in Children(heap[p[i].ref]))
  }

  /** The walk comes back to a reference it has already passed. */
  predicate Cyclic(p: seq<Value>) {
    exists i, j | 0 <= i < j < |p| :: p[i].Reference? && p[i] == p[j]
  }

  /** The last value of the walk cannot be printed, or is an ancestor or an earlier stop. */
  predicate DeadEnd(heap: Heap, p: seq<Value>, ancestors: set<Ref>)
    requires Path(heap, p)
  {
    var last := p[|p| - 1];
    BadLeaf(heap, last) || (last.Reference? && (last.ref in ancestors || last in p[..|p| - 1]))
  }

  lemma {:induction false} DeadEndRefuses(heap: Heap, p: seq<Value>, ancestors: set<Ref>)
    requires Closed(heap) && Path(heap, p) && DeadEnd(heap, p, ancestors)
    ensures Unfold(heap, p[0], ancestors).None?
    decreases |p|
  {
    if |p| > 1 {
      var r, last := p[0].ref, p[|p| - 1];
      if r !in ancestors && Printable(heap[r]) {
        var inner := ancestors + {r};
        assert Path(heap, p[1..]);
        assert DeadEnd(heap, p[1..], inner) by {
          if last.Reference? && last in p[..|p| - 1] && last != p[0] {
            var i :| 0 <= i < |p| - 1 && p[i] == last;
            assert p[1..][i - 1] == last;
          }
        }
        DeadEndRefuses(heap, p[1..], inner);
        UnfoldAllAt(heap, Children(heap[r]), inner);
      }
    }
  }

  lemma {:induction false} RefusalHasDeadEnd(heap: Heap, v: Value, ancestors: set<Ref>) returns (p: seq<Value>)
    requires Closed(heap) && InHeap(heap, v) && Unfold(heap, v, ancestors).None?
    ensures Path(heap, p) && p[0] == v && DeadEnd(heap, p, ancestors)
    decreases heap.Keys - ancestors
  {
    p := [v];
    if !BadLeaf(heap, v) && v.ref !in ancestors {
      var r, children := v.ref, Children(heap[v.ref]);
      var inner := ancestors + {r};
      UnfoldAllAt(heap, children, inner);
      var i :| 0 <= i < |children| && Unfold(heap, children[i], inner).None?;
      var rest := RefusalHasDeadEnd(heap, children[i], inner);
      p := [v] + rest;
      var last := rest[|rest| - 1];
      assert p[..|p| - 1] == [v] + rest[..|rest| - 1];
      assert p[|p| - 1] == last;
      assert last.Reference? && last.ref == r ==> last == v && v in p[..|p| - 1];
    }
  }

  /** A value is refused exactly when a cycle or something unsupported can be reached from it; every
      other finite graph is printed as the canonical text of its tree. */
  lemma RefusesExactly(heap: Heap, v: Value)
    requires Closed(heap) && InHeap(heap, v)
    ensures Printed(heap, v, {}).None? <==>
              exists p: seq<Value> :: Path(heap, p) && p[0] == v && (BadLeaf(heap, p[|p| - 1]) || Cyclic(p))
  {
    if Printed(heap, v, {}).None? {
      var p := RefusalHasDeadEnd(heap, v, {});
      var last := p[|p| - 1];
      if !BadLeaf(heap, last) {
        var i :| 0 <= i < |p| - 1 && p[i] == last;
        assert Cyclic(p);
      }
    }
    forall p: seq<Value> | Path(heap, p) && p[0] == v && (BadLeaf(heap, p[|p| - 1]) || Cyclic(p))
      ensures Printed(heap, v, {}).None?
    {
      if BadLeaf(heap, p[|p| - 1]) {
        DeadEndRefuses(heap, p, {});
      } else {
        var i, j :| 0 <= i < j < |p| && p[i].Reference? && p[i] == p[j];
        var q := p[..j + 1];
        assert q[..|q| - 1][i] == p[j];
        assert Path(heap, q);
        DeadEndRefuses(heap, q, {});
      }
    }
  }

  /** The tree of a printed value has one member per key, so its text can be read back. */
  lemma {:induction false} UnfoldWellformed(heap: Heap, v: Value, ancestors: set<Ref>)
    requires Closed(heap) && InHeap(heap, v) && Unfold(heap, v, ancestors).Some?
    ensures Wellformed(Unfold(heap, v, ancestors).value)
    decreases heap.Keys - ancestors
  {
    if v.Reference? {
      var children, inner := Children(heap[v.ref]), ancestors + {v.ref};
      UnfoldAllAt(heap, children, inner);
      forall i | 0 <= i < |children| ensures Wellformed(UnfoldAll(heap, children, inner).value[i]) {
        UnfoldWellformed(heap, children[i], inner);
      }
    }
  }

  /** Reading a printed graph gives its tree, with members in canonical order. */
  lemma PrintedReadsBack(heap: Heap, v: Value)
    requires Closed(heap) && InHeap(heap, v) && Printed(heap, v, {}).Some?
    ensures Read(Printed(heap, v, {}).value) == Some(Normalize(Unfold(heap, v, {}).value))
  {
    UnfoldWellformed(heap, v, {});
    ReadUndoesCanon(Unfold(heap, v, {}).value);
  }
}
