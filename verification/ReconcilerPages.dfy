/** The circular keyset pages of the provenance reconciler: each pass reads the next rows after a
    stored cursor, wraps around, and stores its last row as the next cursor. */
module ReconcilerPages {
  import opened Texts

  /** What a page is ordered by; a due row is known by it. */
  datatype Key = Key(epoch: int, id: Text)

  predicate Precedes(a: Key, b: Key) {
    a.epoch < b.epoch || (a.epoch == b.epoch && Less(a.id, b.id))
  }

  lemma Trichotomy(a: Key, b: Key)
    ensures a == b || Precedes(a, b) || Precedes(b, a)
    ensures !Precedes(a, a) && !(Precedes(a, b) && Precedes(b, a))
  {
    LessTotal(a.id, b.id);
    LessIrreflexive(a.id);
    if Less(a.id, b.id) {
      LessAsymmetric(a.id, b.id);
    }
  }

  lemma Transitive(a: Key, b: Key, c: Key)
    requires Precedes(a, b) && Precedes(b, c)
    ensures Precedes(a, c)
  {
    if Less(a.id, b.id) && Less(b.id, c.id) {
      LessTransitive(a.id, b.id, c.id);
    }
  }

  /** The due rows in the order of the query, each once. */
  predicate Ascending(rows: seq<Key>) {
    forall i, j | 0 <= i < j < |rows| :: Precedes(rows[i], rows[j])
  }

  type Cursor = Option<Key>

  predicate After(cursor: Cursor, y: Key) {
    cursor.None? || Precedes(cursor.value, y)
  }

  /** The rows above the cursor, or those up to it. */
  function Side(due: seq<Key>, cursor: Cursor, above: bool): seq<Key> {
    if due == [] then []
    else (if After(cursor, due[0]) == above then [due[0]] else []) + Side(due[1..], cursor, above)
  }

  function Limit(rows: seq<Key>, limit: nat): (r: seq<Key>)
    ensures |r| <= limit && |r| <= |rows| && r == rows[..|r|] && (|r| < limit ==> r == rows)
  {
    if |rows| <= limit then rows else rows[..limit]
  }

  lemma {:induction false} SideRows(due: seq<Key>, cursor: Cursor, above: bool)
    requires Ascending(due)
    ensures Ascending(Side(due, cursor, above))
    ensures forall y :: y in Side(due, cursor, above) <==> y in due && After(cursor, y) == above
  {
    hide Precedes, After;
    if due != [] {
      var rest := Side(due[1..], cursor, above);
      SideRows(due[1..], cursor, above);
      assert due == [due[0]] + due[1..];
      forall j | 0 <= j < |rest| ensures Precedes(due[0], rest[j]) {
        assert rest[j] in rest;
      }
    }
  }

  /** The page: the rows above the cursor and, when they do not fill it, rows from the start up to
      the cursor, by then read from what is still due. */
  function Page(due: seq<Key>, later: seq<Key>, cursor: Cursor, limit: nat): seq<Key> {
    var first := Limit(Side(due, cursor, true), limit);
    if cursor.None? || |first| == limit then first else first + Limit(Side(later, cursor, false), limit - |first|)
  }

  method LoadPage(due: seq<Key>, later: seq<Key>, cursor: Cursor, limit: nat) returns (rows: seq<Key>)
    requires Ascending(due) && Ascending(later)
    ensures rows == Page(due, later, cursor, limit)
    ensures forall i, j | 0 <= i < j < |rows| :: rows[i] != rows[j]
    ensures |rows| <= limit && forall y | y in rows :: y in due || y in later
  {
    PageDistinct(due, later, cursor, limit);
    rows := Limit(Side(due, cursor, true), limit);
    if cursor.None? {
      return;
    }
    if |rows| < limit {
      var wrapped := Limit(Side(later, cursor, false), limit - |rows|);
      rows := rows + wrapped;
    }
  }

  lemma AscendingDistinct(rows: seq<Key>)
    requires Ascending(rows)
    ensures forall i, j | 0 <= i < j < |rows| :: rows[i] != rows[j]
  {
    forall i, j | 0 <= i < j < |rows| ensures rows[i] != rows[j] { Trichotomy(rows[i], rows[j]); }
  }

  /** No page holds a row twice. */
  lemma PageDistinct(due: seq<Key>, later: seq<Key>, cursor: Cursor, limit: nat)
    requires Ascending(due) && Ascending(later)
    ensures var p := Page(due, later, cursor, limit);
            && (forall i, j | 0 <= i < j < |p| :: p[i] != p[j])
            && |p| <= limit && forall y | y in p :: y in due || y in later
  {
    SideRows(due, cursor, true);
    SideRows(later, cursor, false);
    var a, b := Side(due, cursor, true), Side(later, cursor, false);
    AscendingDistinct(a);
    AscendingDistinct(b);
    hide Side, Precedes, After, Ascending;
    var p, first := Page(due, later, cursor, limit), Limit(a, limit);
    forall i, j | 0 <= i < j < |p|
      ensures p[i] != p[j]
    {
      if i < |first| <= j {
        assert p[i] in a && p[j] in b;
      }
    }
  }

  // ---- every row that stays due is reached ----

  /** Going up from just after the cursor and around, y comes no later than x. */
  predicate InArc(cursor: Cursor, y: Key, x: Key) {
    if After(cursor, x) then After(cursor, y) && !Precedes(x, y)
    else After(cursor, y) || !Precedes(x, y)
  }

  function Arc(due: seq<Key>, cursor: Cursor, x: Key): set<Key> {
    set y | y in due && InArc(cursor, y, x)
  }

  lemma InPrefix(rows: seq<Key>, k: nat, i: nat)
    requires k <= |rows| && i < |rows|
    ensures i < k ==> rows[i] in rows[..k]
  {
    if i < k {
      assert rows[..k][i] == rows[i];
    }
  }

  lemma LimitAscending(rows: seq<Key>, limit: nat, x: Key)
    requires Ascending(rows) && x in rows && x !in Limit(rows, limit)
    ensures |Limit(rows, limit)| == limit && forall y | y in Limit(rows, limit) :: Precedes(y, x)
  {
    var i :| 0 <= i < |rows| && rows[i] == x;
    hide Precedes;
    InPrefix(rows, |Limit(rows, limit)|, i);
  }

  /** A due row that a page leaves out: the page is full, and all of it comes before that row. */
  lemma MissedIsLater(due: seq<Key>, later: seq<Key>, cursor: Cursor, limit: nat, x: Key)
    requires Ascending(due) && Ascending(later) && (forall y | y in later :: y in due)
    requires x in later && x !in Page(due, later, cursor, limit)
    ensures var p := Page(due, later, cursor, limit);
            |p| == limit && forall y | y in p :: y in due && InArc(cursor, y, x) && y != x
  {
    SideRows(due, cursor, true);
    SideRows(later, cursor, false);
    var a, b := Side(due, cursor, true), Side(later, cursor, false);
    hide Side;
    if After(cursor, x) {
      LimitAscending(a, limit, x);
      forall y | y in Limit(a, limit) ensures InArc(cursor, y, x) { Trichotomy(x, y); }
    } else if |Limit(a, limit)| < limit {
      LimitAscending(b, limit - |Limit(a, limit)|, x);
      forall y | y in b && Precedes(y, x) ensures InArc(cursor, y, x) { Trichotomy(x, y); }
    }
  }

  lemma LastOfFirst(due: seq<Key>, cursor: Cursor, limit: nat, y: Key)
    requires Ascending(due)
    requires y in Limit(Side(due, cursor, true), limit)
    ensures var p := Limit(Side(due, cursor, true), limit);
            InArc(cursor, y, p[|p| - 1])
  {
    var a := Side(due, cursor, true);
    var first := Limit(a, limit);
    SideRows(due, cursor, true);
    assert Ascending(first);
    LastOfAscending(first, y);
    Trichotomy(y, first[|first| - 1]);
    assert After(cursor, y) && After(cursor, first[|first| - 1]);
  }

  lemma LastOfWrapped(later: seq<Key>, cursor: Cursor, limit: nat, y: Key)
    requires Ascending(later)
    requires var p := Limit(Side(later, cursor, false), limit);
             p != [] && (y in p || After(cursor, y))
    ensures var p := Limit(Side(later, cursor, false), limit);
            InArc(cursor, y, p[|p| - 1])
  {
    var b := Side(later, cursor, false);
    var second := Limit(b, limit);
    SideRows(later, cursor, false);
    assert Ascending(second);
    assert !After(cursor, second[|second| - 1]) by { assert second[|second| - 1] in b; }
    if y in second {
      LastOfAscending(second, y);
      Trichotomy(y, second[|second| - 1]);
    }
  }

  /** The rows of a page come no later than its last one. */
  lemma LastIsLatest(due: seq<Key>, later: seq<Key>, cursor: Cursor, limit: nat, y: Key)
    requires Ascending(due) && Ascending(later)
    requires y in Page(due, later, cursor, limit)
    ensures var p := Page(due, later, cursor, limit);
            InArc(cursor, y, p[|p| - 1])
  {
    var p := Page(due, later, cursor, limit);
    var first := Limit(Side(due, cursor, true), limit);
    if p == first {
      LastOfFirst(due, cursor, limit, y);
    } else {
      var second := Limit(Side(later, cursor, false), limit - |first|);
      assert p == first + second;
      hide Side, Limit, Page;
      if y in first { FirstIsAfter(due, cursor, limit, y); }
      hide Precedes, InArc, Ascending, After;
      assert second != [] && p[|p| - 1] == second[|second| - 1];
      LastOfWrapped(later, cursor, limit - |first|, y);
    }
  }

  lemma FirstIsAfter(due: seq<Key>, cursor: Cursor, limit: nat, y: Key)
    requires Ascending(due) && y in Limit(Side(due, cursor, true), limit)
    ensures After(cursor, y)
  {
    SideRows(due, cursor, true);
  }

  lemma LastOfAscending(rows: seq<Key>, y: Key)
    requires Ascending(rows) && y in rows
    ensures y == rows[|rows| - 1] || Precedes(y, rows[|rows| - 1])
  {
  }

  /** What comes up to x from after the new cursor also came up to x from after the old one, and it
      was not on the page. */
  lemma ArcShrinks(cursor: Cursor, last: Key, y: Key, x: Key, page: seq<Key>)
    requires InArc(cursor, last, x) && last != x
    requires forall p | p in page :: InArc(cursor, p, last)
    requires InArc(Some(last), y, x)
    ensures InArc(cursor, y, x) && y !in page
  {
    Trichotomy(last, x);
    Trichotomy(last, y);
    Trichotomy(x, y);
    if Precedes(last, y) && Precedes(y, x) { Transitive(last, y, x); }
    if Precedes(y, x) && Precedes(x, last) { Transitive(y, x, last); }
    if cursor.Some? {
      var c := cursor.value;
      Trichotomy(c, x);
      Trichotomy(c, y);
      Trichotomy(c, last);
      if Precedes(c, last) && Precedes(last, y) { Transitive(c, last, y); }
      if Precedes(c, last) && Precedes(last, x) { Transitive(c, last, x); }
      if Precedes(y, c) && Precedes(c, last) { Transitive(y, c, last); }
      if Precedes(x, c) && Precedes(c, last) { Transitive(x, c, last); }
      if Precedes(x, c) && Precedes(c, y) { Transitive(x, c, y); }
      if Precedes(y, x) && Precedes(x, c) { Transitive(y, x, c); }
      if Precedes(last, x) && Precedes(x, c) { Transitive(last, x, c); }
    }
  }

  lemma SubsetSize(a: set<Key>, b: set<Key>)
    requires a <= b
    ensures |a| <= |b|
  {
    assert b == a + (b - a);
  }

  lemma {:induction false} DistinctSize(rows: seq<Key>)
    requires forall i, j | 0 <= i < j < |rows| :: rows[i] != rows[j]
    ensures |set y | y in rows| == |rows|
  {
    if rows != [] {
      DistinctSize(rows[1..]);
      assert (set y | y in rows) == {rows[0]} + set y | y in rows[1..];
    }
  }

  /** A page that leaves out a row that stays due brings it nearer by a whole page. */
  lemma NearerByAPage(due: seq<Key>, later: seq<Key>, next: seq<Key>, cursor: Cursor, limit: nat, x: Key)
    requires limit > 0 && Ascending(due) && Ascending(later)
    requires (forall y | y in later :: y in due) && (forall y | y in next :: y in later)
    requires x in later && x !in Page(due, later, cursor, limit)
    ensures var p := Page(due, later, cursor, limit);
            |p| == limit && |Arc(next, Some(p[|p| - 1]), x)| + limit <= |Arc(due, cursor, x)|
  {
    var p := Page(due, later, cursor, limit);
    MissedIsLater(due, later, cursor, limit, x);
    PageDistinct(due, later, cursor, limit);
    var last := p[|p| - 1];
    forall y | y in p ensures InArc(cursor, y, last) { LastIsLatest(due, later, cursor, limit, y); }
    var rows := set y | y in p;
    DistinctSize(p);
    forall y | y in Arc(next, Some(last), x)
      ensures y in Arc(due, cursor, x) && y !in rows
    {
      ArcShrinks(cursor, last, y, x, p);
    }
    hide InArc, Page;
    SubsetSize(Arc(next, Some(last), x) + rows, Arc(due, cursor, x));
    assert Arc(next, Some(last), x) * rows == {};
  }

  /** The rows due when a pass starts, and those still due when it wraps around. */
  datatype Pass = Pass(due: seq<Key>, later: seq<Key>)

  predicate Within(a: seq<Key>, b: seq<Key>) {
    forall y | y in a :: y in b
  }

  /** The due rows only ever become fewer, within a pass and from pass to pass. */
  predicate Shrinking(passes: seq<Pass>) {
    && (forall k | 0 <= k < |passes| ::
          Ascending(passes[k].due) && Ascending(passes[k].later) && Within(passes[k].later, passes[k].due))
    && (forall k | 0 < k < |passes| :: Within(passes[k].due, passes[k - 1].later))
  }

  /** The cursor that is stored: the last row of the page, none after an empty one. */
  function NextCursor(page: seq<Key>): Cursor {
    if page == [] then None else Some(page[|page| - 1])
  }

  /** Some pass examines the row. */
  predicate Examined(passes: seq<Pass>, cursor: Cursor, limit: nat, x: Key)
    decreases |passes|
  {
    passes != []
    && var page := Page(passes[0].due, passes[0].later, cursor, limit);
       x in page || Examined(passes[1..], NextCursor(page), limit, x)
  }

  lemma {:induction false} ExaminedInTime(passes: seq<Pass>, cursor: Cursor, limit: nat, x: Key)
    requires limit > 0 && passes != [] && Shrinking(passes)
    requires forall k | 0 <= k < |passes| :: x in passes[k].later
    requires |passes| * limit >= |Arc(passes[0].due, cursor, x)|
    ensures Examined(passes, cursor, limit, x)
    decreases |passes|
  {
    var due, later := passes[0].due, passes[0].later;
    var page := Page(due, later, cursor, limit);
    if x !in page {
      MissedButNearer(passes, cursor, limit, x);
      hide Page, Arc, Ascending;
      ExaminedInTime(passes[1..], NextCursor(page), limit, x);
    }
  }

  lemma MissedButNearer(passes: seq<Pass>, cursor: Cursor, limit: nat, x: Key)
    requires limit > 0 && passes != [] && Shrinking(passes)
    requires forall k | 0 <= k < |passes| :: x in passes[k].later
    requires |passes| * limit >= |Arc(passes[0].due, cursor, x)|
    requires x !in Page(passes[0].due, passes[0].later, cursor, limit)
    ensures var rest := passes[1..];
            && rest != [] && Shrinking(rest) && (forall k | 0 <= k < |rest| :: x in rest[k].later)
            && |rest| * limit >= |Arc(rest[0].due, NextCursor(Page(passes[0].due, passes[0].later, cursor, limit)), x)|
  {
    var due, later := passes[0].due, passes[0].later;
    var page, rest := Page(due, later, cursor, limit), passes[1..];
    var next := if rest == [] then [x] else rest[0].due;
    assert rest != [] ==> next == passes[1].due && x in passes[1].later;
    NearerByAPage(due, later, next, cursor, limit, x);
    Own(next, NextCursor(page), x);
    hide Page, Arc, Ascending;
    Fewer(|passes|, limit);
    assert forall k | 0 <= k < |rest| :: rest[k] == passes[k + 1];
  }

  lemma Own(due: seq<Key>, cursor: Cursor, x: Key)
    requires x in due
    ensures |Arc(due, cursor, x)| >= 1
  {
    Trichotomy(x, x);
    assert x in Arc(due, cursor, x);
  }

  lemma Fewer(k: nat, limit: nat)
    requires k > 0
    ensures k * limit == (k - 1) * limit + limit
  {
  }

  /** From any stored cursor, whether its row still exists or not, a row that stays due is examined
      within the ceiling of n / limit passes, n rows being due at the start. */
  lemma EveryDueRowIsExamined(passes: seq<Pass>, cursor: Cursor, limit: nat, x: Key)
    requires limit > 0 && passes != [] && Shrinking(passes)
    requires forall k | 0 <= k < |passes| :: x in passes[k].later
    requires |passes| >= (|passes[0].due| + limit - 1) / limit
    ensures Examined(passes, cursor, limit, x)
  {
    var n := |passes[0].due|;
    AscendingDistinct(passes[0].due);
    DistinctSize(passes[0].due);
    SubsetSize(Arc(passes[0].due, cursor, x), set y | y in passes[0].due);
    Ceiling(n, limit, |passes|);
    ExaminedInTime(passes, cursor, limit, x);
  }

  lemma Ceiling(n: nat, limit: nat, k: nat)
    requires limit > 0 && k >= (n + limit - 1) / limit
    ensures k * limit >= n
  {
    var q := (n + limit - 1) / limit;
    assert (n + limit - 1) == q * limit + (n + limit - 1) % limit;
    assert q * limit >= n;
    assert k * limit == q * limit + (k - q) * limit;
    Nonnegative(k - q, limit);
  }

  lemma Nonnegative(a: nat, b: nat)
    ensures a * b >= 0
  {
  }
}