/** Text as the source holds it: a sequence of UTF-16 code units, compared the way
    `Array.prototype.sort` compares strings, that is code unit by code unit. */
module Texts {
  type CodeUnit = c: int | 0 <= c < 0x1_0000

  type Text = seq<CodeUnit>

  datatype Option<+T> = None | Some(value: T)

  /** The text of an ASCII literal. */
  function Ascii(s: string): (t: Text)
    requires forall i | 0 <= i < |s| :: s[i] as int < 0x80
    ensures |t| == |s|
  {
    seq(|s|, i requires 0 <= i < |s| => s[i] as int)
  }

  /** Strict lexicographic order on code units; a proper prefix comes first. */
  predicate Less(a: Text, b: Text) {
    if b == [] then false
    else if a == [] then true
    else if a[0] != b[0] then a[0] < b[0]
    else Less(a[1..], b[1..])
  }

  /** Said without recursion: a is a proper prefix of b, or has the smaller code unit at the first
      place where they differ. */
  ghost predicate Sooner(a: Text, b: Text) {
    || (|a| < |b| && b[..|a|] == a)
    || exists k :: DiffersAt(a, b, k) && a[k] < b[k]
  }

  predicate DiffersAt(a: Text, b: Text, k: int) {
    0 <= k < |a| && k < |b| && a[..k] == b[..k] && a[k] != b[k]
  }

  lemma {:induction false} LessIsSooner(a: Text, b: Text)
    ensures Less(a, b) <==> Sooner(a, b)
  {
    if a != [] && b != [] {
      if a[0] == b[0] {
        LessIsSooner(a[1..], b[1..]);
        assert a == [a[0]] + a[1..] && b == [b[0]] + b[1..];
        SoonerAfter(a[0], a[1..], b[1..]);
      } else {
        assert DiffersAt(a, b, 0);
        assert forall k :: DiffersAt(a, b, k) ==> k == 0 by {
          forall k | DiffersAt(a, b, k) ensures k == 0 { if k > 0 { StartAlike(a, b, k); } }
        }
        assert |a| < |b| ==> b[..|a|][0] != a[0];
      }
    }
  }

  lemma StartAlike(a: Text, b: Text, k: nat)
    requires 0 < k <= |a| && k <= |b| && a[..k] == b[..k]
    ensures a[0] == b[0]
  {
    assert a[..k][0] == b[..k][0];
  }

  /** One more code unit in front of both. */
  lemma SoonerAfter(c: CodeUnit, a: Text, b: Text)
    ensures Sooner([c] + a, [c] + b) <==> Sooner(a, b)
  {
    var x, y := [c] + a, [c] + b;
    assert |a| < |b| ==> y[..|x|] == [c] + b[..|a|];
    assert x[1..] == a && y[1..] == b;
    if Sooner(a, b) && !(|a| < |b| && b[..|a|] == a) {
      var k :| DiffersAt(a, b, k) && a[k] < b[k];
      assert x[..k + 1] == [c] + a[..k] && y[..k + 1] == [c] + b[..k];
      assert DiffersAt(x, y, k + 1);
    }
    if Sooner(x, y) && !(|x| < |y| && y[..|x|] == x) {
      var k :| DiffersAt(x, y, k) && x[k] < y[k];
      assert x[..k][1..] == a[..k - 1] && y[..k][1..] == b[..k - 1];
      assert DiffersAt(a, b, k - 1);
    }
  }

  lemma {:induction false} LessIrreflexive(a: Text)
    ensures !Less(a, a)
  {
    if a != [] {
      LessIrreflexive(a[1..]);
    }
  }

  lemma {:induction false} LessTotal(a: Text, b: Text)
    ensures a == b || Less(a, b) || Less(b, a)
  {
    if a != [] && b != [] && a[0] == b[0] {
      LessTotal(a[1..], b[1..]);
      assert a == [a[0]] + a[1..] && b == [b[0]] + b[1..];
    }
  }

  lemma {:induction false} LessTransitive(a: Text, b: Text, c: Text)
    requires Less(a, b) && Less(b, c)
    ensures Less(a, c)
  {
    if a != [] && a[0] == b[0] && b[0] == c[0] {
      LessTransitive(a[1..], b[1..], c[1..]);
    }
  }

  lemma LessAsymmetric(a: Text, b: Text)
    requires Less(a, b)
    ensures !Less(b, a) && a != b
  {
    LessIrreflexive(a);
    if Less(b, a) {
      LessTransitive(a, b, a);
    }
  }
}
