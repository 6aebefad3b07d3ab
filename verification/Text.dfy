/** Strings, the order sort.Strings uses, and the sorted listing of a set.

    A string is a sequence of Unicode scalar values.  Comparing scalar values
    position by position gives the same order as comparing the UTF-8 bytes. */
module Text {

  datatype Option<+T> = None | Some(value: T)

  /** unicode.IsSpace. */
  predicate IsSpace(c: char) {
    '\t' <= c <= '\r' || c == ' ' || c == '\U{0085}' || c == '\U{00A0}' || c == '\U{1680}'
    || '\U{2000}' <= c <= '\U{200A}' || c == '\U{2028}' || c == '\U{2029}'
    || c == '\U{202F}' || c == '\U{205F}' || c == '\U{3000}'
  }

  /** The second where the first is empty. */
  function OrElse(s: string, t: string): string { if s != "" then s else t }

  /** Strict lexicographic order. */
  predicate Less(a: string, b: string) {
    b != "" && (a == "" || a[0] < b[0] || (a[0] == b[0] && Less(a[1..], b[1..])))
  }

  lemma LessTotal(a: string, b: string)
    ensures Less(a, b) || a == b || Less(b, a)
  {
    if a != "" && b != "" && a[0] == b[0] {
      LessTotal(a[1..], b[1..]);
      if a[1..] == b[1..] {
        assert a == [a[0]] + a[1..] && b == [b[0]] + b[1..];
      }
    }
  }

  lemma LessTransitive(a: string, b: string, c: string)
    requires Less(a, b) && Less(b, c)
    ensures Less(a, c)
  {
    if a != "" && a[0] == b[0] == c[0] {
      LessTransitive(a[1..], b[1..], c[1..]);
    }
  }

  lemma LessIrreflexive(a: string)
    ensures !Less(a, a)
  {
  }

  lemma LessAsymmetric(a: string, b: string)
    requires Less(a, b)
    ensures !Less(b, a)
  {
    if Less(b, a) {
      LessTransitive(a, b, a);
      LessIrreflexive(a);
    }
  }

  /** At position k, up to which both agree, a ends or has the smaller character. */
  predicate FirstDiffers(a: string, b: string, k: nat) {
    k <= |a| && k < |b| && a[..k] == b[..k] && (k == |a| || a[k] < b[k])
  }

  lemma DifferLater(a: string, b: string, k: nat)
    requires a != "" && b != "" && a[0] == b[0]
    ensures FirstDiffers(a, b, k + 1) <==> FirstDiffers(a[1..], b[1..], k)
  {
    if k + 1 <= |a| && k + 1 <= |b| { assert a[..k + 1] == [a[0]] + a[1..][..k] && b[..k + 1] == [b[0]] + b[1..][..k]; }
  }

  /** A text comes before another exactly if it is a proper prefix of it or has
      the smaller character where they first differ. */
  lemma {:induction false} LessExactlyIf(a: string, b: string)
    ensures Less(a, b) <==> exists k: nat :: FirstDiffers(a, b, k)
  {
    if b != "" {
      if a == "" || a[0] < b[0] {
        assert FirstDiffers(a, b, 0);
      } else if a[0] == b[0] {
        LessExactlyIf(a[1..], b[1..]);
        if k: nat :| FirstDiffers(a[1..], b[1..], k) { DifferLater(a, b, k); }
        if k: nat :| FirstDiffers(a, b, k) { DifferLater(a, b, k - 1); }
      } else {
        assert forall k: nat :: k > 0 && k <= |a| && k < |b| ==> a[..k][0] != b[..k][0];
      }
    }
  }

  ghost predicate StrictlySorted(s: seq<string>) {
    forall i, j :: 0 <= i < j < |s| ==> Less(s[i], s[j])
  }

  ghost predicate IsLeast(m: string, s: set<string>) {
    m in s && forall x :: x in s ==> m == x || Less(m, x)
  }

  lemma LeastExists(s: set<string>)
    requires s != {}
    ensures exists m :: IsLeast(m, s)
  {
    var x :| x in s;
    if s == {x} {
      assert IsLeast(x, s);
    } else {
      LeastExists(s - {x});
      var m :| IsLeast(m, s - {x});
      LessTotal(x, m);
      if Less(x, m) {
        forall y | y in s ensures x == y || Less(x, y) {
          if y != x && y != m { LessTransitive(x, m, y); }
        }
        assert IsLeast(x, s);
      } else {
        assert IsLeast(m, s);
      }
    }
  }

  /** The elements of s in increasing order: what collecting them in any order
      and calling sort.Strings yields. */
  ghost function SortedStrings(s: set<string>): (r: seq<string>)
    ensures forall x :: x in r <==> x in s
  {
    if s == {} then [] else
      LeastExists(s);
      var m :| IsLeast(m, s);
      [m] + SortedStrings(s - {m})
  }

  lemma {:induction false} SortedStringsSorted(s: set<string>)
    ensures StrictlySorted(SortedStrings(s))
  {
    if s != {} {
      LeastExists(s);
      var r := SortedStrings(s);
      var m := r[0];
      assert IsLeast(m, s) && r == [m] + SortedStrings(s - {m});
      SortedStringsSorted(s - {m});
    }
  }

  /** A strictly sorted sequence is determined by its elements. */
  lemma {:induction false} SortedUnique(a: seq<string>, b: seq<string>)
    requires StrictlySorted(a) && StrictlySorted(b)
    requires forall x :: x in a <==> x in b
    ensures a == b
  {
    assert b != [] ==> b[0] in b;
    if a != [] {
      assert a[0] in b;
      assert b[0] in a;
      var i :| 0 <= i < |a| && a[i] == b[0];
      var j :| 0 <= j < |b| && b[j] == a[0];
      assert a[0] == b[0] by {
        LessTotal(a[0], b[0]);
        if Less(a[0], b[0]) { LessAsymmetric(a[0], b[0]); LessIrreflexive(a[0]); }
        if Less(b[0], a[0]) { LessAsymmetric(b[0], a[0]); LessIrreflexive(b[0]); }
      }
      forall x ensures x in a[1..] <==> x in b[1..] {
        if x in a[1..] { assert x in b; LessIrreflexive(x); }
        if x in b[1..] { assert x in a; LessIrreflexive(x); }
      }
      SortedUnique(a[1..], b[1..]);
      assert a == [a[0]] + a[1..] && b == [b[0]] + b[1..];
    }
  }

  lemma {:induction false} SortedLength(s: set<string>)
    ensures |SortedStrings(s)| == |s|
  {
    if s != {} {
      var r := SortedStrings(s);
      assert r[0] in s;
      SortedLength(s - {r[0]});
    }
  }

  /** sort.Strings over distinct strings met in any order. */
  method Sort(s: set<string>) returns (r: seq<string>)
    ensures r == SortedStrings(s)
  {
    r := [];
    var rest := s;
    while rest != {}
      invariant rest <= s && StrictlySorted(r)
      invariant forall x :: x in r <==> x in s && x !in rest
      invariant forall x, y :: x in r && y in rest ==> Less(x, y)
      decreases rest
    {
      LeastExists(rest);
      var k :| k in rest && forall x :: x in rest ==> k == x || Less(k, x);
      r := r + [k];
      rest := rest - {k};
    }
    SortedStringsSorted(s);
    SortedUnique(r, SortedStrings(s));
  }
}
