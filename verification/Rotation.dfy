/** Rotating lists by week number: the calibration recheck and the sentinel selection. */
module Rotation {
  import opened Text

  /** The remainder that truncates toward zero. */
  function GoRemainder(a: int, n: int): int
    requires n > 0
  {
    if a >= 0 then a % n else -((-a) % n)
  }

  function Rotate<T>(s: seq<T>, offset: int): seq<T> {
    if s == [] then s else
      var r := GoRemainder(offset, |s|);
      var o := if r < 0 then r + |s| else r;
      s[o..] + s[..o]
  }

  // -------------------------------------------------------- modular arithmetic

  lemma Grows(d: int, n: int)
    requires n > 0
    ensures d >= 1 ==> d * n >= n
    ensures d <= -1 ==> d * n <= -n
  {
    if d >= 1 { assert (d - 1) * n >= 0; }
    if d <= -1 { assert (-d - 1) * n >= 0; }
  }

  lemma ModIs(x: int, n: int, q: int, r: int)
    requires n > 0 && x == q * n + r && 0 <= r < n
    ensures x % n == r
  {
    var p := x / n;
    assert x == p * n + x % n;
    assert (q - p) * n == q * n - p * n;
    Grows(q - p, n);
  }

  lemma ModShift(x: int, k: int, n: int)
    requires n > 0
    ensures (x % n + k) % n == (x + k) % n
  {
    var y := x % n + k;
    ModIs(x + k, n, x / n + y / n, y % n);
  }

  lemma GoRemainderIs(a: int, n: int)
    requires n > 0
    ensures a % n == if GoRemainder(a, n) < 0 then GoRemainder(a, n) + n else GoRemainder(a, n)
  {
    if a < 0 {
      var m := (-a) % n;
      if m == 0 {
        ModIs(a, n, -((-a) / n), 0);
      } else {
        ModIs(a, n, -((-a) / n) - 1, n - m);
      }
    }
  }

  // --------------------------------------------------------------- rotation laws

  lemma RotateAt<T>(s: seq<T>, offset: int, k: nat)
    requires k < |s|
    ensures |Rotate(s, offset)| == |s| && Rotate(s, offset)[k] == s[(k + offset) % |s|]
  {
    var n := |s|;
    var o := offset % n;
    GoRemainderIs(offset, n);
    assert Rotate(s, offset) == s[o..] + s[..o];
    ModShift(offset, k, n);
    if k + o < n { ModIs(o + k, n, 0, k + o); } else { ModIs(o + k, n, 1, k + o - n); }
  }

  lemma ShiftTwice(k: int, a: int, b: int, n: int)
    requires n > 0
    ensures ((k + b) % n + a) % n == (k + (a + b)) % n
  {
    ModShift(k + b, a, n);
    assert k + b + a == k + (a + b);
  }

  /** t is s turned a places to the left. */
  ghost predicate IsRotation<T>(s: seq<T>, t: seq<T>, a: int) {
    |t| == |s| && forall k :: 0 <= k < |s| ==> t[k] == s[(k + a) % |s|]
  }

  lemma RotateIs<T>(s: seq<T>, a: int)
    ensures IsRotation(s, Rotate(s, a), a)
  {
    if s != [] { RotateAt(s, a, 0); }
    forall k | 0 <= k < |s| ensures Rotate(s, a)[k] == s[(k + a) % |s|] { RotateAt(s, a, k); }
  }

  lemma RotationsCompose<T>(s: seq<T>, t: seq<T>, u: seq<T>, v: seq<T>, a: int, b: int)
    requires IsRotation(s, t, a) && IsRotation(t, u, b) && IsRotation(s, v, a + b)
    ensures u == v
  {
    forall k | 0 <= k < |s| ensures u[k] == v[k] {
      assert u[k] == t[(k + b) % |s|];
      ShiftTwice(k, a, b, |s|);
    }
  }

  /** Rotating twice is rotating by the sum, whatever the signs. */
  lemma RotateCompose<T>(s: seq<T>, a: int, b: int)
    ensures Rotate(Rotate(s, a), b) == Rotate(s, a + b)
  {
    RotateIs(s, a);
    RotateIs(Rotate(s, a), b);
    RotateIs(s, a + b);
    RotationsCompose(s, Rotate(s, a), Rotate(Rotate(s, a), b), Rotate(s, a + b), a, b);
  }

  lemma RotatePermutes<T>(s: seq<T>, a: int)
    ensures multiset(Rotate(s, a)) == multiset(s)
  {
    if s != [] {
      var o := a % |s|;
      GoRemainderIs(a, |s|);
      assert s == s[..o] + s[o..];
    }
  }

  // -------------------------------------------------------------------- recheck

  function Least(n: nat, m: nat): nat { if n > m then m else n }

  /** The calibration items a recheck of n items grades in a given week: n in a
      row, wrapping around, from the week's position on. */
  function RecheckItems<T>(items: seq<T>, week: nat, n: nat): seq<T>
    requires items != []
  {
    seq(Least(n, |items|), k requires 0 <= k => items[(week + k) % |items|])
  }

  lemma RotatedPrefix<T>(items: seq<T>, week: nat, n: nat)
    requires items != []
    ensures var offset := week % |items|;
      (items[offset..] + items[..offset])[..Least(n, |items|)] == RecheckItems(items, week, n)
  {
    var len, o := |items|, week % |items|;
    var ordered := items[o..] + items[..o];
    forall k | 0 <= k < Least(n, len) ensures ordered[k] == items[(week + k) % len] {
      ModShift(week, k, len);
      if o + k < len { ModIs(o + k, len, 0, o + k); } else { ModIs(o + k, len, 1, o + k - len); }
    }
  }

  /** The selection of a recheck; None refuses a count below one or an empty list. */
  method Recheck<T>(items: seq<T>, week: nat, n: int) returns (chosen: Option<seq<T>>)
    ensures chosen.Some? <==> n > 0 && items != []
    ensures chosen.Some? ==> chosen.value == RecheckItems(items, week, n)
    ensures chosen.Some? ==> |chosen.value| == (if n > |items| then |items| else n)
    ensures chosen.Some? ==> forall k :: 0 <= k < |chosen.value| ==> chosen.value[k] == items[(week + k) % |items|]
  {
    if n <= 0 || |items| == 0 { return None; }
    var offset := week % |items|;
    var ordered := items[offset..] + items[..offset];
    var count := n;
    if count > |ordered| { count := |ordered|; }
    RotatedPrefix(items, week, n);
    return Some(ordered[..count]);
  }

  /** How far c - i is above a multiple of len. */
  function Turn(c: int, i: int, len: nat): nat
    requires len > 0
  {
    (c - i) % len
  }

  /** Item j of len is among the first n in a given week. */
  predicate Chosen(len: nat, week: int, n: nat, j: int)
    requires len > 0
  {
    Turn(j, week, len) < n
  }

  /** The k-th item of a week's selection has its turn. */
  lemma SelectedHasTurn(len: nat, week: nat, n: nat, k: nat)
    requires k < Least(n, len)
    ensures Chosen(len, week, n, (week + k) % len)
  {
    var back: int := week;
    ModShift(week + k, -back, len);
    ModIs(k, len, 0, k);
  }

  predicate NoDuplicates<T(==)>(items: seq<T>) { forall i, k :: 0 <= i < k < |items| ==> items[i] != items[k] }

  /** Of items without duplicates a week grades exactly those whose turn it is. */
  lemma GradedExactlyIf<T>(items: seq<T>, week: nat, n: nat, j: nat)
    requires j < |items| && NoDuplicates(items)
    ensures items[j] in RecheckItems(items, week, n) <==> Chosen(|items|, week, n, j)
  {
    var len, picks := |items|, RecheckItems(items, week, n);
    if Chosen(len, week, n, j) {
      var k := Turn(j, week, len);
      ModShift(j - week, week, len);
      ModIs(j, len, 0, j);
      assert picks[k] == items[j];
    }
    if items[j] in picks {
      var k :| 0 <= k < |picks| && picks[k] == items[j];
      assert items[(week + k) % len] == items[j];
      SelectedHasTurn(len, week, n, k);
    }
  }

  lemma TurnMeets(c: int, len: nat, i: nat, m: nat)
    requires i < len && m < len
    ensures Turn(c, i, len) == m <==> i == Turn(c, m, len)
  {
    if Turn(c, i, len) == m { ModIs(c - m, len, (c - i) / len, i); }
    if i == Turn(c, m, len) { ModIs(c - i, len, (c - m) / len, m); }
  }

  ghost function TurnsBelow(c: int, len: nat, n: nat): set<nat>
    requires len > 0
  {
    set i | 0 <= i < len && Turn(c, i, len) < n
  }

  lemma {:induction false} CountBelow(c: int, len: nat, n: nat)
    requires 0 < len && n <= len
    ensures |TurnsBelow(c, len, n)| == n
  {
    if n == 0 {
      assert TurnsBelow(c, len, n) == {};
    } else {
      var last := Turn(c, n - 1, len);
      CountBelow(c, len, n - 1);
      forall i: nat | i < len ensures i in TurnsBelow(c, len, n) <==> i in TurnsBelow(c, len, n - 1) || i == last {
        TurnMeets(c, len, i, n - 1);
      }
      TurnMeets(c, len, last, n - 1);
      assert TurnsBelow(c, len, n) == TurnsBelow(c, len, n - 1) + {last};
    }
  }

  predicate GradedIn<T(==)>(items: seq<T>, week: nat, n: nat, j: nat)
    requires j < |items|
  {
    items[j] in RecheckItems(items, week, n)
  }

  predicate GradedLater<T(==)>(items: seq<T>, first: nat, i: nat, n: nat, j: nat)
    requires j < |items|
  {
    GradedIn(items, first + i, n, j)
  }

  /** The weeks, counted from a first one, whose selection holds item j. */
  ghost function GradedWeeks<T>(items: seq<T>, first: nat, n: nat, j: nat): set<nat>
    requires j < |items|
  {
    set i | 0 <= i < |items| && GradedLater(items, first, i, n, j)
  }

  lemma GradedTurn<T>(items: seq<T>, first: nat, i: nat, n: nat, j: nat)
    requires j < |items| && NoDuplicates(items)
    ensures GradedLater(items, first, i, n, j) <==> Turn(j - first, i, |items|) < Least(n, |items|)
  {
    GradedExactlyIf(items, first + i, n, j);
    assert j - (first + i) == j - first - i;
  }

  /** Over as many consecutive week numbers as there are items, every item of a
      list without duplicates is in the selection equally often: n times, or every
      week if n is larger. */
  lemma EveryItemItsTurn<T>(items: seq<T>, first: nat, n: nat, j: nat)
    requires j < |items| && NoDuplicates(items)
    ensures |GradedWeeks(items, first, n, j)| == Least(n, |items|)
  {
    var len, m := |items|, Least(n, |items|);
    forall i: nat | i < len ensures i in GradedWeeks(items, first, n, j) <==> i in TurnsBelow(j - first, len, m) {
      GradedTurn(items, first, i, n, j);
    }
    assert GradedWeeks(items, first, n, j) == TurnsBelow(j - first, len, m);
    CountBelow(j - first, len, m);
  }
}
