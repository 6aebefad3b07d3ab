/** The weekly selection of sentinel cases. */
module Sentinel {
  import opened Text
  import opened Rotation

  datatype Family = Family(key: string, sentinel: bool, safety: bool, control: bool, hard: bool, cases: seq<string>)

  function Select(fs: seq<Family>, pick: Family -> bool): (r: seq<Family>)
    ensures forall f :: f in r <==> f in fs && pick(f)
  {
    if fs == [] then [] else (if pick(fs[0]) then [fs[0]] else []) + Select(fs[1..], pick)
  }

  /** The sentinel families, and those of them tagged for safety, control and difficulty. */
  datatype Lists = Lists(sentinel: seq<Family>, safety: seq<Family>, control: seq<Family>, hard: seq<Family>)

  function Classify(fs: seq<Family>): (ls: Lists)
    ensures forall f :: f in ls.sentinel <==> f in fs && f.sentinel
    ensures forall f :: f in ls.safety <==> f in ls.sentinel && f.safety
    ensures forall f :: f in ls.control <==> f in ls.sentinel && f.control
    ensures forall f :: f in ls.hard <==> f in ls.sentinel && f.hard
  {
    Lists(Select(fs, (f: Family) => f.sentinel), Select(fs, (f: Family) => f.sentinel && f.safety),
          Select(fs, (f: Family) => f.sentinel && f.control), Select(fs, (f: Family) => f.sentinel && f.hard))
  }

  function Keys(picks: seq<Family>): set<string> { set f | f in picks :: f.key }

  /** The first two picks: a safety family, then a control family, another one if
      the first would be picked twice and there is a choice. */
  ghost predicate Opens(ls: Lists, week: nat, picks: seq<Family>) {
    var a, c := ls.safety, ls.control;
    |picks| >= 2 && a != [] && c != [] && picks[0] == a[week % |a|]
    && picks[1] == if c[week % |c|].key == picks[0].key && |c| > 1 then c[(week + 1) % |c|] else c[week % |c|]
  }

  /** The hard families, beginning with the week's. */
  ghost function Turn(ls: Lists, week: nat): (r: seq<Family>)
    ensures |r| == |ls.hard| && forall m :: 0 <= m < |r| ==> r[m] == ls.hard[(week + m) % |ls.hard|]
  {
    seq(|ls.hard|, m requires 0 <= m < |ls.hard| => ls.hard[(week + m) % |ls.hard|])
  }

  /** The first family in turn that is not picked yet. */
  ghost predicate NextHard(turn: seq<Family>, before: seq<Family>, f: Family) {
    exists m :: 0 <= m < |turn| && turn[m] == f && f.key !in Keys(before)
      && forall j :: 0 <= j < m ==> turn[j].key in Keys(before)
  }

  /** From the third pick up to h: hard families in turn, none picked before. */
  ghost predicate HardPart(turn: seq<Family>, picks: seq<Family>, h: nat) {
    2 <= h <= |picks| && forall i :: 2 <= i < h ==> NextHard(turn, picks[..i], picks[i])
  }

  /** From pick h on: the sentinel families in turn. */
  ghost predicate CyclePart(ls: Lists, picks: seq<Family>, h: nat, week: nat) {
    ls.sentinel != [] && h <= |picks|
    && forall i :: h <= i < |picks| ==> picks[i] == ls.sentinel[(week + i) % |ls.sentinel|]
  }

  ghost predicate AllHardPicked(ls: Lists, picks: seq<Family>) { forall f :: f in ls.hard ==> f.key in Keys(picks) }

  /** A selection of families: hard ones are exhausted before any is repeated. */
  ghost predicate Selection(ls: Lists, week: nat, need: nat, picks: seq<Family>) {
    |picks| == need && Opens(ls, week, picks)
    && exists h: nat ::
      HardPart(Turn(ls, week), picks, h) && CyclePart(ls, picks, h, week)
      && (h < need ==> AllHardPicked(ls, picks[..h]))
  }

  lemma HardGrows(turn: seq<Family>, r: seq<Family>, f: Family)
    requires HardPart(turn, r, |r|) && NextHard(turn, r, f)
    ensures HardPart(turn, r + [f], |r| + 1) && Keys(r + [f]) == Keys(r) + {f.key}
  {
    var longer := r + [f];
    forall k | 2 <= k < |longer| ensures NextHard(turn, longer[..k], longer[k]) {
      assert longer[..k] == r[..k];
      assert r[..|r|] == r;
    }
  }

  /** One pass over the hard families. */
  method PickHard(hardRot: seq<Family>, need: nat, picks: seq<Family>, seen: set<string>)
    returns (r: seq<Family>, seen': set<string>, added: bool)
    requires HardPart(hardRot, picks, |picks|) && |picks| <= need && seen == Keys(picks)
    ensures HardPart(hardRot, r, |r|) && picks <= r && |r| <= need && seen' == Keys(r)
    ensures added <==> |r| > |picks|
    ensures !added && |r| < need ==> forall f :: f in hardRot ==> f.key in seen'
  {
    r, seen', added := picks, seen, false;
    for i := 0 to |hardRot|
      invariant HardPart(hardRot, r, |r|) && picks <= r && |r| <= need && seen' == Keys(r)
      invariant added <==> |r| > |picks|
      invariant forall j :: 0 <= j < i ==> hardRot[j].key in seen'
    {
      if |r| >= need { return; }
      var f := hardRot[i];
      if f.key !in seen' {
        HardGrows(hardRot, r, f);
        r, seen', added := r + [f], seen' + {f.key}, true;
      }
    }
  }

  lemma RotateSame(fs: seq<Family>, offset: int)
    ensures forall f :: f in Rotate(fs, offset) <==> f in fs
  {
    RotatePermutes(fs, offset);
    forall f ensures f in Rotate(fs, offset) <==> f in fs {
      assert f in multiset(Rotate(fs, offset)) <==> f in multiset(fs);
    }
  }

  lemma HardTurned(ls: Lists, week: nat)
    ensures Rotate(ls.hard, week) == Turn(ls, week)
  {
    RotatePermutes(ls.hard, week);
    assert |multiset(Rotate(ls.hard, week))| == |multiset(ls.hard)|;
    forall m: nat | m < |ls.hard| ensures Rotate(ls.hard, week)[m] == Turn(ls, week)[m] { RotateAt(ls.hard, week, m); }
  }

  /** The opening picks and the hard families. */
  method PickFront(ls: Lists, week: nat, need: nat) returns (picks: seq<Family>)
    requires need >= 2 && ls.safety != [] && ls.control != []
    ensures Opens(ls, week, picks) && HardPart(Turn(ls, week), picks, |picks|) && |picks| <= need
    ensures |picks| < need ==> AllHardPicked(ls, picks)
  {
    RotateAt(ls.safety, week, 0);
    RotateAt(ls.control, week, 0);
    picks := [Rotate(ls.safety, week)[0]];
    var ctrls := Rotate(ls.control, week);
    var pick := ctrls[0];
    if pick.key == picks[0].key && |ctrls| > 1 {
      RotateAt(ls.control, week, 1);
      pick := ctrls[1];
    }
    picks := picks + [pick];
    var hardRot := Rotate(ls.hard, week);
    RotateSame(ls.hard, week);
    HardTurned(ls, week);
    var seen := {picks[0].key, pick.key};
    ghost var opening := picks;
    while |picks| < need && |hardRot| > 0
      invariant HardPart(hardRot, picks, |picks|) && opening <= picks && |picks| <= need && seen == Keys(picks)
      invariant |picks| < need && hardRot == [] ==> AllHardPicked(ls, picks)
      decreases need - |picks|
    {
      var added;
      picks, seen, added := PickHard(hardRot, need, picks, seen);
      if !added { break; }
    }
  }

  lemma CycleGrows(ls: Lists, picks: seq<Family>, h: nat, week: nat)
    requires CyclePart(ls, picks, h, week)
    ensures Rotate(ls.sentinel, week + |picks|) != []
    ensures CyclePart(ls, picks + [Rotate(ls.sentinel, week + |picks|)[0]], h, week)
  {
    RotateAt(ls.sentinel, week + |picks|, 0);
  }

  /** All the families picked, with repetition once the hard ones run out. */
  method PickFamilies(ls: Lists, week: nat, need: nat) returns (picks: seq<Family>)
    requires need >= 2 && ls.sentinel != [] && ls.safety != [] && ls.control != []
    ensures Selection(ls, week, need, picks)
  {
    picks := PickFront(ls, week, need);
    ghost var front := picks;
    var sentinel := ls.sentinel;
    while |picks| < need && |sentinel| > 0
      invariant |front| <= |picks| <= need && picks[..|front|] == front
      invariant CyclePart(ls, picks, |front|, week)
      decreases need - |picks|
    {
      CycleGrows(ls, picks, |front|, week);
      picks := picks + [Rotate(sentinel, week + |picks|)[0]];
    }
    Assembled(ls, week, need, front, picks);
  }

  lemma Assembled(ls: Lists, week: nat, need: nat, front: seq<Family>, picks: seq<Family>)
    requires Opens(ls, week, front) && HardPart(Turn(ls, week), front, |front|) && |front| <= |picks| == need
    requires picks[..|front|] == front && CyclePart(ls, picks, |front|, week)
    requires |front| < need ==> AllHardPicked(ls, front)
    ensures Selection(ls, week, need, picks)
  {
    var h := |front|;
    assert forall i :: 0 <= i < h ==> picks[i] == front[i];
    forall i | 2 <= i < h ensures NextHard(Turn(ls, week), picks[..i], picks[i]) {
      assert picks[..i] == front[..i];
    }
    assert HardPart(Turn(ls, week), picks, h);
  }

  /** One case of every picked family, in turn; None if one of them has none. */
  method PickCases(picks: seq<Family>, week: nat) returns (out: Option<seq<string>>)
    ensures out.Some? <==> forall f :: f in picks ==> f.cases != []
    ensures out.Some? ==> |out.value| == |picks|
    ensures out.Some? ==> forall i :: 0 <= i < |picks| ==>
      picks[i].cases != [] && out.value[i] == picks[i].cases[(week + i) % |picks[i].cases|]
  {
    var cases: seq<string> := [];
    for i := 0 to |picks|
      invariant |cases| == i
      invariant forall j :: 0 <= j < i ==>
        picks[j].cases != [] && cases[j] == picks[j].cases[(week + j) % |picks[j].cases|]
    {
      if |picks[i].cases| == 0 { return None; }
      RotateAt(picks[i].cases, week + i, 0);
      cases := cases + [Rotate(picks[i].cases, week + i)[0]];
    }
    return Some(cases);
  }

  /** The selection and its families; None refuses a pack that cannot serve both
      minimums or a picked family without cases. */
  method SelectSentinelCases(fs: seq<Family>, week: nat,
                             count: int) returns (out: Option<seq<string>>, picks: seq<Family>)
    ensures var ls := Classify(fs);
      if ls.safety == [] || ls.control == [] then out == None
      else Selection(ls, week, if count < 2 then 2 else count, picks)
           && (out.Some? <==> forall f :: f in picks ==> f.cases != [])
    ensures out.Some? ==> |out.value| == |picks|
    ensures out.Some? ==> forall i :: 0 <= i < |picks| ==>
      picks[i].cases != [] && out.value[i] == picks[i].cases[(week + i) % |picks[i].cases|]
  {
    var ls := Classify(fs);
    if |ls.sentinel| == 0 {
      assert forall f :: f !in ls.safety;
      return None, [];
    }
    if |ls.safety| == 0 || |ls.control| == 0 { return None, []; }
    var need := count;
    if need < 2 { need := 2; }
    picks := PickFamilies(ls, week, need);
    out := PickCases(picks, week);
  }

  // -------------------------------------------------------------------- theorems

  ghost predicate UniqueFamilies(fs: seq<Family>) { forall i, j :: 0 <= i < j < |fs| ==> fs[i].key != fs[j].key }

  /** r is what stands at these places of fs, in order. */
  ghost predicate StandsAt(fs: seq<Family>, r: seq<Family>, places: seq<nat>) {
    |places| == |r| && (forall i :: 0 <= i < |r| ==> places[i] < |fs| && fs[places[i]] == r[i])
    && forall i, j :: 0 <= i < j < |r| ==> places[i] < places[j]
  }

  lemma OneLater(f: Family, fs: seq<Family>, r: seq<Family>, rest: seq<nat>) returns (later: seq<nat>)
    requires StandsAt(fs, r, rest)
    ensures StandsAt([f] + fs, r, later) && StandsAt([f] + fs, [f] + r, [0] + later)
    ensures forall k: nat :: k in rest ==> k + 1 in later
  {
    later := seq(|rest|, i requires 0 <= i < |rest| => rest[i] + 1);
    forall k: nat | k in rest ensures k + 1 in later {
      var i :| 0 <= i < |rest| && rest[i] == k;
      assert later[i] == k + 1;
    }
  }

  /** The selected families stand in the order of the list, and none is left out. */
  lemma {:induction false} SelectKeepsOrder(fs: seq<Family>, pick: Family -> bool) returns (places: seq<nat>)
    ensures StandsAt(fs, Select(fs, pick), places)
    ensures forall k: nat :: k < |fs| && pick(fs[k]) ==> k in places
  {
    places := [];
    if fs != [] {
      var rest := SelectKeepsOrder(fs[1..], pick);
      var later := OneLater(fs[0], fs[1..], Select(fs[1..], pick), rest);
      SelectMore(fs, pick);
      places := if pick(fs[0]) then [0] + later else later;
      forall k: nat | k < |fs| && pick(fs[k]) ensures k in places {
        if k > 0 { assert fs[1..][k - 1] == fs[k] && k - 1 in rest; }
      }
    }
  }

  lemma SelectMore(fs: seq<Family>, pick: Family -> bool)
    requires fs != []
    ensures fs == [fs[0]] + fs[1..]
    ensures Select(fs, pick) == if pick(fs[0]) then [fs[0]] + Select(fs[1..], pick) else Select(fs[1..], pick)
  {
    assert [] + Select(fs[1..], pick) == Select(fs[1..], pick);
  }

  lemma {:induction false} SelectUnique(fs: seq<Family>, pick: Family -> bool)
    requires UniqueFamilies(fs)
    ensures UniqueFamilies(Select(fs, pick))
  {
    if fs != [] {
      var rest := Select(fs[1..], pick);
      assert UniqueFamilies(fs[1..]);
      SelectUnique(fs[1..], pick);
      forall i | 0 <= i < |rest| ensures rest[i].key != fs[0].key { assert rest[i] in fs[1..]; }
    }
  }

  /** With unique keys the safety and the control pick are the same family exactly
      if there is no other control family. */
  lemma SameFamilyExactlyIf(fs: seq<Family>, week: nat, picks: seq<Family>)
    requires UniqueFamilies(fs) && Opens(Classify(fs), week, picks)
    ensures picks[0].key == picks[1].key <==> Classify(fs).control == [picks[0]]
  {
    var c := Classify(fs).control;
    SelectUnique(fs, (f: Family) => f.sentinel && f.control);
    if |c| > 1 { NextDiffers(week, |c|); }
    if picks[0].key == picks[1].key { SameKeySameFamily(fs, picks[0], picks[1]); }
  }

  lemma NextDiffers(week: nat, n: nat)
    requires n > 1
    ensures week % n != (week + 1) % n
  {
    ModShift(week, 1, n);
    var o := week % n;
    if o + 1 < n { ModIs(o + 1, n, 0, o + 1); } else { ModIs(o + 1, n, 1, 0); }
  }

  lemma SameKeySameFamily(fs: seq<Family>, f: Family, g: Family)
    requires UniqueFamilies(fs) && f in fs && g in fs && f.key == g.key
    ensures f == g
  {
    var i :| 0 <= i < |fs| && fs[i] == f;
    var j :| 0 <= j < |fs| && fs[j] == g;
  }
}
