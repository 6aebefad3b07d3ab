/** The packs table: publishing a pack and rolling back. */
module Packs {
  import opened Text
  import opened PublishRows

  datatype Status = Active | Previous | Retired

  datatype Pack = Pack(
    createdAt: string, status: Status, seats: string, hash: string, notes: string,
    runId: Option<string>, activatedAt: Option<string>)

  type Table = map<string, Pack>

  function WithStatus(packs: Table, status: Status): set<string> { set id | id in packs && packs[id].status == status }

  // -------------------------------------------------------------- newest first

  /** By creation time, then by id. */
  predicate Newer(packs: Table, a: string, b: string)
    requires a in packs && b in packs
  {
    Less(packs[b].createdAt, packs[a].createdAt) || (packs[a].createdAt == packs[b].createdAt && Less(b, a))
  }

  /** The row that comes first in a listing of a status, newest first. */
  predicate IsNewest(packs: Table, status: Status, id: string) {
    id in WithStatus(packs, status) && forall x :: x in WithStatus(packs, status) ==> x == id || Newer(packs, id, x)
  }

  lemma NewerTotal(packs: Table, a: string, b: string)
    requires a in packs && b in packs
    ensures a == b || Newer(packs, a, b) || Newer(packs, b, a)
  {
    LessTotal(a, b);
    LessTotal(packs[a].createdAt, packs[b].createdAt);
  }

  lemma NewerTransitive(packs: Table, a: string, b: string, c: string)
    requires a in packs && b in packs && c in packs && Newer(packs, a, b) && Newer(packs, b, c)
    ensures Newer(packs, a, c)
  {
    if Less(packs[b].createdAt, packs[a].createdAt) && Less(packs[c].createdAt, packs[b].createdAt) {
      LessTransitive(packs[c].createdAt, packs[b].createdAt, packs[a].createdAt);
    }
    if Less(b, a) && Less(c, b) { LessTransitive(c, b, a); }
  }

  lemma NewestIsUnique(packs: Table, status: Status, a: string, b: string)
    requires IsNewest(packs, status, a) && IsNewest(packs, status, b)
    ensures a == b
  {
    if a != b {
      NewerTransitive(packs, a, b, a);
      LessIrreflexive(a);
      LessIrreflexive(packs[a].createdAt);
    }
  }

  /** No row of the status was created after the newest, nor at its time with a later id. */
  lemma NothingIsNewer(packs: Table, status: Status, id: string, x: string)
    requires IsNewest(packs, status, id) && x in WithStatus(packs, status)
    ensures !Less(packs[id].createdAt, packs[x].createdAt)
    ensures packs[x].createdAt == packs[id].createdAt ==> !Less(id, x)
  {
    LessIrreflexive(id);
    LessIrreflexive(packs[id].createdAt);
    if x != id {
      if Less(packs[x].createdAt, packs[id].createdAt) { LessAsymmetric(packs[x].createdAt, packs[id].createdAt); }
      if Less(x, id) { LessAsymmetric(x, id); }
    }
  }

  // ----------------------------------------------------------------- transitions

  function Demoted(status: Status): Status {
    match status
    case Active => Previous
    case Previous => Retired
    case Retired => Retired
  }

  /** The table after a pack has been published under a new id. */
  function Published(packs: Table, id: string, row: Pack): Table {
    (map x | x in packs :: packs[x].(status := Demoted(packs[x].status)))[id := row]
  }

  /** The table after one pack has been demoted and another promoted. */
  function Swapped(packs: Table, cur: string, prev: string): Table
    requires cur in packs && prev in packs && cur != prev
  {
    packs[cur := packs[cur].(status := Previous)][prev := packs[prev].(status := Active)]
  }

  /** Whether each of a rollback's status updates can be written: the demotion,
      the promotion, and the undoing of the demotion should the promotion fail. */
  datatype Writes = Writes(demote: bool, promote: bool, undo: bool)

  /** The promotion failed and the demotion could not be undone. */
  predicate Stuck(w: Writes) { w.demote && !w.promote && !w.undo }

  /** The table after the updates that could be written. */
  function AfterWrites(packs: Table, cur: string, prev: string, w: Writes): Table
    requires cur in packs && prev in packs && cur != prev
  {
    if Stuck(w) then packs[cur := packs[cur].(status := Previous)]
    else if w.demote && w.promote then Swapped(packs, cur, prev)
    else packs
  }

  /** The newest active and the newest previous pack trade places, if there are
      both and the updates can be written. */
  ghost predicate RollsBack(before: Table, after: Table, w: Writes, rolled: bool) {
    if WithStatus(before, Active) == {} || WithStatus(before, Previous) == {} then !rolled && after == before
    else rolled == (w.demote && w.promote) && exists cur, prev ::
      IsNewest(before, Active, cur) && IsNewest(before, Previous, prev) && after == AfterWrites(before, cur, prev, w)
  }

  // ------------------------------------------------------------------- the store

  datatype NewPack = NewPack(id: string, seats: string, hash: string, notes: string, runId: Option<string>)

  /** What one publishing transaction writes; without a pack, only baselines and
      bundles.  forced is a candidate's id and its new promotion record. */
  datatype PackTxSeed = PackTxSeed(
    pack: Option<NewPack>, bundles: seq<BundleSeed>, baselines: seq<BaselineSeed>, forced: Option<(string, string)>)

  function RowOf(p: NewPack, now: string): Pack { Pack(now, Active, p.seats, p.hash, p.notes, p.runId, Some(now)) }

  /** What a pack was published with. */
  predicate HoldsSeed(row: Pack, p: NewPack, now: string) {
    row.seats == p.seats && row.hash == p.hash && row.notes == p.notes && row.runId == p.runId
    && row.createdAt == now && row.activatedAt == Some(now)
  }

  /** The candidates' promotion records after a forced one has been marked. */
  function WithPromotion(promotions: map<string, string>, forced: Option<(string, string)>): (r: map<string, string>)
    ensures r.Keys == promotions.Keys
    ensures forall k :: k in r ==>
      r[k] == if forced.Some? && forced.value.0 == k then forced.value.1 else promotions[k]
  {
    if forced.Some? && forced.value.0 in promotions then promotions[forced.value.0 := forced.value.1] else promotions
  }

  class Store {
    var packs: Table
    var bundles: Bundles
    var baselines: Baselines
    var promotions: map<string, string>
    var cases: set<string>

    /** The newest pack with the given status. */
    method Newest(status: Status) returns (r: Option<string>)
      ensures match r
        case None => WithStatus(packs, status) == {}
        case Some(id) => IsNewest(packs, status, id)
    {
      r := None;
      var left := WithStatus(packs, status);
      while left != {}
        invariant left <= WithStatus(packs, status)
        invariant r.None? ==> left == WithStatus(packs, status)
        invariant r.Some? ==> r.value in WithStatus(packs, status) - left
        invariant r.Some? ==>
          forall x :: x in WithStatus(packs, status) - left ==> x == r.value || Newer(packs, r.value, x)
        decreases left
      {
        var x :| x in left;
        if r.Some? {
          NewerTotal(packs, r.value, x);
          forall y | y in WithStatus(packs, status) - left && Newer(packs, x, r.value) ensures Newer(packs, x, y) {
            if y != r.value { NewerTransitive(packs, x, r.value, y); }
          }
        }
        if r.None? || Newer(packs, x, r.value) { r := Some(x); }
        left := left - {x};
      }
    }

    method SetStatus(id: string, status: Status, written: bool) returns (ok: bool)
      modifies this`packs
      ensures ok <==> written && id in old(packs)
      ensures packs == if ok then old(packs)[id := old(packs)[id].(status := status)] else old(packs)
    {
      ok := written && id in packs;
      if ok { packs := packs[id := packs[id].(status := status)]; }
    }

    /** The two updates that make room for a new active pack. */
    method Demote(anyActive: bool)
      requires anyActive <==> WithStatus(packs, Active) != {}
      modifies this`packs
      ensures packs == map x | x in old(packs) :: old(packs)[x].(status := Demoted(old(packs)[x].status))
    {
      packs := map x | x in packs :: if packs[x].status == Previous then packs[x].(status := Retired) else packs[x];
      if anyActive {
        packs := map x | x in packs :: if packs[x].status == Active then packs[x].(status := Previous) else packs[x];
      } else {
        assert forall x :: x in old(packs) ==> x !in WithStatus(old(packs), Active);
      }
    }

    /** The insert and the updates that complete the row. */
    method InsertRow(id: string, row: Pack)
      requires id !in packs
      modifies this`packs
      ensures packs == old(packs)[id := row]
    {
      packs := packs[id := row.(runId := None, activatedAt := None)];
      if row.runId.Some? { packs := packs[id := packs[id].(runId := row.runId)]; }
      if row.activatedAt.Some? { packs := packs[id := packs[id].(activatedAt := row.activatedAt)]; }
    }

    method WriteBundles(seeds: seq<BundleSeed>, now: string) returns (ok: bool)
      modifies this`bundles
      ensures ok <==> UpsertBundles(old(bundles), cases, seeds, now).Some?
      ensures ok ==> Some(bundles) == UpsertBundles(old(bundles), cases, seeds, now)
    {
      for i := 0 to |seeds|
        invariant UpsertBundles(bundles, cases, seeds[i..], now) == UpsertBundles(old(bundles), cases, seeds, now)
      {
        assert seeds[i..][0] == seeds[i] && seeds[i..][1..] == seeds[i + 1..];
        var next := UpsertBundle(bundles, cases, seeds[i], now);
        if next.None? { return false; }
        bundles := next.value;
      }
      return true;
    }

    method WriteBaselines(seeds: seq<BaselineSeed>, now: string) returns (ok: bool)
      modifies this`baselines
      ensures ok <==> UpsertBaselines(old(baselines), seeds, now).Some?
      ensures ok ==> Some(baselines) == UpsertBaselines(old(baselines), seeds, now)
    {
      for i := 0 to |seeds|
        invariant UpsertBaselines(baselines, seeds[i..], now) == UpsertBaselines(old(baselines), seeds, now)
      {
        assert seeds[i..][0] == seeds[i] && seeds[i..][1..] == seeds[i + 1..];
        var next := UpsertBaseline(baselines, seeds[i], now);
        if next.None? { return false; }
        baselines := next.value;
      }
      return true;
    }

    /** The updates of the packs table: room is made and the new row inserted,
        unless its id is taken. */
    method ActivatePack(p: NewPack, anyActive: bool, now: string) returns (ok: bool)
      requires anyActive <==> WithStatus(packs, Active) != {}
      modifies this`packs
      ensures ok <==> p.id !in old(packs)
      ensures ok ==> packs == Published(old(packs), p.id, RowOf(p, now))
    {
      Demote(anyActive);
      if p.id in packs { return false; }
      InsertRow(p.id, RowOf(p, now));
      return true;
    }

    /** The statements of a publishing transaction, in their order. */
    method WriteAll(seed: PackTxSeed, anyActive: bool, now: string) returns (ok: bool)
      requires anyActive <==> WithStatus(packs, Active) != {}
      modifies this
      ensures cases == old(cases)
      ensures ok <==> (seed.pack.Some? ==> seed.pack.value.id !in old(packs))
                      && UpsertBundles(old(bundles), cases, seed.bundles, now).Some?
                      && UpsertBaselines(old(baselines), seed.baselines, now).Some?
      ensures ok && seed.pack.Some? ==> packs == Published(old(packs), seed.pack.value.id, RowOf(seed.pack.value, now))
      ensures ok && seed.pack.None? ==> packs == old(packs)
      ensures ok ==> Some(bundles) == UpsertBundles(old(bundles), cases, seed.bundles, now)
      ensures ok ==> Some(baselines) == UpsertBaselines(old(baselines), seed.baselines, now)
      ensures ok ==> promotions == WithPromotion(old(promotions), seed.forced)
    {
      if seed.pack.Some? {
        ok := ActivatePack(seed.pack.value, anyActive, now);
        if !ok { return; }
      }
      ok := WriteBundles(seed.bundles, now);
      if !ok { return; }
      ok := WriteBaselines(seed.baselines, now);
      if !ok { return; }
      promotions := WithPromotion(promotions, seed.forced);
    }

    /** One transaction: all of it is written, or nothing is.  active is the pack
        that is active afterwards, the newest if nothing was activated. */
    method PublishAtomic(seed: PackTxSeed, now: string) returns (ok: bool, active: Option<string>)
      modifies this
      ensures cases == old(cases)
      ensures ok <==> (seed.pack.Some? ==> seed.pack.value.id !in old(packs))
                      && UpsertBundles(old(bundles), cases, seed.bundles, now).Some?
                      && UpsertBaselines(old(baselines), seed.baselines, now).Some?
      ensures ok && seed.pack.Some? ==> packs == Published(old(packs), seed.pack.value.id, RowOf(seed.pack.value, now))
      ensures ok && seed.pack.Some? ==> var row := packs[seed.pack.value.id];
        HoldsSeed(row, seed.pack.value, now) && row.status == Active
      ensures seed.pack.Some? ==> Step(Publish(seed.pack.value, now, ok), old(packs), packs)
      ensures !ok || seed.pack.None? ==> packs == old(packs)
      ensures Some(bundles) == if ok then UpsertBundles(old(bundles), cases, seed.bundles, now) else Some(old(bundles))
      ensures Some(baselines) ==
        if ok then UpsertBaselines(old(baselines), seed.baselines, now) else Some(old(baselines))
      ensures promotions == if ok then WithPromotion(old(promotions), seed.forced) else old(promotions)
      ensures ok && seed.pack.Some? ==> active == Some(seed.pack.value.id)
      ensures ok && seed.pack.None? && active.Some? ==> IsNewest(packs, Active, active.value)
      ensures ok && seed.pack.None? && active.None? ==> WithStatus(packs, Active) == {}
    {
      var packs0, bundles0, baselines0, promotions0 := packs, bundles, baselines, promotions;
      active := Newest(Active);
      ok := WriteAll(seed, active.Some?, now);
      if !ok {
        packs, bundles, baselines, promotions := packs0, bundles0, baselines0, promotions0;
        return false, None;
      }
      if seed.pack.Some? { active := Some(seed.pack.value.id); }
    }

    method Rollback(w: Writes) returns (ok: bool)
      modifies this`packs
      ensures RollsBack(old(packs), packs, w, ok) && Step(Op.Rollback(w), old(packs), packs)
    {
      var cur := Newest(Active);
      if cur.None? { return false; }
      var prev := Newest(Previous);
      if prev.None? { return false; }
      ok := SetStatus(cur.value, Previous, w.demote);
      if !ok { return; }
      ok := SetStatus(prev.value, Active, w.promote);
      if !ok {
        var _ := SetStatus(cur.value, Active, w.undo);
      }
    }

    /** Init and InsertActive: a new active pack, nothing demoted. */
    method InsertActive(id: string, seats: string, hash: string, now: string) returns (ok: bool)
      modifies this`packs
      ensures ok <==> id !in old(packs)
      ensures packs == if ok then old(packs)[id := Pack(now, Active, seats, hash, "", None, Some(now))] else old(packs)
    {
      if id in packs { return false; }
      InsertRow(id, Pack(now, Active, seats, hash, "", None, Some(now)));
      return true;
    }
  }

  // -------------------------------------------------------------------- theorems

  /** One active pack and at most one to go back to. */
  ghost predicate Single(packs: Table) {
    |WithStatus(packs, Active)| == 1 && |WithStatus(packs, Previous)| <= 1
  }

  /** From any number of active packs publishing leaves exactly the new one; the
      old active ones are what can be rolled back to. */
  lemma PublishLeavesOneActive(packs: Table, id: string, row: Pack)
    requires id !in packs && row.status == Active
    ensures var after := Published(packs, id, row);
      WithStatus(after, Active) == {id} && WithStatus(after, Previous) == WithStatus(packs, Active)
      && WithStatus(after, Retired) == WithStatus(packs, Retired) + WithStatus(packs, Previous)
  {
  }

  lemma OneNewest(packs: Table, status: Status, id: string)
    ensures WithStatus(packs, status) == {id} ==> IsNewest(packs, status, id)
    ensures |WithStatus(packs, status)| == 1 && id in WithStatus(packs, status) ==> WithStatus(packs, status) == {id}
  {
    if |WithStatus(packs, status)| == 1 && id in WithStatus(packs, status) {
      assert |WithStatus(packs, status) - {id}| == 0;
    }
  }

  /** What a rollback that can be written does to a table with one active and one
      previous pack. */
  lemma RollbackIs(before: Table, after: Table, w: Writes, rolled: bool, cur: string, prev: string)
    requires WithStatus(before, Active) == {cur} && WithStatus(before, Previous) == {prev}
    requires RollsBack(before, after, w, rolled)
    ensures cur in before && prev in before && cur != prev && rolled == (w.demote && w.promote)
    ensures after == AfterWrites(before, cur, prev, w)
    ensures WithStatus(after, Active) == if rolled then {prev} else if Stuck(w) then {} else {cur}
    ensures WithStatus(after, Previous) == if rolled then {cur} else if Stuck(w) then {cur, prev} else {prev}
    ensures WithStatus(after, Retired) == WithStatus(before, Retired)
  {
    assert cur in WithStatus(before, Active) && prev in WithStatus(before, Previous);
    OneNewest(before, Active, cur);
    OneNewest(before, Previous, prev);
    var c, p :| IsNewest(before, Active, c) && IsNewest(before, Previous, p) && after == AfterWrites(before, c, p, w);
    NewestIsUnique(before, Active, c, cur);
    NewestIsUnique(before, Previous, p, prev);
    forall x | x in before
      ensures before[x].status == Active <==> x == cur
      ensures before[x].status == Previous <==> x == prev
    {
      assert (x in WithStatus(before, Active) <==> x == cur) && (x in WithStatus(before, Previous) <==> x == prev);
    }
  }

  /** Rolling back twice changes nothing, unless a status is stuck. */
  lemma RollbackTwice(before: Table, middle: Table, after: Table, w: Writes, v: Writes, first: bool, second: bool)
    requires Single(before) && RollsBack(before, middle, w, first) && RollsBack(middle, after, v, second)
    requires WithStatus(before, Previous) != {} ==> first && second
    ensures after == before
  {
    if WithStatus(before, Previous) != {} {
      var cur :| cur in WithStatus(before, Active);
      var prev :| prev in WithStatus(before, Previous);
      OneNewest(before, Active, cur);
      OneNewest(before, Previous, prev);
      RollbackIs(before, middle, w, first, cur, prev);
      RollbackIs(middle, after, v, second, prev, cur);
      assert cur in WithStatus(before, Active) && prev in WithStatus(before, Previous);
      SwappedBack(before, cur, prev);
    }
  }

  lemma SwappedBack(packs: Table, cur: string, prev: string)
    requires cur in packs && prev in packs && cur != prev
    requires packs[cur].status == Active && packs[prev].status == Previous
    ensures Swapped(Swapped(packs, cur, prev), prev, cur) == packs
  {
    assert Swapped(Swapped(packs, cur, prev), prev, cur).Keys == packs.Keys;
  }

  /** What could be gone back to is retired. */
  function WithoutPrevious(packs: Table): Table {
    map x | x in packs :: if packs[x].status == Previous then packs[x].(status := Retired) else packs[x]
  }

  /** Rolling back after publishing makes the prior active pack active again; the
      new pack is kept as the one to go back to, and only an older previous pack
      is left retired. */
  lemma RollbackAfterPublish(packs: Table, cur: string, id: string, row: Pack, after: Table, w: Writes, rolled: bool)
    requires WithStatus(packs, Active) == {cur} && id !in packs && row.status == Active && w.demote && w.promote
    requires RollsBack(Published(packs, id, row), after, w, rolled)
    ensures rolled && WithStatus(after, Active) == {cur} && WithStatus(after, Previous) == {id}
    ensures after == WithoutPrevious(packs)[id := row.(status := Previous)]
  {
    PublishLeavesOneActive(packs, id, row);
    RollbackIs(Published(packs, id, row), after, w, rolled, id, cur);
    var expected := WithoutPrevious(packs)[id := row.(status := Previous)];
    assert cur in WithStatus(packs, Active);
    forall x | x in packs && x != cur ensures after[x] == expected[x] { assert x !in WithStatus(packs, Active); }
    assert after.Keys == expected.Keys;
  }

  /** A rollback leaves a single active pack exactly if it does not get stuck with
      two packs to swap; then no pack is active, and rolling back does nothing. */
  lemma RollbackKeepsSingleExactlyIf(before: Table, after: Table, w: Writes, rolled: bool)
    requires Single(before) && RollsBack(before, after, w, rolled)
    ensures Single(after) <==> WithStatus(before, Previous) == {} || !Stuck(w)
    ensures !Single(after) ==> WithStatus(after, Active) == {}
    ensures Keeps(before, after)
  {
    if WithStatus(before, Previous) != {} {
      var cur :| cur in WithStatus(before, Active);
      var prev :| prev in WithStatus(before, Previous);
      OneNewest(before, Active, cur);
      OneNewest(before, Previous, prev);
      RollbackIs(before, after, w, rolled, cur, prev);
    }
  }

  /** Init keeps a single active pack exactly if there was none. */
  lemma InitKeepsSingleExactlyIf(packs: Table, id: string, row: Pack)
    requires id !in packs && row.status == Active && |WithStatus(packs, Previous)| <= 1
    ensures Single(packs[id := row]) <==> WithStatus(packs, Active) == {}
  {
    var actives := WithStatus(packs, Active);
    assert WithStatus(packs[id := row], Active) == actives + {id} && id !in actives;
    assert |actives + {id}| == |actives| + 1;
    assert WithStatus(packs[id := row], Previous) == WithStatus(packs, Previous);
  }

  // ------------------------------------------------------------------------ runs

  datatype Op = Publish(p: NewPack, now: string, written: bool) | Rollback(w: Writes)

  ghost predicate Step(op: Op, before: Table, after: Table) {
    match op
    case Publish(p, now, written) =>
      after == if written && p.id !in before then Published(before, p.id, RowOf(p, now)) else before
    case Rollback(w) => RollsBack(before, after, w, true) || RollsBack(before, after, w, false)
  }

  ghost predicate StepAt(ops: seq<Op>, tables: seq<Table>, i: nat)
    requires i < |ops| && i + 1 < |tables|
  {
    Step(ops[i], tables[i], tables[i + 1])
  }

  ghost predicate IsRun(ops: seq<Op>, tables: seq<Table>) {
    |tables| == |ops| + 1 && forall i: nat :: i < |ops| ==> StepAt(ops, tables, i)
  }

  /** Packs are never lost or rewritten, and a retired pack stays retired. */
  ghost predicate Keeps(before: Table, after: Table) {
    forall id :: id in before ==>
      id in after && after[id].(status := before[id].status) == before[id]
      && (before[id].status == Retired ==> after[id].status == Retired)
  }

  /** A pack is activated. */
  predicate Activates(op: Op, packs: Table) { op.Publish? && op.written && op.p.id !in packs }

  /** A rollback that finds two packs to swap gets stuck half way. */
  ghost predicate GetsStuck(op: Op, packs: Table) {
    op.Rollback? && Stuck(op.w) && WithStatus(packs, Active) != {} && WithStatus(packs, Previous) != {}
  }

  /** A single active pack, or none. */
  ghost predicate AtMostSingle(packs: Table) { WithStatus(packs, Active) == {} || Single(packs) }

  lemma StepKeeps(op: Op, before: Table, after: Table)
    requires AtMostSingle(before) && Step(op, before, after)
    ensures AtMostSingle(after) && Keeps(before, after)
    ensures Single(after) <==> Activates(op, before) || (Single(before) && !GetsStuck(op, before))
  {
    match op
    case Publish(p, now, _) => if Activates(op, before) { PublishLeavesOneActive(before, p.id, RowOf(p, now)); }
    case Rollback(w) =>
      if WithStatus(before, Active) != {} {
        RollbackKeepsSingleExactlyIf(before, after, w, RollsBack(before, after, w, true));
      }
  }

  /** After j operations: some rollback got stuck and no pack was activated since. */
  ghost predicate LeftStuck(ops: seq<Op>, tables: seq<Table>, j: nat)
    requires j <= |ops| < |tables|
  {
    j > 0 && (GetsStuck(ops[j - 1], tables[j - 1])
              || (LeftStuck(ops, tables, j - 1) && !Activates(ops[j - 1], tables[j - 1])))
  }

  /** Over every sequence of publishes and rollbacks there is a single active pack
      with at most one to go back to, exactly unless a rollback was left stuck, and
      then no pack is active. */
  lemma {:induction false} SingleUnlessStuck(ops: seq<Op>, tables: seq<Table>, j: nat)
    requires IsRun(ops, tables) && Single(tables[0]) && j < |tables|
    ensures Single(tables[j]) <==> !LeftStuck(ops, tables, j)
    ensures AtMostSingle(tables[j])
  {
    if j > 0 {
      SingleUnlessStuck(ops, tables, j - 1);
      assert StepAt(ops, tables, j - 1);
      StepKeeps(ops[j - 1], tables[j - 1], tables[j]);
    }
  }

  lemma KeepsThrough(before: Table, middle: Table, after: Table)
    requires Keeps(before, middle) && Keeps(middle, after)
    ensures Keeps(before, after)
  {
    forall id | id in before
      ensures id in after && after[id].(status := before[id].status) == before[id]
      ensures before[id].status == Retired ==> after[id].status == Retired
    {
      assert id in middle && middle[id].(status := before[id].status) == before[id];
    }
  }

  lemma EveryStepKeeps(ops: seq<Op>, tables: seq<Table>, j: nat)
    requires IsRun(ops, tables) && Single(tables[0]) && j < |ops|
    ensures Keeps(tables[j], tables[j + 1])
  {
    SingleUnlessStuck(ops, tables, j);
    assert StepAt(ops, tables, j);
    StepKeeps(ops[j], tables[j], tables[j + 1]);
  }

  /** And between any two points no pack is lost or rewritten and none returns from
      retirement. */
  lemma {:induction false} EveryRunKeeps(ops: seq<Op>, tables: seq<Table>, i: nat, j: nat)
    requires IsRun(ops, tables) && Single(tables[0]) && i <= j < |tables|
    ensures Keeps(tables[i], tables[j])
  {
    if i < j {
      EveryRunKeeps(ops, tables, i, j - 1);
      EveryStepKeeps(ops, tables, j - 1);
      KeepsThrough(tables[i], tables[j - 1], tables[j]);
    }
  }

  /** A pack has, at any later point, the seats, hash, notes and run it was
      published with, and the time of that publish. */
  lemma PackIsItsSeed(ops: seq<Op>, tables: seq<Table>, i: nat, j: nat)
    requires IsRun(ops, tables) && Single(tables[0]) && i < |ops| && i < j < |tables|
    requires Activates(ops[i], tables[i])
    ensures ops[i].p.id in tables[j] && HoldsSeed(tables[j][ops[i].p.id], ops[i].p, ops[i].now)
  {
    assert StepAt(ops, tables, i);
    EveryRunKeeps(ops, tables, i + 1, j);
    assert ops[i].p.id in tables[i + 1];
  }
}
