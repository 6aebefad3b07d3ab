/** The bundle and baseline rows that are written together with a published pack. */
module PublishRows {
  import opened Text

  const VIEW_SEATS: seq<string> := ["possibility", "perspective", "stress_tester"]
  const JUDGE: string := "judge"

  // -------------------------------------------------------------------- bundles

  datatype Bundle = Bundle(
    id: string, createdAt: string, caseId: string, kind: string, views: string, manipulations: string,
    hash: string, source: Option<string>)

  /** By bundle key, which is unique. */
  type Bundles = map<string, Bundle>

  datatype BundleSeed = BundleSeed(
    id: string, key: string, caseId: string, views: string, manipulations: string, hash: string, source: Option<string>)

  predicate IdInUse(bundles: Bundles, id: string) { exists k :: k in bundles && bundles[k].id == id }

  /** A stored key keeps its row and its id; a new one gets the seed's.  `known`
      holds the ids of the cases table, which a bundle must refer to. */
  function UpsertBundle(bundles: Bundles, known: set<string>, b: BundleSeed, now: string): (r: Option<Bundles>)
    ensures r.Some? ==> r.value.Keys == bundles.Keys + {b.key}
    ensures r.Some? ==> forall k :: k in bundles ==> r.value[k].id == bundles[k].id
    ensures r.Some? ==> forall k :: k in bundles && k != b.key ==> r.value[k] == bundles[k]
    ensures r.Some? && b.key !in bundles ==> r.value[b.key].id == b.id && !IdInUse(bundles, b.id)
    ensures r.Some? && b.views != "" ==> r.value[b.key].views == b.views
  {
    if b.key == "" then None
    else if b.key in bundles then
      var row := bundles[b.key];
      var row' := Bundle(
        row.id, row.createdAt, OrElse(b.caseId, row.caseId), "natural", OrElse(b.views, row.views),
        OrElse(b.manipulations, row.manipulations), OrElse(b.hash, row.hash),
        if b.source.Some? then b.source else row.source);
      if row'.caseId in known then Some(bundles[b.key := row']) else None
    else if b.caseId == "" || b.caseId !in known || IdInUse(bundles, b.id) then None
    else
      Some(bundles[b.key := Bundle(
        b.id, now, b.caseId, "natural", OrElse(b.views, "{}"), OrElse(b.manipulations, "[]"), b.hash, b.source)])
  }

  /** The row's texts are the seed's, or those kept where the seed's are empty. */
  predicate TakesOver(row: Bundle, b: BundleSeed, caseId: string, views: string, manipulations: string, hash: string,
                      source: Option<string>)
  {
    row.caseId == (if b.caseId == "" then caseId else b.caseId)
    && row.views == (if b.views == "" then views else b.views)
    && row.manipulations == (if b.manipulations == "" then manipulations else b.manipulations)
    && row.hash == (if b.hash == "" then hash else b.hash)
    && row.source == (if b.source == None then source else b.source) && row.kind == "natural"
  }

  /** What a stored bundle becomes, what a new one starts as, and when the upsert is
      refused: without a key, for an unknown case, or under an id that is taken. */
  lemma UpsertBundleIs(bundles: Bundles, known: set<string>, b: BundleSeed, now: string)
    ensures var r := UpsertBundle(bundles, known, b, now);
      if b.key in bundles then
        var row := bundles[b.key];
        (r.None? <==> b.key == "" || (if b.caseId == "" then row.caseId else b.caseId) !in known)
        && (r.Some? ==> r.value[b.key].createdAt == row.createdAt
                        && TakesOver(r.value[b.key], b, row.caseId, row.views, row.manipulations, row.hash, row.source))
      else
        (r.None? <==> b.key == "" || b.caseId == "" || b.caseId !in known || IdInUse(bundles, b.id))
        && (r.Some? ==> r.value[b.key].id == b.id && r.value[b.key].createdAt == now
                        && TakesOver(r.value[b.key], b, "", "{}", "[]", "", None))
  {
  }

  function UpsertBundles(bundles: Bundles, known: set<string>, seeds: seq<BundleSeed>, now: string): Option<Bundles>
    decreases |seeds|
  {
    if seeds == [] then Some(bundles) else
    match UpsertBundle(bundles, known, seeds[0], now)
    case None => None
    case Some(next) => UpsertBundles(next, known, seeds[1..], now)
  }

  // ------------------------------------------------------------------ baselines

  datatype Baseline = Baseline(id: string, createdAt: string, bundleId: Option<string>, responseId: string)

  datatype Slot = Slot(packId: string, seat: string, caseId: string)

  type Baselines = map<Slot, Baseline>

  /** rowId is the id a new row draws. */
  datatype BaselineSeed = BaselineSeed(rowId: string, slot: Slot, bundleId: Option<string>, responseId: string)

  function UpsertBaseline(baselines: Baselines, b: BaselineSeed, now: string): (r: Option<Baselines>)
    ensures r.Some? ==> b.slot in r.value && r.value[b.slot].bundleId == b.bundleId
    ensures r.Some? ==> r.value[b.slot].responseId == b.responseId
    ensures r.Some? ==> var row := r.value[b.slot];
      if b.slot in baselines then row.id == baselines[b.slot].id && row.createdAt == baselines[b.slot].createdAt
      else row.id == b.rowId && row.createdAt == now
    ensures r.None? <==> b.slot.packId == "" || b.slot.caseId == "" || b.responseId == ""
    ensures r.Some? ==> r.value.Keys == baselines.Keys + {b.slot}
    ensures r.Some? ==> forall s :: s in baselines && s != b.slot ==> r.value[s] == baselines[s]
  {
    if b.slot.packId == "" || b.slot.caseId == "" || b.responseId == "" then None
    else if b.slot in baselines then
      Some(baselines[b.slot := baselines[b.slot].(bundleId := b.bundleId, responseId := b.responseId)])
    else Some(baselines[b.slot := Baseline(b.rowId, now, b.bundleId, b.responseId)])
  }

  function UpsertBaselines(baselines: Baselines, seeds: seq<BaselineSeed>, now: string): Option<Baselines>
    decreases |seeds|
  {
    if seeds == [] then Some(baselines) else
    match UpsertBaseline(baselines, seeds[0], now)
    case None => None
    case Some(next) => UpsertBaselines(next, seeds[1..], now)
  }

  // --------------------------------------------------------- what a publish seeds

  /** One selection case: the id its bundle has drawn, and the response of every
      seat whose response can serve as evidence. */
  datatype Selected = Selected(
    caseId: string, caseKey: string, bundleId: string, views: string, hash: string,
    responses: map<string, string>, rowIds: map<string, string>)

  function NaturalKey(c: Selected): string { "natural-" + c.caseKey }

  function BundleSeedOf(c: Selected, packId: string): BundleSeed {
    BundleSeed(c.bundleId, NaturalKey(c), c.caseId, c.views, "[]", c.hash, Some(packId))
  }

  function BundleSeeds(cases: seq<Selected>, packId: string): seq<BundleSeed> {
    seq(|cases|, i requires 0 <= i < |cases| => BundleSeedOf(cases[i], packId))
  }

  /** Only the judge was shown a bundle. */
  function SeatSeed(c: Selected, packId: string, seat: string): seq<BaselineSeed> {
    if seat !in c.responses then [] else
    [BaselineSeed(
      if seat in c.rowIds then c.rowIds[seat] else "", Slot(packId, seat, c.caseId),
      if seat == JUDGE then Some(c.bundleId) else None, c.responses[seat])]
  }

  function CaseSeeds(c: Selected, packId: string): seq<BaselineSeed> {
    SeatSeed(c, packId, VIEW_SEATS[0]) + SeatSeed(c, packId, VIEW_SEATS[1]) + SeatSeed(c, packId, VIEW_SEATS[2])
    + SeatSeed(c, packId, JUDGE)
  }

  function BaselineSeeds(cases: seq<Selected>, packId: string): seq<BaselineSeed> {
    if cases == [] then [] else CaseSeeds(cases[0], packId) + BaselineSeeds(cases[1..], packId)
  }

  // -------------------------------------------------------------------- theorems

  ghost predicate DistinctKeys(seeds: seq<BundleSeed>) {
    forall i, j :: 0 <= i < j < |seeds| ==> seeds[i].key != seeds[j].key
  }

  /** Stored keys keep their ids, and the seeds with new keys bring theirs. */
  ghost predicate StoresBundles(before: Bundles, seeds: seq<BundleSeed>, after: Bundles) {
    (forall k :: k in after ==> k in before || exists b :: b in seeds && b.key == k)
    && (forall k :: k in before ==> k in after && after[k].id == before[k].id)
    && forall b :: b in seeds ==> b.key in after && (b.key !in before ==> after[b.key].id == b.id)
  }

  lemma {:induction false} BundlesAfter(bundles: Bundles, known: set<string>, seeds: seq<BundleSeed>, now: string)
    requires DistinctKeys(seeds) && UpsertBundles(bundles, known, seeds, now).Some?
    ensures StoresBundles(bundles, seeds, UpsertBundles(bundles, known, seeds, now).value)
    decreases |seeds|
  {
    if seeds != [] {
      var first, rest := seeds[0], seeds[1..];
      assert seeds == [first] + rest;
      DistinctTail(first, rest);
      var next := UpsertBundle(bundles, known, first, now).value;
      BundlesAfter(next, known, rest, now);
      StoresOneMore(bundles, first, next, rest, UpsertBundles(next, known, rest, now).value);
    }
  }

  /** The seed's row in the table after is what its own upsert makes of the table before. */
  ghost predicate UpsertedAlone(before: Bundles, known: set<string>, b: BundleSeed, now: string, after: Bundles) {
    var alone := UpsertBundle(before, known, b, now);
    alone.Some? && b.key in alone.value && b.key in after && after[b.key] == alone.value[b.key]
  }

  lemma UpsertedApart(before: Bundles, next: Bundles, known: set<string>, b: BundleSeed, now: string, after: Bundles)
    requires UpsertedAlone(next, known, b, now, after) && before.Keys <= next.Keys
    requires forall k :: k in before ==> next[k].id == before[k].id
    requires (b.key in next <==> b.key in before) && (b.key in before ==> next[b.key] == before[b.key])
    ensures UpsertedAlone(before, known, b, now, after)
  {
    if b.key !in before {
      forall k | k in before ensures before[k].id != b.id { assert next[k].id == before[k].id; }
    }
  }

  /** Seeds with keys of their own do not meddle with each other, or with other rows. */
  lemma {:induction false} RowsAfter(bundles: Bundles, known: set<string>, seeds: seq<BundleSeed>, now: string)
    requires DistinctKeys(seeds) && UpsertBundles(bundles, known, seeds, now).Some?
    ensures var after := UpsertBundles(bundles, known, seeds, now).value;
      (forall b :: b in seeds ==> UpsertedAlone(bundles, known, b, now, after))
      && forall k :: k in bundles && (forall b :: b in seeds ==> b.key != k) ==> k in after && after[k] == bundles[k]
    decreases |seeds|
  {
    if seeds != [] {
      var first, rest := seeds[0], seeds[1..];
      assert seeds == [first] + rest;
      DistinctTail(first, rest);
      var next := UpsertBundle(bundles, known, first, now).value;
      var after := UpsertBundles(next, known, rest, now).value;
      RowsAfter(next, known, rest, now);
      forall b | b in rest ensures UpsertedAlone(bundles, known, b, now, after) {
        UpsertedApart(bundles, next, known, b, now, after);
      }
      assert forall b :: b in seeds <==> b == first || b in rest;
    }
  }

  lemma DistinctTail(first: BundleSeed, rest: seq<BundleSeed>)
    requires DistinctKeys([first] + rest)
    ensures DistinctKeys(rest) && forall b :: b in rest ==> b.key != first.key
  {
    var seeds := [first] + rest;
    assert seeds[0] == first && forall i :: 0 <= i < |rest| ==> seeds[i + 1] == rest[i];
    forall i, j | 0 <= i < j < |rest| ensures rest[i].key != rest[j].key {
      assert seeds[i + 1].key != seeds[j + 1].key;
    }
  }

  lemma StoresOneMore(before: Bundles, first: BundleSeed, next: Bundles, rest: seq<BundleSeed>, after: Bundles)
    requires next.Keys == before.Keys + {first.key} && forall k :: k in before ==> next[k].id == before[k].id
    requires first.key !in before ==> next[first.key].id == first.id
    requires (forall b :: b in rest ==> b.key != first.key) && StoresBundles(next, rest, after)
    ensures StoresBundles(before, [first] + rest, after)
  {
    var seeds := [first] + rest;
    assert forall b :: b in seeds <==> b == first || b in rest;
    forall k | k in after && k !in before ensures exists b :: b in seeds && b.key == k {
      if k == first.key { assert first in seeds; }
    }
  }

  ghost predicate DistinctSlots(seeds: seq<BaselineSeed>) {
    forall i, j :: 0 <= i < j < |seeds| ==> seeds[i].slot != seeds[j].slot
  }

  /** Baselines for distinct slots are all stored as seeded. */
  lemma {:induction false} BaselinesAfter(baselines: Baselines, seeds: seq<BaselineSeed>, now: string)
    requires DistinctSlots(seeds) && UpsertBaselines(baselines, seeds, now).Some?
    ensures var after := UpsertBaselines(baselines, seeds, now).value;
      (forall b :: b in seeds ==>
         b.slot in after && after[b.slot].bundleId == b.bundleId && after[b.slot].responseId == b.responseId)
      && (forall s :: s in after ==> s in baselines || exists b :: b in seeds && b.slot == s)
      && forall s :: s in baselines && (forall b :: b in seeds ==> b.slot != s) ==>
        s in after && after[s] == baselines[s]
    decreases |seeds|
  {
    if seeds != [] {
      BaselinesAfter(UpsertBaseline(baselines, seeds[0], now).value, seeds[1..], now);
      assert forall b :: b in seeds <==> b == seeds[0] || b in seeds[1..];
      forall b | b in seeds[1..] ensures b.slot != seeds[0].slot {
        var i :| 0 <= i < |seeds[1..]| && seeds[1..][i] == b;
        assert seeds[i + 1] == b;
      }
    }
  }

  /** Cases have ids and keys of their own, and bundle ids are drawn anew. */
  ghost predicate WellSelected(cases: seq<Selected>, bundles: Bundles) {
    (forall i, j :: 0 <= i < j < |cases| ==>
      cases[i].caseKey != cases[j].caseKey && cases[i].caseId != cases[j].caseId
      && cases[i].bundleId != cases[j].bundleId)
    && forall c :: c in cases ==> !IdInUse(bundles, c.bundleId)
  }

  lemma KeysDistinct(cases: seq<Selected>, bundles: Bundles, packId: string)
    requires WellSelected(cases, bundles)
    ensures DistinctKeys(BundleSeeds(cases, packId))
    ensures forall c :: c in cases ==> BundleSeedOf(c, packId) in BundleSeeds(cases, packId)
  {
    var seeds := BundleSeeds(cases, packId);
    forall i, j | 0 <= i < j < |seeds| ensures seeds[i].key != seeds[j].key {
      assert cases[i].caseKey != cases[j].caseKey;
      assert NaturalKey(cases[i])[|"natural-"|..] == cases[i].caseKey;
      assert NaturalKey(cases[j])[|"natural-"|..] == cases[j].caseKey;
    }
    forall c | c in cases ensures BundleSeedOf(c, packId) in seeds {
      var i :| 0 <= i < |cases| && cases[i] == c;
      assert seeds[i] == BundleSeedOf(c, packId);
    }
  }

  const SEATS: seq<string> := VIEW_SEATS + [JUDGE]

  /** A seat's baseline names the seat's response; only the judge's names a bundle. */
  predicate SeedFor(b: BaselineSeed, c: Selected, packId: string, seat: string) {
    seat in SEATS && seat in c.responses && b.slot == Slot(packId, seat, c.caseId) && b.responseId == c.responses[seat]
    && b.bundleId == (if seat == JUDGE then Some(c.bundleId) else None)
    && (seat in c.rowIds ==> b.rowId == c.rowIds[seat])
  }

  lemma SeatSeedIs(c: Selected, packId: string, seat: string)
    requires seat in SEATS
    ensures forall b :: b in SeatSeed(c, packId, seat) ==> SeedFor(b, c, packId, seat)
    ensures seat in c.responses ==> SeatSeed(c, packId, seat) != []
  {
  }

  lemma SeatOfCase(c: Selected, packId: string, b: BaselineSeed)
    ensures b in CaseSeeds(c, packId) <==> exists seat :: seat in SEATS && b in SeatSeed(c, packId, seat)
  {
    assert SEATS == [VIEW_SEATS[0], VIEW_SEATS[1], VIEW_SEATS[2], JUDGE];
    assert SEATS[0] in SEATS && SEATS[1] in SEATS && SEATS[2] in SEATS && SEATS[3] in SEATS;
  }

  /** A case's seeds are its seats' seeds. */
  lemma CaseSeedsAre(c: Selected, packId: string)
    ensures forall b :: b in CaseSeeds(c, packId) ==> SeedFor(b, c, packId, b.slot.seat)
    ensures forall seat :: seat in SEATS && seat in c.responses ==>
      exists b :: b in CaseSeeds(c, packId) && SeedFor(b, c, packId, seat)
  {
    forall b | b in CaseSeeds(c, packId) ensures SeedFor(b, c, packId, b.slot.seat) {
      SeatOfCase(c, packId, b);
      var seat :| seat in SEATS && b in SeatSeed(c, packId, seat);
      SeatSeedIs(c, packId, seat);
    }
    forall seat | seat in SEATS && seat in c.responses
      ensures exists b :: b in CaseSeeds(c, packId) && SeedFor(b, c, packId, seat)
    {
      SeatSeedIs(c, packId, seat);
      var b := SeatSeed(c, packId, seat)[0];
      SeatOfCase(c, packId, b);
      assert b in CaseSeeds(c, packId) && SeedFor(b, c, packId, seat);
    }
  }

  lemma CaseSlots(c: Selected, packId: string)
    ensures DistinctSlots(CaseSeeds(c, packId))
  {
    SeatSlots(c, packId, VIEW_SEATS[0], VIEW_SEATS[1]);
    var two := SeatSeed(c, packId, VIEW_SEATS[0]) + SeatSeed(c, packId, VIEW_SEATS[1]);
    SlotsConcat(two, SeatSeed(c, packId, VIEW_SEATS[2]));
    SlotsConcat(two + SeatSeed(c, packId, VIEW_SEATS[2]), SeatSeed(c, packId, JUDGE));
  }

  lemma SeatSlots(c: Selected, packId: string, seat: string, other: string)
    requires seat != other
    ensures DistinctSlots(SeatSeed(c, packId, seat) + SeatSeed(c, packId, other))
  {
    SlotsConcat(SeatSeed(c, packId, seat), SeatSeed(c, packId, other));
  }

  ghost predicate IsSeed(b: BaselineSeed, cases: seq<Selected>, packId: string) {
    exists c :: c in cases && SeedFor(b, c, packId, b.slot.seat)
  }

  ghost predicate HasSeed(seeds: seq<BaselineSeed>, c: Selected, packId: string, seat: string) {
    exists b :: b in seeds && SeedFor(b, c, packId, seat)
  }

  /** Every seed is some case's, and every response of a case has its seed. */
  lemma {:induction false} SeedsAre(cases: seq<Selected>, packId: string)
    ensures forall b :: b in BaselineSeeds(cases, packId) ==> IsSeed(b, cases, packId)
    ensures forall c, seat :: c in cases && seat in SEATS && seat in c.responses ==>
      HasSeed(BaselineSeeds(cases, packId), c, packId, seat)
  {
    if cases != [] {
      var head, rest := CaseSeeds(cases[0], packId), BaselineSeeds(cases[1..], packId);
      CaseSeedsAre(cases[0], packId);
      SeedsAre(cases[1..], packId);
      assert forall c :: c in cases <==> c == cases[0] || c in cases[1..];
      assert forall b :: b in head + rest <==> b in head || b in rest;
      forall c, seat | c in cases && seat in SEATS && seat in c.responses
        ensures HasSeed(BaselineSeeds(cases, packId), c, packId, seat)
      {
        assert c != cases[0] ==> HasSeed(rest, c, packId, seat);
      }
    }
  }

  lemma {:induction false} SlotsDistinct(cases: seq<Selected>, packId: string)
    requires forall i, j :: 0 <= i < j < |cases| ==> cases[i].caseId != cases[j].caseId
    ensures DistinctSlots(BaselineSeeds(cases, packId))
  {
    if cases != [] {
      var head, rest := CaseSeeds(cases[0], packId), BaselineSeeds(cases[1..], packId);
      CaseSlots(cases[0], packId);
      CaseSeedsAre(cases[0], packId);
      SlotsDistinct(cases[1..], packId);
      SeedsAre(cases[1..], packId);
      forall b, d | b in head && d in rest ensures b.slot != d.slot {
        assert SeedFor(b, cases[0], packId, b.slot.seat) && IsSeed(d, cases[1..], packId);
        var c :| c in cases[1..] && SeedFor(d, c, packId, d.slot.seat);
        var i :| 0 <= i < |cases[1..]| && cases[1..][i] == c;
        assert cases[i + 1] == c;
      }
      SlotsConcat(head, rest);
    }
  }

  lemma SlotsConcat(a: seq<BaselineSeed>, b: seq<BaselineSeed>)
    requires DistinctSlots(a) && DistinctSlots(b) && forall x, y :: x in a && y in b ==> x.slot != y.slot
    ensures DistinctSlots(a + b)
  {
    forall i, j | 0 <= i < j < |a + b| ensures (a + b)[i].slot != (a + b)[j].slot {
      assert (a + b)[i] == if i < |a| then a[i] else b[i - |a|];
      assert (a + b)[j] == if j < |a| then a[j] else b[j - |a|];
    }
  }

  /** After publishing, the judge's baseline for a case names a stored bundle
      exactly if the case's natural bundle had not been stored before: a stored
      one keeps its old id while the baseline gets the new one. */
  lemma JudgeNamesStoredBundleExactlyIf(cases: seq<Selected>, packId: string, known: set<string>, now: string,
                                        bundles: Bundles, baselines: Baselines,
                                        bundles': Bundles, baselines': Baselines, c: Selected)
    requires WellSelected(cases, bundles) && c in cases && JUDGE in c.responses
    requires UpsertBundles(bundles, known, BundleSeeds(cases, packId), now) == Some(bundles')
    requires UpsertBaselines(baselines, BaselineSeeds(cases, packId), now) == Some(baselines')
    ensures var slot := Slot(packId, JUDGE, c.caseId);
      slot in baselines' && baselines'[slot].bundleId == Some(c.bundleId)
    ensures NaturalKey(c) in bundles'
    ensures IdInUse(bundles', c.bundleId) <==> NaturalKey(c) !in bundles
  {
    JudgeIsSeeded(cases, packId, now, baselines, c);
    KeysDistinct(cases, bundles, packId);
    BundlesAfter(bundles, known, BundleSeeds(cases, packId), now);
    assert BundleSeedOf(c, packId) in BundleSeeds(cases, packId);
    assert !IdInUse(bundles, c.bundleId);
    assert forall k :: k in bundles ==> bundles[k].id != c.bundleId;
    if IdInUse(bundles', c.bundleId) {
      var k :| k in bundles' && bundles'[k].id == c.bundleId;
      if k !in bundles {
        var b :| b in BundleSeeds(cases, packId) && b.key == k;
        var i :| 0 <= i < |cases| && BundleSeeds(cases, packId)[i] == b;
        var j :| 0 <= j < |cases| && cases[j] == c;
        assert i == j;
      }
    }
  }

  lemma JudgeIsSeeded(cases: seq<Selected>, packId: string, now: string, baselines: Baselines, c: Selected)
    requires forall i, j :: 0 <= i < j < |cases| ==> cases[i].caseId != cases[j].caseId
    requires c in cases && JUDGE in c.responses && UpsertBaselines(baselines, BaselineSeeds(cases, packId), now).Some?
    ensures var slot := Slot(packId, JUDGE, c.caseId);
      var after := UpsertBaselines(baselines, BaselineSeeds(cases, packId), now).value;
      slot in after && after[slot].bundleId == Some(c.bundleId)
  {
    SlotsDistinct(cases, packId);
    BaselinesAfter(baselines, BaselineSeeds(cases, packId), now);
    SeedsAre(cases, packId);
    assert JUDGE in SEATS by { assert SEATS[3] == JUDGE; }
    assert HasSeed(BaselineSeeds(cases, packId), c, packId, JUDGE);
  }

  /** After publishing, the natural bundle of a case holds its views and hash and
      names the pack; a stored one keeps its id and creation time. */
  lemma BundleHoldsCase(cases: seq<Selected>, packId: string, known: set<string>, now: string, bundles: Bundles,
                        bundles': Bundles, c: Selected)
    requires WellSelected(cases, bundles) && c in cases
    requires UpsertBundles(bundles, known, BundleSeeds(cases, packId), now) == Some(bundles')
    ensures var key := "natural-" + c.caseKey;
      key in bundles' && bundles'[key].source == Some(packId) && bundles'[key].kind == "natural"
      && bundles'[key].manipulations == "[]"
      && (c.caseId != "" ==> bundles'[key].caseId == c.caseId) && (c.views != "" ==> bundles'[key].views == c.views)
      && (c.hash != "" ==> bundles'[key].hash == c.hash)
      && if key in bundles then bundles'[key].id == bundles[key].id && bundles'[key].createdAt == bundles[key].createdAt
         else bundles'[key].id == c.bundleId && bundles'[key].createdAt == now
  {
    KeysDistinct(cases, bundles, packId);
    RowsAfter(bundles, known, BundleSeeds(cases, packId), now);
    assert UpsertedAlone(bundles, known, BundleSeedOf(c, packId), now, bundles');
    UpsertBundleIs(bundles, known, BundleSeedOf(c, packId), now);
  }

  /** After publishing, a seat has a baseline for a case exactly if it has a response
      that can serve as evidence, or had one before; it names that response, and
      the judge's also the case's bundle. */
  lemma BaselinesNameResponses(cases: seq<Selected>, packId: string, now: string, baselines: Baselines,
                               baselines': Baselines, c: Selected, seat: string)
    requires forall i, j :: 0 <= i < j < |cases| ==> cases[i].caseId != cases[j].caseId
    requires c in cases && seat in SEATS
    requires UpsertBaselines(baselines, BaselineSeeds(cases, packId), now) == Some(baselines')
    ensures var slot := Slot(packId, seat, c.caseId);
      (slot in baselines' <==> seat in c.responses || slot in baselines)
      && (seat in c.responses ==> baselines'[slot].responseId == c.responses[seat]
                                  && baselines'[slot].bundleId == if seat == JUDGE then Some(c.bundleId) else None)
      && (seat !in c.responses && slot in baselines ==> baselines'[slot] == baselines[slot])
  {
    var slot, seeds := Slot(packId, seat, c.caseId), BaselineSeeds(cases, packId);
    SlotsDistinct(cases, packId);
    SeedsAre(cases, packId);
    BaselinesAfter(baselines, seeds, now);
    if seat in c.responses {
      assert HasSeed(seeds, c, packId, seat);
    } else {
      forall b | b in seeds ensures b.slot != slot { NoSeedWithout(cases, packId, c, seat, b); }
    }
  }

  lemma NoSeedWithout(cases: seq<Selected>, packId: string, c: Selected, seat: string, b: BaselineSeed)
    requires forall i, j :: 0 <= i < j < |cases| ==> cases[i].caseId != cases[j].caseId
    requires c in cases && seat !in c.responses
    requires IsSeed(b, cases, packId)
    ensures b.slot != Slot(packId, seat, c.caseId)
  {
    var d :| d in cases && SeedFor(b, d, packId, b.slot.seat);
    var i :| 0 <= i < |cases| && cases[i] == c;
    var j :| 0 <= j < |cases| && cases[j] == d;
  }

  /** Publishing again over the same cases, under bundle ids drawn anew, leaves
      every judge's baseline naming a bundle that does not exist. */
  lemma SecondPublishDangles(cases: seq<Selected>, first: string, now: string, again: seq<Selected>, second: string,
                             later: string, known: set<string>, bundles: Bundles, baselines: Baselines,
                             bundles': Bundles, bundles'': Bundles, baselines'': Baselines, c: Selected)
    requires WellSelected(cases, bundles)
    requires UpsertBundles(bundles, known, BundleSeeds(cases, first), now) == Some(bundles')
    requires WellSelected(again, bundles') && c in again && JUDGE in c.responses
    requires exists d :: d in cases && d.caseKey == c.caseKey
    requires UpsertBundles(bundles', known, BundleSeeds(again, second), later) == Some(bundles'')
    requires UpsertBaselines(baselines, BaselineSeeds(again, second), later) == Some(baselines'')
    ensures var slot := Slot(second, JUDGE, c.caseId);
      slot in baselines'' && baselines''[slot].bundleId == Some(c.bundleId)
    ensures !IdInUse(bundles'', c.bundleId)
  {
    var d :| d in cases && d.caseKey == c.caseKey;
    KeysDistinct(cases, bundles, first);
    BundlesAfter(bundles, known, BundleSeeds(cases, first), now);
    assert BundleSeedOf(d, first) in BundleSeeds(cases, first);
    JudgeNamesStoredBundleExactlyIf(again, second, known, later, bundles', baselines, bundles'', baselines'', c);
  }

  /** A case as selected with a newly drawn bundle id and a new response of the judge. */
  function OneCase(bundleId: string, response: string, rowId: string): Selected {
    Selected("case", "key", bundleId, "{}", "hash", map[JUDGE := response], map[JUDGE := rowId])
  }

  lemma OneSeed(c: Selected, packId: string)
    requires c.responses.Keys == {JUDGE} && JUDGE in c.rowIds
    ensures BundleSeeds([c], packId) == [BundleSeedOf(c, packId)] && BundleSeedOf(c, packId).key == NaturalKey(c)
    ensures BaselineSeeds([c], packId)
         == [BaselineSeed(c.rowIds[JUDGE], Slot(packId, JUDGE, c.caseId), Some(c.bundleId), c.responses[JUDGE])]
  {
    assert VIEW_SEATS[0] != JUDGE && VIEW_SEATS[1] != JUDGE && VIEW_SEATS[2] != JUDGE;
    assert BaselineSeeds([c][1..], packId) == [];
  }

  /** Two publishes of one case into empty tables: the bundle keeps the id of the
      first, and the second judge's baseline names another that no bundle has. */
  lemma OneCaseDangles() returns (bundles: Bundles, bundles': Bundles, baselines: Baselines, baselines': Baselines)
    ensures var c, d := OneCase("b1", "r1", "w1"), OneCase("b2", "r2", "w2");
      UpsertBundles(map[], {"case"}, BundleSeeds([c], "p1"), "monday") == Some(bundles)
      && UpsertBundles(bundles, {"case"}, BundleSeeds([d], "p2"), "tuesday") == Some(bundles')
      && UpsertBaselines(map[], BaselineSeeds([c], "p1"), "monday") == Some(baselines)
      && UpsertBaselines(baselines, BaselineSeeds([d], "p2"), "tuesday") == Some(baselines')
    ensures bundles'.Keys == {"natural-key"} && bundles'["natural-key"].id == "b1"
    ensures var slot := Slot("p2", JUDGE, "case"); slot in baselines' && baselines'[slot].bundleId == Some("b2")
    ensures !IdInUse(bundles', "b2")
  {
    var c, d := OneCase("b1", "r1", "w1"), OneCase("b2", "r2", "w2");
    OneSeed(c, "p1");
    OneSeed(d, "p2");
    assert NaturalKey(c) == NaturalKey(d) == "natural-key";
    bundles, baselines := OneStored(map[], map[], BundleSeedOf(c, "p1"), BaselineSeeds([c], "p1")[0], "monday");
    bundles', baselines' :=
      OneStored(bundles, baselines, BundleSeedOf(d, "p2"), BaselineSeeds([d], "p2")[0], "tuesday");
    assert !IdInUse(bundles', "b2");
  }

  lemma OneStored(bundles: Bundles, baselines: Baselines, b: BundleSeed, l: BaselineSeed, now: string)
    returns (bundles': Bundles, baselines': Baselines)
    requires UpsertBundle(bundles, {"case"}, b, now).Some? && UpsertBaseline(baselines, l, now).Some?
    ensures UpsertBundles(bundles, {"case"}, [b], now) == Some(bundles')
    ensures Some(bundles') == UpsertBundle(bundles, {"case"}, b, now)
    ensures UpsertBaselines(baselines, [l], now) == Some(baselines')
    ensures Some(baselines') == UpsertBaseline(baselines, l, now)
  {
    bundles' := UpsertBundle(bundles, {"case"}, b, now).value;
    baselines' := UpsertBaseline(baselines, l, now).value;
    assert [b][1..] == [] && [l][1..] == [];
  }
}
