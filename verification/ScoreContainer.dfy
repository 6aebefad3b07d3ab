/** Reading the five criterion scores out of the containers graders use: a map
    of numbers, a map of objects, or a list of objects. */
module ScoreContainer {
  import opened Text
  import opened Json
  import opened Decode
  import opened LenientParser

  const CRITERIA: seq<string> := [
    "grounding_and_calibration", "context_and_values_fidelity", "decision_insight",
    "practical_robustness", "role_execution"]

  // ------------------------------------------------------------- criterion keys

  /** A space becomes an underscore and a letter lower case.  Two letters outside
      ASCII have an ASCII lower case; the others cannot matter, for every text
      looked for is ASCII. */
  function LowerChar(c: char): char {
    if 'A' <= c <= 'Z' then (c as int + 32) as char
    else if c == ' ' then '_'
    else if c == '\U{0130}' then 'i'
    else if c == '\U{212A}' then 'k'
    else c
  }

  function LowerKey(s: string): string { seq(|s|, i requires 0 <= i < |s| => LowerChar(s[i])) }

  predicate OccursAt(s: string, part: string, i: nat) { i + |part| <= |s| && s[i..i + |part|] == part }

  predicate Contains(s: string, part: string) { exists i: nat :: i <= |s| && OccursAt(s, part, i) }

  /** The criterion a key stands for: its exact name, or the first distinctive word in it. */
  function NormalizeCriterionKey(name: string): (r: Option<string>)
    ensures r.Some? ==> r.value in CRITERIA
  {
    var key := LowerKey(TrimSpace(name));
    if key in CRITERIA then Some(key)
    else if Contains(key, "grounding") then Some(CRITERIA[0])
    else if Contains(key, "context") || Contains(key, "fidelity") || Contains(key, "values") then Some(CRITERIA[1])
    else if Contains(key, "insight") || Contains(key, "decision") then Some(CRITERIA[2])
    else if Contains(key, "robustness") || Contains(key, "practical") then Some(CRITERIA[3])
    else if Contains(key, "role") || Contains(key, "execution") then Some(CRITERIA[4])
    else None
  }

  // -------------------------------------------------------------------- entries

  datatype Entry = Entry(name: string, score: Option<int>)

  predicate ValidScores(m: map<string, int>) {
    |m| == |CRITERIA| && forall c :: c in CRITERIA ==> c in m && 0 <= m[c] <= 4
  }

  /** The scores under the criteria; a later entry replaces an earlier one. */
  function Collect(entries: seq<Entry>): Option<map<string, int>> {
    if entries == [] then Some(map[]) else
      var front, last := Collect(entries[..|entries| - 1]), entries[|entries| - 1];
      var key := NormalizeCriterionKey(last.name);
      if front.None? || last.score.None? || key.None? then None else Some(front.value[key.value := last.score.value])
  }

  /** An entry that can be collected. */
  predicate Collectable(e: Entry) { e.score.Some? && NormalizeCriterionKey(e.name).Some? }

  function CriterionOf(e: Entry): string
    requires Collectable(e)
  {
    NormalizeCriterionKey(e.name).value
  }

  lemma {:induction false} CollectsIf(entries: seq<Entry>)
    ensures Collect(entries).Some? <==> forall e :: e in entries ==> Collectable(e)
  {
    if entries != [] {
      var front, last := entries[..|entries| - 1], entries[|entries| - 1];
      CollectsIf(front);
      assert last in entries && forall e :: e in entries <==> e in front || e == last;
    }
  }

  method CollectScores(entries: seq<Entry>) returns (r: Option<map<string, int>>)
    ensures r == Collect(entries)
  {
    var m: map<string, int> := map[];
    for i := 0 to |entries|
      invariant Collect(entries[..i]) == Some(m)
    {
      assert entries[..i + 1][..i] == entries[..i] && entries[..i + 1][i] == entries[i];
      var key := NormalizeCriterionKey(entries[i].name);
      if entries[i].score.None? || key.None? {
        CollectsIf(entries);
        assert entries[i] in entries;
        return None;
      }
      m := m[key.value := entries[i].score.value];
    }
    assert entries[..|entries|] == entries;
    return Some(m);
  }

  function Checked(m: Option<map<string, int>>): (r: Option<map<string, int>>)
    ensures r.Some? ==> ValidScores(r.value)
  {
    if m.Some? && ValidScores(m.value) then m else None
  }

  // ----------------------------------------------------------------- containers

  /** The order in which a map with these keys is walked. */
  type Walk = set<string> -> seq<string>

  ghost predicate ListsAll(keys: seq<string>, s: set<string>) {
    (forall i, j :: 0 <= i < j < |keys| ==> keys[i] != keys[j]) && forall k :: k in keys <==> k in s
  }

  ghost predicate IsWalk(walk: Walk) { forall s :: ListsAll(walk(s), s) }

  function FieldAt(m: map<string, Json>, k: string): Json { if k in m then m[k] else Null }

  function FlatEntries(m: map<string, Json>, keys: seq<string>): seq<Entry> {
    seq(|keys|, i requires 0 <= i < |keys| => Entry(keys[i], IntOf(FieldAt(m, keys[i]))))
  }

  /** The score of {"score": n}; None where it is missing or null. */
  ghost function ScoreIn(v: Json): Option<int> {
    match IntPointerOf(Field(v, "score"))
    case None => None
    case Some(n) => n
  }

  predicate HasScore(v: Json) {
    IsFields(v) && forall k :: k in Spellings(v, "score") ==> IntPointerOf(FieldsOf(v)[k]).Some?
  }

  ghost function WrappedEntries(m: map<string, Json>, keys: seq<string>): seq<Entry> {
    seq(|keys|, i requires 0 <= i < |keys| => Entry(keys[i], ScoreIn(FieldAt(m, keys[i]))))
  }

  ghost function ListedEntries(items: seq<Json>): seq<Entry> {
    seq(|items|, i requires 0 <= i < |items| => Entry(StringAt(items[i], "name"), ScoreIn(items[i])))
  }

  predicate IsFlat(v: Json) { IsFields(v) && forall k :: k in FieldsOf(v) ==> IntOf(FieldsOf(v)[k]).Some? }

  predicate IsWrapped(v: Json) { IsFields(v) && forall k :: k in FieldsOf(v) ==> HasScore(FieldsOf(v)[k]) }

  predicate IsListed(v: Json) {
    IsItems(v) && forall x :: x in ItemsOf(v) ==> HasScore(x) && HasString(x, "name")
  }

  function FlatScores(v: Json, walk: Walk): (r: Option<map<string, int>>)
    ensures r.Some? ==> ValidScores(r.value)
  {
    if IsFlat(v) then Checked(Collect(FlatEntries(FieldsOf(v), walk(FieldsOf(v).Keys)))) else None
  }

  /** A flat reading may fall through; a wrapped one decides, and so does a list. */
  ghost function DecodeScores(v: Json, walk: Walk): (r: Option<map<string, int>>)
    ensures r.Some? ==> ValidScores(r.value)
  {
    if FlatScores(v, walk).Some? then FlatScores(v, walk)
    else if IsWrapped(v) then Checked(Collect(WrappedEntries(FieldsOf(v), walk(FieldsOf(v).Keys))))
    else if IsListed(v) then Checked(Collect(ListedEntries(ItemsOf(v))))
    else None
  }

  // ------------------------------------------------------- which entry decides

  /** No later entry stands for the same criterion. */
  ghost predicate Decides(entries: seq<Entry>, i: nat)
    requires forall e :: e in entries ==> Collectable(e)
  {
    i < |entries| && forall j :: i < j < |entries| ==> CriterionOf(entries[j]) != CriterionOf(entries[i])
  }

  ghost predicate ScoredBy(entries: seq<Entry>, i: nat, m: map<string, int>)
    requires (forall e :: e in entries ==> Collectable(e)) && i < |entries|
  {
    CriterionOf(entries[i]) in m && Some(m[CriterionOf(entries[i])]) == entries[i].score
  }

  /** m holds the score of every deciding entry and no other. */
  ghost predicate FromDeciders(entries: seq<Entry>, m: map<string, int>)
    requires forall e :: e in entries ==> Collectable(e)
  {
    (forall i: nat :: Decides(entries, i) ==> ScoredBy(entries, i, m))
    && forall c :: c in m ==> exists i: nat :: Decides(entries, i) && CriterionOf(entries[i]) == c
  }

  /** The map holds exactly the scores of the deciding entries. */
  lemma {:induction false} DecidersGiveScores(entries: seq<Entry>)
    requires Collect(entries).Some?
    ensures forall e :: e in entries ==> Collectable(e)
    ensures FromDeciders(entries, Collect(entries).value)
  {
    CollectsIf(entries);
    if entries != [] {
      var front, last := entries[..|entries| - 1], entries[|entries| - 1];
      assert entries == front + [last];
      DecidersGiveScores(front);
      FromOneMore(front, last, Collect(front).value);
    }
  }

  lemma FromOneMore(front: seq<Entry>, last: Entry, m: map<string, int>)
    requires (forall e :: e in front ==> Collectable(e)) && Collectable(last) && FromDeciders(front, m)
    ensures forall e :: e in front + [last] ==> Collectable(e)
    ensures FromDeciders(front + [last], m[CriterionOf(last) := last.score.value])
  {
    var all, m' := front + [last], m[CriterionOf(last) := last.score.value];
    DecidersMore(front, last);
    forall i: nat | Decides(all, i) ensures ScoredBy(all, i, m') {
      if i < |front| {
        assert Decides(front, i) && ScoredBy(front, i, m);
        assert all[i] == front[i];
      }
    }
    forall c | c in m' ensures exists i: nat :: Decides(all, i) && CriterionOf(all[i]) == c {
      if c == CriterionOf(last) {
        assert Decides(all, |front|) && all[|front|] == last;
      } else {
        var i: nat :| Decides(front, i) && CriterionOf(front[i]) == c;
        assert Decides(all, i) && all[i] == front[i];
      }
    }
  }

  /** The entry a score comes from. */
  lemma DeciderOf(entries: seq<Entry>, c: string) returns (i: nat)
    requires Collect(entries).Some? && c in Collect(entries).value
    ensures i < |entries| && NormalizeCriterionKey(entries[i].name) == Some(c)
    ensures entries[i].score == Some(Collect(entries).value[c])
  {
    DecidersGiveScores(entries);
    i :| Decides(entries, i) && CriterionOf(entries[i]) == c;
    assert entries[i] in entries;
  }

  lemma DecidersMore(front: seq<Entry>, last: Entry)
    requires forall e :: e in front + [last] ==> Collectable(e)
    ensures forall e :: e in front ==> Collectable(e)
    ensures Collectable(last) && Decides(front + [last], |front|)
    ensures forall i: nat :: i < |front| ==>
      (Decides(front + [last], i) <==> Decides(front, i) && CriterionOf(front[i]) != CriterionOf(last))
  {
    var all := front + [last];
    forall e | e in front ensures Collectable(e) { assert e in all; }
    assert last in all && all[|front|] == last;
    forall i: nat | i < |front|
      ensures Decides(all, i) <==> Decides(front, i) && CriterionOf(front[i]) != CriterionOf(last)
    {
      assert all[i] == front[i];
      assert forall j :: i < j < |front| ==> all[j] == front[j];
      if Decides(all, i) {
        forall j | i < j < |front| ensures CriterionOf(front[j]) != CriterionOf(front[i]) { assert all[j] == front[j]; }
      }
    }
  }

  /** No two entries stand for the same criterion. */
  ghost predicate NoneTwice(entries: seq<Entry>)
    requires forall e :: e in entries ==> Collectable(e)
  {
    forall i, j :: 0 <= i < j < |entries| ==> CriterionOf(entries[i]) != CriterionOf(entries[j])
  }

  /** Every entry's score is kept under its criterion. */
  ghost predicate AllKept(entries: seq<Entry>, m: map<string, int>)
    requires forall e :: e in entries ==> Collectable(e)
  {
    forall e :: e in entries ==> CriterionOf(e) in m && Some(m[CriterionOf(e)]) == e.score
  }

  ghost function CriteriaOf(entries: seq<Entry>): set<string>
    requires forall e :: e in entries ==> Collectable(e)
  {
    set e | e in entries :: CriterionOf(e)
  }

  lemma {:induction false} CollectSize(entries: seq<Entry>)
    requires Collect(entries).Some? && forall e :: e in entries ==> Collectable(e)
    ensures Collect(entries).value.Keys == CriteriaOf(entries)
    ensures var m := Collect(entries).value; |m| <= |entries| && (|m| == |entries| <==> NoneTwice(entries))
  {
    if entries != [] {
      var front, last := entries[..|entries| - 1], entries[|entries| - 1];
      assert entries == front + [last];
      CriteriaMore(front, last);
      CollectSize(front);
      OneMore(Collect(front).value, CriterionOf(last), last.score.value);
    }
  }

  lemma OneMore(m: map<string, int>, c: string, score: int)
    ensures m[c := score].Keys == m.Keys + {c}
    ensures |m[c := score]| == |m| + if c in m then 0 else 1
  {
    var m' := m[c := score];
    assert m'.Keys == m.Keys + {c};
    assert |m'| == |m'.Keys| && |m| == |m.Keys|;
    if c in m { assert m'.Keys == m.Keys; }
  }

  lemma CriteriaMore(front: seq<Entry>, last: Entry)
    requires forall e :: e in front + [last] ==> Collectable(e)
    ensures (forall e :: e in front ==> Collectable(e)) && Collectable(last)
    ensures CriteriaOf(front + [last]) == CriteriaOf(front) + {CriterionOf(last)}
    ensures NoneTwice(front + [last]) <==> NoneTwice(front) && CriterionOf(last) !in CriteriaOf(front)
  {
    var all := front + [last];
    assert forall e :: e in all <==> e in front || e == last;
    assert all[|front|] == last && forall i :: 0 <= i < |front| ==> all[i] == front[i];
    if NoneTwice(all) {
      forall i, j | 0 <= i < j < |front| ensures CriterionOf(front[i]) != CriterionOf(front[j]) {
        assert all[i] == front[i] && all[j] == front[j];
      }
      forall e | e in front ensures CriterionOf(e) != CriterionOf(last) {
        var i :| 0 <= i < |front| && front[i] == e;
        assert all[i] == e;
      }
    }
  }

  /** A container has as many entries as the map it is read into (five, if that is
      accepted) exactly if no two stand for the same criterion, and then every
      entry's score is kept under its criterion. */
  lemma AcceptedScoresAreKept(entries: seq<Entry>, m: map<string, int>)
    requires Collect(entries) == Some(m)
    ensures forall e :: e in entries ==> Collectable(e)
    ensures |entries| == |m| <==> NoneTwice(entries)
    ensures |entries| == |m| ==> AllKept(entries, m)
    ensures ValidScores(m) ==> |m| == |CRITERIA|
  {
    CollectsIf(entries);
    CollectSize(entries);
    if NoneTwice(entries) { NoneTwiceKeepsAll(entries); }
  }

  lemma NoneTwiceKeepsAll(entries: seq<Entry>)
    requires Collect(entries).Some? && (forall e :: e in entries ==> Collectable(e)) && NoneTwice(entries)
    ensures AllKept(entries, Collect(entries).value)
  {
    DecidersGiveScores(entries);
    var m := Collect(entries).value;
    forall e | e in entries ensures CriterionOf(e) in m && Some(m[CriterionOf(e)]) == e.score {
      var i: nat :| i < |entries| && entries[i] == e;
      assert Decides(entries, i);
    }
  }

  // ------------------------------------------------- the order of a map's walk

  /** The entries of a map of numbers or, where one of them is none, of objects. */
  ghost function MapEntries(v: Json, keys: seq<string>): seq<Entry> {
    if IsFlat(v) then FlatEntries(FieldsOf(v), keys) else WrappedEntries(FieldsOf(v), keys)
  }

  /** The score a map container gives at a key. */
  ghost function ScoreAt(v: Json, k: string): Option<int> {
    if IsFlat(v) then IntOf(FieldAt(FieldsOf(v), k)) else ScoreIn(FieldAt(FieldsOf(v), k))
  }

  lemma MapEntriesAre(v: Json, keys: seq<string>)
    ensures |MapEntries(v, keys)| == |keys|
    ensures forall i :: 0 <= i < |keys| ==> MapEntries(v, keys)[i] == Entry(keys[i], ScoreAt(v, keys[i]))
  {
  }

  lemma WrappedNullsFail(m: map<string, Json>, keys: seq<string>)
    requires keys != [] && FieldAt(m, keys[0]).Null?
    ensures Collect(WrappedEntries(m, keys)) == None
  {
    var entries := WrappedEntries(m, keys);
    assert entries[0] in entries && entries[0].score == None;
    CollectsIf(entries);
  }

  /** A map container is accepted through one reading only. */
  lemma MapIsReadOneWay(v: Json, walk: Walk)
    requires v.Object? && IsWalk(walk)
    ensures DecodeScores(v, walk)
         == if IsFlat(v) || IsWrapped(v) then Checked(Collect(MapEntries(v, walk(v.fields.Keys)))) else None
  {
    var keys := walk(v.fields.Keys);
    assert ListsAll(keys, v.fields.Keys);
    if IsFlat(v) && IsWrapped(v) && keys != [] {
      assert keys[0] in FieldsOf(v) && FieldsOf(v)[keys[0]].Null?;
      WrappedNullsFail(v.fields, keys);
    } else if keys == [] {
      assert Collect(WrappedEntries(v.fields, keys)) == Some(map[]) == Collect(FlatEntries(v.fields, keys));
    }
  }

  /** Keys that stand for the same criterion carry the same score. */
  ghost predicate TwinsAgree(v: Json) {
    forall k, l :: k in FieldsOf(v) && l in FieldsOf(v) && NormalizeCriterionKey(k) == NormalizeCriterionKey(l) ==>
      ScoreAt(v, k) == ScoreAt(v, l)
  }

  /** m holds exactly the scores of v's keys, one of them for each criterion. */
  ghost predicate HoldsScores(v: Json, m: map<string, int>) {
    (forall c :: c in m ==> GivenAt(v, c, m[c]))
    && forall k :: k in FieldsOf(v) ==> NormalizeCriterionKey(k).Some? && NormalizeCriterionKey(k).value in m
  }

  ghost predicate GivenAt(v: Json, c: string, score: int) {
    exists k :: k in FieldsOf(v) && NormalizeCriterionKey(k) == Some(c) && ScoreAt(v, k) == Some(score)
  }

  lemma CollectedByKeys(v: Json, keys: seq<string>)
    requires v.Object? && ListsAll(keys, v.fields.Keys) && Collect(MapEntries(v, keys)).Some?
    ensures HoldsScores(v, Collect(MapEntries(v, keys)).value)
  {
    var entries := MapEntries(v, keys);
    var m := Collect(entries).value;
    MapEntriesAre(v, keys);
    CollectsIf(entries);
    CollectSize(entries);
    forall c | c in m ensures GivenAt(v, c, m[c]) {
      var i := DeciderOf(entries, c);
      assert keys[i] in v.fields;
    }
    forall k | k in v.fields
      ensures NormalizeCriterionKey(k).Some? && NormalizeCriterionKey(k).value in m
    {
      var i: nat :| i < |keys| && keys[i] == k;
      assert entries[i] in entries && CriterionOf(entries[i]) in m;
    }
  }

  lemma HeldScoresAreUnique(v: Json, m: map<string, int>, m': map<string, int>)
    requires TwinsAgree(v) && HoldsScores(v, m) && HoldsScores(v, m')
    ensures m == m'
  {
    forall c ensures c in m <==> c in m' {
      if c in m { assert GivenAt(v, c, m[c]); }
      if c in m' { assert GivenAt(v, c, m'[c]); }
    }
    forall c | c in m ensures m[c] == m'[c] {
      assert GivenAt(v, c, m[c]) && GivenAt(v, c, m'[c]);
    }
  }

  /** Whether a map container can be collected does not depend on the walk. */
  lemma CollectsAlike(v: Json, keys: seq<string>, keys': seq<string>)
    requires v.Object? && ListsAll(keys, v.fields.Keys) && ListsAll(keys', v.fields.Keys)
    requires Collect(MapEntries(v, keys)).Some?
    ensures Collect(MapEntries(v, keys')).Some?
  {
    var entries, entries' := MapEntries(v, keys), MapEntries(v, keys');
    MapEntriesAre(v, keys);
    MapEntriesAre(v, keys');
    CollectsIf(entries);
    forall e | e in entries' ensures Collectable(e) {
      var i: nat :| i < |keys'| && entries'[i] == e;
      assert keys'[i] in keys;
      var j: nat :| j < |keys| && keys[j] == keys'[i];
      assert entries[j] in entries;
    }
    CollectsIf(entries');
  }

  /** If keys agree, what is collected is the same for every walk. */
  lemma AgreeingKeysCollectAlike(v: Json, keys: seq<string>, keys': seq<string>)
    requires v.Object? && ListsAll(keys, v.fields.Keys) && ListsAll(keys', v.fields.Keys) && TwinsAgree(v)
    requires Collect(MapEntries(v, keys)).Some?
    ensures Collect(MapEntries(v, keys')) == Collect(MapEntries(v, keys))
  {
    CollectsAlike(v, keys, keys');
    CollectedByKeys(v, keys);
    CollectedByKeys(v, keys');
    HeldScoresAreUnique(v, Collect(MapEntries(v, keys)).value, Collect(MapEntries(v, keys')).value);
  }

  lemma SortedStringsLists(s: set<string>)
    ensures ListsAll(SortedStrings(s), s)
  {
    SortedStringsSorted(s);
    forall i, j | 0 <= i < j < |SortedStrings(s)| ensures SortedStrings(s)[i] != SortedStrings(s)[j] {
      LessIrreflexive(SortedStrings(s)[i]);
    }
  }

  /** A walk that comes to k last. */
  ghost function EndingIn(k: string): Walk {
    s => if k in s then SortedStrings(s - {k}) + [k] else SortedStrings(s)
  }

  lemma EndingInIsWalk(k: string)
    ensures IsWalk(EndingIn(k))
  {
    forall s ensures ListsAll(EndingIn(k)(s), s) {
      SortedStringsLists(s - {k});
      SortedStringsLists(s);
    }
  }

  /** Under a walk that ends in k, an accepted container has k's score. */
  lemma LastKeyDecides(v: Json, k: string)
    requires v.Object? && k in v.fields && DecodeScores(v, EndingIn(k)).Some?
    ensures NormalizeCriterionKey(k).Some? && NormalizeCriterionKey(k).value in DecodeScores(v, EndingIn(k)).value
    ensures ScoreAt(v, k) == Some(DecodeScores(v, EndingIn(k)).value[NormalizeCriterionKey(k).value])
  {
    EndingInIsWalk(k);
    MapIsReadOneWay(v, EndingIn(k));
    var keys := EndingIn(k)(v.fields.Keys);
    var entries := MapEntries(v, keys);
    MapEntriesAre(v, keys);
    assert entries[|keys| - 1] == Entry(k, ScoreAt(v, k));
    DecidersGiveScores(entries);
    assert Decides(entries, |keys| - 1);
  }

  /** An accepted map container is read into the same scores whatever the order
      it is walked in exactly if keys for the same criterion carry the same score. */
  lemma WalkMattersExactlyIf(v: Json, walk: Walk)
    requires v.Object? && IsWalk(walk) && DecodeScores(v, walk).Some?
    ensures (forall other: Walk :: IsWalk(other) ==> DecodeScores(v, other) == DecodeScores(v, walk)) <==> TwinsAgree(v)
  {
    var s := v.fields.Keys;
    MapIsReadOneWay(v, walk);
    if TwinsAgree(v) {
      forall other: Walk | IsWalk(other) ensures DecodeScores(v, other) == DecodeScores(v, walk) {
        assert ListsAll(walk(s), s) && ListsAll(other(s), s);
        AgreeingKeysCollectAlike(v, walk(s), other(s));
        MapIsReadOneWay(v, other);
      }
    }
    if forall other: Walk :: IsWalk(other) ==> DecodeScores(v, other) == DecodeScores(v, walk) {
      forall k, l | k in s && l in s && NormalizeCriterionKey(k) == NormalizeCriterionKey(l)
        ensures ScoreAt(v, k) == ScoreAt(v, l)
      {
        EndingInIsWalk(k);
        EndingInIsWalk(l);
        LastKeyDecides(v, k);
        LastKeyDecides(v, l);
      }
    }
  }

  // ---------------------------------------------------- what a map must look like

  ghost predicate StandsIn(v: Json, c: string) {
    exists k :: k in FieldsOf(v) && NormalizeCriterionKey(k) == Some(c)
  }

  ghost predicate GoodKey(v: Json, k: string) {
    NormalizeCriterionKey(k).Some? && ScoreAt(v, k).Some? && 0 <= ScoreAt(v, k).value <= 4
  }

  /** Every key stands for a criterion and has a score in range, and every
      criterion is there. */
  ghost predicate EveryKeyIsGood(v: Json) {
    (IsFlat(v) || IsWrapped(v))
    && (forall k :: k in FieldsOf(v) ==> GoodKey(v, k))
    && forall c :: c in CRITERIA ==> StandsIn(v, c)
  }

  lemma FiveCriteria(m: map<string, int>)
    ensures |m.Keys| == |m|
    ensures m.Keys == (set c | c in CRITERIA) ==> |m| == |CRITERIA|
    ensures |m| == |CRITERIA| && (forall c :: c in CRITERIA ==> c in m) ==> m.Keys == set c | c in CRITERIA
  {
    var five := set c | c in CRITERIA;
    assert five == {CRITERIA[0], CRITERIA[1], CRITERIA[2], CRITERIA[3], CRITERIA[4]};
    assert |five| == 5;
    if |m| == 5 && five <= m.Keys { assert |m.Keys - five| == |m.Keys| - |five|; }
  }

  lemma GoodKeysAreAccepted(v: Json, walk: Walk)
    requires v.Object? && IsWalk(walk) && EveryKeyIsGood(v)
    ensures DecodeScores(v, walk).Some?
  {
    var keys := walk(v.fields.Keys);
    assert ListsAll(keys, v.fields.Keys);
    var entries := MapEntries(v, keys);
    MapEntriesAre(v, keys);
    forall e | e in entries ensures Collectable(e) {
      var i: nat :| i < |keys| && entries[i] == e;
      assert keys[i] in FieldsOf(v) && GoodKey(v, keys[i]);
    }
    CollectsIf(entries);
    CollectedByKeys(v, keys);
    HeldScoresAreValid(v, Collect(entries).value);
    MapIsReadOneWay(v, walk);
  }

  lemma HeldScoresAreValid(v: Json, m: map<string, int>)
    requires EveryKeyIsGood(v) && HoldsScores(v, m)
    ensures ValidScores(m)
  {
    forall c | c in m ensures c in CRITERIA && 0 <= m[c] <= 4 {
      assert GivenAt(v, c, m[c]);
      var k :| k in FieldsOf(v) && NormalizeCriterionKey(k) == Some(c) && ScoreAt(v, k) == Some(m[c]);
      assert GoodKey(v, k);
    }
    forall c | c in CRITERIA ensures c in m {
      assert StandsIn(v, c);
    }
    FiveCriteria(m);
  }

  /** A map container is accepted for every walk exactly if every key stands for a
      criterion with a score from 0 to 4 and every criterion is there. */
  lemma AcceptedExactlyIf(v: Json)
    requires v.Object?
    ensures (forall walk: Walk :: IsWalk(walk) ==> DecodeScores(v, walk).Some?) <==> EveryKeyIsGood(v)
  {
    if EveryKeyIsGood(v) {
      forall walk: Walk | IsWalk(walk) ensures DecodeScores(v, walk).Some? { GoodKeysAreAccepted(v, walk); }
    }
    if forall walk: Walk :: IsWalk(walk) ==> DecodeScores(v, walk).Some? {
      EndingInIsWalk("");
      AcceptedHasCriteria(v, EndingIn(""));
      forall k | k in v.fields ensures GoodKey(v, k) {
        EndingInIsWalk(k);
        LastKeyDecides(v, k);
      }
    }
  }

  lemma AcceptedHasCriteria(v: Json, walk: Walk)
    requires v.Object? && IsWalk(walk) && DecodeScores(v, walk).Some?
    ensures (IsFlat(v) || IsWrapped(v)) && HoldsScores(v, DecodeScores(v, walk).value)
    ensures forall c :: c in CRITERIA ==> StandsIn(v, c)
  {
    MapIsReadOneWay(v, walk);
    assert ListsAll(walk(v.fields.Keys), v.fields.Keys);
    CollectedByKeys(v, walk(v.fields.Keys));
    var m := DecodeScores(v, walk).value;
    forall c | c in CRITERIA ensures StandsIn(v, c) { assert GivenAt(v, c, m[c]); }
  }

  // ------------------------------------------------------------ literal scores

  predicate IsLiteral(v: Json, score: int) { v.Number? && ParseInt(v.token) == Some(score) }

  /** Where the number of a map's entry is written. */
  ghost function NumberAt(v: Json, k: string): Json {
    if IsFlat(v) then FieldAt(FieldsOf(v), k) else Field(FieldAt(FieldsOf(v), k), "score")
  }

  ghost predicate WrittenAt(v: Json, k: string, c: string, score: int) {
    k in FieldsOf(v) && NormalizeCriterionKey(k) == Some(c) && IsLiteral(NumberAt(v, k), score)
  }

  ghost predicate WrittenIn(item: Json, c: string, score: int) {
    NormalizeCriterionKey(StringAt(item, "name")) == Some(c) && IsLiteral(Field(item, "score"), score)
  }

  /** The container holds this number, as it is, for the criterion. */
  ghost predicate WrittenFor(v: Json, c: string, score: int) {
    (exists k :: WrittenAt(v, k, c, score)) || exists item :: item in ItemsOf(v) && WrittenIn(item, c, score)
  }

  ghost predicate AllWritten(v: Json, m: map<string, int>) { forall c :: c in m ==> WrittenFor(v, c, m[c]) }

  /** A number given as null, which a flat container reads as 0. */
  predicate NullScore(v: Json, k: string) { IsFlat(v) && k in FieldsOf(v) && FieldsOf(v)[k].Null? }

  lemma ListedAreWritten(items: seq<Json>, m: map<string, int>)
    requires Collect(ListedEntries(items)) == Some(m)
    ensures AllWritten(Array(items), m)
  {
    forall c | c in m ensures WrittenFor(Array(items), c, m[c]) {
      var i := DeciderOf(ListedEntries(items), c);
      ListedIsWritten(items, i, c, m[c]);
    }
  }

  lemma ListedIsWritten(items: seq<Json>, i: nat, c: string, score: int)
    requires i < |items| && NormalizeCriterionKey(ListedEntries(items)[i].name) == Some(c)
    requires ListedEntries(items)[i].score == Some(score)
    ensures WrittenFor(Array(items), c, score)
  {
    ItemIsWritten(items[i], score);
    assert items[i] in ItemsOf(Array(items)) && WrittenIn(items[i], c, score);
  }

  lemma ItemIsWritten(item: Json, score: int)
    ensures ScoreIn(item) == Some(score) ==> IsLiteral(Field(item, "score"), score)
  {
  }

  /** Every accepted score is a number of the payload, unless a flat container
      holds a null; and if that has one entry for each criterion, exactly then. */
  lemma ScoresAreWrittenExactlyIf(v: Json, walk: Walk)
    requires IsWalk(walk) && DecodeScores(v, walk).Some?
    ensures (forall k :: !NullScore(v, k)) ==> AllWritten(v, DecodeScores(v, walk).value)
    ensures |FieldsOf(v)| == |CRITERIA| ==>
      ((forall k :: !NullScore(v, k)) <==> AllWritten(v, DecodeScores(v, walk).value))
  {
    NullIsNoContainer(walk);
    if v.Object? {
      AcceptedHasCriteria(v, walk);
      if forall k :: !NullScore(v, k) {
        TwinsAreWritten(v, walk);
      } else if |v.fields| == |CRITERIA| {
        var k :| NullScore(v, k);
        NullIsNotWritten(v, walk, k);
      }
    } else if v.Array? {
      ListedAreWritten(v.items, DecodeScores(v, walk).value);
    }
  }

  lemma NullIsNotWritten(v: Json, walk: Walk, k: string)
    requires v.Object? && IsWalk(walk) && DecodeScores(v, walk).Some? && |v.fields| == |CRITERIA| && NullScore(v, k)
    ensures !AllWritten(v, DecodeScores(v, walk).value)
  {
    AcceptedHasCriteria(v, walk);
    var c := NormalizeCriterionKey(k).value;
    NullIsAllThereIs(v, walk, k, c, DecodeScores(v, walk).value[c]);
  }

  lemma NullIsAllThereIs(v: Json, walk: Walk, k: string, c: string, score: int)
    requires v.Object? && IsWalk(walk) && DecodeScores(v, walk).Some? && |v.fields| == |CRITERIA|
    requires NullScore(v, k) && NormalizeCriterionKey(k) == Some(c)
    ensures !WrittenFor(v, c, score)
  {
    forall l ensures !WrittenAt(v, l, c, score) {
      if WrittenAt(v, l, c, score) { OneKeyEach(v, walk, k, l); }
    }
  }

  /** A zero for the criterion is written out beside the null. */
  ghost predicate HasTwin(v: Json, k: string) {
    exists l :: NormalizeCriterionKey(k).Some? && WrittenAt(v, l, NormalizeCriterionKey(k).value, 0)
  }

  /** Of a map accepted in every order of walking it, every score read is a number
      of the payload exactly if beside every null a 0 is written for its criterion. */
  lemma WrittenForEveryWalkExactlyIf(v: Json)
    requires v.Object? && EveryKeyIsGood(v)
    ensures forall walk: Walk :: IsWalk(walk) ==> DecodeScores(v, walk).Some?
    ensures (forall walk: Walk :: IsWalk(walk) ==> AllWritten(v, DecodeScores(v, walk).value))
        <==> forall k :: NullScore(v, k) ==> HasTwin(v, k)
  {
    AcceptedExactlyIf(v);
    if forall k :: NullScore(v, k) ==> HasTwin(v, k) {
      forall walk: Walk | IsWalk(walk) ensures AllWritten(v, DecodeScores(v, walk).value) {
        TwinsAreWritten(v, walk);
      }
    }
    if forall walk: Walk :: IsWalk(walk) ==> AllWritten(v, DecodeScores(v, walk).value) {
      forall k | NullScore(v, k) ensures HasTwin(v, k) {
        EndingInIsWalk(k);
        WinningNullHasTwin(v, k);
      }
    }
  }

  lemma WinningNullHasTwin(v: Json, k: string)
    requires v.Object? && EveryKeyIsGood(v) && NullScore(v, k) && DecodeScores(v, EndingIn(k)).Some?
    requires AllWritten(v, DecodeScores(v, EndingIn(k)).value)
    ensures HasTwin(v, k)
  {
    LastKeyDecides(v, k);
    var c := NormalizeCriterionKey(k).value;
    assert WrittenFor(v, c, 0);
  }

  lemma TwinsAreWritten(v: Json, walk: Walk)
    requires v.Object? && IsWalk(walk) && DecodeScores(v, walk).Some?
    requires forall k :: NullScore(v, k) ==> HasTwin(v, k)
    ensures AllWritten(v, DecodeScores(v, walk).value)
  {
    AcceptedHasCriteria(v, walk);
    var m := DecodeScores(v, walk).value;
    forall c | c in m ensures WrittenFor(v, c, m[c]) {
      assert GivenAt(v, c, m[c]);
      GivenIsWritten(v, c, m[c]);
    }
  }

  lemma GivenIsWritten(v: Json, c: string, score: int)
    requires v.Object? && GivenAt(v, c, score) && forall k :: NullScore(v, k) ==> HasTwin(v, k)
    ensures WrittenFor(v, c, score)
  {
    var k :| k in FieldsOf(v) && NormalizeCriterionKey(k) == Some(c) && ScoreAt(v, k) == Some(score);
    if NullScore(v, k) {
      assert HasTwin(v, k);
    } else {
      assert WrittenAt(v, k, c, score);
    }
  }

  lemma NullIsNoContainer(walk: Walk)
    requires IsWalk(walk)
    ensures DecodeScores(Null, walk) == None
  {
    assert ListsAll(walk({}), {});
    ListedLength(walk({}), {});
    assert FieldsOf(Null).Keys == {};
  }

  /** Five accepted keys stand for five criteria. */
  lemma OneKeyEach(v: Json, walk: Walk, k: string, l: string)
    requires v.Object? && IsWalk(walk) && DecodeScores(v, walk).Some? && |v.fields| == |CRITERIA|
    requires k in v.fields && l in v.fields && NormalizeCriterionKey(k) == NormalizeCriterionKey(l)
    ensures k == l
  {
    var keys := walk(v.fields.Keys);
    assert ListsAll(keys, v.fields.Keys);
    MapIsReadOneWay(v, walk);
    MapEntriesAre(v, keys);
    var entries := MapEntries(v, keys);
    AcceptedScoresAreKept(entries, DecodeScores(v, walk).value);
    ListedLength(keys, v.fields.Keys);
    assert |v.fields| == |v.fields.Keys|;
    var i: nat :| i < |keys| && keys[i] == k;
    var j: nat :| j < |keys| && keys[j] == l;
    assert entries[i] in entries && entries[j] in entries;
    assert CriterionOf(entries[i]) == CriterionOf(entries[j]);
  }

  lemma {:induction false} ListedLength(keys: seq<string>, s: set<string>)
    requires ListsAll(keys, s)
    ensures |keys| == |s|
  {
    if keys == [] {
      assert s == {};
    } else {
      var last := keys[|keys| - 1];
      assert forall k :: k in keys[..|keys| - 1] ==> k in keys;
      forall k ensures k in keys[..|keys| - 1] <==> k in s - {last} {
        if k in s - {last} {
          var i :| 0 <= i < |keys| && keys[i] == k;
          assert keys[..|keys| - 1][i] == k;
        }
      }
      ListedLength(keys[..|keys| - 1], s - {last});
      assert last in keys;
    }
  }

  // ------------------------------------------------------------------ instances

  /** A key as it comes out of trimming and lower-casing. */
  predicate Settled(s: string) {
    s != "" && !IsSpace(s[0]) && !IsSpace(s[|s| - 1]) && forall i :: 0 <= i < |s| ==> LowerChar(s[i]) == s[i]
  }

  lemma SettledStays(s: string)
    requires Settled(s)
    ensures LowerKey(TrimSpace(s)) == s
  {
    assert TrimLeft(s) == s && TrimRight(s) == s;
    assert LowerKey(s) == s;
  }

  lemma CriteriaArePlain(c: string)
    requires c in CRITERIA
    ensures c != "" && Plain(c)
  {
  }

  lemma PlainIsSettled(s: string)
    requires s != "" && Plain(s)
    ensures Settled(s)
  {
  }

  /** Every criterion's own name stands for it. */
  lemma CriteriaStandForThemselves(i: nat)
    requires i < |CRITERIA|
    ensures NormalizeCriterionKey(CRITERIA[i]) == Some(CRITERIA[i])
  {
    CriteriaArePlain(CRITERIA[i]);
    PlainIsSettled(CRITERIA[i]);
    SettledStays(CRITERIA[i]);
  }

  /** A truncated name is read as the criterion it abbreviates. */
  lemma TruncationIsRead()
    ensures "grounding_calibration" !in CRITERIA
    ensures NormalizeCriterionKey("grounding_calibration") == Some("grounding_and_calibration")
  {
    var s := "grounding_calibration";
    assert Settled(s);
    SettledStays(s);
    assert OccursAt(s, "grounding", 0);
  }

  /** A name that is not the criterion's own but is read as it. */
  lemma RoleIsRoleExecution()
    ensures "role" !in CRITERIA && NormalizeCriterionKey("role") == Some("role_execution")
  {
    assert LowerKey("role") == "role";
    assert OccursAt("role", "role", 0);
  }

  function FiveOf(x: Json): map<string, Json> { map c | c in CRITERIA :: x }

  lemma FlatEntriesAlike(m: map<string, Json>, x: Json)
    requires IntOf(x).Some? && forall k :: k in m ==> m[k] == x
    ensures IsFlat(Object(m)) && forall k :: k in m ==> ScoreAt(Object(m), k) == IntOf(x)
  {
  }

  lemma OwnNameIsGood(v: Json, c: string)
    requires c in CRITERIA && c in FieldsOf(v) && ScoreAt(v, c).Some? && 0 <= ScoreAt(v, c).value <= 4
    ensures GoodKey(v, c) && StandsIn(v, c)
  {
    var i :| 0 <= i < |CRITERIA| && CRITERIA[i] == c;
    CriteriaStandForThemselves(i);
  }

  /** The five names, each with the same good score. */
  lemma FiveAreGood(x: Json)
    requires IntOf(x).Some? && 0 <= IntOf(x).value <= 4
    ensures IsFlat(Object(FiveOf(x))) && EveryKeyIsGood(Object(FiveOf(x)))
  {
    var v := Object(FiveOf(x));
    FlatEntriesAlike(FiveOf(x), x);
    forall c | c in CRITERIA ensures GoodKey(v, c) && StandsIn(v, c) { OwnNameIsGood(v, c); }
  }

  /** One more good key. */
  lemma AnotherIsGood(m: map<string, Json>, k: string, x: Json)
    requires IsFlat(Object(m)) && EveryKeyIsGood(Object(m))
    requires k !in m && NormalizeCriterionKey(k).Some? && IntOf(x).Some? && 0 <= IntOf(x).value <= 4
    ensures var v := Object(m[k := x]); IsFlat(v) && EveryKeyIsGood(v) && ScoreAt(v, k) == IntOf(x)
    ensures forall l :: l in m ==> ScoreAt(Object(m[k := x]), l) == ScoreAt(Object(m), l)
  {
    var v, v' := Object(m), Object(m[k := x]);
    assert IsFlat(v');
    forall l | l in m[k := x] ensures GoodKey(v', l) {
      assert l != k ==> GoodKey(v, l) && ScoreAt(v', l) == ScoreAt(v, l);
    }
    forall c | c in CRITERIA ensures StandsIn(v', c) { assert StandsIn(v, c); }
  }

  predicate IsScore(x: Json) { IntOf(x).Some? && 0 <= IntOf(x).value <= 4 }

  /** Five good scores and a sixth for a criterion already there. */
  function SixKeys(x: Json, y: Json): Json { Object(FiveOf(x)["role" := y]) }

  /** One more key beside the five. */
  lemma SixthIsGood(x: Json, k: string, y: Json, c: string)
    requires IsScore(x) && IsScore(y) && k !in CRITERIA && NormalizeCriterionKey(k).Some? && c in CRITERIA
    ensures var v := Object(FiveOf(x)[k := y]);
      EveryKeyIsGood(v) && k in v.fields && c in v.fields
      && ScoreAt(v, k) == IntOf(y) && ScoreAt(v, c) == IntOf(x)
  {
    FiveAreGood(x);
    FlatEntriesAlike(FiveOf(x), x);
    AnotherIsGood(FiveOf(x), k, y);
    assert c in FiveOf(x);
  }

  /** A sixth key is accepted, and which of the two scores wins depends on the walk. */
  lemma SixthKeyDependsOnWalk(x: Json, y: Json)
    requires IsScore(x) && IsScore(y)
    ensures IsWalk(EndingIn("role")) && IsWalk(EndingIn(CRITERIA[4]))
    ensures var last := DecodeScores(SixKeys(x, y), EndingIn("role"));
      last.Some? && CRITERIA[4] in last.value && Some(last.value[CRITERIA[4]]) == IntOf(y)
    ensures var first := DecodeScores(SixKeys(x, y), EndingIn(CRITERIA[4]));
      first.Some? && CRITERIA[4] in first.value && Some(first.value[CRITERIA[4]]) == IntOf(x)
  {
    var v := SixKeys(x, y);
    RoleIsRoleExecution();
    SixthIsGood(x, "role", y, CRITERIA[4]);
    CriteriaStandForThemselves(4);
    KeyCanWin(v, "role");
    KeyCanWin(v, CRITERIA[4]);
  }

  /** In an accepted map any key can decide its criterion. */
  lemma KeyCanWin(v: Json, k: string)
    requires v.Object? && EveryKeyIsGood(v) && k in v.fields
    ensures IsWalk(EndingIn(k)) && DecodeScores(v, EndingIn(k)).Some? && NormalizeCriterionKey(k).Some?
    ensures var m, c := DecodeScores(v, EndingIn(k)).value, NormalizeCriterionKey(k).value;
      c in m && ScoreAt(v, k) == Some(m[c])
  {
    EndingInIsWalk(k);
    GoodKeysAreAccepted(v, EndingIn(k));
    LastKeyDecides(v, k);
  }

  /** Five nulls are accepted as five zeros, not all of which the payload holds. */
  lemma NullsCountAsZero(v: Json, walk: Walk)
    requires v.Object? && IsWalk(walk) && |v.fields| == |CRITERIA| && EveryKeyIsGood(v)
    requires forall k :: k in v.fields ==> NullScore(v, k)
    ensures DecodeScores(v, walk).Some? && !AllWritten(v, DecodeScores(v, walk).value)
    ensures forall c :: c in DecodeScores(v, walk).value ==> DecodeScores(v, walk).value[c] == 0
  {
    GoodKeysAreAccepted(v, walk);
    AcceptedHasCriteria(v, walk);
    var m := DecodeScores(v, walk).value;
    forall c | c in m ensures m[c] == 0 { assert GivenAt(v, c, m[c]); }
    var k :| k in v.fields;
    NullIsNotWritten(v, walk, k);
  }

  /** Such a payload. */
  lemma FiveNulls()
    ensures var v := Object(FiveOf(Null));
      EveryKeyIsGood(v) && |v.fields| == |CRITERIA| && forall k :: k in v.fields ==> NullScore(v, k)
  {
    FiveAreGood(Null);
    var m: map<string, int> := map c | c in CRITERIA :: 0;
    FiveCriteria(m);
    assert m.Keys == FiveOf(Null).Keys;
    assert |FiveOf(Null)| == |FiveOf(Null).Keys|;
  }
}
