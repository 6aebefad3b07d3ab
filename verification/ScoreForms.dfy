/** What the names of criteria are read as, and what each form of a score container
    is read back to. */
module ScoreForms {
  import opened Text
  import opened Json
  import opened Decode
  import opened LenientParser
  import opened CacheKey
  import opened ScoreContainer

  // ----------------------------------------------------------------------- names

  ghost predicate Within(s: string, w: string) { exists a, b :: s == a + w + b }

  lemma ContainsIs(s: string, w: string)
    ensures Contains(s, w) <==> Within(s, w)
  {
    if Contains(s, w) {
      var i: nat :| i <= |s| && OccursAt(s, w, i);
      assert s == s[..i] + w + s[i + |w|..];
    }
    if Within(s, w) {
      var a, b :| s == a + w + b;
      assert OccursAt(s, w, |a|);
    }
  }

  lemma LettersAreLowered(i: nat)
    requires i < 26
    ensures LowerChar(('A' as int + i) as char) == ('a' as int + i) as char
  {
  }

  /** Everything but capital letters, the space and two letters outside ASCII stays. */
  lemma OthersStay(c: char)
    ensures LowerChar(' ') == '_' && LowerChar('\U{0130}') == 'i' && LowerChar('\U{212A}') == 'k'
    ensures !('A' <= c <= 'Z') && c != ' ' && c != '\U{0130}' && c != '\U{212A}' ==> LowerChar(c) == c
  {
  }

  /** The words a name is recognised by. */
  const WORDS: seq<seq<string>> := [
    ["grounding"], ["context", "fidelity", "values"], ["insight", "decision"], ["robustness", "practical"],
    ["role", "execution"]]

  ghost predicate Recognised(key: string, i: nat)
    requires i < |WORDS|
  {
    exists w :: w in WORDS[i] && Within(key, w)
  }

  ghost predicate StandsFor(name: string, i: nat)
    requires i < |WORDS|
  {
    var key := LowerKey(TrimSpace(name));
    key == CRITERIA[i]
    || (key !in CRITERIA && Recognised(key, i) && forall j: nat :: j < i ==> !Recognised(key, j))
  }

  lemma RecognisedIs(key: string)
    ensures Recognised(key, 0) <==> Contains(key, "grounding")
    ensures Recognised(key, 1) <==> Contains(key, "context") || Contains(key, "fidelity") || Contains(key, "values")
    ensures Recognised(key, 2) <==> Contains(key, "insight") || Contains(key, "decision")
    ensures Recognised(key, 3) <==> Contains(key, "robustness") || Contains(key, "practical")
    ensures Recognised(key, 4) <==> Contains(key, "role") || Contains(key, "execution")
  {
    forall w ensures Contains(key, w) <==> Within(key, w) { ContainsIs(key, w); }
    assert WORDS[0][0] in WORDS[0];
    assert WORDS[1][0] in WORDS[1] && WORDS[1][1] in WORDS[1] && WORDS[1][2] in WORDS[1];
    assert WORDS[2][0] in WORDS[2] && WORDS[2][1] in WORDS[2];
    assert WORDS[3][0] in WORDS[3] && WORDS[3][1] in WORDS[3];
    assert WORDS[4][0] in WORDS[4] && WORDS[4][1] in WORDS[4];
  }

  /** A name stands for a criterion exactly if it is, lowered and with underscores,
      the criterion's own name or else holds one of its words and none of an earlier
      criterion's. */
  lemma StandsForExactlyIf(name: string, i: nat)
    requires i < |WORDS|
    ensures NormalizeCriterionKey(name) == Some(CRITERIA[i]) <==> StandsFor(name, i)
  {
    var key := LowerKey(TrimSpace(name));
    RecognisedIs(key);
    CriteriaDiffer();
    assert key in CRITERIA ==> exists j :: 0 <= j < |CRITERIA| && CRITERIA[j] == key;
  }

  lemma CriteriaDiffer()
    ensures forall i, j :: 0 <= i < j < |CRITERIA| ==> CRITERIA[i] != CRITERIA[j]
  {
  }

  // ------------------------------------------------------------------- round trips

  /** A plain member that is a text, or is missing, is read. */
  lemma PlainText(v: Json, name: string, s: string)
    requires PlainKeys(v) && Plain(name) && (Member(v, name) == Str(s) || (Member(v, name) == Null && s == ""))
    ensures HasString(v, name) && StringAt(v, name) == s
  {
    PlainField(v, name);
  }

  lemma {:induction false} DigitsAreRead(n: nat)
    ensures Natural(Digits(n)) == Some(n)
  {
    DigitsShape(n);
    if n >= 10 {
      DigitsAreRead(n / 10);
      var t := Digits(n);
      assert t[..|t| - 1] == Digits(n / 10);
    }
  }

  lemma NegativeIsRead(n: nat)
    requires n > 0
    ensures ParseInt("-" + Digits(n)) == if n <= MAX_INT + 1 then Some(0 - n as int) else None
  {
    var t := "-" + Digits(n);
    DigitsAreRead(n);
    assert t[0] == '-' && t[1..] == Digits(n);
  }

  lemma PositiveIsRead(n: nat)
    ensures ParseInt(Digits(n)) == if n <= MAX_INT then Some(n) else None
  {
    DigitsAreRead(n);
    DigitsShape(n);
  }

  /** An int is read from the text it is written as, if it has 64 bits. */
  lemma IntIsRead(n: int)
    ensures ParseInt(Decimal(n)) == if -0x8000_0000_0000_0000 <= n <= 0x7FFF_FFFF_FFFF_FFFF then Some(n) else None
  {
    if n < 0 { NegativeIsRead(-n); } else { PositiveIsRead(n); }
  }

  lemma OwnName(c: string)
    requires c in CRITERIA
    ensures NormalizeCriterionKey(c) == Some(c)
  {
    var i :| 0 <= i < |CRITERIA| && CRITERIA[i] == c;
    CriteriaStandForThemselves(i);
  }

  /** A grade's scores: one from 0 to 4 for each of the five criteria. */
  ghost predicate Full(m: map<string, int>) { ValidScores(m) && m.Keys == set c | c in CRITERIA }

  /** v's keys are the criteria, each with its score in m. */
  ghost predicate Lists(v: Json, m: map<string, int>) {
    v.Object? && v.fields.Keys == m.Keys && (IsFlat(v) || IsWrapped(v))
    && forall c :: c in m ==>
         c in CRITERIA && NormalizeCriterionKey(c) == Some(c) && ScoreAt(v, c) == Some(m[c]) && 0 <= m[c] <= 4
  }

  lemma ListedAreGood(v: Json, m: map<string, int>)
    requires Lists(v, m) && Full(m)
    ensures EveryKeyIsGood(v)
  {
    forall k | k in FieldsOf(v) ensures GoodKey(v, k) { assert k in m; }
    forall c | c in CRITERIA ensures StandsIn(v, c) { assert c in m; }
  }

  lemma HeldAreListed(v: Json, m: map<string, int>, r: map<string, int>)
    requires Lists(v, m) && HoldsScores(v, r)
    ensures r == m
  {
    forall c | c in r ensures c in m && r[c] == m[c] { HeldIsListed(v, m, c, r[c]); }
    forall c | c in m ensures c in r { assert c in FieldsOf(v); }
    assert r.Keys == m.Keys;
  }

  lemma HeldIsListed(v: Json, m: map<string, int>, c: string, score: int)
    requires Lists(v, m) && GivenAt(v, c, score)
    ensures c in m && m[c] == score
  {
    var k :| k in FieldsOf(v) && NormalizeCriterionKey(k) == Some(c) && ScoreAt(v, k) == Some(score);
    assert k == c;
  }

  lemma MapRoundTrip(v: Json, m: map<string, int>, walk: Walk)
    requires Lists(v, m) && Full(m) && IsWalk(walk)
    ensures DecodeScores(v, walk) == Some(m)
  {
    ListedAreGood(v, m);
    GoodKeysAreAccepted(v, walk);
    AcceptedHasCriteria(v, walk);
    HeldAreListed(v, m, DecodeScores(v, walk).value);
  }

  function ScoresTree(m: map<string, int>): Json { Object(map c | c in m :: Number(Decimal(m[c]))) }

  /** A map of numbers is read back, in every order of walking it. */
  lemma ScoresRoundTrip(m: map<string, int>, walk: Walk)
    requires Full(m) && IsWalk(walk)
    ensures DecodeScores(ScoresTree(m), walk) == Some(m)
  {
    var v := ScoresTree(m);
    forall c | c in m
      ensures c in CRITERIA && NormalizeCriterionKey(c) == Some(c) && IntOf(v.fields[c]) == Some(m[c]) && 0 <= m[c] <= 4
    {
      IntIsRead(m[c]);
      OwnName(c);
    }
    FlatIsRead(v, m);
    MapRoundTrip(v, m, walk);
  }

  lemma FlatIsRead(v: Json, m: map<string, int>)
    requires v.Object? && v.fields.Keys == m.Keys && forall c :: c in m ==> IntOf(v.fields[c]) == Some(m[c])
    ensures IsFlat(v) && forall c :: c in m ==> ScoreAt(v, c) == Some(m[c])
  {
  }

  function ScoreObject(n: int): Json { Object(map["score" := Number(Decimal(n))]) }

  function WrappedTree(m: map<string, int>): Json { Object(map c | c in m :: ScoreObject(m[c])) }

  lemma ScoreMemberIsRead(v: Json, n: int)
    requires PlainKeys(v) && 0 <= n <= 4 && Member(v, "score") == Number(Decimal(n))
    ensures HasScore(v) && ScoreIn(v) == Some(n)
  {
    assert Plain("score");
    PlainField(v, "score");
    IntIsRead(n);
  }

  lemma ScoreObjectIsRead(n: int)
    requires 0 <= n <= 4
    ensures HasScore(ScoreObject(n)) && ScoreIn(ScoreObject(n)) == Some(n) && IntOf(ScoreObject(n)).None?
  {
    assert PlainKeys(ScoreObject(n)) by { assert Plain("score"); }
    ScoreMemberIsRead(ScoreObject(n), n);
  }

  lemma WrappedScores(m: map<string, int>, c: string)
    requires Full(m) && c in m
    ensures var x := WrappedTree(m).fields[c];
      c in CRITERIA && 0 <= m[c] <= 4 && HasScore(x) && ScoreIn(x) == Some(m[c]) && IntOf(x).None?
    ensures NormalizeCriterionKey(c) == Some(c)
  {
    assert c in m.Keys;
    ScoreObjectIsRead(m[c]);
    OwnName(c);
  }

  /** So is a map of objects with scores. */
  lemma WrappedRoundTrip(m: map<string, int>, walk: Walk)
    requires Full(m) && IsWalk(walk)
    ensures DecodeScores(WrappedTree(m), walk) == Some(m)
  {
    var v := WrappedTree(m);
    forall c | c in m
      ensures c in CRITERIA && NormalizeCriterionKey(c) == Some(c) && 0 <= m[c] <= 4
      ensures HasScore(v.fields[c]) && ScoreIn(v.fields[c]) == Some(m[c]) && IntOf(v.fields[c]).None?
    {
      WrappedScores(m, c);
    }
    assert CRITERIA[0] in m;
    WrappedIsRead(v, m);
    MapRoundTrip(v, m, walk);
  }

  lemma WrappedIsRead(v: Json, m: map<string, int>)
    requires v.Object? && v.fields.Keys == m.Keys && m.Keys != {}
    requires forall c :: c in m ==>
      HasScore(v.fields[c]) && ScoreIn(v.fields[c]) == Some(m[c]) && IntOf(v.fields[c]).None?
    ensures !IsFlat(v) && IsWrapped(v) && forall c :: c in m ==> ScoreAt(v, c) == Some(m[c])
  {
    var c :| c in m.Keys;
    assert c in FieldsOf(v);
  }

  /** A list is read only if each of its items has a name and a score. */
  lemma ListExactlyIf(items: seq<Json>, walk: Walk)
    ensures DecodeScores(Array(items), walk)
      == if forall x :: x in items ==> HasScore(x) && HasString(x, "name") then Checked(Collect(ListedEntries(items)))
         else None
  {
  }

  function ScoreItem(c: string, n: int): Json { Object(map["name" := Str(c), "score" := Number(Decimal(n))]) }

  function ItemsTree(names: seq<string>, m: map<string, int>): seq<Json>
    requires forall c :: c in names ==> c in m
  {
    seq(|names|, i requires 0 <= i < |names| => ScoreItem(names[i], m[names[i]]))
  }

  lemma ScoreItemIsRead(c: string, n: int)
    requires 0 <= n <= 4
    ensures var v := ScoreItem(c, n);
      HasScore(v) && HasString(v, "name") && StringAt(v, "name") == c && ScoreIn(v) == Some(n)
  {
    var v := ScoreItem(c, n);
    assert PlainKeys(v) by { assert Plain("score") && Plain("name"); }
    ScoreMemberIsRead(v, n);
    PlainText(v, "name", c);
  }

  lemma ItemsAreRead(names: seq<string>, m: map<string, int>)
    requires Full(m) && forall c :: c in names ==> c in m
    ensures var items := ItemsTree(names, m);
      (forall x :: x in items ==> HasScore(x) && HasString(x, "name"))
      && ListedEntries(items) == seq(|names|, i requires 0 <= i < |names| => Entry(names[i], Some(m[names[i]])))
  {
    var items := ItemsTree(names, m);
    forall i | 0 <= i < |names|
      ensures HasScore(items[i]) && HasString(items[i], "name")
      ensures ListedEntries(items)[i] == Entry(names[i], Some(m[names[i]]))
    {
      assert names[i] in names && names[i] in m.Keys;
      ScoreItemIsRead(names[i], m[names[i]]);
    }
  }

  /** And so is a list of items with names and scores, in any order. */
  lemma ListRoundTrip(names: seq<string>, m: map<string, int>, walk: Walk)
    requires Full(m) && (forall c :: c in names <==> c in m)
    requires forall i, j :: 0 <= i < j < |names| ==> names[i] != names[j]
    ensures DecodeScores(Array(ItemsTree(names, m)), walk) == Some(m)
  {
    ItemsAreRead(names, m);
    ListExactlyIf(ItemsTree(names, m), walk);
    EntriesMake(names, m);
  }

  /** Entry i is for the i-th name, with its score. */
  ghost predicate Named(entries: seq<Entry>, names: seq<string>, m: map<string, int>) {
    |entries| == |names|
    && forall i :: 0 <= i < |names| ==>
         names[i] in m && entries[i] == Entry(names[i], Some(m[names[i]])) && Collectable(entries[i])
         && CriterionOf(entries[i]) == names[i]
  }

  lemma EntriesMake(names: seq<string>, m: map<string, int>)
    requires Full(m) && (forall c :: c in names <==> c in m)
    requires forall i, j :: 0 <= i < j < |names| ==> names[i] != names[j]
    ensures Collect(seq(|names|, i requires 0 <= i < |names| => Entry(names[i], Some(m[names[i]])))) == Some(m)
  {
    var entries := seq(|names|, i requires 0 <= i < |names| => Entry(names[i], Some(m[names[i]])));
    forall i | 0 <= i < |names| ensures Collectable(entries[i]) && CriterionOf(entries[i]) == names[i] {
      assert names[i] in names && names[i] in m.Keys;
      OwnName(names[i]);
    }
    NamedMake(entries, names, m);
  }

  lemma NamedMake(entries: seq<Entry>, names: seq<string>, m: map<string, int>)
    requires Named(entries, names, m) && (forall c :: c in names <==> c in m)
    requires forall i, j :: 0 <= i < j < |names| ==> names[i] != names[j]
    ensures Collect(entries) == Some(m)
  {
    CollectsIf(entries);
    CollectSize(entries);
    NoneTwiceKeepsAll(entries);
    NamedHold(entries, names, m, Collect(entries).value);
  }

  lemma CriteriaAreNames(entries: seq<Entry>, names: seq<string>, m: map<string, int>, c: string)
    requires Named(entries, names, m) && forall e :: e in entries ==> Collectable(e)
    ensures c in CriteriaOf(entries) <==> c in names
  {
    if c in CriteriaOf(entries) {
      var e :| e in entries && CriterionOf(e) == c;
      var i :| 0 <= i < |entries| && entries[i] == e;
      assert names[i] == c;
    }
    if c in names {
      var i :| 0 <= i < |names| && names[i] == c;
      assert entries[i] in entries;
    }
  }

  lemma ScoreIsKept(entries: seq<Entry>, names: seq<string>, m: map<string, int>, r: map<string, int>, c: string)
    requires Named(entries, names, m) && c in names
    requires (forall e :: e in entries ==> Collectable(e)) && AllKept(entries, r)
    ensures c in m && c in r && r[c] == m[c]
  {
    var i :| 0 <= i < |names| && names[i] == c;
    assert entries[i] in entries;
  }

  lemma NamedHold(entries: seq<Entry>, names: seq<string>, m: map<string, int>, r: map<string, int>)
    requires Named(entries, names, m) && (forall c :: c in names <==> c in m)
    requires (forall e :: e in entries ==> Collectable(e)) && AllKept(entries, r) && r.Keys == CriteriaOf(entries)
    ensures r == m
  {
    forall c ensures c in r.Keys <==> c in m.Keys { CriteriaAreNames(entries, names, m, c); }
    forall c | c in m.Keys ensures c in r && r[c] == m[c] { ScoreIsKept(entries, names, m, r, c); }
    SameMaps(r, m);
  }

  lemma SameMaps(r: map<string, int>, m: map<string, int>)
    requires (forall c :: c in r.Keys <==> c in m.Keys) && forall c :: c in m.Keys ==> c in r && r[c] == m[c]
    ensures r == m
  {
    assert r.Keys == m.Keys;
  }
}
