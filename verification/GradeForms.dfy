/** What each form a grader may use is read as, and what the program's own form of a
    grade is read back to. */
module GradeForms {
  import opened Text
  import opened Json
  import opened Decode
  import opened LenientParser
  import opened ScoreContainer
  import opened ScoreForms
  import opened AbsoluteGrade

  // --------------------------------------------------------------------- aliases

  /** The first of the texts that is not blank. */
  ghost predicate FirstText(ss: seq<string>, r: string) {
    if forall s :: s in ss ==> Blank(s) then r == ""
    else exists k :: 0 <= k < |ss| && ss[k] == r && !Blank(r) && forall j :: 0 <= j < k ==> Blank(ss[j])
  }

  lemma {:induction false} FirstNonEmptyIs(ss: seq<string>)
    ensures FirstText(ss, FirstNonEmpty(ss))
  {
    if ss != [] {
      var r := FirstNonEmpty(ss);
      assert ss[0] in ss;
      if Blank(ss[0]) {
        FirstNonEmptyIs(ss[1..]);
        assert forall s :: s in ss <==> s == ss[0] || s in ss[1..];
        if s :| s in ss[1..] && !Blank(s) {
          var k :| 0 <= k < |ss[1..]| && ss[1..][k] == r && !Blank(r) && forall j :: 0 <= j < k ==> Blank(ss[1..][j]);
          assert ss[k + 1] == r && forall j :: 0 < j < k + 1 ==> ss[j] == ss[1..][j - 1];
        }
      }
    }
  }

  predicate FirstOf(r: string, a: string, b: string, c: string) {
    r == if !Blank(a) then a else if !Blank(b) then b else if !Blank(c) then c else ""
  }

  lemma FirstOfThree(a: string, b: string, c: string)
    ensures FirstOf(FirstNonEmpty([a, b, c]), a, b, c)
  {
    assert [a, b, c][1..] == [b, c] && [b, c][1..] == [c] && [c][1..] == [];
    assert FirstNonEmpty([c]) == if !Blank(c) then c else "";
    assert FirstNonEmpty([b, c]) == if !Blank(b) then b else FirstNonEmpty([c]);
  }

  /** An entry's passage and assessment go by three names each, the first of them first. */
  lemma EntryAliases(e: Json)
    ensures FirstOf(PassageOf(e), StringAt(e, "passage"), StringAt(e, "response"), StringAt(e, "quote"))
    ensures FirstOf(AssessmentOf(e), StringAt(e, "assessment"), StringAt(e, "why_it_helps"), StringAt(e, "issue"))
  {
    FirstOfThree(StringAt(e, "passage"), StringAt(e, "response"), StringAt(e, "quote"));
    FirstOfThree(StringAt(e, "assessment"), StringAt(e, "why_it_helps"), StringAt(e, "issue"));
  }

  /** And so do the parts of a flag. */
  lemma FlagAliases(e: Json)
    ensures var f := FlagOf(e);
      f.kind == (if StringAt(e, "type") != "" then StringAt(e, "type") else StringAt(e, "flag_type"))
      && (if StringAt(e, "passage") != "" then f.passage == StringAt(e, "passage")
          else FirstOf(f.passage, StringAt(e, "quote"), StringAt(e, "quoted_text"), StringAt(e, "detail")))
      && (if StringAt(e, "violated") != "" then f.violated == StringAt(e, "violated")
          else FirstOf(f.violated, StringAt(e, "why"), StringAt(e, "why_flagged"), StringAt(e, "severity")))
  {
    FirstOfThree(StringAt(e, "quote"), StringAt(e, "quoted_text"), StringAt(e, "detail"));
    FirstOfThree(StringAt(e, "why"), StringAt(e, "why_flagged"), StringAt(e, "severity"));
  }

  // ----------------------------------------------------------------------- notes

  /** The text written there; a null counts as an empty one. */
  predicate TextSays(v: Json, s: string) { v == Str(s) || (v == Null && s == "") }

  predicate ListSays(v: Json, ss: seq<string>) {
    if v.Array? then |v.items| == |ss| && forall i :: 0 <= i < |ss| ==> TextSays(v.items[i], ss[i])
    else v == Null && ss == []
  }

  /** The three lists under their names, or one text or list of what was noticed. */
  predicate NotesSay(v: Json, n: Notes) {
    match v
    case Object(_) =>
      PlainKeys(v) ==> ListSays(Member(v, "noticed"), n.noticed) && ListSays(Member(v, "missed"), n.missed)
                       && ListSays(Member(v, "beyond_notes"), n.beyond)
    case Str(s) => n.noticed == [s] && n.missed == [] && n.beyond == []
    case _ => ListSays(v, n.noticed) && n.missed == [] && n.beyond == []
  }

  lemma ListIs(v: Json)
    requires StringsOf(v).Some?
    ensures ListSays(v, StringsOf(v).value)
  {
    if v.Array? {
      var ss := StringsOf(v).value;
      forall i | 0 <= i < |ss| ensures TextSays(v.items[i], ss[i]) { assert v.items[i] in v.items; }
    }
  }

  lemma MemberIsList(v: Json, name: string)
    requires PlainKeys(v) && Plain(name) && HasList(v, name)
    ensures ListSays(Member(v, name), ListAt(v, name))
  {
    PlainField(v, name);
    if name in v.fields { assert name in Spellings(v, name); }
    ListIs(Member(v, name));
  }

  /** Notes that are read are what is written. */
  lemma NotesAreRead(v: Json)
    requires DecodeNotes(Some(v)).Some?
    ensures NotesSay(v, DecodeNotes(Some(v)).value)
  {
    if v.Object? && PlainKeys(v) {
      NotesObjectIsRead(v);
    } else if v.Array? {
      ListIs(v);
    }
  }

  lemma NotesObjectIsRead(v: Json)
    requires PlainKeys(v) && DecodeNotes(Some(v)).Some?
    ensures var n := DecodeNotes(Some(v)).value;
      ListSays(Member(v, "noticed"), n.noticed) && ListSays(Member(v, "missed"), n.missed)
      && ListSays(Member(v, "beyond_notes"), n.beyond)
  {
    MemberIsList(v, "noticed");
    MemberIsList(v, "missed");
    MemberIsList(v, "beyond_notes");
  }

  /** An accepted grade has the notes that are written under the notes key of the
      shape that decided; without one it has none. */
  lemma AcceptedNotes(root: Root, walk: Walk) returns (shape: Shape)
    requires GradeOf(root, walk).Some?
    ensures shape in SHAPES && DecodeGrade(root, shape, walk) == GradeOf(root, walk)
    ensures (exists other :: other in SHAPES && other.notes in root) ==> shape.notes in root
    ensures var notes := GradeOf(root, walk).value.notes;
      if shape.notes in root then NotesSay(root[shape.notes], notes)
      else notes.noticed == [] && notes.missed == [] && notes.beyond == []
  {
    shape :| shape in Candidates(root) && DecodeGrade(root, shape, walk) == GradeOf(root, walk);
    if other :| other in SHAPES && other.notes in root { assert other in Present(root, SHAPES); }
    NotesOfShape(root, shape, walk);
  }

  lemma NotesOfShape(root: Root, shape: Shape, walk: Walk)
    requires DecodeGrade(root, shape, walk).Some?
    ensures var notes := DecodeGrade(root, shape, walk).value.notes;
      if shape.notes in root then NotesSay(root[shape.notes], notes)
      else notes.noticed == [] && notes.missed == [] && notes.beyond == []
  {
    assert DecodeNotes(At(root, shape.notes)).Some?;
    if shape.notes in root { NotesAreRead(root[shape.notes]); }
  }

  // -------------------------------------------------------------------- passages

  /** A map of texts is read as it stands, if none is blank. */
  lemma TextMapIsRead(m: map<string, Json>)
    ensures FromMap(m).Some? <==> forall p :: p in m ==> !Blank(p) && m[p].Str? && !Blank(m[p].s)
    ensures FromMap(m).Some? ==> FromMap(m).value.Keys == m.Keys
    ensures FromMap(m).Some? ==> forall p :: p in m ==> m[p] == Str(FromMap(m).value[p])
  {
    assert Blank("");
  }

  /** Each line of a list is its own assessment. */
  lemma {:induction false} LinesAreRead(lines: seq<string>)
    ensures FromLines(lines).Some? <==> forall s :: s in lines ==> !Blank(s)
    ensures FromLines(lines).Some? ==> FromLines(lines).value == map s | s in lines :: s
  {
    if lines != [] {
      var front, last := lines[..|lines| - 1], lines[|lines| - 1];
      assert lines == front + [last];
      LinesAreRead(front);
      assert forall s :: s in lines <==> s in front || s == last;
    }
  }

  /** An entry's passage and assessment. */
  type Pair = (string, string)

  ghost function PairsOf(entries: seq<Json>): seq<Pair> {
    seq(|entries|, i requires 0 <= i < |entries| => (PassageOf(entries[i]), AssessmentOf(entries[i])))
  }

  /** No later pair gives the same passage. */
  ghost predicate LastOfPassage(pairs: seq<Pair>, i: nat) {
    i < |pairs| && forall j :: i < j < |pairs| ==> pairs[j].0 != pairs[i].0
  }

  /** Every passage with the assessment of the last pair that gives it. */
  ghost predicate HoldsPairs(pairs: seq<Pair>, m: map<string, string>) {
    (forall i: nat :: LastOfPassage(pairs, i) ==> pairs[i].0 in m && m[pairs[i].0] == pairs[i].1)
    && forall p :: p in m ==> exists i: nat :: i < |pairs| && pairs[i].0 == p
  }

  lemma OneMorePair(front: seq<Pair>, last: Pair, m: map<string, string>)
    requires HoldsPairs(front, m)
    ensures HoldsPairs(front + [last], m[last.0 := last.1])
  {
    var all, m' := front + [last], m[last.0 := last.1];
    assert all[|front|] == last && forall i :: 0 <= i < |front| ==> all[i] == front[i];
    forall i: nat | LastOfPassage(all, i) ensures all[i].0 in m' && m'[all[i].0] == all[i].1 {
      if i < |front| { assert LastOfPassage(front, i) && all[|front|].0 != all[i].0; }
    }
    forall p | p in m' ensures exists i: nat :: i < |all| && all[i].0 == p {
      if p in m {
        var i: nat :| i < |front| && front[i].0 == p;
        assert all[i].0 == p;
      }
    }
  }

  predicate GoodPair(pair: Pair) { !Blank(pair.0) && !Blank(pair.1) }

  lemma FromEntriesSnoc(front: seq<Json>, last: Json)
    ensures var pair := (PassageOf(last), AssessmentOf(last));
      FromEntries(front + [last])
        == (if FromEntries(front).None? || !GoodPair(pair) then None
            else Some(FromEntries(front).value[pair.0 := pair.1]))
      && PairsOf(front + [last]) == PairsOf(front) + [pair]
  {
    var all := front + [last];
    assert all[..|all| - 1] == front && all[|all| - 1] == last;
  }

  lemma GoodSnoc(front: seq<Pair>, last: Pair)
    ensures (forall p :: p in front + [last] ==> GoodPair(p))
      <==> (forall p :: p in front ==> GoodPair(p)) && GoodPair(last)
  {
    assert forall p :: p in front + [last] <==> p in front || p == last;
  }

  /** A list of entries is read if neither part of any is blank. */
  lemma {:induction false} EntriesAreRead(entries: seq<Json>)
    ensures var pairs := PairsOf(entries);
      (FromEntries(entries).Some? <==> forall p :: p in pairs ==> GoodPair(p))
      && (FromEntries(entries).Some? ==> HoldsPairs(pairs, FromEntries(entries).value))
  {
    if entries != [] {
      var front, last := entries[..|entries| - 1], entries[|entries| - 1];
      var pair := (PassageOf(last), AssessmentOf(last));
      assert entries == front + [last];
      EntriesAreRead(front);
      FromEntriesSnoc(front, last);
      GoodSnoc(PairsOf(front), pair);
      if FromEntries(entries).Some? { OneMorePair(PairsOf(front), pair, FromEntries(front).value); }
    }
  }

  /** Passages come as an object of texts, as a list of texts, or as a list of
      objects; an object with anything else in it, and any other value, is refused. */
  lemma PassagesAreRead(v: Json)
    ensures DecodePassages(None) == Some(map[]) == DecodePassages(Some(Null))
    ensures v.Object? ==>
      DecodePassages(Some(v))
        == if exists p :: p in v.fields && !v.fields[p].Str? && v.fields[p] != Null then None else FromMap(v.fields)
    ensures v.Array? && (forall x :: x in v.items ==> x.Str? || x == Null) ==>
      DecodePassages(Some(v)) == FromLines(StringsOf(v).value) && ListSays(v, StringsOf(v).value)
    ensures v.Array? && (exists x :: x in v.items && !x.Str? && x != Null) ==>
      DecodePassages(Some(v))
        == if forall x :: x in v.items ==> HasStrings(x, PASSAGE_FIELDS) then FromEntries(v.items) else None
    ensures v.Str? || v.Number? || v.Bool? ==> DecodePassages(Some(v)) == None
  {
    if v.Array? && StringsOf(v).Some? { ListIs(v); }
  }

  // ----------------------------------------------------------------------- flags

  /** Flag objects are read one by one, and refused if one has no type. */
  lemma FlagObjectsAreRead(v: Json)
    requires AreStructs(v, FLAG_FIELDS)
    ensures var flags := DecodeFlags(Some(v));
      (flags.Some? <==> forall i :: 0 <= i < |ItemsOf(v)| ==> FlagOf(ItemsOf(v)[i]).kind != "")
      && (flags.Some? ==> |flags.value| == |ItemsOf(v)|
                          && forall i :: 0 <= i < |flags.value| ==> flags.value[i] == FlagOf(ItemsOf(v)[i]))
  {
    FlagsOfAre(ItemsOf(v));
    AllTyped(FlagsOf(ItemsOf(v)));
  }

  lemma FlagsOfAre(items: seq<Json>)
    ensures |FlagsOf(items)| == |items| && forall i :: 0 <= i < |items| ==> FlagsOf(items)[i] == FlagOf(items[i])
  {
  }

  lemma AllTyped(flags: seq<Flag>)
    ensures (exists f :: f in flags && f.kind == "") <==> !forall i :: 0 <= i < |flags| ==> flags[i].kind != ""
  {
  }

  /** Anything else is read as a list of names, which gives flags of these types. */
  lemma FlagNamesAreRead(v: Json)
    requires !AreStructs(v, FLAG_FIELDS)
    ensures var flags := DecodeFlags(Some(v));
      (flags.Some? <==> StringsOf(v).Some?)
      && (flags.Some? ==> v.Array? && |flags.value| == |v.items|
                          && forall i :: 0 <= i < |flags.value| ==>
                               TextSays(v.items[i], flags.value[i].kind)
                               && flags.value[i].passage == "" && flags.value[i].violated == "")
  {
    if StringsOf(v).Some? { ListIs(v); }
  }

  // -------------------------------------------------------------------- weakness

  /** The text under a key; none counts as empty. */
  function TextAt(root: Root, key: string): string { if key in root && root[key].Str? then root[key].s else "" }

  function TextsAt(root: Root, keys: seq<string>): seq<string> {
    seq(|keys|, i requires 0 <= i < |keys| => TextAt(root, keys[i]))
  }

  lemma {:induction false} SummaryIsRead(root: Root, keys: seq<string>)
    ensures FirstSummary(root, keys) == FirstNonEmpty(TextsAt(root, keys))
  {
    assert Blank("");
    if keys != [] {
      SummaryIsRead(root, keys[1..]);
      assert TextsAt(root, keys)[0] == TextAt(root, keys[0]) && TextsAt(root, keys)[1..] == TextsAt(root, keys[1..]);
    }
  }

  /** A weakness under its own key if both its parts are there; otherwise the first text
      of a list of weaknesses, a summary, or the summary of an overall object, which
      is then both parts. */
  lemma WeaknessIsRead(root: Root)
    ensures var own := At(root, "most_consequential_weakness");
      var w := DecodeWeakness(root);
      var full := own.Some? && HasStrings(own.value, ["passage", "explanation"])
        && StringAt(own.value, "passage") != "" && StringAt(own.value, "explanation") != "";
      if full then w == Some(Weakness(StringAt(own.value, "passage"), StringAt(own.value, "explanation")))
      else (w.None? <==> VariantWeakness(root) == "")
           && (w.Some? ==> w.value.passage == w.value.explanation == VariantWeakness(root))
  {
  }

  lemma VariantIsRead(root: Root)
    ensures var listed := At(root, "weaknesses");
      var overall := At(root, "overall");
      var r := VariantWeakness(root);
      var texts := if listed.Some? && StringsOf(listed.value).Some? then StringsOf(listed.value).value else [];
      if exists s :: s in texts && !Blank(s) then FirstText(texts, r)
      else if exists s :: s in TextsAt(root, SUMMARIES) && !Blank(s) then FirstText(TextsAt(root, SUMMARIES), r)
      else if overall.Some? && HasStrings(overall.value, ["summary"]) && !Blank(StringAt(overall.value, "summary"))
        then r == StringAt(overall.value, "summary")
      else r == ""
  {
    assert Blank("");
    if "weaknesses" in root && StringsOf(root["weaknesses"]).Some? {
      FirstNonEmptyIs(StringsOf(root["weaknesses"]).value);
    }
    SummaryIsRead(root, SUMMARIES);
    FirstNonEmptyIs(TextsAt(root, SUMMARIES));
  }

  // --------------------------------------------------- evidence of root criteria

  /** The passage, without outer white space, and the assessment or else the
      weakness of a criterion object at the root, if neither is blank. */
  ghost function RootPair(root: Root, c: string): seq<Pair> {
    if c !in root || !HasStrings(root[c], ROOT_FIELDS) then [] else
    var passage, weakness := TrimSpace(StringAt(root[c], "supporting_passage")), StringAt(root[c], "weakness");
    var assessment := if Blank(StringAt(root[c], "assessment")) then weakness else StringAt(root[c], "assessment");
    if passage == "" || Blank(assessment) then [] else [(passage, assessment)]
  }

  ghost function RootPairs(root: Root, cs: seq<string>): seq<Pair> {
    if cs == [] then [] else RootPair(root, cs[0]) + RootPairs(root, cs[1..])
  }

  ghost predicate GivesLast(pairs: seq<Pair>, r: map<string, string>) {
    forall i: nat :: LastOfPassage(pairs, i) ==> pairs[i].0 in r && r[pairs[i].0] == pairs[i].1
  }

  predicate Gives(pairs: seq<Pair>, p: string) { exists i :: 0 <= i < |pairs| && pairs[i].0 == p }

  /** The passages of m, but those that a pair gives with the assessment of the last
      pair that gives them. */
  ghost predicate Overlays(m: map<string, string>, pairs: seq<Pair>, r: map<string, string>) {
    GivesLast(pairs, r)
    && (forall p :: p in m && !Gives(pairs, p) ==> p in r && r[p] == m[p])
    && forall p :: p in r ==> p in m || Gives(pairs, p)
  }

  lemma GivesMore(first: Pair, rest: seq<Pair>, p: string)
    ensures Gives([first] + rest, p) <==> first.0 == p || Gives(rest, p)
  {
    var all := [first] + rest;
    assert all[0] == first && forall i :: 0 <= i < |rest| ==> all[i + 1] == rest[i];
    if Gives(rest, p) {
      var i :| 0 <= i < |rest| && rest[i].0 == p;
      assert all[i + 1].0 == p;
    }
    if Gives(all, p) && first.0 != p {
      var i :| 0 <= i < |all| && all[i].0 == p;
      assert rest[i - 1].0 == p;
    }
  }

  lemma FirstIsLast(first: Pair, rest: seq<Pair>)
    requires LastOfPassage([first] + rest, 0)
    ensures !Gives(rest, first.0)
  {
    var all := [first] + rest;
    forall i | 0 <= i < |rest| ensures rest[i].0 != first.0 { assert all[i + 1].0 != all[0].0; }
  }

  lemma LaterIsLast(first: Pair, rest: seq<Pair>, i: nat)
    requires i > 0 && LastOfPassage([first] + rest, i)
    ensures LastOfPassage(rest, i - 1) && ([first] + rest)[i] == rest[i - 1]
  {
    var all := [first] + rest;
    assert all[i] == rest[i - 1];
    forall j | i - 1 < j < |rest| ensures rest[j].0 != rest[i - 1].0 { assert all[j + 1] == rest[j]; }
  }

  lemma LastsMore(first: Pair, rest: seq<Pair>, r: map<string, string>)
    requires GivesLast(rest, r) && (!Gives(rest, first.0) ==> first.0 in r && r[first.0] == first.1)
    ensures GivesLast([first] + rest, r)
  {
    var all := [first] + rest;
    forall i: nat | LastOfPassage(all, i) ensures all[i].0 in r && r[all[i].0] == all[i].1 {
      if i > 0 { LaterIsLast(first, rest, i); } else { FirstIsLast(first, rest); }
    }
  }

  lemma OverlayMore(m: map<string, string>, first: Pair, rest: seq<Pair>, r: map<string, string>)
    requires Overlays(m[first.0 := first.1], rest, r)
    ensures Overlays(m, [first] + rest, r)
  {
    forall p ensures Gives([first] + rest, p) <==> first.0 == p || Gives(rest, p) { GivesMore(first, rest, p); }
    LastsMore(first, rest, r);
  }

  ghost function EvidenceFor(root: Root, cs: seq<string>): seq<Option<RootEvidence>> {
    seq(|cs|, i requires 0 <= i < |cs| => EvidenceOf(At(root, cs[i])))
  }

  lemma EvidenceTail(root: Root, cs: seq<string>)
    requires cs != []
    ensures EvidenceFor(root, cs) != [] && EvidenceFor(root, cs)[0] == EvidenceOf(At(root, cs[0]))
    ensures EvidenceFor(root, cs)[1..] == EvidenceFor(root, cs[1..])
  {
  }

  /** What one criterion at the root adds. */
  lemma OneIsHarvested(m: map<string, string>, root: Root, c: string)
    ensures HarvestOne(m, EvidenceOf(At(root, c)))
      == if RootPair(root, c) == [] then m else m[RootPair(root, c)[0].0 := RootPair(root, c)[0].1]
  {
    var found := EvidenceOf(At(root, c));
    if found.Some? { EvidenceIsHarvested(m, found.value); }
  }

  lemma EvidenceIsHarvested(m: map<string, string>, e: RootEvidence)
    ensures var passage, assessment := TrimSpace(e.passage), if Blank(e.assessment) then e.weakness else e.assessment;
      HarvestOne(m, Some(e)) == if passage == "" || Blank(assessment) then m else m[passage := assessment]
  {
    assert Blank("");
    FirstOfTwo(e.assessment, e.weakness);
  }

  lemma FirstOfTwo(a: string, b: string)
    ensures FirstNonEmpty([a, b]) == if !Blank(a) then a else if !Blank(b) then b else ""
  {
    assert [a, b][1..] == [b] && [b][1..] == [];
    assert FirstNonEmpty([b]) == if !Blank(b) then b else "";
  }

  /** A number, or an object with a score and texts beside it; a null counts as 0. */
  ghost predicate GivesScore(v: Json, n: int) {
    match v
    case Null => n == 0
    case Number(t) => ParseInt(t) == Some(n)
    case Object(_) => HasScore(v) && HasStrings(v, ROOT_FIELDS) && ScoreIn(v) == Some(n)
    case _ => false
  }

  lemma RootScoreIs(v: Json, n: int)
    ensures RootScore(v) == Some(n) <==> GivesScore(v, n)
  {
  }

  ghost predicate GivesGoodScore(root: Root, c: string) {
    c in root && exists n :: GivesScore(root[c], n) && 0 <= n <= 4
  }

  /** Criteria at the root are read exactly if each of the five is there with a score
      from 0 to 4, and then with these scores. */
  lemma RootScoresExactlyIf(root: Root)
    ensures ScoresAtRoot(root).Some? <==> forall c :: c in CRITERIA ==> GivesGoodScore(root, c)
    ensures ScoresAtRoot(root).Some? ==> forall c :: c in CRITERIA ==>
      c in root && c in ScoresAtRoot(root).value && GivesScore(root[c], ScoresAtRoot(root).value[c])
  {
    forall v, n ensures RootScore(v) == Some(n) <==> GivesScore(v, n) { RootScoreIs(v, n); }
    if forall c :: c in CRITERIA ==> c in root && RootScore(root[c]).Some? {
      var m := map c | c in CRITERIA && c in root && RootScore(root[c]).Some? :: RootScore(root[c]).value;
      FiveCriteria(m);
      assert m.Keys == set c | c in CRITERIA;
      forall c | c in CRITERIA ensures GivesGoodScore(root, c) <==> 0 <= m[c] <= 4 {
        assert GivesScore(root[c], m[c]);
      }
    } else {
      var c :| c in CRITERIA && (c !in root || RootScore(root[c]).None?);
      assert !GivesGoodScore(root, c);
    }
  }

  /** Criteria at the root add their evidence in their order. */
  lemma {:induction false} RootEvidenceIsHarvested(m: map<string, string>, root: Root, cs: seq<string>)
    ensures Overlays(m, RootPairs(root, cs), Harvest(m, EvidenceFor(root, cs)))
    decreases |cs|
  {
    if cs != [] {
      var found := EvidenceFor(root, cs);
      EvidenceTail(root, cs);
      OneIsHarvested(m, root, cs[0]);
      RootEvidenceIsHarvested(HarvestOne(m, found[0]), root, cs[1..]);
      var own, rest := RootPair(root, cs[0]), RootPairs(root, cs[1..]);
      if own == [] {
        assert [] + rest == rest;
      } else {
        assert own == [own[0]];
        OverlayMore(m, own[0], rest, Harvest(m, found));
      }
    }
  }

  // ------------------------------------------------------------- the whole grade

  ghost function Tries(root: Root, shapes: seq<Shape>, walk: Walk): seq<Option<Grade>> {
    seq(|shapes|, i requires 0 <= i < |shapes| => DecodeGrade(root, shapes[i], walk))
  }

  /** The first of the tries that succeeds. */
  ghost predicate FirstSuccess(tries: seq<Option<Grade>>, r: Option<Grade>) {
    if r.None? then forall i :: 0 <= i < |tries| ==> tries[i].None?
    else exists k :: 0 <= k < |tries| && tries[k] == r && forall j :: 0 <= j < k ==> tries[j].None?
  }

  lemma FirstSuccessLater(tries: seq<Option<Grade>>, r: Option<Grade>)
    requires tries != [] && tries[0].None? && FirstSuccess(tries[1..], r)
    ensures FirstSuccess(tries, r)
  {
    var rest := tries[1..];
    assert forall i :: 0 <= i < |rest| ==> rest[i] == tries[i + 1];
    if r.Some? {
      var k :| 0 <= k < |rest| && rest[k] == r && forall j :: 0 <= j < k ==> rest[j].None?;
      forall j | 0 <= j < k + 1 ensures tries[j].None? {
        if j > 0 { assert rest[j - 1].None?; }
      }
      assert tries[k + 1] == r;
    } else {
      forall i | 0 <= i < |tries| ensures tries[i].None? {
        if i > 0 { assert rest[i - 1].None?; }
      }
    }
  }

  /** The first shape that decodes decides. */
  lemma {:induction false} FirstShapeDecides(root: Root, shapes: seq<Shape>, walk: Walk)
    ensures FirstSuccess(Tries(root, shapes, walk), FirstGrade(root, shapes, walk))
  {
    if shapes != [] {
      var tries := Tries(root, shapes, walk);
      TriesTail(root, shapes, walk);
      GradeTail(root, shapes, walk);
      if tries[0].None? {
        FirstShapeDecides(root, shapes[1..], walk);
        FirstSuccessLater(tries, FirstGrade(root, shapes[1..], walk));
      }
    }
  }

  lemma TriesTail(root: Root, shapes: seq<Shape>, walk: Walk)
    requires shapes != []
    ensures var tries := Tries(root, shapes, walk);
      tries != [] && tries[0] == DecodeGrade(root, shapes[0], walk) && tries[1..] == Tries(root, shapes[1..], walk)
  {
  }

  lemma GradeTail(root: Root, shapes: seq<Shape>, walk: Walk)
    requires shapes != []
    ensures FirstGrade(root, shapes, walk)
      == if DecodeGrade(root, shapes[0], walk).Some? then DecodeGrade(root, shapes[0], walk)
         else FirstGrade(root, shapes[1..], walk)
  {
  }

  /** What a grade is made of: the scores under the shape's key, or of the criteria
      at the root, the passages, in the latter case with the evidence of the
      criteria, the notes, and the weakness and flags of the payload. */
  lemma GradeIsMadeOf(root: Root, shape: Shape, walk: Walk)
    requires DecodeGrade(root, shape, walk).Some?
    ensures var g := DecodeGrade(root, shape, walk).value;
      var passages := DecodePassages(At(root, shape.passages));
      passages.Some? && DecodeNotes(At(root, shape.notes)) == Some(g.notes)
      && DecodeFlags(At(root, "flags")) == Some(g.flags) && g.weakness == DecodeWeakness(root)
      && (if shape.scores == "" then
            ScoresAtRoot(root) == Some(g.scores) && Overlays(passages.value, RootPairs(root, CRITERIA), g.passages)
          else shape.scores in root && DecodeScores(root[shape.scores], walk) == Some(g.scores)
               && g.passages == passages.value)
  {
    if shape.scores == "" {
      RootEvidenceIsHarvested(DecodePassages(At(root, shape.passages)).value, root, CRITERIA);
      assert EvidenceFor(root, CRITERIA) == EvidenceAtRoot(root);
    }
  }

  // -------------------------------------------------------------- the round trip

  function TextsTree(ss: seq<string>): Json { Array(seq(|ss|, i requires 0 <= i < |ss| => Str(ss[i]))) }

  function NotesTree(n: Notes): Json {
    Object(map["noticed" := TextsTree(n.noticed), "missed" := TextsTree(n.missed),
               "beyond_notes" := TextsTree(n.beyond)])
  }

  function WeaknessTree(w: Weakness): Json {
    Object(map["passage" := Str(w.passage), "explanation" := Str(w.explanation)])
  }

  function FlagTree(f: Flag): Json {
    Object(map["type" := Str(f.kind), "passage" := Str(f.passage), "violated" := Str(f.violated)])
  }

  function FlagsTree(fs: seq<Flag>): Json { Array(seq(|fs|, i requires 0 <= i < |fs| => FlagTree(fs[i]))) }

  function PassagesTree(m: map<string, string>): Json { Object(map p | p in m :: Str(m[p])) }

  /** The payload a grader that keeps to the schema writes. */
  function GradeRoot(g: Grade): Root {
    var root := map["scores" := ScoresTree(g.scores), "supporting_passages" := PassagesTree(g.passages),
                    "flags" := FlagsTree(g.flags), "notes_check" := NotesTree(g.notes)];
    if g.weakness.None? then root else root["most_consequential_weakness" := WeaknessTree(g.weakness.value)]
  }

  lemma PlainTexts(v: Json, names: seq<string>)
    requires PlainKeys(v)
    requires forall name :: name in names ==> Plain(name) && (Member(v, name).Str? || Member(v, name) == Null)
    ensures HasStrings(v, names)
  {
    forall name | name in names ensures HasString(v, name) {
      PlainText(v, name, if Member(v, name).Str? then Member(v, name).s else "");
    }
  }

  lemma TextsRoundTrip(ss: seq<string>)
    ensures StringsOf(TextsTree(ss)) == Some(ss)
  {
    var items := TextsTree(ss).items;
    forall x | x in items ensures StringOf(x).Some? {}
    assert StringsOf(TextsTree(ss)).value == ss;
  }

  lemma ListMember(v: Json, name: string, ss: seq<string>)
    requires PlainKeys(v) && Plain(name) && Member(v, name) == TextsTree(ss)
    ensures HasList(v, name) && ListAt(v, name) == ss
  {
    PlainField(v, name);
    TextsRoundTrip(ss);
  }

  lemma NotesRoundTrip(n: Notes)
    ensures DecodeNotes(Some(NotesTree(n))) == Some(n)
  {
    var v := NotesTree(n);
    assert PlainKeys(v);
    ListMember(v, "noticed", n.noticed);
    ListMember(v, "missed", n.missed);
    ListMember(v, "beyond_notes", n.beyond);
  }

  lemma FlagNamesArePlain()
    ensures forall name :: name in FLAG_FIELDS ==> Plain(name)
  {
  }

  lemma FlagHasTexts(f: Flag)
    ensures var v := FlagTree(f);
      PlainKeys(v) && Plain("type") && Plain("passage") && Plain("violated") && HasStrings(v, FLAG_FIELDS)
  {
    var v := FlagTree(f);
    assert PlainKeys(v);
    FlagNamesArePlain();
    PlainTexts(v, FLAG_FIELDS);
  }

  lemma FlagRoundTrip(f: Flag)
    ensures HasStrings(FlagTree(f), FLAG_FIELDS) && FlagOf(FlagTree(f)) == f
  {
    var v := FlagTree(f);
    FlagHasTexts(f);
    PlainText(v, "type", f.kind);
    PlainText(v, "passage", f.passage);
    PlainText(v, "violated", f.violated);
    OthersAreEmpty(v);
    FlagWithoutAliases(v);
  }

  const OTHER_FIELDS: seq<string> :=
    ["flag_type", "quote", "quoted_text", "detail", "why", "why_flagged", "severity"]

  lemma OthersAreEmpty(v: Json)
    requires PlainKeys(v) && v.fields.Keys == {"type", "passage", "violated"}
    ensures forall name :: name in OTHER_FIELDS ==> StringAt(v, name) == ""
  {
    FlagNamesArePlain();
    forall name | name in OTHER_FIELDS ensures StringAt(v, name) == "" {
      assert name in FLAG_FIELDS && name !in v.fields;
      PlainText(v, name, "");
    }
  }

  lemma FlagWithoutAliases(v: Json)
    requires forall name :: name in OTHER_FIELDS ==> StringAt(v, name) == ""
    ensures FlagOf(v) == Flag(StringAt(v, "type"), StringAt(v, "passage"), StringAt(v, "violated"))
  {
    assert StringAt(v, OTHER_FIELDS[0]) == "" && StringAt(v, OTHER_FIELDS[1]) == "";
    assert StringAt(v, OTHER_FIELDS[2]) == "" && StringAt(v, OTHER_FIELDS[3]) == "";
    assert StringAt(v, OTHER_FIELDS[4]) == "" && StringAt(v, OTHER_FIELDS[5]) == "";
    assert StringAt(v, OTHER_FIELDS[6]) == "" && Blank("");
    FlagAliases(v);
  }

  lemma FlagsRoundTrip(fs: seq<Flag>)
    requires Typed(fs)
    ensures DecodeFlags(Some(FlagsTree(fs))) == Some(fs)
  {
    var v := FlagsTree(fs);
    forall i | 0 <= i < |fs| ensures HasStrings(v.items[i], FLAG_FIELDS) && FlagOf(v.items[i]) == fs[i] {
      FlagRoundTrip(fs[i]);
    }
    FlagObjectsAreRead(v);
    assert DecodeFlags(Some(v)).value == fs;
  }

  lemma WeaknessRoundTrip(w: Weakness)
    requires w.passage != "" && w.explanation != ""
    ensures var v := WeaknessTree(w);
      HasStrings(v, ["passage", "explanation"]) && StringAt(v, "passage") == w.passage
      && StringAt(v, "explanation") == w.explanation
  {
    var v := WeaknessTree(w);
    assert PlainKeys(v) && Plain("passage") && Plain("explanation");
    PlainText(v, "passage", w.passage);
    PlainText(v, "explanation", w.explanation);
  }

  lemma PassagesRoundTrip(m: map<string, string>)
    requires Evidence(m)
    ensures DecodePassages(Some(PassagesTree(m))) == Some(m)
  {
    var v := PassagesTree(m);
    PassagesAreRead(v);
    TextMapIsRead(v.fields);
    assert FromMap(v.fields).value == m;
  }

  lemma PresentOnes(root: Root)
    requires forall shape :: shape in SHAPES ==> (shape.notes in root <==> shape.notes == "notes_check")
    ensures var first := Shape("scores", "supporting_passages", "notes_check");
      Candidates(root) != [] && Candidates(root)[0] == first
  {
    assert SHAPES[0] == Shape("scores", "supporting_passages", "notes_check");
  }

  lemma PartsMakeGrade(root: Root, shape: Shape, walk: Walk, g: Grade)
    requires shape.scores != "" && shape.scores in root && DecodeScores(root[shape.scores], walk) == Some(g.scores)
    requires DecodePassages(At(root, shape.passages)) == Some(g.passages)
    requires DecodeNotes(At(root, shape.notes)) == Some(g.notes)
    requires DecodeFlags(At(root, "flags")) == Some(g.flags) && DecodeWeakness(root) == g.weakness
    ensures DecodeGrade(root, shape, walk) == Some(g)
  {
  }

  lemma RootMembers(g: Grade)
    ensures var root := GradeRoot(g);
      At(root, "scores") == Some(ScoresTree(g.scores))
      && At(root, "supporting_passages") == Some(PassagesTree(g.passages))
      && At(root, "notes_check") == Some(NotesTree(g.notes)) && At(root, "flags") == Some(FlagsTree(g.flags))
      && "acceptance_notes" !in root && "notes" !in root
  {
  }

  lemma KnownNotes()
    ensures forall shape :: shape in SHAPES ==> shape.notes in ["notes_check", "acceptance_notes", "notes"]
  {
  }

  /** A sound grade in the form of the schema is read back to itself. */
  lemma GradeRoundTrip(g: Grade, walk: Walk)
    requires Sound(g) && Typed(g.flags) && IsWalk(walk)
    ensures GradeOf(GradeRoot(g), walk) == Some(g)
  {
    var root := GradeRoot(g);
    var shape := Shape("scores", "supporting_passages", "notes_check");
    RootMembers(g);
    ScoresRoundTrip(g.scores, walk);
    PassagesRoundTrip(g.passages);
    NotesRoundTrip(g.notes);
    FlagsRoundTrip(g.flags);
    WeaknessIsReadBack(g);
    PartsMakeGrade(root, shape, walk, g);
    KnownNotes();
    PresentOnes(root);
    GradeTail(root, Candidates(root), walk);
  }

  lemma NoSummaries(root: Root)
    requires forall k :: k in SUMMARIES ==> k !in root
    ensures forall s :: s in TextsAt(root, SUMMARIES) ==> Blank(s)
  {
    assert Blank("");
  }

  lemma WeaknessIsReadBack(g: Grade)
    requires g.weakness.Some? ==> g.weakness.value.passage != "" && g.weakness.value.explanation != ""
    ensures DecodeWeakness(GradeRoot(g)) == g.weakness
  {
    var root := GradeRoot(g);
    WeaknessIsRead(root);
    if g.weakness.Some? {
      WeaknessRoundTrip(g.weakness.value);
    } else {
      NoSummaries(root);
      VariantIsRead(root);
    }
  }
}
