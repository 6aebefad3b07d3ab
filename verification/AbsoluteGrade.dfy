/** Reading an absolute grade out of the payload shapes graders emit. */
module AbsoluteGrade {
  import opened Text
  import opened Json
  import opened Decode
  import opened LenientParser
  import opened ScoreContainer

  predicate Blank(s: string) { TrimSpace(s) == "" }

  // ------------------------------------------------------------------- passages

  predicate Evidence(m: map<string, string>) { forall p :: p in m ==> !Blank(p) && !Blank(m[p]) }

  function FirstNonEmpty(ss: seq<string>): (r: string)
    ensures r == "" || (r in ss && !Blank(r))
  {
    if ss == [] then "" else if !Blank(ss[0]) then ss[0] else FirstNonEmpty(ss[1..])
  }

  /** A map of strings as it stands. */
  function FromMap(m: map<string, Json>): (r: Option<map<string, string>>)
    ensures r.Some? ==> Evidence(r.value)
  {
    if exists p :: p in m && (Blank(p) || StringOf(m[p]).None? || Blank(StringOf(m[p]).value)) then None
    else Some(map p | p in m && StringOf(m[p]).Some? :: StringOf(m[p]).value)
  }

  /** Each line is both the passage and its own assessment. */
  function FromLines(lines: seq<string>): (r: Option<map<string, string>>)
    ensures r.Some? ==> Evidence(r.value)
  {
    if lines == [] then Some(map[]) else
      var front, last := FromLines(lines[..|lines| - 1]), lines[|lines| - 1];
      if front.None? || Blank(last) then None else Some(front.value[last := last])
  }

  const PASSAGE_FIELDS: seq<string> := ["passage", "assessment", "why_it_helps", "response", "issue", "quote"]

  ghost function PassageOf(e: Json): string {
    FirstNonEmpty([StringAt(e, "passage"), StringAt(e, "response"), StringAt(e, "quote")])
  }

  ghost function AssessmentOf(e: Json): string {
    FirstNonEmpty([StringAt(e, "assessment"), StringAt(e, "why_it_helps"), StringAt(e, "issue")])
  }

  ghost function FromEntries(entries: seq<Json>): (r: Option<map<string, string>>)
    ensures r.Some? ==> Evidence(r.value)
  {
    if entries == [] then Some(map[]) else
      var front, e := FromEntries(entries[..|entries| - 1]), entries[|entries| - 1];
      if front.None? || Blank(PassageOf(e)) || Blank(AssessmentOf(e)) then None
      else Some(front.value[PassageOf(e) := AssessmentOf(e)])
  }

  predicate IsTextMap(v: Json) { IsFields(v) && forall k :: k in FieldsOf(v) ==> StringOf(FieldsOf(v)[k]).Some? }

  ghost predicate AreStructs(v: Json, names: seq<string>) {
    IsItems(v) && forall x :: x in ItemsOf(v) ==> HasStrings(x, names)
  }

  /** The first reading that decodes decides. */
  ghost function DecodePassages(raw: Option<Json>): (r: Option<map<string, string>>)
    ensures r.Some? ==> Evidence(r.value)
  {
    match raw
    case None => Some(map[])
    case Some(v) =>
      if IsTextMap(v) then FromMap(FieldsOf(v))
      else if StringsOf(v).Some? then FromLines(StringsOf(v).value)
      else if AreStructs(v, PASSAGE_FIELDS) then FromEntries(ItemsOf(v))
      else None
  }

  // -------------------------------------------------------- notes, flags, weakness

  datatype Notes = Notes(noticed: seq<string>, missed: seq<string>, beyond: seq<string>)

  /** Three lists, one text, or one list. */
  ghost function DecodeNotes(raw: Option<Json>): Option<Notes> {
    match raw
    case None => Some(Notes([], [], []))
    case Some(v) =>
      if IsFields(v) && HasList(v, "noticed") && HasList(v, "missed") && HasList(v, "beyond_notes") then
        Some(Notes(ListAt(v, "noticed"), ListAt(v, "missed"), ListAt(v, "beyond_notes")))
      else if StringOf(v).Some? then Some(Notes([StringOf(v).value], [], []))
      else if StringsOf(v).Some? then Some(Notes(StringsOf(v).value, [], []))
      else None
  }

  datatype Flag = Flag(kind: string, passage: string, violated: string)

  const FLAG_FIELDS: seq<string> := [
    "type", "flag_type", "passage", "quote", "quoted_text", "detail", "violated", "why", "why_flagged", "severity"]

  ghost function FlagOf(e: Json): Flag {
    Flag(
      OrElse(StringAt(e, "type"), StringAt(e, "flag_type")),
      OrElse(StringAt(e, "passage"),
             FirstNonEmpty([StringAt(e, "quote"), StringAt(e, "quoted_text"), StringAt(e, "detail")])),
      OrElse(StringAt(e, "violated"),
             FirstNonEmpty([StringAt(e, "why"), StringAt(e, "why_flagged"), StringAt(e, "severity")])))
  }

  ghost function FlagsOf(items: seq<Json>): seq<Flag> {
    seq(|items|, i requires 0 <= i < |items| => FlagOf(items[i]))
  }

  /** Flag objects, which must have a type, or bare names. */
  ghost function DecodeFlags(raw: Option<Json>): Option<seq<Flag>> {
    match raw
    case None => Some([])
    case Some(v) =>
      if AreStructs(v, FLAG_FIELDS) then
        var flags := FlagsOf(ItemsOf(v));
        if exists f :: f in flags && f.kind == "" then None else Some(flags)
      else
        match StringsOf(v)
        case None => None
        case Some(names) => Some(seq(|names|, i requires 0 <= i < |names| => Flag(names[i], "", "")))
  }

  datatype Weakness = Weakness(passage: string, explanation: string)

  type Root = map<string, Json>

  /** A root key's message, if the key is there. */
  function At(root: Root, key: string): Option<Json> { if key in root then Some(root[key]) else None }

  const SUMMARIES: seq<string> := ["weakness_summary", "overall_assessment", "overall_notes", "overall_note"]

  /** The first text under one of these keys that is not blank. */
  function FirstSummary(root: Root, keys: seq<string>): (r: string)
    ensures r == "" || !Blank(r)
  {
    if keys == [] then ""
    else if keys[0] in root && StringOf(root[keys[0]]).Some? && !Blank(StringOf(root[keys[0]]).value)
      then StringOf(root[keys[0]]).value
    else FirstSummary(root, keys[1..])
  }

  /** What the variant keys hold: a list of weaknesses, a summary, or an overall object. */
  ghost function VariantWeakness(root: Root): (r: string)
    ensures r == "" || !Blank(r)
  {
    var listed := match At(root, "weaknesses")
      case None => ""
      case Some(v) => if StringsOf(v).Some? then FirstNonEmpty(StringsOf(v).value) else "";
    if listed != "" then listed
    else if FirstSummary(root, SUMMARIES) != "" then FirstSummary(root, SUMMARIES)
    else
      match At(root, "overall")
      case None => ""
      case Some(v) =>
        if HasStrings(v, ["summary"]) && !Blank(StringAt(v, "summary")) then StringAt(v, "summary") else ""
  }

  ghost function DecodeWeakness(root: Root): Option<Weakness> {
    var own := match At(root, "most_consequential_weakness")
      case None => None
      case Some(v) =>
        if HasStrings(v, ["passage", "explanation"]) && StringAt(v, "passage") != "" && StringAt(v, "explanation") != ""
        then Some(Weakness(StringAt(v, "passage"), StringAt(v, "explanation"))) else None;
    var variant := VariantWeakness(root);
    if own.Some? then own else if variant != "" then Some(Weakness(variant, variant)) else None
  }

  // ----------------------------------------------------------------- whole grade

  datatype Shape = Shape(scores: string, passages: string, notes: string)

  const SHAPES: seq<Shape> := [
    Shape("scores", "supporting_passages", "notes_check"),
    Shape("scores", "supporting_passages", "acceptance_notes"),
    Shape("criteria", "supporting_passages", "notes_check"),
    Shape("criteria", "supporting_passages", "acceptance_notes"),
    Shape("assessment", "supporting_passages", "acceptance_notes"),
    Shape("scores", "supporting_passages", "notes"),
    Shape("rubric_scores", "supporting_passages", "acceptance_notes"),
    Shape("rubric_scores", "supporting_passages", "notes_check"),
    Shape("rubric_evaluation", "supporting_passages", "acceptance_notes"),
    Shape("evaluation", "supporting_passages", "acceptance_notes"),
    Shape("why_scores", "supporting_passages", "acceptance_notes"),
    Shape("", "supporting_passages", "acceptance_notes"),
    Shape("", "supporting_passages", "notes_check")]

  datatype Grade = Grade(
    scores: map<string, int>, passages: map<string, string>, notes: Notes,
    weakness: Option<Weakness>, flags: seq<Flag>)

  const ROOT_FIELDS: seq<string> := ["supporting_passage", "assessment", "weakness"]

  /** A number, or an object with a score. */
  ghost function RootScore(v: Json): Option<int> {
    if IntOf(v).Some? then IntOf(v) else if HasScore(v) && HasStrings(v, ROOT_FIELDS) then ScoreIn(v) else None
  }

  /** The criteria as keys of the payload itself. */
  ghost function ScoresAtRoot(root: Root): (r: Option<map<string, int>>)
    ensures r.Some? ==> ValidScores(r.value)
  {
    if exists c :: c in CRITERIA && (c !in root || RootScore(root[c]).None?) then None
    else Checked(Some(map c | c in CRITERIA && c in root && RootScore(root[c]).Some? :: RootScore(root[c]).value))
  }

  /** The evidence a root-level criterion object carries. */
  datatype RootEvidence = RootEvidence(passage: string, assessment: string, weakness: string)

  ghost function EvidenceOf(raw: Option<Json>): Option<RootEvidence> {
    match raw
    case None => None
    case Some(v) =>
      if !HasStrings(v, ROOT_FIELDS) then None
      else Some(RootEvidence(StringAt(v, "supporting_passage"), StringAt(v, "assessment"), StringAt(v, "weakness")))
  }

  /** One for each criterion. */
  ghost function EvidenceAtRoot(root: Root): seq<Option<RootEvidence>> {
    seq(|CRITERIA|, i requires 0 <= i < |CRITERIA| => EvidenceOf(At(root, CRITERIA[i])))
  }

  function HarvestOne(m: map<string, string>, found: Option<RootEvidence>): map<string, string> {
    match found
    case None => m
    case Some(e) =>
      var passage, assessment := TrimSpace(e.passage), FirstNonEmpty([e.assessment, e.weakness]);
      if passage == "" || Blank(assessment) then m else m[passage := assessment]
  }

  function Harvest(m: map<string, string>, found: seq<Option<RootEvidence>>): map<string, string>
    decreases |found|
  {
    if found == [] then m else Harvest(HarvestOne(m, found[0]), found[1..])
  }

  method HarvestRootPassages(passages: map<string, string>, found: seq<Option<RootEvidence>>)
    returns (m: map<string, string>)
    ensures m == Harvest(passages, found)
  {
    m := passages;
    for i := 0 to |found|
      invariant Harvest(m, found[i..]) == Harvest(passages, found)
    {
      assert found[i..][0] == found[i] && found[i..][1..] == found[i + 1..];
      if found[i].None? { continue; }
      var passage := TrimSpace(found[i].value.passage);
      var assessment := FirstNonEmpty([found[i].value.assessment, found[i].value.weakness]);
      if passage == "" || Blank(assessment) { continue; }
      m := m[passage := assessment];
    }
  }

  ghost function DecodeGrade(root: Root, shape: Shape, walk: Walk): Option<Grade> {
    var scores :=
      if shape.scores == "" then ScoresAtRoot(root)
      else if shape.scores in root then DecodeScores(root[shape.scores], walk) else None;
    var passages := DecodePassages(At(root, shape.passages));
    var notes := DecodeNotes(At(root, shape.notes));
    var flags := DecodeFlags(At(root, "flags"));
    if scores.None? || passages.None? || notes.None? || flags.None? then None
    else
      var evidence := if shape.scores == "" then Harvest(passages.value, EvidenceAtRoot(root)) else passages.value;
      Some(Grade(scores.value, evidence, notes.value, DecodeWeakness(root), flags.value))
  }

  /** The shapes whose notes key is there. */
  function Present(root: Root, shapes: seq<Shape>): (r: seq<Shape>)
    ensures forall shape :: shape in r <==> shape in shapes && shape.notes in root
  {
    if shapes == [] then [] else
      (if shapes[0].notes in root then [shapes[0]] else []) + Present(root, shapes[1..])
  }

  ghost function FirstGrade(root: Root, shapes: seq<Shape>, walk: Walk): (r: Option<Grade>)
    ensures r.Some? ==> exists shape :: shape in shapes && DecodeGrade(root, shape, walk) == r
    ensures r.None? ==> forall shape :: shape in shapes ==> DecodeGrade(root, shape, walk).None?
  {
    if shapes == [] then None
    else if DecodeGrade(root, shapes[0], walk).Some? then DecodeGrade(root, shapes[0], walk)
    else FirstGrade(root, shapes[1..], walk)
  }

  /** The shapes whose notes key is there, or all of them if none is. */
  function Candidates(root: Root): seq<Shape> { if Present(root, SHAPES) != [] then Present(root, SHAPES) else SHAPES }

  ghost function GradeOf(root: Root, walk: Walk): Option<Grade> { FirstGrade(root, Candidates(root), walk) }

  ghost function ParseGrade(raw: string, walk: Walk): Option<Grade> {
    match Parse(raw)
    case Some(Object(root)) => GradeOf(root, walk)
    case _ => None
  }

  // -------------------------------------------------------------------- theorems

  predicate AllSpace(s: string) { forall i :: 0 <= i < |s| ==> IsSpace(s[i]) }

  lemma {:induction false} TrimLeftKeeps(s: string)
    ensures AllSpace(TrimLeft(s)) <==> AllSpace(s)
    ensures TrimLeft(s) != "" ==> !IsSpace(TrimLeft(s)[0])
  {
    if s != "" && IsSpace(s[0]) {
      TrimLeftKeeps(s[1..]);
      assert s == [s[0]] + s[1..];
    }
  }

  lemma {:induction false} TrimRightKeeps(s: string)
    ensures AllSpace(TrimRight(s)) <==> AllSpace(s)
    ensures TrimRight(s) != "" ==> !IsSpace(TrimRight(s)[|TrimRight(s)| - 1])
  {
    if s != "" && IsSpace(s[|s| - 1]) {
      TrimRightKeeps(s[..|s| - 1]);
      assert s == s[..|s| - 1] + [s[|s| - 1]];
    }
  }

  lemma BlankIsAllSpace(s: string)
    ensures Blank(s) <==> AllSpace(s)
  {
    TrimLeftKeeps(s);
    TrimRightKeeps(TrimLeft(s));
  }

  lemma TrimKeepsText(s: string)
    ensures !Blank(TrimSpace(s)) <==> !Blank(s)
  {
    BlankIsAllSpace(s);
    BlankIsAllSpace(TrimSpace(s));
    TrimLeftKeeps(s);
    TrimRightKeeps(TrimLeft(s));
  }

  lemma HarvestOneIsEvidence(m: map<string, string>, found: Option<RootEvidence>)
    requires Evidence(m)
    ensures Evidence(HarvestOne(m, found))
  {
    if found.Some? { TrimKeepsText(found.value.passage); }
  }

  /** Evidence collected from root-level criteria is never blank. */
  lemma {:induction false} HarvestIsEvidence(m: map<string, string>, found: seq<Option<RootEvidence>>)
    requires Evidence(m)
    ensures Evidence(Harvest(m, found))
    decreases |found|
  {
    if found != [] {
      HarvestOneIsEvidence(m, found[0]);
      HarvestIsEvidence(HarvestOne(m, found[0]), found[1..]);
    }
  }

  /** Exactly the five criteria, each 0 to 4; no blank evidence; a weakness, if
      there is one, that says something. */
  predicate Sound(g: Grade) {
    ValidScores(g.scores) && g.scores.Keys == (set c | c in CRITERIA) && Evidence(g.passages)
    && (g.weakness.Some? ==> g.weakness.value.passage != "" && g.weakness.value.explanation != "")
  }

  lemma DecodedIsSound(root: Root, shape: Shape, walk: Walk)
    ensures DecodeGrade(root, shape, walk).Some? ==> Sound(DecodeGrade(root, shape, walk).value)
  {
    var g := DecodeGrade(root, shape, walk);
    if g.Some? {
      HarvestIsEvidence(DecodePassages(At(root, shape.passages)).value, EvidenceAtRoot(root));
      FiveCriteria(g.value.scores);
    }
  }

  /** Whatever a grader wrote, an accepted grade is sound. */
  lemma AcceptedIsSound(raw: string, walk: Walk)
    ensures ParseGrade(raw, walk).Some? ==> Sound(ParseGrade(raw, walk).value)
  {
    if ParseGrade(raw, walk).Some? {
      var root := Parse(raw).value.fields;
      var shape :| shape in Candidates(root) && DecodeGrade(root, shape, walk) == ParseGrade(raw, walk);
      DecodedIsSound(root, shape, walk);
    }
  }

  /** A payload is accepted exactly if one of the shapes tried decodes, and the
      notes of one that carries notes under a known key are not dropped. */
  lemma NotesAreKept(root: Root, walk: Walk)
    ensures GradeOf(root, walk).Some?
        <==> exists shape :: shape in Candidates(root) && DecodeGrade(root, shape, walk).Some?
    ensures GradeOf(root, walk).Some? && (exists shape :: shape in SHAPES && shape.notes in root) ==>
      exists shape :: shape in SHAPES && shape.notes in root
        && DecodeNotes(Some(root[shape.notes])) == Some(GradeOf(root, walk).value.notes)
  {
    var g := GradeOf(root, walk);
    if g.Some? {
      var shape :| shape in Candidates(root) && DecodeGrade(root, shape, walk) == g;
      if other :| other in SHAPES && other.notes in root {
        assert other in Present(root, SHAPES);
        assert shape in SHAPES && shape.notes in root;
        assert DecodeNotes(Some(root[shape.notes])) == Some(g.value.notes);
      }
    }
  }

  /** Scores read from the root are numbers of the payload exactly if none of the
      five is null, which counts as 0. */
  lemma RootScoresAreWrittenExactlyIf(root: Root)
    requires ScoresAtRoot(root).Some?
    ensures forall c :: c in CRITERIA ==> c in root && c in ScoresAtRoot(root).value
    ensures var m := ScoresAtRoot(root).value;
      (forall c :: c in CRITERIA ==> IsLiteral(root[c], m[c]) || IsLiteral(Field(root[c], "score"), m[c]))
        <==> forall c :: c in CRITERIA ==> root[c] != Null
  {
    var m := ScoresAtRoot(root).value;
    forall c | c in CRITERIA
      ensures (IsLiteral(root[c], m[c]) || IsLiteral(Field(root[c], "score"), m[c])) <==> root[c] != Null
    {
      assert Some(m[c]) == RootScore(root[c]);
    }
  }

  predicate Typed(flags: seq<Flag>) { forall f :: f in flags ==> f.kind != "" }

  /** Accepted flags all have a type, unless they came as a list of names that
      holds an empty or null one beside a text. */
  lemma FlagsAreTypedExactlyIf(v: Json)
    requires DecodeFlags(Some(v)).Some?
    ensures Typed(DecodeFlags(Some(v)).value)
      <==> AreStructs(v, FLAG_FIELDS) || forall x :: x in ItemsOf(v) ==> x != Str("") && x != Null
  {
    var flags := DecodeFlags(Some(v)).value;
    if !AreStructs(v, FLAG_FIELDS) {
      var names := StringsOf(v).value;
      assert |flags| == |names| == |ItemsOf(v)|;
      assert forall i :: 0 <= i < |names| ==> flags[i].kind == names[i] && flags[i] in flags;
      assert forall i :: 0 <= i < |names| ==> ItemsOf(v)[i] in ItemsOf(v);
      assert forall i :: 0 <= i < |names| ==> (names[i] == "" <==> ItemsOf(v)[i] == Str("") || ItemsOf(v)[i] == Null);
    }
  }

  /** A flag without a type that is accepted. */
  lemma EmptyFlagIsAccepted()
    ensures var flags := DecodeFlags(Some(Array([Str("x"), Str("")]))); flags.Some? && !Typed(flags.value)
  {
    var v := Array([Str("x"), Str("")]);
    assert ItemsOf(v)[0] in ItemsOf(v) && ItemsOf(v)[1] in ItemsOf(v);
    assert StringsOf(v).Some?;
    FlagsAreTypedExactlyIf(v);
  }
}
