/** What model replies are decoded to and checked for, and what the program
    writes for them.  Each decoder undoes its writer. */
module Replies {
  import opened Text
  import opened Json
  import opened Decode
  import opened LenientParser
  import opened StructText

  /** ParseLenient: cut out, decode into a type, check its required fields. */
  ghost function ParseLenient<T>(raw: string, decode: Json -> Option<T>, valid: T -> bool): (r: Option<T>)
    ensures r.Some? ==> Parse(raw).Some? && decode(Parse(raw).value) == r && valid(r.value)
  {
    match Parse(raw)
    case None => None
    case Some(v) => if decode(v).Some? && valid(decode(v).value) then decode(v) else None
  }

  // ------------------------------------------------------------------ field kinds

  function TextDoc(s: string): Option<Doc> { Some(Leaf(Str(s))) }

  /** A text that is left out where it is empty. */
  function TextUnlessEmpty(s: string): Option<Doc> { if s == "" then None else TextDoc(s) }

  function ListDoc(ss: seq<string>): Option<Doc> {
    Some(Leaf(Array(seq(|ss|, i requires 0 <= i < |ss| => Str(ss[i])))))
  }

  /** Distinct names, each spelled in lower case. */
  ghost predicate PlainFields(fields: Fields) {
    DistinctFields(fields) && forall i :: 0 <= i < |fields| ==> Plain(fields[i].0)
  }

  /** A field of a written struct is read from its own name. */
  lemma FieldIsRead(fields: Fields, i: nat)
    requires PlainFields(fields) && i < |fields|
    ensures var t, name := DocTree(StructOf(fields)), fields[i].0;
      var x := if fields[i].1.Some? then DocTree(fields[i].1.value) else Null;
      IsFields(t) && Field(t, name) == FilledField(t, name) == x
      && (HasString(t, name) <==> StringOf(x).Some?) && (HasBool(t, name) <==> BoolOf(x).Some?)
      && (HasList(t, name) <==> StringsOf(x).Some?)
  {
    StructMembers(fields);
    var t := DocTree(StructOf(fields));
    forall k | k in t.fields ensures Plain(k) {
      var j :| 0 <= j < |fields| && fields[j].0 == k;
    }
    PlainField(t, fields[i].0);
  }

  lemma TextIsRead(fields: Fields, i: nat, s: string)
    requires PlainFields(fields) && i < |fields| && fields[i].1 in {TextDoc(s), TextUnlessEmpty(s)}
    ensures var t := DocTree(StructOf(fields)); HasString(t, fields[i].0) && StringAt(t, fields[i].0) == s
  {
    FieldIsRead(fields, i);
  }

  lemma ListIsRead(fields: Fields, i: nat, ss: seq<string>)
    requires PlainFields(fields) && i < |fields|
    requires fields[i].1 == ListDoc(ss) || (ss == [] && fields[i].1 == None)
    ensures var t := DocTree(StructOf(fields)); HasList(t, fields[i].0) && ListAt(t, fields[i].0) == ss
  {
    FieldIsRead(fields, i);
    if fields[i].1.Some? {
      var items := ListDoc(ss).value.v.items;
      forall x | x in items ensures StringOf(x).Some? {}
      assert StringsOf(Array(items)).value == ss;
    }
  }

  /** Consecutive text fields are read from their names. */
  lemma TextsAreRead(fields: Fields, first: nat, names: seq<string>, texts: seq<string>)
    requires PlainFields(fields) && first + |names| <= |fields| && |texts| == |names|
    requires forall j :: 0 <= j < |names| ==>
      fields[first + j].0 == names[j] && fields[first + j].1 in {TextDoc(texts[j]), TextUnlessEmpty(texts[j])}
    ensures var t := DocTree(StructOf(fields));
      HasStrings(t, names) && forall j :: 0 <= j < |names| ==> StringAt(t, names[j]) == texts[j]
  {
    var t := DocTree(StructOf(fields));
    StructMembers(fields);
    forall j | 0 <= j < |names| ensures HasString(t, names[j]) && StringAt(t, names[j]) == texts[j] {
      TextIsRead(fields, first + j, texts[j]);
    }
  }

  // ---------------------------------------------------------------------- danger

  datatype Danger = Danger(present: bool, caution: string)

  ghost function DecodeDanger(v: Json): Option<Danger> {
    if !HasStrings(v, ["caution"]) || !HasBool(v, "present") then None
    else Some(Danger(BoolAt(v, "present"), StringAt(v, "caution")))
  }

  function DangerFields(d: Danger): Fields {
    [("present", Some(Leaf(Bool(d.present)))), ("caution", TextUnlessEmpty(d.caution))]
  }

  lemma DangerRoundTrip(d: Danger)
    ensures DecodeDanger(DocTree(StructOf(DangerFields(d)))) == Some(d)
  {
    var fields := DangerFields(d);
    assert PlainFields(fields);
    FieldIsRead(fields, 0);
    TextIsRead(fields, 1, d.caution);
  }

  // ----------------------------------------------------------------------- views

  datatype View = View(
    danger: Danger, qualification: string, suggestedReply: string, recommendedMove: string,
    decisiveInsight: string, tradeoffOrObjection: string, dependsOn: string, fallback: string)

  const VIEW_TEXTS: seq<string> := [
    "qualification", "suggested_reply", "recommended_move", "decisive_insight", "tradeoff_or_objection",
    "depends_on", "fallback"]

  ghost function DecodeView(v: Json): Option<View> {
    var danger := DecodeDanger(Field(v, "urgent_danger"));
    if !HasStrings(v, VIEW_TEXTS) || danger.None? then None
    else Some(View(
      danger.value, StringAt(v, "qualification"), StringAt(v, "suggested_reply"), StringAt(v, "recommended_move"),
      StringAt(v, "decisive_insight"), StringAt(v, "tradeoff_or_objection"), StringAt(v, "depends_on"),
      StringAt(v, "fallback")))
  }

  predicate ValidView(v: View) {
    v.qualification != "" && v.suggestedReply != "" && v.decisiveInsight != "" && v.tradeoffOrObjection != ""
    && v.dependsOn != "" && v.fallback != ""
  }

  ghost function ParseView(raw: string): Option<View> { ParseLenient(raw, v => DecodeView(v), v => ValidView(v)) }

  function ViewTextsOf(v: View): seq<string> {
    [v.qualification, v.suggestedReply, v.recommendedMove, v.decisiveInsight, v.tradeoffOrObjection, v.dependsOn,
     v.fallback]
  }

  function ViewFields(v: View): Fields {
    [("urgent_danger", Some(StructOf(DangerFields(v.danger)))), ("qualification", TextDoc(v.qualification)),
     ("suggested_reply", TextDoc(v.suggestedReply)), ("recommended_move", TextUnlessEmpty(v.recommendedMove)),
     ("decisive_insight", TextDoc(v.decisiveInsight)), ("tradeoff_or_objection", TextDoc(v.tradeoffOrObjection)),
     ("depends_on", TextDoc(v.dependsOn)), ("fallback", TextDoc(v.fallback))]
  }

  function ViewDoc(v: View): Doc { StructOf(ViewFields(v)) }

  lemma ViewTextNames()
    ensures forall name :: name in VIEW_TEXTS ==> Plain(name) && name != "urgent_danger"
    ensures forall i, j :: 0 <= i < j < |VIEW_TEXTS| ==> VIEW_TEXTS[i] != VIEW_TEXTS[j]
  {
  }

  lemma ViewFieldNames(v: View)
    ensures PlainFields(ViewFields(v))
  {
    var fields := ViewFields(v);
    ViewTextNames();
    assert Plain("urgent_danger");
    assert forall i :: 1 <= i < |fields| ==> fields[i].0 == VIEW_TEXTS[i - 1] && fields[i].0 in VIEW_TEXTS;
  }

  /** Decoding what a view is marshalled to gives the view back. */
  lemma ViewRoundTrip(v: View)
    ensures DecodeView(DocTree(ViewDoc(v))) == Some(v)
  {
    ViewFieldNames(v);
    FieldIsRead(ViewFields(v), 0);
    DangerRoundTrip(v.danger);
    ViewTextsAreRead(v);
  }

  lemma ViewTextsAreRead(v: View)
    ensures var t := DocTree(ViewDoc(v));
      HasStrings(t, VIEW_TEXTS)
      && StringAt(t, "qualification") == v.qualification && StringAt(t, "suggested_reply") == v.suggestedReply
      && StringAt(t, "recommended_move") == v.recommendedMove && StringAt(t, "decisive_insight") == v.decisiveInsight
      && StringAt(t, "tradeoff_or_objection") == v.tradeoffOrObjection && StringAt(t, "depends_on") == v.dependsOn
      && StringAt(t, "fallback") == v.fallback
  {
    var t := DocTree(ViewDoc(v));
    ViewFieldNames(v);
    TextsAreRead(ViewFields(v), 1, VIEW_TEXTS, ViewTextsOf(v));
    assert StringAt(t, VIEW_TEXTS[0]) == v.qualification && StringAt(t, VIEW_TEXTS[1]) == v.suggestedReply;
    assert StringAt(t, VIEW_TEXTS[2]) == v.recommendedMove && StringAt(t, VIEW_TEXTS[3]) == v.decisiveInsight;
    assert StringAt(t, VIEW_TEXTS[4]) == v.tradeoffOrObjection && StringAt(t, VIEW_TEXTS[5]) == v.dependsOn;
    assert StringAt(t, VIEW_TEXTS[6]) == v.fallback;
  }

  // ---------------------------------------------------------------------- judges

  datatype NextSteps = NextSteps(immediate: string, forward: string)

  datatype Judge = Judge(
    danger: Danger, noIndependentViews: bool, missingRoles: seq<string>, qualification: string,
    recommendedReply: string, recommendedAction: string, why: string, acceptedCost: string, next: NextSteps,
    changeCourseIf: string, unresolved: string)

  const NEXT_TEXTS: seq<string> := ["immediate", "forward"]
  const JUDGE_TEXTS: seq<string> := ["qualification", "recommended_reply", "recommended_action", "why", "accepted_cost"]
  const CLOSING_TEXTS: seq<string> := ["change_course_if", "unresolved_disagreement"]

  ghost function DecodeNext(v: Json): Option<NextSteps> {
    if !HasStrings(v, NEXT_TEXTS) then None else Some(NextSteps(StringAt(v, "immediate"), StringAt(v, "forward")))
  }

  ghost function DecodeJudge(v: Json): Option<Judge> {
    var danger, next := DecodeDanger(Field(v, "urgent_danger")), DecodeNext(Field(v, "next"));
    if danger.None? || next.None? || !HasBool(v, "no_independent_views") || !HasList(v, "missing_roles")
       || !HasStrings(v, JUDGE_TEXTS) || !HasStrings(v, CLOSING_TEXTS) then None
    else Some(Judge(
      danger.value, BoolAt(v, "no_independent_views"), ListAt(v, "missing_roles"), StringAt(v, "qualification"),
      StringAt(v, "recommended_reply"), StringAt(v, "recommended_action"), StringAt(v, "why"),
      StringAt(v, "accepted_cost"), next.value, StringAt(v, "change_course_if"),
      StringAt(v, "unresolved_disagreement")))
  }

  predicate ValidJudge(j: Judge) {
    j.qualification != "" && j.recommendedReply != "" && j.why != "" && j.acceptedCost != "" && j.changeCourseIf != ""
  }

  ghost function ParseJudge(raw: string): Option<Judge> { ParseLenient(raw, v => DecodeJudge(v), j => ValidJudge(j)) }

  function NextFields(n: NextSteps): Fields { [("immediate", TextDoc(n.immediate)), ("forward", TextDoc(n.forward))] }

  function JudgeFields(j: Judge): Fields {
    [("urgent_danger", Some(StructOf(DangerFields(j.danger)))),
     ("no_independent_views", Some(Leaf(Bool(j.noIndependentViews)))),
     ("missing_roles", if j.missingRoles == [] then None else ListDoc(j.missingRoles)),
     ("qualification", TextDoc(j.qualification)), ("recommended_reply", TextDoc(j.recommendedReply)),
     ("recommended_action", TextUnlessEmpty(j.recommendedAction)), ("why", TextDoc(j.why)),
     ("accepted_cost", TextDoc(j.acceptedCost)), ("next", Some(StructOf(NextFields(j.next)))),
     ("change_course_if", TextDoc(j.changeCourseIf)), ("unresolved_disagreement", TextUnlessEmpty(j.unresolved))]
  }

  function JudgeDoc(j: Judge): Doc { StructOf(JudgeFields(j)) }

  const JUDGE_NAMES: seq<string> := [
    "urgent_danger", "no_independent_views", "missing_roles", "qualification", "recommended_reply",
    "recommended_action", "why", "accepted_cost", "next", "change_course_if", "unresolved_disagreement"]

  lemma JudgeNamesPlain()
    ensures forall name :: name in JUDGE_NAMES ==> Plain(name)
  {
  }

  lemma JudgeNamesDistinct()
    ensures forall i, j :: 0 <= i < j < |JUDGE_NAMES| ==> JUDGE_NAMES[i] != JUDGE_NAMES[j]
  {
  }

  lemma JudgeFieldNames(j: Judge)
    ensures PlainFields(JudgeFields(j))
  {
    var fields := JudgeFields(j);
    JudgeNamesPlain();
    JudgeNamesDistinct();
    assert forall i :: 0 <= i < |fields| ==> fields[i].0 == JUDGE_NAMES[i] && fields[i].0 in JUDGE_NAMES;
  }

  lemma NextRoundTrip(n: NextSteps)
    ensures DecodeNext(DocTree(StructOf(NextFields(n)))) == Some(n)
  {
    var fields := NextFields(n);
    assert PlainFields(fields);
    TextsAreRead(fields, 0, NEXT_TEXTS, [n.immediate, n.forward]);
    var t := DocTree(StructOf(fields));
    assert StringAt(t, NEXT_TEXTS[0]) == n.immediate && StringAt(t, NEXT_TEXTS[1]) == n.forward;
  }

  lemma JudgeTextsAreRead(j: Judge)
    ensures var t := DocTree(JudgeDoc(j));
      HasStrings(t, JUDGE_TEXTS) && HasStrings(t, CLOSING_TEXTS)
      && StringAt(t, "qualification") == j.qualification && StringAt(t, "recommended_reply") == j.recommendedReply
      && StringAt(t, "recommended_action") == j.recommendedAction && StringAt(t, "why") == j.why
      && StringAt(t, "accepted_cost") == j.acceptedCost && StringAt(t, "change_course_if") == j.changeCourseIf
      && StringAt(t, "unresolved_disagreement") == j.unresolved
  {
    var t := DocTree(JudgeDoc(j));
    JudgeFieldNames(j);
    TextsAreRead(JudgeFields(j), 3, JUDGE_TEXTS,
                 [j.qualification, j.recommendedReply, j.recommendedAction, j.why, j.acceptedCost]);
    TextsAreRead(JudgeFields(j), 9, CLOSING_TEXTS, [j.changeCourseIf, j.unresolved]);
    assert StringAt(t, JUDGE_TEXTS[0]) == j.qualification && StringAt(t, JUDGE_TEXTS[1]) == j.recommendedReply;
    assert StringAt(t, JUDGE_TEXTS[2]) == j.recommendedAction && StringAt(t, JUDGE_TEXTS[3]) == j.why;
    assert StringAt(t, JUDGE_TEXTS[4]) == j.acceptedCost && StringAt(t, CLOSING_TEXTS[0]) == j.changeCourseIf;
    assert StringAt(t, CLOSING_TEXTS[1]) == j.unresolved;
  }

  lemma JudgeDangerIsRead(j: Judge)
    ensures DecodeDanger(Field(DocTree(JudgeDoc(j)), "urgent_danger")) == Some(j.danger)
  {
    JudgeFieldNames(j);
    DangerRoundTrip(j.danger);
    FieldIsRead(JudgeFields(j), 0);
  }

  lemma JudgeNextIsRead(j: Judge)
    ensures DecodeNext(Field(DocTree(JudgeDoc(j)), "next")) == Some(j.next)
  {
    JudgeFieldNames(j);
    NextRoundTrip(j.next);
    FieldIsRead(JudgeFields(j), 8);
  }

  lemma JudgeFlagIsRead(j: Judge)
    ensures var t := DocTree(JudgeDoc(j));
      HasBool(t, "no_independent_views") && BoolAt(t, "no_independent_views") == j.noIndependentViews
  {
    JudgeFieldNames(j);
    FieldIsRead(JudgeFields(j), 1);
  }

  lemma JudgeListIsRead(j: Judge)
    ensures var t := DocTree(JudgeDoc(j));
      HasList(t, "missing_roles") && ListAt(t, "missing_roles") == j.missingRoles
  {
    JudgeFieldNames(j);
    ListIsRead(JudgeFields(j), 2, j.missingRoles);
  }

  /** Decoding what a judge is marshalled to gives the judge back. */
  lemma JudgeRoundTrip(j: Judge)
    ensures DecodeJudge(DocTree(JudgeDoc(j))) == Some(j)
  {
    JudgeTextsAreRead(j);
    JudgeDangerIsRead(j);
    JudgeNextIsRead(j);
    JudgeFlagIsRead(j);
    JudgeListIsRead(j);
  }

  // ------------------------------------------------------- comparisons and coverage

  datatype PairwiseReply = PairwiseReply(verdict: string, margin: string, difference: string, notes: string)

  const PAIRWISE_TEXTS: seq<string> := ["verdict", "margin", "consequential_difference", "notes"]

  ghost function DecodePairwise(v: Json): Option<PairwiseReply> {
    if !HasStrings(v, PAIRWISE_TEXTS) then None
    else Some(PairwiseReply(
      StringAt(v, "verdict"), StringAt(v, "margin"), StringAt(v, "consequential_difference"), StringAt(v, "notes")))
  }

  /** Nothing is required of it here; its vocabulary is checked by the caller. */
  ghost function ParsePairwise(raw: string): Option<PairwiseReply> {
    ParseLenient(raw, v => DecodePairwise(v), r => true)
  }

  function PairwiseFields(r: PairwiseReply): Fields {
    [("verdict", TextDoc(r.verdict)), ("margin", TextDoc(r.margin)),
     ("consequential_difference", TextDoc(r.difference)), ("notes", TextUnlessEmpty(r.notes))]
  }

  lemma PairwiseRoundTrip(r: PairwiseReply)
    ensures DecodePairwise(DocTree(StructOf(PairwiseFields(r)))) == Some(r)
  {
    var fields := PairwiseFields(r);
    assert PlainFields(fields);
    TextsAreRead(fields, 0, PAIRWISE_TEXTS, [r.verdict, r.margin, r.difference, r.notes]);
    var t := DocTree(StructOf(fields));
    assert StringAt(t, PAIRWISE_TEXTS[0]) == r.verdict && StringAt(t, PAIRWISE_TEXTS[1]) == r.margin;
    assert StringAt(t, PAIRWISE_TEXTS[2]) == r.difference && StringAt(t, PAIRWISE_TEXTS[3]) == r.notes;
  }

  datatype CoverageRow = CoverageRow(
    issueId: string, issueText: string, planted: bool, noticedBy: seq<string>, unsupportedBy: seq<string>,
    outcome: string)

  const ROW_TEXTS: seq<string> := ["issue_id", "issue_text"]

  ghost function DecodeRow(v: Json): Option<CoverageRow> {
    if !HasStrings(v, ROW_TEXTS) || !HasString(v, "judge_outcome") || !HasBool(v, "is_planted")
       || !HasList(v, "noticed_by") || !HasList(v, "unsupported_by") then None
    else Some(CoverageRow(
      StringAt(v, "issue_id"), StringAt(v, "issue_text"), BoolAt(v, "is_planted"), ListAt(v, "noticed_by"),
      ListAt(v, "unsupported_by"), StringAt(v, "judge_outcome")))
  }

  ghost function DecodeRows(items: seq<Json>): Option<seq<CoverageRow>> {
    if items == [] then Some([]) else
    var first, rest := DecodeRow(items[0]), DecodeRows(items[1..]);
    if first.None? || rest.None? then None else Some([first.value] + rest.value)
  }

  ghost predicate HasRows(v: Json) { IsItems(v) && DecodeRows(ItemsOf(v)).Some? }

  ghost function DecodeCoverage(v: Json): Option<seq<CoverageRow>> {
    if !IsFields(v) || exists k :: k in Spellings(v, "rows") && !HasRows(FieldsOf(v)[k]) then None
    else DecodeRows(ItemsOf(Field(v, "rows")))
  }

  ghost function ParseCoverage(raw: string): Option<seq<CoverageRow>> {
    ParseLenient(raw, v => DecodeCoverage(v), rows => true)
  }

  function RowFields(r: CoverageRow): Fields {
    [("issue_id", TextDoc(r.issueId)), ("issue_text", TextDoc(r.issueText)),
     ("is_planted", Some(Leaf(Bool(r.planted)))), ("noticed_by", ListDoc(r.noticedBy)),
     ("unsupported_by", ListDoc(r.unsupportedBy)), ("judge_outcome", TextDoc(r.outcome))]
  }

  ghost function RowTree(r: CoverageRow): Json { DocTree(StructOf(RowFields(r))) }

  ghost function RowTrees(rows: seq<CoverageRow>): seq<Json> {
    seq(|rows|, i requires 0 <= i < |rows| => RowTree(rows[i]))
  }

  ghost function CoverageTree(rows: seq<CoverageRow>): Json { Object(map["rows" := Array(RowTrees(rows))]) }

  lemma RowNames(r: CoverageRow)
    ensures PlainFields(RowFields(r))
  {
  }

  lemma RowRoundTrip(r: CoverageRow)
    ensures DecodeRow(RowTree(r)) == Some(r)
  {
    var fields := RowFields(r);
    RowNames(r);
    TextsAreRead(fields, 0, ROW_TEXTS, [r.issueId, r.issueText]);
    assert StringAt(RowTree(r), ROW_TEXTS[0]) == r.issueId && StringAt(RowTree(r), ROW_TEXTS[1]) == r.issueText;
    FieldIsRead(fields, 2);
    ListIsRead(fields, 3, r.noticedBy);
    ListIsRead(fields, 4, r.unsupportedBy);
    TextIsRead(fields, 5, r.outcome);
  }

  lemma OneMoreRow(item: Json, row: CoverageRow, items: seq<Json>, rows: seq<CoverageRow>)
    requires DecodeRow(item) == Some(row) && DecodeRows(items) == Some(rows)
    ensures DecodeRows([item] + items) == Some([row] + rows)
  {
    var all := [item] + items;
    assert all[0] == item && all[1..] == items;
  }

  /** A list is decoded item by item. */
  lemma {:induction false} RowsDecoded(items: seq<Json>, rows: seq<CoverageRow>)
    requires |items| == |rows| && forall i :: 0 <= i < |rows| ==> DecodeRow(items[i]) == Some(rows[i])
    ensures DecodeRows(items) == Some(rows)
  {
    if rows != [] {
      RowsDecoded(items[1..], rows[1..]);
      OneMoreRow(items[0], rows[0], items[1..], rows[1..]);
      assert items == [items[0]] + items[1..] && rows == [rows[0]] + rows[1..];
    }
  }

  lemma RowsField(items: seq<Json>)
    ensures var v := Object(map["rows" := Array(items)]);
      Spellings(v, "rows") == {"rows"} && Field(v, "rows") == FieldsOf(v)["rows"] == Array(items)
  {
    PlainField(Object(map["rows" := Array(items)]), "rows");
  }

  lemma CoverageRoundTrip(rows: seq<CoverageRow>)
    ensures DecodeCoverage(CoverageTree(rows)) == Some(rows)
  {
    var items := RowTrees(rows);
    forall i | 0 <= i < |rows| ensures DecodeRow(items[i]) == Some(rows[i]) { RowRoundTrip(rows[i]); }
    RowsDecoded(items, rows);
    RowsField(items);
  }
}
