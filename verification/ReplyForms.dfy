/** Exactly which values decode to which replies. */
module ReplyForms {
  import opened Text
  import opened Json
  import opened Decode
  import opened Replies

  predicate IsText(v: Json) { v.Str? || v == Null }

  predicate IsFlag(v: Json) { v.Bool? || v == Null }

  /** A list of texts. */
  predicate IsTexts(v: Json) { v == Null || (v.Array? && forall x :: x in v.items ==> IsText(x)) }

  lemma KindsAre(v: Json)
    ensures StringOf(v).Some? <==> IsText(v)
    ensures BoolOf(v).Some? <==> IsFlag(v)
    ensures StringsOf(v).Some? <==> IsTexts(v)
  {
    if v.Array? {
      forall x | x in v.items ensures StringOf(x).Some? <==> IsText(x) {}
    }
  }

  /** In an object with plain keys a field has a kind exactly if its member does. */
  lemma MemberKinds(v: Json, name: string)
    requires PlainKeys(v) && Plain(name)
    ensures HasString(v, name) <==> IsText(Member(v, name))
    ensures HasBool(v, name) <==> IsFlag(Member(v, name))
    ensures HasList(v, name) <==> IsTexts(Member(v, name))
  {
    PlainField(v, name);
    KindsAre(Member(v, name));
  }

  ghost predicate TextsIn(v: Json, names: seq<string>)
    requires v.Object?
  {
    forall name :: name in names ==> IsText(Member(v, name))
  }

  lemma TextsKinds(v: Json, names: seq<string>)
    requires PlainKeys(v) && forall name :: name in names ==> Plain(name)
    ensures HasStrings(v, names) <==> TextsIn(v, names)
  {
    forall name | name in names ensures HasString(v, name) <==> IsText(Member(v, name)) { MemberKinds(v, name); }
  }

  lemma DangerNames()
    ensures Plain("present") && Plain("caution") && Plain("urgent_danger") && Plain("next")
  {
  }

  /** A danger flag and its caution: a bool and a text, each of which may be missing. */
  lemma DangerExactlyIf(v: Json)
    requires PlainKeys(v)
    ensures DecodeDanger(v).Some? <==> IsFlag(Member(v, "present")) && IsText(Member(v, "caution"))
  {
    DangerNames();
    MemberKinds(v, "present");
    TextsKinds(v, ["caution"]);
    assert ["caution"][0] in ["caution"];
  }

  /** A view: seven texts and a danger. */
  lemma ViewExactlyIf(v: Json)
    requires PlainKeys(v)
    ensures DecodeView(v).Some? <==> TextsIn(v, VIEW_TEXTS) && DecodeDanger(Member(v, "urgent_danger")).Some?
  {
    DangerNames();
    ViewTextNames();
    TextsKinds(v, VIEW_TEXTS);
    PlainField(v, "urgent_danger");
  }

  lemma NextExactlyIf(v: Json)
    requires PlainKeys(v)
    ensures DecodeNext(v).Some? <==> IsText(Member(v, "immediate")) && IsText(Member(v, "forward"))
  {
    assert Plain("immediate") && Plain("forward");
    TextsKinds(v, NEXT_TEXTS);
    assert NEXT_TEXTS[0] in NEXT_TEXTS && NEXT_TEXTS[1] in NEXT_TEXTS;
  }

  /** A judge: its texts, a flag, a list of texts, a danger and the next steps. */
  lemma JudgeExactlyIf(v: Json)
    requires PlainKeys(v)
    ensures DecodeJudge(v).Some? <==>
      TextsIn(v, JUDGE_TEXTS) && TextsIn(v, CLOSING_TEXTS) && IsFlag(Member(v, "no_independent_views"))
      && IsTexts(Member(v, "missing_roles")) && DecodeDanger(Member(v, "urgent_danger")).Some?
      && DecodeNext(Member(v, "next")).Some?
  {
    JudgePartNames();
    TextsKinds(v, JUDGE_TEXTS);
    TextsKinds(v, CLOSING_TEXTS);
    MemberKinds(v, "no_independent_views");
    MemberKinds(v, "missing_roles");
    PlainField(v, "urgent_danger");
    PlainField(v, "next");
  }

  lemma JudgePartNames()
    ensures forall name :: name in JUDGE_TEXTS || name in CLOSING_TEXTS ==> Plain(name)
    ensures Plain("no_independent_views") && Plain("missing_roles") && Plain("urgent_danger") && Plain("next")
  {
    JudgeNamesPlain();
    assert JUDGE_TEXTS == JUDGE_NAMES[3..8] && CLOSING_TEXTS == JUDGE_NAMES[9..11];
    assert JUDGE_NAMES[0] in JUDGE_NAMES && JUDGE_NAMES[1] in JUDGE_NAMES && JUDGE_NAMES[2] in JUDGE_NAMES;
    assert JUDGE_NAMES[8] in JUDGE_NAMES;
  }

  /** A comparison: four texts. */
  lemma PairwiseExactlyIf(v: Json)
    requires PlainKeys(v)
    ensures DecodePairwise(v).Some? <==> TextsIn(v, PAIRWISE_TEXTS)
  {
    PairwiseNames();
    TextsKinds(v, PAIRWISE_TEXTS);
  }

  lemma PairwiseNames()
    ensures forall name :: name in PAIRWISE_TEXTS ==> Plain(name)
  {
  }

  /** A coverage row: three texts, a flag and two lists of texts. */
  lemma RowExactlyIf(v: Json)
    requires PlainKeys(v)
    ensures DecodeRow(v).Some? <==>
      TextsIn(v, ROW_TEXTS) && IsText(Member(v, "judge_outcome")) && IsFlag(Member(v, "is_planted"))
      && IsTexts(Member(v, "noticed_by")) && IsTexts(Member(v, "unsupported_by"))
  {
    RowPartNames();
    TextsKinds(v, ROW_TEXTS);
    MemberKinds(v, "judge_outcome");
    MemberKinds(v, "is_planted");
    MemberKinds(v, "noticed_by");
    MemberKinds(v, "unsupported_by");
  }

  lemma RowPartNames()
    ensures forall name :: name in ROW_TEXTS ==> Plain(name)
    ensures Plain("judge_outcome") && Plain("is_planted") && Plain("noticed_by") && Plain("unsupported_by")
  {
  }

  lemma {:induction false} RowsExactlyIf(items: seq<Json>)
    ensures DecodeRows(items).Some? <==> forall x :: x in items ==> DecodeRow(x).Some?
  {
    if items != [] {
      RowsExactlyIf(items[1..]);
      RowsMore(items);
    }
  }

  lemma RowsMore(items: seq<Json>)
    requires items != []
    ensures DecodeRows(items).Some? <==> DecodeRow(items[0]).Some? && DecodeRows(items[1..]).Some?
    ensures forall x :: x in items <==> x == items[0] || x in items[1..]
  {
  }

  /** A coverage table: rows that each decode. */
  lemma CoverageExactlyIf(v: Json)
    requires PlainKeys(v)
    ensures DecodeCoverage(v).Some? <==>
      var rows := Member(v, "rows"); rows == Null || (rows.Array? && forall x :: x in rows.items ==> DecodeRow(x).Some?)
  {
    assert Plain("rows");
    PlainField(v, "rows");
    var rows := Member(v, "rows");
    if rows.Array? { RowsExactlyIf(rows.items); }
  }

  predicate Nothing(v: Json) { v == Null || v == Object(map[]) }

  lemma EmptyMember(v: Json, name: string)
    requires Nothing(v)
    ensures HasString(v, name) && StringAt(v, name) == "" && HasBool(v, name) && !BoolAt(v, name)
    ensures HasList(v, name) && ListAt(v, name) == []
  {
    assert Spellings(v, name) == {} && Filled(v, name) == {};
  }

  lemma EmptyMembers(v: Json, names: seq<string>)
    requires Nothing(v)
    ensures HasStrings(v, names)
  {
    forall name | name in names ensures HasString(v, name) { EmptyMember(v, name); }
  }

  /** Missing members are empty, and so is a null in place of an object. */
  lemma NoDanger(v: Json)
    requires Nothing(v)
    ensures DecodeDanger(v) == Some(Danger(false, ""))
  {
    EmptyMembers(v, ["caution"]);
    EmptyMember(v, "present");
    EmptyMember(v, "caution");
  }

  lemma NoSteps(v: Json)
    requires Nothing(v)
    ensures DecodeNext(v) == Some(NextSteps("", ""))
  {
    EmptyMembers(v, NEXT_TEXTS);
    EmptyMember(v, "immediate");
    EmptyMember(v, "forward");
  }

  lemma EmptyRow(v: Json)
    requires Nothing(v)
    ensures DecodeRow(v) == Some(CoverageRow("", "", false, [], [], ""))
  {
    EmptyMembers(v, ROW_TEXTS);
    EmptyMember(v, "issue_id");
    EmptyMember(v, "issue_text");
    EmptyMember(v, "is_planted");
    EmptyMember(v, "noticed_by");
    EmptyMember(v, "unsupported_by");
    EmptyMember(v, "judge_outcome");
  }
}
