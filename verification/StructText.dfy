/** The text json.Marshal writes for structs: members in the order of their
    declaration, those that are left out skipped, maps with sorted keys. */
module StructText {
  import opened Text
  import opened Json
  import opened Decode

  /** A tree as it is written: structs keep the order of their members. */
  datatype Doc = Leaf(v: Json) | Struct(members: seq<(string, Doc)>)

  ghost function DocTree(d: Doc): Json
    decreases d
  {
    match d
    case Leaf(v) => v
    case Struct(ms) => Object(AddMembers(d, 0, map[]))
  }

  /** The members from position i on, added to acc. */
  ghost function AddMembers(d: Doc, i: nat, acc: map<string, Json>): map<string, Json>
    requires d.Struct? && i <= |d.members|
    decreases d, |d.members| - i
  {
    if i == |d.members| then acc else AddMembers(d, i + 1, acc[d.members[i].0 := DocTree(d.members[i].1)])
  }

  ghost function DocText(d: Doc): string
    decreases d
  {
    match d
    case Leaf(v) => Encode(v)
    case Struct(ms) => "{" + MembersText(d, 0) + "}"
  }

  ghost function MembersText(d: Doc, i: nat): string
    requires d.Struct? && i <= |d.members|
    decreases d, |d.members| - i
  {
    if i == |d.members| then ""
    else
      EncodeString(d.members[i].0) + ":" + DocText(d.members[i].1)
      + (if i + 1 == |d.members| then "" else "," + MembersText(d, i + 1))
  }

  ghost predicate WellFormedDoc(d: Doc)
    decreases d
  {
    match d
    case Leaf(v) => WellFormed(v)
    case Struct(ms) => forall i :: 0 <= i < |ms| ==> WellFormedDoc(ms[i].1)
  }

  // ------------------------------------------------------------------ reading it

  /** What follows member i in the text. */
  ghost function MoreMembers(d: Doc, i: nat, rest: string): string
    requires d.Struct? && i < |d.members|
  {
    TextBehind(d, i) + ("}" + rest)
  }

  ghost function TextBehind(d: Doc, i: nat): string
    requires d.Struct? && i < |d.members|
  {
    if i + 1 == |d.members| then "" else "," + MembersText(d, i + 1)
  }

  lemma MemberText(d: Doc, i: nat, rest: string)
    requires d.Struct? && i < |d.members|
    ensures MembersText(d, i) + "}" + rest
         == EncodeString(d.members[i].0) + (":" + (DocText(d.members[i].1) + MoreMembers(d, i, rest)))
  {
    InPieces(EncodeString(d.members[i].0), DocText(d.members[i].1), TextBehind(d, i), rest);
  }

  lemma InPieces(key: string, value: string, more: string, rest: string)
    ensures key + ":" + value + more + "}" + rest == key + (":" + (value + (more + ("}" + rest))))
  {
  }

  lemma MoreMembersTail(d: Doc, i: nat, rest: string)
    requires d.Struct? && i < |d.members|
    ensures var more := MoreMembers(d, i, rest);
      more != "" && !JsonSpace(more[0]) && Delimited(more)
      && more[0] == (if i + 1 == |d.members| then '}' else ',')
      && more[1..] == if i + 1 == |d.members| then rest else MembersText(d, i + 1) + "}" + rest
  {
    var more := MoreMembers(d, i, rest);
    if i + 1 == |d.members| {
      assert more == "}" + rest;
    } else {
      assert more == "," + (MembersText(d, i + 1) + "}" + rest);
    }
  }

  lemma StructStart(d: Doc, rest: string)
    requires d.Struct? && d.members != []
    ensures var t := MembersText(d, 0) + "}" + rest;
      DocText(d) + rest == "{" + t && t != "" && t[0] == '"'
  {
    MemberText(d, 0, rest);
    assert DocText(d) + rest == "{" + (MembersText(d, 0) + "}" + rest);
    assert EncodeString(d.members[0].0)[0] == '"';
  }

  /** Reading the text of a tree gives the tree, whatever follows. */
  lemma {:induction false} DocRoundTrip(d: Doc, rest: string)
    requires WellFormedDoc(d) && Delimited(rest)
    ensures ReadValue(DocText(d) + rest) == Some((DocTree(d), rest))
    decreases d
  {
    match d
    case Leaf(v) => ValueRoundTrip(v, rest);
    case Struct(ms) =>
      if ms == [] {
        ReadWord(Object(map[]), rest);
        EmptyObject();
      } else {
        StructStart(d, rest);
        ReadObjectStart(MembersText(d, 0) + "}" + rest);
        MembersRoundTrip(d, 0, map[], rest);
      }
  }

  lemma EmptyObject()
    ensures Encode(Object(map[])) == "{" + "" + "}"
  {
    var m: map<string, Json> := map[];
    assert m.Keys == {} && SortedStrings({}) == [];
  }

  lemma {:induction false} MembersRoundTrip(d: Doc, i: nat, acc: map<string, Json>, rest: string)
    requires d.Struct? && WellFormedDoc(d) && i < |d.members|
    ensures ReadFields(MembersText(d, i) + "}" + rest, acc) == Some((Object(AddMembers(d, i, acc)), rest))
    decreases d, |d.members| - i
  {
    var more := MoreMembers(d, i, rest);
    MoreMembersTail(d, i, rest);
    DocRoundTrip(d.members[i].1, more);
    MemberStep(d, i, acc, rest);
    if i + 1 < |d.members| {
      MembersRoundTrip(d, i + 1, acc[d.members[i].0 := DocTree(d.members[i].1)], rest);
    }
  }

  /** One member is read, leaving the remaining ones. */
  lemma MemberStep(d: Doc, i: nat, acc: map<string, Json>, rest: string)
    requires d.Struct? && i < |d.members|
    requires var x, more := d.members[i].1, MoreMembers(d, i, rest);
      ReadValue(DocText(x) + more) == Some((DocTree(x), more))
    ensures var next := acc[d.members[i].0 := DocTree(d.members[i].1)];
      ReadFields(MembersText(d, i) + "}" + rest, acc)
        == if i + 1 == |d.members| then Some((Object(next), rest))
           else ReadFields(MembersText(d, i + 1) + "}" + rest, next)
  {
    var name, x, more := d.members[i].0, d.members[i].1, MoreMembers(d, i, rest);
    MemberText(d, i, rest);
    MoreMembersTail(d, i, rest);
    KeyRoundTrip(name, DocText(x) + more);
    ReadFieldsUnfold(MembersText(d, i) + "}" + rest, name, DocText(x) + more, DocTree(x), more, acc);
  }

  // --------------------------------------------------------------------- members

  /** m is read off the members from position i on, and off nothing else but acc. */
  ghost predicate ReadsOff(m: map<string, Json>, ms: seq<(string, Doc)>, i: nat, acc: map<string, Json>) {
    (forall j :: i <= j < |ms| ==> ms[j].0 in m && m[ms[j].0] == DocTree(ms[j].1))
    && (forall k :: k in m ==> k in acc || exists j :: i <= j < |ms| && ms[j].0 == k)
    && forall k :: k in acc && (forall j :: i <= j < |ms| ==> ms[j].0 != k) ==> k in m && m[k] == acc[k]
  }

  predicate DistinctMembers(ms: seq<(string, Doc)>) { forall i, j :: 0 <= i < j < |ms| ==> ms[i].0 != ms[j].0 }

  lemma {:induction false} AddsAll(d: Doc, i: nat, acc: map<string, Json>)
    requires d.Struct? && i <= |d.members| && DistinctMembers(d.members)
    ensures ReadsOff(AddMembers(d, i, acc), d.members, i, acc)
    decreases |d.members| - i
  {
    if i < |d.members| {
      var acc' := acc[d.members[i].0 := DocTree(d.members[i].1)];
      AddsAll(d, i + 1, acc');
      var m := AddMembers(d, i + 1, acc');
      assert d.members[i].0 in m && m[d.members[i].0] == acc'[d.members[i].0];
    }
  }

  /** A struct's fields in order; the value of one that is left out is None. */
  type Fields = seq<(string, Option<Doc>)>

  /** The members that are written. */
  function Written(fields: Fields): seq<(string, Doc)>
    decreases |fields|
  {
    if fields == [] then []
    else (if fields[0].1.Some? then [(fields[0].0, fields[0].1.value)] else []) + Written(fields[1..])
  }

  function StructOf(fields: Fields): Doc { Struct(Written(fields)) }

  predicate DistinctFields(fields: Fields) { forall i, j :: 0 <= i < j < |fields| ==> fields[i].0 != fields[j].0 }

  lemma {:induction false} WrittenAre(fields: Fields)
    requires DistinctFields(fields)
    ensures DistinctMembers(Written(fields))
    ensures forall i :: 0 <= i < |fields| && fields[i].1.Some? ==> (fields[i].0, fields[i].1.value) in Written(fields)
    ensures forall m :: m in Written(fields) ==> (m.0, Some(m.1)) in fields
    decreases |fields|
  {
    if fields != [] {
      var rest := Written(fields[1..]);
      WrittenAre(fields[1..]);
      forall m | m in rest ensures m.0 != fields[0].0 && (m.0, Some(m.1)) in fields {
        var i :| 0 <= i < |fields[1..]| && fields[1..][i] == (m.0, Some(m.1));
        assert fields[i + 1] == (m.0, Some(m.1));
      }
      forall i | 0 <= i < |fields| && fields[i].1.Some?
        ensures (fields[i].0, fields[i].1.value) in Written(fields)
      {
        if i > 0 { assert fields[1..][i - 1] == fields[i]; }
      }
    }
  }

  /** One field, given how m is read off the members. */
  lemma MemberIs(fields: Fields, i: nat, m: map<string, Json>)
    requires DistinctFields(fields) && i < |fields| && ReadsOff(m, Written(fields), 0, map[])
    requires fields[i].1.Some? ==> (fields[i].0, fields[i].1.value) in Written(fields)
    requires forall x :: x in Written(fields) ==> (x.0, Some(x.1)) in fields
    ensures Member(Object(m), fields[i].0) == if fields[i].1.Some? then DocTree(fields[i].1.value) else Null
  {
    var ms := Written(fields);
    if fields[i].1.Some? {
      var j :| 0 <= j < |ms| && ms[j] == (fields[i].0, fields[i].1.value);
    } else {
      forall j | 0 <= j < |ms| ensures ms[j].0 != fields[i].0 {
        assert ms[j] in ms && (ms[j].0, Some(ms[j].1)) in fields;
      }
    }
  }

  lemma KeyIs(fields: Fields, k: string, m: map<string, Json>)
    requires ReadsOff(m, Written(fields), 0, map[]) && k in m
    requires forall x :: x in Written(fields) ==> (x.0, Some(x.1)) in fields
    ensures exists i :: 0 <= i < |fields| && fields[i].0 == k
  {
    var ms := Written(fields);
    var j :| 0 <= j < |ms| && ms[j].0 == k;
    assert ms[j] in ms && (ms[j].0, Some(ms[j].1)) in fields;
  }

  /** The tree of a struct has its fields under their names, and no others. */
  lemma StructMembers(fields: Fields)
    requires DistinctFields(fields)
    ensures var t := DocTree(StructOf(fields));
      t.Object?
      && (forall i :: 0 <= i < |fields| ==>
            Member(t, fields[i].0) == if fields[i].1.Some? then DocTree(fields[i].1.value) else Null)
      && forall k :: k in t.fields ==> exists i :: 0 <= i < |fields| && fields[i].0 == k
  {
    var m := AddMembers(StructOf(fields), 0, map[]);
    WrittenAre(fields);
    AddsAll(StructOf(fields), 0, map[]);
    forall i | 0 <= i < |fields|
      ensures Member(Object(m), fields[i].0) == if fields[i].1.Some? then DocTree(fields[i].1.value) else Null
    {
      MemberIs(fields, i, m);
    }
    forall k | k in m ensures exists i :: 0 <= i < |fields| && fields[i].0 == k { KeyIs(fields, k, m); }
  }

  lemma WrittenIsWellFormed(fields: Fields)
    requires DistinctFields(fields)
    requires forall i :: 0 <= i < |fields| && fields[i].1.Some? ==> WellFormedDoc(fields[i].1.value)
    ensures WellFormedDoc(StructOf(fields))
  {
    var ms := Written(fields);
    WrittenAre(fields);
    forall j | 0 <= j < |ms| ensures WellFormedDoc(ms[j].1) {
      assert ms[j] in ms;
      var i :| 0 <= i < |fields| && fields[i] == (ms[j].0, Some(ms[j].1));
    }
  }

  /** The text of a member stands inside the text of the members. */
  lemma {:induction false} MemberInside(d: Doc, i: nat, j: nat) returns (a: string, b: string)
    requires d.Struct? && i <= j < |d.members|
    ensures MembersText(d, i) == a + DocText(d.members[j].1) + b
    decreases j - i
  {
    var key, value, more := EncodeString(d.members[i].0) + ":", DocText(d.members[i].1), TextBehind(d, i);
    assert MembersText(d, i) == key + value + more;
    if i == j {
      a, b := key, more;
    } else {
      a, b := MemberInside(d, i + 1, j);
      Nested(key + value + ",", a, DocText(d.members[j].1), b);
      assert more == "," + MembersText(d, i + 1);
      assert key + value + more == key + value + "," + MembersText(d, i + 1);
      a := key + value + "," + a;
    }
  }

  lemma Nested(front: string, a: string, x: string, b: string)
    ensures front + (a + x + b) == front + a + x + b
  {
  }
}
