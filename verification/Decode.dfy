/** What encoding/json makes of a JSON value for a Go type: None where decoding
    fails, and null where the type is given its zero value. */
module Decode {
  import opened Text
  import opened Json

  const MAX_INT: int := 0x7FFF_FFFF_FFFF_FFFF

  /** The value of a run of decimal digits. */
  function Natural(t: string): Option<nat> {
    if t == "" || !IsDigit(t[|t| - 1]) then None else
    var last: nat := t[|t| - 1] as int - '0' as int;
    if |t| == 1 then Some(last) else
    match Natural(t[..|t| - 1])
    case None => None
    case Some(n) => Some(10 * n + last)
  }

  /** strconv.ParseInt in base 10 for 64 bits, on a JSON number token. */
  function ParseInt(t: string): Option<int> {
    if t != "" && t[0] == '-' then
      match Natural(t[1..])
      case None => None
      case Some(n) => if n <= MAX_INT + 1 then Some(0 - n as int) else None
    else
      match Natural(t)
      case None => None
      case Some(n) => if n <= MAX_INT then Some(n) else None
  }

  /** Into an int: null leaves it zero. */
  function IntOf(v: Json): Option<int> {
    match v
    case Null => Some(0)
    case Number(t) => ParseInt(t)
    case _ => None
  }

  /** Into a *int: null leaves it nil. */
  function IntPointerOf(v: Json): Option<Option<int>> {
    match v
    case Null => Some(None)
    case Number(t) => if ParseInt(t).Some? then Some(ParseInt(t)) else None
    case _ => None
  }

  function StringOf(v: Json): Option<string> {
    match v
    case Null => Some("")
    case Str(s) => Some(s)
    case _ => None
  }

  function BoolOf(v: Json): Option<bool> {
    match v
    case Null => Some(false)
    case Bool(b) => Some(b)
    case _ => None
  }

  /** Into a []string. */
  function StringsOf(v: Json): Option<seq<string>> {
    match v
    case Null => Some([])
    case Array(items) =>
      if exists x :: x in items && StringOf(x).None? then None
      else Some(seq(|items|, i requires 0 <= i < |items| =>
        if StringOf(items[i]).Some? then StringOf(items[i]).value else ""))
    case _ => None
  }

  /** What can be read into a map or a struct. */
  predicate IsFields(v: Json) { v.Null? || v.Object? }

  function FieldsOf(v: Json): map<string, Json> { if v.Object? then v.fields else map[] }

  /** What can be read into a slice. */
  predicate IsItems(v: Json) { v.Null? || v.Array? }

  function ItemsOf(v: Json): seq<Json> { if v.Array? then v.items else [] }

  // -------------------------------------------------------------- struct fields

  /** Upper and lower case count as one, and two letters outside ASCII as ASCII ones. */
  function FoldChar(c: char): char {
    if 'A' <= c <= 'Z' then (c as int + 32) as char
    else if c == '\U{017F}' then 's'
    else if c == '\U{212A}' then 'k'
    else c
  }

  lemma LettersFold(i: nat)
    requires i < 26
    ensures FoldChar(('A' as int + i) as char) == ('a' as int + i) as char
  {
  }

  /** Everything but capital letters and two letters outside ASCII stays. */
  lemma OthersFoldToThemselves(c: char)
    ensures FoldChar('\U{017F}') == 's' && FoldChar('\U{212A}') == 'k'
    ensures !('A' <= c <= 'Z') && c != '\U{017F}' && c != '\U{212A}' ==> FoldChar(c) == c
  {
  }

  function Fold(s: string): string { seq(|s|, i requires 0 <= i < |s| => FoldChar(s[i])) }

  /** A key is taken for a struct field whose name it spells in any capitalisation. */
  predicate Spells(key: string, name: string) { Fold(key) == Fold(name) }

  function Spellings(v: Json, name: string): set<string> { set k | k in FieldsOf(v) && Spells(k, name) }

  /** A struct field: one that is missing stays zero, like one that is null.  Where
      an object spells it in several ways the order of the text decides; here any
      of them may be the one that counts. */
  ghost function Field(v: Json, name: string): Json {
    if Spellings(v, name) == {} then Null else
    var k :| k in Spellings(v, name);
    FieldsOf(v)[k]
  }

  /** The spellings that are not null; for a string or a bool null changes nothing. */
  function Filled(v: Json, name: string): set<string> {
    set k | k in Spellings(v, name) && FieldsOf(v)[k] != Null
  }

  ghost function FilledField(v: Json, name: string): Json {
    if Filled(v, name) == {} then Null else
    var k :| k in Filled(v, name);
    FieldsOf(v)[k]
  }

  /** Into a struct with these string fields. */
  ghost predicate HasStrings(v: Json, names: seq<string>) {
    IsFields(v) && forall name :: name in names ==> HasString(v, name)
  }

  predicate HasString(v: Json, name: string) {
    forall k :: k in Spellings(v, name) ==> StringOf(FieldsOf(v)[k]).Some?
  }

  ghost function StringAt(v: Json, name: string): string {
    match StringOf(FilledField(v, name))
    case None => ""
    case Some(s) => s
  }

  predicate HasBool(v: Json, name: string) {
    forall k :: k in Spellings(v, name) ==> BoolOf(FieldsOf(v)[k]).Some?
  }

  ghost function BoolAt(v: Json, name: string): bool { BoolOf(FilledField(v, name)) == Some(true) }

  predicate HasList(v: Json, name: string) {
    forall k :: k in Spellings(v, name) ==> StringsOf(FieldsOf(v)[k]).Some?
  }

  ghost function ListAt(v: Json, name: string): seq<string> {
    match StringsOf(Field(v, name))
    case None => []
    case Some(ss) => ss
  }

  /** Only lower-case letters and underscores: spelled in one way among its like. */
  predicate Plain(s: string) { forall i :: 0 <= i < |s| ==> 'a' <= s[i] <= 'z' || s[i] == '_' }

  lemma PlainSpelling(key: string, name: string)
    requires Plain(key) && Plain(name)
    ensures Spells(key, name) <==> key == name
  {
    assert Fold(key) == key && Fold(name) == name;
  }

  /** An object whose keys are all plain. */
  predicate PlainKeys(v: Json) { v.Object? && forall k :: k in v.fields ==> Plain(k) }

  function Member(v: Json, name: string): Json
    requires v.Object?
  {
    if name in v.fields then v.fields[name] else Null
  }

  /** Its fields are read from their own names. */
  lemma PlainField(v: Json, name: string)
    requires PlainKeys(v) && Plain(name)
    ensures Spellings(v, name) == if name in v.fields then {name} else {}
    ensures Field(v, name) == FilledField(v, name) == Member(v, name)
  {
    forall k | k in v.fields ensures Spells(k, name) <==> k == name { PlainSpelling(k, name); }
    if name in v.fields {
      assert Spellings(v, name) == {name};
      assert Filled(v, name) == if v.fields[name] == Null then {} else {name};
    } else {
      assert Spellings(v, name) == {};
      assert Filled(v, name) == {};
    }
  }
}
