/** The canonical text that input and cache-key hashes are computed over. */
module CanonicalJson {
  import opened Text
  import opened Json

  /** encoding/json refuses a tree holding an invalid number token, and the
      writer then prints "null" for the whole tree. */
  function Readable(v: Json): Json { if WellFormed(v) then v else Null }

  ghost function Canonical(v: Json): string { Encode(Readable(v)) }

  // -------------------------------------------------------------- the writer

  /** Recursive encoder with a growing buffer; None is encoding/json's error. */
  method Marshal(v: Json) returns (out: Option<string>)
    ensures out == if WellFormed(v) then Some(Encode(v)) else None
    decreases v
  {
    match v
    case Null => out := Some("null");
    case Bool(b) => out := Some(if b then "true" else "false");
    case Number(t) => out := if ValidNumber(t) then Some(t) else None;
    case Str(s) => out := Some(EncodeString(s));
    case Array(items) => out := MarshalArray(v);
    case Object(fields) => out := MarshalObject(v);
  }

  /** buf holds the array text up to item i. */
  ghost predicate ItemsWritten(v: Json, i: nat, buf: string)
    requires v.Array? && i <= |v.items|
  {
    buf + (if 0 < i < |v.items| then "," else "") + EncodeItems(v, i) == "[" + EncodeItems(v, 0)
  }

  lemma ItemWritten(v: Json, i: nat, buf: string)
    requires v.Array? && i < |v.items| && ItemsWritten(v, i, buf)
    ensures ItemsWritten(v, i + 1, buf + (if i > 0 then "," else "") + Encode(v.items[i]))
  {
    var e, tail := Encode(v.items[i]), EncodeItems(v, i + 1);
    var buf' := buf + (if i > 0 then "," else "");
    if i + 1 < |v.items| {
      assert buf' + (e + ("," + tail)) == (buf' + e) + "," + tail;
    } else {
      assert buf' + (e + "") == buf' + e + "" + tail;
    }
  }

  lemma ItemsDone(v: Json, buf: string)
    requires v.Array? && ItemsWritten(v, |v.items|, buf)
    ensures Encode(v) == buf + "]"
  {
    assert EncodeItems(v, |v.items|) == "";
    assert buf + "" + "" == buf;
  }

  method MarshalArray(v: Json) returns (out: Option<string>)
    requires v.Array?
    ensures out == if WellFormed(v) then Some(Encode(v)) else None
    decreases v, 0
  {
    var buf := "[";
    for i := 0 to |v.items|
      invariant forall j :: 0 <= j < i ==> WellFormed(v.items[j])
      invariant ItemsWritten(v, i, buf)
    {
      var item := Marshal(v.items[i]);
      if item.None? { return None; }
      ItemWritten(v, i, buf);
      buf := buf + (if i > 0 then "," else "") + item.value;
    }
    ItemsDone(v, buf);
    return Some(buf + "]");
  }

  /** buf holds the object text up to key i. */
  ghost predicate FieldsWritten(v: Json, keys: seq<string>, i: nat, buf: string)
    requires v.Object? && i <= |keys| && forall k :: k in keys ==> k in v.fields
  {
    buf + (if 0 < i < |keys| then "," else "") + EncodeFields(v, keys[i..]) == "{" + EncodeFields(v, keys)
  }

  /** The member a key and its encoded value add to the buffer. */
  function WriteField(buf: string, first: bool, key: string, value: string): string {
    buf + (if first then "" else ",") + EncodeString(key) + ":" + value
  }

  lemma FieldWritten(v: Json, keys: seq<string>, i: nat, buf: string)
    requires v.Object? && i < |keys| && (forall k :: k in keys ==> k in v.fields) && FieldsWritten(v, keys, i, buf)
    ensures FieldsWritten(v, keys, i + 1, WriteField(buf, i == 0, keys[i], Encode(v.fields[keys[i]])))
  {
    var e := EncodeString(keys[i]) + ":" + Encode(v.fields[keys[i]]);
    var tail := EncodeFields(v, keys[i + 1..]);
    var buf' := buf + (if i > 0 then "," else "");
    assert keys[i..][1..] == keys[i + 1..];
    assert WriteField(buf, i == 0, keys[i], Encode(v.fields[keys[i]])) == buf' + e;
    if i + 1 < |keys| {
      assert EncodeFields(v, keys[i..]) == e + ("," + tail);
      assert buf' + (e + ("," + tail)) == (buf' + e) + "," + tail;
    } else {
      assert EncodeFields(v, keys[i..]) == e;
      assert buf' + e == buf' + e + "" + tail;
    }
  }

  lemma FieldsStart(v: Json, keys: seq<string>)
    requires v.Object? && forall k :: k in keys ==> k in v.fields
    ensures FieldsWritten(v, keys, 0, "{")
  {
    assert keys[0..] == keys;
  }

  lemma FieldsDone(v: Json, keys: seq<string>, buf: string)
    requires v.Object? && (forall k :: k in keys ==> k in v.fields) && FieldsWritten(v, keys, |keys|, buf)
    ensures buf == "{" + EncodeFields(v, keys)
  {
    assert buf + "" + "" == buf;
  }

  /** Writes the member at position i. */
  method MarshalMember(v: Json, keys: seq<string>, i: nat, buf: string) returns (out: Option<string>)
    requires v.Object? && i < |keys| && (forall k :: k in keys ==> k in v.fields) && FieldsWritten(v, keys, i, buf)
    ensures out.Some? <==> WellFormed(v.fields[keys[i]])
    ensures out.Some? ==> FieldsWritten(v, keys, i + 1, out.value)
    decreases v, 0
  {
    var value := Marshal(v.fields[keys[i]]);
    if value.None? { return None; }
    FieldWritten(v, keys, i, buf);
    return Some(WriteField(buf, i == 0, keys[i], value.value));
  }

  /** The loop over the ordered pairs, up to the closing brace. */
  method MarshalFields(v: Json, keys: seq<string>) returns (out: Option<string>)
    requires v.Object? && forall k :: k in keys ==> k in v.fields
    ensures out.Some? <==> forall k :: k in keys ==> WellFormed(v.fields[k])
    ensures out.Some? ==> FieldsWritten(v, keys, |keys|, out.value)
    decreases v, 1
  {
    FieldsStart(v, keys);
    out := Some("{");
    for i := 0 to |keys|
      invariant out.Some? && FieldsWritten(v, keys, i, out.value)
      invariant forall j :: 0 <= j < i ==> WellFormed(v.fields[keys[j]])
    {
      out := MarshalMember(v, keys, i, out.value);
      if out.None? { return; }
    }
  }

  method MarshalObject(v: Json) returns (out: Option<string>)
    requires v.Object?
    ensures out == if WellFormed(v) then Some(Encode(v)) else None
    decreases v, 2
  {
    var keys := Sort(v.fields.Keys);
    var body := MarshalFields(v, keys);
    if body.Some? { FieldsDone(v, keys, body.value); }
    return if body.Some? then Some(body.value + "}") else None;
  }

  /** Encode, decode with number literals kept, encode again. */
  method CanonicalJSON(v: Json) returns (out: string)
    ensures out == Canonical(v)
  {
    var first := Marshal(v);
    if first.None? { return "null"; }
    ValueRoundTrip(v, "");
    assert Encode(v) + "" == Encode(v);
    out := first.value;
    var decoded := ReadValue(out);
    if decoded.Some? {
      var second := Marshal(decoded.value.0);
      if second.Some? { out := second.value; }
    }
  }

  // ---------------------------------------------------------------- theorems

  /** Decoding the canonical text gives the tree back and leaves nothing unread. */
  lemma CanonicalDecodes(v: Json)
    ensures ReadValue(Canonical(v)) == Some((Readable(v), ""))
  {
    ValueRoundTrip(Readable(v), "");
    assert Canonical(v) + "" == Canonical(v);
  }

  /** Two trees have the same canonical text exactly when they are the same tree
      with objects read as maps, trees that cannot be encoded counting as null. */
  lemma CanonicalInjective(a: Json, b: Json)
    ensures Canonical(a) == Canonical(b) <==> Readable(a) == Readable(b)
  {
    CanonicalDecodes(a);
    CanonicalDecodes(b);
  }

  /** Decode-then-encode is the identity on canonical texts. */
  lemma CanonicalIsFixed(v: Json, text: string)
    requires text == Canonical(v)
    ensures ReadValue(text).Some? && Canonical(ReadValue(text).value.0) == text
  {
    CanonicalDecodes(v);
  }

  /** The concatenation of two canonical texts splits in only one way, provided
      the second cannot continue a number: hashing parts end to end loses nothing. */
  lemma CanonicalSelfDelimiting(a: Json, rest: string, b: Json, rest': string)
    requires Delimited(rest) && Delimited(rest')
    requires Canonical(a) + rest == Canonical(b) + rest'
    ensures Readable(a) == Readable(b) && rest == rest'
  {
    ValueRoundTrip(Readable(a), rest);
    ValueRoundTrip(Readable(b), rest');
  }
}
