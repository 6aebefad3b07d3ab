/** The hand-written JSON printer the request rows use for seat lists.

    It looks at single bytes and only ASCII ones are special, so reading a
    character as a byte or as a Unicode scalar value makes no difference here. */
module JsonQuote {
  import opened Text
  import opened Json

  function QuoteChar(c: char): string {
    if c == '"' || c == '\\' then ['\\', c]
    else if c == '\n' then "\\n"
    else if c == '\r' then "\\r"
    else if c == '\t' then "\\t"
    else [c]
  }

  function QuoteChars(s: string): string {
    if s == "" then "" else QuoteChar(s[0]) + QuoteChars(s[1..])
  }

  function Quote(s: string): string { "\"" + QuoteChars(s) + "\"" }

  function QuoteEach(ss: seq<string>): seq<string> {
    seq(|ss|, i requires 0 <= i < |ss| => Quote(ss[i]))
  }

  function QuoteList(ss: seq<string>): string { Join(QuoteEach(ss)) }

  function StringArray(ss: seq<string>): string { "[" + QuoteList(ss) + "]" }

  // ------------------------------------------------------------- the writers

  lemma {:induction false} QuoteCharsAppend(s: string, c: char)
    ensures QuoteChars(s + [c]) == QuoteChars(s) + QuoteChar(c)
  {
    if s == "" {
      assert QuoteChars("") == "";
    } else {
      QuoteCharsAppend(s[1..], c);
      assert (s + [c])[1..] == s[1..] + [c];
      var first, rest := QuoteChar(s[0]), QuoteChars(s[1..]);
      assert first + (rest + QuoteChar(c)) == first + rest + QuoteChar(c);
    }
  }

  method QuoteJSONString(s: string) returns (q: string)
    ensures q == Quote(s)
  {
    q := "\"";
    for i := 0 to |s|
      invariant q == "\"" + QuoteChars(s[..i])
    {
      var c := s[i];
      ghost var before := q;
      match c {
      case '"' => q := q + ['\\', c];
      case '\\' => q := q + ['\\', c];
      case '\n' => q := q + ['\\', 'n'];
      case '\r' => q := q + ['\\', 'r'];
      case '\t' => q := q + ['\\', 't'];
      case _ => q := q + [c];
      }
      assert q == before + QuoteChar(c);
      QuoteCharsAppend(s[..i], c);
      assert s[..i + 1] == s[..i] + [c];
      assert before + QuoteChar(c) == "\"" + (QuoteChars(s[..i]) + QuoteChar(c));
    }
    assert s[..|s|] == s;
    q := q + "\"";
  }

  /** Commas between the parts. */
  function Join(parts: seq<string>): string {
    if parts == [] then "" else parts[0] + (if |parts| == 1 then "" else "," + Join(parts[1..]))
  }

  lemma {:induction false} JoinAppend(parts: seq<string>, x: string)
    ensures Join(parts + [x]) == Join(parts) + (if parts == [] then "" else ",") + x
  {
    if parts == [] {
      assert Join([x]) == x + "" == "" + "" + x;
    } else {
      var head, tail := parts[0], parts[1..];
      JoinAppend(tail, x);
      assert (parts + [x])[1..] == tail + [x];
      if tail == [] {
        assert Join(tail + [x]) == x;
        assert head + ("," + x) == head + "" + "," + x;
      } else {
        assert head + ("," + (Join(tail) + "," + x)) == head + ("," + Join(tail)) + "," + x;
      }
    }
  }

  method JsonStringArray(ss: seq<string>) returns (out: string)
    ensures out == StringArray(ss)
  {
    out := "[";
    for i := 0 to |ss|
      invariant out == "[" + QuoteList(ss[..i]) && |ss[..i]| == i
    {
      JoinAppend(QuoteEach(ss[..i]), Quote(ss[i]));
      assert QuoteEach(ss[..i + 1]) == QuoteEach(ss[..i]) + [Quote(ss[i])];
      ghost var before := QuoteList(ss[..i]);
      if i > 0 { out := out + ","; }
      var q := QuoteJSONString(ss[i]);
      out := out + q;
      assert out == "[" + (before + (if i > 0 then "," else "") + q);
    }
    assert ss[..|ss|] == ss;
    out := out + "]";
  }

  // -------------------------------------------------------------- round trips

  /** No control character other than newline, carriage return and tab. */
  predicate Clean(s: string) { forall i :: 0 <= i < |s| ==> CleanChar(s[i]) }

  predicate CleanChar(c: char) { ' ' <= c || c == '\n' || c == '\r' || c == '\t' }

  lemma QuoteCharRead(c: char, tail: string, lax: bool)
    ensures ReadChars(QuoteChar(c) + tail, lax)
         == if lax || CleanChar(c) then Prepend(c, ReadChars(tail, lax)) else None
  {
    var e, t := QuoteChar(c), QuoteChar(c) + tail;
    assert t[0] == e[0] && t[|e|..] == tail;
    if |e| == 2 { assert t[1] == e[1]; }
  }

  lemma {:induction false} QuoteCharsRead(s: string, rest: string, lax: bool)
    ensures ReadChars(QuoteChars(s) + "\"" + rest, lax) == if lax || Clean(s) then Some((s, rest)) else None
  {
    if s == "" {
      assert QuoteChars(s) + "\"" + rest == "\"" + rest;
    } else {
      var tail := QuoteChars(s[1..]) + "\"" + rest;
      FirstOf(QuoteChar(s[0]), QuoteChars(s[1..]), rest);
      QuoteCharRead(s[0], tail, lax);
      QuoteCharsRead(s[1..], rest, lax);
      assert s == [s[0]] + s[1..];
      assert Clean(s) <==> CleanChar(s[0]) && Clean(s[1..]);
    }
  }

  /** Unescaping a quoted string gives the string back, for every string. */
  lemma QuoteRoundTrip(s: string, rest: string)
    ensures ReadString(Quote(s) + rest, true) == Some((s, rest))
  {
    QuoteCharsRead(s, rest, true);
    LiteralText(QuoteChars(s), rest);
  }

  /** Under the string grammar of section 7 of RFC 8259 the quoted text is a
      string literal exactly when the string is clean, and then it denotes it. */
  lemma QuoteIsJsonIffClean(s: string, rest: string)
    ensures ReadString(Quote(s) + rest, false) == if Clean(s) then Some((s, rest)) else None
  {
    QuoteCharsRead(s, rest, false);
    LiteralText(QuoteChars(s), rest);
  }

  /** Reads the items of a string array up to and including the closing bracket. */
  function ReadStrings(t: string, acc: seq<string>): Option<seq<string>>
    decreases |t|
  {
    match ReadString(t, true)
    case None => None
    case Some(p) =>
      if p.1 == "]" then Some(acc + [p.0])
      else if p.1 != "" && p.1[0] == ',' then ReadStrings(p.1[1..], acc + [p.0])
      else None
  }

  function ReadStringArray(t: string): Option<seq<string>> {
    if t == "[]" then Some([]) else if t != "" && t[0] == '[' then ReadStrings(t[1..], []) else None
  }

  lemma {:induction false} QuoteListRead(ss: seq<string>, acc: seq<string>)
    requires ss != []
    ensures ReadStrings(QuoteList(ss) + "]", acc) == Some(acc + ss)
    decreases |ss|
  {
    var more := if |ss| == 1 then "]" else "," + (QuoteList(ss[1..]) + "]");
    assert QuoteEach(ss)[1..] == QuoteEach(ss[1..]);
    assert QuoteList(ss) + "]" == Quote(ss[0]) + more;
    QuoteRoundTrip(ss[0], more);
    if |ss| > 1 {
      assert more[1..] == QuoteList(ss[1..]) + "]";
      QuoteListRead(ss[1..], acc + [ss[0]]);
      assert acc + [ss[0]] + ss[1..] == acc + ss;
    } else {
      assert [ss[0]] == ss;
    }
  }

  lemma StringArrayRoundTrip(ss: seq<string>)
    ensures ReadStringArray(StringArray(ss)) == Some(ss)
  {
    if ss != [] {
      var t := QuoteList(ss) + "]";
      assert QuoteEach(ss)[0] == Quote(ss[0]);
      assert StringArray(ss) == "[" + t && StringArray(ss)[1..] == t;
      assert t[0] == Quote(ss[0])[0] == '"';
      QuoteListRead(ss, []);
      assert [] + ss == ss;
    }
  }

  lemma StringArrayInjective(a: seq<string>, b: seq<string>)
    requires StringArray(a) == StringArray(b)
    ensures a == b
  {
    StringArrayRoundTrip(a);
    StringArrayRoundTrip(b);
  }
}
