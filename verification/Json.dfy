/** JSON trees, the text encoding/json gives them when object keys are sorted,
    and a reader for that text.

    Objects are maps, so two trees are equal exactly when they are equal with
    objects read as maps.  Numbers are literal tokens (json.Number). */
module Json {
  import opened Text

  datatype Json =
    | Null
    | Bool(b: bool)
    | Number(token: string)
    | Str(s: string)
    | Array(items: seq<Json>)
    | Object(fields: map<string, Json>)

  // ---------------------------------------------------------------- numbers

  datatype NumberState = NStart | NMinus | NZero | NInt | NDot | NFrac | NExp | NSign | NExpDigits | NBad

  predicate IsDigit(c: char) { '0' <= c <= '9' }

  predicate NumberChar(c: char) { IsDigit(c) || c == '-' || c == '+' || c == '.' || c == 'e' || c == 'E' }

  /** One character of the number grammar of section 6 of RFC 8259. */
  function NumberStep(q: NumberState, c: char): NumberState {
    match q
    case NStart => if c == '-' then NMinus else if c == '0' then NZero else if IsDigit(c) then NInt else NBad
    case NMinus => if c == '0' then NZero else if IsDigit(c) then NInt else NBad
    case NZero => if c == '.' then NDot else if c == 'e' || c == 'E' then NExp else NBad
    case NInt => if IsDigit(c) then NInt else if c == '.' then NDot else if c == 'e' || c == 'E' then NExp else NBad
    case NDot => if IsDigit(c) then NFrac else NBad
    case NFrac => if IsDigit(c) then NFrac else if c == 'e' || c == 'E' then NExp else NBad
    case NExp => if c == '+' || c == '-' then NSign else if IsDigit(c) then NExpDigits else NBad
    case NSign => if IsDigit(c) then NExpDigits else NBad
    case NExpDigits => if IsDigit(c) then NExpDigits else NBad
    case NBad => NBad
  }

  function NumberRun(q: NumberState, t: string): NumberState
    decreases |t|
  {
    if t == "" then q else NumberRun(NumberStep(q, t[0]), t[1..])
  }

  predicate ValidNumber(t: string) { NumberRun(NStart, t) in {NZero, NInt, NFrac, NExpDigits} }

  lemma BadStaysBad(t: string)
    ensures NumberRun(NBad, t) == NBad
  {
  }

  lemma {:induction false} RunUsesNumberChars(q: NumberState, t: string)
    requires NumberRun(q, t) != NBad
    ensures forall i :: 0 <= i < |t| ==> NumberChar(t[i])
    decreases |t|
  {
    if t != "" {
      if NumberStep(q, t[0]) == NBad { BadStaysBad(t[1..]); }
      RunUsesNumberChars(NumberStep(q, t[0]), t[1..]);
    }
  }

  lemma ValidNumberShape(t: string)
    requires ValidNumber(t)
    ensures t != "" && (IsDigit(t[0]) || t[0] == '-')
    ensures forall i :: 0 <= i < |t| ==> NumberChar(t[i])
  {
    RunUsesNumberChars(NStart, t);
    if t != "" && NumberStep(NStart, t[0]) == NBad { BadStaysBad(t[1..]); }
  }

  // ---------------------------------------------------------------- strings

  function HexDigit(n: int): char
    requires 0 <= n < 16
  {
    "0123456789abcdef"[n]
  }

  function HexValue(c: char): int {
    if IsDigit(c) then c as int - '0' as int
    else if 'a' <= c <= 'f' then c as int - 'a' as int + 10
    else if 'A' <= c <= 'F' then c as int - 'A' as int + 10
    else -1
  }

  function Hex4(n: int): string
    requires 0 <= n < 0x10000
  {
    assert n / 16 / 16 / 16 < 16;
    [HexDigit(n / 16 / 16 / 16), HexDigit(n / 16 / 16 % 16), HexDigit(n / 16 % 16), HexDigit(n % 16)]
  }

  const BACKSPACE: char := '\U{0008}'
  const FORMFEED: char := '\U{000C}'
  const LINE_SEPARATOR: char := '\U{2028}'
  const PARAGRAPH_SEPARATOR: char := '\U{2029}'

  /** The escape letter of a two-character escape, if c has one. */
  function ShortEscape(c: char): Option<char> {
    if c == '"' || c == '\\' then Some(c)
    else if c == BACKSPACE then Some('b')
    else if c == FORMFEED then Some('f')
    else if c == '\n' then Some('n')
    else if c == '\r' then Some('r')
    else if c == '\t' then Some('t')
    else None
  }

  /** json.Marshal also escapes the characters that are unsafe in HTML and JavaScript. */
  predicate EscapedAsUnicode(c: char) {
    c < ' ' || c == '<' || c == '>' || c == '&' || c == LINE_SEPARATOR || c == PARAGRAPH_SEPARATOR
  }

  function EncodeChar(c: char): string {
    match ShortEscape(c)
    case Some(letter) => ['\\', letter]
    case None => if EscapedAsUnicode(c) then "\\u" + Hex4(c as int) else [c]
  }

  function EncodeChars(s: string): string {
    if s == "" then "" else EncodeChar(s[0]) + EncodeChars(s[1..])
  }

  function EncodeString(s: string): string { "\"" + EncodeChars(s) + "\"" }

  /** The character a two-character escape stands for. */
  function ShortUnescape(letter: char): Option<char> {
    if letter == '"' || letter == '\\' || letter == '/' then Some(letter)
    else if letter == 'b' then Some(BACKSPACE)
    else if letter == 'f' then Some(FORMFEED)
    else if letter == 'n' then Some('\n')
    else if letter == 'r' then Some('\r')
    else if letter == 't' then Some('\t')
    else None
  }

  function FromHex(a: int, b: int, c: int, d: int): (n: int)
    requires 0 <= a < 16 && 0 <= b < 16 && 0 <= c < 16 && 0 <= d < 16
    ensures 0 <= n < 0x10000
  {
    ((a * 16 + b) * 16 + c) * 16 + d
  }

  lemma HexValueRange(c: char)
    ensures HexValue(c) < 16
  {
  }

  const REPLACEMENT: char := '\U{FFFD}'

  /** The number of a \u escape at the front of t, or -1. */
  function EscapeNumber(t: string): (n: int)
    ensures -1 <= n < 0x10000
  {
    if |t| < 6 || t[0] != '\\' || t[1] != 'u' then -1 else
    var a, b, c, d := HexValue(t[2]), HexValue(t[3]), HexValue(t[4]), HexValue(t[5]);
    HexValueRange(t[2]); HexValueRange(t[3]); HexValueRange(t[4]); HexValueRange(t[5]);
    if a < 0 || b < 0 || c < 0 || d < 0 then -1 else FromHex(a, b, c, d)
  }

  /** The character a \u escape stands for and how much text it takes: a pair of
      surrogates is one character, a lone surrogate is replaced. */
  function UnicodeChar(t: string): (r: Option<(char, nat)>)
    ensures r.Some? ==> 6 <= r.value.1 <= |t|
  {
    var n := EscapeNumber(t);
    if n < 0 then None
    else if n < 0xD800 || 0xE000 <= n then Some((n as char, 6))
    else
      var low := EscapeNumber(t[6..]);
      if n < 0xDC00 <= low < 0xE000 then Some(((0x10000 + (n - 0xD800) * 0x400 + (low - 0xDC00)) as char, 12))
      else Some((REPLACEMENT, 6))
  }

  /** One character of a literal and how much text it takes.  The grammar of
      section 7 of RFC 8259 forbids raw control characters; `lax` lets them through. */
  function ReadChar(t: string, lax: bool): (r: Option<(char, nat)>)
    requires t != ""
    ensures r.Some? ==> 1 <= r.value.1 <= |t|
  {
    if t[0] != '\\' then if t[0] < ' ' && !lax then None else Some((t[0], 1))
    else if |t| < 2 then None
    else if t[1] == 'u' then UnicodeChar(t)
    else
      match ShortUnescape(t[1])
      case None => None
      case Some(c) => Some((c, 2))
  }

  function Prepend(c: char, r: Option<(string, string)>): Option<(string, string)> {
    match r
    case None => None
    case Some(p) => Some(([c] + p.0, p.1))
  }

  /** Reads string characters up to the closing quote. */
  function ReadChars(t: string, lax: bool): (r: Option<(string, string)>)
    ensures r.Some? ==> |r.value.1| < |t|
  {
    if t == "" then None
    else if t[0] == '"' then Some(("", t[1..]))
    else
      match ReadChar(t, lax)
      case None => None
      case Some(p) => Prepend(p.0, ReadChars(t[p.1..], lax))
  }

  function ReadString(t: string, lax: bool): (r: Option<(string, string)>)
    ensures r.Some? ==> |r.value.1| < |t|
  {
    if t == "" || t[0] != '"' then None else ReadChars(t[1..], lax)
  }

  lemma HexDigitRoundTrip(n: int)
    requires 0 <= n < 16
    ensures HexValue(HexDigit(n)) == n
  {
  }

  lemma Base16(n: int)
    requires 0 <= n < 0x10000
    ensures n / 16 / 16 / 16 < 16
    ensures n == FromHex(n / 16 / 16 / 16, n / 16 / 16 % 16, n / 16 % 16, n % 16)
  {
    var n1 := n / 16;
    var n2 := n1 / 16;
    assert n == n1 * 16 + n % 16 && n1 == n2 * 16 + n1 % 16 && n2 == n2 / 16 * 16 + n2 % 16;
  }

  lemma UnicodeEscapeRoundTrip(c: char, tail: string)
    requires EscapedAsUnicode(c)
    ensures UnicodeChar("\\u" + Hex4(c as int) + tail) == Some((c, 6))
  {
    var n := c as int;
    Base16(n);
    HexDigitRoundTrip(n / 16 / 16 / 16);
    HexDigitRoundTrip(n / 16 / 16 % 16);
    HexDigitRoundTrip(n / 16 % 16);
    HexDigitRoundTrip(n % 16);
  }

  lemma ShortEscapeRoundTrip(c: char)
    ensures ShortEscape(c).Some? ==> ShortEscape(c).value != 'u' && ShortUnescape(ShortEscape(c).value) == Some(c)
  {
  }

  /** One encoded character is read back, whatever follows it. */
  lemma CharRoundTrip(c: char, tail: string, lax: bool)
    ensures ReadChars(EncodeChar(c) + tail, lax) == Prepend(c, ReadChars(tail, lax))
  {
    var e := EncodeChar(c);
    var t := e + tail;
    assert t[0] == e[0] && t[|e|..] == tail;
    ShortEscapeRoundTrip(c);
    if ShortEscape(c).Some? {
      assert t[1] == e[1];
    } else if EscapedAsUnicode(c) {
      UnicodeEscapeRoundTrip(c, tail);
      assert t[1] == 'u' && t == "\\u" + Hex4(c as int) + tail;
    }
    assert ReadChar(t, lax) == Some((c, |e|));
  }

  lemma {:induction false} CharsRoundTrip(s: string, rest: string, lax: bool)
    ensures ReadChars(EncodeChars(s) + "\"" + rest, lax) == Some((s, rest))
  {
    if s == "" {
      assert EncodeChars(s) + "\"" + rest == "\"" + rest;
    } else {
      var tail := EncodeChars(s[1..]) + "\"" + rest;
      CharsRoundTrip(s[1..], rest, lax);
      CharRoundTrip(s[0], tail, lax);
      FirstOf(EncodeChar(s[0]), EncodeChars(s[1..]), rest);
      assert s == [s[0]] + s[1..];
    }
  }

  /** The first of some encoded characters in front of what follows it. */
  lemma FirstOf(first: string, more: string, rest: string)
    ensures first + more + "\"" + rest == first + (more + "\"" + rest)
  {
  }

  /** A literal is its opening quote and the rest. */
  lemma LiteralText(chars: string, rest: string)
    ensures var t := "\"" + chars + "\"" + rest; t != "" && t[0] == '"' && t[1..] == chars + "\"" + rest
  {
    assert "\"" + chars + "\"" + rest == "\"" + (chars + "\"" + rest);
  }

  lemma StringRoundTrip(s: string, rest: string, lax: bool)
    ensures ReadString(EncodeString(s) + rest, lax) == Some((s, rest))
  {
    CharsRoundTrip(s, rest, lax);
    LiteralText(EncodeChars(s), rest);
  }

  // ----------------------------------------------------------------- values

  /** Every number token meets the number grammar. */
  predicate WellFormed(v: Json) {
    match v
    case Number(t) => ValidNumber(t)
    case Array(items) => forall x :: x in items ==> WellFormed(x)
    case Object(fields) => forall k :: k in fields ==> WellFormed(fields[k])
    case _ => true
  }

  /** Compact text with object keys in increasing order at every depth. */
  ghost function Encode(v: Json): string
    decreases v
  {
    match v
    case Null => "null"
    case Bool(b) => if b then "true" else "false"
    case Number(t) => t
    case Str(s) => EncodeString(s)
    case Array(items) => "[" + EncodeItems(v, 0) + "]"
    case Object(fields) => "{" + EncodeFields(v, SortedStrings(fields.Keys)) + "}"
  }

  /** The items from position i on. */
  ghost function EncodeItems(v: Json, i: nat): string
    requires v.Array? && i <= |v.items|
    decreases v, |v.items| - i
  {
    if i == |v.items| then ""
    else Encode(v.items[i]) + (if i + 1 == |v.items| then "" else "," + EncodeItems(v, i + 1))
  }

  ghost function EncodeFields(v: Json, keys: seq<string>): string
    requires v.Object? && forall k :: k in keys ==> k in v.fields
    decreases v, |keys|
  {
    if keys == [] then ""
    else EncodeString(keys[0]) + ":" + Encode(v.fields[keys[0]])
         + (if |keys| == 1 then "" else "," + EncodeFields(v, keys[1..]))
  }

  function NumberLength(t: string): (n: nat)
    ensures n <= |t|
  {
    if t == "" || !NumberChar(t[0]) then 0 else 1 + NumberLength(t[1..])
  }

  predicate JsonSpace(c: char) { c == ' ' || c == '\t' || c == '\n' || c == '\r' }

  /** The text after any insignificant white space. */
  function Skip(t: string): (r: string)
    ensures |r| <= |t| && (r != "" ==> !JsonSpace(r[0]))
  {
    if t != "" && JsonSpace(t[0]) then Skip(t[1..]) else t
  }

  /** Reads one value, after white space, and returns it with the unread rest.
      Duplicate keys: the last one wins. */
  function ReadValue(t: string): (r: Option<(Json, string)>)
    ensures r.Some? ==> |r.value.1| < |t|
    decreases |t|, 2
  {
    if Skip(t) == "" then None else ReadToken(Skip(t))
  }

  function ReadToken(t: string): (r: Option<(Json, string)>)
    requires t != ""
    ensures r.Some? ==> |r.value.1| < |t|
    decreases |t|, 1
  {
    if t[0] == '"' then
      match ReadString(t, false)
      case None => None
      case Some(p) => Some((Str(p.0), p.1))
    else if t[0] == '[' then
      var u := Skip(t[1..]);
      if u != "" && u[0] == ']' then Some((Array([]), u[1..])) else ReadItems(u, [])
    else if t[0] == '{' then
      var u := Skip(t[1..]);
      if u != "" && u[0] == '}' then Some((Object(map[]), u[1..])) else ReadFields(u, map[])
    else if "null" <= t then Some((Null, t[4..]))
    else if "true" <= t then Some((Bool(true), t[4..]))
    else if "false" <= t then Some((Bool(false), t[5..]))
    else
      var n := NumberLength(t);
      if ValidNumber(t[..n]) then ValidNumberShape(t[..n]); Some((Number(t[..n]), t[n..])) else None
  }

  function ReadItems(t: string, acc: seq<Json>): (r: Option<(Json, string)>)
    ensures r.Some? ==> |r.value.1| < |t|
    decreases |t|, 3
  {
    match ReadValue(t)
    case None => None
    case Some(p) =>
      var u := Skip(p.1);
      if u == "" then None
      else if u[0] == ']' then Some((Array(acc + [p.0]), u[1..]))
      else if u[0] == ',' then ReadItems(u[1..], acc + [p.0])
      else None
  }

  /** Reads a key and the colon after it. */
  function ReadKey(t: string): (r: Option<(string, string)>)
    ensures r.Some? ==> |r.value.1| < |t|
  {
    match ReadString(Skip(t), false)
    case None => None
    case Some(k) =>
      var u := Skip(k.1);
      if u == "" || u[0] != ':' then None else Some((k.0, u[1..]))
  }

  function ReadFields(t: string, acc: map<string, Json>): (r: Option<(Json, string)>)
    ensures r.Some? ==> |r.value.1| < |t|
    decreases |t|, 3
  {
    match ReadKey(t)
    case None => None
    case Some(k) =>
      match ReadValue(k.1)
      case None => None
      case Some(p) =>
        var u := Skip(p.1);
        if u == "" then None
        else if u[0] == '}' then Some((Object(acc[k.0 := p.0]), u[1..]))
        else if u[0] == ',' then ReadFields(u[1..], acc[k.0 := p.0])
        else None
  }

  /** json.Unmarshal into a tree: one value and nothing after it but white space. */
  function Unmarshal(t: string): Option<Json> {
    match ReadValue(t)
    case None => None
    case Some(p) => if Skip(p.1) == "" then Some(p.0) else None
  }

  /** The rest of a text does not continue a number. */
  predicate Delimited(rest: string) { rest == "" || !NumberChar(rest[0]) }

  lemma {:induction false} NumberLengthIs(t: string, rest: string)
    requires Delimited(rest) && forall i :: 0 <= i < |t| ==> NumberChar(t[i])
    ensures NumberLength(t + rest) == |t|
  {
    if t == "" {
      assert t + rest == rest;
    } else {
      assert (t + rest)[1..] == t[1..] + rest;
      NumberLengthIs(t[1..], rest);
    }
  }

  lemma NumberRoundTrip(t: string, rest: string)
    requires ValidNumber(t) && Delimited(rest)
    ensures ReadValue(t + rest) == Some((Number(t), rest))
  {
    ValidNumberShape(t);
    NumberLengthIs(t, rest);
    assert (t + rest)[..|t|] == t && (t + rest)[|t|..] == rest;
    assert (t + rest)[0] == t[0];
    assert "null"[0] == 'n' && "true"[0] == 't' && "false"[0] == 'f';
    assert Skip(t + rest) == t + rest;
  }

  /** What the first character of an encoded value can be. */
  lemma EncodeStarts(v: Json)
    requires WellFormed(v)
    ensures Encode(v) != "" && Encode(v)[0] != ']' && Encode(v)[0] != '}' && !JsonSpace(Encode(v)[0])
  {
    if v.Number? { ValidNumberShape(v.token); }
  }

  /** Compact text has nothing to skip. */
  lemma NothingToSkip(t: string)
    requires t == "" || !JsonSpace(t[0])
    ensures Skip(t) == t
  {
  }

  // One step of each reader, given that the value at hand is read correctly.

  lemma ReadItemStep(x: Json, more: string, acc: seq<Json>)
    requires ReadValue(Encode(x) + more) == Some((x, more)) && more != "" && !JsonSpace(more[0])
    ensures var r := ReadItems(Encode(x) + more, acc);
      (more[0] == ']' ==> r == Some((Array(acc + [x]), more[1..]))) &&
      (more[0] == ',' ==> r == ReadItems(more[1..], acc + [x]))
  {
    NothingToSkip(more);
  }

  lemma ReadFieldsUnfold(t: string, k: string, value: string, x: Json, more: string, acc: map<string, Json>)
    requires ReadKey(t) == Some((k, value))
    requires ReadValue(value) == Some((x, more)) && more != "" && !JsonSpace(more[0])
    ensures more[0] == '}' ==> ReadFields(t, acc) == Some((Object(acc[k := x]), more[1..]))
    ensures more[0] == ',' ==> ReadFields(t, acc) == ReadFields(more[1..], acc[k := x])
  {
    NothingToSkip(more);
  }

  lemma KeyRoundTrip(k: string, value: string)
    ensures ReadKey(EncodeString(k) + (":" + value)) == Some((k, value))
  {
    StringRoundTrip(k, ":" + value, false);
    NothingToSkip(EncodeString(k) + (":" + value));
    NothingToSkip(":" + value);
    assert (":" + value)[1..] == value;
  }

  lemma ReadFieldStep(k: string, x: Json, more: string, acc: map<string, Json>)
    requires ReadValue(Encode(x) + more) == Some((x, more)) && more != "" && !JsonSpace(more[0])
    ensures var r := ReadFields(EncodeString(k) + ":" + Encode(x) + more, acc);
      (more[0] == '}' ==> r == Some((Object(acc[k := x]), more[1..]))) &&
      (more[0] == ',' ==> r == ReadFields(more[1..], acc[k := x]))
  {
    var e, value := EncodeString(k), Encode(x) + more;
    var t := e + ":" + Encode(x) + more;
    assert t == e + (":" + value);
    KeyRoundTrip(k, value);
    ReadFieldsUnfold(t, k, value, x, more, acc);
  }

  lemma ReadArrayStart(t: string)
    requires t != "" && t[0] != ']' && !JsonSpace(t[0])
    ensures ReadValue("[" + t) == ReadItems(t, [])
  {
    assert ("[" + t)[1..] == t;
    NothingToSkip("[" + t);
    NothingToSkip(t);
  }

  lemma ReadObjectStart(t: string)
    requires t != "" && t[0] != '}' && !JsonSpace(t[0])
    ensures ReadValue("{" + t) == ReadFields(t, map[])
  {
    assert ("{" + t)[1..] == t;
    NothingToSkip("{" + t);
    NothingToSkip(t);
  }

  lemma ReadWord(v: Json, rest: string)
    requires v.Null? || v.Bool? || v == Array([]) || v == Object(map[])
    ensures ReadValue(Encode(v) + rest) == Some((v, rest))
  {
    var word, t := Encode(v), Encode(v) + rest;
    if v.Object? { assert SortedStrings(v.fields.Keys) == []; }
    assert t[..|word|] == word && t[|word|..] == rest;
    assert t[0] == word[0] && t[1] == word[1];
    NothingToSkip(t);
    NothingToSkip(t[1..]);
    assert t[1..][1..] == t[2..];
  }

  lemma ReadStr(s: string, rest: string)
    ensures ReadValue(EncodeString(s) + rest) == Some((Str(s), rest))
  {
    StringRoundTrip(s, rest, false);
    NothingToSkip(EncodeString(s) + rest);
  }

  /** Reading an encoded value gives the value back, whatever follows it. */
  lemma {:induction false} ValueRoundTrip(v: Json, rest: string)
    requires WellFormed(v) && Delimited(rest)
    ensures ReadValue(Encode(v) + rest) == Some((v, rest))
    decreases v
  {
    match v
    case Null => ReadWord(v, rest);
    case Bool(_) => ReadWord(v, rest);
    case Number(n) => NumberRoundTrip(n, rest);
    case Str(s) => ReadStr(s, rest);
    case Array(items) => if items == [] { ReadWord(v, rest); } else { ArrayRoundTrip(v, rest); }
    case Object(fields) => if fields == map[] { ReadWord(v, rest); } else { ObjectRoundTrip(v, rest); }
  }

  lemma {:induction false} ArrayRoundTrip(v: Json, rest: string)
    requires v.Array? && v.items != [] && WellFormed(v)
    ensures ReadValue(Encode(v) + rest) == Some((v, rest))
    decreases v, |v.items| + 1
  {
    var t := EncodeItems(v, 0) + "]" + rest;
    assert Encode(v) + rest == "[" + t;
    EncodeStarts(v.items[0]);
    assert t[0] == Encode(v.items[0])[0];
    ReadArrayStart(t);
    ItemsRoundTrip(v, 0, rest);
    assert v.items[..0] == [];
  }

  ghost function MoreItems(v: Json, i: nat, rest: string): string
    requires v.Array? && i < |v.items|
  {
    if i + 1 == |v.items| then "]" + rest else "," + (EncodeItems(v, i + 1) + "]" + rest)
  }

  lemma ItemsText(v: Json, i: nat, rest: string)
    requires v.Array? && i < |v.items|
    ensures EncodeItems(v, i) + "]" + rest == Encode(v.items[i]) + MoreItems(v, i, rest)
  {
  }

  lemma {:induction false} ItemsRoundTrip(v: Json, i: nat, rest: string)
    requires v.Array? && WellFormed(v) && i < |v.items|
    ensures ReadItems(EncodeItems(v, i) + "]" + rest, v.items[..i]) == Some((v, rest))
    decreases v, |v.items| - i
  {
    MoreItemsTail(v, i, rest);
    ValueRoundTrip(v.items[i], MoreItems(v, i, rest));
    ItemStep(v, i, v.items[..i], rest);
    OneMoreItem(v.items, i);
    if i + 1 < |v.items| { ItemsRoundTrip(v, i + 1, rest); }
  }

  lemma OneMoreItem(items: seq<Json>, i: nat)
    requires i < |items|
    ensures items[..i] + [items[i]] == items[..i + 1]
    ensures i + 1 == |items| ==> items[..i + 1] == items
  {
  }

  /** One array item is read, leaving the remaining ones. */
  lemma ItemStep(v: Json, i: nat, acc: seq<Json>, rest: string)
    requires v.Array? && i < |v.items|
    requires var more := MoreItems(v, i, rest); ReadValue(Encode(v.items[i]) + more) == Some((v.items[i], more))
    ensures var next := acc + [v.items[i]];
      ReadItems(EncodeItems(v, i) + "]" + rest, acc)
        == if i + 1 == |v.items| then Some((Array(next), rest)) else ReadItems(EncodeItems(v, i + 1) + "]" + rest, next)
  {
    ItemsText(v, i, rest);
    MoreItemsTail(v, i, rest);
    ReadItemStep(v.items[i], MoreItems(v, i, rest), acc);
  }

  lemma MoreItemsTail(v: Json, i: nat, rest: string)
    requires v.Array? && i < |v.items|
    ensures var more := MoreItems(v, i, rest);
      more != "" && more[0] == (if i + 1 == |v.items| then ']' else ',') &&
      more[1..] == if i + 1 == |v.items| then rest else EncodeItems(v, i + 1) + "]" + rest
  {
  }

  ghost function Restricted(v: Json, keys: seq<string>): map<string, Json>
    requires v.Object? && forall k :: k in keys ==> k in v.fields
  {
    map k | k in keys :: v.fields[k]
  }

  ghost function MoreFields(v: Json, keys: seq<string>, rest: string): string
    requires v.Object? && keys != [] && forall k :: k in keys ==> k in v.fields
  {
    if |keys| == 1 then "}" + rest else "," + (EncodeFields(v, keys[1..]) + "}" + rest)
  }

  lemma FieldsText(v: Json, keys: seq<string>, rest: string)
    requires v.Object? && keys != [] && forall k :: k in keys ==> k in v.fields
    ensures EncodeFields(v, keys) + "}" + rest
         == EncodeString(keys[0]) + ":" + Encode(v.fields[keys[0]]) + MoreFields(v, keys, rest)
  {
  }

  lemma KeysOfNonEmpty(v: Json)
    requires v.Object? && v.fields != map[]
    ensures SortedStrings(v.fields.Keys) != []
    ensures Restricted(v, SortedStrings(v.fields.Keys)) == v.fields
  {
    var k :| k in v.fields;
    assert k in SortedStrings(v.fields.Keys);
  }

  lemma ObjectText(v: Json, rest: string)
    requires v.Object? && v.fields != map[]
    ensures var t := EncodeFields(v, SortedStrings(v.fields.Keys)) + "}" + rest;
      Encode(v) + rest == "{" + t && t != "" && t[0] == '"'
  {
    KeysOfNonEmpty(v);
    var keys := SortedStrings(v.fields.Keys);
    FieldsText(v, keys, rest);
    assert EncodeString(keys[0])[0] == '"';
  }

  lemma NothingAdded(m: map<string, Json>)
    ensures map[] + m == m
  {
  }

  lemma {:induction false} ObjectRoundTrip(v: Json, rest: string)
    requires v.Object? && v.fields != map[] && WellFormed(v)
    ensures ReadValue(Encode(v) + rest) == Some((v, rest))
    decreases v, |v.fields| + 1
  {
    var keys := SortedStrings(v.fields.Keys);
    SortedLength(v.fields.Keys);
    KeysOfNonEmpty(v);
    ObjectText(v, rest);
    ReadObjectStart(EncodeFields(v, keys) + "}" + rest);
    FieldsRoundTrip(v, keys, map[], rest);
    NothingAdded(v.fields);
  }

  /** One field of an object is read, leaving the remaining keys. */
  lemma FieldStep(v: Json, keys: seq<string>, acc: map<string, Json>, rest: string)
    requires v.Object? && keys != [] && forall k :: k in keys ==> k in v.fields
    requires var x, more := v.fields[keys[0]], MoreFields(v, keys, rest); ReadValue(Encode(x) + more) == Some((x, more))
    ensures var next := acc[keys[0] := v.fields[keys[0]]];
      ReadFields(EncodeFields(v, keys) + "}" + rest, acc)
        == if |keys| == 1 then Some((Object(next), rest))
           else ReadFields(EncodeFields(v, keys[1..]) + "}" + rest, next)
  {
    var more := MoreFields(v, keys, rest);
    FieldsText(v, keys, rest);
    ReadFieldStep(keys[0], v.fields[keys[0]], more, acc);
    assert |keys| == 1 ==> more[1..] == rest;
  }

  lemma RestrictedStep(v: Json, keys: seq<string>, acc: map<string, Json>)
    requires v.Object? && keys != [] && forall k :: k in keys ==> k in v.fields
    ensures acc[keys[0] := v.fields[keys[0]]] + Restricted(v, keys[1..]) == acc + Restricted(v, keys)
  {
  }

  lemma {:induction false} FieldsRoundTrip(v: Json, keys: seq<string>, acc: map<string, Json>, rest: string)
    requires v.Object? && WellFormed(v) && keys != [] && forall k :: k in keys ==> k in v.fields
    ensures ReadFields(EncodeFields(v, keys) + "}" + rest, acc) == Some((Object(acc + Restricted(v, keys)), rest))
    decreases v, |keys|
  {
    ValueRoundTrip(v.fields[keys[0]], MoreFields(v, keys, rest));
    FieldStep(v, keys, acc, rest);
    RestrictedStep(v, keys, acc);
    if |keys| > 1 {
      FieldsRoundTrip(v, keys[1..], acc[keys[0] := v.fields[keys[0]]], rest);
    } else {
      assert acc[keys[0] := v.fields[keys[0]]] == acc[keys[0] := v.fields[keys[0]]] + Restricted(v, keys[1..]);
    }
  }
}
