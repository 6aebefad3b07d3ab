/** The stored responses and the cache in front of the model calls. */
module ResponseCache {
  import opened Text
  import opened CanonicalJson
  import opened CacheKey

  // ------------------------------------------------------------------ the table

  datatype Usage = Usage(promptTokens: int, completionTokens: int, cost: Option<real>)

  const NO_USAGE := Usage(0, 0, None)

  /** Columns that name the call rather than its outcome. */
  datatype Tag = Tag(model: string, runId: string)

  datatype Row = Row(
    id: string, cacheKey: string, prefix: Prefix, repetition: int, harness: bool, tag: Tag,
    modelReturned: string, substituted: bool, text: string, parsed: Option<string>, usage: Usage,
    latencyMs: int, timedOut: bool, error: Option<string>, wordCount: nat)

  datatype Stats = Stats(calls: nat, timeouts: nat, failures: nat, cacheHits: nat)

  function Find(rows: seq<Row>, key: string): Option<Row> {
    if rows == [] then None
    else if rows[0].cacheKey == key then Some(rows[0]) else Find(rows[1..], key)
  }

  /** An absent bundle hash matches only rows without one, an empty one only empty ones. */
  function MaxStored(rows: seq<Row>, p: Prefix): Option<int> {
    if rows == [] then None else
      var rest := MaxStored(rows[1..], p);
      if rows[0].prefix != p then rest
      else if rest.Some? && rest.value > rows[0].repetition then rest
      else Some(rows[0].repetition)
  }

  function MaxRepetition(rows: seq<Row>, p: Prefix): int {
    if MaxStored(rows, p).Some? then MaxStored(rows, p).value else -1
  }

  /** The insert fails on a key that is already stored. */
  function Insert(rows: seq<Row>, row: Row): Option<seq<Row>> {
    if Find(rows, row.cacheKey).Some? then None else Some(rows + [row])
  }

  ghost predicate UniqueKeys(rows: seq<Row>) {
    forall i, j :: 0 <= i < j < |rows| ==> rows[i].cacheKey != rows[j].cacheKey
  }

  lemma {:induction false} FindIs(rows: seq<Row>, key: string)
    ensures Find(rows, key).Some? ==> Find(rows, key).value in rows && Find(rows, key).value.cacheKey == key
    ensures Find(rows, key).None? ==> forall r :: r in rows ==> r.cacheKey != key
  {
    if rows != [] {
      FindIs(rows[1..], key);
      assert rows == [rows[0]] + rows[1..];
    }
  }

  lemma {:induction false} MaxStoredIs(rows: seq<Row>, p: Prefix)
    ensures MaxStored(rows, p).None? <==> forall r :: r in rows ==> r.prefix != p
    ensures forall r :: r in rows && r.prefix == p ==> r.repetition <= MaxRepetition(rows, p)
    ensures MaxStored(rows, p).Some? ==>
      exists r :: r in rows && r.prefix == p && r.repetition == MaxRepetition(rows, p)
  {
    if rows != [] {
      MaxStoredIs(rows[1..], p);
      assert rows == [rows[0]] + rows[1..];
      assert forall r :: r in rows <==> r == rows[0] || r in rows[1..];
      if rows[0].prefix == p && MaxStored(rows, p) == Some(rows[0].repetition) {
        assert rows[0] in rows;
      } else if MaxStored(rows, p).Some? {
        var r :| r in rows[1..] && r.prefix == p && r.repetition == MaxRepetition(rows[1..], p);
        assert r in rows;
      }
    }
  }

  lemma InsertKeepsUnique(rows: seq<Row>, row: Row)
    requires UniqueKeys(rows) && Insert(rows, row).Some?
    ensures UniqueKeys(Insert(rows, row).value)
  {
    FindIs(rows, row.cacheKey);
  }

  lemma SameKeySameRow(rows: seq<Row>, a: Row, b: Row)
    requires UniqueKeys(rows) && a in rows && b in rows && a.cacheKey == b.cacheKey
    ensures a == b
  {
    var i :| 0 <= i < |rows| && rows[i] == a;
    var j :| 0 <= j < |rows| && rows[j] == b;
  }

  // -------------------------------------------------------------- one call

  /** How a gateway call ends; matches says whether the returned model is one of
      the expected ones, parsed holds the content read and written again. */
  datatype Reply =
    | Timeout(latencyMs: int, message: string)
    | Failure(latencyMs: int, message: string)
    | Substitution(latencyMs: int, message: string, named: string, returned: string, content: string)
    | Chat(latencyMs: int, returned: string, content: string, matches: bool, parsed: Option<string>, usage: Usage)

  /** The call succeeded, with an expected model. */
  predicate Succeeds(reply: Reply) { reply.Chat? && reply.matches }

  function Counted(stats: Stats, reply: Reply): Stats {
    if Succeeds(reply) then stats
    else if reply.Timeout? then stats.(timeouts := stats.timeouts + 1)
    else stats.(failures := stats.failures + 1)
  }

  function SubstitutionMessage(returned: string): string { "gateway: substituted model: " + returned }

  /** How many runs of other characters white space leaves. */
  function WordCount(s: string): nat {
    if s == "" then 0
    else WordCount(s[..|s| - 1])
         + if !IsSpace(s[|s| - 1]) && (|s| == 1 || IsSpace(s[|s| - 2])) then 1 else 0
  }

  /** A run of other characters starts here. */
  predicate WordStart(s: string, i: nat) { i < |s| && !IsSpace(s[i]) && (i == 0 || IsSpace(s[i - 1])) }

  function WordStarts(s: string): set<nat> { set i: nat | i < |s| && WordStart(s, i) }

  lemma StartsMore(s: string)
    requires s != ""
    ensures var n := |s| - 1; WordStarts(s) == WordStarts(s[..n]) + if WordStart(s, n) then {n} else {}
  {
    var front, n := s[..|s| - 1], |s| - 1;
    forall i: nat | i < n ensures WordStart(s, i) <==> WordStart(front, i) {}
  }

  /** There are as many words as places where one starts. */
  lemma {:induction false} WordCountIs(s: string)
    ensures WordCount(s) == |WordStarts(s)|
  {
    if s != "" {
      var front, n := s[..|s| - 1], |s| - 1;
      WordCountIs(front);
      StartsMore(s);
    }
  }

  /** The row a reply is stored as. */
  function RowFor(id: string, key: string, p: Prefix, repetition: int, tag: Tag, reply: Reply): Row {
    match reply
    case Timeout(ms, message) =>
      Row(id, key, p, repetition, true, tag, "", false, "", None, NO_USAGE, ms, true, Some(message), 0)
    case Failure(ms, message) =>
      Row(id, key, p, repetition, true, tag, "", false, "", None, NO_USAGE, ms, false, Some(message), 0)
    case Substitution(ms, message, named, returned, content) =>
      Row(id, key, p, repetition, true, tag, if named == "" then returned else named, true, content, None, NO_USAGE,
          ms, false, Some(message), 0)
    case Chat(ms, returned, content, matches, parsed, usage) =>
      if matches then
        Row(id, key, p, repetition, true, tag, returned, false, content, parsed, usage, ms, false, None,
            WordCount(content))
      else
        Row(id, key, p, repetition, true, tag, returned, true, content, None, NO_USAGE, ms, false,
            Some(SubstitutionMessage(returned)), 0)
  }

  /** What a row says about the call whose reply it stores. */
  ghost predicate Records(row: Row, reply: Reply) {
    row.harness && row.latencyMs == reply.latencyMs && (row.timedOut <==> reply.Timeout?)
    && match reply
       case Timeout(_, message) => Empty(row) && row.error == Some(message)
       case Failure(_, message) => Empty(row) && row.error == Some(message)
       case Substitution(_, message, named, returned, content) =>
         row.substituted && row.error == Some(message) && row.text == content && Unread(row)
         && (named != "" ==> row.modelReturned == named) && (named == "" ==> row.modelReturned == returned)
       case Chat(_, returned, content, matches, parsed, usage) =>
         row.text == content && row.modelReturned == returned && (row.substituted <==> !matches)
         && if matches then
              row.error == None && row.parsed == parsed && row.usage == usage && row.wordCount == |WordStarts(content)|
            else Unread(row) && row.error == Some("gateway: substituted model: " + returned)
  }

  predicate Unread(row: Row) {
    row.parsed == None && row.wordCount == 0
    && row.usage.promptTokens == 0 && row.usage.completionTokens == 0 && row.usage.cost == None
  }

  predicate Empty(row: Row) { Unread(row) && row.text == "" && row.modelReturned == "" && !row.substituted }

  /** The stored row records the call and is filed under its key and inputs. */
  lemma RowRecords(id: string, key: string, p: Prefix, repetition: int, tag: Tag, reply: Reply)
    ensures var row := RowFor(id, key, p, repetition, tag, reply);
      Records(row, reply) && row.id == id && row.cacheKey == key && row.prefix == p && row.repetition == repetition
      && row.tag == tag
  {
    if reply.Chat? { WordCountIs(reply.content); }
  }

  /** Each call is counted once by how it ended. */
  lemma CountedIs(stats: Stats, reply: Reply)
    ensures var n := Counted(stats, reply);
      n.calls == stats.calls && n.cacheHits == stats.cacheHits
      && n.timeouts == stats.timeouts + (if reply.Timeout? then 1 else 0)
      && n.failures == stats.failures
           + if reply.Failure? || reply.Substitution? || (reply.Chat? && !reply.matches) then 1 else 0
  {
  }

  datatype GenResult = GenResult(response: Row, cacheHit: bool)

  /** One process's view of the table and its counters. */
  class Runner {
    const sha: string -> string
    var rows: seq<Row>
    var stats: Stats

    constructor (sha: string -> string)
      ensures this.sha == sha && rows == [] && stats == Stats(0, 0, 0, 0)
    {
      this.sha := sha;
      rows, stats := [], Stats(0, 0, 0, 0);
    }

    method KeyFor(p: Prefix, repetition: int) returns (key: string)
      ensures key == ResponseCacheKey(sha, p, repetition)
    {
      var text := CanonicalJSON(KeyTree(p, repetition));
      key := sha(text);
    }

    /** Inserts the row, or finds the one another caller stored under its key. */
    method InsertOrReuse(row: Row) returns (stored: Row)
      modifies `rows, `stats
      ensures match Insert(old(rows), row)
        case Some(after) => rows == after && stored == row && stats == old(stats)
        case None => rows == old(rows) && Some(stored) == Find(rows, row.cacheKey)
                     && stats == old(stats).(cacheHits := old(stats).cacheHits + 1)
    {
      var after := Insert(rows, row);
      if after.Some? {
        rows := after.value;
        return row;
      }
      stats := stats.(cacheHits := stats.cacheHits + 1);
      stored := Find(rows, row.cacheKey).value;
    }

    /** Stores a failed call.  A success from an unexpected model arrives here as a
        Substitution, see StoreSuccess. */
    method StoreFailed(id: string, key: string, p: Prefix, repetition: int, tag: Tag, reply: Reply)
      returns (res: GenResult)
      requires !reply.Chat?
      modifies `rows, `stats
      ensures !res.cacheHit
      ensures match Insert(old(rows), RowFor(id, key, p, repetition, tag, reply))
        case Some(after) => rows == after && res.response == RowFor(id, key, p, repetition, tag, reply)
                            && Records(res.response, reply) && stats == Counted(old(stats), reply)
        case None => rows == old(rows) && Some(res.response) == Find(rows, key)
                     && stats == Counted(old(stats), reply).(cacheHits := old(stats).cacheHits + 1)
    {
      RowRecords(id, key, p, repetition, tag, reply);
      if reply.Timeout? {
        stats := stats.(timeouts := stats.timeouts + 1);
      } else {
        stats := stats.(failures := stats.failures + 1);
      }
      var returned, content := "", "";
      if reply.Substitution? {
        returned, content := reply.named, reply.content;
        if returned == "" { returned := reply.returned; }
      }
      var row := Row(id, key, p, repetition, true, tag, returned, reply.Substitution?, content, None, NO_USAGE,
                     reply.latencyMs, reply.Timeout?, Some(reply.message), 0);
      var stored := InsertOrReuse(row);
      return GenResult(stored, false);
    }

    /** A reply from an unexpected model is stored as a substitution. */
    method StoreSuccess(id: string, key: string, p: Prefix, repetition: int, tag: Tag, reply: Reply)
      returns (res: GenResult)
      requires reply.Chat?
      modifies `rows, `stats
      ensures !res.cacheHit
      ensures match Insert(old(rows), RowFor(id, key, p, repetition, tag, reply))
        case Some(after) => rows == after && res.response == RowFor(id, key, p, repetition, tag, reply)
                            && Records(res.response, reply) && stats == Counted(old(stats), reply)
        case None => rows == old(rows) && Some(res.response) == Find(rows, key)
                     && stats == Counted(old(stats), reply).(cacheHits := old(stats).cacheHits + 1)
    {
      RowRecords(id, key, p, repetition, tag, reply);
      if !reply.matches {
        var message := SubstitutionMessage(reply.returned);
        var failed := Substitution(reply.latencyMs, message, reply.returned, reply.returned, reply.content);
        res := StoreFailed(id, key, p, repetition, tag, failed);
        return;
      }
      var row := Row(id, key, p, repetition, true, tag, reply.returned, false, reply.content, reply.parsed, reply.usage,
                     reply.latencyMs, false, None, WordCount(reply.content));
      var stored := InsertOrReuse(row);
      return GenResult(stored, false);
    }

    /** One call with nobody else at work: None is a refused request or prompt. */
    method GenerateResponse(p: Prefix, tag: Tag, isFresh: bool, supported: bool, promptOk: bool, id: string,
                            reply: Reply)
      returns (res: Option<GenResult>)
      modifies `rows, `stats
      ensures var repetition := if isFresh then MaxRepetition(old(rows), p) + 1 else 0;
        var key := ResponseCacheKey(sha, p, repetition);
        var hit := Find(old(rows), key);
        if !supported then res == None && rows == old(rows) && stats == old(stats)
        else if hit.Some? then
          res == Some(GenResult(hit.value, true)) && rows == old(rows)
          && stats == old(stats).(cacheHits := old(stats).cacheHits + 1)
        else if !promptOk then res == None && rows == old(rows) && stats == old(stats)
        else
          res == Some(GenResult(RowFor(id, key, p, repetition, tag, reply), false))
          && Records(res.value.response, reply) && rows == old(rows) + [res.value.response]
          && stats == Counted(old(stats).(calls := old(stats).calls + 1), reply)
    {
      if !supported { return None; }
      var repetition := 0;
      if isFresh { repetition := MaxRepetition(rows, p) + 1; }
      var key := KeyFor(p, repetition);
      var existing := Find(rows, key);
      if existing.Some? {
        stats := stats.(cacheHits := stats.cacheHits + 1);
        return Some(GenResult(existing.value, true));
      }
      if !promptOk { return None; }
      stats := stats.(calls := stats.calls + 1);
      RowRecords(id, key, p, repetition, tag, reply);
      var stored;
      if reply.Chat? {
        stored := StoreSuccess(id, key, p, repetition, tag, reply);
      } else {
        stored := StoreFailed(id, key, p, repetition, tag, reply);
      }
      return Some(stored);
    }
  }

  // ----------------------------------------------------------- fresh requests

  /** Rows a harness stores are keyed by their own columns, other rows by a
      fresh 26-character id; a hash has 64 characters. */
  ghost predicate WellKeyed(sha: string -> string, rows: seq<Row>) {
    (forall t :: |sha(t)| == 64)
    && forall r :: r in rows ==>
         if r.harness then r.cacheKey == ResponseCacheKey(sha, r.prefix, r.repetition) else |r.cacheKey| == 26
  }

  /** The request's key text collides with no stored harness row's. */
  ghost predicate NoCollisions(sha: string -> string, rows: seq<Row>, p: Prefix, n: int) {
    forall r :: r in rows && r.harness ==> NoCollision(sha, KeyText(r.prefix, r.repetition), KeyText(p, n))
  }

  /** A stored harness row that spells the missing bundle the other way and
      already has the repetition a fresh request would take. */
  ghost predicate Shadowed(rows: seq<Row>, p: Prefix) {
    exists r :: r in rows && r.harness && r.prefix != p && SameInputs(r.prefix, p)
      && r.repetition == MaxRepetition(rows, p) + 1
  }

  /** With nobody else at work a fresh request misses exactly if no such row is stored. */
  lemma FreshMissesExactlyIf(sha: string -> string, rows: seq<Row>, p: Prefix)
    requires WellKeyed(sha, rows) && NoCollisions(sha, rows, p, MaxRepetition(rows, p) + 1)
    ensures Find(rows, ResponseCacheKey(sha, p, MaxRepetition(rows, p) + 1)).None? <==> !Shadowed(rows, p)
  {
    var n := MaxRepetition(rows, p) + 1;
    var key := ResponseCacheKey(sha, p, n);
    FindIs(rows, key);
    MaxStoredIs(rows, p);
    forall r | r in rows
      ensures r.cacheKey == key <==> r.harness && r.prefix != p && SameInputs(r.prefix, p) && r.repetition == n
    {
      if r.harness { KeysAgree(sha, r.prefix, r.repetition, p, n); }
    }
  }

  /** A bundle hash is never empty. */
  predicate NamedBundle(p: Prefix) { p.bundleHash.Some? ==> p.bundleHash.value != "" }

  /** Where bundle hashes are never empty, a fresh request always misses. */
  lemma FreshMisses(sha: string -> string, rows: seq<Row>, p: Prefix)
    requires WellKeyed(sha, rows) && NoCollisions(sha, rows, p, MaxRepetition(rows, p) + 1)
    requires NamedBundle(p) && forall r :: r in rows && r.harness ==> NamedBundle(r.prefix)
    ensures Find(rows, ResponseCacheKey(sha, p, MaxRepetition(rows, p) + 1)).None?
  {
    FreshMissesExactlyIf(sha, rows, p);
  }

  /** An empty bundle hash beside an absent one lets a fresh request hit. */
  lemma FreshCanHit(sha: string -> string, p: Prefix) returns (rows: seq<Row>)
    requires p.bundleHash == None
    ensures UniqueKeys(rows)
    ensures forall r :: r in rows ==> r.harness && r.cacheKey == ResponseCacheKey(sha, r.prefix, r.repetition)
    ensures Find(rows, ResponseCacheKey(sha, p, MaxRepetition(rows, p) + 1)).Some?
  {
    var q := p.(bundleHash := Some(""));
    var key := ResponseCacheKey(sha, q, 0);
    rows := [RowFor("r", key, q, 0, Tag("", ""), Failure(0, ""))];
    assert rows[0].prefix == q && rows[0].cacheKey == key && rows[1..] == [];
    assert q.bundleHash != p.bundleHash;
    assert MaxStored(rows[1..], p) == None;
    assert MaxStored(rows, p) == None;
    TreesAgree(p, 0, q, 0);
    assert ResponseCacheKey(sha, p, 0) == key;
  }
}
