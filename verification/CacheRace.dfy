/** Any number of callers of GenerateResponse at once, interleaved statement by
    statement, beside production inserts and the pruning of production rows. */
module CacheRace {
  import opened Text
  import opened CacheKey
  import opened ResponseCache

  datatype Pc = Arrived | AtLookup | Missed | Waiting | Answered | Clashed | Returned | Refused

  type KeyOf = (Prefix, int) -> string

  /** A caller's variables; reply and row are set once they are known. */
  datatype Caller = Caller(
    p: Prefix, tag: Tag, isFresh: bool, repetition: int, key: string, pc: Pc,
    reply: Option<Reply>, row: Option<Row>, reused: bool)

  datatype State = State(rows: seq<Row>, stats: Stats, callers: map<nat, Caller>)

  const INIT := State([], Stats(0, 0, 0, 0), map[])

  predicate AtPc(s: State, c: nat, pc: Pc) { c in s.callers && s.callers[c].pc == pc }

  /** One statement of a caller. */
  datatype Act = Resolve | Lookup | Abandon | Call | GetReply(answer: Reply) | Store(id: string) | Reread

  datatype Label =
    | Arrive(c: nat, p: Prefix, tag: Tag, isFresh: bool)
    | Does(c: nat, act: Act)
    | Produce(row: Row)
    | Prune(ids: set<string>)

  /** What one statement of a caller changes. */
  datatype Moved = Moved(k: Caller, rows: seq<Row>, stats: Stats)

  function Hit(stats: Stats): Stats { stats.(cacheHits := stats.cacheHits + 1) }

  ghost function Step(k: Caller, rows: seq<Row>, stats: Stats, keyOf: KeyOf, act: Act): Option<Moved> {
    match act
    case Resolve =>
      if k.pc != Arrived then None else
      var n := if k.isFresh then MaxRepetition(rows, k.p) + 1 else 0;
      Some(Moved(k.(pc := AtLookup, repetition := n, key := keyOf(k.p, n)), rows, stats))
    case Lookup =>
      if k.pc != AtLookup then None else
      var found := Find(rows, k.key);
      if found.None? then Some(Moved(k.(pc := Missed), rows, stats))
      else Some(Moved(k.(pc := Returned, row := found, reused := true), rows, Hit(stats)))
    case Abandon => if k.pc != Missed then None else Some(Moved(k.(pc := Refused), rows, stats))
    case Call =>
      if k.pc != Missed then None
      else Some(Moved(k.(pc := Waiting), rows, stats.(calls := stats.calls + 1)))
    case GetReply(answer) =>
      if k.pc != Waiting then None
      else Some(Moved(k.(pc := Answered, reply := Some(answer)), rows, Counted(stats, answer)))
    case Store(id) =>
      if k.pc != Answered || k.reply.None? then None else
      var row := RowFor(id, k.key, k.p, k.repetition, k.tag, k.reply.value);
      var after := Insert(rows, row);
      if after.None? then Some(Moved(k.(pc := Clashed), rows, stats))
      else Some(Moved(k.(pc := Returned, row := Some(row)), after.value, stats))
    case Reread =>
      if k.pc != Clashed then None else
      var found := Find(rows, k.key);
      if found.None? then Some(Moved(k.(pc := Refused), rows, stats))
      else Some(Moved(k.(pc := Returned, row := found, reused := true), rows, Hit(stats)))
  }

  /** Pruning deletes old production rows only. */
  function Pruned(rows: seq<Row>, ids: set<string>): seq<Row> {
    if rows == [] then []
    else (if !rows[0].harness && rows[0].id in ids then [] else [rows[0]]) + Pruned(rows[1..], ids)
  }

  ghost function Next(s: State, keyOf: KeyOf, l: Label): Option<State> {
    match l
    case Arrive(c, p, tag, isFresh) =>
      if c in s.callers then None
      else Some(s.(callers := s.callers[c := Caller(p, tag, isFresh, 0, "", Arrived, None, None, false)]))
    case Does(c, act) =>
      if c !in s.callers then None else
      (match Step(s.callers[c], s.rows, s.stats, keyOf, act)
       case None => None
       case Some(m) => Some(State(m.rows, m.stats, s.callers[c := m.k])))
    case Produce(row) =>
      if row.harness || |row.cacheKey| != 26 || Insert(s.rows, row).None? then None
      else Some(s.(rows := Insert(s.rows, row).value))
    case Prune(ids) => Some(s.(rows := Pruned(s.rows, ids)))
  }

  ghost function Exec(keyOf: KeyOf, ls: seq<Label>): Option<State> {
    if ls == [] then Some(INIT) else
    match Exec(keyOf, ls[..|ls| - 1])
    case None => None
    case Some(s) => Next(s, keyOf, ls[|ls| - 1])
  }

  // --------------------------------------------------------------- invariants

  /** What the callers need of the key: a hash, blind to how a missing bundle is spelled. */
  ghost predicate IsKey(keyOf: KeyOf) {
    (forall p, n :: |keyOf(p, n)| == 64)
    && forall p, q, n :: SameInputs(p, q) ==> keyOf(p, n) == keyOf(q, n)
  }

  /** The key computed over any 64-character hash. */
  ghost function HashedKey(sha: string -> string): KeyOf { (p, n) => ResponseCacheKey(sha, p, n) }

  lemma HashedKeyIsKey(sha: string -> string)
    requires forall t :: |sha(t)| == 64
    ensures IsKey(HashedKey(sha))
  {
    forall p, q, n | SameInputs(p, q) ensures HashedKey(sha)(p, n) == HashedKey(sha)(q, n) { TreesAgree(p, n, q, n); }
  }

  /** Harness rows have hashes for keys, production rows ids. */
  ghost predicate RowsOk(rows: seq<Row>) {
    UniqueKeys(rows) && forall r :: r in rows ==> |r.cacheKey| == if r.harness then 64 else 26
  }

  ghost predicate CallerOk(k: Caller, rows: seq<Row>) {
    (k.pc != Arrived ==> |k.key| == 64)
    && (k.pc == Returned <==> k.row.Some?)
    && (k.row.Some? ==> k.row.value in rows && k.row.value.harness && k.row.value.cacheKey == k.key)
    && (k.pc == Clashed ==> exists r :: r in rows && r.harness && r.cacheKey == k.key)
    && (k.pc in {Arrived, AtLookup, Missed, Waiting, Refused} ==> k.reply.None?)
    && (k.pc in {Answered, Clashed} ==> k.reply.Some?)
    && (k.reused ==> k.pc == Returned)
  }

  predicate InFlight(k: Caller) { k.pc == Waiting }

  predicate Succeeded(k: Caller) { k.reply.Some? && Succeeds(k.reply.value) }

  /** Callers whose model call is under way. */
  function CallsInFlight(callers: map<nat, Caller>): set<nat> { set c | c in callers && InFlight(callers[c]) }

  /** Callers whose model call succeeded. */
  function Successes(callers: map<nat, Caller>): set<nat> { set c | c in callers && Succeeded(callers[c]) }

  /** Callers that were given a row somebody else had stored. */
  function Reusers(callers: map<nat, Caller>): set<nat> { set c | c in callers && callers[c].reused }

  predicate StatsOk(stats: Stats, callers: map<nat, Caller>) {
    stats.calls == stats.timeouts + stats.failures + |Successes(callers)| + |CallsInFlight(callers)|
    && stats.cacheHits == |Reusers(callers)|
  }

  ghost predicate Inv(s: State) {
    RowsOk(s.rows) && StatsOk(s.stats, s.callers)
    && forall c :: c in s.callers ==> CallerOk(s.callers[c], s.rows)
  }

  ghost predicate CallerKeyed(k: Caller, keyOf: KeyOf) {
    k.pc != Arrived ==> k.key == keyOf(k.p, k.repetition) && (k.isFresh || k.repetition == 0)
  }

  ghost predicate RowsKeyed(rows: seq<Row>, keyOf: KeyOf) {
    forall r :: r in rows && r.harness ==> r.cacheKey == keyOf(r.prefix, r.repetition)
  }

  /** Every key is the key of the inputs beside it. */
  ghost predicate Keyed(s: State, keyOf: KeyOf) {
    RowsKeyed(s.rows, keyOf) && forall c :: c in s.callers ==> CallerKeyed(s.callers[c], keyOf)
  }

  function One(b: bool): nat { if b then 1 else 0 }

  lemma CountMove(callers: map<nat, Caller>, c: nat, k: Caller)
    requires c in callers
    ensures |CallsInFlight(callers[c := k])| == |CallsInFlight(callers)| - One(InFlight(callers[c])) + One(InFlight(k))
    ensures |Successes(callers[c := k])| == |Successes(callers)| - One(Succeeded(callers[c])) + One(Succeeded(k))
    ensures |Reusers(callers[c := k])| == |Reusers(callers)| - One(callers[c].reused) + One(k.reused)
  {
    var after := callers[c := k];
    CountOne(CallsInFlight(callers), CallsInFlight(after), c);
    CountOne(Successes(callers), Successes(after), c);
    CountOne(Reusers(callers), Reusers(after), c);
  }

  lemma CountOne(before: set<nat>, after: set<nat>, c: nat)
    requires after - {c} == before - {c}
    ensures |after| == |before| - One(c in before) + One(c in after)
  {
    assert c in before ==> before == before - {c} + {c};
    assert c in after ==> after == after - {c} + {c};
    assert c !in before ==> before == before - {c};
    assert c !in after ==> after == after - {c};
  }

  lemma CountNew(callers: map<nat, Caller>, c: nat, k: Caller)
    requires c !in callers && !InFlight(k) && !Succeeded(k) && !k.reused
    ensures CallsInFlight(callers[c := k]) == CallsInFlight(callers) && Successes(callers[c := k]) == Successes(callers)
    ensures Reusers(callers[c := k]) == Reusers(callers)
  {
  }

  lemma {:induction false} PrunedIs(rows: seq<Row>, ids: set<string>)
    ensures forall r :: r in Pruned(rows, ids) ==> r in rows
    ensures forall r :: r in rows && r.harness ==> r in Pruned(rows, ids)
    ensures UniqueKeys(rows) ==> UniqueKeys(Pruned(rows, ids))
  {
    if rows != [] {
      var rest := Pruned(rows[1..], ids);
      PrunedIs(rows[1..], ids);
      assert rows == [rows[0]] + rows[1..];
      if UniqueKeys(rows) {
        assert forall i :: 0 <= i < |rows[1..]| ==> rows[1..][i] == rows[i + 1];
        forall i | 0 <= i < |rest| ensures rest[i].cacheKey != rows[0].cacheKey { assert rest[i] in rows[1..]; }
      }
    }
  }

  /** Nobody loses a row when a row is added or production rows are pruned. */
  lemma CallersKeep(callers: map<nat, Caller>, rows: seq<Row>, rows': seq<Row>)
    requires forall c :: c in callers ==> CallerOk(callers[c], rows)
    requires forall r :: r in rows && r.harness ==> r in rows'
    ensures forall c :: c in callers ==> CallerOk(callers[c], rows')
  {
  }

  lemma InsertRowsOk(rows: seq<Row>, row: Row)
    requires RowsOk(rows) && Insert(rows, row).Some? && |row.cacheKey| == if row.harness then 64 else 26
    ensures RowsOk(rows + [row])
  {
    InsertKeepsUnique(rows, row);
  }

  /** A key that is a hash finds only harness rows. */
  lemma FindHarness(rows: seq<Row>, key: string)
    requires RowsOk(rows) && |key| == 64
    ensures var found := Find(rows, key);
      (found.Some? <==> exists r :: r in rows && r.harness && r.cacheKey == key)
      && (found.Some? ==> found.value in rows && found.value.harness && found.value.cacheKey == key)
  {
    FindIs(rows, key);
  }

  /** A caller's statement keeps the table and the caller in order. */
  lemma StepOk(k: Caller, rows: seq<Row>, stats: Stats, keyOf: KeyOf, act: Act)
    requires IsKey(keyOf) && RowsOk(rows) && CallerOk(k, rows) && Step(k, rows, stats, keyOf, act).Some?
    ensures var m := Step(k, rows, stats, keyOf, act).value;
      RowsOk(m.rows) && CallerOk(m.k, m.rows) && forall r :: r in rows ==> r in m.rows
  {
    if k.pc != Arrived { FindHarness(rows, k.key); }
    if act.Store? {
      var row := RowFor(act.id, k.key, k.p, k.repetition, k.tag, k.reply.value);
      if Insert(rows, row).Some? { InsertRowsOk(rows, row); }
    }
  }

  /** A caller's statement counts what it does. */
  lemma StepCounts(k: Caller, rows: seq<Row>, stats: Stats, keyOf: KeyOf, act: Act)
    requires CallerOk(k, rows) && Step(k, rows, stats, keyOf, act).Some?
    ensures var m := Step(k, rows, stats, keyOf, act).value;
      m.stats.calls - m.stats.timeouts - m.stats.failures - One(InFlight(m.k)) - One(Succeeded(m.k))
        == stats.calls - stats.timeouts - stats.failures - One(InFlight(k)) - One(Succeeded(k))
      && m.stats.cacheHits - One(m.k.reused) == stats.cacheHits - One(k.reused)
  {
  }

  lemma StepKeyed(k: Caller, rows: seq<Row>, stats: Stats, keyOf: KeyOf, act: Act)
    requires CallerKeyed(k, keyOf) && RowsKeyed(rows, keyOf) && Step(k, rows, stats, keyOf, act).Some?
    ensures var m := Step(k, rows, stats, keyOf, act).value;
      CallerKeyed(m.k, keyOf) && RowsKeyed(m.rows, keyOf)
  {
  }

  lemma DoesKeepsInv(s: State, keyOf: KeyOf, c: nat, m: Moved)
    requires Inv(s) && c in s.callers && RowsOk(m.rows) && CallerOk(m.k, m.rows)
    requires forall r :: r in s.rows ==> r in m.rows
    requires m.stats.calls - m.stats.timeouts - m.stats.failures - One(InFlight(m.k)) - One(Succeeded(m.k))
      == s.stats.calls - s.stats.timeouts - s.stats.failures
         - One(InFlight(s.callers[c])) - One(Succeeded(s.callers[c]))
    requires m.stats.cacheHits - One(m.k.reused) == s.stats.cacheHits - One(s.callers[c].reused)
    ensures Inv(State(m.rows, m.stats, s.callers[c := m.k]))
  {
    CallersKeep(s.callers, s.rows, m.rows);
    CountMove(s.callers, c, m.k);
  }

  lemma RowsKeepInv(s: State, keyOf: KeyOf, l: Label)
    requires Inv(s) && (l.Produce? || l.Prune?) && Next(s, keyOf, l).Some?
    ensures Inv(Next(s, keyOf, l).value)
  {
    var t := Next(s, keyOf, l).value;
    if l.Produce? { InsertRowsOk(s.rows, l.row); } else { PrunedIs(s.rows, l.ids); }
    CallersKeep(s.callers, s.rows, t.rows);
  }

  /** Every step of every caller keeps the invariant. */
  lemma NextKeepsInv(s: State, keyOf: KeyOf, l: Label)
    requires IsKey(keyOf) && Inv(s) && Next(s, keyOf, l).Some?
    ensures Inv(Next(s, keyOf, l).value)
  {
    match l
    case Arrive(c, p, tag, isFresh) => CountNew(s.callers, c, Next(s, keyOf, l).value.callers[c]);
    case Does(c, act) =>
      StepOk(s.callers[c], s.rows, s.stats, keyOf, act);
      StepCounts(s.callers[c], s.rows, s.stats, keyOf, act);
      DoesKeepsInv(s, keyOf, c, Step(s.callers[c], s.rows, s.stats, keyOf, act).value);
    case Produce(row) => RowsKeepInv(s, keyOf, l);
    case Prune(ids) => RowsKeepInv(s, keyOf, l);
  }

  lemma NextKeepsKeyed(s: State, keyOf: KeyOf, l: Label)
    requires Keyed(s, keyOf) && Next(s, keyOf, l).Some?
    ensures Keyed(Next(s, keyOf, l).value, keyOf)
  {
    match l
    case Arrive(c, p, tag, isFresh) =>
    case Does(c, act) => StepKeyed(s.callers[c], s.rows, s.stats, keyOf, act);
    case Produce(row) =>
    case Prune(ids) => PrunedIs(s.rows, ids);
  }

  ghost predicate Reaches(keyOf: KeyOf, ls: seq<Label>, s: State) { IsKey(keyOf) && Exec(keyOf, ls) == Some(s) }

  lemma {:induction false} ExecKeepsInv(keyOf: KeyOf, ls: seq<Label>, s: State)
    requires Reaches(keyOf, ls, s)
    ensures Inv(s) && Keyed(s, keyOf)
  {
    if ls != [] {
      var front := ls[..|ls| - 1];
      var m := Exec(keyOf, front).value;
      ExecKeepsInv(keyOf, front, m);
      NextKeepsInv(m, keyOf, ls[|ls| - 1]);
      NextKeepsKeyed(m, keyOf, ls[|ls| - 1]);
    }
  }

  // ----------------------------------------------------------------- theorems

  /** No key is ever stored twice. */
  lemma OneRowPerKey(keyOf: KeyOf, ls: seq<Label>, s: State)
    requires Reaches(keyOf, ls, s)
    ensures UniqueKeys(s.rows)
  {
    ExecKeepsInv(keyOf, ls, s);
  }

  /** Callers that resolved to the same inputs and repetition are given the same
      row; in particular all callers that do not ask for a fresh response. */
  lemma SameRow(keyOf: KeyOf, ls: seq<Label>, s: State, a: nat, b: nat)
    requires Reaches(keyOf, ls, s) && AtPc(s, a, Returned) && AtPc(s, b, Returned)
    requires SameInputs(s.callers[a].p, s.callers[b].p)
    requires s.callers[a].repetition == s.callers[b].repetition || (!s.callers[a].isFresh && !s.callers[b].isFresh)
    ensures s.callers[a].row == s.callers[b].row && s.callers[a].row.Some? && s.callers[a].row.value in s.rows
  {
    ExecKeepsInv(keyOf, ls, s);
    var x, y := s.callers[a], s.callers[b];
    SameKeySameRow(s.rows, x.row.value, y.row.value);
  }

  /** Two returned callers with the same inputs, neither asking for a fresh response. */
  predicate SameRequest(s: State, a: nat, b: nat) {
    AtPc(s, a, Returned) && AtPc(s, b, Returned) && SameInputs(s.callers[a].p, s.callers[b].p)
    && !s.callers[a].isFresh && !s.callers[b].isFresh
  }

  /** At the key the program computes: no key is stored twice, and callers with
      the same inputs that do not ask for a fresh response are given the same row. */
  lemma OneRowPerHashedKey(sha: string -> string, ls: seq<Label>, s: State)
    requires (forall t :: |sha(t)| == 64) && Exec(HashedKey(sha), ls) == Some(s)
    ensures UniqueKeys(s.rows)
    ensures forall a, b :: SameRequest(s, a, b) ==> s.callers[a].row == s.callers[b].row
  {
    HashedKeyIsKey(sha);
    OneRowPerKey(HashedKey(sha), ls, s);
    forall a, b | SameRequest(s, a, b) ensures s.callers[a].row == s.callers[b].row {
      SameRow(HashedKey(sha), ls, s, a, b);
    }
  }

  /** Every model call is counted once, as a timeout, a failure or a success. */
  lemma CallsAddUp(keyOf: KeyOf, ls: seq<Label>, s: State)
    requires Reaches(keyOf, ls, s)
    ensures s.stats.calls == s.stats.timeouts + s.stats.failures + |Successes(s.callers)| + |CallsInFlight(s.callers)|
    ensures s.stats.cacheHits == |Reusers(s.callers)|
  {
    ExecKeepsInv(keyOf, ls, s);
  }

  /** Every table the callers can reach keeps to the keys FreshMisses relies on. */
  lemma ReachedIsWellKeyed(sha: string -> string, ls: seq<Label>, s: State)
    requires (forall t :: |sha(t)| == 64) && Reaches(HashedKey(sha), ls, s)
    ensures WellKeyed(sha, s.rows)
  {
    ExecKeepsInv(HashedKey(sha), ls, s);
  }

  /** A caller whose insert clashed always finds the row it clashed with. */
  lemma ClashIsResolved(keyOf: KeyOf, ls: seq<Label>, s: State, c: nat)
    requires Reaches(keyOf, ls, s) && AtPc(s, c, Clashed)
    ensures Next(s, keyOf, Does(c, Reread)).Some? && AtPc(Next(s, keyOf, Does(c, Reread)).value, c, Returned)
  {
    ExecKeepsInv(keyOf, ls, s);
    FindHarness(s.rows, s.callers[c].key);
  }

  /** The statements of a caller, one after the other with nobody in between. */
  ghost function Alone(k: Caller, rows: seq<Row>, stats: Stats, keyOf: KeyOf, acts: seq<Act>): Option<Moved>
    decreases |acts|
  {
    if acts == [] then Some(Moved(k, rows, stats)) else
    match Step(k, rows, stats, keyOf, acts[0])
    case None => None
    case Some(m) => Alone(m.k, m.rows, m.stats, keyOf, acts[1..])
  }

  /** The statements of a call that misses. */
  function Miss(answer: Reply, id: string): seq<Act> { [Lookup] + ([Call] + ([GetReply(answer)] + ([Store(id)] + []))) }

  lemma AloneStep(k: Caller, rows: seq<Row>, stats: Stats, keyOf: KeyOf, act: Act, rest: seq<Act>, m: Moved)
    requires Step(k, rows, stats, keyOf, act) == Some(m)
    ensures Alone(k, rows, stats, keyOf, [act] + rest) == Alone(m.k, m.rows, m.stats, keyOf, rest)
  {
    assert ([act] + rest)[0] == act && ([act] + rest)[1..] == rest;
  }

  /** Undisturbed, a call that misses does what GenerateResponse does. */
  lemma AloneMisses(k: Caller, rows: seq<Row>, stats: Stats, keyOf: KeyOf, answer: Reply, id: string)
    requires k.pc == AtLookup && Find(rows, k.key).None?
    ensures var row := RowFor(id, k.key, k.p, k.repetition, k.tag, answer);
      Alone(k, rows, stats, keyOf, Miss(answer, id)) == Some(Moved(
        k.(pc := Returned, reply := Some(answer), row := Some(row)), rows + [row],
        Counted(stats.(calls := stats.calls + 1), answer)))
  {
    var row, s1 := RowFor(id, k.key, k.p, k.repetition, k.tag, answer), stats.(calls := stats.calls + 1);
    var k1, k2 := k.(pc := Missed), k.(pc := Waiting);
    var k3 := k.(pc := Answered, reply := Some(answer));
    var k4 := k.(pc := Returned, reply := Some(answer), row := Some(row));
    AloneStep(k, rows, stats, keyOf, Lookup, [Call] + ([GetReply(answer)] + ([Store(id)] + [])),
              Moved(k1, rows, stats));
    AloneStep(k1, rows, stats, keyOf, Call, [GetReply(answer)] + ([Store(id)] + []), Moved(k2, rows, s1));
    AloneStep(k2, rows, s1, keyOf, GetReply(answer), [Store(id)] + [], Moved(k3, rows, Counted(s1, answer)));
    AloneStep(k3, rows, Counted(s1, answer), keyOf, Store(id), [], Moved(k4, rows + [row], Counted(s1, answer)));
  }

  /** Undisturbed, the statements do what GenerateResponse does in one call. */
  lemma AloneIsGenerateResponse(k: Caller, rows: seq<Row>, stats: Stats, keyOf: KeyOf, answer: Reply, id: string)
    requires k.pc == Arrived
    ensures var n := if k.isFresh then MaxRepetition(rows, k.p) + 1 else 0;
      var found := Find(rows, keyOf(k.p, n));
      var k1 := k.(pc := Returned, repetition := n, key := keyOf(k.p, n));
      var row := RowFor(id, k1.key, k.p, n, k.tag, answer);
      if found.Some? then
        Alone(k, rows, stats, keyOf, [Resolve] + ([Lookup] + []))
        == Some(Moved(k1.(row := found, reused := true), rows, Hit(stats)))
      else
        Alone(k, rows, stats, keyOf, [Resolve] + Miss(answer, id)) ==
          Some(Moved(k1.(reply := Some(answer), row := Some(row)), rows + [row],
                     Counted(stats.(calls := stats.calls + 1), answer)))
  {
    var n := if k.isFresh then MaxRepetition(rows, k.p) + 1 else 0;
    var k1 := k.(pc := AtLookup, repetition := n, key := keyOf(k.p, n));
    var found := Find(rows, k1.key);
    if found.Some? {
      AloneStep(k, rows, stats, keyOf, Resolve, [Lookup] + [], Moved(k1, rows, stats));
      AloneStep(k1, rows, stats, keyOf, Lookup, [],
                Moved(k1.(pc := Returned, row := found, reused := true), rows, Hit(stats)));
    } else {
      AloneStep(k, rows, stats, keyOf, Resolve, Miss(answer, id), Moved(k1, rows, stats));
      AloneMisses(k1, rows, stats, keyOf, answer, id);
    }
  }

  lemma Extend(keyOf: KeyOf, ls: seq<Label>, s: State, l: Label) returns (ls': seq<Label>, t: State)
    requires Reaches(keyOf, ls, s) && Next(s, keyOf, l).Some?
    ensures Reaches(keyOf, ls', t) && Some(t) == Next(s, keyOf, l)
  {
    ls', t := ls + [l], Next(s, keyOf, l).value;
    assert ls'[..|ls|] == ls;
  }

  const NO_TAG := Tag("", "")

  const LATE := Timeout(0, "")

  /** Two fresh callers that have both resolved before either has stored anything. */
  lemma BothResolve(keyOf: KeyOf, p: Prefix, key: string) returns (ls: seq<Label>, s: State)
    requires IsKey(keyOf) && key == keyOf(p, 0)
    ensures Reaches(keyOf, ls, s)
    ensures var k := Caller(p, NO_TAG, true, 0, key, AtLookup, None, None, false);
      s == State([], Stats(0, 0, 0, 0), map[1 := k, 2 := k])
  {
    ls, s := [], INIT;
    ls, s := Extend(keyOf, ls, s, Arrive(1, p, NO_TAG, true));
    ls, s := Extend(keyOf, ls, s, Arrive(2, p, NO_TAG, true));
    ls, s := Extend(keyOf, ls, s, Does(1, Resolve));
    ls, s := Extend(keyOf, ls, s, Does(2, Resolve));
    var k := Caller(p, NO_TAG, true, 0, key, AtLookup, None, None, false);
    assert s.callers == map[1 := k, 2 := k];
  }

  lemma FirstCalls(keyOf: KeyOf, ls0: seq<Label>, s0: State, k: Caller) returns (ls: seq<Label>, s: State)
    requires Reaches(keyOf, ls0, s0) && s0 == State([], Stats(0, 0, 0, 0), map[1 := k, 2 := k])
    requires k.pc == AtLookup && k.reply.None?
    ensures Reaches(keyOf, ls, s)
    ensures s == State([], Stats(1, 0, 0, 0), map[1 := k.(pc := Waiting), 2 := k])
  {
    ls, s := Extend(keyOf, ls0, s0, Does(1, Lookup));
    assert s.callers[1] == k.(pc := Missed);
    ls, s := Extend(keyOf, ls, s, Does(1, Call));
    assert s.callers == map[1 := k.(pc := Waiting), 2 := k];
  }

  lemma FirstStores(keyOf: KeyOf, ls0: seq<Label>, s0: State, k: Caller) returns (ls: seq<Label>, s: State)
    requires Reaches(keyOf, ls0, s0) && s0 == State([], Stats(1, 0, 0, 0), map[1 := k.(pc := Waiting), 2 := k])
    ensures Reaches(keyOf, ls, s) && 2 in s.callers && s.callers[2] == k && s.stats == Stats(1, 1, 0, 0)
    ensures s.rows == [RowFor("r", k.key, k.p, k.repetition, k.tag, LATE)]
  {
    ls, s := Extend(keyOf, ls0, s0, Does(1, GetReply(LATE)));
    assert s.callers[1] == k.(pc := Answered, reply := Some(LATE));
    ls, s := Extend(keyOf, ls, s, Does(1, Store("r")));
  }

  /** Two fresh requests at once can resolve to the same repetition, and then
      the second is given the first one's row without a model call. */
  lemma RacingFreshCanHit(keyOf: KeyOf, p: Prefix) returns (ls: seq<Label>, s: State)
    requires IsKey(keyOf)
    ensures Reaches(keyOf, ls, s) && AtPc(s, 2, Returned) && s.callers[2].isFresh && s.callers[2].reused
    ensures s.stats == Stats(1, 1, 0, 1)
  {
    var k := Caller(p, NO_TAG, true, 0, keyOf(p, 0), AtLookup, None, None, false);
    ls, s := BothResolve(keyOf, p, k.key);
    ls, s := FirstCalls(keyOf, ls, s, k);
    ls, s := FirstStores(keyOf, ls, s, k);
    assert s.rows[0].cacheKey == k.key;
    ls, s := Extend(keyOf, ls, s, Does(2, Lookup));
  }
}
