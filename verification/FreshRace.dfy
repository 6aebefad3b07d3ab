/** Which of several racing callers is given a row somebody else has stored. */
module FreshRace {
  import opened Text
  import opened CacheKey
  import opened ResponseCache
  import opened CacheRace

  // ------------------------------------------------------------------ owners

  /** The caller has returned the row it stored itself. */
  predicate Owner(k: Caller) { k.pc == Returned && !k.reused }

  /** The caller stored the row under this key. */
  predicate Owns(callers: map<nat, Caller>, c: nat, key: string) {
    c in callers && Owner(callers[c]) && callers[c].key == key
  }

  ghost predicate Owned(callers: map<nat, Caller>, key: string) { exists c :: Owns(callers, c, key) }

  /** The caller's row is filed under its inputs and records the answer it got. */
  ghost predicate OwnRow(k: Caller) {
    k.row.Some? && k.row.value.prefix == k.p && k.row.value.repetition == k.repetition && k.row.value.tag == k.tag
    && k.reply.Some? && Records(k.row.value, k.reply.value)
  }

  /** Every stored harness row has exactly one owner and is the owner's own. */
  ghost predicate OwnersOk(rows: seq<Row>, callers: map<nat, Caller>) {
    (forall r :: r in rows && r.harness ==> Owned(callers, r.cacheKey))
    && (forall c, d, key :: Owns(callers, c, key) && Owns(callers, d, key) ==> c == d)
    && (forall c :: c in callers && Owner(callers[c]) ==> OwnRow(callers[c]))
  }

  /** The step in which a caller stores a row under a key. */
  predicate Stores(s: State, l: Label, c: nat, key: string) {
    l.Does? && l.c == c && l.act.Store? && AtPc(s, c, Answered) && s.callers[c].key == key && Find(s.rows, key).None?
  }

  /** A caller's statement makes it an owner exactly if it stores, under the key it
      has, a row of its own. */
  lemma StepOwns(k: Caller, rows: seq<Row>, stats: Stats, keyOf: KeyOf, act: Act)
    requires CallerOk(k, rows) && Step(k, rows, stats, keyOf, act).Some?
    ensures var m := Step(k, rows, stats, keyOf, act).value;
      k.pc != Returned
      && (Owner(m.k) <==> act.Store? && k.pc == Answered && Find(rows, k.key).None?)
      && (Owner(m.k) ==> m.k.key == k.key && OwnRow(m.k))
  {
    if act.Store? && k.reply.Some? { RowRecords(act.id, k.key, k.p, k.repetition, k.tag, k.reply.value); }
  }

  lemma OwnerStep(s: State, keyOf: KeyOf, l: Label, c: nat, key: string)
    requires Inv(s) && Next(s, keyOf, l).Some?
    ensures Owns(Next(s, keyOf, l).value.callers, c, key) <==> Owns(s.callers, c, key) || Stores(s, l, c, key)
  {
    if l.Does? { StepOwns(s.callers[l.c], s.rows, s.stats, keyOf, l.act); }
  }

  /** What an owner owns is stored. */
  lemma OwnedIsStored(s: State, c: nat, key: string)
    requires Inv(s) && Owns(s.callers, c, key)
    ensures exists r :: r in s.rows && r.harness && r.cacheKey == key
  {
    assert CallerOk(s.callers[c], s.rows);
  }

  lemma OwnersStay(callers: map<nat, Caller>, callers': map<nat, Caller>, key: string)
    requires Owned(callers, key) && forall c :: Owns(callers, c, key) ==> Owns(callers', c, key)
    ensures Owned(callers', key)
  {
    var c :| Owns(callers, c, key);
    assert Owns(callers', c, key);
  }

  lemma StepRows(k: Caller, rows: seq<Row>, stats: Stats, keyOf: KeyOf, act: Act, r: Row)
    requires Step(k, rows, stats, keyOf, act).Some? && r in Step(k, rows, stats, keyOf, act).value.rows
    ensures r in rows || (act.Store? && k.pc == Answered && r.cacheKey == k.key && Find(rows, k.key).None?)
  {
  }

  /** Only the harness row that a step stores is new. */
  lemma NewRow(s: State, keyOf: KeyOf, l: Label, r: Row)
    requires Next(s, keyOf, l).Some? && r in Next(s, keyOf, l).value.rows && r.harness
    ensures r in s.rows || (l.Does? && Stores(s, l, l.c, r.cacheKey))
  {
    if l.Prune? { PrunedIs(s.rows, l.ids); }
    if l.Does? { StepRows(s.callers[l.c], s.rows, s.stats, keyOf, l.act, r); }
  }

  lemma EveryRowOwned(s: State, keyOf: KeyOf, l: Label)
    requires Inv(s) && OwnersOk(s.rows, s.callers) && Next(s, keyOf, l).Some?
    ensures var t := Next(s, keyOf, l).value;
      forall r :: r in t.rows && r.harness ==> Owned(t.callers, r.cacheKey)
  {
    var t := Next(s, keyOf, l).value;
    forall r | r in t.rows && r.harness ensures Owned(t.callers, r.cacheKey) {
      forall c
        ensures Owns(t.callers, c, r.cacheKey) <==> Owns(s.callers, c, r.cacheKey) || Stores(s, l, c, r.cacheKey)
      {
        OwnerStep(s, keyOf, l, c, r.cacheKey);
      }
      NewRow(s, keyOf, l, r);
      if r in s.rows { OwnersStay(s.callers, t.callers, r.cacheKey); } else { assert Owns(t.callers, l.c, r.cacheKey); }
    }
  }

  lemma OneOwner(s: State, keyOf: KeyOf, l: Label, c: nat, d: nat, key: string)
    requires Inv(s) && OwnersOk(s.rows, s.callers) && Next(s, keyOf, l).Some?
    requires Owns(Next(s, keyOf, l).value.callers, c, key) && Owns(Next(s, keyOf, l).value.callers, d, key)
    ensures c == d
  {
    OwnerStep(s, keyOf, l, c, key);
    OwnerStep(s, keyOf, l, d, key);
    FindIs(s.rows, key);
    if Owns(s.callers, c, key) { OwnedIsStored(s, c, key); }
    if Owns(s.callers, d, key) { OwnedIsStored(s, d, key); }
  }

  lemma OwnColumns(s: State, keyOf: KeyOf, l: Label, c: nat)
    requires Inv(s) && OwnersOk(s.rows, s.callers) && Next(s, keyOf, l).Some?
    requires c in Next(s, keyOf, l).value.callers && Owner(Next(s, keyOf, l).value.callers[c])
    ensures OwnRow(Next(s, keyOf, l).value.callers[c])
  {
    if l.Does? { StepOwns(s.callers[l.c], s.rows, s.stats, keyOf, l.act); }
  }

  lemma OwnersOkStep(s: State, keyOf: KeyOf, l: Label)
    requires Inv(s) && OwnersOk(s.rows, s.callers) && Next(s, keyOf, l).Some?
    ensures OwnersOk(Next(s, keyOf, l).value.rows, Next(s, keyOf, l).value.callers)
  {
    var t := Next(s, keyOf, l).value;
    EveryRowOwned(s, keyOf, l);
    forall c | c in t.callers && Owner(t.callers[c]) ensures OwnRow(t.callers[c]) { OwnColumns(s, keyOf, l, c); }
    forall c, d, key | Owns(t.callers, c, key) && Owns(t.callers, d, key) ensures c == d {
      OneOwner(s, keyOf, l, c, d, key);
    }
  }

  lemma {:induction false} ExecOwners(keyOf: KeyOf, ls: seq<Label>, s: State)
    requires Reaches(keyOf, ls, s)
    ensures OwnersOk(s.rows, s.callers)
  {
    if ls != [] {
      var front := ls[..|ls| - 1];
      var m := Exec(keyOf, front).value;
      ExecOwners(keyOf, front, m);
      ExecKeepsInv(keyOf, front, m);
      OwnersOkStep(m, keyOf, ls[|ls| - 1]);
    }
  }

  /** In every reachable state each stored harness row has exactly one caller that
      returned it without reusing it. */
  lemma OneOwnerPerRow(keyOf: KeyOf, ls: seq<Label>, s: State, r: Row) returns (c: nat)
    requires Reaches(keyOf, ls, s) && r in s.rows && r.harness
    ensures Owns(s.callers, c, r.cacheKey) && s.callers[c].row == Some(r)
    ensures forall d :: Owns(s.callers, d, r.cacheKey) ==> d == c
  {
    ExecOwners(keyOf, ls, s);
    ExecKeepsInv(keyOf, ls, s);
    assert Owned(s.callers, r.cacheKey);
    c :| Owns(s.callers, c, r.cacheKey);
    assert CallerOk(s.callers[c], s.rows);
    SameKeySameRow(s.rows, s.callers[c].row.value, r);
  }

  /** A returned caller was given somebody else's row exactly if another caller
      returned the row it stored under the same key. */
  lemma ReusedExactlyIf(keyOf: KeyOf, ls: seq<Label>, s: State, c: nat)
    requires Reaches(keyOf, ls, s) && AtPc(s, c, Returned)
    ensures s.callers[c].reused <==> exists d :: d != c && Owns(s.callers, d, s.callers[c].key)
  {
    ExecOwners(keyOf, ls, s);
    ExecKeepsInv(keyOf, ls, s);
    var key := s.callers[c].key;
    assert CallerOk(s.callers[c], s.rows);
    if s.callers[c].reused {
      assert Owned(s.callers, s.callers[c].row.value.cacheKey);
      var d :| Owns(s.callers, d, key);
      assert d != c && Owns(s.callers, d, key);
    } else {
      assert Owns(s.callers, c, key);
    }
  }

  // ---------------------------------------------------------- along a run

  lemma {:induction false} ExecPrefix(keyOf: KeyOf, ls: seq<Label>, k: nat)
    requires Exec(keyOf, ls).Some? && k <= |ls|
    ensures Exec(keyOf, ls[..k]).Some?
    ensures k < |ls| ==> Exec(keyOf, ls[..k + 1]) == Next(Exec(keyOf, ls[..k]).value, keyOf, ls[k])
  {
    if k == |ls| {
      assert ls[..k] == ls;
    } else if k == |ls| - 1 {
      assert ls[..k + 1] == ls;
    } else {
      var front := ls[..|ls| - 1];
      ExecPrefix(keyOf, front, k);
      assert front[..k] == ls[..k] && front[..k + 1] == ls[..k + 1];
    }
  }

  /** A caller keeps its request, what it resolved, and what it returned. */
  predicate KeepsOn(k: Caller, k': Caller) {
    k'.p == k.p && k'.isFresh == k.isFresh
    && (k.pc != Arrived ==> k'.pc != Arrived && k'.key == k.key && k'.repetition == k.repetition)
    && (k.pc in {Returned, Refused} ==> k' == k)
  }

  /** What no later step takes back: stored harness rows and what callers keep. */
  ghost predicate Extends(s: State, t: State) {
    (forall r :: r in s.rows && r.harness ==> r in t.rows)
    && (forall c :: c in s.callers ==> c in t.callers && KeepsOn(s.callers[c], t.callers[c]))
  }

  lemma StepKeepsOn(k: Caller, rows: seq<Row>, stats: Stats, keyOf: KeyOf, act: Act)
    requires Step(k, rows, stats, keyOf, act).Some?
    ensures KeepsOn(k, Step(k, rows, stats, keyOf, act).value.k)
    ensures forall r :: r in rows ==> r in Step(k, rows, stats, keyOf, act).value.rows
  {
  }

  lemma ExtendsStep(s: State, keyOf: KeyOf, l: Label)
    requires Next(s, keyOf, l).Some?
    ensures Extends(s, Next(s, keyOf, l).value)
  {
    if l.Prune? { PrunedIs(s.rows, l.ids); }
    if l.Does? { StepKeepsOn(s.callers[l.c], s.rows, s.stats, keyOf, l.act); }
  }

  lemma ExtendsTransitive(s: State, t: State, u: State)
    requires Extends(s, t) && Extends(t, u)
    ensures Extends(s, u)
  {
  }

  lemma {:induction false} ExecExtends(keyOf: KeyOf, ls: seq<Label>, k: nat, s: State, t: State)
    requires k <= |ls| && Exec(keyOf, ls[..k]) == Some(s) && Exec(keyOf, ls) == Some(t)
    ensures Extends(s, t)
  {
    if k == |ls| {
      assert ls[..k] == ls;
    } else {
      var front := ls[..|ls| - 1];
      var m := Exec(keyOf, front).value;
      assert front[..k] == ls[..k];
      ExecExtends(keyOf, front, k, s, m);
      ExtendsStep(m, keyOf, ls[|ls| - 1]);
      ExtendsTransitive(s, m, t);
    }
  }

  /** Step i of the run is the one in which d stores a row under the key. */
  ghost predicate StoresAt(keyOf: KeyOf, ls: seq<Label>, i: nat, d: nat, key: string) {
    i < |ls| && Exec(keyOf, ls[..i]).Some? && Stores(Exec(keyOf, ls[..i]).value, ls[i], d, key)
  }

  lemma TakeAll(ls: seq<Label>)
    ensures ls[..|ls|] == ls
  {
  }

  /** The last step of a run. */
  lemma LastStep(keyOf: KeyOf, ls: seq<Label>, t: State) returns (m: State)
    requires Reaches(keyOf, ls, t) && ls != []
    ensures Reaches(keyOf, ls[..|ls| - 1], m) && Inv(m) && Next(m, keyOf, ls[|ls| - 1]) == Some(t)
  {
    m := Exec(keyOf, ls[..|ls| - 1]).value;
    ExecKeepsInv(keyOf, ls[..|ls| - 1], m);
  }

  lemma StoresAtFront(keyOf: KeyOf, ls: seq<Label>, i: nat, d: nat, key: string)
    requires ls != [] && StoresAt(keyOf, ls[..|ls| - 1], i, d, key)
    ensures StoresAt(keyOf, ls, i, d, key)
  {
    assert ls[..|ls| - 1][..i] == ls[..i];
  }

  /** An owner stored its row at some step; if the key was free at step k, after it. */
  lemma {:induction false} OwnerStored(keyOf: KeyOf, ls: seq<Label>, k: nat, s: State, t: State, d: nat, key: string)
    returns (i: nat)
    requires k <= |ls| && Reaches(keyOf, ls[..k], s) && Reaches(keyOf, ls, t)
    requires !Owns(s.callers, d, key) && Owns(t.callers, d, key)
    ensures k <= i && StoresAt(keyOf, ls, i, d, key)
  {
    TakeAll(ls);
    var front := ls[..|ls| - 1];
    var m := LastStep(keyOf, ls, t);
    OwnerStep(m, keyOf, ls[|ls| - 1], d, key);
    if Stores(m, ls[|ls| - 1], d, key) {
      i := |ls| - 1;
    } else {
      assert front[..k] == ls[..k];
      i := OwnerStored(keyOf, front, k, s, m, d, key);
      StoresAtFront(keyOf, ls, i, d, key);
    }
  }

  /** Whoever stored a row owns it from then on. */
  lemma StoredIsOwned(keyOf: KeyOf, ls: seq<Label>, t: State, i: nat, d: nat, key: string)
    requires Reaches(keyOf, ls, t) && StoresAt(keyOf, ls, i, d, key)
    ensures Owns(t.callers, d, key)
  {
    var m := Exec(keyOf, ls[..i]).value;
    ExecPrefix(keyOf, ls, i);
    ExecKeepsInv(keyOf, ls[..i], m);
    OwnerStep(m, keyOf, ls[i], d, key);
    ExecExtends(keyOf, ls, i + 1, Exec(keyOf, ls[..i + 1]).value, t);
  }

  // --------------------------------------------------------- fresh callers

  /** Step r of the run is the one in which c resolves its repetition. */
  ghost predicate ResolvesAt(keyOf: KeyOf, ls: seq<Label>, r: nat, m: State, c: nat) {
    r < |ls| && ls[r] == Does(c, Resolve) && Exec(keyOf, ls[..r]) == Some(m)
  }

  /** What a fresh caller has resolved to by the time it returns. */
  lemma ResolvedTo(keyOf: KeyOf, ls: seq<Label>, s: State, c: nat, r: nat, m: State)
    requires Reaches(keyOf, ls, s) && AtPc(s, c, Returned) && s.callers[c].isFresh && ResolvesAt(keyOf, ls, r, m, c)
    ensures var k := s.callers[c];
      k.repetition == MaxRepetition(m.rows, k.p) + 1 && k.key == keyOf(k.p, k.repetition)
      && Extends(m, s) && AtPc(m, c, Arrived)
  {
    ExecPrefix(keyOf, ls, r);
    ExecExtends(keyOf, ls, r, m, s);
    ExecPrefix(keyOf, ls, r + 1);
    var t := Exec(keyOf, ls[..r + 1]).value;
    ExecExtends(keyOf, ls, r + 1, t, s);
    ExecKeepsInv(keyOf, ls, s);
  }

  /** A row under c's key was stored before c resolved. */
  ghost predicate StoredBefore(m: State, key: string) { exists r :: r in m.rows && r.harness && r.cacheKey == key }

  /** A fresh caller is given somebody else's row exactly if one was stored before
      it resolved, or another caller stored one under its key afterwards. */
  lemma FreshReusedByKey(keyOf: KeyOf, ls: seq<Label>, s: State, c: nat, r: nat, m: State)
    requires Reaches(keyOf, ls, s) && AtPc(s, c, Returned) && s.callers[c].isFresh && ResolvesAt(keyOf, ls, r, m, c)
    ensures s.callers[c].reused <==>
      StoredBefore(m, s.callers[c].key)
      || exists i: nat, d: nat :: r < i && d != c && StoresAt(keyOf, ls, i, d, s.callers[c].key)
  {
    var key := s.callers[c].key;
    ResolvedTo(keyOf, ls, s, c, r, m);
    ReusedExactlyIf(keyOf, ls, s, c);
    ExecOwners(keyOf, ls[..r], m);
    ExecKeepsInv(keyOf, ls[..r], m);
    if StoredBefore(m, key) {
      var row :| row in m.rows && row.harness && row.cacheKey == key;
      var d :| Owns(m.callers, d, row.cacheKey);
      assert d != c && Owns(s.callers, d, key);
    } else {
      if s.callers[c].reused {
        var d :| d != c && Owns(s.callers, d, key);
        if Owns(m.callers, d, key) { OwnedIsStored(m, d, key); }
        var i := OwnerStored(keyOf, ls, r, m, s, d, key);
        assert i != r;
      }
      forall i: nat, d: nat | r < i && d != c && StoresAt(keyOf, ls, i, d, key) ensures s.callers[c].reused {
        StoredIsOwned(keyOf, ls, s, i, d, key);
      }
    }
  }

  // ------------------------------------------------- in the callers' own terms

  /** A run of the callers with keys hashed by sha. */
  ghost predicate HashedRun(sha: string -> string, ls: seq<Label>, s: State) {
    (forall t :: |sha(t)| == 64) && Reaches(HashedKey(sha), ls, s)
  }

  /** Step i of the run stores a row for another caller with c's inputs and repetition. */
  ghost predicate OtherStoresAt(sha: string -> string, ls: seq<Label>, i: nat, d: nat, c: nat, k: Caller) {
    i < |ls| && d != c && Exec(HashedKey(sha), ls[..i]).Some?
    && var m := Exec(HashedKey(sha), ls[..i]).value;
       d in m.callers && SameInputs(m.callers[d].p, k.p) && m.callers[d].repetition == k.repetition
       && Stores(m, ls[i], d, m.callers[d].key)
  }

  /** Absent collisions a caller is given a row that was generated from its own
      inputs, at its own repetition. */
  lemma RowIsOwnInputs(sha: string -> string, ls: seq<Label>, s: State, c: nat)
    requires HashedRun(sha, ls, s) && AtPc(s, c, Returned)
    requires NoCollisions(sha, s.rows, s.callers[c].p, s.callers[c].repetition)
    ensures var k := s.callers[c];
      k.row.Some? && SameInputs(k.row.value.prefix, k.p) && k.row.value.repetition == k.repetition
  {
    ExecKeepsInv(HashedKey(sha), ls, s);
    var k := s.callers[c];
    assert CallerOk(k, s.rows) && CallerKeyed(k, HashedKey(sha));
    KeysAgree(sha, k.row.value.prefix, k.row.value.repetition, k.p, k.repetition);
  }

  lemma StepGets(k: Caller, rows: seq<Row>, stats: Stats, keyOf: KeyOf, act: Act)
    requires Step(k, rows, stats, keyOf, act).Some?
    ensures var k' := Step(k, rows, stats, keyOf, act).value.k;
      k'.reply == k.reply || (act.GetReply? && k'.reply == Some(act.answer))
  {
  }

  /** A caller's reply is an answer it got in the run. */
  lemma {:induction false} ReplyWasGot(keyOf: KeyOf, ls: seq<Label>, s: State, c: nat)
    requires Reaches(keyOf, ls, s) && c in s.callers && s.callers[c].reply.Some?
    ensures Does(c, GetReply(s.callers[c].reply.value)) in ls
  {
    if ls != [] {
      var l := ls[|ls| - 1];
      var m := LastStep(keyOf, ls, s);
      if l.Does? && l.c == c { StepGets(m.callers[c], m.rows, m.stats, keyOf, l.act); }
      if c in m.callers && m.callers[c].reply == s.callers[c].reply { ReplyWasGot(keyOf, ls[..|ls| - 1], m, c); }
    }
  }

  /** Absent collisions the row a caller is given records an answer that was given, in
      this run, to a caller with the same inputs and repetition, the row's owner. */
  lemma RowIsOwnersAnswer(sha: string -> string, ls: seq<Label>, s: State, c: nat) returns (d: nat, answer: Reply)
    requires HashedRun(sha, ls, s) && AtPc(s, c, Returned)
    requires NoCollisions(sha, s.rows, s.callers[c].p, s.callers[c].repetition)
    ensures var k := s.callers[c];
      Owns(s.callers, d, k.key) && SameInputs(s.callers[d].p, k.p) && s.callers[d].repetition == k.repetition
      && Does(d, GetReply(answer)) in ls && k.row.Some? && Records(k.row.value, answer)
  {
    var keyOf, k := HashedKey(sha), s.callers[c];
    ExecKeepsInv(keyOf, ls, s);
    ExecOwners(keyOf, ls, s);
    RowIsOwnInputs(sha, ls, s, c);
    assert CallerOk(k, s.rows);
    d := OneOwnerPerRow(keyOf, ls, s, k.row.value);
    assert OwnRow(s.callers[d]);
    answer := s.callers[d].reply.value;
    ReplyWasGot(keyOf, ls, s, d);
  }

  /** A store under c's key is one for c's inputs and repetition. */
  lemma StoreIsForInputs(sha: string -> string, ls: seq<Label>, s: State, c: nat, i: nat, d: nat)
    requires HashedRun(sha, ls, s) && AtPc(s, c, Returned) && d != c
    requires NoCollisions(sha, s.rows, s.callers[c].p, s.callers[c].repetition)
    requires StoresAt(HashedKey(sha), ls, i, d, s.callers[c].key)
    ensures OtherStoresAt(sha, ls, i, d, c, s.callers[c])
  {
    var keyOf, k := HashedKey(sha), s.callers[c];
    var m := Exec(keyOf, ls[..i]).value;
    StoredIsOwned(keyOf, ls, s, i, d, k.key);
    ExecExtends(keyOf, ls, i, m, s);
    ExecOwners(keyOf, ls, s);
    ExecKeepsInv(keyOf, ls, s);
    assert CallerOk(s.callers[d], s.rows) && CallerOk(k, s.rows);
    SameKeySameRow(s.rows, s.callers[d].row.value, k.row.value);
    RowIsOwnInputs(sha, ls, s, c);
  }

  lemma InputsGiveKey(sha: string -> string, ls: seq<Label>, s: State, c: nat, i: nat, d: nat)
    requires HashedRun(sha, ls, s) && AtPc(s, c, Returned) && OtherStoresAt(sha, ls, i, d, c, s.callers[c])
    ensures StoresAt(HashedKey(sha), ls, i, d, s.callers[c].key)
  {
    var keyOf, k := HashedKey(sha), s.callers[c];
    var m := Exec(keyOf, ls[..i]).value;
    ExecKeepsInv(keyOf, ls[..i], m);
    ExecKeepsInv(keyOf, ls, s);
    assert CallerKeyed(m.callers[d], keyOf) && CallerKeyed(k, keyOf);
    assert keyOf(m.callers[d].p, k.repetition) == keyOf(k.p, k.repetition);
  }

  /** What a fresh caller finds when it resolves is shadowed or missing. */
  lemma StoredBeforeIsShadow(sha: string -> string, ls: seq<Label>, s: State, c: nat, r: nat, m: State)
    requires HashedRun(sha, ls, s) && AtPc(s, c, Returned) && s.callers[c].isFresh
    requires ResolvesAt(HashedKey(sha), ls, r, m, c)
    requires NoCollisions(sha, s.rows, s.callers[c].p, s.callers[c].repetition)
    ensures StoredBefore(m, s.callers[c].key) <==> Shadowed(m.rows, s.callers[c].p)
  {
    var keyOf, k := HashedKey(sha), s.callers[c];
    ResolvedTo(keyOf, ls, s, c, r, m);
    ReachedIsWellKeyed(sha, ls[..r], m);
    ExecKeepsInv(keyOf, ls[..r], m);
    ExecKeepsInv(keyOf, ls, s);
    assert |k.key| == 64 by { assert CallerOk(k, s.rows); }
    FindHarness(m.rows, k.key);
    FreshMissesExactlyIf(sha, m.rows, k.p);
  }

  /** Among any racing callers a fresh one is given somebody else's row exactly if,
      when it resolved its repetition, a row spelling the missing bundle the other
      way had that repetition, or afterwards another caller with the same inputs
      and repetition stored first. */
  lemma RacingFreshReusesExactlyIf(sha: string -> string, ls: seq<Label>, s: State, c: nat, r: nat, m: State)
    requires HashedRun(sha, ls, s) && AtPc(s, c, Returned) && s.callers[c].isFresh
    requires ResolvesAt(HashedKey(sha), ls, r, m, c)
    requires NoCollisions(sha, s.rows, s.callers[c].p, s.callers[c].repetition)
    ensures s.callers[c].reused <==>
      Shadowed(m.rows, s.callers[c].p)
      || exists i: nat, d: nat :: r < i && OtherStoresAt(sha, ls, i, d, c, s.callers[c])
  {
    var keyOf, key := HashedKey(sha), s.callers[c].key;
    FreshReusedByKey(keyOf, ls, s, c, r, m);
    StoredBeforeIsShadow(sha, ls, s, c, r, m);
    forall i: nat, d: nat | d != c
      ensures StoresAt(keyOf, ls, i, d, key) <==> OtherStoresAt(sha, ls, i, d, c, s.callers[c])
    {
      if StoresAt(keyOf, ls, i, d, key) { StoreIsForInputs(sha, ls, s, c, i, d); }
      if OtherStoresAt(sha, ls, i, d, c, s.callers[c]) { InputsGiveKey(sha, ls, s, c, i, d); }
    }
  }

  /** No other caller with these inputs is under way. */
  predicate Unrivalled(callers: map<nat, Caller>, c: nat, p: Prefix) {
    forall d :: d in callers && d != c && SameInputs(callers[d].p, p) ==> callers[d].pc in {Returned, Refused}
  }

  /** From step r on no caller with these inputs arrives. */
  predicate NoneArrives(ls: seq<Label>, r: nat, p: Prefix) {
    forall i :: r <= i < |ls| && ls[i].Arrive? ==> !SameInputs(ls[i].p, p)
  }

  lemma {:induction false} StaysUnrivalled(keyOf: KeyOf, ls: seq<Label>, r: nat, m: State, t: State, c: nat, p: Prefix)
    requires r <= |ls| && Reaches(keyOf, ls[..r], m) && Reaches(keyOf, ls, t)
    requires Unrivalled(m.callers, c, p) && NoneArrives(ls, r, p)
    ensures Unrivalled(t.callers, c, p)
  {
    TakeAll(ls);
    if r < |ls| {
      var front, l := ls[..|ls| - 1], ls[|ls| - 1];
      var n := LastStep(keyOf, ls, t);
      assert front[..r] == ls[..r];
      assert forall i :: r <= i < |front| ==> front[i] == ls[i];
      StaysUnrivalled(keyOf, front, r, m, n, c, p);
      StepStaysUnrivalled(keyOf, n, l, c, p);
    }
  }

  lemma StepStaysUnrivalled(keyOf: KeyOf, n: State, l: Label, c: nat, p: Prefix)
    requires Unrivalled(n.callers, c, p) && Next(n, keyOf, l).Some? && (l.Arrive? ==> !SameInputs(l.p, p))
    ensures Unrivalled(Next(n, keyOf, l).value.callers, c, p)
  {
    ExtendsStep(n, keyOf, l);
  }

  /** Where bundle hashes are never empty, a fresh caller misses if no other caller
      with its inputs is under way when it resolves and none arrives meanwhile. */
  lemma LoneFreshMisses(sha: string -> string, ls: seq<Label>, s: State, c: nat, r: nat, m: State)
    requires HashedRun(sha, ls, s) && AtPc(s, c, Returned) && s.callers[c].isFresh
    requires ResolvesAt(HashedKey(sha), ls, r, m, c)
    requires NoCollisions(sha, s.rows, s.callers[c].p, s.callers[c].repetition)
    requires NamedBundle(s.callers[c].p) && forall row :: row in m.rows && row.harness ==> NamedBundle(row.prefix)
    requires Unrivalled(m.callers, c, s.callers[c].p) && NoneArrives(ls, r, s.callers[c].p)
    ensures !s.callers[c].reused
  {
    RacingFreshReusesExactlyIf(sha, ls, s, c, r, m);
    forall i: nat, d: nat | r < i ensures !OtherStoresAt(sha, ls, i, d, c, s.callers[c]) {
      if i < |ls| && Exec(HashedKey(sha), ls[..i]).Some? {
        assert ls[..i][..r] == ls[..r];
        StaysUnrivalled(HashedKey(sha), ls[..i], r, m, Exec(HashedKey(sha), ls[..i]).value, c, s.callers[c].p);
      }
    }
  }
}
