/** The strict-mode normaliser of output schemas and the test that a strict
    deployment applies to them.

    A decoded schema is a tree, so the in-place rewrite is modelled on values;
    Go enumerates a map in any order, so the result is described by a relation. */
module StrictSchema {
  import opened Json

  const AP := "additionalProperties"
  const REQ := "required"
  const PROPS := "properties"

  type Node = map<string, Json>

  // ---------------------------------------------------------- reading a node

  /** An object node: declared by type, or implied by properties or required. */
  predicate Qualifies(n: Node) {
    ("type" in n && n["type"] == Str("object")) || PROPS in n || REQ in n
  }

  /** A node whose required list gets merged with its property names. */
  predicate Merges(n: Node) { PROPS in n && n[PROPS].Object? }

  function Properties(n: Node): Node
    requires Merges(n)
  {
    n[PROPS].fields
  }

  /** The string entries of an array, in order. */
  function Entries(items: seq<Json>): seq<string> {
    if items == [] then []
    else (if items[0].Str? then [items[0].s] else []) + Entries(items[1..])
  }

  function RequiredEntries(n: Node): seq<string> {
    if REQ in n && n[REQ].Array? then Entries(n[REQ].items) else []
  }

  function Elements(ss: seq<string>): set<string> { set s | s in ss }

  ghost predicate NoRepeats(ss: seq<string>) { forall i, j :: 0 <= i < j < |ss| ==> ss[i] != ss[j] }

  // ------------------------------------------------------------ strictness

  /** walkStrict finds nothing: every object node forbids additional properties. */
  predicate ForbidsExtras(v: Json) {
    match v
    case Object(n) => (Qualifies(n) ==> AP in n && n[AP] == Bool(false)) && forall k :: k in n ==> ForbidsExtras(n[k])
    case Array(items) => forall x :: x in items ==> ForbidsExtras(x)
    case _ => true
  }

  /** walkRequired finds nothing: every object node requires all its properties. */
  predicate RequiresAll(v: Json) {
    match v
    case Object(n) =>
      (Merges(n) ==> Properties(n).Keys <= Elements(RequiredEntries(n))) && forall k :: k in n ==> RequiresAll(n[k])
    case Array(items) => forall x :: x in items ==> RequiresAll(x)
    case _ => true
  }

  // ---------------------------------------------------------- the normaliser

  /** A required list the merge may leave: the old entries, each once and in
      order, then the missing property names in some order. */
  ghost predicate Merged(n: Node, req: seq<string>)
    requires Merges(n)
  {
    NoRepeats(req) && WithoutRepeats(RequiredEntries(n)) <= req
    && Elements(req) == Elements(RequiredEntries(n)) + Properties(n).Keys
  }

  /** The first occurrences of each element. */
  function WithoutRepeats(ss: seq<string>): seq<string> {
    if ss == [] then [] else
      var d := WithoutRepeats(ss[..|ss| - 1]);
      if ss[|ss| - 1] in d then d else d + [ss[|ss| - 1]]
  }

  /** A nil slice is written as null. */
  function ListJson(req: seq<string>): Json {
    if req == [] then Null else Array(seq(|req|, i requires 0 <= i < |req| => Str(req[i])))
  }

  /** The entry is written by the node's own rewrite rather than walked. */
  predicate Rewritten(n: Node, k: string) { (Qualifies(n) && k == AP) || (Merges(n) && k == REQ) }

  function KeysAfter(n: Node): set<string> {
    n.Keys + (if Qualifies(n) then {AP} else {}) + (if Merges(n) then {REQ} else {})
  }

  /** w is a tree that walking v may leave. */
  ghost predicate Walked(v: Json, w: Json)
    decreases v
  {
    match v
    case Object(n) =>
      w.Object? && w.fields.Keys == KeysAfter(n)
      && (Qualifies(n) ==> w.fields[AP] == Bool(false))
      && (Merges(n) ==> exists req :: Merged(n, req) && w.fields[REQ] == ListJson(req))
      && forall k :: k in n && !Rewritten(n, k) ==> Walked(n[k], w.fields[k])
    case Array(items) =>
      w.Array? && |w.items| == |items| && forall i :: 0 <= i < |items| ==> Walked(items[i], w.items[i])
    case _ => w == v
  }

  lemma DistinctAppend(ss: seq<string>, s: string)
    ensures WithoutRepeats(ss + [s]) == if s in WithoutRepeats(ss) then WithoutRepeats(ss) else WithoutRepeats(ss) + [s]
    ensures Elements(ss + [s]) == Elements(ss) + {s}
  {
    assert (ss + [s])[..|ss|] == ss;
  }

  lemma {:induction false} DistinctKeeps(ss: seq<string>)
    ensures NoRepeats(WithoutRepeats(ss)) && Elements(WithoutRepeats(ss)) == Elements(ss)
  {
    if ss != [] {
      var front, last := ss[..|ss| - 1], ss[|ss| - 1];
      DistinctKeeps(front);
      assert ss == front + [last];
      DistinctAppend(front, last);
      assert last in WithoutRepeats(front) <==> last in Elements(WithoutRepeats(front));
    }
  }

  lemma {:induction false} EntriesAppend(items: seq<Json>, x: Json)
    ensures Entries(items + [x]) == if x.Str? then Entries(items) + [x.s] else Entries(items)
  {
    if items == [] {
      assert [x][1..] == [];
    } else {
      EntriesAppend(items[1..], x);
      assert (items + [x])[1..] == items[1..] + [x];
    }
  }

  lemma TakeEntry(items: seq<Json>, i: nat)
    requires i < |items|
    ensures var d, x := WithoutRepeats(Entries(items[..i])), items[i];
      WithoutRepeats(Entries(items[..i + 1])) == if x.Str? && x.s !in Elements(d) then d + [x.s] else d
  {
    var before, x := items[..i], items[i];
    assert items[..i + 1] == before + [x];
    EntriesAppend(before, x);
    if x.Str? { DistinctAppend(Entries(before), x.s); }
  }

  lemma ElementsAppend(ss: seq<string>, s: string)
    ensures Elements(ss + [s]) == Elements(ss) + {s}
  {
  }

  /** The string entries already listed, each once. */
  method ExistingEntries(items: seq<Json>) returns (have: set<string>, req: seq<string>)
    ensures req == WithoutRepeats(Entries(items)) && have == Elements(req)
  {
    have, req := {}, [];
    for i := 0 to |items|
      invariant req == WithoutRepeats(Entries(items[..i])) && have == Elements(req)
    {
      TakeEntry(items, i);
      if items[i].Str? {
        var s := items[i].s;
        if s !in have {
          ElementsAppend(req, s);
          have := have + {s};
          req := req + [s];
        }
      }
    }
    assert items[..|items|] == items;
  }

  /** Adds the names not listed yet, in whatever order they come. */
  method AddMissing(names: set<string>, have0: set<string>, req0: seq<string>) returns (req: seq<string>)
    requires have0 == Elements(req0) && NoRepeats(req0)
    ensures NoRepeats(req) && req0 <= req && Elements(req) == have0 + names
  {
    var have, rest := have0, names;
    req := req0;
    while rest != {}
      invariant rest <= names && have == Elements(req) && NoRepeats(req) && req0 <= req
      invariant have == have0 + (names - rest)
      decreases rest
    {
      var name :| name in rest;
      if name !in have {
        have := have + {name};
        req := req + [name];
      }
      rest := rest - {name};
    }
  }

  /** Merges the property names into the required list. */
  method RequireAllProperties(n: Node) returns (m: Node)
    ensures !Merges(n) ==> m == n
    ensures Merges(n) ==> exists req :: Merged(n, req) && m == n[REQ := ListJson(req)]
  {
    if !(PROPS in n && n[PROPS].Object?) { return n; }
    var have: set<string>, req: seq<string> := {}, [];
    if REQ in n && n[REQ].Array? {
      have, req := ExistingEntries(n[REQ].items);
    }
    DistinctKeeps(RequiredEntries(n));
    req := AddMissing(n[PROPS].fields.Keys, have, req);
    assert Merged(n, req);
    m := n[REQ := ListJson(req)];
  }

  /** The node's own rewrite, before its children are walked. */
  method RewriteNode(n: Node) returns (m: Node)
    ensures m.Keys == KeysAfter(n)
    ensures Qualifies(n) ==> m[AP] == Bool(false)
    ensures Merges(n) ==> exists req :: Merged(n, req) && m[REQ] == ListJson(req)
    ensures forall k :: k in n && !Rewritten(n, k) ==> m[k] == n[k]
  {
    m := n;
    if "type" in n && n["type"] == Str("object") {
      m := m[AP := Bool(false)];
      m := RequireAllProperties(m);
    } else if PROPS in n {
      m := m[AP := Bool(false)];
      if n[PROPS].Object? { m := RequireAllProperties(m); }
    } else if REQ in n {
      m := m[AP := Bool(false)];
    }
    MergedIgnoresFlag(n);
  }

  lemma MergedIgnoresFlag(n: Node)
    ensures var f := n[AP := Bool(false)];
      (Merges(f) <==> Merges(n)) && (Merges(n) ==> forall req :: Merged(f, req) <==> Merged(n, req))
  {
  }

  method StrictWalk(v: Json) returns (w: Json)
    ensures Walked(v, w)
    decreases v
  {
    match v
    case Object(n) =>
      var m := RewriteNode(n);
      var r := WalkFields(v, m);
      w := Object(r);
    case Array(items) =>
      var out: seq<Json> := [];
      for i := 0 to |items|
        invariant |out| == i && forall j :: 0 <= j < i ==> Walked(items[j], out[j])
      {
        var child := StrictWalk(items[i]);
        out := out + [child];
      }
      w := Array(out);
    case _ => w := v;
  }

  /** Walks the children of a rewritten node.  The values the rewrite put in
      hold no maps, so walking those does nothing. */
  method WalkFields(v: Json, m: Node) returns (r: Node)
    requires v.Object? && m.Keys == KeysAfter(v.fields)
    requires forall k :: k in v.fields && !Rewritten(v.fields, k) ==> m[k] == v.fields[k]
    ensures r.Keys == m.Keys
    ensures forall k :: k in m && (k !in v.fields || Rewritten(v.fields, k)) ==> r[k] == m[k]
    ensures forall k :: k in v.fields && !Rewritten(v.fields, k) ==> Walked(v.fields[k], r[k])
    decreases v, 0
  {
    var n := v.fields;
    r := m;
    var rest := n.Keys;
    while rest != {}
      invariant rest <= n.Keys && r.Keys == m.Keys
      invariant forall k :: k in m && (k !in n || Rewritten(n, k)) ==> r[k] == m[k]
      invariant forall k :: k in n && k !in rest && !Rewritten(n, k) ==> Walked(n[k], r[k])
      decreases rest
    {
      var k :| k in rest;
      if !Rewritten(n, k) {
        var child := StrictWalk(n[k]);
        r := r[k := child];
      }
      rest := rest - {k};
    }
  }

  // ---------------------------------------------------------------- theorems

  lemma {:induction false} ListEntries(req: seq<string>, k: nat)
    requires k <= |req| && req != []
    ensures Entries(ListJson(req).items[k..]) == req[k..]
    decreases |req| - k
  {
    var items := ListJson(req).items;
    if k < |req| {
      ListEntries(req, k + 1);
      assert items[k..][1..] == items[k + 1..];
      assert req[k..] == [req[k]] + req[k + 1..];
    }
  }

  /** What a walked node requires when its list was merged. */
  lemma RequiredAfter(n: Node, w: Json)
    requires Walked(Object(n), w) && Merges(n)
    ensures Merged(n, RequiredEntries(w.fields)) && w.fields[REQ] == ListJson(RequiredEntries(w.fields))
  {
    var req :| Merged(n, req) && w.fields[REQ] == ListJson(req);
    if req != [] {
      ListEntries(req, 0);
      assert ListJson(req).items[0..] == ListJson(req).items && req[0..] == req;
    }
  }

  lemma QualifiesAfter(n: Node, w: Json)
    requires Walked(Object(n), w)
    ensures Qualifies(w.fields) <==> Qualifies(n)
    ensures Merges(w.fields) <==> Merges(n)
    ensures Merges(n) ==> Walked(Object(Properties(n)), Object(Properties(w.fields)))
  {
    if "type" in n { assert Walked(n["type"], w.fields["type"]); }
    if PROPS in n { assert Walked(n[PROPS], w.fields[PROPS]); }
  }

  /** A list of strings, a null and a flag hold no object node. */
  lemma ListHoldsNoNode(req: seq<string>)
    ensures ForbidsExtras(ListJson(req)) && RequiresAll(ListJson(req)) && Fits(ListJson(req))
  {
  }

  /** Every object node of the output forbids additional properties. */
  lemma {:induction false} OutputIsClosed(v: Json, w: Json)
    requires Walked(v, w)
    ensures ForbidsExtras(w)
    decreases v
  {
    match v
    case Object(n) =>
      QualifiesAfter(n, w);
      forall k | k in w.fields ensures ForbidsExtras(w.fields[k]) {
        if Merges(n) && k == REQ {
          RequiredAfter(n, w);
          ListHoldsNoNode(RequiredEntries(w.fields));
        } else if k in n && !Rewritten(n, k) {
          OutputIsClosed(n[k], w.fields[k]);
        }
      }
    case Array(items) =>
      forall x | x in w.items ensures ForbidsExtras(x) {
        var i :| 0 <= i < |items| && w.items[i] == x;
        OutputIsClosed(items[i], w.items[i]);
      }
    case _ =>
  }

  /** The keys that walking a properties map adds to it. */
  function Added(p: Node): set<string> { KeysAfter(p) - p.Keys }

  /** The exact condition on the input: wherever a properties map is itself
      taken for an object node, the keys this adds to it are listed as required
      by the node that owns the map. */
  predicate Fits(v: Json) {
    match v
    case Object(n) =>
      (Merges(n) ==> Added(Properties(n)) <= Elements(RequiredEntries(n)))
      && forall k :: k in n && !Rewritten(n, k) ==> Fits(n[k])
    case Array(items) => forall x :: x in items ==> Fits(x)
    case _ => true
  }

  lemma NodeCompleteIff(n: Node, w: Json)
    requires Walked(Object(n), w) && Merges(n)
    ensures Merges(w.fields) && RequiresAll(w.fields[REQ])
    ensures Properties(w.fields).Keys <= Elements(RequiredEntries(w.fields))
       <==> Added(Properties(n)) <= Elements(RequiredEntries(n))
  {
    QualifiesAfter(n, w);
    RequiredAfter(n, w);
    ListHoldsNoNode(RequiredEntries(w.fields));
    AddedAreNew(n);
    assert Properties(w.fields).Keys == Properties(n).Keys + Added(Properties(n));
  }

  /** The output requires all properties of every node exactly when the input fits. */
  lemma {:induction false} OutputIsCompleteIff(v: Json, w: Json)
    requires Walked(v, w)
    ensures RequiresAll(w) <==> Fits(v)
    decreases v
  {
    match v
    case Object(n) => ObjectIsCompleteIff(n, v, w);
    case Array(items) =>
      forall i | 0 <= i < |items| ensures RequiresAll(w.items[i]) <==> Fits(items[i]) {
        OutputIsCompleteIff(items[i], w.items[i]);
      }
    case _ =>
  }

  lemma {:induction false} ObjectIsCompleteIff(n: Node, v: Json, w: Json)
    requires v == Object(n) && Walked(v, w)
    ensures RequiresAll(w) <==> Fits(v)
    decreases v, 0
  {
    QualifiesAfter(n, w);
    if Merges(n) { NodeCompleteIff(n, w); }
    forall k | k in n && !Rewritten(n, k) ensures RequiresAll(w.fields[k]) <==> Fits(n[k]) {
      OutputIsCompleteIff(n[k], w.fields[k]);
    }
    RewrittenIsComplete(n, w);
  }

  /** The two entries a rewrite puts in hold no node. */
  lemma WrittenIsComplete(n: Node, w: Json, k: string)
    requires Walked(Object(n), w) && k in w.fields && Rewritten(n, k)
    ensures RequiresAll(w.fields[k])
  {
    if Merges(n) && k == REQ {
      RequiredAfter(n, w);
      ListHoldsNoNode(RequiredEntries(w.fields));
    } else {
      assert w.fields[k] == Bool(false);
    }
  }

  lemma RewrittenIsComplete(n: Node, w: Json)
    requires Walked(Object(n), w)
    ensures forall k :: k in w.fields && !(k in n && !Rewritten(n, k)) ==> RequiresAll(w.fields[k])
  {
    forall k | k in w.fields && !(k in n && !Rewritten(n, k)) ensures RequiresAll(w.fields[k]) {
      assert k in KeysAfter(n);
      WrittenIsComplete(n, w, k);
    }
  }

  lemma AddedAreNew(n: Node)
    requires Merges(n)
    ensures Added(Properties(n)) !! Properties(n).Keys
  {
  }

  /** The sufficient condition a schema author can check: no properties map looks
      like an object node. */
  predicate PlainProperties(v: Json) {
    match v
    case Object(n) =>
      (Merges(n) ==> !Qualifies(Properties(n))) && forall k :: k in n ==> PlainProperties(n[k])
    case Array(items) => forall x :: x in items ==> PlainProperties(x)
    case _ => true
  }

  lemma {:induction false} PlainFits(v: Json)
    requires PlainProperties(v)
    ensures Fits(v)
    decreases v
  {
    match v
    case Object(n) => forall k | k in n && !Rewritten(n, k) ensures Fits(n[k]) { PlainFits(n[k]); }
    case Array(items) => forall x | x in items ensures Fits(x) { PlainFits(x); }
    case _ =>
  }

  /** The normaliser's output passes the test when no properties map looks
      like an object node. */
  lemma PlainSchemaPasses(v: Json, w: Json)
    requires PlainProperties(v) && Walked(v, w)
    ensures ForbidsExtras(w) && RequiresAll(w)
  {
    OutputIsClosed(v, w);
    OutputIsCompleteIff(v, w);
    PlainFits(v);
  }

  /** A walked tree fits: the keys a second walk would add are already there. */
  lemma {:induction false} OutputFits(v: Json, w: Json)
    requires Walked(v, w)
    ensures Fits(w)
    decreases v
  {
    match v
    case Object(n) =>
      QualifiesAfter(n, w);
      if Merges(n) { NothingAddedTwice(Properties(n), Object(Properties(w.fields))); }
      forall k | k in w.fields && !Rewritten(w.fields, k) ensures Fits(w.fields[k]) {
        assert k in n && !Rewritten(n, k);
        OutputFits(n[k], w.fields[k]);
      }
    case Array(items) =>
      forall x | x in w.items ensures Fits(x) {
        var i :| 0 <= i < |items| && w.items[i] == x;
        OutputFits(items[i], w.items[i]);
      }
    case _ =>
  }

  lemma NothingAddedTwice(p: Node, w: Json)
    requires Walked(Object(p), w)
    ensures Added(w.fields) == {}
  {
    QualifiesAfter(p, w);
  }

  /** Two walks make any schema acceptable, whatever its property names. */
  lemma TwoWalksPass(v: Json, w: Json, x: Json)
    requires Walked(v, w) && Walked(w, x)
    ensures ForbidsExtras(x) && RequiresAll(x)
  {
    OutputIsClosed(w, x);
    OutputFits(v, w);
    OutputIsCompleteIff(w, x);
  }

  /** Walking the output again changes nothing exactly when the output passed. */
  lemma {:induction false} SecondWalkIsIdentityIff(v: Json, w: Json, x: Json)
    requires Walked(v, w) && Walked(w, x)
    ensures x == w <==> Fits(v)
  {
    if Fits(v) {
      OutputIsCompleteIff(v, w);
      CompleteStays(v, w, x);
    } else {
      TwoWalksPass(v, w, x);
      OutputIsCompleteIff(v, w);
    }
  }

  lemma {:induction false} CompleteStays(v: Json, w: Json, x: Json)
    requires Walked(v, w) && Walked(w, x) && RequiresAll(w)
    ensures x == w
    decreases v
  {
    match v
    case Object(n) =>
      NodeStays(n, w, x);
      forall k | k in w.fields && !Rewritten(w.fields, k) ensures x.fields[k] == w.fields[k] {
        QualifiesAfter(n, w);
        CompleteStays(n[k], w.fields[k], x.fields[k]);
      }
      assert x.fields == w.fields;
    case Array(items) =>
      forall i | 0 <= i < |items| ensures x.items[i] == w.items[i] {
        CompleteStays(items[i], w.items[i], x.items[i]);
      }
      assert x.items == w.items;
    case _ =>
  }

  lemma NodeStays(n: Node, w: Json, x: Json)
    requires Walked(Object(n), w) && Walked(w, x) && RequiresAll(w)
    ensures x.fields.Keys == w.fields.Keys
    ensures forall k :: k in w.fields && Rewritten(w.fields, k) ==> x.fields[k] == w.fields[k]
  {
    QualifiesAfter(n, w);
    QualifiesAfter(w.fields, x);
    if Merges(n) { RequiredStays(n, w, x); }
  }

  lemma RequiredStays(n: Node, w: Json, x: Json)
    requires Walked(Object(n), w) && Walked(w, x) && RequiresAll(w) && Merges(n) && Merges(w.fields)
    ensures REQ in w.fields && REQ in x.fields && x.fields[REQ] == w.fields[REQ]
  {
    RequiredAfter(n, w);
    RequiredAfter(w.fields, x);
    MergedTwice(n, w.fields, RequiredEntries(w.fields), RequiredEntries(x.fields));
  }

  lemma {:induction false} DistinctOfNoRepeats(ss: seq<string>)
    requires NoRepeats(ss)
    ensures WithoutRepeats(ss) == ss
  {
    if ss != [] {
      DistinctOfNoRepeats(ss[..|ss| - 1]);
      assert ss == ss[..|ss| - 1] + [ss[|ss| - 1]];
    }
  }

  lemma {:induction false} NoRepeatsSize(ss: seq<string>)
    requires NoRepeats(ss)
    ensures |Elements(ss)| == |ss|
  {
    if ss != [] {
      var front, last := ss[..|ss| - 1], ss[|ss| - 1];
      NoRepeatsSize(front);
      assert Elements(ss) == Elements(front) + {last};
    }
  }

  lemma MergedTwice(n: Node, m: Node, req: seq<string>, req': seq<string>)
    requires Merges(n) && Merges(m) && Merged(n, req) && RequiredEntries(m) == req
    requires Merged(m, req') && Properties(m).Keys <= Elements(req)
    ensures req' == req
  {
    DistinctOfNoRepeats(req);
    assert Elements(req') == Elements(req);
    NoRepeatsSize(req);
    NoRepeatsSize(req');
  }

  /** No string entry of a required list is lost. */
  lemma KeepsRequired(n: Node, w: Json)
    requires Walked(Object(n), w)
    ensures Elements(RequiredEntries(n)) <= Elements(RequiredEntries(w.fields))
  {
    if Merges(n) {
      RequiredAfter(n, w);
    } else if REQ in n && n[REQ].Array? {
      assert Walked(n[REQ], w.fields[REQ]);
      EntriesSurvive(n[REQ].items, w.fields[REQ].items);
    }
  }

  lemma {:induction false} EntriesSurvive(items: seq<Json>, out: seq<Json>)
    requires |out| == |items| && forall i :: 0 <= i < |items| ==> Walked(items[i], out[i])
    ensures Entries(out) == Entries(items)
  {
    if items != [] {
      assert Walked(items[0], out[0]);
      EntriesSurvive(items[1..], out[1..]);
    }
  }

  /** A property called "required" makes its properties map look like a node. */
  const TRAP := Object(map[PROPS := Object(map[REQ := Null])])

  lemma TrapFails(w: Json)
    requires Walked(TRAP, w)
    ensures ForbidsExtras(w) && !RequiresAll(w)
  {
    OutputIsClosed(TRAP, w);
    OutputIsCompleteIff(TRAP, w);
    var n := TRAP.fields;
    assert AP in Added(Properties(n)) && RequiredEntries(n) == [];
  }
}
