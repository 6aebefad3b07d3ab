/** What the two tests of a schema find, said of every place in it. */
module StrictPaths {
  import opened Text
  import opened Json
  import opened StrictSchema

  datatype Turn = Under(key: string) | At(index: nat)

  /** The value reached from v along a path of keys and indices. */
  function Reached(v: Json, path: seq<Turn>): Option<Json>
    decreases |path|
  {
    if path == [] then Some(v) else
    match path[0]
    case Under(k) => if v.Object? && k in v.fields then Reached(v.fields[k], path[1..]) else None
    case At(i) => if v.Array? && i < |v.items| then Reached(v.items[i], path[1..]) else None
  }

  /** Declared an object by its type, or implied to be one. */
  predicate ObjectNode(v: Json) {
    v.Object?
    && (("type" in v.fields && v.fields["type"] == Str("object")) || "properties" in v.fields || "required" in v.fields)
  }

  predicate ClosedNode(v: Json) {
    ObjectNode(v) ==> "additionalProperties" in v.fields && v.fields["additionalProperties"] == Bool(false)
  }

  /** Every property is named in the list of required ones. */
  ghost predicate CompleteNode(v: Json) {
    ObjectNode(v) && "properties" in v.fields && v.fields["properties"].Object? ==>
      forall name :: name in v.fields["properties"].fields ==>
        "required" in v.fields && v.fields["required"].Array? && Str(name) in v.fields["required"].items
  }

  ghost predicate Everywhere(v: Json, good: Json -> bool) {
    forall path :: Reached(v, path).Some? ==> good(Reached(v, path).value)
  }

  lemma FirstTurn(v: Json, turn: Turn, path: seq<Turn>)
    ensures Reached(v, [turn] + path)
         == if Reached(v, [turn]).None? then None else Reached(Reached(v, [turn]).value, path)
  {
    assert ([turn] + path)[1..] == path && [turn][1..] == [];
  }

  /** Something holds everywhere in v exactly if it holds of v and everywhere in its parts. */
  lemma EverywhereParts(v: Json, good: Json -> bool)
    ensures Everywhere(v, good) <==>
      good(v) && forall turn :: Reached(v, [turn]).Some? ==> Everywhere(Reached(v, [turn]).value, good)
  {
    assert Reached(v, []) == Some(v);
    if Everywhere(v, good) {
      forall turn | Reached(v, [turn]).Some? ensures Everywhere(Reached(v, [turn]).value, good) {
        forall path | Reached(Reached(v, [turn]).value, path).Some?
          ensures good(Reached(Reached(v, [turn]).value, path).value)
        {
          FirstTurn(v, turn, path);
          assert Reached(v, [turn] + path).Some?;
        }
      }
    }
    if good(v) && forall turn :: Reached(v, [turn]).Some? ==> Everywhere(Reached(v, [turn]).value, good) {
      forall path | Reached(v, path).Some? ensures good(Reached(v, path).value) {
        if path != [] {
          assert path == [path[0]] + path[1..];
          FirstTurn(v, path[0], path[1..]);
        }
      }
    }
  }

  lemma OneTurn(v: Json)
    ensures forall k :: Reached(v, [Under(k)]) == if v.Object? && k in v.fields then Some(v.fields[k]) else None
    ensures forall i: nat :: Reached(v, [At(i)]) == if v.Array? && i < |v.items| then Some(v.items[i]) else None
  {
    forall turn: Turn ensures [turn][1..] == [] {}
  }

  /** The parts of a value, by key or by index. */
  lemma PartsAre(v: Json, good: Json -> bool)
    ensures (forall turn :: Reached(v, [turn]).Some? ==> Everywhere(Reached(v, [turn]).value, good)) <==>
      (v.Object? ==> forall k :: k in v.fields ==> Everywhere(v.fields[k], good))
      && (v.Array? ==> forall i :: 0 <= i < |v.items| ==> Everywhere(v.items[i], good))
  {
    OneTurn(v);
    if forall turn :: Reached(v, [turn]).Some? ==> Everywhere(Reached(v, [turn]).value, good) {
      if v.Object? {
        forall k | k in v.fields ensures Everywhere(v.fields[k], good) { assert Reached(v, [Under(k)]).Some?; }
      } else if v.Array? {
        forall i | 0 <= i < |v.items| ensures Everywhere(v.items[i], good) { assert Reached(v, [At(i)]).Some?; }
      }
    }
  }

  /** walkStrict finds nothing exactly if, wherever an object node stands, under any
      keys and indices, it forbids additional properties. */
  lemma {:induction false} ForbidsExactlyIf(v: Json)
    ensures ForbidsExtras(v) <==> Everywhere(v, w => ClosedNode(w))
    decreases v
  {
    var good := (w: Json) => ClosedNode(w);
    EverywhereParts(v, good);
    PartsAre(v, good);
    match v
    case Object(n) =>
      forall k | k in n ensures ForbidsExtras(n[k]) <==> Everywhere(n[k], good) { ForbidsExactlyIf(n[k]); }
    case Array(items) =>
      forall i | 0 <= i < |items| ensures ForbidsExtras(items[i]) <==> Everywhere(items[i], good) {
        ForbidsExactlyIf(items[i]);
      }
    case _ =>
  }

  lemma {:induction false} EntriesAre(items: seq<Json>, name: string)
    ensures name in Entries(items) <==> Str(name) in items
  {
    if items != [] { EntriesAre(items[1..], name); }
  }

  lemma CompleteIs(n: Node)
    ensures (Merges(n) ==> Properties(n).Keys <= Elements(RequiredEntries(n))) <==> CompleteNode(Object(n))
  {
    if Merges(n) && REQ in n && n[REQ].Array? {
      forall name ensures name in Elements(RequiredEntries(n)) <==> Str(name) in n[REQ].items {
        EntriesAre(n[REQ].items, name);
      }
    }
  }

  /** walkRequired finds nothing exactly if, wherever an object node stands, its
      required list names all its properties. */
  lemma {:induction false} RequiresExactlyIf(v: Json)
    ensures RequiresAll(v) <==> Everywhere(v, w => CompleteNode(w))
    decreases v
  {
    var good := (w: Json) => CompleteNode(w);
    EverywhereParts(v, good);
    PartsAre(v, good);
    match v
    case Object(n) =>
      CompleteIs(n);
      forall k | k in n ensures RequiresAll(n[k]) <==> Everywhere(n[k], good) { RequiresExactlyIf(n[k]); }
    case Array(items) =>
      forall i | 0 <= i < |items| ensures RequiresAll(items[i]) <==> Everywhere(items[i], good) {
        RequiresExactlyIf(items[i]);
      }
    case _ =>
  }
}
