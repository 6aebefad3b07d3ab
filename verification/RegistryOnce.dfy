/** What subscribers can rely on when publishers of one request overlap. */
module RegistryOnce {
  import opened Text
  import opened Registry
  import opened RegistryDelivery

  /** Each notice comes from another publisher. */
  ghost predicate OnceEach(ns: seq<Notice>) { forall i, j :: 0 <= i < j < |ns| ==> ns[i].publisher != ns[j].publisher }

  ghost predicate From(ns: seq<Notice>, t: nat) { exists i :: 0 <= i < |ns| && ns[i].publisher == t }

  /** No publish is announced or sent twice, and what is sent was announced. */
  ghost predicate OnceOk(sub: Sub, x: nat, pubs: map<nat, Pub>) {
    OnceEach(sub.since) && OnceEach(sub.sent)
    && (forall n :: n in sub.sent ==> n in sub.since)
    && (forall t :: From(sub.since, t) ==> t in pubs && pubs[t].pc != Starting)
    && (forall t :: t in pubs && Pending(pubs[t], x) ==> NoticeOf(pubs, t) in sub.since && !From(sub.sent, t))
  }

  ghost predicate Once(s: State) { forall x :: x in s.subs ==> OnceOk(s.subs[x], x, s.pubs) }

  lemma FromSnoc(ns: seq<Notice>, n: Notice, t: nat)
    ensures From(ns + [n], t) <==> From(ns, t) || n.publisher == t
  {
    if From(ns, t) {
      var i :| 0 <= i < |ns| && ns[i].publisher == t;
      assert (ns + [n])[i].publisher == t;
    }
    if n.publisher == t { assert (ns + [n])[|ns|].publisher == t; }
  }

  lemma DistinctSnoc(ns: seq<Notice>, n: Notice)
    requires OnceEach(ns) && !From(ns, n.publisher)
    ensures OnceEach(ns + [n])
  {
  }

  /** Nothing about x changes but who handles it, and nobody new does. */
  lemma OnceFrame(sub: Sub, sub': Sub, x: nat, pubs: map<nat, Pub>, pubs': map<nat, Pub>)
    requires OnceOk(sub, x, pubs) && sub'.since == sub.since && sub'.sent == sub.sent
    requires forall t :: t in pubs && pubs[t].pc != Starting ==> t in pubs' && pubs'[t].pc != Starting
    requires forall t :: t in pubs' && Pending(pubs'[t], x) ==>
      t in pubs && Pending(pubs[t], x) && pubs[t].text == pubs'[t].text
    ensures OnceOk(sub', x, pubs')
  {
  }

  lemma AnnounceOnce(sub: Sub, x: nat, pubs: map<nat, Pub>, t: nat, pub: Pub)
    requires OnceOk(sub, x, pubs) && t in pubs && pubs[t].pc == Starting
    requires pub.text == pubs[t].text && pub.pc != Starting
    ensures OnceOk(sub.(since := sub.since + [Notice(t, pub.text)]), x, pubs[t := pub])
  {
    var n := Notice(t, pub.text);
    var pubs' := pubs[t := pub];
    DistinctSnoc(sub.since, n);
    forall u ensures From(sub.since + [n], u) <==> From(sub.since, u) || u == t { FromSnoc(sub.since, n, u); }
    SentWasAnnounced(sub.sent, sub.since, t);
  }

  lemma SentWasAnnounced(sent: seq<Notice>, since: seq<Notice>, t: nat)
    requires forall n :: n in sent ==> n in since
    ensures From(sent, t) ==> From(since, t)
  {
    if From(sent, t) {
      var i :| 0 <= i < |sent| && sent[i].publisher == t;
      assert sent[i] in sent;
      var j :| 0 <= j < |since| && since[j] == sent[i];
    }
  }

  lemma SendOnce(sub: Sub, sub': Sub, x: nat, pubs: map<nat, Pub>, t: nat, pub: Pub)
    requires OnceOk(sub, x, pubs) && t in pubs && Pending(pubs[t], x) && !Pending(pub, x)
    requires sub'.since == sub.since && sub'.sent == sub.sent + [NoticeOf(pubs, t)]
    requires pub.pc != Starting
    ensures OnceOk(sub', x, pubs[t := pub])
  {
    var n := NoticeOf(pubs, t);
    DistinctSnoc(sub.sent, n);
    forall u ensures From(sub'.sent, u) <==> From(sub.sent, u) || u == t { FromSnoc(sub.sent, n, u); }
  }

  lemma PubStepOnce(s: State, t: nat, p: PubLabel, x: nat)
    requires Inv(s) && Once(s) && NextPub(s, t, p).Some? && p != Snapshot && x in s.subs
    ensures var n := NextPub(s, t, p).value;
      x in n.subs && OnceOk(n.subs[x], x, n.pubs)
  {
    var n := NextPub(s, t, p).value;
    assert PubOk(s.pubs[t], t, s.runs, s.subs) && SubOk(s.subs[x]) && OnceOk(s.subs[x], x, s.pubs);
    PubStepFrame(s, t, p, x);
    PubStepOncePart(s.subs[x], n.subs[x], x, s.pubs, t, n.pubs[t]);
  }

  lemma PubStepOncePart(sub: Sub, sub': Sub, x: nat, pubs: map<nat, Pub>, t: nat, pub: Pub)
    requires OnceOk(sub, x, pubs) && t in pubs && Handed(t, pubs[t], pub, sub, sub', x)
    requires pub.text == pubs[t].text && pub.pc != Starting && (Pending(pub, x) ==> Pending(pubs[t], x))
    ensures OnceOk(sub', x, pubs[t := pub])
  {
    if sub'.sent == sub.sent {
      OnceFrame(sub, sub', x, pubs, pubs[t := pub]);
    } else {
      SendOnce(sub, sub', x, pubs, t, pub);
    }
  }

  lemma SnapshotOnce(s: State, t: nat, x: nat)
    requires Inv(s) && Once(s) && NextPub(s, t, Snapshot).Some? && x in s.subs
    ensures var n := NextPub(s, t, Snapshot).value;
      x in n.subs && OnceOk(n.subs[x], x, n.pubs)
  {
    var n := NextPub(s, t, Snapshot).value;
    SnapshotFrame(s, t, x);
    assert PubOk(s.pubs[t], t, s.runs, s.subs) && OnceOk(s.subs[x], x, s.pubs);
    if s.subs[x].req == s.pubs[t].req {
      AnnounceOnce(s.subs[x], x, s.pubs, t, n.pubs[t]);
    } else {
      OnceFrame(s.subs[x], n.subs[x], x, s.pubs, n.pubs);
    }
  }

  lemma QuietOnce(s: State, n: State)
    requires Once(s) && Quiet(s, n)
    ensures Once(n)
  {
    forall x | x in n.subs ensures OnceOk(n.subs[x], x, n.pubs) { OnceFrame(s.subs[x], n.subs[x], x, s.pubs, n.pubs); }
  }

  lemma NewcomersOnce(s: State, l: Label)
    requires Inv(s) && Once(s) && Next(s, l).Some? && (l.Subscribe? || l.StartPublish?)
    ensures Once(Next(s, l).value)
  {
    var n := Next(s, l).value;
    forall y | y in n.subs ensures OnceOk(n.subs[y], y, n.pubs) {
      if y in s.subs {
        OnceFrame(s.subs[y], n.subs[y], y, s.pubs, n.pubs);
      } else {
        forall t | t in s.pubs ensures !Pending(s.pubs[t], y) { assert PubOk(s.pubs[t], t, s.runs, s.subs); }
      }
    }
  }

  lemma PubOnce(s: State, t: nat, p: PubLabel)
    requires Inv(s) && Once(s) && NextPub(s, t, p).Some?
    ensures Once(NextPub(s, t, p).value)
  {
    var n := NextPub(s, t, p).value;
    forall x | x in n.subs ensures OnceOk(n.subs[x], x, n.pubs) {
      if p == Snapshot { SnapshotOnce(s, t, x); } else { PubStepOnce(s, t, p, x); }
    }
  }

  lemma NextOnce(s: State, l: Label)
    requires Inv(s) && Once(s) && Next(s, l).Some?
    ensures Once(Next(s, l).value)
  {
    match l
    case Subscribe(_, _) => NewcomersOnce(s, l);
    case StartPublish(_, _, _) => NewcomersOnce(s, l);
    case Publisher(t, p) =>
      PubOnce(s, t, p);
    case _ =>
      QuietSteps(s, l);
      QuietOnce(s, Next(s, l).value);
  }

  lemma {:induction false} ExecOnce(ls: seq<Label>, s: State)
    requires Exec(ls) == Some(s)
    ensures Once(s)
  {
    if ls != [] {
      var front := ls[..|ls| - 1];
      ExecOnce(front, Exec(front).value);
      ExecKeepsInv(front, Exec(front).value);
      NextOnce(Exec(front).value, ls[|ls| - 1]);
    }
  }

  lemma {:induction false} DistinctIncluded(a: seq<Notice>, b: seq<Notice>)
    requires OnceEach(a) && forall n :: n in a ==> n in b
    ensures multiset(a) <= multiset(b)
  {
    forall n ensures multiset(a)[n] <= multiset(b)[n] {
      if n in a { OnceCount(a, n); }
    }
  }

  lemma {:induction false} OnceCount(a: seq<Notice>, n: Notice)
    requires OnceEach(a)
    ensures multiset(a)[n] <= 1
  {
    if a != [] {
      var front, last := a[..|a| - 1], a[|a| - 1];
      assert a == front + [last];
      OnceCount(front, n);
      if n == last { assert n !in front; }
    }
  }

  /** However publishers overlap: what a subscriber is sent and reads is, counted
      with multiplicity, part of what was published for its request since it
      subscribed, and no publish reaches it twice. */
  lemma DeliveredAtMostOnce(ls: seq<Label>, s: State, x: nat)
    requires Exec(ls) == Some(s) && x in s.subs
    ensures var sub := s.subs[x];
      multiset(sub.received) <= multiset(sub.sent) <= multiset(sub.since) && OnceEach(sub.sent)
  {
    ExecOnce(ls, s);
    ExecKeepsInv(ls, s);
    var sub := s.subs[x];
    assert OnceOk(sub, x, s.pubs) && SubOk(sub);
    assert multiset(sub.sent) == multiset(sub.received) + multiset(sub.buffer);
    DistinctIncluded(sub.sent, sub.since);
  }

  // --------------------------------------------------- when deliveries keep order

  /** x has not been sent everything announced before publisher t's notice. */
  ghost predicate Owed(sub: Sub, n: Notice) {
    exists i, j :: 0 <= i < j < |sub.since| && sub.since[j] == n && sub.since[i] !in sub.sent
  }

  /** The step from s to n sends x a notice although x is owed an earlier one. */
  ghost predicate Overtakes(s: State, l: Label, n: State, x: nat) {
    l.Publisher? && l.t in s.pubs && x in s.subs && x in n.subs
    && n.subs[x].sent != s.subs[x].sent && Owed(s.subs[x], NoticeOf(s.pubs, l.t))
  }

  ghost predicate OvertakesAt(ls: seq<Label>, i: nat, x: nat)
    requires i < |ls|
  {
    Exec(ls[..i]).Some? && Exec(ls[..i + 1]).Some?
    && Overtakes(Exec(ls[..i]).value, ls[i], Exec(ls[..i + 1]).value, x)
  }

  /** No step of the run overtakes at x. */
  ghost predicate InTurn(ls: seq<Label>, x: nat) { forall i :: 0 <= i < |ls| ==> !OvertakesAt(ls, i, x) }

  /** Of announcements that are all different, those sent in order are the first ones. */
  lemma FirstOnesSent(sub: Sub)
    requires OnceEach(sub.since) && sub.sent <= sub.since
    ensures forall i :: 0 <= i < |sub.since| ==> (sub.since[i] in sub.sent <==> i < |sub.sent|)
  {
    forall i | 0 <= i < |sub.since| ensures sub.since[i] in sub.sent <==> i < |sub.sent| {
      if i < |sub.sent| { assert sub.sent[i] == sub.since[i]; }
    }
  }

  /** A prefix stays one exactly if the step does not overtake. */
  ghost predicate TurnKept(s: State, l: Label, n: State, x: nat)
    requires x in s.subs && x in n.subs
  {
    n.subs[x].sent <= n.subs[x].since <==> s.subs[x].sent <= s.subs[x].since && !Overtakes(s, l, n, x)
  }

  lemma SentInTurn(sub: Sub, x: nat, pubs: map<nat, Pub>, t: nat)
    requires OnceOk(sub, x, pubs) && t in pubs && Pending(pubs[t], x)
    ensures sub.sent + [NoticeOf(pubs, t)] <= sub.since <==> sub.sent <= sub.since && !Owed(sub, NoticeOf(pubs, t))
  {
    var n := NoticeOf(pubs, t);
    var j :| 0 <= j < |sub.since| && sub.since[j] == n;
    NotFrom(sub.sent, n);
    if sub.sent <= sub.since {
      FirstOnesSent(sub);
      if |sub.sent| < j { assert sub.since[|sub.sent|] !in sub.sent; }
    }
  }

  lemma NotFrom(ns: seq<Notice>, n: Notice)
    requires !From(ns, n.publisher)
    ensures n !in ns
  {
  }

  lemma AnnouncedInTurn(sub: Sub, x: nat, pubs: map<nat, Pub>, t: nat)
    requires OnceOk(sub, x, pubs) && t in pubs && pubs[t].pc == Starting
    ensures sub.sent <= sub.since + [NoticeOf(pubs, t)] <==> sub.sent <= sub.since
  {
    var n := NoticeOf(pubs, t);
    SentWasAnnounced(sub.sent, sub.since, t);
    NotFrom(sub.sent, n);
    if |sub.sent| == |sub.since| + 1 { assert sub.sent[|sub.since|] in sub.sent; }
  }

  lemma HandedInTurn(sub: Sub, sub': Sub, x: nat, pubs: map<nat, Pub>, t: nat, pub: Pub)
    requires OnceOk(sub, x, pubs) && t in pubs && Handed(t, pubs[t], pub, sub, sub', x)
    ensures sub'.sent <= sub'.since
      <==> sub.sent <= sub.since && (sub'.sent != sub.sent ==> !Owed(sub, NoticeOf(pubs, t)))
  {
    if Pending(pubs[t], x) { SentInTurn(sub, x, pubs, t); }
  }

  lemma PubStepInTurn(s: State, t: nat, p: PubLabel, n: State, x: nat)
    requires Inv(s) && Once(s) && NextPub(s, t, p) == Some(n) && p != Snapshot && x in s.subs
    ensures x in n.subs && TurnKept(s, Publisher(t, p), n, x)
  {
    assert PubOk(s.pubs[t], t, s.runs, s.subs) && SubOk(s.subs[x]) && OnceOk(s.subs[x], x, s.pubs);
    PubStepFrame(s, t, p, x);
    PubStepInTurnPart(s, t, p, n, x);
  }

  lemma PubStepInTurnPart(s: State, t: nat, p: PubLabel, n: State, x: nat)
    requires x in s.subs && x in n.subs && t in s.pubs && t in n.pubs
    requires OnceOk(s.subs[x], x, s.pubs) && Handed(t, s.pubs[t], n.pubs[t], s.subs[x], n.subs[x], x)
    ensures TurnKept(s, Publisher(t, p), n, x)
  {
    HandedInTurn(s.subs[x], n.subs[x], x, s.pubs, t, n.pubs[t]);
  }

  lemma SnapshotInTurn(s: State, t: nat, n: State, x: nat)
    requires Inv(s) && Once(s) && NextPub(s, t, Snapshot) == Some(n) && x in s.subs
    ensures x in n.subs && TurnKept(s, Publisher(t, Snapshot), n, x)
  {
    SnapshotFrame(s, t, x);
    assert OnceOk(s.subs[x], x, s.pubs);
    AnnouncedInTurn(s.subs[x], x, s.pubs, t);
  }

  /** Steps of others than publishers send and announce nothing. */
  lemma OthersSendNothing(s: State, l: Label, x: nat)
    requires Next(s, l).Some? && !l.Publisher? && x in s.subs
    ensures var n := Next(s, l).value;
      x in n.subs && n.subs[x].sent == s.subs[x].sent && n.subs[x].since == s.subs[x].since
  {
    if !l.Subscribe? && !l.StartPublish? { QuietSteps(s, l); }
  }

  lemma StepInTurn(s: State, l: Label, n: State, x: nat)
    requires Inv(s) && Once(s) && Next(s, l) == Some(n) && x in s.subs
    ensures x in n.subs && TurnKept(s, l, n, x)
  {
    if l.Publisher? {
      if l.p == Snapshot { SnapshotInTurn(s, l.t, n, x); } else { PubStepInTurn(s, l.t, l.p, n, x); }
    } else {
      OthersSendNothing(s, l, x);
    }
  }

  lemma SubsGrow(s: State, l: Label)
    requires Next(s, l).Some?
    ensures var n := Next(s, l).value;
      if l.Subscribe? then n.subs.Keys == s.subs.Keys + {l.x} && n.subs[l.x].sent == [] else n.subs.Keys == s.subs.Keys
  {
  }

  lemma InTurnPrefix(ls: seq<Label>, s: State, n: State, x: nat)
    requires ls != [] && Exec(ls[..|ls| - 1]) == Some(s) && Exec(ls) == Some(n)
    ensures InTurn(ls, x) <==> InTurn(ls[..|ls| - 1], x) && !Overtakes(s, ls[|ls| - 1], n, x)
  {
    assert ls[..|ls|] == ls;
    assert OvertakesAt(ls, |ls| - 1, x) <==> Overtakes(s, ls[|ls| - 1], n, x);
    InTurnSplit(ls, x);
  }

  lemma InTurnSplit(ls: seq<Label>, x: nat)
    requires ls != []
    ensures InTurn(ls, x) <==> InTurn(ls[..|ls| - 1], x) && !OvertakesAt(ls, |ls| - 1, x)
  {
    var front := ls[..|ls| - 1];
    forall i | 0 <= i < |front| ensures OvertakesAt(front, i, x) <==> OvertakesAt(ls, i, x) { SameThere(ls, i, x); }
    if InTurn(front, x) && !OvertakesAt(ls, |ls| - 1, x) {
      forall i | 0 <= i < |ls| ensures !OvertakesAt(ls, i, x) {
        if i < |front| { assert !OvertakesAt(front, i, x); }
      }
    }
  }

  lemma SameThere(ls: seq<Label>, i: nat, x: nat)
    requires i < |ls| - 1
    ensures OvertakesAt(ls[..|ls| - 1], i, x) <==> OvertakesAt(ls, i, x)
  {
    var front := ls[..|ls| - 1];
    assert front[..i] == ls[..i] && front[..i + 1] == ls[..i + 1] && front[i] == ls[i];
  }

  lemma {:induction false} UnsubscribedInTurn(ls: seq<Label>, s: State, x: nat)
    requires Exec(ls) == Some(s) && x !in s.subs
    ensures InTurn(ls, x)
  {
    if ls != [] {
      var m := Exec(ls[..|ls| - 1]).value;
      SubsGrow(m, ls[|ls| - 1]);
      UnsubscribedInTurn(ls[..|ls| - 1], m, x);
      InTurnPrefix(ls, m, s, x);
    }
  }

  /** However publishers overlap: a subscriber has been sent a prefix of what was
      published since it subscribed exactly if no step of the run sent it a notice
      while it was owed an earlier one. */
  lemma {:induction false} PrefixExactlyIfInTurn(ls: seq<Label>, s: State, x: nat)
    requires Exec(ls) == Some(s) && x in s.subs
    ensures s.subs[x].sent <= s.subs[x].since <==> InTurn(ls, x)
  {
    if ls != [] {
      var front := ls[..|ls| - 1];
      var m := Exec(front).value;
      InTurnPrefix(ls, m, s, x);
      if x in m.subs {
        PrefixExactlyIfInTurn(front, m, x);
        ExecOnce(front, m);
        ExecKeepsInv(front, m);
        StepInTurn(m, ls[|ls| - 1], s, x);
      } else {
        UnsubscribedInTurn(front, m, x);
        SubsGrow(m, ls[|ls| - 1]);
      }
    }
  }

  // ---------------------------------------------- why publishing must be serial

  lemma Extend(ls: seq<Label>, s: State, l: Label) returns (ls': seq<Label>, t: State)
    requires Exec(ls) == Some(s) && Next(s, l).Some?
    ensures Exec(ls') == Some(t) && Some(t) == Next(s, l)
  {
    ls', t := ls + [l], Next(s, l).value;
    assert ls'[..|ls|] == ls;
  }

  const A := Notice(1, "a")

  const B := Notice(2, "b")

  const FRESH := Sub("q", None, false, false, false, [], [], [], [], false)

  /** Two publishers that have both taken their snapshots. */
  lemma BothSnapshot() returns (ls: seq<Label>, s: State)
    ensures Exec(ls) == Some(s) && s.subs == map[1 := FRESH.(since := [A, B])]
    ensures s.pubs == map[1 := Pub("q", "a", Sending, {1}), 2 := Pub("q", "b", Sending, {1})]
  {
    ls, s := [], INIT;
    ls, s := Extend(ls, s, Subscribe(1, "q"));
    assert s.runs["q"].subs == {1} && s.subs[1] == FRESH;
    assert s.runs == map["q" := RunEntry({1}, false)] && s.subs == map[1 := FRESH];
    ls, s := Extend(ls, s, StartPublish(1, "q", "a"));
    ls, s := Extend(ls, s, StartPublish(2, "q", "b"));
    ls, s := SnapshotOf(ls, s, 1, FRESH);
    ls, s := SnapshotOf(ls, s, 2, FRESH.(since := [] + [A]));
    assert [] + [A] + [B] == [A, B];
  }

  lemma SnapshotOf(ls0: seq<Label>, s0: State, t: nat, sub: Sub) returns (ls: seq<Label>, s: State)
    requires Exec(ls0) == Some(s0) && s0.cleaner == Resting && s0.runs == map["q" := RunEntry({1}, false)]
    requires s0.subs == map[1 := sub] && sub.req == "q"
    requires t in s0.pubs && s0.pubs[t].pc == Starting && s0.pubs[t].req == "q"
    ensures Exec(ls) == Some(s) && s.subs == map[1 := sub.(since := sub.since + [NoticeOf(s0.pubs, t)])]
    ensures s == s0.(subs := s.subs, pubs := s0.pubs[t := s0.pubs[t].(pc := Sending, todo := {1})])
  {
    ls, s := Extend(ls0, s0, Publisher(t, Snapshot));
    assert s.subs[1] == sub.(since := sub.since + [NoticeOf(s0.pubs, t)]);
    assert s.subs.Keys == {1};
  }

  /** Overlapping publishers can deliver in another order than they published in. */
  lemma OverlapReorders() returns (ls: seq<Label>, s: State)
    ensures Exec(ls) == Some(s) && 1 in s.subs
    ensures s.subs[1].since == [A, B] && s.subs[1].sent == [B, A] && !(s.subs[1].sent <= s.subs[1].since)
  {
    ls, s := BothSnapshot();
    ls, s := Extend(ls, s, Publisher(2, Send(1)));
    assert s.subs[1] == Put(FRESH.(since := [A, B]), B);
    ls, s := Extend(ls, s, Publisher(1, Send(1)));
    assert s.subs[1].sent[0] == B != s.subs[1].since[0];
  }
}
