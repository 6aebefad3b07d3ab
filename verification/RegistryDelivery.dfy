/** What subscribers of the event registry can rely on. */
module RegistryDelivery {
  import opened Text
  import opened Registry

  lemma {:induction false} ExecKeepsInv(ls: seq<Label>, s: State)
    requires Exec(ls) == Some(s)
    ensures Inv(s)
  {
    if ls != [] {
      var front := ls[..|ls| - 1];
      ExecKeepsInv(front, Exec(front).value);
      NextKeepsInv(Exec(front).value, ls[|ls| - 1]);
    }
  }

  // ------------------------------------------------------ safety and progress

  /** No interleaving sends on a closed channel or closes one twice, and no
      subscriber's buffer overflows or loses an event. */
  lemma ChannelsAreSafe(ls: seq<Label>, s: State, x: nat)
    requires Exec(ls) == Some(s) && x in s.subs
    ensures !s.subs[x].broken && |s.subs[x].buffer| <= BUFFER_SIZE
    ensures s.subs[x].sent == s.subs[x].received + s.subs[x].buffer
  {
    ExecKeepsInv(ls, s);
    assert SubOk(s.subs[x]);
  }

  /** Whatever step comes next: nothing is put into a closed channel, and whoever is
      closed has had both its channels open until then. */
  lemma StepsAreSafe(ls: seq<Label>, s: State, l: Label, n: State, x: nat)
    requires Exec(ls) == Some(s) && Next(s, l) == Some(n) && x in s.subs
    ensures x in n.subs
    ensures n.subs[x].sent != s.subs[x].sent ==> !s.subs[x].chanClosed
    ensures n.subs[x].closed && !s.subs[x].closed ==> !s.subs[x].chanClosed && !s.subs[x].doneClosed
    ensures s.subs[x].closed ==> n.subs[x].closed
    ensures n.subs[x].closed <==> n.subs[x].chanClosed
    ensures n.subs[x].closed <==> n.subs[x].doneClosed
  {
    ExecKeepsInv(ls, s);
    NextKeepsInv(s, l);
    assert SubOk(s.subs[x]);
    StepOpens(s, l, n, x);
    assert SubOk(n.subs[x]);
  }

  lemma StepOpens(s: State, l: Label, n: State, x: nat)
    requires Inv(s) && Next(s, l) == Some(n) && x in s.subs
    ensures x in n.subs && (n.subs[x].sent != s.subs[x].sent ==> !s.subs[x].closed)
    ensures s.subs[x].closed ==> n.subs[x].closed
  {
    if l.Publisher? {
      PublisherOpens(s, l.t, l.p, n, x);
    } else if !l.Subscribe? && !l.StartPublish? {
      QuietSteps(s, l);
    }
  }

  lemma PublisherOpens(s: State, t: nat, p: PubLabel, n: State, x: nat)
    requires Inv(s) && NextPub(s, t, p) == Some(n) && x in s.subs
    ensures x in n.subs && (n.subs[x].sent != s.subs[x].sent ==> !s.subs[x].closed)
    ensures s.subs[x].closed ==> n.subs[x].closed
  {
    assert PubOk(s.pubs[t], t, s.runs, s.subs) && SubOk(s.subs[x]);
  }

  /** An unsubscriber that finds the mutexes free is out of the fan-out after its first
      step, and after its second closed and finished. */
  lemma UnsubscribeCompletes(s: State, x: nat)
    requires Inv(s) && RegistryFree(s) && x in s.unsubs && s.unsubs[x] == Removing && SubFree(s, x)
    ensures Next(s, RemoveSub(x)).Some?
    ensures var m := Next(s, RemoveSub(x)).value;
      x in m.subs && !Live(m.runs, m.subs[x], x) && Next(m, CloseSub(x)).Some?
      && var n := Next(m, CloseSub(x)).value;
         x in n.subs && x in n.unsubs && n.subs[x].closed && n.unsubs[x] == Unsubscribed && !Live(n.runs, n.subs[x], x)
  {
  }

  /** A sender waiting for space never sees its subscriber closed. */
  lemma WaitingSenderSeesNoClose(ls: seq<Label>, s: State, t: nat)
    requires Exec(ls) == Some(s)
    ensures NextPub(s, t, SendAfterDone) == None
  {
    ExecKeepsInv(ls, s);
    if t in s.pubs && s.pubs[t].pc.Blocked? {
      assert PubOk(s.pubs[t], t, s.runs, s.subs) && SubOk(s.subs[s.pubs[t].pc.x]);
    }
  }

  /** Somebody is in the middle of something. */
  ghost predicate Busy(s: State) {
    (exists t :: t in s.pubs && s.pubs[t].pc != Published)
    || (exists x :: x in s.unsubs && s.unsubs[x] != Unsubscribed)
    || s.cleaner != Resting
  }

  /** A step that ends a section somebody has begun, as opposed to new requests,
      reads, and the cleaner's choices. */
  predicate Continues(l: Label) {
    l.Publisher? || l.RemoveSub? || l.CloseSub? || l.CleanClose? || l.DeleteRun? || l.EndScan?
  }

  ghost predicate CanContinue(s: State) { exists l :: Continues(l) && Next(s, l).Some? }

  /** With no sender waiting, every subscriber's mutex is free. */
  lemma AllFree(s: State)
    requires Inv(s) && forall t :: t in s.pubs ==> !s.pubs[t].pc.Blocked?
    ensures forall x :: x in s.subs ==> SubFree(s, x)
  {
  }

  lemma CleanerContinues(s: State)
    requires Inv(s) && s.cleaner != Resting && forall x :: x in s.subs ==> SubFree(s, x)
    ensures CanContinue(s)
  {
    if s.cleaner == Scanning {
      assert Continues(EndScan) && Next(s, EndScan).Some?;
    } else if s.cleaner.todo == {} {
      assert Continues(DeleteRun) && Next(s, DeleteRun).Some?;
    } else {
      var x :| x in s.cleaner.todo;
      assert Continues(CleanClose(x)) && Next(s, CleanClose(x)).Some?;
    }
  }

  lemma PublisherContinues(s: State, t: nat)
    requires Inv(s) && s.cleaner == Resting && (forall x :: x in s.subs ==> SubFree(s, x))
    requires t in s.pubs && s.pubs[t].pc != Published && !s.pubs[t].pc.Blocked?
    ensures CanContinue(s)
  {
    var pub := s.pubs[t];
    assert PubOk(pub, t, s.runs, s.subs);
    var p :=
      if pub.pc == Starting then Snapshot else if pub.pc.Missing? then Drop else if pub.pc.Closing? then CloseMissed
      else if pub.todo == {} then Finish else var x :| x in pub.todo; Send(x);
    assert Continues(Publisher(t, p)) && Next(s, Publisher(t, p)).Some?;
  }

  lemma UnsubscriberContinues(s: State, x: nat)
    requires Inv(s) && s.cleaner == Resting && (forall y :: y in s.subs ==> SubFree(s, y))
    requires x in s.unsubs && s.unsubs[x] != Unsubscribed
    ensures CanContinue(s)
  {
    assert UnsubOk(s.unsubs[x], x, s.runs, s.subs);
    var l := if s.unsubs[x] == Removing then RemoveSub(x) else CloseSub(x);
    assert Continues(l) && Next(s, l).Some?;
  }

  /** The two mutexes never deadlock: whoever is in the middle of something,
      somebody can go on, even if no subscriber ever reads. */
  lemma NoDeadlock(ls: seq<Label>, s: State)
    requires Exec(ls) == Some(s) && Busy(s)
    ensures CanContinue(s)
  {
    ExecKeepsInv(ls, s);
    if t :| t in s.pubs && s.pubs[t].pc.Blocked? {
      assert PubOk(s.pubs[t], t, s.runs, s.subs);
      assert Continues(Publisher(t, TimeOut)) && Next(s, Publisher(t, TimeOut)).Some?;
    } else {
      AllFree(s);
      if s.cleaner != Resting {
        CleanerContinues(s);
      } else if t :| t in s.pubs && s.pubs[t].pc != Published {
        PublisherContinues(s, t);
      } else {
        var x :| x in s.unsubs && s.unsubs[x] != Unsubscribed;
        UnsubscriberContinues(s, x);
      }
    }
  }

  // ---------------------------------------------------------------- delivery

  ghost predicate Publishing(pubs: map<nat, Pub>, req: string) {
    exists t :: t in pubs && pubs[t].req == req && pubs[t].pc != Published
  }

  /** Two publishers under way on one request. */
  predicate Rivals(p: Pub, q: Pub) { p.req == q.req && p.pc != Published && q.pc != Published }

  /** No request is published to by two publishers at once. */
  ghost predicate Serial(pubs: map<nat, Pub>) {
    forall t, u :: t in pubs && u in pubs && Rivals(pubs[t], pubs[u]) ==> t == u
  }

  /** Step i of the run does not start a second publisher on a request. */
  ghost predicate SerialRun(ls: seq<Label>) {
    forall i :: 0 <= i < |ls| && ls[i].StartPublish? && Exec(ls[..i]).Some? ==>
      !Publishing(Exec(ls[..i]).value.pubs, ls[i].req)
  }

  predicate Pending(pub: Pub, x: nat) { x in pub.todo || pub.pc == Blocked(x) }

  predicate Handles(pub: Pub, x: nat) { Pending(pub, x) || pub.pc == Missing(x) }

  function NoticeOf(pubs: map<nat, Pub>, t: nat): Notice
    requires t in pubs
  {
    Notice(t, pubs[t].text)
  }

  ghost predicate InHand(pubs: map<nat, Pub>, x: nat) { exists t :: t in pubs && Handles(pubs[t], x) }

  /** What was sent is a prefix of what was published, short of exactly the event
      in hand, and short of nothing while the subscriber is in the fan-out and idle. */
  ghost predicate HistoryOk(sub: Sub, x: nat, runs: map<string, RunEntry>, pubs: map<nat, Pub>) {
    sub.sent <= sub.since
    && (forall t :: t in pubs && Pending(pubs[t], x) ==> sub.since == sub.sent + [NoticeOf(pubs, t)])
    && (Live(runs, sub, x) && !sub.closed && !InHand(pubs, x) ==> sub.sent == sub.since)
  }

  ghost predicate Histories(s: State) {
    Serial(s.pubs) && forall x :: x in s.subs ==> HistoryOk(s.subs[x], x, s.runs, s.pubs)
  }

  /** A step that sends nothing to x and publishes nothing new to its request. */
  lemma HistoryFrame(sub: Sub, sub': Sub, x: nat, runs: map<string, RunEntry>, runs': map<string, RunEntry>,
                     pubs: map<nat, Pub>, pubs': map<nat, Pub>)
    requires HistoryOk(sub, x, runs, pubs)
    requires sub'.sent == sub.sent && sub'.since == sub.since && (sub.closed ==> sub'.closed)
    requires Live(runs', sub', x) ==> Live(runs, sub, x)
    requires forall t :: t in pubs' && Pending(pubs'[t], x) ==>
      t in pubs && Pending(pubs[t], x) && pubs[t].text == pubs'[t].text
    requires InHand(pubs, x) ==> InHand(pubs', x) || sub'.closed || !Live(runs', sub', x)
    ensures HistoryOk(sub', x, runs', pubs')
  {
  }

  /** What a publisher has in hand after it moves on. */
  lemma HandFrame(pubs: map<nat, Pub>, t: nat, pub: Pub, x: nat)
    requires t in pubs ==> (Handles(pubs[t], x) ==> Handles(pub, x))
    ensures InHand(pubs, x) ==> InHand(pubs[t := pub], x)
  {
    if InHand(pubs, x) {
      var u :| u in pubs && Handles(pubs[u], x);
      assert u in pubs[t := pub] && Handles(pubs[t := pub][u], x);
    }
  }

  lemma SerialMoves(pubs: map<nat, Pub>, t: nat, pub: Pub)
    requires Serial(pubs) && t in pubs && pub.req == pubs[t].req && pubs[t].pc != Published
    ensures Serial(pubs[t := pub])
  {
  }

  /** Before a lone publisher takes its snapshot nobody handles its request's subscribers. */
  lemma NobodyHandles(s: State, t: nat, x: nat)
    requires Inv(s) && Serial(s.pubs) && t in s.pubs && s.pubs[t].pc == Starting
    requires x in s.subs && s.subs[x].req == s.pubs[t].req
    ensures !InHand(s.pubs, x)
  {
    forall u | u in s.pubs ensures !Handles(s.pubs[u], x) {
      assert PubOk(s.pubs[u], u, s.runs, s.subs) && PubOk(s.pubs[t], t, s.runs, s.subs);
    }
  }

  lemma SnapshotFrame(s: State, t: nat, x: nat)
    requires NextPub(s, t, Snapshot).Some? && x in s.subs
    ensures var n, pub := NextPub(s, t, Snapshot).value, s.pubs[t];
      n.runs == s.runs && t in n.pubs && n.pubs == s.pubs[t := n.pubs[t]] && x in n.subs
      && n.subs[x] == (if s.subs[x].req != pub.req then s.subs[x]
                       else s.subs[x].(since := s.subs[x].since + [Notice(t, pub.text)]))
      && n.pubs[t].text == pub.text && n.pubs[t].pc in {Sending, Published}
      && n.pubs[t].todo == (if pub.req in s.runs then s.runs[pub.req].subs else pub.todo)
      && pub.pc == Starting && s.cleaner == Resting
  {
  }

  lemma AnnouncedHistory(s: State, t: nat, x: nat, pub: Pub)
    requires Inv(s) && Histories(s) && t in s.pubs && s.pubs[t].pc == Starting && s.cleaner == Resting && x in s.subs
    requires s.subs[x].req == s.pubs[t].req && pub.text == s.pubs[t].text && pub.pc in {Sending, Published}
    requires pub.todo == if s.pubs[t].req in s.runs then s.runs[s.pubs[t].req].subs else {}
    ensures HistoryOk(s.subs[x].(since := s.subs[x].since + [Notice(t, pub.text)]), x, s.runs, s.pubs[t := pub])
  {
    var pubs := s.pubs[t := pub];
    assert HistoryOk(s.subs[x], x, s.runs, s.pubs);
    NobodyHandles(s, t, x);
    assert forall u :: u in pubs && u != t ==> !Handles(pubs[u], x);
    if x in pub.todo { assert Handles(pubs[t], x); }
  }

  lemma SnapshotHistory(s: State, t: nat, x: nat)
    requires Inv(s) && Histories(s) && NextPub(s, t, Snapshot).Some? && x in s.subs
    ensures var n := NextPub(s, t, Snapshot).value;
      x in n.subs && HistoryOk(n.subs[x], x, n.runs, n.pubs)
  {
    var n := NextPub(s, t, Snapshot).value;
    SnapshotFrame(s, t, x);
    assert PubOk(s.pubs[t], t, s.runs, s.subs);
    if s.subs[x].req == s.pubs[t].req {
      AnnouncedHistory(s, t, x, n.pubs[t]);
    } else {
      HandFrame(s.pubs, t, n.pubs[t], x);
      HistoryFrame(s.subs[x], n.subs[x], x, s.runs, n.runs, s.pubs, n.pubs);
    }
  }

  /** A publisher's step after the snapshot, seen by a subscriber. */
  predicate Handed(t: nat, pub: Pub, pub': Pub, sub: Sub, sub': Sub, x: nat) {
    if Pending(pub, x) && !Pending(pub', x) then
      sub'.since == sub.since
      && (sub'.sent == sub.sent + [Notice(t, pub.text)]
          || (sub'.sent == sub.sent && (sub'.closed || pub'.pc == Missing(x))))
    else sub'.since == sub.since && sub'.sent == sub.sent
  }

  /** Handling x goes on, or x has had its event, or x is out of the fan-out. */
  lemma HandedHistory(sub: Sub, sub': Sub, x: nat, runs: map<string, RunEntry>, runs': map<string, RunEntry>,
                      pubs: map<nat, Pub>, t: nat, pub': Pub)
    requires HistoryOk(sub, x, runs, pubs) && t in pubs && Handed(t, pubs[t], pub', sub, sub', x)
    requires pub'.text == pubs[t].text && sub'.req == sub.req && (sub.closed ==> sub'.closed)
    requires Pending(pub', x) ==> Pending(pubs[t], x)
    requires Live(runs', sub', x) ==> Live(runs, sub, x)
    requires pubs[t].pc == Missing(x) ==> pub'.pc == Missing(x) || !Live(runs', sub', x)
    requires Pending(pubs[t], x) && !Pending(pub', x) ==> forall u :: u in pubs && u != t ==> !Handles(pubs[u], x)
    ensures HistoryOk(sub', x, runs', pubs[t := pub'])
  {
    var pubs' := pubs[t := pub'];
    if Pending(pubs[t], x) && !Pending(pub', x) {
      assert sub.since == sub.sent + [NoticeOf(pubs, t)];
      if pub'.pc == Missing(x) { assert Handles(pubs'[t], x) && InHand(pubs', x); }
      assert forall u :: u in pubs' ==> !Pending(pubs'[u], x);
    } else {
      if Live(runs', sub', x) { HandFrame(pubs, t, pub', x); }
      HistoryFrame(sub, sub', x, runs, runs', pubs, pubs');
    }
  }

  lemma HandledAlone(s: State, t: nat, x: nat)
    requires Inv(s) && Serial(s.pubs) && t in s.pubs && Handles(s.pubs[t], x)
    ensures forall u :: u in s.pubs && u != t ==> !Handles(s.pubs[u], x)
  {
    forall u | u in s.pubs && u != t ensures !Handles(s.pubs[u], x) {
      assert PubOk(s.pubs[u], u, s.runs, s.subs) && PubOk(s.pubs[t], t, s.runs, s.subs);
    }
  }

  lemma PubStepFrame(s: State, t: nat, p: PubLabel, x: nat)
    requires NextPub(s, t, p).Some? && p != Snapshot && x in s.subs
    requires PubOk(s.pubs[t], t, s.runs, s.subs) && SubOk(s.subs[x])
    ensures var n, pub, sub := NextPub(s, t, p).value, s.pubs[t], s.subs[x];
      t in n.pubs && n.pubs == s.pubs[t := n.pubs[t]] && x in n.subs
      && n.pubs[t].text == pub.text && n.pubs[t].req == pub.req && pub.pc != Published
      && n.subs[x].req == sub.req && (sub.closed ==> n.subs[x].closed)
      && Handed(t, pub, n.pubs[t], sub, n.subs[x], x) && (Pending(n.pubs[t], x) ==> Pending(pub, x))
      && (Live(n.runs, n.subs[x], x) ==> Live(s.runs, sub, x))
      && (pub.pc == Missing(x) ==> n.pubs[t].pc == Missing(x) || !Live(n.runs, n.subs[x], x))
  {
  }

  lemma PubStepHistory(s: State, t: nat, p: PubLabel, x: nat)
    requires Inv(s) && Histories(s) && NextPub(s, t, p).Some? && p != Snapshot && x in s.subs
    ensures var n := NextPub(s, t, p).value;
      x in n.subs && HistoryOk(n.subs[x], x, n.runs, n.pubs)
  {
    assert PubOk(s.pubs[t], t, s.runs, s.subs) && SubOk(s.subs[x]) && HistoryOk(s.subs[x], x, s.runs, s.pubs);
    PubStepFrame(s, t, p, x);
    PubStepHistoryPart(s, t, x, NextPub(s, t, p).value);
  }

  lemma PubStepHistoryPart(s: State, t: nat, x: nat, n: State)
    requires Inv(s) && Histories(s) && x in s.subs && t in s.pubs && t in n.pubs && x in n.subs
    requires n.pubs == s.pubs[t := n.pubs[t]] && n.pubs[t].text == s.pubs[t].text
    requires n.subs[x].req == s.subs[x].req && (s.subs[x].closed ==> n.subs[x].closed)
    requires Handed(t, s.pubs[t], n.pubs[t], s.subs[x], n.subs[x], x)
    requires (Pending(n.pubs[t], x) ==> Pending(s.pubs[t], x))
    requires Live(n.runs, n.subs[x], x) ==> Live(s.runs, s.subs[x], x)
    requires s.pubs[t].pc == Missing(x) ==> n.pubs[t].pc == Missing(x) || !Live(n.runs, n.subs[x], x)
    ensures HistoryOk(n.subs[x], x, n.runs, n.pubs)
  {
    if Pending(s.pubs[t], x) { HandledAlone(s, t, x); }
    HandedHistory(s.subs[x], n.subs[x], x, s.runs, n.runs, s.pubs, t, n.pubs[t]);
  }

  lemma PubSerial(s: State, t: nat, p: PubLabel)
    requires Serial(s.pubs) && NextPub(s, t, p).Some?
    ensures Serial(NextPub(s, t, p).value.pubs) && NextPub(s, t, p).value.subs.Keys == s.subs.Keys
  {
    SerialMoves(s.pubs, t, NextPub(s, t, p).value.pubs[t]);
  }

  lemma PubHistories(s: State, t: nat, p: PubLabel)
    requires Inv(s) && Histories(s) && NextPub(s, t, p).Some?
    ensures Histories(NextPub(s, t, p).value)
  {
    var n := NextPub(s, t, p).value;
    PubSerial(s, t, p);
    forall x | x in n.subs ensures HistoryOk(n.subs[x], x, n.runs, n.pubs) {
      if p == Snapshot { SnapshotHistory(s, t, x); } else { PubStepHistory(s, t, p, x); }
    }
  }

  lemma StartHistories(s: State, t: nat, req: string, text: string)
    requires Inv(s) && Histories(s) && t !in s.pubs && !Publishing(s.pubs, req)
    ensures Histories(WithPub(s, t, Pub(req, text, Starting, {})))
  {
    var pub := Pub(req, text, Starting, {});
    var pubs := s.pubs[t := pub];
    forall x | x in s.subs ensures HistoryOk(s.subs[x], x, s.runs, pubs) {
      HandFrame(s.pubs, t, pub, x);
      HistoryFrame(s.subs[x], s.subs[x], x, s.runs, s.runs, s.pubs, pubs);
    }
  }

  lemma SubscribeHistories(s: State, x: nat, req: string)
    requires Inv(s) && Histories(s) && Next(s, Subscribe(x, req)).Some?
    ensures Histories(Next(s, Subscribe(x, req)).value)
  {
    var n := Next(s, Subscribe(x, req)).value;
    forall y | y in n.subs ensures HistoryOk(n.subs[y], y, n.runs, n.pubs) {
      if y == x {
        forall t | t in s.pubs ensures !Pending(s.pubs[t], x) { assert PubOk(s.pubs[t], t, s.runs, s.subs); }
      } else {
        HistoryFrame(s.subs[y], n.subs[y], y, s.runs, n.runs, s.pubs, n.pubs);
      }
    }
  }

  /** Steps that publish and send nothing and widen no fan-out. */
  predicate Quiet(s: State, n: State) {
    n.pubs == s.pubs && n.subs.Keys == s.subs.Keys
    && forall x :: x in s.subs ==>
      n.subs[x].sent == s.subs[x].sent && n.subs[x].since == s.subs[x].since && (s.subs[x].closed ==> n.subs[x].closed)
      && (Live(n.runs, n.subs[x], x) ==> Live(s.runs, s.subs[x], x))
  }

  lemma QuietSubSteps(s: State, l: Label)
    requires Next(s, l).Some? && (l.Receive? || l.CloseSub? || l.CleanClose?)
    ensures Quiet(s, Next(s, l).value)
  {
  }

  lemma QuietSteps(s: State, l: Label)
    requires Next(s, l).Some? && !l.Subscribe? && !l.StartPublish? && !l.Publisher?
    ensures Quiet(s, Next(s, l).value)
  {
    if l.Receive? || l.CloseSub? || l.CleanClose? {
      QuietSubSteps(s, l);
    } else {
      assert Next(s, l).value.subs == s.subs && Next(s, l).value.pubs == s.pubs;
    }
  }

  lemma QuietHistories(s: State, n: State)
    requires Histories(s) && Quiet(s, n)
    ensures Histories(n)
  {
    forall x | x in n.subs ensures HistoryOk(n.subs[x], x, n.runs, n.pubs) {
      HistoryFrame(s.subs[x], n.subs[x], x, s.runs, n.runs, s.pubs, n.pubs);
    }
  }

  lemma NextHistories(s: State, l: Label)
    requires Inv(s) && Histories(s) && Next(s, l).Some?
    requires l.StartPublish? ==> !Publishing(s.pubs, l.req)
    ensures Histories(Next(s, l).value)
  {
    match l
    case Subscribe(x, req) => SubscribeHistories(s, x, req);
    case StartPublish(t, req, text) => StartHistories(s, t, req, text);
    case Publisher(t, p) => PubHistories(s, t, p);
    case _ =>
      QuietSteps(s, l);
      QuietHistories(s, Next(s, l).value);
  }

  lemma SerialPrefix(ls: seq<Label>)
    requires ls != [] && SerialRun(ls) && Exec(ls).Some?
    ensures SerialRun(ls[..|ls| - 1])
    ensures var s := Exec(ls[..|ls| - 1]).value; ls[|ls| - 1].StartPublish? ==> !Publishing(s.pubs, ls[|ls| - 1].req)
  {
    var front := ls[..|ls| - 1];
    forall i | 0 <= i < |front| ensures front[..i] == ls[..i] && front[i] == ls[i] {}
  }

  lemma {:induction false} ExecHistories(ls: seq<Label>, s: State)
    requires Exec(ls) == Some(s) && SerialRun(ls)
    ensures Histories(s)
  {
    if ls != [] {
      var front := ls[..|ls| - 1];
      var m := Exec(front).value;
      SerialPrefix(ls);
      ExecHistories(front, m);
      ExecKeepsInv(front, m);
      NextHistories(m, ls[|ls| - 1]);
    }
  }

  /** If no request is published to by two publishers at once, what a subscriber
      reads is a prefix of what was published for its request since it subscribed;
      while it is in the fan-out and nobody is sending to it, it has been sent all. */
  lemma DeliveryIsAPrefix(ls: seq<Label>, s: State, x: nat)
    requires Exec(ls) == Some(s) && SerialRun(ls) && x in s.subs
    ensures var sub := s.subs[x];
      sub.received <= sub.since && sub.sent <= sub.since
      && (Live(s.runs, sub, x) && !sub.closed && !InHand(s.pubs, x) ==> sub.sent == sub.since)
  {
    ExecHistories(ls, s);
    ExecKeepsInv(ls, s);
    assert HistoryOk(s.subs[x], x, s.runs, s.pubs) && SubOk(s.subs[x]);
  }

  /** x has been passed over: an event is missing and nobody is about to send it. */
  ghost predicate Missed(s: State, x: nat) {
    x in s.subs && s.subs[x].sent != s.subs[x].since && forall t :: t in s.pubs ==> !Pending(s.pubs[t], x)
  }

  lemma MissedSnapshot(s: State, t: nat, x: nat)
    requires Inv(s) && Histories(s) && Missed(s, x) && NextPub(s, t, Snapshot).Some?
    ensures Missed(NextPub(s, t, Snapshot).value, x) && NextPub(s, t, Snapshot).value.subs[x].sent == s.subs[x].sent
  {
    assert HistoryOk(s.subs[x], x, s.runs, s.pubs);
    if s.subs[x].req == s.pubs[t].req { NobodyHandles(s, t, x); }
  }

  lemma MissedPubStep(s: State, t: nat, p: PubLabel, x: nat)
    requires Inv(s) && Histories(s) && Missed(s, x) && NextPub(s, t, p).Some? && p != Snapshot
    ensures Missed(NextPub(s, t, p).value, x) && NextPub(s, t, p).value.subs[x].sent == s.subs[x].sent
  {
    assert PubOk(s.pubs[t], t, s.runs, s.subs) && SubOk(s.subs[x]);
    PubStepFrame(s, t, p, x);
  }

  lemma MissedNewcomer(s: State, l: Label, x: nat)
    requires Missed(s, x) && Next(s, l).Some? && (l.Subscribe? || l.StartPublish?)
    ensures Missed(Next(s, l).value, x) && Next(s, l).value.subs[x].sent == s.subs[x].sent
  {
  }

  lemma MissedQuiet(s: State, n: State, x: nat)
    requires Missed(s, x) && Quiet(s, n)
    ensures Missed(n, x) && n.subs[x].sent == s.subs[x].sent
  {
  }

  lemma MissedStep(s: State, l: Label, x: nat)
    requires Inv(s) && Histories(s) && Missed(s, x) && Next(s, l).Some?
    requires l.StartPublish? ==> !Publishing(s.pubs, l.req)
    ensures Missed(Next(s, l).value, x) && Next(s, l).value.subs[x].sent == s.subs[x].sent
  {
    match l
    case Publisher(t, p) => if p == Snapshot { MissedSnapshot(s, t, x); } else { MissedPubStep(s, t, p, x); }
    case Subscribe(_, _) => MissedNewcomer(s, l, x);
    case StartPublish(_, _, _) => MissedNewcomer(s, l, x);
    case _ =>
      QuietSteps(s, l);
      MissedQuiet(s, Next(s, l).value, x);
  }

  /** After one miss a subscriber gets nothing more. */
  lemma {:induction false} NothingAfterAMiss(ls: seq<Label>, k: nat, s: State, n: State, x: nat)
    requires k <= |ls| && Exec(ls[..k]) == Some(s) && Exec(ls) == Some(n) && SerialRun(ls) && Missed(s, x)
    ensures Missed(n, x) && n.subs[x].sent == s.subs[x].sent
  {
    if k == |ls| {
      assert ls[..k] == ls;
    } else {
      var front := ls[..|ls| - 1];
      var m := Exec(front).value;
      assert front[..k] == ls[..k];
      SerialPrefix(ls);
      NothingAfterAMiss(front, k, s, m, x);
      ExecKeepsInv(front, m);
      ExecHistories(front, m);
      MissedStep(m, ls[|ls| - 1], x);
    }
  }
}
