/** The event registry: subscribers, publishers, unsubscribers and the cleaner,
    with the registry's mutex and one mutex per subscriber.  A section under a
    mutex that cannot block is one step, possible while the mutex is free. */
module Registry {
  import opened Text

  /** A published event and the publisher it comes from. */
  datatype Notice = Notice(publisher: nat, text: string)

  const BUFFER_SIZE := 32

  /** holder is the publisher that keeps the subscriber's mutex while it waits
      for space.  since, sent and received are histories: the events published for
      the request since the subscription, those put into the channel, and those
      taken out.  broken records a send on, or a close of, a closed channel. */
  datatype Sub = Sub(
    req: string, holder: Option<nat>, closed: bool, chanClosed: bool, doneClosed: bool, buffer: seq<Notice>,
    since: seq<Notice>, sent: seq<Notice>, received: seq<Notice>, broken: bool)

  datatype RunEntry = RunEntry(subs: set<nat>, hasDone: bool)

  datatype PubPc = Starting | Sending | Blocked(x: nat) | Missing(x: nat) | Closing(x: nat) | Published

  datatype Pub = Pub(req: string, text: string, pc: PubPc, todo: set<nat>)

  datatype UnsubPc = Removing | ClosingIt | Unsubscribed

  datatype CleanerPc = Resting | Scanning | Cleaning(req: string, todo: set<nat>)

  datatype State = State(
    runs: map<string, RunEntry>, subs: map<nat, Sub>, pubs: map<nat, Pub>, unsubs: map<nat, UnsubPc>,
    cleaner: CleanerPc)

  const INIT := State(map[], map[], map[], map[], Resting)

  /** Only the cleaner keeps the registry's mutex from one step to the next. */
  predicate RegistryFree(s: State) { s.cleaner == Resting }

  predicate SubFree(s: State, x: nat) { x in s.subs && s.subs[x].holder.None? }

  // ------------------------------------------------------------------ pieces

  function Entry(s: State, req: string): RunEntry { if req in s.runs then s.runs[req] else RunEntry({}, false) }

  function Put(sub: Sub, ev: Notice): Sub {
    sub.(buffer := sub.buffer + [ev], sent := sub.sent + [ev], broken := sub.broken || sub.chanClosed)
  }

  function Close(sub: Sub): Sub {
    if sub.closed then sub
    else
      sub.(closed := true, doneClosed := true, chanClosed := true,
           broken := sub.broken || sub.doneClosed || sub.chanClosed)
  }

  predicate HasRoom(sub: Sub) { |sub.buffer| < BUFFER_SIZE }

  function Without(runs: map<string, RunEntry>, req: string, x: nat): map<string, RunEntry> {
    if req in runs then runs[req := runs[req].(subs := runs[req].subs - {x})] else runs
  }

  function Announced(subs: map<nat, Sub>, req: string, ev: Notice): map<nat, Sub> {
    map x | x in subs :: if subs[x].req == req then subs[x].(since := subs[x].since + [ev]) else subs[x]
  }

  function WithSub(s: State, x: nat, sub: Sub): State { s.(subs := s.subs[x := sub]) }

  function WithPub(s: State, t: nat, pub: Pub): State { s.(pubs := s.pubs[t := pub]) }

  // ------------------------------------------------------------------- steps

  datatype PubLabel = Snapshot | Send(x: nat) | SendLater | SendAfterDone | TimeOut | Drop | CloseMissed | Finish

  datatype Label =
    | Subscribe(x: nat, req: string)
    | Register(req: string)
    | MarkDone(req: string)
    | StartPublish(t: nat, req: string, text: string)
    | Publisher(t: nat, p: PubLabel)
    | Receive(x: nat)
    | StartUnsubscribe(x: nat)
    | RemoveSub(x: nat)
    | CloseSub(x: nat)
    | Tick
    | Pick(req: string)
    | CleanClose(x: nat)
    | DeleteRun
    | EndScan

  function NextPub(s: State, t: nat, p: PubLabel): Option<State> {
    if t !in s.pubs then None else
    var pub := s.pubs[t];
    match p
    case Snapshot =>
      if pub.pc != Starting || !RegistryFree(s) then None else
      var t1 := s.(subs := Announced(s.subs, pub.req, Notice(t, pub.text)));
      if pub.req !in s.runs then Some(WithPub(t1, t, pub.(pc := Published)))
      else Some(WithPub(t1, t, pub.(pc := Sending, todo := s.runs[pub.req].subs)))
    case Send(x) =>
      if pub.pc != Sending || x !in pub.todo || !SubFree(s, x) then None else
      var sub, rest := s.subs[x], pub.(todo := pub.todo - {x});
      if sub.closed then Some(WithPub(s, t, rest))
      else if HasRoom(sub) then Some(WithPub(WithSub(s, x, Put(sub, Notice(t, pub.text))), t, rest))
      else Some(WithPub(WithSub(s, x, sub.(holder := Some(t))), t, rest.(pc := Blocked(x))))
    case SendLater =>
      if !pub.pc.Blocked? || pub.pc.x !in s.subs || !HasRoom(s.subs[pub.pc.x]) then None else
      var x := pub.pc.x;
      Some(WithPub(WithSub(s, x, Put(s.subs[x], Notice(t, pub.text)).(holder := None)), t, pub.(pc := Sending)))
    case SendAfterDone =>
      if !pub.pc.Blocked? || pub.pc.x !in s.subs || !s.subs[pub.pc.x].doneClosed then None else
      var x := pub.pc.x;
      Some(WithPub(WithSub(s, x, s.subs[x].(holder := None)), t, pub.(pc := Sending)))
    case TimeOut =>
      if !pub.pc.Blocked? || pub.pc.x !in s.subs then None else
      var x := pub.pc.x;
      Some(WithPub(WithSub(s, x, s.subs[x].(holder := None)), t, pub.(pc := Missing(x))))
    case Drop =>
      if !pub.pc.Missing? || !RegistryFree(s) then None
      else Some(WithPub(s.(runs := Without(s.runs, pub.req, pub.pc.x)), t, pub.(pc := Closing(pub.pc.x))))
    case CloseMissed =>
      if !pub.pc.Closing? || !SubFree(s, pub.pc.x) then None
      else Some(WithPub(WithSub(s, pub.pc.x, Close(s.subs[pub.pc.x])), t, pub.(pc := Sending)))
    case Finish =>
      if pub.pc != Sending || pub.todo != {} then None else Some(WithPub(s, t, pub.(pc := Published)))
  }

  function Next(s: State, l: Label): Option<State> {
    match l
    case Subscribe(x, req) =>
      if x in s.subs || !RegistryFree(s) then None else
      var e := Entry(s, req);
      Some(s.(runs := s.runs[req := e.(subs := e.subs + {x})],
              subs := s.subs[x := Sub(req, None, false, false, false, [], [], [], [], false)]))
    case Register(req) => if !RegistryFree(s) then None else Some(s.(runs := s.runs[req := Entry(s, req)]))
    case MarkDone(req) =>
      if !RegistryFree(s) then None else Some(s.(runs := s.runs[req := Entry(s, req).(hasDone := true)]))
    case StartPublish(t, req, text) =>
      if t in s.pubs then None else Some(WithPub(s, t, Pub(req, text, Starting, {})))
    case Publisher(t, p) => NextPub(s, t, p)
    case Receive(x) =>
      if x !in s.subs || s.subs[x].buffer == [] then None else
      var sub := s.subs[x];
      Some(WithSub(s, x, sub.(buffer := sub.buffer[1..], received := sub.received + [sub.buffer[0]])))
    case StartUnsubscribe(x) =>
      if x !in s.subs || x in s.unsubs then None else Some(s.(unsubs := s.unsubs[x := Removing]))
    case RemoveSub(x) =>
      if x !in s.unsubs || s.unsubs[x] != Removing || x !in s.subs || !RegistryFree(s) then None
      else Some(s.(runs := Without(s.runs, s.subs[x].req, x), unsubs := s.unsubs[x := ClosingIt]))
    case CloseSub(x) =>
      if x !in s.unsubs || s.unsubs[x] != ClosingIt || !SubFree(s, x) then None
      else Some(WithSub(s, x, Close(s.subs[x])).(unsubs := s.unsubs[x := Unsubscribed]))
    case Tick => if s.cleaner != Resting then None else Some(s.(cleaner := Scanning))
    case Pick(req) =>
      if s.cleaner != Scanning || req !in s.runs || !s.runs[req].hasDone then None
      else Some(s.(cleaner := Cleaning(req, s.runs[req].subs)))
    case CleanClose(x) =>
      if !s.cleaner.Cleaning? || x !in s.cleaner.todo || !SubFree(s, x) then None
      else Some(WithSub(s, x, Close(s.subs[x])).(cleaner := s.cleaner.(todo := s.cleaner.todo - {x})))
    case DeleteRun =>
      if !s.cleaner.Cleaning? || s.cleaner.todo != {} then None
      else Some(s.(runs := s.runs - {s.cleaner.req}, cleaner := Scanning))
    case EndScan => if s.cleaner != Scanning then None else Some(s.(cleaner := Resting))
  }

  function Exec(ls: seq<Label>): Option<State> {
    if ls == [] then Some(INIT) else
    match Exec(ls[..|ls| - 1])
    case None => None
    case Some(s) => Next(s, ls[|ls| - 1])
  }

  // -------------------------------------------------------------- invariants

  predicate SubOk(sub: Sub) {
    !sub.broken && sub.chanClosed == sub.closed && sub.doneClosed == sub.closed
    && |sub.buffer| <= BUFFER_SIZE && sub.sent == sub.received + sub.buffer
    && (sub.holder.Some? ==> !sub.closed)
  }

  /** The subscriber is in its request's fan-out. */
  predicate Live(runs: map<string, RunEntry>, sub: Sub, x: nat) { sub.req in runs && x in runs[sub.req].subs }

  predicate PubOk(pub: Pub, t: nat, runs: map<string, RunEntry>, subs: map<nat, Sub>) {
    (forall x :: x in pub.todo ==> x in subs && subs[x].req == pub.req)
    && (pub.pc in {Starting, Published} ==> pub.todo == {})
    && match pub.pc
       case Blocked(x) => x in subs && subs[x].req == pub.req && subs[x].holder == Some(t) && x !in pub.todo
       case Missing(x) => x in subs && subs[x].req == pub.req && x !in pub.todo
       case Closing(x) => x in subs && subs[x].req == pub.req && x !in pub.todo && !Live(runs, subs[x], x)
       case _ => true
  }

  ghost predicate HoldersOk(subs: map<nat, Sub>, pubs: map<nat, Pub>) {
    forall x :: x in subs && subs[x].holder.Some? ==>
      subs[x].holder.value in pubs && pubs[subs[x].holder.value].pc == Blocked(x)
  }

  /** Whoever is in a run's fan-out exists, belongs there, and is open unless the
      cleaner has just closed it. */
  predicate RunsOk(runs: map<string, RunEntry>, subs: map<nat, Sub>, cleaner: CleanerPc) {
    (forall q :: q in runs ==> forall x :: x in runs[q].subs ==>
       x in subs && subs[x].req == q
       && (subs[x].closed ==> cleaner.Cleaning? && cleaner.req == q && x !in cleaner.todo))
    && (cleaner.Cleaning? ==> cleaner.req in runs && cleaner.todo <= runs[cleaner.req].subs)
  }

  predicate UnsubOk(pc: UnsubPc, x: nat, runs: map<string, RunEntry>, subs: map<nat, Sub>) {
    x in subs && (pc == ClosingIt ==> !Live(runs, subs[x], x))
  }

  ghost predicate PubsOk(pubs: map<nat, Pub>, runs: map<string, RunEntry>, subs: map<nat, Sub>) {
    forall t :: t in pubs ==> PubOk(pubs[t], t, runs, subs)
  }

  ghost predicate Inv(s: State) {
    (forall x :: x in s.subs ==> SubOk(s.subs[x]))
    && PubsOk(s.pubs, s.runs, s.subs)
    && HoldersOk(s.subs, s.pubs)
    && RunsOk(s.runs, s.subs, s.cleaner)
    && (forall x :: x in s.unsubs ==> UnsubOk(s.unsubs[x], x, s.runs, s.subs))
  }

  // ------------------------------------------------------------- preservation

  /** A publisher moves on without touching a subscriber. */
  lemma PubMoves(s: State, t: nat, pub: Pub)
    requires Inv(s) && PubOk(pub, t, s.runs, s.subs)
    requires t in s.pubs ==> pub.pc == s.pubs[t].pc || !s.pubs[t].pc.Blocked?
    ensures Inv(WithPub(s, t, pub))
  {
  }

  /** Subscribers stay where they are: none enters a fan-out, no mutex changes hands. */
  ghost predicate Alike(runs: map<string, RunEntry>, subs: map<nat, Sub>, runs': map<string, RunEntry>,
                        subs': map<nat, Sub>)
  {
    forall y :: y in subs ==>
      y in subs' && subs'[y].req == subs[y].req && subs'[y].holder == subs[y].holder
      && (Live(runs', subs'[y], y) ==> Live(runs, subs[y], y))
  }

  /** Then publishers and unsubscribers are as well off as before. */
  lemma AlikeKeeps(s: State, runs: map<string, RunEntry>, subs: map<nat, Sub>)
    requires Inv(s) && Alike(s.runs, s.subs, runs, subs)
    ensures PubsOk(s.pubs, runs, subs)
    ensures forall y :: y in s.unsubs ==> UnsubOk(s.unsubs[y], y, runs, subs)
  {
    forall t | t in s.pubs ensures PubOk(s.pubs[t], t, runs, subs) { assert PubOk(s.pubs[t], t, s.runs, s.subs); }
    forall y | y in s.unsubs ensures UnsubOk(s.unsubs[y], y, runs, subs) {
      assert UnsubOk(s.unsubs[y], y, s.runs, s.subs);
    }
  }

  lemma FanOutsStay(s: State, x: nat, sub: Sub)
    requires Inv(s) && x in s.subs && sub.req == s.subs[x].req && sub.holder == s.subs[x].holder
    requires sub.closed ==> s.subs[x].closed || !Live(s.runs, sub, x)
    ensures RunsOk(s.runs, s.subs[x := sub], s.cleaner) && HoldersOk(s.subs[x := sub], s.pubs)
  {
  }

  /** A subscriber changes without anybody taking or giving up its mutex. */
  lemma SubMoves(s: State, x: nat, sub: Sub)
    requires Inv(s) && x in s.subs && SubOk(sub) && sub.req == s.subs[x].req && sub.holder == s.subs[x].holder
    requires sub.closed ==> s.subs[x].closed || !Live(s.runs, sub, x)
    ensures Inv(WithSub(s, x, sub))
  {
    AlikeKeeps(s, s.runs, s.subs[x := sub]);
    FanOutsStay(s, x, sub);
  }

  /** The publishers and the mutexes after one publisher has taken or given up one. */
  lemma HoldersMove(s: State, x: nat, sub: Sub, t: nat, pub: Pub)
    requires Inv(s) && x in s.subs && sub.req == s.subs[x].req
    requires t in s.pubs && pub.req == s.pubs[t].req && pub.todo <= s.pubs[t].todo && x !in pub.todo
    requires s.subs[x].holder in {None, Some(t)} && (s.pubs[t].pc.Blocked? ==> s.pubs[t].pc.x == x)
    requires (pub.pc == Blocked(x) && sub.holder == Some(t) && sub.req == pub.req)
      || (pub.pc == Sending && sub.holder == None)
      || (pub.pc == Missing(x) && sub.holder == None && sub.req == pub.req)
    ensures PubsOk(s.pubs[t := pub], s.runs, s.subs[x := sub]) && HoldersOk(s.subs[x := sub], s.pubs[t := pub])
  {
    var pubs := s.pubs[t := pub];
    forall u | u in pubs ensures PubOk(pubs[u], u, s.runs, s.subs[x := sub]) {
      assert PubOk(s.pubs[u], u, s.runs, s.subs);
    }
  }

  /** A publisher takes or gives up a subscriber's mutex. */
  lemma HolderMoves(s: State, x: nat, sub: Sub, t: nat, pub: Pub)
    requires Inv(s) && x in s.subs && SubOk(sub) && sub.req == s.subs[x].req && sub.closed == s.subs[x].closed
    requires t in s.pubs && pub.req == s.pubs[t].req && pub.todo <= s.pubs[t].todo && x !in pub.todo
    requires s.subs[x].holder in {None, Some(t)} && (s.pubs[t].pc.Blocked? ==> s.pubs[t].pc.x == x)
    requires (pub.pc == Blocked(x) && sub.holder == Some(t) && sub.req == pub.req)
      || (pub.pc == Sending && sub.holder == None)
      || (pub.pc == Missing(x) && sub.holder == None && sub.req == pub.req)
    ensures Inv(WithPub(WithSub(s, x, sub), t, pub))
  {
    HoldersMove(s, x, sub, t, pub);
    forall y | y in s.unsubs ensures UnsubOk(s.unsubs[y], y, s.runs, s.subs[x := sub]) {
      assert UnsubOk(s.unsubs[y], y, s.runs, s.subs);
    }
  }

  /** Only the histories of what was published differ. */
  ghost predicate SameButSince(subs: map<nat, Sub>, subs': map<nat, Sub>) {
    subs.Keys == subs'.Keys && forall x :: x in subs ==> subs'[x] == subs[x].(since := subs'[x].since)
  }

  lemma SameSubsOk(s: State, subs: map<nat, Sub>)
    requires Inv(s) && SameButSince(s.subs, subs)
    ensures Inv(s.(subs := subs))
  {
    forall x | x in subs ensures SubOk(subs[x]) { assert SubOk(s.subs[x]); }
    AlikeKeeps(s, s.runs, subs);
  }

  lemma SnapshotKeepsInv(s: State, t: nat)
    requires Inv(s) && NextPub(s, t, Snapshot).Some?
    ensures Inv(NextPub(s, t, Snapshot).value)
  {
    var pub := s.pubs[t];
    var subs := Announced(s.subs, pub.req, Notice(t, pub.text));
    assert PubOk(pub, t, s.runs, s.subs) && SameButSince(s.subs, subs);
    SameSubsOk(s, subs);
    PubMoves(s.(subs := subs), t, NextPub(s, t, Snapshot).value.pubs[t]);
  }

  /** Taking a subscriber out of a fan-out. */
  lemma RunsShrink(s: State, req: string, x: nat)
    requires Inv(s) && RegistryFree(s)
    ensures Inv(s.(runs := Without(s.runs, req, x)))
  {
    AlikeKeeps(s, Without(s.runs, req, x), s.subs);
  }

  lemma SendKeepsInv(s: State, t: nat, x: nat)
    requires Inv(s) && NextPub(s, t, Send(x)).Some?
    ensures Inv(NextPub(s, t, Send(x)).value)
  {
    var pub, sub := s.pubs[t], s.subs[x];
    var rest := pub.(todo := pub.todo - {x});
    assert SubOk(sub) && PubOk(pub, t, s.runs, s.subs);
    if sub.closed {
      PubMoves(s, t, rest);
    } else if HasRoom(sub) {
      HolderMoves(s, x, Put(sub, Notice(t, pub.text)), t, rest);
    } else {
      HolderMoves(s, x, sub.(holder := Some(t)), t, rest.(pc := Blocked(x)));
    }
  }

  lemma BlockedKeepsInv(s: State, t: nat, p: PubLabel)
    requires Inv(s) && NextPub(s, t, p).Some? && (p.SendLater? || p.SendAfterDone? || p.TimeOut?)
    ensures Inv(NextPub(s, t, p).value)
  {
    var pub := s.pubs[t];
    var x := pub.pc.x;
    var sub := s.subs[x];
    assert PubOk(pub, t, s.runs, s.subs) && SubOk(sub);
    match p
    case SendLater => HolderMoves(s, x, Put(sub, Notice(t, pub.text)).(holder := None), t, pub.(pc := Sending));
    case TimeOut => HolderMoves(s, x, sub.(holder := None), t, pub.(pc := Missing(x)));
    case _ => HolderMoves(s, x, sub.(holder := None), t, pub.(pc := Sending));
  }

  lemma PubKeepsInv(s: State, t: nat, p: PubLabel)
    requires Inv(s) && NextPub(s, t, p).Some?
    ensures Inv(NextPub(s, t, p).value)
  {
    var pub := s.pubs[t];
    assert PubOk(pub, t, s.runs, s.subs);
    match p
    case Snapshot => SnapshotKeepsInv(s, t);
    case Send(x) => SendKeepsInv(s, t, x);
    case Drop =>
      RunsShrink(s, pub.req, pub.pc.x);
      PubMoves(s.(runs := Without(s.runs, pub.req, pub.pc.x)), t, pub.(pc := Closing(pub.pc.x)));
    case CloseMissed =>
      var x := pub.pc.x;
      assert SubOk(s.subs[x]);
      SubMoves(s, x, Close(s.subs[x]));
      PubMoves(WithSub(s, x, Close(s.subs[x])), t, pub.(pc := Sending));
    case Finish => PubMoves(s, t, pub.(pc := Published));
    case _ => BlockedKeepsInv(s, t, p);
  }

  lemma SubscribeKeepsInv(s: State, x: nat, req: string)
    requires Inv(s) && Next(s, Subscribe(x, req)).Some?
    ensures Inv(Next(s, Subscribe(x, req)).value)
  {
    var n := Next(s, Subscribe(x, req)).value;
    AlikeKeeps(s, n.runs, n.subs);
  }

  /** Registering and marking done change no fan-out. */
  lemma EntryKeepsInv(s: State, req: string, e: RunEntry)
    requires Inv(s) && RegistryFree(s) && e.subs == Entry(s, req).subs
    ensures Inv(s.(runs := s.runs[req := e]))
  {
    AlikeKeeps(s, s.runs[req := e], s.subs);
  }

  lemma UnsubKeepsInv(s: State, x: nat, l: Label)
    requires Inv(s) && Next(s, l).Some? && (l == RemoveSub(x) || l == CloseSub(x))
    ensures Inv(Next(s, l).value)
  {
    assert UnsubOk(s.unsubs[x], x, s.runs, s.subs);
    if l.RemoveSub? {
      RunsShrink(s, s.subs[x].req, x);
    } else {
      SubMoves(s, x, Close(s.subs[x]));
    }
  }

  lemma CleanCloseKeepsInv(s: State, x: nat)
    requires Inv(s) && Next(s, CleanClose(x)).Some?
    ensures Inv(Next(s, CleanClose(x)).value)
  {
    AlikeKeeps(s, s.runs, Next(s, CleanClose(x)).value.subs);
  }

  lemma DeleteRunKeepsInv(s: State)
    requires Inv(s) && Next(s, DeleteRun).Some?
    ensures Inv(Next(s, DeleteRun).value)
  {
    AlikeKeeps(s, Next(s, DeleteRun).value.runs, s.subs);
  }

  lemma PickKeepsInv(s: State, l: Label)
    requires Inv(s) && Next(s, l).Some? && (l.Tick? || l.Pick? || l.EndScan?)
    ensures Inv(Next(s, l).value)
  {
  }

  /** Every step keeps the invariant. */
  lemma NextKeepsInv(s: State, l: Label)
    requires Inv(s) && Next(s, l).Some?
    ensures Inv(Next(s, l).value)
  {
    match l
    case Subscribe(x, req) => SubscribeKeepsInv(s, x, req);
    case Register(req) => EntryKeepsInv(s, req, Entry(s, req));
    case MarkDone(req) => EntryKeepsInv(s, req, Entry(s, req).(hasDone := true));
    case StartPublish(t, req, text) => PubMoves(s, t, Pub(req, text, Starting, {}));
    case Publisher(t, p) => PubKeepsInv(s, t, p);
    case Receive(x) =>
      var sub := s.subs[x];
      assert SubOk(sub);
      SubMoves(s, x, sub.(buffer := sub.buffer[1..], received := sub.received + [sub.buffer[0]]));
    case StartUnsubscribe(x) =>
    case RemoveSub(x) => UnsubKeepsInv(s, x, l);
    case CloseSub(x) => UnsubKeepsInv(s, x, l);
    case CleanClose(x) => CleanCloseKeepsInv(s, x);
    case DeleteRun => DeleteRunKeepsInv(s);
    case _ => PickKeepsInv(s, l);
  }
}
