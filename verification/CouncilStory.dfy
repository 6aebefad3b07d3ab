/** What becomes of each seat's reply in a council run. */
module CouncilStory {
  import opened Text
  import opened CouncilRows
  import opened CouncilRun
  import opened CouncilInvariant
  import opened CouncilOutcome

  // --------------------------------------------------------------- the run's labels

  /** The seat's reply so far. */
  function ReplyIn(ls: seq<Label>, x: Seat): Option<ViewReply> {
    if ls == [] then None else
    var l := ls[|ls| - 1];
    if l.View? && l.v.Deliver? && l.v.seat == x then Some(l.v.reply) else ReplyIn(ls[..|ls| - 1], x)
  }

  /** The coordinator takes x's result before the judge is triggered. */
  predicate TakesInTime(s: Run, l: Label, x: Seat) {
    l == Coord(TakeResult) && !s.co.triggered && s.chan.results != [] && s.chan.results[0].seat == x
  }

  ghost predicate TakesAt(seats: seq<Seat>, ls: seq<Label>, i: nat, x: Seat) {
    i < |ls| && Exec(seats, ls[..i]).Some? && TakesInTime(Exec(seats, ls[..i]).value, ls[i], x)
  }

  ghost predicate InTime(seats: seq<Seat>, ls: seq<Label>, x: Seat) { exists i: nat :: TakesAt(seats, ls, i, x) }

  // ------------------------------------------------------------------- one seat

  predicate PastDanger(waits: set<Seat>, hand: Option<Hand>, x: Seat) {
    x !in waits && !(Holds(hand, x) && hand.value.pc in {WriteRow, NoteFirstUsable, FlagDanger, TellDanger})
  }

  /** A result of x on its way is res, and is in hand as late or not. */
  ghost predicate ResultFits(c: Channel, hand: Option<Hand>, x: Seat, res: ViewResult, inTime: bool) {
    x !in c.calling && (forall q :: q in c.results && q.seat == x ==> q == res && !inTime)
    && (Holds(hand, x) ==> hand.value.res == res && (hand.value.late <==> !inTime))
  }

  predicate RowSays(row: ViewRow, res: ViewResult, inTime: bool) {
    row.state == StateFor(res, !inTime) && row.hasResponse == res.hasResponse
  }

  ghost predicate EventsSay(log: seq<Event>, x: Seat, res: ViewResult, inTime: bool, pastDanger: bool) {
    (SeatDanger(x) in log <==> res.danger && pastDanger)
    && forall e :: e in log && OutcomeOf(e, x) ==> e == OutcomeFor(res, !inTime)
  }

  ghost predicate SeatFits(s: Run, x: Seat, res: ViewResult, inTime: bool) {
    ResultFits(s.chan, s.hand, x, res, inTime)
    && (Written(Waits(s.chan), s.hand, x) ==> x in s.rec.views && RowSays(s.rec.views[x], res, inTime))
    && EventsSay(s.rec.log, x, res, inTime, PastDanger(Waits(s.chan), s.hand, x))
  }

  /** Until its reply x is being called; then everything about it follows from the
      reply and from whether its result was taken in time. */
  ghost predicate Story(s: Run, x: Seat, reply: Option<ViewReply>, inTime: bool) {
    match reply
    case None => x in s.chan.calling && !inTime && SeatDanger(x) !in s.rec.log
    case Some(r) => SeatFits(s, x, CallView(x, r), inTime)
  }

  // ---------------------------------------------------------------------- steps

  predicate ForSeat(e: Event, x: Seat) { e == SeatDanger(x) || OutcomeOf(e, x) }

  /** Nothing about x differs. */
  ghost predicate SameFor(s: Run, n: Run, x: Seat) {
    (x in n.chan.calling <==> x in s.chan.calling)
    && (forall q: ViewResult :: q.seat == x ==> (q in n.chan.results <==> q in s.chan.results))
    && (Holds(s.hand, x) || Holds(n.hand, x) ==> n.hand == s.hand)
    && (x in s.rec.views ==> x in n.rec.views && n.rec.views[x] == s.rec.views[x])
    && forall e :: ForSeat(e, x) ==> (e in n.rec.log <==> e in s.rec.log)
  }

  lemma SameWaits(c: Channel, d: Channel, x: Seat)
    requires x in d.calling <==> x in c.calling
    requires forall q: ViewResult :: q.seat == x ==> (q in d.results <==> q in c.results)
    ensures x in Waits(d) <==> x in Waits(c)
  {
    if x in ResultSeats(c.results) {
      var q :| q in c.results && q.seat == x;
      assert q in d.results;
    }
    if x in ResultSeats(d.results) {
      var q :| q in d.results && q.seat == x;
      assert q in c.results;
    }
  }

  lemma SameStory(s: Run, n: Run, x: Seat, reply: Option<ViewReply>, inTime: bool)
    requires SameFor(s, n, x) && Story(s, x, reply, inTime)
    ensures Story(n, x, reply, inTime)
  {
    SameWaits(s.chan, n.chan, x);
  }

  lemma NothingTold(log: seq<Event>, seats: seq<Seat>, waits: set<Seat>, hand: Option<Hand>, x: Seat)
    requires OutcomesOk(log, seats, waits, hand) && x in waits
    ensures forall e :: e in log ==> !OutcomeOf(e, x)
  {
  }

  lemma DeliverStory(s: Run, seats: seq<Seat>, n: Run, x: Seat, r: ViewReply)
    requires ChannelOk(s.chan, seats) && HandOk(s.hand, Waits(s.chan), seats)
    requires OutcomesOk(s.rec.log, seats, Waits(s.chan), s.hand)
    requires NextView(s, Deliver(x, r)) == Some(n) && Story(s, x, None, false)
    ensures Story(n, x, Some(r), false)
  {
    var res := CallView(x, r);
    CallViewIsGood(x, r);
    assert res in n.chan.results;
    assert x in Waits(n.chan) && x in Waits(s.chan);
    forall q | q in n.chan.results && q.seat == x ensures q == res { assert q !in s.chan.results; }
    NothingTold(s.rec.log, seats, Waits(s.chan), s.hand, x);
  }

  lemma OtherDelivers(s: Run, n: Run, y: Seat, r: ViewReply, x: Seat)
    requires NextView(s, Deliver(y, r)) == Some(n) && y != x
    ensures SameFor(s, n, x)
  {
    CallViewIsGood(y, r);
  }

  /** x's result is taken, in time or late. */
  lemma TakeStory(s: Run, seats: seq<Seat>, n: Run, x: Seat, res: ViewResult, inTime: bool, late: bool)
    requires ChannelOk(s.chan, seats) && OutcomesOk(s.rec.log, seats, Waits(s.chan), s.hand)
    requires s.hand == None && s.chan.results != [] && s.chan.results[0].seat == x
    requires n.chan == s.chan.(results := s.chan.results[1..]) && n.rec == s.rec
    requires n.hand == Some(Hand(s.chan.results[0], late, WriteRow)) && SeatFits(s, x, res, inTime)
    ensures SeatFits(n, x, res, !late) && !inTime
  {
    var rs := s.chan.results;
    assert rs[0] in rs && rs == [rs[0]] + rs[1..];
    assert forall q :: q in rs[1..] ==> q.seat != x;
    assert x in Waits(s.chan);
    NothingTold(s.rec.log, seats, Waits(s.chan), s.hand, x);
  }

  lemma OtherTaken(s: Run, n: Run, x: Seat, late: bool)
    requires s.hand == None && s.chan.results != [] && s.chan.results[0].seat != x
    requires n.chan == s.chan.(results := s.chan.results[1..]) && n.rec == s.rec
    requires n.hand == Some(Hand(s.chan.results[0], late, WriteRow))
    ensures SameFor(s, n, x)
  {
    var rs := s.chan.results;
    assert rs == [rs[0]] + rs[1..];
  }

  /** A statement that records x's result. */
  lemma RecordStory(s: Run, seats: seq<Seat>, n: Run, now: int, ms: int, x: Seat, res: ViewResult, inTime: bool)
    requires HandOk(s.hand, Waits(s.chan), seats) && s.rec.views.Keys == SeatSet(seats)
    requires NextRecord(s, now, ms) == Some(n) && Holds(s.hand, x) && SeatFits(s, x, res, inTime)
    ensures SeatFits(n, x, res, inTime)
  {
    var h := s.hand.value;
    RecordEvents(s.rec, h, now, ms, x);
    assert Waits(n.chan) == Waits(s.chan) && x !in Waits(s.chan);
  }

  /** What one recording statement writes about the seat in hand. */
  lemma RecordEvents(rec: CouncilRows.Record, h: Hand, now: int, ms: int, x: Seat)
    ensures var rec' := RecordStep(rec, h.res, h.late, h.pc, now, ms);
      (forall e :: ForSeat(e, x) ==>
         (e in rec'.log <==>
            e in rec.log || (h.pc == TellDanger && h.res.danger && e == SeatDanger(h.res.seat))
            || (h.pc == TellOutcome && e == OutcomeFor(h.res, h.late))))
      && rec'.views.Keys == rec.views.Keys
      && (x in rec.views ==>
            rec'.views[x] == if h.pc == WriteRow && h.res.seat == x
              then
                var state := StateFor(h.res, h.late);
                ViewRow(state, h.res.hasResponse, state == ViewComplete, Some(now))
              else rec.views[x])
  {
  }

  lemma OtherRecorded(s: Run, n: Run, now: int, ms: int, x: Seat)
    requires NextRecord(s, now, ms) == Some(n) && !Holds(s.hand, x)
    ensures SameFor(s, n, x)
  {
    RecordEvents(s.rec, s.hand.value, now, ms, x);
  }

  /** A recorded result is let go. */
  lemma ReleaseStory(s: Run, n: Run, x: Seat, reply: Option<ViewReply>, inTime: bool)
    requires s.hand.Some? && s.hand.value.pc == Recorded && n.hand == None && n.chan == s.chan && n.rec == s.rec
    requires Story(s, x, reply, inTime)
    ensures Story(n, x, reply, inTime)
  {
  }

  /** Steps that leave the channel, the hand and the view rows alone. */
  ghost predicate Aside(s: Run, n: Run) {
    n.chan == s.chan && n.hand == s.hand && n.rec.views == s.rec.views
    && forall e, x :: ForSeat(e, x) ==> (e in n.rec.log <==> e in s.rec.log)
  }

  lemma JudgeAside(s: Run, seats: seq<Seat>, l: JudgeLabel, n: Run)
    requires NextJudge(s, seats, l) == Some(n)
    ensures Aside(s, n)
  {
    JudgeSaysNothing(s.rec, s.ju, s.co.order, seats, l);
  }

  lemma JudgeSaysNothing(rec: CouncilRows.Record, ju: JudgePhase, order: seq<Seat>, seats: seq<Seat>, l: JudgeLabel)
    ensures var rec' := JudgeWrites(rec, ju, order, seats, l);
      rec'.views == rec.views && forall e, x :: ForSeat(e, x) ==> (e in rec'.log <==> e in rec.log)
  {
  }

  lemma OtherAside(s: Run, l: OtherLabel, n: Run)
    requires NextOther(s, l) == Some(n)
    ensures Aside(s, n)
  {
  }

  lemma CoordAside(s: Run, l: CoordLabel, n: Run)
    requires NextCoord(s, l) == Some(n) && !l.TakeResult? && !l.AfterRecord?
    ensures Aside(s, n)
  {
  }

  lemma AsideStory(s: Run, n: Run, x: Seat, reply: Option<ViewReply>, inTime: bool)
    requires Aside(s, n) && Story(s, x, reply, inTime)
    ensures Story(n, x, reply, inTime)
  {
    SameStory(s, n, x, reply, inTime);
  }

  /** While the coordinator or the drain may take a result, nothing is in hand. */
  lemma FreeToTake(s: Run)
    requires Controlled(s)
    ensures NextCoord(s, TakeResult).Some? ==> s.hand == None && !s.co.triggered
    ensures NextDrain(s, DrainTake).Some? ==> s.hand == None
  {
  }

  lemma ViewStory(s: Run, seats: seq<Seat>, l: ViewLabel, n: Run, x: Seat, reply: Option<ViewReply>, inTime: bool)
    requires Inv(s, seats) && NextView(s, l) == Some(n) && Story(s, x, reply, inTime)
    ensures Story(n, x, if l.Deliver? && l.seat == x then Some(l.reply) else reply, inTime)
  {
    if l.Deliver? {
      if l.seat == x {
        assert reply == None;
        DeliverStory(s, seats, n, x, l.reply);
      } else {
        OtherDelivers(s, n, l.seat, l.reply, x);
        SameStory(s, n, x, reply, inTime);
      }
    } else {
      SameStory(s, n, x, reply, inTime);
    }
  }

  lemma TakenStory(s: Run, seats: seq<Seat>, n: Run, x: Seat, reply: Option<ViewReply>, inTime: bool, late: bool)
    requires ChannelOk(s.chan, seats) && OutcomesOk(s.rec.log, seats, Waits(s.chan), s.hand)
    requires s.hand == None && s.chan.results != []
    requires n.chan == s.chan.(results := s.chan.results[1..]) && n.rec == s.rec
    requires n.hand == Some(Hand(s.chan.results[0], late, WriteRow)) && Story(s, x, reply, inTime)
    ensures Story(n, x, reply, if s.chan.results[0].seat == x then !late else inTime)
    ensures s.chan.results[0].seat == x ==> !inTime
  {
    if s.chan.results[0].seat == x {
      assert s.chan.results[0] in s.chan.results && reply.Some?;
      TakeStory(s, seats, n, x, CallView(x, reply.value), inTime, late);
    } else {
      OtherTaken(s, n, x, late);
      SameStory(s, n, x, reply, inTime);
    }
  }

  lemma RecordedStory(s: Run, seats: seq<Seat>, now: int, ms: int, n: Run, x: Seat, reply: Option<ViewReply>,
                      inTime: bool)
    requires HandOk(s.hand, Waits(s.chan), seats) && s.rec.views.Keys == SeatSet(seats)
    requires NextRecord(s, now, ms) == Some(n) && Story(s, x, reply, inTime)
    ensures Story(n, x, reply, inTime)
  {
    if Holds(s.hand, x) {
      assert reply.Some?;
      RecordStory(s, seats, n, now, ms, x, CallView(x, reply.value), inTime);
    } else {
      OtherRecorded(s, n, now, ms, x);
      SameStory(s, n, x, reply, inTime);
    }
  }

  lemma CoordTakes(s: Run, seats: seq<Seat>, n: Run, x: Seat, reply: Option<ViewReply>, inTime: bool)
    requires ChannelOk(s.chan, seats) && OutcomesOk(s.rec.log, seats, Waits(s.chan), s.hand) && Controlled(s)
    requires NextCoord(s, TakeResult) == Some(n) && Story(s, x, reply, inTime)
    ensures Story(n, x, reply, inTime || TakesInTime(s, Coord(TakeResult), x))
  {
    FreeToTake(s);
    TakenStory(s, seats, n, x, reply, inTime, false);
  }

  lemma CoordStory(s: Run, seats: seq<Seat>, l: CoordLabel, n: Run, x: Seat, reply: Option<ViewReply>, inTime: bool)
    requires ChannelOk(s.chan, seats) && OutcomesOk(s.rec.log, seats, Waits(s.chan), s.hand) && Controlled(s)
    requires NextCoord(s, l) == Some(n) && Story(s, x, reply, inTime)
    ensures Story(n, x, reply, inTime || TakesInTime(s, Coord(l), x))
  {
    if l.TakeResult? {
      CoordTakes(s, seats, n, x, reply, inTime);
    } else if l.AfterRecord? {
      ReleaseStory(s, n, x, reply, inTime);
    } else {
      CoordAside(s, l, n);
      AsideStory(s, n, x, reply, inTime);
    }
  }

  lemma DrainStory(s: Run, seats: seq<Seat>, l: DrainLabel, n: Run, x: Seat, reply: Option<ViewReply>, inTime: bool)
    requires Inv(s, seats) && NextDrain(s, l) == Some(n) && Story(s, x, reply, inTime)
    ensures Story(n, x, reply, inTime)
  {
    match l
    case DrainTake =>
      FreeToTake(s);
      TakenStory(s, seats, n, x, reply, inTime, true);
    case DrainNext => ReleaseStory(s, n, x, reply, inTime);
    case DrainExit => AsideStory(s, n, x, reply, inTime);
  }

  /** Every step goes on with the story. */
  lemma NextKeepsStory(s: Run, seats: seq<Seat>, l: Label, n: Run, x: Seat, reply: Option<ViewReply>, inTime: bool)
    requires Inv(s, seats) && Next(s, seats, l) == Some(n) && Story(s, x, reply, inTime)
    ensures Story(n, x, if l.View? && l.v.Deliver? && l.v.seat == x then Some(l.v.reply) else reply,
                  inTime || TakesInTime(s, l, x))
  {
    match l
    case Coord(c) => CoordStory(s, seats, c, n, x, reply, inTime);
    case View(v) => ViewStory(s, seats, v, n, x, reply, inTime);
    case RecordMore(now, ms) => RecordedStory(s, seats, now, ms, n, x, reply, inTime);
    case Drain(d) => DrainStory(s, seats, d, n, x, reply, inTime);
    case Judge(j) =>
      JudgeAside(s, seats, j, n);
      AsideStory(s, n, x, reply, inTime);
    case Other(o) =>
      OtherAside(s, o, n);
      AsideStory(s, n, x, reply, inTime);
  }

  lemma InTimeGrows(seats: seq<Seat>, ls: seq<Label>, p: Run, x: Seat)
    requires ls != [] && Exec(seats, ls[..|ls| - 1]) == Some(p)
    ensures InTime(seats, ls, x) <==> InTime(seats, ls[..|ls| - 1], x) || TakesInTime(p, ls[|ls| - 1], x)
  {
    var front := ls[..|ls| - 1];
    forall i: nat
      ensures TakesAt(seats, ls, i, x)
        <==> TakesAt(seats, front, i, x) || (i == |front| && TakesInTime(p, ls[|ls| - 1], x))
    {
      if i < |front| { assert front[..i] == ls[..i]; }
    }
    assert TakesAt(seats, ls, |front|, x) <==> TakesInTime(p, ls[|ls| - 1], x);
  }

  lemma {:induction false} ExecStory(seats: seq<Seat>, ls: seq<Label>, s: Run, x: Seat)
    requires Reaches(seats, ls, s) && x in SeatSet(seats)
    ensures Story(s, x, ReplyIn(ls, x), InTime(seats, ls, x))
  {
    if ls != [] {
      var front, l := ls[..|ls| - 1], ls[|ls| - 1];
      var p := Exec(seats, front).value;
      ExecStory(seats, front, p, x);
      ExecKeepsInv(seats, front);
      NextKeepsStory(p, seats, l, s, x, ReplyIn(front, x), InTime(seats, front, x));
      InTimeGrows(seats, ls, p, x);
    }
  }

  // ------------------------------------------------------------------- theorems

  /** A seat replies at most once. */
  lemma {:induction false} OneReply(seats: seq<Seat>, ls: seq<Label>, s: Run, x: Seat, r: ViewReply)
    requires Reaches(seats, ls, s) && x in SeatSet(seats)
    ensures View(Deliver(x, r)) in ls <==> ReplyIn(ls, x) == Some(r)
  {
    if ls != [] {
      var front, l := ls[..|ls| - 1], ls[|ls| - 1];
      var p := Exec(seats, front).value;
      assert ls == front + [l];
      OneReply(seats, front, p, x, r);
      ExecStory(seats, front, p, x);
      if l.View? && l.v.Deliver? && l.v.seat == x && ReplyIn(front, x).Some? {
        assert x !in p.chan.calling;
      }
    }
  }

  lemma StoryAtDone(s: Run, seats: seq<Seat>, x: Seat, reply: Option<ViewReply>, inTime: bool)
    requires Inv(s, seats) && IsDone(s) && x in SeatSet(seats) && Story(s, x, reply, inTime)
    ensures reply.Some?
    ensures x in s.rec.views && RowSays(s.rec.views[x], CallView(x, reply.value), inTime)
    ensures EventsSay(s.rec.log, x, CallView(x, reply.value), inTime, true)
  {
    DoneMeansStored(s, seats);
    assert Waits(s.chan) == {};
  }

  /** In a finished run every seat has given one reply, and all that is stored and
      published about it follows from that reply and from whether the coordinator
      took the result before the judge was triggered: the view is included exactly
      if it did and the reply is a stored answer with something in it, and danger is
      published exactly if it is a stored answer that was parsed and is urgent. */
  lemma ReplyDecides(seats: seq<Seat>, ls: seq<Label>, s: Run, x: Seat) returns (reply: ViewReply)
    requires Reaches(seats, ls, s) && IsDone(s) && x in seats
    ensures forall r :: View(Deliver(x, r)) in ls <==> r == reply
    ensures x in s.rec.views && s.rec.views[x].hasResponse == HasRow(reply)
    ensures s.rec.views[x].state ==
      if GoodAnswer(reply) then if InTime(seats, ls, x) then ViewComplete else ViewLate
      else if reply.TimedOut? then ViewTimedOut else ViewFailed
    ensures s.rec.views[x].includedInJudge <==> GoodAnswer(reply) && InTime(seats, ls, x)
    ensures SeatDanger(x) in s.rec.log <==> UrgentAnswer(reply)
    ensures forall e :: e in s.rec.log && OutcomeOf(e, x) ==>
      e == if GoodAnswer(reply) then if InTime(seats, ls, x) then SeatCompleted(x) else SeatLate(x)
           else SeatFailed(x, Reason(reply))
  {
    assert x in SeatSet(seats);
    ExecKeepsInv(seats, ls);
    ExecStory(seats, ls, s, x);
    StoryAtDone(s, seats, x, ReplyIn(ls, x), InTime(seats, ls, x));
    reply := ReplyIn(ls, x).value;
    forall r ensures View(Deliver(x, r)) in ls <==> r == reply { OneReply(seats, ls, s, x, r); }
    CallViewIsGood(x, reply);
    DoneMeansStored(s, seats);
    assert RowFits(s.rec.views[x], x, Waits(s.chan), s.hand, x in s.co.included.Keys);
  }
}
