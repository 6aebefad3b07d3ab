/** What every interleaving of a council run keeps. */
module CouncilInvariant {
  import opened Text
  import opened CouncilRows
  import opened CouncilRun

  ghost predicate DistinctSeats(seats: seq<Seat>) { forall i, j :: 0 <= i < j < |seats| ==> seats[i] != seats[j] }

  /** What CallView guarantees of a result. */
  predicate Coherent(r: ViewResult) {
    (r.usable <==> r.terminal) && (r.danger ==> r.terminal) && (r.terminal ==> r.hasResponse && !r.timedOut)
  }

  function ResultSeats(rs: seq<ViewResult>): set<Seat> { set r | r in rs :: r.seat }

  /** The seats whose result has not been taken from the channel yet. */
  function Waits(c: Channel): set<Seat> { c.calling + ResultSeats(c.results) }

  predicate Holds(hand: Option<Hand>, seat: Seat) { hand.Some? && hand.value.res.seat == seat }

  /** The seat's row has been written. */
  predicate Written(waits: set<Seat>, hand: Option<Hand>, seat: Seat) {
    seat !in waits && !(Holds(hand, seat) && hand.value.pc == WriteRow)
  }

  /** The seat's outcome event has been published. */
  predicate Told(waits: set<Seat>, hand: Option<Hand>, seat: Seat) {
    seat !in waits && !(Holds(hand, seat) && hand.value.pc != Recorded)
  }

  // --------------------------------------------------------------- invariants

  /** Every undelivered or queued result belongs to exactly one seat. */
  ghost predicate ChannelOk(c: Channel, seats: seq<Seat>) {
    c.calling <= SeatSet(seats)
    && (forall i :: 0 <= i < |c.results| ==>
          c.results[i].seat in SeatSet(seats) && c.results[i].seat !in c.calling && Coherent(c.results[i]))
    && (forall i, j :: 0 <= i < j < |c.results| ==> c.results[i].seat != c.results[j].seat)
    && (c.closed ==> c.calling == {})
  }

  /** A result in hand has left the channel. */
  ghost predicate HandOk(hand: Option<Hand>, waits: set<Seat>, seats: seq<Seat>) {
    hand.Some? ==> hand.value.res.seat in SeatSet(seats) && hand.value.res.seat !in waits && Coherent(hand.value.res)
  }

  /** Until the judge is triggered the coordinator counts what is still to come. */
  predicate CountOk(co: Coordinator, c: Channel) { !co.triggered ==> co.pending == |c.calling| + |c.results| }

  /** Which program points can be reached together. */
  predicate ControlOk(co: Coordinator, c: Channel, hand: Option<Hand>, drain: DrainPc, judge: JudgePc) {
    (co.triggered <==> judge != Idle)
    && (co.pc in {AtStart, AtSelect, CoordRecording} <==> drain == DrainIdle)
    && (!co.triggered ==> drain == DrainIdle && (co.pc in {AtStart, AtSelect} ==> co.pending > 0))
    && (co.triggered ==> co.pending == -1 && co.pc !in {AtStart, CoordRecording})
    && (hand.Some? <==> co.pc == CoordRecording || drain == DrainRecording)
    && (hand.Some? ==> (hand.value.late <==> drain == DrainRecording))
    && (co.pc == AtStart ==> !c.closed)
    && (drain == DrainExited ==> c.closed && c.results == [])
    && (co.pc in {AwaitJudge, Returned} ==> drain == DrainExited)
    && (co.pc == Returned ==> judge == JudgeReturned)
    && (Rank(judge) > Rank(AwaitViews) ==> drain == DrainExited)
  }

  /** A seat's row, against what has happened to its result. */
  ghost predicate RowFits(row: ViewRow, seat: Seat, waits: set<Seat>, hand: Option<Hand>, isIncluded: bool) {
    (row.includedInJudge <==> row.state == ViewComplete)
    && (row.state == ViewPending <==> !Written(waits, hand, seat))
    && (isIncluded ==> row.state == ViewComplete && !Holds(hand, seat))
    && (row.state == ViewComplete && !isIncluded ==> Holds(hand, seat) && !hand.value.late)
    && (Holds(hand, seat) && Written(waits, hand, seat) ==> row.state == StateFor(hand.value.res, hand.value.late))
    && (row.state == ViewComplete ==> row.hasResponse)
  }

  ghost predicate RowsOk(views: map<Seat, ViewRow>, seats: seq<Seat>, waits: set<Seat>, hand: Option<Hand>,
                         included: set<Seat>)
  {
    views.Keys == SeatSet(seats)
    && forall seat :: seat in views ==> RowFits(views[seat], seat, waits, hand, seat in included)
  }

  /** The order of arrival lists the included seats, each once. */
  ghost predicate OrderOk(co: Coordinator, seats: seq<Seat>) {
    co.included.Keys <= SeatSet(seats) && SeatSet(co.order) == co.included.Keys && DistinctSeats(co.order)
  }

  predicate IsOutcome(e: Event) { e.SeatCompleted? || e.SeatFailed? || e.SeatLate? }

  predicate IsResult(e: Event) { e.JudgeSucceeded? || e.JudgeErred? }

  predicate OutcomeOf(e: Event, seat: Seat) { IsOutcome(e) && e.seat == seat }

  /** An event may stand before another one in the log of a run. */
  predicate MayPrecede(a: Event, b: Event) {
    (IsOutcome(a) ==> !(OutcomeOf(b, a.seat) || b == SeatDanger(a.seat)))
    && (a.JudgeStarted? ==> !b.SeatCompleted? && !b.JudgeStarted?)
    && (IsResult(a) ==> !IsOutcome(b) && !IsResult(b) && !b.JudgeStarted? && !b.SeatDanger? && !b.JudgeDanger?)
    && (a.Done? ==> b.SupersededBy?)
  }

  ghost predicate Ordered(log: seq<Event>) { forall i, j :: 0 <= i < j < |log| ==> MayPrecede(log[i], log[j]) }

  /** An outcome event says what the row says. */
  predicate Agrees(e: Event, views: map<Seat, ViewRow>) {
    IsOutcome(e) ==>
      e.seat in views &&
      match views[e.seat].state
      case ViewComplete => e.SeatCompleted?
      case ViewLate => e.SeatLate?
      case ViewTimedOut => e.SeatFailed?
      case ViewFailed => e.SeatFailed?
      case ViewPending => false
  }

  /** Exactly the seats already told have an outcome event. */
  ghost predicate OutcomesOk(log: seq<Event>, seats: seq<Seat>, waits: set<Seat>, hand: Option<Hand>) {
    (forall e :: e in log && IsOutcome(e) ==> e.seat in SeatSet(seats) && Told(waits, hand, e.seat))
    && (forall seat :: seat in SeatSet(seats) && Told(waits, hand, seat) ==> exists e :: e in log && OutcomeOf(e, seat))
  }

  /** Exactly the judge's events up to its program point are in the log. */
  ghost predicate MilestonesOk(log: seq<Event>, judge: JudgePc) {
    ((exists e :: e in log && e.JudgeStarted?) <==> Rank(judge) > Rank(Announce))
    && ((exists e :: e in log && IsResult(e)) <==> Rank(judge) > Rank(TellResult))
    && ((exists e :: e in log && e.Done?) <==> Rank(judge) > Rank(TellDone))
  }

  /** What the judge's events say. */
  ghost predicate SaysOk(log: seq<Event>, ju: JudgePhase, order: seq<Seat>, seats: seq<Seat>) {
    forall e :: e in log ==>
      (e.JudgeStarted? ==> e == JudgeStarted(order))
      && (IsResult(e) ==> e == ResultEvent(seats, ju.missing, ju.reply))
      && (e.Done? ==> e == Done(FinalStateFor(ju.missing, ju.reply)))
  }

  ghost predicate LogOk(log: seq<Event>, views: map<Seat, ViewRow>, seats: seq<Seat>, waits: set<Seat>,
                        hand: Option<Hand>, judge: JudgePc)
  {
    Ordered(log)
    && (forall e :: e in log ==> Agrees(e, views))
    && OutcomesOk(log, seats, waits, hand)
    && MilestonesOk(log, judge)
  }

  ghost predicate MissingOk(ju: JudgePhase, included: set<Seat>, seats: seq<Seat>) {
    Rank(ju.pc) > Rank(Build) ==> ju.missing == MissingSeats(seats, included)
  }

  ghost predicate RowOk(row: JudgeRow, ju: JudgePhase, seats: seq<Seat>) {
    Rank(ju.pc) > Rank(WriteResult) ==> row == JudgeRowFor(seats, ju.missing, ju.reply)
  }

  predicate RequestOk(request: RequestRow, ju: JudgePhase) {
    (Rank(ju.pc) > Rank(WriteFinalState) ==>
       request.state == Superseded || request.state == FinalStateFor(ju.missing, ju.reply))
    && (Rank(ju.pc) > Rank(WriteProgress) ==> request.finishedAt.Some? && request.tFinalMs.Some?)
  }

  /** What the judge has computed and stored so far. */
  ghost predicate StoredOk(request: RequestRow, row: JudgeRow, ju: JudgePhase, included: set<Seat>, seats: seq<Seat>) {
    MissingOk(ju, included, seats) && RowOk(row, ju, seats) && RequestOk(request, ju)
  }

  ghost predicate Inv(s: Run, seats: seq<Seat>) {
    ChannelOk(s.chan, seats) && HandOk(s.hand, Waits(s.chan), seats) && CountOk(s.co, s.chan)
    && ControlOk(s.co, s.chan, s.hand, s.drain, s.ju.pc)
    && RowsOk(s.rec.views, seats, Waits(s.chan), s.hand, s.co.included.Keys) && OrderOk(s.co, seats)
    && LogOk(s.rec.log, s.rec.views, seats, Waits(s.chan), s.hand, s.ju.pc)
    && SaysOk(s.rec.log, s.ju, s.co.order, seats)
    && StoredOk(s.rec.request, s.rec.judge, s.ju, s.co.included.Keys, seats)
  }

  // ------------------------------------------------------------- preservation

  lemma {:induction false} DistinctCount(seats: seq<Seat>)
    requires DistinctSeats(seats)
    ensures |SeatSet(seats)| == |seats|
  {
    if seats != [] {
      var front, last := seats[..|seats| - 1], seats[|seats| - 1];
      DistinctCount(front);
      assert SeatSet(seats) == SeatSet(front) + {last};
    }
  }

  lemma InitInv(seats: seq<Seat>)
    requires DistinctSeats(seats) && seats != []
    ensures Inv(Init(seats), seats)
  {
    DistinctCount(seats);
  }

  /** Appending one event to an ordered log. */
  lemma AppendOrdered(log: seq<Event>, e: Event)
    requires Ordered(log) && forall a :: a in log ==> MayPrecede(a, e)
    ensures Ordered(log + [e])
  {
  }

  lemma ChannelTake(c: Channel, seats: seq<Seat>)
    requires ChannelOk(c, seats) && c.results != []
    ensures var c' := c.(results := c.results[1..]);
      ChannelOk(c', seats) && Waits(c') == Waits(c) - {c.results[0].seat}
    ensures c.results[0].seat in Waits(c) && c.results[0].seat in SeatSet(seats) && Coherent(c.results[0])
  {
    var rs := c.results;
    assert rs == [rs[0]] + rs[1..];
    assert ResultSeats(rs) == ResultSeats(rs[1..]) + {rs[0].seat};
    assert rs[0].seat !in ResultSeats(rs[1..]);
  }

  lemma CallViewIsGood(seat: Seat, reply: ViewReply)
    ensures var r := CallView(seat, reply);
      Coherent(r) && r.seat == seat && (r.terminal <==> GoodAnswer(reply)) && (r.usable <==> GoodAnswer(reply))
      && (r.danger <==> UrgentAnswer(reply)) && (r.timedOut <==> reply.TimedOut?) && (r.hasResponse <==> HasRow(reply))
      && r.failReason == Reason(reply)
  {
  }

  lemma ChannelDeliver(c: Channel, seats: seq<Seat>, r: ViewResult)
    requires ChannelOk(c, seats) && r.seat in c.calling && Coherent(r)
    ensures ChannelOk(c.(calling := c.calling - {r.seat}, results := c.results + [r]), seats)
  {
  }

  lemma DeliverWaits(c: Channel, r: ViewResult)
    requires r.seat in c.calling
    ensures var c' := c.(calling := c.calling - {r.seat}, results := c.results + [r]);
      Waits(c') == Waits(c) && |c'.calling| + |c'.results| == |c.calling| + |c.results|
  {
    assert ResultSeats(c.results + [r]) == ResultSeats(c.results) + {r.seat};
  }

  lemma ChannelStep(c: Channel, seats: seq<Seat>, l: ViewLabel)
    requires ChannelOk(c, seats) && NextChannel(c, l).Some?
    ensures var c' := NextChannel(c, l).value;
      ChannelOk(c', seats) && Waits(c') == Waits(c) && |c'.calling| + |c'.results| == |c.calling| + |c.results|
      && (c.closed ==> c'.closed && c'.results == c.results)
  {
    if l.Deliver? {
      CallViewIsGood(l.seat, l.reply);
      ChannelDeliver(c, seats, CallView(l.seat, l.reply));
      DeliverWaits(c, CallView(l.seat, l.reply));
    }
  }

  lemma ViewKeepsInv(s: Run, seats: seq<Seat>, l: ViewLabel)
    requires Inv(s, seats) && NextView(s, l).Some?
    ensures Inv(NextView(s, l).value, seats)
  {
    ChannelStep(s.chan, seats, l);
  }

  // Taking, recording and releasing one result.

  lemma RowsTake(views: map<Seat, ViewRow>, seats: seq<Seat>, waits: set<Seat>, r: ViewResult, late: bool,
                 included: set<Seat>)
    requires RowsOk(views, seats, waits, None, included) && r.seat in waits
    ensures RowsOk(views, seats, waits - {r.seat}, Some(Hand(r, late, WriteRow)), included)
  {
  }

  lemma OutcomesTake(log: seq<Event>, seats: seq<Seat>, waits: set<Seat>, r: ViewResult, late: bool)
    requires OutcomesOk(log, seats, waits, None) && r.seat in waits
    ensures OutcomesOk(log, seats, waits - {r.seat}, Some(Hand(r, late, WriteRow)))
  {
    var waits', hand' := waits - {r.seat}, Some(Hand(r, late, WriteRow));
    assert forall x :: Told(waits', hand', x) <==> Told(waits, None, x);
  }

  lemma OutcomesRelease(log: seq<Event>, seats: seq<Seat>, waits: set<Seat>, h: Hand)
    requires OutcomesOk(log, seats, waits, Some(h)) && h.pc == Recorded
    ensures OutcomesOk(log, seats, waits, None)
  {
    assert forall x :: Told(waits, Some(h), x) <==> Told(waits, None, x);
  }

  lemma RowsRelease(views: map<Seat, ViewRow>, seats: seq<Seat>, waits: set<Seat>, h: Hand, included: set<Seat>)
    requires RowsOk(views, seats, waits, Some(h), included) && h.pc == Recorded
    requires h.res.seat in SeatSet(seats) && h.res.seat !in waits
    ensures RowsOk(views, seats, waits, None, if h.res.terminal && !h.late then included + {h.res.seat} else included)
    ensures h.res.seat !in included
  {
    assert RowFits(views[h.res.seat], h.res.seat, waits, Some(h), h.res.seat in included);
  }

  lemma RowsWrite(rec: CouncilRows.Record, seats: seq<Seat>, waits: set<Seat>, h: Hand, included: set<Seat>, now: int,
                  ms: int)
    requires RowsOk(rec.views, seats, waits, Some(h), included) && h.pc == WriteRow && Coherent(h.res)
    requires h.res.seat in SeatSet(seats) && h.res.seat !in waits
    ensures var rec' := RecordStep(rec, h.res, h.late, WriteRow, now, ms);
      RowsOk(rec'.views, seats, waits, Some(h.(pc := NoteFirstUsable)), included)
      && forall x :: x in rec.views && x != h.res.seat ==> x in rec'.views && rec'.views[x] == rec.views[x]
  {
    assert RowFits(rec.views[h.res.seat], h.res.seat, waits, Some(h), h.res.seat in included);
  }

  lemma RowsNextPc(views: map<Seat, ViewRow>, seats: seq<Seat>, waits: set<Seat>, h: Hand, included: set<Seat>)
    requires RowsOk(views, seats, waits, Some(h), included) && h.pc != WriteRow
    ensures RowsOk(views, seats, waits, Some(h.(pc := NextPc(h.pc))), included)
  {
  }

  lemma OutcomesNextPc(log: seq<Event>, seats: seq<Seat>, waits: set<Seat>, h: Hand)
    requires OutcomesOk(log, seats, waits, Some(h)) && h.pc != TellOutcome
    ensures OutcomesOk(log, seats, waits, Some(h.(pc := NextPc(h.pc))))
  {
    assert forall x :: Told(waits, Some(h.(pc := NextPc(h.pc))), x) <==> Told(waits, Some(h), x);
  }

  lemma OutcomesOther(log: seq<Event>, seats: seq<Seat>, waits: set<Seat>, hand: Option<Hand>, e: Event)
    requires OutcomesOk(log, seats, waits, hand) && !IsOutcome(e)
    ensures OutcomesOk(log + [e], seats, waits, hand)
  {
    forall seat | seat in SeatSet(seats) && Told(waits, hand, seat)
      ensures exists x :: x in log + [e] && OutcomeOf(x, seat)
    {
      var x :| x in log && OutcomeOf(x, seat);
      assert x in log + [e];
    }
  }

  lemma OutcomesTell(log: seq<Event>, seats: seq<Seat>, waits: set<Seat>, h: Hand)
    requires OutcomesOk(log, seats, waits, Some(h)) && h.pc == TellOutcome
    requires h.res.seat in SeatSet(seats) && h.res.seat !in waits
    ensures OutcomesOk(log + [OutcomeFor(h.res, h.late)], seats, waits, Some(h.(pc := Recorded)))
  {
    var e, hand' := OutcomeFor(h.res, h.late), Some(h.(pc := Recorded));
    forall seat | seat in SeatSet(seats) && Told(waits, hand', seat)
      ensures exists x :: x in log + [e] && OutcomeOf(x, seat)
    {
      if seat == h.res.seat {
        assert e in log + [e] && OutcomeOf(e, seat);
      } else {
        assert Told(waits, Some(h), seat);
        var x :| x in log && OutcomeOf(x, seat);
        assert x in log + [e];
      }
    }
  }

  /** An event that is no milestone of the judge. */
  predicate Minor(e: Event) { !e.JudgeStarted? && !IsResult(e) && !e.Done? }

  lemma MilestonesOther(log: seq<Event>, judge: JudgePc, e: Event)
    requires MilestonesOk(log, judge) && Minor(e)
    ensures MilestonesOk(log + [e], judge)
  {
    assert forall x :: x in log ==> x in log + [e];
  }

  /** Before the judge has announced itself the log has none of its events. */
  lemma NothingSaid(log: seq<Event>, judge: JudgePc, ju: JudgePhase, order: seq<Seat>, seats: seq<Seat>)
    requires MilestonesOk(log, judge) && Rank(judge) <= Rank(Announce)
    ensures SaysOk(log, ju, order, seats)
  {
  }

  lemma MilestonesMove(log: seq<Event>, judge: JudgePc, judge': JudgePc)
    requires MilestonesOk(log, judge) && SameMilestones(judge, judge')
    ensures MilestonesOk(log, judge')
  {
  }

  /** Program points that have passed the same milestones. */
  predicate SameMilestones(a: JudgePc, b: JudgePc) {
    (Rank(a) > Rank(Announce) <==> Rank(b) > Rank(Announce))
    && (Rank(a) > Rank(TellResult) <==> Rank(b) > Rank(TellResult))
    && (Rank(a) > Rank(TellDone) <==> Rank(b) > Rank(TellDone))
  }

  // The coordinator.

  /** The coordinator never finds the channel closed while it still expects results. */
  lemma ClosedChannelIsUnreachable(s: Run, seats: seq<Seat>)
    requires Inv(s, seats)
    ensures NextCoord(s, TakeClosed) == None
  {
  }

  lemma TakeKeepsInv(s: Run, seats: seq<Seat>)
    requires Inv(s, seats) && NextCoord(s, TakeResult).Some?
    ensures Inv(NextCoord(s, TakeResult).value, seats)
  {
    var r := s.chan.results[0];
    ChannelTake(s.chan, seats);
    RowsTake(s.rec.views, seats, Waits(s.chan), r, false, s.co.included.Keys);
    OutcomesTake(s.rec.log, seats, Waits(s.chan), r, false);
  }

  lemma OrderGrows(order: seq<Seat>, seat: Seat)
    requires DistinctSeats(order) && seat !in SeatSet(order)
    ensures DistinctSeats(order + [seat]) && SeatSet(order + [seat]) == SeatSet(order) + {seat}
  {
  }

  lemma KeepRows(views: map<Seat, ViewRow>, seats: seq<Seat>, waits: set<Seat>, h: Hand, co: Coordinator)
    requires RowsOk(views, seats, waits, Some(h), co.included.Keys)
    requires OrderOk(co, seats) && HandOk(Some(h), waits, seats)
    requires h.pc == Recorded
    ensures RowsOk(views, seats, waits, None, Keep(co, h).included.Keys) && OrderOk(Keep(co, h), seats)
  {
    RowsRelease(views, seats, waits, h, co.included.Keys);
    if h.res.terminal && !h.late { OrderGrows(co.order, h.res.seat); }
  }

  /** While the judge is idle or just triggered it is bound by nothing. */
  lemma TriggerFacts(rec: CouncilRows.Record, seats: seq<Seat>, waits: set<Seat>, hand: Option<Hand>, ju: JudgePhase,
                     included: set<Seat>, order: seq<Seat>)
    requires LogOk(rec.log, rec.views, seats, waits, hand, Idle) && ju.pc in {Idle, MarkRunning}
    ensures LogOk(rec.log, rec.views, seats, waits, hand, ju.pc)
    ensures SaysOk(rec.log, ju, order, seats) && StoredOk(rec.request, rec.judge, ju, included, seats)
  {
    MilestonesMove(rec.log, Idle, ju.pc);
    NothingSaid(rec.log, Idle, ju, order, seats);
  }

  lemma TriggerControl(s: Run, seats: seq<Seat>)
    requires Inv(s, seats) && s.co.pc == AtSelect && s.co.pending > 0
    ensures var t := Trigger(s);
      t == s.(co := t.co, ju := t.ju) && t.co.included == s.co.included && t.co.order == s.co.order
      && s.ju.pc == Idle && t.ju.pc == MarkRunning
      && CountOk(t.co, t.chan) && ControlOk(t.co, t.chan, t.hand, t.drain, t.ju.pc)
  {
  }

  lemma TriggerKeepsInv(s: Run, seats: seq<Seat>)
    requires Inv(s, seats) && s.co.pc == AtSelect && s.co.pending > 0
    ensures Inv(Trigger(s), seats)
  {
    TriggerControl(s, seats);
    TriggerFacts(s.rec, seats, Waits(s.chan), s.hand, Trigger(s).ju, s.co.included.Keys, s.co.order);
  }

  /** Recording a result changes the coordinator, and with the last one starts the judge. */
  predicate After(s: Run, t: Run) {
    t == s.(co := t.co, hand := None, ju := t.ju)
    && s.hand.Some? && s.hand.value.pc == Recorded && s.ju.pc == Idle && t.ju.pc in {Idle, MarkRunning}
    && t.co.included == Keep(s.co, s.hand.value).included && t.co.order == Keep(s.co, s.hand.value).order
  }

  lemma AfterControl(s: Run)
    requires CountOk(s.co, s.chan) && ControlOk(s.co, s.chan, s.hand, s.drain, s.ju.pc)
    requires NextCoord(s, AfterRecord).Some?
    ensures var t := NextCoord(s, AfterRecord).value;
      After(s, t) && CountOk(t.co, t.chan) && ControlOk(t.co, t.chan, t.hand, t.drain, t.ju.pc)
  {
  }

  lemma AfterKeepsRest(s: Run, seats: seq<Seat>, t: Run)
    requires Inv(s, seats) && After(s, t)
    ensures RowsOk(t.rec.views, seats, Waits(t.chan), None, t.co.included.Keys) && OrderOk(t.co, seats)
    ensures LogOk(t.rec.log, t.rec.views, seats, Waits(t.chan), None, t.ju.pc)
    ensures SaysOk(t.rec.log, t.ju, t.co.order, seats)
    ensures StoredOk(t.rec.request, t.rec.judge, t.ju, t.co.included.Keys, seats)
  {
    var h := s.hand.value;
    KeepRows(s.rec.views, seats, Waits(s.chan), h, s.co);
    OutcomesRelease(s.rec.log, seats, Waits(s.chan), h);
    TriggerFacts(s.rec, seats, Waits(s.chan), None, t.ju, t.co.included.Keys, t.co.order);
  }

  lemma AfterKeepsInv(s: Run, seats: seq<Seat>)
    requires Inv(s, seats) && NextCoord(s, AfterRecord).Some?
    ensures Inv(NextCoord(s, AfterRecord).value, seats)
  {
    AfterControl(s);
    AfterKeepsRest(s, seats, NextCoord(s, AfterRecord).value);
  }

  lemma StartKeepsInv(s: Run, seats: seq<Seat>, l: CoordLabel)
    requires Inv(s, seats) && l.Start? && NextCoord(s, l).Some?
    ensures Inv(NextCoord(s, l).value, seats)
  {
  }

  /** Only the program points of the coordinator and the drain differ. */
  predicate MovesAlong(s: Run, t: Run) {
    t == s.(co := s.co.(pc := t.co.pc), drain := t.drain, cancelled := t.cancelled)
  }

  /** The steps after the loop move only the coordinator and the drain along. */
  lemma LeaveControl(s: Run, l: CoordLabel)
    requires CountOk(s.co, s.chan) && ControlOk(s.co, s.chan, s.hand, s.drain, s.ju.pc)
    requires NextCoord(s, l).Some? && (l.LeaveLoop? || l.SeeDrained? || l.SeeJudged?)
    ensures var t := NextCoord(s, l).value;
      MovesAlong(s, t) && CountOk(t.co, t.chan) && ControlOk(t.co, t.chan, t.hand, t.drain, t.ju.pc)
  {
  }

  lemma MoveKeepsInv(s: Run, seats: seq<Seat>, t: Run)
    requires Inv(s, seats) && MovesAlong(s, t)
    requires CountOk(t.co, t.chan) && ControlOk(t.co, t.chan, t.hand, t.drain, t.ju.pc)
    ensures Inv(t, seats)
  {
    assert OrderOk(t.co, seats);
  }

  lemma LeaveKeepsInv(s: Run, seats: seq<Seat>, l: CoordLabel)
    requires Inv(s, seats) && NextCoord(s, l).Some? && (l.LeaveLoop? || l.SeeDrained? || l.SeeJudged?)
    ensures Inv(NextCoord(s, l).value, seats)
  {
    LeaveControl(s, l);
    MoveKeepsInv(s, seats, NextCoord(s, l).value);
  }

  lemma CoordKeepsInv(s: Run, seats: seq<Seat>, l: CoordLabel)
    requires Inv(s, seats) && NextCoord(s, l).Some?
    ensures Inv(NextCoord(s, l).value, seats)
  {
    match l
    case Start(_) => StartKeepsInv(s, seats, l);
    case TakeResult => TakeKeepsInv(s, seats);
    case TakeClosed => ClosedChannelIsUnreachable(s, seats);
    case ViewsContextDone => TriggerKeepsInv(s, seats);
    case RunContextDone => TriggerKeepsInv(s, seats);
    case AfterRecord => AfterKeepsInv(s, seats);
    case LeaveLoop => LeaveKeepsInv(s, seats, l);
    case SeeDrained => LeaveKeepsInv(s, seats, l);
    case SeeJudged => LeaveKeepsInv(s, seats, l);
  }

  // Recording a result, statement by statement.

  /** While a result is being recorded the judge has not passed its wait. */
  lemma HandMeansEarly(co: Coordinator, c: Channel, hand: Option<Hand>, drain: DrainPc, judge: JudgePc)
    requires ControlOk(co, c, hand, drain, judge) && hand.Some?
    ensures Rank(judge) <= Rank(AwaitViews) && (!hand.value.late ==> judge == Idle)
  {
  }

  lemma RecordWriteLog(log: seq<Event>, views: map<Seat, ViewRow>, views': map<Seat, ViewRow>, seats: seq<Seat>,
                       waits: set<Seat>, h: Hand, judge: JudgePc)
    requires LogOk(log, views, seats, waits, Some(h), judge) && h.pc == WriteRow
    requires forall x :: x in views && x != h.res.seat ==> x in views' && views'[x] == views[x]
    ensures LogOk(log, views', seats, waits, Some(h.(pc := NoteFirstUsable)), judge)
  {
    OutcomesNextPc(log, seats, waits, h);
    forall e | e in log ensures Agrees(e, views') {
      assert Agrees(e, views);
      assert IsOutcome(e) ==> Told(waits, Some(h), e.seat);
    }
  }

  lemma RecordQuietLog(log: seq<Event>, views: map<Seat, ViewRow>, seats: seq<Seat>, waits: set<Seat>, h: Hand,
                       judge: JudgePc)
    requires LogOk(log, views, seats, waits, Some(h), judge) && h.pc != TellOutcome
    ensures LogOk(log, views, seats, waits, Some(h.(pc := NextPc(h.pc))), judge)
  {
    OutcomesNextPc(log, seats, waits, h);
  }

  /** What may still be told about a seat before its outcome. */
  lemma NothingFollows(log: seq<Event>, views: map<Seat, ViewRow>, seats: seq<Seat>, waits: set<Seat>,
                       h: Hand, judge: JudgePc, e: Event)
    requires LogOk(log, views, seats, waits, Some(h), judge) && h.pc != Recorded
    requires Rank(judge) <= Rank(AwaitViews) && (!h.late ==> judge == Idle)
    requires e == SeatDanger(h.res.seat) || e == OutcomeFor(h.res, h.late)
    ensures forall a :: a in log ==> MayPrecede(a, e)
    ensures Minor(e)
  {
    forall a | a in log ensures MayPrecede(a, e) {
      assert IsOutcome(a) ==> Told(waits, Some(h), a.seat);
      assert !IsResult(a) && !a.Done?;
      assert a.JudgeStarted? ==> h.late;
    }
  }

  lemma RecordDangerLog(log: seq<Event>, views: map<Seat, ViewRow>, seats: seq<Seat>, waits: set<Seat>, h: Hand,
                        judge: JudgePc)
    requires LogOk(log, views, seats, waits, Some(h), judge) && h.pc == TellDanger
    requires Rank(judge) <= Rank(AwaitViews) && (!h.late ==> judge == Idle)
    ensures LogOk(log + [SeatDanger(h.res.seat)], views, seats, waits, Some(h.(pc := TellOutcome)), judge)
  {
    var e := SeatDanger(h.res.seat);
    NothingFollows(log, views, seats, waits, h, judge, e);
    AppendOrdered(log, e);
    OutcomesNextPc(log, seats, waits, h);
    OutcomesOther(log, seats, waits, Some(h.(pc := TellOutcome)), e);
    MilestonesOther(log, judge, e);
  }

  lemma RecordOutcomeLog(log: seq<Event>, views: map<Seat, ViewRow>, seats: seq<Seat>, waits: set<Seat>, h: Hand,
                         judge: JudgePc)
    requires LogOk(log, views, seats, waits, Some(h), judge) && h.pc == TellOutcome
    requires Rank(judge) <= Rank(AwaitViews) && (!h.late ==> judge == Idle)
    requires h.res.seat in SeatSet(seats) && h.res.seat !in waits
    requires h.res.seat in views && views[h.res.seat].state == StateFor(h.res, h.late)
    ensures LogOk(log + [OutcomeFor(h.res, h.late)], views, seats, waits, Some(h.(pc := Recorded)), judge)
  {
    var e := OutcomeFor(h.res, h.late);
    NothingFollows(log, views, seats, waits, h, judge, e);
    AppendOrdered(log, e);
    OutcomesTell(log, seats, waits, h);
    MilestonesOther(log, judge, e);
  }

  lemma RecordRows(rec: CouncilRows.Record, seats: seq<Seat>, waits: set<Seat>, h: Hand, included: set<Seat>,
                   now: int, ms: int)
    requires RowsOk(rec.views, seats, waits, Some(h), included) && HandOk(Some(h), waits, seats) && h.pc != Recorded
    ensures RowsOk(RecordStep(rec, h.res, h.late, h.pc, now, ms).views, seats, waits,
                   Some(h.(pc := NextPc(h.pc))), included)
  {
    if h.pc == WriteRow {
      RowsWrite(rec, seats, waits, h, included, now, ms);
    } else {
      RowsNextPc(rec.views, seats, waits, h, included);
    }
  }

  lemma RecordLog(rec: CouncilRows.Record, seats: seq<Seat>, waits: set<Seat>, h: Hand, included: set<Seat>,
                  judge: JudgePc, now: int, ms: int)
    requires RowsOk(rec.views, seats, waits, Some(h), included) && HandOk(Some(h), waits, seats) && h.pc != Recorded
    requires LogOk(rec.log, rec.views, seats, waits, Some(h), judge)
    requires Rank(judge) <= Rank(AwaitViews) && (!h.late ==> judge == Idle)
    ensures var rec' := RecordStep(rec, h.res, h.late, h.pc, now, ms);
      LogOk(rec'.log, rec'.views, seats, waits, Some(h.(pc := NextPc(h.pc))), judge)
  {
    match h.pc
    case WriteRow =>
      RowsWrite(rec, seats, waits, h, included, now, ms);
      RecordWriteLog(rec.log, rec.views, RecordStep(rec, h.res, h.late, h.pc, now, ms).views, seats, waits, h, judge);
    case TellDanger =>
      if h.res.danger {
        RecordDangerLog(rec.log, rec.views, seats, waits, h, judge);
      } else {
        RecordQuietLog(rec.log, rec.views, seats, waits, h, judge);
      }
    case TellOutcome =>
      assert RowFits(rec.views[h.res.seat], h.res.seat, waits, Some(h), h.res.seat in included);
      RecordOutcomeLog(rec.log, rec.views, seats, waits, h, judge);
    case _ =>
      RecordQuietLog(rec.log, rec.views, seats, waits, h, judge);
  }

  /** Recording a result says nothing the judge has to say. */
  lemma RecordSays(rec: CouncilRows.Record, h: Hand, ju: JudgePhase, order: seq<Seat>, seats: seq<Seat>, now: int,
                   ms: int)
    requires SaysOk(rec.log, ju, order, seats)
    ensures SaysOk(RecordStep(rec, h.res, h.late, h.pc, now, ms).log, ju, order, seats)
    ensures RecordStep(rec, h.res, h.late, h.pc, now, ms).judge == rec.judge
  {
  }

  /** Until the views are awaited the judge has stored nothing. */
  lemma StoredEarly(request: RequestRow, row: JudgeRow, request': RequestRow, row': JudgeRow, ju: JudgePhase,
                    included: set<Seat>, seats: seq<Seat>)
    requires StoredOk(request, row, ju, included, seats) && Rank(ju.pc) <= Rank(AwaitViews)
    ensures StoredOk(request', row', ju, included, seats)
  {
  }

  lemma RecordKeepsRest(s: Run, seats: seq<Seat>, h: Hand, rec': CouncilRows.Record, now: int, ms: int)
    requires Inv(s, seats) && s.hand == Some(h) && h.pc != Recorded
    requires rec' == RecordStep(s.rec, h.res, h.late, h.pc, now, ms)
    ensures RowsOk(rec'.views, seats, Waits(s.chan), Some(h.(pc := NextPc(h.pc))), s.co.included.Keys)
    ensures LogOk(rec'.log, rec'.views, seats, Waits(s.chan), Some(h.(pc := NextPc(h.pc))), s.ju.pc)
    ensures SaysOk(rec'.log, s.ju, s.co.order, seats)
    ensures StoredOk(rec'.request, rec'.judge, s.ju, s.co.included.Keys, seats)
  {
    HandMeansEarly(s.co, s.chan, s.hand, s.drain, s.ju.pc);
    RecordRows(s.rec, seats, Waits(s.chan), h, s.co.included.Keys, now, ms);
    RecordLog(s.rec, seats, Waits(s.chan), h, s.co.included.Keys, s.ju.pc, now, ms);
    RecordSays(s.rec, h, s.ju, s.co.order, seats, now, ms);
    StoredEarly(s.rec.request, s.rec.judge, rec'.request, rec'.judge, s.ju, s.co.included.Keys, seats);
  }

  lemma RecordKeepsInv(s: Run, seats: seq<Seat>, now: int, ms: int)
    requires Inv(s, seats) && NextRecord(s, now, ms).Some?
    ensures Inv(NextRecord(s, now, ms).value, seats)
  {
    RecordKeepsRest(s, seats, s.hand.value, NextRecord(s, now, ms).value.rec, now, ms);
  }

  // The drain.

  lemma DrainTakeKeepsInv(s: Run, seats: seq<Seat>)
    requires Inv(s, seats) && NextDrain(s, DrainTake).Some?
    ensures Inv(NextDrain(s, DrainTake).value, seats)
  {
    var r := s.chan.results[0];
    ChannelTake(s.chan, seats);
    RowsTake(s.rec.views, seats, Waits(s.chan), r, true, s.co.included.Keys);
    OutcomesTake(s.rec.log, seats, Waits(s.chan), r, true);
  }

  lemma DrainNextKeepsInv(s: Run, seats: seq<Seat>)
    requires Inv(s, seats) && NextDrain(s, DrainNext).Some?
    ensures Inv(NextDrain(s, DrainNext).value, seats)
  {
    RowsRelease(s.rec.views, seats, Waits(s.chan), s.hand.value, s.co.included.Keys);
    OutcomesRelease(s.rec.log, seats, Waits(s.chan), s.hand.value);
  }

  lemma DrainExitKeepsInv(s: Run, seats: seq<Seat>)
    requires Inv(s, seats) && NextDrain(s, DrainExit).Some?
    ensures Inv(NextDrain(s, DrainExit).value, seats)
  {
  }

  lemma DrainKeepsInv(s: Run, seats: seq<Seat>, l: DrainLabel)
    requires Inv(s, seats) && NextDrain(s, l).Some?
    ensures Inv(NextDrain(s, l).value, seats)
  {
    match l
    case DrainTake => DrainTakeKeepsInv(s, seats);
    case DrainNext => DrainNextKeepsInv(s, seats);
    case DrainExit => DrainExitKeepsInv(s, seats);
  }

  // The judge.

  lemma JudgeControl(co: Coordinator, c: Channel, hand: Option<Hand>, drain: DrainPc, ju: JudgePhase,
                     included: set<Seat>, seats: seq<Seat>, l: JudgeLabel)
    requires ControlOk(co, c, hand, drain, ju.pc) && NextPhase(ju, included, drain == DrainExited, seats, l).Some?
    ensures ControlOk(co, c, hand, drain, NextPhase(ju, included, drain == DrainExited, seats, l).value.pc)
  {
  }

  /** Publishing one of the judge's own events moves the log to its next milestone. */
  lemma JudgeTells(log: seq<Event>, views: map<Seat, ViewRow>, seats: seq<Seat>, waits: set<Seat>, hand: Option<Hand>,
                   judge: JudgePc, judge': JudgePc, e: Event)
    requires LogOk(log, views, seats, waits, hand, judge)
    requires (e.JudgeStarted? && judge == Announce && judge' == Build)
      || (e.JudgeDanger? && judge == TellJudgeDanger && judge' == WriteResult)
      || (IsResult(e) && judge == TellResult && judge' == WriteFinalState)
      || (e.Done? && judge == TellDone && judge' == MarkDone)
    ensures LogOk(log + [e], views, seats, waits, hand, judge')
  {
    forall a | a in log ensures MayPrecede(a, e) {
      assert !a.Done? && (IsResult(a) ==> e.Done?) && (a.JudgeStarted? ==> !e.JudgeStarted?);
    }
    AppendOrdered(log, e);
    OutcomesOther(log, seats, waits, hand, e);
    assert e in log + [e];
    assert forall x :: x in log ==> x in log + [e];
  }

  predicate Tells(l: JudgeLabel) { l.DoAnnounce? || l.DoTellDanger? || l.DoTellResult? || l.DoTellDone? }

  lemma JudgeQuietStep(rec: CouncilRows.Record, ju: JudgePhase, included: set<Seat>, order: seq<Seat>, drained: bool,
                       seats: seq<Seat>, l: JudgeLabel)
    requires NextPhase(ju, included, drained, seats, l).Some? && !Tells(l)
    ensures JudgeWrites(rec, ju, order, seats, l).log == rec.log
    ensures JudgeWrites(rec, ju, order, seats, l).views == rec.views
    ensures SameMilestones(ju.pc, NextPhase(ju, included, drained, seats, l).value.pc)
  {
  }

  lemma JudgeTellsLog(rec: CouncilRows.Record, seats: seq<Seat>, waits: set<Seat>, hand: Option<Hand>, ju: JudgePhase,
                 included: set<Seat>, order: seq<Seat>, drained: bool, l: JudgeLabel)
    requires LogOk(rec.log, rec.views, seats, waits, hand, ju.pc) && NextPhase(ju, included, drained, seats, l).Some?
    requires Tells(l)
    ensures var rec' := JudgeWrites(rec, ju, order, seats, l);
      rec'.views == rec.views
      && LogOk(rec'.log, rec.views, seats, waits, hand, NextPhase(ju, included, drained, seats, l).value.pc)
  {
    var pc' := NextPhase(ju, included, drained, seats, l).value.pc;
    if l.DoAnnounce? {
      JudgeTells(rec.log, rec.views, seats, waits, hand, ju.pc, pc', JudgeStarted(order));
    } else if l.DoTellResult? {
      JudgeTells(rec.log, rec.views, seats, waits, hand, ju.pc, pc', ResultEvent(seats, ju.missing, ju.reply));
    } else if l.DoTellDone? {
      JudgeTells(rec.log, rec.views, seats, waits, hand, ju.pc, pc', Done(FinalStateFor(ju.missing, ju.reply)));
    } else if ju.reply.Replied? && ju.reply.urgent {
      JudgeTells(rec.log, rec.views, seats, waits, hand, ju.pc, pc', JudgeDanger);
    } else {
      MilestonesMove(rec.log, ju.pc, pc');
    }
  }

  lemma JudgeLog(rec: CouncilRows.Record, seats: seq<Seat>, waits: set<Seat>, hand: Option<Hand>, ju: JudgePhase,
                 included: set<Seat>, order: seq<Seat>, drained: bool, l: JudgeLabel)
    requires LogOk(rec.log, rec.views, seats, waits, hand, ju.pc) && NextPhase(ju, included, drained, seats, l).Some?
    ensures var rec' := JudgeWrites(rec, ju, order, seats, l);
      rec'.views == rec.views
      && LogOk(rec'.log, rec.views, seats, waits, hand, NextPhase(ju, included, drained, seats, l).value.pc)
  {
    if Tells(l) {
      JudgeTellsLog(rec, seats, waits, hand, ju, included, order, drained, l);
    } else {
      JudgeQuietStep(rec, ju, included, order, drained, seats, l);
      MilestonesMove(rec.log, ju.pc, NextPhase(ju, included, drained, seats, l).value.pc);
    }
  }

  lemma JudgeSays(rec: CouncilRows.Record, ju: JudgePhase, included: set<Seat>, order: seq<Seat>, drained: bool,
                  seats: seq<Seat>, l: JudgeLabel)
    requires SaysOk(rec.log, ju, order, seats) && MilestonesOk(rec.log, ju.pc)
    requires NextPhase(ju, included, drained, seats, l).Some?
    ensures SaysOk(JudgeWrites(rec, ju, order, seats, l).log,
                   NextPhase(ju, included, drained, seats, l).value, order, seats)
  {
    var ju', log' := NextPhase(ju, included, drained, seats, l).value, JudgeWrites(rec, ju, order, seats, l).log;
    if l.DoBuild? || l.DoReply? {
      assert forall e :: e in rec.log ==> !IsResult(e) && !e.Done?;
    }
  }

  lemma JudgeMissing(ju: JudgePhase, included: set<Seat>, drained: bool, seats: seq<Seat>, l: JudgeLabel)
    requires MissingOk(ju, included, seats) && NextPhase(ju, included, drained, seats, l).Some?
    ensures MissingOk(NextPhase(ju, included, drained, seats, l).value, included, seats)
  {
  }

  lemma JudgeRowStored(rec: CouncilRows.Record, ju: JudgePhase, included: set<Seat>, order: seq<Seat>, drained: bool,
                       seats: seq<Seat>, l: JudgeLabel)
    requires RowOk(rec.judge, ju, seats) && NextPhase(ju, included, drained, seats, l).Some?
    ensures RowOk(JudgeWrites(rec, ju, order, seats, l).judge, NextPhase(ju, included, drained, seats, l).value, seats)
  {
    var rec', ju' := JudgeWrites(rec, ju, order, seats, l), NextPhase(ju, included, drained, seats, l).value;
    if Rank(ju'.pc) > Rank(WriteResult) {
      assert ju'.missing == ju.missing && ju'.reply == ju.reply;
      assert !l.DoWriteResult? ==> rec'.judge == rec.judge;
    }
  }

  lemma JudgeRequestStored(rec: CouncilRows.Record, ju: JudgePhase, included: set<Seat>, order: seq<Seat>,
                           drained: bool, seats: seq<Seat>, l: JudgeLabel)
    requires RequestOk(rec.request, ju) && NextPhase(ju, included, drained, seats, l).Some?
    ensures RequestOk(JudgeWrites(rec, ju, order, seats, l).request, NextPhase(ju, included, drained, seats, l).value)
  {
  }

  lemma JudgeStored(rec: CouncilRows.Record, ju: JudgePhase, included: set<Seat>, order: seq<Seat>, drained: bool,
                    seats: seq<Seat>, l: JudgeLabel)
    requires StoredOk(rec.request, rec.judge, ju, included, seats) && NextPhase(ju, included, drained, seats, l).Some?
    ensures var rec' := JudgeWrites(rec, ju, order, seats, l);
      StoredOk(rec'.request, rec'.judge, NextPhase(ju, included, drained, seats, l).value, included, seats)
  {
    JudgeMissing(ju, included, drained, seats, l);
    JudgeRowStored(rec, ju, included, order, drained, seats, l);
    JudgeRequestStored(rec, ju, included, order, drained, seats, l);
  }

  lemma JudgeKeepsInv(s: Run, seats: seq<Seat>, l: JudgeLabel)
    requires Inv(s, seats) && NextJudge(s, seats, l).Some?
    ensures Inv(NextJudge(s, seats, l).value, seats)
  {
    var drained := s.drain == DrainExited;
    JudgeControl(s.co, s.chan, s.hand, s.drain, s.ju, s.co.included.Keys, seats, l);
    JudgeLog(s.rec, seats, Waits(s.chan), s.hand, s.ju, s.co.included.Keys, s.co.order, drained, l);
    JudgeSays(s.rec, s.ju, s.co.included.Keys, s.co.order, drained, seats, l);
    JudgeStored(s.rec, s.ju, s.co.included.Keys, s.co.order, drained, seats, l);
  }

  // The other requests.

  lemma TellSupersededLog(log: seq<Event>, views: map<Seat, ViewRow>, seats: seq<Seat>, waits: set<Seat>,
                          hand: Option<Hand>, judge: JudgePc, newer: string)
    requires LogOk(log, views, seats, waits, hand, judge)
    ensures LogOk(log + [SupersededBy(newer)], views, seats, waits, hand, judge)
  {
    AppendOrdered(log, SupersededBy(newer));
    OutcomesOther(log, seats, waits, hand, SupersededBy(newer));
    MilestonesOther(log, judge, SupersededBy(newer));
  }

  lemma OtherKeepsInv(s: Run, seats: seq<Seat>, l: OtherLabel)
    requires Inv(s, seats) && NextOther(s, l).Some?
    ensures Inv(NextOther(s, l).value, seats)
  {
    if l.SupersedeTell? { TellSupersededLog(s.rec.log, s.rec.views, seats, Waits(s.chan), s.hand, s.ju.pc, l.id); }
  }

  // ------------------------------------------------------------- all runs

  /** Every step of every goroutine keeps the invariant. */
  lemma NextKeepsInv(s: Run, seats: seq<Seat>, l: Label)
    requires Inv(s, seats) && Next(s, seats, l).Some?
    ensures Inv(Next(s, seats, l).value, seats)
  {
    match l
    case Coord(c) => CoordKeepsInv(s, seats, c);
    case View(v) => ViewKeepsInv(s, seats, v);
    case RecordMore(now, ms) => RecordKeepsInv(s, seats, now, ms);
    case Drain(d) => DrainKeepsInv(s, seats, d);
    case Judge(j) => JudgeKeepsInv(s, seats, j);
    case Other(o) => OtherKeepsInv(s, seats, o);
  }

  /** Every state of every run satisfies the invariant. */
  lemma {:induction false} ExecKeepsInv(seats: seq<Seat>, ls: seq<Label>)
    requires DistinctSeats(seats) && seats != [] && Exec(seats, ls).Some?
    ensures Inv(Exec(seats, ls).value, seats)
  {
    if ls == [] {
      InitInv(seats);
    } else {
      var front := ls[..|ls| - 1];
      ExecKeepsInv(seats, front);
      NextKeepsInv(Exec(seats, front).value, seats, ls[|ls| - 1]);
    }
  }
}
