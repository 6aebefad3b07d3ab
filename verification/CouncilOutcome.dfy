/** What a council run ends with: the judge starts once over frozen views, the
    stored rows and the event log tell the same story, and a supersede sticks
    exactly when it comes after the judge phase has marked the row. */
module CouncilOutcome {
  import opened Text
  import opened CouncilRows
  import opened CouncilRun
  import opened CouncilInvariant

  /** ls is a run over some distinct seats that leads to s. */
  ghost predicate Reaches(seats: seq<Seat>, ls: seq<Label>, s: Run) {
    DistinctSeats(seats) && seats != [] && Exec(seats, ls) == Some(s)
  }

  lemma {:induction false} ExecPrefix(seats: seq<Seat>, ls: seq<Label>, k: nat)
    requires Exec(seats, ls).Some? && k <= |ls|
    ensures Exec(seats, ls[..k]).Some?
    ensures k < |ls| ==> Exec(seats, ls[..k + 1]) == Next(Exec(seats, ls[..k]).value, seats, ls[k])
  {
    if k == |ls| {
      assert ls[..k] == ls;
    } else if k == |ls| - 1 {
      assert ls[..k + 1] == ls;
    } else {
      var front := ls[..|ls| - 1];
      ExecPrefix(seats, front, k);
      assert front[..k] == ls[..k] && front[..k + 1] == ls[..k + 1];
    }
  }

  // ------------------------------------------------- the judge starts once

  lemma PhaseAdvances(ju: JudgePhase, included: set<Seat>, drained: bool, seats: seq<Seat>, l: JudgeLabel)
    requires NextPhase(ju, included, drained, seats, l).Some?
    ensures Rank(NextPhase(ju, included, drained, seats, l).value.pc) > Rank(ju.pc) > Rank(Idle)
  {
  }

  predicate Advances(s: Run, t: Run) {
    Rank(t.ju.pc) >= Rank(s.ju.pc)
    && (s.co.triggered ==> t.co.triggered && t.co.included == s.co.included && t.co.order == s.co.order)
    && (s.ju.pc == Idle && t.ju.pc != Idle ==> t.ju.pc == MarkRunning)
  }

  lemma CoordAdvances(s: Run, l: CoordLabel)
    requires ControlOk(s.co, s.chan, s.hand, s.drain, s.ju.pc) && NextCoord(s, l).Some?
    ensures Advances(s, NextCoord(s, l).value)
  {
  }

  lemma StepAdvances(s: Run, seats: seq<Seat>, l: Label)
    requires ControlOk(s.co, s.chan, s.hand, s.drain, s.ju.pc) && Next(s, seats, l).Some?
    ensures Advances(s, Next(s, seats, l).value)
  {
    if l.Coord? { CoordAdvances(s, l.c); }
    if l.Judge? { PhaseAdvances(s.ju, s.co.included.Keys, s.drain == DrainExited, seats, l.j); }
  }

  /** Once the judge is triggered nothing later changes what it was given. */
  lemma {:induction false} IncludedIsFrozen(seats: seq<Seat>, ls: seq<Label>, k: nat, s: Run, t: Run)
    requires k <= |ls| && Reaches(seats, ls[..k], s) && Reaches(seats, ls, t)
    ensures Rank(t.ju.pc) >= Rank(s.ju.pc)
    ensures s.co.triggered ==> t.co.triggered && t.co.included == s.co.included && t.co.order == s.co.order
  {
    if k == |ls| {
      assert ls[..k] == ls;
    } else {
      var front := ls[..|ls| - 1];
      assert front[..k] == ls[..k];
      var m := Exec(seats, front).value;
      IncludedIsFrozen(seats, front, k, s, m);
      ExecKeepsInv(seats, front);
      StepAdvances(m, seats, ls[|ls| - 1]);
    }
  }

  /** How many steps of a run start a judge phase. */
  ghost function Starts(seats: seq<Seat>, ls: seq<Label>): nat
    requires Exec(seats, ls).Some?
  {
    if ls == [] then 0 else
      var front := ls[..|ls| - 1];
      var s, t := Exec(seats, front).value, Exec(seats, ls).value;
      Starts(seats, front) + if t.ju.pc == MarkRunning && s.ju.pc != MarkRunning then 1 else 0
  }

  predicate Controlled(s: Run) { ControlOk(s.co, s.chan, s.hand, s.drain, s.ju.pc) }

  lemma ExecControl(seats: seq<Seat>, ls: seq<Label>, s: Run)
    requires Reaches(seats, ls, s)
    ensures Controlled(s)
  {
    ExecKeepsInv(seats, ls);
  }

  lemma StartsWhenTriggered(s: Run, t: Run)
    requires Controlled(s) && Controlled(t) && Advances(s, t)
    ensures (t.ju.pc == MarkRunning && s.ju.pc != MarkRunning) <==> (t.co.triggered && !s.co.triggered)
  {
  }

  /** The judge phase is started once, by whichever trigger comes first. */
  lemma {:induction false} JudgeStartsOnce(seats: seq<Seat>, ls: seq<Label>, s: Run)
    requires Reaches(seats, ls, s)
    ensures Starts(seats, ls) == if s.co.triggered then 1 else 0
  {
    ExecControl(seats, ls, s);
    if ls != [] {
      var front := ls[..|ls| - 1];
      var m := Exec(seats, front).value;
      JudgeStartsOnce(seats, front, m);
      ExecControl(seats, front, m);
      StepAdvances(m, seats, ls[|ls| - 1]);
      StartsWhenTriggered(m, s);
    }
  }

  // ------------------------------------------------------- the rows at done

  ghost predicate IsDone(s: Run) { exists e :: e in s.rec.log && e.Done? }

  /** The seats whose view row is marked as included in the judge call. */
  function Marked(views: map<Seat, ViewRow>): set<Seat> {
    set seat | seat in views && views[seat].includedInJudge
  }

  /** With every result recorded the marked rows are the included seats. */
  lemma MarkedAreIncluded(views: map<Seat, ViewRow>, seats: seq<Seat>, included: set<Seat>)
    requires RowsOk(views, seats, {}, None, included) && included <= SeatSet(seats)
    ensures Marked(views) == included
    ensures forall seat :: seat in views ==> views[seat].state != ViewPending
  {
    forall seat | seat in views
      ensures views[seat].includedInJudge <==> seat in included
      ensures views[seat].state != ViewPending
    {
      assert RowFits(views[seat], seat, {}, None, seat in included);
    }
  }

  /** By the time done is told, the views are drained and the judge has stored its result. */
  lemma DoneMeansStored(s: Run, seats: seq<Seat>)
    requires Inv(s, seats) && IsDone(s)
    ensures Rank(s.ju.pc) > Rank(TellDone) && s.drain == DrainExited
    ensures Waits(s.chan) == {} && s.hand == None
  {
  }

  lemma MissingIsComplement(seats: seq<Seat>, included: set<Seat>)
    requires included <= SeatSet(seats)
    ensures var missing := MissingSeats(seats, included);
      SeatSet(missing) == SeatSet(seats) - included
      && MissingSeats(seats, SeatSet(missing)) == SortedStrings(included)
      && (SeatSet(seats) == SeatSet(missing) <==> included == {})
      && (missing == [] <==> included == SeatSet(seats))
  {
    var missing := MissingSeats(seats, included);
    assert SeatSet(missing) == SeatSet(seats) - included;
    assert SeatSet(seats) - SeatSet(missing) == included;
    assert missing == [] <==> SeatSet(missing) == {} by { if missing != [] { assert missing[0] in SeatSet(missing); } }
  }

  lemma JudgeRowSays(row: JudgeRow, seats: seq<Seat>, missing: seq<Seat>, included: set<Seat>, reply: JudgeReply)
    requires row == JudgeRowFor(seats, missing, reply)
    requires included <= SeatSet(seats) && missing == MissingSeats(seats, included)
    ensures row.includedSeats == SortedStrings(included) && row.missingSeats == SortedStrings(SeatSet(seats) - included)
    ensures row.noIndependentViews <==> included == {}
    ensures row.state == JudgeStateFor(reply)
    ensures missing == [] <==> included == SeatSet(seats)
  {
    MissingIsComplement(seats, included);
  }

  lemma StoredState(request: RequestRow, ju: JudgePhase)
    requires RequestOk(request, ju) && Rank(ju.pc) > Rank(TellDone)
    ensures request.state in {Superseded, FinalStateFor(ju.missing, ju.reply)}
    ensures request.finishedAt.Some? && request.tFinalMs.Some?
  {
  }

  lemma DoneSays(log: seq<Event>, ju: JudgePhase, order: seq<Seat>, seats: seq<Seat>)
    requires SaysOk(log, ju, order, seats) && exists e :: e in log && e.Done?
    ensures Done(FinalStateFor(ju.missing, ju.reply)) in log
  {
    var e :| e in log && e.Done?;
    assert e == Done(FinalStateFor(ju.missing, ju.reply));
  }

  /** The view rows and the judge row agree. */
  ghost predicate RowsAgree(marked: set<Seat>, row: JudgeRow, seats: seq<Seat>) {
    row.includedSeats == SortedStrings(marked) && row.missingSeats == SortedStrings(SeatSet(seats) - marked)
    && (row.noIndependentViews <==> marked == {})
  }

  /** What the invariant says of the view rows when a run is done. */
  lemma DoneViewRows(s: Run, seats: seq<Seat>)
    requires Inv(s, seats) && Waits(s.chan) == {} && s.hand == None
    ensures RowsOk(s.rec.views, seats, {}, None, s.co.included.Keys) && s.co.included.Keys <= SeatSet(seats)
  {
    RowsSettle(s.rec.views, seats, Waits(s.chan), s.hand, s.co.included.Keys);
  }

  /** What the invariant says of the judge row when a run is done. */
  lemma DoneJudgeRow(s: Run, seats: seq<Seat>)
    requires Inv(s, seats) && Rank(s.ju.pc) > Rank(TellDone)
    ensures s.ju.missing == MissingSeats(seats, s.co.included.Keys)
    ensures s.rec.judge == JudgeRowFor(seats, s.ju.missing, s.ju.reply)
  {
  }

  lemma RowsSettle(views: map<Seat, ViewRow>, seats: seq<Seat>, waits: set<Seat>, hand: Option<Hand>,
                   included: set<Seat>)
    requires RowsOk(views, seats, waits, hand, included) && waits == {} && hand == None
    ensures RowsOk(views, seats, {}, None, included)
  {
  }

  lemma RowsAgreeAtDone(s: Run, seats: seq<Seat>)
    requires Inv(s, seats) && IsDone(s)
    ensures Marked(s.rec.views) == s.co.included.Keys && RowsAgree(s.co.included.Keys, s.rec.judge, seats)
    ensures s.rec.judge.state == JudgeStateFor(s.ju.reply)
    ensures s.ju.missing == [] <==> s.co.included.Keys == SeatSet(seats)
  {
    DoneMeansStored(s, seats);
    DoneViewRows(s, seats);
    DoneJudgeRow(s, seats);
    StoredRowsAgree(s.rec.views, s.rec.judge, seats, s.ju.missing, s.co.included.Keys, s.ju.reply);
  }

  lemma StoredRowsAgree(views: map<Seat, ViewRow>, row: JudgeRow, seats: seq<Seat>, missing: seq<Seat>,
                        included: set<Seat>, reply: JudgeReply)
    requires RowsOk(views, seats, {}, None, included) && included <= SeatSet(seats)
    requires missing == MissingSeats(seats, included) && row == JudgeRowFor(seats, missing, reply)
    ensures Marked(views) == included && RowsAgree(included, row, seats)
    ensures row.state == JudgeStateFor(reply)
    ensures missing == [] <==> included == SeatSet(seats)
  {
    MarkedAreIncluded(views, seats, included);
    JudgeRowSays(row, seats, missing, included, reply);
  }

  lemma RequestAtDone(s: Run, seats: seq<Seat>)
    requires Inv(s, seats) && IsDone(s)
    ensures Done(FinalStateFor(s.ju.missing, s.ju.reply)) in s.rec.log
    ensures s.rec.request.state in {Superseded, FinalStateFor(s.ju.missing, s.ju.reply)}
    ensures s.rec.request.finishedAt.Some? && s.rec.request.tFinalMs.Some?
  {
    DoneMeansStored(s, seats);
    StoredState(s.rec.request, s.ju);
    DoneSays(s.rec.log, s.ju, s.co.order, seats);
  }

  /** When a run is done its view rows and its judge row agree, and the state it
      announces is complete exactly if the judge answered and no seat is missing. */
  lemma RowsAtDone(seats: seq<Seat>, ls: seq<Label>, s: Run)
    requires Reaches(seats, ls, s) && IsDone(s)
    ensures Marked(s.rec.views) == s.co.included.Keys && RowsAgree(Marked(s.rec.views), s.rec.judge, seats)
    ensures s.rec.judge.state == JudgeStateFor(s.ju.reply)
    ensures var complete := JudgeOk(s.ju.reply) && Marked(s.rec.views) == SeatSet(seats);
      Done(if complete then Complete else CompletePartial) in s.rec.log
    ensures s.rec.request.finishedAt.Some? && s.rec.request.tFinalMs.Some?
    ensures s.rec.request.state == Superseded || Done(s.rec.request.state) in s.rec.log
  {
    ExecKeepsInv(seats, ls);
    RowsAgreeAtDone(s, seats);
    RequestAtDone(s, seats);
  }

  // -------------------------------------------------------- the event log

  ghost predicate OutcomeAt(log: seq<Event>, seat: Seat, i: nat) { i < |log| && OutcomeOf(log[i], seat) }

  /** The story a finished run tells: positions of the judge's three milestones,
      and what may stand before and after each. */
  ghost predicate Story(log: seq<Event>, start: nat, result: nat, done: nat) {
    start < result < done < |log|
    && log[start].JudgeStarted? && IsResult(log[result]) && log[done].Done?
    && forall i :: 0 <= i < |log| ==>
         (log[i].JudgeStarted? ==> i == start)
         && (IsResult(log[i]) ==> i == result)
         && (log[i].Done? ==> i == done)
         && (log[i].SeatCompleted? ==> i < start)
         && (IsOutcome(log[i]) || log[i].SeatDanger? || log[i].JudgeDanger? ==> i < result)
         && (i > done ==> log[i].SupersededBy?)
  }

  /** Of two events that may not precede each other a log has at most one. */
  lemma OrderedPair(log: seq<Event>, i: nat, j: nat)
    requires Ordered(log) && i < |log| && j < |log|
    ensures !MayPrecede(log[i], log[j]) ==> j <= i
  {
  }

  predicate Milestones(log: seq<Event>, start: nat, result: nat, done: nat) {
    start < |log| && result < |log| && done < |log|
    && log[start].JudgeStarted? && IsResult(log[result]) && log[done].Done?
  }

  lemma MilestonesAt(log: seq<Event>, judge: JudgePc)
    requires MilestonesOk(log, judge) && Rank(judge) > Rank(TellDone)
    ensures exists start: nat, result: nat, done: nat :: Milestones(log, start, result, done)
  {
    var a :| a in log && a.JudgeStarted?;
    var b :| b in log && IsResult(b);
    var c :| c in log && c.Done?;
    var start: nat :| start < |log| && log[start] == a;
    var result: nat :| result < |log| && log[result] == b;
    var done: nat :| done < |log| && log[done] == c;
    assert Milestones(log, start, result, done);
  }

  lemma StoryAt(log: seq<Event>, start: nat, result: nat, done: nat)
    requires Ordered(log) && Milestones(log, start, result, done)
    ensures Story(log, start, result, done)
  {
    OrderedPair(log, result, start);
    OrderedPair(log, done, result);
    forall i | 0 <= i < |log|
      ensures (log[i].JudgeStarted? ==> i == start)
      ensures (IsResult(log[i]) ==> i == result) && (log[i].Done? ==> i == done)
      ensures (log[i].SeatCompleted? ==> i < start)
      ensures (IsOutcome(log[i]) || log[i].SeatDanger? || log[i].JudgeDanger? ==> i < result)
      ensures (i > done ==> log[i].SupersededBy?)
    {
      OrderedPair(log, start, i);
      OrderedPair(log, i, start);
      OrderedPair(log, result, i);
      OrderedPair(log, i, result);
      OrderedPair(log, done, i);
      OrderedPair(log, i, done);
    }
  }

  /** In a finished run the judge starts, answers and the run is done, once each
      and in this order, with every view's outcome before the answer. */
  lemma LogAtDone(seats: seq<Seat>, ls: seq<Label>, s: Run)
    requires Reaches(seats, ls, s) && IsDone(s)
    ensures exists start: nat, result: nat, done: nat :: Story(s.rec.log, start, result, done)
  {
    ExecKeepsInv(seats, ls);
    DoneMeansStored(s, seats);
    MilestonesAt(s.rec.log, s.ju.pc);
    var start: nat, result: nat, done: nat :| Milestones(s.rec.log, start, result, done);
    StoryAt(s.rec.log, start, result, done);
  }

  /** No seat is told twice, and what is told is what the row says. */
  lemma OneOutcome(seats: seq<Seat>, ls: seq<Label>, s: Run, seat: Seat, i: nat, j: nat)
    requires Reaches(seats, ls, s) && OutcomeAt(s.rec.log, seat, i) && OutcomeAt(s.rec.log, seat, j)
    ensures i == j && seat in seats && Agrees(s.rec.log[i], s.rec.views)
  {
    ExecKeepsInv(seats, ls);
    OrderedPair(s.rec.log, i, j);
    OrderedPair(s.rec.log, j, i);
    assert s.rec.log[i] in s.rec.log;
    assert seat in SeatSet(seats);
  }

  /** In a finished run every seat has been told. */
  lemma EveryOutcome(seats: seq<Seat>, ls: seq<Label>, s: Run, seat: Seat)
    requires Reaches(seats, ls, s) && IsDone(s) && seat in seats
    ensures exists i: nat :: OutcomeAt(s.rec.log, seat, i)
  {
    ExecKeepsInv(seats, ls);
    DoneMeansStored(s, seats);
    ToldSeat(s.rec.log, seats, seat);
  }

  lemma ToldSeat(log: seq<Event>, seats: seq<Seat>, seat: Seat)
    requires OutcomesOk(log, seats, {}, None) && seat in seats
    ensures exists i: nat :: OutcomeAt(log, seat, i)
  {
    assert seat in SeatSet(seats) && Told({}, None, seat);
    var e :| e in log && OutcomeOf(e, seat);
    var i: nat :| i < |log| && log[i] == e;
    assert OutcomeAt(log, seat, i);
  }

  lemma ResultNames(seats: seq<Seat>, missing: seq<Seat>, included: set<Seat>, reply: JudgeReply, e: Event)
    requires included <= SeatSet(seats) && missing == MissingSeats(seats, included)
    requires e == ResultEvent(seats, missing, reply)
    ensures IsResult(e) && e.included == SortedStrings(included)
    ensures e.missing == SortedStrings(SeatSet(seats) - included)
    ensures e.JudgeSucceeded? <==> JudgeOk(reply)
  {
    MissingIsComplement(seats, included);
  }

  /** A result in the log means the judge has built its list of missing seats. */
  lemma ResultMeansBuilt(log: seq<Event>, ju: JudgePhase, included: set<Seat>, seats: seq<Seat>, e: Event)
    requires MilestonesOk(log, ju.pc) && MissingOk(ju, included, seats) && e in log && IsResult(e)
    ensures ju.missing == MissingSeats(seats, included)
  {
  }

  lemma EventNames(log: seq<Event>, ju: JudgePhase, co: Coordinator, seats: seq<Seat>, e: Event)
    requires MilestonesOk(log, ju.pc) && SaysOk(log, ju, co.order, seats) && OrderOk(co, seats)
    requires MissingOk(ju, co.included.Keys, seats) && e in log
    ensures e.JudgeStarted? ==> e.order == co.order
    ensures IsResult(e) ==> e.included == SortedStrings(co.included.Keys)
    ensures IsResult(e) ==> e.missing == SortedStrings(SeatSet(seats) - co.included.Keys)
    ensures IsResult(e) ==> (e.JudgeSucceeded? <==> JudgeOk(ju.reply))
  {
    if IsResult(e) {
      ResultMeansBuilt(log, ju, co.included.Keys, seats, e);
      ResultNames(seats, ju.missing, co.included.Keys, ju.reply, e);
    }
  }

  /** The judge's two events name the seats that completed before it started. */
  lemma EventsNameTheIncluded(seats: seq<Seat>, ls: seq<Label>, s: Run, e: Event)
    requires Reaches(seats, ls, s) && e in s.rec.log
    ensures e.JudgeStarted? ==> e.order == s.co.order && DistinctSeats(e.order)
    ensures e.JudgeStarted? ==> SeatSet(e.order) == s.co.included.Keys
    ensures IsResult(e) ==> e.included == SortedStrings(s.co.included.Keys)
    ensures IsResult(e) ==> e.missing == SortedStrings(SeatSet(seats) - s.co.included.Keys)
    ensures IsResult(e) ==> (e.JudgeSucceeded? <==> JudgeOk(s.ju.reply))
  {
    ExecKeepsInv(seats, ls);
    EventNames(s.rec.log, s.ju, s.co, seats, e);
  }

  // -------------------------------------------------------------- superseding

  ghost predicate Marks(s: Run) { Rank(s.ju.pc) > Rank(MarkRunning) }

  predicate IsMark(l: Label) { l.Judge? && l.j.DoMark? }

  predicate IsSupersede(l: Label) { l.Other? && l.o.SupersedeWrite? }

  lemma CoordState(s: Run, l: CoordLabel)
    requires ControlOk(s.co, s.chan, s.hand, s.drain, s.ju.pc) && NextCoord(s, l).Some?
    ensures var t := NextCoord(s, l).value;
      (t.rec.request.state == Superseded <==> s.rec.request.state == Superseded) && (Marks(t) <==> Marks(s))
  {
  }

  lemma JudgeKeepsState(rec: CouncilRows.Record, ju: JudgePhase, included: set<Seat>, order: seq<Seat>, drained: bool,
                   seats: seq<Seat>, l: JudgeLabel)
    requires NextPhase(ju, included, drained, seats, l).Some?
    ensures JudgeWrites(rec, ju, order, seats, l).request.state == Superseded
        <==> rec.request.state == Superseded && !l.DoMark?
    ensures Rank(NextPhase(ju, included, drained, seats, l).value.pc) > Rank(MarkRunning)
    ensures Rank(ju.pc) > Rank(MarkRunning) <==> !l.DoMark?
  {
  }

  lemma RecordState(rec: CouncilRows.Record, h: Hand, now: int, ms: int)
    ensures RecordStep(rec, h.res, h.late, h.pc, now, ms).request.state == rec.request.state
  {
  }

  /** Only a supersede makes the row superseded, and only the judge's mark undoes it. */
  lemma StateStep(s: Run, seats: seq<Seat>, l: Label)
    requires ControlOk(s.co, s.chan, s.hand, s.drain, s.ju.pc) && Next(s, seats, l).Some?
    ensures var t := Next(s, seats, l).value;
      (t.rec.request.state == Superseded <==> IsSupersede(l) || (s.rec.request.state == Superseded && !IsMark(l)))
      && (Marks(t) <==> Marks(s) || IsMark(l)) && !(Marks(s) && IsMark(l))
  {
    match l
    case Coord(c) => CoordState(s, c);
    case RecordMore(now, ms) => RecordState(s.rec, s.hand.value, now, ms);
    case Judge(j) => JudgeKeepsState(s.rec, s.ju, s.co.included.Keys, s.co.order, s.drain == DrainExited, seats, j);
    case _ =>
  }

  /** Step i of a run writes a supersede, with the row marked or not as m says. */
  ghost predicate SupersedesAt(seats: seq<Seat>, ls: seq<Label>, i: nat, m: bool) {
    i < |ls| && IsSupersede(ls[i]) && Exec(seats, ls[..i]).Some? && Marks(Exec(seats, ls[..i]).value) == m
  }

  ghost predicate SupersededWhile(seats: seq<Seat>, ls: seq<Label>, m: bool) {
    exists i: nat :: SupersedesAt(seats, ls, i, m)
  }

  lemma SupersedesAtFront(seats: seq<Seat>, ls: seq<Label>, i: nat, m: bool)
    requires ls != []
    ensures i < |ls| - 1 ==> (SupersedesAt(seats, ls, i, m) <==> SupersedesAt(seats, ls[..|ls| - 1], i, m))
  {
    if i < |ls| - 1 { assert ls[..|ls| - 1][..i] == ls[..i]; }
  }

  /** Until the mark no step of a run was made with the row marked. */
  lemma NoMarkBefore(seats: seq<Seat>, ls: seq<Label>, s: Run, i: nat)
    requires Reaches(seats, ls, s) && !Marks(s)
    ensures i < |ls| ==> Exec(seats, ls[..i]).Some? && !Marks(Exec(seats, ls[..i]).value)
  {
    if i < |ls| {
      ExecPrefix(seats, ls, i);
      IncludedIsFrozen(seats, ls, i, Exec(seats, ls[..i]).value, s);
    }
  }

  /** The supersedes that count for m, one step later. */
  lemma SupersedesStep(seats: seq<Seat>, ls: seq<Label>, p: Run, m: bool)
    requires ls != [] && Exec(seats, ls[..|ls| - 1]) == Some(p)
    ensures SupersededWhile(seats, ls, m) <==>
      SupersededWhile(seats, ls[..|ls| - 1], m) || (IsSupersede(ls[|ls| - 1]) && Marks(p) == m)
  {
    var front := ls[..|ls| - 1];
    forall i: nat
      ensures SupersedesAt(seats, ls, i, m) <==>
        SupersedesAt(seats, front, i, m) || (i == |front| && IsSupersede(ls[|ls| - 1]) && Marks(p) == m)
    {
      SupersedesAtFront(seats, ls, i, m);
    }
    assert SupersedesAt(seats, ls, |front|, m) <==> IsSupersede(ls[|ls| - 1]) && Marks(p) == m;
  }

  /** A row the judge phase has marked is superseded exactly if a supersede was
      written after the mark; an unmarked row, exactly if one was written at all. */
  lemma {:induction false} SupersededExactlyIf(seats: seq<Seat>, ls: seq<Label>, s: Run)
    requires Reaches(seats, ls, s)
    ensures s.rec.request.state == Superseded <==> SupersededWhile(seats, ls, Marks(s))
  {
    if ls != [] {
      var front, l := ls[..|ls| - 1], ls[|ls| - 1];
      var p := Exec(seats, front).value;
      SupersededExactlyIf(seats, front, p);
      ExecControl(seats, front, p);
      StateStep(p, seats, l);
      SupersedesStep(seats, ls, p, Marks(s));
      if IsMark(l) {
        forall i: nat ensures !SupersedesAt(seats, front, i, Marks(s)) { NoMarkBefore(seats, front, p, i); }
      }
    }
  }

  /** A supersede that comes after the mark is never lost. */
  lemma SupersededStays(seats: seq<Seat>, ls: seq<Label>, k: nat, s: Run, t: Run)
    requires k <= |ls| && Reaches(seats, ls[..k], s) && Reaches(seats, ls, t)
    requires Marks(s) && s.rec.request.state == Superseded
    ensures t.rec.request.state == Superseded
  {
    SupersededExactlyIf(seats, ls[..k], s);
    SupersededExactlyIf(seats, ls, t);
    IncludedIsFrozen(seats, ls, k, s, t);
    var i: nat :| SupersedesAt(seats, ls[..k], i, true);
    assert ls[..k][..i] == ls[..i];
    assert SupersedesAt(seats, ls, i, true);
  }

  lemma ExecSnoc(seats: seq<Seat>, ls: seq<Label>, s: Run, l: Label)
    requires Exec(seats, ls) == Some(s)
    ensures Exec(seats, ls + [l]) == Next(s, seats, l)
  {
    assert (ls + [l])[..|ls|] == ls;
  }

  /** A supersede that comes before the mark is lost: the row runs on, although it
      still names the request that superseded it. */
  lemma EarlySupersedeIsLost(seats: seq<Seat>, newer: string) returns (ls: seq<Label>, s: Run)
    requires DistinctSeats(seats) && seats != []
    ensures Reaches(seats, ls, s)
    ensures s.rec.request.state == RunningJudge && s.rec.request.supersededBy == Some(newer)
  {
    var s0 := Init(seats);
    var l1, l2, l3 := Other(SupersedeWrite(newer)), Coord(Start(0)), Other(DeadlinePasses);
    var l4, l5 := Coord(ViewsContextDone), Judge(DoMark(0, 0));
    var s1 := Next(s0, seats, l1).value;
    ExecSnoc(seats, [], s0, l1);
    var s2 := Next(s1, seats, l2).value;
    ExecSnoc(seats, [] + [l1], s1, l2);
    var s3 := Next(s2, seats, l3).value;
    ExecSnoc(seats, [] + [l1] + [l2], s2, l3);
    var s4 := Next(s3, seats, l4).value;
    ExecSnoc(seats, [] + [l1] + [l2] + [l3], s3, l4);
    s := Next(s4, seats, l5).value;
    ls := [] + [l1] + [l2] + [l3] + [l4] + [l5];
    ExecSnoc(seats, [] + [l1] + [l2] + [l3] + [l4], s4, l5);
  }

  // ------------------------------------------------- steps against writers

  lemma FinalWrites(r: CouncilRows.Record, ju: JudgePhase, order: seq<Seat>, seats: seq<Seat>,
                    now: int, ms: int, deadline: int, inTime: bool)
    ensures var r3 := JudgeWrites(r, ju, order, seats, DoFinalState);
      var r4 := JudgeWrites(r3, ju, order, seats, DoProgress(now, ms, deadline, inTime));
      var state := FinalStateFor(ju.missing, ju.reply);
      JudgeWrites(r4, ju, order, seats, DoTellDone) ==
        WithEvent(Patched(WithState(r, state), ProgressPatch(now, ms, |InTimeSeats(r.views, deadline)|, inTime)),
                  Done(state))
  {
  }

  lemma ResultWrites(rec: CouncilRows.Record, ju: JudgePhase, order: seq<Seat>, seats: seq<Seat>)
    ensures var r2 := JudgeWrites(JudgeWrites(rec, ju, order, seats, DoWriteResult), ju, order, seats, DoTellResult);
      r2 == WithEvent(rec.(judge := JudgeRowFor(seats, ju.missing, ju.reply)), ResultEvent(seats, ju.missing, ju.reply))
      && r2.views == rec.views
  {
  }

  /** The judge's last writes, run without interference, are FinishJudge. */
  lemma JudgeWritesFinish(rec: CouncilRows.Record, ju: JudgePhase, order: seq<Seat>, seats: seq<Seat>,
                          now: int, ms: int, deadline: int, inTime: bool)
    ensures var r1 := JudgeWrites(rec, ju, order, seats, DoWriteResult);
      var r2 := JudgeWrites(r1, ju, order, seats, DoTellResult);
      var r3 := JudgeWrites(r2, ju, order, seats, DoFinalState);
      var r4 := JudgeWrites(r3, ju, order, seats, DoProgress(now, ms, deadline, inTime));
      JudgeWrites(r4, ju, order, seats, DoTellDone)
        == Finished(rec, seats, ju.missing, ju.reply, true, now, ms, deadline, inTime)
  {
    ResultWrites(rec, ju, order, seats);
    var told := JudgeWrites(JudgeWrites(rec, ju, order, seats, DoWriteResult), ju, order, seats, DoTellResult);
    FinalWrites(told, ju, order, seats, now, ms, deadline, inTime);
  }
}
