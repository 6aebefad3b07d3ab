/** The judge's reply and the times of a council run, read off the steps it took. */
module CouncilTimes {
  import opened Text
  import opened CouncilRows
  import opened CouncilRun
  import opened CouncilInvariant
  import opened CouncilOutcome

  // ------------------------------------------------------------------- the judge

  predicate Urgent(reply: JudgeReply) { reply.Replied? && reply.urgent }

  /** The judge's reply is the one the run holds, and its danger is told once it is
      past that point. */
  ghost predicate ReplyFits(ls: seq<Label>, ju: JudgePhase, log: seq<Event>) {
    (forall r :: Judge(DoReply(r)) in ls ==> ju.reply == r && Rank(ju.pc) > Rank(Calling))
    && (ju.reply != Refused ==> Judge(DoReply(ju.reply)) in ls)
    && (JudgeDanger in log <==> Urgent(ju.reply) && Rank(ju.pc) > Rank(TellJudgeDanger))
  }

  /** The judge's columns hold what its two timed steps were given. */
  ghost predicate TimesFit(ls: seq<Label>, pc: JudgePc, r: RequestRow) {
    (forall now, at :: Judge(DoMark(now, at)) in ls ==>
       Rank(pc) > Rank(MarkRunning) && r.judgeStartedAt == Some(now) && r.judgeDeadlineAt == Some(at))
    && (Rank(pc) > Rank(MarkRunning) ==> exists now, at :: Judge(DoMark(now, at)) in ls)
    && (forall now, ms, due, inTime :: Judge(DoProgress(now, ms, due, inTime)) in ls ==>
          Rank(pc) > Rank(WriteProgress) && r.finishedAt == Some(now) && r.tFinalMs == Some(ms)
          && r.judgeCompletedInDeadline == Some(inTime))
    && (Rank(pc) > Rank(WriteProgress) ==> exists now, ms, due, inTime :: Judge(DoProgress(now, ms, due, inTime)) in ls)
  }

  /** What a judge step does to its variables, and what it writes. */
  ghost predicate JudgeDoes(rec: CouncilRows.Record, ju: JudgePhase, rec': CouncilRows.Record, ju': JudgePhase,
                            l: JudgeLabel)
  {
    PhaseDoes(ju, ju', l) && WritesDo(rec, ju, rec', l)
  }

  predicate PhaseDoes(ju: JudgePhase, ju': JudgePhase, l: JudgeLabel) {
    ju'.reply == (if l.DoReply? then l.r else if l.DoBuild? then Refused else ju.reply)
    && (l.DoReply? ==> ju.pc == Calling) && (l.DoBuild? ==> ju.pc == Build) && (l.DoMark? ==> ju.pc == MarkRunning)
    && (l.DoProgress? ==> ju.pc == WriteProgress) && (l.DoTellDanger? <==> ju.pc == TellJudgeDanger)
    && Rank(ju'.pc) > Rank(ju.pc)
    && (Rank(ju'.pc) > Rank(MarkRunning) ==> l.DoMark? || Rank(ju.pc) > Rank(MarkRunning))
    && (Rank(ju'.pc) > Rank(TellJudgeDanger) ==> l.DoTellDanger? || Rank(ju.pc) > Rank(TellJudgeDanger))
    && (Rank(ju'.pc) > Rank(WriteProgress) ==> l.DoProgress? || Rank(ju.pc) > Rank(WriteProgress))
  }

  ghost predicate WritesDo(rec: CouncilRows.Record, ju: JudgePhase, rec': CouncilRows.Record, l: JudgeLabel) {
    var r, r' := rec.request, rec'.request;
    (JudgeDanger in rec'.log <==> JudgeDanger in rec.log || (l.DoTellDanger? && Urgent(ju.reply)))
    && (if l.DoMark? then r'.judgeStartedAt == Some(l.now) && r'.judgeDeadlineAt == Some(l.deadlineAt)
        else r'.judgeStartedAt == r.judgeStartedAt && r'.judgeDeadlineAt == r.judgeDeadlineAt)
    && if l.DoProgress? then
         r'.finishedAt == Some(l.now) && r'.tFinalMs == Some(l.ms) && r'.judgeCompletedInDeadline == Some(l.inTime)
       else
         r'.finishedAt == r.finishedAt && r'.tFinalMs == r.tFinalMs
         && r'.judgeCompletedInDeadline == r.judgeCompletedInDeadline
  }

  lemma PhaseStepDoes(ju: JudgePhase, included: set<Seat>, drained: bool, seats: seq<Seat>, l: JudgeLabel)
    requires NextPhase(ju, included, drained, seats, l).Some?
    ensures PhaseDoes(ju, NextPhase(ju, included, drained, seats, l).value, l)
  {
  }

  lemma WritesStepDo(rec: CouncilRows.Record, ju: JudgePhase, order: seq<Seat>, seats: seq<Seat>, l: JudgeLabel)
    ensures WritesDo(rec, ju, JudgeWrites(rec, ju, order, seats, l), l)
  {
  }

  lemma JudgeStepDoes(rec: CouncilRows.Record, ju: JudgePhase, included: set<Seat>, order: seq<Seat>, drained: bool,
                      seats: seq<Seat>, l: JudgeLabel)
    requires NextPhase(ju, included, drained, seats, l).Some?
    ensures JudgeDoes(rec, ju, JudgeWrites(rec, ju, order, seats, l),
                      NextPhase(ju, included, drained, seats, l).value, l)
  {
    PhaseStepDoes(ju, included, drained, seats, l);
    WritesStepDo(rec, ju, order, seats, l);
  }

  lemma InSnoc(ls: seq<Label>, l: Label, x: Label)
    ensures x in ls + [l] <==> x in ls || x == l
  {
  }

  lemma JudgeReplyStep(ls: seq<Label>, rec: CouncilRows.Record, ju: JudgePhase, rec': CouncilRows.Record,
                       ju': JudgePhase, l: JudgeLabel)
    requires JudgeDoes(rec, ju, rec', ju', l) && ReplyFits(ls, ju, rec.log)
    ensures ReplyFits(ls + [Judge(l)], ju', rec'.log)
  {
    forall r ensures Judge(DoReply(r)) in ls + [Judge(l)] <==> Judge(DoReply(r)) in ls || l == DoReply(r) {
      InSnoc(ls, Judge(l), Judge(DoReply(r)));
    }
  }

  lemma JudgeTimesStep(ls: seq<Label>, rec: CouncilRows.Record, ju: JudgePhase, rec': CouncilRows.Record,
                       ju': JudgePhase, l: JudgeLabel)
    requires JudgeDoes(rec, ju, rec', ju', l) && TimesFit(ls, ju.pc, rec.request)
    ensures TimesFit(ls + [Judge(l)], ju'.pc, rec'.request)
  {
    var ls' := ls + [Judge(l)];
    forall x ensures x in ls' <==> x in ls || x == Judge(l) { InSnoc(ls, Judge(l), x); }
    if l.DoMark? { assert Judge(DoMark(l.now, l.deadlineAt)) in ls'; }
    if l.DoProgress? { assert Judge(DoProgress(l.now, l.ms, l.deadline, l.inTime)) in ls'; }
    if now, at :| Judge(DoMark(now, at)) in ls { assert Judge(DoMark(now, at)) in ls'; }
    if now, ms, due, inTime :| Judge(DoProgress(now, ms, due, inTime)) in ls {
      assert Judge(DoProgress(now, ms, due, inTime)) in ls';
    }
  }

  /** A step of another goroutine at most triggers the judge. */
  ghost predicate LeavesJudge(s: Run, n: Run) {
    var r, r' := s.rec.request, n.rec.request;
    n.ju.reply == s.ju.reply && (n.ju.pc == s.ju.pc || (s.ju.pc == Idle && n.ju.pc == MarkRunning))
    && (JudgeDanger in n.rec.log <==> JudgeDanger in s.rec.log)
    && r'.judgeStartedAt == r.judgeStartedAt && r'.judgeDeadlineAt == r.judgeDeadlineAt
    && r'.finishedAt == r.finishedAt && r'.tFinalMs == r.tFinalMs
    && r'.judgeCompletedInDeadline == r.judgeCompletedInDeadline
  }

  lemma CoordLeavesJudge(s: Run, l: CoordLabel)
    requires Controlled(s) && NextCoord(s, l).Some?
    ensures LeavesJudge(s, NextCoord(s, l).value)
  {
  }

  lemma RecordLeavesJudge(s: Run, now: int, ms: int)
    requires NextRecord(s, now, ms).Some?
    ensures LeavesJudge(s, NextRecord(s, now, ms).value)
  {
  }

  lemma OthersLeaveJudge(s: Run, seats: seq<Seat>, l: Label, n: Run)
    requires Controlled(s) && Next(s, seats, l) == Some(n) && !l.Judge?
    ensures LeavesJudge(s, n)
  {
    match l
    case Coord(c) => CoordLeavesJudge(s, c);
    case RecordMore(now, ms) => RecordLeavesJudge(s, now, ms);
    case _ =>
  }

  lemma LeftAlone(ls: seq<Label>, s: Run, l: Label, n: Run)
    requires LeavesJudge(s, n) && !l.Judge?
    requires ReplyFits(ls, s.ju, s.rec.log) && TimesFit(ls, s.ju.pc, s.rec.request)
    ensures ReplyFits(ls + [l], n.ju, n.rec.log) && TimesFit(ls + [l], n.ju.pc, n.rec.request)
  {
    var ls' := ls + [l];
    forall x: Label | x.Judge? ensures x in ls' <==> x in ls { InSnoc(ls, l, x); }
    if now, at :| Judge(DoMark(now, at)) in ls { assert Judge(DoMark(now, at)) in ls'; }
    if now, ms, due, inTime :| Judge(DoProgress(now, ms, due, inTime)) in ls {
      assert Judge(DoProgress(now, ms, due, inTime)) in ls';
    }
  }

  lemma {:induction false} ExecJudge(seats: seq<Seat>, ls: seq<Label>, s: Run)
    requires Reaches(seats, ls, s)
    ensures ReplyFits(ls, s.ju, s.rec.log) && TimesFit(ls, s.ju.pc, s.rec.request)
  {
    if ls != [] {
      var front, l := ls[..|ls| - 1], ls[|ls| - 1];
      var p := Exec(seats, front).value;
      assert ls == front + [l];
      ExecJudge(seats, front, p);
      ExecControl(seats, front, p);
      if l.Judge? {
        JudgeStepDoes(p.rec, p.ju, p.co.included.Keys, p.co.order, p.drain == DrainExited, seats, l.j);
        JudgeReplyStep(front, p.rec, p.ju, s.rec, s.ju, l.j);
        JudgeTimesStep(front, p.rec, p.ju, s.rec, s.ju, l.j);
      } else {
        OthersLeaveJudge(p, seats, l, s);
        LeftAlone(front, p, l, s);
      }
    }
  }

  /** In a finished run the judge row, the judge's danger and the announced state
      follow from the one reply the run holds, a judge that was never asked counting
      as refused; and the judge's times are those its steps were given. */
  lemma JudgeReplyDecides(seats: seq<Seat>, ls: seq<Label>, s: Run) returns (reply: JudgeReply)
    requires Reaches(seats, ls, s) && IsDone(s)
    ensures forall r :: Judge(DoReply(r)) in ls ==> r == reply
    ensures reply != Refused ==> Judge(DoReply(reply)) in ls
    ensures s.rec.judge.state ==
      if reply.Replied? && reply.stored then JudgeComplete
      else if reply.CallFailed? && reply.timedOut then JudgeTimedOut else JudgeFailed
    ensures s.rec.judge.hasResponse <==> reply != Refused && reply.stored
    ensures JudgeDanger in s.rec.log <==> reply.Replied? && reply.urgent
    ensures Done(if reply.Replied? && reply.stored && Marked(s.rec.views) == SeatSet(seats) then Complete
                 else CompletePartial) in s.rec.log
    ensures forall e :: e in s.rec.log && IsResult(e) ==> (e.JudgeSucceeded? <==> reply.Replied? && reply.stored)
  {
    ExecJudge(seats, ls, s);
    JudgeRowAtDone(seats, ls, s);
    RowsAtDone(seats, ls, s);
    reply := s.ju.reply;
    ResultsSay(seats, ls, s);
  }

  lemma JudgeRowAtDone(seats: seq<Seat>, ls: seq<Label>, s: Run)
    requires Reaches(seats, ls, s) && IsDone(s)
    ensures Rank(s.ju.pc) > Rank(TellDone)
    ensures s.rec.judge.state == JudgeStateFor(s.ju.reply)
    ensures s.rec.judge.hasResponse <==> s.ju.reply != Refused && s.ju.reply.stored
  {
    ExecKeepsInv(seats, ls);
    DoneMeansStored(s, seats);
    DoneJudgeRow(s, seats);
  }

  lemma ResultsSay(seats: seq<Seat>, ls: seq<Label>, s: Run)
    requires Reaches(seats, ls, s)
    ensures forall e :: e in s.rec.log && IsResult(e) ==>
      (e.JudgeSucceeded? <==> s.ju.reply.Replied? && s.ju.reply.stored)
  {
    forall e | e in s.rec.log && IsResult(e)
      ensures e.JudgeSucceeded? <==> s.ju.reply.Replied? && s.ju.reply.stored
    {
      EventsNameTheIncluded(seats, ls, s, e);
    }
  }

  /** And its times are those its two timed steps were given. */
  lemma JudgeTimesAtDone(seats: seq<Seat>, ls: seq<Label>, s: Run)
    requires Reaches(seats, ls, s) && IsDone(s)
    ensures exists now, at :: Judge(DoMark(now, at)) in ls
    ensures forall now, at :: Judge(DoMark(now, at)) in ls ==>
      s.rec.request.judgeStartedAt == Some(now) && s.rec.request.judgeDeadlineAt == Some(at)
    ensures exists now, ms, due, inTime :: Judge(DoProgress(now, ms, due, inTime)) in ls
    ensures forall now, ms, due, inTime :: Judge(DoProgress(now, ms, due, inTime)) in ls ==>
      s.rec.request.finishedAt == Some(now) && s.rec.request.tFinalMs == Some(ms)
      && s.rec.request.judgeCompletedInDeadline == Some(inTime)
  {
    ExecJudge(seats, ls, s);
    JudgeRowAtDone(seats, ls, s);
    PastAll(ls, s.ju.pc, s.rec.request);
  }

  lemma PastAll(ls: seq<Label>, pc: JudgePc, r: RequestRow)
    requires TimesFit(ls, pc, r) && Rank(pc) > Rank(TellDone)
    ensures exists now, at :: Judge(DoMark(now, at)) in ls
    ensures exists now, ms, due, inTime :: Judge(DoProgress(now, ms, due, inTime)) in ls
  {
  }

  // -------------------------------------------------------------------- the views

  /** Step i of the run, with x's result in hand at this statement, from state p. */
  ghost predicate RecordsAt(seats: seq<Seat>, ls: seq<Label>, i: nat, pc: RecordPc, p: Run) {
    i < |ls| && ls[i].RecordMore? && Exec(seats, ls[..i]) == Some(p) && p.hand.Some? && p.hand.value.pc == pc
  }

  /** Step i writes x's row. */
  ghost predicate WritesAt(seats: seq<Seat>, ls: seq<Label>, i: nat, x: Seat) {
    exists p :: RecordsAt(seats, ls, i, WriteRow, p) && p.hand.value.res.seat == x
  }

  /** Step i notes a usable result that was taken in time. */
  ghost predicate NotesAt(seats: seq<Seat>, ls: seq<Label>, i: nat) {
    exists p :: RecordsAt(seats, ls, i, NoteFirstUsable, p) && p.hand.value.res.usable && !p.hand.value.late
  }

  lemma WritesAtFront(seats: seq<Seat>, ls: seq<Label>, p: Run, i: nat, x: Seat)
    requires ls != [] && Exec(seats, ls[..|ls| - 1]) == Some(p)
    ensures var front, l := ls[..|ls| - 1], ls[|ls| - 1];
      WritesAt(seats, ls, i, x) <==>
        WritesAt(seats, front, i, x)
        || (i == |front| && l.RecordMore? && Holds(p.hand, x) && p.hand.value.pc == WriteRow)
  {
    var front := ls[..|ls| - 1];
    if i < |front| { assert front[..i] == ls[..i] && front[i] == ls[i]; }
    forall q ensures RecordsAt(seats, ls, i, WriteRow, q) <==>
      RecordsAt(seats, front, i, WriteRow, q) || (i == |front| && RecordsAt(seats, ls, |front|, WriteRow, q)) {}
    if i == |front| && ls[i].RecordMore? && Holds(p.hand, x) && p.hand.value.pc == WriteRow {
      assert RecordsAt(seats, ls, i, WriteRow, p);
    }
  }

  lemma NotesAtFront(seats: seq<Seat>, ls: seq<Label>, p: Run, i: nat)
    requires ls != [] && Exec(seats, ls[..|ls| - 1]) == Some(p)
    ensures var front, l := ls[..|ls| - 1], ls[|ls| - 1];
      NotesAt(seats, ls, i) <==>
        NotesAt(seats, front, i)
        || (i == |front| && l.RecordMore? && p.hand.Some? && p.hand.value.pc == NoteFirstUsable
            && p.hand.value.res.usable && !p.hand.value.late)
  {
    var front := ls[..|ls| - 1];
    if i < |front| { assert front[..i] == ls[..i] && front[i] == ls[i]; }
    forall q ensures RecordsAt(seats, ls, i, NoteFirstUsable, q) <==>
      RecordsAt(seats, front, i, NoteFirstUsable, q)
      || (i == |front| && RecordsAt(seats, ls, |front|, NoteFirstUsable, q)) {}
    if i == |front| && ls[i].RecordMore? && p.hand.Some? && p.hand.value.pc == NoteFirstUsable {
      assert RecordsAt(seats, ls, i, NoteFirstUsable, p);
    }
  }

  /** What a step does to the view rows and to the first usable time. */
  ghost predicate ViewsDo(s: Run, l: Label, n: Run) {
    n.rec.views.Keys == s.rec.views.Keys
    && (forall x :: x in s.rec.views ==>
          if l.RecordMore? && Holds(s.hand, x) && s.hand.value.pc == WriteRow then
            n.rec.views[x].completedAt == Some(l.now) && n.rec.views[x].state != ViewPending
          else n.rec.views[x] == s.rec.views[x])
    && n.rec.request.tFirstUsableViewMs
       == if l.RecordMore? && s.hand.Some? && s.hand.value.pc == NoteFirstUsable && s.hand.value.res.usable
             && !s.hand.value.late && s.rec.request.tFirstUsableViewMs.None? then Some(l.ms)
          else s.rec.request.tFirstUsableViewMs
  }

  lemma RecordDoes(s: Run, now: int, ms: int)
    requires NextRecord(s, now, ms).Some?
    ensures ViewsDo(s, RecordMore(now, ms), NextRecord(s, now, ms).value)
  {
  }

  lemma CoordDoes(s: Run, l: CoordLabel)
    requires NextCoord(s, l).Some?
    ensures ViewsDo(s, Coord(l), NextCoord(s, l).value)
  {
  }

  lemma StepDoes(s: Run, seats: seq<Seat>, l: Label, n: Run)
    requires Next(s, seats, l) == Some(n)
    ensures ViewsDo(s, l, n)
  {
    match l
    case Coord(c) => CoordDoes(s, c);
    case RecordMore(now, ms) => RecordDoes(s, now, ms);
    case _ =>
  }

  /** A row's time is that of the step that wrote it. */
  ghost predicate RowTimed(seats: seq<Seat>, ls: seq<Label>, row: ViewRow, x: Seat) {
    (forall i: nat :: WritesAt(seats, ls, i, x) ==> row.completedAt == Some(ls[i].now) && row.state != ViewPending)
    && (row.completedAt.Some? ==> exists i: nat :: WritesAt(seats, ls, i, x))
    && (row.state != ViewPending ==> row.completedAt.Some?)
  }

  lemma RowTimedStep(seats: seq<Seat>, ls: seq<Label>, p: Run, s: Run, x: Seat)
    requires ls != [] && Exec(seats, ls[..|ls| - 1]) == Some(p) && ViewsDo(p, ls[|ls| - 1], s)
    requires x in p.rec.views && RowTimed(seats, ls[..|ls| - 1], p.rec.views[x], x)
    requires Holds(p.hand, x) && p.hand.value.pc == WriteRow ==> p.rec.views[x].state == ViewPending
    ensures x in s.rec.views && RowTimed(seats, ls, s.rec.views[x], x)
  {
    var front, l := ls[..|ls| - 1], ls[|ls| - 1];
    var writes := l.RecordMore? && Holds(p.hand, x) && p.hand.value.pc == WriteRow;
    forall i: nat ensures WritesAt(seats, ls, i, x) <==> WritesAt(seats, front, i, x) || (i == |front| && writes) {
      WritesAtFront(seats, ls, p, i, x);
    }
    if writes { assert WritesAt(seats, ls, |front|, x); }
    forall i: nat | WritesAt(seats, ls, i, x)
      ensures s.rec.views[x].completedAt == Some(ls[i].now) && s.rec.views[x].state != ViewPending
    {
      if WritesAt(seats, front, i, x) { assert front[i] == ls[i]; }
    }
    if p.rec.views[x].completedAt.Some? {
      var i: nat :| WritesAt(seats, front, i, x);
      assert WritesAt(seats, ls, i, x);
    }
  }

  lemma {:induction false} ExecRowTimed(seats: seq<Seat>, ls: seq<Label>, s: Run, x: Seat)
    requires Reaches(seats, ls, s) && x in SeatSet(seats)
    ensures x in s.rec.views && RowTimed(seats, ls, s.rec.views[x], x)
  {
    if ls != [] {
      var front, l := ls[..|ls| - 1], ls[|ls| - 1];
      var p := Exec(seats, front).value;
      ExecRowTimed(seats, front, p, x);
      ExecKeepsInv(seats, front);
      StepDoes(p, seats, l, s);
      assert RowFits(p.rec.views[x], x, Waits(p.chan), p.hand, x in p.co.included.Keys);
      RowTimedStep(seats, ls, p, s, x);
    }
  }

  ghost predicate FirstNote(seats: seq<Seat>, ls: seq<Label>, i: nat) {
    NotesAt(seats, ls, i) && forall j: nat :: j < i ==> !NotesAt(seats, ls, j)
  }

  /** The first usable time is that of the first step that notes one. */
  ghost predicate FirstTimed(seats: seq<Seat>, ls: seq<Label>, ms: Option<int>) {
    if ms.None? then forall i: nat :: !NotesAt(seats, ls, i)
    else exists i: nat :: FirstNote(seats, ls, i) && ms == Some(ls[i].ms)
  }

  lemma FirstTimedStep(seats: seq<Seat>, ls: seq<Label>, p: Run, s: Run)
    requires ls != [] && Exec(seats, ls[..|ls| - 1]) == Some(p) && ViewsDo(p, ls[|ls| - 1], s)
    requires FirstTimed(seats, ls[..|ls| - 1], p.rec.request.tFirstUsableViewMs)
    ensures FirstTimed(seats, ls, s.rec.request.tFirstUsableViewMs)
  {
    var front, l := ls[..|ls| - 1], ls[|ls| - 1];
    var notes := l.RecordMore? && p.hand.Some? && p.hand.value.pc == NoteFirstUsable && p.hand.value.res.usable
      && !p.hand.value.late;
    forall i: nat ensures NotesAt(seats, ls, i) <==> NotesAt(seats, front, i) || (i == |front| && notes) {
      NotesAtFront(seats, ls, p, i);
    }
    if p.rec.request.tFirstUsableViewMs.Some? {
      var i: nat :| FirstNote(seats, front, i) && p.rec.request.tFirstUsableViewMs == Some(front[i].ms);
      assert FirstNote(seats, ls, i) && front[i] == ls[i];
    } else if notes {
      assert FirstNote(seats, ls, |front|);
    }
  }

  lemma {:induction false} ExecFirstTimed(seats: seq<Seat>, ls: seq<Label>, s: Run)
    requires Exec(seats, ls) == Some(s)
    ensures FirstTimed(seats, ls, s.rec.request.tFirstUsableViewMs)
  {
    if ls != [] {
      var front, l := ls[..|ls| - 1], ls[|ls| - 1];
      var p := Exec(seats, front).value;
      ExecFirstTimed(seats, front, p);
      StepDoes(p, seats, l, s);
      FirstTimedStep(seats, ls, p, s);
    }
  }

  /** The row of x was written by the deadline. */
  ghost predicate WrittenBy(seats: seq<Seat>, ls: seq<Label>, x: Seat, deadline: int) {
    exists i: nat :: WritesAt(seats, ls, i, x) && ls[i].now <= deadline
  }

  /** In a finished run every view row has the time of the one step that wrote it, the
      first usable time is that of the first note of a usable result in time, and the
      views counted in time are the marked ones written by the deadline. */
  lemma ViewTimesAtDone(seats: seq<Seat>, ls: seq<Label>, s: Run)
    requires Reaches(seats, ls, s) && IsDone(s)
    ensures s.rec.views.Keys == SeatSet(seats)
    ensures forall x :: x in s.rec.views ==>
      (exists i: nat :: WritesAt(seats, ls, i, x))
      && forall i: nat :: WritesAt(seats, ls, i, x) ==> s.rec.views[x].completedAt == Some(ls[i].now)
    ensures FirstTimed(seats, ls, s.rec.request.tFirstUsableViewMs)
    ensures InTimeSeats(s.rec.views, s.viewsDeadline)
         == set x | x in s.rec.views && s.rec.views[x].includedInJudge && WrittenBy(seats, ls, x, s.viewsDeadline)
  {
    ExecKeepsInv(seats, ls);
    ExecFirstTimed(seats, ls, s);
    DoneMeansStored(s, seats);
    forall x | x in s.rec.views
      ensures RowTimed(seats, ls, s.rec.views[x], x) && s.rec.views[x].state != ViewPending
      ensures s.rec.views[x].includedInJudge <==> s.rec.views[x].state == ViewComplete
    {
      assert RowFits(s.rec.views[x], x, Waits(s.chan), s.hand, x in s.co.included.Keys);
      ExecRowTimed(seats, ls, s, x);
    }
  }

  // ------------------------------------------------------------------ superseding

  /** The newer request that superseded this one last. */
  function LastSuperseder(ls: seq<Label>): Option<string> {
    if ls == [] then None else
    var l := ls[|ls| - 1];
    if l.Other? && l.o.SupersedeWrite? then Some(l.o.id) else LastSuperseder(ls[..|ls| - 1])
  }

  lemma SupersederStep(s: Run, seats: seq<Seat>, l: Label, n: Run)
    requires Next(s, seats, l) == Some(n)
    ensures n.rec.request.supersededBy
         == if l.Other? && l.o.SupersedeWrite? then Some(l.o.id) else s.rec.request.supersededBy
  {
    match l
    case Coord(_) =>
    case Judge(j) => JudgeKeepsSuperseder(s.rec, s.ju, s.co.order, seats, j);
    case _ =>
  }

  lemma JudgeKeepsSuperseder(rec: CouncilRows.Record, ju: JudgePhase, order: seq<Seat>, seats: seq<Seat>, l: JudgeLabel)
    ensures JudgeWrites(rec, ju, order, seats, l).request.supersededBy == rec.request.supersededBy
  {
  }

  /** At every point of a run the row names the request that superseded it last. */
  lemma {:induction false} NamesLastSuperseder(seats: seq<Seat>, ls: seq<Label>, s: Run)
    requires Exec(seats, ls) == Some(s)
    ensures s.rec.request.supersededBy == LastSuperseder(ls)
  {
    if ls != [] {
      var p := Exec(seats, ls[..|ls| - 1]).value;
      NamesLastSuperseder(seats, ls[..|ls| - 1], p);
      SupersederStep(p, seats, ls[|ls| - 1], s);
    }
  }
}
