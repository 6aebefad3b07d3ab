/** A council run never deadlocks and always ends, provided its gateway calls return. */
module CouncilProgress {
  import opened Text
  import opened CouncilRows
  import opened CouncilRun
  import opened CouncilInvariant
  import opened CouncilOutcome

  /** A step of the run's own goroutines, as opposed to the clock and other requests. */
  predicate IsOwn(l: Label) { !l.Other? }

  ghost predicate Enabled(s: Run, seats: seq<Seat>, l: Label) { IsOwn(l) && Next(s, seats, l).Some? }

  ghost predicate CanStep(s: Run, seats: seq<Seat>) { exists l :: Enabled(s, seats, l) }

  // -------------------------------------------------------------- no deadlock

  function JudgeMove(pc: JudgePc, deadline: int): JudgeLabel
    requires pc !in {Idle, JudgeReturned}
  {
    match pc
    case MarkRunning => DoMark(0, 0)
    case Announce => DoAnnounce
    case Build => DoBuild(false)
    case Calling => DoReply(CallFailed(true, false))
    case AwaitViews => DoResume
    case FlagJudgeDanger => DoFlagDanger
    case TellJudgeDanger => DoTellDanger
    case WriteResult => DoWriteResult
    case TellResult => DoTellResult
    case WriteFinalState => DoFinalState
    case WriteProgress => DoProgress(0, 0, deadline, false)
    case TellDone => DoTellDone
    case _ => DoReturn
  }

  /** A step that is possible in any state that can still step. */
  function Move(s: Run, seat: Seat): Label {
    if s.co.pc == AtStart then Coord(Start(0))
    else if s.chan.calling != {} then View(Deliver(seat, TimedOut(false)))
    else if !s.chan.closed then View(CloseResults)
    else if s.hand.Some? && s.hand.value.pc != Recorded then RecordMore(0, 0)
    else if s.hand.Some? && s.co.pc == CoordRecording then Coord(AfterRecord)
    else if s.hand.Some? then Drain(DrainNext)
    else LoopMove(s)
  }

  /** With all results delivered and none in hand. */
  function LoopMove(s: Run): Label {
    if s.co.pc == AtSelect && s.co.pending > 0 then Coord(TakeResult)
    else if s.co.pc == AtSelect then Coord(LeaveLoop)
    else if s.drain == DrainReceive && s.chan.results != [] then Drain(DrainTake)
    else if s.drain == DrainReceive then Drain(DrainExit)
    else if s.co.pc == AwaitDrain then Coord(SeeDrained)
    else if s.ju.pc in {Idle, JudgeReturned} then Coord(SeeJudged)
    else Judge(JudgeMove(s.ju.pc, s.viewsDeadline))
  }

  lemma JudgeMoves(ju: JudgePhase, included: set<Seat>, seats: seq<Seat>, deadline: int)
    requires ju.pc !in {Idle, JudgeReturned}
    ensures NextPhase(ju, included, true, seats, JudgeMove(ju.pc, deadline)).Some?
    ensures JudgeMove(ju.pc, deadline).DoProgress? ==> JudgeMove(ju.pc, deadline).deadline == deadline
  {
  }

  /** The part of the invariant that governs control. */
  ghost predicate Basics(s: Run, seats: seq<Seat>) {
    ChannelOk(s.chan, seats) && CountOk(s.co, s.chan) && Controlled(s)
  }

  lemma ExecBasics(seats: seq<Seat>, ls: seq<Label>, s: Run)
    requires Reaches(seats, ls, s)
    ensures Basics(s, seats)
  {
    ExecKeepsInv(seats, ls);
  }

  lemma LoopMoveIsPossible(s: Run, seats: seq<Seat>)
    requires Basics(s, seats) && s.co.pc !in {AtStart, Returned}
    requires s.chan.calling == {} && s.chan.closed && s.hand.None?
    ensures Enabled(s, seats, LoopMove(s))
  {
    if s.ju.pc !in {Idle, JudgeReturned} { JudgeMoves(s.ju, s.co.included.Keys, seats, s.viewsDeadline); }
  }

  lemma MoveIsPossible(s: Run, seats: seq<Seat>, seat: Seat)
    requires Basics(s, seats) && s.co.pc != Returned
    requires s.chan.calling != {} ==> seat in s.chan.calling
    ensures Enabled(s, seats, Move(s, seat))
  {
    if s.co.pc != AtStart && s.chan.calling == {} && s.chan.closed && s.hand.None? { LoopMoveIsPossible(s, seats); }
  }

  /** Until it returns, a run always has a next step of its own. */
  lemma NoDeadlock(s: Run, seats: seq<Seat>)
    requires Basics(s, seats) && s.co.pc != Returned
    ensures exists seat :: Enabled(s, seats, Move(s, seat))
  {
    if s.chan.calling != {} {
      var seat :| seat in s.chan.calling;
      MoveIsPossible(s, seats, seat);
    } else {
      MoveIsPossible(s, seats, "");
    }
  }

  lemma ReturnedIsStill(s: Run, seats: seq<Seat>, l: Label)
    requires Basics(s, seats) && s.co.pc == Returned
    ensures !Enabled(s, seats, l)
  {
  }

  lemma ReturnedIsDone(s: Run, seats: seq<Seat>)
    requires Controlled(s) && MilestonesOk(s.rec.log, s.ju.pc) && s.co.pc == Returned
    ensures IsDone(s)
  {
  }

  /** A run can step exactly until it has returned, and then it is done. */
  lemma StepsUntilReturned(seats: seq<Seat>, ls: seq<Label>, s: Run)
    requires Reaches(seats, ls, s)
    ensures CanStep(s, seats) <==> s.co.pc != Returned
    ensures s.co.pc == Returned ==> IsDone(s)
  {
    ExecBasics(seats, ls, s);
    if s.co.pc != Returned {
      NoDeadlock(s, seats);
    } else {
      forall l ensures !Enabled(s, seats, l) { ReturnedIsStill(s, seats, l); }
      ExecKeepsInv(seats, ls);
      ReturnedIsDone(s, seats);
    }
  }

  // -------------------------------------------------------------- termination

  function HandWeight(hand: Option<Hand>): nat { if hand.None? then 0 else 1 + RecordLeft(hand.value.pc) }

  function CoordWeight(pc: CoordPc): nat {
    match pc
    case AtStart => 4
    case AtSelect => 3
    case CoordRecording => 3
    case AwaitDrain => 2
    case AwaitJudge => 1
    case Returned => 0
  }

  function DrainWeight(pc: DrainPc): nat {
    match pc
    case DrainIdle => 2
    case DrainReceive => 1
    case DrainRecording => 1
    case DrainExited => 0
  }

  function ChannelWeight(c: Channel): nat { 8 * |c.calling| + 7 * |c.results| + if c.closed then 0 else 1 }

  function JudgeWeight(pc: JudgePc): nat { Rank(JudgeReturned) - Rank(pc) }

  function Weight(s: Run): nat {
    ChannelWeight(s.chan) + HandWeight(s.hand) + CoordWeight(s.co.pc) + DrainWeight(s.drain) + JudgeWeight(s.ju.pc)
  }

  lemma CoordWeighs(s: Run, l: CoordLabel)
    requires CountOk(s.co, s.chan) && Controlled(s) && NextCoord(s, l).Some?
    ensures Weight(NextCoord(s, l).value) < Weight(s)
  {
  }

  lemma ChannelWeighs(c: Channel, l: ViewLabel)
    requires NextChannel(c, l).Some?
    ensures ChannelWeight(NextChannel(c, l).value) < ChannelWeight(c)
  {
  }

  lemma DrainWeighs(s: Run, l: DrainLabel)
    requires Controlled(s) && NextDrain(s, l).Some?
    ensures Weight(NextDrain(s, l).value) < Weight(s)
  {
  }

  lemma RecordWeighs(s: Run, now: int, ms: int)
    requires NextRecord(s, now, ms).Some?
    ensures Weight(NextRecord(s, now, ms).value) < Weight(s)
  {
  }

  lemma ViewWeighs(s: Run, l: ViewLabel)
    requires NextView(s, l).Some?
    ensures Weight(NextView(s, l).value) < Weight(s)
  {
    ChannelWeighs(s.chan, l);
  }

  lemma JudgeWeighs(s: Run, seats: seq<Seat>, l: JudgeLabel)
    requires NextJudge(s, seats, l).Some?
    ensures Weight(NextJudge(s, seats, l).value) < Weight(s)
  {
    PhaseAdvances(s.ju, s.co.included.Keys, s.drain == DrainExited, seats, l);
    JudgeFrame(s, seats, l);
  }

  lemma JudgeFrame(s: Run, seats: seq<Seat>, l: JudgeLabel)
    requires NextJudge(s, seats, l).Some?
    ensures var t := NextJudge(s, seats, l).value;
      t == s.(rec := t.rec, ju := NextPhase(s.ju, s.co.included.Keys, s.drain == DrainExited, seats, l).value)
      && NextPhase(s.ju, s.co.included.Keys, s.drain == DrainExited, seats, l).Some?
  {
  }

  lemma OtherWeighs(s: Run, l: OtherLabel)
    requires NextOther(s, l).Some?
    ensures Weight(NextOther(s, l).value) == Weight(s)
  {
  }

  /** Every step of the run's own makes it lighter. */
  lemma StepWeighs(s: Run, seats: seq<Seat>, l: Label)
    requires Basics(s, seats) && Next(s, seats, l).Some?
    ensures IsOwn(l) ==> Weight(Next(s, seats, l).value) < Weight(s)
    ensures !IsOwn(l) ==> Weight(Next(s, seats, l).value) == Weight(s)
  {
    match l
    case Coord(c) => CoordWeighs(s, c);
    case View(v) => ViewWeighs(s, v);
    case RecordMore(now, ms) => RecordWeighs(s, now, ms);
    case Drain(d) => DrainWeighs(s, d);
    case Judge(j) => JudgeWeighs(s, seats, j);
    case Other(o) => OtherWeighs(s, o);
  }

  function OwnSteps(ls: seq<Label>): nat {
    if ls == [] then 0 else OwnSteps(ls[..|ls| - 1]) + if IsOwn(ls[|ls| - 1]) then 1 else 0
  }

  /** However its goroutines interleave and whatever other requests do, a run
      over n seats takes at most 8n + 21 steps. */
  lemma {:induction false} RunsEnd(seats: seq<Seat>, ls: seq<Label>, s: Run)
    requires Reaches(seats, ls, s)
    ensures OwnSteps(ls) + Weight(s) <= 8 * |seats| + 21
  {
    if ls == [] {
      DistinctCount(seats);
    } else {
      var front := ls[..|ls| - 1];
      var m := Exec(seats, front).value;
      RunsEnd(seats, front, m);
      ExecBasics(seats, front, m);
      StepWeighs(m, seats, ls[|ls| - 1]);
    }
  }

  lemma StepOn(seats: seq<Seat>, ls: seq<Label>, s: Run) returns (l: Label, t: Run)
    requires Reaches(seats, ls, s) && s.co.pc != Returned
    ensures IsOwn(l) && Reaches(seats, ls + [l], t) && Weight(t) < Weight(s)
  {
    ExecBasics(seats, ls, s);
    NoDeadlock(s, seats);
    var seat :| Enabled(s, seats, Move(s, seat));
    l := Move(s, seat);
    t := Next(s, seats, l).value;
    StepWeighs(s, seats, l);
    ExecSnoc(seats, ls, s, l);
  }

  lemma MoveLabel(ls: seq<Label>, l: Label, rest: seq<Label>)
    ensures ls + [l] + rest == ls + ([l] + rest)
    ensures (forall x :: x in rest ==> IsOwn(x)) && IsOwn(l) ==> forall x :: x in [l] + rest ==> IsOwn(x)
  {
  }

  lemma Unextended(ls: seq<Label>)
    ensures ls + [] == ls
  {
  }

  /** From every reachable state the run can be brought to its end by its own steps. */
  lemma {:induction false} CanAlwaysFinish(seats: seq<Seat>, ls: seq<Label>, s: Run) returns (more: seq<Label>, t: Run)
    requires Reaches(seats, ls, s)
    ensures (forall l :: l in more ==> IsOwn(l)) && Reaches(seats, ls + more, t)
    ensures t.co.pc == Returned && IsDone(t)
    decreases Weight(s)
  {
    if s.co.pc == Returned {
      StepsUntilReturned(seats, ls, s);
      more, t := [], s;
      Unextended(ls);
    } else {
      var l, m := StepOn(seats, ls, s);
      var rest;
      rest, t := CanAlwaysFinish(seats, ls + [l], m);
      more := [l] + rest;
      MoveLabel(ls, l, rest);
    }
  }

  predicate Hangs(s: Run) {
    s.chan == Channel({}, [], true) && s.hand == None
    && s.co.pc == AwaitJudge && s.drain == DrainExited && s.ju.pc == Idle
  }

  lemma HangIsStill(s: Run, seats: seq<Seat>, l: Label)
    requires Hangs(s)
    ensures !Enabled(s, seats, l)
  {
  }

  /** Without seats nothing ever triggers the judge, and the run hangs. */
  lemma NoSeatsHang() returns (ls: seq<Label>, s: Run)
    ensures Exec([], ls) == Some(s) && !CanStep(s, []) && s.co.pc != Returned && !IsDone(s)
  {
    var l1, l2, l3 := Coord(Start(0)), View(CloseResults), Coord(LeaveLoop);
    var l4, l5 := Drain(DrainExit), Coord(SeeDrained);
    var s0 := Init([]);
    var s1 := Next(s0, [], l1).value;
    var s2 := Next(s1, [], l2).value;
    var s3 := Next(s2, [], l3).value;
    var s4 := Next(s3, [], l4).value;
    s := Next(s4, [], l5).value;
    assert Hangs(s) && s.rec.log == [];
    ExecSnoc([], [], s0, l1);
    ExecSnoc([], [] + [l1], s1, l2);
    ExecSnoc([], [] + [l1] + [l2], s2, l3);
    ExecSnoc([], [] + [l1] + [l2] + [l3], s3, l4);
    ExecSnoc([], [] + [l1] + [l2] + [l3] + [l4], s4, l5);
    ls := [] + [l1] + [l2] + [l3] + [l4] + [l5];
    forall l ensures !Enabled(s, [], l) { HangIsStill(s, [], l); }
  }
}
