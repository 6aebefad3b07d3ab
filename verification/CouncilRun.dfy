/** One council run as a transition system: the coordinator, the view calls, the
    drain, the judge, and whatever other requests do to this one, interleaved
    one statement at a time.  Any number of view seats. */
module CouncilRun {
  import opened Text
  import opened CouncilRows

  datatype CoordPc = AtStart | AtSelect | CoordRecording | AwaitDrain | AwaitJudge | Returned

  datatype DrainPc = DrainIdle | DrainReceive | DrainRecording | DrainExited

  datatype JudgePc =
    | Idle | MarkRunning | Announce | Build | Calling | AwaitViews | FlagJudgeDanger | TellJudgeDanger
    | WriteResult | TellResult | WriteFinalState | WriteProgress | TellDone | MarkDone | JudgeReturned

  function Rank(pc: JudgePc): nat {
    match pc
    case Idle => 0
    case MarkRunning => 1
    case Announce => 2
    case Build => 3
    case Calling => 4
    case AwaitViews => 5
    case FlagJudgeDanger => 6
    case TellJudgeDanger => 7
    case WriteResult => 8
    case TellResult => 9
    case WriteFinalState => 10
    case WriteProgress => 11
    case TellDone => 12
    case MarkDone => 13
    case JudgeReturned => 14
  }

  /** A delivered result being recorded, by the coordinator or by the drain. */
  datatype Hand = Hand(res: ViewResult, late: bool, pc: RecordPc)

  /** The view goroutines, what they have sent, and whether their channel is closed. */
  datatype Channel = Channel(calling: set<Seat>, results: seq<ViewResult>, closed: bool)

  /** The coordinator's program point and variables. */
  datatype Coordinator = Coordinator(
    pc: CoordPc, pending: int, triggered: bool, included: map<Seat, ViewResult>, order: seq<Seat>)

  /** The judge phase's program point and variables. */
  datatype JudgePhase = JudgePhase(pc: JudgePc, missing: seq<Seat>, reply: JudgeReply)

  datatype Run = Run(
    rec: Record,
    chan: Channel,
    viewsDeadline: int,
    deadline: bool,
    cancelled: bool,
    co: Coordinator,
    hand: Option<Hand>,
    drain: DrainPc,
    ju: JudgePhase,
    // newer requests that supersede this one: 1 written, 2 cancelled, 3 told
    superseders: map<string, nat>)

  ghost function Init(seats: seq<Seat>): Run {
    Run(InitialRecord(seats), Channel(SeatSet(seats), [], false), 0, false, false,
        Coordinator(AtStart, |seats|, false, map[], []), None, DrainIdle,
        JudgePhase(Idle, [], Refused), map[])
  }

  // ------------------------------------------------------------------- steps

  datatype CoordLabel = Start(viewsDeadline: int) | TakeResult | TakeClosed | ViewsContextDone | RunContextDone
                      | AfterRecord | LeaveLoop | SeeDrained | SeeJudged

  datatype ViewLabel = Deliver(seat: Seat, reply: ViewReply) | CloseResults

  datatype DrainLabel = DrainTake | DrainNext | DrainExit

  datatype JudgeLabel =
    | DoMark(now: int, deadlineAt: int) | DoAnnounce | DoBuild(refused: bool) | DoReply(r: JudgeReply) | DoResume
    | DoFlagDanger | DoTellDanger | DoWriteResult | DoTellResult | DoFinalState
    | DoProgress(now: int, ms: int, deadline: int, inTime: bool) | DoTellDone | DoReturn

  datatype OtherLabel = DeadlinePasses | SupersedeWrite(id: string) | SupersedeCancel(id: string, registered: bool)
                      | SupersedeTell(id: string)

  datatype Label =
    | Coord(c: CoordLabel)
    | View(v: ViewLabel)
    | RecordMore(now: int, ms: int)
    | Drain(d: DrainLabel)
    | Judge(j: JudgeLabel)
    | Other(o: OtherLabel)

  /** Starting the judge phase; a second trigger does nothing. */
  function Trigger(s: Run): Run {
    if s.co.triggered then s
    else s.(co := s.co.(triggered := true, pending := -1), ju := s.ju.(pc := MarkRunning))
  }

  /** A recorded result counts for the judge if it is usable and came in time. */
  function Keep(co: Coordinator, h: Hand): Coordinator {
    if h.res.terminal && !h.late
    then co.(pc := AtSelect, included := co.included[h.res.seat := h.res], order := co.order + [h.res.seat])
    else co.(pc := AtSelect)
  }

  function NextCoord(s: Run, l: CoordLabel): Option<Run> {
    match l
    case Start(viewsDeadline) =>
      if s.co.pc != AtStart then None
      else Some(s.(rec := WithState(s.rec, RunningViews), viewsDeadline := viewsDeadline, co := s.co.(pc := AtSelect)))
    case TakeResult =>
      if s.co.pc != AtSelect || s.co.pending <= 0 || s.chan.results == [] then None
      else Some(s.(chan := s.chan.(results := s.chan.results[1..]),
                   co := s.co.(pc := CoordRecording, pending := s.co.pending - 1),
                   hand := Some(Hand(s.chan.results[0], s.co.triggered, WriteRow))))
    case TakeClosed =>
      if s.co.pc != AtSelect || s.co.pending <= 0 || s.chan.results != [] || !s.chan.closed then None
      else Some(s.(co := s.co.(pc := AwaitDrain), drain := DrainReceive))
    case ViewsContextDone =>
      if s.co.pc != AtSelect || s.co.pending <= 0 || !(s.deadline || s.cancelled) then None else Some(Trigger(s))
    case RunContextDone =>
      if s.co.pc != AtSelect || s.co.pending <= 0 || !s.cancelled then None else Some(Trigger(s))
    case AfterRecord =>
      if s.co.pc != CoordRecording || s.hand.None? || s.hand.value.pc != Recorded then None else
      var kept := s.(hand := None, co := Keep(s.co, s.hand.value));
      Some(if kept.co.pending == 0 then Trigger(kept) else kept)
    case LeaveLoop =>
      if s.co.pc != AtSelect || s.co.pending > 0 then None
      else Some(s.(co := s.co.(pc := AwaitDrain), drain := DrainReceive))
    case SeeDrained =>
      if s.co.pc != AwaitDrain || s.drain != DrainExited then None else Some(s.(co := s.co.(pc := AwaitJudge)))
    case SeeJudged =>
      if s.co.pc != AwaitJudge || s.ju.pc != JudgeReturned then None
      else Some(s.(co := s.co.(pc := Returned), cancelled := true))
  }

  function NextChannel(c: Channel, l: ViewLabel): Option<Channel> {
    match l
    case Deliver(seat, reply) =>
      if seat !in c.calling then None
      else Some(c.(calling := c.calling - {seat}, results := c.results + [CallView(seat, reply)]))
    case CloseResults => if c.calling != {} || c.closed then None else Some(c.(closed := true))
  }

  function NextView(s: Run, l: ViewLabel): Option<Run> {
    if s.co.pc == AtStart then None else
    match NextChannel(s.chan, l)
    case None => None
    case Some(chan) => Some(s.(chan := chan))
  }

  function NextRecord(s: Run, now: int, ms: int): Option<Run> {
    if s.hand.None? || s.hand.value.pc == Recorded then None else
    var h := s.hand.value;
    Some(s.(rec := RecordStep(s.rec, h.res, h.late, h.pc, now, ms), hand := Some(h.(pc := NextPc(h.pc)))))
  }

  function NextDrain(s: Run, l: DrainLabel): Option<Run> {
    match l
    case DrainTake =>
      if s.drain != DrainReceive || s.chan.results == [] then None
      else Some(s.(chan := s.chan.(results := s.chan.results[1..]),
                   hand := Some(Hand(s.chan.results[0], true, WriteRow)), drain := DrainRecording))
    case DrainNext =>
      if s.drain != DrainRecording || s.hand.None? || s.hand.value.pc != Recorded then None
      else Some(s.(hand := None, drain := DrainReceive))
    case DrainExit =>
      if s.drain != DrainReceive || s.chan.results != [] || !s.chan.closed then None else Some(s.(drain := DrainExited))
  }

  function MarkPatch(now: int, deadlineAt: int): Patch {
    NO_PATCH.(state := Some(RunningJudge), judgeStartedAt := Some(now), judgeDeadlineAt := Some(deadlineAt))
  }

  /** The judge's variables after a step, if the step is possible. */
  ghost function NextPhase(ju: JudgePhase, included: set<Seat>, drained: bool, seats: seq<Seat>,
                           l: JudgeLabel): Option<JudgePhase>
  {
    match l
    case DoMark(_, _) => if ju.pc == MarkRunning then Some(ju.(pc := Announce)) else None
    case DoAnnounce => if ju.pc == Announce then Some(ju.(pc := Build)) else None
    case DoBuild(refused) =>
      if ju.pc == Build
      then Some(JudgePhase(if refused then AwaitViews else Calling, MissingSeats(seats, included), Refused)) else None
    case DoReply(r) => if ju.pc == Calling && !r.Refused? then Some(ju.(pc := AwaitViews, reply := r)) else None
    case DoResume => if ju.pc == AwaitViews && drained then Some(ju.(pc := FlagJudgeDanger)) else None
    case DoFlagDanger => if ju.pc == FlagJudgeDanger then Some(ju.(pc := TellJudgeDanger)) else None
    case DoTellDanger => if ju.pc == TellJudgeDanger then Some(ju.(pc := WriteResult)) else None
    case DoWriteResult => if ju.pc == WriteResult then Some(ju.(pc := TellResult)) else None
    case DoTellResult => if ju.pc == TellResult then Some(ju.(pc := WriteFinalState)) else None
    case DoFinalState => if ju.pc == WriteFinalState then Some(ju.(pc := WriteProgress)) else None
    case DoProgress(_, _, _, inTime) =>
      if ju.pc == WriteProgress && (inTime ==> JudgeOk(ju.reply)) then Some(ju.(pc := TellDone)) else None
    case DoTellDone => if ju.pc == TellDone then Some(ju.(pc := MarkDone)) else None
    case DoReturn => if ju.pc == MarkDone then Some(ju.(pc := JudgeReturned)) else None
  }

  /** What a judge step stores and publishes. */
  ghost function JudgeWrites(rec: Record, ju: JudgePhase, order: seq<Seat>, seats: seq<Seat>, l: JudgeLabel): Record {
    match l
    case DoMark(now, deadlineAt) => Patched(rec, MarkPatch(now, deadlineAt))
    case DoAnnounce => WithEvent(rec, JudgeStarted(order))
    case DoFlagDanger => if ju.reply.Replied? && ju.reply.urgent then WithDanger(rec) else rec
    case DoTellDanger => if ju.reply.Replied? && ju.reply.urgent then WithEvent(rec, JudgeDanger) else rec
    case DoWriteResult => rec.(judge := JudgeRowFor(seats, ju.missing, ju.reply))
    case DoTellResult => WithEvent(rec, ResultEvent(seats, ju.missing, ju.reply))
    case DoFinalState => WithState(rec, FinalStateFor(ju.missing, ju.reply))
    case DoProgress(now, ms, deadline, inTime) =>
      Patched(rec, ProgressPatch(now, ms, |InTimeSeats(rec.views, deadline)|, inTime))
    case DoTellDone => WithEvent(rec, Done(FinalStateFor(ju.missing, ju.reply)))
    case _ => rec
  }

  ghost function NextJudge(s: Run, seats: seq<Seat>, l: JudgeLabel): Option<Run> {
    if l.DoProgress? && l.deadline != s.viewsDeadline then None else
    match NextPhase(s.ju, s.co.included.Keys, s.drain == DrainExited, seats, l)
    case None => None
    case Some(ju) => Some(s.(rec := JudgeWrites(s.rec, s.ju, s.co.order, seats, l), ju := ju))
  }

  function NextOther(s: Run, l: OtherLabel): Option<Run> {
    match l
    case DeadlinePasses => Some(s.(deadline := true))
    case SupersedeWrite(id) =>
      if id in s.superseders then None
      else Some(s.(rec := WithSuperseded(s.rec, id), superseders := s.superseders[id := 1]))
    case SupersedeCancel(id, registered) =>
      if id !in s.superseders || s.superseders[id] != 1 then None
      else Some(s.(cancelled := s.cancelled || registered, superseders := s.superseders[id := 2]))
    case SupersedeTell(id) =>
      if id !in s.superseders || s.superseders[id] != 2 then None
      else Some(s.(rec := WithEvent(s.rec, SupersededBy(id)), superseders := s.superseders[id := 3]))
  }

  ghost function Next(s: Run, seats: seq<Seat>, l: Label): Option<Run> {
    match l
    case Coord(c) => NextCoord(s, c)
    case View(v) => NextView(s, v)
    case RecordMore(now, ms) => NextRecord(s, now, ms)
    case Drain(d) => NextDrain(s, d)
    case Judge(j) => NextJudge(s, seats, j)
    case Other(o) => NextOther(s, o)
  }

  /** The state a sequence of steps leads to, if every step was enabled. */
  ghost function Exec(seats: seq<Seat>, ls: seq<Label>): Option<Run> {
    if ls == [] then Some(Init(seats)) else
    match Exec(seats, ls[..|ls| - 1])
    case None => None
    case Some(s) => Next(s, seats, ls[|ls| - 1])
  }
}
