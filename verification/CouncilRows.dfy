/** The rows and events of one council request, and the writers that change them. */
module CouncilRows {
  import opened Text
  import opened JsonQuote

  type Seat = string

  datatype RequestState = Created | RunningViews | RunningJudge | Complete | CompletePartial | Superseded

  datatype ViewState = ViewPending | ViewComplete | ViewLate | ViewTimedOut | ViewFailed

  datatype JudgeState = JudgePending | JudgeComplete | JudgeTimedOut | JudgeFailed

  datatype RequestRow = RequestRow(
    state: RequestState,
    supersededBy: Option<string>,
    judgeStartedAt: Option<int>,
    judgeDeadlineAt: Option<int>,
    finishedAt: Option<int>,
    tFirstUsableViewMs: Option<int>,
    tFinalMs: Option<int>,
    viewsCompletedInDeadline: nat,
    judgeCompletedInDeadline: Option<bool>,
    dangerFlagged: bool)

  datatype ViewRow = ViewRow(state: ViewState, hasResponse: bool, includedInJudge: bool, completedAt: Option<int>)

  datatype JudgeRow = JudgeRow(
    state: JudgeState,
    hasResponse: bool,
    includedSeats: seq<Seat>,
    missingSeats: seq<Seat>,
    noIndependentViews: bool)

  datatype Event =
    | SeatCompleted(seat: Seat)
    | SeatFailed(seat: Seat, reason: string)
    | SeatLate(seat: Seat)
    | SeatDanger(seat: Seat)
    | JudgeDanger
    | JudgeStarted(order: seq<Seat>)
    | JudgeSucceeded(included: seq<Seat>, missing: seq<Seat>)
    | JudgeErred(included: seq<Seat>, missing: seq<Seat>)
    | SupersededBy(newer: string)
    | Done(state: RequestState)

  /** Everything stored and published for one request. */
  datatype Record = Record(request: RequestRow, views: map<Seat, ViewRow>, judge: JudgeRow, log: seq<Event>)

  // ------------------------------------------------------- single statements

  /** Fields left at None keep their column. */
  datatype Patch = Patch(
    state: Option<RequestState>,
    judgeStartedAt: Option<int>,
    judgeDeadlineAt: Option<int>,
    finishedAt: Option<int>,
    tFirstUsableViewMs: Option<int>,
    tFinalMs: Option<int>,
    viewsCompletedInDeadline: Option<nat>,
    judgeCompletedInDeadline: Option<bool>,
    dangerFlagged: Option<bool>)

  const NO_PATCH := Patch(None, None, None, None, None, None, None, None, None)

  function Or<T>(patch: Option<T>, old_: T): T { if patch.Some? then patch.value else old_ }

  function OrSome<T>(patch: Option<T>, old_: Option<T>): Option<T> { if patch.Some? then patch else old_ }

  function Patched(rec: Record, p: Patch): Record {
    var r := rec.request;
    rec.(request := RequestRow(
           Or(p.state, r.state), r.supersededBy,
           OrSome(p.judgeStartedAt, r.judgeStartedAt), OrSome(p.judgeDeadlineAt, r.judgeDeadlineAt),
           OrSome(p.finishedAt, r.finishedAt), OrSome(p.tFirstUsableViewMs, r.tFirstUsableViewMs),
           OrSome(p.tFinalMs, r.tFinalMs), Or(p.viewsCompletedInDeadline, r.viewsCompletedInDeadline),
           OrSome(p.judgeCompletedInDeadline, r.judgeCompletedInDeadline), Or(p.dangerFlagged, r.dangerFlagged)))
  }

  function WithState(rec: Record, state: RequestState): Record {
    if rec.request.state == Superseded then rec else rec.(request := rec.request.(state := state))
  }

  function WithSuperseded(rec: Record, newer: string): Record {
    rec.(request := rec.request.(state := Superseded, supersededBy := Some(newer)))
  }

  function WithFirstUsable(rec: Record, ms: int): Record {
    if rec.request.tFirstUsableViewMs.Some? then rec
    else rec.(request := rec.request.(tFirstUsableViewMs := Some(ms)))
  }

  function WithDanger(rec: Record): Record { rec.(request := rec.request.(dangerFlagged := true)) }

  function WithView(rec: Record, seat: Seat, row: ViewRow): Record {
    if seat in rec.views then rec.(views := rec.views[seat := row]) else rec
  }

  function WithEvent(rec: Record, e: Event): Record { rec.(log := rec.log + [e]) }

  // ----------------------------------------------------------- one seat's view

  /** A finished view call as delivered to the coordinator. */
  datatype ViewResult = ViewResult(
    seat: Seat, terminal: bool, usable: bool, danger: bool, timedOut: bool, hasResponse: bool, failReason: string)

  /** How a view call can end: refused before the call, failed, or answered.
      `stored` says whether the response row could be inserted. */
  datatype ViewReply =
    | Unsupported
    | PromptFailed
    | TimedOut(stored: bool)
    | Failed(stored: bool)
    | Substituted(stored: bool)
    | Answered(parsed: bool, blank: bool, urgent: bool, stored: bool)

  /** A stored answer with something in it. */
  predicate GoodAnswer(reply: ViewReply) { reply.Answered? && reply.stored && (reply.parsed || !reply.blank) }

  /** A stored answer that was parsed and flags urgent danger. */
  predicate UrgentAnswer(reply: ViewReply) { reply.Answered? && reply.stored && reply.parsed && reply.urgent }

  /** A response row could be stored for the reply. */
  predicate HasRow(reply: ViewReply) { !reply.Unsupported? && !reply.PromptFailed? && reply.stored }

  /** Why a view failed; nothing for a good one. */
  function Reason(reply: ViewReply): string {
    if GoodAnswer(reply) then "" else
    match reply
    case Unsupported => "unsupported"
    case TimedOut(_) => "timeout"
    case Substituted(_) => "substituted"
    case _ => "error"
  }

  function CallView(seat: Seat, reply: ViewReply): ViewResult {
    match reply
    case Unsupported => ViewResult(seat, false, false, false, false, false, "unsupported")
    case PromptFailed => ViewResult(seat, false, false, false, false, false, "error")
    case TimedOut(stored) => ViewResult(seat, false, false, false, true, stored, "timeout")
    case Failed(stored) => ViewResult(seat, false, false, false, false, stored, "error")
    case Substituted(stored) => ViewResult(seat, false, false, false, false, stored, "substituted")
    case Answered(parsed, blank, urgent, stored) =>
      if !stored then ViewResult(seat, false, false, false, false, false, "error")
      else
        var usable := parsed || !blank;
        ViewResult(seat, usable, usable, parsed && urgent, false, true, if usable then "" else "error")
  }

  function StateFor(res: ViewResult, late: bool): ViewState {
    if late && res.terminal then ViewLate
    else if res.terminal then ViewComplete
    else if res.timedOut then ViewTimedOut
    else ViewFailed
  }

  function OutcomeFor(res: ViewResult, late: bool): Event {
    match StateFor(res, late)
    case ViewLate => SeatLate(res.seat)
    case ViewComplete => SeatCompleted(res.seat)
    case _ => SeatFailed(res.seat, res.failReason)
  }

  /** recordView is five statements; other goroutines may run between them. */
  datatype RecordPc = WriteRow | NoteFirstUsable | FlagDanger | TellDanger | TellOutcome | Recorded

  function RecordStep(rec: Record, res: ViewResult, late: bool, pc: RecordPc, now: int, ms: int): Record {
    match pc
    case WriteRow =>
      var state := StateFor(res, late);
      WithView(rec, res.seat, ViewRow(state, res.hasResponse, state == ViewComplete, Some(now)))
    case NoteFirstUsable => if res.usable && !late then WithFirstUsable(rec, ms) else rec
    case FlagDanger => if res.danger then WithDanger(rec) else rec
    case TellDanger => if res.danger then WithEvent(rec, SeatDanger(res.seat)) else rec
    case TellOutcome => WithEvent(rec, OutcomeFor(res, late))
    case Recorded => rec
  }

  function NextPc(pc: RecordPc): RecordPc {
    match pc
    case WriteRow => NoteFirstUsable
    case NoteFirstUsable => FlagDanger
    case FlagDanger => TellDanger
    case TellDanger => TellOutcome
    case _ => Recorded
  }

  function RecordLeft(pc: RecordPc): nat {
    match pc
    case WriteRow => 5
    case NoteFirstUsable => 4
    case FlagDanger => 3
    case TellDanger => 2
    case TellOutcome => 1
    case Recorded => 0
  }

  /** The statements from pc on, run without interference. */
  function RecordFrom(rec: Record, res: ViewResult, late: bool, pc: RecordPc, now: int, ms: int): Record
    decreases RecordLeft(pc)
  {
    if pc == Recorded then rec else RecordFrom(RecordStep(rec, res, late, pc, now, ms), res, late, NextPc(pc), now, ms)
  }

  lemma RecordFromSteps(rec: Record, res: ViewResult, late: bool, now: int, ms: int)
    ensures var r1 := RecordStep(rec, res, late, WriteRow, now, ms);
      var r2 := RecordStep(r1, res, late, NoteFirstUsable, now, ms);
      var r3 := RecordStep(r2, res, late, FlagDanger, now, ms);
      var r4 := RecordStep(r3, res, late, TellDanger, now, ms);
      RecordFrom(rec, res, late, WriteRow, now, ms) == RecordStep(r4, res, late, TellOutcome, now, ms)
  {
    var r1 := RecordStep(rec, res, late, WriteRow, now, ms);
    var r2 := RecordStep(r1, res, late, NoteFirstUsable, now, ms);
    var r3 := RecordStep(r2, res, late, FlagDanger, now, ms);
    var r4 := RecordStep(r3, res, late, TellDanger, now, ms);
    var r5 := RecordStep(r4, res, late, TellOutcome, now, ms);
    assert RecordFrom(r5, res, late, Recorded, now, ms) == r5;
    assert RecordFrom(r4, res, late, TellOutcome, now, ms) == r5;
    assert RecordFrom(r3, res, late, TellDanger, now, ms) == r5;
    assert RecordFrom(r2, res, late, FlagDanger, now, ms) == r5;
    assert RecordFrom(r1, res, late, NoteFirstUsable, now, ms) == r5;
  }

  // ----------------------------------------------------------- the judge's part

  datatype JudgeReply = Refused | CallFailed(timedOut: bool, stored: bool) | Replied(urgent: bool, stored: bool)

  predicate JudgeOk(reply: JudgeReply) { reply.Replied? && reply.stored }

  function JudgeStateFor(reply: JudgeReply): JudgeState {
    if JudgeOk(reply) then JudgeComplete
    else if reply.CallFailed? && reply.timedOut then JudgeTimedOut
    else JudgeFailed
  }

  function SeatSet(seats: seq<Seat>): set<Seat> { set s | s in seats }

  ghost function MissingSeats(seats: seq<Seat>, included: set<Seat>): seq<Seat> {
    SortedStrings(SeatSet(seats) - included)
  }

  ghost function JudgeRowFor(seats: seq<Seat>, missing: seq<Seat>, reply: JudgeReply): JudgeRow {
    JudgeRow(JudgeStateFor(reply), !reply.Refused? && reply.stored,
             MissingSeats(seats, SeatSet(missing)), missing,
             SeatSet(seats) == SeatSet(missing))
  }

  ghost function ResultEvent(seats: seq<Seat>, missing: seq<Seat>, reply: JudgeReply): Event {
    var included := MissingSeats(seats, SeatSet(missing));
    if JudgeOk(reply) then JudgeSucceeded(included, missing) else JudgeErred(included, missing)
  }

  function FinalStateFor(missing: seq<Seat>, reply: JudgeReply): RequestState {
    if JudgeOk(reply) && missing == [] then Complete else CompletePartial
  }

  function ProgressPatch(now: int, ms: int, views: nat, inTime: bool): Patch {
    NO_PATCH.(finishedAt := Some(now), tFinalMs := Some(ms),
      viewsCompletedInDeadline := Some(views), judgeCompletedInDeadline := Some(inTime))
  }

  /** The views that were complete by the deadline. */
  function InTimeSeats(views: map<Seat, ViewRow>, deadline: int): set<Seat> {
    set seat | seat in views && views[seat].state == ViewComplete
               && views[seat].completedAt.Some? && views[seat].completedAt.value <= deadline
  }

  /** finishJudge without interference, up to and including the done event; if the
      request cannot be read back it stops short of the final state. */
  ghost function Finished(rec: Record, seats: seq<Seat>, missing: seq<Seat>, reply: JudgeReply,
                          readable: bool, now: int, ms: int, deadline: int, inTime: bool): Record
  {
    var r := WithEvent(rec.(judge := JudgeRowFor(seats, missing, reply)), ResultEvent(seats, missing, reply));
    var state := FinalStateFor(missing, reply);
    if !readable then r
    else
      WithEvent(Patched(WithState(r, state), ProgressPatch(now, ms, |InTimeSeats(rec.views, deadline)|, inTime)),
                Done(state))
  }

  /** The row state and the event of a recorded result. */
  method ViewOutcome(res: ViewResult, late: bool) returns (state: ViewState, publish: Event)
    ensures state == StateFor(res, late) && publish == OutcomeFor(res, late)
  {
    if late && res.terminal {
      state, publish := ViewLate, SeatLate(res.seat);
    } else if late && res.timedOut {
      state, publish := ViewTimedOut, SeatFailed(res.seat, res.failReason);
    } else if late {
      state, publish := ViewFailed, SeatFailed(res.seat, res.failReason);
    } else if res.terminal {
      state, publish := ViewComplete, SeatCompleted(res.seat);
    } else if res.timedOut {
      state, publish := ViewTimedOut, SeatFailed(res.seat, res.failReason);
    } else {
      state, publish := ViewFailed, SeatFailed(res.seat, res.failReason);
    }
  }

  /** The request state and the judge state of a judge call. */
  method JudgeOutcome(missing: seq<Seat>, reply: JudgeReply) returns (state: RequestState, judgeState: JudgeState)
    ensures state == FinalStateFor(missing, reply) && judgeState == JudgeStateFor(reply)
  {
    state, judgeState := Complete, JudgeComplete;
    if !JudgeOk(reply) {
      judgeState := JudgeFailed;
      if reply.CallFailed? && reply.timedOut { judgeState := JudgeTimedOut; }
      state := CompletePartial;
    } else if |missing| > 0 {
      state := CompletePartial;
    }
  }

  // ------------------------------------------------------------- the writers

  /** One request's rows, written one statement at a time. */
  class RequestRecord {
    var request: RequestRow
    var views: map<Seat, ViewRow>
    var judgeState: JudgeState
    var judgeHasResponse: bool
    var includedSeatsJson: string
    var missingSeatsJson: string
    var noIndependentViews: bool
    var log: seq<Event>
    /** The seats the two JSON columns list. */
    ghost var includedSeats: seq<Seat>
    ghost var missingSeats: seq<Seat>

    /** The two columns read as the seats they list. */
    ghost predicate Valid()
      reads `includedSeatsJson, `missingSeatsJson, `includedSeats, `missingSeats
    {
      ReadStringArray(includedSeatsJson) == Some(includedSeats)
      && ReadStringArray(missingSeatsJson) == Some(missingSeats)
    }

    ghost function Judge(): JudgeRow
      reads this
    {
      JudgeRow(judgeState, judgeHasResponse, includedSeats, missingSeats, noIndependentViews)
    }

    ghost function Value(): Record
      reads this
    {
      Record(request, views, Judge(), log)
    }

    /** The rows a run starts with. */
    constructor (seats: seq<Seat>)
      ensures Value() == InitialRecord(seats) && Valid()
    {
      request := RequestRow(Created, None, None, None, None, None, None, 0, None, false);
      views := map s | s in seats :: ViewRow(ViewPending, false, false, None);
      judgeState, judgeHasResponse, noIndependentViews := JudgePending, false, false;
      includedSeatsJson, missingSeatsJson := "[]", "[]";
      includedSeats, missingSeats := [], [];
      log := [];
    }

    method UpdateRequestProgress(p: Patch)
      modifies `request
      ensures Value() == Patched(old(Value()), p)
    {
      var r := request;
      r := r.(state := Or(p.state, r.state));
      r := r.(judgeStartedAt := OrSome(p.judgeStartedAt, r.judgeStartedAt));
      r := r.(judgeDeadlineAt := OrSome(p.judgeDeadlineAt, r.judgeDeadlineAt));
      r := r.(finishedAt := OrSome(p.finishedAt, r.finishedAt));
      r := r.(tFirstUsableViewMs := OrSome(p.tFirstUsableViewMs, r.tFirstUsableViewMs));
      r := r.(tFinalMs := OrSome(p.tFinalMs, r.tFinalMs));
      r := r.(viewsCompletedInDeadline := Or(p.viewsCompletedInDeadline, r.viewsCompletedInDeadline));
      r := r.(judgeCompletedInDeadline := OrSome(p.judgeCompletedInDeadline, r.judgeCompletedInDeadline));
      r := r.(dangerFlagged := Or(p.dangerFlagged, r.dangerFlagged));
      request := r;
    }

    method UpdateRequestStateIfNotSuperseded(state: RequestState) returns (updated: bool)
      modifies `request
      ensures Value() == WithState(old(Value()), state)
      ensures updated <==> old(request).state != Superseded
    {
      updated := request.state != Superseded;
      if updated { request := request.(state := state); }
    }

    method SetFirstUsableViewMsIfUnset(ms: int)
      modifies `request
      ensures Value() == WithFirstUsable(old(Value()), ms)
    {
      if request.tFirstUsableViewMs.None? { request := request.(tFirstUsableViewMs := Some(ms)); }
    }

    method SetDangerFlagged()
      modifies `request
      ensures Value() == WithDanger(old(Value()))
    {
      request := request.(dangerFlagged := true);
    }

    method SetSuperseded(newer: string)
      modifies `request
      ensures Value() == WithSuperseded(old(Value()), newer)
    {
      request := request.(state := Superseded, supersededBy := Some(newer));
    }

    method UpdateRequestViewState(seat: Seat, state: ViewState, hasResponse: bool, included: bool, completedAt: int)
      modifies `views
      ensures Value() == WithView(old(Value()), seat, ViewRow(state, hasResponse, included, Some(completedAt)))
    {
      if seat in views { views := views[seat := ViewRow(state, hasResponse, included, Some(completedAt))]; }
    }

    method Publish(e: Event)
      modifies `log
      ensures Value() == WithEvent(old(Value()), e)
    {
      log := log + [e];
    }

    /** Persists one view outcome and publishes its event. */
    method RecordView(res: ViewResult, late: bool, now: int, ms: int)
      modifies `request, `views, `log
      ensures Value() == RecordFrom(old(Value()), res, late, WriteRow, now, ms)
    {
      var state, publish := ViewOutcome(res, late);
      RecordFromSteps(Value(), res, late, now, ms);
      UpdateRequestViewState(res.seat, state, res.hasResponse, state == ViewComplete, now);
      if res.usable && !late { SetFirstUsableViewMsIfUnset(ms); }
      if res.danger {
        SetDangerFlagged();
        Publish(SeatDanger(res.seat));
      }
      Publish(publish);
    }

    method UpdateJudgeResult(state: JudgeState, hasResponse: bool, included: seq<Seat>, missing: seq<Seat>,
                             noViews: bool)
      modifies `judgeState, `judgeHasResponse, `includedSeatsJson, `missingSeatsJson, `noIndependentViews,
               `includedSeats, `missingSeats
      ensures Value() == old(Value()).(judge := JudgeRow(state, hasResponse, included, missing, noViews))
      ensures Valid()
    {
      judgeState, judgeHasResponse, noIndependentViews := state, hasResponse, noViews;
      includedSeats, missingSeats := included, missing;
      includedSeatsJson := JsonStringArray(included);
      missingSeatsJson := JsonStringArray(missing);
      StringArrayRoundTrip(included);
      StringArrayRoundTrip(missing);
    }

    /** The guarded final state, the timings and the done event. */
    method FinishRequest(state: RequestState, now: int, ms: int, deadline: int, inTime: bool)
      modifies `request, `log
      ensures var rec := old(Value());
        var patch := ProgressPatch(now, ms, |InTimeSeats(rec.views, deadline)|, inTime);
        Value() == WithEvent(Patched(WithState(rec, state), patch), Done(state))
    {
      var _ := UpdateRequestStateIfNotSuperseded(state);
      UpdateRequestProgress(ProgressPatch(now, ms, |InTimeSeats(views, deadline)|, inTime));
      Publish(Done(state));
    }

    /** Persists the judge outcome, the final state and the timings. */
    method FinishJudge(seats: seq<Seat>, missing: seq<Seat>, noViews: bool, reply: JudgeReply,
                       readable: bool, now: int, ms: int, deadline: int, inTime: bool)
      requires noViews <==> SeatSet(seats) == SeatSet(missing)
      modifies this
      ensures Value() == Finished(old(Value()), seats, missing, reply, readable, now, ms, deadline, inTime)
      ensures Valid()
    {
      var included := SeatsNotIn(seats, SeatSet(missing));
      var state, judgeState := JudgeOutcome(missing, reply);
      UpdateJudgeResult(judgeState, !reply.Refused? && reply.stored, included, missing, noViews);
      Publish(if JudgeOk(reply) then JudgeSucceeded(included, missing) else JudgeErred(included, missing));
      if readable { FinishRequest(state, now, ms, deadline, inTime); }
    }
  }

  ghost function InitialRecord(seats: seq<Seat>): Record {
    Record(RequestRow(Created, None, None, None, None, None, None, 0, None, false),
           map s | s in seats :: ViewRow(ViewPending, false, false, None),
           JudgeRow(JudgePending, false, [], [], false), [])
  }

  /** The seats outside a set, sorted: how both seat lists are built. */
  method SeatsNotIn(seats: seq<Seat>, out: set<Seat>) returns (r: seq<Seat>)
    ensures r == MissingSeats(seats, out)
  {
    var left: set<Seat> := {};
    for i := 0 to |seats|
      invariant left == SeatSet(seats[..i]) - out
    {
      assert seats[..i + 1] == seats[..i] + [seats[i]];
      if seats[i] !in out { left := left + {seats[i]}; }
    }
    assert seats[..|seats|] == seats;
    r := Sort(left);
  }
}
