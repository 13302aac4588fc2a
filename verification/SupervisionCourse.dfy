/** One supervised interval of scripts/supervise_remote_crawl.py as a function of the ticks of the
    clock: watching, terminating, the doctor and the postflight, and the time budget they keep.
    Times are microseconds. */
module SupervisionCourse {
  import opened Text
  import opened PyValue
  import opened Receipts
  import opened RuntimeEvidence

  const SECOND := 1_000_000
  const MIN_DURATION := 120 * SECOND
  const MAX_DURATION := 180 * SECOND
  const MAX_GRACE := 30 * SECOND
  const DOCTOR_TIMEOUT := 30 * SECOND
  const DOCTOR_GRACE := SECOND
  const SAFETY_MARGIN := 15 * SECOND

  datatype Signal = Terminate | Kill

  type Pos = n: int | n >= 1 witness 1

  /** What a poll sees, and how long the clock runs until the next one. */
  datatype Tick = Tick(dt: Pos, exited: bool, groupGone: bool, interrupted: bool, doctorDone: bool)

  datatype Complaint =
    | PreflightRejected | WindowTooShort | StartFailed | WatcherExited | Interrupted
    | ReapFailed | DoctorInvalid | RuntimeRejected | NotReaped

  datatype SupervisionReport = SupervisionReport(accepted: bool, release: string, deadlineReached: bool, reaped: bool,
                           postflightAccepted: bool, errors: seq<Complaint>)

  /** What happened on the way, for the time budget. `started`: both checks before the
      start passed. `firstReap`: the first termination reaped the process group. */
  datatype Course = Course(windowAt: int, started: bool, firstReap: bool, doctorAnswered: bool, verifiedAt: int)

  function AppendUnique(errors: seq<Complaint>, e: Complaint): seq<Complaint> {
    if e in errors then errors else errors + [e]
  }

  function WithDoctor(evidence: Value, doctor: Value): Value
    requires evidence.JObj?
  {
    JObj(evidence.fields[Key.Doctor := doctor])
  }

  /** The evidence can still be fresh after the whole interval, its worst case and a margin. */
  predicate HasEvidenceWindow(evidence: Value, c: Clock, now: int, duration: int, grace: int) {
    var collected := TimeOf(Get(evidence, Key.CollectedAt), c.parse);
    && collected.Some?
    && now - collected.value + duration + 2 * grace + DOCTOR_TIMEOUT + SAFETY_MARGIN
       <= RUNTIME_EVIDENCE_MAX_AGE_SECONDS * MICROS
  }

  /** Whether a poll sees the process gone, and its whole group if that is asked. */
  predicate SeesGone(t: Tick, group: bool) { t.exited && (!group || t.groupGone) }

  predicate ArgumentsOk(duration: int, grace: int, release: string, evidence: Value) {
    MIN_DURATION <= duration <= MAX_DURATION && 0 < grace <= MAX_GRACE && IsReleaseSha(JStr(release)) && evidence.JObj?
  }

  // ---------------------------------------------------------------------------
  // The phases
  // ---------------------------------------------------------------------------

  type Ticks = nat -> Tick

  /** The supervisor's place in its ticks, its clock, and the time it has been late so far: past
      deadlines, and between the timed phases. */
  datatype Moment = Moment(step: nat, now: int, late: int)

  function Pos0(x: int): nat { if x < 0 then 0 else x }

  function Passed(ticks: Ticks, m: Moment): Moment { Moment(m.step + 1, m.now + ticks(m.step).dt, m.late) }

  /** An untimed step: all of it is late. */
  function GapAfter(ticks: Ticks, m: Moment): Moment {
    Moment(m.step + 1, m.now + ticks(m.step).dt, m.late + ticks(m.step).dt)
  }

  /** Time past a deadline is late. */
  function Overrun(m: Moment, deadline: int): Moment { m.(late := m.late + Pos0(m.now - deadline)) }

  datatype Waited = Waited(at: Moment, absent: bool)

  /** Polls until the process is gone, and once more when the deadline is over. */
  function WaitUntil(ticks: Ticks, m: Moment, deadline: int, group: bool): Waited
    decreases Pos0(deadline - m.now)
  {
    var next := Passed(ticks, m);
    if m.now >= deadline || SeesGone(ticks(m.step), group) then
      Waited(Overrun(next, deadline), SeesGone(ticks(m.step), group))
    else WaitUntil(ticks, next, deadline, group)
  }

  datatype Ended = Ended(at: Moment, absent: bool, killed: bool)

  /** Asks the group to stop, and kills it if it is still there after the grace. */
  function TerminationFrom(ticks: Ticks, m: Moment, grace: nat): Ended {
    var asked := WaitUntil(ticks, m, m.now + grace, true);
    if asked.absent then Ended(asked.at, true, false)
    else
      var killed := WaitUntil(ticks, asked.at, asked.at.now + grace, true);
      Ended(killed.at, killed.absent, true)
  }

  datatype Answered = Answered(at: Moment, done: bool)

  /** The doctor's loop: an interruption or the deadline ends it with a termination. */
  function DoctorUntil(ticks: Ticks, m: Moment, deadline: int): Answered
    decreases Pos0(deadline - m.now)
  {
    if ticks(m.step).interrupted || m.now >= deadline then Answered(TerminationFrom(ticks, m, DOCTOR_GRACE).at, false)
    else if ticks(m.step).doctorDone then Answered(Overrun(Passed(ticks, m), deadline), true)
    else DoctorUntil(ticks, Passed(ticks, m), deadline)
  }

  function DoctorFrom(ticks: Ticks, m: Moment): Answered {
    var start := GapAfter(ticks, m);
    DoctorUntil(ticks, start, start.now + DOCTOR_TIMEOUT)
  }

  datatype Watched = Watched(at: Moment, deadlineReached: bool, reaped: bool, errors: seq<Complaint>)

  /** The watch loop: an interruption, an early exit, or the deadline. */
  function WatchUntil(ticks: Ticks, m: Moment, deadline: int, grace: nat): Watched
    decreases Pos0(deadline - m.now)
  {
    var end := TerminationFrom(ticks, Overrun(m, deadline), grace);
    if ticks(m.step).interrupted then Watched(end.at, false, end.absent, [Interrupted])
    else if ticks(m.step).exited then Watched(Overrun(m, deadline), false, false, [WatcherExited])
    else if m.now >= deadline then Watched(end.at, true, end.absent, [])
    else WatchUntil(ticks, Passed(ticks, m), deadline, grace)
  }

  datatype Reaping = Reaping(at: Moment, absent: bool, errors: seq<Complaint>)

  /** The termination at the end, for a group that may still be there. */
  function ReapFrom(ticks: Ticks, m: Moment, grace: nat, errors: seq<Complaint>): Reaping {
    var end := TerminationFrom(ticks, m, grace);
    if end.absent then Reaping(end.at, true, errors)
    else
      var last := WaitUntil(ticks, end.at, end.at.now + grace, false);
      Reaping(last.at, false, if last.absent then errors else AppendUnique(errors, ReapFailed))
  }

  /** `firstReap`: the first termination reaped the group. */
  datatype Reaped = Reaped(at: Moment, deadlineReached: bool, reaped: bool, firstReap: bool, errors: seq<Complaint>)

  /** A termination at the end of the watch for a group that is still there: the first one after an
      early exit of the watched process, else a second one. */
  function ReapedOf(ticks: Ticks, w: Watched, grace: nat): Reaped {
    if w.reaped && ticks(w.at.step).groupGone then Reaped(w.at, w.deadlineReached, true, true, w.errors)
    else Concluded(w, ReapFrom(ticks, w.at, grace, w.errors))
  }

  function Concluded(w: Watched, end: Reaping): Reaped {
    Reaped(end.at, w.deadlineReached, end.absent, end.absent && w.errors == [WatcherExited], end.errors)
  }

  function WatchedThenReapedFrom(ticks: Ticks, start: Moment, duration: nat, grace: nat): Reaped {
    ReapedOf(ticks, WatchUntil(ticks, start, start.now + duration, grace), grace)
  }

  function WatchAndReapFrom(ticks: Ticks, m: Moment, duration: nat, grace: nat, starts: bool): Reaped {
    var start := GapAfter(ticks, m);
    if starts then WatchedThenReapedFrom(ticks, start, duration, grace)
    else Reaped(start, false, false, false, [StartFailed])
  }

  datatype Rechecked = Rechecked(at: Moment, accepted: bool, answered: bool, error: Option<Complaint>)

  /** The postflight: the evidence with a new doctor answer, at the time the answer arrived. */
  function PostflightFrom(ticks: Ticks, m: Moment, release: string, evidence: Value, c: Clock,
                          answer: Option<Value>): Rechecked
    requires evidence.JObj?
  {
    if ticks(m.step).interrupted then Rechecked(m, false, false, None)
    else
      var d := DoctorFrom(ticks, m);
      if ticks(d.at.step).interrupted then Rechecked(d.at, false, false, None)
      else if !d.done || answer.None? || !answer.value.JObj? then Rechecked(d.at, false, false, Some(DoctorInvalid))
      else
        var accepted := Acceptable(WithDoctor(evidence, answer.value), release, c, d.at.now);
        Rechecked(d.at, accepted, true, if accepted then None else Some(RuntimeRejected))
  }

  datatype SupervisedRun = SupervisedRun(report: Option<SupervisionReport>, course: Course, at: Moment)

  /** What follows the reaping: the postflight unless something spoke against it, and the report. */
  function ReportFrom(
    ticks: Ticks, r: Reaped, windowAt: int, release: string, evidence: Value, c: Clock,
    answer: Option<Value>): SupervisedRun
    requires evidence.JObj?
  {
    var interrupted := Interrupted in r.errors || ticks(r.at.step).interrupted;
    var errors := if interrupted then AppendUnique(r.errors, Interrupted) else r.errors;
    var due := !interrupted && (errors == [] || WatcherExited in errors);
    var p := if due then PostflightFrom(ticks, r.at, release, evidence, c, answer)
      else Rechecked(r.at, false, false, None);
    var course := Course(windowAt, true, due && r.firstReap, p.answered, if due then p.at.now else windowAt);
    var noted := if p.error.Some? then AppendUnique(errors, p.error.value) else errors;
    var cut := ticks(p.at.step).interrupted;
    var all := if cut then AppendUnique(noted, Interrupted) else noted;
    var final := if r.reaped then all else AppendUnique(all, NotReaped);
    var postflight := p.accepted && !cut;
    var report :=
      SupervisionReport(final == [] && postflight, release, r.deadlineReached
                        && !interrupted, r.reaped, postflight, final);
    SupervisedRun(Some(report), course, p.at)
  }

  /** None stands for an argument error. */
  function SuperviseFrom(
    ticks: Ticks, m: Moment, duration: int, grace: int, release: string, evidence: Value, c: Clock, starts: bool,
    answer: Option<Value>): SupervisedRun
  {
    if !ArgumentsOk(duration, grace, release, evidence) then
      SupervisedRun(None, Course(m.now, false, false, false, m.now), m)
    else if !Acceptable(evidence, release, c, m.now) then
      SupervisedRun(Some(SupervisionReport(false, release, false, true, false, [PreflightRejected])),
                 Course(m.now, false, false, false, m.now), m)
    else
      var checked := Passed(ticks, m);
      if !HasEvidenceWindow(evidence, c, checked.now, duration, grace) then
        SupervisedRun(Some(SupervisionReport(false, release, false, true, false, [WindowTooShort])),
                   Course(checked.now, false, false, false, checked.now), checked)
      else
        ReportFrom(ticks, WatchAndReapFrom(ticks, checked, duration, grace, starts), checked.now, release, evidence, c,
                   answer)
  }
}
