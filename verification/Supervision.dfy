/** The bounded supervision interval of scripts/supervise_remote_crawl.py: a watched process
    group, its termination, and the postflight re-check of the runtime evidence, all against
    one clock. Times are microseconds. */
module Supervision {
  import opened Text
  import opened PyValue
  import opened Receipts
  import opened RuntimeEvidence
  import opened SupervisionCourse
  import opened SupervisionTheorems

  class Supervisor {
    const ticks: nat -> Tick
    /** No step between two looks at the clock is longer than this. */
    const longest: Pos
    var step: nat
    var now: int
    /** Time spent past deadlines, and between the timed phases. */
    var late: int
    /** The signals sent to a process group so far. */
    var signals: seq<Signal>

    function Here(): Moment
      reads this
    {
      Moment(step, now, late)
    }

    ghost predicate Valid()
      reads this
    {
      late >= 0 && forall n: nat :: ticks(n).dt <= longest
    }

    constructor (ticks: nat -> Tick, longest: Pos, now: int)
      requires forall n: nat :: ticks(n).dt <= longest
      ensures Valid() && this.ticks == ticks && this.longest == longest && this.now == now && late == 0 && signals == []
    {
      this.ticks, this.longest, this.now, this.late, this.step, this.signals := ticks, longest, now, 0, 0, [];
    }

    method Pass() returns (t: Tick)
      requires Valid()
      modifies this`step, this`now
      ensures t == ticks(old(step)) && step == old(step) + 1 && now == old(now) + t.dt
      ensures Here() == Passed(ticks, old(Here()))
      ensures Valid()
    {
      t := ticks(step);
      step := step + 1;
      now := now + t.dt;
    }

    /** An untimed step: all of it is late. */
    method Gap()
      requires Valid()
      modifies this
      ensures Valid() && now - old(now) == late - old(late) <= longest && now > old(now)
      ensures step == old(step) + 1 && signals == old(signals)
      ensures Here() == GapAfter(ticks, old(Here()))
    {
      var t := Pass();
      late := late + t.dt;
    }

    /** None of the polls from `from` on sees it gone. */
    ghost predicate NeverGone(from: nat, group: bool)
      reads this
    {
      forall n: nat :: from <= n < step ==> !SeesGone(ticks(n), group)
    }

    /** Polls until the process is gone, and its whole group if asked to: it stops at the first
        poll that sees this, or not before the timeout. */
    method WaitFor(timeout: nat, group: bool) returns (absent: bool)
      requires Valid()
      modifies this`step, this`now, this`late
      ensures Waited(Here(), absent) == WaitUntil(ticks, old(Here()), old(now) + timeout, group)
      ensures Valid() && step > old(step)
      ensures absent <==> SeesGone(ticks(step - 1), group)
      ensures forall n: nat :: old(step) <= n < step - 1 ==> !SeesGone(ticks(n), group)
      ensures !absent ==> now >= old(now) + timeout
      ensures old(now) <= now <= old(now) + timeout + (late - old(late))
      ensures 0 <= late - old(late) <= 2 * longest
    {
      var deadline := now + timeout;
      while now < deadline
        invariant WaitUntil(ticks, Here(), deadline, group) == WaitUntil(ticks, old(Here()), deadline, group)
        invariant Valid() && late == old(late) && step >= old(step)
        invariant NeverGone(old(step), group)
        invariant old(now) <= now <= deadline + longest
        decreases deadline - now
      {
        var t := Pass();
        if SeesGone(t, group) {
          late := late + if now > deadline then now - deadline else 0;
          return true;
        }
      }
      var t := Pass();
      late := late + now - deadline;
      return SeesGone(t, group);
    }

    /** Asks the group to stop, and kills it if it is still there after the grace. */
    method TerminateGroup(grace: nat) returns (absent: bool)
      requires Valid()
      modifies this`step, this`now, this`late, this`signals
      ensures Ended(Here(), absent, signals == old(signals) + [Terminate, Kill])
              == TerminationFrom(ticks, old(Here()), grace)
      ensures Valid() && step > old(step)
      ensures absent <==> SeesGone(ticks(step - 1), true)
      ensures signals == old(signals) + [Terminate] || signals == old(signals) + [Terminate, Kill]
      ensures forall n: nat :: old(step) <= n < step - 1 ==> !SeesGone(ticks(n), true)
      ensures signals == old(signals) + [Terminate] ==> absent
      ensures signals == old(signals) + [Terminate, Kill] ==> now >= old(now) + grace
      ensures !absent ==> now >= old(now) + 2 * grace
      ensures old(now) <= now <= old(now) + 2 * grace + (late - old(late))
      ensures 0 <= late - old(late) <= 4 * longest
    {
      signals := signals + [Terminate];
      absent := WaitFor(grace, true);
      if absent {
        return;
      }
      signals := signals + [Kill];
      absent := WaitFor(grace, true);
    }

    /** Runs the doctor under its own deadline: its answer counts unless an interruption comes
        first, the time is over, or it is not an object. */
    method RunDoctor(answer: Option<Value>) returns (doctor: Option<Value>)
      requires Valid()
      modifies this
      ensures Valid() && now >= old(now) && late >= old(late) && step > old(step) && |signals| >= |old(signals)|
      ensures var d := DoctorFrom(ticks, old(Here()));
              Here() == d.at && (doctor.Some? <==> d.done && answer.Some? && answer.value.JObj?)
      ensures doctor.None? ==>
                || answer.None? || !answer.value.JObj?
                || now >= old(now) + DOCTOR_TIMEOUT
                || exists n: nat :: old(step) < n < step && ticks(n).interrupted
      ensures doctor.Some? ==>
                ticks(step - 1).doctorDone && forall n: nat :: old(step) < n < step ==> !ticks(n).interrupted
      ensures doctor.Some? ==> doctor == answer && doctor.value.JObj?
      ensures doctor.Some? ==> now <= old(now) + DOCTOR_TIMEOUT + (late - old(late)) && late - old(late) <= 2 * longest
    {
      doctor := None;
      Gap();
      var deadline := now + DOCTOR_TIMEOUT;
      while true
        invariant DoctorUntil(ticks, Here(), deadline) == DoctorFrom(ticks, old(Here()))
        invariant Valid() && old(now) <= now <= deadline + longest && step > old(step) && signals == old(signals)
        invariant forall n: nat :: old(step) < n < step ==> !ticks(n).interrupted
        invariant late - old(late) <= longest && late >= old(late)
        invariant deadline == old(now) + (late - old(late)) + DOCTOR_TIMEOUT
        decreases deadline - now + longest
      {
        if ticks(step).interrupted || now >= deadline {
          ghost var seen := step;
          var _ := TerminateGroup(DOCTOR_GRACE);
          assert old(step) < seen < step;
          return;
        }
        var t := Pass();
        if t.doctorDone {
          late := late + if now > deadline then now - deadline else 0;
          if answer.Some? && answer.value.JObj? {
            doctor := answer;
          }
          return;
        }
      }
    }

    /** Sleeps until there is a reason to stop watching. */
    method PollUntil(deadline: int, ghost grace: nat)
      requires Valid() && now <= deadline
      modifies this`step, this`now
      ensures Valid() && step >= old(step) && old(now) <= now <= deadline + longest
      ensures ticks(step).interrupted || ticks(step).exited || now >= deadline
      ensures WatchUntil(ticks, Here(), deadline, grace) == WatchUntil(ticks, old(Here()), deadline, grace)
    {
      while !ticks(step).interrupted && !ticks(step).exited && now < deadline
        invariant WatchUntil(ticks, Here(), deadline, grace) == WatchUntil(ticks, old(Here()), deadline, grace)
        invariant Valid() && step >= old(step)
        invariant old(now) <= now <= deadline + longest
        decreases deadline - now + longest
      {
        var _ := Pass();
      }
    }

    /** The watch loop: ends on an interruption, on the watched process exiting, or at the
        deadline; a termination it starts is the first one. */
    method Watch(duration: nat, grace: nat) returns (deadlineReached: bool, reaped: bool, errors: seq<Complaint>)
      requires Valid()
      modifies this
      ensures Valid() && step >= old(step)
      ensures old(now) <= now <= old(now) + duration + 2 * grace + (late - old(late))
      ensures 0 <= late - old(late) <= 5 * longest
      ensures Watched(Here(), deadlineReached, reaped, errors)
              == WatchUntil(ticks, old(Here()), old(now) + duration, grace)
      ensures errors == [] <==> deadlineReached
      ensures errors == [] || errors == [Interrupted] || errors == [WatcherExited]
      ensures errors == [WatcherExited] ==> !reaped && ticks(step).exited && signals == old(signals)
      ensures errors == [WatcherExited] ==>
                now <= old(now) + duration + (late - old(late)) && late - old(late) <= longest
      ensures errors == [Interrupted] ==> exists n: nat :: old(step) <= n < step && ticks(n).interrupted
      ensures errors == [] ==>
                now >= old(now) + duration
                && exists n: nat :: old(step) <= n < step && !ticks(n).interrupted && !ticks(n).exited
      ensures errors != [WatcherExited] ==> step > old(step) && (reaped <==> SeesGone(ticks(step - 1), true))
      ensures errors != [WatcherExited] ==> |signals| > |old(signals)| && signals[|old(signals)|] == Terminate
    {
      ghost var start := Here();
      deadlineReached, reaped, errors := WatchAndTerminate(now + duration, grace);
      WatchTime(ticks, start, duration, grace);
      WatchEndings(ticks, start, start.now + duration, grace);
      WatchReasons(ticks, start, start.now + duration, grace);
      WatchSteps(ticks, start, start.now + duration, grace);
    }

    /** The same against a deadline. */
    method WatchAndTerminate(deadline: int, grace: nat)
      returns (deadlineReached: bool, reaped: bool, errors: seq<Complaint>)
      requires Valid() && now <= deadline
      modifies this
      ensures Valid() && 0 <= late - old(late) <= 5 * longest
      ensures Watched(Here(), deadlineReached, reaped, errors) == WatchUntil(ticks, old(Here()), deadline, grace)
      ensures errors == [WatcherExited] ==> signals == old(signals) && late - old(late) <= longest
      ensures errors != [WatcherExited] ==> |signals| > |old(signals)| && signals[|old(signals)|] == Terminate
    {
      PollUntil(deadline, grace);
      late := late + if now > deadline then now - deadline else 0;
      if ticks(step).interrupted {
        deadlineReached, errors := false, [Interrupted];
      } else if ticks(step).exited {
        return false, false, [WatcherExited];
      } else {
        deadlineReached, errors := true, [];
      }
      reaped := TerminateGroup(grace);
    }

    /** Terminates a group that is still there, and waits for the process itself if that fails. */
    method ReapGroup(grace: nat, before: seq<Complaint>) returns (absent: bool, errors: seq<Complaint>)
      requires Valid()
      modifies this
      ensures Valid() && step > old(step) && late >= old(late) && |signals| > |old(signals)|
      ensures Reaping(Here(), absent, errors) == ReapFrom(ticks, old(Here()), grace, before)
      ensures absent ==> SeesGone(ticks(step - 1), true) && errors == before
      ensures absent ==> now <= old(now) + 2 * grace + (late - old(late)) && late - old(late) <= 4 * longest
      ensures old(now) <= now <= old(now) + 3 * grace + (late - old(late))
    {
      errors := before;
      absent := TerminateGroup(grace);
      if !absent {
        var exited := WaitFor(grace, false);
        if !exited {
          errors := AppendUnique(errors, ReapFailed);
        }
      }
    }

    /** Starts the watched process, watches it, and leaves no group behind if it can: a group that
        is still there is terminated, for the first time after an early exit, else once more. */
    method WatchAndReap(duration: nat, grace: nat, starts: bool)
      returns (deadlineReached: bool, reaped: bool, firstReap: bool, errors: seq<Complaint>)
      requires Valid()
      modifies this
      ensures Valid()
      ensures Reaped(Here(), deadlineReached, reaped, firstReap, errors)
              == WatchAndReapFrom(ticks, old(Here()), duration, grace, starts)
      ensures errors == [] ==> deadlineReached
      ensures firstReap ==> reaped
      ensures WatcherExited in errors && reaped ==> firstReap
      ensures firstReap ==> old(now) <= now <= old(now) + duration + 2 * grace + (late - old(late))
      ensures firstReap ==> late - old(late) <= 6 * longest
      ensures old(now) <= now <= old(now) + duration + 5 * grace + (late - old(late)) && late >= old(late)
      ensures !starts <==> StartFailed in errors
      ensures !starts ==> errors == [StartFailed] && !reaped && !deadlineReached && signals == old(signals)
      ensures starts ==> |signals| > |old(signals)|
      ensures reaped ==> SeenGone(ticks, old(step), step)
      ensures deadlineReached ==> now >= old(now) + duration
      ensures starts && !deadlineReached ==> Interrupted in errors || WatcherExited in errors
    {
      Gap();
      if !starts {
        return false, false, false, [StartFailed];
      }
      ghost var start := Here();
      deadlineReached, reaped, firstReap, errors := WatchedThenReaped(duration, grace);
      CourseBound(ticks, start, duration, grace);
      CourseEndings(ticks, start, duration, grace);
      DeadlineIsPast(ticks, start, duration, grace);
      ReapedWasSeen(ticks, start, duration, grace);
    }

    /** The same from the start of the watched process on. */
    method WatchedThenReaped(duration: nat, grace: nat)
      returns (deadlineReached: bool, reaped: bool, firstReap: bool, errors: seq<Complaint>)
      requires Valid()
      modifies this
      ensures Valid() && |signals| > |old(signals)|
      ensures Reaped(Here(), deadlineReached, reaped, firstReap, errors)
              == WatchedThenReapedFrom(ticks, old(Here()), duration, grace)
      ensures firstReap ==> late - old(late) <= 5 * longest
    {
      deadlineReached, reaped, errors := Watch(duration, grace);
      firstReap := reaped && ticks(step).groupGone;
      if !firstReap {
        var before := errors;
        reaped, errors := ReapGroup(grace, before);
        firstReap := reaped && before == [WatcherExited];
      }
    }

    /** Re-verifies the evidence with a new doctor answer at the time the answer arrived. */
    method Postflight(release: string, evidence: Value, c: Clock, answer: Option<Value>)
      returns (accepted: bool, answered: bool, error: Option<Complaint>)
      requires Valid() && evidence.JObj?
      modifies this
      ensures Valid() && now >= old(now) && late >= old(late) && |signals| >= |old(signals)|
      ensures answered ==> now <= old(now) + DOCTOR_TIMEOUT + (late - old(late)) && late - old(late) <= 2 * longest
      ensures Rechecked(Here(), accepted, answered, error)
              == PostflightFrom(ticks, old(Here()), release, evidence, c, answer)
      ensures accepted ==> answered && error.None?
      ensures answered ==> answer.Some?
      ensures answered ==> (accepted <==> Acceptable(WithDoctor(evidence, answer.value), release, c, now))
      ensures answered && !accepted ==> error == Some(RuntimeRejected)
    {
      accepted, answered, error := false, false, None;
      if ticks(step).interrupted {
        return;
      }
      var doctor := RunDoctor(answer);
      if ticks(step).interrupted {
        return;
      }
      if doctor.None? {
        error := Some(DoctorInvalid);
        return;
      }
      answered := true;
      accepted := Acceptable(WithDoctor(evidence, doctor.value), release, c, now);
      if !accepted {
        error := Some(RuntimeRejected);
      }
    }

    /** What follows the reaping: the postflight unless something spoke against it, and the report.
        `windowAt` is when the window check passed. */
    method FinishReport(r: Reaped, windowAt: int, release: string, evidence: Value, c: Clock, answer: Option<Value>)
      returns (report: Option<SupervisionReport>, course: Course)
      requires Valid() && evidence.JObj? && r.at == Here()
      requires r.errors == [] ==> r.deadlineReached
      modifies this
      ensures SupervisedRun(report, course, Here()) == ReportFrom(ticks, r, windowAt, release, evidence, c, answer)
      ensures Valid() && now >= old(now) && late >= old(late) && |signals| >= |old(signals)|
      ensures course.started && course.windowAt == windowAt && report.Some? && report.value.release == release
      ensures report.value.accepted ==>
                && report.value.errors == [] && r.errors == []
                && report.value.deadlineReached && report.value.reaped && report.value.postflightAccepted
                && course.doctorAnswered && course.verifiedAt >= old(now)
      ensures report.value.reaped == r.reaped && (!r.reaped ==> NotReaped in report.value.errors)
      ensures course.firstReap ==> r.firstReap
      ensures course.doctorAnswered ==>
                && answer.Some?
                && (report.value.accepted ==>
                    Acceptable(WithDoctor(evidence, answer.value), release, c, course.verifiedAt))
                && old(now) <= course.verifiedAt <= old(now) + DOCTOR_TIMEOUT + (late - old(late))
                && late - old(late) <= 2 * longest
    {
      var errors, deadlineReached := r.errors, r.deadlineReached;
      course := Course(windowAt, true, false, false, windowAt);
      var interrupted := Interrupted in errors || ticks(step).interrupted;
      if interrupted {
        deadlineReached := false;
        errors := AppendUnique(errors, Interrupted);
      }
      var postflight := false;
      if !interrupted && (errors == [] || WatcherExited in errors) {
        var answered, error;
        postflight, answered, error := Postflight(release, evidence, c, answer);
        course := course.(firstReap := r.firstReap, doctorAnswered := answered, verifiedAt := now);
        if error.Some? {
          errors := AppendUnique(errors, error.value);
        }
      }
      if ticks(step).interrupted {
        postflight := false;
        errors := AppendUnique(errors, Interrupted);
      }
      if !r.reaped {
        errors := AppendUnique(errors, NotReaped);
      }
      var accepted := errors == [] && postflight;
      report := Some(SupervisionReport(accepted, release, deadlineReached, r.reaped, postflight, errors));
    }

    /** None stands for an argument error. */
    method Supervise(duration: int, grace: int, release: string, evidence: Value, c: Clock, starts: bool,
                     answer: Option<Value>)
      returns (report: Option<SupervisionReport>, course: Course)
      requires Valid() && late == 0
      modifies this
      ensures Valid()
      ensures SupervisedRun(report, course, Here())
              == SuperviseFrom(ticks, old(Here()), duration, grace, release, evidence, c, starts, answer)
      ensures report.None? <==> !ArgumentsOk(duration, grace, release, evidence)
      ensures report.Some? ==> report.value.release == release
      ensures report.Some? && report.value.accepted ==>
                && report.value.errors == []
                && report.value.deadlineReached && report.value.reaped && report.value.postflightAccepted
                && course.doctorAnswered
      ensures report.Some? && !Acceptable(evidence, release, c, old(now)) ==>
                report.value == SupervisionReport(false, release, false, true, false, [PreflightRejected])
                && signals == old(signals)
      ensures report.Some? && Acceptable(evidence, release, c, old(now))
              && !HasEvidenceWindow(evidence, c, course.windowAt, duration, grace) ==>
                report.value == SupervisionReport(false, release, false, true, false, [WindowTooShort])
                && signals == old(signals)
      ensures report.Some? && report.value.accepted ==> course.verifiedAt >= course.windowAt + duration && starts
      ensures report.Some? && !report.value.reaped ==> NotReaped in report.value.errors
      ensures report.Some? && starts && course.started ==> |signals| > |old(signals)|
      ensures report.Some? ==>
                (course.started <==> Acceptable(evidence, release, c, old(now))
                                     && HasEvidenceWindow(evidence, c, course.windowAt, duration, grace))
      ensures course.doctorAnswered ==>
                && Acceptable(evidence, release, c, old(now))
                && HasEvidenceWindow(evidence, c, course.windowAt, duration, grace)
                && answer.Some?
                && (report.Some? && report.value.accepted ==>
                      Acceptable(WithDoctor(evidence, answer.value), release, c, course.verifiedAt))
      ensures course.firstReap && course.doctorAnswered ==>
                && course.windowAt <= course.verifiedAt
                && course.verifiedAt <= course.windowAt + duration + 2 * grace + DOCTOR_TIMEOUT + late
                && late <= 8 * longest
      ensures course.firstReap && course.doctorAnswered && late <= SAFETY_MARGIN ==>
                FreshWithin(Get(evidence, Key.CollectedAt), c, course.verifiedAt, RUNTIME_EVIDENCE_MAX_AGE_SECONDS)
      ensures course.doctorAnswered ==>
                course.windowAt <= course.verifiedAt <= course.windowAt + duration + 5 * grace + DOCTOR_TIMEOUT + late
    {
      course := Course(now, false, false, false, now);
      if !ArgumentsOk(duration, grace, release, evidence) {
        return None, course;
      }
      var passed := Acceptable(evidence, release, c, now);
      if !passed {
        return Some(SupervisionReport(false, release, false, true, false, [PreflightRejected])), course;
      }
      var _ := Pass();
      var window := HasEvidenceWindow(evidence, c, now, duration, grace);
      course := course.(windowAt := now, verifiedAt := now);
      if !window {
        return Some(SupervisionReport(false, release, false, true, false, [WindowTooShort])), course;
      }
      course := course.(started := true);
      var deadlineReached, reaped, firstReap, errors := WatchAndReap(duration, grace, starts);
      var reaping := Reaped(Here(), deadlineReached, reaped, firstReap, errors);
      report, course := FinishReport(reaping, course.windowAt, release, evidence, c, answer);
      if course.firstReap && course.doctorAnswered && late <= SAFETY_MARGIN {
        AcceptableIsFresh(evidence, release, c, old(now));
        WindowSuffices(evidence, c, old(now), course.windowAt, course.verifiedAt, duration, grace, late);
      }
    }
  }
}
