/** The time budget of a supervised interval, and what an accepted report has behind it. */
module SupervisionTheorems {
  import opened Text
  import opened PyValue
  import opened Receipts
  import opened RuntimeEvidence
  import opened SupervisionCourse

  // ---------------------------------------------------------------------------
  // One termination fits
  // ---------------------------------------------------------------------------

  /** If the window check passed and the lateness stayed within the margin, the collection
      time of the evidence passes the postflight age check, whatever the duration and grace. */
  lemma WindowSuffices(evidence: Value, c: Clock, preflightAt: int, windowAt: int, verifiedAt: int,
                       duration: int, grace: int, late: int)
    requires FreshWithin(Get(evidence, Key.CollectedAt), c, preflightAt, RUNTIME_EVIDENCE_MAX_AGE_SECONDS)
    requires preflightAt <= windowAt <= verifiedAt <= windowAt + duration + 2 * grace + DOCTOR_TIMEOUT + late
    requires HasEvidenceWindow(evidence, c, windowAt, duration, grace)
    requires late <= SAFETY_MARGIN
    ensures FreshWithin(Get(evidence, Key.CollectedAt), c, verifiedAt, RUNTIME_EVIDENCE_MAX_AGE_SECONDS)
  {
  }

  lemma AcceptableIsFresh(evidence: Value, release: string, c: Clock, now: int)
    requires Acceptable(evidence, release, c, now)
    ensures FreshWithin(Get(evidence, Key.CollectedAt), c, now, RUNTIME_EVIDENCE_MAX_AGE_SECONDS)
  {
    assert Check(Key.RuntimeEvidenceFresh, evidence, release, c, now);
  }

  // ---------------------------------------------------------------------------
  // How long a course can take
  // ---------------------------------------------------------------------------

  /** Lateness only grows, and a wait takes no longer than to its deadline and the lateness. */
  lemma {:induction false} WaitBound(ticks: Ticks, m: Moment, deadline: int, group: bool)
    requires m.now <= deadline
    ensures var w := WaitUntil(ticks, m, deadline, group);
            w.at.late >= m.late && m.now <= w.at.now <= deadline + (w.at.late - m.late)
    decreases Pos0(deadline - m.now)
  {
    var next := Passed(ticks, m);
    if m.now < deadline && !SeesGone(ticks(m.step), group) {
      if next.now <= deadline {
        WaitBound(ticks, next, deadline, group);
      } else {
        OverdueWait(ticks, next, deadline, group);
      }
    }
  }

  /** A wait that is over takes one more poll, all of it late. */
  lemma OverdueWait(ticks: Ticks, m: Moment, deadline: int, group: bool)
    requires m.now >= deadline
    ensures var w := WaitUntil(ticks, m, deadline, group);
            w.at.now == m.now + ticks(m.step).dt && w.at.late == m.late + w.at.now - deadline
  {
  }

  lemma TerminationBound(ticks: Ticks, m: Moment, grace: nat)
    ensures var e := TerminationFrom(ticks, m, grace);
            e.at.late >= m.late && m.now <= e.at.now <= m.now + 2 * grace + (e.at.late - m.late)
  {
    WaitBound(ticks, m, m.now + grace, true);
    var asked := WaitUntil(ticks, m, m.now + grace, true);
    WaitBound(ticks, asked.at, asked.at.now + grace, true);
  }

  lemma {:induction false} WatchBound(ticks: Ticks, m: Moment, deadline: int, grace: nat)
    ensures var w := WatchUntil(ticks, m, deadline, grace);
            w.at.late >= m.late && w.at.now >= m.now
            && (m.now <= deadline ==> w.at.now <= deadline + 2 * grace + (w.at.late - m.late))
            && (m.now > deadline ==> w.at.now <= m.now + 2 * grace + (w.at.late - m.late) - (m.now - deadline))
    decreases Pos0(deadline - m.now)
  {
    TerminationBound(ticks, Overrun(m, deadline), grace);
    if !ticks(m.step).interrupted && !ticks(m.step).exited && m.now < deadline {
      WatchBound(ticks, Passed(ticks, m), deadline, grace);
    }
  }

  /** The three ways watching can end; an early exit takes no termination. */
  predicate OneEnding(w: Watched) {
    && (w.errors == [] <==> w.deadlineReached)
    && (w.errors == [] || w.errors == [Interrupted] || w.errors == [WatcherExited])
    && (w.errors == [WatcherExited] ==> !w.reaped)
  }

  lemma {:induction false} WatchEndings(ticks: Ticks, m: Moment, deadline: int, grace: nat)
    ensures var w := WatchUntil(ticks, m, deadline, grace);
            OneEnding(w) && (w.deadlineReached ==> w.at.now >= deadline)
    decreases Pos0(deadline - m.now)
  {
    TerminationBound(ticks, Overrun(m, deadline), grace);
    if !ticks(m.step).interrupted && !ticks(m.step).exited && m.now < deadline {
      WatchEndings(ticks, Passed(ticks, m), deadline, grace);
    }
  }

  /** Each ending has its reason in the ticks. */
  lemma {:induction false} WatchReasons(ticks: Ticks, m: Moment, deadline: int, grace: nat)
    ensures var w := WatchUntil(ticks, m, deadline, grace);
            && (w.errors == [Interrupted] ==> exists n: nat :: m.step <= n < w.at.step && ticks(n).interrupted)
            && (w.errors == [] ==>
                  exists n: nat :: m.step <= n < w.at.step && !ticks(n).interrupted && !ticks(n).exited)
            && (w.errors == [WatcherExited] ==> ticks(w.at.step).exited)
    decreases Pos0(deadline - m.now)
  {
    TerminationSteps(ticks, Overrun(m, deadline), grace);
    if !ticks(m.step).interrupted && !ticks(m.step).exited && m.now < deadline {
      WatchReasons(ticks, Passed(ticks, m), deadline, grace);
    }
  }

  lemma {:induction false} EarlyExitBound(ticks: Ticks, m: Moment, deadline: int, grace: nat)
    ensures var w := WatchUntil(ticks, m, deadline, grace);
            w.errors == [WatcherExited] && m.now <= deadline ==> m.now <= w.at.now <= deadline + (w.at.late - m.late)
    ensures var w := WatchUntil(ticks, m, deadline, grace);
            w.errors == [WatcherExited] && m.now > deadline ==>
              w.at.now == m.now && w.at.late == m.late + m.now - deadline
    decreases Pos0(deadline - m.now)
  {
    if !ticks(m.step).interrupted && !ticks(m.step).exited && m.now < deadline {
      EarlyExitBound(ticks, Passed(ticks, m), deadline, grace);
    }
  }

  lemma ReapBound(ticks: Ticks, m: Moment, grace: nat, errors: seq<Complaint>)
    ensures var e := ReapFrom(ticks, m, grace, errors);
            && e.at.late >= m.late && m.now <= e.at.now
            && (e.absent ==> e.at.now <= m.now + 2 * grace + (e.at.late - m.late) && e.errors == errors)
            && e.at.now <= m.now + 3 * grace + (e.at.late - m.late)
  {
    TerminationBound(ticks, m, grace);
    var end := TerminationFrom(ticks, m, grace);
    WaitBound(ticks, end.at, end.at.now + grace, false);
  }

  /** What a watch that began at `start` has taken. */
  predicate WatchFits(start: Moment, duration: nat, grace: nat, w: Watched) {
    var spent := duration + (w.at.late - start.late);
    && w.at.late >= start.late && start.now <= w.at.now <= start.now + spent + 2 * grace
    && (w.errors == [WatcherExited] ==> w.at.now <= start.now + spent && !w.reaped)
  }

  /** What a course has taken: two graces if the first termination reaped the group, two more if the
      second one did, and at most five. */
  predicate CourseFits(start: Moment, duration: nat, grace: nat, r: Reaped) {
    var spent := duration + (r.at.late - start.late);
    && r.at.late >= start.late && start.now <= r.at.now <= start.now + spent + 5 * grace
    && (r.reaped ==> r.at.now <= start.now + spent + 4 * grace)
    && (r.firstReap ==> r.reaped && r.at.now <= start.now + spent + 2 * grace)
  }

  lemma ConcludedFits(ticks: Ticks, start: Moment, duration: nat, grace: nat, w: Watched)
    requires WatchFits(start, duration, grace, w)
    ensures CourseFits(start, duration, grace, ReapedOf(ticks, w, grace))
  {
    ReapBound(ticks, w.at, grace, w.errors);
  }

  /** A course without errors has reached its deadline; an early exit whose group was reaped took one
      termination, the first. */
  predicate CourseEnds(r: Reaped) {
    && (r.errors == [] ==> r.deadlineReached) && StartFailed !in r.errors
    && (!r.deadlineReached ==> Interrupted in r.errors || WatcherExited in r.errors)
    && (r.reaped && WatcherExited in r.errors ==> r.firstReap)
  }

  lemma ConcludedEnding(ticks: Ticks, grace: nat, w: Watched)
    requires OneEnding(w)
    ensures CourseEnds(ReapedOf(ticks, w, grace))
  {
    ReapBound(ticks, w.at, grace, w.errors);
  }

  lemma WatchTime(ticks: Ticks, start: Moment, duration: nat, grace: nat)
    ensures WatchFits(start, duration, grace, WatchUntil(ticks, start, start.now + duration, grace))
  {
    WatchBound(ticks, start, start.now + duration, grace);
    WatchEndings(ticks, start, start.now + duration, grace);
    EarlyExitBound(ticks, start, start.now + duration, grace);
  }

  lemma CourseBound(ticks: Ticks, start: Moment, duration: nat, grace: nat)
    ensures CourseFits(start, duration, grace, WatchedThenReapedFrom(ticks, start, duration, grace))
  {
    WatchTime(ticks, start, duration, grace);
    ConcludedFits(ticks, start, duration, grace, WatchUntil(ticks, start, start.now + duration, grace));
  }

  lemma CourseEndings(ticks: Ticks, start: Moment, duration: nat, grace: nat)
    ensures CourseEnds(WatchedThenReapedFrom(ticks, start, duration, grace))
  {
    WatchEndings(ticks, start, start.now + duration, grace);
    ConcludedEnding(ticks, grace, WatchUntil(ticks, start, start.now + duration, grace));
  }

  /** A course that reached its deadline is past it. */
  lemma DeadlineIsPast(ticks: Ticks, start: Moment, duration: nat, grace: nat)
    ensures var r := WatchedThenReapedFrom(ticks, start, duration, grace);
            r.deadlineReached ==> r.at.now >= start.now + duration
  {
    WatchEndings(ticks, start, start.now + duration, grace);
    var w := WatchUntil(ticks, start, start.now + duration, grace);
    ReapBound(ticks, w.at, grace, w.errors);
  }

  // ---------------------------------------------------------------------------
  // What reaping has seen
  // ---------------------------------------------------------------------------

  /** Some poll of these saw the process and its group gone. */
  ghost predicate SeenGone(ticks: Ticks, from: nat, until: nat) {
    exists n: nat :: from <= n < until && SeesGone(ticks(n), true)
  }

  lemma {:induction false} WaitSteps(ticks: Ticks, m: Moment, deadline: int, group: bool)
    ensures var w := WaitUntil(ticks, m, deadline, group);
            w.at.step > m.step && (w.absent <==> SeesGone(ticks(w.at.step - 1), group))
    decreases Pos0(deadline - m.now)
  {
    if m.now < deadline && !SeesGone(ticks(m.step), group) {
      WaitSteps(ticks, Passed(ticks, m), deadline, group);
    }
  }

  lemma TerminationSteps(ticks: Ticks, m: Moment, grace: nat)
    ensures var e := TerminationFrom(ticks, m, grace);
            e.at.step > m.step && (e.absent <==> SeesGone(ticks(e.at.step - 1), true))
  {
    WaitSteps(ticks, m, m.now + grace, true);
    var asked := WaitUntil(ticks, m, m.now + grace, true);
    WaitSteps(ticks, asked.at, asked.at.now + grace, true);
  }

  lemma {:induction false} WatchSteps(ticks: Ticks, m: Moment, deadline: int, grace: nat)
    ensures var w := WatchUntil(ticks, m, deadline, grace);
            && w.at.step >= m.step && (w.errors == [WatcherExited] ==> !w.reaped)
            && (w.errors != [WatcherExited] ==>
                  w.at.step > m.step && (w.reaped <==> SeesGone(ticks(w.at.step - 1), true)))
    decreases Pos0(deadline - m.now)
  {
    TerminationSteps(ticks, Overrun(m, deadline), grace);
    if !ticks(m.step).interrupted && !ticks(m.step).exited && m.now < deadline {
      WatchSteps(ticks, Passed(ticks, m), deadline, grace);
    }
  }

  ghost predicate ReapSeen(ticks: Ticks, from: nat, r: Reaped) { r.reaped ==> SeenGone(ticks, from, r.at.step) }

  lemma ConcludedWasSeen(ticks: Ticks, from: nat, grace: nat, w: Watched)
    requires from <= w.at.step && (w.reaped ==> from < w.at.step && SeesGone(ticks(w.at.step - 1), true))
    ensures ReapSeen(ticks, from, ReapedOf(ticks, w, grace))
  {
    TerminationSteps(ticks, w.at, grace);
  }

  /** A group is reported reaped only when a poll saw it gone. */
  lemma ReapedWasSeen(ticks: Ticks, start: Moment, duration: nat, grace: nat)
    ensures ReapSeen(ticks, start.step, WatchedThenReapedFrom(ticks, start, duration, grace))
  {
    WatchSteps(ticks, start, start.now + duration, grace);
    ConcludedWasSeen(ticks, start.step, grace, WatchUntil(ticks, start, start.now + duration, grace));
  }

  lemma {:induction false} DoctorBound(ticks: Ticks, m: Moment, deadline: int)
    requires m.now <= deadline
    ensures var d := DoctorUntil(ticks, m, deadline);
            d.done ==> d.at.late >= m.late && m.now <= d.at.now <= deadline + (d.at.late - m.late)
    decreases Pos0(deadline - m.now)
  {
    var next := Passed(ticks, m);
    if !ticks(m.step).interrupted && m.now < deadline && !ticks(m.step).doctorDone && next.now <= deadline {
      DoctorBound(ticks, next, deadline);
    }
  }

  // ---------------------------------------------------------------------------
  // A repeated termination
  // ---------------------------------------------------------------------------

  /** From a passed window check at `windowAt` on: the first termination leaves the group behind,
      the second one reaps it, the doctor answers in time, the lateness stays within `late`, and yet
      the evidence is too old for the postflight. */
  ghost predicate StaleAfterRepeat(
    ticks: Ticks, windowAt: int, duration: nat, grace: nat, late: int, evidence: Value, c: Clock)
  {
    var r := WatchAndReapFrom(ticks, Moment(0, windowAt, 0), duration, grace, true);
    var d := DoctorFrom(ticks, r.at);
    && r.reaped && !r.firstReap && r.errors == [] && d.done && d.at.late <= late
    && !FreshWithin(Get(evidence, Key.CollectedAt), c, d.at.now, RUNTIME_EVIDENCE_MAX_AGE_SECONDS)
  }

  /** The age of the evidence at the window check. */
  function AgeAt(evidence: Value, c: Clock, windowAt: int): int
    requires TimeOf(Get(evidence, Key.CollectedAt), c.parse).Some?
  {
    windowAt - TimeOf(Get(evidence, Key.CollectedAt), c.parse).value
  }

  /** The window check passes, on evidence that is not from the future. */
  predicate PassesWindow(evidence: Value, c: Clock, windowAt: int, duration: int, grace: int) {
    && HasEvidenceWindow(evidence, c, windowAt, duration, grace)
    && AgeAt(evidence, c, windowAt) >= -FUTURE_SKEW_SECONDS * MICROS
  }

  const MAX_AGE := RUNTIME_EVIDENCE_MAX_AGE_SECONDS * MICROS

  /** From the window check to the answer of the doctor: two graces for a first termination that reaps
      the group, four for a second one. */
  lemma TimeToAnswer(ticks: Ticks, windowAt: int, duration: nat, grace: nat)
    ensures var r := WatchAndReapFrom(ticks, Moment(0, windowAt, 0), duration, grace, true);
            var d := DoctorFrom(ticks, r.at);
            d.done ==>
              && windowAt <= d.at.now
              && (r.reaped ==> d.at.now <= windowAt + duration + 4 * grace + DOCTOR_TIMEOUT + d.at.late)
              && (r.firstReap ==> d.at.now <= windowAt + duration + 2 * grace + DOCTOR_TIMEOUT + d.at.late)
  {
    CourseBound(ticks, GapAfter(ticks, Moment(0, windowAt, 0)), duration, grace);
    var r := WatchAndReapFrom(ticks, Moment(0, windowAt, 0), duration, grace, true);
    var start := GapAfter(ticks, r.at);
    DoctorBound(ticks, start, start.now + DOCTOR_TIMEOUT);
  }

  /** One termination fits in the budget, be it at the deadline, after an interruption or after an early
      exit: from every passed window check on, evidence whose group the first termination reaped is
      still within its age limit when the doctor answers, if the lateness stays within the margin. */
  lemma OneTerminationFits(ticks: Ticks, windowAt: int, duration: nat, grace: nat, evidence: Value, c: Clock)
    requires PassesWindow(evidence, c, windowAt, duration, grace)
    ensures var r := WatchAndReapFrom(ticks, Moment(0, windowAt, 0), duration, grace, true);
            var d := DoctorFrom(ticks, r.at);
            && (r.reaped && WatcherExited in r.errors ==> r.firstReap)
            && (r.firstReap && d.done && d.at.late <= SAFETY_MARGIN ==>
                  FreshWithin(Get(evidence, Key.CollectedAt), c, d.at.now, RUNTIME_EVIDENCE_MAX_AGE_SECONDS))
  {
    CourseEndings(ticks, GapAfter(ticks, Moment(0, windowAt, 0)), duration, grace);
    TimeToAnswer(ticks, windowAt, duration, grace);
  }

  // A clock that is looked at every microsecond. The group outlives the first termination and is
  // gone at the last poll of the second one; the doctor answers at its deadline.

  lemma {:induction false} EvenWait(ticks: Ticks, m: Moment, deadline: int, group: bool)
    requires m.now <= deadline
    requires forall n: nat :: m.step <= n <= m.step + (deadline - m.now) ==>
               ticks(n).dt == 1 && !SeesGone(ticks(n), group)
    ensures WaitUntil(ticks, m, deadline, group)
            == Waited(Moment(m.step + (deadline - m.now) + 1, deadline + 1, m.late + 1), false)
    decreases deadline - m.now
  {
    if m.now < deadline {
      EvenWait(ticks, Passed(ticks, m), deadline, group);
    }
  }

  lemma {:induction false} EvenWaitSeesGone(ticks: Ticks, m: Moment, deadline: int, group: bool)
    requires m.now < deadline
    requires forall n: nat :: m.step <= n < m.step + (deadline - m.now) ==> ticks(n).dt == 1
    requires forall n: nat :: m.step <= n < m.step + (deadline - m.now) - 1 ==> !SeesGone(ticks(n), group)
    requires SeesGone(ticks(m.step + (deadline - m.now) - 1), group)
    ensures WaitUntil(ticks, m, deadline, group) == Waited(Moment(m.step + (deadline - m.now), deadline, m.late), true)
    decreases deadline - m.now
  {
    if m.now < deadline - 1 {
      EvenWaitSeesGone(ticks, Passed(ticks, m), deadline, group);
    }
  }

  lemma {:induction false} EvenWatch(ticks: Ticks, m: Moment, deadline: int, grace: nat)
    requires m.now <= deadline
    requires forall n: nat :: m.step <= n <= m.step + (deadline - m.now) ==>
               ticks(n).dt == 1 && !ticks(n).interrupted && !ticks(n).exited
    ensures var end := TerminationFrom(ticks, Moment(m.step + (deadline - m.now), deadline, m.late), grace);
            WatchUntil(ticks, m, deadline, grace) == Watched(end.at, true, end.absent, [])
    decreases deadline - m.now
  {
    if m.now < deadline {
      EvenWatch(ticks, Passed(ticks, m), deadline, grace);
    }
  }

  lemma {:induction false} EvenDoctor(ticks: Ticks, m: Moment, deadline: int)
    requires m.now < deadline
    requires forall n: nat :: m.step <= n < m.step + (deadline - m.now) ==> ticks(n).dt == 1 && !ticks(n).interrupted
    requires forall n: nat :: m.step <= n < m.step + (deadline - m.now) - 1 ==> !ticks(n).doctorDone
    requires ticks(m.step + (deadline - m.now) - 1).doctorDone
    ensures DoctorUntil(ticks, m, deadline) == Answered(Moment(m.step + (deadline - m.now), deadline, m.late), true)
    decreases deadline - m.now
  {
    if m.now < deadline - 1 {
      EvenDoctor(ticks, Passed(ticks, m), deadline);
    }
  }

  /** The poll that first sees the group gone. */
  function GoneAt(duration: nat, grace: nat): nat { duration + 4 * grace + 3 }

  /** The first tick takes `gap`, all others a microsecond. */
  function SlowTicks(gap: Pos, duration: nat, grace: nat): Ticks {
    var gone := GoneAt(duration, grace);
    (n: nat) => Tick(if n == 0 then gap else 1, n >= gone, n >= gone, false, n >= gone + 1 + DOCTOR_TIMEOUT)
  }

  lemma SlowTermination(gap: Pos, duration: nat, grace: nat, m: Moment)
    requires 1 <= m.step && m.step + 2 * grace + 1 < GoneAt(duration, grace)
    ensures TerminationFrom(SlowTicks(gap, duration, grace), m, grace)
            == Ended(Moment(m.step + 2 * grace + 2, m.now + 2 * grace + 2, m.late + 2), false, true)
  {
    var ticks := SlowTicks(gap, duration, grace);
    EvenWait(ticks, m, m.now + grace, true);
    var asked := WaitUntil(ticks, m, m.now + grace, true);
    EvenWait(ticks, asked.at, asked.at.now + grace, true);
  }

  lemma LastTermination(gap: Pos, duration: nat, grace: nat, m: Moment)
    requires 1 <= m.step && grace >= 1 && m.step + 2 * grace == GoneAt(duration, grace)
    ensures TerminationFrom(SlowTicks(gap, duration, grace), m, grace)
            == Ended(Moment(m.step + 2 * grace + 1, m.now + 2 * grace + 1, m.late + 1), true, true)
  {
    var ticks := SlowTicks(gap, duration, grace);
    EvenWait(ticks, m, m.now + grace, true);
    var asked := WaitUntil(ticks, m, m.now + grace, true);
    EvenWaitSeesGone(ticks, asked.at, asked.at.now + grace, true);
  }

  lemma SlowWatch(gap: Pos, duration: nat, grace: nat, start: Moment)
    requires start.step == 1
    ensures WatchUntil(SlowTicks(gap, duration, grace), start, start.now + duration, grace)
            == Watched(Moment(duration + 2 * grace + 3, start.now + duration + 2 * grace + 2, start.late + 2), true,
                       false, [])
  {
    EvenWatch(SlowTicks(gap, duration, grace), start, start.now + duration, grace);
    SlowTermination(gap, duration, grace, Moment(1 + duration, start.now + duration, start.late));
  }

  lemma SlowCourse(gap: Pos, duration: nat, grace: nat, start: Moment)
    requires start.step == 1 && grace >= 1
    ensures WatchedThenReapedFrom(SlowTicks(gap, duration, grace), start, duration, grace)
            == Reaped(Moment(GoneAt(duration, grace) + 1, start.now + duration + 4 * grace + 3, start.late + 3),
                      true, true, false, [])
  {
    SlowWatch(gap, duration, grace, start);
    LastTermination(gap, duration, grace,
                    Moment(duration + 2 * grace + 3, start.now + duration + 2 * grace + 2, start.late + 2));
  }

  lemma SlowDoctor(gap: Pos, duration: nat, grace: nat, m: Moment)
    requires m.step == GoneAt(duration, grace) + 1
    ensures var d := DoctorFrom(SlowTicks(gap, duration, grace), m);
            d.done && d.at.now == m.now + DOCTOR_TIMEOUT + 1 && d.at.late == m.late + 1
  {
    var asked := GapAfter(SlowTicks(gap, duration, grace), m);
    EvenDoctor(SlowTicks(gap, duration, grace), asked, asked.now + DOCTOR_TIMEOUT);
  }

  /** The run in which nothing is faster than it has to be. */
  lemma SlowRun(gap: Pos, windowAt: int, duration: nat, grace: nat)
    requires grace >= 1
    ensures var ticks := SlowTicks(gap, duration, grace);
            var r := WatchAndReapFrom(ticks, Moment(0, windowAt, 0), duration, grace, true);
            var d := DoctorFrom(ticks, r.at);
            && r.reaped && !r.firstReap && r.errors == [] && d.done
            && d.at.late == gap + 4 && d.at.now == windowAt + duration + 4 * grace + DOCTOR_TIMEOUT + gap + 4
  {
    var start := Moment(1, windowAt + gap, gap);
    assert GapAfter(SlowTicks(gap, duration, grace), Moment(0, windowAt, 0)) == start;
    SlowCourse(gap, duration, grace, start);
    SlowDoctor(gap, duration, grace,
               Moment(GoneAt(duration, grace) + 1, start.now + duration + 4 * grace + 3, gap + 3));
  }

  /** From any passed window check on, a repeated termination can leave the evidence too old for the
      postflight, with a total lateness within some limit, exactly when its age at the check, the
      duration, four graces, the doctor's time and this limit exceed the maximum age. */
  lemma RepeatGoesStaleExactly(windowAt: int, duration: nat, grace: nat, late: int, evidence: Value, c: Clock)
    requires PassesWindow(evidence, c, windowAt, duration, grace) && grace >= 1 && late >= 5
    ensures (exists ticks :: StaleAfterRepeat(ticks, windowAt, duration, grace, late, evidence, c)) <==>
            AgeAt(evidence, c, windowAt) + duration + 4 * grace + DOCTOR_TIMEOUT + late > MAX_AGE
  {
    var limit := AgeAt(evidence, c, windowAt) + duration + 4 * grace + DOCTOR_TIMEOUT + late;
    if limit > MAX_AGE {
      SlowRun(late - 4, windowAt, duration, grace);
      assert StaleAfterRepeat(SlowTicks(late - 4, duration, grace), windowAt, duration, grace, late, evidence, c);
    } else {
      forall ticks
        ensures !StaleAfterRepeat(ticks, windowAt, duration, grace, late, evidence, c)
      {
        TimeToAnswer(ticks, windowAt, duration, grace);
      }
    }
  }

  /** So the margin covers a repeated termination, for evidence of every age that passes the window
      check, exactly while two graces and the lateness fit in it: without lateness to speak of, for
      graces up to half the margin. */
  lemma MarginIsExact(duration: nat, grace: nat, late: int, evidence: Value, c: Clock)
    requires grace >= 1 && late >= 5 && TimeOf(Get(evidence, Key.CollectedAt), c.parse).Some?
    requires duration + 2 * grace + DOCTOR_TIMEOUT + SAFETY_MARGIN <= MAX_AGE
    ensures (exists windowAt, ticks ::
               && PassesWindow(evidence, c, windowAt, duration, grace)
               && StaleAfterRepeat(ticks, windowAt, duration, grace, late, evidence, c)) <==>
            2 * grace + late > SAFETY_MARGIN
  {
    var oldest := MAX_AGE - duration - 2 * grace - DOCTOR_TIMEOUT - SAFETY_MARGIN;
    var at := TimeOf(Get(evidence, Key.CollectedAt), c.parse).value + oldest;
    if 2 * grace + late > SAFETY_MARGIN {
      assert PassesWindow(evidence, c, at, duration, grace);
      RepeatGoesStaleExactly(at, duration, grace, late, evidence, c);
      var ticks :| StaleAfterRepeat(ticks, at, duration, grace, late, evidence, c);
    } else {
      forall windowAt, ticks | PassesWindow(evidence, c, windowAt, duration, grace)
        ensures !StaleAfterRepeat(ticks, windowAt, duration, grace, late, evidence, c)
      {
        RepeatGoesStaleExactly(windowAt, duration, grace, late, evidence, c);
      }
    }
  }

  // ---------------------------------------------------------------------------
  // Reports
  // ---------------------------------------------------------------------------

  ghost predicate HasFlags(r: SupervisionReport) {
    r.accepted ==> r.errors == [] && r.deadlineReached && r.reaped && r.postflightAccepted
  }

  lemma ReportHasFlags(
    ticks: Ticks, r: Reaped, windowAt: int, release: string, evidence: Value, c: Clock, answer: Option<Value>)
    requires evidence.JObj? && (r.errors == [] ==> r.deadlineReached)
    ensures var report := ReportFrom(ticks, r, windowAt, release, evidence, c, answer).report;
            report.Some? && HasFlags(report.value) && report.value.release == release
  {
  }

  /** Every report of every interval that is accepted has no errors, and all three flags. */
  lemma AcceptedReportHasFlags(
    ticks: Ticks, m: Moment, duration: int, grace: int, release: string, evidence: Value, c: Clock, starts: bool,
    answer: Option<Value>)
    ensures var report := SuperviseFrom(ticks, m, duration, grace, release, evidence, c, starts, answer).report;
            report.Some? ==> HasFlags(report.value) && report.value.release == release
  {
    if ArgumentsOk(duration, grace, release, evidence) {
      var checked := Passed(ticks, m);
      CourseEndings(ticks, GapAfter(ticks, checked), duration, grace);
      var r := WatchAndReapFrom(ticks, checked, duration, grace, starts);
      ReportHasFlags(ticks, r, checked.now, release, evidence, c, answer);
    }
  }

  /** The receipt written for a supervision report. */
  function SupervisedReceipt(r: SupervisionReport, c: Clock, observedAt: int, errors: seq<Value>): Value {
    JObj(map[
      Key.SchemaVersion := JInt(1),
      Key.Stage := JWord(Word.Supervised),
      Key.Status := StatusWord(r.accepted),
      Key.ReleaseSha := JStr(r.release),
      Key.ObservedAt := JStr(c.render(observedAt)),
      Key.DeadlineReached := JBool(r.deadlineReached),
      Key.ProcessGroupReaped := JBool(r.reaped),
      Key.PostflightRuntimeAccepted := JBool(r.postflightAccepted),
      Key.Errors := JList(errors)
    ])
  }

  lemma FlagsAreContent(r: SupervisionReport, c: Clock, observedAt: int)
    requires HasFlags(r) && r.accepted
    ensures SupervisedContent(SupervisedReceipt(r, c, observedAt, []))
  {
    assert SupervisedReceipt(r, c, observedAt, []).fields.Keys == SUPERVISED_KEYS;
  }

  /** The receipt of every accepted interval is a valid supervised stage. */
  lemma AcceptedSupervision(
    ticks: Ticks, m: Moment, duration: int, grace: int, release: string, evidence: Value, c: Clock, starts: bool,
    answer: Option<Value>, report: SupervisionReport, observedAt: int)
    requires SuperviseFrom(ticks, m, duration, grace, release, evidence, c, starts, answer).report == Some(report)
    requires report.accepted
    ensures report.release == release && SupervisedContent(SupervisedReceipt(report, c, observedAt, []))
  {
    AcceptedReportHasFlags(ticks, m, duration, grace, release, evidence, c, starts, answer);
    FlagsAreContent(report, c, observedAt);
  }
}
