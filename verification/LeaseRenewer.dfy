/** The lease protocol of agent_runtime.py: the crawling main thread, the renewer thread and
    the clock, as interleaved steps. An action that is not enabled changes nothing, so every
    sequence of actions is a run. Times are microseconds of the monotonic clock. */
module LeaseRenewer {
  import opened Text

  const JOIN_TIMEOUT := 5_000_000

  /** How the control plane answers a renewal: a grant with the time left of the new lease (none
      when it carries no valid expiry), a stale claim, any other client error, or an exception
      the renewer does not expect. */
  datatype Response = Granted(remaining: Option<int>) | ClaimRejected | ClientError | Unexpected

  datatype Outcome = LeaseLost | CrawlFailed | Applied | Raised

  /** What the main thread does once the renewer's block is left. */
  datatype Next = ReturnOutcome(outcome: Outcome) | SubmitResult

  datatype Main =
    | Entering
    | MarkingAtEntry(done: nat)
    | CheckingEntry
    | Executing
    | Checking(crawled: bool)
    | Leaving(next: Next)
    | Joining(next: Next, until: int)
    | Submitting
    | Returned(outcome: Outcome)

  datatype Renewer = NotStarted | AtLoopTop | Waiting(wakeAt: int) | Renewing | Marking(done: nat) | Stopped

  /** One renewal request: when it was sent, and the lease deadline it was sent under. */
  datatype Renewal = Renewal(at: int, deadline: int)

  /** `stop` is when the stop flag was set. `crawled`: the executor was called. */
  datatype State = State(
    now: int,
    deadline: Option<int>,
    lost: bool,
    cancelled: bool,
    stop: Option<int>,
    main: Main,
    renewer: Renewer,
    renewals: seq<Renewal>,
    submissions: nat,
    sawLost: bool,
    crawled: bool)

  /** Renewal interval (never below 10 ms in the program), and how late a woken renewer may run. */
  datatype Params = Params(interval: Interval, slack: nat)
  type Interval = n: int | n >= 1 witness 1

  datatype Action =
    | Tick(dt: nat)
    | MainStep
    | Executed(crawled: bool)
    | SubmitAnswered(outcome: Outcome)
    | RenewerStep
    | WakeByTimeout
    | RenewAnswered(response: Response)

  function Min(a: int, b: int): int { if a <= b then a else b }
  function Max(a: int, b: int): int { if a >= b then a else b }

  /** The three writes of marking a lease lost, one at a time. */
  function MarkOne(s: State, done: nat): State {
    if done == 0 then s.(lost := true)
    else if done == 1 then s.(cancelled := true)
    else SetStop(s)
  }

  function SetStop(s: State): State { if s.stop.Some? then s else s.(stop := Some(s.now)) }

  /** The main thread up to the call of the executor. */
  function StepEntry(s: State): State {
    match s.main
    case Entering =>
      if s.deadline.None? || s.deadline.value <= s.now then s.(main := MarkingAtEntry(0))
      else s.(main := CheckingEntry, renewer := AtLoopTop)
    case MarkingAtEntry(done) =>
      MarkOne(s, done).(main := if done >= 2 then CheckingEntry else MarkingAtEntry(done + 1))
    case CheckingEntry =>
      if s.lost then s.(main := Leaving(ReturnOutcome(LeaseLost)), sawLost := true)
      else s.(main := Executing, crawled := true)
    case _ => s
  }

  /** The main thread from its last check on. */
  function StepExit(s: State): State {
    match s.main
    case Checking(crawled) =>
      if s.lost then s.(main := Leaving(ReturnOutcome(LeaseLost)), sawLost := true)
      else s.(main := Leaving(if crawled then SubmitResult else ReturnOutcome(CrawlFailed)))
    case Leaving(next) => SetStop(s).(main := Joining(next, s.now + JOIN_TIMEOUT))
    case Joining(next, until) => if s.renewer in {NotStarted, Stopped} || s.now >= until then Joined(s, next) else s
    case _ => s
  }

  function Joined(s: State, next: Next): State {
    match next
    case ReturnOutcome(outcome) => s.(main := Returned(outcome))
    case SubmitResult => s.(main := Submitting, submissions := s.submissions + 1)
  }

  predicate AtEntry(m: Main) { m.Entering? || m.MarkingAtEntry? || m.CheckingEntry? }

  function StepMain(s: State): State { if AtEntry(s.main) then StepEntry(s) else StepExit(s) }

  function StepRenewer(s: State, p: Params): State {
    match s.renewer
    case AtLoopTop =>
      if s.deadline.None? || s.deadline.value <= s.now then s.(renewer := Marking(0))
      else s.(renewer := Waiting(s.now + Min(p.interval, s.deadline.value - s.now)))
    case Waiting(_) => if s.stop.Some? then s.(renewer := Stopped) else s
    case Marking(done) =>
      MarkOne(s, done).(renewer := if done >= 2 then Stopped else Marking(done + 1))
    case _ => s
  }

  /** The wait runs out and a renewal is sent, unless the stop flag was set before the wait ran
      out: then the wait reports the flag, however late the thread runs. */
  function Wake(s: State): State {
    if s.renewer.Waiting? && s.now >= s.renewer.wakeAt && s.deadline.Some? && !StoppedIn(s.renewer, s.stop) then
      s.(renewer := Renewing, renewals := s.renewals + [Renewal(s.now, s.deadline.value)])
    else s
  }

  /** The renewer's wait was broken by the stop flag. */
  predicate StoppedIn(renewer: Renewer, stop: Option<int>) {
    renewer.Waiting? && stop.Some? && stop.value < renewer.wakeAt
  }

  function AnswerRenewal(s: State, response: Response): State {
    if s.renewer != Renewing then s
    else
      match response
      case Granted(remaining) =>
        if remaining.Some? then s.(deadline := Some(s.now + Max(0, remaining.value)), renewer := AtLoopTop)
        else s.(renewer := Marking(0))
      case ClaimRejected => s.(renewer := Marking(0))
      case ClientError => s.(renewer := AtLoopTop)
      case Unexpected => s.(renewer := Stopped)
  }

  function Step(s: State, a: Action, p: Params): State {
    match a
    case Tick(dt) =>
      if s.renewer.Waiting? && s.now + dt > s.renewer.wakeAt + p.slack then s else s.(now := s.now + dt)
    case MainStep => StepMain(s)
    case Executed(crawled) => if s.main == Executing then s.(main := Checking(crawled)) else s
    case SubmitAnswered(outcome) =>
      if s.main == Submitting && outcome in {Applied, LeaseLost, Raised} then s.(main := Returned(outcome)) else s
    case RenewerStep => StepRenewer(s, p)
    case WakeByTimeout => Wake(s)
    case RenewAnswered(response) => AnswerRenewal(s, response)
  }

  function Initial(now: int, deadline: Option<int>): State {
    State(now, deadline, false, false, None, Entering, NotStarted, [], 0, false, false)
  }

  function Run(s: State, actions: seq<Action>, p: Params): State
    decreases |actions|
  {
    if actions == [] then s else Run(Step(s, actions[0], p), actions[1..], p)
  }

  // ---------------------------------------------------------------------------
  // The invariant
  // ---------------------------------------------------------------------------

  /** What the main thread's place says about submissions and the outcome. */
  ghost predicate MainFits(s: State) {
    match s.main
    case Entering => s.submissions == 0 && !s.lost && s.renewer == NotStarted
    case MarkingAtEntry(done) => s.submissions == 0 && s.renewer == NotStarted && (done >= 1 ==> s.lost)
    case Leaving(next) => s.submissions == 0 && (next.ReturnOutcome? ==> next.outcome in {LeaseLost, CrawlFailed})
    case Joining(next, _) =>
      s.submissions == 0 && s.stop.Some? && (next.ReturnOutcome? ==> next.outcome in {LeaseLost, CrawlFailed})
    case Submitting => s.submissions == 1
    case Returned(outcome) =>
      s.submissions <= 1 && (if s.submissions == 0 then outcome in {LeaseLost, CrawlFailed} else outcome != CrawlFailed)
    case _ => s.submissions == 0
  }

  /** The main thread will not send a result any more. */
  predicate GivesUp(m: Main) {
    match m
    case Leaving(next) => next.ReturnOutcome?
    case Joining(next, _) => next.ReturnOutcome?
    case Returned(_) => true
    case _ => false
  }

  ghost predicate RenewerFits(s: State, p: Params) {
    match s.renewer
    case NotStarted => true
    case Stopped => true
    case Marking(done) => s.lost == (done >= 1)
    case Waiting(wakeAt) =>
      !s.lost && s.deadline.Some? && wakeAt <= s.deadline.value && s.now <= wakeAt + p.slack
    case _ => !s.lost && s.deadline.Some?
  }

  ghost predicate RenewalsInTime(renewals: seq<Renewal>, slack: nat) {
    forall k :: 0 <= k < |renewals| ==> renewals[k].at <= renewals[k].deadline + slack
  }

  ghost predicate Invariant(s: State, p: Params) {
    && MainFits(s)
    && RenewerFits(s, p)
    && RenewalsInTime(s.renewals, p.slack)
    && (s.cancelled ==> s.lost)
    && (s.stop.Some? ==> s.stop.value <= s.now)
    && (s.sawLost ==> s.lost && s.submissions == 0 && GivesUp(s.main))
  }

  lemma EntryKeepsInvariant(s: State, p: Params)
    requires Invariant(s, p) && AtEntry(s.main)
    ensures Invariant(StepEntry(s), p)
  {
  }

  lemma ExitKeepsInvariant(s: State, p: Params)
    requires Invariant(s, p)
    ensures Invariant(StepExit(s), p)
  {
  }

  lemma MainKeepsInvariant(s: State, p: Params)
    requires Invariant(s, p)
    ensures Invariant(StepMain(s), p)
  {
    if AtEntry(s.main) {
      EntryKeepsInvariant(s, p);
    } else {
      ExitKeepsInvariant(s, p);
    }
  }

  lemma RenewerKeepsInvariant(s: State, p: Params)
    requires Invariant(s, p)
    ensures Invariant(StepRenewer(s, p), p)
  {
    match s.renewer {
      case AtLoopTop =>
      case _ =>
    }
  }

  lemma AnswerKeepsInvariant(s: State, response: Response, p: Params)
    requires Invariant(s, p)
    ensures Invariant(AnswerRenewal(s, response), p)
  {
  }

  lemma StepKeepsInvariant(s: State, a: Action, p: Params)
    requires Invariant(s, p)
    ensures Invariant(Step(s, a, p), p)
  {
    match a {
      case MainStep => MainKeepsInvariant(s, p);
      case RenewerStep => RenewerKeepsInvariant(s, p);
      case RenewAnswered(response) => AnswerKeepsInvariant(s, response, p);
      case _ =>
    }
  }

  lemma {:induction false} RunKeepsInvariant(s: State, actions: seq<Action>, p: Params)
    requires Invariant(s, p)
    ensures Invariant(Run(s, actions, p), p)
    decreases |actions|
  {
    if actions != [] {
      StepKeepsInvariant(s, actions[0], p);
      RunKeepsInvariant(Step(s, actions[0], p), actions[1..], p);
    }
  }

  /** In every interleaving: cancellation implies lost, each renewal is sent no later than the
      lease deadline plus the wake-up slack, at most one result is submitted, none once the
      main thread has seen the lease lost, and an applied outcome comes from a submission. */
  lemma Safety(now: int, deadline: Option<int>, actions: seq<Action>, p: Params)
    ensures var s := Run(Initial(now, deadline), actions, p);
            && (s.cancelled ==> s.lost)
            && (forall k :: 0 <= k < |s.renewals| ==> s.renewals[k].at <= s.renewals[k].deadline + p.slack)
            && s.submissions <= 1
            && (s.sawLost ==> s.submissions == 0)
            && (s.main == Returned(Applied) ==> s.submissions == 1 && !s.sawLost)
            && (s.main == Returned(CrawlFailed) ==> s.submissions == 0)
  {
    RunKeepsInvariant(Initial(now, deadline), actions, p);
  }

  lemma StepOnlyGrows(s: State, a: Action, p: Params)
    requires Invariant(s, p)
    ensures var next := Step(s, a, p);
            && (s.lost ==> next.lost && next.renewals == s.renewals)
            && (s.cancelled ==> next.cancelled)
            && s.renewals <= next.renewals
            && (s.sawLost ==> next.sawLost)
  {
  }

  /** From any reachable state on: lost and cancellation stay set, the renewals sent so far stay
      sent, once the lease is lost none is added, and once the main thread has seen the loss
      nothing is submitted. */
  lemma {:induction false} LostIsForever(s: State, actions: seq<Action>, p: Params)
    requires Invariant(s, p)
    ensures var later := Run(s, actions, p);
            && (s.lost ==> later.lost && later.renewals == s.renewals)
            && (s.cancelled ==> later.cancelled)
            && s.renewals <= later.renewals
            && (s.sawLost ==> later.sawLost && later.submissions == 0)
    decreases |actions|
  {
    if actions != [] {
      var next := Step(s, actions[0], p);
      StepKeepsInvariant(s, actions[0], p);
      StepOnlyGrows(s, actions[0], p);
      LostIsForever(next, actions[1..], p);
      RunKeepsInvariant(next, actions[1..], p);
      var later := Run(next, actions[1..], p);
      assert s.renewals <= next.renewals <= later.renewals;
    }
  }

  /** Nothing has been crawled, renewed or submitted, and nothing will be. */
  ghost predicate Idle(s: State) {
    && s.renewer == NotStarted && s.renewals == [] && s.submissions == 0
    && match s.main
       case Entering => s.deadline.None? || s.deadline.value <= s.now
       case MarkingAtEntry(done) => done >= 1 ==> s.lost
       case CheckingEntry => s.lost
       case Leaving(next) => next == ReturnOutcome(LeaseLost)
       case Joining(next, _) => next == ReturnOutcome(LeaseLost)
       case Returned(outcome) => outcome == LeaseLost
       case _ => false
  }

  lemma MainKeepsIdle(s: State)
    requires Idle(s)
    ensures Idle(StepMain(s))
  {
  }

  lemma StepKeepsIdle(s: State, a: Action, p: Params)
    requires Idle(s)
    ensures Idle(Step(s, a, p))
  {
    if a.MainStep? {
      MainKeepsIdle(s);
    }
  }

  /** A claim whose lease is already over, or that names no valid expiry, is never crawled,
      renewed or submitted, and the only outcome it can have is a lost lease. */
  lemma {:induction false} ExpiredClaimIsIdle(s: State, actions: seq<Action>, p: Params)
    requires Idle(s)
    ensures Idle(Run(s, actions, p))
    decreases |actions|
  {
    if actions != [] {
      StepKeepsIdle(s, actions[0], p);
      ExpiredClaimIsIdle(Step(s, actions[0], p), actions[1..], p);
    }
  }

  /** The executor is called only under a lease that was live at entry; a main thread past it has
      called it, or has seen the lease lost before it could. */
  ghost predicate CrawlFits(s: State, live: bool) {
    && (s.crawled ==> live)
    && match s.main
       case Entering => !s.crawled && (s.deadline.Some? && s.deadline.value > s.now ==> live)
       case MarkingAtEntry(done) => !s.crawled && (done >= 1 ==> s.lost)
       case CheckingEntry => !s.crawled && (live || s.lost)
       case Leaving(next) => s.crawled || (s.lost && next == ReturnOutcome(LeaseLost))
       case Joining(next, _) => s.crawled || (s.lost && next == ReturnOutcome(LeaseLost))
       case Returned(outcome) => s.crawled || (s.lost && outcome == LeaseLost && s.submissions == 0)
       case _ => s.crawled
  }

  lemma MainKeepsCrawlFits(s: State, p: Params, live: bool)
    requires Invariant(s, p) && CrawlFits(s, live)
    ensures CrawlFits(StepMain(s), live)
  {
  }

  lemma RenewerKeepsCrawlFits(s: State, p: Params, live: bool)
    requires Invariant(s, p) && CrawlFits(s, live)
    ensures CrawlFits(StepRenewer(s, p), live)
  {
  }

  lemma StepKeepsCrawlFits(s: State, a: Action, p: Params, live: bool)
    requires Invariant(s, p) && CrawlFits(s, live)
    ensures CrawlFits(Step(s, a, p), live)
  {
    match a {
      case MainStep => MainKeepsCrawlFits(s, p, live);
      case RenewerStep => RenewerKeepsCrawlFits(s, p, live);
      case _ =>
    }
  }

  lemma {:induction false} RunKeepsCrawlFits(s: State, actions: seq<Action>, p: Params, live: bool)
    requires Invariant(s, p) && CrawlFits(s, live)
    ensures CrawlFits(Run(s, actions, p), live)
    decreases |actions|
  {
    if actions != [] {
      StepKeepsInvariant(s, actions[0], p);
      StepKeepsCrawlFits(s, actions[0], p, live);
      RunKeepsCrawlFits(Step(s, actions[0], p), actions[1..], p, live);
    }
  }

  /** Every run that returns without calling the executor has a reason: it has seen the lease lost,
      reports it, and submits nothing. Every run that calls the executor began under a live lease. */
  lemma UncrawledOnlyWhenLost(now: int, deadline: Option<int>, actions: seq<Action>, p: Params)
    ensures var s := Run(Initial(now, deadline), actions, p);
            && (s.main.Returned? && !s.crawled ==> s.lost && s.main.outcome == LeaseLost && s.submissions == 0)
            && (s.crawled ==> deadline.Some? && deadline.value > now)
  {
    RunKeepsCrawlFits(Initial(now, deadline), actions, p, deadline.Some? && deadline.value > now);
  }

  // ---------------------------------------------------------------------------
  // The window the check leaves open
  // ---------------------------------------------------------------------------

  lemma RunCons(s: State, a: Action, rest: seq<Action>, p: Params)
    ensures Run(s, [a] + rest, p) == Run(Step(s, a, p), rest, p)
  {
    assert ([a] + rest)[1..] == rest;
  }

  /** A run from here learns the loss, and then submits although the lease is marked lost. */
  ghost predicate SubmitsLost(s: State, actions: seq<Action>, p: Params) {
    var before := Run(s, actions, p);
    before.lost && before.submissions == 0 && StepMain(before).submissions == 1
  }

  /** The renewer's thread can still mark the lease lost: it is alive, and its wait has not been
      broken by the stop flag. */
  predicate CanStillLearn(s: State) {
    s.renewer !in {NotStarted, Stopped} && !StoppedIn(s.renewer, s.stop)
  }

  /** The main thread has a finished crawl, has made its last check, and has not submitted yet: it is on
      its way to stop the renewer, or waits for it. */
  predicate AboutToSubmit(m: Main) { (m.Leaving? || m.Joining?) && m.next == SubmitResult }

  /** Past the last check, the lease is not lost, and the renewer's thread cannot mark it any more. */
  predicate NothingToLearn(s: State) {
    && (AboutToSubmit(s.main) || s.main.Submitting? || s.main.Returned?)
    && !s.lost && !CanStillLearn(s) && (s.stop.Some? || s.main.Leaving?)
  }

  lemma MainLearnsNothing(s: State)
    requires NothingToLearn(s)
    ensures NothingToLearn(StepMain(s))
  {
  }

  lemma StepLearnsNothing(s: State, a: Action, p: Params)
    requires NothingToLearn(s)
    ensures NothingToLearn(Step(s, a, p))
  {
    if a.MainStep? {
      MainLearnsNothing(s);
    }
  }

  lemma {:induction false} NothingLeftToLearn(s: State, actions: seq<Action>, p: Params)
    requires NothingToLearn(s)
    ensures !Run(s, actions, p).lost
    decreases |actions|
  {
    if actions != [] {
      StepLearnsNothing(s, actions[0], p);
      NothingLeftToLearn(Step(s, actions[0], p), actions[1..], p);
    }
  }

  /** A run in which a thread that can still learn the loss does, while the main thread does nothing. */
  lemma LossIsLearnt(s: State, p: Params) returns (actions: seq<Action>)
    requires Invariant(s, p) && AboutToSubmit(s.main) && !s.lost && CanStillLearn(s)
    ensures var after := Run(s, actions, p);
            after.lost && after.renewer == Stopped && after.main == s.main && after.submissions == s.submissions
    decreases match s.renewer case Waiting(_) => 3 case Renewing => 2 case AtLoopTop => 2 case _ => 1
  {
    match s.renewer {
      case Waiting(wakeAt) =>
        var wait := Tick(Max(0, wakeAt - s.now));
        var late := Step(s, wait, p);
        StepKeepsInvariant(s, wait, p);
        StepKeepsInvariant(late, WakeByTimeout, p);
        var rest := LossIsLearnt(Step(late, WakeByTimeout, p), p);
        actions := [wait] + ([WakeByTimeout] + rest);
        RunCons(s, wait, [WakeByTimeout] + rest, p);
        RunCons(late, WakeByTimeout, rest, p);
      case Renewing =>
        StepKeepsInvariant(s, RenewAnswered(ClaimRejected), p);
        var rest := LossIsLearnt(Step(s, RenewAnswered(ClaimRejected), p), p);
        actions := [RenewAnswered(ClaimRejected)] + rest;
        RunCons(s, RenewAnswered(ClaimRejected), rest, p);
      case AtLoopTop =>
        var late := Tick(Max(0, s.deadline.value - s.now));
        var later := Step(s, late, p);
        StepKeepsInvariant(s, late, p);
        StepKeepsInvariant(later, RenewerStep, p);
        var rest := LossIsLearnt(Step(later, RenewerStep, p), p);
        actions := [late] + ([RenewerStep] + rest);
        RunCons(s, late, [RenewerStep] + rest, p);
        RunCons(later, RenewerStep, rest, p);
      case Marking(_) =>
        actions := MarkingEnds(s, p);
    }
  }

  lemma MarkingEnds(s: State, p: Params) returns (actions: seq<Action>)
    requires Invariant(s, p) && s.renewer.Marking?
    ensures var after := Run(s, actions, p);
            after.lost && after.renewer == Stopped && after.main == s.main && after.submissions == s.submissions
  {
    actions := [RenewerStep] + ([RenewerStep] + ([RenewerStep] + []));
    var s1 := Step(s, RenewerStep, p);
    var s2 := Step(s1, RenewerStep, p);
    RunCons(s, RenewerStep, [RenewerStep] + ([RenewerStep] + []), p);
    RunCons(s1, RenewerStep, [RenewerStep] + [], p);
    RunCons(s2, RenewerStep, [], p);
  }

  /** After that, the main thread submits all the same. */
  lemma SubmitsAfterLoss(s: State, learn: seq<Action>, p: Params) returns (actions: seq<Action>)
    requires AboutToSubmit(s.main) && s.submissions == 0
    requires var after := Run(s, learn, p);
             after.lost && after.renewer == Stopped && after.main == s.main && after.submissions == 0
    ensures SubmitsLost(s, actions, p)
  {
    if s.main.Joining? {
      actions := learn;
    } else {
      actions := learn + [MainStep];
      RunJoin(s, learn, [MainStep], p);
      RunCons(Run(s, learn, p), MainStep, [], p);
      assert [MainStep] + [] == [MainStep];
    }
  }

  /** Seeing the loss is not the same as the loss. From every reachable state in which the main thread
      has a finished crawl, has passed its last check and has not submitted yet, a result can be
      submitted although the lease is marked lost exactly when the renewer's thread can still learn the
      loss. */
  lemma SubmissionCanFollowLossExactly(s: State, p: Params)
    requires Invariant(s, p) && AboutToSubmit(s.main) && !s.lost
    ensures (exists actions :: SubmitsLost(s, actions, p)) <==> CanStillLearn(s)
  {
    if CanStillLearn(s) {
      var learn := LossIsLearnt(s, p);
      var actions := SubmitsAfterLoss(s, learn, p);
      assert SubmitsLost(s, actions, p);
    } else {
      forall actions
        ensures !SubmitsLost(s, actions, p)
      {
        NothingLeftToLearn(s, actions, p);
      }
    }
  }

  /** Three stages of a run: the crawl begins, the renewer sends a renewal while it ends, and the
      main thread makes its check and waits. */
  function CrawlBegins(p: Params): State {
    Initial(0, Some(p.interval + 1)).(main := Executing, crawled := true, renewer := Waiting(p.interval))
  }

  function RenewalIsSent(p: Params): State {
    CrawlBegins(p).(now := p.interval, main := Checking(true), renewer := Renewing,
                    renewals := [Renewal(p.interval, p.interval + 1)])
  }

  function MainWaits(p: Params): State {
    RenewalIsSent(p).(main := Joining(SubmitResult, p.interval + JOIN_TIMEOUT), stop := Some(p.interval))
  }

  lemma ReachesCrawl(p: Params, rest: seq<Action>)
    ensures Run(Initial(0, Some(p.interval + 1)), [MainStep, MainStep, RenewerStep] + rest, p)
            == Run(CrawlBegins(p), rest, p)
  {
    FirstThree(Initial(0, Some(p.interval + 1)), [MainStep, MainStep, RenewerStep] + rest, p);
  }

  lemma ReachesRenewal(p: Params, rest: seq<Action>)
    ensures Run(CrawlBegins(p), [Tick(p.interval), WakeByTimeout, Executed(true)] + rest, p)
            == Run(RenewalIsSent(p), rest, p)
  {
    var actions := [Tick(p.interval), WakeByTimeout, Executed(true)] + rest;
    FirstThree(CrawlBegins(p), actions, p);
    assert actions[3..] == rest;
    var woken := Step(Step(CrawlBegins(p), actions[0], p), actions[1], p);
    assert woken.renewals == [Renewal(p.interval, p.interval + 1)];
    assert Step(woken, actions[2], p) == RenewalIsSent(p);
  }

  /** Such a state is reached from the start of a claim with a live lease: the wait of the renewer
      runs out and it sends a renewal, while the crawl ends and the main thread makes its check. */
  lemma WindowIsReachable(p: Params) returns (actions: seq<Action>)
    ensures var s := Run(Initial(0, Some(p.interval + 1)), actions, p);
            Invariant(s, p) && AboutToSubmit(s.main) && !s.lost && CanStillLearn(s)
  {
    var last := [MainStep] + ([MainStep] + []);
    actions := [MainStep, MainStep, RenewerStep] + ([Tick(p.interval), WakeByTimeout, Executed(true)] + last);
    RunKeepsInvariant(Initial(0, Some(p.interval + 1)), actions, p);
    ReachesCrawl(p, [Tick(p.interval), WakeByTimeout, Executed(true)] + last);
    ReachesRenewal(p, last);
    RunCons(RenewalIsSent(p), MainStep, [MainStep] + [], p);
    RunCons(Step(RenewalIsSent(p), MainStep, p), MainStep, [], p);
    assert Run(RenewalIsSent(p), last, p) == MainWaits(p);
  }

  lemma {:induction false} RunJoin(s: State, first: seq<Action>, rest: seq<Action>, p: Params)
    ensures Run(s, first + rest, p) == Run(Run(s, first, p), rest, p)
    decreases |first|
  {
    if first == [] {
      assert first + rest == rest;
    } else {
      assert (first + rest)[1..] == first[1..] + rest;
      RunJoin(Step(s, first[0], p), first[1..], rest, p);
    }
  }

  /** So for every renewal interval some run from the start of a claim submits a result although its
      lease is marked lost. */
  lemma SubmissionCanFollowLoss(p: Params) returns (actions: seq<Action>)
    ensures SubmitsLost(Initial(0, Some(p.interval + 1)), actions, p)
  {
    var start := Initial(0, Some(p.interval + 1));
    var before := WindowIsReachable(p);
    SubmissionCanFollowLossExactly(Run(start, before, p), p);
    var after :| SubmitsLost(Run(start, before, p), after, p);
    actions := before + after;
    RunJoin(start, before, after, p);
  }

  lemma FirstThree(s: State, actions: seq<Action>, p: Params)
    requires |actions| >= 3
    ensures Run(s, actions, p) == Run(Step(Step(Step(s, actions[0], p), actions[1], p), actions[2], p), actions[3..], p)
  {
    assert actions[1..][1..] == actions[2..] && actions[2..][1..] == actions[3..];
    assert Run(s, actions, p) == Run(Step(s, actions[0], p), actions[1..], p);
    assert Run(Step(s, actions[0], p), actions[1..], p)
           == Run(Step(Step(s, actions[0], p), actions[1], p), actions[2..], p);
  }

  // ---------------------------------------------------------------------------
  // The loop around it
  // ---------------------------------------------------------------------------

  /** What one round of the agent ends in: an outcome word, a refusal that no retry can help, or
      a transport error. */
  datatype Word = WordIdle | WordLeaseLost | WordCrawlFailed | WordApplied | WordStopped | WordTransportError
  datatype Round = Finished(word: Word) | Refused | TransportError

  function WordOf(round: Round): Word {
    match round
    case Finished(word) => word
    case Refused => WordStopped
    case TransportError => WordTransportError
  }

  /** How many of the rounds ended in a word. */
  function Tally(rounds: seq<Round>, word: Word): nat {
    if rounds == [] then 0
    else Tally(rounds[..|rounds| - 1], word) + if WordOf(rounds[|rounds| - 1]) == word then 1 else 0
  }

  /** The loop ends at the cap, at the first refusal, or with the process (`rounds` running out).
      The counts are exactly the tally of the rounds that were run. */
  method RunLoop(rounds: seq<Round>, maxIterations: Option<int>) returns (counts: map<Word, nat>, iterations: nat)
    ensures iterations <= |rounds|
    ensures forall k :: 0 <= k < iterations - 1 ==> rounds[k] != Refused
    ensures maxIterations.Some? ==> iterations <= Max(0, maxIterations.value)
    ensures iterations == |rounds| || (iterations > 0 && rounds[iterations - 1] == Refused)
            || (maxIterations.Some? && iterations >= maxIterations.value)
    ensures forall w :: (if w in counts then counts[w] else 0) == Tally(rounds[..iterations], w)
  {
    counts := map[];
    iterations := 0;
    while (maxIterations.None? || iterations < maxIterations.value) && iterations < |rounds|
      invariant iterations <= |rounds|
      invariant maxIterations.Some? ==> iterations <= Max(0, maxIterations.value)
      invariant forall k :: 0 <= k < iterations ==> rounds[k] != Refused
      invariant forall w :: (if w in counts then counts[w] else 0) == Tally(rounds[..iterations], w)
    {
      var round := rounds[iterations];
      iterations := iterations + 1;
      assert rounds[..iterations][..iterations - 1] == rounds[..iterations - 1];
      var word := WordOf(round);
      counts := counts[word := (if word in counts then counts[word] else 0) + 1];
      if round == Refused {
        return;
      }
    }
  }
}
