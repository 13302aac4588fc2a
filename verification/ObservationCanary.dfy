/** The identifier-free browser observation of scripts/diagnose_search_rows.py and the
    receipt it always writes. */
module ObservationCanary {
  import opened Text
  import opened PyValue
  import opened Receipts
  import opened RuntimeEvidence
  import opened Failures
  import opened Pagination

  /** How far the session got before the first page is parsed. */
  datatype Setup =
    | SettingsFailed | ProfileLocked | StartFailed | NavigationFailed | SearchRaised | NoResults
    | SetupKilled(started: bool) | Ready

  /** One results page: parsing may raise; `invitation` tells whether the page has an
      eligible row of the invitation stage, `cut` whether the process is interrupted after the
      outcome of the advance has been noted. */
  datatype PageAnswers = PageAnswers(parse: Option<Exn>, invitation: bool, advance: AdvanceAnswers, cut: bool)

  function OutcomeText(o: Outcome): Value {
    match o
    case NextControlAbsent => JWord(Word.NextControlAbsent)
    case NextControlDisabled => JWord(Word.NextControlDisabled)
    case MaxPagesReached => JWord(Word.MaxPagesReached)
    case NextControlHidden => JStr("next_control_hidden")
    case NextClickFailed => JStr("next_click_failed")
    case PageChangeTimeout => JStr("page_change_timeout")
    case UnexpectedNoResults => JStr("unexpected_no_results")
    case SiteError => JStr("site_error")
    case KeywordNoResults => JStr("keyword_no_results")
    case Advanced => JStr("advanced")
  }

  function PageValues(pages: seq<int>): Value {
    JList(seq(|pages|, i requires 0 <= i < |pages| => JInt(pages[i])))
  }

  /** What one observation leaves for its receipt. `interrupted`: the process was interrupted
      before the scan returned. */
  datatype Sighting = Sighting(
    browserStarted: bool,
    eligiblePage: Option<int>,
    pages: seq<int>,
    terminal: Option<Outcome>,
    failed: bool,
    interrupted: bool)

  function ChecksOf(o: Sighting, keyword: string): Value {
    JObj(map[
      Key.BrowserStarted := JBool(o.browserStarted),
      Key.EligibleInvitationPage := if o.eligiblePage.Some? then JInt(o.eligiblePage.value) else JNull,
      Key.KeywordExact := JBool(keyword == Strip(keyword)),
      Key.MaxPagesPerKeyword := JInt(OBSERVATION_MAX_PAGES),
      Key.PageSequence := PageValues(o.pages),
      Key.PersistenceDisabled := JBool(true),
      Key.SharedParser := JBool(o.pages != []),
      Key.TerminalOutcome := if o.terminal.Some? then OutcomeText(o.terminal.value) else JNull
    ])
  }

  /** The scan a successful observation stands for. */
  ghost predicate CompleteScan(o: Sighting) {
    && o.browserStarted
    && |o.pages| >= 5 && (forall k :: 0 <= k < |o.pages| ==> o.pages[k] == k + 1)
    && o.eligiblePage.Some? && 2 <= o.eligiblePage.value <= |o.pages|
    && o.terminal.Some? && IsTerminal(o.terminal.value)
    && (o.terminal.value == Outcome.MaxPagesReached ==> |o.pages| == OBSERVATION_MAX_PAGES)
  }

  ghost predicate Contiguous(pages: seq<int>) {
    forall k :: 0 <= k < |pages| ==> pages[k] == k + 1
  }

  datatype Stop = Ended | Threw | Cut

  /** The pages of an observation from some page on, the first later page with an invitation, the
      outcome of the pagination if there was one, and why it stopped. */
  datatype Walk = Walk(pages: seq<int>, eligible: Option<int>, terminal: Option<Outcome>, stop: Stop)

  function StopOf(e: Exn): Stop { if e == Killed then Cut else Threw }

  function Before(pages: seq<int>, eligible: Option<int>, rest: Walk): Walk {
    rest.(pages := pages + rest.pages, eligible := if eligible.Some? then eligible else rest.eligible)
  }

  /** Running out of answers is an interrupt. */
  function WalkFrom(page: int, answers: seq<PageAnswers>, cap: int): Walk
    decreases |answers|
  {
    if page > cap then Walk([], None, None, Ended)
    else if answers == [] then Walk([], None, None, Cut)
    else if answers[0].parse.Some? then Walk([], None, None, StopOf(answers[0].parse.value))
    else
      var own := if page >= 2 && answers[0].invitation then Some(page) else None;
      var step := AdvanceResultsPage(page, cap, answers[0].advance);
      var stop := StepStop(step, answers[0].cut);
      Before([page], own,
             if stop.Some? then Walk([], None, StepOutcome(step, answers[0].cut), stop.value)
             else WalkFrom(step.nextPage, answers[1..], cap))
  }

  /** The checks on a walk that came to an end. */
  predicate Succeeds(w: Walk) {
    && w.terminal.Some? && IsTerminal(w.terminal.value)
    && w.pages != []
    && (w.terminal.value == Outcome.MaxPagesReached ==> w.pages[|w.pages| - 1] == OBSERVATION_MAX_PAGES)
    && w.pages[|w.pages| - 1] >= 5
    && w.eligible.Some?
  }

  function SightingOfWalk(w: Walk): Sighting {
    Sighting(true, w.eligible, w.pages, w.terminal, w.stop.Threw? || (w.stop.Ended? && !Succeeds(w)), w.stop.Cut?)
  }

  function SightingOf(setup: Setup, answers: seq<PageAnswers>, cap: int): Sighting {
    match setup
    case Ready => SightingOfWalk(WalkFrom(1, answers, cap))
    case SetupKilled(started) => Sighting(started, None, [], None, false, true)
    case _ => Sighting(setup in {NavigationFailed, SearchRaised, NoResults}, None, [], None, true, false)
  }

  lemma WalkJoins(pages: seq<int>, eligible: Option<int>, page: int, own: Option<int>, rest: Walk)
    ensures Before(pages, eligible, Before([page], own, rest))
            == Before(pages + [page], if eligible.Some? then eligible else own, rest)
  {
    assert pages + ([page] + rest.pages) == pages + [page] + rest.pages;
  }

  /** What is still to come of a walk. */
  function RestOf(stop: Option<Stop>, terminal: Option<Outcome>, page: int, answers: seq<PageAnswers>, cap: int): Walk {
    if stop.Some? then Walk([], None, terminal, stop.value) else WalkFrom(page, answers, cap)
  }

  /** The outcome that stays noted after an advance: none when the scan goes on. */
  function StepOutcome(step: Advance, cut: bool): Option<Outcome> {
    if step.Advance? && (step.outcome != Advanced || cut) then Some(step.outcome) else None
  }

  function StepStop(step: Advance, cut: bool): Option<Stop> {
    match step
    case Raised(exn) => Some(StopOf(exn))
    case Advance(outcome, _) => if cut then Some(Cut) else if outcome == Advanced then None else Some(Ended)
  }

  /** The observation itself. */
  method Observe(setup: Setup, answers: seq<PageAnswers>, cap: int) returns (o: Sighting)
    ensures o == SightingOf(setup, answers, cap)
  {
    if setup.SetupKilled? {
      return Sighting(setup.started, None, [], None, false, true);
    }
    if setup != Setup.Ready {
      return Sighting(setup in {NavigationFailed, SearchRaised, NoResults}, None, [], None, true, false);
    }
    var page, todo := 1, answers;
    var pages: seq<int>, eligible: Option<int>, terminal: Option<Outcome>, stop: Option<Stop> := [], None, None, None;
    ghost var whole := WalkFrom(1, answers, cap);
    while stop.None? && page <= cap
      invariant whole == Before(pages, eligible, RestOf(stop, terminal, page, todo, cap))
      invariant stop.None? ==> terminal.None?
      decreases |todo|, stop.None?
    {
      if todo == [] {
        stop := Some(Cut);
      } else if todo[0].parse.Some? {
        stop := Some(StopOf(todo[0].parse.value));
      } else {
        var own := if page >= 2 && todo[0].invitation then Some(page) else None;
        var step := AdvanceResultsPage(page, cap, todo[0].advance);
        var cut := todo[0].cut;
        ghost var next := if step.Advance? then step.nextPage else page;
        WalkJoins(pages, eligible, page, own,
                  RestOf(StepStop(step, cut), StepOutcome(step, cut), next, todo[1..], cap));
        pages := pages + [page];
        if own.Some? && eligible.None? {
          eligible := own;
        }
        terminal, stop := StepOutcome(step, cut), StepStop(step, cut);
        if step.Advance? {
          page := step.nextPage;
        }
        todo := todo[1..];
      }
    }
    o := SightingOfWalk(Walk(pages, eligible, terminal, if stop.Some? then stop.value else Ended));
  }

  /** Every walk visits consecutive pages; the invitation page is one of them after the first; an
      outcome is noted only on the last page, the cap only at the cap, and never by a walk that
      threw. */
  lemma {:induction false} WalkMeaning(page: int, answers: seq<PageAnswers>, cap: int)
    ensures var w := WalkFrom(page, answers, cap);
            && (forall k :: 0 <= k < |w.pages| ==> w.pages[k] == page + k)
            && (w.eligible.Some? ==> 2 <= w.eligible.value && page <= w.eligible.value < page + |w.pages|)
            && (w.terminal.Some? ==> !w.stop.Threw? && w.pages != [])
            && (w.terminal == Some(Outcome.MaxPagesReached) ==> page + |w.pages| - 1 >= cap)
    decreases |answers|
  {
    if page <= cap && answers != [] && answers[0].parse.None? {
      var step := AdvanceResultsPage(page, cap, answers[0].advance);
      if step.Advance? {
        AdvanceFacts(page, cap, answers[0].advance);
        if step.outcome == Advanced && !answers[0].cut {
          WalkMeaning(page + 1, answers[1..], cap);
        }
      }
    }
  }

  /** In every run: the pages are 1, 2, 3, ..., the invitation page is one of them; and a sighting
      that was not interrupted is not failed exactly when it is a complete scan. An interrupt never
      counts as a failure, whether or not an outcome had been noted. */
  lemma SightingMeaning(setup: Setup, answers: seq<PageAnswers>, cap: int)
    ensures var o := SightingOf(setup, answers, cap);
            && Contiguous(o.pages)
            && (o.eligiblePage.Some? ==> 2 <= o.eligiblePage.value <= |o.pages|)
            && (!o.interrupted ==> (!o.failed <==> CompleteScan(o)))
            && (o.interrupted ==> !o.failed)
            && (o.pages != [] ==> o.browserStarted)
  {
    WalkMeaning(1, answers, cap);
  }

  /** The observation and its receipt. The receipt is accepted when no error was noted. It is a valid
      stage exactly when it is accepted, for a trimmed keyword and an exact digest, and the run was not
      interrupted, or only after its scan had ended well. */
  method RunObservationCanary(setup: Setup, answers: seq<PageAnswers>, cap: int, keyword: string, fingerprint: string,
                              release: string, closesCleanly: bool, now: int, c: Clock)
    returns (o: Sighting, receipt: Value)
    ensures o == SightingOf(setup, answers, cap)
    ensures Get(receipt, Key.Status) == JWord(Word.Accepted) <==> !o.failed && closesCleanly
    ensures ObservationContent(receipt) <==>
              && keyword == Strip(keyword) && IsDigest(JStr(fingerprint))
              && !o.failed && closesCleanly && (!o.interrupted || HarmlesslyCut(setup, answers, cap))
  {
    o := Observe(setup, answers, cap);
    receipt := ObservationReceipt(o, keyword, fingerprint, release, !o.failed && closesCleanly, now, c);
    ReceiptIsValidExactly(setup, answers, cap, keyword, fingerprint, release, !o.failed && closesCleanly, now, c);
  }

  /** A valid stage is accepted, for a trimmed keyword and an exact digest. */
  lemma ValidIsAccepted(o: Sighting, keyword: string, fingerprint: string, release: string, accepted: bool, now: int,
                        c: Clock)
    requires ObservationContent(ObservationReceipt(o, keyword, fingerprint, release, accepted, now, c))
    ensures accepted && keyword == Strip(keyword) && IsDigest(JStr(fingerprint))
  {
    var receipt := ObservationReceipt(o, keyword, fingerprint, release, accepted, now, c);
    assert Get(receipt, Key.Status) == StatusWord(accepted);
    assert Get(Get(receipt, Key.Checks), Key.KeywordExact) == JBool(keyword == Strip(keyword));
  }

  lemma ReceiptIsValidExactly(setup: Setup, answers: seq<PageAnswers>, cap: int, keyword: string, fingerprint: string,
                              release: string, accepted: bool, now: int, c: Clock)
    requires accepted ==> !SightingOf(setup, answers, cap).failed
    ensures var o := SightingOf(setup, answers, cap);
            ObservationContent(ObservationReceipt(o, keyword, fingerprint, release, accepted, now, c)) <==>
              && keyword == Strip(keyword) && IsDigest(JStr(fingerprint))
              && accepted && (!o.interrupted || HarmlesslyCut(setup, answers, cap))
  {
    var o := SightingOf(setup, answers, cap);
    if ObservationContent(ObservationReceipt(o, keyword, fingerprint, release, accepted, now, c)) {
      ValidIsAccepted(o, keyword, fingerprint, release, accepted, now, c);
    }
    if accepted && keyword == Strip(keyword) && IsDigest(JStr(fingerprint)) {
      AcceptedReceiptIsValidExactly(setup, answers, cap, keyword, fingerprint, release, now, c);
    }
  }

  function ObservationReceipt(o: Sighting, keyword: string, fingerprint: string, release: string,
                              accepted: bool, now: int, c: Clock): Value {
    JObj(map[
      Key.SchemaVersion := JInt(1),
      Key.Stage := JWord(Word.Observation),
      Key.Status := StatusWord(accepted),
      Key.ReleaseSha := JStr(release),
      Key.ObservedAt := JStr(c.render(now)),
      Key.Checks := ChecksOf(o, keyword),
      Key.Errors := JList(if accepted then [] else [JStr("error")]),
      Key.TargetFingerprint := JStr(fingerprint)
    ])
  }

  lemma PagesAsValues(pages: seq<int>)
    requires Contiguous(pages)
    ensures PageValues(pages).items == PagesUpTo(|pages|)
  {
  }

  /** A complete scan for a trimmed keyword and an exact digest makes a valid stage. */
  lemma CompleteScanIsValid(o: Sighting, keyword: string, fingerprint: string, release: string, now: int, c: Clock)
    requires CompleteScan(o) && keyword == Strip(keyword) && IsDigest(JStr(fingerprint))
    ensures ObservationContent(ObservationReceipt(o, keyword, fingerprint, release, true, now, c))
  {
    var receipt := ObservationReceipt(o, keyword, fingerprint, release, true, now, c);
    assert receipt.fields.Keys == FINGERPRINTED_KEYS;
    PagesAsValues(o.pages);
    CompleteChecks(o, keyword, ChecksOf(o, keyword));
  }

  lemma CompleteChecks(o: Sighting, keyword: string, checks: Value)
    requires CompleteScan(o) && keyword == Strip(keyword) && checks == ChecksOf(o, keyword)
    ensures ObservationChecksValid(checks)
  {
    assert checks.fields.Keys == OBSERVATION_CHECKS;
    PagesAsValues(o.pages);
    assert PagesInOrder(Get(checks, Key.PageSequence));
    assert Get(checks, Key.PageSequence).items[|o.pages| - 1] == JInt(|o.pages|);
  }

  /** A valid stage stands for a complete scan. */
  lemma ValidIsComplete(o: Sighting, keyword: string, fingerprint: string, release: string, now: int, c: Clock)
    requires ObservationContent(ObservationReceipt(o, keyword, fingerprint, release, true, now, c))
    requires Contiguous(o.pages) && (o.eligiblePage.Some? ==> o.eligiblePage.value <= |o.pages|)
    ensures CompleteScan(o)
  {
    var checks := Get(ObservationReceipt(o, keyword, fingerprint, release, true, now, c), Key.Checks);
    assert checks == ChecksOf(o, keyword);
    ValidChecksAreComplete(o, keyword, checks);
  }

  lemma ValidChecksAreComplete(o: Sighting, keyword: string, checks: Value)
    requires checks == ChecksOf(o, keyword) && ObservationChecksValid(checks)
    requires Contiguous(o.pages) && (o.eligiblePage.Some? ==> o.eligiblePage.value <= |o.pages|)
    ensures CompleteScan(o)
  {
    var pages := Get(checks, Key.PageSequence);
    assert pages == PageValues(o.pages) && PagesInOrder(pages);
    assert pages.items[|o.pages| - 1] == JInt(o.pages[|o.pages| - 1]);
    assert Get(checks, Key.BrowserStarted) == JBool(o.browserStarted);
    assert Get(checks, Key.EligibleInvitationPage)
           == if o.eligiblePage.Some? then JInt(o.eligiblePage.value) else JNull;
    assert Get(checks, Key.TerminalOutcome) == if o.terminal.Some? then OutcomeText(o.terminal.value) else JNull;
  }

  // ---------------------------------------------------------------------------
  // Interrupts that do no harm
  // ---------------------------------------------------------------------------

  /** A page that is parsed and left for the next one. */
  predicate GoesOn(page: int, a: PageAnswers, cap: int) {
    a.parse.None? && !a.cut && AdvanceResultsPage(page, cap, a.advance) == Advance(Advanced, page + 1)
  }

  /** A page that is parsed and ends the scan, and the interrupt comes after that. */
  predicate CutAtEnd(page: int, a: PageAnswers, cap: int) {
    && a.parse.None? && a.cut
    && AdvanceResultsPage(page, cap, a.advance).Advance? && IsTerminal(AdvanceResultsPage(page, cap, a.advance).outcome)
  }

  /** From some page on, n pages are left for the next one, and the one after them ends the scan. */
  ghost predicate CutAfter(page: int, answers: seq<PageAnswers>, cap: int, n: nat) {
    && n < |answers| && page + n <= cap
    && (forall k :: 0 <= k < n ==> GoesOn(page + k, answers[k], cap))
    && CutAtEnd(page + n, answers[n], cap)
  }

  /** A later page within the first n + 1 answers has an invitation. */
  ghost predicate Invites(page: int, answers: seq<PageAnswers>, n: nat)
    requires n < |answers|
  {
    exists k :: 0 <= k <= n && page + k >= 2 && answers[k].invitation
  }

  lemma InvitesStep(page: int, answers: seq<PageAnswers>, n: nat)
    requires 0 < n < |answers|
    ensures Invites(page, answers, n) <==>
              (page >= 2 && answers[0].invitation) || Invites(page + 1, answers[1..], n - 1)
  {
    var rest := answers[1..];
    if Invites(page, answers, n) {
      var k :| 0 <= k <= n && page + k >= 2 && answers[k].invitation;
      assert k > 0 ==> rest[k - 1].invitation;
    }
    if Invites(page + 1, rest, n - 1) {
      var k :| 0 <= k <= n - 1 && page + 1 + k >= 2 && rest[k].invitation;
      assert answers[k + 1].invitation;
    }
  }

  lemma CutAfterStep(page: int, answers: seq<PageAnswers>, cap: int, n: nat)
    requires 0 < n < |answers|
    ensures CutAfter(page, answers, cap, n) <==>
              GoesOn(page, answers[0], cap) && CutAfter(page + 1, answers[1..], cap, n - 1)
  {
    var rest := answers[1..];
    assert forall k :: 0 <= k < n ==> rest[k] == answers[k + 1];
    if CutAfter(page, answers, cap, n) {
      forall k | 0 <= k < n - 1
        ensures GoesOn(page + 1 + k, rest[k], cap)
      {
        assert GoesOn(page + (k + 1), answers[k + 1], cap);
      }
    }
    if GoesOn(page, answers[0], cap) && CutAfter(page + 1, rest, cap, n - 1) {
      forall k | 0 <= k < n
        ensures GoesOn(page + k, answers[k], cap)
      {
        assert k > 0 ==> GoesOn(page + 1 + (k - 1), rest[k - 1], cap);
      }
    }
  }

  /** Such answers make a walk that was cut after n + 1 pages with the outcome noted. */
  lemma {:induction false} CutWalk(page: int, answers: seq<PageAnswers>, cap: int, n: nat)
    requires CutAfter(page, answers, cap, n)
    ensures var w := WalkFrom(page, answers, cap);
            && w.stop.Cut? && |w.pages| == n + 1
            && w.terminal == Some(AdvanceResultsPage(page + n, cap, answers[n].advance).outcome)
            && (w.eligible.Some? <==> Invites(page, answers, n))
    decreases n
  {
    if n > 0 {
      assert GoesOn(page + 0, answers[0], cap);
      CutAfterStep(page, answers, cap, n);
      CutWalk(page + 1, answers[1..], cap, n - 1);
      InvitesStep(page, answers, n);
    }
  }

  /** And no other answers do. */
  lemma {:induction false} OnlyCutWalks(page: int, answers: seq<PageAnswers>, cap: int)
    requires var w := WalkFrom(page, answers, cap); w.stop.Cut? && w.terminal.Some? && IsTerminal(w.terminal.value)
    ensures var w := WalkFrom(page, answers, cap); w.pages != [] && CutAfter(page, answers, cap, |w.pages| - 1)
    decreases |answers|
  {
    var step := AdvanceResultsPage(page, cap, answers[0].advance);
    if !CutAtEnd(page, answers[0], cap) {
      AdvanceFacts(page, cap, answers[0].advance);
      OnlyCutWalks(page + 1, answers[1..], cap);
      CutAfterStep(page, answers, cap, |WalkFrom(page, answers, cap).pages| - 1);
    }
  }

  /** The interrupt came after the scan had ended on a page from the fifth on, with an invitation on a
      later page, and on the page of the observation's cap if it ended there. */
  ghost predicate CutLate(answers: seq<PageAnswers>, cap: int, n: nat) {
    && CutAfter(1, answers, cap, n) && n >= 4 && Invites(1, answers, n)
    && (AdvanceResultsPage(1 + n, cap, answers[n].advance).outcome == Outcome.MaxPagesReached ==>
          n + 1 == OBSERVATION_MAX_PAGES)
  }

  ghost predicate HarmlesslyCut(setup: Setup, answers: seq<PageAnswers>, cap: int) {
    setup.Ready? && exists n: nat :: CutLate(answers, cap, n)
  }

  lemma LateCutIsComplete(answers: seq<PageAnswers>, cap: int, n: nat)
    requires CutLate(answers, cap, n)
    ensures var o := SightingOf(Setup.Ready, answers, cap); o.interrupted && CompleteScan(o)
  {
    CutWalk(1, answers, cap, n);
    WalkMeaning(1, answers, cap);
  }

  lemma CompleteIsCutLate(answers: seq<PageAnswers>, cap: int)
    requires var o := SightingOf(Setup.Ready, answers, cap); o.interrupted && CompleteScan(o)
    ensures CutLate(answers, cap, |WalkFrom(1, answers, cap).pages| - 1)
  {
    OnlyCutWalks(1, answers, cap);
    CutWalk(1, answers, cap, |WalkFrom(1, answers, cap).pages| - 1);
  }

  /** For every run: an interrupt leaves a complete scan behind exactly when the answers say that it came
      after such an end. */
  lemma HarmlessExactly(setup: Setup, answers: seq<PageAnswers>, cap: int)
    ensures var o := SightingOf(setup, answers, cap);
            o.interrupted && CompleteScan(o) <==> HarmlesslyCut(setup, answers, cap)
  {
    var o := SightingOf(setup, answers, cap);
    if o.interrupted && CompleteScan(o) {
      CompleteIsCutLate(answers, cap);
    }
    if HarmlesslyCut(setup, answers, cap) {
      var n: nat :| CutLate(answers, cap, n);
      LateCutIsComplete(answers, cap, n);
    }
  }

  /** The receipt that a run without a noted error leaves is a valid stage, for a trimmed keyword and an
      exact digest, exactly when the run was not interrupted, or only after its scan had ended well. */
  lemma AcceptedReceiptIsValidExactly(setup: Setup, answers: seq<PageAnswers>, cap: int, keyword: string,
                                      fingerprint: string, release: string, now: int, c: Clock)
    requires keyword == Strip(keyword) && IsDigest(JStr(fingerprint)) && !SightingOf(setup, answers, cap).failed
    ensures var o := SightingOf(setup, answers, cap);
            ObservationContent(ObservationReceipt(o, keyword, fingerprint, release, true, now, c)) <==>
            !o.interrupted || HarmlesslyCut(setup, answers, cap)
  {
    var o := SightingOf(setup, answers, cap);
    SightingMeaning(setup, answers, cap);
    HarmlessExactly(setup, answers, cap);
    if CompleteScan(o) {
      CompleteScanIsValid(o, keyword, fingerprint, release, now, c);
    } else if ObservationContent(ObservationReceipt(o, keyword, fingerprint, release, true, now, c)) {
      ValidIsComplete(o, keyword, fingerprint, release, now, c);
    }
  }

  /** A run that is interrupted before its first page is parsed leaves an accepted receipt that is no
      valid stage. */
  lemma InterruptedReceiptIsInvalid(cap: int, keyword: string, fingerprint: string, release: string, now: int, c: Clock)
    requires cap >= 1 && keyword == Strip(keyword) && IsDigest(JStr(fingerprint))
    ensures var o := SightingOf(Setup.Ready, [], cap);
            && !o.failed && o.interrupted
            && !ObservationContent(ObservationReceipt(o, keyword, fingerprint, release, true, now, c))
  {
    AcceptedReceiptIsValidExactly(Setup.Ready, [], cap, keyword, fingerprint, release, now, c);
  }
}
