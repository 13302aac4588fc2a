/** Two runs of the crawl, step by step: one reads a page under the label of another, and one loses a
    candidate for good. */
module CrawlCases {
  import opened Text
  import opened Failures
  import opened ResultsTable
  import opened Pagination
  import opened RestorePage
  import opened RowBody
  import KeywordScan
  import opened ResultsScan
  import opened ScanTheorems
  import opened Discovery
  import opened CrawlTheorems

  // A site whose pages hold one candidate or none.

  const ROW := ParsedRow(1, "name", "organization", "1", "open", Marker([], [], [], [], [], []), true, None)

  function OneRow(parse: Parse): Look { if parse.Table? then Look([], [ROW]) else Look([], []) }

  const SITE := Settings(9, [], status => true, OneRow, RunRow)

  const WITH_ROW := Table([], [])

  /** The next page comes, or there is none. */
  const GOES_ON := AdvanceAnswers([Control(true, false)], true, false, None, true, false, true, true)
  const NO_MORE := AdvanceAnswers([], false, false, None, false, false, false, false)

  lemma WantedOnce(seen: set<string>)
    ensures KeywordScan.Wanted([ROW], seen)
            == if KeywordScan.RowKey(ROW) in seen then [] else [KeywordScan.RowKey(ROW)]
    ensures KeywordScan.Wanted([], seen) == []
  {
    assert [ROW][..0] == [] && KeywordScan.Wanted([], seen) == [];
  }

  /** The only row of a page, when it is opened. */
  lemma OneRowRun(page: nat, seen: set<string>, a: RowScript)
    ensures var key := KeywordScan.RowKey(ROW);
            var r := RunRow(key, page, seen, a);
            RunRows([key], page, seen, [a], RunRow) == RowsRun([r], Opt(r.kept), r.seen, r.exit)
  {
    var key := KeywordScan.RowKey(ROW);
    var r := RunRow(key, page, seen, a);
    assert [key][1..] == [] && [a][1..] == [];
    assert RestOfRows(r, [], page, [], RunRow) == RowsRun([], [], r.seen, r.exit);
    assert Opt(r.kept) + [] == Opt(r.kept);
  }

  // ---------------------------------------------------------------------------
  // A label that is not the page
  // ---------------------------------------------------------------------------

  function DriftScripts(): seq<PageScript> {
    [PageScript(NoTable, None, [], GOES_ON), PageScript(WITH_ROW, None, [REPORTED_TWICE], GOES_ON),
     PageScript(NoTable, None, [], NO_MORE)]
  }

  function DriftPages(): seq<PageRun> {
    var key := KeywordScan.RowKey(ROW);
    [PageRun(1, [], []), PageRun(2, [key], [RunRow(key, 2, {}, REPORTED_TWICE)]), PageRun(3, [], [])]
  }

  lemma EmptyPage(page: nat, seen: set<string>, advance: AdvanceAnswers)
    ensures RunPage(page, seen, PageScript(NoTable, None, [], advance), SITE)
            == PageEnd([PageRun(page, [], [])], [], seen, AfterRows(page, None, advance, 9))
  {
    WantedOnce(seen);
  }

  lemma DriftingPage()
    ensures var r := RunRow(KeywordScan.RowKey(ROW), 2, {}, REPORTED_TWICE);
            RunPage(2, {}, DriftScripts()[1], SITE)
            == PageEnd([DriftPages()[1]], [], r.seen, None)
  {
    WantedOnce({});
    OneRowRun(2, {}, REPORTED_TWICE);
    BrokenRowDrifts(KeywordScan.RowKey(ROW), 2, {}, 2);
  }

  lemma LastPages(seen: set<string>)
    ensures RunPages(3, seen, DriftScripts()[2..], 9, PageOpenerOf(SITE))
            == ScanRun([DriftPages()[2]], [], seen, Finished(Some(Outcome.NextControlAbsent), 3))
  {
    EmptyPage(3, seen, NO_MORE);
    assert DriftScripts()[2..][0] == PageScript(NoTable, None, [], NO_MORE);
  }

  lemma MiddlePages()
    ensures RunPages(2, {}, DriftScripts()[1..], 9, PageOpenerOf(SITE))
            == ScanRun(DriftPages()[1..], [], RunRow(KeywordScan.RowKey(ROW), 2, {}, REPORTED_TWICE).seen,
                       Finished(Some(Outcome.NextControlAbsent), 3))
  {
    DriftingPage();
    LastPages(RunRow(KeywordScan.RowKey(ROW), 2, {}, REPORTED_TWICE).seen);
    var scripts := DriftScripts();
    assert scripts[1..][0] == scripts[1] && scripts[1..][1..] == scripts[2..];
    assert DriftPages()[1..] == [DriftPages()[1]] + [DriftPages()[2]];
  }

  lemma DriftRun()
    ensures RunScan(1, {}, DriftScripts(), SITE).pages == DriftPages()
    ensures RunScan(1, {}, DriftScripts(), SITE).ending == Finished(Some(Outcome.NextControlAbsent), 3)
  {
    EmptyPage(1, {}, GOES_ON);
    MiddlePages();
    assert DriftPages() == [DriftPages()[0]] + DriftPages()[1..];
  }

  /** A whole scan can read a page under the label of another: after a restore that broke off on page
      2, the scan reads what it calls page 3 while the browser stands on page 2. */
  lemma LabelsCanDrift()
    ensures var r := RunScan(1, {}, DriftScripts(), SITE);
            && r.ending.Finished? && |r.pages| == 3 && r.pages[2].page == 3
            && PlaceAt(r.pages, 1, 2) == 2
  {
    DriftRun();
    var pages, key := DriftPages(), KeywordScan.RowKey(ROW);
    BrokenRowDrifts(key, 2, {}, 2);
    assert PlaceAt(pages, 1, 1) == 2;
    assert StandsAfterRows(pages[1].rows, 2) == StandsAfterRows([], StandsAfter(pages[1].rows[0].events, 2));
  }

  // ---------------------------------------------------------------------------
  // A candidate that is lost
  // ---------------------------------------------------------------------------

  /** A round that finds the first page by a search or a restore, with one page of answers. */
  function RoundOn(page: PageScript): AttemptScript {
    AttemptScript(None, HasResults, RestoreScript(None, Shows(None), [], 0), [page], None)
  }

  /** The browser dies under the only candidate; the next round finds its page again. */
  const DYING := PageScript(WITH_ROW, None, [LOST], NO_MORE)
  const PASSING := PageScript(WITH_ROW, None, [], NO_MORE)

  lemma OnePageScan(seen: set<string>, script: PageScript, p: PageEnd)
    requires RunPage(1, seen, script, SITE) == p && p.ending.Some?
    ensures RunScan(1, seen, [script], SITE) == ScanRun(p.pages, p.kept, p.seen, p.ending.value)
  {
    var open := PageOpenerOf(SITE);
    assert open(1, seen, script) == p;
    assert [script][1..] == [];
    assert Rest(p.ending, 2, p.seen, [], 9, open) == ScanRun([], [], p.seen, p.ending.value);
    assert p.pages + [] == p.pages && p.kept + [] == p.kept;
  }

  lemma OnePageRound(resume: Option<nat>, seen: set<string>, script: PageScript, p: PageEnd)
    requires RunPage(1, seen, script, SITE) == p && p.ending.Some? && (resume.None? || resume == Some(1))
    ensures RunAttempt(0, resume, seen, RoundOn(script), SITE)
            == AttemptEnd(Attempt(0, 1, true, 0, 1, p.pages, p.kept, p.ending.value), p.seen)
  {
    OnePageScan(seen, script, p);
  }

  function LostRow(): RowRun { RunRow(KeywordScan.RowKey(ROW), 1, {}, LOST) }

  lemma DyingPage()
    ensures RunPage(1, {}, DYING, SITE)
            == PageEnd([PageRun(1, [KeywordScan.RowKey(ROW)], [LostRow()])], [], LostRow().seen, Some(Died(1)))
  {
    WantedOnce({});
    OneRowRun(1, {}, LOST);
    StatusCanBeLost(KeywordScan.RowKey(ROW));
    StreamsWhatItKeeps(KeywordScan.RowKey(ROW), 1, {}, LOST);
  }

  lemma PassingPage(seen: set<string>)
    requires KeywordScan.RowKey(ROW) in seen
    ensures RunPage(1, seen, PASSING, SITE)
            == PageEnd([PageRun(1, [], [])], [], seen, Some(Finished(Some(Outcome.NextControlAbsent), 1)))
  {
    WantedOnce(seen);
  }

  function TwoRounds(): seq<AttemptScript> { [RoundOn(DYING), RoundOn(PASSING)] }

  /** The last round of a crawl. */
  lemma LastRound(seen: set<string>, a: AttemptScript)
    requires RunAttempt(0, Some(1), seen, a, SITE).attempt.ending.Finished?
    ensures var r := RunCrawl(0, Some(1), 1, seen, [a], AttemptOpenerOf(SITE));
            r.exit.None? && r.attempts == [RunAttempt(0, Some(1), seen, a, SITE).attempt]
  {
    assert [a][1..] == [];
  }

  /** A crawl of two rounds: the browser dies in the first, the second completes the only keyword. */
  lemma TwoRoundCrawl(seen: set<string>)
    requires RunAttempt(0, None, {}, RoundOn(DYING), SITE).attempt.ending == Died(1)
    requires RunAttempt(0, None, {}, RoundOn(DYING), SITE).seen == seen
    requires RunAttempt(0, Some(1), seen, RoundOn(PASSING), SITE).attempt.ending.Finished?
    ensures var r := CrawlOf(1, TwoRounds(), SITE);
            && r.exit.None? && |r.attempts| == 2
            && r.attempts[0] == RunAttempt(0, None, {}, RoundOn(DYING), SITE).attempt
            && r.attempts[1] == RunAttempt(0, Some(1), seen, RoundOn(PASSING), SITE).attempt
  {
    LastRound(seen, RoundOn(PASSING));
    assert TwoRounds()[1..] == [RoundOn(PASSING)];
  }

  lemma FirstRoundDies()
    ensures RunAttempt(0, None, {}, RoundOn(DYING), SITE)
            == AttemptEnd(Attempt(0, 1, true, 0, 1, [PageRun(1, [KeywordScan.RowKey(ROW)], [LostRow()])], [], Died(1)),
                          LostRow().seen)
  {
    DyingPage();
    OnePageRound(None, {}, DYING, RunPage(1, {}, DYING, SITE));
  }

  lemma SecondRoundPasses(seen: set<string>)
    requires KeywordScan.RowKey(ROW) in seen
    ensures var ending := Finished(Some(Outcome.NextControlAbsent), 1);
            RunAttempt(0, Some(1), seen, RoundOn(PASSING), SITE)
            == AttemptEnd(Attempt(0, 1, true, 0, 1, [PageRun(1, [], [])], [], ending), seen)
  {
    PassingPage(seen);
    OnePageRound(Some(1), seen, PASSING, RunPage(1, seen, PASSING, SITE));
  }

  lemma NothingKept(attempts: seq<Attempt>)
    requires |attempts| == 2 && attempts[0].kept == [] && attempts[1].kept == []
    ensures KeptByFinished(attempts) == []
  {
    assert KeptByFinished(attempts[1..][1..]) == [];
    assert KeptByFinished(attempts[1..]) == [];
  }

  lemma ReturnedIsKept(scripts: seq<AttemptScript>)
    ensures CrawlOf(1, scripts, SITE).discovered == KeptByFinished(CrawlOf(1, scripts, SITE).attempts)
  {
    ProgramRowsFit();
    NeverStreamedTwice(1, scripts, SITE);
  }

  lemma LostRowFacts()
    ensures Accepted in LostRow().events && Statuses(LostRow().events) == []
            && KeywordScan.RowKey(ROW) in LostRow().seen
  {
    StatusCanBeLost(KeywordScan.RowKey(ROW));
    Ledger(KeywordScan.RowKey(ROW), 1, {}, LOST);
    assert LostRow().events[0] == Accepted;
  }

  lemma RoundsOfLoss()
    ensures var r := CrawlOf(1, TwoRounds(), SITE);
            && r.exit.None? && |r.attempts| == 2
            && r.attempts[0]
               == Attempt(0, 1, true, 0, 1, [PageRun(1, [KeywordScan.RowKey(ROW)], [LostRow()])], [], Died(1))
            && r.attempts[1] == Attempt(0, 1, true, 0, 1, [PageRun(1, [], [])], [],
                                        Finished(Some(Outcome.NextControlAbsent), 1))
  {
    LostRowFacts();
    FirstRoundDies();
    SecondRoundPasses(LostRow().seen);
    TwoRoundCrawl(LostRow().seen);
  }

  lemma LossReturnsNothing()
    ensures CrawlOf(1, TwoRounds(), SITE).discovered == []
  {
    RoundsOfLoss();
    ReturnedIsKept(TwoRounds());
    NothingKept(CrawlOf(1, TwoRounds(), SITE).attempts);
  }

  /** A crawl can return normally and have lost a candidate: it accepted it, the browser died under it
      before any status, and the next round passes over it and completes the keyword. */
  lemma CandidateCanBeLost()
    ensures Accepted in LostRow().events && Statuses(LostRow().events) == []
    ensures var r := CrawlOf(1, TwoRounds(), SITE);
            && r.exit.None? && r.discovered == [] && |r.attempts| == 2
            && r.attempts[0].pages == [PageRun(1, [KeywordScan.RowKey(ROW)], [LostRow()])]
            && r.attempts[1].pages == [PageRun(1, [], [])] && r.attempts[1].Completed()
  {
    LostRowFacts();
    RoundsOfLoss();
    LossReturnsNothing();
  }
}
