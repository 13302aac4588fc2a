/** The scans of the crawler against the tests the receipt verifier puts to a canary proof
    (scripts/track_bc_verify.py). */
module ScanProof {
  import opened Text
  import opened PyValue
  import opened Receipts
  import opened Pagination
  import opened ResultsScan
  import opened ScanTheorems
  import OC = ObservationCanary
  import CP = CanaryProof

  /** The page labels of a scan as the JSON list of a proof. */
  function PageList(pages: seq<PageRun>): Value {
    OC.PageValues(seq(|pages|, k requires 0 <= k < |pages| => pages[k].page))
  }

  /** Every scan from page 1 that returns normally, with a cap of at least one, passes the terminal
      test of the proof checker under its own cap when it has at least five pages, and the test of
      ordered pages exactly when it has at least five pages. */
  lemma FullScanPassesProofChecks(seen: set<string>, scripts: seq<PageScript>, s: Settings)
    requires RowsFit(s.openRow) && s.cap >= 1
    requires RunScan(1, seen, scripts, s).ending.Finished?
    ensures var r := RunScan(1, seen, scripts, s);
            && r.ending.outcome.Some?
            && (PagesInOrder(PageList(r.pages)) <==> |r.pages| >= 5)
            && (ScanIsTerminal(OC.OutcomeText(r.ending.outcome.value), PageList(r.pages), s.cap) <==>
                  r.ending.outcome.value != Outcome.MaxPagesReached || |r.pages| >= 5)
  {
    FullScan(seen, scripts, s);
    var r := RunScan(1, seen, scripts, s);
    assert PageList(r.pages).items == PagesUpTo(|r.pages|);
  }

  /** The progress the crawler reports of its pages, and of the end of a scan. */
  function PageEvents(t: CP.Target, pages: seq<PageRun>): seq<CP.Event> {
    seq(|pages|, k requires 0 <= k < |pages| =>
      CP.PageFinished(t.keyword, CP.Int(pages[k].page), CP.Int(t.maxPages)))
  }

  function ScanEvents(t: CP.Target, pages: seq<PageRun>, at: nat, outcome: Outcome): seq<CP.Event> {
    [CP.BrowserStarted] + PageEvents(t, pages)
      + [CP.PaginationEnded(t.keyword, CP.Int(at), CP.Missing, OC.OutcomeText(outcome))]
  }

  function LabelsOf(pages: seq<PageRun>): seq<int> { seq(|pages|, k requires 0 <= k < |pages| => pages[k].page) }

  lemma {:induction false} PagesAreRecorded(t: CP.Target, pages: seq<PageRun>)
    requires forall k :: 0 <= k < |pages| ==> pages[k].page >= 1
    ensures CP.RecordedAll(t, CP.EMPTY, [CP.BrowserStarted] + PageEvents(t, pages))
            == CP.EMPTY.(browser := CP.Browser(true, false), scan := CP.Scan(LabelsOf(pages), false, false, false))
  {
    var events := [CP.BrowserStarted] + PageEvents(t, pages);
    if pages == [] {
      assert events == [CP.BrowserStarted] && events[..0] == [] && LabelsOf(pages) == [];
    } else {
      var before, last := pages[..|pages| - 1], pages[|pages| - 1];
      PagesAreRecorded(t, before);
      assert events[..|events| - 1] == [CP.BrowserStarted] + PageEvents(t, before);
      assert events[|events| - 1] == CP.PageFinished(t.keyword, CP.Int(last.page), CP.Int(t.maxPages));
      assert LabelsOf(pages) == LabelsOf(before) + [last.page];
    }
  }

  lemma ScanIsRecorded(t: CP.Target, pages: seq<PageRun>, at: nat, outcome: Outcome)
    requires at >= 1 && IsTerminal(outcome) && forall k :: 0 <= k < |pages| ==> pages[k].page >= 1
    ensures var b := CP.RecordedAll(t, CP.EMPTY, ScanEvents(t, pages, at, outcome));
            && b.browser == CP.Browser(true, false) && b.scan == CP.Scan(LabelsOf(pages), false, false, false)
            && b.end == CP.End(Some(OC.OutcomeText(outcome)), Some(at), false)
  {
    PagesAreRecorded(t, pages);
    var events := ScanEvents(t, pages, at, outcome);
    assert events[..|events| - 1] == [CP.BrowserStarted] + PageEvents(t, pages);
  }

  /** The books of a scan of n pages, which ends at the cap exactly with the outcome of the cap. */
  lemma BooksOfScan(t: CP.Target, b: CP.Books, n: nat, outcome: Outcome)
    requires b.browser == CP.Browser(true, false) && b.scan == CP.Scan(seq(n, k => k + 1), false, false, false)
    requires n >= 1 && b.end == CP.End(Some(OC.OutcomeText(outcome)), Some(n), false)
    requires IsTerminal(outcome) && (outcome == Outcome.MaxPagesReached <==> n == t.maxPages)
    ensures CP.Build(t, b).Proof? <==> n >= 5 && !b.persisted.invalid && b.persisted.later
  {
    assert b.scan.pages[n - 1] == n;
  }

  /** The events report this scan of the target's keyword, with persisted candidates anywhere in between. */
  ghost predicate Reports(events: seq<CP.Event>, t: CP.Target, r: ScanRun) {
    && r.ending.Finished? && r.ending.outcome.Some?
    && CP.ProgressOf(events) == ScanEvents(t, r.pages, r.ending.terminalPage, r.ending.outcome.value)
  }

  /** A full scan from page 1. */
  ghost predicate IsFull(r: ScanRun, cap: int) {
    && r.ending.Finished? && r.ending.outcome.Some? && IsTerminal(r.ending.outcome.value)
    && |r.pages| == r.ending.terminalPage >= 1 && (forall k :: 0 <= k < |r.pages| ==> r.pages[k].page == k + 1)
    && (r.ending.outcome.value == Outcome.MaxPagesReached <==> r.ending.terminalPage == cap)
  }

  lemma ReportedScan(t: CP.Target, r: ScanRun, events: seq<CP.Event>)
    requires IsFull(r, t.maxPages) && Reports(events, t, r)
    ensures var b := CP.RecordedAll(t, CP.EMPTY, events);
            && b.browser == CP.Browser(true, false)
            && b.scan == CP.Scan(seq(|r.pages|, k => k + 1), false, false, false)
            && b.end == CP.End(Some(OC.OutcomeText(r.ending.outcome.value)), Some(|r.pages|), false)
  {
    ScanIsRecorded(t, r.pages, r.ending.terminalPage, r.ending.outcome.value);
    assert LabelsOf(r.pages) == seq(|r.pages|, k => k + 1);
    CP.ProgressDecides(t, events);
  }

  lemma FullScanIsFull(seen: set<string>, scripts: seq<PageScript>, s: Settings)
    requires RowsFit(s.openRow) && s.cap >= 1 && RunScan(1, seen, scripts, s).ending.Finished?
    ensures IsFull(RunScan(1, seen, scripts, s), s.cap)
  {
    FullScan(seen, scripts, s);
  }

  /** A scan of the target's keyword from page 1 that returns, under the target's cap, reports what the
      accumulator of the canary proof needs: with the persisted candidates told to it at any time in
      between, the proof is built if and only if the scan has at least five pages and a candidate of a
      later page was persisted. */
  lemma FullScanIsProved(t: CP.Target, seen: set<string>, scripts: seq<PageScript>, s: Settings, events: seq<CP.Event>)
    requires RowsFit(s.openRow) && s.cap == t.maxPages >= 1
    requires Reports(events, t, RunScan(1, seen, scripts, s))
    ensures var r := RunScan(1, seen, scripts, s);
            CP.Build(t, CP.RecordedAll(t, CP.EMPTY, events)).Proof? <==>
              |r.pages| >= 5 && CP.PersistedFits(events) && CP.HasLaterPage(events)
  {
    FullScanIsFull(seen, scripts, s);
    var r := RunScan(1, seen, scripts, s);
    ReportedScan(t, r, events);
    CP.PersistenceMeaning(t, events);
    BooksOfScan(t, CP.RecordedAll(t, CP.EMPTY, events), |r.pages|, r.ending.outcome.value);
  }
}
