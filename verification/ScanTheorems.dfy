/** What every scan of a keyword keeps: fresh keys, consecutive pages, a ledger in order, and when
    its page labels are true. */
module ScanTheorems {
  import opened Text
  import opened Failures
  import opened Pagination
  import opened RestorePage
  import opened RowBody
  import opened KeywordScan
  import opened ResultsScan

  // ---------------------------------------------------------------------------
  // Rows
  // ---------------------------------------------------------------------------

  /** The projects handed to the project callback in a trace, in order. */
  function StreamsIn(events: seq<Event>): seq<Project> {
    if events == [] then []
    else
      var last := events[|events| - 1];
      StreamsIn(events[..|events| - 1]) + if last.Streamed? then [last.project] else []
  }

  function StreamsOfRows(rows: seq<RowRun>): seq<Project> {
    if rows == [] then [] else StreamsIn(rows[0].events) + StreamsOfRows(rows[1..])
  }

  /** Statuses hold all the streams of a trace. */
  lemma {:induction false} StreamsAreStatuses(events: seq<Event>)
    ensures StreamsIn(events) == StreamsIn(Statuses(events))
  {
    if events != [] {
      var before, last := events[..|events| - 1], events[|events| - 1];
      StreamsAreStatuses(before);
      if IsStatus(last) {
        var statuses := Statuses(before) + [last];
        assert statuses[..|statuses| - 1] == Statuses(before) && statuses[|statuses| - 1] == last;
        assert Statuses(events) == statuses;
      } else {
        assert Statuses(events) == Statuses(before) + [] == Statuses(before);
      }
    }
  }

  lemma {:induction false} OneStream(statuses: seq<Event>)
    requires statuses != [] && statuses[0].Streamed?
    requires forall k :: 1 <= k < |statuses| ==> !statuses[k].Streamed?
    ensures StreamsIn(statuses) == [statuses[0].project]
  {
    if |statuses| > 1 {
      OneStream(statuses[..|statuses| - 1]);
    } else {
      assert statuses[..0] == [];
    }
  }

  lemma {:induction false} NoStream(statuses: seq<Event>)
    requires forall k :: 0 <= k < |statuses| ==> !statuses[k].Streamed?
    ensures StreamsIn(statuses) == []
  {
    if statuses != [] {
      NoStream(statuses[..|statuses| - 1]);
    }
  }

  /** The ledger of one row: no trace of a row whose acceptance failed, else the acceptance first,
      openings before statuses, at most two of each, a second opening only after a transient answer
      to the first. */
  ghost predicate LedgerHolds(r: RowRun) {
    || (r.events == [] && r.exit.Some?)
    || (InOrder(r.events) && OpensWell(Opens(r.events)) && |Statuses(r.events)| <= 2)
  }

  /** What a scan needs of a row. */
  ghost predicate RowFits(page: nat, seen: set<string>, r: RowRun) {
    && LedgerHolds(r)
    && StreamsIn(r.events) == Opt(r.kept)
    && FreshKeys(Opt(r.kept), seen, r.seen)
    && ClosedOn(page, r.exit)
  }

  ghost predicate RowsFit(open: RowOpener) {
    forall key, page, seen, a :: page >= 1 ==> RowFits(page, seen, open(key, page, seen, a))
  }

  /** A row hands over exactly the project it keeps. */
  lemma RowStreamsWhatItKeeps(key: string, page: nat, seen: set<string>, a: RowScript)
    ensures var r := RunRow(key, page, seen, a); StreamsIn(r.events) == Opt(r.kept)
  {
    var r := RunRow(key, page, seen, a);
    StreamsWhatItKeeps(key, page, seen, a);
    StreamsAreStatuses(r.events);
    if r.kept.Some? {
      OneStream(Statuses(r.events));
    } else {
      NoStream(Statuses(r.events));
    }
  }

  /** The program's rows are such rows. */
  lemma ProgramRowsFit()
    ensures RowsFit(RunRow)
  {
    forall key, page, seen, a | page >= 1
      ensures RowFits(page, seen, RunRow(key, page, seen, a))
    {
      ProgramRowFits(key, page, seen, a);
    }
  }

  lemma ProgramRowFits(key: string, page: nat, seen: set<string>, a: RowScript)
    requires page >= 1
    ensures RowFits(page, seen, RunRow(key, page, seen, a))
  {
    Ledger(key, page, seen, a);
    SeenGrows(key, page, seen, a);
    RowStreamsWhatItKeeps(key, page, seen, a);
    ClosedOnOwnPage(key, page, seen, a);
  }

  /** Projects whose keys are pairwise distinct, not seen before and seen from then on. */
  ghost predicate FreshKeys(projects: seq<Project>, before: set<string>, after: set<string>) {
    && before <= after
    && (forall i, j :: 0 <= i < j < |projects| ==> ProjectKey(projects[i]) != ProjectKey(projects[j]))
    && (forall i :: 0 <= i < |projects| ==> ProjectKey(projects[i]) !in before && ProjectKey(projects[i]) in after)
  }

  lemma FreshKeysJoin(a: seq<Project>, b: seq<Project>, s0: set<string>, s1: set<string>, s2: set<string>)
    requires FreshKeys(a, s0, s1) && FreshKeys(b, s1, s2)
    ensures FreshKeys(a + b, s0, s2)
  {
  }

  ghost predicate AllFinished(rows: seq<RowRun>) { forall k :: 0 <= k < |rows| ==> rows[k].exit.None? }

  ghost predicate AllLedgers(rows: seq<RowRun>) { forall k :: 0 <= k < |rows| ==> LedgerHolds(rows[k]) }

  /** What a scan needs of the rows of a page: unless one raises, all of them finish. */
  ghost predicate PageRowsFit(page: nat, wanted: nat, seen: set<string>, r: RowsRun) {
    && FreshKeys(r.kept, seen, r.seen)
    && r.kept == StreamsOfRows(r.rows)
    && AllLedgers(r.rows)
    && (r.exit.None? ==> |r.rows| == wanted && AllFinished(r.rows))
    && ClosedOn(page, r.exit)
  }

  lemma FirstRowFits(page: nat, wanted: nat, seen: set<string>, r: RowRun, rest: RowsRun)
    requires RowFits(page, seen, r) && PageRowsFit(page, wanted, r.seen, rest)
    requires r.exit.Some? ==> rest.exit.Some?
    ensures PageRowsFit(page, wanted + 1, seen, FirstRow(r, rest))
  {
    FreshKeysJoin(Opt(r.kept), rest.kept, seen, r.seen, rest.seen);
    var whole := FirstRow(r, rest);
    assert whole.rows[1..] == rest.rows;
    assert StreamsOfRows(whole.rows) == StreamsIn(r.events) + StreamsOfRows(rest.rows);
  }

  lemma {:induction false} RunRowsFit(keys: seq<string>, page: nat, seen: set<string>, scripts: seq<RowScript>,
                                      open: RowOpener)
    requires RowsFit(open) && page >= 1
    ensures PageRowsFit(page, |keys|, seen, RunRows(keys, page, seen, scripts, open))
    decreases |keys|
  {
    if keys != [] && scripts != [] {
      var r := open(keys[0], page, seen, scripts[0]);
      assert RowFits(page, seen, r);
      var rest := RestOfRows(r, keys[1..], page, scripts[1..], open);
      if r.exit.None? {
        RunRowsFit(keys[1..], page, r.seen, scripts[1..], open);
      }
      assert PageRowsFit(page, |keys| - 1, r.seen, rest);
      FirstRowFits(page, |keys| - 1, seen, r, rest);
    }
  }

  // ---------------------------------------------------------------------------
  // Pages
  // ---------------------------------------------------------------------------

  function StreamsOfPages(pages: seq<PageRun>): seq<Project> {
    if pages == [] then [] else StreamsOfRows(pages[0].rows) + StreamsOfPages(pages[1..])
  }

  /** Every wanted row of the page was run and finished. */
  ghost predicate Complete(p: PageRun) { |p.rows| == |p.wanted| && AllFinished(p.rows) }

  /** What a scan needs of a page: at most one page is run, under its own label; it ends the scan
      in a closed browser on this page, in a terminal outcome, or in an error, and goes on only
      below the cap; unless its rows raise, it is complete. */
  ghost predicate PageFits(page: nat, seen: set<string>, cap: int, p: PageEnd) {
    && FreshKeys(p.kept, seen, p.seen)
    && p.kept == StreamsOfPages(p.pages)
    && |p.pages| <= 1
    && (p.pages != [] ==> p.pages[0].page == page && AllLedgers(p.pages[0].rows))
    && (p.pages != [] && (p.ending.None? || p.ending.value.Finished?) ==> Complete(p.pages[0]))
    && EndsWell(page, cap, p.pages != [], p.ending)
  }

  ghost predicate EndsWell(page: nat, cap: int, scanned: bool, ending: Option<Ending>) {
    match ending
    case None => scanned && page < cap
    case Some(Finished(outcome, at)) =>
      scanned && at == page && outcome.Some? && IsTerminal(outcome.value)
      && (outcome.value == Outcome.MaxPagesReached <==> page >= cap)
    case Some(Died(at)) => at == page
    case Some(NoHits) => false
    case Some(Aborted(exn)) => !exn.BrowserClosed?
  }

  ghost predicate PagesFit(open: PageOpener, cap: int) {
    forall page, seen, script :: page >= 1 ==> PageFits(page, seen, cap, open(page, seen, script))
  }

  lemma EndingFits(page: nat, exit: Option<Exn>, advance: AdvanceAnswers, cap: int)
    requires ClosedOn(page, exit)
    ensures EndsWell(page, cap, true, AfterRows(page, exit, advance, cap))
    ensures exit.Some? ==>
              AfterRows(page, exit, advance, cap).Some? && !AfterRows(page, exit, advance, cap).value.Finished?
  {
    if exit.None? && AdvanceResultsPage(page, cap, advance).Advance? {
      AdvanceFacts(page, cap, advance);
    }
  }

  lemma RunPageFits(page: nat, seen: set<string>, script: PageScript, s: Settings)
    requires RowsFit(s.openRow) && page >= 1
    ensures PageFits(page, seen, s.cap, RunPage(page, seen, script, s))
  {
    var look := s.read(script.parse);
    if look.Look? {
      var wanted := Wanted(look.rows, seen);
      RunRowsFit(wanted, page, seen, script.rows, s.openRow);
      var rows := RunRows(wanted, page, seen, script.rows, s.openRow);
      EndingFits(page, rows.exit, script.advance, s.cap);
      var pages := [PageRun(page, wanted, rows.rows)];
      assert StreamsOfPages(pages) == StreamsOfRows(rows.rows) + StreamsOfPages(pages[1..]);
    }
  }

  // ---------------------------------------------------------------------------
  // Scans
  // ---------------------------------------------------------------------------

  ghost predicate Consecutive(pages: seq<PageRun>, from: nat) {
    forall k :: 0 <= k < |pages| ==> pages[k].page == from + k
  }

  ghost predicate PageLedgers(pages: seq<PageRun>) { forall k :: 0 <= k < |pages| ==> AllLedgers(pages[k].rows) }

  /** All pages are complete, except the last of a scan that broke off in its rows. */
  ghost predicate CompletePages(pages: seq<PageRun>, from: nat, ending: Ending) {
    forall k :: 0 <= k < |pages| && (k < |pages| - 1 || ending.Finished? || ending == Died(from + |pages|)) ==>
      Complete(pages[k])
  }

  /** How a scan of some pages, from page `from` on, can end. */
  ghost predicate ScanEnds(from: nat, cap: int, scanned: nat, ending: Ending) {
    match ending
    case Finished(outcome, at) =>
      if outcome.None? then scanned == 0 && from > cap
      else scanned >= 1 && at == from + scanned - 1 <= cap && IsTerminal(outcome.value)
           && (outcome.value == Outcome.MaxPagesReached <==> at == cap)
    case Died(at) => at <= cap && (at == from + scanned || (scanned >= 1 && at == from + scanned - 1))
    case NoHits => false
    case Aborted(exn) => !exn.BrowserClosed?
  }

  ghost predicate ScanFits(from: nat, seen: set<string>, cap: int, r: ScanRun) {
    && FreshKeys(r.kept, seen, r.seen)
    && r.kept == StreamsOfPages(r.pages)
    && Consecutive(r.pages, from)
    && PageLedgers(r.pages)
    && CompletePages(r.pages, from, r.ending)
    && ScanEnds(from, cap, |r.pages|, r.ending)
  }

  lemma FirstPageKeeps(from: nat, seen: set<string>, cap: int, p: PageEnd, rest: ScanRun)
    requires PageFits(from, seen, cap, p) && FreshKeys(rest.kept, p.seen, rest.seen)
    requires rest.kept == StreamsOfPages(rest.pages)
    ensures FreshKeys(p.kept + rest.kept, seen, rest.seen)
    ensures p.kept + rest.kept == StreamsOfPages(p.pages + rest.pages)
  {
    FreshKeysJoin(p.kept, rest.kept, seen, p.seen, rest.seen);
    if p.pages == [] {
      assert p.pages + rest.pages == rest.pages;
    } else {
      assert (p.pages + rest.pages)[1..] == rest.pages && p.pages == [p.pages[0]];
      assert StreamsOfPages(p.pages) == StreamsOfRows(p.pages[0].rows) + StreamsOfPages([]);
    }
  }

  lemma FirstPageOrders(from: nat, seen: set<string>, cap: int, p: PageEnd, rest: ScanRun)
    requires PageFits(from, seen, cap, p)
    requires p.pages != [] ==> Consecutive(rest.pages, from + 1) && PageLedgers(rest.pages)
    requires p.pages == [] ==> rest.pages == []
    ensures Consecutive(p.pages + rest.pages, from) && PageLedgers(p.pages + rest.pages)
  {
  }

  lemma FirstPageCompletes(from: nat, seen: set<string>, cap: int, p: PageEnd, rest: ScanRun)
    requires 1 <= from <= cap && PageFits(from, seen, cap, p)
    requires p.ending.Some? ==> rest.pages == [] && rest.ending == p.ending.value
    requires p.ending.None? ==>
               CompletePages(rest.pages, from + 1, rest.ending) && ScanEnds(from + 1, cap, |rest.pages|, rest.ending)
    ensures CompletePages(p.pages + rest.pages, from, rest.ending)
    ensures ScanEnds(from, cap, |p.pages + rest.pages|, rest.ending)
  {
  }

  lemma FirstPageFits(from: nat, seen: set<string>, cap: int, p: PageEnd, rest: ScanRun)
    requires 1 <= from <= cap && PageFits(from, seen, cap, p)
    requires p.ending.Some? ==> rest == ScanRun([], [], p.seen, p.ending.value)
    requires p.ending.None? ==> ScanFits(from + 1, p.seen, cap, rest)
    ensures ScanFits(from, seen, cap, FirstPage(p, rest))
  {
    FirstPageKeeps(from, seen, cap, p, rest);
    FirstPageOrders(from, seen, cap, p, rest);
    FirstPageCompletes(from, seen, cap, p, rest);
  }

  lemma {:induction false} RunPagesFit(from: nat, seen: set<string>, scripts: seq<PageScript>, cap: int,
                                       open: PageOpener)
    requires PagesFit(open, cap) && from >= 1
    ensures ScanFits(from, seen, cap, RunPages(from, seen, scripts, cap, open))
    decreases |scripts|
  {
    if from <= cap && scripts != [] {
      var p := open(from, seen, scripts[0]);
      assert PageFits(from, seen, cap, p);
      if p.ending.None? {
        RunPagesFit(from + 1, p.seen, scripts[1..], cap, open);
      }
      FirstPageFits(from, seen, cap, p, Rest(p.ending, from + 1, p.seen, scripts[1..], cap, open));
    }
  }

  /** Every scan of a keyword, whatever the page, the network and the callbacks do: it streams
      only fresh keys and exactly what it keeps; its pages are consecutive from the page it
      started on; every row obeys the ledger; every page is complete, except the last one if its
      rows broke off; and it ends in a terminal outcome on its last page, the cap being reported
      exactly at the cap, in a browser that died on its last page or the next, or in an error. */
  lemma ScanSafety(start: nat, seen: set<string>, scripts: seq<PageScript>, s: Settings)
    requires RowsFit(s.openRow)
    ensures ScanFits(Max(1, start), seen, s.cap, RunScan(start, seen, scripts, s))
  {
    forall page: nat, seen, script | page >= 1
      ensures PageFits(page, seen, s.cap, PageOpenerOf(s)(page, seen, script))
    {
      RunPageFits(page, seen, script, s);
    }
    RunPagesFit(Max(1, start), seen, scripts, s.cap, PageOpenerOf(s));
  }

  /** A scan from page 1 that returns normally, with a cap of at least one, has scanned exactly
      the pages 1 to its terminal page, each of them completely, and ends in one of the three
      terminal outcomes. */
  lemma FullScan(seen: set<string>, scripts: seq<PageScript>, s: Settings)
    requires RowsFit(s.openRow) && s.cap >= 1
    requires RunScan(1, seen, scripts, s).ending.Finished?
    ensures var r := RunScan(1, seen, scripts, s);
            && r.ending.outcome.Some? && IsTerminal(r.ending.outcome.value)
            && |r.pages| == r.ending.terminalPage >= 1
            && (forall k :: 0 <= k < |r.pages| ==> r.pages[k].page == k + 1 && Complete(r.pages[k]))
            && (r.ending.outcome.value == Outcome.MaxPagesReached <==> r.ending.terminalPage == s.cap)
  {
    ScanSafety(1, seen, scripts, s);
  }

  // ---------------------------------------------------------------------------
  // Telemetry and ledger
  // ---------------------------------------------------------------------------

  /** The rows that left an acceptance in their trace. */
  function AcceptancesOfRows(rows: seq<RowRun>): nat {
    if rows == [] then 0
    else AcceptancesOfRows(rows[..|rows| - 1]) + Bit(Accepted in rows[|rows| - 1].events)
  }

  function AcceptancesIn(pages: seq<PageRun>): nat {
    if pages == [] then 0 else AcceptancesIn(pages[..|pages| - 1]) + AcceptancesOfRows(pages[|pages| - 1].rows)
  }

  lemma {:induction false} FinishedRowsAreAccepted(rows: seq<RowRun>)
    requires AllLedgers(rows) && AllFinished(rows)
    ensures AcceptancesOfRows(rows) == |rows|
  {
    if rows != [] {
      var last := rows[|rows| - 1];
      assert LedgerHolds(last) && last.events[0] == Accepted;
      FinishedRowsAreAccepted(rows[..|rows| - 1]);
    }
  }

  lemma {:induction false} CompletePagesAreAccepted(pages: seq<PageRun>)
    requires PageLedgers(pages) && forall k :: 0 <= k < |pages| ==> Complete(pages[k])
    ensures AcceptancesIn(pages) == WantedIn(pages)
  {
    if pages != [] {
      FinishedRowsAreAccepted(pages[|pages| - 1].rows);
      CompletePagesAreAccepted(pages[..|pages| - 1]);
    }
  }

  /** In a scan that returns, the telemetry of accepted rows and the ledger agree: as many rows left an
      acceptance in their trace as were found worth opening. */
  lemma BooksMatchLedger(start: nat, seen: set<string>, scripts: seq<PageScript>, s: Settings)
    requires RowsFit(s.openRow) && RunScan(start, seen, scripts, s).ending.Finished?
    ensures var r := RunScan(start, seen, scripts, s); AcceptancesIn(r.pages) == WantedIn(r.pages)
  {
    ScanSafety(start, seen, scripts, s);
    CompletePagesAreAccepted(RunScan(start, seen, scripts, s).pages);
  }

  // ---------------------------------------------------------------------------
  // When labels are true
  // ---------------------------------------------------------------------------

  /** Where the browser stands after the rows of a page. */
  function StandsAfterRows(rows: seq<RowRun>, place: nat): nat {
    if rows == [] then place else StandsAfterRows(rows[1..], StandsAfter(rows[0].events, place))
  }

  /** Where the browser stands when the k-th page of a scan is read: it began on `start`, and every
      advance moves it one page on. */
  function PlaceAt(pages: seq<PageRun>, start: nat, k: nat): nat
    requires k < |pages|
  {
    if k == 0 then start else StandsAfterRows(pages[k - 1].rows, PlaceAt(pages, start, k - 1)) + 1
  }

  /** The rows of a page leave a browser that stood on it somewhere else. */
  predicate LeavesPage(p: PageRun) { StandsAfterRows(p.rows, p.page) != p.page }

  /** On a page whose label is true, the next label is true exactly when its rows do not leave it. */
  lemma NextLabelExactly(pages: seq<PageRun>, from: nat, start: nat, k: nat)
    requires Consecutive(pages, from) && k + 1 < |pages| && PlaceAt(pages, start, k) == pages[k].page
    ensures PlaceAt(pages, start, k + 1) == pages[k + 1].page <==> !LeavesPage(pages[k])
  {
  }

  /** Over a whole scan that began on its first page: all labels are true exactly when no page but
      the last is left by its rows. */
  lemma LabelsTrueExactly(pages: seq<PageRun>, from: nat)
    requires Consecutive(pages, from)
    ensures (forall k :: 0 <= k < |pages| ==> PlaceAt(pages, from, k) == pages[k].page) <==>
            (forall k :: 0 <= k < |pages| - 1 ==> !LeavesPage(pages[k]))
  {
    if forall k :: 0 <= k < |pages| ==> PlaceAt(pages, from, k) == pages[k].page {
      forall k | 0 <= k < |pages| - 1
        ensures !LeavesPage(pages[k])
      {
        assert PlaceAt(pages, from, k + 1) == pages[k + 1].page;
        NextLabelExactly(pages, from, from, k);
      }
    }
    if forall k :: 0 <= k < |pages| - 1 ==> !LeavesPage(pages[k]) {
      forall k | 0 <= k < |pages|
        ensures PlaceAt(pages, from, k) == pages[k].page
      {
        LabelsTrueBefore(pages, from, k);
      }
    }
  }

  lemma {:induction false} LabelsTrueBefore(pages: seq<PageRun>, from: nat, k: nat)
    requires Consecutive(pages, from) && k < |pages|
    requires forall i :: 0 <= i < |pages| - 1 ==> !LeavesPage(pages[i])
    ensures PlaceAt(pages, from, k) == pages[k].page
  {
    if k > 0 {
      LabelsTrueBefore(pages, from, k - 1);
      NextLabelExactly(pages, from, from, k - 1);
    }
  }

  /** The trace of all rows of a page. */
  function EventsOf(rows: seq<RowRun>): seq<Event> {
    if rows == [] then [] else rows[0].events + EventsOf(rows[1..])
  }

  lemma {:induction false} StandsAfterJoined(a: seq<Event>, b: seq<Event>, place: nat)
    ensures StandsAfter(a + b, place) == StandsAfter(b, StandsAfter(a, place))
  {
    if b == [] {
      assert a + b == a;
    } else {
      assert (a + b)[..|a + b| - 1] == a + b[..|b| - 1];
      StandsAfterJoined(a, b[..|b| - 1], place);
    }
  }

  lemma {:induction false} StandsAfterRowsIsTrace(rows: seq<RowRun>, place: nat)
    ensures StandsAfterRows(rows, place) == StandsAfter(EventsOf(rows), place)
  {
    if rows != [] {
      StandsAfterRowsIsTrace(rows[1..], StandsAfter(rows[0].events, place));
      StandsAfterJoined(rows[0].events, EventsOf(rows[1..]), place);
    }
  }

  /** The rows of a page leave it exactly when the last way back on the page ended elsewhere: by
      going back to another page, or in a restore that broke off on one. */
  lemma LeavesPageExactly(p: PageRun)
    ensures LeavesPage(p) <==>
              exists k: nat :: LastReturnAt(EventsOf(p.rows), k) && EventsOf(p.rows)[k].how.at != p.page
  {
    var events := EventsOf(p.rows);
    StandsAfterRowsIsTrace(p.rows, p.page);
    if NoReturns(events) {
      StandsWhereItStood(events, p.page);
    } else {
      var k := FindLastReturn(events);
      StandsAtLastReturn(events, p.page, k);
      forall i: nat | LastReturnAt(events, i)
        ensures i == k
      {
      }
    }
  }

  /** The last return made by the program's rows of a page. */
  function LastReturnOfRows(keys: seq<string>, page: nat, seen: set<string>,
                            scripts: seq<RowScript>): Option<ReturnScript>
  {
    if keys == [] || scripts == [] then None
    else
      var r := RunRow(keys[0], page, seen, scripts[0]);
      var later := if r.exit.None? then LastReturnOfRows(keys[1..], page, r.seen, scripts[1..]) else None;
      if later.Some? then later else LastReturn(keys[0], page, seen, scripts[0])
  }

  lemma {:induction false} RowsDriftExactly(
    keys: seq<string>, page: nat, seen: set<string>, place: nat, scripts: seq<RowScript>)
    requires page >= 1
    ensures StandsAfterRows(RunRows(keys, page, seen, scripts, RunRow).rows, place) != page <==>
              EndsElsewhere(page, place, LastReturnOfRows(keys, page, seen, scripts))
    decreases |keys|
  {
    if keys != [] && scripts != [] {
      var r := RunRow(keys[0], page, seen, scripts[0]);
      var rest := RestOfRows(r, keys[1..], page, scripts[1..], RunRow);
      assert FirstRow(r, rest).rows[1..] == rest.rows;
      RowDriftsExactly(keys[0], page, seen, place, scripts[0]);
      if r.exit.None? {
        RowsDriftExactly(keys[1..], page, r.seen, StandsAfter(r.events, place), scripts[1..]);
      }
    }
  }

  /** A page of the program is left by its rows exactly under the guard of the last return they made:
      it went back to another page, or its restore broke off on one. */
  lemma PageDriftsExactly(page: nat, seen: set<string>, script: PageScript, s: Settings)
    requires page >= 1 && s.openRow == RunRow && s.read(script.parse).Look?
    ensures var p := RunPage(page, seen, script, s);
            |p.pages| == 1 &&
            (LeavesPage(p.pages[0]) <==>
               EndsElsewhere(page, page,
                             LastReturnOfRows(Wanted(s.read(script.parse).rows, seen), page, seen, script.rows)))
  {
    RowsDriftExactly(Wanted(s.read(script.parse).rows, seen), page, seen, page, script.rows);
  }
}
