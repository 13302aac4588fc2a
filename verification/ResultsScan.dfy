/** The scan of one keyword's results pages (browser_discovery.py). Everything the page and the
    callbacks do is given by finite scripts; a script that runs out stands for the end of the
    process, so every run is covered. `page` is the crawler's own page label; where the
    browser stands follows from the traces of the rows. */
module ResultsScan {
  import opened Text
  import opened Failures
  import opened ResultsTable
  import opened Pagination
  import opened RestorePage
  import opened RowBody
  import opened KeywordScan

  datatype Parse = ParseFails(fault: Fault) | NoTable | Table(headers: seq<seq<string>>, rows: seq<seq<string>>)

  /** What one results page answers, with one script for every row that is opened. */
  datatype PageScript = PageScript(parse: Parse, found: Option<int>, rows: seq<RowScript>, advance: AdvanceAnswers)

  datatype Look = LookFails(fault: Fault) | Look(headers: seq<string>, rows: seq<ParsedRow>)

  function LookAt(parse: Parse, discoverable: string -> bool): Look {
    match parse
    case ParseFails(fault) => LookFails(fault)
    case NoTable => Look([], [])
    case Table(headers, rows) =>
      match ParseResultsPage(headers, rows, discoverable)
      case MissingColumns => LookFails(Error(OtherError, false, false))
      case Rows(texts, parsed) => Look(texts, parsed)
  }

  /** How one row is tried: its key, the page label, the keys seen. */
  type RowOpener = (string, nat, set<string>, RowScript) -> RowRun

  /** Page cap, header line of the layout known to be good, status vocabulary, page reader and row body. */
  datatype Settings = Settings(cap: int, expected: string, discoverable: string -> bool, read: Parse -> Look,
                               openRow: RowOpener)

  /** The reader never calls a row eligible that is not in a discoverable status, or the other
      way round. */
  ghost predicate ReadsConsistently(s: Settings) {
    forall parse :: s.read(parse).Look? ==> AllConsistent(s.read(parse).rows, s.discoverable)
  }

  function ProgramSettings(cap: int, expected: string, discoverable: string -> bool): Settings {
    Settings(cap, expected, discoverable, parse => LookAt(parse, discoverable), RunRow)
  }

  /** The program's own reader is such a reader. */
  lemma ProgramReadsConsistently(cap: int, expected: string, discoverable: string -> bool)
    ensures ReadsConsistently(ProgramSettings(cap, expected, discoverable))
  {
    forall parse | LookAt(parse, discoverable).Look?
      ensures AllConsistent(LookAt(parse, discoverable).rows, discoverable)
    {
      if parse.Table? {
        RowsAreConsistent(parse.rows, ResolveColumns(ExtractHeaders(parse.headers)).value, discoverable, 0);
      }
    }
  }

  // ---------------------------------------------------------------------------
  // What a scan is
  // ---------------------------------------------------------------------------

  function Opt(kept: Option<Project>): seq<Project> { if kept.Some? then [kept.value] else [] }

  /** The rows of one page that were tried, in order, up to the first that raised. */
  datatype RowsRun = RowsRun(rows: seq<RowRun>, kept: seq<Project>, seen: set<string>, exit: Option<Exn>)

  function FirstRow(r: RowRun, rest: RowsRun): RowsRun {
    rest.(rows := [r] + rest.rows, kept := Opt(r.kept) + rest.kept)
  }

  function RunRows(keys: seq<string>, page: nat, seen: set<string>, scripts: seq<RowScript>, open: RowOpener): RowsRun
    decreases |keys|, 0
  {
    if keys == [] then RowsRun([], [], seen, None)
    else if scripts == [] then RowsRun([], [], seen, Some(Killed))
    else
      var r := open(keys[0], page, seen, scripts[0]);
      FirstRow(r, RestOfRows(r, keys[1..], page, scripts[1..], open))
  }

  /** What is still to come after a row: nothing after an exception, else the next rows. */
  function RestOfRows(r: RowRun, keys: seq<string>, page: nat, scripts: seq<RowScript>, open: RowOpener): RowsRun
    decreases |keys|, 1
  {
    if r.exit.Some? then RowsRun([], [], r.seen, r.exit)
    else RunRows(keys, page, r.seen, scripts, open)
  }

  /** A page that was scanned: its label, the keys of the rows worth opening, and the rows tried. */
  datatype PageRun = PageRun(page: nat, wanted: seq<string>, rows: seq<RowRun>)

  datatype Ending =
    | Finished(outcome: Option<Outcome>, terminalPage: nat)
    | NoHits
    | Died(page: nat)
    | Aborted(exn: Exn)

  datatype ScanRun = ScanRun(pages: seq<PageRun>, kept: seq<Project>, seen: set<string>, ending: Ending)

  /** An exception that escapes a row or the reading of a page. */
  function EndingOf(exn: Exn): Ending { if exn.BrowserClosed? then Died(exn.page) else Aborted(exn) }

  /** The ending of a page after its rows, or none when the scan goes on to the next page. */
  function AfterRows(page: nat, exit: Option<Exn>, advance: AdvanceAnswers, cap: int): Option<Ending> {
    if exit.Some? then Some(EndingOf(exit.value))
    else
      match AdvanceResultsPage(page, cap, advance)
      case Raised(exn) => Some(Aborted(exn))
      case Advance(outcome, _) =>
        if outcome == Advanced then None
        else if IsFailure(outcome) then Some(Aborted(Error(PaginationFailed, false, false)))
        else Some(Finished(Some(outcome), page))
  }

  /** One page: the page itself unless it could not be read, and the ending if it is the last. */
  datatype PageEnd = PageEnd(pages: seq<PageRun>, kept: seq<Project>, seen: set<string>, ending: Option<Ending>)

  function RunPage(page: nat, seen: set<string>, script: PageScript, s: Settings): PageEnd {
    match s.read(script.parse)
    case LookFails(fault) =>
      PageEnd([], [], seen, Some(if fault.SaysClosed() then Died(page) else Aborted(fault)))
    case Look(_, parsed) =>
      var wanted := Wanted(parsed, seen);
      var rows := RunRows(wanted, page, seen, script.rows, s.openRow);
      PageEnd([PageRun(page, wanted, rows.rows)], rows.kept, rows.seen,
              AfterRows(page, rows.exit, script.advance, s.cap))
  }

  function FirstPage(p: PageEnd, rest: ScanRun): ScanRun {
    rest.(pages := p.pages + rest.pages, kept := p.kept + rest.kept)
  }

  /** How one page is run: its label, the keys seen. */
  type PageOpener = (nat, set<string>, PageScript) -> PageEnd

  function PageOpenerOf(s: Settings): PageOpener {
    (page: nat, seen: set<string>, script: PageScript) => RunPage(page, seen, script, s)
  }

  function RunPages(page: nat, seen: set<string>, scripts: seq<PageScript>, cap: int, open: PageOpener): ScanRun
    decreases |scripts|, 0
  {
    if page > cap then ScanRun([], [], seen, Finished(None, page))
    else if scripts == [] then ScanRun([], [], seen, Aborted(Killed))
    else
      var p := open(page, seen, scripts[0]);
      FirstPage(p, Rest(p.ending, page + 1, p.seen, scripts[1..], cap, open))
  }

  /** What is still to come after a page: nothing after an ending, else the next page. */
  function Rest(ending: Option<Ending>, page: nat, seen: set<string>, scripts: seq<PageScript>, cap: int,
                open: PageOpener): ScanRun
    decreases |scripts|, 1
  {
    if ending.Some? then ScanRun([], [], seen, ending.value)
    else RunPages(page, seen, scripts, cap, open)
  }

  /** The scan of a keyword from page `start` on. */
  function RunScan(start: nat, seen: set<string>, scripts: seq<PageScript>, s: Settings): ScanRun {
    RunPages(Max(1, start), seen, scripts, s.cap, PageOpenerOf(s))
  }

  // ---------------------------------------------------------------------------
  // The program
  // ---------------------------------------------------------------------------

  /** The page labels of a scan. */
  function Labels(pages: seq<PageRun>): seq<nat> { seq(|pages|, k requires 0 <= k < |pages| => pages[k].page) }

  function AfterDone(rows: seq<RowRun>, kept: seq<Project>, rest: RowsRun): RowsRun {
    rest.(rows := rows + rest.rows, kept := kept + rest.kept)
  }

  function AfterPages(pages: seq<PageRun>, kept: seq<Project>, rest: ScanRun): ScanRun {
    rest.(pages := pages + rest.pages, kept := kept + rest.kept)
  }

  /** The books name an outcome exactly when the scan has ended in one. */
  predicate Closed(ending: Ending, outcome: Option<Outcome>, terminalPage: Option<nat>) {
    if ending.Finished? && ending.outcome.Some? then
      outcome == ending.outcome && terminalPage == Some(ending.terminalPage)
    else outcome.None? && terminalPage.None?
  }

  /** The opener runs a page as the settings say. */
  ghost predicate OpensPages(open: PageOpener, s: Settings) {
    forall page, seen, script {:trigger RunPage(page, seen, script, s)} ::
      open(page, seen, script) == RunPage(page, seen, script, s)
  }

  lemma RowsJoin(rows: seq<RowRun>, kept: seq<Project>, r: RowRun, rest: RowsRun)
    ensures AfterDone(rows, kept, FirstRow(r, rest)) == AfterDone(rows + [r], kept + Opt(r.kept), rest)
  {
    assert rows + ([r] + rest.rows) == rows + [r] + rest.rows;
    assert kept + (Opt(r.kept) + rest.kept) == kept + Opt(r.kept) + rest.kept;
  }

  lemma PagesJoin(pages: seq<PageRun>, kept: seq<Project>, p: PageEnd, rest: ScanRun)
    ensures AfterPages(pages, kept, FirstPage(p, rest)) == AfterPages(pages + p.pages, kept + p.kept, rest)
  {
    assert pages + (p.pages + rest.pages) == pages + p.pages + rest.pages;
    assert kept + (p.kept + rest.kept) == kept + p.kept + rest.kept;
  }

  /** One page of a scan, after the pages before it. */
  lemma NextPage(pages: seq<PageRun>, kept: seq<Project>, page: nat, seen: set<string>, scripts: seq<PageScript>,
                 cap: int, open: PageOpener)
    requires page <= cap && scripts != []
    ensures var p := open(page, seen, scripts[0]);
            AfterPages(pages, kept, RunPages(page, seen, scripts, cap, open))
            == AfterPages(pages + p.pages, kept + p.kept, Rest(p.ending, page + 1, p.seen, scripts[1..], cap, open))
  {
    var p := open(page, seen, scripts[0]);
    PagesJoin(pages, kept, p, Rest(p.ending, page + 1, p.seen, scripts[1..], cap, open));
  }

  /** How many rows of the pages were found worth opening. */
  function WantedIn(pages: seq<PageRun>): nat {
    if pages == [] then 0 else WantedIn(pages[..|pages| - 1]) + |pages[|pages| - 1].wanted|
  }

  /** The books agree with the pages of a scan: their labels, and the rows accepted on them. */
  ghost predicate BooksMatch(scan: Accumulator, pages: seq<PageRun>)
    reads scan
  {
    scan.Balanced(0) && scan.pageSequence == Labels(pages) && scan.accepted == WantedIn(pages)
  }

  lemma OneMorePage(pages: seq<PageRun>, p: PageRun)
    ensures Labels(pages + [p]) == Labels(pages) + [p.page] && WantedIn(pages + [p]) == WantedIn(pages) + |p.wanted|
  {
    assert (pages + [p])[..|pages|] == pages;
  }

  /** The crawler's dedupe set, shared by all keywords and all attempts. */
  class Crawler {
    var seen: set<string>

    constructor ()
      ensures seen == {}
    {
      seen := {};
    }

    /** Opens the wanted rows of a page one after the other. */
    method OpenRows(keys: seq<string>, page: nat, scripts: seq<RowScript>, open: RowOpener) returns (r: RowsRun)
      modifies this`seen
      ensures r == RunRows(keys, page, old(seen), scripts, open) && seen == r.seen
    {
      var rows: seq<RowRun>, kept: seq<Project> := [], [];
      var todo, answers := keys, scripts;
      ghost var whole := RunRows(keys, page, seen, scripts, open);
      while todo != []
        invariant whole == AfterDone(rows, kept, RunRows(todo, page, seen, answers, open))
        decreases |todo|
      {
        if answers == [] {
          return RowsRun(rows, kept, seen, Some(Killed));
        }
        var run := open(todo[0], page, seen, answers[0]);
        RowsJoin(rows, kept, run, RestOfRows(run, todo[1..], page, answers[1..], open));
        rows, kept, seen := rows + [run], kept + Opt(run.kept), run.seen;
        if run.exit.Some? {
          return RowsRun(rows, kept, seen, run.exit);
        }
        todo, answers := todo[1..], answers[1..];
      }
      return RowsRun(rows, kept, seen, None);
    }

    /** Scans one page, keeping the books of all `pages` so far in `scan`. */
    method ScanPage(page: nat, script: PageScript, s: Settings, scan: Accumulator, ghost open: PageOpener,
                    ghost pages: seq<PageRun>)
      returns (p: PageEnd)
      requires ReadsConsistently(s) && BooksMatch(scan, pages) && OpensPages(open, s)
      modifies this`seen, scan
      ensures p == open(page, old(seen), script) && seen == p.seen
      ensures BooksMatch(scan, pages + p.pages)
      ensures scan.outcome == old(scan.outcome) && scan.terminalPage == old(scan.terminalPage)
      ensures p.ending.Some? && p.ending.value.Finished? ==>
                p.ending.value.outcome.Some? && p.ending.value.terminalPage == page
    {
      ghost var before := seen;
      assert open(page, before, script) == RunPage(page, before, script, s);
      var look := s.read(script.parse);
      if look.LookFails? {
        assert pages + [] == pages;
        return PageEnd([], [], seen, Some(if look.fault.SaysClosed() then Died(page) else Aborted(look.fault)));
      }
      var wanted :=
        scan.CountPage(page, script.found, HeaderSignature(look.headers), look.rows, seen, s.discoverable, s.expected);
      var rows := OpenRows(wanted, page, script.rows, s.openRow);
      var run := PageRun(page, wanted, rows.rows);
      OneMorePage(pages, run);
      p := PageEnd([run], rows.kept, rows.seen, AfterRows(page, rows.exit, script.advance, s.cap));
    }

    /** Writes the outcome of a finished scan into the books. */
    method CloseBooks(ending: Ending, scan: Accumulator, ghost pages: seq<PageRun>)
      requires BooksMatch(scan, pages) && scan.outcome.None? && scan.terminalPage.None?
      requires ending.Finished? ==> ending.outcome.Some?
      modifies scan
      ensures BooksMatch(scan, pages) && Closed(ending, scan.outcome, scan.terminalPage)
    {
      if ending.Finished? {
        scan.terminalPage, scan.outcome := Some(ending.terminalPage), ending.outcome;
      }
    }

    /** Scans a keyword from page `start` on. */
    method CollectKeyword(start: nat, scripts: seq<PageScript>, s: Settings, scan: Accumulator, ghost open: PageOpener)
      returns (r: ScanRun)
      requires ReadsConsistently(s) && OpensPages(open, s)
      requires BooksMatch(scan, []) && scan.outcome.None? && scan.terminalPage.None?
      modifies this`seen, scan
      ensures r == RunPages(Max(1, start), old(seen), scripts, s.cap, open) && seen == r.seen
      ensures BooksMatch(scan, r.pages)
      ensures Closed(r.ending, scan.outcome, scan.terminalPage)
    {
      var page: nat, answers := Max(1, start), scripts;
      var pages: seq<PageRun>, kept: seq<Project> := [], [];
      ghost var whole := RunPages(page, seen, answers, s.cap, open);
      while page <= s.cap
        invariant BooksMatch(scan, pages) && scan.outcome.None? && scan.terminalPage.None?
        invariant whole == AfterPages(pages, kept, RunPages(page, seen, answers, s.cap, open))
        decreases |answers|
      {
        if answers == [] {
          return ScanRun(pages, kept, seen, Aborted(Killed));
        }
        NextPage(pages, kept, page, seen, answers, s.cap, open);
        var p := ScanPage(page, answers[0], s, scan, open, pages);
        pages, kept := pages + p.pages, kept + p.kept;
        if p.ending.Some? {
          CloseBooks(p.ending.value, scan, pages);
          return ScanRun(pages, kept, seen, p.ending.value);
        }
        page, answers := page + 1, answers[1..];
      }
      return ScanRun(pages, kept, seen, Finished(None, page));
    }
  }
}
