/** The whole crawl (browser_discovery.py): all keywords, with a browser that can die at any time
    and is started again on the page where it died. */
module Discovery {
  import opened Text
  import opened Failures
  import opened RestorePage
  import opened RowBody
  import opened KeywordScan
  import opened ResultsScan
  import opened ScanTheorems

  /** The first search of a keyword, with its own budget for empty results. */
  datatype FirstSearch = SearchFails(fault: Fault) | NoResults | HasResults

  /** What one round of the keyword loop answers. `clear`: clearing the form of the keyword before.
      `relaunch`: starting the browser again after it died. */
  datatype AttemptScript = AttemptScript(
    clear: Option<Fault>,
    search: FirstSearch,
    restore: RestoreScript,
    pages: seq<PageScript>,
    relaunch: Option<Fault>)

  /** One round: the keyword, the page it starts on, the clicks that led there, where the browser
      then stands, what was scanned and kept. `reached`: the results of the keyword were. */
  datatype Attempt = Attempt(
    keyword: nat,
    start: nat,
    reached: bool,
    clicks: nat,
    place: nat,
    pages: seq<PageRun>,
    kept: seq<Project>,
    ending: Ending)
  {
    predicate Completed() { ending.Finished? || ending.NoHits? }
    /** Every wanted row of the page was run and finished in this round. */
    ghost predicate Scanned(page: nat) { exists k :: 0 <= k < |pages| && pages[k].page == page && Complete(pages[k]) }
  }

  datatype AttemptEnd = AttemptEnd(attempt: Attempt, seen: set<string>)

  function Unopened(keyword: nat, start: nat, clicks: nat, ending: Ending, seen: set<string>): AttemptEnd {
    AttemptEnd(Attempt(keyword, start, false, clicks, start, [], [], ending), seen)
  }

  function Scan(keyword: nat, start: nat, clicks: nat, place: nat, seen: set<string>, a: AttemptScript,
                s: Settings): AttemptEnd
  {
    var r := RunScan(start, seen, a.pages, s);
    AttemptEnd(Attempt(keyword, Max(1, start), true, clicks, place, r.pages, r.kept, r.ending), r.seen)
  }

  function RunAttempt(keyword: nat, resume: Option<nat>, seen: set<string>, a: AttemptScript, s: Settings): AttemptEnd {
    match resume
    case Some(page) =>
      var r := Restore(page, a.restore);
      if r.exit.Some? then Unopened(keyword, Max(1, page), r.clicked, Aborted(r.exit.value), seen)
      else Scan(keyword, page, r.clicked, r.place, seen, a, s)
    case None =>
      if keyword > 0 && a.clear.Some? then Unopened(keyword, 1, 0, Aborted(a.clear.value), seen)
      else
        match a.search
        case SearchFails(fault) => Unopened(keyword, 1, 0, Aborted(fault), seen)
        case NoResults => Unopened(keyword, 1, 0, NoHits, seen)
        case HasResults => Scan(keyword, 1, 0, 1, seen, a, s)
  }

  /** How one round is run: keyword, page to resume on, keys seen. */
  type AttemptOpener = (nat, Option<nat>, set<string>, AttemptScript) -> AttemptEnd

  function AttemptOpenerOf(s: Settings): AttemptOpener {
    (keyword: nat, resume: Option<nat>, seen: set<string>, a: AttemptScript) => RunAttempt(keyword, resume, seen, a, s)
  }

  /** The rounds of a crawl, the projects it returns, and what it raised instead. */
  datatype Crawl = Crawl(attempts: seq<Attempt>, discovered: seq<Project>, seen: set<string>, exit: Option<Exn>)

  function FirstAttempt(a: Attempt, rest: Crawl): Crawl {
    rest.(attempts := [a] + rest.attempts,
          discovered := (if a.ending.Finished? then a.kept else []) + rest.discovered)
  }

  function RunCrawl(
    keyword: nat, resume: Option<nat>, count: nat, seen: set<string>, scripts: seq<AttemptScript>,
    open: AttemptOpener): Crawl
    decreases |scripts|, 0
  {
    if keyword >= count then Crawl([], [], seen, None)
    else if scripts == [] then Crawl([], [], seen, Some(Killed))
    else
      var e := open(keyword, resume, seen, scripts[0]);
      FirstAttempt(e.attempt, RestOfCrawl(keyword, e, scripts[0].relaunch, count, scripts[1..], open))
  }

  /** What follows a round: the next keyword, the same keyword in a new browser, or nothing. */
  function RestOfCrawl(
    keyword: nat, e: AttemptEnd, relaunch: Option<Fault>, count: nat, scripts: seq<AttemptScript>,
    open: AttemptOpener): Crawl
    decreases |scripts|, 1
  {
    match e.attempt.ending
    case Aborted(exn) => Crawl([], [], e.seen, Some(exn))
    case Died(page) =>
      if relaunch.Some? then Crawl([], [], e.seen, relaunch)
      else RunCrawl(keyword, Some(page), count, e.seen, scripts, open)
    case _ => RunCrawl(keyword + 1, None, count, e.seen, scripts, open)
  }

  // ---------------------------------------------------------------------------
  // The program
  // ---------------------------------------------------------------------------

  function AfterAttempts(attempts: seq<Attempt>, discovered: seq<Project>, rest: Crawl): Crawl {
    rest.(attempts := attempts + rest.attempts, discovered := discovered + rest.discovered)
  }

  /** What is still to come of a crawl. */
  function Remaining(
    exit: Option<Exn>, keyword: nat, resume: Option<nat>, count: nat, seen: set<string>, scripts: seq<AttemptScript>,
    open: AttemptOpener): Crawl
  {
    if exit.Some? then Crawl([], [], seen, exit) else RunCrawl(keyword, resume, count, seen, scripts, open)
  }

  lemma AttemptsJoin(attempts: seq<Attempt>, discovered: seq<Project>, a: Attempt, rest: Crawl)
    ensures AfterAttempts(attempts, discovered, FirstAttempt(a, rest))
            == AfterAttempts(attempts + [a], discovered + (if a.ending.Finished? then a.kept else []), rest)
  {
    assert attempts + ([a] + rest.attempts) == attempts + [a] + rest.attempts;
    var kept := if a.ending.Finished? then a.kept else [];
    assert discovered + (kept + rest.discovered) == discovered + kept + rest.discovered;
  }

  /** The opener runs a round as the settings say. */
  ghost predicate OpensAttempts(open: AttemptOpener, s: Settings) {
    forall keyword, resume, seen, a {:trigger RunAttempt(keyword, resume, seen, a, s)} ::
      open(keyword, resume, seen, a) == RunAttempt(keyword, resume, seen, a, s)
  }

  /** One round of the keyword loop. */
  method TryKeyword(c: Crawler, keyword: nat, resume: Option<nat>, a: AttemptScript, s: Settings,
                    ghost open: AttemptOpener)
    returns (e: AttemptEnd)
    requires ReadsConsistently(s) && OpensAttempts(open, s)
    modifies c
    ensures e == open(keyword, resume, old(c.seen), a) && c.seen == e.seen
  {
    ghost var before := c.seen;
    assert open(keyword, resume, before, a) == RunAttempt(keyword, resume, before, a, s);
    var start, clicks, place: nat := 1, 0, 1;
    if resume.Some? {
      var r := RestoreResultsPage(resume.value, a.restore);
      if r.exit.Some? {
        return Unopened(keyword, Max(1, resume.value), r.clicked, Aborted(r.exit.value), c.seen);
      }
      start, clicks, place := resume.value, r.clicked, r.place;
    } else {
      if keyword > 0 && a.clear.Some? {
        return Unopened(keyword, 1, 0, Aborted(a.clear.value), c.seen);
      }
      match a.search {
        case SearchFails(fault) => return Unopened(keyword, 1, 0, Aborted(fault), c.seen);
        case NoResults => return Unopened(keyword, 1, 0, NoHits, c.seen);
        case HasResults =>
      }
    }
    var scan := new Accumulator();
    var r := c.CollectKeyword(start, a.pages, s, scan, PageOpenerOf(s));
    e := AttemptEnd(Attempt(keyword, Max(1, start), true, clicks, place, r.pages, r.kept, r.ending), r.seen);
  }

  /** The crawl over `count` keywords. */
  method CrawlLiveDiscovery(count: nat, scripts: seq<AttemptScript>, s: Settings, ghost open: AttemptOpener)
    returns (r: Crawl)
    requires ReadsConsistently(s) && OpensAttempts(open, s)
    ensures r == RunCrawl(0, None, count, {}, scripts, open)
  {
    var c := new Crawler();
    var attempts: seq<Attempt>, discovered: seq<Project>, exit: Option<Exn> := [], [], None;
    var keyword: nat, resume: Option<nat>, answers := 0, None, scripts;
    ghost var whole := RunCrawl(0, None, count, {}, scripts, open);
    while keyword < count && exit.None?
      invariant fresh(c)
      invariant whole == AfterAttempts(attempts, discovered,
                                       Remaining(exit, keyword, resume, count, c.seen, answers, open))
      decreases |answers|, exit.None?
    {
      if answers == [] {
        exit := Some(Killed);
      } else {
        var e := TryKeyword(c, keyword, resume, answers[0], s, open);
        AttemptsJoin(attempts, discovered, e.attempt,
                     RestOfCrawl(keyword, e, answers[0].relaunch, count, answers[1..], open));
        attempts := attempts + [e.attempt];
        discovered := discovered + if e.attempt.ending.Finished? then e.attempt.kept else [];
        match e.attempt.ending {
          case Aborted(exn) => exit := Some(exn);
          case Died(page) => exit, resume := answers[0].relaunch, Some(page);
          case _ => keyword, resume := keyword + 1, None;
        }
        answers := answers[1..];
      }
    }
    r := Crawl(attempts, discovered, c.seen, exit);
  }
}
