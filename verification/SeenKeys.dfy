/** What it means for a candidate to be marked as seen: nothing later in the crawl opens it again. */
module SeenKeys {
  import opened Text
  import opened Failures
  import opened ResultsTable
  import opened RestorePage
  import opened RowBody
  import opened KeywordScan
  import opened ResultsScan
  import opened ScanTheorems
  import opened Discovery
  import opened CrawlTheorems

  // ---------------------------------------------------------------------------
  // Pages and the keys they mark
  // ---------------------------------------------------------------------------

  /** A page on which no row with one of these keys is opened, and no project with one handed over. */
  ghost predicate Avoids(p: PageRun, keys: set<string>) {
    && (forall i :: 0 <= i < |p.wanted| ==> p.wanted[i] !in keys)
    && forall q :: q in StreamsOfRows(p.rows) ==> ProjectKey(q) !in keys
  }

  /** No row of the page marks more than these keys, and every one of them was a wanted row. */
  ghost predicate MarksOnly(p: PageRun, keys: set<string>) {
    |p.rows| <= |p.wanted| && forall i :: 0 <= i < |p.rows| ==> p.rows[i].seen <= keys
  }

  /** Pages run one after the other, from the seen keys `before` to the seen keys `after`: each avoids
      the keys seen before it, those marked by every row of every earlier page included. */
  ghost predicate Marks(pages: seq<PageRun>, before: set<string>, after: set<string>) {
    && before <= after
    && (forall k :: 0 <= k < |pages| ==> Avoids(pages[k], before) && MarksOnly(pages[k], after))
    && forall j, k, i :: 0 <= j < k < |pages| && 0 <= i < |pages[j].rows| ==> Avoids(pages[k], pages[j].rows[i].seen)
  }

  lemma AvoidsFewer(p: PageRun, keys: set<string>, fewer: set<string>)
    requires Avoids(p, keys) && fewer <= keys
    ensures Avoids(p, fewer)
  {
  }

  lemma MarksJoin(a: seq<PageRun>, b: seq<PageRun>, s0: set<string>, s1: set<string>, s2: set<string>)
    requires Marks(a, s0, s1) && Marks(b, s1, s2)
    ensures Marks(a + b, s0, s2)
  {
    var pages := a + b;
    forall k | 0 <= k < |pages|
      ensures Avoids(pages[k], s0) && MarksOnly(pages[k], s2)
    {
      if k >= |a| {
        assert pages[k] == b[k - |a|];
        AvoidsFewer(pages[k], s1, s0);
      }
    }
    forall j, k, i | 0 <= j < k < |pages| && 0 <= i < |pages[j].rows|
      ensures Avoids(pages[k], pages[j].rows[i].seen)
    {
      if j < |a| <= k {
        assert MarksOnly(a[j], s1) && pages[k] == b[k - |a|];
        AvoidsFewer(pages[k], s1, pages[j].rows[i].seen);
      } else if j >= |a| {
        assert pages[j] == b[j - |a|] && pages[k] == b[k - |a|];
      }
    }
  }

  // ---------------------------------------------------------------------------
  // Runs
  // ---------------------------------------------------------------------------

  lemma {:induction false} WantedAreUnseen(rows: seq<ParsedRow>, seen: set<string>)
    ensures forall i :: 0 <= i < |Wanted(rows, seen)| ==> Wanted(rows, seen)[i] !in seen
  {
    if rows != [] {
      WantedAreUnseen(rows[..|rows| - 1], seen);
    }
  }

  lemma {:induction false} RowsMarkOnly(keys: seq<string>, page: nat, seen: set<string>, scripts: seq<RowScript>,
                                        open: RowOpener)
    requires RowsFit(open) && page >= 1
    ensures var r := RunRows(keys, page, seen, scripts, open);
            seen <= r.seen && |r.rows| <= |keys| && forall i :: 0 <= i < |r.rows| ==> r.rows[i].seen <= r.seen
    decreases |keys|
  {
    if keys != [] && scripts != [] {
      var first := open(keys[0], page, seen, scripts[0]);
      assert RowFits(page, seen, first);
      if first.exit.None? {
        RowsMarkOnly(keys[1..], page, first.seen, scripts[1..], open);
      }
    }
  }

  lemma PageMarks(page: nat, seen: set<string>, script: PageScript, s: Settings)
    requires RowsFit(s.openRow) && page >= 1
    ensures var p := RunPage(page, seen, script, s); Marks(p.pages, seen, p.seen)
  {
    var look := s.read(script.parse);
    if look.Look? {
      var wanted := Wanted(look.rows, seen);
      WantedAreUnseen(look.rows, seen);
      RowsMarkOnly(wanted, page, seen, script.rows, s.openRow);
      RunRowsFit(wanted, page, seen, script.rows, s.openRow);
    }
  }

  ghost predicate PagesMark(open: PageOpener) {
    forall page, seen, script :: page >= 1 ==>
      Marks(open(page, seen, script).pages, seen, open(page, seen, script).seen)
  }

  lemma {:induction false} PagesOfScanMark(from: nat, seen: set<string>, scripts: seq<PageScript>, cap: int,
                                           open: PageOpener)
    requires PagesMark(open) && from >= 1
    ensures var r := RunPages(from, seen, scripts, cap, open); Marks(r.pages, seen, r.seen)
    decreases |scripts|
  {
    if from <= cap && scripts != [] {
      var p := open(from, seen, scripts[0]);
      var rest := Rest(p.ending, from + 1, p.seen, scripts[1..], cap, open);
      if p.ending.None? {
        PagesOfScanMark(from + 1, p.seen, scripts[1..], cap, open);
      }
      MarksJoin(p.pages, rest.pages, seen, p.seen, rest.seen);
    }
  }

  lemma ScanMarks(start: nat, seen: set<string>, scripts: seq<PageScript>, s: Settings)
    requires RowsFit(s.openRow)
    ensures var r := RunScan(start, seen, scripts, s); Marks(r.pages, seen, r.seen)
  {
    forall page: nat, seen, script | page >= 1
      ensures Marks(PageOpenerOf(s)(page, seen, script).pages, seen, PageOpenerOf(s)(page, seen, script).seen)
    {
      PageMarks(page, seen, script, s);
    }
    PagesOfScanMark(Max(1, start), seen, scripts, s.cap, PageOpenerOf(s));
  }

  lemma RoundMarks(keyword: nat, resume: Option<nat>, seen: set<string>, a: AttemptScript, s: Settings)
    requires RowsFit(s.openRow)
    ensures var e := RunAttempt(keyword, resume, seen, a, s); Marks(e.attempt.pages, seen, e.seen)
  {
    ScanMarks(if resume.Some? then resume.value else 1, seen, a.pages, s);
  }

  /** All pages of a crawl, in the order they were scanned. */
  function PagesOf(attempts: seq<Attempt>): seq<PageRun> {
    if attempts == [] then [] else attempts[0].pages + PagesOf(attempts[1..])
  }

  ghost predicate RoundsMark(open: AttemptOpener) {
    forall keyword, resume, seen, a ::
      Marks(open(keyword, resume, seen, a).attempt.pages, seen, open(keyword, resume, seen, a).seen)
  }

  lemma {:induction false} CrawlMarks(
    keyword: nat, resume: Option<nat>, count: nat, seen: set<string>, scripts: seq<AttemptScript>, open: AttemptOpener)
    requires RoundsMark(open)
    ensures var r := RunCrawl(keyword, resume, count, seen, scripts, open); Marks(PagesOf(r.attempts), seen, r.seen)
    decreases |scripts|
  {
    if keyword < count && scripts != [] {
      var e := open(keyword, resume, seen, scripts[0]);
      var rest := RestOfCrawl(keyword, e, scripts[0].relaunch, count, scripts[1..], open);
      if e.attempt.ending.Died? {
        CrawlMarks(keyword, Some(e.attempt.ending.page), count, e.seen, scripts[1..], open);
      } else {
        CrawlMarks(keyword + 1, None, count, e.seen, scripts[1..], open);
      }
      assert FirstAttempt(e.attempt, rest).attempts[1..] == rest.attempts;
      MarksJoin(e.attempt.pages, PagesOf(rest.attempts), seen, e.seen, rest.seen);
    }
  }

  /** Over any whole crawl: once a row has left a key marked as seen, no later page, in whatever round
      and for whatever keyword, opens a row with this key or hands over a project with it. This also
      holds for a candidate that was accepted, got no status, and was marked by a browser that died
      under it: the crawl never comes back to it. */
  lemma NeverOpenedAgain(count: nat, scripts: seq<AttemptScript>, s: Settings, j: nat, i: nat, k: nat, key: string)
    requires RowsFit(s.openRow)
    requires var pages := PagesOf(CrawlOf(count, scripts, s).attempts);
             j < k < |pages| && i < |pages[j].rows| && key in pages[j].rows[i].seen
    ensures var page := PagesOf(CrawlOf(count, scripts, s).attempts)[k];
            key !in page.wanted && forall p :: p in StreamsOfRows(page.rows) ==> ProjectKey(p) != key
  {
    forall keyword, resume, seen, a
      ensures Marks(AttemptOpenerOf(s)(keyword, resume, seen, a).attempt.pages, seen,
                    AttemptOpenerOf(s)(keyword, resume, seen, a).seen)
    {
      RoundMarks(keyword, resume, seen, a, s);
    }
    CrawlMarks(0, None, count, {}, scripts, AttemptOpenerOf(s));
  }
}
