/** What every crawl keeps, with any number of browser deaths and resumes. */
module CrawlTheorems {
  import opened Text
  import opened Failures
  import opened RestorePage
  import opened RowBody
  import opened ResultsScan
  import opened ScanTheorems
  import opened Discovery

  // ---------------------------------------------------------------------------
  // Rounds
  // ---------------------------------------------------------------------------

  function StartOf(resume: Option<nat>): nat { if resume.Some? then Max(1, resume.value) else 1 }

  /** What a crawl needs of a round: it starts on the page it was asked for, reached by exactly one
      click less; a round that does not get there scans nothing. */
  ghost predicate RoundFits(keyword: nat, resume: Option<nat>, seen: set<string>, cap: int, e: AttemptEnd) {
    var a := e.attempt;
    && a.keyword == keyword && a.start == StartOf(resume)
    && (a.reached ==> a.clicks == a.start - 1 && a.place == a.start)
    && (a.reached ==> ScanFits(a.start, seen, cap, ScanRun(a.pages, a.kept, e.seen, a.ending)))
    && (!a.reached ==> a.pages == [] && a.kept == [] && e.seen == seen && !a.ending.Died? && !a.ending.Finished?
                       && (a.ending.Aborted? ==> !a.ending.exn.BrowserClosed?))
  }

  ghost predicate RoundsFit(open: AttemptOpener, cap: int) {
    forall keyword, resume, seen, a :: RoundFits(keyword, resume, seen, cap, open(keyword, resume, seen, a))
  }

  lemma ScanRoundFits(
    keyword: nat, resume: Option<nat>, start: nat, clicks: nat, seen: set<string>, a: AttemptScript, s: Settings)
    requires RowsFit(s.openRow) && clicks == Max(1, start) - 1 && StartOf(resume) == Max(1, start)
    ensures RoundFits(keyword, resume, seen, s.cap, Scan(keyword, start, clicks, Max(1, start), seen, a, s))
  {
    ScanSafety(start, seen, a.pages, s);
  }

  lemma UnopenedFits(keyword: nat, resume: Option<nat>, clicks: nat, ending: Ending, seen: set<string>, cap: int)
    requires ending.NoHits? || (ending.Aborted? && !ending.exn.BrowserClosed?)
    ensures RoundFits(keyword, resume, seen, cap, Unopened(keyword, StartOf(resume), clicks, ending, seen))
  {
  }

  lemma ResumedRoundFits(keyword: nat, page: nat, seen: set<string>, a: AttemptScript, s: Settings)
    requires RowsFit(s.openRow)
    ensures RoundFits(keyword, Some(page), seen, s.cap, RunAttempt(keyword, Some(page), seen, a, s))
  {
    var r := Restore(page, a.restore);
    RestoreReaches(page, a.restore);
    if r.exit.None? {
      ScanRoundFits(keyword, Some(page), page, r.clicked, seen, a, s);
    } else {
      UnopenedFits(keyword, Some(page), r.clicked, Aborted(r.exit.value), seen, s.cap);
    }
  }

  lemma FreshRoundFits(keyword: nat, seen: set<string>, a: AttemptScript, s: Settings)
    requires RowsFit(s.openRow)
    ensures RoundFits(keyword, None, seen, s.cap, RunAttempt(keyword, None, seen, a, s))
  {
    if keyword > 0 && a.clear.Some? {
      UnopenedFits(keyword, None, 0, Aborted(a.clear.value), seen, s.cap);
    } else {
      match a.search {
        case SearchFails(fault) => UnopenedFits(keyword, None, 0, Aborted(fault), seen, s.cap);
        case NoResults => UnopenedFits(keyword, None, 0, NoHits, seen, s.cap);
        case HasResults => ScanRoundFits(keyword, None, 1, 0, seen, a, s);
      }
    }
  }

  lemma ProgramRoundsFit(s: Settings)
    requires RowsFit(s.openRow)
    ensures RoundsFit(AttemptOpenerOf(s), s.cap)
  {
    forall keyword, resume: Option<nat>, seen, a
      ensures RoundFits(keyword, resume, seen, s.cap, AttemptOpenerOf(s)(keyword, resume, seen, a))
    {
      if resume.Some? {
        ResumedRoundFits(keyword, resume.value, seen, a, s);
      } else {
        FreshRoundFits(keyword, seen, a, s);
      }
    }
  }

  // ---------------------------------------------------------------------------
  // Crawls
  // ---------------------------------------------------------------------------

  /** Everything handed to the project callback, over all rounds. */
  function Streamed(attempts: seq<Attempt>): seq<Project> {
    if attempts == [] then [] else StreamsOfPages(attempts[0].pages) + Streamed(attempts[1..])
  }

  /** What the rounds that finished a keyword kept. */
  function KeptByFinished(attempts: seq<Attempt>): seq<Project> {
    if attempts == [] then []
    else (if attempts[0].ending.Finished? then attempts[0].kept else []) + KeptByFinished(attempts[1..])
  }

  predicate IsSubsequence<T(==)>(a: seq<T>, b: seq<T>) {
    a == [] || (b != [] && (if a[0] == b[0] then IsSubsequence(a[1..], b[1..]) else IsSubsequence(a, b[1..])))
  }

  /** How one round follows another: after a death the same keyword on the page of the death,
      after a completed keyword the next one from its first page. */
  ghost predicate Follows(before: Attempt, after: Attempt) {
    match before.ending
    case Died(page) => after.keyword == before.keyword && after.start == Max(1, page)
    case Aborted(_) => false
    case _ => after.keyword == before.keyword + 1 && after.start == 1
  }

  ghost predicate RoundIsSafe(a: Attempt, cap: int) {
    && a.start >= 1
    && (a.reached ==> a.clicks == a.start - 1 && a.place == a.start && Consecutive(a.pages, a.start)
                      && ScanEnds(a.start, cap, |a.pages|, a.ending) && CompletePages(a.pages, a.start, a.ending)
                      && PageLedgers(a.pages))
    && (!a.reached ==> a.pages == [] && !a.ending.Died? && !a.ending.Finished?)
  }

  /** The projects of a crawl: fresh keys, and the returned ones are those of finished keywords. */
  ghost predicate ProjectsFit(seen: set<string>, r: Crawl) {
    && FreshKeys(Streamed(r.attempts), seen, r.seen)
    && r.discovered == KeptByFinished(r.attempts)
    && forall k :: 0 <= k < |r.attempts| ==> r.attempts[k].kept == StreamsOfPages(r.attempts[k].pages)
  }

  ghost predicate RoundsAreSafe(attempts: seq<Attempt>, cap: int) {
    forall k :: 0 <= k < |attempts| ==> RoundIsSafe(attempts[k], cap)
  }

  /** The order of the rounds, from some keyword and page on; a crawl that returns has completed
      its last keyword. */
  ghost predicate OrderFits(keyword: nat, start: nat, count: nat, attempts: seq<Attempt>, returned: bool) {
    && (forall k :: 0 < k < |attempts| ==> Follows(attempts[k - 1], attempts[k]))
    && (attempts != [] ==> attempts[0].keyword == keyword && attempts[0].start == start)
    && (returned ==> if keyword >= count then attempts == [] else
          attempts != [] && attempts[|attempts| - 1].Completed() && attempts[|attempts| - 1].keyword == count - 1)
  }

  ghost predicate CrawlFits(keyword: nat, start: nat, count: nat, cap: int, seen: set<string>, r: Crawl) {
    ProjectsFit(seen, r) && RoundsAreSafe(r.attempts, cap) && OrderFits(keyword, start, count, r.attempts, r.exit.None?)
  }

  lemma FirstProjectsFit(keyword: nat, resume: Option<nat>, cap: int, seen: set<string>, e: AttemptEnd, rest: Crawl)
    requires RoundFits(keyword, resume, seen, cap, e) && ProjectsFit(e.seen, rest)
    ensures ProjectsFit(seen, FirstAttempt(e.attempt, rest))
  {
    var a, whole := e.attempt, FirstAttempt(e.attempt, rest);
    assert whole.attempts[1..] == rest.attempts;
    assert a.kept == StreamsOfPages(a.pages) && FreshKeys(a.kept, seen, e.seen);
    FreshKeysJoin(a.kept, Streamed(rest.attempts), seen, e.seen, rest.seen);
  }

  lemma RoundFitsIsSafe(keyword: nat, resume: Option<nat>, cap: int, seen: set<string>, e: AttemptEnd)
    requires RoundFits(keyword, resume, seen, cap, e)
    ensures RoundIsSafe(e.attempt, cap)
  {
  }

  lemma FirstOrderFits(a: Attempt, count: nat, rest: seq<Attempt>, returned: bool, nextKeyword: nat, nextStart: nat)
    requires a.keyword < count && OrderFits(nextKeyword, nextStart, count, rest, returned)
    requires match a.ending
             case Died(page) => if rest == [] then !returned else nextKeyword == a.keyword && nextStart == Max(1, page)
             case Aborted(_) => rest == [] && !returned
             case _ => nextKeyword == a.keyword + 1 && nextStart == 1
    ensures OrderFits(a.keyword, a.start, count, [a] + rest, returned)
  {
    var whole := [a] + rest;
    assert forall k :: 1 <= k < |whole| ==> whole[k] == rest[k - 1];
    assert rest != [] ==> whole[|whole| - 1] == rest[|rest| - 1];
  }

  lemma {:induction false} ProjectsOfCrawl(
    keyword: nat, resume: Option<nat>, count: nat, seen: set<string>, scripts: seq<AttemptScript>, open: AttemptOpener,
    cap: int)
    requires RoundsFit(open, cap)
    ensures ProjectsFit(seen, RunCrawl(keyword, resume, count, seen, scripts, open))
    decreases |scripts|
  {
    if keyword < count && scripts != [] {
      var e := open(keyword, resume, seen, scripts[0]);
      var rest := RestOfCrawl(keyword, e, scripts[0].relaunch, count, scripts[1..], open);
      if e.attempt.ending.Died? {
        ProjectsOfCrawl(keyword, Some(e.attempt.ending.page), count, e.seen, scripts[1..], open, cap);
      } else {
        ProjectsOfCrawl(keyword + 1, None, count, e.seen, scripts[1..], open, cap);
      }
      assert ProjectsFit(e.seen, rest);
      FirstProjectsFit(keyword, resume, cap, seen, e, rest);
    }
  }

  lemma {:induction false} RoundsOfCrawl(
    keyword: nat, resume: Option<nat>, count: nat, seen: set<string>, scripts: seq<AttemptScript>, open: AttemptOpener,
    cap: int)
    requires RoundsFit(open, cap)
    ensures RoundsAreSafe(RunCrawl(keyword, resume, count, seen, scripts, open).attempts, cap)
    decreases |scripts|
  {
    if keyword < count && scripts != [] {
      var e := open(keyword, resume, seen, scripts[0]);
      RoundFitsIsSafe(keyword, resume, cap, seen, e);
      if e.attempt.ending.Died? {
        RoundsOfCrawl(keyword, Some(e.attempt.ending.page), count, e.seen, scripts[1..], open, cap);
      } else {
        RoundsOfCrawl(keyword + 1, None, count, e.seen, scripts[1..], open, cap);
      }
    }
  }

  lemma {:induction false} OrderOfCrawl(
    keyword: nat, resume: Option<nat>, count: nat, seen: set<string>, scripts: seq<AttemptScript>, open: AttemptOpener,
    cap: int)
    requires RoundsFit(open, cap)
    ensures var r := RunCrawl(keyword, resume, count, seen, scripts, open);
            OrderFits(keyword, StartOf(resume), count, r.attempts, r.exit.None?)
    decreases |scripts|
  {
    if keyword < count && scripts != [] {
      var e := open(keyword, resume, seen, scripts[0]);
      assert RoundFits(keyword, resume, seen, cap, e);
      var rest := RestOfCrawl(keyword, e, scripts[0].relaunch, count, scripts[1..], open);
      if e.attempt.ending.Died? {
        var page := e.attempt.ending.page;
        OrderOfCrawl(keyword, Some(page), count, e.seen, scripts[1..], open, cap);
        FirstOrderFits(e.attempt, count, rest.attempts, rest.exit.None?, keyword, Max(1, page));
      } else {
        OrderOfCrawl(keyword + 1, None, count, e.seen, scripts[1..], open, cap);
        FirstOrderFits(e.attempt, count, rest.attempts, rest.exit.None?, keyword + 1, 1);
      }
    }
  }

  /** The crawl of the program over `count` keywords. */
  function CrawlOf(count: nat, scripts: seq<AttemptScript>, s: Settings): Crawl {
    RunCrawl(0, None, count, {}, scripts, AttemptOpenerOf(s))
  }

  lemma CrawlIsFit(count: nat, scripts: seq<AttemptScript>, s: Settings)
    requires RowsFit(s.openRow)
    ensures CrawlFits(0, 1, count, s.cap, {}, CrawlOf(count, scripts, s))
  {
    ProgramRoundsFit(s);
    ProjectsOfCrawl(0, None, count, {}, scripts, AttemptOpenerOf(s), s.cap);
    RoundsOfCrawl(0, None, count, {}, scripts, AttemptOpenerOf(s), s.cap);
    OrderOfCrawl(0, None, count, {}, scripts, AttemptOpenerOf(s), s.cap);
  }

  // ---------------------------------------------------------------------------
  // Projects
  // ---------------------------------------------------------------------------

  ghost predicate DistinctKeys(projects: seq<Project>) {
    forall i, j :: 0 <= i < j < |projects| ==> ProjectKey(projects[i]) != ProjectKey(projects[j])
  }

  lemma {:induction false} PrependSubsequence<T>(a: seq<T>, b: seq<T>, common: seq<T>)
    requires IsSubsequence(a, b)
    ensures IsSubsequence(common + a, common + b)
  {
    if common == [] {
      assert common + a == a && common + b == b;
    } else {
      PrependSubsequence(a, b, common[1..]);
      assert (common + a)[1..] == common[1..] + a && (common + b)[1..] == common[1..] + b;
    }
  }

  lemma {:induction false} DropPrefix<T>(a: seq<T>, b: seq<T>)
    requires a != [] && IsSubsequence(a, b)
    ensures IsSubsequence(a[1..], b)
  {
    if b != [] {
      if a[0] == b[0] {
        if a[1..] != [] && a[1] == b[0] {
          DropPrefix(a[1..], b[1..]);
        }
      } else {
        DropPrefix(a, b[1..]);
        if a[1..] != [] && a[1] == b[0] {
          DropPrefix(a[1..], b[1..]);
        }
      }
    }
  }

  lemma {:induction false} SkipPrefix<T>(a: seq<T>, prefix: seq<T>, b: seq<T>)
    requires IsSubsequence(a, b)
    ensures IsSubsequence(a, prefix + b)
  {
    if prefix == [] {
      assert prefix + b == b;
    } else {
      SkipPrefix(a, prefix[1..], b);
      assert (prefix + b)[1..] == prefix[1..] + b;
      if a != [] && a[0] == prefix[0] {
        DropPrefix(a, prefix[1..] + b);
      }
    }
  }

  lemma {:induction false} KeptIsSubsequence(attempts: seq<Attempt>)
    requires forall k :: 0 <= k < |attempts| ==> attempts[k].kept == StreamsOfPages(attempts[k].pages)
    ensures IsSubsequence(KeptByFinished(attempts), Streamed(attempts))
  {
    if attempts != [] {
      var a, rest := attempts[0], attempts[1..];
      KeptIsSubsequence(rest);
      if a.ending.Finished? {
        PrependSubsequence(KeptByFinished(rest), Streamed(rest), a.kept);
      } else {
        SkipPrefix(KeptByFinished(rest), StreamsOfPages(a.pages), Streamed(rest));
        assert [] + KeptByFinished(rest) == KeptByFinished(rest);
      }
    }
  }

  lemma {:induction false} SubsequenceMembers(a: seq<Project>, b: seq<Project>)
    requires IsSubsequence(a, b) && DistinctKeys(b)
    ensures DistinctKeys(a) && forall p :: p in a ==> p in b
  {
    if a != [] {
      if a[0] == b[0] {
        SubsequenceMembers(a[1..], b[1..]);
        assert forall p :: p in a[1..] ==> p in b[1..];
        forall j | 0 < j < |a|
          ensures ProjectKey(a[0]) != ProjectKey(a[j])
        {
          assert a[j] == a[1..][j - 1] && a[j] in b[1..];
          var k :| 0 <= k < |b[1..]| && b[1..][k] == a[j];
          assert b[k + 1] == a[j];
        }
        forall i, j | 0 < i < j < |a|
          ensures ProjectKey(a[i]) != ProjectKey(a[j])
        {
          assert a[i] == a[1..][i - 1] && a[j] == a[1..][j - 1];
        }
        assert a == [a[0]] + a[1..];
      } else {
        SubsequenceMembers(a, b[1..]);
      }
    }
  }

  /** Over any whole crawl, with any number of browser deaths and resumes: no dedupe key is handed
      to the project callback twice, and the projects the crawl returns are a subsequence of those
      it handed over, with pairwise distinct keys: exactly the ones of the rounds that finished
      their keyword. */
  lemma NeverStreamedTwice(count: nat, scripts: seq<AttemptScript>, s: Settings)
    requires RowsFit(s.openRow)
    ensures var r := CrawlOf(count, scripts, s);
            && DistinctKeys(Streamed(r.attempts))
            && r.discovered == KeptByFinished(r.attempts)
            && IsSubsequence(r.discovered, Streamed(r.attempts))
            && DistinctKeys(r.discovered)
  {
    CrawlIsFit(count, scripts, s);
    var r := CrawlOf(count, scripts, s);
    KeptIsSubsequence(r.attempts);
    SubsequenceMembers(r.discovered, Streamed(r.attempts));
  }

  // ---------------------------------------------------------------------------
  // Pages
  // ---------------------------------------------------------------------------

  lemma {:induction false} EarlierPagesScanned(attempts: seq<Attempt>, cap: int, i: nat, page: nat)
    requires i < |attempts| && RoundsAreSafe(attempts, cap) && attempts[0].start == 1
    requires forall k :: 0 < k < |attempts| ==> Follows(attempts[k - 1], attempts[k])
    requires 1 <= page < attempts[i].start
    ensures exists j :: 0 <= j < i && attempts[j].keyword == attempts[i].keyword && attempts[j].Scanned(page)
  {
    var before := attempts[i - 1];
    assert Follows(before, attempts[i]) && RoundIsSafe(before, cap);
    if page >= before.start {
      assert before.pages[page - before.start].page == page && Complete(before.pages[page - before.start]);
    } else {
      EarlierPagesScanned(attempts, cap, i - 1, page);
    }
  }

  /** For every round that finishes its keyword on some terminal page, every page from the first
      to that one was scanned completely by this round or an earlier one of the same keyword: all
      its wanted rows were run and finished. */
  lemma NoPageMissed(count: nat, scripts: seq<AttemptScript>, s: Settings, i: nat, page: nat)
    requires RowsFit(s.openRow)
    requires var attempts := CrawlOf(count, scripts, s).attempts;
             && i < |attempts| && attempts[i].ending.Finished? && attempts[i].ending.outcome.Some?
             && 1 <= page <= attempts[i].ending.terminalPage
    ensures var attempts := CrawlOf(count, scripts, s).attempts;
            exists j :: 0 <= j <= i && attempts[j].keyword == attempts[i].keyword && attempts[j].Scanned(page)
  {
    CrawlIsFit(count, scripts, s);
    var attempts := CrawlOf(count, scripts, s).attempts;
    assert RoundIsSafe(attempts[i], s.cap);
    if page >= attempts[i].start {
      var k := page - attempts[i].start;
      assert attempts[i].pages[k].page == page && Complete(attempts[i].pages[k]);
    } else {
      EarlierPagesScanned(attempts, s.cap, i, page);
    }
  }

  /** Every round but the first follows a completed keyword on page 1 of the next one, or a death on
      the page where the browser died; it gets there with exactly one click less than that page,
      and scans consecutive pages from there. */
  lemma ResumesWhereItDied(count: nat, scripts: seq<AttemptScript>, s: Settings, i: nat)
    requires RowsFit(s.openRow) && 0 < i < |CrawlOf(count, scripts, s).attempts|
    ensures var attempts := CrawlOf(count, scripts, s).attempts;
            && (attempts[i - 1].ending.Died? ==>
                  && attempts[i].keyword == attempts[i - 1].keyword
                  && attempts[i].start == Max(1, attempts[i - 1].ending.page))
            && (attempts[i - 1].Completed() ==>
                attempts[i].keyword == attempts[i - 1].keyword + 1 && attempts[i].start == 1)
            && (attempts[i - 1].ending.Died? || attempts[i - 1].Completed())
            && (attempts[i].reached ==> attempts[i].clicks == attempts[i].start - 1)
            && Consecutive(attempts[i].pages, attempts[i].start)
  {
    CrawlIsFit(count, scripts, s);
    var attempts := CrawlOf(count, scripts, s).attempts;
    assert Follows(attempts[i - 1], attempts[i]) && RoundIsSafe(attempts[i], s.cap);
  }

  // ---------------------------------------------------------------------------
  // Keywords
  // ---------------------------------------------------------------------------

  lemma {:induction false} KeywordsOnlyGrow(attempts: seq<Attempt>, i: nat, j: nat)
    requires i <= j < |attempts|
    requires forall k :: 0 < k < |attempts| ==> Follows(attempts[k - 1], attempts[k])
    ensures attempts[i].keyword <= attempts[j].keyword
    ensures i < j && attempts[i].Completed() ==> attempts[i].keyword < attempts[j].keyword
    decreases j - i
  {
    if i < j {
      KeywordsOnlyGrow(attempts, i + 1, j);
      assert Follows(attempts[i], attempts[i + 1]);
    }
  }

  lemma {:induction false} KeywordsCompleted(attempts: seq<Attempt>, j: nat, keyword: nat)
    requires j < |attempts| && attempts[0].keyword == 0 && keyword <= attempts[j].keyword
    requires keyword == attempts[j].keyword ==> attempts[j].Completed()
    requires forall k :: 0 < k < |attempts| ==> Follows(attempts[k - 1], attempts[k])
    ensures exists i :: 0 <= i <= j && attempts[i].keyword == keyword && attempts[i].Completed()
  {
    if keyword < attempts[j].keyword {
      assert Follows(attempts[j - 1], attempts[j]);
      KeywordsCompleted(attempts, j - 1, keyword);
    }
  }

  /** A crawl that returns has completed every keyword. */
  lemma EveryKeywordCompleted(count: nat, scripts: seq<AttemptScript>, s: Settings, keyword: nat)
    requires RowsFit(s.openRow) && CrawlOf(count, scripts, s).exit.None? && keyword < count
    ensures var attempts := CrawlOf(count, scripts, s).attempts;
            exists i :: 0 <= i < |attempts| && attempts[i].keyword == keyword && attempts[i].Completed()
  {
    CrawlIsFit(count, scripts, s);
    var attempts := CrawlOf(count, scripts, s).attempts;
    KeywordsCompleted(attempts, |attempts| - 1, keyword);
  }

  /** No crawl completes a keyword twice or comes back to one it has completed. */
  lemma CompletedOnce(count: nat, scripts: seq<AttemptScript>, s: Settings, i: nat, j: nat)
    requires RowsFit(s.openRow) && i < j < |CrawlOf(count, scripts, s).attempts|
    requires CrawlOf(count, scripts, s).attempts[i].Completed()
    ensures CrawlOf(count, scripts, s).attempts[i].keyword < CrawlOf(count, scripts, s).attempts[j].keyword
  {
    CrawlIsFit(count, scripts, s);
    KeywordsOnlyGrow(CrawlOf(count, scripts, s).attempts, i, j);
  }

  // ---------------------------------------------------------------------------
  // Labels and pages
  // ---------------------------------------------------------------------------

  /** In every round of every crawl that reaches its results, all page labels are true exactly when
      no page but the last is left by its rows. */
  lemma LabelsAreTrueExactly(count: nat, scripts: seq<AttemptScript>, s: Settings, i: nat)
    requires RowsFit(s.openRow) && i < |CrawlOf(count, scripts, s).attempts|
    requires CrawlOf(count, scripts, s).attempts[i].reached
    ensures var a := CrawlOf(count, scripts, s).attempts[i];
            (forall k :: 0 <= k < |a.pages| ==> PlaceAt(a.pages, a.place, k) == a.pages[k].page) <==>
            (forall k :: 0 <= k < |a.pages| - 1 ==> !LeavesPage(a.pages[k]))
  {
    CrawlIsFit(count, scripts, s);
    var a := CrawlOf(count, scripts, s).attempts[i];
    assert RoundIsSafe(a, s.cap);
    LabelsTrueExactly(a.pages, a.start);
  }

  // ---------------------------------------------------------------------------
  // The program
  // ---------------------------------------------------------------------------

  /** The crawl of the program itself, whatever the pages, the network and the callbacks do: it is
      the crawl the lemmas above are about, and none of them needs more than its settings. */
  method Discover(count: nat, scripts: seq<AttemptScript>, cap: int, expected: string, discoverable: string -> bool)
    returns (r: Crawl)
    ensures RowsFit(ProgramSettings(cap, expected, discoverable).openRow)
    ensures r == CrawlOf(count, scripts, ProgramSettings(cap, expected, discoverable))
    ensures DistinctKeys(Streamed(r.attempts)) && DistinctKeys(r.discovered)
            && IsSubsequence(r.discovered, Streamed(r.attempts))
  {
    var s := ProgramSettings(cap, expected, discoverable);
    ProgramReadsConsistently(cap, expected, discoverable);
    ProgramRowsFit();
    NeverStreamedTwice(count, scripts, s);
    r := CrawlLiveDiscovery(count, scripts, s, AttemptOpenerOf(s));
  }
}
