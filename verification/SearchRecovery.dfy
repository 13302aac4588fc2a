/** The search recursion of browser_discovery.py. The page is an environment that answers the
    n-th call of `SearchKeyword`; nothing is assumed about the answers. */
module SearchRecovery {
  import opened Text
  import opened Failures

  function Pos(x: int): nat { if x < 0 then 0 else x }

  // ---------------------------------------------------------------------------
  // Navigation
  // ---------------------------------------------------------------------------

  /** One attempt to load the search page: it arrives, is aborted by the browser, or fails. */
  datatype GotoAnswer = Arrived | Aborted | Broken(exn: Exn)

  const ABORTED := Error(OtherError, false, false)

  datatype Navigation = Navigation(raised: Option<Exn>, attempts: nat)

  /** Aborted loads are tried again while the budget lasts. */
  function GotoWithRecovery(budget: int, answer: nat -> GotoAnswer, k: nat): Navigation
    decreases Pos(budget)
  {
    match answer(k)
    case Arrived => Navigation(None, 1)
    case Broken(exn) => Navigation(Some(exn), 1)
    case Aborted =>
      if budget <= 0 then Navigation(Some(ABORTED), 1)
      else
        var rest := GotoWithRecovery(budget - 1, answer, k + 1);
        rest.(attempts := rest.attempts + 1)
  }

  /** One navigation stops at the first load that is not aborted, and tries at most one load
      more than its budget. */
  lemma {:induction false} GotoIsBounded(budget: int, answer: nat -> GotoAnswer, k: nat)
    ensures var g := GotoWithRecovery(budget, answer, k);
            && 1 <= g.attempts <= Pos(budget) + 1
            && (forall i: nat :: k <= i < k + g.attempts - 1 ==> answer(i) == Aborted)
            && (g.raised.None? <==> answer(k + g.attempts - 1) == Arrived)
            && (answer(k + g.attempts - 1) == Aborted ==> g.attempts == Pos(budget) + 1)
    decreases Pos(budget)
  {
    if answer(k) == Aborted && budget > 0 {
      GotoIsBounded(budget - 1, answer, k + 1);
    }
  }

  // ---------------------------------------------------------------------------
  // The recursion
  // ---------------------------------------------------------------------------

  /** What the page does during one call, in the order it is asked. The four failures are
      exceptions that escape before the button is looked up, before the submit, after it, and
      while the results are read. */
  datatype Call = Call(
    failsEarly: Option<Exn>,
    hadResults: bool,
    cleared: bool,
    hasButton: bool,
    goto: nat -> GotoAnswer,
    failsBeforeSubmit: Option<Exn>,
    sameKeyword: bool,
    failsAfterSubmit: Option<Exn>,
    toastOnSubmit: bool,
    toastOnResults: bool,
    failsReading: Option<Exn>,
    noResults: bool,
    noResultsAgain: bool,
    markerChanged: bool,
    markerNamesKeyword: bool,
    firstPageWithRows: bool)

  type Environment = nat -> Call

  datatype Ending = Found | Raised(exn: Exn)

  const SITE_ERROR := Error(SearchState, false, false)

  /** What a search did: how it ended, how many calls it took, what it did to the site, and
      the call that decided it with the retries that call had. */
  datatype Search = Search(
    ending: Ending,
    calls: nat,
    submissions: nat,
    navigations: nat,
    attempts: nat,
    last: nat,
    lastRetries: int,
    lastPageRetries: int)

  /** Searches with `retries` clean-page retries in the settings and `pageRetries` page
      recoveries left, from call number `n` of the environment on. */
  function SearchKeyword(retries: int, pageRetries: int, env: Environment, n: nat): Search
    decreases Pos(retries), Pos(pageRetries), 1
  {
    var a := env(n);
    if a.failsEarly.Some? then Search(Raised(a.failsEarly.value), 1, 0, 0, 0, n, retries, pageRetries)
    else if (!a.cleared || !a.hasButton) && pageRetries > 0 then
      var g := GotoWithRecovery(retries, a.goto, 0);
      if g.raised.Some? then Search(Raised(g.raised.value), 1, 0, 1, g.attempts, n, retries, pageRetries)
      else After(0, g.attempts, SearchKeyword(retries, pageRetries - 1, env, n + 1))
    else if a.failsBeforeSubmit.Some? then
      Search(Raised(a.failsBeforeSubmit.value), 1, 0, 0, 0, n, retries, pageRetries)
    else if a.failsAfterSubmit.Some? then
      Search(Raised(a.failsAfterSubmit.value), 1, 1, 0, 0, n, retries, pageRetries)
    else if a.toastOnSubmit || a.toastOnResults then RetryOr(Raised(SITE_ERROR), retries, env, n)
    else if a.failsReading.Some? then
      Search(Raised(a.failsReading.value), 1, 1, 0, 0, n, retries, pageRetries)
    else if a.noResults && retries > 0 && (!a.hadResults || a.sameKeyword) then
      RetryOr(Found, retries, env, n)
    else if a.hadResults && !a.noResultsAgain && !a.markerChanged then
      if retries > 0 && (a.sameKeyword || a.markerNamesKeyword) then Search(Found, 1, 1, 0, 0, n, retries, pageRetries)
      else if retries > 0 then RetryOr(Found, retries, env, n)
      else if a.firstPageWithRows then Search(Found, 1, 1, 0, 0, n, retries, pageRetries)
      else Search(Raised(SITE_ERROR), 1, 1, 0, 0, n, retries, pageRetries)
    else Search(Found, 1, 1, 0, 0, n, retries, pageRetries)
  }

  /** A submitted call that starts over from a clean page with one retry less in the settings,
      or ends in `otherwise` when none is left. */
  function RetryOr(otherwise: Ending, retries: int, env: Environment, n: nat): Search
    decreases Pos(retries), 0, 0
  {
    if retries <= 0 then Search(otherwise, 1, 1, 0, 0, n, retries, 0)
    else
      var g := GotoWithRecovery(retries, env(n).goto, 0);
      if g.raised.Some? then Search(Raised(g.raised.value), 1, 1, 1, g.attempts, n, retries, 0)
      else After(1, g.attempts, SearchKeyword(retries - 1, retries - 1, env, n + 1))
  }

  /** A call that navigated once and handed over to the next call. */
  function After(submissions: nat, attempts: nat, rest: Search): Search {
    rest.(calls := rest.calls + 1, submissions := rest.submissions + submissions,
          navigations := rest.navigations + 1, attempts := rest.attempts + attempts)
  }

  // ---------------------------------------------------------------------------
  // Bounds
  // ---------------------------------------------------------------------------

  /** Recovery navigations a search can need: the page recoveries left, and for each retry one
      clean page and a fresh budget of page recoveries. */
  function NavigationBound(retries: nat, pageRetries: nat): nat {
    pageRetries + retries * (retries + 1) / 2
  }

  lemma BoundUnfolds(retries: nat)
    requires retries > 0
    ensures NavigationBound(retries - 1, retries - 1) + 1 == retries * (retries + 1) / 2
  {
    assert retries * (retries + 1) == (retries - 1) * retries + 2 * retries;
  }

  /** The bound of a fresh search, whose budget of page recoveries is its retries. */
  lemma FreshBound(retries: nat)
    ensures NavigationBound(retries, retries) == retries * (retries + 3) / 2
  {
    assert retries * (retries + 3) == retries * (retries + 1) + 2 * retries;
  }

  ghost predicate WithinBounds(s: Search, retries: nat, pageRetries: nat) {
    && s.submissions <= retries + 1
    && s.navigations <= NavigationBound(retries, pageRetries)
    && s.navigations <= s.attempts <= s.navigations * (retries + 1)
    && s.calls <= s.navigations + 1
  }

  lemma {:induction false} SearchIsBounded(retries: int, pageRetries: int, env: Environment, n: nat)
    ensures WithinBounds(SearchKeyword(retries, pageRetries, env, n), Pos(retries), Pos(pageRetries))
    decreases Pos(retries), Pos(pageRetries), 1
  {
    var a := env(n);
    var s := SearchKeyword(retries, pageRetries, env, n);
    assert Pos(retries) * (Pos(retries) + 1) / 2 >= 0;
    if a.failsEarly.None? && (!a.cleared || !a.hasButton) && pageRetries > 0 {
      GotoIsBounded(retries, a.goto, 0);
      SearchIsBounded(retries, pageRetries - 1, env, n + 1);
      var rest := SearchKeyword(retries, pageRetries - 1, env, n + 1);
      AttemptsAdd(rest.navigations, Pos(retries), Pos(retries));
    } else {
      RetryIsBounded(Found, retries, env, n);
      RetryIsBounded(Raised(SITE_ERROR), retries, env, n);
    }
  }

  lemma AttemptsAdd(navigations: nat, smaller: nat, larger: nat)
    requires smaller <= larger
    ensures navigations * (smaller + 1) + (larger + 1) <= (navigations + 1) * (larger + 1)
  {
    assert navigations * (smaller + 1) <= navigations * (larger + 1);
  }

  lemma {:induction false} RetryIsBounded(otherwise: Ending, retries: int, env: Environment, n: nat)
    ensures WithinBounds(RetryOr(otherwise, retries, env, n), Pos(retries), 0)
    decreases Pos(retries), 0, 0
  {
    if retries > 0 {
      GotoIsBounded(retries, env(n).goto, 0);
      SearchIsBounded(retries - 1, retries - 1, env, n + 1);
      BoundUnfolds(retries);
      var rest := SearchKeyword(retries - 1, retries - 1, env, n + 1);
      AttemptsAdd(rest.navigations, retries - 1, retries);
    }
  }

  /** For every page: a fresh search with r retries in the settings submits at most r + 1 times,
      navigates at most r(r + 3)/2 times to recover, each time with at most r + 1 loads. */
  lemma SearchBounds(retries: nat, env: Environment)
    ensures var s := SearchKeyword(retries, retries, env, 0);
            && s.submissions <= retries + 1
            && s.navigations <= retries * (retries + 3) / 2
            && s.attempts <= s.navigations * (retries + 1)
  {
    SearchIsBounded(retries, retries, env, 0);
    FreshBound(retries);
  }

  /** A page that never clears its challenge and reports a site error on every submit. */
  function Hostile(n: nat): Call {
    Call(None, false, false, true, k => Arrived, None, false, None, true, false, None, false, false, false, false,
         false)
  }

  lemma HostileStep(retries: nat, pageRetries: nat, n: nat)
    ensures pageRetries > 0 ==>
              SearchKeyword(retries, pageRetries, Hostile, n)
              == After(0, 1, SearchKeyword(retries, pageRetries - 1, Hostile, n + 1))
    ensures pageRetries == 0 ==>
              SearchKeyword(retries, 0, Hostile, n) == RetryOr(Raised(SITE_ERROR), retries, Hostile, n)
    ensures retries > 0 ==>
              RetryOr(Raised(SITE_ERROR), retries, Hostile, n)
              == After(1, 1, SearchKeyword(retries - 1, retries - 1, Hostile, n + 1))
  {
    var a := Hostile(n);
    assert GotoWithRecovery(retries, a.goto, 0) == Navigation(None, 1);
  }

  /** Both bounds are reached, from every budget, so neither can be lowered. */
  lemma {:induction false} HostileReaches(retries: nat, pageRetries: nat, n: nat)
    ensures var s := SearchKeyword(retries, pageRetries, Hostile, n);
            s.submissions == retries + 1 && s.navigations == NavigationBound(retries, pageRetries)
    decreases retries, pageRetries
  {
    HostileStep(retries, pageRetries, n);
    if pageRetries > 0 {
      HostileReaches(retries, pageRetries - 1, n + 1);
    } else if retries > 0 {
      HostileReaches(retries - 1, retries - 1, n + 1);
      BoundUnfolds(retries);
    }
  }

  // ---------------------------------------------------------------------------
  // What a search that returns has seen
  // ---------------------------------------------------------------------------

  /** The answers a call can return on without handing over: the submit raised nothing and no
      site error showed; an empty result is believed only without retries, or over the results of
      another keyword; an unchanged table only if it is known to be this keyword's, or, without
      retries, if it is a first page with rows. */
  ghost predicate Acceptable(a: Call, retries: int) {
    && a.failsEarly.None? && a.failsBeforeSubmit.None? && a.failsAfterSubmit.None? && a.failsReading.None?
    && !a.toastOnSubmit && !a.toastOnResults
    && (a.noResults && retries > 0 ==> a.hadResults && !a.sameKeyword)
    && (a.hadResults && !a.noResultsAgain && !a.markerChanged ==>
          if retries > 0 then a.sameKeyword || a.markerNamesKeyword else a.firstPageWithRows)
  }

  /** A search from call n on was decided by its last call, which returned exactly if it did not go back to
      load the page again and was acceptable with the retries it had left, and had then submitted. */
  ghost predicate Decided(s: Search, retries: int, env: Environment, n: nat) {
    && s.last == n + s.calls - 1
    && s.lastRetries <= retries
    && (s.ending.Found? <==>
          && Acceptable(env(s.last), s.lastRetries)
          && (s.lastPageRetries <= 0 || (env(s.last).cleared && env(s.last).hasButton)))
    && (s.ending.Found? ==> s.submissions >= 1)
  }

  lemma HandedOver(submissions: nat, attempts: nat, rest: Search, fewer: int, retries: int, env: Environment, n: nat)
    requires Decided(rest, fewer, env, n + 1) && fewer <= retries
    ensures Decided(After(submissions, attempts, rest), retries, env, n)
  {
  }

  /** A call that starts over although it could not have returned. */
  lemma {:induction false} RetryIsDecided(otherwise: Ending, retries: int, env: Environment, n: nat)
    requires !Acceptable(env(n), retries) && (otherwise.Found? ==> retries > 0)
    ensures Decided(RetryOr(otherwise, retries, env, n), retries, env, n)
    decreases Pos(retries), 0, 0
  {
    var g := GotoWithRecovery(retries, env(n).goto, 0);
    if retries > 0 && g.raised.None? {
      SearchIsDecided(retries - 1, retries - 1, env, n + 1);
      HandedOver(1, g.attempts, SearchKeyword(retries - 1, retries - 1, env, n + 1), retries - 1, retries, env, n);
    }
  }

  lemma {:induction false} SearchIsDecided(retries: int, pageRetries: int, env: Environment, n: nat)
    ensures Decided(SearchKeyword(retries, pageRetries, env, n), retries, env, n)
    decreases Pos(retries), Pos(pageRetries), 1
  {
    var a := env(n);
    if a.failsEarly.None? && (!a.cleared || !a.hasButton) && pageRetries > 0 {
      var g := GotoWithRecovery(retries, a.goto, 0);
      SearchIsDecided(retries, pageRetries - 1, env, n + 1);
      HandedOver(0, g.attempts, SearchKeyword(retries, pageRetries - 1, env, n + 1), retries, retries, env, n);
    } else if !Acceptable(a, retries) {
      RetryIsDecided(Raised(SITE_ERROR), retries, env, n);
      if retries > 0 {
        RetryIsDecided(Found, retries, env, n);
      }
    }
  }

  /** Over every chain of recoveries: a search returns exactly when its last call does not go
      back to load the page again and is acceptable with the retries that call has left. That
      very call has then submitted the keyword. */
  lemma FoundIffLastAcceptable(retries: int, pageRetries: int, env: Environment, n: nat)
    ensures var s := SearchKeyword(retries, pageRetries, env, n);
            && s.last == n + s.calls - 1
            && s.lastRetries <= retries
            && (s.ending.Found? <==>
                  && Acceptable(env(s.last), s.lastRetries)
                  && (s.lastPageRetries <= 0 || (env(s.last).cleared && env(s.last).hasButton)))
            && (s.ending.Found? ==> s.submissions >= 1)
  {
    SearchIsDecided(retries, pageRetries, env, n);
  }

  /** The page shows the unchanged table of another keyword. */
  predicate ShowsStaleTable(a: Call) {
    a.hadResults && !a.noResultsAgain && !a.markerChanged && !a.sameKeyword && !a.markerNamesKeyword
  }

  /** Nothing else speaks against a call: no exception, no site error, no empty result, and the page
      does not have to be loaded again. */
  predicate OtherwiseClean(a: Call) {
    && a.failsEarly.None? && a.failsBeforeSubmit.None? && a.failsAfterSubmit.None? && a.failsReading.None?
    && !a.toastOnSubmit && !a.toastOnResults && !a.noResults && a.cleared && a.hasButton
  }

  /** Over every chain of recoveries: a search whose last call shows the unchanged table of another
      keyword returns only without retries left and on a first page with rows, and then it does,
      unless something else speaks against it. */
  lemma StaleTableBelievedExactly(retries: int, pageRetries: int, env: Environment, n: nat)
    requires ShowsStaleTable(env(SearchKeyword(retries, pageRetries, env, n).last))
    ensures var s := SearchKeyword(retries, pageRetries, env, n);
            && (s.ending.Found? ==> s.lastRetries <= 0 && env(s.last).firstPageWithRows)
            && (OtherwiseClean(env(s.last)) ==>
                (s.ending.Found? <==> s.lastRetries <= 0 && env(s.last).firstPageWithRows))
  {
    FoundIffLastAcceptable(retries, pageRetries, env, n);
  }

  /** It happens: without retries, on the very first call. */
  lemma StaleTableCanBeBelieved(env: Environment)
    requires env(0) == Call(None, true, true, true, k => Arrived, None, false, None, false, false, None, false, false,
                            false, false, true)
    ensures SearchKeyword(0, 0, env, 0).ending == Found && ShowsStaleTable(env(0))
  {
  }

  // ---------------------------------------------------------------------------
  // The keyword's own budget for empty results
  // ---------------------------------------------------------------------------

  /** The k-th search of a keyword on some pages. */
  function SearchesOf(retries: int, envs: nat -> Environment): nat -> Search {
    (k: nat) => SearchKeyword(retries, retries, envs(k), 0)
  }

  ghost predicate AllWithinBounds(searches: nat -> Search, retries: nat) {
    forall k: nat :: WithinBounds(searches(k), retries, retries)
  }

  lemma SearchesAreBounded(retries: int, envs: nat -> Environment)
    ensures AllWithinBounds(SearchesOf(retries, envs), Pos(retries))
  {
    forall k: nat
      ensures WithinBounds(SearchKeyword(retries, retries, envs(k), 0), Pos(retries), Pos(retries))
    {
      SearchIsBounded(retries, retries, envs(k), 0);
    }
  }

  /** The first search of a keyword, and one more for every time the page still shows no results,
      while the budget lasts. `search(k)` is the k-th search, `empty(k)` says whether the page shows
      no results after it, `cleared(k)` is what escapes while the form is cleared for the next one.
      `noResults` is the final verdict: it is given only when the whole budget is spent. */
  method SearchFreshKeyword(retries: int, search: nat -> Search, empty: nat -> bool, cleared: nat -> Option<Exn>)
    returns (ending: Ending, noResults: bool, searches: nat, submissions: nat, navigations: nat)
    requires AllWithinBounds(search, Pos(retries))
    ensures 1 <= searches <= Pos(retries) + 1
    ensures submissions <= searches * (Pos(retries) + 1)
    ensures navigations <= searches * NavigationBound(Pos(retries), Pos(retries))
    ensures forall k: nat :: k < searches - 1 ==> search(k).ending.Found? && empty(k) && cleared(k).None?
    ensures ending.Found? ==> search(searches - 1).ending.Found? && noResults == empty(searches - 1)
    ensures ending.Found? && noResults ==> searches == Pos(retries) + 1
    ensures ending.Raised? ==>
              || search(searches - 1).ending == ending
              || (empty(searches - 1) && cleared(searches - 1) == Some(ending.exn))
  {
    searches, submissions, navigations, noResults := 0, 0, 0, false;
    while true
      invariant searches <= Pos(retries)
      invariant forall k: nat :: k < searches ==> search(k).ending.Found? && empty(k) && cleared(k).None?
      invariant submissions <= searches * (Pos(retries) + 1)
      invariant navigations <= searches * NavigationBound(Pos(retries), Pos(retries))
      decreases Pos(retries) - searches
    {
      var s := search(searches);
      assert WithinBounds(s, Pos(retries), Pos(retries));
      OneMore(searches, Pos(retries) + 1);
      OneMore(searches, NavigationBound(Pos(retries), Pos(retries)));
      ending, submissions, navigations := s.ending, submissions + s.submissions, navigations + s.navigations;
      searches := searches + 1;
      if ending.Raised? {
        return;
      }
      noResults := empty(searches - 1);
      if !noResults || searches - 1 >= retries {
        return;
      }
      if cleared(searches - 1).Some? {
        ending := Raised(cleared(searches - 1).value);
        return;
      }
    }
  }

  lemma OneMore(n: nat, unit: nat)
    ensures (n + 1) * unit == n * unit + unit
  {
  }
}
