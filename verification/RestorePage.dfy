/** Getting back to a page of the results (browser_discovery.py). A results list is always left
    and entered through the search, so its page is one plus the clicks since the last search. */
module RestorePage {
  import opened Text
  import opened Failures

  /** What one click on the next-page control comes to. `Refused`: both ways to click failed.
      `Interrupted`: something else was raised. `Confirmed`: the table changed, and `marker` is the
      page number the site shows, if it shows one. */
  datatype Click =
    | NoEnabledControl
    | Refused(fault: Fault)
    | Toast
    | NotChanged
    | Interrupted(fault: Fault)
    | Confirmed(marker: Option<int>)

  datatype FirstMarker = Shows(marker: Option<int>) | MarkerFails(fault: Fault)

  /** `stands` is where the browser is left by a restore that breaks off in a way that does not tell:
      a search that failed, or a click that may or may not have turned the page. */
  datatype RestoreScript = RestoreScript(search: Option<Fault>, first: FirstMarker, clicks: seq<Click>, stands: nat)

  /** Where a restore ends, what it raised, and how many clicks were confirmed. */
  datatype Restored = Restored(place: nat, exit: Option<Exn>, clicked: nat)

  predicate AtPage(marker: Option<int>, page: nat) { marker.None? || marker.value == page }

  /** The fault of a refused click, reported as a page-state error with the same text. */
  function RefusedAs(fault: Fault): Exn {
    if fault.Error? then fault.(kind := SearchState) else fault
  }

  /** The click loop, from page `current` on. */
  function ClickTo(current: nat, requested: nat, clicks: seq<Click>, stands: nat): Restored
    decreases |clicks|
  {
    if current >= requested then Restored(current, None, 0)
    else if clicks == [] then Restored(stands, Some(Killed), 0)
    else
      match clicks[0]
      case NoEnabledControl => Restored(current, Some(SEARCH_STATE), 0)
      case Refused(fault) => Restored(stands, Some(RefusedAs(fault)), 0)
      case Interrupted(fault) => Restored(stands, Some(fault), 0)
      case Confirmed(marker) =>
        if !AtPage(marker, current + 1) then Restored(stands, Some(SEARCH_STATE), 1)
        else
          var rest := ClickTo(current + 1, requested, clicks[1..], stands);
          rest.(clicked := rest.clicked + 1)
      case _ => Restored(stands, Some(SEARCH_STATE), 0)
  }

  function Max(a: nat, b: nat): nat { if a >= b then a else b }

  /** Searches the keyword again and clicks on to the page asked for. */
  function Restore(target: nat, a: RestoreScript): Restored {
    if a.search.Some? then Restored(a.stands, Some(a.search.value), 0)
    else if Max(target, 1) == 1 then Restored(1, None, 0)
    else
      match a.first
      case MarkerFails(fault) => Restored(1, Some(fault), 0)
      case Shows(marker) =>
        if !AtPage(marker, 1) then Restored(a.stands, Some(SEARCH_STATE), 0)
        else ClickTo(1, Max(target, 1), a.clicks, a.stands)
  }

  method RestoreResultsPage(target: nat, a: RestoreScript) returns (r: Restored)
    ensures r == Restore(target, a)
  {
    if a.search.Some? {
      return Restored(a.stands, Some(a.search.value), 0);
    }
    var requested := Max(target, 1);
    if requested == 1 {
      return Restored(1, None, 0);
    }
    if a.first.MarkerFails? {
      return Restored(1, Some(a.first.fault), 0);
    }
    if !AtPage(a.first.marker, 1) {
      return Restored(a.stands, Some(SEARCH_STATE), 0);
    }
    var current, k := 1, 0;
    while current < requested
      invariant current == k + 1 <= requested && k <= |a.clicks|
      invariant var rest := ClickTo(current, requested, a.clicks[k..], a.stands);
                ClickTo(1, requested, a.clicks, a.stands) == rest.(clicked := rest.clicked + k)
    {
      if k == |a.clicks| {
        return Restored(a.stands, Some(Killed), k);
      }
      match a.clicks[k] {
        case NoEnabledControl => return Restored(current, Some(SEARCH_STATE), k);
        case Refused(fault) => return Restored(a.stands, Some(RefusedAs(fault)), k);
        case Interrupted(fault) => return Restored(a.stands, Some(fault), k);
        case Confirmed(marker) =>
          if !AtPage(marker, current + 1) {
            return Restored(a.stands, Some(SEARCH_STATE), k + 1);
          }
        case _ => return Restored(a.stands, Some(SEARCH_STATE), k);
      }
      current, k := current + 1, k + 1;
    }
    return Restored(current, None, k);
  }

  lemma {:induction false} ClickToMeaning(current: nat, requested: nat, clicks: seq<Click>, stands: nat)
    requires 1 <= current <= requested
    ensures var r := ClickTo(current, requested, clicks, stands);
            && (r.exit.None? <==>
                  && requested - current <= |clicks|
                  && forall k :: 0 <= k < requested - current ==>
                       clicks[k].Confirmed? && AtPage(clicks[k].marker, current + k + 1))
            && (r.exit.None? ==> r.place == requested && r.clicked == requested - current)
            && (r.exit.Some? ==> !r.exit.value.BrowserClosed? && r.clicked <= |clicks|)
            && (r.exit.Some? ==>
                  if r.clicked < |clicks| && clicks[r.clicked].NoEnabledControl? && InStep(current, clicks, r.clicked)
                  then r.place == current + r.clicked < requested else r.place == stands)
    decreases |clicks|
  {
    if current < requested && clicks != [] && clicks[0].Confirmed? && AtPage(clicks[0].marker, current + 1) {
      ClickToMeaning(current + 1, requested, clicks[1..], stands);
      assert forall k :: 1 <= k < |clicks| ==> clicks[k] == clicks[1..][k - 1];
      var n := ClickTo(current + 1, requested, clicks[1..], stands).clicked;
      assert n <= |clicks| - 1 ==> (InStep(current, clicks, n + 1) <==> InStep(current + 1, clicks[1..], n));
    }
  }

  /** The first n clicks were confirmed, each with the expected page number. */
  ghost predicate InStep(current: nat, clicks: seq<Click>, n: nat)
    requires n <= |clicks|
  {
    forall k :: 0 <= k < n ==> clicks[k].Confirmed? && AtPage(clicks[k].marker, current + k + 1)
  }

  /** The search and some clicks went well, and then there was no control to click. */
  ghost predicate RunsOutOfPages(a: RestoreScript, n: nat) {
    && a.search.None? && a.first.Shows? && AtPage(a.first.marker, 1)
    && n < |a.clicks| && InStep(1, a.clicks, n) && a.clicks[n].NoEnabledControl?
  }

  /** A restore returns normally exactly when the search does and the first clicks, one less than
      the page asked for, are all confirmed, with every page number the site shows being the
      expected one. It then stands on that page after exactly these clicks. When it raises, it
      stands before the page asked for if it ran out of pages, and otherwise wherever the site left
      it, which may be any page. */
  lemma RestoreReaches(target: nat, a: RestoreScript)
    ensures var r, requested := Restore(target, a), Max(target, 1);
            && (r.exit.None? <==>
                  && a.search.None?
                  && (requested > 1 ==> a.first.Shows? && AtPage(a.first.marker, 1) && requested - 1 <= |a.clicks|)
                  && (requested > 1 ==> forall k :: 0 <= k < requested - 1 ==>
                        a.clicks[k].Confirmed? && AtPage(a.clicks[k].marker, k + 2)))
            && (r.exit.None? ==> r.place == requested && r.clicked == requested - 1)
            && (r.exit.Some? ==> !r.exit.value.BrowserClosed? && (r.place < requested || r.place == a.stands))
            && (r.exit.Some? && RunsOutOfPages(a, r.clicked) ==> r.place == r.clicked + 1 < requested)
  {
    ClickToMeaning(1, Max(target, 1), a.clicks, a.stands);
  }

  // ---------------------------------------------------------------------------
  // Leaving a detail page
  // ---------------------------------------------------------------------------

  /** Going back: no button was found, the page came back with or without a results table, or
      going back raised. `at` is the page of the results list that is shown then. */
  datatype Back = NotClicked | Landed(available: bool, at: nat) | BackFails(fault: Fault)

  datatype ReturnScript = ReturnScript(mainBack: Back, goBack: Back, restore: RestoreScript, available: bool)

  /** How the browser got back to a results list, and the page it shows: by going back, which
      nothing checks, by a restore, or by a restore that broke off. */
  datatype How = ByBack(at: nat) | ByRestore(at: nat) | BrokenOff(at: nat)

  datatype Return = Return(how: Option<How>, exit: Option<Exn>)

  predicate Lands(b: Back) { b.Landed? && b.available }

  /** Back by the button, else by the browser, else by a new search. */
  function ReturnToResults(page: nat, a: ReturnScript): Return {
    if Lands(a.mainBack) then Return(Some(ByBack(a.mainBack.at)), None)
    else if a.mainBack == BackFails(Killed) then Return(None, Some(Killed))
    else if Lands(a.goBack) then Return(Some(ByBack(a.goBack.at)), None)
    else if a.goBack == BackFails(Killed) then Return(None, Some(Killed))
    else
      var r := Restore(page, a.restore);
      if r.exit.Some? then
        Return(Some(BrokenOff(r.place)),
               Some(if r.exit.value.IsRecoveryBrowserError() then BrowserClosed(page) else r.exit.value))
      else Return(Some(ByRestore(r.place)), if a.available then None else Some(RECOVERY_FAILED))
  }

  /** The guard of a return that ends on another page than the labelled one: it went back to such a
      page, or its restore broke off on one. */
  predicate LandsElsewhere(page: nat, a: ReturnScript) {
    if Lands(a.mainBack) then a.mainBack.at != page
    else if Lands(a.goBack) then a.goBack.at != page
    else Restore(page, a.restore).exit.Some? && Restore(page, a.restore).place != page
  }

  /** A restore that completes stands on the labelled page, so a return ends elsewhere exactly under
      its guard. A closed browser is reported for the labelled page, and only when a restore broke
      off. A return that raises nothing has gone somewhere. */
  lemma ReturnMeaning(page: nat, a: ReturnScript)
    requires page >= 1
    ensures var r := ReturnToResults(page, a);
            && (r.how.Some? ==> (r.how.value.at != page <==> LandsElsewhere(page, a)))
            && (r.how.Some? && r.how.value.ByRestore? ==> r.how.value.at == page)
            && (r.exit.Some? && r.exit.value.BrowserClosed? ==>
                  r.exit.value.page == page && r.how.Some? && r.how.value.BrokenOff?)
            && (r.how.None? ==> r.exit == Some(Killed))
  {
    RestoreReaches(page, a.restore);
  }
}
