/** One step of the results pagination (browser_discovery.py): a typed outcome for every way
    the next page can fail to come. */
module Pagination {
  import opened Text
  import opened Failures

  datatype Outcome =
    | Advanced | KeywordNoResults | NextControlAbsent | NextControlDisabled | MaxPagesReached
    | NextControlHidden | NextClickFailed | PageChangeTimeout | UnexpectedNoResults | SiteError

  /** Outcomes that end a scan normally. */
  predicate IsTerminal(o: Outcome) {
    o in {NextControlAbsent, NextControlDisabled, MaxPagesReached}
  }

  /** Outcomes that fail a scan. */
  predicate IsFailure(o: Outcome) {
    o in {NextControlHidden, NextClickFailed, PageChangeTimeout, UnexpectedNoResults, SiteError}
  }

  datatype Control = Control(visible: bool, disabled: bool)

  /** The answers of the page while one advance is tried. `raised` is an exception that
      escapes while waiting for the table to change. */
  datatype AdvanceAnswers = AdvanceAnswers(
    controls: seq<Control>,
    clicked: bool,
    siteError: bool,
    raised: Option<Fault>,
    changed: bool,
    noResults: bool,
    markerChanged: bool,
    hasRows: bool)

  predicate AnyVisible(controls: seq<Control>) {
    controls != [] && (controls[0].visible || AnyVisible(controls[1..]))
  }

  predicate AnyEnabled(controls: seq<Control>) {
    controls != [] && ((controls[0].visible && !controls[0].disabled) || AnyEnabled(controls[1..]))
  }

  datatype Advance = Advance(outcome: Outcome, nextPage: int) | Raised(exn: Exn)

  function AdvanceResultsPage(page: int, cap: int, a: AdvanceAnswers): Advance {
    if page >= cap then Advance(MaxPagesReached, page)
    else if a.controls == [] then Advance(NextControlAbsent, page)
    else if !AnyVisible(a.controls) then Advance(NextControlHidden, page)
    else if !AnyEnabled(a.controls) then Advance(NextControlDisabled, page)
    else if !a.clicked then Advance(NextClickFailed, page)
    else if a.siteError then Advance(SiteError, page)
    else if a.raised.Some? then Raised(a.raised.value)
    else if !a.changed then Advance(PageChangeTimeout, page)
    else if a.noResults then Advance(UnexpectedNoResults, page)
    else if !a.markerChanged then Advance(PageChangeTimeout, page)
    else if !a.hasRows then Advance(UnexpectedNoResults, page)
    else Advance(Advanced, page + 1)
  }

  lemma {:induction false} EnabledMeaning(controls: seq<Control>)
    ensures AnyEnabled(controls) <==> exists k :: 0 <= k < |controls| && controls[k].visible && !controls[k].disabled
    ensures AnyVisible(controls) <==> exists k :: 0 <= k < |controls| && controls[k].visible
  {
    if controls != [] {
      EnabledMeaning(controls[1..]);
      assert forall k :: 1 <= k < |controls| ==> controls[k] == controls[1..][k - 1];
      assert forall k :: 0 <= k < |controls| - 1 ==> controls[1..][k] == controls[k + 1];
    }
  }

  /** An advance moves exactly one page on, below the cap, through a visible enabled control
      whose click was confirmed by a changed table with rows; any other outcome stays. The cap
      is reported exactly at the cap, and no advance reports a keyword without results. */
  lemma AdvanceFacts(page: int, cap: int, a: AdvanceAnswers)
    requires AdvanceResultsPage(page, cap, a).Advance?
    ensures var r := AdvanceResultsPage(page, cap, a);
            && (r.outcome == Advanced ==>
                 && r.nextPage == page + 1 <= cap
                 && a.clicked && a.changed && a.markerChanged && a.hasRows
                 && exists k :: 0 <= k < |a.controls| && a.controls[k].visible && !a.controls[k].disabled)
            && (r.outcome != Advanced ==> r.nextPage == page)
            && (r.outcome == MaxPagesReached <==> page >= cap)
            && (r.outcome == Advanced || IsTerminal(r.outcome) || IsFailure(r.outcome))
  {
    EnabledMeaning(a.controls);
  }
}
