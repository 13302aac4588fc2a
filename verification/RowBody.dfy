/** What happens to one accepted row of a results page (browser_discovery.py): the candidate is
    recorded, its detail page is opened, and the row ends in the ledger. */
module RowBody {
  import opened Text
  import opened Failures
  import opened RestorePage

  datatype Reason =
    | NavigationFailure | ResultsPageReturned | MissingRequiredFields
    | RejectionPage | PlaceholderDetail | OutOfScopeStage | Unknown

  predicate IsTransient(r: Reason) { r in {NavigationFailure, ResultsPageReturned, MissingRequiredFields} }

  datatype Project = Project(number: string, name: string)

  /** The dedupe key of a project or a row; only ASCII letters are case-folded. */
  function KeyOf(number: string, name: string): string { Lower(if number != [] then number else name) }

  function ProjectKey(p: Project): string { KeyOf(p.number, p.name) }

  /** The recording of a candidate: it yields a ledger key, none, or raises. */
  datatype Accept = Keyed | Keyless | AcceptFails(fault: Fault)

  /** Finding the row on the page again. */
  datatype Locate = Located | Gone | LocateFails(fault: Fault)

  /** Opening the detail page: a project, none for some reason, or an exception. */
  datatype Open = Detail(project: Project) | Nothing(reason: Reason) | OpenFails(fault: Fault)

  /** All answers one row can ask for, in the order of the program. */
  datatype RowScript = RowScript(
    accept: Accept,
    locate: Locate,
    open: Open,
    retryBack: ReturnScript,
    relocate: Locate,
    reopen: Open,
    documents: Option<Fault>,
    stream: Option<Fault>,
    terminal: Option<Fault>,
    back: ReturnScript,
    handlerBack: ReturnScript,
    available: bool,
    handlerTerminal: Option<Fault>)

  datatype Terminal = DetailReason(reason: Reason) | Unclassified

  /** The trace of a row, in the order things happen: the acceptance, openings of the detail page
      and their answers, ways back to the results, and the last word on the candidate. */
  datatype Event =
    | Accepted
    | Opened(answer: Open)
    | Returned(how: How)
    | Streamed(project: Project)
    | Failed(reason: Terminal)
    | Dropped

  datatype Result = Got(project: Project) | Empty(reason: Reason) | Raises(exn: Exn)

  /** The row up to the point where it is known what the detail page holds. `restored`: the page
      is already back on the results. */
  datatype Opening = Opening(events: seq<Event>, restored: bool, result: Result)

  /** A row run: its trace, the keys seen after it, what it adds to the results of the keyword,
      and what it raised. */
  datatype RowRun = RowRun(events: seq<Event>, seen: set<string>, kept: Option<Project>, exit: Option<Exn>)

  function AfterOpen(open: Open): Result {
    match open
    case Detail(project) => Got(project)
    case Nothing(reason) => Empty(reason)
    case OpenFails(fault) => Raises(fault)
  }

  /** The trace with a way back to the results, if one was found. */
  function Noted(events: seq<Event>, r: Return): seq<Event> {
    if r.how.Some? then events + [Returned(r.how.value)] else events
  }

  /** The trace with a status call, made only for candidates with a ledger key. */
  function Reported(events: seq<Event>, keyed: bool, e: Event): seq<Event> {
    if keyed then events + [e] else events
  }

  /** Finds and opens the row; a transient reason is given one more chance from the results. */
  function OpenRow(page: nat, events: seq<Event>, a: RowScript): Opening {
    match a.locate
    case LocateFails(fault) => Opening(events, false, Raises(fault))
    case Gone => Opening(events, false, Raises(RECOVERY_FAILED))
    case Located =>
      var first := events + [Opened(a.open)];
      if !(a.open.Nothing? && IsTransient(a.open.reason)) then Opening(first, false, AfterOpen(a.open))
      else
        var r := ReturnToResults(page, a.retryBack);
        var back := Noted(first, r);
        if r.exit.Some? then Opening(back, false, Raises(r.exit.value))
        else
          match a.relocate
          case LocateFails(fault) => Opening(back, false, Raises(fault))
          case Gone => Opening(back, true, Empty(a.open.reason))
          case Located => Opening(back + [Opened(a.reopen)], false, AfterOpen(a.reopen))
  }

  /** Back to the results after the status call, unless the call raised or the page is there
      already. */
  function Leave(page: nat, restored: bool, raised: Option<Exn>, a: RowScript): Return {
    if raised.Some? then Return(None, raised)
    else if restored then Return(None, None)
    else ReturnToResults(page, a.back)
  }

  /** The row with what its detail page holds, without the handlers. */
  function Settle(key: string, page: nat, seen: set<string>, keyed: bool, o: Opening, a: RowScript): RowRun {
    match o.result
    case Raises(exn) => RowRun(o.events, seen, None, Some(exn))
    case Empty(reason) =>
      var left := Leave(page, o.restored, if keyed then a.terminal else None, a);
      RowRun(Noted(Reported(o.events, keyed, Failed(DetailReason(reason))), left), seen + {key}, None, left.exit)
    case Got(project) =>
      if a.documents.Some? then RowRun(o.events, seen, None, a.documents)
      else if ProjectKey(project) !in seen then
        var left := Leave(page, o.restored, a.stream, a);
        RowRun(Noted(o.events + [Streamed(project)], left), seen + {ProjectKey(project)}, Some(project), left.exit)
      else
        var left := Leave(page, o.restored, if keyed then a.terminal else None, a);
        RowRun(Noted(Reported(o.events, keyed, Dropped), left), seen, None, left.exit)
  }

  /** The handler of timeouts and page-state errors: back to the results once more. */
  function Recover(key: string, page: nat, keyed: bool, kind: ErrorKind, b: RowRun, a: RowScript): RowRun {
    var r := ReturnToResults(page, a.handlerBack);
    var back := Noted(b.events, r);
    var events := if r.exit.None? then Reported(back, keyed, Failed(Unclassified)) else back;
    var tried := b.(events := events);
    var exit := if r.exit.None? && keyed then a.handlerTerminal else r.exit;
    if exit.None? then tried.(exit := None)
    else
      match exit.value
      case BrowserClosed(_) => tried.(seen := b.seen + {key}, exit := Some(BrowserClosed(page)))
      case Error(RecoveryFailed, _, _) =>
        if a.available then tried.(exit := None)
        else tried.(seen := b.seen + {key}, exit := Some(BrowserClosed(page)))
      case Error(SearchState, _, _) =>
        if kind == SearchState then tried.(seen := b.seen + {key}, exit := Some(BrowserClosed(page)))
        else tried.(exit := exit)
      case _ => tried.(exit := exit)
  }

  /** The handlers around a row. */
  function Handle(key: string, page: nat, keyed: bool, b: RowRun, a: RowScript): RowRun {
    if b.exit.None? then b
    else
      match b.exit.value
      case BrowserClosed(_) => b.(seen := b.seen + {key})
      case Killed => b
      case Error(kind, closedText, _) =>
        if kind in {TimedOut, SearchState} then Recover(key, page, keyed, kind, b, a)
        else if kind == RecoveryFailed then
          if a.available then
            b.(events := Reported(b.events, keyed, Failed(Unclassified)),
               exit := if keyed then a.handlerTerminal else None)
          else b
        else if closedText then b.(exit := Some(BrowserClosed(page)))
        else b
  }

  /** The row as the program tries it after the acceptance, before any handler. */
  function Tried(key: string, page: nat, seen: set<string>, a: RowScript): RowRun {
    Settle(key, page, seen, a.accept.Keyed?, OpenRow(page, [Accepted], a), a)
  }

  /** An acceptance that raises leaves no trace and is not handled. */
  function RunRow(key: string, page: nat, seen: set<string>, a: RowScript): RowRun {
    if a.accept.AcceptFails? then RowRun([], seen, None, Some(a.accept.fault))
    else Handle(key, page, a.accept.Keyed?, Tried(key, page, seen, a), a)
  }

  // ---------------------------------------------------------------------------
  // The ledger
  // ---------------------------------------------------------------------------

  predicate IsStatus(e: Event) { e.Streamed? || e.Failed? || e.Dropped? }

  /** The openings of a trace, in order. */
  function Opens(events: seq<Event>): seq<Event> {
    if events == [] then []
    else Opens(events[..|events| - 1]) + if events[|events| - 1].Opened? then [events[|events| - 1]] else []
  }

  /** The statuses of a trace, in order. */
  function Statuses(events: seq<Event>): seq<Event> {
    if events == [] then []
    else Statuses(events[..|events| - 1]) + if IsStatus(events[|events| - 1]) then [events[|events| - 1]] else []
  }

  lemma Appended(events: seq<Event>, e: Event)
    ensures Opens(events + [e]) == Opens(events) + if e.Opened? then [e] else []
    ensures Statuses(events + [e]) == Statuses(events) + if IsStatus(e) then [e] else []
  {
    assert (events + [e])[..|events|] == events;
  }

  /** A trace in which the acceptance comes first and only once, and no opening follows a status. */
  ghost predicate InOrder(events: seq<Event>) {
    && events != [] && events[0] == Accepted
    && (forall k :: 1 <= k < |events| ==> events[k] != Accepted)
    && (forall i, j :: 0 <= i < j < |events| && IsStatus(events[i]) ==> !events[j].Opened?)
  }

  lemma AppendedInOrder(events: seq<Event>, e: Event)
    requires InOrder(events) && e != Accepted
    requires e.Opened? ==> Statuses(events) == []
    ensures InOrder(events + [e])
  {
    if e.Opened? {
      NoStatuses(events);
    }
  }

  lemma {:induction false} NoStatuses(events: seq<Event>)
    requires Statuses(events) == []
    ensures forall k :: 0 <= k < |events| ==> !IsStatus(events[k])
  {
    if events != [] {
      NoStatuses(events[..|events| - 1]);
    }
  }

  /** At most two openings, the second only after a transient answer to the first. */
  predicate OpensWell(opens: seq<Event>) {
    && |opens| <= 2
    && (|opens| == 2 ==> opens[0].Opened? && opens[0].answer.Nothing? && IsTransient(opens[0].answer.reason))
  }

  /** One more opening on a trace without statuses. */
  lemma OpenedInOrder(events: seq<Event>, open: Open)
    requires InOrder(events) && Statuses(events) == []
    ensures var after := events + [Opened(open)];
            InOrder(after) && Statuses(after) == [] && Opens(after) == Opens(events) + [Opened(open)]
  {
    Appended(events, Opened(open));
    AppendedInOrder(events, Opened(open));
  }

  lemma StartInOrder()
    ensures InOrder([Accepted]) && Statuses([Accepted]) == [] && Opens([Accepted]) == []
  {
    Appended([], Accepted);
    assert [] + [Accepted] == [Accepted];
  }

  lemma OpeningIsInOrder(page: nat, a: RowScript)
    ensures var o := OpenRow(page, [Accepted], a);
            InOrder(o.events) && OpensWell(Opens(o.events)) && Statuses(o.events) == []
  {
    StartInOrder();
    OpenRowInOrder(page, [Accepted], a);
  }

  predicate HasTransientAnswer(open: Open) { open.Nothing? && IsTransient(open.reason) }

  /** The four traces an opening can leave. */
  lemma OpenRowEvents(page: nat, start: seq<Event>, a: RowScript)
    ensures var events, first := OpenRow(page, start, a).events, start + [Opened(a.open)];
            var back := Noted(first, ReturnToResults(page, a.retryBack));
            || events == start || events == first
            || (HasTransientAnswer(a.open) && (events == back || events == back + [Opened(a.reopen)]))
  {
  }

  /** No status yet, and openings as they should be. */
  ghost predicate StillOpening(events: seq<Event>) {
    InOrder(events) && Statuses(events) == [] && OpensWell(Opens(events))
  }

  lemma FirstOpening(start: seq<Event>, open: Open)
    requires InOrder(start) && Statuses(start) == [] && Opens(start) == []
    ensures StillOpening(start + [Opened(open)]) && Opens(start + [Opened(open)]) == [Opened(open)]
  {
    OpenedInOrder(start, open);
  }

  lemma SecondOpening(back: seq<Event>, open: Open, again: Open)
    requires InOrder(back) && Statuses(back) == [] && Opens(back) == [Opened(open)] && HasTransientAnswer(open)
    ensures StillOpening(back) && StillOpening(back + [Opened(again)])
  {
    OpenedInOrder(back, again);
    assert Opens(back + [Opened(again)]) == [Opened(open), Opened(again)];
  }

  lemma OpenRowInOrder(page: nat, start: seq<Event>, a: RowScript)
    requires InOrder(start) && Statuses(start) == [] && Opens(start) == []
    ensures StillOpening(OpenRow(page, start, a).events)
  {
    OpenRowEvents(page, start, a);
    FirstOpening(start, a.open);
    var first := start + [Opened(a.open)];
    NotedInOrder(first, ReturnToResults(page, a.retryBack));
    if HasTransientAnswer(a.open) {
      SecondOpening(Noted(first, ReturnToResults(page, a.retryBack)), a.open, a.reopen);
    }
  }

  lemma NotedInOrder(events: seq<Event>, r: Return)
    requires InOrder(events)
    ensures InOrder(Noted(events, r)) && Opens(Noted(events, r)) == Opens(events)
            && Statuses(Noted(events, r)) == Statuses(events)
  {
    if r.how.Some? {
      Appended(events, Returned(r.how.value));
      AppendedInOrder(events, Returned(r.how.value));
    }
  }

  lemma ReportedInOrder(events: seq<Event>, keyed: bool, e: Event)
    requires InOrder(events) && IsStatus(e)
    ensures InOrder(Reported(events, keyed, e)) && Opens(Reported(events, keyed, e)) == Opens(events)
    ensures Statuses(Reported(events, keyed, e)) == Statuses(events) + Status(keyed, e)
  {
    Appended(events, e);
    AppendedInOrder(events, e);
  }

  function Status(keyed: bool, e: Event): seq<Event> { if keyed then [e] else [] }

  /** The status the body reports on its own. */
  function OwnStatus(seen: set<string>, keyed: bool, o: Opening, a: RowScript): seq<Event> {
    match o.result
    case Raises(_) => []
    case Empty(reason) => Status(keyed, Failed(DetailReason(reason)))
    case Got(project) =>
      if a.documents.Some? then []
      else if ProjectKey(project) !in seen then [Streamed(project)]
      else Status(keyed, Dropped)
  }

  /** A status and a way back, appended to a trace. */
  lemma ReportedAndNoted(events: seq<Event>, keyed: bool, e: Event, r: Return)
    requires InOrder(events) && IsStatus(e)
    ensures var after := Noted(Reported(events, keyed, e), r);
            InOrder(after) && Opens(after) == Opens(events) && Statuses(after) == Statuses(events) + Status(keyed, e)
  {
    ReportedInOrder(events, keyed, e);
    NotedInOrder(Reported(events, keyed, e), r);
  }

  /** The body gets to know what the detail page holds, and its documents if it holds a project. */
  predicate Settles(o: Opening, a: RowScript) { o.result.Empty? || (o.result.Got? && a.documents.None?) }

  /** The status the body makes, whether the ledger asks for it, and the return after it. */
  function Ending(page: nat, seen: set<string>, keyed: bool, o: Opening, a: RowScript): (bool, Event, Return)
    requires !o.result.Raises?
  {
    match o.result
    case Empty(reason) =>
      (keyed, Failed(DetailReason(reason)), Leave(page, o.restored, if keyed then a.terminal else None, a))
    case Got(project) =>
      if ProjectKey(project) !in seen then (true, Streamed(project), Leave(page, o.restored, a.stream, a))
      else (keyed, Dropped, Leave(page, o.restored, if keyed then a.terminal else None, a))
  }

  lemma SettledEvents(key: string, page: nat, seen: set<string>, keyed: bool, o: Opening, a: RowScript)
    ensures var b := Settle(key, page, seen, keyed, o, a);
            if !Settles(o, a) then b.events == o.events && OwnStatus(seen, keyed, o, a) == []
            else
              var (due, e, left) := Ending(page, seen, keyed, o, a);
              && b.events == Noted(Reported(o.events, due, e), left) && b.exit == left.exit
              && IsStatus(e) && OwnStatus(seen, keyed, o, a) == Status(due, e)
  {
  }

  lemma SettleInOrder(key: string, page: nat, seen: set<string>, keyed: bool, o: Opening, a: RowScript)
    requires InOrder(o.events) && Statuses(o.events) == []
    ensures var b := Settle(key, page, seen, keyed, o, a);
            && InOrder(b.events) && Opens(b.events) == Opens(o.events)
            && Statuses(b.events) == OwnStatus(seen, keyed, o, a)
  {
    SettledEvents(key, page, seen, keyed, o, a);
    if Settles(o, a) {
      var (due, e, left) := Ending(page, seen, keyed, o, a);
      ReportedAndNoted(o.events, due, e, left);
    }
  }

  /** The handlers that report a candidate on their own account: a timeout or page-state error whose
      return succeeds, and a failed recovery with the results on the page after all. */
  predicate HandlerReports(page: nat, exit: Option<Exn>, a: RowScript) {
    && exit.Some? && exit.value.Error?
    && match exit.value.kind
       case TimedOut => ReturnToResults(page, a.handlerBack).exit.None?
       case SearchState => ReturnToResults(page, a.handlerBack).exit.None?
       case RecoveryFailed => a.available
       case _ => false
  }

  /** The trace after the handlers. */
  lemma HandledEvents(key: string, page: nat, keyed: bool, b: RowRun, a: RowScript)
    ensures var r := Handle(key, page, keyed, b, a);
            r.events == Reported(if Goes(b.exit) then Noted(b.events, ReturnToResults(page, a.handlerBack))
                                 else b.events,
                                 keyed && HandlerReports(page, b.exit, a), Failed(Unclassified))
  {
  }

  /** The errors whose handlers go back to the results. */
  predicate Goes(exit: Option<Exn>) { exit.Some? && exit.value.Error? && exit.value.kind in {TimedOut, SearchState} }

  lemma HandleInOrder(key: string, page: nat, keyed: bool, b: RowRun, a: RowScript)
    requires InOrder(b.events)
    ensures var r := Handle(key, page, keyed, b, a);
            && InOrder(r.events) && Opens(r.events) == Opens(b.events)
            && Statuses(r.events)
               == Statuses(b.events) + Status(keyed && HandlerReports(page, b.exit, a), Failed(Unclassified))
  {
    HandledEvents(key, page, keyed, b, a);
    var back := ReturnToResults(page, a.handlerBack);
    NotedInOrder(b.events, back);
    var due := keyed && HandlerReports(page, b.exit, a);
    ReportedInOrder(if Goes(b.exit) then Noted(b.events, back) else b.events, due, Failed(Unclassified));
  }

  /** In every run of an accepted row the trace begins with the acceptance, there are at most two
      openings, the second only after a transient answer to the first, and no opening follows a
      status. The statuses are the one the body reports on its own, if any, and then the one of a
      handler that reports. A row whose acceptance fails leaves no trace. */
  lemma Ledger(key: string, page: nat, seen: set<string>, a: RowScript)
    ensures var r := RunRow(key, page, seen, a);
            if a.accept.AcceptFails? then r.events == [] && r.exit == Some(a.accept.fault)
            else
              && InOrder(r.events) && OpensWell(Opens(r.events))
              && Statuses(r.events) == OwnStatus(seen, a.accept.Keyed?, OpenRow(page, [Accepted], a), a)
                   + Status(a.accept.Keyed? && HandlerReports(page, Tried(key, page, seen, a).exit, a),
                            Failed(Unclassified))
  {
    if !a.accept.AcceptFails? {
      OpeningIsInOrder(page, a);
      SettleInOrder(key, page, seen, a.accept.Keyed?, OpenRow(page, [Accepted], a), a);
      HandleInOrder(key, page, a.accept.Keyed?, Tried(key, page, seen, a), a);
    }
  }

  /** What a row streams is what it keeps, once and before any other status. */
  lemma StreamsWhatItKeeps(key: string, page: nat, seen: set<string>, a: RowScript)
    ensures var r := RunRow(key, page, seen, a);
            var statuses := Statuses(r.events);
            && (r.kept.Some? <==> statuses != [] && statuses[0].Streamed?)
            && (r.kept.Some? ==> statuses[0] == Streamed(r.kept.value))
            && (forall k :: 1 <= k < |statuses| ==> !statuses[k].Streamed?)
  {
    Ledger(key, page, seen, a);
    KeptIsOwnStatus(key, page, seen, a);
  }

  lemma KeptIsOwnStatus(key: string, page: nat, seen: set<string>, a: RowScript)
    ensures var kept := RunRow(key, page, seen, a).kept;
            if a.accept.AcceptFails? then kept == None
            else
              var own := OwnStatus(seen, a.accept.Keyed?, OpenRow(page, [Accepted], a), a);
              && |own| <= 1
              && (kept.Some? <==> own != [] && own[0].Streamed?)
              && (kept.Some? ==> own[0] == Streamed(kept.value))
  {
    if !a.accept.AcceptFails? {
      HandlersOnlyMark(key, page, a.accept.Keyed?, Tried(key, page, seen, a), a);
    }
  }

  /** A row whose body raises nothing finishes with exactly one status when the ledger gave it a
      key, and then the status says what the detail page held. */
  lemma CleanRowHasOneStatus(key: string, page: nat, seen: set<string>, a: RowScript)
    requires !a.accept.AcceptFails? && Tried(key, page, seen, a).exit.None?
    ensures var r, o := RunRow(key, page, seen, a), OpenRow(page, [Accepted], a);
            && r.exit.None? && !o.result.Raises? && (o.result.Got? ==> a.documents.None?)
            && Statuses(r.events) == OwnStatus(seen, a.accept.Keyed?, o, a)
            && (a.accept.Keyed? ==> |Statuses(r.events)| == 1)
  {
    Ledger(key, page, seen, a);
  }

  /** The body has reported the candidate: it knew what the detail page held. */
  predicate BodyReports(page: nat, a: RowScript) { Settles(OpenRow(page, [Accepted], a), a) }

  /** A candidate gets two statuses exactly when its body reports it, raises afterwards, and a
      handler reports it again. */
  lemma TwoStatusesExactly(key: string, page: nat, seen: set<string>, a: RowScript)
    requires a.accept.Keyed?
    ensures |Statuses(RunRow(key, page, seen, a).events)| <= 2
    ensures |Statuses(RunRow(key, page, seen, a).events)| == 2 <==>
              BodyReports(page, a) && HandlerReports(page, Tried(key, page, seen, a).exit, a)
  {
    Ledger(key, page, seen, a);
  }

  /** The handler's return raises that the results could not be recovered. */
  predicate HandlerCannotRecover(page: nat, a: RowScript) {
    var exit := ReturnToResults(page, a.handlerBack).exit;
    exit.Some? && exit.value.Error? && exit.value.kind == RecoveryFailed
  }

  /** A candidate is left without any status, whatever its row ends in, exactly when neither its body
      reports it nor a handler does. */
  lemma NoStatusExactly(key: string, page: nat, seen: set<string>, a: RowScript)
    requires a.accept.Keyed?
    ensures Statuses(RunRow(key, page, seen, a).events) == [] <==>
              !BodyReports(page, a) && !HandlerReports(page, Tried(key, page, seen, a).exit, a)
  {
    Ledger(key, page, seen, a);
  }

  /** When its row finishes all the same, the body had raised a timeout or page-state error before it
      reported, the handler's return could not recover the results, and they turned out to be on the
      page after all. */
  lemma FinishedWithoutStatusExactly(key: string, page: nat, seen: set<string>, a: RowScript)
    requires a.accept.Keyed? && RunRow(key, page, seen, a).exit.None?
    ensures Statuses(RunRow(key, page, seen, a).events) == [] <==>
              && !BodyReports(page, a)
              && Tried(key, page, seen, a).exit.Some? && Tried(key, page, seen, a).exit.value.Error?
              && Tried(key, page, seen, a).exit.value.kind in {TimedOut, SearchState}
              && HandlerCannotRecover(page, a) && a.available
  {
    Ledger(key, page, seen, a);
  }

  /** A restore that runs out of pages on the way. */
  const BROKEN_RETURN :=
    ReturnScript(NotClicked, Landed(false, 0), RestoreScript(None, Shows(None), [NoEnabledControl], 0), false)

  /** A return to a page by the button. */
  function EasyReturn(at: nat): ReturnScript {
    ReturnScript(Landed(true, at), NotClicked, RestoreScript(None, Shows(None), [], 0), true)
  }

  /** A row whose detail page is refused, whose return breaks off on page 1, and whose handler then
      goes back from there by the button. */
  const REPORTED_TWICE :=
    RowScript(Keyed, Located, Nothing(RejectionPage), EasyReturn(1), Located, Nothing(RejectionPage),
              None, None, None, BROKEN_RETURN, EasyReturn(1), true, None)

  /** One candidate can be given two statuses on an exception path, and the row still finishes. */
  lemma StatusCanRepeat(key: string, page: nat)
    requires page > 1
    ensures var r := RunRow(key, page, {}, REPORTED_TWICE);
            r.exit.None? && Statuses(r.events) == [Failed(DetailReason(RejectionPage)), Failed(Unclassified)]
  {
    assert ReturnToResults(page, BROKEN_RETURN) == Return(Some(BrokenOff(1)), Some(SEARCH_STATE));
    Ledger(key, page, {}, REPORTED_TWICE);
  }

  /** A return whose search succeeds but ends without a results table. */
  const EMPTY_RETURN := ReturnScript(NotClicked, Landed(false, 0), RestoreScript(None, Shows(None), [], 0), false)

  /** A row whose detail page times out, and whose handler returns to a page that shows its table
      only when it is asked again. */
  const UNREPORTED :=
    RowScript(Keyed, Located, OpenFails(Error(TimedOut, false, false)), EasyReturn(1), Located, Nothing(Unknown),
              None, None, None, EasyReturn(1), EMPTY_RETURN, true, None)

  /** An accepted candidate can be given no status at all although its row finishes. */
  lemma StatusCanBeMissing(key: string)
    ensures var r := RunRow(key, 1, {}, UNREPORTED); r.exit.None? && Statuses(r.events) == []
  {
    assert ReturnToResults(1, EMPTY_RETURN) == Return(Some(ByRestore(1)), Some(RECOVERY_FAILED));
    Ledger(key, 1, {}, UNREPORTED);
  }

  /** The same row on a page that does not show its table again: it ends in a closed browser, without
      a status, and marked as seen. */
  const LOST := UNREPORTED.(available := false)

  lemma StatusCanBeLost(key: string)
    ensures var r := RunRow(key, 1, {}, LOST);
            r.exit == Some(BrowserClosed(1)) && Statuses(r.events) == [] && key in r.seen
  {
    assert ReturnToResults(1, EMPTY_RETURN) == Return(Some(ByRestore(1)), Some(RECOVERY_FAILED));
    NoStatusExactly(key, 1, {}, LOST);
  }

  // ---------------------------------------------------------------------------
  // Seen keys and exits
  // ---------------------------------------------------------------------------

  /** Handlers only add the key of the row to the seen keys, and leave the results alone. */
  lemma HandlersOnlyMark(key: string, page: nat, keyed: bool, b: RowRun, a: RowScript)
    ensures var r := Handle(key, page, keyed, b, a);
            r.kept == b.kept && (r.seen == b.seen || r.seen == b.seen + {key})
  {
  }

  /** The seen keys only grow, by the key of the row and the key of the project it streams. A
      project is streamed only under a key not seen before, and the key is seen from then on. */
  lemma SeenGrows(key: string, page: nat, seen: set<string>, a: RowScript)
    ensures var r := RunRow(key, page, seen, a);
            && seen <= r.seen
            && (r.kept.Some? ==> ProjectKey(r.kept.value) !in seen && ProjectKey(r.kept.value) in r.seen)
            && r.seen <= seen + {key} + (if r.kept.Some? then {ProjectKey(r.kept.value)} else {})
  {
    if !a.accept.AcceptFails? {
      HandlersOnlyMark(key, page, a.accept.Keyed?, Tried(key, page, seen, a), a);
    }
  }

  predicate ClosedOn(page: nat, exit: Option<Exn>) {
    exit.Some? && exit.value.BrowserClosed? ==> exit.value.page == page
  }

  function ExitOf(o: Opening): Option<Exn> { if o.result.Raises? then Some(o.result.exn) else None }

  lemma TriedClosesOnOwnPage(key: string, page: nat, seen: set<string>, a: RowScript)
    requires page >= 1
    ensures ClosedOn(page, Tried(key, page, seen, a).exit)
  {
    ReturnMeaning(page, a.retryBack);
    ReturnMeaning(page, a.back);
    var o := OpenRow(page, [Accepted], a);
    assert ClosedOn(page, ExitOf(o));
  }

  /** A closed browser is always reported for the page of the row. */
  lemma ClosedOnOwnPage(key: string, page: nat, seen: set<string>, a: RowScript)
    requires page >= 1
    ensures ClosedOn(page, RunRow(key, page, seen, a).exit)
  {
    if !a.accept.AcceptFails? {
      TriedClosesOnOwnPage(key, page, seen, a);
      ReturnMeaning(page, a.handlerBack);
    }
  }

  /** The errors no handler knows. */
  predicate IsUnhandled(e: Exn) { e.Error? && e.kind in {PaginationFailed, OtherError} }

  /** A row whose run ends in a closed browser is marked as seen, and so is not tried again after
      the resume, except when the page reported the closed browser through an error that no
      handler knows: then only what the body itself had marked stays marked. */
  lemma ClosedRowIsSeen(key: string, page: nat, seen: set<string>, a: RowScript)
    requires !a.accept.AcceptFails?
    requires RunRow(key, page, seen, a).exit.Some? && RunRow(key, page, seen, a).exit.value.BrowserClosed?
    ensures Tried(key, page, seen, a).exit.Some?
    ensures var t, r := Tried(key, page, seen, a), RunRow(key, page, seen, a);
            key in r.seen <==> key in t.seen || !IsUnhandled(t.exit.value)
  {
  }

  // ---------------------------------------------------------------------------
  // Where the browser stands
  // ---------------------------------------------------------------------------

  /** The page of the results list after a trace, for a browser that stood on `place` before it:
      the page of the last way back. */
  function StandsAfter(events: seq<Event>, place: nat): nat {
    if events == [] then place
    else if events[|events| - 1].Returned? then events[|events| - 1].how.at
    else StandsAfter(events[..|events| - 1], place)
  }

  lemma StandsAfterAppended(events: seq<Event>, e: Event, place: nat)
    ensures StandsAfter(events + [e], place) == if e.Returned? then e.how.at else StandsAfter(events, place)
  {
    assert (events + [e])[..|events|] == events;
  }

  /** The last way back of a trace. */
  ghost predicate LastReturnAt(events: seq<Event>, k: nat) {
    k < |events| && events[k].Returned? && forall j :: k < j < |events| ==> !events[j].Returned?
  }

  ghost predicate NoReturns(events: seq<Event>) { forall k :: 0 <= k < |events| ==> !events[k].Returned? }

  lemma {:induction false} StandsWhereItStood(events: seq<Event>, place: nat)
    requires NoReturns(events)
    ensures StandsAfter(events, place) == place
  {
    if events != [] {
      StandsWhereItStood(events[..|events| - 1], place);
    }
  }

  lemma {:induction false} StandsAtLastReturn(events: seq<Event>, place: nat, k: nat)
    requires LastReturnAt(events, k)
    ensures StandsAfter(events, place) == events[k].how.at
  {
    if k < |events| - 1 {
      StandsAtLastReturn(events[..|events| - 1], place, k);
    }
  }

  lemma {:induction false} FindLastReturn(events: seq<Event>) returns (k: nat)
    requires !NoReturns(events)
    ensures LastReturnAt(events, k)
  {
    var last := |events| - 1;
    if events[last].Returned? {
      k := last;
    } else {
      k := FindLastReturn(events[..last]);
    }
  }

  lemma StandsAfterReported(events: seq<Event>, keyed: bool, e: Event, place: nat)
    requires IsStatus(e)
    ensures StandsAfter(Reported(events, keyed, e), place) == StandsAfter(events, place)
  {
    StandsAfterAppended(events, e, place);
  }

  lemma StandsAfterNoted(events: seq<Event>, r: Return, place: nat)
    ensures StandsAfter(Noted(events, r), place) == if r.how.Some? then r.how.value.at else StandsAfter(events, place)
  {
    if r.how.Some? {
      StandsAfterAppended(events, Returned(r.how.value), place);
    }
  }

  /** The return of the retry, if one was made and it led somewhere. */
  function RetryReturn(page: nat, a: RowScript): Option<ReturnScript> {
    if a.locate.Located? && HasTransientAnswer(a.open) && ReturnToResults(page, a.retryBack).how.Some?
    then Some(a.retryBack) else None
  }

  /** The last return the body made. */
  function BodyReturn(page: nat, seen: set<string>, keyed: bool, a: RowScript): Option<ReturnScript> {
    var o := OpenRow(page, [Accepted], a);
    if Settles(o, a) && Ending(page, seen, keyed, o, a).2.how.Some? then Some(a.back) else RetryReturn(page, a)
  }

  /** The last return of the row, its handlers included. */
  function LastReturn(key: string, page: nat, seen: set<string>, a: RowScript): Option<ReturnScript> {
    if a.accept.AcceptFails? then None
    else if Goes(Tried(key, page, seen, a).exit) && ReturnToResults(page, a.handlerBack).how.Some? then
      Some(a.handlerBack)
    else BodyReturn(page, seen, a.accept.Keyed?, a)
  }

  /** Whether a browser that stood on `place` stands off the labelled page after its last return. */
  predicate EndsElsewhere(page: nat, place: nat, last: Option<ReturnScript>) {
    if last.Some? then LandsElsewhere(page, last.value) else place != page
  }

  lemma OpeningDriftsExactly(page: nat, place: nat, a: RowScript)
    requires page >= 1
    ensures StandsAfter(OpenRow(page, [Accepted], a).events, place) != page <==>
              EndsElsewhere(page, place, RetryReturn(page, a))
  {
    var r, first := ReturnToResults(page, a.retryBack), [Accepted] + [Opened(a.open)];
    StandsAfterAppended([], Accepted, place);
    assert [] + [Accepted] == [Accepted];
    StandsAfterAppended([Accepted], Opened(a.open), place);
    StandsAfterNoted(first, r, place);
    StandsAfterAppended(Noted(first, r), Opened(a.reopen), place);
    ReturnMeaning(page, a.retryBack);
  }

  /** A return after the status is the one of the script. */
  lemma LeaveMeaning(page: nat, seen: set<string>, keyed: bool, o: Opening, a: RowScript)
    requires page >= 1 && Settles(o, a)
    ensures var left := Ending(page, seen, keyed, o, a).2;
            left.how.Some? ==> (left.how.value.at != page <==> LandsElsewhere(page, a.back))
  {
    ReturnMeaning(page, a.back);
  }

  lemma BodyDriftsExactly(key: string, page: nat, seen: set<string>, place: nat, a: RowScript)
    requires page >= 1
    ensures StandsAfter(Tried(key, page, seen, a).events, place) != page <==>
              EndsElsewhere(page, place, BodyReturn(page, seen, a.accept.Keyed?, a))
  {
    var o, keyed := OpenRow(page, [Accepted], a), a.accept.Keyed?;
    OpeningDriftsExactly(page, place, a);
    SettledEvents(key, page, seen, keyed, o, a);
    if Settles(o, a) {
      var (due, e, left) := Ending(page, seen, keyed, o, a);
      StandsAfterReported(o.events, due, e, place);
      StandsAfterNoted(Reported(o.events, due, e), left, place);
      LeaveMeaning(page, seen, keyed, o, a);
    }
  }

  /** Every row, whatever it ends in, leaves the browser off the page of its label exactly under the
      guard of the last return it made: it went back to another page, or its restore broke off on
      one. Without a return the browser stands where it stood. */
  lemma RowDriftsExactly(key: string, page: nat, seen: set<string>, place: nat, a: RowScript)
    requires page >= 1
    ensures StandsAfter(RunRow(key, page, seen, a).events, place) != page <==>
              EndsElsewhere(page, place, LastReturn(key, page, seen, a))
  {
    if a.accept.AcceptFails? {
      return;
    }
    var t, keyed := Tried(key, page, seen, a), a.accept.Keyed?;
    var back := ReturnToResults(page, a.handlerBack);
    BodyDriftsExactly(key, page, seen, place, a);
    HandledEvents(key, page, keyed, t, a);
    ReturnMeaning(page, a.handlerBack);
    StandsAfterNoted(t.events, back, place);
    var due := keyed && HandlerReports(page, t.exit, a);
    StandsAfterReported(if Goes(t.exit) then Noted(t.events, back) else t.events, due, Failed(Unclassified), place);
  }

  /** A row whose body raises nothing makes a return: the one at its end, or that of its retry if the
      page was restored by it. */
  lemma CleanBodyReturns(key: string, page: nat, seen: set<string>, a: RowScript)
    requires page >= 1 && !a.accept.AcceptFails? && Tried(key, page, seen, a).exit.None?
    ensures LastReturn(key, page, seen, a)
            == Some(if OpenRow(page, [Accepted], a).restored then a.retryBack else a.back)
  {
    ReturnMeaning(page, a.back);
    ReturnMeaning(page, a.retryBack);
  }

  /** A row that was broken off can still finish, with the browser on page 1 under a later label. */
  lemma BrokenRowDrifts(key: string, page: nat, seen: set<string>, place: nat)
    requires page > 1
    ensures var r := RunRow(key, page, seen, REPORTED_TWICE); r.exit.None? && StandsAfter(r.events, place) == 1
  {
    assert ReturnToResults(page, BROKEN_RETURN) == Return(Some(BrokenOff(1)), Some(SEARCH_STATE));
    var t := Tried(key, page, seen, REPORTED_TWICE);
    var back := Noted(t.events, ReturnToResults(page, EasyReturn(1)));
    StandsAfterNoted(t.events, ReturnToResults(page, EasyReturn(1)), place);
    StandsAfterReported(back, true, Failed(Unclassified), place);
  }
}
