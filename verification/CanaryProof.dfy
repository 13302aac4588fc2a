/** The bounded proof of a live canary (workflows/discover.py): an accumulator listens to the progress
    of the crawl, and builds the proof only from one whole scan. */
module CanaryProof {
  import opened Text
  import opened PyValue
  import opened Receipts
  import CE = CanaryEvidence

  datatype Target = Target(keyword: string, digest: string, maxPages: int)

  /** A number in an event, if it is there and an integer. */
  datatype Number = Missing | Int(n: int) | NotInt

  /** What the accumulator is told: progress of the crawl, and candidates persisted from a page. */
  datatype Event =
    | BrowserStarted
    | PageFinished(keyword: string, page: Number, cap: Number)
    | PaginationEnded(keyword: string, page: Number, cap: Number, outcome: Value)
    | Persisted(page: Number)

  /** The books: the browser, the pages and what spoke against them, the end of the pagination, and the
      persisted candidates. */
  datatype Books = Books(browser: Browser, scan: Scan, end: End, persisted: Candidates)
  datatype Browser = Browser(started: bool, early: bool)
  datatype Scan = Scan(pages: seq<int>, keywordMismatch: bool, sequenceInvalid: bool, capMismatch: bool)
  datatype End = End(outcome: Option<Value>, page: Option<int>, late: bool)
  datatype Candidates = Candidates(invalid: bool, later: bool)

  const EMPTY := Books(Browser(false, false), Scan([], false, false, false), End(None, None, false),
                       Candidates(false, false))

  predicate IsPage(page: Number) { page.Int? && page.n >= 1 }

  predicate CapFits(t: Target, cap: Number) { cap.Missing? || cap == Int(t.maxPages) }

  /** A text that is not blank; the words are never blank. */
  predicate IsText(v: Value) { v.JWord? || (v.JStr? && Strip(v.s) != []) }

  function Trimmed(v: Value): Value { if v.JWord? then v else JStr(if v.JStr? then Strip(v.s) else []) }

  predicate IsProgress(e: Event) { !e.Persisted? }

  predicate IsOfPage(e: Event) { e.PageFinished? || e.PaginationEnded? }

  /** `early`: a page came before any browser. */
  function BrowserAfter(b: Browser, e: Event): Browser {
    if e.BrowserStarted? then Browser(true, b.early)
    else if IsOfPage(e) then Browser(b.started, b.early || !b.started)
    else b
  }

  /** What a page or the end of the pagination says about the target. */
  function ScanAfter(t: Target, b: Scan, e: Event): Scan
    requires IsOfPage(e)
  {
    Scan(if e.PageFinished? && IsPage(e.page) then b.pages + [e.page.n] else b.pages,
         b.keywordMismatch || e.keyword != t.keyword,
         b.sequenceInvalid || !IsPage(e.page) || (e.PaginationEnded? && !IsText(e.outcome)),
         b.capMismatch || !CapFits(t, e.cap))
  }

  /** `late`: progress came after the end. */
  function EndAfter(b: End, e: Event): End {
    if !IsProgress(e) then b
    else if b.outcome.Some? then End(b.outcome, b.page, true)
    else if e.PaginationEnded? then
      End(Some(Trimmed(e.outcome)), if IsPage(e.page) then Some(e.page.n) else b.page, b.late)
    else b
  }

  function CandidatesAfter(b: Candidates, page: Number): Candidates {
    if !page.Int? || page.n < 1 then Candidates(true, b.later)
    else if page.n == 1 then b
    else Candidates(b.invalid, true)
  }

  function Recorded(t: Target, b: Books, e: Event): Books {
    Books(BrowserAfter(b.browser, e),
          if IsOfPage(e) && b.end.outcome.None? then ScanAfter(t, b.scan, e) else b.scan,
          EndAfter(b.end, e),
          if e.Persisted? then CandidatesAfter(b.persisted, e.page) else b.persisted)
  }

  datatype Refusal =
    | BeforeBrowser | AfterTerminal | KeywordMismatch | StartMissing | SequenceInvalid | TerminalMissing
    | TerminalPageMismatch | CapNotReached | OutcomeInvalid | LaterPageMissing

  datatype Built = Proof(value: Value) | Refused(reason: Refusal)

  predicate IsContiguous(pages: seq<int>) { forall k | 0 <= k < |pages| :: pages[k] == k + 1 }

  function ProofOf(t: Target, pages: seq<int>, outcome: Value): Value {
    JObj(map[
      Key.ContractVersion := JInt(1),
      Key.TargetDigest := JStr(t.digest),
      Key.BrowserStarted := JBool(true),
      Key.PageSequence := JList(seq(|pages|, i requires 0 <= i < |pages| => JInt(pages[i]))),
      Key.MaxPagesPerKeyword := JInt(t.maxPages),
      Key.TerminalOutcome := outcome,
      Key.LaterPagePersisted := JBool(true)
    ])
  }

  predicate EndsScan(outcome: Value) { outcome in {JWord(Word.NextControlAbsent), JWord(Word.NextControlDisabled)} }

  /** The first thing that speaks against the proof. */
  function Objection(t: Target, b: Books): Option<Refusal> {
    if b.browser.early then Some(BeforeBrowser)
    else if b.end.late then Some(AfterTerminal)
    else if b.scan.keywordMismatch then Some(KeywordMismatch)
    else if !b.browser.started then Some(StartMissing)
    else if b.scan.sequenceInvalid || b.scan.capMismatch || !IsContiguous(b.scan.pages) || |b.scan.pages| < 5 then
      Some(SequenceInvalid)
    else if b.end.outcome.None? then Some(TerminalMissing)
    else if b.end.page != Some(b.scan.pages[|b.scan.pages| - 1]) then Some(TerminalPageMismatch)
    else if b.end.outcome.value == JWord(Word.MaxPagesReached) && b.end.page != Some(t.maxPages) then
      Some(CapNotReached)
    else if b.end.outcome.value != JWord(Word.MaxPagesReached) && !EndsScan(b.end.outcome.value) then
      Some(OutcomeInvalid)
    else if b.persisted.invalid || !b.persisted.later then Some(LaterPageMissing)
    else None
  }

  function Build(t: Target, b: Books): Built {
    match Objection(t, b)
    case Some(reason) => Refused(reason)
    case None => Proof(ProofOf(t, b.scan.pages, if b.end.outcome.Some? then b.end.outcome.value else JNull))
  }

  /** All events, in order. */
  function RecordedAll(t: Target, b: Books, events: seq<Event>): Books {
    if events == [] then b
    else Recorded(t, RecordedAll(t, b, events[..|events| - 1]), events[|events| - 1])
  }

  class ProofAccumulator {
    const target: Target
    var browserStarted: bool
    var pageSequence: seq<int>
    var terminalOutcome: Option<Value>
    var terminalPage: Option<int>
    var laterPagePersisted: bool
    var eventAfterTerminal: bool
    var keywordMismatch: bool
    var pageSequenceInvalid: bool
    var maxPagesMismatch: bool
    var persistenceInvalid: bool
    var eventBeforeBrowser: bool

    constructor (target: Target)
      ensures this.target == target && State() == EMPTY
    {
      this.target := target;
      browserStarted, pageSequence, terminalOutcome, terminalPage := false, [], None, None;
      laterPagePersisted, eventAfterTerminal, keywordMismatch := false, false, false;
      pageSequenceInvalid, maxPagesMismatch, persistenceInvalid, eventBeforeBrowser := false, false, false, false;
    }

    function State(): Books
      reads this
    {
      Books(Browser(browserStarted, eventBeforeBrowser),
            Scan(pageSequence, keywordMismatch, pageSequenceInvalid, maxPagesMismatch),
            End(terminalOutcome, terminalPage, eventAfterTerminal),
            Candidates(persistenceInvalid, laterPagePersisted))
    }

    method RecordProgress(e: Event)
      requires !e.Persisted?
      modifies this
      ensures State() == Recorded(target, old(State()), e)
    {
      if e.BrowserStarted? {
        if terminalOutcome.Some? {
          eventAfterTerminal := true;
        }
        browserStarted := true;
        return;
      }
      if !browserStarted {
        eventBeforeBrowser := true;
      }
      if terminalOutcome.Some? {
        eventAfterTerminal := true;
        return;
      }
      RecordPage(e);
      if e.PaginationEnded? {
        if IsPage(e.page) {
          terminalPage := Some(e.page.n);
        }
        terminalOutcome := Some(Trimmed(e.outcome));
      }
    }

    /** Compares a page event with the target. */
    method RecordPage(e: Event)
      requires IsOfPage(e)
      modifies this`keywordMismatch, this`pageSequenceInvalid, this`maxPagesMismatch, this`pageSequence
      ensures State() == old(State()).(scan := ScanAfter(target, old(State()).scan, e))
    {
      if e.keyword != target.keyword {
        keywordMismatch := true;
      }
      if !IsPage(e.page) {
        pageSequenceInvalid := true;
      } else if e.PageFinished? {
        pageSequence := pageSequence + [e.page.n];
      }
      if !CapFits(target, e.cap) {
        maxPagesMismatch := true;
      }
      if e.PaginationEnded? && !IsText(e.outcome) {
        pageSequenceInvalid := true;
      }
    }

    method RecordPersistedCandidate(page: Number)
      modifies this
      ensures State() == Recorded(target, old(State()), Persisted(page))
    {
      if !page.Int? {
        persistenceInvalid := true;
        return;
      }
      if page.n == 1 {
        return;
      }
      if page.n < 1 {
        persistenceInvalid := true;
        return;
      }
      laterPagePersisted := true;
    }

    method BuildProof() returns (r: Built)
      ensures r == Build(target, State())
    {
      r := Build(target, State());
    }
  }

  // ---------------------------------------------------------------------------
  // What is built is valid
  // ---------------------------------------------------------------------------

  lemma ContiguousIsOrdered(pages: seq<int>)
    requires IsContiguous(pages) && |pages| >= 5
    ensures PagesInOrder(JList(seq(|pages|, i requires 0 <= i < |pages| => JInt(pages[i]))))
  {
    var items := seq(|pages|, i requires 0 <= i < |pages| => JInt(pages[i]));
    assert items == PagesUpTo(|pages|);
  }

  /** Every proof the accumulator builds passes all four tests of the receipt verifier, for its target's
      digest and page cap, whatever it was told. */
  lemma BuiltProofIsValid(t: Target, b: Books)
    requires Build(t, b).Proof? && IsDigest(JStr(t.digest))
    ensures CE.CheckProof(Build(t, b).value, t.digest, t.maxPages) == CE.ProofChecks(true, true, true, true)
  {
    ContiguousIsOrdered(b.scan.pages);
    var proof := Build(t, b).value;
    assert proof == ProofOf(t, b.scan.pages, b.end.outcome.value);
    assert proof.fields.Keys == CE.CANARY_PROOF_KEYS;
  }

  // ---------------------------------------------------------------------------
  // When it is built
  // ---------------------------------------------------------------------------

  /** An event of a page that fits the target. */
  predicate FitsTarget(t: Target, e: Event)
    requires IsOfPage(e)
  {
    e.keyword == t.keyword && IsPage(e.page) && CapFits(t, e.cap) && (e.PaginationEnded? ==> IsText(e.outcome))
  }

  /** Every page event comes after a start of the browser. */
  ghost predicate BrowserFirst(events: seq<Event>) {
    forall k :: 0 <= k < |events| && IsOfPage(events[k]) ==> exists j :: 0 <= j < k && events[j].BrowserStarted?
  }

  /** Nothing of the crawl comes after the end of the pagination. */
  ghost predicate NothingAfterEnd(events: seq<Event>) {
    forall j, k :: 0 <= j < k < |events| && events[j].PaginationEnded? ==> !IsProgress(events[k])
  }

  ghost predicate AllFitTarget(t: Target, events: seq<Event>) {
    forall k :: 0 <= k < |events| && IsOfPage(events[k]) ==> FitsTarget(t, events[k])
  }

  /** The numbers of the pages that were finished, in order. */
  function PageNumbers(events: seq<Event>): seq<int> {
    if events == [] then []
    else
      var last := events[|events| - 1];
      PageNumbers(events[..|events| - 1]) + if last.PageFinished? && last.page.Int? then [last.page.n] else []
  }

  ghost predicate HasStart(events: seq<Event>) { exists k :: 0 <= k < |events| && events[k].BrowserStarted? }

  ghost predicate IsEnd(events: seq<Event>, k: nat) { k < |events| && events[k].PaginationEnded? }

  ghost predicate HasEnd(events: seq<Event>) { exists k: nat :: IsEnd(events, k) }

  ghost predicate PersistedFits(events: seq<Event>) {
    forall k :: 0 <= k < |events| && events[k].Persisted? ==> IsPage(events[k].page)
  }

  ghost predicate HasLaterPage(events: seq<Event>) {
    exists k :: 0 <= k < |events| && events[k].Persisted? && events[k].page.Int? && events[k].page.n >= 2
  }

  /** What the books hold after some events. */
  ghost predicate StartFits(events: seq<Event>, b: Books) {
    (b.browser.started <==> HasStart(events)) && (!b.browser.early <==> BrowserFirst(events))
  }

  ghost predicate EndFits(events: seq<Event>, b: Books) {
    (b.end.outcome.Some? <==> HasEnd(events)) && (!b.end.late <==> NothingAfterEnd(events))
  }

  ghost predicate PersistenceFits(events: seq<Event>, b: Books) {
    (!b.persisted.invalid <==> PersistedFits(events)) && (b.persisted.later <==> HasLaterPage(events))
  }

  ghost predicate NoMismatch(b: Scan) { !b.keywordMismatch && !b.sequenceInvalid && !b.capMismatch }

  /** The pages and the end are those of the events, if all of these fit. */
  ghost predicate PagesFit(t: Target, events: seq<Event>, b: Books) {
    && (NoMismatch(b.scan) <==> AllFitTarget(t, events))
    && (AllFitTarget(t, events) ==> b.scan.pages == PageNumbers(events))
    && (forall k: nat :: AllFitTarget(t, events) && IsEnd(events, k) ==>
          b.end.outcome == Some(Trimmed(events[k].outcome)) && b.end.page == Some(events[k].page.n))
  }

  ghost predicate BooksFit(t: Target, events: seq<Event>, b: Books) {
    && StartFits(events, b) && EndFits(events, b) && PersistenceFits(events, b)
    && (NothingAfterEnd(events) ==> PagesFit(t, events, b))
  }

  // One more event.

  lemma OneMoreStart(before: seq<Event>, e: Event)
    ensures HasStart(before + [e]) <==> HasStart(before) || e.BrowserStarted?
  {
    var events := before + [e];
    assert events[|before|] == e;
    if k :| 0 <= k < |before| && before[k].BrowserStarted? {
      assert events[k].BrowserStarted?;
    }
  }

  lemma OneMoreInOrder(before: seq<Event>, e: Event)
    ensures BrowserFirst(before + [e]) <==> BrowserFirst(before) && (IsOfPage(e) ==> HasStart(before))
  {
    var events := before + [e];
    assert events[|before|] == e;
    if BrowserFirst(before) && (IsOfPage(e) ==> HasStart(before)) {
      forall k | 0 <= k < |events| && IsOfPage(events[k])
        ensures exists j :: 0 <= j < k && events[j].BrowserStarted?
      {
        var j :| 0 <= j < k && before[j].BrowserStarted?;
        assert events[j].BrowserStarted?;
      }
    }
    if BrowserFirst(events) {
      forall k | 0 <= k < |before| && IsOfPage(before[k])
        ensures exists j :: 0 <= j < k && before[j].BrowserStarted?
      {
        assert IsOfPage(events[k]);
        var j :| 0 <= j < k && events[j].BrowserStarted?;
        assert before[j].BrowserStarted?;
      }
      if IsOfPage(e) {
        var j :| 0 <= j < |before| && events[j].BrowserStarted?;
        assert before[j].BrowserStarted?;
      }
    }
  }

  lemma OneMoreEnd(before: seq<Event>, e: Event)
    ensures HasEnd(before + [e]) <==> HasEnd(before) || e.PaginationEnded?
  {
    var events := before + [e];
    assert e.PaginationEnded? ==> IsEnd(events, |before|);
    if k: nat :| IsEnd(before, k) {
      assert IsEnd(events, k);
    }
    if k: nat :| IsEnd(events, k) {
      assert k < |before| ==> IsEnd(before, k);
    }
  }

  lemma OneMoreAfterEnd(before: seq<Event>, e: Event)
    ensures NothingAfterEnd(before + [e]) <==> NothingAfterEnd(before) && (IsProgress(e) ==> !HasEnd(before))
  {
    var events := before + [e];
    assert events[|before|] == e && forall k :: 0 <= k < |before| ==> events[k] == before[k];
    if NothingAfterEnd(events) && IsProgress(e) {
      forall k: nat
        ensures !IsEnd(before, k)
      {
        assert k < |before| ==> events[k] == before[k];
      }
    }
    if NothingAfterEnd(before) && (IsProgress(e) ==> !HasEnd(before)) {
      forall j, k | 0 <= j < k < |events| && events[j].PaginationEnded?
        ensures !IsProgress(events[k])
      {
        assert IsEnd(before, j);
      }
    }
  }

  lemma OneMorePersisted(before: seq<Event>, e: Event)
    ensures PersistedFits(before + [e]) <==> PersistedFits(before) && (e.Persisted? ==> IsPage(e.page))
    ensures HasLaterPage(before + [e]) <==> HasLaterPage(before) || (e.Persisted? && e.page.Int? && e.page.n >= 2)
  {
    var events := before + [e];
    assert events[|before|] == e;
    if k :| 0 <= k < |before| && before[k].Persisted? && before[k].page.Int? && before[k].page.n >= 2 {
      assert events[k] == before[k];
    }
    forall k | 0 <= k < |before|
      ensures events[k] == before[k]
    {
    }
  }

  lemma OneMoreFits(t: Target, before: seq<Event>, e: Event)
    ensures AllFitTarget(t, before + [e]) <==> AllFitTarget(t, before) && (IsOfPage(e) ==> FitsTarget(t, e))
    ensures PageNumbers(before + [e]) == PageNumbers(before) + if e.PageFinished? && e.page.Int? then [e.page.n] else []
  {
    var events := before + [e];
    assert events[|before|] == e && events[..|before|] == before;
    assert forall k :: 0 <= k < |before| ==> events[k] == before[k];
  }

  // One more entry in the books.

  lemma PageNoted(t: Target, e: Event, b: Scan)
    requires IsOfPage(e)
    ensures NoMismatch(ScanAfter(t, b, e)) <==> NoMismatch(b) && FitsTarget(t, e)
    ensures FitsTarget(t, e) ==> ScanAfter(t, b, e).pages == b.pages + if e.PageFinished? then [e.page.n] else []
  {
  }

  lemma PagesStep(t: Target, before: seq<Event>, e: Event, b: Books)
    requires EndFits(before, b) && PagesFit(t, before, b) && (IsProgress(e) ==> !HasEnd(before))
    ensures PagesFit(t, before + [e], Recorded(t, b, e))
  {
    var events, after := before + [e], Recorded(t, b, e);
    OneMoreFits(t, before, e);
    if IsOfPage(e) {
      PageNoted(t, e, b.scan);
    }
    forall k: nat | AllFitTarget(t, events) && IsEnd(events, k)
      ensures after.end.outcome == Some(Trimmed(events[k].outcome)) && after.end.page == Some(events[k].page.n)
    {
      if k < |before| {
        assert IsEnd(before, k) && events[k] == before[k];
      } else {
        assert events[k] == e;
      }
    }
  }

  lemma BooksStep(t: Target, before: seq<Event>, e: Event, b: Books)
    requires StartFits(before, b) && EndFits(before, b) && PersistenceFits(before, b)
    ensures var events, after := before + [e], Recorded(t, b, e);
            StartFits(events, after) && EndFits(events, after) && PersistenceFits(events, after)
  {
    OneMoreStart(before, e);
    OneMoreInOrder(before, e);
    OneMoreEnd(before, e);
    OneMoreAfterEnd(before, e);
    OneMorePersisted(before, e);
  }

  lemma {:induction false} BooksMeaning(t: Target, events: seq<Event>)
    ensures BooksFit(t, events, RecordedAll(t, EMPTY, events))
  {
    if events != [] {
      var before, e := events[..|events| - 1], events[|events| - 1];
      var b := RecordedAll(t, EMPTY, before);
      assert events == before + [e];
      BooksMeaning(t, before);
      BooksStep(t, before, e, b);
      OneMoreAfterEnd(before, e);
      if NothingAfterEnd(events) {
        PagesStep(t, before, e, b);
      }
    }
  }

  lemma PersistenceMeaning(t: Target, events: seq<Event>)
    ensures var b := RecordedAll(t, EMPTY, events);
            (!b.persisted.invalid <==> PersistedFits(events)) && (b.persisted.later <==> HasLaterPage(events))
  {
    BooksMeaning(t, events);
  }

  /** The end of the pagination on the last of some pages, in a terminal outcome. */
  ghost predicate EndsOn(t: Target, e: Event, pages: seq<int>) {
    && e.PaginationEnded? && pages != [] && e.page == Int(pages[|pages| - 1])
    && (if Trimmed(e.outcome) == JWord(Word.MaxPagesReached) then e.page == Int(t.maxPages)
        else EndsScan(Trimmed(e.outcome)))
  }

  /** One whole scan of the target: the browser first, the pages 1 to n for some n of at least five, the
      end on the last of them and nothing after it, and a candidate persisted from a later page. */
  ghost predicate ProvesCanary(t: Target, events: seq<Event>) {
    var pages := PageNumbers(events);
    && HasStart(events) && BrowserFirst(events) && NothingAfterEnd(events) && AllFitTarget(t, events)
    && IsContiguous(pages) && |pages| >= 5
    && (exists k: nat :: IsEnd(events, k) && EndsOn(t, events[k], pages))
    && PersistedFits(events) && HasLaterPage(events)
  }

  lemma EndDecides(t: Target, events: seq<Event>, b: Books, k: nat)
    requires PagesFit(t, events, b) && AllFitTarget(t, events) && IsEnd(events, k)
    requires b.scan.pages == PageNumbers(events) && |PageNumbers(events)| >= 5
    ensures EndsOn(t, events[k], PageNumbers(events)) <==>
              && b.end.page == Some(b.scan.pages[|b.scan.pages| - 1])
              && (b.end.outcome == Some(JWord(Word.MaxPagesReached)) ==> b.end.page == Some(t.maxPages))
              && (b.end.outcome != Some(JWord(Word.MaxPagesReached)) ==>
                    b.end.outcome.Some? && EndsScan(b.end.outcome.value))
  {
    assert FitsTarget(t, events[k]);
  }

  /** For every sequence of events, a proof is built if and only if they are one whole scan of the target,
      and it holds the pages of that scan. */
  lemma BuiltExactly(t: Target, events: seq<Event>)
    ensures var r := Build(t, RecordedAll(t, EMPTY, events));
            && (r.Proof? <==> ProvesCanary(t, events))
            && (r.Proof? ==> exists outcome :: r.value == ProofOf(t, PageNumbers(events), outcome))
  {
    var b := RecordedAll(t, EMPTY, events);
    BooksMeaning(t, events);
    if NothingAfterEnd(events) && AllFitTarget(t, events) && |PageNumbers(events)| >= 5 && HasEnd(events) {
      var k: nat :| IsEnd(events, k);
      EndDecides(t, events, b, k);
      forall i: nat | IsEnd(events, i)
        ensures EndsOn(t, events[i], PageNumbers(events)) <==> EndsOn(t, events[k], PageNumbers(events))
      {
        EndDecides(t, events, b, i);
      }
    }
    if Build(t, b).Proof? {
      assert Build(t, b).value == ProofOf(t, PageNumbers(events), b.end.outcome.value);
    }
  }

  // ---------------------------------------------------------------------------
  // Persisted candidates in between
  // ---------------------------------------------------------------------------

  function ProgressOf(events: seq<Event>): seq<Event> {
    if events == [] then []
    else
      var last := events[|events| - 1];
      ProgressOf(events[..|events| - 1]) + if IsProgress(last) then [last] else []
  }

  /** What the books say of the crawl does not depend on the candidates persisted in between. */
  lemma {:induction false} ProgressDecides(t: Target, events: seq<Event>)
    ensures var b, p := RecordedAll(t, EMPTY, events), RecordedAll(t, EMPTY, ProgressOf(events));
            b.browser == p.browser && b.scan == p.scan && b.end == p.end
  {
    if events != [] {
      var before, last := events[..|events| - 1], events[|events| - 1];
      ProgressDecides(t, before);
      if IsProgress(last) {
        var progress := ProgressOf(before) + [last];
        assert progress[..|progress| - 1] == ProgressOf(before) && progress[|progress| - 1] == last;
        assert ProgressOf(events) == progress;
      } else {
        assert ProgressOf(events) == ProgressOf(before) + [] == ProgressOf(before);
      }
    }
  }

  /** The canary evidence of a run that holds such a proof passes every re-examination of it. */
  lemma BuiltProofSatisfiesCanary(t: Target, b: Books, e: Value)
    requires Build(t, b).Proof? && IsDigest(JStr(t.digest)) && Get(e, Key.CanaryProof) == Build(t, b).value
    ensures CE.RawProof(e, Some(CE.Target(t.digest, t.maxPages))) == CE.ProofChecks(true, true, true, true)
  {
    BuiltProofIsValid(t, b);
  }
}
