/** The in-memory completion map of one crawl and its agreement with the workbook a
    restarted crawl would load. */
module ProcessedProjects {
  import opened Text
  import opened Spreadsheet

  datatype Bucket = PricingOnly | InvitationPlusPricing | DraftPlusPricing | FinalTorDownloaded | NoArtifactEvidence {
    function Value(): string {
      match this
      case PricingOnly => "pricing_only"
      case InvitationPlusPricing => "invitation_plus_pricing"
      case DraftPlusPricing => "draft_plus_pricing"
      case FinalTorDownloaded => "final_tor_downloaded"
      case NoArtifactEvidence => "no_artifact_evidence"
    }
  }

  const CONSULTING_WORD := "ที่ปรึกษา"

  /** Tracking state and closing reason ("" for none) of a visited project. */
  function DeriveTrackingStatus(name: string, organization: string, bucket: Bucket, prelim: bool, stale: bool)
    : (string, string)
  {
    if prelim then ("prelim_pricing_seen", "prelim_pricing")
    else if stale then ("closed_stale_no_tor", "stale_no_tor")
    else if bucket.FinalTorDownloaded? then ("tor_downloaded", "")
    else if bucket.DraftPlusPricing? then ("open_public_hearing", "")
    else if Contains(name + " " + organization, CONSULTING_WORD) then ("open_consulting", "")
    else ("open_invitation", "")
  }

  const SKIP_WORDS := ["ทางหลวง", "วิธีคัดเลือก", "บำรุงรักษา", "วิธีเฉพาะเจาะจง"]

  predicate HoldsSkipWord(text: string) {
    exists w | w in SKIP_WORDS :: Contains(text, w)
  }

  /** What one visit to a project page sees. */
  datatype Visit = Visit(
    searchName: string,
    preview: string,
    keyword: string,
    downloadDate: string,
    extractedName: string,
    organization: string,
    number: string,
    budget: string,
    submissionDate: string,
    prelimPricing: bool,
    stale: bool,
    bucket: Bucket)
  {
    function ProjectName(): string {
      if extractedName != "" then extractedName else preview
    }

    predicate TorDownloaded() {
      bucket.FinalTorDownloaded?
    }

    predicate SkipListed() {
      HoldsSkipWord(ProjectName()) || HoldsSkipWord(organization)
    }

    /** A blacklisted project is remembered but not written. */
    predicate Written() {
      prelimPricing || !SkipListed()
    }

    predicate ClosedAsStale() {
      stale && !TorDownloaded()
    }

    /** Completion remembered for the project. */
    predicate Done() {
      prelimPricing || ClosedAsStale() || TorDownloaded()
    }

    function SheetInfo(): Info {
      var status := DeriveTrackingStatus(ProjectName(), organization,
                                         if prelimPricing then NoArtifactEvidence else bucket,
                                         prelimPricing, !prelimPricing && ClosedAsStale());
      Info(Some(downloadDate), ProjectName(), organization, number, budget, submissionDate, keyword,
           Some(if !prelimPricing && TorDownloaded() then "Yes" else "No"),
           Some(if prelimPricing then "Yes" else "No"),
           Some(searchName), Some(status.0), Some(status.1),
           Some(if prelimPricing then NoArtifactEvidence.Value() else bucket.Value()))
    }
  }

  function Remembered(processed: map<string, bool>, v: Visit): map<string, bool> {
    if !v.Written() then processed[v.searchName := true]
    else
      var both := processed[v.searchName := v.Done()][v.ProjectName() := v.Done()];
      if v.number != "" then both[v.number := v.Done()] else both
  }

  function SheetAfter(rows: seq<Row>, v: Visit, today: string): seq<Row> {
    if v.Written() then Upserted(rows, v.SheetInfo(), today) else rows
  }

  /** The crawl's own state: the open workbook and the completion map. */
  class Tracker {
    const book: Workbook
    var processed: map<string, bool>

    /** A crawl starts from the map loaded from its workbook. */
    constructor (book: Workbook)
      ensures this.book == book && processed == Loaded(book.rows)
    {
      this.book := book;
      processed := map[];
      new;
      processed := book.LoadExistingProjects();
    }

    method ProcessOneProject(v: Visit, today: string, locked: bool) returns (outcome: string)
      modifies this, book
      ensures processed == Remembered(old(processed), v)
      ensures book.rows == if locked then old(book.rows) else SheetAfter(old(book.rows), v, today)
      ensures outcome == "downloaded" <==> v.Written() && !v.prelimPricing && v.TorDownloaded()
    {
      if v.prelimPricing {
        book.UpdateExcel(v.SheetInfo(), today, locked);
        processed := processed[v.searchName := true];
        processed := processed[v.ProjectName() := true];
        if v.number != "" {
          processed := processed[v.number := true];
        }
        return "skipped";
      }
      if v.SkipListed() {
        processed := processed[v.searchName := true];
        return "skipped";
      }
      if v.stale && !v.TorDownloaded() {
        book.UpdateExcel(v.SheetInfo(), today, locked);
        processed := processed[v.searchName := true];
        processed := processed[v.ProjectName() := true];
        if v.number != "" {
          processed := processed[v.number := true];
        }
        return "skipped";
      }
      book.UpdateExcel(v.SheetInfo(), today, locked);
      processed := processed[v.searchName := v.TorDownloaded()];
      processed := processed[v.ProjectName() := v.TorDownloaded()];
      if v.number != "" {
        processed := processed[v.number := v.TorDownloaded()];
      }
      return if v.TorDownloaded() then "downloaded" else "incomplete";
    }
  }

  // ---------------------------------------------------------------------------
  // Agreement with a reload
  // ---------------------------------------------------------------------------

  /** Project numbers and titles do not overlap: `isNumber` holds of every number in use
      and of no search name or project name. */
  ghost predicate WellFormedRow(row: Row, isNumber: string -> bool) {
    && row.name != ""
    && (row.number != "" ==> Strip(row.number) == row.number && isNumber(row.number))
    && !isNumber(Strip(row.searchName))
    && !isNumber(Strip(row.name))
  }

  ghost predicate WellFormed(rows: seq<Row>, isNumber: string -> bool) {
    && !isNumber("")
    && NumbersDistinct(rows)
    && forall k :: 0 <= k < |rows| ==> WellFormedRow(rows[k], isNumber)
  }

  ghost predicate WellFormedVisit(v: Visit, isNumber: string -> bool) {
    && v.number != "" && Strip(v.number) == v.number && isNumber(v.number)
    && v.ProjectName() != ""
    && !isNumber(v.ProjectName()) && !isNumber(Strip(v.ProjectName()))
    && !isNumber(v.searchName) && !isNumber(Strip(v.searchName))
  }

  /** The two maps say the same about every project number. */
  ghost predicate AgreeOnNumbers(a: map<string, bool>, b: map<string, bool>, isNumber: string -> bool) {
    forall p :: isNumber(p) ==> (p in a <==> p in b) && (p in a ==> a[p] == b[p])
  }

  /** A row speaks for its own number and for no other number. */
  lemma WithRowAtNumber(before: map<string, bool>, row: Row, isNumber: string -> bool, p: string)
    requires WellFormedRow(row, isNumber) && isNumber(p) && !isNumber("")
    ensures RowNumber(row) == p ==> p in WithRow(before, row) && WithRow(before, row)[p] == RowDone(row)
    ensures RowNumber(row) != p ==> (p in WithRow(before, row) <==> p in before)
    ensures RowNumber(row) != p && p in before ==> WithRow(before, row)[p] == before[p]
  {
  }

  /** The row that carries a number decides what a reload says about it. */
  lemma {:induction false} LoadedAtRow(rows: seq<Row>, isNumber: string -> bool, k: nat)
    requires WellFormed(rows, isNumber) && k < |rows| && isNumber(RowNumber(rows[k]))
    ensures RowNumber(rows[k]) in Loaded(rows)
    ensures Loaded(rows)[RowNumber(rows[k])] == RowDone(rows[k])
  {
    var n := |rows| - 1;
    WithRowAtNumber(Loaded(rows[..n]), rows[n], isNumber, RowNumber(rows[k]));
    if k < n {
      assert RowNumber(rows[k]) != RowNumber(rows[n]);
      LoadedAtRow(rows[..n], isNumber, k);
    }
  }

  /** A number no row carries is absent from a reload. */
  lemma {:induction false} LoadedOnlyFromRows(rows: seq<Row>, isNumber: string -> bool, p: string)
    requires WellFormed(rows, isNumber) && isNumber(p)
    requires forall k :: 0 <= k < |rows| ==> RowNumber(rows[k]) != p
    ensures p !in Loaded(rows)
  {
    if rows != [] {
      var n := |rows| - 1;
      LoadedOnlyFromRows(rows[..n], isNumber, p);
      WithRowAtNumber(Loaded(rows[..n]), rows[n], isNumber, p);
    }
  }

  lemma TerminalValues(name: string, organization: string, bucket: Bucket, prelim: bool, stale: bool)
    ensures IsTerminalTrackingStatus(Strip(DeriveTrackingStatus(name, organization, bucket, prelim, stale).0))
            <==> prelim || stale || bucket.FinalTorDownloaded?
  {
    var s := DeriveTrackingStatus(name, organization, bucket, prelim, stale).0;
    StripKeeps(s);
    assert "open_public_hearing"[0] == "open_consulting"[0] == "open_invitation"[0] == 'o';
    assert forall t :: t in TERMINAL_TRACKING_STATES ==> t[0] != 'o';
  }

  /** What a written visit does to a well-formed sheet: the row it writes carries its number and
      its state, and all other rows stay. */
  lemma VisitKeepsWellFormed(rows: seq<Row>, v: Visit, today: string, isNumber: string -> bool)
    requires WellFormed(rows, isNumber) && WellFormedVisit(v, isNumber) && v.Written()
    ensures var after, t := Upserted(rows, v.SheetInfo(), today), Target(rows, v.SheetInfo());
            && WellFormed(after, isNumber)
            && t < |after| && RowNumber(after[t]) == v.number && RowDone(after[t]) == v.Done()
  {
    var info := v.SheetInfo();
    var after := Upserted(rows, info, today);
    var t := Target(rows, info);
    UpdateKeepsNumbersDistinct(rows, info, today);
    UpdateIsLocal(rows, info, today);
    assert t < |rows| ==> WellFormedRow(rows[t], isNumber);
    assert RowNumber(after[t]) == v.number;
    WrittenRowIsDone(v, after[t]);
    forall k | 0 <= k < |after|
      ensures WellFormedRow(after[k], isNumber)
    {
      assert k != t ==> WellFormedRow(rows[k], isNumber);
    }
  }

  /** A visit is remembered under its own number and under no other number. */
  lemma RememberedAt(processed: map<string, bool>, v: Visit, isNumber: string -> bool, p: string)
    requires WellFormedVisit(v, isNumber) && v.Written() && isNumber(p) && !isNumber("")
    ensures p in Remembered(processed, v) <==> p == v.number || p in processed
    ensures p in Remembered(processed, v) ==>
              Remembered(processed, v)[p] == if p == v.number then v.Done() else processed[p]
  {
  }

  /** Status derivation and the terminal-state test agree with what is remembered: the
      row a visit wrote is done exactly when the visit is. */
  lemma WrittenRowIsDone(v: Visit, row: Row)
    requires v.Written()
    requires row.tor == v.SheetInfo().tor.value
    requires row.prelim == v.SheetInfo().prelim.value
    requires row.tracking == v.SheetInfo().tracking.value
    ensures RowDone(row) <==> v.Done()
  {
    YesNo();
    TerminalValues(v.ProjectName(), v.organization, if v.prelimPricing then NoArtifactEvidence else v.bucket,
                   v.prelimPricing, !v.prelimPricing && v.ClosedAsStale());
  }

  lemma YesNo()
    ensures Lower(Strip("Yes")) == "yes"
    ensures Lower(Strip("No")) != "yes"
  {
    StripKeeps("Yes");
    StripKeeps("No");
    assert "Yes"[1..] == "es" && "es"[1..] == "s" && "s"[1..] == "";
    assert Lower("s") == "s";
    assert Lower("es") == "es";
    assert "No"[1..] == "o" && "o"[1..] == "";
    assert Lower("o") == "o";
  }

  lemma VisitKeepsAgreement(processed: map<string, bool>, rows: seq<Row>, v: Visit, today: string,
                            isNumber: string -> bool)
    requires WellFormed(rows, isNumber) && WellFormedVisit(v, isNumber)
    requires AgreeOnNumbers(processed, Loaded(rows), isNumber)
    ensures WellFormed(SheetAfter(rows, v, today), isNumber)
    ensures AgreeOnNumbers(Remembered(processed, v), Loaded(SheetAfter(rows, v, today)), isNumber)
  {
    if v.Written() {
      VisitKeepsWellFormed(rows, v, today, isNumber);
      forall p | isNumber(p)
        ensures var r, l := Remembered(processed, v), Loaded(SheetAfter(rows, v, today));
                (p in r <==> p in l) && (p in r ==> r[p] == l[p])
      {
        AgreementAt(processed, rows, v, today, isNumber, p);
      }
    }
  }

  lemma AgreementAt(processed: map<string, bool>, rows: seq<Row>, v: Visit, today: string, isNumber: string -> bool,
                    p: string)
    requires WellFormed(rows, isNumber) && WellFormedVisit(v, isNumber) && v.Written() && isNumber(p)
    requires AgreeOnNumbers(processed, Loaded(rows), isNumber)
    ensures var r, l := Remembered(processed, v), Loaded(Upserted(rows, v.SheetInfo(), today));
            (p in r <==> p in l) && (p in r ==> r[p] == l[p])
  {
    var after, t := Upserted(rows, v.SheetInfo(), today), Target(rows, v.SheetInfo());
    VisitKeepsWellFormed(rows, v, today, isNumber);
    UpdateIsLocal(rows, v.SheetInfo(), today);
    RememberedAt(processed, v, isNumber, p);
    if p == v.number {
      LoadedAtRow(after, isNumber, t);
    } else {
      NumberElsewhere(rows, after, t, isNumber, p);
    }
  }

  /** An update of one row leaves what a reload says about every other number. */
  lemma NumberElsewhere(rows: seq<Row>, after: seq<Row>, t: nat, isNumber: string -> bool, p: string)
    requires WellFormed(rows, isNumber) && WellFormed(after, isNumber) && isNumber(p)
    requires t <= |rows| <= |after| <= |rows| + 1 && t < |after|
    requires |after| > |rows| ==> t == |rows|
    requires forall k :: 0 <= k < |rows| && k != t ==> after[k] == rows[k]
    requires RowNumber(after[t]) != p
    requires t < |rows| ==> RowNumber(rows[t]) != p
    ensures p in Loaded(rows) <==> p in Loaded(after)
    ensures p in Loaded(rows) ==> Loaded(rows)[p] == Loaded(after)[p]
  {
    if k :| 0 <= k < |rows| && RowNumber(rows[k]) == p {
      LoadedAtRow(rows, isNumber, k);
      LoadedAtRow(after, isNumber, k);
    } else {
      LoadedOnlyFromRows(rows, isNumber, p);
      LoadedOnlyFromRows(after, isNumber, p);
    }
  }

  /** The whole crawl: visits, each with its date. */
  function CrawlMap(processed: map<string, bool>, visits: seq<(Visit, string)>): map<string, bool>
    decreases |visits|
  {
    if visits == [] then processed
    else CrawlMap(Remembered(processed, visits[0].0), visits[1..])
  }

  function CrawlSheet(rows: seq<Row>, visits: seq<(Visit, string)>): seq<Row>
    decreases |visits|
  {
    if visits == [] then rows
    else CrawlSheet(SheetAfter(rows, visits[0].0, visits[0].1), visits[1..])
  }

  /** After any sequence of visits a restart loads, for every project number, the
      completion the running crawl remembers. */
  lemma {:induction false} RestartAgreement(rows: seq<Row>, visits: seq<(Visit, string)>, isNumber: string -> bool)
    requires WellFormed(rows, isNumber)
    requires forall i :: 0 <= i < |visits| ==> WellFormedVisit(visits[i].0, isNumber)
    ensures AgreeOnNumbers(CrawlMap(Loaded(rows), visits), Loaded(CrawlSheet(rows, visits)), isNumber)
  {
    AgreementIsKept(Loaded(rows), rows, visits, isNumber);
  }

  lemma {:induction false} AgreementIsKept(processed: map<string, bool>, rows: seq<Row>, visits: seq<(Visit, string)>,
                                           isNumber: string -> bool)
    requires WellFormed(rows, isNumber)
    requires forall i :: 0 <= i < |visits| ==> WellFormedVisit(visits[i].0, isNumber)
    requires AgreeOnNumbers(processed, Loaded(rows), isNumber)
    ensures AgreeOnNumbers(CrawlMap(processed, visits), Loaded(CrawlSheet(rows, visits)), isNumber)
    decreases |visits|
  {
    if visits != [] {
      var v, today := visits[0].0, visits[0].1;
      VisitKeepsAgreement(processed, rows, v, today, isNumber);
      AgreementIsKept(Remembered(processed, v), SheetAfter(rows, v, today), visits[1..], isNumber);
    }
  }

  /** The two maps say the same about one project number. */
  ghost predicate AgreeOn(a: map<string, bool>, b: map<string, bool>, p: string) {
    (p in a <==> p in b) && (p in a ==> a[p] == b[p])
  }

  lemma AgreementByNumber(a: map<string, bool>, b: map<string, bool>, isNumber: string -> bool)
    ensures AgreeOnNumbers(a, b, isNumber) <==> forall p :: isNumber(p) ==> AgreeOn(a, b, p)
  {
  }

  lemma RememberingKeepsOthers(
    processed: map<string, bool>, loaded: map<string, bool>, v: Visit, isNumber: string -> bool, p: string)
    requires WellFormedVisit(v, isNumber) && v.Written() && isNumber(p) && !isNumber("")
             && AgreeOn(processed, loaded, p)
    ensures AgreeOn(Remembered(processed, v), loaded, p) <==>
              p != v.number || (v.number in loaded && loaded[v.number] == v.Done())
  {
    RememberedAt(processed, v, isNumber, p);
  }

  lemma UnwrittenKeepsNumbers(
    processed: map<string, bool>, loaded: map<string, bool>, v: Visit, isNumber: string -> bool, p: string)
    requires WellFormedVisit(v, isNumber) && !v.Written() && isNumber(p) && AgreeOn(processed, loaded, p)
    ensures AgreeOn(Remembered(processed, v), loaded, p)
  {
  }

  /** A workbook that could not be opened keeps agreeing with the map of the running crawl exactly when
      the visit is not written, or the sheet already held the visit's own completion under its number. */
  lemma LockedVisitAgreement(processed: map<string, bool>, rows: seq<Row>, v: Visit, isNumber: string -> bool)
    requires WellFormed(rows, isNumber) && WellFormedVisit(v, isNumber)
             && AgreeOnNumbers(processed, Loaded(rows), isNumber)
    ensures AgreeOnNumbers(Remembered(processed, v), Loaded(rows), isNumber)
            <==> !v.Written() || (v.number in Loaded(rows) && Loaded(rows)[v.number] == v.Done())
  {
    var loaded := Loaded(rows);
    AgreementByNumber(processed, loaded, isNumber);
    AgreementByNumber(Remembered(processed, v), loaded, isNumber);
    if v.Written() {
      RememberingKeepsOthers(processed, loaded, v, isNumber, v.number);
    }
    forall p | isNumber(p)
      ensures AgreeOn(Remembered(processed, v), loaded, p) <==>
                !v.Written() || p != v.number || (v.number in loaded && loaded[v.number] == v.Done())
    {
      if v.Written() {
        RememberingKeepsOthers(processed, loaded, v, isNumber, p);
      } else {
        UnwrittenKeepsNumbers(processed, loaded, v, isNumber, p);
      }
    }
  }

  /** A project with pricing, visited while the empty workbook is locked. */
  const LOCKED_OUT := Visit("search", "name", [], [], [], [], "1", [], [], true, false, NoArtifactEvidence)

  /** The crawl remembers it as done, and a reload knows nothing of it. */
  lemma LockedVisitCanDisagree()
    ensures AgreeOnNumbers(map[], Loaded([]), s => s == "1")
    ensures !AgreeOnNumbers(Remembered(map[], LOCKED_OUT), Loaded([]), s => s == "1")
  {
    var isNumber := s => s == "1";
    assert LOCKED_OUT.Written() && LOCKED_OUT.ProjectName() == "name";
    assert isNumber(LOCKED_OUT.number) && LOCKED_OUT.number in Remembered(map[], LOCKED_OUT);
    assert LOCKED_OUT.number !in Loaded([]);
  }
}
