/** The project list workbook of egp_crawler.py: match-or-append updates of one
    row at a time, and the completion map rebuilt from the rows on start-up.
    A cell holds text; the empty text stands for a blank cell. */
module Spreadsheet {
  import opened Text

  datatype Row = Row(
    downloadDate: string,
    name: string,
    organization: string,
    number: string,
    budget: string,
    submissionDate: string,
    keyword: string,
    tor: string,
    prelim: string,
    searchName: string,
    tracking: string,
    closedReason: string,
    bucket: string)

  /** The mapping passed to an update. An optional field is a key that may be absent. */
  datatype Info = Info(
    downloadDate: Option<string>,
    name: string,
    organization: string,
    number: string,
    budget: string,
    submissionDate: string,
    keyword: string,
    tor: Option<string>,
    prelim: Option<string>,
    searchName: Option<string>,
    tracking: Option<string>,
    closedReason: Option<string>,
    bucket: Option<string>)

  function GetOr(o: Option<string>, default: string): string {
    if o.Some? then o.value else default
  }

  function NumberOf(info: Info): string { Strip(info.number) }
  function NameOf(info: Info): string { Strip(info.name) }
  function SearchOf(info: Info): string { Strip(GetOr(info.searchName, "")) }

  /** The project number a row answers to. */
  function RowNumber(row: Row): string { Strip(row.number) }

  /** Cell writes on a matched row. */
  function Rewritten(row: Row, info: Info, today: string): Row {
    row.(
      downloadDate := GetOr(info.downloadDate, today),
      tor := GetOr(info.tor, "No"),
      prelim := GetOr(info.prelim, row.prelim),
      keyword := if row.keyword == "" then info.keyword else row.keyword,
      searchName := GetOr(info.searchName, row.searchName),
      tracking := GetOr(info.tracking, row.tracking),
      closedReason := GetOr(info.closedReason, row.closedReason),
      bucket := GetOr(info.bucket, row.bucket),
      number := if NumberOf(info) != "" && row.number == "" then NumberOf(info) else row.number)
  }

  /** The row appended for a project that matched nothing. */
  function NewRow(info: Info, today: string): Row {
    Row(GetOr(info.downloadDate, today), info.name, info.organization, info.number, info.budget,
        info.submissionDate, info.keyword, GetOr(info.tor, "No"), GetOr(info.prelim, "No"),
        GetOr(info.searchName, ""), GetOr(info.tracking, ""), GetOr(info.closedReason, ""),
        GetOr(info.bucket, ""))
  }

  /** The four matching rules, in the order they are tried. */
  datatype Rule = ByNumber | BySearchName | ByNameToNumber | ByNameOnly

  predicate Matches(rule: Rule, row: Row, info: Info) {
    match rule
    case ByNumber =>
      NumberOf(info) != "" && row.number != "" && RowNumber(row) == NumberOf(info)
    case BySearchName =>
      SearchOf(info) != "" && row.searchName != "" && Strip(row.searchName) == SearchOf(info)
      && (NumberOf(info) == "" || row.number == "" || RowNumber(row) == NumberOf(info))
    case ByNameToNumber =>
      NameOf(info) != "" && NumberOf(info) != ""
      && row.name != "" && Strip(row.name) == NameOf(info) && RowNumber(row) == ""
      && !(row.searchName != "" && SearchOf(info) != "" && Strip(row.searchName) != SearchOf(info))
    case ByNameOnly =>
      NameOf(info) != "" && NumberOf(info) == ""
      && row.name != "" && Strip(row.name) == NameOf(info) && RowNumber(row) == ""
  }

  /** The first row a rule matches, or the row count. */
  function FirstMatch(rows: seq<Row>, rule: Rule, info: Info): (i: nat)
    ensures i <= |rows|
    ensures i < |rows| ==> Matches(rule, rows[i], info)
    ensures forall k :: 0 <= k < i ==> !Matches(rule, rows[k], info)
  {
    if rows == [] then 0
    else if Matches(rule, rows[0], info) then 0
    else
      var rest := FirstMatch(rows[1..], rule, info);
      assert forall k :: 1 <= k < 1 + rest ==> rows[k] == rows[1..][k - 1];
      1 + rest
  }

  /** The row an update lands on: first match of the first rule that matches anything. */
  function Target(rows: seq<Row>, info: Info): (i: nat)
    ensures i <= |rows|
  {
    var a := FirstMatch(rows, ByNumber, info);
    var b := FirstMatch(rows, BySearchName, info);
    var c := FirstMatch(rows, ByNameToNumber, info);
    if a < |rows| then a else if b < |rows| then b else if c < |rows| then c
    else FirstMatch(rows, ByNameOnly, info)
  }

  function Upserted(rows: seq<Row>, info: Info, today: string): seq<Row> {
    var i := Target(rows, info);
    if i < |rows| then rows[i := Rewritten(rows[i], info, today)] else rows + [NewRow(info, today)]
  }

  // ---------------------------------------------------------------------------
  // The workbook object
  // ---------------------------------------------------------------------------

  class Workbook {
    var rows: seq<Row>

    constructor (initial: seq<Row>)
      ensures rows == initial
    {
      rows := initial;
    }

    method FindRow(rule: Rule, info: Info) returns (i: nat)
      ensures i == FirstMatch(rows, rule, info)
    {
      i := 0;
      while i < |rows|
        invariant i <= |rows|
        invariant forall k :: 0 <= k < i ==> !Matches(rule, rows[k], info)
      {
        if Matches(rule, rows[i], info) {
          return;
        }
        i := i + 1;
      }
    }

    /** A workbook that cannot be opened is left as it is. */
    method UpdateExcel(info: Info, today: string, locked: bool)
      modifies this
      ensures rows == if locked then old(rows) else Upserted(old(rows), info, today)
    {
      if locked {
        return;
      }
      var i := |rows|;
      if NumberOf(info) != "" {
        i := FindRow(ByNumber, info);
      }
      if i == |rows| && SearchOf(info) != "" {
        i := FindRow(BySearchName, info);
      }
      if i == |rows| && NameOf(info) != "" && NumberOf(info) != "" {
        i := FindRow(ByNameToNumber, info);
      }
      if i == |rows| && NameOf(info) != "" && NumberOf(info) == "" {
        i := FindRow(ByNameOnly, info);
      }
      if i < |rows| {
        rows := rows[i := Rewritten(rows[i], info, today)];
      } else {
        rows := rows + [NewRow(info, today)];
      }
    }

    method LoadExistingProjects() returns (existing: map<string, bool>)
      ensures existing == Loaded(rows)
    {
      existing := map[];
      var i := 0;
      while i < |rows|
        invariant i <= |rows|
        invariant existing == Loaded(rows[..i])
      {
        assert rows[..i + 1][..i] == rows[..i];
        var row := rows[i];
        if row.name != "" {
          var done := RowDone(row);
          var number := RowNumber(row);
          if number != "" {
            existing := existing[number := done];
          }
          var searchName := Strip(row.searchName);
          if searchName != "" {
            existing := existing[searchName := done];
          } else if number == "" {
            existing := existing[Strip(row.name) := done];
          }
        }
        i := i + 1;
      }
      assert rows[..i] == rows;
    }
  }

  // ---------------------------------------------------------------------------
  // What updates keep
  // ---------------------------------------------------------------------------

  /** Rows that carry a project number carry different ones. */
  ghost predicate NumbersDistinct(rows: seq<Row>) {
    forall i, j :: 0 <= i < j < |rows| && RowNumber(rows[i]) != "" ==> RowNumber(rows[i]) != RowNumber(rows[j])
  }

  /** Where an update lands, rule by rule. */
  lemma TargetFacts(rows: seq<Row>, info: Info)
    ensures var i := Target(rows, info);
            i < |rows| ==> exists rule :: Matches(rule, rows[i], info)
    ensures NumberOf(info) != "" ==>
              var i := Target(rows, info);
              (i < |rows| && RowNumber(rows[i]) == NumberOf(info))
              || forall k :: 0 <= k < |rows| ==> RowNumber(rows[k]) != NumberOf(info)
  {
    var a := FirstMatch(rows, ByNumber, info);
    if NumberOf(info) != "" && a == |rows| {
      forall k | 0 <= k < |rows|
        ensures RowNumber(rows[k]) != NumberOf(info)
      {
        assert !Matches(ByNumber, rows[k], info);
      }
    }
  }

  /** One update: at most one row is rewritten or one is appended, no number cell that
      holds something is overwritten, and a numbered update never touches a row that is
      numbered differently. */
  lemma UpdateIsLocal(rows: seq<Row>, info: Info, today: string)
    ensures var after := Upserted(rows, info, today);
            var i := Target(rows, info);
            && |rows| <= |after| <= |rows| + 1
            && (forall k :: 0 <= k < |rows| && k != i ==> after[k] == rows[k])
            && (|after| == |rows| + 1 <==> i == |rows|)
            && (forall k :: 0 <= k < |rows| && rows[k].number != "" ==> after[k].number == rows[k].number)
            && (NumberOf(info) != "" && i < |rows| ==> RowNumber(rows[i]) in {"", NumberOf(info)})
  {
    TargetFacts(rows, info);
  }

  lemma UpdateKeepsNumbersDistinct(rows: seq<Row>, info: Info, today: string)
    requires NumbersDistinct(rows)
    ensures NumbersDistinct(Upserted(rows, info, today))
  {
    var after := Upserted(rows, info, today);
    var t := Target(rows, info);
    TargetFacts(rows, info);
    StripTwice(info.number);
    assert RowNumber(after[t]) != "" && (t == |rows| || RowNumber(after[t]) != RowNumber(rows[t])) ==>
        RowNumber(after[t]) == NumberOf(info);
    forall i, j | 0 <= i < j < |after| && RowNumber(after[i]) != ""
      ensures RowNumber(after[i]) != RowNumber(after[j])
    {
      if i != t && j != t {
        assert RowNumber(rows[i]) != RowNumber(rows[j]);
      } else {
        var other := if i == t then j else i;
        if t < |rows| && RowNumber(after[t]) == RowNumber(rows[t]) {
          assert RowNumber(rows[i]) != RowNumber(rows[j]);
        }
      }
    }
  }

  /** The sheet after a list of updates, each with its own date. */
  function AfterUpdates(rows: seq<Row>, updates: seq<(Info, string)>): seq<Row>
    decreases |updates|
  {
    if updates == [] then rows
    else
      var before := AfterUpdates(rows, updates[..|updates| - 1]);
      var last := updates[|updates| - 1];
      Upserted(before, last.0, last.1)
  }

  /** Over every history of updates the numbers stay distinct, rows keep their
      position, and a number once written stays written. */
  lemma {:induction false} HistoryKeepsNumbers(rows: seq<Row>, updates: seq<(Info, string)>)
    requires NumbersDistinct(rows)
    ensures NumbersDistinct(AfterUpdates(rows, updates))
    ensures |rows| <= |AfterUpdates(rows, updates)| <= |rows| + |updates|
    ensures forall k :: 0 <= k < |rows| && rows[k].number != "" ==>
              AfterUpdates(rows, updates)[k].number == rows[k].number
    decreases |updates|
  {
    if updates != [] {
      var n := |updates| - 1;
      HistoryKeepsNumbers(rows, updates[..n]);
      var before := AfterUpdates(rows, updates[..n]);
      UpdateKeepsNumbersDistinct(before, updates[n].0, updates[n].1);
      UpdateIsLocal(before, updates[n].0, updates[n].1);
    }
  }

  // ---------------------------------------------------------------------------
  // Repeating an update
  // ---------------------------------------------------------------------------

  /** An update that says which project it is about. */
  predicate Identified(info: Info) {
    NumberOf(info) != "" || SearchOf(info) != "" || NameOf(info) != ""
  }

  lemma RewritingTwice(row: Row, info: Info, today: string)
    ensures Rewritten(Rewritten(row, info, today), info, today) == Rewritten(row, info, today)
    ensures Rewritten(NewRow(info, today), info, today) == NewRow(info, today)
  {
  }

  function Rank(rule: Rule): nat {
    match rule
    case ByNumber => 0
    case BySearchName => 1
    case ByNameToNumber => 2
    case ByNameOnly => 3
  }

  /** A row is the first one a rule matches, and no row matches a rule tried before. */
  ghost predicate IsFirstOf(rows: seq<Row>, info: Info, rule: Rule, t: nat)
    requires t < |rows|
  {
    && Matches(rule, rows[t], info) && (forall k :: 0 <= k < t ==> !Matches(rule, rows[k], info))
    && forall earlier: Rule, k :: Rank(earlier) < Rank(rule) && 0 <= k < |rows| ==> !Matches(earlier, rows[k], info)
  }

  lemma FirstIsTarget(rows: seq<Row>, info: Info, rule: Rule, t: nat)
    requires t < |rows| && IsFirstOf(rows, info, rule, t)
    ensures Target(rows, info) == t
  {
    forall earlier: Rule | Rank(earlier) < Rank(rule)
      ensures FirstMatch(rows, earlier, info) == |rows|
    {
    }
    assert FirstMatch(rows, rule, info) == t;
    match rule {
      case ByNumber =>
      case BySearchName => assert Rank(ByNumber) < Rank(rule);
      case ByNameToNumber => assert Rank(ByNumber) < Rank(rule) && Rank(BySearchName) < Rank(rule);
      case ByNameOnly =>
        assert Rank(ByNumber) < Rank(rule) && Rank(BySearchName) < Rank(rule) && Rank(ByNameToNumber) < Rank(rule);
    }
  }

  /** No row before the target matches the rule that chose it, and no row at all
      matches a rule tried earlier. */
  lemma NoEarlierMatch(rows: seq<Row>, info: Info)
    ensures var t := Target(rows, info);
            && (forall k :: 0 <= k < t ==> !Matches(ByNumber, rows[k], info))
            && ((t == |rows| || !Matches(ByNumber, rows[t], info)) ==>
                 && (forall k :: 0 <= k < |rows| ==> !Matches(ByNumber, rows[k], info))
                 && (forall k :: 0 <= k < t ==> !Matches(BySearchName, rows[k], info))
                 && ((t == |rows| || !Matches(BySearchName, rows[t], info)) ==>
                      && (forall k :: 0 <= k < |rows| ==> !Matches(BySearchName, rows[k], info))
                      && (forall k :: 0 <= k < t ==> !Matches(ByNameToNumber, rows[k], info))
                      && (forall k :: 0 <= k < t ==> !Matches(ByNameOnly, rows[k], info))))
  {
  }

  /** The rule by which the update finds the row it has written: its number, if the row carries it, which
      a blank number prevents; else a search name, or else a name. */
  function FindingRule(written: Row, info: Info): Rule {
    if NumberOf(info) != "" then if RowNumber(written) == NumberOf(info) then ByNumber else ByNameToNumber
    else if SearchOf(info) != "" then BySearchName
    else ByNameOnly
  }

  lemma RewrittenIsFound(row: Row, info: Info, today: string, rule: Rule)
    requires Identified(info) && Matches(rule, row, info)
    ensures var written := Rewritten(row, info, today); Matches(FindingRule(written, info), written, info)
  {
    StripTwice(info.number);
  }

  lemma NewIsFound(info: Info, today: string)
    requires Identified(info)
    ensures var written := NewRow(info, today); Matches(FindingRule(written, info), written, info)
  {
    StripTwice(info.number);
  }

  lemma WrittenIsFound(rows: seq<Row>, info: Info, today: string)
    requires Identified(info)
    ensures var t, after := Target(rows, info), Upserted(rows, info, today);
            t < |after| && Matches(FindingRule(after[t], info), after[t], info)
  {
    var t := Target(rows, info);
    if t < |rows| {
      var rule := TargetRule(rows, info);
      RewrittenIsFound(rows[t], info, today, rule);
    } else {
      NewIsFound(info, today);
    }
  }

  lemma TargetRule(rows: seq<Row>, info: Info) returns (rule: Rule)
    requires Target(rows, info) < |rows|
    ensures Matches(rule, rows[Target(rows, info)], info)
  {
    rule := if FirstMatch(rows, ByNumber, info) < |rows| then ByNumber
            else if FirstMatch(rows, BySearchName, info) < |rows| then BySearchName
            else if FirstMatch(rows, ByNameToNumber, info) < |rows| then ByNameToNumber
            else ByNameOnly;
  }

  lemma OtherRowsStay(rows: seq<Row>, info: Info, today: string, k: nat)
    requires k < |Upserted(rows, info, today)| && k != Target(rows, info)
    ensures k < |rows| && Upserted(rows, info, today)[k] == rows[k]
  {
  }

  /** Only a row whose number was there and another one, or blank, does not carry the update's number. */
  lemma OtherNumberStays(row: Row, info: Info, today: string)
    requires NumberOf(info) != ""
    ensures RowNumber(NewRow(info, today)) == NumberOf(info)
    ensures RowNumber(Rewritten(row, info, today)) != NumberOf(info) ==>
              row.number != "" && Rewritten(row, info, today).number == row.number
  {
    StripTwice(info.number);
  }

  /** A row found by its name only was found by no rule before. */
  lemma FoundByName(rows: seq<Row>, info: Info, today: string)
    requires Identified(info) && Target(rows, info) < |Upserted(rows, info, today)|
    ensures var t, written := Target(rows, info), Upserted(rows, info, today)[Target(rows, info)];
            FindingRule(written, info) == ByNameToNumber ==>
              && t < |rows| && rows[t].number != "" && written.number == rows[t].number
              && !Matches(ByNumber, rows[t], info) && !Matches(BySearchName, rows[t], info)
  {
    var t := Target(rows, info);
    if NumberOf(info) != "" {
      OtherNumberStays(if t < |rows| then rows[t] else NewRow(info, today), info, today);
    }
  }

  /** Rules tried before it match no row. */
  lemma EarlierRulesFail(rows: seq<Row>, info: Info, today: string, earlier: Rule, k: nat)
    requires Identified(info) && k < |Upserted(rows, info, today)|
    requires Target(rows, info) < |Upserted(rows, info, today)|
    requires Rank(earlier) < Rank(FindingRule(Upserted(rows, info, today)[Target(rows, info)], info))
    ensures !Matches(earlier, Upserted(rows, info, today)[k], info)
  {
    FoundByName(rows, info, today);
    NoEarlierMatch(rows, info);
    if k != Target(rows, info) {
      OtherRowsStay(rows, info, today, k);
    }
  }

  lemma NoneBeforeTarget(rows: seq<Row>, info: Info, today: string, k: nat)
    requires Identified(info) && k < Target(rows, info) < |Upserted(rows, info, today)|
    ensures var t, after := Target(rows, info), Upserted(rows, info, today);
            !Matches(FindingRule(after[t], info), after[k], info)
  {
    OtherRowsStay(rows, info, today, k);
    FoundByName(rows, info, today);
    NoEarlierMatch(rows, info);
  }

  /** The row an update just wrote is the row the same update lands on again. */
  lemma TargetIsStable(rows: seq<Row>, info: Info, today: string)
    requires Identified(info)
    ensures Target(Upserted(rows, info, today), info) == Target(rows, info)
    ensures Target(rows, info) < |Upserted(rows, info, today)|
  {
    var t, after := Target(rows, info), Upserted(rows, info, today);
    WrittenIsFound(rows, info, today);
    var rule := FindingRule(after[t], info);
    forall k | 0 <= k < t
      ensures !Matches(rule, after[k], info)
    {
      NoneBeforeTarget(rows, info, today, k);
    }
    forall earlier: Rule, k | Rank(earlier) < Rank(rule) && 0 <= k < |after|
      ensures !Matches(earlier, after[k], info)
    {
      EarlierRulesFail(rows, info, today, earlier, k);
    }
    FirstIsTarget(after, info, rule, t);
  }

  /** A second write on another day changes only a date the update does not give. */
  lemma RewritingLater(row: Row, info: Info, today: string, later: string)
    ensures Rewritten(Rewritten(row, info, today), info, later) == Rewritten(row, info, today) <==>
              info.downloadDate.Some? || later == today
    ensures Rewritten(NewRow(info, today), info, later) == NewRow(info, today) <==>
              info.downloadDate.Some? || later == today
  {
    RewritingTwice(row, info, today);
  }

  /** Repeating an update, on any day, changes nothing exactly when the update names a project and
      its date is given or the day is the same; one that names none appends a row every time. */
  lemma RepeatedUpdate(rows: seq<Row>, info: Info, today: string, later: string)
    ensures var once := Upserted(rows, info, today);
            Upserted(once, info, later) == once <==> Identified(info) && (info.downloadDate.Some? || later == today)
  {
    var once := Upserted(rows, info, today);
    if Identified(info) {
      TargetIsStable(rows, info, today);
      var t := Target(rows, info);
      if t < |rows| {
        RewritingLater(rows[t], info, today, later);
        assert Upserted(once, info, later)[t] == Rewritten(once[t], info, later);
      } else {
        RewritingLater(NewRow(info, today), info, today, later);
        assert Upserted(once, info, later)[t] == Rewritten(once[t], info, later);
      }
    }
  }

  /** An update that names its project but gives no date. */
  const UNDATED := Info(None, "name", [], [], [], [], [], None, None, None, None, None, None)

  /** Repeated on another day, it changes the date of its row. */
  lemma RepeatedUpdateCanChange()
    ensures Upserted(Upserted([], UNDATED, "1"), UNDATED, "2") != Upserted([], UNDATED, "1")
  {
    StripKeeps("name");
    RepeatedUpdate([], UNDATED, "1", "2");
  }

  lemma NamelessMatchesNothing(row: Row, info: Info, rule: Rule)
    requires !Identified(info)
    ensures !Matches(rule, row, info)
  {
  }

  /** An update that names no project appends a row every time. */
  lemma NamelessIsAppended(rows: seq<Row>, info: Info, today: string)
    requires !Identified(info)
    ensures Upserted(rows, info, today) == rows + [NewRow(info, today)]
  {
    forall rule: Rule
      ensures FirstMatch(rows, rule, info) == |rows|
    {
      if FirstMatch(rows, rule, info) < |rows| {
        NamelessMatchesNothing(rows[FirstMatch(rows, rule, info)], info, rule);
      }
    }
  }

  // ---------------------------------------------------------------------------
  // Completion map
  // ---------------------------------------------------------------------------

  const TERMINAL_TRACKING_STATES: set<string> := {
    "tor_downloaded", "prelim_pricing_seen", "winner_announced", "contract_signed",
    "closed_timeout_consulting", "closed_stale_no_tor", "closed_manual"
  }

  predicate IsTerminalTrackingStatus(value: string) {
    Strip(value) in TERMINAL_TRACKING_STATES
  }

  /** Whether a stored row needs no further visit. */
  predicate RowDone(row: Row) {
    || IsTerminalTrackingStatus(Strip(row.tracking))
    || Lower(Strip(row.tor)) == "yes"
    || Lower(Strip(row.prelim)) == "yes"
  }

  /** What one row adds to the completion map. */
  function WithRow(before: map<string, bool>, row: Row): map<string, bool> {
    if row.name == "" then before
    else
      var done := RowDone(row);
      var byNumber := if RowNumber(row) != "" then before[RowNumber(row) := done] else before;
      if Strip(row.searchName) != "" then byNumber[Strip(row.searchName) := done]
      else if RowNumber(row) == "" then byNumber[Strip(row.name) := done]
      else byNumber
  }

  /** The completion map: later rows win. */
  function Loaded(rows: seq<Row>): map<string, bool> {
    if rows == [] then map[]
    else WithRow(Loaded(rows[..|rows| - 1]), rows[|rows| - 1])
  }
}
