/** Finding an accepted row again on a results page, and clicking it (browser_discovery.py). */
module RowRelocation {
  import opened Text
  import opened ResultsTable

  /** A row of the live table: its trimmed cells and its whole text. */
  datatype TableRow = TableRow(cells: seq<string>, text: string)

  const MIN_SCORE := 70

  const ALL_FIELDS: seq<Field> := [Status, ProjectName, Organization, PurchasingUnit, Budget, View]

  /** The highest column of some fields; resolved columns are never empty. */
  function MaxColumn(columns: Columns, fields: seq<Field>): int {
    if fields == [] then -1
    else
      var rest := MaxColumn(columns, fields[1..]);
      if fields[0] in columns && columns[fields[0]] > rest then columns[fields[0]] else rest
  }

  lemma {:induction false} MaxColumnMeaning(columns: Columns, fields: seq<Field>, length: nat)
    ensures length <= MaxColumn(columns, fields) <==> exists f :: f in fields && f in columns && columns[f] >= length
  {
    if fields != [] {
      MaxColumnMeaning(columns, fields[1..], length);
      assert fields == [fields[0]] + fields[1..];
    }
  }

  predicate Fits(cells: seq<string>, columns: Columns) { forall f | f in columns :: columns[f] < |cells| }

  /** A row is long enough for every column exactly when it reaches the highest one. */
  lemma FitsIffPastMax(cells: seq<string>, columns: Columns)
    ensures Fits(cells, columns) <==> !(|cells| <= MaxColumn(columns, ALL_FIELDS))
  {
    MaxColumnMeaning(columns, ALL_FIELDS, |cells|);
    forall f: Field
      ensures f in ALL_FIELDS
    {
      match f
      case Status => assert ALL_FIELDS[0] == Status;
      case ProjectName => assert ALL_FIELDS[1] == ProjectName;
      case Organization => assert ALL_FIELDS[2] == Organization;
      case PurchasingUnit => assert ALL_FIELDS[3] == PurchasingUnit;
      case Budget => assert ALL_FIELDS[4] == Budget;
      case View => assert ALL_FIELDS[5] == View;
    }
  }

  /** The marker a row shows now. The project number is looked for in the name first, then in
      the whole text of the row. */
  function CurrentMarker(row: TableRow, columns: Columns): Marker {
    var name := Value(row.cells, columns, ProjectName);
    var number := ExtractProjectNumber(name);
    Marker(Value(row.cells, columns, Organization), name,
           if number != [] then number else ExtractProjectNumber(row.text),
           Value(row.cells, columns, Budget), Value(row.cells, columns, Status),
           VisibleSignature(row.cells, columns))
  }

  /** Rows that are long enough and in a discoverable status are counted. */
  predicate Counted(row: TableRow, columns: Columns, discoverable: string -> bool) {
    Fits(row.cells, columns) && discoverable(Value(row.cells, columns, Status))
  }

  function KnownNumber(m: Marker): string { KeepIdentifierChars(m.number) }

  predicate Same(a: string, b: string) { Compact(a) == Compact(b) }

  predicate BothKnown(a: Marker, b: Marker) { KnownNumber(a) != [] && KnownNumber(b) != [] }

  predicate MarkerMatches(current: Marker, expected: Marker) {
    if BothKnown(current, expected) then KnownNumber(current) == KnownNumber(expected)
    else if Compact(current.signature) != [] && Compact(expected.signature) != [] then
      Same(current.signature, expected.signature)
    else
      && Same(current.organization, expected.organization)
      && Same(current.name, expected.name)
      && Same(current.status, expected.status)
  }

  function Score(current: Marker, expected: Marker): int {
    if BothKnown(current, expected) then if KnownNumber(current) == KnownNumber(expected) then 100 else 0
    else
      (if Same(current.name, expected.name) then 40 else 0)
      + (if Same(current.organization, expected.organization) then 20 else 0)
      + (if Same(current.status, expected.status) then 20 else 0)
      + (if Same(current.budget, expected.budget) then 10 else 0)
  }

  // ---------------------------------------------------------------------------
  // Resolving and clicking
  // ---------------------------------------------------------------------------

  /** How a row is read: its marker, or nothing when it is not counted. */
  type RowReader = TableRow -> Option<Marker>

  function SearchRow(columns: Columns, discoverable: string -> bool): RowReader {
    (row: TableRow) => if Counted(row, columns, discoverable) then Some(CurrentMarker(row, columns)) else None
  }

  /** What both loops need to know about the rows. */
  function Seen(rows: seq<TableRow>, read: RowReader): seq<Option<Marker>> {
    seq(|rows|, k requires 0 <= k < |rows| => read(rows[k]))
  }

  /** How many rows are counted before a position. */
  function CountedBefore(seen: seq<Option<Marker>>, k: nat): nat
    requires k <= |seen|
  {
    if k == 0 then 0 else CountedBefore(seen, k - 1) + if seen[k - 1].Some? then 1 else 0
  }

  predicate MatchesAt(seen: seq<Option<Marker>>, k: nat, expected: Marker)
    requires k < |seen|
  {
    seen[k].Some? && MarkerMatches(seen[k].value, expected)
  }

  function ScoreAt(seen: seq<Option<Marker>>, k: nat, expected: Marker): int
    requires k < |seen|
  {
    if seen[k].Some? then Score(seen[k].value, expected) else -1
  }

  /** The row is the first exact match, or there is no exact match and no other row scores as
      high as this one, which has at least the minimum score. */
  ghost predicate IsChosen(seen: seq<Option<Marker>>, k: nat, expected: Marker)
    requires k < |seen|
  {
    || (MatchesAt(seen, k, expected) && forall j :: 0 <= j < k ==> !MatchesAt(seen, j, expected))
    || (&& (forall j :: 0 <= j < |seen| ==> !MatchesAt(seen, j, expected))
        && ScoreAt(seen, k, expected) >= MIN_SCORE
        && (forall j :: 0 <= j < |seen| && j != k ==> ScoreAt(seen, j, expected) < ScoreAt(seen, k, expected)))
  }

  /** Where the c-th counted row stands. */
  function At(seen: seq<Option<Marker>>, c: nat): (at: nat)
    requires c < CountedBefore(seen, |seen|)
    ensures at < |seen| && seen[at].Some? && CountedBefore(seen, at) == c
  {
    AtBefore(seen, |seen|, c)
  }

  function AtBefore(seen: seq<Option<Marker>>, k: nat, c: nat): (at: nat)
    requires k <= |seen| && c < CountedBefore(seen, k)
    ensures at < k && seen[at].Some? && CountedBefore(seen, at) == c
  {
    if c < CountedBefore(seen, k - 1) then AtBefore(seen, k - 1, c) else k - 1
  }

  lemma {:induction false} CountedIsMonotone(seen: seq<Option<Marker>>, j: nat, k: nat)
    requires j <= k <= |seen|
    ensures CountedBefore(seen, j) <= CountedBefore(seen, k)
    ensures j < k && seen[j].Some? ==> CountedBefore(seen, j) < CountedBefore(seen, k)
  {
    if j < k {
      CountedIsMonotone(seen, j, k - 1);
    }
  }

  /** A counted row stands where its own count says. */
  lemma CountFindsRow(seen: seq<Option<Marker>>, j: nat)
    requires j < |seen| && seen[j].Some?
    ensures CountedBefore(seen, j) < CountedBefore(seen, |seen|) && At(seen, CountedBefore(seen, j)) == j
  {
    CountedIsMonotone(seen, j, |seen|);
    var c := CountedBefore(seen, j);
    var at := At(seen, c);
    if at < j {
      CountedIsMonotone(seen, at, j);
    } else {
      CountedIsMonotone(seen, j, at);
    }
  }

  ghost predicate IsTop(scores: seq<int>, k: nat)
    requires k < |scores|
  {
    scores[k] >= MIN_SCORE && forall j :: 0 <= j < |scores| && j != k ==> scores[j] < scores[k]
  }

  /** The only highest score, if it is high enough. */
  method UniqueTop(scores: seq<int>) returns (r: Option<nat>)
    ensures r.Some? ==> r.value < |scores| && IsTop(scores, r.value)
    ensures r.None? ==> forall k :: 0 <= k < |scores| ==> !IsTop(scores, k)
  {
    if scores == [] {
      return None;
    }
    var best, ties: nat := 0, 1;
    for k := 1 to |scores|
      invariant best < k && ties >= 1
      invariant forall j :: 0 <= j < k ==> scores[j] <= scores[best]
      invariant ties == 1 ==> forall j :: 0 <= j < k && j != best ==> scores[j] < scores[best]
      invariant ties > 1 ==> exists j :: 0 <= j < k && j != best && scores[j] == scores[best]
    {
      if scores[k] > scores[best] {
        best, ties := k, 1;
      } else if scores[k] == scores[best] {
        ties := ties + 1;
      }
    }
    if scores[best] < MIN_SCORE || ties > 1 {
      return None;
    }
    return Some(best);
  }

  /** The scores of the counted rows before k, none of which matches. */
  ghost predicate Ranks(scores: seq<int>, seen: seq<Option<Marker>>, k: nat, expected: Marker)
    requires k <= |seen|
  {
    && |scores| == CountedBefore(seen, k)
    && (forall c :: 0 <= c < |scores| ==> scores[c] == ScoreAt(seen, AtBefore(seen, k, c), expected))
    && (forall j :: 0 <= j < k ==> !MatchesAt(seen, j, expected))
  }

  /** The index, among the counted rows, of the row to open. */
  method ResolveRowIndex(seen: seq<Option<Marker>>, expected: Marker) returns (r: Option<nat>)
    ensures r.Some? ==> r.value < CountedBefore(seen, |seen|) && IsChosen(seen, At(seen, r.value), expected)
    ensures r.None? ==> forall k :: 0 <= k < |seen| ==> !IsChosen(seen, k, expected)
  {
    var scores: seq<int> := [];
    for k := 0 to |seen|
      invariant Ranks(scores, seen, k, expected)
    {
      if seen[k].Some? {
        if MarkerMatches(seen[k].value, expected) {
          CountFindsRow(seen, k);
          return Some(|scores|);
        }
        scores := scores + [Score(seen[k].value, expected)];
      }
    }
    r := UniqueTop(scores);
    TopIsChosen(scores, seen, expected);
  }

  /** Without an exact match, the chosen rows are the top scores. */
  lemma TopIsChosen(scores: seq<int>, seen: seq<Option<Marker>>, expected: Marker)
    requires Ranks(scores, seen, |seen|, expected)
    ensures forall c :: 0 <= c < |scores| && IsTop(scores, c) ==> IsChosen(seen, At(seen, c), expected)
    ensures (forall c :: 0 <= c < |scores| ==> !IsTop(scores, c)) ==>
              forall k :: 0 <= k < |seen| ==> !IsChosen(seen, k, expected)
  {
    forall c | 0 <= c < |scores| && IsTop(scores, c)
      ensures IsChosen(seen, At(seen, c), expected)
    {
      forall j | 0 <= j < |seen| && j != At(seen, c)
        ensures ScoreAt(seen, j, expected) < ScoreAt(seen, At(seen, c), expected)
      {
        if seen[j].Some? {
          CountFindsRow(seen, j);
        }
      }
    }
    forall k | 0 <= k < |seen| && IsChosen(seen, k, expected)
      ensures exists c :: 0 <= c < |scores| && IsTop(scores, c)
    {
      CountFindsRow(seen, k);
      var c := CountedBefore(seen, k);
      forall i | 0 <= i < |scores| && i != c
        ensures scores[i] < scores[c]
      {
        assert At(seen, i) != k;
      }
      assert IsTop(scores, c);
    }
  }

  /** The filter of the click: it skips rows that do not reach the highest column, and rows in
      another status. */
  type RowFilter = TableRow -> bool

  function ClickFilter(columns: Columns, discoverable: string -> bool): RowFilter {
    (row: TableRow) =>
      if |row.cells| <= MaxColumn(columns, ALL_FIELDS) then false
      else discoverable(Value(row.cells, columns, Status))
  }

  ghost predicate FiltersAgree(opens: RowFilter, read: RowReader) { forall row :: opens(row) <==> read(row).Some? }

  /** The click counts exactly the rows that the scoring counts. */
  lemma ProgramFiltersAgree(columns: Columns, discoverable: string -> bool)
    ensures FiltersAgree(ClickFilter(columns, discoverable), SearchRow(columns, discoverable))
  {
    forall row: TableRow
      ensures ClickFilter(columns, discoverable)(row) <==> SearchRow(columns, discoverable)(row).Some?
    {
      FitsIffPastMax(row.cells, columns);
    }
  }

  /** The row whose cell is clicked for an index among the rows that pass the click's own filter. */
  method NavigateToRow(rows: seq<TableRow>, opens: RowFilter, ghost read: RowReader, index: nat)
    returns (clicked: Option<nat>)
    requires FiltersAgree(opens, read)
    ensures var seen := Seen(rows, read);
            clicked == if index < CountedBefore(seen, |seen|) then Some(At(seen, index)) else None
  {
    ghost var seen := Seen(rows, read);
    var eligible := 0;
    for k := 0 to |rows|
      invariant eligible == CountedBefore(seen, k) <= index
    {
      if opens(rows[k]) {
        if eligible == index {
          CountFindsRow(seen, k);
          return Some(k);
        }
        eligible := eligible + 1;
      }
    }
    return None;
  }

  /** Resolving and clicking on the same table, each with its own filter. */
  method ResolveAndClick(rows: seq<TableRow>, read: RowReader, opens: RowFilter, expected: Marker)
    returns (clicked: Option<nat>)
    requires FiltersAgree(opens, read)
    ensures var seen := Seen(rows, read);
            && (clicked.Some? ==> clicked.value < |rows| && IsChosen(seen, clicked.value, expected))
            && (clicked.None? ==> forall k :: 0 <= k < |rows| ==> !IsChosen(seen, k, expected))
  {
    var seen := Seen(rows, read);
    var index := ResolveRowIndex(seen, expected);
    if index.None? {
      return None;
    }
    clicked := NavigateToRow(rows, opens, read, index.value);
  }

  /** The program on any table: the row that is clicked is the very row that was scored and the only
      chosen one, and nothing is clicked exactly when no row is chosen. */
  method Relocate(rows: seq<TableRow>, columns: Columns, discoverable: string -> bool, expected: Marker)
    returns (clicked: Option<nat>)
    ensures var seen := Seen(rows, SearchRow(columns, discoverable));
            && (clicked.Some? ==> clicked.value < |rows| && IsChosen(seen, clicked.value, expected))
            && (clicked.Some? ==> forall k :: 0 <= k < |rows| && k != clicked.value ==> !IsChosen(seen, k, expected))
            && (clicked.None? ==> forall k :: 0 <= k < |rows| ==> !IsChosen(seen, k, expected))
  {
    var read := SearchRow(columns, discoverable);
    ProgramFiltersAgree(columns, discoverable);
    clicked := ResolveAndClick(rows, read, ClickFilter(columns, discoverable), expected);
    if clicked.Some? {
      OthersAreNotChosen(Seen(rows, read), clicked.value, expected);
    }
  }

  lemma OthersAreNotChosen(seen: seq<Option<Marker>>, k: nat, expected: Marker)
    requires k < |seen| && IsChosen(seen, k, expected)
    ensures forall j :: 0 <= j < |seen| && j != k ==> !IsChosen(seen, j, expected)
  {
  }

  // ---------------------------------------------------------------------------
  // What being chosen means
  // ---------------------------------------------------------------------------

  /** The chosen row never carries a known project number other than the one looked for. A row
      that does not match exactly has the same name, and agrees in at least two of organization,
      status and budget. */
  lemma ChosenIsFaithful(seen: seq<Option<Marker>>, k: nat, expected: Marker)
    requires k < |seen| && IsChosen(seen, k, expected)
    ensures seen[k].Some?
    ensures var m := seen[k].value;
            && !(BothKnown(m, expected) && KnownNumber(m) != KnownNumber(expected))
            && (!MarkerMatches(m, expected) ==> !BothKnown(m, expected) && AgreesEnough(m, expected))
  {
    ScoreMeaning(seen[k].value, expected);
  }

  /** The same name, and at least two of organization, status and budget. */
  predicate AgreesEnough(m: Marker, expected: Marker) {
    var organization, status, budget :=
      Same(m.organization, expected.organization), Same(m.status, expected.status), Same(m.budget, expected.budget);
    Same(m.name, expected.name)
    && ((organization && status) || (organization && budget) || (status && budget))
  }

  /** Exactly when a score reaches the minimum. */
  lemma ScoreMeaning(m: Marker, expected: Marker)
    ensures Score(m, expected) >= MIN_SCORE <==>
              if BothKnown(m, expected) then KnownNumber(m) == KnownNumber(expected) else AgreesEnough(m, expected)
  {
  }

  /** A row whose cells have not changed since it was accepted matches its own marker exactly
      unless both readings find a project number and the two differ: the scan takes the first
      number in the whole row, the live table the one in the name. */
  lemma UnchangedRowMatchesItself(ordinal: nat, row: TableRow, columns: Columns, discoverable: string -> bool)
    ensures var now, accepted := CurrentMarker(row, columns),
              ParseRow(ordinal, row.cells, columns, discoverable).marker;
            MarkerMatches(now, accepted) <==> !(BothKnown(now, accepted) && KnownNumber(now) != KnownNumber(accepted))
  {
  }

  /** The two readings of an unchanged row find project numbers that differ. */
  predicate ReadsTwoNumbers(row: TableRow, columns: Columns, accepted: Marker) {
    var now := CurrentMarker(row, columns);
    BothKnown(now, accepted) && KnownNumber(now) != KnownNumber(accepted)
  }

  /** On a table that has not changed, an accepted row is opened again if and only if its two readings
      do not find different project numbers and no counted row before it matches its marker: of two
      rows that look alike only the first is ever opened, and a row that names one project and
      carries the number of another is never opened. */
  lemma UnchangedRowIsFoundExactly(
    rows: seq<TableRow>, columns: Columns, discoverable: string -> bool, k: nat, ordinal: nat)
    requires k < |rows| && Counted(rows[k], columns, discoverable)
    ensures var seen := Seen(rows, SearchRow(columns, discoverable));
            var accepted := ParseRow(ordinal, rows[k].cells, columns, discoverable).marker;
            IsChosen(seen, k, accepted) <==>
              && !ReadsTwoNumbers(rows[k], columns, accepted)
              && forall j :: 0 <= j < k ==> !MatchesAt(seen, j, accepted)
  {
    UnchangedRowMatchesItself(ordinal, rows[k], columns, discoverable);
    var seen := Seen(rows, SearchRow(columns, discoverable));
    var accepted := ParseRow(ordinal, rows[k].cells, columns, discoverable).marker;
    var now := CurrentMarker(rows[k], columns);
    assert seen[k] == Some(now);
    ChosenUnlessNumbersDiffer(seen, k, now, accepted);
  }

  /** The program on an unchanged table: the accepted row is the one clicked exactly under that
      condition. */
  method OpenAgain(rows: seq<TableRow>, columns: Columns, discoverable: string -> bool, k: nat, ordinal: nat)
    returns (clicked: Option<nat>)
    requires k < |rows| && Counted(rows[k], columns, discoverable)
    ensures var seen := Seen(rows, SearchRow(columns, discoverable));
            var accepted := ParseRow(ordinal, rows[k].cells, columns, discoverable).marker;
            clicked == Some(k) <==>
              && !ReadsTwoNumbers(rows[k], columns, accepted)
              && forall j :: 0 <= j < k ==> !MatchesAt(seen, j, accepted)
  {
    UnchangedRowIsFoundExactly(rows, columns, discoverable, k, ordinal);
    clicked := Relocate(rows, columns, discoverable, ParseRow(ordinal, rows[k].cells, columns, discoverable).marker);
  }

  lemma ChosenUnlessNumbersDiffer(seen: seq<Option<Marker>>, k: nat, now: Marker, accepted: Marker)
    requires k < |seen| && seen[k] == Some(now)
    requires MarkerMatches(now, accepted) <==> !(BothKnown(now, accepted) && KnownNumber(now) != KnownNumber(accepted))
    ensures IsChosen(seen, k, accepted) <==>
              && !(BothKnown(now, accepted) && KnownNumber(now) != KnownNumber(accepted))
              && forall j :: 0 <= j < k ==> !MatchesAt(seen, j, accepted)
  {
  }

  // ---------------------------------------------------------------------------
  // Two rows that are not found
  // ---------------------------------------------------------------------------

  /** Of two equal rows the second is never found. */
  lemma SecondOfTwoIsNotFound(row: TableRow, columns: Columns, discoverable: string -> bool, ordinal: nat)
    requires Counted(row, columns, discoverable)
    ensures var seen := Seen([row, row], SearchRow(columns, discoverable));
            !IsChosen(seen, 1, ParseRow(ordinal, row.cells, columns, discoverable).marker)
  {
    UnchangedRowIsFoundExactly([row, row], columns, discoverable, 1, ordinal);
    UnchangedRowMatchesItself(ordinal, row, columns, discoverable);
    var seen := Seen([row, row], SearchRow(columns, discoverable));
    var accepted := ParseRow(ordinal, row.cells, columns, discoverable).marker;
    assert seen[0] == Some(CurrentMarker(row, columns)) && [row, row][1] == row;
    if !ReadsTwoNumbers(row, columns, accepted) {
      assert MatchesAt(seen, 0, accepted);
    }
  }

  /** A row that carries one number and names a project with another. */
  const TWO_NUMBERS := TableRow([NUMBER_LABEL + "1", NUMBER_LABEL + "2"], [])
  const NAME_SECOND: Columns := map[Status := 0, ProjectName := 1]

  lemma NumberAfterLabel(s: string, n: char, rest: string)
    requires s == NUMBER_LABEL + [n] + rest && IsIdentifierChar(n) && (rest == [] || !IsIdentifierChar(rest[0]))
    ensures ExtractProjectNumber(s) == [n]
  {
    var t := [n] + rest;
    assert s[|NUMBER_LABEL|..] == t && t[1..] == rest && NUMBER_LABEL <= s;
    assert Identifier(t) == [n] + Identifier(rest);
    assert StripLeft(t) == t;
  }

  lemma TwoNumbersAreRead(discoverable: string -> bool)
    ensures CurrentMarker(TWO_NUMBERS, NAME_SECOND).number == "2"
    ensures ParseRow(1, TWO_NUMBERS.cells, NAME_SECOND, discoverable).marker.number == "1"
  {
    var first, second := NUMBER_LABEL + "1", NUMBER_LABEL + "2";
    assert Joined(TWO_NUMBERS.cells, " ") == first + " " + second by {
      assert TWO_NUMBERS.cells[1..] == [second];
    }
    assert first + " " + second == NUMBER_LABEL + ['1'] + (" " + second);
    NumberAfterLabel(first + " " + second, '1', " " + second);
    NumberAfterLabel(second, '2', []);
  }

  /** It is never found, even as the only row of its table. */
  lemma RowWithTwoNumbersIsNotFound(discoverable: string -> bool)
    requires Counted(TWO_NUMBERS, NAME_SECOND, discoverable)
    ensures !IsChosen(Seen([TWO_NUMBERS], SearchRow(NAME_SECOND, discoverable)), 0,
                      ParseRow(1, TWO_NUMBERS.cells, NAME_SECOND, discoverable).marker)
  {
    TwoNumbersAreRead(discoverable);
    assert KeepIdentifierChars("2") == ['2'] && KeepIdentifierChars("1") == ['1'] by {
      assert "2"[1..] == [] && "1"[1..] == [];
    }
    UnchangedRowIsFoundExactly([TWO_NUMBERS], NAME_SECOND, discoverable, 0, 1);
  }
}
