/** Reading the results table of browser_discovery.py: columns are found by header text, never
    by position, and rows are read through them. */
module ResultsTable {
  import opened Text

  datatype Field = Status | ProjectName | Organization | PurchasingUnit | Budget | View

  const REQUIRED: seq<Field> := [Status, ProjectName, View]

  /** The header texts a field is known by, in order of preference. */
  function Markers(f: Field): seq<string> {
    match f
    case Status => ["สถานะโครงการ", "สถานะ"]
    case ProjectName => ["ชื่อโครงการ"]
    case Organization => ["หน่วยงาน"]
    case PurchasingUnit => ["หน่วยจัดซื้อ"]
    case Budget => ["วงเงินงบประมาณ", "งบประมาณ"]
    case View => ["ดูข้อมูล", "ดาวน์โหลด"]
  }

  const SKIPPED_NAMES := ["ทางหลวง", "วิธีคัดเลือก", "บำรุงรักษา", "วิธีเฉพาะเจาะจง"]
  const NO_RESULTS_TEXTS := ["ไม่พบข้อมูล", "จำนวนโครงการที่พบ : 0"]

  function Normal(s: string): string { Lower(Compact(s)) }

  predicate Matches(header: string, marker: string) { Contains(Normal(header), Normal(marker)) }

  // ---------------------------------------------------------------------------
  // Headers
  // ---------------------------------------------------------------------------

  /** Header texts, trimmed, without the blank ones. */
  function NonBlank(raw: seq<string>): seq<string> {
    if raw == [] then []
    else (if Strip(raw[0]) != [] then [Strip(raw[0])] else []) + NonBlank(raw[1..])
  }

  /** The first way of selecting header cells that yields a text. */
  function ExtractHeaders(selections: seq<seq<string>>): seq<string> {
    if selections == [] then []
    else if NonBlank(selections[0]) != [] then NonBlank(selections[0])
    else ExtractHeaders(selections[1..])
  }

  /** The first header a marker matches. */
  function FirstMatch(headers: seq<string>, marker: string): Option<nat> {
    if headers == [] then None
    else if Matches(headers[0], marker) then Some(0)
    else
      match FirstMatch(headers[1..], marker)
      case None => None
      case Some(i) => Some(i + 1)
  }

  /** The first marker that matches any header at all. */
  function Deciding(headers: seq<string>, markers: seq<string>): Option<string> {
    if markers == [] then None
    else if FirstMatch(headers, markers[0]).Some? then Some(markers[0])
    else Deciding(headers, markers[1..])
  }

  function ColumnOf(headers: seq<string>, f: Field): Option<nat> {
    match Deciding(headers, Markers(f))
    case None => None
    case Some(marker) => FirstMatch(headers, marker)
  }

  type Columns = map<Field, nat>

  function AllFields(): set<Field> { {Status, ProjectName, Organization, PurchasingUnit, Budget, View} }

  /** The columns of the fields, or none when a required field has no header. */
  function ResolveColumns(headers: seq<string>): Option<Columns> {
    if exists f | f in REQUIRED :: ColumnOf(headers, f).None? then None
    else Some(map f | f in AllFields() && ColumnOf(headers, f).Some? :: ColumnOf(headers, f).value)
  }

  lemma {:induction false} FirstMatchMeaning(headers: seq<string>, marker: string)
    ensures var r := FirstMatch(headers, marker);
            && (r.None? <==> forall i :: 0 <= i < |headers| ==> !Matches(headers[i], marker))
            && (r.Some? ==> r.value < |headers| && Matches(headers[r.value], marker)
                            && forall i :: 0 <= i < r.value ==> !Matches(headers[i], marker))
  {
    if headers != [] {
      FirstMatchMeaning(headers[1..], marker);
      assert forall i :: 1 <= i < |headers| ==> headers[i] == headers[1..][i - 1];
    }
  }

  lemma {:induction false} DecidingMeaning(headers: seq<string>, markers: seq<string>)
    ensures var r := Deciding(headers, markers);
            && (r.None? <==> forall m :: m in markers ==> FirstMatch(headers, m).None?)
            && (r.Some? ==> r.value in markers && FirstMatch(headers, r.value).Some?)
  {
    if markers != [] {
      DecidingMeaning(headers, markers[1..]);
      assert markers == [markers[0]] + markers[1..];
      assert markers[0] in markers;
    }
  }

  /** A table is refused exactly when no header carries any of the texts of a required field. */
  lemma RefusedIffRequiredMissing(headers: seq<string>)
    ensures ResolveColumns(headers).None? <==>
              exists f :: f in REQUIRED
                && forall m :: m in Markers(f) ==> forall h :: h in headers ==> !Matches(h, m)
  {
    forall f: Field
      ensures ColumnOf(headers, f).None? <==>
                forall m :: m in Markers(f) ==> forall h :: h in headers ==> !Matches(h, m)
    {
      DecidingMeaning(headers, Markers(f));
      forall m { FirstMatchMeaning(headers, m); }
    }
  }

  /** The header texts of a table as one line. */
  function HeaderSignature(headers: seq<string>): string { Joined(NormalTexts(headers), " | ") }

  function NormalTexts(headers: seq<string>): seq<string> {
    if headers == [] then []
    else (if Normal(headers[0]) != [] then [Normal(headers[0])] else []) + NormalTexts(headers[1..])
  }

  // ---------------------------------------------------------------------------
  // Rows
  // ---------------------------------------------------------------------------

  function CellAt(cells: seq<string>, i: nat): string { if i < |cells| then cells[i] else [] }

  function Value(cells: seq<string>, columns: Columns, f: Field): string {
    if f in columns then CellAt(cells, columns[f]) else []
  }

  function Joined(parts: seq<string>, separator: string): string {
    if parts == [] then [] else if |parts| == 1 then parts[0]
    else parts[0] + separator + Joined(parts[1..], separator)
  }

  /** The cells of the marker fields, in table order. */
  function SignatureFrom(cells: seq<string>, columns: Columns, i: nat): seq<string>
    decreases |cells| - i
  {
    if i >= |cells| then []
    else
      (if exists f | f in {Organization, PurchasingUnit, ProjectName, Budget, Status} :: f in columns && columns[f] == i
       then [Compact(cells[i])] else [])
      + SignatureFrom(cells, columns, i + 1)
  }

  const SIGNATURE_SEPARATOR := " || "

  function VisibleSignature(cells: seq<string>, columns: Columns): string {
    Joined(SignatureFrom(cells, columns, 0), SIGNATURE_SEPARATOR)
  }

  const NUMBER_LABEL := "เลขที่โครงการ"

  /** The identifier characters at the start of a text. */
  function Identifier(s: string): string {
    if s != [] && IsIdentifierChar(s[0]) then [s[0]] + Identifier(s[1..]) else []
  }

  /** What follows the label: white space, at most one colon, white space, an identifier. */
  function AfterLabel(s: string): string {
    var t := StripLeft(s);
    Identifier(StripLeft(if t != [] && t[0] in {':', '：'} then t[1..] else t))
  }

  /** The first identifier written behind a project number label, or the empty text. */
  function ExtractProjectNumber(s: string): string {
    if s == [] then []
    else if NUMBER_LABEL <= s && AfterLabel(s[|NUMBER_LABEL|..]) != [] then AfterLabel(s[|NUMBER_LABEL|..])
    else ExtractProjectNumber(s[1..])
  }

  datatype Marker = Marker(
    organization: string, name: string, number: string, budget: string, status: string, signature: string)

  datatype ParsedRow = ParsedRow(
    ordinal: nat,
    name: string,
    organization: string,
    number: string,
    status: string,
    marker: Marker,
    eligible: bool,
    skipHit: Option<string>)

  predicate IsNoResultsRow(cells: seq<string>) {
    var text := Strip(Joined(cells, " "));
    text != [] && |cells| <= 1 && exists n | n in NO_RESULTS_TEXTS :: Contains(Compact(text), Compact(n))
  }

  function SkipHit(name: string, blocked: seq<string>): Option<string> {
    if blocked == [] then None
    else if Contains(name, blocked[0]) then Some(blocked[0])
    else SkipHit(name, blocked[1..])
  }

  /** Reads one row. A missing cell is an empty text; the empty status is not eligible. */
  function ParseRow(ordinal: nat, cells: seq<string>, columns: Columns, discoverable: string -> bool): ParsedRow {
    var status, name := Value(cells, columns, Status), Value(cells, columns, ProjectName);
    var number := ExtractProjectNumber(Joined(cells, " "));
    ParsedRow(
      ordinal, name, Value(cells, columns, Organization), number, status,
      Marker(Value(cells, columns, Organization), name, number, Value(cells, columns, Budget), status,
             VisibleSignature(cells, columns)),
      status != [] && discoverable(status),
      SkipHit(name, SKIPPED_NAMES))
  }

  /** The row at a place of the page, unless it is the placeholder of an empty result. */
  function ReadRow(ordinal: nat, cells: seq<string>, columns: Columns, discoverable: string -> bool): seq<ParsedRow> {
    if IsNoResultsRow(cells) then [] else [ParseRow(ordinal, cells, columns, discoverable)]
  }

  type Reader = (nat, seq<string>) -> seq<ParsedRow>

  function PageReader(columns: Columns, discoverable: string -> bool): Reader {
    (k: nat, cells: seq<string>) => ReadRow(k, cells, columns, discoverable)
  }

  /** The rows of a page from the k-th on, numbered from one. */
  function RowsFrom(rows: seq<seq<string>>, read: Reader, k: nat): seq<ParsedRow>
    decreases |rows| - k
  {
    if k >= |rows| then [] else read(k + 1, rows[k]) + RowsFrom(rows, read, k + 1)
  }

  datatype Parsed = MissingColumns | Rows(headers: seq<string>, rows: seq<ParsedRow>)

  function ParseResultsPage(selections: seq<seq<string>>, rows: seq<seq<string>>,
                            discoverable: string -> bool): Parsed
  {
    var headers := ExtractHeaders(selections);
    match ResolveColumns(headers)
    case None => MissingColumns
    case Some(columns) => Rows(headers, RowsFrom(rows, PageReader(columns, discoverable), 0))
  }

  method ReadRows(rows: seq<seq<string>>, read: Reader) returns (out: seq<ParsedRow>)
    ensures out == RowsFrom(rows, read, 0)
  {
    out := [];
    for k := 0 to |rows|
      invariant out + RowsFrom(rows, read, k) == RowsFrom(rows, read, 0)
    {
      out := out + read(k + 1, rows[k]);
    }
  }

  /** Parses a page: its header texts, its columns, and its rows one by one. */
  method ParsePage(selections: seq<seq<string>>, rows: seq<seq<string>>, discoverable: string -> bool)
    returns (p: Parsed)
    ensures p == ParseResultsPage(selections, rows, discoverable)
  {
    var headers := ExtractHeaders(selections);
    var columns := ResolveColumns(headers);
    if columns.None? {
      return MissingColumns;
    }
    var parsed := ReadRows(rows, PageReader(columns.value, discoverable));
    return Rows(headers, parsed);
  }

  /** A row is eligible exactly when its status is readable and discoverable. */
  predicate IsConsistent(row: ParsedRow, discoverable: string -> bool) {
    row.eligible <==> row.status != [] && discoverable(row.status)
  }

  ghost predicate AllConsistent(rows: seq<ParsedRow>, discoverable: string -> bool) {
    forall r :: 0 <= r < |rows| ==> IsConsistent(rows[r], discoverable)
  }

  /** Every row of every page is. */
  lemma {:induction false} RowsAreConsistent(rows: seq<seq<string>>, columns: Columns, discoverable: string -> bool,
                                             k: nat)
    ensures AllConsistent(RowsFrom(rows, PageReader(columns, discoverable), k), discoverable)
    decreases |rows| - k
  {
    if k < |rows| {
      RowsAreConsistent(rows, columns, discoverable, k + 1);
      var row := PageReader(columns, discoverable)(k + 1, rows[k]);
      assert row == ReadRow(k + 1, rows[k], columns, discoverable);
      assert AllConsistent(row, discoverable);
    }
  }

  // ---------------------------------------------------------------------------
  // Layout independence
  // ---------------------------------------------------------------------------

  /** Old column i stands at `place[i]` in the new layout, and a column that is new carries a
      header no field is known by. */
  ghost predicate Relaid(was: seq<string>, now: seq<string>, place: seq<nat>) {
    && |place| == |was|
    && (forall i :: 0 <= i < |was| ==> place[i] < |now| && now[place[i]] == was[i])
    && (forall i, j :: 0 <= i < j < |was| ==> place[i] != place[j])
    && (forall j, f, m :: 0 <= j < |now| && j !in place && m in Markers(f) ==> !Matches(now[j], m))
  }

  /** Only one header matches. */
  ghost predicate Unique(headers: seq<string>, marker: string) {
    forall i, j ::
      0 <= i < |headers| && 0 <= j < |headers| && Matches(headers[i], marker) && Matches(headers[j], marker) ==>
        i == j
  }

  lemma ColumnInRange(headers: seq<string>, f: Field)
    ensures ColumnOf(headers, f).Some? ==> ColumnOf(headers, f).value < |headers|
  {
    if Deciding(headers, Markers(f)).Some? {
      FirstMatchMeaning(headers, Deciding(headers, Markers(f)).value);
    }
  }

  /** A marker matches some header of one layout exactly when it matches one of the other. */
  lemma MatchesSurvive(was: seq<string>, now: seq<string>, place: seq<nat>, f: Field, m: string)
    requires Relaid(was, now, place) && m in Markers(f)
    ensures FirstMatch(was, m).None? <==> FirstMatch(now, m).None?
    ensures Unique(was, m) && FirstMatch(was, m).Some? ==>
              FirstMatch(was, m).value < |place| && FirstMatch(now, m) == Some(place[FirstMatch(was, m).value])
  {
    FirstMatchMeaning(was, m);
    FirstMatchMeaning(now, m);
    if FirstMatch(now, m).Some? {
      var j := FirstMatch(now, m).value;
      assert j in place;
      var i :| 0 <= i < |place| && place[i] == j;
      assert Matches(was[i], m);
    }
    if FirstMatch(was, m).Some? {
      assert now[place[FirstMatch(was, m).value]] == was[FirstMatch(was, m).value];
    }
  }

  lemma {:induction false} DecidingSurvives(
    was: seq<string>, now: seq<string>, place: seq<nat>, f: Field, markers: seq<string>)
    requires Relaid(was, now, place)
    requires forall m :: m in markers ==> m in Markers(f)
    ensures Deciding(was, markers) == Deciding(now, markers)
  {
    if markers != [] {
      MatchesSurvive(was, now, place, f, markers[0]);
      DecidingSurvives(was, now, place, f, markers[1..]);
    }
  }

  /** The new layout that exchanges two columns. */
  function Swapped<T>(s: seq<T>, i: nat, j: nat): seq<T>
    requires i < |s| && j < |s|
  {
    s[i := s[j]][j := s[i]]
  }

  function Identity(n: nat): seq<nat> { seq(n, i => i) }

  lemma UniqueFollows(was: seq<string>, now: seq<string>, place: seq<nat>, f: Field)
    requires Relaid(was, now, place) && ColumnOf(was, f).Some?
    ensures ColumnOf(was, f).value < |place|
    ensures Deciding(now, Markers(f)) == Deciding(was, Markers(f))
    ensures Unique(was, Deciding(was, Markers(f)).value) ==> ColumnOf(now, f) == Some(place[ColumnOf(was, f).value])
  {
    var m := Deciding(was, Markers(f)).value;
    ColumnInRange(was, f);
    DecidingMeaning(was, Markers(f));
    DecidingSurvives(was, now, place, f, Markers(f));
    MatchesSurvive(was, now, place, f, m);
  }

  /** The deciding marker still finds some header at the old place once a later match is swapped in. */
  lemma FirstMatchStays(was: seq<string>, m: string, i: nat, j: nat)
    requires FirstMatch(was, m) == Some(i) && i < |was| && j < |was| && Matches(was[j], m)
    ensures FirstMatch(Swapped(was, i, j), m) == Some(i)
  {
    var now := Swapped(was, i, j);
    FirstMatchMeaning(was, m);
    FirstMatchMeaning(now, m);
    assert now[i] == was[j];
  }

  lemma AmbiguousBreaks(was: seq<string>, f: Field) returns (now: seq<string>, place: seq<nat>)
    requires ColumnOf(was, f).Some? && !Unique(was, Deciding(was, Markers(f)).value)
    ensures Relaid(was, now, place) && ColumnOf(was, f).value < |place|
    ensures ColumnOf(now, f) != Some(place[ColumnOf(was, f).value])
  {
    var m := Deciding(was, Markers(f)).value;
    FirstMatchMeaning(was, m);
    var i := FirstMatch(was, m).value;
    var j :| 0 <= j < |was| && j != i && Matches(was[j], m);
    now, place := Swapped(was, i, j), Swapped(Identity(|was|), i, j);
    SwapIsRelaid(was, i, j);
    UniqueFollows(was, now, place, f);
    FirstMatchStays(was, m, i, j);
    assert place[i] == j;
  }

  /** A field found in a table follows its header through every layout exactly when the marker
      that decides it matches only one header. */
  lemma FollowsIffUnique(was: seq<string>, f: Field)
    requires ColumnOf(was, f).Some?
    ensures ColumnOf(was, f).value < |was|
    ensures Unique(was, Deciding(was, Markers(f)).value) <==>
              forall now, place :: Relaid(was, now, place) ==>
                ColumnOf(now, f) == Some(place[ColumnOf(was, f).value])
  {
    ColumnInRange(was, f);
    if Unique(was, Deciding(was, Markers(f)).value) {
      forall now, place | Relaid(was, now, place)
        ensures ColumnOf(now, f) == Some(place[ColumnOf(was, f).value])
      {
        UniqueFollows(was, now, place, f);
      }
    } else {
      var now, place := AmbiguousBreaks(was, f);
    }
  }

  lemma SwapIsRelaid(was: seq<string>, i: nat, j: nat)
    requires i < |was| && j < |was|
    ensures Relaid(was, Swapped(was, i, j), Swapped(Identity(|was|), i, j))
  {
    var place := Swapped(Identity(|was|), i, j);
    forall k | 0 <= k < |was|
      ensures k in place
    {
      var at := if k == i then j else if k == j then i else k;
      assert place[at] == k;
    }
  }

  /** Every resolved field is decided by a marker that only one header matches. */
  ghost predicate Unambiguous(headers: seq<string>) {
    forall f: Field :: Deciding(headers, Markers(f)).Some? ==> Unique(headers, Deciding(headers, Markers(f)).value)
  }

  lemma ColumnMoves(was: seq<string>, now: seq<string>, place: seq<nat>, f: Field)
    requires Relaid(was, now, place) && Unambiguous(was)
    ensures ColumnOf(was, f).None? <==> ColumnOf(now, f).None?
    ensures ColumnOf(was, f).Some? ==>
              ColumnOf(was, f).value < |place| && ColumnOf(now, f) == Some(place[ColumnOf(was, f).value])
  {
    DecidingSurvives(was, now, place, f, Markers(f));
    DecidingMeaning(was, Markers(f));
    if ColumnOf(was, f).Some? {
      UniqueFollows(was, now, place, f);
    }
  }

  /** The cells of a row in the new layout: what stood in an old column stands in its place. */
  ghost predicate CellsMoved(was: seq<string>, now: seq<string>, place: seq<nat>) {
    forall i :: 0 <= i < |place| ==> CellAt(now, place[i]) == CellAt(was, i)
  }

  /** The rows in the new layout; a placeholder of an empty result stays one. */
  ghost predicate RowsMoved(was: seq<seq<string>>, now: seq<seq<string>>, place: seq<nat>) {
    && |was| == |now|
    && forall r :: 0 <= r < |was| ==>
         CellsMoved(was[r], now[r], place) && (IsNoResultsRow(was[r]) <==> IsNoResultsRow(now[r]))
  }

  /** What a row means to the scan. */
  ghost predicate SameReading(a: ParsedRow, b: ParsedRow) {
    && a.ordinal == b.ordinal && a.name == b.name && a.organization == b.organization
    && a.status == b.status && a.eligible == b.eligible && a.skipHit == b.skipHit
    && a.marker.budget == b.marker.budget && a.marker.name == b.marker.name
    && a.marker.organization == b.marker.organization && a.marker.status == b.marker.status
  }

  lemma RowReadsAlike(
    ordinal: nat, was: seq<string>, now: seq<string>, wasColumns: Columns, nowColumns: Columns, place: seq<nat>,
    discoverable: string -> bool)
    requires wasColumns.Keys == nowColumns.Keys
    requires forall f :: f in wasColumns ==> wasColumns[f] < |place| && nowColumns[f] == place[wasColumns[f]]
    requires CellsMoved(was, now, place)
    ensures SameReading(ParseRow(ordinal, was, wasColumns, discoverable),
                        ParseRow(ordinal, now, nowColumns, discoverable))
  {
    assert forall f :: Value(was, wasColumns, f) == Value(now, nowColumns, f);
  }

  ghost predicate AllAlike(a: seq<ParsedRow>, b: seq<ParsedRow>) {
    |a| == |b| && forall r :: 0 <= r < |a| ==> SameReading(a[r], b[r])
  }

  lemma JoinedAlike(a: seq<ParsedRow>, b: seq<ParsedRow>, restA: seq<ParsedRow>, restB: seq<ParsedRow>)
    requires AllAlike(a, b) && AllAlike(restA, restB)
    ensures AllAlike(a + restA, b + restB)
  {
  }

  /** One row, or none if it is a placeholder. */
  lemma RowIsReadAlike(
    ordinal: nat, was: seq<string>, now: seq<string>, wasColumns: Columns, nowColumns: Columns, place: seq<nat>,
    discoverable: string -> bool)
    requires wasColumns.Keys == nowColumns.Keys
    requires forall f :: f in wasColumns ==> wasColumns[f] < |place| && nowColumns[f] == place[wasColumns[f]]
    requires CellsMoved(was, now, place) && (IsNoResultsRow(was) <==> IsNoResultsRow(now))
    ensures AllAlike(ReadRow(ordinal, was, wasColumns, discoverable), ReadRow(ordinal, now, nowColumns, discoverable))
  {
    RowReadsAlike(ordinal, was, now, wasColumns, nowColumns, place, discoverable);
  }

  lemma {:induction false} RowsReadAlike(
    was: seq<seq<string>>, now: seq<seq<string>>, wasColumns: Columns, nowColumns: Columns, place: seq<nat>,
    discoverable: string -> bool, k: nat)
    requires wasColumns.Keys == nowColumns.Keys
    requires forall f :: f in wasColumns ==> wasColumns[f] < |place| && nowColumns[f] == place[wasColumns[f]]
    requires RowsMoved(was, now, place)
    ensures AllAlike(RowsFrom(was, PageReader(wasColumns, discoverable), k),
                     RowsFrom(now, PageReader(nowColumns, discoverable), k))
    decreases |was| - k
  {
    if k < |was| {
      RowsReadAlike(was, now, wasColumns, nowColumns, place, discoverable, k + 1);
      RowIsReadAlike(k + 1, was[k], now[k], wasColumns, nowColumns, place, discoverable);
      JoinedAlike(ReadRow(k + 1, was[k], wasColumns, discoverable), ReadRow(k + 1, now[k], nowColumns, discoverable),
                  RowsFrom(was, PageReader(wasColumns, discoverable), k + 1),
                  RowsFrom(now, PageReader(nowColumns, discoverable), k + 1));
    }
  }

  /** No header is blank. */
  ghost predicate NoBlanks(raw: seq<string>) { forall h :: h in raw ==> Strip(h) != [] }

  lemma {:induction false} NonBlankKeepsPlaces(raw: seq<string>)
    requires NoBlanks(raw)
    ensures |NonBlank(raw)| == |raw| && forall i :: 0 <= i < |raw| ==> NonBlank(raw)[i] == Strip(raw[i])
  {
    if raw != [] {
      assert raw == [raw[0]] + raw[1..];
      NonBlankKeepsPlaces(raw[1..]);
    }
  }

  lemma ColumnsMove(was: seq<string>, now: seq<string>, place: seq<nat>)
    requires Relaid(was, now, place) && Unambiguous(was)
    ensures var a, b := ResolveColumns(was), ResolveColumns(now);
            && (a.None? <==> b.None?)
            && (a.Some? ==> a.value.Keys == b.value.Keys)
            && (a.Some? ==> forall f :: f in a.value ==> a.value[f] < |place| && b.value[f] == place[a.value[f]])
  {
    forall f: Field
      ensures ColumnOf(was, f).None? <==> ColumnOf(now, f).None?
      ensures ColumnOf(was, f).Some? ==>
                ColumnOf(was, f).value < |place| && ColumnOf(now, f) == Some(place[ColumnOf(was, f).value])
    {
      ColumnMoves(was, now, place, f);
    }
  }

  /** Reordering the columns of a page, or adding columns no field is known by, changes nothing
      the scan reads from any row, for tables whose headers are not blank and whose deciding
      markers match one header each. */
  lemma LayoutIndependence(
    was: seq<string>, now: seq<string>, place: seq<nat>, oldRows: seq<seq<string>>, newRows: seq<seq<string>>,
    discoverable: string -> bool)
    requires was != [] && NoBlanks(was) && NoBlanks(now)
    requires Relaid(NonBlank(was), NonBlank(now), place) && Unambiguous(NonBlank(was))
    requires RowsMoved(oldRows, newRows, place)
    ensures var a, b := ParseResultsPage([was], oldRows, discoverable), ParseResultsPage([now], newRows, discoverable);
            && (a.MissingColumns? <==> b.MissingColumns?)
            && (a.Rows? ==> b.Rows? && AllAlike(a.rows, b.rows))
  {
    NonBlankKeepsPlaces(was);
    NonBlankKeepsPlaces(now);
    assert NonBlank(now)[place[0]] == NonBlank(was)[0];
    assert ExtractHeaders([was]) == NonBlank(was) && ExtractHeaders([now]) == NonBlank(now);
    ColumnsMove(NonBlank(was), NonBlank(now), place);
    var a, b := ResolveColumns(NonBlank(was)), ResolveColumns(NonBlank(now));
    if a.Some? {
      RowsReadAlike(oldRows, newRows, a.value, b.value, place, discoverable, 0);
    }
  }

  // ---------------------------------------------------------------------------
  // Blank headers
  // ---------------------------------------------------------------------------

  function Blanks(raw: seq<string>): nat {
    if raw == [] then 0 else Blanks(raw[1..]) + if Strip(raw[0]) == [] then 1 else 0
  }

  /** Where the i-th header that is not blank stands in the table. */
  function Origin(raw: seq<string>, i: nat): nat
    requires i < |NonBlank(raw)|
  {
    if Strip(raw[0]) == [] then Origin(raw[1..], i) + 1
    else if i == 0 then 0
    else Origin(raw[1..], i - 1) + 1
  }

  /** Column i of the resolved table is the header that stands at its origin, which lies exactly
      as far to the right as there are blank headers before it. */
  lemma {:induction false} BlankHeadersShift(raw: seq<string>, i: nat)
    requires i < |NonBlank(raw)|
    ensures var at := Origin(raw, i);
            at < |raw| && NonBlank(raw)[i] == Strip(raw[at]) && at == i + Blanks(raw[..at])
  {
    if Strip(raw[0]) == [] {
      BlankHeadersShift(raw[1..], i);
      var at := Origin(raw[1..], i);
      assert raw[..at + 1][1..] == raw[1..][..at];
    } else if i > 0 {
      BlankHeadersShift(raw[1..], i - 1);
      var at := Origin(raw[1..], i - 1);
      assert raw[..at + 1][1..] == raw[1..][..at];
    }
  }

  /** For every table and every resolved column: the cell that is read stands under the header
      that was matched if and only if no header to the left of it is blank. */
  lemma AlignedIffNoBlankBefore(raw: seq<string>, i: nat)
    requires i < |NonBlank(raw)|
    ensures Origin(raw, i) < |raw|
    ensures Origin(raw, i) == i <==> NoBlanks(raw[..Origin(raw, i)])
  {
    BlankHeadersShift(raw, i);
    NoBlanksCounted(raw[..Origin(raw, i)]);
  }

  lemma {:induction false} NoBlanksCounted(raw: seq<string>)
    ensures Blanks(raw) == 0 <==> NoBlanks(raw)
  {
    if raw != [] {
      NoBlanksCounted(raw[1..]);
      assert raw == [raw[0]] + raw[1..];
    }
  }

  // ---------------------------------------------------------------------------
  // Two tables that are misread
  // ---------------------------------------------------------------------------

  lemma HeaderMatchesItself(marker: string)
    ensures Matches(marker, marker)
  {
  }

  /** The three required headers, after a blank one. */
  function BlankFirst(): seq<string> { ["", Markers(Status)[0], Markers(ProjectName)[0], Markers(View)[0]] }

  lemma BlankIsDropped()
    ensures NonBlank(BlankFirst()) == BlankFirst()[1..]
  {
    var raw := BlankFirst();
    forall k | 1 <= k < 4
      ensures Strip(raw[k]) == raw[k]
    {
      StripKeeps(raw[k]);
    }
    assert raw[1..][1..] == raw[2..] && raw[2..][1..] == raw[3..] && raw[3..][1..] == [];
    assert NonBlank(raw[3..]) == [raw[3]] + NonBlank([]);
    assert NonBlank(raw[2..]) == [raw[2]] + NonBlank(raw[3..]);
    assert NonBlank(raw[1..]) == [raw[1]] + NonBlank(raw[2..]);
  }

  lemma RequiredAreFound(headers: seq<string>)
    requires forall f :: f in REQUIRED ==> Markers(f)[0] in headers
    ensures ResolveColumns(headers).Some?
  {
    RefusedIffRequiredMissing(headers);
    forall f | f in REQUIRED
      ensures exists m :: m in Markers(f) && exists h :: h in headers && Matches(h, m)
    {
      HeaderMatchesItself(Markers(f)[0]);
      assert Markers(f)[0] in Markers(f);
    }
  }

  lemma FirstColumnIsStatus(headers: seq<string>)
    requires headers != [] && headers[0] == Markers(Status)[0]
    ensures ColumnOf(headers, Status) == Some(0)
  {
    HeaderMatchesItself(headers[0]);
  }

  lemma OneRowRead(headers: seq<string>, selections: seq<seq<string>>, cells: seq<string>, discoverable: string -> bool)
    requires ExtractHeaders(selections) == headers && ResolveColumns(headers).Some? && !IsNoResultsRow(cells)
    ensures ParseResultsPage(selections, [cells], discoverable)
            == Rows(headers, [ParseRow(1, cells, ResolveColumns(headers).value, discoverable)])
  {
    var columns := ResolveColumns(headers).value;
    assert RowsFrom([cells], PageReader(columns, discoverable), 1) == [];
  }

  lemma RequiredHeaders()
    ensures var headers := BlankFirst()[1..];
            ResolveColumns(headers).Some? && ResolveColumns(headers).value[Status] == 0
  {
    var headers := BlankFirst()[1..];
    assert headers[0] == Markers(Status)[0] && headers[1] == Markers(ProjectName)[0] && headers[2] == Markers(View)[0];
    assert headers[0] in headers && headers[1] in headers && headers[2] in headers;
    RequiredAreFound(headers);
    FirstColumnIsStatus(headers);
  }

  /** Under a blank header, the status of every row of this table is read from the cell left of the
      one that stands under the status header. */
  lemma BlankHeaderMisreads(cells: seq<string>, discoverable: string -> bool)
    requires |cells| >= 2
    ensures BlankFirst()[1] == Markers(Status)[0]
    ensures var p := ParseResultsPage([BlankFirst()], [cells], discoverable);
            p.Rows? && |p.rows| == 1 && p.rows[0].status == cells[0]
  {
    BlankIsDropped();
    RequiredHeaders();
    OneRowRead(BlankFirst()[1..], [BlankFirst()], cells, discoverable);
  }

  lemma TwinsTrade(header: string)
    ensures Relaid([header, header], [header, header], [1, 0])
  {
    var place: seq<nat> := [1, 0];
    assert place[0] == 1 && place[1] == 0;
    assert 0 in place && 1 in place;
  }

  /** Two columns with the same header trade places, and the field stays where it was. */
  lemma AmbiguousHeaderStays()
    ensures var was, place := [Markers(Status)[0], Markers(Status)[0]], [1, 0];
            && Relaid(was, was, place) && ColumnOf(was, Status) == Some(0)
            && ColumnOf(was, Status) != Some(place[0])
  {
    var header := Markers(Status)[0];
    FirstColumnIsStatus([header, header]);
    TwinsTrade(header);
  }
}
