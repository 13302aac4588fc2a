/** The per-keyword telemetry of a scan (browser_discovery.py), and the choice of the rows that
    are worth opening. */
module KeywordScan {
  import opened Text
  import opened ResultsTable
  import opened Pagination
  import opened RowBody

  datatype ReasonCode = Ok | NoEligibleRows

  const UNREADABLE := "<unreadable>"

  /** The status a row is counted under. */
  function Bucket(status: Option<string>): string {
    var text := if status.Some? then Strip(status.value) else [];
    if text != [] then text else UNREADABLE
  }

  function RowKey(row: ParsedRow): string { KeyOf(row.number, row.name) }

  function Bit(b: bool): nat { if b then 1 else 0 }

  predicate IsWanted(row: ParsedRow, seen: set<string>) {
    row.eligible && row.skipHit.None? && RowKey(row) !in seen
  }

  datatype Counts = Counts(unreadable: nat, rejected: nat, eligible: nat, skipHits: nat, dedupHits: nat)

  function Add(a: Counts, b: Counts): Counts {
    Counts(a.unreadable + b.unreadable, a.rejected + b.rejected, a.eligible + b.eligible,
           a.skipHits + b.skipHits, a.dedupHits + b.dedupHits)
  }

  /** What one row counts for. */
  function CountsOfRow(row: ParsedRow, seen: set<string>, discoverable: string -> bool): Counts {
    Counts(Bit(row.status == []),
           Bit(row.status != [] && !discoverable(row.status)),
           Bit(row.eligible),
           Bit(row.eligible && row.skipHit.Some?),
           Bit(row.eligible && row.skipHit.None? && RowKey(row) in seen))
  }

  /** How many rows of each kind there are. */
  function CountsOf(rows: seq<ParsedRow>, seen: set<string>, discoverable: string -> bool): Counts {
    if rows == [] then Counts(0, 0, 0, 0, 0)
    else Add(CountsOf(rows[..|rows| - 1], seen, discoverable), CountsOfRow(rows[|rows| - 1], seen, discoverable))
  }

  /** The keys of the rows to open, in page order: eligible, not skipped, not seen before. */
  function Wanted(rows: seq<ParsedRow>, seen: set<string>): seq<string> {
    if rows == [] then []
    else
      var row := rows[|rows| - 1];
      Wanted(rows[..|rows| - 1], seen)
      + if IsWanted(row, seen) then [RowKey(row)] else []
  }

  lemma OneMoreRow(base: Counts, rows: seq<ParsedRow>, k: nat, seen: set<string>, discoverable: string -> bool)
    requires k < |rows|
    ensures Add(base, CountsOf(rows[..k + 1], seen, discoverable))
            == Add(Add(base, CountsOf(rows[..k], seen, discoverable)), CountsOfRow(rows[k], seen, discoverable))
    ensures Wanted(rows[..k + 1], seen)
            == Wanted(rows[..k], seen) + if IsWanted(rows[k], seen) then [RowKey(rows[k])] else []
  {
    assert rows[..k + 1][..k] == rows[..k];
  }

  /** The sum of all buckets. */
  ghost function Sum(m: map<string, nat>): nat
    decreases |m|
  {
    if m == map[] then 0
    else
      var k :| k in m;
      m[k] + Sum(m - {k})
  }

  lemma {:induction false} SumWithout(m: map<string, nat>, k: string)
    requires k in m
    ensures Sum(m) == m[k] + Sum(m - {k})
    decreases |m|
  {
    var j :| j in m && Sum(m) == m[j] + Sum(m - {j});
    if j != k {
      SumWithout(m - {j}, k);
      SumWithout(m - {k}, j);
      assert m - {j} - {k} == m - {k} - {j};
    }
  }

  /** Every bucket holds the number of rows with its label. */
  ghost predicate HoldsCounts(buckets: map<string, nat>, labels: multiset<string>) {
    forall b :: labels[b] == if b in buckets then buckets[b] else 0
  }

  /** Then the buckets add up to the rows. */
  lemma {:induction false} BucketsAddUp(buckets: map<string, nat>, labels: multiset<string>)
    requires HoldsCounts(buckets, labels)
    ensures Sum(buckets) == |labels|
    decreases |buckets|
  {
    if buckets == map[] {
      assert labels == multiset{};
    } else {
      var k :| k in buckets;
      var others := labels[k := 0];
      BucketsAddUp(buckets - {k}, others);
      SumWithout(buckets, k);
      assert labels == others + multiset{}[k := labels[k]];
    }
  }

  class Accumulator {
    var found: Option<int>
    var rowsScanned: nat
    var eligible: nat
    var accepted: nat
    var rejected: nat
    var unreadable: nat
    var skipHits: nat
    var dedupHits: nat
    var pagesScanned: nat
    var pageSequence: seq<nat>
    var terminalPage: Option<nat>
    var outcome: Option<Outcome>
    var headerSignature: string
    var drift: bool
    var buckets: map<string, nat>
    /** The labels of the rows counted so far. */
    ghost var labels: multiset<string>

    constructor ()
      ensures Balanced(0) && pageSequence == [] && terminalPage == None && outcome == None && found == None
      ensures rowsScanned == 0 && pagesScanned == 0 && accepted == 0 && headerSignature == [] && !drift
              && buckets == map[] && labels == multiset{}
    {
      found, rowsScanned, eligible, accepted, rejected, unreadable := None, 0, 0, 0, 0, 0;
      skipHits, dedupHits, pagesScanned, pageSequence := 0, 0, 0, [];
      terminalPage, outcome, headerSignature, drift, buckets, labels := None, None, [], false, map[], multiset{};
    }

    /** The books, with some rows looked at but not yet counted into `rowsScanned`. */
    ghost predicate Balanced(pending: nat)
      reads this
    {
      && unreadable + rejected + eligible == rowsScanned + pending
      && HoldsCounts(buckets, labels) && |labels| == rowsScanned + pending
      && eligible == skipHits + dedupHits + accepted
    }

    method RecordRowStatus(status: Option<string>, discoverable: string -> bool)
      requires HoldsCounts(buckets, labels)
      modifies this`buckets, this`labels, this`unreadable, this`rejected
      ensures HoldsCounts(buckets, labels) && labels == old(labels) + multiset{Bucket(status)}
      ensures |labels| == |old(labels)| + 1
      ensures unreadable == old(unreadable) + Bit(status.None?)
      ensures rejected == old(rejected) + Bit(status.Some? && !discoverable(status.value))
    {
      var b := Bucket(status);
      buckets := buckets[b := (if b in buckets then buckets[b] else 0) + 1];
      labels := labels + multiset{b};
      if status.None? {
        unreadable := unreadable + 1;
      } else if !discoverable(status.value) {
        rejected := rejected + 1;
      }
    }

    function Tally(): Counts
      reads this
    {
      Counts(unreadable, rejected, eligible, skipHits, dedupHits)
    }

    /** Counts one row; `wanted` says whether to open it. */
    method ScanRow(row: ParsedRow, seen: set<string>, discoverable: string -> bool, ghost pending: nat)
      returns (wanted: bool)
      requires Balanced(pending) && IsConsistent(row, discoverable)
      modifies this`buckets, this`labels, this`unreadable, this`rejected, this`eligible, this`skipHits, this`dedupHits,
               this`accepted
      ensures Balanced(pending + 1)
      ensures wanted == IsWanted(row, seen)
      ensures Tally() == Add(old(Tally()), CountsOfRow(row, seen, discoverable))
      ensures accepted == old(accepted) + Bit(wanted)
    {
      wanted := false;
      var status := if row.status == [] then None else Some(row.status);
      RecordRowStatus(status, discoverable);
      if row.eligible {
        eligible := eligible + 1;
        if row.skipHit.Some? {
          skipHits := skipHits + 1;
        } else if RowKey(row) in seen {
          dedupHits := dedupHits + 1;
        } else {
          accepted := accepted + 1;
          wanted := true;
        }
      }
    }

    /** Counts the rows of a page and picks the ones to open. */
    method ScanRows(rows: seq<ParsedRow>, seen: set<string>, discoverable: string -> bool) returns (wanted: seq<string>)
      requires Balanced(0) && AllConsistent(rows, discoverable)
      modifies this`buckets, this`labels, this`unreadable, this`rejected, this`eligible, this`skipHits, this`dedupHits,
               this`accepted
      ensures Balanced(|rows|) && unchanged(this`found, this`rowsScanned, this`pagesScanned, this`pageSequence)
      ensures unchanged(this`outcome, this`terminalPage)
      ensures wanted == Wanted(rows, seen)
      ensures Tally() == Add(old(Tally()), CountsOf(rows, seen, discoverable))
      ensures accepted == old(accepted) + |wanted|
    {
      wanted := [];
      for k := 0 to |rows|
        invariant Balanced(k)
        invariant wanted == Wanted(rows[..k], seen)
        invariant Tally() == Add(old(Tally()), CountsOf(rows[..k], seen, discoverable))
        invariant accepted == old(accepted) + |wanted|
      {
        OneMoreRow(old(Tally()), rows, k, seen, discoverable);
        var take := ScanRow(rows[k], seen, discoverable, k);
        if take {
          wanted := wanted + [RowKey(rows[k])];
        }
      }
      assert rows[..|rows|] == rows;
    }

    /** Closes the books of a page. `expected` is the header line of the layout known to be good. */
    method RecordPage(rows: nat, signature: string, expected: string, page: nat)
      requires Balanced(rows)
      modifies this`pagesScanned, this`rowsScanned, this`pageSequence, this`headerSignature, this`drift
      ensures Balanced(0) && Tally() == old(Tally())
              && unchanged(this`found, this`outcome, this`terminalPage, this`accepted)
      ensures pagesScanned == old(pagesScanned) + 1 && rowsScanned == old(rowsScanned) + rows
      ensures pageSequence == old(pageSequence) + [page]
      ensures headerSignature == if old(headerSignature) != [] then old(headerSignature) else signature
      ensures drift == (old(drift) || (signature != [] && signature != expected))
    {
      pagesScanned := pagesScanned + 1;
      rowsScanned := rowsScanned + rows;
      pageSequence := pageSequence + [page];
      RecordHeader(signature, expected);
    }

    method RecordHeader(signature: string, expected: string)
      modifies this`headerSignature, this`drift
      ensures headerSignature == if old(headerSignature) != [] then old(headerSignature) else signature
      ensures drift == (old(drift) || (signature != [] && signature != expected))
    {
      if signature != [] && headerSignature == [] {
        headerSignature := signature;
      }
      if signature != [] && signature != expected {
        drift := true;
      }
    }

    /** Reads the number of hits on the first page, counts the rows and closes the page. */
    method CountPage(page: nat, hits: Option<int>, signature: string, rows: seq<ParsedRow>, seen: set<string>,
                     discoverable: string -> bool, expected: string)
      returns (wanted: seq<string>)
      requires Balanced(0) && AllConsistent(rows, discoverable)
      modifies this
      ensures Balanced(0) && wanted == Wanted(rows, seen)
      ensures pageSequence == old(pageSequence) + [page] && pagesScanned == old(pagesScanned) + 1
      ensures rowsScanned == old(rowsScanned) + |rows| && accepted == old(accepted) + |wanted|
      ensures Tally() == Add(old(Tally()), CountsOf(rows, seen, discoverable))
      ensures found == if page == 1 && old(found).None? then hits else old(found)
      ensures outcome == old(outcome) && terminalPage == old(terminalPage)
    {
      if page == 1 && found.None? {
        found := hits;
      }
      wanted := ScanRows(rows, seen, discoverable);
      RecordPage(|rows|, signature, expected, page);
    }

    function Reason(): ReasonCode
      reads this
    {
      if rowsScanned > 0 && eligible == 0 then NoEligibleRows
      else if (if found.Some? then found.value else 0) > 0 && rowsScanned == 0 then NoEligibleRows
      else Ok
    }
  }

  /** On balanced books every row is in one bucket and is unreadable, rejected or eligible, and
      every eligible one is skipped, known or accepted. The reason is given exactly when rows exist
      and every one of them is unreadable or rejected, or when the site reports hits and no row was
      seen at all. In particular a keyword whose rows are all skipped or known is no anomaly. */
  lemma ReasonMeaning(a: Accumulator)
    requires a.Balanced(0)
    ensures a.rowsScanned == a.unreadable + a.rejected + a.eligible == Sum(a.buckets)
    ensures a.eligible == a.skipHits + a.dedupHits + a.accepted
    ensures a.Reason() == NoEligibleRows <==>
              || (a.rowsScanned > 0 && a.unreadable + a.rejected == a.rowsScanned)
              || (a.rowsScanned == 0 && a.found.Some? && a.found.value > 0)
    ensures a.skipHits + a.dedupHits > 0 ==> a.Reason() == Ok
  {
    BucketsAddUp(a.buckets, a.labels);
  }
}
