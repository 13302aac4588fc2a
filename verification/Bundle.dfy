/** The acceptance bundle verifiers of track_bc_verify.py: an ordered list of stage receipts
    and a rollback receipt. The two contract versions share the scan of the receipts and the
    rollback checks and differ as marked. */
module Bundle {
  import opened Text
  import opened PyValue
  import opened Receipts

  datatype Contract = V1 | V2

  /** What a receipt of each stage, and a rollback receipt, must contain. */
  datatype Rules = Rules(content: (Word, Value) -> bool, rollbackShape: Value -> bool, rollbackChecks: Value -> bool)

  /** What each contract version asks of the content of a stage. */
  predicate ContentOf(c: Contract, stage: Word, r: Value) {
    if stage == Word.Supervised then SupervisedContent(r)
    else if stage == Word.Runtime then RuntimeContent(r)
    else if c.V1? then CanaryV1Content(r)
    else if stage == Word.Canary then CanaryV2Content(r)
    else ObservationContent(r)
  }

  /** The rules of each contract version. */
  function RulesOf(c: Contract): Rules {
    Rules((stage, r) => ContentOf(c, stage, r), RollbackShape, r => AllTrue(Get(r, Key.Checks), ROLLBACK_CHECKS))
  }

  /** What a bundle is verified against. Nothing in the bundle logic depends on the rules. */
  datatype Terms = Terms(contract: Contract, rules: Rules, release: string, reference: int, maxAgeSeconds: nat,
                         parse: string -> Option<int>)

  datatype Fault =
    | UnknownStage | DuplicateStage | SchemaInvalid | NotAccepted | ReleaseMismatch
    | ReceiptAge(age: Age) | ChecksInvalid | RequiredStageMissing | StageOrderInvalid
    | FingerprintMismatch | RollbackMissing | RollbackInvalid | RollbackNotRehearsed
    | RollbackReleaseMismatch | RollbackAge(age: Age) | RollbackChecksIncomplete | RollbackOrderInvalid

  function Stages(c: Contract): seq<Word> {
    if c.V1? then [Word.Runtime, Word.Canary, Word.Supervised]
    else [Word.Runtime, Word.Observation, Word.Canary, Word.Supervised]
  }

  datatype Report = Report(accepted: bool, checks: map<Word, bool>, rollbackReceipt: bool,
                           rollbackChecks: bool, errors: seq<Fault>)

  /** Appends an error code once, if it is due. */
  function Note(errors: seq<Fault>, due: bool, f: Fault): seq<Fault> {
    if due && f !in errors then errors + [f] else errors
  }

  // ---------------------------------------------------------------------------
  // One stage receipt
  // ---------------------------------------------------------------------------

  predicate Known(t: Terms, r: Value) {
    Get(r, Key.Stage).JWord? && Get(r, Key.Stage).w in Stages(t.contract)
  }

  predicate SchemaOk(t: Terms, stage: Word, r: Value) {
    var v := Get(r, Key.SchemaVersion);
    if t.contract.V1? then EqualsOne(v)
    else v == JInt(if stage == Word.Canary then 2 else 1)
  }

  predicate ReleaseOk(t: Terms, r: Value) {
    IsReleaseSha(Get(r, Key.ReleaseSha)) && Get(r, Key.ReleaseSha) == JStr(t.release)
  }

  function ReceiptTime(t: Terms, r: Value): Option<int> {
    TimeOf(Get(r, Key.ObservedAt), t.parse)
  }

  function ReceiptAgeOf(t: Terms, r: Value): Age {
    AgeOf(ReceiptTime(t, r), t.reference, t.maxAgeSeconds)
  }

  predicate ContentOk(t: Terms, stage: Word, r: Value) {
    t.rules.content(stage, r)
  }

  /** Everything but the content. */
  predicate EnvelopeOk(t: Terms, stage: Word, r: Value) {
    && SchemaOk(t, stage, r) && Get(r, Key.Status) == JWord(Word.Accepted)
    && ReleaseOk(t, r) && ReceiptAgeOf(t, r) == Fresh
  }

  /** Only the first version reports invalid content as an error. */
  function ReceiptErrors(t: Terms, stage: Word, r: Value, before: seq<Fault>): seq<Fault> {
    var schema := Note(before, !SchemaOk(t, stage, r), SchemaInvalid);
    var status := Note(schema, Get(r, Key.Status) != JWord(Word.Accepted), NotAccepted);
    var release := Note(status, !ReleaseOk(t, r), ReleaseMismatch);
    var age := Note(release, ReceiptAgeOf(t, r) != Fresh, ReceiptAge(ReceiptAgeOf(t, r)));
    Note(age, t.contract.V1? && !ContentOk(t, stage, r), ChecksInvalid)
  }

  // ---------------------------------------------------------------------------
  // The scan
  // ---------------------------------------------------------------------------

  /** State of the receipt loop: the first receipt of each known stage decides its check. */
  datatype Scan = Scan(first: map<Word, Value>, checks: map<Word, bool>, order: seq<Word>, errors: seq<Fault>)

  function ScanOne(t: Terms, scan: Scan, r: Value): Scan {
    if !Known(t, r) then scan.(errors := Note(scan.errors, true, UnknownStage))
    else
      var stage := Get(r, Key.Stage).w;
      var listed := scan.(order := scan.order + [stage]);
      if stage in scan.first then listed.(errors := Note(scan.errors, true, DuplicateStage))
      else listed.(first := scan.first[stage := r],
                   checks := scan.checks[stage := EnvelopeOk(t, stage, r) && ContentOk(t, stage, r)],
                   errors := ReceiptErrors(t, stage, r, scan.errors))
  }

  function ScanAll(t: Terms, receipts: seq<Value>, errors: seq<Fault>): Scan {
    if receipts == [] then Scan(map[], map[], [], errors)
    else ScanOne(t, ScanAll(t, receipts[..|receipts| - 1], errors), receipts[|receipts| - 1])
  }

  method ScanReceipts(t: Terms, receipts: seq<Value>, before: seq<Fault>)
    returns (first: map<Word, Value>, checks: map<Word, bool>, order: seq<Word>, errors: seq<Fault>)
    ensures ScanAll(t, receipts, before) == Scan(first, checks, order, errors)
  {
    first, checks, order, errors := map[], map[], [], before;
    var i := 0;
    while i < |receipts|
      invariant i <= |receipts|
      invariant ScanAll(t, receipts[..i], before) == Scan(first, checks, order, errors)
    {
      assert receipts[..i + 1][..i] == receipts[..i];
      var r := receipts[i];
      if !Known(t, r) {
        errors := Note(errors, true, UnknownStage);
      } else {
        var stage := Get(r, Key.Stage).w;
        order := order + [stage];
        if stage in first {
          errors := Note(errors, true, DuplicateStage);
        } else {
          first := first[stage := r];
          checks := checks[stage := EnvelopeOk(t, stage, r) && ContentOk(t, stage, r)];
          errors := ReceiptErrors(t, stage, r, errors);
        }
      }
      i := i + 1;
    }
    assert receipts[..i] == receipts;
  }

  // ---------------------------------------------------------------------------
  // The whole bundle
  // ---------------------------------------------------------------------------

  function TimeIn(t: Terms, first: map<Word, Value>, stage: Word): Option<int> {
    if stage in first then ReceiptTime(t, first[stage]) else None
  }

  function FieldIn(first: map<Word, Value>, stage: Word, key: Key): Value {
    if stage in first then Get(first[stage], key) else JNull
  }

  /** All stages are timed and some stage is earlier than the one before it. */
  predicate TimesDecrease(t: Terms, first: map<Word, Value>) {
    var stages := Stages(t.contract);
    && (forall s | s in stages :: TimeIn(t, first, s).Some?)
    && exists k | 0 <= k < |stages| - 1 :: TimeIn(t, first, stages[k]).value > TimeIn(t, first, stages[k + 1]).value
  }

  predicate FingerprintsAgree(first: map<Word, Value>) {
    var observation := FieldIn(first, Word.Observation, Key.TargetFingerprint);
    var canary := FieldIn(first, Word.Canary, Key.TargetFingerprint);
    IsDigest(observation) && IsDigest(canary) && observation == canary
  }

  function Items(receipts: Value): seq<Value> {
    if receipts.JList? then receipts.items else []
  }

  predicate AllPresent(t: Terms, first: map<Word, Value>) {
    forall s | s in Stages(t.contract) :: s in first
  }

  function ListErrors(t: Terms, receipts: Value): seq<Fault> {
    Note([], !receipts.JList? || (t.contract.V2? && |receipts.items| != |Stages(t.contract)|), RequiredStageMissing)
  }

  function StageErrors(t: Terms, scan: Scan): seq<Fault> {
    var order := Note(scan.errors, t.contract.V2? && scan.order != Stages(t.contract), StageOrderInvalid);
    var missing := Note(order, !AllPresent(t, scan.first), RequiredStageMissing);
    var times := Note(missing, TimesDecrease(t, scan.first), StageOrderInvalid);
    Note(times, t.contract.V2? && !FingerprintsAgree(scan.first), FingerprintMismatch)
  }

  function RollbackErrors(t: Terms, rb: Value, before: seq<Fault>): seq<Fault> {
    if !rb.JObj? then Note(before, true, RollbackMissing)
    else
      var shape := Note(before, !t.rules.rollbackShape(rb), RollbackInvalid);
      var status := Note(shape, Get(rb, Key.Status) != JWord(Word.Rehearsed), RollbackNotRehearsed);
      var release := Note(status, !ReleaseOk(t, rb), RollbackReleaseMismatch);
      var age := Note(release, ReceiptAgeOf(t, rb) != Fresh, RollbackAge(ReceiptAgeOf(t, rb)));
      Note(age, !t.rules.rollbackChecks(rb), RollbackChecksIncomplete)
  }

  predicate RollbackTooEarly(t: Terms, first: map<Word, Value>, rb: Value) {
    && rb.JObj?
    && TimeIn(t, first, Word.Supervised).Some? && ReceiptTime(t, rb).Some?
    && ReceiptTime(t, rb).value < TimeIn(t, first, Word.Supervised).value
  }

  function ScanOf(t: Terms, evidence: Value): Scan {
    var receipts := Get(evidence, Key.Receipts);
    ScanAll(t, Items(receipts), ListErrors(t, receipts))
  }

  function BundleErrors(t: Terms, evidence: Value): seq<Fault> {
    var scan := ScanOf(t, evidence);
    var rb := Get(evidence, Key.Rollback);
    Note(RollbackErrors(t, rb, StageErrors(t, scan)), RollbackTooEarly(t, scan.first, rb), RollbackOrderInvalid)
  }

  /** In the first version the rollback check ignores the checks and the order. */
  predicate RollbackReceiptOk(t: Terms, first: map<Word, Value>, rb: Value) {
    && rb.JObj? && t.rules.rollbackShape(rb) && Get(rb, Key.Status) == JWord(Word.Rehearsed)
    && ReleaseOk(t, rb) && ReceiptAgeOf(t, rb) == Fresh
    && (t.contract.V2? ==> t.rules.rollbackChecks(rb) && !RollbackTooEarly(t, first, rb))
  }

  /** None stands for the argument error raised for an inexact release SHA. */
  method VerifyAcceptanceBundle(t: Terms, evidence: Value) returns (report: Option<Report>)
    ensures report.None? <==> !IsReleaseSha(JStr(t.release))
    ensures report.Some? ==>
              && report.value.errors == BundleErrors(t, evidence)
              && (report.value.accepted <==> BundleErrors(t, evidence) == [])
              && report.value.checks == ScanOf(t, evidence).checks
              && (report.value.rollbackReceipt <==>
                  RollbackReceiptOk(t, ScanOf(t, evidence).first, Get(evidence, Key.Rollback)))
              && (report.value.rollbackChecks <==>
                  Get(evidence, Key.Rollback).JObj? && t.rules.rollbackChecks(Get(evidence, Key.Rollback)))
  {
    if !IsReleaseSha(JStr(t.release)) {
      return None;
    }
    var receipts := Get(evidence, Key.Receipts);
    var errors := ListErrors(t, receipts);
    var first, checks, order;
    first, checks, order, errors := ScanReceipts(t, Items(receipts), errors);
    errors := StageErrors(t, Scan(first, checks, order, errors));
    var rb := Get(evidence, Key.Rollback);
    errors := RollbackErrors(t, rb, errors);
    errors := Note(errors, RollbackTooEarly(t, first, rb), RollbackOrderInvalid);
    return Some(Report(errors == [], checks, RollbackReceiptOk(t, first, rb),
                       rb.JObj? && t.rules.rollbackChecks(rb), errors));
  }
}
