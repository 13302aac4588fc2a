/** Verification of the exact-ingestion canary (track_bc_verify.py): the sixteen base checks,
    the six of the second version, and the raw proof they re-examine. */
module CanaryEvidence {
  import opened Text
  import opened PyValue
  import opened Receipts
  import opened RuntimeEvidence

  const CANARY_RUN_MAX_AGE_SECONDS := 3_600

  const CANARY_PROOF_KEYS: set<Key> := {
    Key.ContractVersion, Key.TargetDigest, Key.BrowserStarted, Key.PageSequence,
    Key.MaxPagesPerKeyword, Key.TerminalOutcome, Key.LaterPagePersisted
  }

  /** The authorised target: its digest and page cap. */
  datatype Target = Target(digest: string, maxPages: int)

  datatype ProofChecks = ProofChecks(valid: bool, orderedPages: bool, terminalScan: bool, laterPage: bool)

  function CheckProof(proof: Value, targetDigest: string, cap: int): ProofChecks {
    if !proof.JObj? || proof.fields.Keys != CANARY_PROOF_KEYS then ProofChecks(false, false, false, false)
    else
      var pages := Get(proof, Key.PageSequence);
      var ordered := PagesInOrder(pages);
      var terminal := ScanIsTerminal(Get(proof, Key.TerminalOutcome), pages, cap);
      var later := IsTrue(Get(proof, Key.LaterPagePersisted));
      var digest := Get(proof, Key.TargetDigest);
      ProofChecks(
        && Get(proof, Key.ContractVersion) == JInt(1)
        && IsDigest(digest) && digest == JStr(targetDigest)
        && IsTrue(Get(proof, Key.BrowserStarted))
        && ordered
        && Get(proof, Key.MaxPagesPerKeyword) == JInt(cap)
        && terminal && later,
        ordered, terminal, later)
  }

  function ExpectedDigest(e: Value, target: Option<Target>): string {
    if target.Some? then target.value.digest
    else if IsDigest(Get(e, Key.TargetDigest)) then Get(e, Key.TargetDigest).s
    else ""
  }

  function Cap(target: Option<Target>): int {
    if target.Some? then target.value.maxPages else OBSERVATION_MAX_PAGES
  }

  /** What the raw proof, when there is one, says; without one nothing is re-examined. */
  function RawProof(e: Value, target: Option<Target>): ProofChecks {
    if Get(e, Key.CanaryProof).JNull? then ProofChecks(true, true, true, true)
    else CheckProof(Get(e, Key.CanaryProof), ExpectedDigest(e, target), Cap(target))
  }

  /** The twenty-two checks, by name; every one that fails raises its own error. */
  predicate CanaryCheck(name: Key, e: Value, release: string, target: Option<Target>) {
    match name
    case JobRunCorrelated => IsTrue(Get(e, Key.JobRunCorrelated))
    case JobStatus => Get(e, Key.JobStatus) == JWord(Word.Dispatched)
    case RunStatus => Get(e, Key.RunStatus) == JWord(Word.Succeeded)
    case RunFresh => NumberWithin(Get(e, Key.RunFinishedAgeSeconds), CANARY_RUN_MAX_AGE_SECONDS)
    case OpenCandidateCount => Get(e, Key.OpenCandidateCount) == JInt(0)
    case PersistedCandidateCount =>
      Get(e, Key.PersistedCandidateCount).JInt? && Get(e, Key.PersistedCandidateCount).n > 0
    case ArtifactRecordCount => Get(e, Key.ArtifactRecordCount).JInt? && Get(e, Key.ArtifactRecordCount).n > 0
    case ArtifactRetrievable => IsTrue(Get(e, Key.ArtifactRetrievable))
    case EvidenceJsonl => IsTrue(Get(e, Key.EvidenceJsonl))
    case EvidenceBounded => IsTrue(Get(e, Key.EvidenceBounded))
    case EvidenceRedacted => IsTrue(Get(e, Key.EvidenceRedacted))
    case EvidenceCorrelationMatch => IsTrue(Get(e, Key.EvidenceCorrelationMatch))
    case EvidenceReleaseSha => ReleaseIs(Get(e, Key.EvidenceReleaseSha), release)
    case EvidenceTerminalEvent => IsTrue(Get(e, Key.EvidenceTerminalEvent))
    case ChildProcessStopped => IsFalse(Get(e, Key.ChildPidAlive))
    case ProfileUnlocked => IsFalse(Get(e, Key.ProfileLocked))
    case ExactTargetMatch =>
      && IsTrue(Get(e, Key.ExactTargetMatch)) && IsDigest(Get(e, Key.TargetDigest))
      && (target.Some? ==> Get(e, Key.TargetDigest) == JStr(target.value.digest))
    case CanaryProofValid => IsTrue(Get(e, Key.CanaryProofValid)) && RawProof(e, target).valid
    case OrderedPages => IsTrue(Get(e, Key.OrderedPages)) && RawProof(e, target).orderedPages
    case TerminalScan => IsTrue(Get(e, Key.TerminalScan)) && RawProof(e, target).terminalScan
    case LaterPagePersisted => IsTrue(Get(e, Key.LaterPagePersisted)) && RawProof(e, target).laterPage
    case EvidenceCanaryProofOrdered => IsTrue(Get(e, Key.EvidenceCanaryProofOrdered))
    case _ => false
  }

  datatype CanaryReport = CanaryReport(accepted: bool, release: string, observedAt: int, checks: map<Key, bool>,
                                       fingerprint: string, errors: seq<Key>)

  /** The base checks and those of the second version, in program order. */
  const BASE_ORDER: seq<Key> := [
    Key.JobRunCorrelated, Key.JobStatus, Key.RunStatus, Key.RunFresh, Key.OpenCandidateCount,
    Key.PersistedCandidateCount, Key.ArtifactRecordCount, Key.ArtifactRetrievable, Key.EvidenceJsonl,
    Key.EvidenceBounded, Key.EvidenceRedacted, Key.EvidenceCorrelationMatch, Key.EvidenceReleaseSha,
    Key.EvidenceTerminalEvent, Key.ChildProcessStopped, Key.ProfileUnlocked]
  const V2_ORDER: seq<Key> := [
    Key.ExactTargetMatch, Key.CanaryProofValid, Key.OrderedPages, Key.TerminalScan, Key.LaterPagePersisted,
    Key.EvidenceCanaryProofOrdered]

  /** The errors of some checks, in order: one of its own, named after it, for each that fails. */
  function ErrorsOf(names: seq<Key>, holds: Key -> bool, before: seq<Key>): seq<Key> {
    if names == [] then before
    else ErrorsOf(names[1..], holds, if holds(names[0]) || names[0] in before then before else before + [names[0]])
  }

  function CanaryCheckOf(e: Value, release: string, target: Option<Target>): Key -> bool {
    (name: Key) => CanaryCheck(name, e, release, target)
  }

  /** The second version goes on with the errors of the first. */
  function CanaryErrors(holds: Key -> bool): seq<Key> { ErrorsOf(V2_ORDER, holds, ErrorsOf(BASE_ORDER, holds, [])) }

  /** Accepted when nothing was noted. */
  function VerifyCanaryEvidenceV2(e: Value, release: string, now: int, target: Option<Target>): Option<CanaryReport> {
    if !IsReleaseSha(JStr(release)) then None
    else
      var holds := CanaryCheckOf(e, release, target);
      var checks := map name | name in CANARY_V2_CHECKS :: holds(name);
      var errors := CanaryErrors(holds);
      Some(CanaryReport(errors == [], release, now, checks, ExpectedDigest(e, target), errors))
  }

  lemma {:induction false} ErrorsOfMeaning(names: seq<Key>, holds: Key -> bool, before: seq<Key>)
    ensures ErrorsOf(names, holds, before) == [] <==> before == [] && forall name :: name in names ==> holds(name)
  {
    if names != [] {
      ErrorsOfMeaning(names[1..], holds, if holds(names[0]) || names[0] in before then before else before + [names[0]]);
      assert names == [names[0]] + names[1..];
    }
  }

  lemma BaseOrderCovers(name: Key)
    ensures name in BASE_ORDER <==> name in CANARY_CHECKS
  {
  }

  lemma V2OrderCovers(name: Key)
    ensures name in V2_ORDER <==> name in CANARY_V2_CHECKS - CANARY_CHECKS
  {
  }

  lemma OrdersCover(base: seq<Key>, v2: seq<Key>, checks: set<Key>, all: set<Key>, holds: Key -> bool)
    requires forall name :: name in base <==> name in checks
    requires forall name :: name in v2 <==> name in all - checks
    requires checks <= all
    ensures (forall name :: name in base ==> holds(name)) && (forall name :: name in v2 ==> holds(name)) <==>
            forall name :: name in all ==> holds(name)
  {
  }

  /** Nothing is noted exactly when all twenty-two checks hold. */
  lemma NoCanaryErrorsExactly(holds: Key -> bool)
    ensures CanaryErrors(holds) == [] <==> forall name :: name in CANARY_V2_CHECKS ==> holds(name)
  {
    ErrorsOfMeaning(BASE_ORDER, holds, []);
    ErrorsOfMeaning(V2_ORDER, holds, ErrorsOf(BASE_ORDER, holds, []));
    forall name: Key
      ensures name in BASE_ORDER <==> name in CANARY_CHECKS
      ensures name in V2_ORDER <==> name in CANARY_V2_CHECKS - CANARY_CHECKS
    {
      BaseOrderCovers(name);
      V2OrderCovers(name);
    }
    OrdersCover(BASE_ORDER, V2_ORDER, CANARY_CHECKS, CANARY_V2_CHECKS, holds);
  }

  function CanaryReceipt(r: CanaryReport, c: Clock, errors: seq<Value>): Value {
    JObj(map[
      Key.SchemaVersion := JInt(2),
      Key.Stage := JWord(Word.Canary),
      Key.Status := StatusWord(r.accepted),
      Key.ReleaseSha := JStr(r.release),
      Key.ObservedAt := JStr(c.render(r.observedAt)),
      Key.Checks := JObj(map name | name in r.checks :: JBool(r.checks[name])),
      Key.Errors := JList(errors),
      Key.TargetFingerprint := JStr(r.fingerprint)
    ])
  }

  /** An accepted canary report carries the exact target digest as its fingerprint, has every
      check true, and makes a valid stage. */
  lemma AcceptedCanary(e: Value, release: string, now: int, target: Option<Target>, c: Clock, r: CanaryReport)
    requires VerifyCanaryEvidenceV2(e, release, now, target) == Some(r)
    ensures r.release == release && r.observedAt == now
    ensures r.accepted <==> forall name | name in r.checks :: r.checks[name]
    ensures r.accepted ==> CanaryV2Content(CanaryReceipt(r, c, [])) && JStr(r.fingerprint) == Get(e, Key.TargetDigest)
  {
    NoCanaryErrorsExactly(CanaryCheckOf(e, release, target));
    assert r.checks.Keys == CANARY_V2_CHECKS;
    if r.accepted {
      assert CanaryCheck(Key.ExactTargetMatch, e, release, target);
      CanaryContent(r, c);
    }
  }

  lemma CanaryContent(r: CanaryReport, c: Clock)
    requires r.checks.Keys == CANARY_V2_CHECKS && forall name :: name in CANARY_V2_CHECKS ==> r.checks[name]
    requires IsDigest(JStr(r.fingerprint))
    ensures CanaryV2Content(CanaryReceipt(r, c, []))
  {
    var receipt := CanaryReceipt(r, c, []);
    assert receipt.fields.Keys == FINGERPRINTED_KEYS;
    CanaryChecksAllTrue(r, Get(receipt, Key.Checks));
  }

  lemma CanaryChecksAllTrue(r: CanaryReport, checks: Value)
    requires r.checks.Keys == CANARY_V2_CHECKS && forall name :: name in CANARY_V2_CHECKS ==> r.checks[name]
    requires checks == JObj(map name | name in r.checks :: JBool(r.checks[name]))
    ensures AllTrue(checks, CANARY_V2_CHECKS)
  {
    assert checks.fields.Keys == CANARY_V2_CHECKS;
  }

  lemma AcceptedHolds(e: Value, release: string, now: int, target: Option<Target>, name: Key)
    requires IsReleaseSha(JStr(release)) && name in CANARY_V2_CHECKS
    requires VerifyCanaryEvidenceV2(e, release, now, target).value.accepted
    ensures CanaryCheckOf(e, release, target)(name)
  {
    NoCanaryErrorsExactly(CanaryCheckOf(e, release, target));
  }

  lemma ValidProofMeaning(e: Value, release: string, target: Target)
    requires CanaryCheckOf(e, release, Some(target))(Key.CanaryProofValid) && !Get(e, Key.CanaryProof).JNull?
    ensures var proof := Get(e, Key.CanaryProof);
            && PagesInOrder(Get(proof, Key.PageSequence))
            && ScanIsTerminal(Get(proof, Key.TerminalOutcome), Get(proof, Key.PageSequence), target.maxPages)
            && Get(proof, Key.TargetDigest) == JStr(target.digest) && IsDigest(JStr(target.digest))
            && Get(proof, Key.MaxPagesPerKeyword) == JInt(target.maxPages)
  {
  }

  /** An accepted canary with a raw proof scanned pages 1 to n for some n of at least five,
      stopped at a terminal outcome under the authorised cap, and names the target. */
  lemma AcceptedProof(e: Value, release: string, now: int, target: Target)
    requires IsReleaseSha(JStr(release))
    requires VerifyCanaryEvidenceV2(e, release, now, Some(target)).value.accepted
    requires !Get(e, Key.CanaryProof).JNull?
    ensures var proof := Get(e, Key.CanaryProof);
            && PagesInOrder(Get(proof, Key.PageSequence))
            && ScanIsTerminal(Get(proof, Key.TerminalOutcome), Get(proof, Key.PageSequence), target.maxPages)
            && Get(proof, Key.TargetDigest) == JStr(target.digest) && IsDigest(JStr(target.digest))
            && Get(proof, Key.MaxPagesPerKeyword) == JInt(target.maxPages)
  {
    AcceptedHolds(e, release, now, Some(target), Key.CanaryProofValid);
    ValidProofMeaning(e, release, target);
  }
}
