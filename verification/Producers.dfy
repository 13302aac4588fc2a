/** The producers of the four stage receipts and the bundle verifier agree: what the
    producers accept, the verifier accepts. */
module Producers {
  import opened Text
  import opened PyValue
  import opened Receipts
  import RE = RuntimeEvidence
  import CE = CanaryEvidence
  import OC = ObservationCanary
  import SC = SupervisionCourse
  import ST = SupervisionTheorems
  import opened Bundle
  import opened BundleTheorems

  /** One observation: what the browser session answers, and what it is for. */
  datatype Observation = Observation(
    setup: OC.Setup, answers: seq<OC.PageAnswers>, cap: int, keyword: string, digest: string, at: int)
  {
    function Sighting(): OC.Sighting { OC.SightingOf(setup, answers, cap) }
  }

  /** One supervised interval: its clock and inputs, the report it came to, and when that was
      written. */
  datatype Interval = Interval(
    ticks: SC.Ticks, start: SC.Moment, duration: int, grace: int, evidence: Value, starts: bool, answer: Option<Value>,
    report: SC.SupervisionReport, at: int)

  /** The runs of the four producers in one acceptance run, and the rollback receipt. */
  datatype Run = Run(
    runtime: RE.RuntimeReport,
    observation: Observation,
    canary: CE.CanaryReport,
    interval: Interval,
    rollback: Value)

  function RuntimeStage(run: Run, c: RE.Clock): Value {
    RE.Receipt(run.runtime, c, [])
  }

  function ObservationStage(run: Run, release: string, c: RE.Clock): Value {
    var o := run.observation;
    OC.ObservationReceipt(o.Sighting(), o.keyword, o.digest, release, true, o.at, c)
  }

  function CanaryStage(run: Run, c: RE.Clock): Value {
    CE.CanaryReceipt(run.canary, c, [])
  }

  function SupervisedStage(run: Run, c: RE.Clock): Value {
    ST.SupervisedReceipt(run.interval.report, c, run.interval.at, [])
  }

  function BundleOf(runtime: Value, observation: Value, canary: Value, supervised: Value, rollback: Value): Value {
    JObj(map[Key.Receipts := JList([runtime, observation, canary, supervised]), Key.Rollback := rollback])
  }

  // ---------------------------------------------------------------------------
  // Four good receipts make a good bundle
  // ---------------------------------------------------------------------------

  /** A receipt of a stage with a good envelope, written at a time. */
  ghost predicate Stamped(t: Terms, r: Value, stage: Word, at: int) {
    StageName(r) == stage && EnvelopeOk(t, stage, r) && ReceiptTime(t, r) == Some(at)
  }

  lemma PartsOfBundle(r1: Value, r2: Value, r3: Value, r4: Value, rb: Value)
    ensures var evidence := BundleOf(r1, r2, r3, r4, rb);
            Get(evidence, Key.Receipts).JList? && ReceiptsOf(evidence) == [r1, r2, r3, r4] && RollbackOf(evidence) == rb
  {
  }

  /** Four stamped receipts in order, and a rollback after them. */
  lemma StampedList(t: Terms, evidence: Value, times: seq<int>)
    requires t.contract.V2? && Get(evidence, Key.Receipts).JList? && |ReceiptsOf(evidence)| == |times| == 4
    requires forall k :: 0 <= k < 4 ==> Stamped(t, ReceiptsOf(evidence)[k], Stages(V2)[k], times[k])
    requires forall k :: 0 <= k < 3 ==> times[k] <= times[k + 1]
    requires IsDigest(Fingerprint(ReceiptsOf(evidence)[1]))
    requires Fingerprint(ReceiptsOf(evidence)[1]) == Fingerprint(ReceiptsOf(evidence)[2])
    requires RollbackOf(evidence).JObj? && RollbackRehearsed(t, RollbackOf(evidence))
    requires ReceiptTime(t, RollbackOf(evidence)).Some? && times[3] <= ReceiptTime(t, RollbackOf(evidence)).value
    ensures AcceptableV2(t, evidence)
  {
    var rs := ReceiptsOf(evidence);
    assert Names(rs) == Stages(V2);
    forall k | 0 <= k < 3
      ensures TimeBefore(t, rs[k], rs[k + 1])
    {
      assert Stamped(t, rs[k], Stages(V2)[k], times[k]) && Stamped(t, rs[k + 1], Stages(V2)[k + 1], times[k + 1]);
    }
  }

  /** What holds of the four stages one by one holds of them by index. */
  lemma ByIndex(p: (Value, Word, int) -> bool, rs: seq<Value>, times: seq<int>)
    requires |rs| == |times| == 4
    requires p(rs[0], Word.Runtime, times[0]) && p(rs[1], Word.Observation, times[1])
    requires p(rs[2], Word.Canary, times[2]) && p(rs[3], Word.Supervised, times[3])
    ensures forall k :: 0 <= k < 4 ==> p(rs[k], Stages(V2)[k], times[k])
  {
    forall k | 0 <= k < 4
      ensures p(rs[k], Stages(V2)[k], times[k])
    {
      assert k == 0 || k == 1 || k == 2 || k == 3;
    }
  }

  lemma StampedFour(t: Terms, evidence: Value, times: seq<int>)
    requires t.contract.V2? && Get(evidence, Key.Receipts).JList? && |ReceiptsOf(evidence)| == |times| == 4
    requires Stamped(t, ReceiptsOf(evidence)[0], Word.Runtime, times[0])
    requires Stamped(t, ReceiptsOf(evidence)[1], Word.Observation, times[1])
    requires Stamped(t, ReceiptsOf(evidence)[2], Word.Canary, times[2])
    requires Stamped(t, ReceiptsOf(evidence)[3], Word.Supervised, times[3])
    ensures forall k :: 0 <= k < 4 ==> Stamped(t, ReceiptsOf(evidence)[k], Stages(V2)[k], times[k])
  {
    ByIndex((r, stage, at) => Stamped(t, r, stage, at), ReceiptsOf(evidence), times);
  }

  /** Four receipts and a rollback, wherever they are put together. */
  lemma StampedParts(t: Terms, evidence: Value, rs: seq<Value>, rb: Value, times: seq<int>)
    requires t.contract.V2? && |rs| == |times| == 4
    requires Get(evidence, Key.Receipts).JList? && ReceiptsOf(evidence) == rs && RollbackOf(evidence) == rb
    requires Stamped(t, rs[0], Word.Runtime, times[0]) && Stamped(t, rs[1], Word.Observation, times[1])
    requires Stamped(t, rs[2], Word.Canary, times[2]) && Stamped(t, rs[3], Word.Supervised, times[3])
    requires times[0] <= times[1] <= times[2] <= times[3]
    requires IsDigest(Fingerprint(rs[1])) && Fingerprint(rs[1]) == Fingerprint(rs[2])
    requires rb.JObj? && RollbackRehearsed(t, rb) && ReceiptTime(t, rb).Some? && times[3] <= ReceiptTime(t, rb).value
    ensures AcceptableV2(t, evidence)
  {
    StampedFour(t, evidence, times);
    StampedList(t, evidence, times);
  }

  lemma StampedBundle(t: Terms, r1: Value, r2: Value, r3: Value, r4: Value, rb: Value, t1: int, t2: int, t3: int,
                      t4: int)
    requires t.contract.V2?
    requires Stamped(t, r1, Word.Runtime, t1) && Stamped(t, r2, Word.Observation, t2)
    requires Stamped(t, r3, Word.Canary, t3) && Stamped(t, r4, Word.Supervised, t4)
    requires t1 <= t2 <= t3 <= t4
    requires IsDigest(Fingerprint(r2)) && Fingerprint(r2) == Fingerprint(r3)
    requires rb.JObj? && RollbackRehearsed(t, rb) && ReceiptTime(t, rb).Some? && t4 <= ReceiptTime(t, rb).value
    ensures AcceptableV2(t, BundleOf(r1, r2, r3, r4, rb))
  {
    PartsOfBundle(r1, r2, r3, r4, rb);
    StampedParts(t, BundleOf(r1, r2, r3, r4, rb), [r1, r2, r3, r4], rb, [t1, t2, t3, t4]);
  }

  /** With valid content every check is true as well. */
  lemma StampedBundleChecks(t: Terms, r1: Value, r2: Value, r3: Value, r4: Value, rb: Value, k: nat)
    requires t.contract.V2? && AcceptableV2(t, BundleOf(r1, r2, r3, r4, rb)) && k < 4
    requires ContentOk(t, Word.Runtime, r1) && ContentOk(t, Word.Observation, r2)
    requires ContentOk(t, Word.Canary, r3) && ContentOk(t, Word.Supervised, r4)
    ensures var evidence := BundleOf(r1, r2, r3, r4, rb);
            BundleErrors(t, evidence) == [] && EveryCheckTrue(t, evidence, k)
  {
    var evidence := BundleOf(r1, r2, r3, r4, rb);
    AcceptedV2Exactly(t, evidence);
    ChecksOfAcceptedV2(t, evidence, k);
    PartsOfBundle(r1, r2, r3, r4, rb);
  }

  /** The terms ask for the stage contents of the second version. */
  ghost predicate AppliesV2(t: Terms) { forall stage, r :: ContentOk(t, stage, r) <==> ContentOf(V2, stage, r) }

  /** The terms of the verifier of the second version, with its own rules. */
  function V2Terms(release: string, reference: int, maxAgeSeconds: nat, parse: string -> Option<int>): Terms {
    Terms(V2, RulesOf(V2), release, reference, maxAgeSeconds, parse)
  }

  lemma V2RulesApply(release: string, reference: int, maxAgeSeconds: nat, parse: string -> Option<int>)
    ensures AppliesV2(V2Terms(release, reference, maxAgeSeconds, parse))
  {
  }

  lemma RulesApply(t: Terms, r1: Value, r2: Value, r3: Value, r4: Value)
    requires AppliesV2(t)
    ensures ContentOk(t, Word.Runtime, r1) == RuntimeContent(r1)
    ensures ContentOk(t, Word.Observation, r2) == ObservationContent(r2)
    ensures ContentOk(t, Word.Canary, r3) == CanaryV2Content(r3)
    ensures ContentOk(t, Word.Supervised, r4) == SupervisedContent(r4)
  {
    assert ContentOf(V2, Word.Runtime, r1) == RuntimeContent(r1)
           && ContentOf(V2, Word.Observation, r2) == ObservationContent(r2);
    assert ContentOf(V2, Word.Canary, r3) == CanaryV2Content(r3)
           && ContentOf(V2, Word.Supervised, r4) == SupervisedContent(r4);
  }

  /** The check of stage number k, and the rollback check. */
  ghost predicate EveryCheckTrue(t: Terms, evidence: Value, k: nat)
    requires k < |Stages(t.contract)|
  {
    var scan := ScanOf(t, evidence);
    && Stages(t.contract)[k] in scan.checks && scan.checks[Stages(t.contract)[k]]
    && RollbackReceiptOk(t, scan.first, RollbackOf(evidence))
  }

  // ---------------------------------------------------------------------------
  // Each producer writes a good receipt
  // ---------------------------------------------------------------------------

  /** The verifier reads the producers' clock. */
  ghost predicate Matches(t: Terms, c: RE.Clock) {
    && t.contract.V2?
    && IsReleaseSha(JStr(t.release)) && RE.RoundTrips(c) && t.parse == c.parse
  }

  ghost predicate InWindow(t: Terms, at: int) {
    t.reference - at <= t.maxAgeSeconds * MICROS && at - t.reference <= FUTURE_SKEW_SECONDS * MICROS
  }

  /** The envelope fields decide, whatever else a receipt holds. */
  lemma Stamp(t: Terms, c: RE.Clock, r: Value, stage: Word, schema: int, at: int)
    requires Matches(t, c) && InWindow(t, at)
    requires Get(r, Key.SchemaVersion) == JInt(schema) && schema == (if stage == Word.Canary then 2 else 1)
    requires Get(r, Key.Stage) == JWord(stage) && Get(r, Key.Status) == JWord(Word.Accepted)
    requires Get(r, Key.ReleaseSha) == JStr(t.release) && Get(r, Key.ObservedAt) == JStr(c.render(at))
    ensures Stamped(t, r, stage, at)
  {
  }

  lemma RuntimeStageIsGood(run: Run, t: Terms, c: RE.Clock)
    requires Matches(t, c) && InWindow(t, run.runtime.observedAt)
    requires run.runtime.accepted && run.runtime.release == t.release
    ensures Stamped(t, RuntimeStage(run, c), Word.Runtime, run.runtime.observedAt)
  {
    Stamp(t, c, RuntimeStage(run, c), Word.Runtime, 1, run.runtime.observedAt);
  }

  /** The observation noted no error, and was not interrupted or only after its scan had ended well. */
  ghost predicate ObservationAccepted(o: Observation) {
    && !o.Sighting().failed && (o.Sighting().interrupted ==> OC.HarmlesslyCut(o.setup, o.answers, o.cap))
    && o.keyword == Strip(o.keyword) && IsDigest(JStr(o.digest))
  }

  lemma ObservationStamp(run: Run, t: Terms, c: RE.Clock)
    requires Matches(t, c) && InWindow(t, run.observation.at)
    ensures Stamped(t, ObservationStage(run, t.release, c), Word.Observation, run.observation.at)
    ensures Fingerprint(ObservationStage(run, t.release, c)) == JStr(run.observation.digest)
  {
    Stamp(t, c, ObservationStage(run, t.release, c), Word.Observation, 1, run.observation.at);
  }

  lemma ObservationStageIsGood(run: Run, t: Terms, c: RE.Clock)
    requires Matches(t, c) && InWindow(t, run.observation.at) && ObservationAccepted(run.observation)
    ensures Stamped(t, ObservationStage(run, t.release, c), Word.Observation, run.observation.at)
    ensures ObservationContent(ObservationStage(run, t.release, c))
    ensures Fingerprint(ObservationStage(run, t.release, c)) == JStr(run.observation.digest)
  {
    var o := run.observation;
    ObservationStamp(run, t, c);
    OC.AcceptedReceiptIsValidExactly(o.setup, o.answers, o.cap, o.keyword, o.digest, t.release, o.at, c);
  }

  lemma CanaryStageIsGood(run: Run, t: Terms, c: RE.Clock)
    requires Matches(t, c) && InWindow(t, run.canary.observedAt)
    requires run.canary.accepted && run.canary.release == t.release
    ensures Stamped(t, CanaryStage(run, c), Word.Canary, run.canary.observedAt)
    ensures Fingerprint(CanaryStage(run, c)) == JStr(run.canary.fingerprint)
  {
    Stamp(t, c, CanaryStage(run, c), Word.Canary, 2, run.canary.observedAt);
  }

  /** The interval came to an accepted report. */
  ghost predicate IntervalAccepted(i: Interval, release: string, c: RE.Clock) {
    && SC.SuperviseFrom(i.ticks, i.start, i.duration, i.grace, release, i.evidence, c, i.starts, i.answer).report
       == Some(i.report)
    && i.report.accepted
  }

  lemma SupervisedStamp(run: Run, t: Terms, c: RE.Clock)
    requires Matches(t, c) && InWindow(t, run.interval.at)
    requires run.interval.report.accepted && run.interval.report.release == t.release
    ensures Stamped(t, SupervisedStage(run, c), Word.Supervised, run.interval.at)
  {
    Stamp(t, c, SupervisedStage(run, c), Word.Supervised, 1, run.interval.at);
  }

  lemma SupervisedStageIsGood(run: Run, t: Terms, c: RE.Clock)
    requires Matches(t, c) && InWindow(t, run.interval.at) && IntervalAccepted(run.interval, t.release, c)
    ensures Stamped(t, SupervisedStage(run, c), Word.Supervised, run.interval.at)
    ensures SupervisedContent(SupervisedStage(run, c))
  {
    IntervalIsContent(run.interval, t.release, c);
    SupervisedStamp(run, t, c);
  }

  lemma IntervalIsContent(i: Interval, release: string, c: RE.Clock)
    requires IntervalAccepted(i, release, c)
    ensures i.report.release == release && SupervisedContent(ST.SupervisedReceipt(i.report, c, i.at, []))
  {
    ST.AcceptedSupervision(i.ticks, i.start, i.duration, i.grace, release, i.evidence, c, i.starts, i.answer, i.report,
                           i.at);
  }

  // ---------------------------------------------------------------------------
  // Producers satisfy the verifier
  // ---------------------------------------------------------------------------

  /** Every producer accepted, for the verifier's release and one target: the runtime and canary
      reports come from verifying some evidence, the observation noted no error and was not
      interrupted before its scan had ended well, and the supervised interval came to an accepted report. */
  ghost predicate AllAccepted(run: Run, t: Terms, c: RE.Clock, runtime: Value, canary: Value,
                              target: Option<CE.Target>)
  {
    && RE.VerifyRuntimeEvidence(runtime, t.release, c, run.runtime.observedAt) == Some(run.runtime)
       && run.runtime.accepted
    && ObservationAccepted(run.observation)
    && CE.VerifyCanaryEvidenceV2(canary, t.release, run.canary.observedAt, target) == Some(run.canary)
       && run.canary.accepted
    && run.canary.fingerprint == run.observation.digest
    && IntervalAccepted(run.interval, t.release, c)
  }

  /** The receipts were written in stage order, none is too old and none is in the future;
      the rollback was rehearsed after the supervision. */
  ghost predicate InTime(run: Run, t: Terms) {
    && InWindow(t, run.runtime.observedAt) && InWindow(t, run.interval.at)
    && run.runtime.observedAt <= run.observation.at <= run.canary.observedAt <= run.interval.at
    && run.rollback.JObj? && RollbackRehearsed(t, run.rollback)
    && ReceiptTime(t, run.rollback).Some? && run.interval.at <= ReceiptTime(t, run.rollback).value
  }

  /** The bundle of any accepted run is accepted, and every one of its checks is true. */
  lemma ProducersSatisfyVerifier(run: Run, t: Terms, c: RE.Clock, runtime: Value, canary: Value,
                                 target: Option<CE.Target>, k: nat)
    requires Matches(t, c) && AllAccepted(run, t, c, runtime, canary, target) && InTime(run, t) && k < 4
    requires AppliesV2(t)
    ensures var evidence := BundleOf(RuntimeStage(run, c), ObservationStage(run, t.release, c), CanaryStage(run, c),
                                     SupervisedStage(run, c), run.rollback);
            BundleErrors(t, evidence) == [] && EveryCheckTrue(t, evidence, k)
  {
    RE.AcceptedChecks(runtime, t.release, c, run.runtime.observedAt, run.runtime);
    CE.AcceptedCanary(canary, t.release, run.canary.observedAt, target, c, run.canary);
    RuntimeStageIsGood(run, t, c);
    ObservationStageIsGood(run, t, c);
    CanaryStageIsGood(run, t, c);
    SupervisedStageIsGood(run, t, c);
    var r1, r2, r3, r4 := RuntimeStage(run, c), ObservationStage(run, t.release, c), CanaryStage(run, c),
      SupervisedStage(run, c);
    StampedBundle(t, r1, r2, r3, r4, run.rollback,
                  run.runtime.observedAt, run.observation.at, run.canary.observedAt, run.interval.at);
    RulesApply(t, r1, r2, r3, r4);
    StampedBundleChecks(t, r1, r2, r3, r4, run.rollback, k);
  }

  /** The same for the verifier as it is, with its own rules and the producers' clock. */
  lemma ProgramAcceptsProducers(
    run: Run, release: string, reference: int, maxAgeSeconds: nat, c: RE.Clock, runtime: Value, canary: Value,
    target: Option<CE.Target>, k: nat)
    requires IsReleaseSha(JStr(release)) && RE.RoundTrips(c) && k < 4
    requires var t := V2Terms(release, reference, maxAgeSeconds, c.parse);
             AllAccepted(run, t, c, runtime, canary, target) && InTime(run, t)
    ensures var t := V2Terms(release, reference, maxAgeSeconds, c.parse);
            var evidence := BundleOf(RuntimeStage(run, c), ObservationStage(run, release, c), CanaryStage(run, c),
                                     SupervisedStage(run, c), run.rollback);
            BundleErrors(t, evidence) == [] && EveryCheckTrue(t, evidence, k)
  {
    V2RulesApply(release, reference, maxAgeSeconds, c.parse);
    ProducersSatisfyVerifier(run, V2Terms(release, reference, maxAgeSeconds, c.parse), c, runtime, canary, target, k);
  }

  // ---------------------------------------------------------------------------
  // Bundles without content
  // ---------------------------------------------------------------------------

  /** A receipt that names its stage and nothing it found. */
  function HollowReceipt(t: Terms, stage: Word, text: string, digest: string): Value {
    JObj(map[
      Key.Stage := JWord(stage),
      Key.SchemaVersion := JInt(if stage == Word.Canary then 2 else 1),
      Key.Status := JWord(Word.Accepted),
      Key.ReleaseSha := JStr(t.release),
      Key.ObservedAt := JStr(text),
      Key.TargetFingerprint := JStr(digest)
    ])
  }

  function HollowBundle(t: Terms, text: string, digest: string, rollback: Value): Value {
    BundleOf(HollowReceipt(t, Word.Runtime, text, digest), HollowReceipt(t, Word.Observation, text, digest),
             HollowReceipt(t, Word.Canary, text, digest), HollowReceipt(t, Word.Supervised, text, digest), rollback)
  }

  lemma HollowIsStamped(t: Terms, stage: Word, text: string, digest: string)
    requires t.contract.V2? && IsReleaseSha(JStr(t.release)) && Strip(text) != "" && t.parse(text) == Some(t.reference)
    ensures Stamped(t, HollowReceipt(t, stage, text, digest), stage, t.reference)
  {
  }

  /** Every content rule asks for an empty error list. */
  ghost predicate AsksForErrors(t: Terms) {
    forall stage, r :: ContentOk(t, stage, r) ==> IsEmptyList(Get(r, Key.Errors))
  }

  lemma ContentsAskForErrors(r: Value)
    requires RuntimeContent(r) || CanaryV2Content(r) || SupervisedContent(r) || ObservationContent(r)
    ensures IsEmptyList(Get(r, Key.Errors))
  {
  }

  /** The contents of the second version do. */
  lemma V2AsksForErrors(t: Terms)
    requires AppliesV2(t)
    ensures AsksForErrors(t)
  {
    forall stage, r | ContentOk(t, stage, r)
      ensures IsEmptyList(Get(r, Key.Errors))
    {
      assert ContentOf(V2, stage, r);
      ContentsAskForErrors(r);
    }
  }

  lemma HollowIsAcceptable(t: Terms, text: string, digest: string, rollback: Value)
    requires t.contract.V2? && IsReleaseSha(JStr(t.release)) && IsDigest(JStr(digest))
    requires Strip(text) != "" && t.parse(text) == Some(t.reference)
    requires rollback.JObj? && RollbackRehearsed(t, rollback)
    requires ReceiptTime(t, rollback).Some? && t.reference <= ReceiptTime(t, rollback).value
    ensures AcceptableV2(t, HollowBundle(t, text, digest, rollback))
  {
    HollowIsStamped(t, Word.Runtime, text, digest);
    HollowIsStamped(t, Word.Observation, text, digest);
    HollowIsStamped(t, Word.Canary, text, digest);
    HollowIsStamped(t, Word.Supervised, text, digest);
    var at := t.reference;
    StampedBundle(t, HollowReceipt(t, Word.Runtime, text, digest), HollowReceipt(t, Word.Observation, text, digest),
                  HollowReceipt(t, Word.Canary, text, digest), HollowReceipt(t, Word.Supervised, text, digest),
                  rollback, at, at, at, at);
  }

  lemma ChecksFollowContent(t: Terms, evidence: Value, k: nat)
    requires t.contract.V2? && AcceptableV2(t, evidence) && k < 4
    requires !ContentOk(t, Stages(V2)[k], ReceiptsOf(evidence)[k])
    ensures BundleErrors(t, evidence) == [] && StageCheckFails(t, evidence, k)
  {
    AcceptedV2Exactly(t, evidence);
    ChecksOfAcceptedV2(t, evidence, k);
  }

  ghost predicate StageCheckFails(t: Terms, evidence: Value, k: nat)
    requires k < 4
  {
    var checks := ScanOf(t, evidence).checks;
    Stages(V2)[k] in checks && !checks[Stages(V2)[k]]
  }

  lemma HollowHasNoErrors(t: Terms, stage: Word, text: string, digest: string)
    ensures Get(HollowReceipt(t, stage, text, digest), Key.Errors) == JNull
  {
  }

  lemma HollowAt(t: Terms, text: string, digest: string, rollback: Value, k: nat)
    requires k < 4
    ensures |ReceiptsOf(HollowBundle(t, text, digest, rollback))| == 4
    ensures Get(ReceiptsOf(HollowBundle(t, text, digest, rollback))[k], Key.Errors) == JNull
  {
    var r1, r2 := HollowReceipt(t, Word.Runtime, text, digest), HollowReceipt(t, Word.Observation, text, digest);
    var r3, r4 := HollowReceipt(t, Word.Canary, text, digest), HollowReceipt(t, Word.Supervised, text, digest);
    PartsOfBundle(r1, r2, r3, r4, rollback);
    var stage := Stages(V2)[k];
    assert [r1, r2, r3, r4][k] == HollowReceipt(t, stage, text, digest);
    HollowHasNoErrors(t, stage, text, digest);
  }

  /** Receipts that hold nothing but their headers, and a rehearsed rollback, make an accepted
      bundle with every stage check false. */
  lemma HollowBundleIsAccepted(t: Terms, text: string, digest: string, rollback: Value, k: nat)
    requires t.contract.V2? && AppliesV2(t)
    requires IsReleaseSha(JStr(t.release)) && IsDigest(JStr(digest)) && k < 4
    requires Strip(text) != "" && t.parse(text) == Some(t.reference)
    requires rollback.JObj? && RollbackRehearsed(t, rollback)
    requires ReceiptTime(t, rollback).Some? && t.reference <= ReceiptTime(t, rollback).value
    ensures BundleErrors(t, HollowBundle(t, text, digest, rollback)) == []
    ensures StageCheckFails(t, HollowBundle(t, text, digest, rollback), k)
  {
    V2AsksForErrors(t);
    HollowIsAcceptable(t, text, digest, rollback);
    HollowAt(t, text, digest, rollback, k);
    ChecksFollowContent(t, HollowBundle(t, text, digest, rollback), k);
  }
}
