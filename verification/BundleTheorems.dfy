/** What an accepted bundle guarantees, and what it does not. */
module BundleTheorems {
  import opened Text
  import opened PyValue
  import opened Receipts
  import opened Bundle

  /** The stage word of a receipt; a receipt without one reads as a word no stage has. */
  function StageName(r: Value): Word {
    if Get(r, Key.Stage).JWord? then Get(r, Key.Stage).w else Word.Off
  }

  function Names(receipts: seq<Value>): seq<Word> {
    seq(|receipts|, i requires 0 <= i < |receipts| => StageName(receipts[i]))
  }

  ghost predicate DistinctStages(receipts: seq<Value>) {
    forall i, j :: 0 <= i < j < |receipts| ==> StageName(receipts[i]) != StageName(receipts[j])
  }

  /** A receipt that raises no error. */
  ghost predicate Faultless(t: Terms, r: Value) {
    EnvelopeOk(t, StageName(r), r) && (t.contract.V1? ==> ContentOk(t, StageName(r), r))
  }

  lemma FaultlessReceipt(t: Terms, r: Value, before: seq<Fault>)
    ensures ReceiptErrors(t, StageName(r), r, before) == [] <==> before == [] && Faultless(t, r)
  {
  }

  /** Every receipt has a known stage, each stage comes once, and each receipt is faultless. */
  ghost predicate CleanList(t: Terms, receipts: seq<Value>) {
    && (forall i :: 0 <= i < |receipts| ==> Known(t, receipts[i]))
    && DistinctStages(receipts)
    && (forall i :: 0 <= i < |receipts| ==> Faultless(t, receipts[i]))
  }

  /** What the scan of a list with known stages leaves behind. */
  ghost predicate ScanReads(t: Terms, receipts: seq<Value>, scan: Scan) {
    && scan.order == Names(receipts)
    && (forall i :: 0 <= i < |receipts| ==> Reads(t, receipts[i], scan))
    && (forall s :: s in scan.first ==> s in Names(receipts))
  }

  ghost predicate Reads(t: Terms, r: Value, scan: Scan) {
    var name := StageName(r);
    && name in scan.first && scan.first[name] == r
    && name in scan.checks && (scan.checks[name] <==> EnvelopeOk(t, name, r) && ContentOk(t, name, r))
  }

  lemma NamesOfPrefix(receipts: seq<Value>)
    requires receipts != []
    ensures Names(receipts) == Names(receipts[..|receipts| - 1]) + [StageName(receipts[|receipts| - 1])]
  {
  }

  lemma DistinctStep(receipts: seq<Value>)
    requires receipts != []
    ensures DistinctStages(receipts) <==>
              var n := |receipts| - 1;
              DistinctStages(receipts[..n]) && StageName(receipts[n]) !in Names(receipts[..n])
  {
    var n := |receipts| - 1;
    assert forall i :: 0 <= i < n ==> Names(receipts[..n])[i] == StageName(receipts[i]);
  }

  /** A receipt that may follow a clean list. */
  ghost predicate Continues(t: Terms, receipts: seq<Value>, r: Value) {
    Known(t, r) && StageName(r) !in Names(receipts) && Faultless(t, r)
  }

  lemma CleanStep(t: Terms, receipts: seq<Value>)
    requires receipts != []
    ensures CleanList(t, receipts) <==>
              var n := |receipts| - 1;
              CleanList(t, receipts[..n]) && Continues(t, receipts[..n], receipts[n])
  {
    DistinctStep(receipts);
    var n := |receipts| - 1;
    assert forall i :: 0 <= i < n ==> receipts[..n][i] == receipts[i];
  }

  /** The scan records no error exactly for a clean list, and then reads off its receipts. */
  lemma {:induction false} ScanOfCleanList(t: Terms, receipts: seq<Value>, errors: seq<Fault>)
    ensures ScanAll(t, receipts, errors).errors == [] <==> errors == [] && CleanList(t, receipts)
    ensures CleanList(t, receipts) ==> ScanReads(t, receipts, ScanAll(t, receipts, errors))
  {
    if receipts != [] {
      var n := |receipts| - 1;
      var before, r := ScanAll(t, receipts[..n], errors), receipts[n];
      ScanOfCleanList(t, receipts[..n], errors);
      CleanStep(t, receipts);
      assert ScanAll(t, receipts, errors) == ScanOne(t, before, r);
      ErrorsStay(t, before, r);
      assert receipts[..n] + [r] == receipts;
      if CleanList(t, receipts[..n]) {
        ScanStep(t, receipts[..n], before, r);
      }
    }
  }

  lemma ErrorsStay(t: Terms, before: Scan, r: Value)
    ensures before.errors != [] ==> ScanOne(t, before, r).errors != []
  {
    if Known(t, r) {
      FaultlessReceipt(t, r, before.errors);
    }
  }

  /** One more receipt after a clean list. */
  lemma ScanStep(t: Terms, receipts: seq<Value>, before: Scan, r: Value)
    requires ScanReads(t, receipts, before)
    ensures var after := ScanOne(t, before, r);
            && (before.errors == [] ==> (after.errors == [] <==> Continues(t, receipts, r)))
            && (Continues(t, receipts, r) ==> ScanReads(t, receipts + [r], after))
  {
    var after := ScanOne(t, before, r);
    FaultlessReceipt(t, r, before.errors);
    if StageName(r) in Names(receipts) {
      var i :| 0 <= i < |receipts| && Names(receipts)[i] == StageName(r);
      assert Reads(t, receipts[i], before);
    }
    if Known(t, r) && StageName(r) !in Names(receipts) {
      NamesOfPrefix(receipts + [r]);
      assert (receipts + [r])[..|receipts|] == receipts;
      forall i | 0 <= i < |receipts|
        ensures Reads(t, receipts[i], after)
      {
        assert Reads(t, receipts[i], before);
        assert Names(receipts)[i] == StageName(receipts[i]);
      }
      assert Reads(t, r, after);
    }
  }

  lemma FreshIsTimed(t: Terms, r: Value)
    requires ReceiptAgeOf(t, r) == Fresh
    ensures ReceiptTime(t, r).Some?
  {
  }

  /** The rollback receipt, complete and rehearsed. */
  ghost predicate RollbackRehearsed(t: Terms, rb: Value) {
    && t.rules.rollbackShape(rb) && Get(rb, Key.Status) == JWord(Word.Rehearsed) && ReleaseOk(t, rb)
    && ReceiptAgeOf(t, rb) == Fresh && t.rules.rollbackChecks(rb)
  }

  lemma RollbackFaultless(t: Terms, rb: Value, before: seq<Fault>)
    ensures RollbackErrors(t, rb, before) == [] <==> before == [] && rb.JObj? && RollbackRehearsed(t, rb)
  {
  }

  // ---------------------------------------------------------------------------
  // Second version
  // ---------------------------------------------------------------------------

  function ReceiptsOf(evidence: Value): seq<Value> { Items(Get(evidence, Key.Receipts)) }
  function RollbackOf(evidence: Value): Value { Get(evidence, Key.Rollback) }
  function Fingerprint(r: Value): Value { Get(r, Key.TargetFingerprint) }

  /** Exactly the four stages in order, each with a good envelope, in time order, observation
      and canary about one target, and a rehearsed rollback no earlier than the supervision. */
  ghost predicate AcceptableV2(t: Terms, evidence: Value) {
    && Get(evidence, Key.Receipts).JList? && |ReceiptsOf(evidence)| == 4
    && var rs := ReceiptsOf(evidence);
    && Names(rs) == Stages(V2)
    && (forall k :: 0 <= k < 4 ==> EnvelopeOk(t, StageName(rs[k]), rs[k]))
    && (forall k :: 0 <= k < 3 ==> TimeBefore(t, rs[k], rs[k + 1]))
    && IsDigest(Fingerprint(rs[1])) && Fingerprint(rs[1]) == Fingerprint(rs[2])
    && RollbackOf(evidence).JObj? && RollbackRehearsed(t, RollbackOf(evidence))
    && TimeBefore(t, rs[3], RollbackOf(evidence))
  }

  ghost predicate TimeBefore(t: Terms, a: Value, b: Value) {
    ReceiptTime(t, a).Some? && ReceiptTime(t, b).Some? && ReceiptTime(t, a).value <= ReceiptTime(t, b).value
  }

  /** A four-stage list in order is clean exactly when its envelopes are good. */
  lemma FourInOrder(t: Terms, rs: seq<Value>)
    requires t.contract.V2? && |rs| == 4 && Names(rs) == Stages(V2)
    ensures CleanList(t, rs) <==> forall k :: 0 <= k < 4 ==> EnvelopeOk(t, StageName(rs[k]), rs[k])
  {
    forall k | 0 <= k < 4
      ensures Known(t, rs[k]) && StageName(rs[k]) == Stages(V2)[k]
    {
      assert Names(rs)[k] == Stages(V2)[k];
    }
    forall k | 0 <= k < 4
      ensures Faultless(t, rs[k]) <==> EnvelopeOk(t, StageName(rs[k]), rs[k])
    {
    }
    assert DistinctStages(rs);
  }

  /** Reading a four-stage scan by stage name. */
  lemma FourByName(t: Terms, rs: seq<Value>, scan: Scan)
    requires t.contract.V2? && |rs| == 4 && Names(rs) == Stages(V2) && ScanReads(t, rs, scan)
    ensures scan.order == Stages(V2) && AllPresent(t, scan.first)
    ensures forall k :: 0 <= k < 4 ==> Stages(V2)[k] in scan.first && scan.first[Stages(V2)[k]] == rs[k]
  {
    forall k | 0 <= k < 4
      ensures Stages(V2)[k] in scan.first && scan.first[Stages(V2)[k]] == rs[k]
    {
      assert Names(rs)[k] == Stages(V2)[k];
    }
  }

  lemma TimesOfFour(t: Terms, rs: seq<Value>, first: map<Word, Value>)
    requires t.contract.V2? && |rs| == 4
    requires forall k :: 0 <= k < 4 ==> Stages(V2)[k] in first && first[Stages(V2)[k]] == rs[k]
    requires forall k :: 0 <= k < 4 ==> ReceiptTime(t, rs[k]).Some?
    ensures TimesDecrease(t, first) <==> !forall k :: 0 <= k < 3 ==> TimeBefore(t, rs[k], rs[k + 1])
  {
    assert forall k :: 0 <= k < 4 ==> TimeIn(t, first, Stages(V2)[k]) == ReceiptTime(t, rs[k]);
    assert forall s | s in Stages(V2) :: TimeIn(t, first, s).Some?;
    if k :| 0 <= k < 3 && !TimeBefore(t, rs[k], rs[k + 1]) {
      assert TimeIn(t, first, Stages(V2)[k]).value > TimeIn(t, first, Stages(V2)[k + 1]).value;
    }
  }

  /** Nothing is reported exactly when none of the bundle's demands fails. */
  lemma NothingReported(t: Terms, evidence: Value)
    ensures var rs := ReceiptsOf(evidence);
            var scan := ScanOf(t, evidence);
            var rb := RollbackOf(evidence);
            BundleErrors(t, evidence) == [] <==>
              && Get(evidence, Key.Receipts).JList? && (t.contract.V2? ==> |rs| == 4)
              && CleanList(t, rs)
              && (t.contract.V2? ==> scan.order == Stages(V2) && FingerprintsAgree(scan.first))
              && AllPresent(t, scan.first)
              && !TimesDecrease(t, scan.first)
              && rb.JObj? && RollbackRehearsed(t, rb)
              && !RollbackTooEarly(t, scan.first, rb)
  {
    var scan := ScanOf(t, evidence);
    ScanOfCleanList(t, ReceiptsOf(evidence), ListErrors(t, Get(evidence, Key.Receipts)));
    RollbackFaultless(t, RollbackOf(evidence), StageErrors(t, scan));
  }

  lemma ReadsOf(t: Terms, evidence: Value)
    requires CleanList(t, ReceiptsOf(evidence))
    ensures ScanReads(t, ReceiptsOf(evidence), ScanOf(t, evidence))
  {
    ScanOfCleanList(t, ReceiptsOf(evidence), ListErrors(t, Get(evidence, Key.Receipts)));
  }

  /** The second version accepts exactly the acceptable bundles, for any evidence. */
  lemma AcceptedV2Exactly(t: Terms, evidence: Value)
    requires t.contract.V2?
    ensures BundleErrors(t, evidence) == [] <==> AcceptableV2(t, evidence)
  {
    var rs := ReceiptsOf(evidence);
    NothingReported(t, evidence);
    if CleanList(t, rs) {
      ReadsOf(t, evidence);
    }
    if |rs| == 4 && Names(rs) == Stages(V2) {
      FourInOrder(t, rs);
      if CleanList(t, rs) {
        FourReadOff(t, evidence);
      }
    }
  }

  /** The cross-receipt demands, read off a clean list of the four stages. */
  lemma FourReadOff(t: Terms, evidence: Value)
    requires t.contract.V2? && |ReceiptsOf(evidence)| == 4 && Names(ReceiptsOf(evidence)) == Stages(V2)
    requires CleanList(t, ReceiptsOf(evidence))
    ensures var rs := ReceiptsOf(evidence);
            var scan := ScanOf(t, evidence);
            var rb := RollbackOf(evidence);
            && scan.order == Stages(V2) && AllPresent(t, scan.first)
            && (TimesDecrease(t, scan.first) <==> !forall k :: 0 <= k < 3 ==> TimeBefore(t, rs[k], rs[k + 1]))
            && (FingerprintsAgree(scan.first) <==>
                IsDigest(Fingerprint(rs[1])) && Fingerprint(rs[1]) == Fingerprint(rs[2]))
            && (rb.JObj? && RollbackRehearsed(t, rb) ==>
                (RollbackTooEarly(t, scan.first, rb) <==> !TimeBefore(t, rs[3], rb)))
  {
    var rs := ReceiptsOf(evidence);
    var scan := ScanOf(t, evidence);
    ReadsOf(t, evidence);
    FourByName(t, rs, scan);
    forall k | 0 <= k < 4
      ensures ReceiptTime(t, rs[k]).Some?
    {
      FreshIsTimed(t, rs[k]);
    }
    TimesOfFour(t, rs, scan.first);
    LaterReadOff(t, rs, scan.first, RollbackOf(evidence));
  }

  /** Fingerprints and the rollback's time, by stage. */
  lemma LaterReadOff(t: Terms, rs: seq<Value>, first: map<Word, Value>, rb: Value)
    requires |rs| == 4 && ReceiptTime(t, rs[3]).Some?
    requires forall k :: 0 <= k < 4 ==> Stages(V2)[k] in first && first[Stages(V2)[k]] == rs[k]
    ensures FingerprintsAgree(first) <==> IsDigest(Fingerprint(rs[1])) && Fingerprint(rs[1]) == Fingerprint(rs[2])
    ensures rb.JObj? && RollbackRehearsed(t, rb) ==> (RollbackTooEarly(t, first, rb) <==> !TimeBefore(t, rs[3], rb))
  {
    assert first[Stages(V2)[1]] == rs[1] && first[Stages(V2)[2]] == rs[2] && first[Stages(V2)[3]] == rs[3];
    if rb.JObj? && RollbackRehearsed(t, rb) {
      FreshIsTimed(t, rb);
    }
  }

  /** The checks of an accepted bundle: a stage's check tells whether its content is valid. */
  lemma ChecksOfAcceptedV2(t: Terms, evidence: Value, k: nat)
    requires t.contract.V2? && BundleErrors(t, evidence) == [] && k < 4
    ensures AcceptableV2(t, evidence)
    ensures var checks := ScanOf(t, evidence).checks;
            Stages(V2)[k] in checks && (checks[Stages(V2)[k]] <==> ContentOk(t, Stages(V2)[k], ReceiptsOf(evidence)[k]))
    ensures RollbackReceiptOk(t, ScanOf(t, evidence).first, RollbackOf(evidence))
  {
    AcceptedV2Exactly(t, evidence);
    NothingReported(t, evidence);
    var rs := ReceiptsOf(evidence);
    ReadsOf(t, evidence);
    assert Reads(t, rs[k], ScanOf(t, evidence));
    assert Names(rs)[k] == Stages(V2)[k];
  }

  /** The observation receipt without its checks. */
  function Stripped(r: Value): Value
    requires r.JObj?
  {
    JObj(r.fields[Key.Checks := JNull])
  }

  lemma StrippedFields(r: Value, key: Key)
    requires r.JObj? && key != Key.Checks
    ensures Get(Stripped(r), key) == Get(r, key)
  {
  }

  lemma StrippedNames(t: Terms, r: Value)
    requires r.JObj?
    ensures StageName(Stripped(r)) == StageName(r)
    ensures SchemaOk(t, StageName(r), Stripped(r)) == SchemaOk(t, StageName(r), r)
    ensures ReleaseOk(t, Stripped(r)) == ReleaseOk(t, r)
  {
    StrippedFields(r, Key.Stage);
    StrippedFields(r, Key.SchemaVersion);
    StrippedFields(r, Key.ReleaseSha);
  }

  lemma StrippedEnvelope(t: Terms, r: Value)
    requires r.JObj?
    ensures StageName(Stripped(r)) == StageName(r)
    ensures SchemaOk(t, StageName(r), Stripped(r)) == SchemaOk(t, StageName(r), r)
    ensures ReleaseOk(t, Stripped(r)) == ReleaseOk(t, r)
    ensures ReceiptTime(t, Stripped(r)) == ReceiptTime(t, r)
    ensures Get(Stripped(r), Key.Status) == Get(r, Key.Status)
    ensures Fingerprint(Stripped(r)) == Fingerprint(r)
  {
    StrippedNames(t, r);
    StrippedFields(r, Key.Status);
    StrippedFields(r, Key.ObservedAt);
    StrippedFields(r, Key.TargetFingerprint);
  }

  lemma StrippedContent(t: Terms, r: Value)
    requires r.JObj? && t.rules == RulesOf(V2)
    ensures !ContentOk(t, Word.Observation, Stripped(r))
  {
    assert Get(Stripped(r), Key.Checks) == JNull;
    assert !ObservationContent(Stripped(r));
  }

  /** The bundle with its second receipt stripped of its checks. */
  function Tampered(evidence: Value): Value
    requires |ReceiptsOf(evidence)| == 4 && ReceiptsOf(evidence)[1].JObj?
  {
    var rs := ReceiptsOf(evidence);
    JObj(map[Key.Receipts := JList([rs[0], Stripped(rs[1]), rs[2], rs[3]]), Key.Rollback := RollbackOf(evidence)])
  }

  /** What an acceptable list needs of each receipt. */
  ghost predicate SameEnvelope(t: Terms, a: Value, b: Value) {
    && StageName(a) == StageName(b) && ReceiptTime(t, a) == ReceiptTime(t, b) && Fingerprint(a) == Fingerprint(b)
    && (EnvelopeOk(t, StageName(a), a) ==> EnvelopeOk(t, StageName(b), b))
  }

  lemma TamperedReceipts(t: Terms, evidence: Value, k: nat)
    requires t.contract.V2? && |ReceiptsOf(evidence)| == 4 && ReceiptsOf(evidence)[1].JObj? && k < 4
    ensures |ReceiptsOf(Tampered(evidence))| == 4
    ensures SameEnvelope(t, ReceiptsOf(evidence)[k], ReceiptsOf(Tampered(evidence))[k])
  {
    var rs := ReceiptsOf(evidence);
    StrippedEnvelope(t, rs[1]);
    assert ReceiptsOf(Tampered(evidence)) == [rs[0], Stripped(rs[1]), rs[2], rs[3]];
  }

  /** A list of receipts with the same envelopes is as acceptable. */
  lemma SameEnvelopesAcceptable(t: Terms, evidence: Value, other: Value)
    requires t.contract.V2? && AcceptableV2(t, evidence)
    requires Get(other, Key.Receipts).JList? && |ReceiptsOf(other)| == 4 && RollbackOf(other) == RollbackOf(evidence)
    requires forall k :: 0 <= k < 4 ==> SameEnvelope(t, ReceiptsOf(evidence)[k], ReceiptsOf(other)[k])
    ensures AcceptableV2(t, other)
  {
    var rs, rs' := ReceiptsOf(evidence), ReceiptsOf(other);
    assert forall k :: 0 <= k < 4 ==> SameEnvelope(t, rs[k], rs'[k]);
    assert Names(rs') == Names(rs);
    forall k | 0 <= k < 3
      ensures TimeBefore(t, rs'[k], rs'[k + 1])
    {
      assert TimeBefore(t, rs[k], rs[k + 1]);
      assert SameEnvelope(t, rs[k + 1], rs'[k + 1]);
    }
  }

  lemma TamperedIsAcceptable(t: Terms, evidence: Value)
    requires t.contract.V2? && AcceptableV2(t, evidence) && ReceiptsOf(evidence)[1].JObj?
    ensures AcceptableV2(t, Tampered(evidence))
  {
    forall k | 0 <= k < 4
      ensures |ReceiptsOf(Tampered(evidence))| == 4
      ensures SameEnvelope(t, ReceiptsOf(evidence)[k], ReceiptsOf(Tampered(evidence))[k])
    {
      TamperedReceipts(t, evidence, k);
    }
    TamperedReceipts(t, evidence, 0);
    SameEnvelopesAcceptable(t, evidence, Tampered(evidence));
  }

  lemma SecondIsObservation(t: Terms, evidence: Value)
    requires AcceptableV2(t, evidence)
    ensures ReceiptsOf(evidence)[1].JObj? && StageName(ReceiptsOf(evidence)[1]) == Word.Observation
  {
    assert Names(ReceiptsOf(evidence))[1] == Stages(V2)[1];
  }

  lemma TamperedChecks(t: Terms, evidence: Value)
    requires t.contract.V2? && AcceptableV2(t, evidence) && ReceiptsOf(evidence)[1].JObj?
    requires !ContentOk(t, Word.Observation, Stripped(ReceiptsOf(evidence)[1]))
    ensures BundleErrors(t, Tampered(evidence)) == []
    ensures ObservationCheckFails(t, Tampered(evidence))
  {
    TamperedIsAcceptable(t, evidence);
    AcceptedV2Exactly(t, Tampered(evidence));
    ChecksOfAcceptedV2(t, Tampered(evidence), 1);
    assert ReceiptsOf(Tampered(evidence))[1] == Stripped(ReceiptsOf(evidence)[1]);
  }

  ghost predicate ObservationCheckFails(t: Terms, evidence: Value) {
    var checks := ScanOf(t, evidence).checks;
    Word.Observation in checks && !checks[Word.Observation]
  }

  /** The second version does not enforce stage content: take the checks out of the
      observation receipt of any accepted bundle and the bundle is still accepted, with
      its observation check false. */
  lemma ContentIsNotEnforced(t: Terms, evidence: Value)
    requires t.contract.V2? && t.rules == RulesOf(V2) && BundleErrors(t, evidence) == []
    ensures |ReceiptsOf(evidence)| == 4 && ReceiptsOf(evidence)[1].JObj?
    ensures BundleErrors(t, Tampered(evidence)) == []
    ensures ObservationCheckFails(t, Tampered(evidence))
  {
    AcceptedV2Exactly(t, evidence);
    SecondIsObservation(t, evidence);
    StrippedContent(t, ReceiptsOf(evidence)[1]);
    TamperedChecks(t, evidence);
  }

  // ---------------------------------------------------------------------------
  // First version
  // ---------------------------------------------------------------------------

  /** The three stages once each, at positions i, j and k, fully valid and in time order,
      and a rehearsed rollback no earlier than the supervision. */
  ghost predicate AcceptableV1(t: Terms, evidence: Value, i: nat, j: nat, k: nat) {
    && Get(evidence, Key.Receipts).JList? && |ReceiptsOf(evidence)| == 3
    && i < 3 && j < 3 && k < 3 && i != j && j != k && i != k
    && var rs := ReceiptsOf(evidence);
    && StageName(rs[i]) == Word.Runtime && StageName(rs[j]) == Word.Canary && StageName(rs[k]) == Word.Supervised
    && (forall n :: 0 <= n < 3 ==> EnvelopeOk(t, StageName(rs[n]), rs[n]) && ContentOk(t, StageName(rs[n]), rs[n]))
    && TimeBefore(t, rs[i], rs[j]) && TimeBefore(t, rs[j], rs[k])
    && RollbackOf(evidence).JObj? && RollbackRehearsed(t, RollbackOf(evidence))
    && TimeBefore(t, rs[k], RollbackOf(evidence))
  }

  lemma Located(t: Terms, rs: seq<Value>, scan: Scan, stage: Word) returns (i: nat)
    requires ScanReads(t, rs, scan) && stage in scan.first
    ensures i < |rs| && StageName(rs[i]) == stage && scan.first[stage] == rs[i]
  {
    i :| 0 <= i < |rs| && Names(rs)[i] == stage;
    assert Reads(t, rs[i], scan);
  }

  predicate OneOf(m: nat, i: nat, j: nat, k: nat) {
    m == i || m == j || m == k
  }

  /** Four positions do not fit into three. */
  lemma FourAmongThree(i: nat, j: nat, k: nat) returns (m: nat)
    ensures m < 4 && !OneOf(m, i, j, k)
  {
    m := if i != 0 && j != 0 && k != 0 then 0
         else if i != 1 && j != 1 && k != 1 then 1
         else if i != 2 && j != 2 && k != 2 then 2
         else 3;
  }

  lemma ThreeStagesOnly(t: Terms, rs: seq<Value>, i: nat, j: nat, k: nat)
    requires t.contract.V1? && CleanList(t, rs)
    requires i < |rs| && j < |rs| && k < |rs|
    requires StageName(rs[i]) == Word.Runtime && StageName(rs[j]) == Word.Canary && StageName(rs[k]) == Word.Supervised
    ensures |rs| == 3 && i != j && j != k && i != k
  {
    forall m: nat | m < |rs|
      ensures OneOf(m, i, j, k)
    {
      assert Known(t, rs[m]);
    }
    if |rs| > 3 {
      var m := FourAmongThree(i, j, k);
      assert false;
    }
  }

  lemma TimesOfThree(t: Terms, first: map<Word, Value>, runtime: Value, canary: Value, supervised: Value)
    requires t.contract.V1?
    requires Word.Runtime in first && first[Word.Runtime] == runtime
    requires Word.Canary in first && first[Word.Canary] == canary
    requires Word.Supervised in first && first[Word.Supervised] == supervised
    requires ReceiptTime(t, runtime).Some? && ReceiptTime(t, canary).Some? && ReceiptTime(t, supervised).Some?
    ensures TimesDecrease(t, first) <==> !(TimeBefore(t, runtime, canary) && TimeBefore(t, canary, supervised))
  {
    var stages := Stages(t.contract);
    assert stages[0] == Word.Runtime && stages[1] == Word.Canary && stages[2] == Word.Supervised;
    assert forall s | s in stages :: TimeIn(t, first, s).Some?;
    if !TimeBefore(t, runtime, canary) {
      assert TimeIn(t, first, stages[0]).value > TimeIn(t, first, stages[0 + 1]).value;
    } else if !TimeBefore(t, canary, supervised) {
      assert TimeIn(t, first, stages[1]).value > TimeIn(t, first, stages[1 + 1]).value;
    }
  }

  /** A bundle the first version accepts has every property of the gate. */
  lemma AcceptedV1IsSound(t: Terms, evidence: Value) returns (i: nat, j: nat, k: nat)
    requires t.contract.V1? && BundleErrors(t, evidence) == []
    ensures AcceptableV1(t, evidence, i, j, k)
  {
    var rs := ReceiptsOf(evidence);
    var scan := ScanOf(t, evidence);
    NothingReported(t, evidence);
    ReadsOf(t, evidence);
    assert Stages(V1)[0] in scan.first && Stages(V1)[1] in scan.first && Stages(V1)[2] in scan.first;
    i := Located(t, rs, scan, Word.Runtime);
    j := Located(t, rs, scan, Word.Canary);
    k := Located(t, rs, scan, Word.Supervised);
    ThreeStagesOnly(t, rs, i, j, k);
    forall n | 0 <= n < 3
      ensures EnvelopeOk(t, StageName(rs[n]), rs[n]) && ContentOk(t, StageName(rs[n]), rs[n])
    {
    }
    FreshIsTimed(t, rs[i]);
    FreshIsTimed(t, rs[j]);
    FreshIsTimed(t, rs[k]);
    TimesOfThree(t, scan.first, rs[i], rs[j], rs[k]);
  }

  lemma KnownV1(t: Terms, r: Value)
    requires t.contract.V1?
    ensures Known(t, r) <==>
              StageName(r) == Word.Runtime || StageName(r) == Word.Canary || StageName(r) == Word.Supervised
  {
  }

  lemma DistinctThree(rs: seq<Value>, i: nat, j: nat, k: nat)
    requires |rs| == 3
    requires i < 3 && j < 3 && k < 3 && i != j && j != k && i != k
    requires StageName(rs[i]) == Word.Runtime && StageName(rs[j]) == Word.Canary && StageName(rs[k]) == Word.Supervised
    ensures DistinctStages(rs)
    ensures forall n :: 0 <= n < 3 ==>
              StageName(rs[n]) == Word.Runtime || StageName(rs[n]) == Word.Canary || StageName(rs[n]) == Word.Supervised
  {
  }

  lemma CleanThree(t: Terms, rs: seq<Value>, i: nat, j: nat, k: nat)
    requires t.contract.V1? && |rs| == 3
    requires i < 3 && j < 3 && k < 3 && i != j && j != k && i != k
    requires StageName(rs[i]) == Word.Runtime && StageName(rs[j]) == Word.Canary && StageName(rs[k]) == Word.Supervised
    requires forall n :: 0 <= n < 3 ==> Faultless(t, rs[n])
    ensures CleanList(t, rs)
  {
    DistinctThree(rs, i, j, k);
    forall n | 0 <= n < |rs|
      ensures Known(t, rs[n])
    {
      KnownV1(t, rs[n]);
    }
  }

  lemma V1Stages(t: Terms, evidence: Value, i: nat, j: nat, k: nat)
    requires t.contract.V1? && AcceptableV1(t, evidence, i, j, k)
    ensures var rs, scan := ReceiptsOf(evidence), ScanOf(t, evidence);
            && CleanList(t, rs)
            && Reads(t, rs[i], scan) && Reads(t, rs[j], scan) && Reads(t, rs[k], scan)
  {
    var rs := ReceiptsOf(evidence);
    forall n | 0 <= n < 3
      ensures Faultless(t, rs[n])
    {
      assert EnvelopeOk(t, StageName(rs[n]), rs[n]) && ContentOk(t, StageName(rs[n]), rs[n]);
    }
    CleanThree(t, rs, i, j, k);
    ReadsOf(t, evidence);
  }

  /** And every bundle with those properties is accepted. */
  lemma AcceptableV1IsAccepted(t: Terms, evidence: Value, i: nat, j: nat, k: nat)
    requires t.contract.V1? && AcceptableV1(t, evidence, i, j, k)
    ensures BundleErrors(t, evidence) == []
  {
    var rs, scan := ReceiptsOf(evidence), ScanOf(t, evidence);
    V1Stages(t, evidence, i, j, k);
    TimesOfThree(t, scan.first, rs[i], rs[j], rs[k]);
    NothingReported(t, evidence);
  }

  /** An accepted bundle is read off receipt by receipt. */
  lemma StageIsRead(t: Terms, evidence: Value, m: nat)
    requires t.contract.V1? && BundleErrors(t, evidence) == [] && m < |ReceiptsOf(evidence)|
    ensures var scan, stage := ScanOf(t, evidence), StageName(ReceiptsOf(evidence)[m]);
            stage in scan.checks && scan.checks[stage]
  {
    NothingReported(t, evidence);
    ReadsOf(t, evidence);
    assert Reads(t, ReceiptsOf(evidence)[m], ScanOf(t, evidence));
  }

  /** Every check of a bundle the first version accepts is true. */
  lemma ChecksOfAcceptedV1(t: Terms, evidence: Value, n: nat)
    requires t.contract.V1? && BundleErrors(t, evidence) == [] && n < 3
    ensures var scan := ScanOf(t, evidence);
            && Stages(V1)[n] in scan.checks && scan.checks[Stages(V1)[n]]
            && RollbackReceiptOk(t, scan.first, RollbackOf(evidence)) && t.rules.rollbackChecks(RollbackOf(evidence))
  {
    var i, j, k := AcceptedV1IsSound(t, evidence);
    StageIsRead(t, evidence, if n == 0 then i else if n == 1 then j else k);
    NothingReported(t, evidence);
  }
}
