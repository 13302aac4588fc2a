/** The worker evidence log reader of track_bc_verify.py: one pass over decoded records,
    against what its verdicts are meant to say. */
module EvidenceLog {
  import opened Text
  import opened PyValue

  const FINISHED := JWord(Word.DispatchFinished)
  const PROOF := JWord(Word.CanaryProofValidated)

  /** The identities a record must carry. `show` is the text form of a value. */
  datatype Expected = Expected(tenant: string, job: string, run: string, release: string,
                               contractVersion: int, targetDigest: string, show: Value -> string)

  datatype Verdict = Verdict(correlationMatch: bool, releaseMatch: bool, terminalEvent: bool,
                             childPid: Option<int>, proofOrdered: bool)

  predicate SameIdentities(r: Value, e: Expected) {
    && e.show(Get(r, Key.TenantId)) == e.tenant
    && e.show(Get(r, Key.JobId)) == e.job
    && e.show(Get(r, Key.RunId)) == e.run
  }

  predicate SameRelease(r: Value, e: Expected) {
    IsReleaseSha(Get(r, Key.ReleaseSha)) && Get(r, Key.ReleaseSha) == JStr(e.release)
  }

  predicate IsEvent(r: Value, event: Value) { Get(r, Key.Event) == event }

  predicate HasEvent(r: Value) { Get(r, Key.Event).JStr? || Get(r, Key.Event).JWord? }

  predicate BindsTarget(r: Value, e: Expected) {
    Get(r, Key.TargetContractVersion) == JInt(e.contractVersion) && Get(r, Key.TargetDigest) == JStr(e.targetDigest)
  }

  /** The texts of the events, in order. */
  function Events(records: seq<Value>): seq<Value> {
    if records == [] then []
    else
      var n := |records| - 1;
      Events(records[..n]) + if HasEvent(records[n]) then [Get(records[n], Key.Event)] else []
  }

  /** Positions of the proof records among all records. */
  function ProofAt(records: seq<Value>): seq<nat> {
    if records == [] then []
    else
      var n := |records| - 1;
      ProofAt(records[..n]) + if IsEvent(records[n], PROOF) then [n] else []
  }

  /** Positions of the finish events among the string events. */
  function FinishAt(events: seq<Value>): seq<nat> {
    if events == [] then []
    else
      var n := |events| - 1;
      FinishAt(events[..n]) + if events[n] == FINISHED then [n] else []
  }

  function LastChildPid(records: seq<Value>): Option<int> {
    if records == [] then None
    else
      var n := |records| - 1;
      var pid := Get(records[n], Key.ChildPid);
      if pid.JInt? then Some(pid.n) else LastChildPid(records[..n])
  }

  /** The running check of the sequence numbers: `last` is the highest one accepted. */
  datatype SequenceCheck = SequenceCheck(ordered: bool, last: int)

  function CheckSequence(records: seq<Value>): SequenceCheck {
    if records == [] then SequenceCheck(true, 0)
    else
      var before := CheckSequence(records[..|records| - 1]);
      var sequence := Get(records[|records| - 1], Key.Seq);
      if !sequence.JInt? || sequence.n <= before.last then before.(ordered := false)
      else before.(last := sequence.n)
  }

  predicate AllCorrelated(records: seq<Value>, e: Expected) {
    records == [] || (AllCorrelated(records[..|records| - 1], e)
                      && SameIdentities(records[|records| - 1], e) && HasEvent(records[|records| - 1]))
  }

  predicate AllReleased(records: seq<Value>, e: Expected) {
    records == [] || (AllReleased(records[..|records| - 1], e) && SameRelease(records[|records| - 1], e))
  }

  /** The test the reader applies to its lists of positions. */
  predicate PositionsInOrder(records: seq<Value>, e: Expected, proofs: seq<nat>, finishes: seq<nat>,
                             events: seq<Value>)
  {
    && |proofs| == 1 && |finishes| == 1
    && events != [] && events[|events| - 1] == FINISHED
    && proofs[0] < finishes[0]
    && proofs[0] < |records| && BindsTarget(records[proofs[0]], e)
  }

  predicate ProofOrdered(records: seq<Value>, e: Expected) {
    PositionsInOrder(records, e, ProofAt(records), FinishAt(Events(records)), Events(records))
  }

  method ReadEvidence(records: seq<Value>, e: Expected) returns (v: Verdict)
    ensures v.correlationMatch <==> CheckSequence(records).ordered && AllCorrelated(records, e)
    ensures v.releaseMatch <==> AllReleased(records, e)
    ensures v.terminalEvent <==> Events(records) != [] && Events(records)[|Events(records)| - 1] == FINISHED
    ensures v.childPid == LastChildPid(records)
    ensures v.proofOrdered <==> ProofOrdered(records, e)
  {
    var check := SequenceCheck(true, 0);
    var correlated, released := true, true;
    var events: seq<Value> := [];
    var proofs: seq<nat> := [];
    var childPid: Option<int> := None;
    var n := 0;
    while n < |records|
      invariant n <= |records|
      invariant check == CheckSequence(records[..n])
      invariant correlated <==> AllCorrelated(records[..n], e)
      invariant released <==> AllReleased(records[..n], e)
      invariant events == Events(records[..n])
      invariant childPid == LastChildPid(records[..n])
      invariant proofs == ProofAt(records[..n])
    {
      assert records[..n + 1][..n] == records[..n];
      var record := records[n];
      var sequence := Get(record, Key.Seq);
      if !sequence.JInt? || sequence.n <= check.last {
        check := check.(ordered := false);
      } else {
        check := check.(last := sequence.n);
      }
      correlated := correlated && SameIdentities(record, e);
      released := released && SameRelease(record, e);
      if !HasEvent(record) {
        correlated := false;
      } else {
        var event := Get(record, Key.Event);
        events := events + [event];
        if event == PROOF {
          proofs := proofs + [n];
        }
      }
      var pid := Get(record, Key.ChildPid);
      if pid.JInt? {
        childPid := Some(pid.n);
      }
      n := n + 1;
    }
    assert records[..n] == records;
    v := Verdict(correlated && check.ordered, released,
                 events != [] && events[|events| - 1] == FINISHED,
                 childPid,
                 PositionsInOrder(records, e, proofs, FinishAt(events), events));
  }

  /** Sequence numbers are positive integers in strictly increasing order. */
  ghost predicate Sequenced(records: seq<Value>) {
    && (forall i :: 0 <= i < |records| ==> Get(records[i], Key.Seq).JInt? && Get(records[i], Key.Seq).n > 0)
    && (forall i, j :: 0 <= i < j < |records| ==> Get(records[i], Key.Seq).n < Get(records[j], Key.Seq).n)
  }

  /** The running check means exactly that. */
  lemma {:induction false} SequenceCheckMeaning(records: seq<Value>)
    ensures CheckSequence(records).ordered <==> Sequenced(records)
    ensures CheckSequence(records).last >= 0
    ensures Sequenced(records) ==>
              CheckSequence(records).last == if records == [] then 0 else Get(records[|records| - 1], Key.Seq).n
  {
    if records != [] {
      var n := |records| - 1;
      SequenceCheckMeaning(records[..n]);
      if Sequenced(records) {
        assert Sequenced(records[..n]);
        if n > 0 {
          assert Get(records[n - 1], Key.Seq).n < Get(records[n], Key.Seq).n;
        }
      } else if CheckSequence(records).ordered {
        forall i | 0 <= i < n
          ensures Get(records[i], Key.Seq).JInt? && 0 < Get(records[i], Key.Seq).n < Get(records[n], Key.Seq).n
        {
          assert records[..n][i] == records[i];
          assert i < n - 1 ==> Get(records[..n][i], Key.Seq).n < Get(records[..n][n - 1], Key.Seq).n;
        }
        forall i, j | 0 <= i < j < |records|
          ensures Get(records[i], Key.Seq).n < Get(records[j], Key.Seq).n
        {
          if j < n {
            assert Get(records[..n][i], Key.Seq).n < Get(records[..n][j], Key.Seq).n;
          }
        }
      }
    }
  }

  // ---------------------------------------------------------------------------
  // What proof-ordered means
  // ---------------------------------------------------------------------------

  /** Exactly one record is a proof, exactly one is the finish; the finish is the last
      record with an event, the proof comes before it and names the target. */
  ghost predicate ProofBeforeFinish(records: seq<Value>, e: Expected, p: nat, f: nat) {
    && p < f < |records|
    && (forall i :: 0 <= i < |records| ==> (IsEvent(records[i], PROOF) <==> i == p))
    && (forall i :: 0 <= i < |records| ==> (IsEvent(records[i], FINISHED) <==> i == f))
    && (forall i :: f < i < |records| ==> !HasEvent(records[i]))
    && BindsTarget(records[p], e)
  }

  /** How many of the first k records have no event text. */
  function Silent(records: seq<Value>, k: nat): nat
    requires k <= |records|
  {
    if k == 0 then 0 else Silent(records, k - 1) + if HasEvent(records[k - 1]) then 0 else 1
  }

  lemma {:induction false} EventsOfPrefix(records: seq<Value>, k: nat)
    requires k <= |records|
    ensures |Events(records[..k])| == k - Silent(records, k)
  {
    if k > 0 {
      EventsOfPrefix(records, k - 1);
      assert records[..k][..k - 1] == records[..k - 1];
    }
  }

  /** The event of record i is event number i - Silent(i). */
  lemma {:induction false} EventPosition(records: seq<Value>, i: nat)
    requires i < |records| && HasEvent(records[i])
    ensures i - Silent(records, i) < |Events(records)|
    ensures i >= Silent(records, i) && Events(records)[i - Silent(records, i)] == Get(records[i], Key.Event)
  {
    var n := |records| - 1;
    EventsOfPrefix(records, n);
    EventsOfPrefix(records, i);
    assert records[..|records|] == records;
    if i < n {
      EventPosition(records[..n], i);
      SilentOfPrefix(records, n, i);
    }
  }

  lemma {:induction false} SilentOfPrefix(records: seq<Value>, n: nat, k: nat)
    requires k <= n <= |records|
    ensures Silent(records[..n], k) == Silent(records, k)
  {
    if k > 0 {
      SilentOfPrefix(records, n, k - 1);
    }
  }

  /** Every event text comes from some record. */
  lemma {:induction false} EventSource(records: seq<Value>, m: nat) returns (i: nat)
    requires m < |Events(records)|
    ensures i < |records| && HasEvent(records[i]) && m == i - Silent(records, i)
    ensures Get(records[i], Key.Event) == Events(records)[m]
  {
    var n := |records| - 1;
    EventsOfPrefix(records, n);
    if m < |Events(records[..n])| {
      i := EventSource(records[..n], m);
      SilentOfPrefix(records, n, i);
    } else {
      i := n;
    }
  }

  lemma {:induction false} ProofAtMembers(records: seq<Value>, i: nat)
    requires i < |records|
    ensures i in ProofAt(records) <==> IsEvent(records[i], PROOF)
  {
    var n := |records| - 1;
    if i < n {
      ProofAtMembers(records[..n], i);
    } else {
      ProofAtRange(records[..n]);
    }
  }

  lemma {:induction false} ProofAtRange(records: seq<Value>)
    ensures forall k :: 0 <= k < |ProofAt(records)| ==> ProofAt(records)[k] < |records|
    ensures forall j, k :: 0 <= j < k < |ProofAt(records)| ==> ProofAt(records)[j] < ProofAt(records)[k]
  {
    if records != [] {
      ProofAtRange(records[..|records| - 1]);
    }
  }

  lemma {:induction false} FinishAtMembers(events: seq<Value>, i: nat)
    requires i < |events|
    ensures i in FinishAt(events) <==> events[i] == FINISHED
  {
    var n := |events| - 1;
    if i < n {
      FinishAtMembers(events[..n], i);
    } else {
      FinishAtRange(events[..n]);
    }
  }

  lemma {:induction false} FinishAtRange(events: seq<Value>)
    ensures forall k :: 0 <= k < |FinishAt(events)| ==> FinishAt(events)[k] < |events|
    ensures forall j, k :: 0 <= j < k < |FinishAt(events)| ==> FinishAt(events)[j] < FinishAt(events)[k]
  {
    if events != [] {
      FinishAtRange(events[..|events| - 1]);
    }
  }

  lemma OnlyMember(s: seq<nat>, x: nat)
    requires forall j, k :: 0 <= j < k < |s| ==> s[j] < s[k]
    ensures |s| == 1 && s[0] == x <==> forall y: nat :: y in s <==> y == x
  {
    assert |s| > 1 ==> s[0] < s[1];
    if forall y: nat :: y in s <==> y == x {
      assert x in s;
      var i :| 0 <= i < |s| && s[i] == x;
      assert forall j :: 0 <= j < |s| ==> s[j] in s && s[j] == x;
    }
  }

  /** A record is a proof exactly where the reader notes one. */
  lemma OnlyProof(records: seq<Value>, p: nat, i: nat)
    requires ProofAt(records) == [p] && i < |records|
    ensures p < |records| && (IsEvent(records[i], PROOF) <==> i == p)
  {
    ProofAtRange(records);
    assert p == ProofAt(records)[0];
    ProofAtMembers(records, i);
  }

  lemma FinishesAtEnd(events: seq<Value>, m: nat)
    requires events != [] && FinishAt(events) == [|events| - 1] && m < |events|
    ensures events[m] == FINISHED <==> m == |events| - 1
  {
    FinishAtMembers(events, m);
    assert m in FinishAt(events) <==> m == |events| - 1;
  }

  /** The event of a record, by its position among the events. */
  lemma EventAt(records: seq<Value>, i: nat, events: seq<Value>) returns (m: nat)
    requires i < |records| && HasEvent(records[i]) && events == Events(records)
    ensures m == i - Silent(records, i) && m < |events| && events[m] == Get(records[i], Key.Event)
  {
    EventPosition(records, i);
    m := i - Silent(records, i);
  }

  /** A record is a finish exactly where the last event comes from, and no event follows it. */
  lemma OnlyFinish(records: seq<Value>, f: nat, i: nat, last: int)
    requires f < |records| && HasEvent(records[f]) && f - Silent(records, f) == last
    requires i < |records| && HasEvent(records[i])
    requires IsEvent(records[i], FINISHED) <==> i - Silent(records, i) == last
    requires i - Silent(records, i) <= last
    ensures IsEvent(records[i], FINISHED) <==> i == f
    ensures i <= f
  {
    SamePosition(records, i, f);
  }

  /** The only finish is the last event. */
  lemma LastIsFinish(events: seq<Value>)
    requires |FinishAt(events)| == 1 && events != [] && events[|events| - 1] == FINISHED
    ensures FinishAt(events) == [|events| - 1]
  {
    FinishAtRange(events);
    FinishAtMembers(events, |events| - 1);
    OnlyMember(FinishAt(events), FinishAt(events)[0]);
  }

  /** A proof-ordered verdict is sound: some record is the only proof, a later one is the
      only finish, and nothing with an event follows it. */
  lemma ProofOrderedIsSound(records: seq<Value>, e: Expected) returns (p: nat, f: nat)
    requires ProofOrdered(records, e)
    ensures ProofBeforeFinish(records, e, p, f)
    ensures Silent(records, p) < f - Silent(records, f) - (p - Silent(records, p))
  {
    var events := Events(records);
    p := ProofAt(records)[0];
    LastIsFinish(events);
    f := EventSource(records, |events| - 1);
    OnlyProof(records, p, p);
    EventPosition(records, p);
    SilentGrows(records, p, f);
    forall i | 0 <= i < |records|
      ensures IsEvent(records[i], PROOF) <==> i == p
      ensures IsEvent(records[i], FINISHED) <==> i == f
      ensures f < i ==> !HasEvent(records[i])
    {
      OnlyProof(records, p, i);
      if HasEvent(records[i]) {
        var m := EventAt(records, i, events);
        FinishesAtEnd(events, m);
        OnlyFinish(records, f, i, |events| - 1);
      }
    }
  }

  lemma {:induction false} SilentGrows(records: seq<Value>, i: nat, j: nat)
    requires i <= |records| && j <= |records|
    ensures i <= j ==> 0 <= Silent(records, j) - Silent(records, i) <= j - i
    ensures j <= i ==> 0 <= Silent(records, i) - Silent(records, j) <= i - j
    decreases i + j
  {
    if i < j {
      SilentGrows(records, i, j - 1);
    } else if j < i {
      SilentGrows(records, i - 1, j);
    }
  }

  /** Records with an event have distinct, ordered event numbers. */
  lemma SamePosition(records: seq<Value>, i: nat, j: nat)
    requires i < |records| && j < |records| && HasEvent(records[i]) && HasEvent(records[j])
    ensures i < j ==> i - Silent(records, i) < j - Silent(records, j)
    ensures j < i ==> j - Silent(records, j) < i - Silent(records, i)
  {
    if i < j {
      SilentGrows(records, i + 1, j);
    } else if j < i {
      SilentGrows(records, j + 1, i);
    }
  }

  /** The exact condition: the reader compares the proof's record number with the finish's
      event number, so on top of the intended order fewer records without an event may come
      before the proof than there are events from the proof to the finish. */
  lemma ProofOrderedExactly(records: seq<Value>, e: Expected, p: nat, f: nat)
    requires ProofBeforeFinish(records, e, p, f)
    ensures ProofOrdered(records, e) <==>
              Silent(records, p) < f - Silent(records, f) - (p - Silent(records, p))
  {
    var events := Events(records);
    ProofAtRange(records);
    FinishAtRange(events);
    EventPosition(records, p);
    EventPosition(records, f);
    SilentGrows(records, p, f);
    var q := f - Silent(records, f);
    forall y: nat
      ensures y in ProofAt(records) <==> y == p
    {
      if y < |records| {
        ProofAtMembers(records, y);
      }
    }
    forall y: nat
      ensures y in FinishAt(events) <==> y == q
    {
      if y < |events| {
        FinishAtMembers(events, y);
        var i := EventSource(records, y);
        SamePosition(records, i, f);
      }
    }
    OnlyMember(ProofAt(records), p);
    OnlyMember(FinishAt(events), q);
    if q < |events| - 1 {
      var i := EventSource(records, q + 1);
      SamePosition(records, i, f);
      assert false;
    }
  }

  /** When every record has an event the verdict is the intended order, both ways. */
  lemma ProofOrderedWhenAllHaveEvents(records: seq<Value>, e: Expected)
    requires forall i :: 0 <= i < |records| ==> HasEvent(records[i])
    ensures ProofOrdered(records, e) <==> exists p: nat, f: nat :: ProofBeforeFinish(records, e, p, f)
  {
    if ProofOrdered(records, e) {
      var p, f := ProofOrderedIsSound(records, e);
    }
    if p: nat, f: nat :| ProofBeforeFinish(records, e, p, f) {
      NoSilence(records, p);
      NoSilence(records, f);
      ProofOrderedExactly(records, e, p, f);
    }
  }

  lemma {:induction false} NoSilence(records: seq<Value>, k: nat)
    requires k <= |records| && forall i :: 0 <= i < |records| ==> HasEvent(records[i])
    ensures Silent(records, k) == 0
  {
    if k > 0 {
      NoSilence(records, k - 1);
    }
  }

  /** A log in the intended order that the reader refuses: one record without an event
      comes before the proof, and the finish follows the proof at once. */
  lemma SilentRecordIsRefused(e: Expected)
    ensures var silent := JObj(map[]);
            var proof := JObj(map[Key.Event := PROOF, Key.TargetContractVersion := JInt(e.contractVersion),
                                  Key.TargetDigest := JStr(e.targetDigest)]);
            var finish := JObj(map[Key.Event := FINISHED]);
            && ProofBeforeFinish([silent, proof, finish], e, 1, 2)
            && !ProofOrdered([silent, proof, finish], e)
  {
    var proof := JObj(map[Key.Event := PROOF, Key.TargetContractVersion := JInt(e.contractVersion),
                          Key.TargetDigest := JStr(e.targetDigest)]);
    var records := [JObj(map[]), proof, JObj(map[Key.Event := FINISHED])];
    assert Get(proof, Key.Event) == PROOF;
    assert BindsTarget(proof, e);
    assert !HasEvent(records[0]) && HasEvent(records[1]) && HasEvent(records[2]);
    assert Silent(records, 1) == Silent(records, 0) + 1 == 1;
    assert Silent(records, 2) == Silent(records, 1);
    ProofOrderedExactly(records, e, 1, 2);
  }

  /** The correlation and release verdicts, record by record. */
  lemma {:induction false} RecordByRecord(records: seq<Value>, e: Expected)
    ensures AllCorrelated(records, e) <==>
              forall i :: 0 <= i < |records| ==> SameIdentities(records[i], e) && HasEvent(records[i])
    ensures AllReleased(records, e) <==> forall i :: 0 <= i < |records| ==> SameRelease(records[i], e)
  {
    if records != [] {
      RecordByRecord(records[..|records| - 1], e);
    }
  }

  /** What the reader's correlation verdict means for any log: all ids match, all events are texts,
      and the sequence numbers are positive and strictly increasing. */
  lemma CorrelationMeaning(records: seq<Value>, e: Expected)
    ensures CheckSequence(records).ordered && AllCorrelated(records, e) <==>
              && Sequenced(records)
              && forall i :: 0 <= i < |records| ==> SameIdentities(records[i], e) && HasEvent(records[i])
  {
    SequenceCheckMeaning(records);
    RecordByRecord(records, e);
  }
}
