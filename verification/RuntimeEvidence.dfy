/** Verification of the runtime evidence snapshot (track_bc_verify.py): fifteen checks, the
    errors they raise, and the receipt made of them. */
module RuntimeEvidence {
  import opened Text
  import opened PyValue
  import opened Receipts

  const HEARTBEAT_MAX_AGE_SECONDS := 90
  const CLAIMABLE_QUEUE_MAX_AGE_SECONDS := 43_200

  const ROLES: seq<Key> :=
    [Key.Migrate, Key.Api, Key.WebhookExecutor, Key.CrawlerAgentInboxExecutor, Key.DiscoveryExecutor]

  /** Wall clock and text form of UTC times: reading back a rendered time gives it again. */
  datatype Clock = Clock(parse: string -> Option<int>, render: int -> string)

  ghost predicate RoundTrips(c: Clock) {
    forall t :: TimeOf(JStr(c.render(t)), c.parse) == Some(t)
  }

  /** The errors of a runtime report: a check that failed, or what is wrong inside a compound one. */
  datatype RuntimeFault =
    | Failed(name: Key)
    | EvidenceTime(age: Age)
    | RoleRevision(role: Key)
    | RoleImage(role: Key)
    | LegacyCountInvalid
    | HeartbeatStale
    | HeartbeatTime(age: Age)
    | QueueAgeMissing
    | QueueTooOld

  datatype RuntimeReport = RuntimeReport(
    accepted: bool, release: string, observedAt: int, checks: map<Key, bool>, errors: seq<RuntimeFault>)

  predicate ReleaseIs(v: Value, release: string) {
    IsReleaseSha(v) && v == JStr(release)
  }

  predicate RevisionOk(role: Value, release: string) {
    ReleaseIs(Get(role, Key.OciRevision), release) && ReleaseIs(Get(role, Key.BakedReleaseSha), release)
  }

  predicate ImageOk(role: Value) {
    && IsImageId(Get(role, Key.ImageId)) && IsImageId(Get(role, Key.ContainerImageId))
    && Get(role, Key.ImageId) == Get(role, Key.ContainerImageId)
  }

  predicate AllRolesOk(roles: seq<Key>, e: Value, release: string) {
    roles == []
    || (&& RevisionOk(Get(Get(e, Key.RoleRevisions), roles[0]), release)
        && ImageOk(Get(Get(e, Key.RoleRevisions), roles[0]))
        && AllRolesOk(roles[1..], e, release))
  }

  predicate RolesOk(e: Value, release: string) { AllRolesOk(ROLES, e, release) }

  predicate FreshWithin(v: Value, c: Clock, now: int, maxAge: int) {
    AgeOf(TimeOf(v, c.parse), now, maxAge) == Fresh
  }

  function Doctor(e: Value): Value { Get(e, Key.Doctor) }

  predicate DoctorUnblocked(e: Value) {
    IsEmptyList(Get(Doctor(e), Key.Blockers)) && IsEmptyList(Get(Doctor(e), Key.DeferReasons))
  }

  predicate HeartbeatFresh(e: Value, c: Clock, now: int) {
    var heartbeat := Get(Doctor(e), Key.Heartbeat);
    && NumberWithin(Get(heartbeat, Key.HeartbeatAgeSeconds), HEARTBEAT_MAX_AGE_SECONDS)
    && FreshWithin(Get(heartbeat, Key.ReportedAt), c, now, HEARTBEAT_MAX_AGE_SECONDS)
  }

  predicate QueueOk(e: Value) {
    var queue := Get(Doctor(e), Key.Queue);
    var age := Get(queue, Key.OldestClaimableAgeSeconds);
    if age.JNull? then EqualsZero(Get(queue, Key.ClaimableCount))
    else NumberWithin(age, CLAIMABLE_QUEUE_MAX_AGE_SECONDS)
  }

  /** The legacy job count is required to be a count, but no check is named after it. */
  predicate LegacyCountOk(e: Value) {
    var legacy := Get(Get(e, Key.PendingJobsByBackend), Key.Legacy);
    legacy.JInt? && legacy.n >= 0
  }

  /** The fifteen checks, by name. */
  function Checks(e: Value, release: string, c: Clock, now: int): map<Key, bool> {
    map name | name in RUNTIME_CHECKS :: Check(name, e, release, c, now)
  }

  predicate Check(name: Key, e: Value, release: string, c: Clock, now: int) {
    match name
    case RuntimeEvidenceFresh => FreshWithin(Get(e, Key.CollectedAt), c, now, RUNTIME_EVIDENCE_MAX_AGE_SECONDS)
    case SourceReleaseSha => ReleaseIs(Get(e, Key.SourceReleaseSha), release)
    case RoleRevisions => RolesOk(e, release)
    case MacReleaseSha => ReleaseIs(Get(e, Key.MacReleaseSha), release)
    case DiscoveryExecutorReplicas => Get(e, Key.DiscoveryExecutorReplicas) == JInt(0)
    case CrawlerAgentProtocol => Get(e, Key.CrawlerAgentProtocol) == JWord(Word.Off)
    case ProfileExecutionBackend => Get(e, Key.ProfileExecutionBackend) == JWord(Word.Legacy)
    case AgentPendingJobs => Get(Get(e, Key.PendingJobsByBackend), Key.Agent) == JInt(0)
    case DoctorReady => Get(Doctor(e), Key.Status) == JWord(Word.Ready)
    case DoctorUnblocked => DoctorUnblocked(e)
    case HeartbeatOnline => Get(Get(Doctor(e), Key.Heartbeat), Key.HeartbeatStatus) == JWord(Word.Online)
    case HeartbeatFresh => HeartbeatFresh(e, c, now)
    case ProfileReady => Get(Get(Doctor(e), Key.Profile), Key.Status) == JWord(Word.Ready)
    case ProfileUnlocked => Get(Get(Doctor(e), Key.Profile), Key.LockStatus) == JWord(Word.Free)
    case ClaimableQueueAge => QueueOk(e)
    case _ => false
  }

  // ---------------------------------------------------------------------------
  // Errors
  // ---------------------------------------------------------------------------

  /** Appends an error once, if it is due. */
  function Note(errors: seq<RuntimeFault>, due: bool, f: RuntimeFault): seq<RuntimeFault> {
    if due && f !in errors then errors + [f] else errors
  }

  function RoleErrors(roles: seq<Key>, e: Value, release: string, before: seq<RuntimeFault>): seq<RuntimeFault> {
    if roles == [] then before
    else
      var role := Get(Get(e, Key.RoleRevisions), roles[0]);
      var revision := Note(before, !RevisionOk(role, release), RoleRevision(roles[0]));
      RoleErrors(roles[1..], e, release, Note(revision, !ImageOk(role), RoleImage(roles[0])))
  }

  function AgeErrors(age: Age, f: RuntimeFault, before: seq<RuntimeFault>): seq<RuntimeFault> {
    Note(before, age != Fresh, f)
  }

  function FreshErrors(e: Value, c: Clock, now: int, before: seq<RuntimeFault>): seq<RuntimeFault> {
    var age := AgeOf(TimeOf(Get(e, Key.CollectedAt), c.parse), now, RUNTIME_EVIDENCE_MAX_AGE_SECONDS);
    AgeErrors(age, EvidenceTime(age), before)
  }

  function HeartbeatErrors(e: Value, c: Clock, now: int, before: seq<RuntimeFault>): seq<RuntimeFault> {
    var heartbeat := Get(Doctor(e), Key.Heartbeat);
    var age := AgeOf(TimeOf(Get(heartbeat, Key.ReportedAt), c.parse), now, HEARTBEAT_MAX_AGE_SECONDS);
    var stale := Note(before, !NumberWithin(Get(heartbeat, Key.HeartbeatAgeSeconds), HEARTBEAT_MAX_AGE_SECONDS),
                      HeartbeatStale);
    AgeErrors(age, HeartbeatTime(age), stale)
  }

  function QueueErrors(e: Value, before: seq<RuntimeFault>): seq<RuntimeFault> {
    var queue := Get(Doctor(e), Key.Queue);
    var age := Get(queue, Key.OldestClaimableAgeSeconds);
    if age.JNull? then Note(before, !EqualsZero(Get(queue, Key.ClaimableCount)), QueueAgeMissing)
    else Note(before, !NumberWithin(age, CLAIMABLE_QUEUE_MAX_AGE_SECONDS), QueueTooOld)
  }

  /** The checks as a function of their name. */
  function CheckOf(e: Value, release: string, c: Clock, now: int): Key -> bool {
    (name: Key) => Check(name, e, release, c, now)
  }

  /** A failed check that has one error of its own. */
  function Fails(holds: Key -> bool, name: Key, before: seq<RuntimeFault>): seq<RuntimeFault> {
    Note(before, !holds(name), Failed(name))
  }

  /** The errors up to the Mac's release, in program order. */
  function ReleaseErrors(holds: Key -> bool, e: Value, release: string, c: Clock, now: int): seq<RuntimeFault> {
    var source := Fails(holds, Key.SourceReleaseSha, FreshErrors(e, c, now, []));
    Fails(holds, Key.MacReleaseSha, RoleErrors(ROLES, e, release, source))
  }

  /** The errors of the settings and the pending jobs. */
  function SettingErrors(holds: Key -> bool, e: Value, before: seq<RuntimeFault>): seq<RuntimeFault> {
    var replicas := Fails(holds, Key.DiscoveryExecutorReplicas, before);
    var protocol := Fails(holds, Key.CrawlerAgentProtocol, replicas);
    var backend := Fails(holds, Key.ProfileExecutionBackend, protocol);
    Fails(holds, Key.AgentPendingJobs, Note(backend, !LegacyCountOk(e), LegacyCountInvalid))
  }

  /** The errors of the doctor. */
  function DoctorErrors(holds: Key -> bool, e: Value, c: Clock, now: int,
                        before: seq<RuntimeFault>): seq<RuntimeFault>
  {
    var ready := Fails(holds, Key.DoctorReady, before);
    var unblocked := Fails(holds, Key.DoctorUnblocked, ready);
    var heartbeat := HeartbeatErrors(e, c, now, Fails(holds, Key.HeartbeatOnline, unblocked));
    QueueErrors(e, Fails(holds, Key.ProfileUnlocked, Fails(holds, Key.ProfileReady, heartbeat)))
  }

  function RuntimeErrors(e: Value, release: string, c: Clock, now: int): seq<RuntimeFault> {
    var holds := CheckOf(e, release, c, now);
    DoctorErrors(holds, e, c, now, SettingErrors(holds, e, ReleaseErrors(holds, e, release, c, now)))
  }

  /** Accepted when nothing was noted. None stands for the argument error raised for an inexact
      release SHA. */
  function VerifyRuntimeEvidence(e: Value, release: string, c: Clock, now: int): Option<RuntimeReport> {
    if !IsReleaseSha(JStr(release)) then None
    else
      var errors := RuntimeErrors(e, release, c, now);
      Some(RuntimeReport(errors == [], release, now, Checks(e, release, c, now), errors))
  }

  /** Every check holds, and the legacy count, which no check is named after, is a count. */
  predicate Acceptable(e: Value, release: string, c: Clock, now: int) {
    LegacyCountOk(e) && forall name | name in RUNTIME_CHECKS :: Check(name, e, release, c, now)
  }

  lemma {:induction false} RoleErrorsMeaning(roles: seq<Key>, e: Value, release: string, before: seq<RuntimeFault>)
    ensures RoleErrors(roles, e, release, before) == [] <==> before == [] && AllRolesOk(roles, e, release)
  {
    if roles != [] {
      var role := Get(Get(e, Key.RoleRevisions), roles[0]);
      var revision := Note(before, !RevisionOk(role, release), RoleRevision(roles[0]));
      RoleErrorsMeaning(roles[1..], e, release, Note(revision, !ImageOk(role), RoleImage(roles[0])));
    }
  }

  lemma CompoundErrorsExactly(e: Value, c: Clock, now: int, before: seq<RuntimeFault>)
    ensures FreshErrors(e, c, now, before) == [] <==>
              before == [] && FreshWithin(Get(e, Key.CollectedAt), c, now, RUNTIME_EVIDENCE_MAX_AGE_SECONDS)
    ensures HeartbeatErrors(e, c, now, before) == [] <==> before == [] && HeartbeatFresh(e, c, now)
    ensures QueueErrors(e, before) == [] <==> before == [] && QueueOk(e)
  {
  }

  lemma ReleaseErrorsExactly(holds: Key -> bool, e: Value, release: string, c: Clock, now: int)
    ensures ReleaseErrors(holds, e, release, c, now) == [] <==>
              && FreshWithin(Get(e, Key.CollectedAt), c, now, RUNTIME_EVIDENCE_MAX_AGE_SECONDS)
              && holds(Key.SourceReleaseSha) && RolesOk(e, release) && holds(Key.MacReleaseSha)
  {
    CompoundErrorsExactly(e, c, now, []);
    RoleErrorsMeaning(ROLES, e, release, Fails(holds, Key.SourceReleaseSha, FreshErrors(e, c, now, [])));
  }

  lemma SettingErrorsExactly(holds: Key -> bool, e: Value, before: seq<RuntimeFault>)
    ensures SettingErrors(holds, e, before) == [] <==>
              && before == [] && LegacyCountOk(e)
              && holds(Key.DiscoveryExecutorReplicas) && holds(Key.CrawlerAgentProtocol)
              && holds(Key.ProfileExecutionBackend) && holds(Key.AgentPendingJobs)
  {
  }

  lemma DoctorErrorsExactly(holds: Key -> bool, e: Value, c: Clock, now: int, before: seq<RuntimeFault>)
    ensures DoctorErrors(holds, e, c, now, before) == [] <==>
              && before == [] && holds(Key.DoctorReady) && holds(Key.DoctorUnblocked) && holds(Key.HeartbeatOnline)
              && HeartbeatFresh(e, c, now) && holds(Key.ProfileReady) && holds(Key.ProfileUnlocked) && QueueOk(e)
  {
    var ready := Fails(holds, Key.DoctorReady, before);
    var online := Fails(holds, Key.HeartbeatOnline, Fails(holds, Key.DoctorUnblocked, ready));
    CompoundErrorsExactly(e, c, now, online);
    var unlocked :=
      Fails(holds, Key.ProfileUnlocked, Fails(holds, Key.ProfileReady, HeartbeatErrors(e, c, now, online)));
    CompoundErrorsExactly(e, c, now, unlocked);
  }

  /** The fifteen checks one by one. */
  lemma ChecksOneByOne(holds: Key -> bool)
    ensures (forall name :: name in RUNTIME_CHECKS ==> holds(name)) <==>
              && holds(Key.RuntimeEvidenceFresh) && holds(Key.SourceReleaseSha) && holds(Key.RoleRevisions)
              && holds(Key.MacReleaseSha) && holds(Key.DiscoveryExecutorReplicas) && holds(Key.CrawlerAgentProtocol)
              && holds(Key.ProfileExecutionBackend) && holds(Key.AgentPendingJobs) && holds(Key.DoctorReady)
              && holds(Key.DoctorUnblocked) && holds(Key.HeartbeatOnline) && holds(Key.HeartbeatFresh)
              && holds(Key.ProfileReady) && holds(Key.ProfileUnlocked) && holds(Key.ClaimableQueueAge)
  {
  }

  lemma FreshCheck(e: Value, release: string, c: Clock, now: int)
    ensures CheckOf(e, release, c, now)(Key.RuntimeEvidenceFresh) <==>
              FreshWithin(Get(e, Key.CollectedAt), c, now, RUNTIME_EVIDENCE_MAX_AGE_SECONDS)
  {
  }

  lemma RolesCheck(e: Value, release: string, c: Clock, now: int)
    ensures CheckOf(e, release, c, now)(Key.RoleRevisions) <==> RolesOk(e, release)
  {
  }

  lemma HeartbeatCheck(e: Value, release: string, c: Clock, now: int)
    ensures CheckOf(e, release, c, now)(Key.HeartbeatFresh) <==> HeartbeatFresh(e, c, now)
  {
  }

  lemma QueueCheck(e: Value, release: string, c: Clock, now: int)
    ensures CheckOf(e, release, c, now)(Key.ClaimableQueueAge) <==> QueueOk(e)
  {
  }

  lemma AcceptableByName(e: Value, release: string, c: Clock, now: int)
    ensures Acceptable(e, release, c, now) <==>
              LegacyCountOk(e) && forall name :: name in RUNTIME_CHECKS ==> CheckOf(e, release, c, now)(name)
  {
  }

  /** Nothing is noted exactly when every check holds and the legacy count is a count: no check can
      fail without an error, and no other error exists. */
  lemma NoErrorsExactly(e: Value, release: string, c: Clock, now: int)
    ensures RuntimeErrors(e, release, c, now) == [] <==> Acceptable(e, release, c, now)
  {
    var holds := CheckOf(e, release, c, now);
    var first := ReleaseErrors(holds, e, release, c, now);
    ReleaseErrorsExactly(holds, e, release, c, now);
    SettingErrorsExactly(holds, e, first);
    DoctorErrorsExactly(holds, e, c, now, SettingErrors(holds, e, first));
    FreshCheck(e, release, c, now);
    RolesCheck(e, release, c, now);
    HeartbeatCheck(e, release, c, now);
    QueueCheck(e, release, c, now);
    ChecksOneByOne(holds);
    AcceptableByName(e, release, c, now);
  }

  function StatusWord(accepted: bool): Value {
    JWord(if accepted then Word.Accepted else Word.Rejected)
  }

  /** The receipt written for a report; `errors` is its error list. */
  function Receipt(r: RuntimeReport, c: Clock, errors: seq<Value>): Value {
    JObj(map[
      Key.SchemaVersion := JInt(1),
      Key.Stage := JWord(Word.Runtime),
      Key.Status := StatusWord(r.accepted),
      Key.ReleaseSha := JStr(r.release),
      Key.ObservedAt := JStr(c.render(r.observedAt)),
      Key.Checks := JObj(map name | name in r.checks :: JBool(r.checks[name])),
      Key.Errors := JList(errors)
    ])
  }

  /** An accepted report has every check true, so its receipt is a valid runtime stage; the
      converse fails exactly for an invalid legacy job count, which no check shows. */
  lemma AcceptedChecks(e: Value, release: string, c: Clock, now: int, r: RuntimeReport)
    requires VerifyRuntimeEvidence(e, release, c, now) == Some(r)
    ensures r.release == release && r.observedAt == now
    ensures r.accepted <==> LegacyCountOk(e) && forall name | name in r.checks :: r.checks[name]
    ensures r.accepted ==> RuntimeContent(Receipt(r, c, []))
  {
    NoErrorsExactly(e, release, c, now);
    assert r.checks.Keys == RUNTIME_CHECKS;
    if r.accepted {
      ReportContent(r, c);
    }
  }

  lemma ReportContent(r: RuntimeReport, c: Clock)
    requires r.checks.Keys == RUNTIME_CHECKS && forall name :: name in RUNTIME_CHECKS ==> r.checks[name]
    ensures RuntimeContent(Receipt(r, c, []))
  {
    var receipt := Receipt(r, c, []);
    assert receipt.fields.Keys == STAGE_KEYS;
    assert Get(receipt, Key.Checks).fields.Keys == RUNTIME_CHECKS;
  }

  /** Only the two freshness checks read the clock. */
  lemma CheckIgnoresClock(name: Key, e: Value, release: string, c: Clock, now: int, later: int)
    requires name != Key.RuntimeEvidenceFresh && name != Key.HeartbeatFresh
    ensures Check(name, e, release, c, later) == Check(name, e, release, c, now)
  {
  }

  lemma FreshLater(v: Value, c: Clock, now: int, later: int, maxAge: int)
    requires now <= later && FreshWithin(v, c, now, maxAge)
    ensures TimeOf(v, c.parse).Some?
    ensures FreshWithin(v, c, later, maxAge) <==> later - TimeOf(v, c.parse).value <= maxAge * MICROS
  {
  }

  function ReportedAt(e: Value): Value {
    Get(Get(Doctor(e), Key.Heartbeat), Key.ReportedAt)
  }

  /** An evidence snapshot that passed keeps passing exactly until its collection is older
      than the age limit or its heartbeat report is. */
  lemma OnlyAgesChange(e: Value, release: string, c: Clock, now: int, later: int)
    requires now <= later && Acceptable(e, release, c, now)
    ensures TimeOf(Get(e, Key.CollectedAt), c.parse).Some? && TimeOf(ReportedAt(e), c.parse).Some?
    ensures Acceptable(e, release, c, later) <==>
              && later - TimeOf(Get(e, Key.CollectedAt), c.parse).value <= RUNTIME_EVIDENCE_MAX_AGE_SECONDS * MICROS
              && later - TimeOf(ReportedAt(e), c.parse).value <= HEARTBEAT_MAX_AGE_SECONDS * MICROS
  {
    assert Check(Key.RuntimeEvidenceFresh, e, release, c, now);
    assert Check(Key.HeartbeatFresh, e, release, c, now);
    FreshLater(Get(e, Key.CollectedAt), c, now, later, RUNTIME_EVIDENCE_MAX_AGE_SECONDS);
    FreshLater(ReportedAt(e), c, now, later, HEARTBEAT_MAX_AGE_SECONDS);
    AcceptableLater(e, release, c, now, later);
  }

  /** Of predicates that agree but for two names, one of which holds throughout, the other does if
      and only if it holds of these two. */
  lemma AllButTwo(names: set<Key>, p: Key -> bool, q: Key -> bool, a: Key, b: Key)
    requires a in names && b in names && forall n :: n in names ==> p(n)
    requires forall n :: n != a && n != b ==> q(n) == p(n)
    ensures (forall n :: n in names ==> q(n)) <==> q(a) && q(b)
  {
  }

  lemma AcceptableLater(e: Value, release: string, c: Clock, now: int, later: int)
    requires Acceptable(e, release, c, now)
    ensures Acceptable(e, release, c, later) <==>
              Check(Key.RuntimeEvidenceFresh, e, release, c, later) && Check(Key.HeartbeatFresh, e, release, c, later)
  {
    var p: Key -> bool := name => Check(name, e, release, c, now);
    var q: Key -> bool := name => Check(name, e, release, c, later);
    forall name | name != Key.RuntimeEvidenceFresh && name != Key.HeartbeatFresh
      ensures q(name) == p(name)
    {
      CheckIgnoresClock(name, e, release, c, now, later);
    }
    AllButTwo(RUNTIME_CHECKS, p, q, Key.RuntimeEvidenceFresh, Key.HeartbeatFresh);
  }
}
