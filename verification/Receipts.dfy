/** The receipt shapes of the Track B/C release gate and what makes one valid
    (track_bc_verify.py). Times are microseconds. */
module Receipts {
  import opened Text
  import opened PyValue

  const MICROS := 1_000_000
  const FUTURE_SKEW_SECONDS := 60
  const RUNTIME_EVIDENCE_MAX_AGE_SECONDS := 300
  const OBSERVATION_MAX_PAGES := 15

  const RUNTIME_CHECKS: set<Key> := {
    Key.SourceReleaseSha, Key.RuntimeEvidenceFresh, Key.RoleRevisions, Key.MacReleaseSha,
    Key.DiscoveryExecutorReplicas, Key.CrawlerAgentProtocol, Key.ProfileExecutionBackend,
    Key.AgentPendingJobs, Key.DoctorReady, Key.DoctorUnblocked, Key.HeartbeatOnline,
    Key.HeartbeatFresh, Key.ProfileReady, Key.ProfileUnlocked, Key.ClaimableQueueAge
  }

  const CANARY_CHECKS: set<Key> := {
    Key.JobRunCorrelated, Key.JobStatus, Key.RunStatus, Key.RunFresh, Key.OpenCandidateCount,
    Key.PersistedCandidateCount, Key.ArtifactRecordCount, Key.ArtifactRetrievable,
    Key.EvidenceJsonl, Key.EvidenceBounded, Key.EvidenceRedacted, Key.EvidenceCorrelationMatch,
    Key.EvidenceReleaseSha, Key.EvidenceTerminalEvent, Key.ChildProcessStopped, Key.ProfileUnlocked
  }

  const CANARY_V2_CHECKS: set<Key> := CANARY_CHECKS + {
    Key.ExactTargetMatch, Key.CanaryProofValid, Key.OrderedPages, Key.TerminalScan,
    Key.LaterPagePersisted, Key.EvidenceCanaryProofOrdered
  }

  const OBSERVATION_CHECKS: set<Key> := {
    Key.BrowserStarted, Key.EligibleInvitationPage, Key.KeywordExact, Key.MaxPagesPerKeyword,
    Key.PageSequence, Key.PersistenceDisabled, Key.SharedParser, Key.TerminalOutcome
  }

  const ROLLBACK_CHECKS: set<Key> := {
    Key.LaunchdUninstalled, Key.WatcherStopped, Key.TunnelClosed, Key.DiscoveryExecutorZero
  }

  const STAGE_KEYS: set<Key> := {
    Key.SchemaVersion, Key.Stage, Key.Status, Key.ReleaseSha, Key.ObservedAt, Key.Checks, Key.Errors
  }

  const FINGERPRINTED_KEYS: set<Key> := STAGE_KEYS + {Key.TargetFingerprint}

  const SUPERVISED_KEYS: set<Key> := {
    Key.SchemaVersion, Key.Stage, Key.Status, Key.ReleaseSha, Key.ObservedAt, Key.DeadlineReached,
    Key.ProcessGroupReaped, Key.PostflightRuntimeAccepted, Key.Errors
  }

  const ROLLBACK_KEYS: set<Key> := {
    Key.SchemaVersion, Key.Stage, Key.Status, Key.ReleaseSha, Key.ObservedAt, Key.Checks
  }

  /** Reading a time stamp: `parse` gives the UTC time of an offset-carrying ISO text. */
  function TimeOf(v: Value, parse: string -> Option<int>): Option<int> {
    if v.JStr? && Strip(v.s) != "" then parse(v.s) else None
  }

  datatype Age = Fresh | Stale | Future | Untimed

  function AgeOf(time: Option<int>, reference: int, maxAgeSeconds: int): Age {
    if time.None? then Untimed
    else if reference - time.value < -FUTURE_SKEW_SECONDS * MICROS then Future
    else if reference - time.value > maxAgeSeconds * MICROS then Stale
    else Fresh
  }

  // ---------------------------------------------------------------------------
  // Page sequences and terminal outcomes
  // ---------------------------------------------------------------------------

  /** The JSON list 1, 2, ..., n. */
  function PagesUpTo(n: nat): seq<Value> {
    seq(n, i => JInt(i + 1))
  }

  predicate PagesInOrder(v: Value) {
    v.JList? && |v.items| >= 5 && v.items == PagesUpTo(|v.items|)
  }

  predicate ScanIsTerminal(outcome: Value, pages: Value, cap: int) {
    if outcome == JWord(Word.MaxPagesReached) then
      PagesInOrder(pages) && pages.items[|pages.items| - 1] == JInt(cap)
    else outcome in {JWord(Word.NextControlAbsent), JWord(Word.NextControlDisabled)}
  }

  // ---------------------------------------------------------------------------
  // Stage content
  // ---------------------------------------------------------------------------

  predicate RuntimeContent(r: Value) {
    r.JObj? && r.fields.Keys == STAGE_KEYS && AllTrue(Get(r, Key.Checks), RUNTIME_CHECKS)
      && IsEmptyList(Get(r, Key.Errors))
  }

  predicate CanaryV1Content(r: Value) {
    r.JObj? && r.fields.Keys == STAGE_KEYS && AllTrue(Get(r, Key.Checks), CANARY_CHECKS)
      && IsEmptyList(Get(r, Key.Errors))
  }

  predicate CanaryV2Content(r: Value) {
    && r.JObj? && r.fields.Keys == FINGERPRINTED_KEYS
    && AllTrue(Get(r, Key.Checks), CANARY_V2_CHECKS) && IsEmptyList(Get(r, Key.Errors))
    && IsDigest(Get(r, Key.TargetFingerprint))
  }

  predicate SupervisedContent(r: Value) {
    && r.JObj? && r.fields.Keys == SUPERVISED_KEYS
    && IsTrue(Get(r, Key.DeadlineReached)) && IsTrue(Get(r, Key.ProcessGroupReaped))
    && IsTrue(Get(r, Key.PostflightRuntimeAccepted)) && IsEmptyList(Get(r, Key.Errors))
  }

  predicate ObservationChecksValid(checks: Value) {
    && checks.JObj? && checks.fields.Keys == OBSERVATION_CHECKS
    && IsTrue(Get(checks, Key.BrowserStarted))
    && Get(checks, Key.EligibleInvitationPage).JInt? && Get(checks, Key.EligibleInvitationPage).n >= 2
    && IsTrue(Get(checks, Key.KeywordExact))
    && Get(checks, Key.MaxPagesPerKeyword) == JInt(OBSERVATION_MAX_PAGES)
    && PagesInOrder(Get(checks, Key.PageSequence))
    && IsTrue(Get(checks, Key.PersistenceDisabled))
    && IsTrue(Get(checks, Key.SharedParser))
    && ScanIsTerminal(Get(checks, Key.TerminalOutcome), Get(checks, Key.PageSequence), OBSERVATION_MAX_PAGES)
  }

  predicate ObservationContent(r: Value) {
    && r.JObj? && r.fields.Keys == FINGERPRINTED_KEYS
    && Get(r, Key.SchemaVersion) == JInt(1)
    && Get(r, Key.Stage) == JWord(Word.Observation)
    && Get(r, Key.Status) == JWord(Word.Accepted)
    && IsEmptyList(Get(r, Key.Errors))
    && ObservationChecksValid(Get(r, Key.Checks))
    && IsDigest(Get(r, Key.TargetFingerprint))
  }

  predicate RollbackShape(r: Value) {
    && r.JObj? && r.fields.Keys == ROLLBACK_KEYS
    && EqualsOne(Get(r, Key.SchemaVersion)) && Get(r, Key.Stage) == JWord(Word.Rollback)
  }
}
