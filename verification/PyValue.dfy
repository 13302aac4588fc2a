/** Decoded JSON values and the value tests the verifiers apply to them. An absent key
    reads as JNull. Field names, and the texts the receipts give a meaning to, are
    constructors named after them; any other text is a JStr. */
module PyValue {
  import opened Text

  datatype Key =
    Agent | AgentPendingJobs | Api | ArtifactRecordCount | ArtifactRetrievable | BakedReleaseSha | Blockers |
    BrowserStarted | CanaryProof | CanaryProofValid | Checks | ChildPid | ChildPidAlive | ChildProcessStopped
    | ClaimableCount | ClaimableQueueAge | CollectedAt | ContainerImageId | ContractVersion |
    CrawlerAgentInboxExecutor | CrawlerAgentProtocol | DeadlineReached | DeferReasons | DiscoveryExecutor |
    DiscoveryExecutorReplicas | DiscoveryExecutorZero | Doctor | DoctorReady | DoctorUnblocked |
    EligibleInvitationPage | Errors | Event | EvidenceBounded | EvidenceCanaryProofOrdered |
    EvidenceCorrelationMatch | EvidenceJsonl | EvidenceRedacted | EvidenceReleaseSha | EvidenceTerminalEvent |
    ExactTargetMatch | Heartbeat | HeartbeatAgeSeconds | HeartbeatFresh | HeartbeatOnline | HeartbeatStatus |
    ImageId | JobId | JobRunCorrelated | JobStatus | KeywordExact | LaterPagePersisted | LaunchdUninstalled |
    Legacy | LockStatus | MacReleaseSha | MaxPagesPerKeyword | Migrate | ObservedAt | OciRevision |
    OldestClaimableAgeSeconds | OpenCandidateCount | OrderedPages | PageSequence | PendingJobsByBackend |
    PersistedCandidateCount | PersistenceDisabled | PostflightRuntimeAccepted | ProcessGroupReaped | Profile |
    ProfileExecutionBackend | ProfileLocked | ProfileReady | ProfileUnlocked | Queue | Receipts | ReleaseSha |
    ReportedAt | RoleRevisions | Rollback | RunFinishedAgeSeconds | RunFresh | RunId | RunStatus |
    RuntimeEvidenceFresh | SchemaVersion | Seq | SharedParser | SourceReleaseSha | Stage | Status |
    TargetContractVersion | TargetDigest | TargetFingerprint | TenantId | TerminalOutcome | TerminalScan |
    TunnelClosed | WatcherStopped | WebhookExecutor | Other(name: string)

  datatype Word =
    Accepted | Rejected | Rehearsed | Runtime | Observation | Canary | Supervised | Rollback |
    DispatchFinished | CanaryProofValidated | NextControlAbsent | NextControlDisabled | MaxPagesReached | Off
    | Legacy | Ready | Online | Free | Dispatched | Succeeded

  datatype Value =
    | JNull
    | JBool(b: bool)
    | JInt(n: int)
    | JReal(r: real)
    | JStr(s: string)
    | JWord(w: Word)
    | JList(items: seq<Value>)
    | JObj(fields: map<Key, Value>)

  /** Field read; a value that is not an object has no fields. */
  function Get(v: Value, key: Key): Value {
    if v.JObj? && key in v.fields then v.fields[key] else JNull
  }

  /** `== 1`, which booleans and floats also satisfy. */
  predicate EqualsOne(v: Value) {
    v == JInt(1) || v == JBool(true) || (v.JReal? && v.r == 1.0)
  }

  /** `== 0`, likewise. */
  predicate EqualsZero(v: Value) {
    v == JInt(0) || v == JBool(false) || (v.JReal? && v.r == 0.0)
  }

  predicate IsTrue(v: Value) { v == JBool(true) }
  predicate IsFalse(v: Value) { v == JBool(false) }

  predicate IsEmptyList(v: Value) { v.JList? && v.items == [] }

  /** An exact 40-character lowercase Git SHA. */
  predicate IsReleaseSha(v: Value) {
    v.JStr? && |v.s| == 40 && AllLowerHex(v.s)
  }

  predicate IsDigest(v: Value) {
    v.JStr? && |v.s| == 64 && AllLowerHex(v.s)
  }

  /** "sha256:" and 64 lowercase hex characters. */
  predicate IsImageId(v: Value) {
    v.JStr? && |v.s| == 71 && v.s[..7] == "sha256:" && AllLowerHex(v.s[7..])
  }

  predicate NumberWithin(v: Value, maximum: int) {
    (v.JInt? && 0 <= v.n <= maximum) || (v.JReal? && 0.0 <= v.r <= maximum as real)
  }

  /** Exactly these keys, each holding `true`. */
  predicate AllTrue(v: Value, names: set<Key>) {
    v.JObj? && v.fields.Keys == names && forall name | name in names :: Get(v, name) == JBool(true)
  }
}
