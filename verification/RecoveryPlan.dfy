/** Recovery planning of scripts/requeue_failed_discovery_runs.py: validated source runs
    grouped into recovery jobs, and the idempotency payload that names a plan. */
module RecoveryPlan {
  import opened Text
  import opened Sorting

  datatype Source = Source(runId: string, profileId: string, profileType: string, keyword: string)
  datatype Job = Job(profileId: string, profileType: string, keyword: string, sourceRunIds: seq<string>)

  /** A job is named by its profile and its case-folded keyword. */
  type JobKey = (string, string)

  function SourceKey(s: Source, fold: string -> string): JobKey { (s.profileId, fold(s.keyword)) }
  function KeyOf(j: Job, fold: string -> string): JobKey { (j.profileId, fold(j.keyword)) }

  datatype Payload = Payload(tenantId: string, runIds: seq<string>, jobKeys: seq<JobKey>)

  // ---------------------------------------------------------------------------
  // Grouping
  // ---------------------------------------------------------------------------

  /** The runs of one key, in source order. */
  function RunsOf(sources: seq<Source>, key: JobKey, fold: string -> string): seq<string> {
    if sources == [] then []
    else
      var n := |sources| - 1;
      RunsOf(sources[..n], key, fold)
      + if SourceKey(sources[n], fold) == key then [sources[n].runId] else []
  }

  /** The position of a key's job, or the job count. */
  function IndexOfKey(jobs: seq<Job>, key: JobKey, fold: string -> string): (i: nat)
    ensures i <= |jobs|
    ensures i < |jobs| ==> KeyOf(jobs[i], fold) == key
  {
    if jobs == [] then 0
    else
      var n := |jobs| - 1;
      var i := IndexOfKey(jobs[..n], key, fold);
      if i < n then i else if KeyOf(jobs[n], fold) == key then n else |jobs|
  }

  lemma {:induction false} AbsentKey(jobs: seq<Job>, key: JobKey, fold: string -> string, k: nat)
    requires IndexOfKey(jobs, key, fold) == |jobs| && k < |jobs|
    ensures KeyOf(jobs[k], fold) != key
  {
    var n := |jobs| - 1;
    if k < n {
      AbsentKey(jobs[..n], key, fold, k);
    }
  }

  /** One turn of the grouping loop: the first source of a key fixes the job's fields,
      later ones add their run. */
  function Placed(jobs: seq<Job>, s: Source, fold: string -> string): seq<Job> {
    var i := IndexOfKey(jobs, SourceKey(s, fold), fold);
    if i == |jobs| then jobs + [Job(s.profileId, s.profileType, s.keyword, [s.runId])]
    else jobs[i := jobs[i].(sourceRunIds := jobs[i].sourceRunIds + [s.runId])]
  }

  function Grouped(sources: seq<Source>, fold: string -> string): seq<Job> {
    if sources == [] then []
    else Placed(Grouped(sources[..|sources| - 1], fold), sources[|sources| - 1], fold)
  }

  /** The insertion-ordered dictionary of jobs is kept as the sequence of its values. */
  method GroupSources(sources: seq<Source>, fold: string -> string) returns (jobs: seq<Job>)
    ensures jobs == Grouped(sources, fold)
  {
    jobs := [];
    var n := 0;
    while n < |sources|
      invariant n <= |sources|
      invariant jobs == Grouped(sources[..n], fold)
    {
      assert sources[..n + 1][..n] == sources[..n];
      var s := sources[n];
      var i := IndexOfKey(jobs, SourceKey(s, fold), fold);
      if i == |jobs| {
        jobs := jobs + [Job(s.profileId, s.profileType, s.keyword, [s.runId])];
      } else {
        jobs := jobs[i := jobs[i].(sourceRunIds := jobs[i].sourceRunIds + [s.runId])];
      }
      n := n + 1;
    }
    assert sources[..n] == sources;
  }

  // ---------------------------------------------------------------------------
  // The grouping is a partition
  // ---------------------------------------------------------------------------

  ghost predicate DistinctKeys(jobs: seq<Job>, fold: string -> string) {
    forall i, j :: 0 <= i < j < |jobs| ==> KeyOf(jobs[i], fold) != KeyOf(jobs[j], fold)
  }

  lemma IndexIsUnique(jobs: seq<Job>, fold: string -> string, k: nat)
    requires DistinctKeys(jobs, fold) && k < |jobs|
    ensures IndexOfKey(jobs, KeyOf(jobs[k], fold), fold) == k
  {
    var i := IndexOfKey(jobs, KeyOf(jobs[k], fold), fold);
    if i == |jobs| {
      AbsentKey(jobs, KeyOf(jobs[k], fold), fold, k);
    }
  }

  lemma {:induction false} JobsHaveDistinctKeys(sources: seq<Source>, fold: string -> string)
    ensures DistinctKeys(Grouped(sources, fold), fold)
  {
    if sources != [] {
      var n := |sources| - 1;
      JobsHaveDistinctKeys(sources[..n], fold);
      var before := Grouped(sources[..n], fold);
      var key := SourceKey(sources[n], fold);
      if IndexOfKey(before, key, fold) == |before| {
        forall k | 0 <= k < |before|
          ensures KeyOf(before[k], fold) != key
        {
          AbsentKey(before, key, fold, k);
        }
      }
    }
  }

  /** A key has a job exactly when some source has the key. */
  lemma {:induction false} JobForEveryKey(sources: seq<Source>, fold: string -> string, n: nat)
    requires n < |sources|
    ensures IndexOfKey(Grouped(sources, fold), SourceKey(sources[n], fold), fold) < |Grouped(sources, fold)|
  {
    var m := |sources| - 1;
    var before := Grouped(sources[..m], fold);
    var after := Grouped(sources, fold);
    var key := SourceKey(sources[n], fold);
    JobsHaveDistinctKeys(sources, fold);
    var i := IndexOfKey(before, key, fold);
    if n < m {
      JobForEveryKey(sources[..m], fold, n);
      assert KeyOf(after[i], fold) == key;
      IndexIsUnique(after, fold, i);
    } else {
      assert KeyOf(after[i], fold) == key;
      IndexIsUnique(after, fold, i);
    }
  }

  lemma {:induction false} NoRunsOfNewKey(sources: seq<Source>, key: JobKey, fold: string -> string)
    requires forall n :: 0 <= n < |sources| ==> SourceKey(sources[n], fold) != key
    ensures RunsOf(sources, key, fold) == []
  {
    if sources != [] {
      NoRunsOfNewKey(sources[..|sources| - 1], key, fold);
    }
  }

  /** A job holds exactly the runs of its key, in source order, and at least one. */
  lemma {:induction false} JobHoldsItsKeysRuns(sources: seq<Source>, fold: string -> string, k: nat)
    requires k < |Grouped(sources, fold)|
    ensures var job := Grouped(sources, fold)[k];
            job.sourceRunIds == RunsOf(sources, KeyOf(job, fold), fold) && job.sourceRunIds != []
  {
    var m := |sources| - 1;
    var before := Grouped(sources[..m], fold);
    var key := SourceKey(sources[m], fold);
    var i := IndexOfKey(before, key, fold);
    if k < |before| {
      JobHoldsItsKeysRuns(sources[..m], fold, k);
      if k != i && KeyOf(before[k], fold) == key {
        JobsHaveDistinctKeys(sources[..m], fold);
        IndexIsUnique(before, fold, k);
      }
    } else {
      forall n | 0 <= n < m
        ensures SourceKey(sources[n], fold) != key
      {
        JobForEveryKey(sources[..m], fold, n);
      }
      NoRunsOfNewKey(sources[..m], key, fold);
    }
  }

  ghost predicate UniqueRuns(sources: seq<Source>) {
    forall i, j :: 0 <= i < j < |sources| ==> sources[i].runId != sources[j].runId
  }

  lemma {:induction false} RunInItsKey(sources: seq<Source>, fold: string -> string, n: nat, key: JobKey)
    requires n < |sources| && UniqueRuns(sources)
    ensures sources[n].runId in RunsOf(sources, key, fold) <==> SourceKey(sources[n], fold) == key
  {
    var m := |sources| - 1;
    if n < m {
      RunInItsKey(sources[..m], fold, n, key);
    } else {
      OnlyOwnRuns(sources[..m], fold, key, sources[n].runId);
    }
  }

  lemma {:induction false} OnlyOwnRuns(sources: seq<Source>, fold: string -> string, key: JobKey, run: string)
    requires forall n :: 0 <= n < |sources| ==> sources[n].runId != run
    ensures run !in RunsOf(sources, key, fold)
  {
    if sources != [] {
      OnlyOwnRuns(sources[..|sources| - 1], fold, key, run);
    }
  }

  /** Every source run sits in exactly one job: the job of its own key. */
  lemma EachRunInExactlyOneJob(sources: seq<Source>, fold: string -> string, n: nat, k: nat)
    requires UniqueRuns(sources) && n < |sources| && k < |Grouped(sources, fold)|
    ensures var jobs := Grouped(sources, fold);
            && sources[n].runId in jobs[k].sourceRunIds <==> k == IndexOfKey(jobs, SourceKey(sources[n], fold), fold)
    ensures IndexOfKey(Grouped(sources, fold), SourceKey(sources[n], fold), fold) < |Grouped(sources, fold)|
  {
    var jobs := Grouped(sources, fold);
    JobHoldsItsKeysRuns(sources, fold, k);
    RunInItsKey(sources, fold, n, KeyOf(jobs[k], fold));
    JobForEveryKey(sources, fold, n);
    JobsHaveDistinctKeys(sources, fold);
    IndexIsUnique(jobs, fold, k);
  }

  function TotalRuns(jobs: seq<Job>): nat {
    if jobs == [] then 0 else TotalRuns(jobs[..|jobs| - 1]) + |jobs[|jobs| - 1].sourceRunIds|
  }

  lemma {:induction false} TotalAfterGrowing(jobs: seq<Job>, i: nat, run: string)
    requires i < |jobs|
    ensures TotalRuns(jobs[i := jobs[i].(sourceRunIds := jobs[i].sourceRunIds + [run])]) == TotalRuns(jobs) + 1
  {
    var n := |jobs| - 1;
    var grown := jobs[i := jobs[i].(sourceRunIds := jobs[i].sourceRunIds + [run])];
    if i < n {
      TotalAfterGrowing(jobs[..n], i, run);
      assert grown[..n] == jobs[..n][i := jobs[i].(sourceRunIds := jobs[i].sourceRunIds + [run])];
    } else {
      assert grown[..n] == jobs[..n];
    }
  }

  /** No source is lost and none is counted twice. */
  lemma {:induction false} GroupingConserves(sources: seq<Source>, fold: string -> string)
    ensures TotalRuns(Grouped(sources, fold)) == |sources|
  {
    if sources != [] {
      var n := |sources| - 1;
      GroupingConserves(sources[..n], fold);
      var before := Grouped(sources[..n], fold);
      var i := IndexOfKey(before, SourceKey(sources[n], fold), fold);
      if i < |before| {
        TotalAfterGrowing(before, i, sources[n].runId);
      } else {
        assert Grouped(sources, fold)[..|before|] == before;
      }
    }
  }

  lemma {:induction false} TightTotal(jobs: seq<Job>)
    requires forall i :: 0 <= i < |jobs| ==> jobs[i].sourceRunIds != []
    ensures TotalRuns(jobs) >= |jobs|
    ensures TotalRuns(jobs) == |jobs| <==> forall i :: 0 <= i < |jobs| ==> |jobs[i].sourceRunIds| == 1
  {
    if jobs != [] {
      var n := |jobs| - 1;
      TightTotal(jobs[..n]);
      assert forall i :: 0 <= i < n ==> jobs[..n][i] == jobs[i];
    }
  }

  /** As many jobs as sources means one source per job, and the other way round. */
  lemma OneSourceEach(sources: seq<Source>, fold: string -> string)
    ensures var jobs := Grouped(sources, fold);
            |jobs| == |sources| <==> forall i :: 0 <= i < |jobs| ==> |jobs[i].sourceRunIds| == 1
  {
    var jobs := Grouped(sources, fold);
    GroupingConserves(sources, fold);
    forall k | 0 <= k < |jobs|
      ensures jobs[k].sourceRunIds != []
    {
      JobHoldsItsKeysRuns(sources, fold, k);
    }
    TightTotal(jobs);
  }

  // ---------------------------------------------------------------------------
  // The idempotency payload
  // ---------------------------------------------------------------------------

  function RunIds(sources: seq<Source>): seq<string> {
    seq(|sources|, i requires 0 <= i < |sources| => sources[i].runId)
  }

  function JobKeys(jobs: seq<Job>, fold: string -> string): seq<JobKey> {
    seq(|jobs|, i requires 0 <= i < |jobs| => KeyOf(jobs[i], fold))
  }

  function KeySet(sources: seq<Source>, fold: string -> string): set<JobKey> {
    set n | 0 <= n < |sources| :: SourceKey(sources[n], fold)
  }

  /** What the idempotency key digests. */
  function IdempotencyPayload(tenantId: string, sources: seq<Source>, fold: string -> string): Payload {
    Payload(tenantId, Sorted(RunIds(sources), TextLe), Sorted(JobKeys(Grouped(sources, fold), fold), PairLe))
  }

  lemma KeySetGrows(sources: seq<Source>, fold: string -> string)
    requires sources != []
    ensures KeySet(sources, fold)
         == KeySet(sources[..|sources| - 1], fold) + {SourceKey(sources[|sources| - 1], fold)}
  {
    var n := |sources| - 1;
    assert forall m :: 0 <= m < n ==> sources[..n][m] == sources[m];
  }

  lemma KeysAfterChange(jobs: seq<Job>, i: nat, job: Job, fold: string -> string)
    requires i < |jobs| && KeyOf(job, fold) == KeyOf(jobs[i], fold)
    ensures JobKeys(jobs[i := job], fold) == JobKeys(jobs, fold)
  {
  }

  lemma KeysAfterAppending(jobs: seq<Job>, job: Job, fold: string -> string)
    ensures JobKeys(jobs + [job], fold) == JobKeys(jobs, fold) + [KeyOf(job, fold)]
  {
  }

  lemma KeysAfterPlacing(jobs: seq<Job>, s: Source, fold: string -> string)
    ensures var i := IndexOfKey(jobs, SourceKey(s, fold), fold);
            JobKeys(Placed(jobs, s, fold), fold)
            == if i < |jobs| then JobKeys(jobs, fold) else JobKeys(jobs, fold) + [SourceKey(s, fold)]
  {
    var i := IndexOfKey(jobs, SourceKey(s, fold), fold);
    if i < |jobs| {
      KeysAfterChange(jobs, i, jobs[i].(sourceRunIds := jobs[i].sourceRunIds + [s.runId]), fold);
    } else {
      KeysAfterAppending(jobs, Job(s.profileId, s.profileType, s.keyword, [s.runId]), fold);
    }
  }

  /** The job keys are the source keys, each once. */
  lemma {:induction false} JobKeysAreTheKeySet(sources: seq<Source>, fold: string -> string)
    ensures multiset(JobKeys(Grouped(sources, fold), fold)) == multiset(KeySet(sources, fold))
  {
    if sources == [] {
      assert JobKeys(Grouped(sources, fold), fold) == [];
    } else {
      var n := |sources| - 1;
      JobKeysAreTheKeySet(sources[..n], fold);
      KeySetGrows(sources, fold);
      var before := Grouped(sources[..n], fold);
      KeysAfterPlacing(before, sources[n], fold);
      KeyIsOld(sources[..n], fold, SourceKey(sources[n], fold));
    }
  }

  /** A key has a job exactly when it is already in the key set. */
  lemma KeyIsOld(sources: seq<Source>, fold: string -> string, key: JobKey)
    ensures IndexOfKey(Grouped(sources, fold), key, fold) < |Grouped(sources, fold)| <==> key in KeySet(sources, fold)
  {
    var jobs := Grouped(sources, fold);
    var i := IndexOfKey(jobs, key, fold);
    if i < |jobs| {
      JobHoldsItsKeysRuns(sources, fold, i);
      if key !in KeySet(sources, fold) {
        NoRunsOfNewKey(sources, key, fold);
      }
    }
    if key in KeySet(sources, fold) {
      var m :| 0 <= m < |sources| && SourceKey(sources[m], fold) == key;
      JobForEveryKey(sources, fold, m);
    }
  }

  /** Two plans share a payload exactly when they are for one tenant, the same runs and
      the same job keys. */
  lemma SamePayload(tenant: string, sources: seq<Source>, tenant': string, sources': seq<Source>,
                    fold: string -> string)
    ensures IdempotencyPayload(tenant, sources, fold) == IdempotencyPayload(tenant', sources', fold) <==>
            && tenant == tenant'
            && multiset(RunIds(sources)) == multiset(RunIds(sources'))
            && KeySet(sources, fold) == KeySet(sources', fold)
  {
    TextLeIsTotalOrder();
    PairLeIsTotalOrder();
    SortedIsCanonical(RunIds(sources), RunIds(sources'), TextLe);
    SortedIsCanonical(JobKeys(Grouped(sources, fold), fold), JobKeys(Grouped(sources', fold), fold), PairLe);
    JobKeysAreTheKeySet(sources, fold);
    JobKeysAreTheKeySet(sources', fold);
    if multiset(KeySet(sources, fold)) == multiset(KeySet(sources', fold)) {
      assert forall k :: k in KeySet(sources, fold) <==> k in multiset(KeySet(sources, fold));
      assert forall k :: k in KeySet(sources', fold) <==> k in multiset(KeySet(sources', fold));
    }
  }

  lemma RunIdsOfParts(a: seq<Source>, b: seq<Source>)
    ensures RunIds(a + b) == RunIds(a) + RunIds(b)
  {
  }

  function Without(s: seq<Source>, i: nat): seq<Source>
    requires i < |s|
  {
    s[..i] + s[i + 1..]
  }

  lemma RemoveOne(s: seq<Source>, i: nat)
    requires i < |s|
    ensures multiset(Without(s, i)) == multiset(s) - multiset{s[i]}
    ensures multiset(RunIds(s)) == multiset(RunIds(Without(s, i))) + multiset{s[i].runId}
  {
    var one := [s[i]];
    assert s == s[..i] + (one + s[i + 1..]);
    RunIdsOfParts(s[..i], one + s[i + 1..]);
    RunIdsOfParts(one, s[i + 1..]);
    RunIdsOfParts(s[..i], s[i + 1..]);
    assert RunIds(one) == [s[i].runId];
  }

  ghost function IndexOfSource(s: seq<Source>, x: Source): (i: nat)
    requires x in multiset(s)
    ensures i < |s| && s[i] == x
  {
    var i :| 0 <= i < |s| && s[i] == x;
    i
  }

  lemma {:induction false} RunIdsOfPermutation(a: seq<Source>, b: seq<Source>)
    requires multiset(a) == multiset(b)
    ensures multiset(RunIds(a)) == multiset(RunIds(b))
    decreases |a|
  {
    if a == [] {
      assert |multiset(b)| == 0;
      assert b == [];
    } else {
      var i := IndexOfSource(b, a[0]);
      RemoveOne(a, 0);
      RemoveOne(b, i);
      RunIdsOfPermutation(Without(a, 0), Without(b, i));
    }
  }

  /** Reordering the runs does not change the payload. */
  lemma PayloadIgnoresOrder(tenant: string, a: seq<Source>, b: seq<Source>, fold: string -> string)
    requires multiset(a) == multiset(b)
    ensures IdempotencyPayload(tenant, a, fold) == IdempotencyPayload(tenant, b, fold)
  {
    RunIdsOfPermutation(a, b);
    forall k | k in KeySet(a, fold)
      ensures k in KeySet(b, fold)
    {
      var n :| 0 <= n < |a| && SourceKey(a[n], fold) == k;
      assert a[n] in multiset(b);
      var m :| 0 <= m < |b| && b[m] == a[n];
    }
    forall k | k in KeySet(b, fold)
      ensures k in KeySet(a, fold)
    {
      var n :| 0 <= n < |b| && SourceKey(b[n], fold) == k;
      assert b[n] in multiset(a);
      var m :| 0 <= m < |a| && a[m] == b[n];
    }
    SamePayload(tenant, a, tenant, b, fold);
  }

  /** The payload does not say which run belongs to which job: two runs that trade their
      keywords keep it, although every job changes its runs. */
  lemma PayloadDoesNotBindRunsToJobs(fold: string -> string)
    requires fold("a") != fold("b")
    ensures var before := [Source("r1", "p", "tor", "a"), Source("r2", "p", "tor", "b")];
            var traded := [Source("r1", "p", "tor", "b"), Source("r2", "p", "tor", "a")];
            && IdempotencyPayload("t", before, fold) == IdempotencyPayload("t", traded, fold)
            && RunsOf(before, ("p", fold("a")), fold) == ["r1"]
            && RunsOf(traded, ("p", fold("a")), fold) == ["r2"]
  {
    var before := [Source("r1", "p", "tor", "a"), Source("r2", "p", "tor", "b")];
    var traded := [Source("r1", "p", "tor", "b"), Source("r2", "p", "tor", "a")];
    assert RunIds(before) == ["r1", "r2"] == RunIds(traded);
    assert SourceKey(before[0], fold) == SourceKey(traded[1], fold);
    assert SourceKey(before[1], fold) == SourceKey(traded[0], fold);
    forall k
      ensures k in KeySet(before, fold) <==> k in KeySet(traded, fold)
    {
    }
    SamePayload("t", before, "t", traded, fold);
    RunsOfTwo(before[0], before[1], ("p", fold("a")), fold);
    RunsOfTwo(traded[0], traded[1], ("p", fold("a")), fold);
  }

  lemma RunsOfTwo(a: Source, b: Source, key: JobKey, fold: string -> string)
    ensures RunsOf([a, b], key, fold)
         == (if SourceKey(a, fold) == key then [a.runId] else [])
           + (if SourceKey(b, fold) == key then [b.runId] else [])
  {
    assert [a, b][..1] == [a];
    assert [a][..0] == [];
    assert RunsOf([a], key, fold) == if SourceKey(a, fold) == key then [a.runId] else [];
  }

  // ---------------------------------------------------------------------------
  // Building and executing a plan
  // ---------------------------------------------------------------------------

  datatype RunRow = RunRow(tenantId: string, status: string, triggerType: string, profileId: Option<string>)
  datatype ProfileRow = ProfileRow(tenantId: string, profileType: string, enabledByUser: bool, active: bool)
  datatype PendingJob = PendingJob(jobId: string, profileId: string, keyword: string)

  /** The rows the plan reads: `tasks` holds the keywords of a run's discover tasks, `pending` the
      tenant's live in-flight jobs, and `requests` the payloads of the requests made so far, which
      stand for their idempotency keys. */
  datatype Database = Database(runs: map<string, RunRow>, profiles: map<string, ProfileRow>,
                               tasks: map<string, seq<string>>, pending: seq<PendingJob>, requests: set<Payload>)

  datatype Plan = Plan(tenantId: string, expectedCount: Option<int>, payload: Payload,
                       sources: seq<Source>, jobs: seq<Job>, conflicts: seq<PendingJob>)

  datatype PlanResult = Planned(plan: Plan) | Refused

  predicate RunIsFailedManual(db: Database, tenant: string, run: string) {
    && run in db.runs && db.runs[run].tenantId == tenant
    && db.runs[run].status == "failed" && db.runs[run].triggerType == "manual"
    && db.runs[run].profileId.Some?
  }

  predicate RunIsRecoverable(db: Database, tenant: string, run: string) {
    && RunIsFailedManual(db, tenant, run)
    && var profile := db.runs[run].profileId.value;
    && profile in db.profiles && db.profiles[profile].tenantId == tenant
    && db.profiles[profile].enabledByUser && db.profiles[profile].active
    && run in db.tasks && |db.tasks[run]| == 1 && Strip(db.tasks[run][0]) != ""
  }

  function SourceOf(db: Database, tenant: string, run: string): Source
    requires RunIsRecoverable(db, tenant, run)
  {
    var profile := db.runs[run].profileId.value;
    Source(run, profile, db.profiles[profile].profileType, Strip(db.tasks[run][0]))
  }

  /** Pending jobs that would duplicate a recovery job. */
  function Conflicts(pending: seq<PendingJob>, jobs: seq<Job>, fold: string -> string): seq<PendingJob> {
    if pending == [] then []
    else
      var n := |pending| - 1;
      Conflicts(pending[..n], jobs, fold)
      + if IndexOfKey(jobs, (pending[n].profileId, fold(pending[n].keyword)), fold) < |jobs| then [pending[n]] else []
  }

  ghost predicate Distinct(ids: seq<string>) {
    forall i, j :: 0 <= i < j < |ids| ==> ids[i] != ids[j]
  }

  /** Everything the plan demands of its request. */
  ghost predicate PlanDemands(db: Database, tenant: string, runIds: seq<string>, expectedCount: Option<int>,
                              fold: string -> string)
  {
    && runIds != [] && Distinct(runIds)
    && (expectedCount.Some? ==> expectedCount.value >= 1)
    && (forall i :: 0 <= i < |runIds| ==> RunIsRecoverable(db, tenant, runIds[i]))
    && (expectedCount.Some? ==>
          && |runIds| == expectedCount.value
          && |Grouped(SourcesOf(db, tenant, runIds), fold)| == expectedCount.value)
  }

  ghost function SourcesOf(db: Database, tenant: string, runIds: seq<string>): seq<Source>
    requires forall i :: 0 <= i < |runIds| ==> RunIsRecoverable(db, tenant, runIds[i])
  {
    seq(|runIds|, i requires 0 <= i < |runIds| => SourceOf(db, tenant, runIds[i]))
  }

  method HasDuplicate(ids: seq<string>) returns (found: bool)
    ensures found <==> !Distinct(ids)
  {
    var seen: set<string> := {};
    var i := 0;
    while i < |ids|
      invariant i <= |ids|
      invariant Distinct(ids[..i])
      invariant forall x :: x in seen <==> x in ids[..i]
    {
      if ids[i] in seen {
        var k :| 0 <= k < i && ids[k] == ids[i];
        return true;
      }
      seen := seen + {ids[i]};
      i := i + 1;
    }
    assert ids[..i] == ids;
    return false;
  }

  method FindConflicts(pending: seq<PendingJob>, jobs: seq<Job>, fold: string -> string)
    returns (conflicts: seq<PendingJob>)
    ensures conflicts == Conflicts(pending, jobs, fold)
  {
    conflicts := [];
    for i := 0 to |pending|
      invariant conflicts == Conflicts(pending[..i], jobs, fold)
    {
      assert pending[..i + 1][..i] == pending[..i];
      if IndexOfKey(jobs, (pending[i].profileId, fold(pending[i].keyword)), fold) < |jobs| {
        conflicts := conflicts + [pending[i]];
      }
    }
    assert pending[..|pending|] == pending;
  }

  /** The plan for some runs, when its demands are met: their sources, grouped, with their payload, and
      the pending jobs in conflict with the groups. */
  ghost function PlanOf(
    db: Database, tenant: string, runIds: seq<string>, expectedCount: Option<int>, fold: string -> string): Plan
    requires PlanDemands(db, tenant, runIds, expectedCount, fold)
  {
    var sources := SourcesOf(db, tenant, runIds);
    Plan(tenant, expectedCount, IdempotencyPayload(tenant, sources, fold), sources, Grouped(sources, fold),
         Conflicts(db.pending, Grouped(sources, fold), fold))
  }

  /** The identifiers are already in canonical form. */
  method BuildRecoveryPlan(db: Database, tenant: string, runIds: seq<string>, expectedCount: Option<int>,
                           fold: string -> string)
    returns (result: PlanResult)
    ensures result.Planned? <==> PlanDemands(db, tenant, runIds, expectedCount, fold)
    ensures result.Planned? ==> result.plan == PlanOf(db, tenant, runIds, expectedCount, fold)
  {
    var duplicated := HasDuplicate(runIds);
    if runIds == [] || duplicated || (expectedCount.Some? && expectedCount.value < 1) {
      return Refused;
    }
    var i := 0;
    while i < |runIds|
      invariant i <= |runIds|
      invariant forall k :: 0 <= k < i ==> RunIsFailedManual(db, tenant, runIds[k])
    {
      if !RunIsFailedManual(db, tenant, runIds[i]) {
        return Refused;
      }
      i := i + 1;
    }
    var sources: seq<Source> := [];
    i := 0;
    while i < |runIds|
      invariant i <= |runIds|
      invariant forall k :: 0 <= k < i ==> RunIsRecoverable(db, tenant, runIds[k])
      invariant sources == SourcesOf(db, tenant, runIds[..i])
    {
      if !RunIsRecoverable(db, tenant, runIds[i]) {
        return Refused;
      }
      sources := sources + [SourceOf(db, tenant, runIds[i])];
      i := i + 1;
    }
    assert runIds[..i] == runIds;
    var jobs := GroupSources(sources, fold);
    if expectedCount.Some? && (|sources| != expectedCount.value || |jobs| != expectedCount.value) {
      return Refused;
    }
    var conflicts := FindConflicts(db.pending, jobs, fold);
    return Planned(Plan(tenant, expectedCount, IdempotencyPayload(tenant, sources, fold), sources, jobs, conflicts));
  }

  /** What executing a plan comes to: an error, the answer to a request made before, which queues
      nothing, or the jobs it queues. */
  datatype Execution = Failure | Replayed | Enqueued(jobs: seq<Job>)

  /** The plan can be rebuilt, and its payload is still the reviewed one. */
  ghost predicate StillStands(db: Database, plan: Plan, fold: string -> string) {
    && PlanDemands(db, plan.tenantId, RunIds(plan.sources), plan.expectedCount, fold)
    && IdempotencyPayload(plan.tenantId, SourcesOf(db, plan.tenantId, RunIds(plan.sources)), fold) == plan.payload
  }

  /** The jobs the plan stands for now. */
  ghost function CurrentJobs(db: Database, plan: Plan, fold: string -> string): seq<Job>
    requires StillStands(db, plan, fold)
  {
    Grouped(SourcesOf(db, plan.tenantId, RunIds(plan.sources)), fold)
  }

  ghost function Executed(db: Database, plan: Plan, fold: string -> string): Execution {
    if !StillStands(db, plan, fold) then Failure
    else if plan.payload in db.requests then Replayed
    else if Conflicts(db.pending, CurrentJobs(db, plan, fold), fold) != [] then Failure
    else Enqueued(CurrentJobs(db, plan, fold))
  }

  /** The pending rows of newly queued jobs, with the ids they are given. */
  function RowsOf(jobs: seq<Job>, ids: nat -> string): seq<PendingJob> {
    seq(|jobs|, i requires 0 <= i < |jobs| => PendingJob(ids(i), jobs[i].profileId, jobs[i].keyword))
  }

  /** The database after an execution: only a request that queues jobs changes it. */
  function Afterwards(db: Database, plan: Plan, x: Execution, ids: nat -> string): Database {
    if x.Enqueued? then db.(pending := db.pending + RowsOf(x.jobs, ids), requests := db.requests + {plan.payload})
    else db
  }

  /** Execution rebuilds the plan. An unchanged payload is handed to the repository, which answers a
      request it knows again, refuses jobs that have a pending one, and queues the rest at once. */
  method ExecuteRecoveryPlan(db: Database, plan: Plan, fold: string -> string, ids: nat -> string)
    returns (x: Execution, after: Database)
    ensures x == Executed(db, plan, fold) && after == Afterwards(db, plan, x, ids)
    ensures x.Enqueued? <==>
              && StillStands(db, plan, fold) && plan.payload !in db.requests
              && Conflicts(db.pending, CurrentJobs(db, plan, fold), fold) == []
    ensures x.Replayed? <==> StillStands(db, plan, fold) && plan.payload in db.requests
  {
    var current := BuildRecoveryPlan(db, plan.tenantId, RunIds(plan.sources), plan.expectedCount, fold);
    if current.Refused? || current.plan.payload != plan.payload {
      return Failure, db;
    }
    if plan.payload in db.requests {
      return Replayed, db;
    }
    if current.plan.conflicts != [] {
      return Failure, db;
    }
    x := Enqueued(current.plan.jobs);
    after := db.(pending := db.pending + RowsOf(current.plan.jobs, ids), requests := db.requests + {plan.payload});
  }

  /** Executing a plan a second time, on the database the first time left, queues nothing more: what
      queued jobs is answered again, and what failed without the plan having changed fails again. */
  lemma ExecutedTwice(db: Database, plan: Plan, fold: string -> string, ids: nat -> string, ids': nat -> string)
    ensures var x := Executed(db, plan, fold);
            var after := Afterwards(db, plan, x, ids);
            var y := Executed(after, plan, fold);
            && (x.Enqueued? ==> y.Replayed?) && (!x.Enqueued? ==> y == x)
            && Afterwards(after, plan, y, ids') == after
  {
    var x := Executed(db, plan, fold);
    var after := Afterwards(db, plan, x, ids);
    if x.Enqueued? {
      SameRowsSameDemands(db, after, plan.tenantId, RunIds(plan.sources), plan.expectedCount, fold);
    }
  }

  /** What a plan demands does not depend on pending jobs or on requests. */
  lemma SameRowsSameDemands(a: Database, b: Database, tenant: string, runIds: seq<string>, expectedCount: Option<int>,
                            fold: string -> string)
    requires a.runs == b.runs && a.profiles == b.profiles && a.tasks == b.tasks
    requires PlanDemands(a, tenant, runIds, expectedCount, fold)
    ensures PlanDemands(b, tenant, runIds, expectedCount, fold)
    ensures SourcesOf(a, tenant, runIds) == SourcesOf(b, tenant, runIds)
  {
    assert forall i :: 0 <= i < |runIds| ==>
             RunIsRecoverable(a, tenant, runIds[i]) && RunIsRecoverable(b, tenant, runIds[i]);
    assert SourcesOf(a, tenant, runIds) == SourcesOf(b, tenant, runIds);
  }

  /** Sources with one payload are grouped under the same keys. */
  lemma SamePayloadSameKeys(reviewed: seq<Source>, current: seq<Source>, tenant: string, fold: string -> string)
    requires IdempotencyPayload(tenant, current, fold) == IdempotencyPayload(tenant, reviewed, fold)
    ensures multiset(JobKeys(Grouped(current, fold), fold)) == multiset(JobKeys(Grouped(reviewed, fold), fold))
  {
    SamePayload(tenant, current, tenant, reviewed, fold);
    JobKeysAreTheKeySet(current, fold);
    JobKeysAreTheKeySet(reviewed, fold);
  }

  /** A plan is built and reviewed on one database and executed on another. Whatever changed in between,
      if the execution queues jobs, they have the profile and keyword keys of the jobs of the plan. */
  lemma EnqueuedKeysWereReviewed(
    reviewed: Database, db: Database, tenant: string, runIds: seq<string>, expectedCount: Option<int>,
    fold: string -> string)
    requires PlanDemands(reviewed, tenant, runIds, expectedCount, fold)
    requires Executed(db, PlanOf(reviewed, tenant, runIds, expectedCount, fold), fold).Enqueued?
    ensures var plan := PlanOf(reviewed, tenant, runIds, expectedCount, fold);
            multiset(JobKeys(Executed(db, plan, fold).jobs, fold)) == multiset(JobKeys(plan.jobs, fold))
  {
    var plan := PlanOf(reviewed, tenant, runIds, expectedCount, fold);
    SamePayloadSameKeys(plan.sources, SourcesOf(db, tenant, RunIds(plan.sources)), tenant, fold);
  }
}
