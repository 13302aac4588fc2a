/** When the payload of a recovery plan fixes which run belongs to which job
    (scripts/requeue_failed_discovery_runs.py). */
module RecoveryPayload {
  import opened RecoveryPlan

  /** Every list of sources with this payload gives each key the same runs. */
  ghost predicate FixesGrouping(tenant: string, sources: seq<Source>, fold: string -> string) {
    forall others, key | IdempotencyPayload(tenant, others, fold) == IdempotencyPayload(tenant, sources, fold) ::
      multiset(RunsOf(others, key, fold)) == multiset(RunsOf(sources, key, fold))
  }

  ghost predicate OneKey(sources: seq<Source>, fold: string -> string) {
    forall i, j :: 0 <= i < |sources| && 0 <= j < |sources| ==>
      SourceKey(sources[i], fold) == SourceKey(sources[j], fold)
  }

  lemma {:induction false} RunsOfOneKey(sources: seq<Source>, only: JobKey, key: JobKey, fold: string -> string)
    requires forall n :: 0 <= n < |sources| ==> SourceKey(sources[n], fold) == only
    ensures RunsOf(sources, key, fold) == if key == only then RunIds(sources) else []
  {
    if sources != [] {
      var n := |sources| - 1;
      RunsOfOneKey(sources[..n], only, key, fold);
      assert RunIds(sources) == RunIds(sources[..n]) + [sources[n].runId];
    }
  }

  /** Sources with the key set of one key all have this key. */
  lemma KeySetOfOne(sources: seq<Source>, others: seq<Source>, only: JobKey, fold: string -> string)
    requires sources != [] && forall n :: 0 <= n < |sources| ==> SourceKey(sources[n], fold) == only
    requires KeySet(others, fold) == KeySet(sources, fold)
    ensures forall n :: 0 <= n < |others| ==> SourceKey(others[n], fold) == only
  {
    assert SourceKey(sources[0], fold) in KeySet(sources, fold);
    assert forall n :: 0 <= n < |others| ==> SourceKey(others[n], fold) in KeySet(others, fold);
  }

  lemma OneKeyFixes(tenant: string, sources: seq<Source>, fold: string -> string)
    requires OneKey(sources, fold)
    ensures FixesGrouping(tenant, sources, fold)
  {
    forall others, key | IdempotencyPayload(tenant, others, fold) == IdempotencyPayload(tenant, sources, fold)
      ensures multiset(RunsOf(others, key, fold)) == multiset(RunsOf(sources, key, fold))
    {
      SamePayload(tenant, others, tenant, sources, fold);
      if sources == [] {
        assert |multiset(RunIds(others))| == |RunIds(others)| == |others|;
        assert others == [];
      } else {
        var only := SourceKey(sources[0], fold);
        KeySetOfOne(sources, others, only, fold);
        RunsOfOneKey(sources, only, key, fold);
        RunsOfOneKey(others, only, key, fold);
      }
    }
  }

  /** Two sources trade their runs. */
  function Traded(sources: seq<Source>, i: nat, j: nat): seq<Source>
    requires i < |sources| && j < |sources|
  {
    sources[i := sources[i].(runId := sources[j].runId)][j := sources[j].(runId := sources[i].runId)]
  }

  lemma TradeKeepsPayload(tenant: string, sources: seq<Source>, i: nat, j: nat, fold: string -> string)
    requires i < j < |sources|
    ensures IdempotencyPayload(tenant, Traded(sources, i, j), fold) == IdempotencyPayload(tenant, sources, fold)
  {
    var traded, ids := Traded(sources, i, j), RunIds(sources);
    assert RunIds(traded) == ids[i := ids[j]][j := ids[i]];
    assert multiset(RunIds(traded)) == multiset(ids);
    assert forall n :: 0 <= n < |sources| ==> SourceKey(traded[n], fold) == SourceKey(sources[n], fold);
    SamePayload(tenant, traded, tenant, sources, fold);
  }

  lemma TradeKeepsUnique(sources: seq<Source>, i: nat, j: nat)
    requires UniqueRuns(sources) && i < j < |sources|
    ensures UniqueRuns(Traded(sources, i, j))
  {
    var traded := Traded(sources, i, j);
    forall m, n | 0 <= m < n < |traded|
      ensures traded[m].runId != traded[n].runId
    {
      var was := (k: int) => if k == i then j else if k == j then i else k;
      assert traded[m].runId == sources[was(m)].runId && traded[n].runId == sources[was(n)].runId;
    }
  }

  lemma TradeMovesRun(sources: seq<Source>, i: nat, j: nat, fold: string -> string)
    requires UniqueRuns(sources) && i < j < |sources| && SourceKey(sources[i], fold) != SourceKey(sources[j], fold)
    ensures var key := SourceKey(sources[i], fold);
            multiset(RunsOf(Traded(sources, i, j), key, fold)) != multiset(RunsOf(sources, key, fold))
  {
    var key, traded := SourceKey(sources[i], fold), Traded(sources, i, j);
    RunInItsKey(sources, fold, i, key);
    TradeKeepsUnique(sources, i, j);
    RunInItsKey(traded, fold, j, key);
    Differ(RunsOf(sources, key, fold), RunsOf(traded, key, fold), sources[i].runId);
  }

  lemma Differ(a: seq<string>, b: seq<string>, x: string)
    requires x in a && x !in b
    ensures multiset(a) != multiset(b)
  {
    assert x in multiset(a) && x !in multiset(b);
  }

  /** For distinct runs, the payload fixes which run belongs to which job if and only if all sources
      have one key: as soon as there are two, two of them can trade their runs under it. */
  lemma PayloadFixesGroupingExactly(tenant: string, sources: seq<Source>, fold: string -> string)
    requires UniqueRuns(sources)
    ensures FixesGrouping(tenant, sources, fold) <==> OneKey(sources, fold)
  {
    if OneKey(sources, fold) {
      OneKeyFixes(tenant, sources, fold);
    } else {
      var i, j :| 0 <= i < |sources| && 0 <= j < |sources|
        && SourceKey(sources[i], fold) != SourceKey(sources[j], fold);
      var a, b := if i < j then i else j, if i < j then j else i;
      TradeKeepsPayload(tenant, sources, a, b, fold);
      TradeMovesRun(sources, a, b, fold);
    }
  }
}
