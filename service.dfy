/**
 * `FFRest`, the service's manager: the registry of jobs it shares with the
 * job handler, and the periodic sweep that cleans, evicts or advances
 * old jobs. The sweep's scheduling is not part of this model: each call
 * of `ExpireJobs` is one sweep at time `now`.
 */
module Service {
  import opened Common
  import opened Text
  import opened Jobs

  /** A cleaned job is dropped from the registry once it is more than thirty days old. */
  const EvictionAge: int := 30 * 24 * 3600

  /** A job still "waiting" after ten hours is made to complete. */
  const WaitingAge: int := 10 * 3600

  /** What one sweep does to one job. */
  datatype Action =
    | CleanedUp  // it could expire and had not been cleaned
    | Evicted    // it could expire, was cleaned, and is old enough to drop
    | Completed  // it could not expire but had been waiting too long
    | Untouched
    | Aborted    // an exception: the sweep stops here

  /**
   * The case-insensitive comparison of the status with "waiting" picks
   * out exactly the "Waiting" status.
   */
  lemma WaitingName(s: JobStatus)
    ensures ToLower(s.Name()) == "waiting" <==> s == Waiting
  {
    var l := ToLower(s.Name());
    match s
    case Downloading => assert |l| != 7;
    case Working => assert l[1] == 'o';
    case Waiting => assert l == "waiting";
    case Complete => assert |l| != 7;
    case Incomplete => assert |l| != 7;
    case Failed => assert |l| != 7;
  }

  /**
   * The action the sweep's `if`/`else if` chain takes on a job. A job
   * that cannot expire and has no status trips over the null status; one
   * whose `Complete` raises stops the sweep the same way.
   */
  function ActionOf(st: JobState, startTime: int, now: int, taskSetDone: bool, thumbsDone: bool): Action
  {
    var canExpire := CanExpireOf(st, startTime, now, taskSetDone, thumbsDone);
    if canExpire && !st.progress.cleaned then CleanedUp
    else if canExpire then (if now - startTime > EvictionAge then Evicted else Untouched)
    else if st.progress.status.None? then Aborted
    else if ToLower(st.progress.status.value.Name()) == "waiting" && now - startTime > WaitingAge then
      (if CompleteStep(st.progress, st.stages, startTime, now, taskSetDone, thumbsDone).1 then Aborted else Completed)
    else Untouched
  }

  /** The job after the sweep has visited it. */
  function SweptState(st: JobState, startTime: int, now: int, taskSetDone: bool, thumbsDone: bool): JobState
  {
    var canExpire := CanExpireOf(st, startTime, now, taskSetDone, thumbsDone);
    if canExpire && !st.progress.cleaned then CleanUpStep(st)
    else if !canExpire && st.progress.status == Some(Waiting) && now - startTime > WaitingAge then
      st.(progress := CompleteStep(st.progress, st.stages, startTime, now, taskSetDone, thumbsDone).0)
    else st
  }

  /**
   * The sweep's rule, case by case: a job that can expire is cleaned if it
   * was not, or evicted once cleaned and thirty days old; a job that cannot
   * expire is completed when it has been "Waiting" for more than ten
   * hours. The sweep stops at a job that cannot expire and has no status,
   * or whose `Complete` raises. Every other job is untouched. Only a
   * cleaned-up or completed job (or one whose `Complete` raised) changes.
   */
  lemma ActionRule(st: JobState, startTime: int, now: int, taskSetDone: bool, thumbsDone: bool)
    ensures var a := ActionOf(st, startTime, now, taskSetDone, thumbsDone);
      var canExpire := CanExpireOf(st, startTime, now, taskSetDone, thumbsDone);
      var s := SweptState(st, startTime, now, taskSetDone, thumbsDone);
      var stale := st.progress.status == Some(Waiting) && now - startTime > WaitingAge;
      var raises := CompleteStep(st.progress, st.stages, startTime, now, taskSetDone, thumbsDone).1;
      && (a == CleanedUp <==> canExpire && !st.progress.cleaned)
      && (a == Evicted <==> canExpire && st.progress.cleaned && now - startTime > EvictionAge)
      && (a == Completed <==> !canExpire && stale && !raises)
      && (a == Aborted <==> !canExpire && (st.progress.status.None? || (stale && raises)))
      && (a == Untouched <==>
            (canExpire && st.progress.cleaned && now - startTime <= EvictionAge) ||
            (!canExpire && st.progress.status.Some? && !stale))
      && (a == CleanedUp ==> s == CleanUpStep(st))
      && (a == Completed ==> s.progress.flaggedComplete && s.stages == st.stages)
      && (a == Evicted || a == Untouched ==> s == st)
  {
    if !CanExpireOf(st, startTime, now, taskSetDone, thumbsDone) && st.progress.status.Some? {
      WaitingName(st.progress.status.value);
    }
  }

  /** One job as the sweep finds it, with what the sweep does to it and how it leaves it. */
  datatype Entry = Entry(state: JobState, action: Action, swept: JobState)

  function EntryOf(st: JobState, startTime: int, now: int, taskSetDone: bool, thumbsDone: bool): Entry
  {
    Entry(st, ActionOf(st, startTime, now, taskSetDone, thumbsDone), SweptState(st, startTime, now, taskSetDone, thumbsDone))
  }

  /**
   * The actions of a sweep that finds `found`: each entry's action in
   * turn, up to and including the first `Aborted` one.
   */
  function SweepActions(found: seq<Entry>): seq<Action>
  {
    if found == [] then []
    else if found[0].action == Aborted then [Aborted]
    else [found[0].action] + SweepActions(found[1..])
  }

  /**
   * A sweep takes the found actions in order, and stops early only right
   * after an `Aborted` one.
   */
  lemma {:induction false} SweepActionsRule(found: seq<Entry>)
    ensures var r := SweepActions(found);
      && |r| <= |found|
      && (forall i :: 0 <= i < |r| ==> r[i] == found[i].action)
      && (forall i :: 0 <= i < |r| - 1 ==> r[i] != Aborted)
      && (|r| < |found| ==> |r| > 0 && r[|r| - 1] == Aborted)
  {
    if found != [] && found[0].action != Aborted {
      SweepActionsRule(found[1..]);
    }
  }

  /** ... and those properties single out the sweep's actions. */
  lemma {:induction false} SweepActionsOnly(found: seq<Entry>, acts: seq<Action>)
    requires |acts| <= |found|
    requires forall i :: 0 <= i < |acts| ==> acts[i] == found[i].action
    requires forall i :: 0 <= i < |acts| - 1 ==> acts[i] != Aborted
    requires |acts| < |found| ==> |acts| > 0 && acts[|acts| - 1] == Aborted
    ensures acts == SweepActions(found)
  {
    if found != [] {
      if found[0].action == Aborted {
        assert |acts| > 0 && acts[0] == Aborted;
        assert |acts| == 1;
      } else {
        assert |acts| > 0;
        SweepActionsOnly(found[1..], acts[1..]);
      }
    }
  }

  /** The number of clean-ups among `acts`. */
  function CleanUps(acts: seq<Action>): (r: nat)
    ensures r <= |acts|
    ensures r == 0 <==> forall i :: 0 <= i < |acts| ==> acts[i] != CleanedUp
  {
    if acts == [] then 0 else CleanUps(acts[..|acts| - 1]) + (if acts[|acts| - 1] == CleanedUp then 1 else 0)
  }

  /** The ids among the first `|acts|` of `order` whose job was evicted. */
  function Evictions(order: seq<string>, acts: seq<Action>): (r: set<string>)
    requires |acts| <= |order|
    ensures forall k :: k in r <==> exists i :: 0 <= i < |acts| && acts[i] == Evicted && order[i] == k
  {
    set i | 0 <= i < |acts| && acts[i] == Evicted :: order[i]
  }

  /** The jobs by id; the manager and the job handler share it. */
  class JobRegistry {
    var jobs: map<string, TranscodeJob>

    constructor()
      ensures jobs == map[]
    {
      jobs := map[];
    }

    /** No job object is registered under two ids. */
    predicate Distinct()
      reads this
    {
      forall a, b :: a in jobs && b in jobs && a != b ==> jobs[a] != jobs[b]
    }

    /** The job registered as `k`, what the sweep does to it and how it leaves it. */
    function EntryAt(k: string, now: int, taskSetDone: bool): (e: Entry)
      requires k in jobs
      reads this, jobs[k], jobs[k].stages.thumbGenerator
      ensures e.state == jobs[k].State()
    {
      EntryOf(jobs[k].State(), jobs[k].startTime, now, taskSetDone, jobs[k].ThumbsDone())
    }

    /**
     * The jobs registered under the ids in `order`, whether each one's task
     * set is done, and what the sweep will find for each.
     */
    method Snapshot(order: seq<string>, now: int, taskSetDone: string -> bool)
      returns (objs: seq<TranscodeJob>, done: seq<bool>, ghost found: seq<Entry>)
      requires Distinct()
      requires forall i, j :: 0 <= i < j < |order| ==> order[i] != order[j]
      requires forall i :: 0 <= i < |order| ==> order[i] in jobs
      ensures |objs| == |done| == |found| == |order|
      ensures forall i :: 0 <= i < |order| ==> objs[i] == jobs[order[i]] && done[i] == taskSetDone(order[i])
      ensures forall i, j :: 0 <= i < j < |order| ==> objs[i] != objs[j]
      ensures forall i :: 0 <= i < |order| ==> found[i] == EntryAt(order[i], now, taskSetDone(order[i]))
      ensures forall i :: 0 <= i < |order| ==>
        found[i] == EntryOf(objs[i].State(), objs[i].startTime, now, done[i], objs[i].ThumbsDone())
    {
      objs, done, found := [], [], [];
      while |objs| < |order|
        invariant |objs| == |done| == |found| <= |order|
        invariant forall i :: 0 <= i < |objs| ==> objs[i] == jobs[order[i]] && done[i] == taskSetDone(order[i])
        invariant forall i :: 0 <= i < |objs| ==> found[i] == EntryAt(order[i], now, done[i])
      {
        var k := order[|objs|];
        objs, done := objs + [jobs[k]], done + [taskSetDone(k)];
        found := found + [EntryAt(k, now, taskSetDone(k))];
      }
    }

    /** Drops the jobs the sweep evicted. */
    method Evict(order: seq<string>, actions: seq<Action>)
      requires |actions| <= |order|
      modifies this
      ensures jobs == old(jobs) - Evictions(order, actions)
    {
      jobs := jobs - Evictions(order, actions);
    }

    /**
     * The indexer write `jobs[k] = job`: registers `job` under `k`, in place
     * of whatever was there. A job registered under no other id keeps the
     * registry free of duplicates.
     */
    method Put(k: string, job: TranscodeJob)
      requires Distinct()
      requires forall k' :: k' in jobs && k' != k ==> jobs[k'] != job
      modifies this
      ensures jobs == old(jobs)[k := job]
      ensures Distinct()
    {
      jobs := jobs[k := job];
    }

    /** `TryRemove`: drops the job registered as `k`, if any. */
    method Remove(k: string)
      requires Distinct()
      modifies this
      ensures jobs == old(jobs) - {k}
      ensures Distinct()
    {
      jobs := jobs - {k};
    }
  }

  /**
   * The sweep's visit to one job, whose entry `e` is what the sweep finds:
   * it takes `e`'s action and leaves the job as `e` says.
   */
  method Visit(job: TranscodeJob, now: int, taskSetDone: bool, ghost e: Entry) returns (action: Action)
    requires e == EntryOf(job.State(), job.startTime, now, taskSetDone, job.ThumbsDone())
    modifies job
    ensures action == e.action && job.State() == e.swept
  {
    var canExpire := job.CanExpire(now, taskSetDone);
    if canExpire && !job.progress.cleaned {
      job.CleanUp();
      return CleanedUp;
    } else if canExpire {
      return if now - job.startTime > EvictionAge then Evicted else Untouched;
    } else if job.progress.status.None? {
      return Aborted;
    }
    WaitingName(job.progress.status.value);
    if ToLower(job.progress.status.value.Name()) == "waiting" && now - job.startTime > WaitingAge {
      var raised := job.Complete(now, taskSetDone);
      return if raised then Aborted else Completed;
    }
    return Untouched;
  }

  /** The first `n` jobs of `objs` are left as their entries in `found` say. */
  ghost predicate LeftAsFound(objs: seq<TranscodeJob>, found: seq<Entry>, n: nat)
    requires n <= |objs| == |found|
    reads set i | 0 <= i < n :: objs[i]
  {
    forall i :: 0 <= i < n ==> objs[i].State() == found[i].swept
  }

  /**
   * The sweep's loop: visits the jobs `objs` in order, each with its entry
   * in `found`, and stops after the first one that aborts it.
   */
  method VisitAll(objs: seq<TranscodeJob>, ghost found: seq<Entry>, now: int, taskSetDone: seq<bool>)
    returns (acts: seq<Action>)
    requires |objs| == |found| == |taskSetDone|
    requires forall i, j :: 0 <= i < j < |objs| ==> objs[i] != objs[j]
    requires forall i :: 0 <= i < |objs| ==>
      found[i] == EntryOf(objs[i].State(), objs[i].startTime, now, taskSetDone[i], objs[i].ThumbsDone())
    modifies set i | 0 <= i < |objs| :: objs[i]
    ensures |acts| <= |objs|
    ensures forall i :: 0 <= i < |acts| ==> acts[i] == found[i].action
    ensures forall i :: 0 <= i < |acts| - 1 ==> acts[i] != Aborted
    ensures |acts| < |objs| ==> |acts| > 0 && acts[|acts| - 1] == Aborted
    ensures forall i :: 0 <= i < |acts| ==> objs[i].State() == found[i].swept
    ensures forall i :: |acts| <= i < |objs| ==> unchanged(objs[i])
  {
    acts := [];
    while |acts| < |objs|
      invariant |acts| <= |objs|
      invariant forall i :: |acts| <= i < |objs| ==> unchanged(objs[i])
      invariant forall i :: 0 <= i < |acts| ==> objs[i].State() == found[i].swept
      invariant forall i :: 0 <= i < |acts| ==> acts[i] == found[i].action != Aborted
    {
      var v := |acts|;
      var a := Visit(objs[v], now, taskSetDone[v], found[v]);
      acts := acts + [a];
      if a == Aborted {
        return;
      }
    }
  }

  /**
   * The visits of a sweep over `registry`, in `order` (its ids, in the
   * dictionary's enumeration order) with `taskSetDone` saying, per id,
   * whether that job's task set has finished. `objs` are the jobs in turn
   * and `found` what the sweep finds for each; `actions` holds what it did
   * to each visited job, and stops after an `Aborted` action (an
   * exception, caught by the sweep). Each visited job is left as its entry
   * says and the others are untouched.
   */
  method VisitJobs(registry: JobRegistry, now: int, order: seq<string>, taskSetDone: string -> bool)
    returns (actions: seq<Action>, objs: seq<TranscodeJob>, ghost found: seq<Entry>)
    requires registry.Distinct()
    requires forall i, j :: 0 <= i < j < |order| ==> order[i] != order[j]
    requires forall k :: k in registry.jobs <==> k in order
    modifies registry.jobs.Values
    ensures |objs| == |found| == |order|
    ensures forall i :: 0 <= i < |order| ==> objs[i] == old(registry.jobs)[order[i]]
    ensures forall i :: 0 <= i < |order| ==> found[i] == old(registry.EntryAt(order[i], now, taskSetDone(order[i])))
    ensures |actions| <= |order| && actions == SweepActions(found)
    ensures LeftAsFound(objs, found, |actions|)
    ensures forall i :: |actions| <= i < |order| ==> unchanged(objs[i])
  {
    var done;
    objs, done, found := registry.Snapshot(order, now, taskSetDone);
    assert forall i :: 0 <= i < |order| ==> objs[i] in registry.jobs.Values;
    actions := VisitAll(objs, found, now, done);
    SweepActionsOnly(found, actions);
  }

  /**
   * One sweep: the visits `VisitJobs` makes, after which the evicted jobs
   * leave the registry; `totalExpired` counts the clean-ups.
   */
  method Sweep(registry: JobRegistry, now: int, order: seq<string>, taskSetDone: string -> bool)
    returns (totalExpired: nat, actions: seq<Action>, objs: seq<TranscodeJob>, ghost found: seq<Entry>)
    requires registry.Distinct()
    requires forall i, j :: 0 <= i < j < |order| ==> order[i] != order[j]
    requires forall k :: k in registry.jobs <==> k in order
    modifies registry, registry.jobs.Values
    ensures |objs| == |found| == |order|
    ensures forall i :: 0 <= i < |order| ==> objs[i] == old(registry.jobs)[order[i]]
    ensures forall i :: 0 <= i < |order| ==> found[i] == old(registry.EntryAt(order[i], now, taskSetDone(order[i])))
    ensures |actions| <= |order| && actions == SweepActions(found)
    ensures LeftAsFound(objs, found, |actions|)
    ensures forall i :: |actions| <= i < |order| ==> unchanged(objs[i])
    ensures registry.jobs == old(registry.jobs) - Evictions(order, actions)
    ensures totalExpired == CleanUps(actions)
  {
    actions, objs, found := VisitJobs(registry, now, order, taskSetDone);
    registry.Evict(order, actions);
    totalExpired := CleanUps(actions);
  }

  class FFRest {
    const registry: JobRegistry
    var expiring: bool

    constructor(registry: JobRegistry)
      ensures this.registry == registry && !expiring
    {
      this.registry := registry;
      expiring := false;
    }

    /** One `Sweep`, with `expiring` set while it runs and false afterwards. */
    method ExpireJobs(now: int, order: seq<string>, taskSetDone: string -> bool)
      returns (totalExpired: nat, actions: seq<Action>, objs: seq<TranscodeJob>, ghost found: seq<Entry>)
      requires registry.Distinct()
      requires forall i, j :: 0 <= i < j < |order| ==> order[i] != order[j]
      requires forall k :: k in registry.jobs <==> k in order
      modifies this, registry, registry.jobs.Values
      ensures !expiring
      ensures |objs| == |found| == |order|
      ensures forall i :: 0 <= i < |order| ==> objs[i] == old(registry.jobs)[order[i]]
      ensures forall i :: 0 <= i < |order| ==> found[i] == old(registry.EntryAt(order[i], now, taskSetDone(order[i])))
      ensures |actions| <= |order| && actions == SweepActions(found)
      ensures LeftAsFound(objs, found, |actions|)
      ensures forall i :: |actions| <= i < |order| ==> unchanged(objs[i])
      ensures registry.jobs == old(registry.jobs) - Evictions(order, actions)
      ensures totalExpired == CleanUps(actions)
    {
      expiring := true;
      totalExpired, actions, objs, found := Sweep(registry, now, order, taskSetDone);
      expiring := false;
    }
  }
}
