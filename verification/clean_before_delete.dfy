/**
Safety of the cleanup protocol over whole runs: a PV object is deleted only after its
volume has been cleaned, after that object's own release. This holds when the cache has
dropped every deleted PV before the next pass of DeletePVs begins; a pass that begins with
a cache that has not can go on to delete a PV that was never cleaned.
*/
module CleanBeforeDelete {
  import opened Options
  import opened ProcTables
  import opened CleanupProtocol

  predicate ToBeCleaned(pv: PV) {
    pv.phase == Released && pv.policy == Delete
  }

  /** The cache shows, as waiting to be cleaned, a PV that is no longer the API server's
      object of that name. */
  predicate Stale(s: Sys, n: Name) {
    n in s.cache && ToBeCleaned(s.cache[n]) && (n in s.api ==> s.api[n].uid != s.cache[n].uid)
  }

  ghost predicate CacheCurrent(s: Sys) {
    forall n :: n in s.cache ==> !Stale(s, n)
  }

  /** Every pass of DeletePVs begins with such a cache. */
  ghost predicate PassesBeginCurrent(states: seq<Sys>, steps: seq<Step>)
    requires |states| == |steps| + 1
  {
    forall i :: 0 <= i < |steps| && steps[i].BeginPass? ==> CacheCurrent(states[i])
  }

  /** `pv` is a version of the API server's object of that name. */
  predicate Current(s: Sys, n: Name, pv: PV) {
    && n in s.api && s.api[n].uid == pv.uid && s.api[n].policy == pv.policy
    && (pv.phase == Released ==> s.api[n].phase == Released)
  }

  /** An entry belongs to the object that now has the name; that object is released, and
      cleaned if the entry says so. */
  ghost predicate EntriesCurrent(s: Sys) {
    forall n :: n in s.table.entries ==>
      && n in s.api && s.api[n].phase == Released
      && (s.table.entries[n] == CSSucceeded ==> s.api[n].uid in s.cleaned)
  }

  ghost predicate CleanersCurrent(s: Sys) {
    forall c :: c in s.cleaners ==> c.afterRelease && c.name in s.api && s.api[c.name].uid == c.uid
  }

  predicate Handling(loop: Loop) {
    loop.Checking? || loop.Removing? || loop.Deleting? || loop.Marking? || loop.Spawning?
  }

  /** The list that the loop works through is current, and so is the PV in hand, which is
      released, of policy Delete, and cleaned where it is about to be deleted. */
  ghost predicate LoopCurrent(s: Sys) {
    && (s.loop.Passing? || Handling(s.loop) ==>
          forall n :: n in s.loop.todo && ToBeCleaned(s.loop.todo[n]) ==> Current(s, n, s.loop.todo[n]))
    && (Handling(s.loop) ==>
          && s.loop.name !in s.loop.todo
          && Current(s, s.loop.name, s.loop.pv)
          && ToBeCleaned(s.loop.pv))
    && (s.loop.Deleting? ==> s.loop.pv.uid in s.cleaned)
  }

  /** The property: what has been deleted was cleaned after its release, and was to be deleted. */
  ghost predicate DeletedCleaned(s: Sys) {
    forall u :: u in s.deleted ==> u in s.cleaned && u in s.released && u in s.born && s.born[u].policy == Delete
  }

  ghost predicate Clean(s: Sys) {
    && Recorded(s) && EntriesCurrent(s) && CleanersCurrent(s) && LoopCurrent(s) && DeletedCleaned(s)
    && (forall u :: u in s.cleaned ==> u in s.born)
  }

  lemma ApiDeleteStep(s: Sys, took: bool)
    requires Exclusive(s) && Clean(s) && s.loop.Deleting?
    ensures Clean(Do(s, ApiDelete(took)))
  {}

  lemma ApiCreateStep(s: Sys, took: bool, policy: Policy)
    requires Clean(s) && s.loop.Creating?
    ensures Clean(Do(s, ApiCreate(took, policy)))
  {}

  lemma CleanerEndsCleanStep(s: Sys, c: Cleaner, ok: bool)
    requires Exclusive(s) && Clean(s) && c in s.cleaners
    ensures Clean(Do(s, CleanerEnds(c, ok)))
  {
    assert IsRunning(s.table, c.name);
  }

  lemma TakeStatusCleanStep(s: Sys)
    requires Clean(s) && s.loop.Removing?
    ensures Clean(Do(s, TakeStatus))
  {}

  lemma StartOrSpawnStep(s: Sys, step: Step)
    requires Exclusive(s) && Clean(s) && Enabled(s, step) && (step.StartCleanup? || step.Spawn?)
    ensures Clean(Do(s, step))
  {}

  lemma PhaseMovesStep(s: Sys, n: Name, phase: Phase)
    requires Clean(s) && Enabled(s, PhaseMoves(n, phase))
    ensures Clean(Do(s, PhaseMoves(n, phase)))
  {
    var s' := Do(s, PhaseMoves(n, phase));
    assert forall m, pv :: Current(s, m, pv) ==> Current(s', m, pv);
  }

  lemma CacheStep(s: Sys, step: Step)
    requires Clean(s) && Enabled(s, step) && (step.CacheSet? || step.CacheDrop?)
    ensures Clean(Do(s, step))
  {
    var s' := Do(s, step);
    assert s' == s.(cache := s'.cache);
    assert forall m, pv :: Current(s, m, pv) == Current(s', m, pv);
  }

  lemma BeginPassStep(s: Sys)
    requires Clean(s) && s.loop.Idle? && CacheCurrent(s)
    ensures Clean(Do(s, BeginPass))
  {
    forall n | n in s.cache && ToBeCleaned(s.cache[n]) ensures Current(s, n, s.cache[n]) {
      assert !Stale(s, n) && Legit(s, n, s.cache[n]);
    }
  }

  lemma LoopMoves(s: Sys, step: Step)
    requires LoopCurrent(s) && Enabled(s, step)
    requires step.Take? || step.Skip? || step.CheckProgress? || step.GiveUp? || step.EndPass? ||
             step.LookUp? || step.CheckCleaning? || step.EndDiscovery?
    ensures Do(s, step) == s.(loop := Do(s, step).loop) && LoopCurrent(Do(s, step))
  {
    hide IsRunning;
  }

  lemma LoopStep(s: Sys, step: Step)
    requires Clean(s) && Enabled(s, step)
    requires step.Take? || step.Skip? || step.CheckProgress? || step.GiveUp? || step.EndPass? ||
             step.LookUp? || step.CheckCleaning? || step.EndDiscovery?
    ensures Clean(Do(s, step))
  {
    hide Enabled, Do, LoopCurrent;
    LoopMoves(s, step);
  }

  lemma CleanStep(s: Sys, step: Step)
    requires Exclusive(s) && Clean(s) && Enabled(s, step)
    requires step.BeginPass? ==> CacheCurrent(s)
    ensures Clean(Do(s, step))
  {
    hide Exclusive, Clean, CacheCurrent, Do;
    match step {
      case BeginPass => BeginPassStep(s);
      case ApiDelete(took) => ApiDeleteStep(s, took);
      case ApiCreate(took, policy) => ApiCreateStep(s, took, policy);
      case CleanerEnds(c, ok) => CleanerEndsCleanStep(s, c, ok);
      case TakeStatus => TakeStatusCleanStep(s);
      case StartCleanup => StartOrSpawnStep(s, step);
      case Spawn => StartOrSpawnStep(s, step);
      case PhaseMoves(n, phase) => PhaseMovesStep(s, n, phase);
      case CacheSet(_, _) => CacheStep(s, step);
      case CacheDrop(_) => CacheStep(s, step);
      case _ => LoopStep(s, step);
    }
  }

  /** In every run whose passes begin with a current cache: whatever has been deleted had been
      cleaned after its own release and was of policy Delete, and a PV is created only under a
      name that has no entry, so that it never inherits one that says "succeeded". */
  lemma {:induction false} CleanedBeforeDeleted(states: seq<Sys>, steps: seq<Step>, i: nat)
    requires IsRun(states, steps) && PassesBeginCurrent(states, steps) && i < |states|
    ensures Clean(states[i]) && DeletedCleaned(states[i])
    ensures i < |steps| && steps[i].ApiCreate? && states[i + 1].api != states[i].api ==>
      states[i].loop.name !in states[i].table.entries
  {
    hide Enabled, Recorded, EntriesCurrent, CleanersCurrent, LoopCurrent, CacheCurrent;
    ExclusionAndConservation(states, steps, i);
    if i > 0 {
      CleanedBeforeDeleted(states, steps, i - 1);
      ExclusionAndConservation(states, steps, i - 1);
      CleanStep(states[i - 1], steps[i - 1]);
    } else {
      InitClean(states[0]);
    }
    if i < |steps| && steps[i].ApiCreate? && states[i + 1].api != states[i].api {
      NothingInherited(states[i], steps[i]);
    }
  }

  lemma InitClean(s: Sys)
    requires Init(s)
    ensures Clean(s)
  {}

  lemma NothingInherited(s: Sys, step: Step)
    requires Clean(s) && step.ApiCreate? && Enabled(s, step) && Do(s, step).api != s.api
    ensures s.loop.name !in s.table.entries
  {}
}
