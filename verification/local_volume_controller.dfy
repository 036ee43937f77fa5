/**
The local-volume controller as it is written: DeletePVs and DiscoverLocalVolumes in a loop,
cleaner goroutines and informer handlers, over a shared process table and volume cache. Every
lock-level action is one step of the cleanup protocol, and between any two of them the other
parties may act.
*/
module LocalVolumeController {
  import opened Options
  import opened ProcTables
  import opened CleanupProtocol
  import opened CleanBeforeDelete

  class VolumeCache {
    var pvs: map<Name, PV>

    constructor ()
      ensures pvs == map[]
    {
      pvs := map[];
    }

    method GetPV(pvName: Name) returns (pv: Option<PV>)
      ensures pv == if pvName in pvs then Some(pvs[pvName]) else None
    {
      pv := if pvName in pvs then Some(pvs[pvName]) else None;
    }

    method AddPV(pvName: Name, pv: PV)
      modifies this
      ensures pvs == old(pvs)[pvName := pv]
    {
      pvs := pvs[pvName := pv];
    }

    method DeletePV(pvName: Name)
      modifies this
      ensures pvs == old(pvs) - {pvName}
    {
      pvs := pvs - {pvName};
    }

    method ListPVs() returns (list: map<Name, PV>)
      ensures list == pvs
    {
      list := pvs;
    }

    method UpdatePV(pvName: Name, pv: PV)
      modifies this
      ensures pvs == old(pvs)[pvName := pv]
    {
      pvs := pvs[pvName := pv];
    }

    /** The informer's add and update handler. A PV that is not cached is added only if it carries
        this provisioner's annotation; one that is cached is updated, whoever has made it. */
    method HandlePVUpdate(pvName: Name, pv: PV, provisionedBy: Option<string>,
                          provisioner: string) returns (taken: bool)
      modifies this
      ensures taken <==> pvName in old(pvs) || provisionedBy == Some(provisioner)
      ensures pvs == if taken then old(pvs)[pvName := pv] else old(pvs)
    {
      var cached := GetPV(pvName);
      taken := true;
      if cached.Some? {
        UpdatePV(pvName, pv);
      } else if provisionedBy.None? {
        taken := false;
      } else if provisionedBy.value == provisioner {
        AddPV(pvName, pv);
      } else {
        taken := false;
      }
    }

    method HandlePVDelete(pvName: Name)
      modifies this
      ensures pvs == old(pvs) - {pvName}
    {
      var pv := GetPV(pvName);
      if pv.Some? {
        DeletePV(pvName);
      } else {
        assert pvs - {pvName} == pvs;
      }
    }
  }

  lemma RunGrows(states: seq<Sys>, steps: seq<Step>, step: Step)
    requires IsRun(states, steps) && Enabled(states[|steps|], step)
    ensures IsRun(states + [Do(states[|steps|], step)], steps + [step])
  {
    hide Enabled, Do, Init;
  }

  /** The loop's own steps, as opposed to those of cleaners, informers and the cluster. */
  predicate OfLoop(step: Step) {
    !step.CleanerEnds? && !step.PhaseMoves? && !step.CacheSet? && !step.CacheDrop?
  }

  function LoopSteps(steps: seq<Step>): seq<Step> {
    if steps == [] then []
    else LoopSteps(steps[..|steps| - 1]) + if OfLoop(steps[|steps| - 1]) then [steps[|steps| - 1]] else []
  }

  lemma LoopStepsOneMore(steps: seq<Step>, step: Step)
    ensures LoopSteps(steps + [step]) == LoopSteps(steps) + if OfLoop(step) then [step] else []
  {
    assert (steps + [step])[..|steps|] == steps;
  }

  /** What the loop may do with the PV in hand once it has seen that nothing cleans it. Without an
      error, a cleanup that had succeeded is followed by the deletion, and any other state by a new
      cleanup with its cleaner. */
  predicate Handles(path: seq<Step>, ok: bool) {
    || (!ok && path == [TakeStatus])
    || (path == [TakeStatus, ApiDelete(true)] || (!ok && path == [TakeStatus, ApiDelete(false)]))
    || (!ok && path == [TakeStatus, GiveUp])
    || (!ok && path == [TakeStatus, StartCleanup])
    || (ok && path == [TakeStatus, StartCleanup, Spawn])
  }

  /** What discovery may do after looking up a file that has no PV in the cache, or none. */
  predicate Discovers(path: seq<Step>, ruledOut: bool) {
    || path == [] || path == [CheckCleaning]
    || (ruledOut && path == [CheckCleaning, GiveUp])
    || (!ruledOut && |path| == 2 && path[0].CheckCleaning? && path[1].ApiCreate?)
  }

  class Controller {
    const provisioner: string
    const table: ProcTable
    const cache: VolumeCache
    // The system as the protocol sees it; `table` and `cache` hold its table and its cache.
    var sys: Sys
    ghost var states: seq<Sys>
    ghost var steps: seq<Step>

    ghost predicate Valid()
      reads this, table, cache
    {
      && IsRun(states, steps) && states[|steps|] == sys
      && table.Value() == sys.table && cache.pvs == sys.cache
    }

    /** A provisioner that has just started, before its informers have delivered anything. */
    constructor (provisioner: string, api: map<Name, PV>, born: map<nat, Birth>, released: set<nat>, nextUid: nat)
      requires Recorded(Sys(api, map[], Table(map[], 0, 0), {}, 0, Idle, nextUid, born, released, {}, {}))
      ensures Valid() && sys.loop.Idle? && fresh(table) && fresh(cache)
      ensures sys.api == api && steps == []
    {
      this.provisioner := provisioner;
      table := new ProcTable();
      cache := new VolumeCache();
      sys := Sys(api, map[], Table(map[], 0, 0), {}, 0, Idle, nextUid, born, released, {}, {});
      new;
      states, steps := [sys], [];
    }

    /** One step of the protocol; the caller has made the step's change to table and cache. */
    method Act(step: Step)
      requires IsRun(states, steps) && states[|steps|] == sys
      requires Enabled(sys, step)
      requires table.Value() == Do(sys, step).table && cache.pvs == Do(sys, step).cache
      modifies this
      ensures Valid() && sys == Do(old(sys), step) && steps == old(steps) + [step]
      ensures LoopSteps(steps) == old(LoopSteps(steps)) + if OfLoop(step) then [step] else []
    {
      LoopStepsOneMore(steps, step);
      RunGrows(states, steps, step);
      sys := Do(sys, step);
      states := states + [sys];
      steps := steps + [step];
    }

    /** The end of a cleaner goroutine: it cleans the volume and records the outcome. */
    method AsyncCleanPV(c: Cleaner)
      requires Valid() && c in sys.cleaners
      modifies this, table
      ensures Valid() && sys.loop == old(sys).loop && LoopSteps(steps) == old(LoopSteps(steps))
      ensures c !in sys.cleaners
    {
      hide LoopSteps;
      var cleaned: bool := *;
      if !cleaned {
        var _ := table.MarkProcessStatus(c.name, CSFailed);
      } else {
        var _ := table.MarkProcessStatus(c.name, CSSucceeded);
      }
      Act(CleanerEnds(c, cleaned));
    }

    /** Any number of steps of the other parties: cleaners, informers, the rest of the cluster. */
    method Interleave()
      requires Valid()
      modifies this, table, cache
      ensures Valid() && sys.loop == old(sys).loop && LoopSteps(steps) == old(LoopSteps(steps))
    {
      hide LoopSteps;
      var more: nat := *;
      while more > 0
        invariant Valid() && sys.loop == old(sys).loop && LoopSteps(steps) == old(LoopSteps(steps))
      {
        more := more - 1;
        var step: Step := *;
        match step {
          case CleanerEnds(c, _) =>
            if c in sys.cleaners {
              AsyncCleanPV(c);
            }
          case PhaseMoves(n, phase) =>
            if Enabled(sys, step) {
              Act(step);
            }
          case CacheSet(n, pv) =>
            if Enabled(sys, step) {
              var provisionedBy: Option<string> := *;
              var taken := cache.HandlePVUpdate(n, pv, provisionedBy, provisioner);
              if taken {
                Act(step);
              }
            }
          case CacheDrop(n) =>
            cache.HandlePVDelete(n);
            Act(step);
          case _ =>
        }
      }
    }

    /** Scans the cached PVs: cleans the released ones and deletes the cleaned ones. Only PVs that
        are `unsupported`, by their volume type, storage class or path, are passed over. */
    method DeletePVs(unsupported: set<Name>) returns (ghost path: seq<Step>)
      requires Valid() && sys.loop.Idle?
      modifies this, table, cache
      ensures Valid() && sys.loop.Discovering?
      ensures LoopSteps(steps) == old(LoopSteps(steps)) + path
      ensures forall step :: step in path && step.Skip? ==> step.name in unsupported
    {
      hide LoopSteps, IsRun;
      var pvs := cache.ListPVs();
      Act(BeginPass);
      path := [BeginPass];
      while pvs != map[]
        invariant Valid() && sys.loop == Passing(pvs)
        invariant LoopSteps(steps) == old(LoopSteps(steps)) + path
        invariant forall step :: step in path && step.Skip? ==> step.name in unsupported
        decreases |pvs|
      {
        assert exists n :: n in pvs;
        var name :| name in pvs;
        ghost var before := pvs;
        ghost var steps1 := ScanPV(name, unsupported);
        path := path + steps1;
        pvs := pvs - {name};
        assert pvs.Keys == before.Keys - {name};
      }
      Interleave();
      Act(EndPass);
      path := path + [EndPass];
    }

    method ScanPV(name: Name, unsupported: set<Name>) returns (ghost path: seq<Step>)
      requires Valid() && sys.loop.Passing? && name in sys.loop.todo
      modifies this, table, cache
      ensures Valid() && sys.loop == Passing(old(sys).loop.todo - {name})
      ensures LoopSteps(steps) == old(LoopSteps(steps)) + path
      ensures forall step :: step in path && step.Skip? ==> step.name in unsupported
    {
      hide LoopSteps, IsRun, Handles;
      var pv := sys.loop.todo[name];
      Interleave();
      if pv.phase == Released && pv.policy == Delete && name in unsupported {
        Act(Skip(name));
        return [Skip(name)];
      }
      Act(Take(name));
      path := [Take(name)];
      if pv.phase == Released && pv.policy == Delete {
        ghost var rest := DeletePV();
        path := path + rest;
      }
    }

    /** Cleans or deletes the PV in hand, unless its cleanup is still running. */
    method DeletePV() returns (ghost path: seq<Step>)
      requires Valid() && sys.loop.Checking?
      modifies this, table, cache
      ensures Valid() && sys.loop == Passing(old(sys).loop.todo)
      ensures LoopSteps(steps) == old(LoopSteps(steps)) + path
      ensures forall step :: step in path ==> !step.Skip?
    {
      hide LoopSteps, IsRun;
      var name := sys.loop.name;
      Interleave();
      var inProgress := table.IsProcessRunning(name);
      Act(CheckProgress);
      path := [CheckProgress];
      if inProgress {
        return;
      }
      Interleave();
      ghost var rest;
      var ok;
      ok, rest := HandlePV();
      path := path + rest;
    }

    /** The part of deletePV that follows the check for a cleanup in progress. */
    method HandlePV() returns (ok: bool, ghost path: seq<Step>)
      requires Valid() && sys.loop.Removing?
      modifies this, table, cache
      ensures Valid() && sys.loop == Passing(old(sys).loop.todo)
      ensures LoopSteps(steps) == old(LoopSteps(steps)) + path && Handles(path, ok)
    {
      hide LoopSteps, IsRun;
      var state := table.RemoveProcessEntry(sys.loop.name);
      Act(TakeStatus);
      path := [TakeStatus];
      Interleave();
      if state.Failure? {
        return false, path;
      }
      if state.value == CSSucceeded {
        // The API call may fail with or without effect; either way the entry is gone.
        var took: bool := *;
        Act(ApiDelete(took));
        ok := *;
        return ok && took, [TakeStatus, ApiDelete(took)];
      }
      var commandMissing: bool := *;
      if commandMissing {
        Act(GiveUp);
        return false, [TakeStatus, GiveUp];
      }
      ok, path := RunProcess();
      path := [TakeStatus] + path;
    }

    method RunProcess() returns (ok: bool, ghost path: seq<Step>)
      requires Valid() && sys.loop.Marking?
      modifies this, table, cache
      ensures Valid() && sys.loop == Passing(old(sys).loop.todo)
      ensures LoopSteps(steps) == old(LoopSteps(steps)) + path
      ensures path == if ok then [StartCleanup, Spawn] else [StartCleanup]
    {
      hide LoopSteps, IsRun;
      ok := table.MarkProcessRunning(sys.loop.name);
      Act(StartCleanup);
      path := [StartCleanup];
      if !ok {
        return;
      }
      Interleave();
      Act(Spawn);
      path := path + [Spawn];
    }

    /** Looks up every discovered volume, and creates a PV for it when it has none, is not being
        cleaned and is not `ruledOut` by its mount options, capacity or volume mode. `files` are
        the names for the paths of which the volume mode can be told, over all storage classes. */
    method DiscoverLocalVolumes(files: seq<Name>, ruledOut: set<Name>) returns (ghost path: seq<Step>)
      requires Valid() && sys.loop.Discovering?
      modifies this, table, cache
      ensures Valid() && sys.loop.Idle?
      ensures LoopSteps(steps) == old(LoopSteps(steps)) + path
      ensures forall file :: file in files ==> LookUp(file) in path
    {
      hide LoopSteps, IsRun;
      path := [];
      for i := 0 to |files|
        invariant Valid() && sys.loop.Discovering?
        invariant LoopSteps(steps) == old(LoopSteps(steps)) + path
        invariant forall j :: 0 <= j < i ==> LookUp(files[j]) in path
      {
        ghost var rest := DiscoverVolume(files[i], ruledOut);
        path := path + ([LookUp(files[i])] + rest);
      }
      Interleave();
      Act(EndDiscovery);
      path := path + [EndDiscovery];
    }

    method DiscoverVolume(pvName: Name, ruledOut: set<Name>) returns (ghost path: seq<Step>)
      requires Valid() && sys.loop.Discovering?
      modifies this, table, cache
      ensures Valid() && sys.loop.Discovering?
      ensures LoopSteps(steps) == old(LoopSteps(steps)) + ([LookUp(pvName)] + path)
      ensures Discovers(path, pvName in ruledOut)
    {
      hide LoopSteps, IsRun;
      Interleave();
      var pv := cache.GetPV(pvName);
      Act(LookUp(pvName));
      if pv.Some? {
        return [];
      }
      Interleave();
      path := ProvisionVolume(pvName in ruledOut);
    }

    /** The part of discovery for a name that is not in the cache. */
    method ProvisionVolume(ruledOut: bool) returns (ghost path: seq<Step>)
      requires Valid() && sys.loop.NotCached?
      modifies this, table, cache
      ensures Valid() && sys.loop.Discovering?
      ensures LoopSteps(steps) == old(LoopSteps(steps)) + path && Discovers(path, ruledOut)
    {
      hide LoopSteps, IsRun;
      var inProgress := table.IsProcessRunning(sys.loop.name);
      Act(CheckCleaning);
      if inProgress {
        return [CheckCleaning];
      }
      Interleave();
      if ruledOut {
        Act(GiveUp);
        return [CheckCleaning, GiveUp];
      }
      ghost var step := CreatePV();
      path := [CheckCleaning, step];
    }

    /** The API call may fail with or without effect. */
    method CreatePV() returns (ghost step: Step)
      requires Valid() && sys.loop.Creating?
      modifies this, table, cache
      ensures Valid() && sys.loop.Discovering?
      ensures step.ApiCreate? && LoopSteps(steps) == old(LoopSteps(steps)) + [step]
    {
      hide LoopSteps, IsRun;
      var took: bool := *;
      var policy: Policy := *;
      Act(ApiCreate(took, policy));
      step := ApiCreate(took, policy);
    }

    /** The controller's loop. In every interleaving, each name has one cleaner at most and no
        cleanup goes unaccounted for; and if every pass begins with a current cache, only PVs
        that were cleaned after their own release are ever deleted. */
    method Run(rounds: nat, files: seq<Name>, unsupported: set<Name>, ruledOut: set<Name>)
      requires Valid() && sys.loop.Idle?
      modifies this, table, cache
      ensures Valid()
      ensures forall i :: 0 <= i < |states| ==> Exclusive(states[i])
      ensures PassesBeginCurrent(states, steps) ==> forall i :: 0 <= i < |states| ==> DeletedCleaned(states[i])
    {
      for round := 0 to rounds
        invariant Valid() && sys.loop.Idle?
      {
        ghost var deletions := DeletePVs(unsupported);
        ghost var discoveries := DiscoverLocalVolumes(files, ruledOut);
      }
      forall i | 0 <= i < |states| ensures Exclusive(states[i]) {
        ExclusionAndConservation(states, steps, i);
      }
      if PassesBeginCurrent(states, steps) {
        forall i | 0 <= i < |states| ensures DeletedCleaned(states[i]) {
          CleanedBeforeDeleted(states, steps, i);
        }
      }
    }
  }
}
