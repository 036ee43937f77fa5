/**
The cleanup protocol of the local-volume provisioner: one controller loop that deletes and
discovers PVs, the cleaner goroutines that it starts, and a cache that informers feed. Each
step takes one lock or makes one API call; steps of the three parties interleave freely.
*/
module CleanupProtocol {
  import opened Options
  import opened ProcTables

  type Name = string

  datatype Phase = Pending | Available | Bound | Released
  datatype Policy = Retain | Recycle | Delete

  /** A PV object. `uid` tells an object from a later one of the same name. */
  datatype PV = PV(uid: nat, phase: Phase, policy: Policy)

  /** A cleaner goroutine, the `id`-th to be started. `afterRelease`: when it started, the object of that uid was the
      one that the API server had under that name, and it was released. */
  datatype Cleaner = Cleaner(id: nat, name: Name, uid: nat, afterRelease: bool)

  /** Where the controller's loop is. `todo` is what is left of the list taken from the cache. */
  datatype Loop =
    | Idle
    | Passing(todo: map<Name, PV>)
    | Checking(name: Name, pv: PV, todo: map<Name, PV>)
    | Removing(name: Name, pv: PV, todo: map<Name, PV>)
    | Deleting(name: Name, pv: PV, todo: map<Name, PV>)
    | Marking(name: Name, pv: PV, todo: map<Name, PV>)
    | Spawning(name: Name, pv: PV, todo: map<Name, PV>)
    | Discovering
    | NotCached(name: Name)
    | Creating(name: Name)

  datatype Birth = Birth(name: Name, policy: Policy)

  /** `api`: the objects on the API server. `cache`: the informer-fed copy. `started`: cleanups
      started so far. History of the run: `born` of every object, the objects ever `released`,
      those `cleaned` by a cleaner started after their own release, those `deleted`. */
  datatype Sys = Sys(api: map<Name, PV>, cache: map<Name, PV>, table: Table, cleaners: set<Cleaner>, started: nat,
                     loop: Loop, nextUid: nat,
                     born: map<nat, Birth>, released: set<nat>, cleaned: set<nat>, deleted: set<nat>)

  datatype Step =
    // The controller's loop: DeletePVs, then DiscoverLocalVolumes, over and over.
    | BeginPass
    | Take(name: Name)
    | Skip(name: Name)
    | CheckProgress
    | TakeStatus
    | GiveUp
    | ApiDelete(took: bool)
    | StartCleanup
    | Spawn
    | EndPass
    | LookUp(name: Name)
    | CheckCleaning
    | ApiCreate(took: bool, policy: Policy)
    | EndDiscovery
    // A cleaner goroutine finishes.
    | CleanerEnds(cleaner: Cleaner, ok: bool)
    // The rest of the cluster, and the informers.
    | PhaseMoves(name: Name, phase: Phase)
    | CacheSet(name: Name, pv: PV)
    | CacheDrop(name: Name)

  /** `pv` is a version of an object that has existed under that name. */
  predicate Legit(s: Sys, name: Name, pv: PV) {
    && pv.uid in s.born && s.born[pv.uid] == Birth(name, pv.policy)
    && (pv.phase == Released ==> pv.uid in s.released)
  }

  predicate Enabled(s: Sys, step: Step) {
    match step
    case BeginPass => s.loop.Idle?
    case Take(n) => s.loop.Passing? && n in s.loop.todo
    case Skip(n) => s.loop.Passing? && n in s.loop.todo
    case CheckProgress => s.loop.Checking?
    case TakeStatus => s.loop.Removing?
    case GiveUp => s.loop.Checking? || s.loop.Marking? || s.loop.Creating?
    case ApiDelete(_) => s.loop.Deleting?
    case StartCleanup => s.loop.Marking?
    case Spawn => s.loop.Spawning?
    case EndPass => s.loop.Passing? && s.loop.todo == map[]
    case LookUp(_) => s.loop.Discovering?
    case CheckCleaning => s.loop.NotCached?
    case ApiCreate(_, _) => s.loop.Creating?
    case EndDiscovery => s.loop.Discovering?
    case CleanerEnds(c, _) => c in s.cleaners
    // A released PV stays released; only the provisioner deletes PVs.
    case PhaseMoves(n, phase) => n in s.api && (s.api[n].phase == Released ==> phase == Released)
    // Informer events may lag behind and come in any order.
    case CacheSet(n, pv) => Legit(s, n, pv)
    case CacheDrop(_) => true
  }

  function Do(s: Sys, step: Step): Sys
    requires Enabled(s, step)
  {
    match step
    case BeginPass => s.(loop := Passing(s.cache))
    case Take(n) =>
      var pv, rest := s.loop.todo[n], s.loop.todo - {n};
      s.(loop := if pv.phase == Released && pv.policy == Delete then Checking(n, pv, rest) else Passing(rest))
    case Skip(n) => s.(loop := Passing(s.loop.todo - {n}))
    case CheckProgress =>
      s.(loop := if IsRunning(s.table, s.loop.name) then Passing(s.loop.todo)
                 else Removing(s.loop.name, s.loop.pv, s.loop.todo))
    case TakeStatus =>
      var (state, table) := RemoveEntry(s.table, s.loop.name);
      s.(table := table,
         loop := match state
                 case Failure => Passing(s.loop.todo)
                 case Success(CSSucceeded) => Deleting(s.loop.name, s.loop.pv, s.loop.todo)
                 case Success(_) => Marking(s.loop.name, s.loop.pv, s.loop.todo))
    case GiveUp => s.(loop := if s.loop.Creating? then Discovering else Passing(s.loop.todo))
    case ApiDelete(took) =>
      var n := s.loop.name;
      var after := if took && n in s.api
                   then s.(api := s.api - {n}, deleted := s.deleted + {s.api[n].uid}) else s;
      after.(loop := Passing(s.loop.todo))
    case StartCleanup =>
      var marked := MarkRunning(s.table, s.loop.name);
      if marked.Failure? then s.(loop := Passing(s.loop.todo))
      else s.(table := marked.value, started := s.started + 1, loop := Spawning(s.loop.name, s.loop.pv, s.loop.todo))
    case Spawn =>
      var n, uid := s.loop.name, s.loop.pv.uid;
      var afterRelease := n in s.api && s.api[n].uid == uid && s.api[n].phase == Released;
      s.(cleaners := s.cleaners + {Cleaner(s.started, n, uid, afterRelease)}, loop := Passing(s.loop.todo))
    case EndPass => s.(loop := Discovering)
    case LookUp(n) => if n in s.cache then s else s.(loop := NotCached(n))
    case CheckCleaning => s.(loop := if IsRunning(s.table, s.loop.name) then Discovering else Creating(s.loop.name))
    case ApiCreate(took, policy) =>
      var n := s.loop.name;
      var after := if took && n !in s.api
                   then s.(api := s.api[n := PV(s.nextUid, Pending, policy)], nextUid := s.nextUid + 1,
                           born := s.born[s.nextUid := Birth(n, policy)]) else s;
      after.(loop := Discovering)
    case EndDiscovery => s.(loop := Idle)
    case CleanerEnds(c, ok) =>
      s.(cleaners := s.cleaners - {c},
         table := MarkStatus(s.table, c.name, if ok then CSSucceeded else CSFailed),
         cleaned := if ok && c.afterRelease then s.cleaned + {c.uid} else s.cleaned)
    case PhaseMoves(n, phase) =>
      s.(api := s.api[n := s.api[n].(phase := phase)],
         released := if phase == Released then s.released + {s.api[n].uid} else s.released)
    case CacheSet(n, pv) => s.(cache := s.cache[n := pv])
    case CacheDrop(n) => s.(cache := s.cache - {n})
  }

  /** Every object on the API server is on record, under its own uid. */
  ghost predicate Recorded(s: Sys) {
    && (forall n :: n in s.api ==>
          && s.api[n].uid in s.born && s.born[s.api[n].uid] == Birth(n, s.api[n].policy)
          && (s.api[n].phase == Released <==> s.api[n].uid in s.released))
    && (forall u :: u in s.born ==> u < s.nextUid)
    && (forall u :: u in s.released ==> u < s.nextUid)
    && (forall n :: n in s.cache ==> Legit(s, n, s.cache[n]))
  }

  ghost predicate Init(s: Sys) {
    && s.table == Table(map[], 0, 0) && s.cleaners == {} && s.started == 0 && s.loop == Idle
    && s.cleaned == {} && s.deleted == {}
    && Recorded(s)
  }

  ghost predicate IsRun(states: seq<Sys>, steps: seq<Step>) {
    && |states| == |steps| + 1 && Init(states[0])
    && forall i :: 0 <= i < |steps| ==> Enabled(states[i], steps[i]) && states[i + 1] == Do(states[i], steps[i])
  }

  // ---------------------------------------------------------------- exclusion and conservation

  ghost predicate HasCleaner(s: Sys, name: Name) {
    exists c :: c in s.cleaners && c.name == name
  }

  /** Each name has at most one cleaner, and its entry says "running" exactly while that
      cleaner lives or is about to be spawned. */
  ghost predicate OneCleaner(s: Sys) {
    && (forall c :: c in s.cleaners ==> IsRunning(s.table, c.name))
    && (forall c, d :: c in s.cleaners && d in s.cleaners && c.name == d.name ==> c == d)
    && (forall n :: IsRunning(s.table, n) ==> HasCleaner(s, n) || (s.loop.Spawning? && s.loop.name == n))
    && (s.loop.Spawning? ==> IsRunning(s.table, s.loop.name) && !HasCleaner(s, s.loop.name))
  }

  /** What the loop knows of the table where it stands. */
  predicate LoopInStep(s: Sys) {
    && (forall n :: n in s.table.entries ==> s.table.entries[n] in {CSRunning, CSFailed, CSSucceeded})
    && (s.loop.Removing? ==> !IsRunning(s.table, s.loop.name))
    && (s.loop.Deleting? || s.loop.Marking? ==> s.loop.name !in s.table.entries)
  }

  /** Every cleanup started is running, succeeded or failed. */
  predicate Conserved(s: Sys) {
    s.started == |RunningNames(s.table)| + s.table.succeeded + s.table.failed
  }

  ghost predicate Exclusive(s: Sys) {
    OneCleaner(s) && LoopInStep(s) && Conserved(s)
  }

  lemma StartCleanupStep(s: Sys)
    requires Exclusive(s) && s.loop.Marking?
    ensures Exclusive(Do(s, StartCleanup))
  {
    var s' := Do(s, StartCleanup);
    assert RunningNames(s'.table) == RunningNames(s.table) + {s.loop.name};
    forall n | IsRunning(s'.table, n) && n != s.loop.name ensures HasCleaner(s', n) {
      assert IsRunning(s.table, n);
    }
    assert !HasCleaner(s, s.loop.name);
  }

  lemma SpawnStep(s: Sys)
    requires Exclusive(s) && s.loop.Spawning?
    ensures Exclusive(Do(s, Spawn))
  {
    var s' := Do(s, Spawn);
    var n := s.loop.name;
    assert forall c :: c in s.cleaners ==> c.name != n;
    var c :| c in s'.cleaners && c.name == n;
    assert forall m :: HasCleaner(s, m) ==> HasCleaner(s', m);
  }

  lemma CleanerEndsStep(s: Sys, c: Cleaner, ok: bool)
    requires Exclusive(s) && c in s.cleaners
    ensures Exclusive(Do(s, CleanerEnds(c, ok)))
  {
    var s' := Do(s, CleanerEnds(c, ok));
    assert IsRunning(s.table, c.name);
    assert RunningNames(s'.table) == RunningNames(s.table) - {c.name};
    forall n | IsRunning(s'.table, n) && HasCleaner(s, n) ensures HasCleaner(s', n) {
      var d :| d in s.cleaners && d.name == n;
      assert d in s'.cleaners;
    }
  }

  lemma TakeStatusStep(s: Sys)
    requires Exclusive(s) && s.loop.Removing?
    ensures Exclusive(Do(s, TakeStatus))
  {
    var s' := Do(s, TakeStatus);
    assert RunningNames(s'.table) == RunningNames(s.table);
    forall n | IsRunning(s'.table, n) ensures HasCleaner(s', n) {
      assert IsRunning(s.table, n);
    }
  }

  lemma {:induction false} ExclusiveStep(s: Sys, step: Step)
    requires Exclusive(s) && Enabled(s, step)
    ensures Exclusive(Do(s, step))
    ensures step.CleanerEnds? ==> step.cleaner.name in s.table.entries
  {
    match step {
      case StartCleanup => StartCleanupStep(s);
      case Spawn => SpawnStep(s);
      case CleanerEnds(c, ok) => CleanerEndsStep(s, c, ok);
      case TakeStatus => TakeStatusStep(s);
      case _ =>
        var s' := Do(s, step);
        assert s'.table == s.table && s'.cleaners == s.cleaners && s'.started == s.started;
        assert forall n :: HasCleaner(s', n) == HasCleaner(s, n);
    }
  }

  /** In every interleaving, after every step: one cleaner a name, entries that say "running"
      exactly while it lives, and cleanups started = running + succeeded + failed. A cleaner
      that ends always finds its entry. */
  lemma {:induction false} ExclusionAndConservation(states: seq<Sys>, steps: seq<Step>, i: nat)
    requires IsRun(states, steps) && i < |states|
    ensures Exclusive(states[i])
    ensures i < |steps| && steps[i].CleanerEnds? ==> steps[i].cleaner.name in states[i].table.entries
  {
    hide Enabled, Do;
    if i > 0 {
      ExclusionAndConservation(states, steps, i - 1);
      ExclusiveStep(states[i - 1], steps[i - 1]);
    } else {
      InitExclusive(states[0]);
    }
    if i < |steps| {
      ExclusiveStep(states[i], steps[i]);
    }
  }

  lemma InitExclusive(s: Sys)
    requires Init(s)
    ensures Exclusive(s)
  {
    assert RunningNames(s.table) == {};
  }
}
