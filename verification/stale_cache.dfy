/**
Why every pass must begin with a current cache: from any state in which one begins with a
stale one, the protocol can go on to delete a PV that was never cleaned.
*/
module StaleCache {
  import opened Options
  import opened ProcTables
  import opened CleanupProtocol
  import opened CleanBeforeDelete

  /** Taking the given steps, each of them enabled, leads from `s` to `s'`. */
  ghost predicate Leads(s: Sys, steps: seq<Step>, s': Sys)
    decreases |steps|
  {
    if steps == [] then s' == s
    else Enabled(s, steps[0]) && Leads(Do(s, steps[0]), steps[1..], s')
  }

  ghost predicate Reaches(s: Sys, s': Sys) {
    exists steps :: Leads(s, steps, s')
  }

  lemma {:induction false} LeadsOn(s: Sys, steps: seq<Step>, s': Sys, more: seq<Step>, s'': Sys)
    requires Leads(s, steps, s') && Leads(s', more, s'')
    ensures Leads(s, steps + more, s'')
    decreases |steps|
  {
    hide Enabled, Do;
    if steps == [] {
      assert steps + more == more;
    } else {
      assert (steps + more)[1..] == steps[1..] + more;
      LeadsOn(Do(s, steps[0]), steps[1..], s', more, s'');
    }
  }

  lemma NoStep(s: Sys)
    ensures Reaches(s, s)
  {
    assert Leads(s, [], s);
  }

  lemma OneStep(s: Sys, step: Step)
    requires Enabled(s, step)
    ensures Reaches(s, Do(s, step))
  {
    hide Enabled, Do;
    assert Leads(s, [step], Do(s, step));
  }

  lemma ReachesOn(s: Sys, s': Sys, s'': Sys)
    requires Reaches(s, s') && Reaches(s', s'')
    ensures Reaches(s, s'')
  {
    hide Leads;
    var steps :| Leads(s, steps, s');
    var more :| Leads(s', more, s'');
    LeadsOn(s, steps, s', more, s'');
  }

  /** One more step at the end. */
  lemma AndThen(s: Sys, s': Sys, step: Step) returns (s'': Sys)
    requires Reaches(s, s') && Enabled(s', step)
    ensures s'' == Do(s', step) && Reaches(s, s'')
  {
    hide Enabled, Do, Reaches;
    s'' := Do(s', step);
    OneStep(s', step);
    ReachesOn(s, s', s'');
  }

  /** A pass may skip (on an error) every PV of its list but one, or all of them. */
  lemma {:induction false} SkipOthers(s: Sys, keep: set<Name>) returns (s': Sys)
    requires s.loop.Passing? && keep <= s.loop.todo.Keys
    ensures Reaches(s, s')
    ensures s' == s.(loop := Passing(map n | n in keep :: s.loop.todo[n]))
    decreases |s.loop.todo|
  {
    if s.loop.todo.Keys == keep {
      assert s.loop.todo == map n | n in keep :: s.loop.todo[n];
      NoStep(s);
      s' := s;
    } else {
      assert exists n :: n in s.loop.todo && n !in keep;
      var n :| n in s.loop.todo && n !in keep;
      OneStep(s, Skip(n));
      assert |s.loop.todo - {n}| < |s.loop.todo| by {
        assert (s.loop.todo - {n}).Keys == s.loop.todo.Keys - {n};
      }
      s' := SkipOthers(Do(s, Skip(n)), keep);
      ReachesOn(s, Do(s, Skip(n)), s');
      assert (map m | m in keep :: s.loop.todo[m]) == map m | m in keep :: (s.loop.todo - {n})[m];
    }
  }

  /** From a pass with nothing left to do, back to the start of the loop. */
  lemma FinishRound(s: Sys, s': Sys) returns (s'': Sys)
    requires Reaches(s, s') && s'.loop == Passing(map[])
    ensures Reaches(s, s'') && s'' == s'.(loop := Idle)
  {
    hide Reaches;
    var s1 := AndThen(s, s', EndPass);
    s'' := AndThen(s, s1, EndDiscovery);
  }

  /** A pass in which `n`, shown by the cache as to be cleaned, is taken in hand. */
  lemma TakeInHand(s: Sys, n: Name) returns (s': Sys)
    requires s.loop.Idle? && n in s.cache && ToBeCleaned(s.cache[n]) && !IsRunning(s.table, n)
    ensures Reaches(s, s') && s' == s.(loop := Removing(n, s.cache[n], map[]))
  {
    hide Reaches;
    OneStep(s, BeginPass);
    var s1 := Do(s, BeginPass);
    var s2 := SkipOthers(s1, {n});
    ReachesOn(s, s1, s2);
    var s3 := AndThen(s, s2, Take(n));
    assert s2.loop.todo - {n} == map[];
    s' := AndThen(s, s3, CheckProgress);
  }

  /** A cleaner of `n` is started for the object that the cache shows, which is no longer there. */
  lemma StartCleaner(s: Sys, n: Name) returns (s': Sys)
    requires s.loop.Idle? && n in s.cache && ToBeCleaned(s.cache[n])
    requires n in s.table.entries ==> s.table.entries[n] == CSFailed
    requires n in s.api ==> s.api[n].uid != s.cache[n].uid
    ensures Reaches(s, s')
    ensures s'.table.entries == s.table.entries[n := CSRunning]
    ensures s' == s.(table := s'.table, started := s'.started, loop := Passing(map[]),
                     cleaners := s.cleaners + {Cleaner(s'.started, n, s.cache[n].uid, false)})
  {
    hide Reaches;
    var s1 := TakeInHand(s, n);
    var s2 := AndThen(s, s1, TakeStatus);
    var s3 := AndThen(s, s2, StartCleanup);
    s' := AndThen(s, s3, Spawn);
  }

  /** A cleanup of `n`, started for that object, ends well. */
  lemma CleanUp(s: Sys, n: Name) returns (s': Sys)
    requires s.loop.Idle? && n in s.cache && ToBeCleaned(s.cache[n])
    requires n in s.table.entries ==> s.table.entries[n] == CSFailed
    requires n in s.api ==> s.api[n].uid != s.cache[n].uid
    requires forall c :: c in s.cleaners ==> c.name != n
    ensures Reaches(s, s') && s'.loop.Idle?
    ensures s' == s.(table := s'.table, started := s'.started)
    ensures s'.table.entries == s.table.entries[n := CSSucceeded]
  {
    hide Reaches;
    var s4 := StartCleaner(s, n);
    var c := Cleaner(s4.started, n, s.cache[n].uid, false);
    var s5 := AndThen(s, s4, CleanerEnds(c, true));
    assert s5.cleaners == s.cleaners;
    s' := FinishRound(s, s5);
  }

  /** The object of that name is deleted on the strength of the entry. */
  lemma DeleteOnEntry(s: Sys, n: Name) returns (s': Sys)
    requires s.loop.Idle? && n in s.cache && ToBeCleaned(s.cache[n])
    requires n in s.table.entries && s.table.entries[n] == CSSucceeded && n in s.api
    ensures Reaches(s, s')
    ensures s' == s.(table := s.table.(entries := s.table.entries - {n}), api := s.api - {n},
                     deleted := s.deleted + {s.api[n].uid})
  {
    hide Reaches;
    var s1 := TakeInHand(s, n);
    var s2 := AndThen(s, s1, TakeStatus);
    var s3 := AndThen(s, s2, ApiDelete(true));
    s' := FinishRound(s, s3);
  }

  /** A round that skips every deletion, up to the discovery of volumes. */
  lemma SkipToDiscovery(s: Sys) returns (s': Sys)
    requires s.loop.Idle?
    ensures Reaches(s, s') && s' == s.(loop := Discovering)
  {
    hide Reaches;
    OneStep(s, BeginPass);
    var s1 := Do(s, BeginPass);
    var s2 := SkipOthers(s1, {});
    ReachesOn(s, s1, s2);
    s' := AndThen(s, s2, EndPass);
  }

  /** The cache drops the name's old object; discovery finds no cleanup running and creates a
      new one. */
  lemma CreateAnew(s: Sys, n: Name) returns (s': Sys)
    requires s.loop.Idle? && n !in s.api && !IsRunning(s.table, n)
    ensures Reaches(s, s')
    ensures s' == s.(cache := s.cache - {n}, api := s.api[n := PV(s.nextUid, Pending, Delete)], nextUid := s.nextUid + 1,
                     born := s.born[s.nextUid := Birth(n, Delete)])
  {
    hide Reaches;
    var s3 := SkipToDiscovery(s);
    var s4 := AndThen(s, s3, CacheDrop(n));
    var s5 := AndThen(s, s4, LookUp(n));
    var s6 := AndThen(s, s5, CheckCleaning);
    var s7 := AndThen(s, s6, ApiCreate(true, Delete));
    s' := AndThen(s, s7, EndDiscovery);
  }

  /** The new object is used and released, and the cache learns of it. */
  lemma Recreate(s: Sys, n: Name) returns (s': Sys)
    requires s.loop.Idle? && n !in s.api && !IsRunning(s.table, n)
    ensures Reaches(s, s')
    ensures s'.loop.Idle? && s'.table == s.table && s'.cleaned == s.cleaned && s'.deleted == s.deleted
    ensures n in s'.api && s'.api[n] == PV(s.nextUid, Released, Delete)
    ensures n in s'.cache && s'.cache[n] == s'.api[n]
  {
    hide Reaches;
    var s1 := CreateAnew(s, n);
    var s2 := AndThen(s, s1, PhaseMoves(n, Released));
    s' := AndThen(s, s2, CacheSet(n, PV(s.nextUid, Released, Delete)));
  }

  /** No object that will be created is on record as cleaned. */
  predicate FutureNotCleaned(s: Sys) {
    s.nextUid !in s.cleaned
  }

  /** The name's object is gone, the cache still shows it: the next object of that name can be
      deleted uncleaned. */
  lemma LeakWhenGone(s: Sys, n: Name) returns (s': Sys)
    requires s.loop.Idle? && Stale(s, n) && n !in s.api && n !in s.table.entries
    requires forall c :: c in s.cleaners ==> c.name != n
    requires FutureNotCleaned(s)
    ensures Reaches(s, s') && !DeletedCleaned(s')
  {
    hide Reaches;
    var s1 := CleanUp(s, n);
    var s2 := Recreate(s1, n);
    s' := DeleteOnEntry(s2, n);
    assert s.nextUid in s'.deleted && s.nextUid !in s'.cleaned;
    ReachesOn(s, s1, s2);
    ReachesOn(s, s2, s');
  }

  /** When a pass is about to begin with a stale cache, some continuation deletes an object
      that was never cleaned. */
  lemma StaleCacheLeaks(s: Sys, n: Name)
    requires Exclusive(s) && s.loop.Idle? && Stale(s, n) && FutureNotCleaned(s)
    requires n in s.table.entries ==> n in s.api
    ensures exists s' :: Reaches(s, s') && !DeletedCleaned(s')
  {
    hide Reaches, DeletedCleaned;
    if n !in s.api {
      assert forall c :: c in s.cleaners ==> IsRunning(s.table, c.name);
      var s' := LeakWhenGone(s, n);
    } else {
      // First let any running cleaner of that name end, and then clean up where need be.
      NoStep(s);
      var s1 := s;
      if IsRunning(s.table, n) {
        assert HasCleaner(s, n);
        var c :| c in s.cleaners && c.name == n;
        ExclusiveStep(s, CleanerEnds(c, false));
        OneStep(s, CleanerEnds(c, false));
        s1 := Do(s, CleanerEnds(c, false));
      }
      assert Exclusive(s1) && !IsRunning(s1.table, n) && s1.cleaned == s.cleaned;
      assert forall c :: c in s1.cleaners ==> IsRunning(s1.table, c.name);
      var s2 := s1;
      if !(n in s1.table.entries && s1.table.entries[n] == CSSucceeded) {
        s2 := CleanUp(s1, n);
        ReachesOn(s, s1, s2);
      }
      var s3 := DeleteOnEntry(s2, n);
      ReachesOn(s, s2, s3);
      var s' := LeakWhenGone(s3, n);
      ReachesOn(s, s3, s');
    }
  }

  /** The condition is exact. After any run whose passes all began with a current cache, when the
      next pass is about to begin: if the cache is not current, some continuation deletes an
      object that was never cleaned; if it is, the pass can begin and nothing is lost by it. */
  lemma CurrentCacheNeeded(states: seq<Sys>, steps: seq<Step>)
    requires IsRun(states, steps) && PassesBeginCurrent(states, steps)
    requires states[|steps|].loop.Idle?
    ensures
      var s := states[|steps|];
      && (!CacheCurrent(s) ==> exists s' :: Reaches(s, s') && !DeletedCleaned(s'))
      && (CacheCurrent(s) ==> Clean(Do(s, BeginPass)))
  {
    hide Reaches, DeletedCleaned;
    var s := states[|steps|];
    ExclusionAndConservation(states, steps, |steps|);
    CleanedBeforeDeleted(states, steps, |steps|);
    if CacheCurrent(s) {
      BeginPassStep(s);
    } else {
      var n :| n in s.cache && Stale(s, n);
      StaleCacheLeaks(s, n);
    }
  }

  // ---------------------------------------------------------------- how the cache gets stale

  /** A run whose passes begin with a current cache, and that has come to `s`. */
  ghost predicate ComesTo(states: seq<Sys>, steps: seq<Step>, s: Sys) {
    IsRun(states, steps) && PassesBeginCurrent(states, steps) && states[|steps|] == s
  }

  lemma Go(states: seq<Sys>, steps: seq<Step>, s: Sys, step: Step) returns (states': seq<Sys>, steps': seq<Step>,
           s': Sys)
    requires ComesTo(states, steps, s)
    requires Enabled(s, step) && (step.BeginPass? ==> CacheCurrent(s))
    ensures s' == Do(s, step) && ComesTo(states', steps', s')
  {
    hide Enabled, Do, Init, CacheCurrent;
    s' := Do(s, step);
    states', steps' := states + [s'], steps + [step];
    forall i | 0 <= i < |steps'| && steps'[i].BeginPass? ensures CacheCurrent(states'[i]) {
      assert states'[i] == states[i];
    }
  }

  /** One released PV, which the cache shows, and nothing else. */
  predicate OneReleased(s: Sys, n: Name, pv: PV) {
    && s.api == map[n := pv] && s.cache == map[n := pv] && s.cleaners == {} && ToBeCleaned(pv)
  }

  lemma OneIsCurrent(s: Sys, n: Name, pv: PV)
    requires OneReleased(s, n, pv)
    ensures CacheCurrent(s) && s.cache - {n} == map[]
  {}

  /** A pass takes it in hand. */
  lemma OneInHand(states: seq<Sys>, steps: seq<Step>, s: Sys, n: Name, pv: PV)
    returns (states': seq<Sys>, steps': seq<Step>, s': Sys)
    requires ComesTo(states, steps, s) && s.loop.Idle? && OneReleased(s, n, pv) && !IsRunning(s.table, n)
    ensures s' == s.(loop := Removing(n, pv, map[])) && ComesTo(states', steps', s')
  {
    hide ComesTo, CacheCurrent;
    OneIsCurrent(s, n, pv);
    states', steps', s' := Go(states, steps, s, BeginPass);
    states', steps', s' := Go(states', steps', s', Take(n));
    states', steps', s' := Go(states', steps', s', CheckProgress);
  }

  lemma RoundEnds(states: seq<Sys>, steps: seq<Step>, s: Sys) returns (states': seq<Sys>, steps': seq<Step>, s': Sys)
    requires ComesTo(states, steps, s) && s.loop == Passing(map[])
    ensures s' == s.(loop := Idle) && ComesTo(states', steps', s')
  {
    hide ComesTo;
    states', steps', s' := Go(states, steps, s, EndPass);
    states', steps', s' := Go(states', steps', s', EndDiscovery);
  }

  /** One round of the loop cleans it. */
  lemma OneRoundCleans(states: seq<Sys>, steps: seq<Step>, s: Sys, n: Name, pv: PV)
    returns (states': seq<Sys>, steps': seq<Step>, s': Sys)
    requires ComesTo(states, steps, s) && s.loop.Idle? && OneReleased(s, n, pv) && s.table.entries == map[]
    ensures ComesTo(states', steps', s') && s'.loop.Idle? && OneReleased(s', n, pv)
    ensures s'.table.entries == map[n := CSSucceeded]
  {
    hide ComesTo;
    states', steps', s' := OneInHand(states, steps, s, n, pv);
    states', steps', s' := Go(states', steps', s', TakeStatus);
    states', steps', s' := Go(states', steps', s', StartCleanup);
    assert s'.table.entries == map[n := CSRunning];
    states', steps', s' := Go(states', steps', s', Spawn);
    var c := Cleaner(s'.started, n, pv.uid, true);
    assert s'.cleaners == {c};
    states', steps', s' := Go(states', steps', s', CleanerEnds(c, true));
    assert s'.cleaners == {};
    states', steps', s' := RoundEnds(states', steps', s');
  }

  /** The next one deletes it, while the cache goes on showing it. */
  lemma OneRoundDeletes(states: seq<Sys>, steps: seq<Step>, s: Sys, n: Name, pv: PV)
    returns (states': seq<Sys>, steps': seq<Step>, s': Sys)
    requires ComesTo(states, steps, s) && s.loop.Idle? && OneReleased(s, n, pv)
    requires s.table.entries == map[n := CSSucceeded]
    ensures ComesTo(states', steps', s') && s'.loop.Idle? && s'.api == map[] && s'.cache == map[n := pv]
  {
    hide ComesTo;
    states', steps', s' := OneInHand(states, steps, s, n, pv);
    states', steps', s' := Go(states', steps', s', TakeStatus);
    states', steps', s' := Go(states', steps', s', ApiDelete(true));
    states', steps', s' := RoundEnds(states', steps', s');
  }

  /** A run whose passes have all begun with a current cache comes to the beginning of one with a
      stale one, when no informer event arrives between two rounds. */
  lemma StaleCacheArises(n: Name) returns (states: seq<Sys>, steps: seq<Step>)
    ensures IsRun(states, steps) && PassesBeginCurrent(states, steps)
    ensures states[|steps|].loop.Idle? && Stale(states[|steps|], n) && !CacheCurrent(states[|steps|])
  {
    var pv := PV(0, Released, Delete);
    var s := Sys(map[n := pv], map[], Table(map[], 0, 0), {}, 0, Idle, 1, map[0 := Birth(n, Delete)], {0}, {}, {});
    states, steps := [s], [];
    assert ComesTo(states, steps, s);
    states, steps, s := Go(states, steps, s, CacheSet(n, pv));
    states, steps, s := OneRoundCleans(states, steps, s, n, pv);
    states, steps, s := OneRoundDeletes(states, steps, s, n, pv);
    assert Stale(s, n);
  }

  /** So without the condition a PV can be deleted that was never cleaned, in a run from a start. */
  lemma UncleanedIsDeleted(n: Name) returns (states: seq<Sys>, steps: seq<Step>, s': Sys)
    ensures IsRun(states, steps) && Reaches(states[|steps|], s') && !DeletedCleaned(s')
  {
    hide Reaches, DeletedCleaned, CacheCurrent;
    states, steps := StaleCacheArises(n);
    CurrentCacheNeeded(states, steps);
    var s := states[|steps|];
    hide IsRun;
    s' :| Reaches(s, s') && !DeletedCleaned(s');
  }
}
