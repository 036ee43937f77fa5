/**
The snapshot controller as it is written: two caches, event handlers that change the desired one,
and a reconciler that goes through copies of both and launches operations. Between any two of its
actions the operations and the handlers may act.
*/
module SnapshotReconciler {
  import opened Options
  import opened SnapshotProtocol
  import opened SnapshotConvergence
  import opened SnapshotProspects

  datatype Snapshot = Snapshot(namespace: string, name: string, uid: string, claim: string, version: Version)

  function MakeSnapshotName(snapshot: Snapshot): Name {
    snapshot.namespace + "/" + snapshot.name + "-" + snapshot.uid
  }

  function Versions(snapshots: map<Name, Snapshot>): map<Name, Version> {
    map n | n in snapshots :: snapshots[n].version
  }

  function Bounds(snapshots: map<Name, Snapshot>): map<Name, Option<Id>> {
    map n | n in snapshots :: snapshots[n].version.bound
  }

  function Unbound(versions: map<Name, Version>): map<Name, Option<Id>> {
    map n | n in versions :: versions[n].bound
  }

  function Rest(snapshots: map<Name, Snapshot>, names: set<Name>): map<Name, Version> {
    map n | n in snapshots && n in names :: snapshots[n].version
  }

  /** The desired and the actual state of the world are two of these. */
  class StateOfWorld {
    var snapshots: map<Name, Snapshot>

    constructor ()
      ensures snapshots == map[]
    {
      snapshots := map[];
    }

    method AddSnapshot(snapshot: Snapshot)
      modifies this
      ensures snapshots == old(snapshots)[MakeSnapshotName(snapshot) := snapshot]
    {
      snapshots := snapshots[MakeSnapshotName(snapshot) := snapshot];
    }

    method DeleteSnapshot(snapshotName: Name)
      modifies this
      ensures snapshots == old(snapshots) - {snapshotName}
    {
      snapshots := snapshots - {snapshotName};
    }

    method GetSnapshots() returns (copy: map<Name, Snapshot>)
      ensures copy == snapshots
    {
      copy := snapshots;
    }

    method SnapshotExists(snapshotName: Name) returns (exists_: bool)
      ensures exists_ <==> snapshotName in snapshots
    {
      exists_ := snapshotName in snapshots;
    }
  }

  lemma RunGrows(claim: Name -> string, states: seq<Sys>, steps: seq<Step>, step: Step)
    requires IsRun(claim, states, steps) && Enabled(claim, states[|steps|], step)
    ensures IsRun(claim, states + [Do(states[|steps|], step)], steps + [step]) && |states| == |steps| + 1
  {
    hide Enabled, Do;
  }

  /** The reconciler's own steps; the others are the handlers' and the operations'. */
  predicate IsReconcilers(step: Step) {
    step.ListDesired? || step.ListActual? || step.Launch? || step.Pass?
  }

  function Foreign(steps: seq<Step>): nat {
    if steps == [] then 0
    else Foreign(steps[..|steps| - 1]) + if IsReconcilers(steps[|steps| - 1]) then 0 else 1
  }

  lemma OneMore(steps: seq<Step>, step: Step)
    ensures Foreign(steps + [step]) == Foreign(steps) + if IsReconcilers(step) then 0 else 1
    ensures WorkIn(steps + [step]) == WorkIn(steps) + if IsWork(step) then 1 else 0
    ensures Grows(steps, steps + [step])
  {
    assert (steps + [step])[..|steps|] == steps;
  }

  /** More steps; those of others are work. */
  predicate Grows(steps: seq<Step>, steps': seq<Step>) {
    0 <= Foreign(steps') - Foreign(steps) <= WorkIn(steps') - WorkIn(steps)
  }

  // ---------------------------------------------------------------- what a round attends to

  /** An operation of this name runs; or, unless all is quiet, one has failed and backs off. */
  ghost predicate Attended(claim: Name -> string, s: Sys, quiet: bool, op: Op) {
    || !Free(claim, s.running, op)
    || (!quiet && exists o :: o in s.failed && OpName(claim, o) == OpName(claim, op))
  }

  ghost predicate DeletionsAttended(claim: Name -> string, s: Sys, quiet: bool, names: set<Name>) {
    forall n :: n in names && n !in s.desired ==> Attended(claim, s, quiet, Op(Delete, n))
  }

  ghost predicate CreationsAttended(claim: Name -> string, s: Sys, quiet: bool, names: set<Name>) {
    forall n :: n in names && n !in s.actual ==> Attended(claim, s, quiet, Op(Create, n))
  }

  lemma NoneAttended(claim: Name -> string, s: Sys, quiet: bool)
    ensures DeletionsAttended(claim, s, quiet, {}) && CreationsAttended(claim, s, quiet, {})
  {}

  /** No step of the reconciler takes an operation away. */
  lemma AttendedStays(claim: Name -> string, s: Sys, step: Step, quiet: bool, op: Op)
    requires Attended(claim, s, quiet, op) && IsReconcilers(step)
    ensures Attended(claim, Do(s, step), quiet, op)
  {
    hide OpName;
    if !Free(claim, s.running, op) {
      var o :| o in s.running && OpName(claim, o) == OpName(claim, op);
      assert o in Do(s, step).running;
    }
  }

  lemma OwnKeeps(s: Sys, step: Step)
    requires IsReconcilers(step)
    ensures Do(s, step).desired == s.desired && Do(s, step).actual == s.actual
  {}

  lemma AllStay(claim: Name -> string, s: Sys, step: Step, quiet: bool, names: set<Name>)
    requires IsReconcilers(step)
    ensures DeletionsAttended(claim, s, quiet, names) ==> DeletionsAttended(claim, Do(s, step), quiet, names)
    ensures CreationsAttended(claim, s, quiet, names) ==> CreationsAttended(claim, Do(s, step), quiet, names)
    ensures Do(s, step).desired == s.desired && Do(s, step).actual == s.actual
  {
    hide Attended;
    OwnKeeps(s, step);
    hide Do;
    forall op | Attended(claim, s, quiet, op) ensures Attended(claim, Do(s, step), quiet, op) {
      AttendedStays(claim, s, step, quiet, op);
    }
  }

  /** Where every difference is attended to and nothing runs, there is none. */
  lemma AllAttended(claim: Name -> string, s: Sys)
    requires DeletionsAttended(claim, s, true, s.actual.Keys) && CreationsAttended(claim, s, true, s.desired.Keys)
    requires s.running == map[]
    ensures s.actual.Keys == s.desired.Keys
  {
    forall n ensures n in s.actual <==> n in s.desired {
      assert !Attended(claim, s, true, Op(Delete, n)) && !Attended(claim, s, true, Op(Create, n));
    }
  }

  // ---------------------------------------------------------------- what is left to do

  /** From `s` to `s'` only quiet steps were taken, and the work among them (`w` counts it) has been paid for. */
  ghost predicate Settles(claim: Name -> string, s: Sys, w: nat, s': Sys, w': nat) {
    && Separate(claim, s') && Hopeful(s') && s'.desired == s.desired
    && forall names :: Covers(names, s) ==> Covers(names, s') && Rank(s', names) + w' <= Rank(s, names) + w
  }

  lemma SettlesOn(claim: Name -> string, s: Sys, w: nat, s': Sys, w': nat, s'': Sys, w'': nat)
    requires Settles(claim, s, w, s', w') && Settles(claim, s', w', s'', w'')
    ensures Settles(claim, s, w, s'', w'')
  {
    hide Separate, Hopeful, Covers, Rank;
  }

  lemma SettlesSelf(claim: Name -> string, s: Sys, w: nat)
    requires Separate(claim, s) && Hopeful(s)
    ensures Settles(claim, s, w, s, w)
  {}

  lemma StepSettles(claim: Name -> string, s: Sys, step: Step, steps: seq<Step>)
    requires Separate(claim, s) && Hopeful(s) && Enabled(claim, s, step) && Quiet(s, step)
    ensures Settles(claim, s, WorkIn(steps), Do(s, step), WorkIn(steps + [step]))
  {
    OneMore(steps, step);
    QuietKeepsDesired(s, step);
    var names := SomeCover(s);
    QuietStep(claim, s, step, names);
    hide Separate, Hopeful, Enabled, Quiet, Do, Covers, Rank, IsWork;
    forall names | Covers(names, s)
      ensures Covers(names, Do(s, step))
      ensures Rank(Do(s, step), names) + WorkIn(steps + [step]) <= Rank(s, names) + WorkIn(steps)
    {
      QuietStep(claim, s, step, names);
    }
  }

  lemma QuietKeepsDesired(s: Sys, step: Step)
    requires Quiet(s, step)
    ensures Do(s, step).desired == s.desired
  {
    hide IsDoomed, Stored, HalfWay;
  }

  lemma SettledFor(claim: Name -> string, s: Sys, w: nat, s': Sys, w': nat, names: seq<Name>)
    requires Settles(claim, s, w, s', w') && Covers(names, s)
    ensures Hopeful(s') && s'.desired == s.desired && Covers(names, s') && Rank(s', names) + w' <= Rank(s, names) + w
  {}

  lemma SettlesHopeful(claim: Name -> string, s: Sys, w: nat, s': Sys, w': nat)
    requires Settles(claim, s, w, s', w')
    ensures Separate(claim, s') && Hopeful(s') && s'.desired == s.desired
  {}

  lemma PassIsQuiet(claim: Name -> string, s: Sys, op: Op)
    ensures Enabled(claim, s, Pass(op)) && Quiet(s, Pass(op)) && Visited(s, op, Do(s, Pass(op)))
  {}

  /** Each list is the copy of one state. */
  lemma ListingIsQuiet(claim: Name -> string, s: Sys)
    requires s.wanted == map[] && s.listed == map[]
    ensures Enabled(claim, s, ListActual) && Quiet(s, ListActual) && Do(s, ListActual) == s.(listed := s.actual)
    ensures Enabled(claim, s, ListDesired) && Quiet(s, ListDesired) && Do(s, ListDesired) == s.(wanted := s.desired)
  {}

  /** The reconciler has come to one snapshot of its list. */
  ghost predicate Visited(s: Sys, op: Op, s': Sys) {
    s' == Passed(s, op) || exists first :: s' == Do(s, Launch(op, first))
  }

  lemma LaunchIsVisit(s: Sys, op: Op, first: Phase)
    ensures Visited(s, op, Do(s, Launch(op, first)))
  {}

  lemma VisitStays(claim: Name -> string, s: Sys, op: Op, s': Sys, quiet: bool, names: set<Name>)
    requires Visited(s, op, s')
    ensures s'.desired == s.desired && s'.actual == s.actual
    ensures s'.wanted == Passed(s, op).wanted && s'.listed == Passed(s, op).listed
    ensures DeletionsAttended(claim, s, quiet, names) ==> DeletionsAttended(claim, s', quiet, names)
    ensures CreationsAttended(claim, s, quiet, names) ==> CreationsAttended(claim, s', quiet, names)
  {
    hide DeletionsAttended, CreationsAttended, Do, Passed, Moved;
    if s' == Passed(s, op) {
      DoPass(s, op);
      AllStay(claim, s, Pass(op), quiet, names);
    } else {
      var first :| s' == Do(s, Launch(op, first));
      DoLaunch(s, op, first);
      AllStay(claim, s, Launch(op, first), quiet, names);
    }
  }

  lemma DoPass(s: Sys, op: Op)
    ensures Do(s, Pass(op)) == Passed(s, op)
  {}

  lemma DoLaunch(s: Sys, op: Op, first: Phase)
    ensures Do(s, Launch(op, first)) == Passed(Moved(s, op, first), op)
    ensures var s' := Do(s, Launch(op, first)); s'.wanted == Passed(s, op).wanted && s'.listed == Passed(s, op).listed
  {}

  lemma MoreDeletions(claim: Name -> string, s: Sys, s': Sys, quiet: bool, names: set<Name>, name: Name)
    requires Visited(s, Op(Delete, name), s') && (name in s.desired || Attended(claim, s', quiet, Op(Delete, name)))
    ensures DeletionsAttended(claim, s, quiet, names) ==> DeletionsAttended(claim, s', quiet, names + {name})
    ensures s'.desired == s.desired && s'.actual == s.actual
    ensures s'.wanted == s.wanted && s'.listed == s.listed - {name}
  {
    VisitStays(claim, s, Op(Delete, name), s', quiet, names);
    hide Attended, Visited;
  }

  lemma MoreCreations(claim: Name -> string, s: Sys, s': Sys, quiet: bool, names: set<Name>, name: Name)
    requires Visited(s, Op(Create, name), s') && (name in s.actual || Attended(claim, s', quiet, Op(Create, name)))
    ensures CreationsAttended(claim, s, quiet, names) ==> CreationsAttended(claim, s', quiet, names + {name})
    ensures s'.desired == s.desired && s'.actual == s.actual
    ensures s'.listed == s.listed && s'.wanted == s.wanted - {name}
  {
    VisitStays(claim, s, Op(Create, name), s', quiet, names);
    hide Attended, Visited;
  }

  lemma NotLaunched(claim: Name -> string, s: Sys, quiet: bool, op: Op)
    requires !Free(claim, s.running, op) || (!quiet && exists o :: o in s.failed && OpName(claim, o) == OpName(claim, op))
    ensures Attended(claim, Do(s, Pass(op)), quiet, op)
  {
    hide OpName;
  }

  lemma IsLaunched(claim: Name -> string, s: Sys, quiet: bool, op: Op, first: Phase)
    ensures Attended(claim, Do(s, Launch(op, first)), quiet, op)
  {
    assert op in Do(s, Launch(op, first)).running;
  }

  lemma SomeStep(claim: Name -> string, s: Sys, op: Op) returns (step: Step)
    requires Separate(claim, s) && op in s.running
    ensures IsWork(step) && Quiet(s, step) && Enabled(claim, s, step) && IsOperations(step)
  {
    PhaseOf(claim, s, op);
    step := StepOf(claim, s, op);
  }

  lemma KeepsLists(s: Sys, step: Step)
    requires IsOperations(step)
    ensures Do(s, step).wanted == s.wanted && Do(s, step).listed == s.listed
  {
    hide Stored, HalfWay;
  }

  /** How far a loop of the reconciler has come since `s0`: if nothing else moved meanwhile, what it
      has visited is attended to; and while all is quiet, what was done is paid for. */
  ghost predicate Progress(claim: Name -> string, quiet: bool, s0: Sys, steps0: seq<Step>, s: Sys, steps: seq<Step>,
                           creations: set<Name>, deletions: set<Name>) {
    && Grows(steps0, steps)
    && (Foreign(steps) == Foreign(steps0) ==>
          && s.desired == s0.desired && s.actual == s0.actual
          && CreationsAttended(claim, s, quiet, creations) && DeletionsAttended(claim, s, quiet, deletions))
    && (quiet && Hopeful(s0) ==> Settles(claim, s0, WorkIn(steps0), s, WorkIn(steps)))
  }

  lemma ProgressOn(claim: Name -> string, quiet: bool, s0: Sys, steps0: seq<Step>, s: Sys, steps: seq<Step>,
                   creations: set<Name>, deletions: set<Name>,
                   s': Sys, steps': seq<Step>, creations': set<Name>, deletions': set<Name>)
    requires Progress(claim, quiet, s0, steps0, s, steps, creations, deletions) && Grows(steps, steps')
    requires Foreign(steps') == Foreign(steps) ==>
      && s'.desired == s.desired && s'.actual == s.actual
      && (CreationsAttended(claim, s, quiet, creations) ==> CreationsAttended(claim, s', quiet, creations'))
      && (DeletionsAttended(claim, s, quiet, deletions) ==> DeletionsAttended(claim, s', quiet, deletions'))
    requires quiet && Hopeful(s) ==> Settles(claim, s, WorkIn(steps), s', WorkIn(steps'))
    ensures Progress(claim, quiet, s0, steps0, s', steps', creations', deletions')
  {
    hide CreationsAttended, DeletionsAttended, Settles, Hopeful, Foreign, WorkIn;
    if quiet && Hopeful(s0) {
      SettlesHopeful(claim, s0, WorkIn(steps0), s, WorkIn(steps));
      SettlesOn(claim, s0, WorkIn(steps0), s, WorkIn(steps), s', WorkIn(steps'));
    }
  }

  lemma ListingProgress(claim: Name -> string, quiet: bool, s0: Sys, steps0: seq<Step>, s: Sys, steps: seq<Step>)
    requires s.desired == s0.desired && s.actual == s0.actual && Grows(steps0, steps)
    requires Hopeful(s0) ==> Settles(claim, s0, WorkIn(steps0), s, WorkIn(steps))
    ensures Progress(claim, quiet, s0, steps0, s, steps, {}, {})
  {}

  lemma DesiredProgress(claim: Name -> string, quiet: bool, s0: Sys, steps0: seq<Step>, s: Sys, steps: seq<Step>,
                        kept: set<Name>)
    requires s == Do(s0, ListDesired) && DeletionsAttended(claim, s0, quiet, kept) && Grows(steps0, steps)
    requires Hopeful(s0) ==> Settles(claim, s0, WorkIn(steps0), s, WorkIn(steps))
    ensures Progress(claim, quiet, s0, steps0, s, steps, {}, kept)
  {
    NoneAttended(claim, s, quiet);
    AllStay(claim, s0, ListDesired, quiet, kept);
    hide Do, DeletionsAttended, CreationsAttended, Settles, Hopeful, Grows;
  }

  predicate IsOperations(step: Step) {
    step.Move? || step.Finish? || step.Fail? || step.Return?
  }

  class Controller {
    const desired: StateOfWorld
    const actual: StateOfWorld
    /** The name of each snapshot's claim, which never changes. */
    const claim: Name -> string
    /** The snapshot that each running operation was launched for. */
    var launchedFor: map<Op, Snapshot>
    // The system as the protocol sees it; the caches hold its desired and its actual state.
    var sys: Sys
    ghost var states: seq<Sys>
    ghost var steps: seq<Step>

    predicate IsNamed(snapshot: Snapshot, n: Name) {
      MakeSnapshotName(snapshot) == n && snapshot.claim == claim(n)
    }

    predicate Named(snapshots: map<Name, Snapshot>) {
      forall n :: n in snapshots ==> IsNamed(snapshots[n], n)
    }

    predicate KnowsOf(launchedFor: map<Op, Snapshot>, running: map<Op, Phase>) {
      forall op :: op in running ==>
        && op in launchedFor && IsNamed(launchedFor[op], op.name)
        && (running[op].Starting? ==> launchedFor[op].version == running[op].version)
    }

    /** The caches hold the two states. */
    predicate Caches(s: Sys, desiredSnapshots: map<Name, Snapshot>, actualSnapshots: map<Name, Snapshot>) {
      && s.desired == Versions(desiredSnapshots) && s.actual == Bounds(actualSnapshots)
      && Named(desiredSnapshots) && Named(actualSnapshots)
    }

    ghost predicate Ran()
      reads this`sys, this`states, this`steps
    {
      IsRun(claim, states, steps) && Started(states[0]) && states[|steps|] == sys
    }

    ghost predicate Valid()
      reads this, desired, actual
    {
      desired != actual && Ran() && Caches(sys, desired.snapshots, actual.snapshots) && KnowsOf(launchedFor, sys.running)
    }

    /** Between two rounds. */
    predicate AtRest()
      reads this`sys
    {
      sys.wanted == map[] && sys.listed == map[]
    }

    /** Started with what is on the storage and what is recorded. */
    constructor (claim: Name -> string, disk: set<Id>, owner: map<Id, Name>, data: set<Id>, recorded: set<Id>)
      requires data <= recorded <= owner.Keys && disk <= owner.Keys
      ensures Valid() && AtRest() && fresh(desired) && fresh(actual) && steps == []
      ensures sys.disk == disk && sys.data == data && sys.owner == owner && sys.recorded == recorded
    {
      this.claim := claim;
      desired := new StateOfWorld();
      actual := new StateOfWorld();
      sys := Sys(map[], map[], disk, owner, data, recorded, map[], map[], map[], {}, {});
      launchedFor := map[];
      new;
      states, steps := [sys], [];
    }

    lemma RanSeparate()
      requires Ran()
      ensures Separate(claim, sys)
    {
      EffectsNeverOverlap(claim, states, steps, |steps|);
    }

    lemma RanAccounted()
      requires Ran() && sys.running == map[]
      ensures states[0].owner == map[] && sys.lost == {} ==> sys.disk == sys.data && forall id :: id in sys.disk ==>
        Kept(sys, id)
    {
      EffectsNeverOverlap(claim, states, steps, |steps|);
    }

    /** One step of the protocol; the caller has made the step's change to the caches. */
    method Act(step: Step)
      requires desired != actual && Ran() && Enabled(claim, sys, step)
      requires Caches(Do(sys, step), desired.snapshots, actual.snapshots) && KnowsOf(launchedFor, Do(sys, step).running)
      modifies this`sys, this`states, this`steps
      ensures Valid() && sys == Do(old(sys), step) && steps == old(steps) + [step]
      ensures Foreign(steps) == old(Foreign(steps)) + if IsReconcilers(step) then 0 else 1
      ensures Grows(old(steps), steps)
      ensures Quiet(old(sys), step) && Hopeful(old(sys)) ==>
        Settles(claim, old(sys), WorkIn(old(steps)), sys, WorkIn(steps))
    {
      hide Enabled, Do, Caches, KnowsOf, IsRun, Started, Separate, Hopeful, Quiet, Settles, IsReconcilers;
      OneMore(steps, step);
      RunGrows(claim, states, steps, step);
      RanSeparate();
      if Quiet(sys, step) && Hopeful(sys) {
        StepSettles(claim, sys, step, steps);
      }
      states := states + [Do(sys, step)];
      sys := Do(sys, step);
      steps := steps + [step];
    }

    /** Like `Act`, for a step that leaves the caches alone. */
    method ActAlone(step: Step)
      requires Valid() && Enabled(claim, sys, step) && KnowsOf(launchedFor, Do(sys, step).running)
      requires Do(sys, step).desired == sys.desired && Do(sys, step).actual == sys.actual
      modifies this`sys, this`states, this`steps
      ensures Valid() && sys == Do(old(sys), step) && steps == old(steps) + [step]
      ensures Foreign(steps) == old(Foreign(steps)) + if IsReconcilers(step) then 0 else 1
      ensures Grows(old(steps), steps)
      ensures Quiet(old(sys), step) && Hopeful(old(sys)) ==>
        Settles(claim, old(sys), WorkIn(old(steps)), sys, WorkIn(steps))
    {
      hide Enabled, Do, KnowsOf, Ran, Hopeful, Quiet, Settles, IsReconcilers, WorkIn, Foreign;
      Act(step);
    }

    lemma CacheAdds(snapshots: map<Name, Snapshot>, snapshot: Snapshot, n: Name)
      requires Named(snapshots) && IsNamed(snapshot, n)
      ensures Named(snapshots[n := snapshot])
      ensures Versions(snapshots[n := snapshot]) == Versions(snapshots)[n := snapshot.version]
      ensures Bounds(snapshots[n := snapshot]) == Bounds(snapshots)[n := snapshot.version.bound]
    {}

    lemma CacheDrops(snapshots: map<Name, Snapshot>, n: Name)
      requires Named(snapshots)
      ensures Named(snapshots - {n})
      ensures Versions(snapshots - {n}) == Versions(snapshots) - {n} && Bounds(snapshots - {n}) == Bounds(snapshots) - {n}
    {}

    lemma StillKnown(launchedFor: map<Op, Snapshot>, running: map<Op, Phase>, op: Op)
      requires KnowsOf(launchedFor, running)
      ensures KnowsOf(launchedFor, running[op := Done]) <== op in running
    {}

    lemma OneMoreKnown(launchedFor: map<Op, Snapshot>, running: map<Op, Phase>, op: Op, snapshot: Snapshot,
                       first: Phase)
      requires KnowsOf(launchedFor, running) && IsNamed(snapshot, op.name)
      requires first.Starting? ==> first.version == snapshot.version
      ensures KnowsOf(launchedFor[op := snapshot], running[op := first])
      ensures op !in running ==> KnowsOf(launchedFor[op := snapshot], running)
    {}

    method OnSnapshotAdd(snapshot: Snapshot)
      requires Valid() && snapshot.claim == claim(MakeSnapshotName(snapshot))
      requires snapshot.version.bound.Some? ==> snapshot.version.bound.value in sys.recorded
      modifies this, desired
      ensures Valid() && sys == Do(old(sys), Want(MakeSnapshotName(snapshot), snapshot.version))
      ensures steps == old(steps) + [Want(MakeSnapshotName(snapshot), snapshot.version)]
      ensures Foreign(steps) == old(Foreign(steps)) + 1 && Grows(old(steps), steps)
    {
      hide IsRun, Started, Named, Versions, Bounds, Settles, Hopeful, Foreign, WorkIn;
      CacheAdds(desired.snapshots, snapshot, MakeSnapshotName(snapshot));
      desired.AddSnapshot(snapshot);
      Act(Want(MakeSnapshotName(snapshot), snapshot.version));
    }

    method OnSnapshotDelete(snapshotName: Name)
      requires Valid()
      modifies this, desired
      ensures Valid() && sys == Do(old(sys), Unwant(snapshotName)) && steps == old(steps) + [Unwant(snapshotName)]
      ensures Foreign(steps) == old(Foreign(steps)) + 1 && Grows(old(steps), steps)
    {
      hide IsRun, Started, Named, Versions, Bounds, Settles, Hopeful, Foreign, WorkIn;
      CacheDrops(desired.snapshots, snapshotName);
      desired.DeleteSnapshot(snapshotName);
      Act(Unwant(snapshotName));
    }

    /** The end of a creation or deletion that succeeds: the actual state changes last of all. */
    method FinishOperation(op: Op, bound: Option<Id>, snapshot: Snapshot)
      requires Valid() && Enabled(claim, sys, Finish(op, bound))
      requires IsNamed(snapshot, op.name) && snapshot.version.bound == bound
      modifies this, actual
      ensures Valid() && sys == Do(old(sys), Finish(op, bound)) && steps == old(steps) + [Finish(op, bound)]
      ensures Foreign(steps) == old(Foreign(steps)) + 1 && Grows(old(steps), steps)
      ensures Quiet(old(sys), Finish(op, bound)) && Hopeful(old(sys)) ==>
        Settles(claim, old(sys), WorkIn(old(steps)), sys, WorkIn(steps))
    {
      hide IsRun, OpName, Started, Hopeful, Settles, Foreign, WorkIn, Named, Versions, Bounds, KnowsOf, IsDoomed;
      StillKnown(launchedFor, sys.running, op);
      CacheAdds(actual.snapshots, snapshot, op.name);
      CacheDrops(actual.snapshots, op.name);
      if op.kind.Create? {
        actual.AddSnapshot(snapshot);
      } else {
        actual.DeleteSnapshot(op.name);
      }
      Act(Finish(op, bound));
    }

    /** The next step of an operation. `found` is the snapshot as the API server has it when the
        operation ends, if it differs from what it was launched for. */
    method OperationStep(step: Step, found: Option<Snapshot>)
      requires Valid() && IsOperations(step) && Enabled(claim, sys, step)
      modifies this, actual
      ensures Valid() && sys == Do(old(sys), step) && steps == old(steps) + [step]
      ensures Foreign(steps) == old(Foreign(steps)) + 1 && Grows(old(steps), steps)
      ensures Quiet(old(sys), step) && Hopeful(old(sys)) ==>
        Settles(claim, old(sys), WorkIn(old(steps)), sys, WorkIn(steps))
    {
      hide IsRun, OpName, Started, Hopeful, Settles, Foreign, WorkIn;
      if step.Finish? {
        var snapshot := launchedFor[step.op];
        if found.Some? && IsNamed(found.value, step.op.name) {
          snapshot := found.value;
        }
        FinishOperation(step.op, step.bound, snapshot.(version := Version(Ready, step.bound)));
      } else {
        ActAlone(step);
      }
    }

    /** One step of the handlers or the running operations, or none. While all is quiet, the desired
        state is left alone and operations fail only where they must. */
    method OtherStep(quiet: bool, step: Step, snapshot: Snapshot)
      requires Valid()
      modifies this, desired, actual
      ensures Valid() && sys.wanted == old(sys).wanted && sys.listed == old(sys).listed
      ensures Grows(old(steps), steps)
      ensures Foreign(steps) == old(Foreign(steps)) ==> sys == old(sys)
      ensures quiet && Hopeful(old(sys)) ==> Settles(claim, old(sys), WorkIn(old(steps)), sys, WorkIn(steps))
    {
      hide IsRun, OpName, Started, Hopeful, Settles, Foreign;
      hide WorkIn, Separate, Enabled, Stored, HalfWay, IsDoomed, Caches;
      RanSeparate();
      if Hopeful(sys) {
        SettlesSelf(claim, sys, WorkIn(steps));
      }
      if step.Want? && !quiet {
        var bound := snapshot.version.bound;
        if snapshot.claim == claim(MakeSnapshotName(snapshot)) && (bound.Some? ==> bound.value in sys.recorded) {
          OnSnapshotAdd(snapshot);
        }
      } else if step.Unwant? && !quiet {
        OnSnapshotDelete(step.name);
      } else if IsOperations(step) && Enabled(claim, sys, step) && (quiet && step.Fail? ==> IsDoomed(sys, step.op)) {
        OperationStep(step, Some(snapshot));
      }
    }

    /** Any number of such steps. */
    method Interleave(quiet: bool)
      requires Valid()
      modifies this, desired, actual
      ensures Valid() && sys.wanted == old(sys).wanted && sys.listed == old(sys).listed
      ensures Grows(old(steps), steps)
      ensures Foreign(steps) == old(Foreign(steps)) ==> sys == old(sys)
      ensures quiet && Hopeful(old(sys)) ==> Settles(claim, old(sys), WorkIn(old(steps)), sys, WorkIn(steps))
    {
      RanSeparate();
      if Hopeful(sys) {
        SettlesSelf(claim, sys, WorkIn(steps));
      }
      ghost var s, f, w := sys, Foreign(steps), WorkIn(steps);
      var more: nat := *;
      hide *;
      while more > 0
        invariant Valid() && sys.wanted == s.wanted && sys.listed == s.listed
        invariant Grows(old(steps), steps)
        invariant Foreign(steps) == f ==> sys == s
        invariant quiet && Hopeful(s) ==> Settles(claim, s, w, sys, WorkIn(steps))
      {
        more := more - 1;
        var step: Step := *;
        var snapshot: Snapshot := *;
        ghost var s1, w1 := sys, WorkIn(steps);
        OtherStep(quiet, step, snapshot);
        if quiet && Hopeful(s) {
          SettlesHopeful(claim, s, w, s1, w1);
          SettlesOn(claim, s, w, s1, w1, sys, WorkIn(steps));
        }
      }
    }

    /** Launches an operation for a listed snapshot, unless one of its name runs or, after a failure, backs off. */
    method Launch(kind: Kind, snapshot: Snapshot, quiet: bool)
      requires Valid() && IsNamed(snapshot, MakeSnapshotName(snapshot))
      requires var n := MakeSnapshotName(snapshot);
               if kind.Create? then n in sys.wanted && sys.wanted[n] == snapshot.version && n !in sys.actual
               else n in sys.listed && sys.listed[n] == snapshot.version.bound && n !in sys.desired
      modifies this
      ensures Valid() && Attended(claim, sys, quiet, Op(kind, MakeSnapshotName(snapshot)))
      ensures Visited(old(sys), Op(kind, MakeSnapshotName(snapshot)), sys)
      ensures Foreign(steps) == old(Foreign(steps)) && Grows(old(steps), steps)
      ensures quiet && Hopeful(old(sys)) ==> Settles(claim, old(sys), WorkIn(old(steps)), sys, WorkIn(steps))
    {
      hide Ran, OpName, Hopeful, Settles, Foreign, WorkIn, Caches, Do, Attended, KnowsOf, Named, Grows, Visited;
      var op := Op(kind, MakeSnapshotName(snapshot));
      var first := if kind.Create? then Starting(snapshot.version) else Looking(snapshot.version.bound);
      DoPass(sys, op);
      DoLaunch(sys, op, first);
      var backsOff: bool := *;
      if !Free(claim, sys.running, op) ||
         (backsOff && !quiet && exists o :: o in sys.failed && OpName(claim, o) == OpName(claim, op)) {
        NotLaunched(claim, sys, quiet, op);
        PassIsQuiet(claim, sys, op);
        ActAlone(Pass(op));
      } else {
        OneMoreKnown(launchedFor, sys.running, op, snapshot, first);
        launchedFor := launchedFor[op := snapshot];
        LaunchIsVisit(sys, op, first);
        IsLaunched(claim, sys, quiet, op, first);
        ActAlone(SnapshotProtocol.Launch(op, first));
      }
    }

    method CreateVolumeSnapshot(snapshot: Snapshot, quiet: bool)
      requires Valid() && IsNamed(snapshot, MakeSnapshotName(snapshot))
      requires var n := MakeSnapshotName(snapshot);
               n in sys.wanted && sys.wanted[n] == snapshot.version && n !in sys.actual
      modifies this
      ensures Valid() && Attended(claim, sys, quiet, Op(Create, MakeSnapshotName(snapshot)))
      ensures Visited(old(sys), Op(Create, MakeSnapshotName(snapshot)), sys)
      ensures Foreign(steps) == old(Foreign(steps)) && Grows(old(steps), steps)
      ensures quiet && Hopeful(old(sys)) ==> Settles(claim, old(sys), WorkIn(old(steps)), sys, WorkIn(steps))
    {
      Launch(Create, snapshot, quiet);
    }

    method DeleteVolumeSnapshot(snapshot: Snapshot, quiet: bool)
      requires Valid() && IsNamed(snapshot, MakeSnapshotName(snapshot))
      requires var n := MakeSnapshotName(snapshot);
               n in sys.listed && sys.listed[n] == snapshot.version.bound && n !in sys.desired
      modifies this
      ensures Valid() && Attended(claim, sys, quiet, Op(Delete, MakeSnapshotName(snapshot)))
      ensures Visited(old(sys), Op(Delete, MakeSnapshotName(snapshot)), sys)
      ensures Foreign(steps) == old(Foreign(steps)) && Grows(old(steps), steps)
      ensures quiet && Hopeful(old(sys)) ==> Settles(claim, old(sys), WorkIn(old(steps)), sys, WorkIn(steps))
    {
      Launch(Delete, snapshot, quiet);
    }

    /** Deletes one listed snapshot unless it is desired. */
    method DeleteUndesired(snapshot: Snapshot, quiet: bool, ghost names: set<Name>)
      requires Valid() && IsNamed(snapshot, MakeSnapshotName(snapshot))
      requires var n := MakeSnapshotName(snapshot); n in sys.listed && sys.listed[n] == snapshot.version.bound
      modifies this, desired, actual
      ensures Valid() && sys.listed == old(sys).listed - {MakeSnapshotName(snapshot)} && sys.wanted == old(sys).wanted
      ensures Grows(old(steps), steps)
      ensures Foreign(steps) == old(Foreign(steps)) ==> sys.desired == old(sys).desired && sys.actual == old(sys).actual
      ensures Foreign(steps) == old(Foreign(steps)) && DeletionsAttended(claim, old(sys), quiet, names) ==>
        DeletionsAttended(claim, sys, quiet, names + {MakeSnapshotName(snapshot)})
      ensures quiet && Hopeful(old(sys)) ==> Settles(claim, old(sys), WorkIn(old(steps)), sys, WorkIn(steps))
    {
      hide Ran, Attended, OpName, DeletionsAttended, Foreign, WorkIn;
      hide Settles, Hopeful, Named, IsNamed, Enabled, KnowsOf, Quiet;
      var name := MakeSnapshotName(snapshot);
      ghost var s0, w0 := sys, WorkIn(steps);
      Interleave(quiet);
      var wanted := desired.SnapshotExists(name);
      ghost var s, w := sys, WorkIn(steps);
      if quiet && Hopeful(s0) {
        SettlesHopeful(claim, s0, w0, s, w);
      }
      if !wanted {
        DeleteVolumeSnapshot(snapshot, quiet);
      } else {
        PassIsQuiet(claim, s, Op(Delete, name));
        ActAlone(Pass(Op(Delete, name)));
      }
      MoreDeletions(claim, s, sys, quiet, names, name);
      if quiet && Hopeful(s0) {
        SettlesOn(claim, s0, w0, s, w, sys, WorkIn(steps));
      }
    }

    /** Creates one listed snapshot unless it is there already. */
    method CreateMissing(snapshot: Snapshot, quiet: bool, ghost names: set<Name>, ghost deletions: set<Name>)
      requires Valid() && IsNamed(snapshot, MakeSnapshotName(snapshot))
      requires var n := MakeSnapshotName(snapshot); n in sys.wanted && sys.wanted[n] == snapshot.version
      modifies this, desired, actual
      ensures Valid() && sys.wanted == old(sys).wanted - {MakeSnapshotName(snapshot)} && sys.listed == old(sys).listed
      ensures Grows(old(steps), steps)
      ensures Foreign(steps) == old(Foreign(steps)) ==> sys.desired == old(sys).desired && sys.actual == old(sys).actual
      ensures Foreign(steps) == old(Foreign(steps)) && CreationsAttended(claim, old(sys), quiet, names) ==>
        CreationsAttended(claim, sys, quiet, names + {MakeSnapshotName(snapshot)})
      ensures Foreign(steps) == old(Foreign(steps)) && DeletionsAttended(claim, old(sys), quiet, deletions) ==>
        DeletionsAttended(claim, sys, quiet, deletions)
      ensures quiet && Hopeful(old(sys)) ==> Settles(claim, old(sys), WorkIn(old(steps)), sys, WorkIn(steps))
    {
      hide Ran, Attended, OpName, DeletionsAttended, CreationsAttended, Foreign, WorkIn;
      hide Settles, Hopeful, Named, IsNamed, Enabled, KnowsOf, Quiet;
      var name := MakeSnapshotName(snapshot);
      ghost var s0, w0 := sys, WorkIn(steps);
      Interleave(quiet);
      var made := actual.SnapshotExists(name);
      ghost var s, w := sys, WorkIn(steps);
      if quiet && Hopeful(s0) {
        SettlesHopeful(claim, s0, w0, s, w);
      }
      if !made {
        CreateVolumeSnapshot(snapshot, quiet);
      } else {
        PassIsQuiet(claim, s, Op(Create, name));
        ActAlone(Pass(Op(Create, name)));
      }
      MoreCreations(claim, s, sys, quiet, names, name);
      VisitStays(claim, s, Op(Create, name), sys, quiet, deletions);
      if quiet && Hopeful(s0) {
        SettlesOn(claim, s0, w0, s, w, sys, WorkIn(steps));
      }
    }

    /** What is left of a list is left of the copy. */
    lemma RestNamed(snapshots: map<Name, Snapshot>, names: set<Name>, name: Name)
      requires Named(snapshots) && name in names && names <= snapshots.Keys
      ensures IsNamed(snapshots[name], name) && MakeSnapshotName(snapshots[name]) == name
      ensures Rest(snapshots, names) - {name} == Rest(snapshots, names - {name})
      ensures name in Rest(snapshots, names) && Rest(snapshots, names)[name] == snapshots[name].version
      ensures Unbound(Rest(snapshots, names)) - {name} == Unbound(Rest(snapshots, names - {name}))
      ensures name in Unbound(Rest(snapshots, names)) && Unbound(Rest(snapshots, names))[name] == snapshots[name].version.bound
    {}

    lemma WholeList()
      requires Valid()
      ensures Named(desired.snapshots) && Named(actual.snapshots)
      ensures sys.desired == Rest(desired.snapshots, desired.snapshots.Keys) && sys.desired.Keys == desired.snapshots.Keys
      ensures sys.actual == Unbound(Rest(actual.snapshots, actual.snapshots.Keys))
      ensures sys.actual.Keys == actual.snapshots.Keys
      ensures Rest(desired.snapshots, {}) == map[] && Unbound(Rest(actual.snapshots, {})) == map[]
    {}

    method List(listing: Step)
      requires Valid() && AtRest() && (listing.ListActual? || listing.ListDesired?)
      modifies this`sys, this`states, this`steps
      ensures Valid() && sys == Do(old(sys), listing) && Foreign(steps) == old(Foreign(steps)) && Grows(old(steps), steps)
      ensures Hopeful(old(sys)) ==> Settles(claim, old(sys), WorkIn(old(steps)), sys, WorkIn(steps))
    {
      hide Ran, Foreign, WorkIn, Settles, Hopeful, KnowsOf, Caches, Grows, Quiet, Enabled;
      ListingIsQuiet(claim, sys);
      ActAlone(listing);
    }

    /** Ensures that the snapshots that should be deleted are. */
    method LaunchDeletions(quiet: bool)
      requires Valid() && AtRest()
      modifies this, desired, actual
      ensures Valid() && AtRest()
      ensures Progress(claim, quiet, old(sys), old(steps), sys, steps, {}, old(sys).actual.Keys)
    {
      hide Ran, Progress, CreationsAttended, DeletionsAttended, Foreign;
      hide WorkIn, Named, Settles, Hopeful, Caches, KnowsOf;
      hide Rest, Unbound, MakeSnapshotName, IsNamed, Grows, Do;
      WholeList();
      ListingIsQuiet(claim, sys);
      var snapshots := actual.GetSnapshots();
      List(ListActual);
      ListingProgress(claim, quiet, old(sys), old(steps), sys, steps);
      var names := snapshots.Keys;
      ghost var done: set<Name> := {};
      while names != {}
        invariant Valid() && Named(snapshots) && names + done == snapshots.Keys
        invariant sys.wanted == map[] && sys.listed == Unbound(Rest(snapshots, names))
        invariant Progress(claim, quiet, old(sys), old(steps), sys, steps, {}, done)
        decreases |names|
      {
        var name := AnyOf(names);
        RestNamed(snapshots, names, name);
        ghost var s, taken := sys, steps;
        DeleteUndesired(snapshots[name], quiet, done);
        NoneAttended(claim, sys, quiet);
        ProgressOn(claim, quiet, old(sys), old(steps), s, taken, {}, done, sys, steps, {}, done + {name});
        names := names - {name};
        done := done + {name};
      }
      assert done == snapshots.Keys;
    }

    /** Ensures that the snapshots that should be created are. */
    method LaunchCreations(quiet: bool, ghost deletions: set<Name>)
      requires Valid() && AtRest()
      modifies this, desired, actual
      ensures Valid() && AtRest()
      ensures Progress(claim, quiet, old(sys), old(steps), sys, steps, old(sys).desired.Keys,
                       if DeletionsAttended(claim, old(sys), quiet, deletions) then deletions else {})
    {
      hide Ran, Progress, CreationsAttended, DeletionsAttended, Foreign;
      hide WorkIn, Named, Settles, Hopeful, Caches, KnowsOf;
      hide Rest, Unbound, MakeSnapshotName, IsNamed, Grows, Do;
      ghost var kept := if DeletionsAttended(claim, sys, quiet, deletions) then deletions else {};
      NoneAttended(claim, sys, quiet);
      WholeList();
      ListingIsQuiet(claim, sys);
      var snapshots := desired.GetSnapshots();
      List(ListDesired);
      DesiredProgress(claim, quiet, old(sys), old(steps), sys, steps, kept);
      var names := snapshots.Keys;
      ghost var done: set<Name> := {};
      while names != {}
        invariant Valid() && Named(snapshots) && names + done == snapshots.Keys
        invariant sys.listed == map[] && sys.wanted == Rest(snapshots, names)
        invariant Progress(claim, quiet, old(sys), old(steps), sys, steps, done, kept)
        decreases |names|
      {
        var name := AnyOf(names);
        RestNamed(snapshots, names, name);
        ghost var s, taken := sys, steps;
        CreateMissing(snapshots[name], quiet, done, kept);
        ProgressOn(claim, quiet, old(sys), old(steps), s, taken, done, kept, sys, steps, done + {name}, kept);
        names := names - {name};
        done := done + {name};
      }
      assert done == snapshots.Keys;
    }

    /** One round. If nothing else moved meanwhile, every difference between the two states is
        attended to: its operation runs, or backs off after a failure. */
    method Reconcile(quiet: bool)
      requires Valid() && AtRest()
      modifies this, desired, actual
      ensures Valid() && AtRest() && Grows(old(steps), steps)
      ensures Foreign(steps) == old(Foreign(steps)) ==>
        && sys.desired == old(sys).desired && sys.actual == old(sys).actual
        && DeletionsAttended(claim, sys, quiet, sys.actual.Keys) && CreationsAttended(claim, sys, quiet, sys.desired.Keys)
      ensures quiet && Hopeful(old(sys)) ==> Settles(claim, old(sys), WorkIn(old(steps)), sys, WorkIn(steps))
    {
      hide Ran, DeletionsAttended, CreationsAttended, Foreign, WorkIn, Settles, Hopeful, KnowsOf, Caches;
      ghost var s0, w0 := sys, WorkIn(steps);
      LaunchDeletions(quiet);
      ghost var s, w := sys, WorkIn(steps);
      LaunchCreations(quiet, s0.actual.Keys);
      if quiet && Hopeful(s0) {
        SettlesHopeful(claim, s0, w0, s, w);
        SettlesOn(claim, s0, w0, s, w, sys, WorkIn(steps));
      }
    }

    /** Some running operation takes its next step, or fails if it must. */
    method Proceed()
      requires Valid() && sys.running != map[] && Hopeful(sys)
      modifies this, desired, actual
      ensures Valid() && AtRest() == old(AtRest()) && WorkIn(steps) == old(WorkIn(steps)) + 1
      ensures Settles(claim, old(sys), WorkIn(old(steps)), sys, WorkIn(steps))
    {
      hide Ran, Named, Settles, Hopeful, KnowsOf, OpName, Free, Caches, Separate, Enabled, Quiet, Do, IsWork;
      assert exists op :: op in sys.running;
      var op :| op in sys.running;
      RanSeparate();
      ghost var next := SomeStep(claim, sys, op);
      var step: Step :| IsWork(step) && Quiet(sys, step) && Enabled(claim, sys, step) && IsOperations(step);
      OneMore(steps, step);
      KeepsLists(sys, step);
      OperationStep(step, None);
    }

    /** While no snapshot is wanted or given up and operations fail only where they must, repeated
        rounds, interleaved with the operations' steps in any way that lets some running one go on
        between two rounds, come to an end, with the actual state as desired and nothing running. The
        reconciler's own list may go stale all the while. */
    method Settle()
      requires Valid() && AtRest() && Hopeful(sys)
      modifies this, desired, actual
      ensures Valid() && AtRest() && sys.running == map[]
      ensures states[0].owner == map[] && sys.lost == {} ==> sys.disk == sys.data && forall id :: id in sys.disk ==>
        Kept(sys, id)
      ensures actual.snapshots.Keys == desired.snapshots.Keys == old(desired.snapshots.Keys)
    {
      hide Ran, DeletionsAttended, CreationsAttended, Foreign, WorkIn, Named, Settles, Hopeful, KnowsOf, Covers, Rank;
      ghost var names := SomeCover(sys);
      WholeList();
      while true
        invariant Valid() && AtRest() && Hopeful(sys) && Covers(names, sys)
        invariant sys.desired == old(sys).desired
        decreases Rank(sys, names)
      {
        ghost var s, w, f := sys, WorkIn(steps), Foreign(steps);
        Reconcile(true);
        SettledFor(claim, s, w, sys, WorkIn(steps), names);
        if sys.running == map[] && sys.actual.Keys == sys.desired.Keys {
          RanAccounted();
          WholeList();
          break;
        }
        if sys.running != map[] {
          ghost var s1, w1 := sys, WorkIn(steps);
          Proceed();
          SettledFor(claim, s1, w1, sys, WorkIn(steps), names);
        } else if Foreign(steps) == f {
          AllAttended(claim, sys);
        }
      }
    }

    /** In every run whose steps were sincere, and in which nothing failed half-way, that is so. */
    lemma MaySettle()
      requires Valid() && AtRest() && sys.lost == {} && states[0].data <= states[0].disk
      requires forall j :: 0 <= j < |steps| ==> IsSincere(states[j], steps[j])
      ensures Hopeful(sys)
    {
      HopeFromTheStart(claim, states, steps, |steps|);
    }

    /** Any number of rounds from the start: creating and deleting one snapshot never overlap. */
    method Run(rounds: nat)
      requires Valid() && AtRest()
      modifies this, desired, actual
      ensures Valid() && AtRest()
      ensures forall i, n :: 0 <= i < |states| ==> !(IsWorking(states[i], Op(Create, n)) && IsDeleting(states[i], n))
    {
      hide Started, DeletionsAttended, CreationsAttended, Foreign, Named;
      hide IsWorking, IsDeleting, Settles, KnowsOf, Accounted, Separate;
      for round := 0 to rounds
        invariant Valid() && AtRest()
      {
        Interleave(false);
        Reconcile(false);
      }
      forall i, n | 0 <= i < |states|
        ensures !(IsWorking(states[i], Op(Create, n)) && IsDeleting(states[i], n))
      {
        EffectsNeverOverlap(claim, states, steps, i);
      }
    }
  }
}
