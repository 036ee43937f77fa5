/**
With a fixed desired state, and operations that fail only where they must, reconciling comes to an
end: there is a bound on the steps that are taken in every interleaving, and when none is left to
take, nothing runs and the actual state is the desired one. The reconciler's list of the actual
state may go stale while it goes through it, so that a snapshot that has just been deleted gets a
second deletion; but that one fails at its look-up, and each list is gone through once.
*/
module SnapshotConvergence {
  import opened Options
  import opened SnapshotProtocol

  predicate Exists(s: Sys, bound: Option<Id>) {
    bound.Some? && bound.value in s.data
  }

  /** An operation that cannot succeed, or may not: its record is gone, its VolumeSnapshot has an
      error or, as it is no longer desired, is gone, or what it is to remove is not on the storage. */
  predicate IsDoomed(s: Sys, op: Op) {
    && op in s.running
    && match s.running[op]
       case Starting(version) =>
         || version.status.Failed? || (version.status.Pending? && !Exists(s, version.bound)) || op.name !in s.desired
       case Looking(bound) => !Exists(s, bound)
       case Removing(id) => id !in s.disk
       case Removed(_) => false
       case Forgotten(_) => false
       case Done => false
       case _ => op.name !in s.desired
  }

  /** A step of a system whose desired state is fixed and whose operations succeed if they can. */
  predicate Quiet(s: Sys, step: Step) {
    !step.Want? && !step.Unwant? && (step.Fail? ==> IsDoomed(s, step.op))
  }

  /** Listing goes on for ever, but is no work; nor is passing over a snapshot. */
  predicate IsWork(step: Step) {
    !step.ListDesired? && !step.ListActual? && !step.Pass?
  }

  function WorkIn(steps: seq<Step>): nat {
    if steps == [] then 0
    else WorkIn(steps[..|steps| - 1]) + if IsWork(steps[|steps| - 1]) then 1 else 0
  }

  // ---------------------------------------------------------------- what can succeed

  predicate IsOwn(s: Sys, n: Name, bound: Option<Id>) {
    bound.Some? ==> bound.value in s.owner && s.owner[bound.value] == n
  }

  predicate RunsOnOwn(s: Sys, op: Op) {
    op in s.running ==> IsOwn(s, op.name, InPhase(s.running[op]))
  }

  /** Whoever names a record under `n` names one that is for `n`. */
  predicate NamesOwn(s: Sys, n: Name) {
    && (n in s.desired ==> IsOwn(s, n, s.desired[n].bound))
    && (n in s.wanted ==> n in s.desired && s.wanted[n] == s.desired[n])
    && (n in s.actual ==> IsOwn(s, n, s.actual[n]))
    && (n in s.listed ==> IsOwn(s, n, s.listed[n]))
    && RunsOnOwn(s, Op(Create, n)) && RunsOnOwn(s, Op(Delete, n))
  }

  /** A creation of `n` from what is desired can succeed. */
  predicate CanBeMade(s: Sys, n: Name) {
    n in s.desired ==>
      match s.desired[n].status
      case Failed => false
      case Pending => Exists(s, s.desired[n].bound) && !IsWorking(s, Op(Delete, n))
      case _ => true
  }

  /** Where `n` is in the actual state or comes to it, its record exists, and the snapshot it records. */
  ghost predicate CanBeDeleted(s: Sys, n: Name) {
    && (n in s.actual ==> Exists(s, s.actual[n]) || (s.actual[n].Some? && At(s, Op(Delete, n), Forgotten(s.actual[n].value))))
    && (Op(Create, n) in s.running ==>
          match s.running[Op(Create, n)]
          case Starting(version) => version.status.Ready? ==> Exists(s, version.bound)
          case Recorded(id) => id in s.data
          case Bound(id) => id in s.data
          case _ => true)
    && (forall id :: IsRecordOf(s, id, n) && id !in s.disk ==> At(s, Op(Delete, n), Removed(id)))
  }

  ghost predicate HopefulFor(s: Sys, n: Name) {
    NamesOwn(s, n) && CanBeMade(s, n) && (n !in s.desired ==> CanBeDeleted(s, n))
  }

  /** What is desired can be made, and what is not can be deleted. */
  ghost predicate Hopeful(s: Sys) {
    forall n :: HopefulFor(s, n)
  }

  function NameOf(step: Step): Name
    requires IsWork(step) && !step.Want? && !step.Unwant?
  {
    step.op.name
  }

  /** A working step of another snapshot's operation. */
  predicate IsElsewhere(step: Step, n: Name) {
    IsWork(step) && !step.Want? && !step.Unwant? && NameOf(step) != n
  }

  /** Such a step leaves alone what is said of `n`. */
  predicate SameAt(s: Sys, s': Sys, n: Name) {
    && s'.desired == s.desired
    && (n in s'.wanted <==> n in s.wanted) && (n in s.wanted ==> s'.wanted[n] == s.wanted[n])
    && (n in s'.listed <==> n in s.listed) && (n in s.listed ==> s'.listed[n] == s.listed[n])
    && (n in s'.actual <==> n in s.actual) && (n in s.actual ==> s'.actual[n] == s.actual[n])
    && SameOp(s, s', Op(Create, n)) && SameOp(s, s', Op(Delete, n))
  }

  predicate SameOp(s: Sys, s': Sys, o: Op) {
    (o in s'.running <==> o in s.running) && (o in s.running ==> s'.running[o] == s.running[o])
  }

  /** And so it does the snapshots and the records that were made for `n`. */
  ghost predicate SameStores(s: Sys, s': Sys, n: Name) {
    && (forall id :: id in s.owner && s.owner[id] == n ==>
          && id in s'.owner && s'.owner[id] == n
          && (id in s'.data <==> id in s.data) && (id in s'.disk <==> id in s.disk))
    && (forall id :: id in s'.owner && s'.owner[id] == n ==> id in s.owner && s.owner[id] == n)
  }

  lemma SameElsewhere(s: Sys, step: Step, n: Name)
    requires IsElsewhere(step, n)
    ensures SameAt(s, Do(s, step), n)
  {
    SameListsElsewhere(s, step, n);
    SameOpElsewhere(s, step, Op(Create, n));
    SameOpElsewhere(s, step, Op(Delete, n));
    hide Do;
  }

  lemma SameListsElsewhere(s: Sys, step: Step, n: Name)
    requires IsElsewhere(step, n)
    ensures
      var s' := Do(s, step);
      && s'.desired == s.desired
      && (n in s'.wanted <==> n in s.wanted) && (n in s.wanted ==> s'.wanted[n] == s.wanted[n])
      && (n in s'.listed <==> n in s.listed) && (n in s.listed ==> s'.listed[n] == s.listed[n])
      && (n in s'.actual <==> n in s.actual) && (n in s.actual ==> s'.actual[n] == s.actual[n])
  {
    hide Stored, HalfWay;
  }

  lemma SameOpElsewhere(s: Sys, step: Step, o: Op)
    requires IsElsewhere(step, o.name)
    ensures SameOp(s, Do(s, step), o)
  {
    hide Stored, HalfWay;
  }

  lemma StoresElsewhere(claim: Name -> string, s: Sys, step: Step, n: Name)
    requires Separate(claim, s) && Enabled(claim, s, step) && IsElsewhere(step, n) && RunsOnOwn(s, step.op)
    ensures SameStores(s, Do(s, step), n)
  {
    if step.Move? {
      PhaseOf(claim, s, step.op);
      MoveElsewhere(s, step.op, step.to, n);
    } else {
      StoresKept(s, step);
      hide Do, Enabled, Separate;
    }
  }

  lemma MoveElsewhere(s: Sys, op: Op, to: Phase, n: Name)
    requires StoresKnown(s) && op in s.running && PhaseKnown(s, op, s.running[op]) && RunsOnOwn(s, op)
    requires CanMove(s, op.name, s.running[op], to) && op.name != n
    ensures SameStores(s, Do(s, Move(op, to)), n)
  {
    EitherOp(op);
  }

  lemma EitherOp(op: Op)
    ensures op == Op(Create, op.name) || op == Op(Delete, op.name)
  {
    if op.kind.Create? {
      assert op.kind == Create;
    }
  }

  lemma HopeElsewhere(s: Sys, s': Sys, n: Name)
    requires HopefulFor(s, n) && SameAt(s, s', n) && SameStores(s, s', n)
    ensures HopefulFor(s', n)
  {
  }

  // ---------------------------------------------------------------- own steps

  lemma MoveNames(s: Sys, op: Op, to: Phase)
    requires Known(s) && NamesOwn(s, op.name) && op in s.running && CanMove(s, op.name, s.running[op], to)
    ensures NamesOwn(Do(s, Move(op, to)), op.name)
  {
    var n := op.name;
    assert PhaseKnown(s, op, s.running[op]);
    EitherOp(op);
    OwnersGrow(s, op, to);
    hide Known;
  }

  lemma OwnersGrow(s: Sys, op: Op, to: Phase)
    requires op in s.running && CanMove(s, op.name, s.running[op], to)
    ensures forall n, bound :: IsOwn(s, n, bound) ==> IsOwn(Do(s, Move(op, to)), n, bound)
  {}

  lemma MoveHope(claim: Name -> string, s: Sys, op: Op, to: Phase)
    requires Separate(claim, s) && HopefulFor(s, op.name) && op in s.running && CanMove(s, op.name, s.running[op], to)
    ensures HopefulFor(Do(s, Move(op, to)), op.name)
  {
    var n := op.name;
    PhaseOf(claim, s, op);
    EitherOp(op);
    assert DeletesCurrent(s, n);
    MoveNames(s, op, to);
    MoveMade(claim, s, op, to);
    if n !in s.desired {
      MoveDeleted(claim, s, op, to);
    }
    hide CanMove, NamesOwn, CanBeMade, CanBeDeleted;
  }

  lemma MoveMade(claim: Name -> string, s: Sys, op: Op, to: Phase)
    requires CanBeMade(s, op.name) && op in s.running && CanMove(s, op.name, s.running[op], to)
    requires Separate(claim, s)
    ensures CanBeMade(Do(s, Move(op, to)), op.name)
  {
    PhaseOf(claim, s, op);
    EitherOp(op);
    hide Separate;
  }

  lemma MoveDeleted(claim: Name -> string, s: Sys, op: Op, to: Phase)
    requires Separate(claim, s) && CanBeDeleted(s, op.name)
    requires op in s.running && CanMove(s, op.name, s.running[op], to)
    ensures CanBeDeleted(Do(s, Move(op, to)), op.name)
  {
    PhaseOf(claim, s, op);
    EitherOp(op);
    assert DeletesCurrent(s, op.name);
    hide Separate;
  }

  lemma LaunchHope(claim: Name -> string, s: Sys, op: Op, first: Phase)
    requires Separate(claim, s) && HopefulFor(s, op.name) && Enabled(claim, s, Launch(op, first))
    ensures HopefulFor(Do(s, Launch(op, first)), op.name)
  {
    EitherOp(op);
    assert op !in s.running;
    hide Separate, Free;
  }

  lemma FinishHope(claim: Name -> string, s: Sys, op: Op, bound: Option<Id>)
    requires Separate(claim, s) && HopefulFor(s, op.name) && Enabled(claim, s, Finish(op, bound))
    ensures HopefulFor(Do(s, Finish(op, bound)), op.name)
  {
    EitherOp(op);
    assert DeletesCurrent(s, op.name);
    hide Separate;
  }

  lemma FailHope(claim: Name -> string, s: Sys, op: Op)
    requires Separate(claim, s) && HopefulFor(s, op.name) && Enabled(claim, s, Fail(op)) && IsDoomed(s, op)
    ensures HopefulFor(Do(s, Fail(op)), op.name)
  {
    EitherOp(op);
    hide Separate;
  }

  lemma ReturnHope(s: Sys, op: Op)
    requires HopefulFor(s, op.name) && At(s, op, Done)
    ensures HopefulFor(Do(s, Return(op)), op.name)
  {
    EitherOp(op);
  }

  lemma IdleHope(s: Sys, step: Step, n: Name)
    requires HopefulFor(s, n) && !IsWork(step)
    ensures HopefulFor(Do(s, step), n)
  {
    IdleKeeps(s, step);
    var s' := Do(s, step);
    assert NamesOwn(s', n);
    hide Do;
    assert CanBeMade(s', n) <==> CanBeMade(s, n);
    assert CanBeDeleted(s', n) <==> CanBeDeleted(s, n);
  }

  lemma IdleKeeps(s: Sys, step: Step)
    requires !IsWork(step)
    ensures Do(s, step) == s.(wanted := Do(s, step).wanted, listed := Do(s, step).listed)
  {}

  // ---------------------------------------------------------------- what is left to do

  function Left(phase: Phase): nat {
    match phase
    case Starting(_) => 5
    case Taken(_) => 4
    case Recorded(_) => 3
    case Bound(_) => 2
    case Looking(_) => 5
    case Removing(_) => 4
    case Removed(_) => 3
    case Forgotten(_) => 2
    case Done => 1
  }

  function LeftOf(s: Sys, op: Op): nat {
    if op in s.running then Left(s.running[op]) else 0
  }

  /** A deletion that has found its record, or will. */
  predicate IsLive(s: Sys, n: Name) {
    && IsWorking(s, Op(Delete, n))
    && (s.running[Op(Delete, n)].Looking? ==> Exists(s, s.running[Op(Delete, n)].bound))
  }

  /** A creation that may be doomed: it was not launched for what is desired. */
  predicate IsUnsure(s: Sys, n: Name) {
    && Op(Create, n) in s.running && s.running[Op(Create, n)].Starting?
    && var version := s.running[Op(Create, n)].version;
       !version.status.New? && !version.status.Ready? && !(n in s.desired && s.desired[n] == version)
  }

  /** Listed, but not as it is in the actual state. */
  predicate IsStale(s: Sys, n: Name) {
    n in s.listed && !(n in s.actual && s.actual[n] == s.listed[n])
  }

  /** The steps still to be taken for one snapshot, with what the operations and the list may yet cause. */
  function Toll(s: Sys, n: Name): nat {
    LeftOf(s, Op(Create, n)) + LeftOf(s, Op(Delete, n)) +
    if n in s.desired then
      if IsWorking(s, Op(Create, n)) then (if IsUnsure(s, n) then 6 else 0)
      else if n !in s.actual || IsLive(s, n) then 6 else 0
    else
      (if IsWorking(s, Op(Create, n)) then 12 else 0) +
      (if IsLive(s, n) then 6 else if n in s.actual then 12 else 0) +
      (if IsStale(s, n) then 6 else 0)
  }

  lemma TollElsewhere(s: Sys, s': Sys, n: Name)
    requires NamesOwn(s, n) && SameAt(s, s', n) && SameStores(s, s', n)
    ensures Toll(s', n) == Toll(s, n)
  {}

  lemma IdleToll(s: Sys, step: Step, n: Name)
    requires !IsWork(step)
    ensures Toll(Do(s, step), n) <= Toll(s, n)
  {
    IdleKeeps(s, step);
    ListsBack(s, step, n);
    var s' := Do(s, step);
    assert IsStale(s', n) ==> IsStale(s, n);
    hide Do, IsStale;
    assert IsLive(s', n) <==> IsLive(s, n);
  }

  lemma MoveLeft(s: Sys, op: Op, to: Phase)
    requires op in s.running && CanMove(s, op.name, s.running[op], to)
    ensures LeftOf(Do(s, Move(op, to)), op) < LeftOf(s, op)
    ensures IsWorking(s, op) && IsWorking(Do(s, Move(op, to)), op)
    ensures forall o :: o != op ==> LeftOf(Do(s, Move(op, to)), o) == LeftOf(s, o)
    ensures forall o :: o != op ==> (IsWorking(Do(s, Move(op, to)), o) <==> IsWorking(s, o))
  {}

  /** No deletion comes to life, as its record has been known, and those that are needed go on. */
  lemma MoveLive(claim: Name -> string, s: Sys, op: Op, to: Phase)
    requires Separate(claim, s) && op in s.running && CanMove(s, op.name, s.running[op], to)
    ensures IsLive(Do(s, Move(op, to)), op.name) <==> IsLive(s, op.name)
  {
    PhaseOf(claim, s, op);
    EitherOp(op);
    var deletion := Op(Delete, op.name);
    if op.kind.Create? && deletion in s.running {
      PhaseOf(claim, s, deletion);
      StoresBack(s, Move(op, to));
      RecordsNew(s, op, to);
      StillRuns(s, op, to, deletion);
      assert DeletesCurrent(s, op.name);
      hide Separate, Do, CanMove;
    } else {
      hide Separate;
    }
  }

  lemma StillRuns(s: Sys, op: Op, to: Phase, o: Op)
    requires o != op && o in s.running
    ensures At(Do(s, Move(op, to)), o, s.running[o])
  {}

  lemma RecordsNew(s: Sys, op: Op, to: Phase)
    requires op in s.running && PhaseKnown(s, op, s.running[op]) && CanMove(s, op.name, s.running[op], to)
    ensures to.Recorded? && to.id !in s.data ==> to.id !in s.recorded
    ensures to.Forgotten? ==> op.kind.Delete?
  {}

  lemma MoveUnsure(s: Sys, op: Op, to: Phase)
    requires op in s.running && CanMove(s, op.name, s.running[op], to)
    ensures IsUnsure(Do(s, Move(op, to)), op.name) ==> IsUnsure(s, op.name)
  {}

  lemma MoveToll(claim: Name -> string, s: Sys, op: Op, to: Phase)
    requires Separate(claim, s) && HopefulFor(s, op.name)
    requires op in s.running && CanMove(s, op.name, s.running[op], to)
    ensures Toll(Do(s, Move(op, to)), op.name) < Toll(s, op.name)
  {
    EitherOp(op);
    MoveLeft(s, op, to);
    MoveLive(claim, s, op, to);
    MoveUnsure(s, op, to);
    hide Separate, HopefulFor, CanMove, LeftOf, IsLive, IsUnsure, IsWorking;
  }

  lemma LaunchToll(claim: Name -> string, s: Sys, op: Op, first: Phase)
    requires Separate(claim, s) && HopefulFor(s, op.name) && Enabled(claim, s, Launch(op, first))
    ensures Toll(Do(s, Launch(op, first)), op.name) < Toll(s, op.name)
  {
    EitherOp(op);
    assert op !in s.running;
    assert DeletesCurrent(s, op.name);
    hide Known, NamesDiffer, Free;
  }

  lemma FinishToll(claim: Name -> string, s: Sys, op: Op, bound: Option<Id>)
    requires Separate(claim, s) && HopefulFor(s, op.name) && Enabled(claim, s, Finish(op, bound))
    ensures Toll(Do(s, Finish(op, bound)), op.name) < Toll(s, op.name)
  {
    EitherOp(op);
    assert DeletesCurrent(s, op.name);
    hide Known, NamesDiffer;
  }

  lemma FailToll(claim: Name -> string, s: Sys, op: Op)
    requires Separate(claim, s) && HopefulFor(s, op.name) && Enabled(claim, s, Fail(op)) && IsDoomed(s, op)
    ensures Toll(Do(s, Fail(op)), op.name) < Toll(s, op.name)
  {
    EitherOp(op);
    PhaseOf(claim, s, op);
    assert DeletesCurrent(s, op.name);
    hide Known, NamesDiffer;
  }

  lemma ReturnToll(s: Sys, op: Op)
    requires At(s, op, Done)
    ensures Toll(Do(s, Return(op)), op.name) < Toll(s, op.name)
  {
    EitherOp(op);
  }

  /** The claim that one step is settled for one name: hope is kept, and the step is paid for. */
  lemma QuietStepAt(claim: Name -> string, s: Sys, step: Step, n: Name)
    requires Separate(claim, s) && Hopeful(s) && Enabled(claim, s, step) && Quiet(s, step)
    ensures HopefulFor(Do(s, step), n) && Toll(Do(s, step), n) <= Toll(s, n)
    ensures IsWork(step) && NameOf(step) == n ==> Toll(Do(s, step), n) < Toll(s, n)
  {
    assert HopefulFor(s, n);
    hide Separate, Hopeful, HopefulFor, Toll, Do, CanMove, SameAt, SameStores;
    if !IsWork(step) {
      IdleHope(s, step, n);
      IdleToll(s, step, n);
    } else if NameOf(step) != n {
      var s' := Do(s, step);
      HopefulAt(s, n);
      HopefulAt(s, step.op.name);
      EitherOp(step.op);
      SameElsewhere(s, step, n);
      StoresElsewhere(claim, s, step, n);
      HopeElsewhere(s, s', n);
      TollElsewhere(s, s', n);
    } else {
      OwnStep(claim, s, step);
    }
  }

  lemma HopefulAt(s: Sys, n: Name)
    requires Hopeful(s)
    ensures HopefulFor(s, n) && NamesOwn(s, n)
  {}

  lemma OwnStep(claim: Name -> string, s: Sys, step: Step)
    requires Separate(claim, s) && Enabled(claim, s, step) && Quiet(s, step) && IsWork(step)
    requires HopefulFor(s, NameOf(step))
    ensures HopefulFor(Do(s, step), NameOf(step)) && Toll(Do(s, step), NameOf(step)) < Toll(s, NameOf(step))
  {
    hide Separate, HopefulFor, Toll, Do, CanMove;
    match step {
      case Launch(op, first) =>
        LaunchHope(claim, s, op, first);
        LaunchToll(claim, s, op, first);
      case Move(op, to) =>
        MoveHope(claim, s, op, to);
        MoveToll(claim, s, op, to);
      case Finish(op, bound) =>
        FinishHope(claim, s, op, bound);
        FinishToll(claim, s, op, bound);
      case Fail(op) =>
        FailHope(claim, s, op);
        FailToll(claim, s, op);
      case Return(op) =>
        ReturnHope(s, op);
        ReturnToll(s, op);
      case _ =>
    }
  }

  function Rank(s: Sys, names: seq<Name>): nat {
    if names == [] then 0 else Toll(s, names[0]) + Rank(s, names[1..])
  }

  /** `names` covers every snapshot that the system is concerned with. */
  ghost predicate Covers(names: seq<Name>, s: Sys) {
    && (forall n :: n in s.desired || n in s.actual || n in s.listed ==> n in names)
    && (forall o :: o in s.running ==> o.name in names)
  }

  lemma {:induction false} RankDrops(s: Sys, s': Sys, names: seq<Name>, d: Name)
    requires forall n :: Toll(s', n) <= Toll(s, n)
    ensures Rank(s', names) <= Rank(s, names)
    ensures d in names && Toll(s', d) < Toll(s, d) ==> Rank(s', names) < Rank(s, names)
  {
    hide Toll;
    if names != [] {
      RankDrops(s, s', names[1..], d);
    }
  }

  lemma CoversStep(claim: Name -> string, s: Sys, step: Step, names: seq<Name>)
    requires Covers(names, s) && Hopeful(s) && Enabled(claim, s, step) && Quiet(s, step)
    ensures Covers(names, Do(s, step))
    ensures IsWork(step) ==> NameOf(step) in names
  {
    if step.Launch? {
      HopefulAt(s, step.op.name);
    }
    hide Free, CanMove, CanFinish, Stored, HalfWay, Hopeful;
  }

  /** A quiet step keeps hope, and what it does is paid for. */
  lemma QuietStep(claim: Name -> string, s: Sys, step: Step, names: seq<Name>)
    requires Separate(claim, s) && Hopeful(s) && Enabled(claim, s, step) && Quiet(s, step) && Covers(names, s)
    ensures Separate(claim, Do(s, step)) && Hopeful(Do(s, step)) && Covers(names, Do(s, step))
    ensures Rank(Do(s, step), names) + (if IsWork(step) then 1 else 0) <= Rank(s, names)
  {
    SeparateStep(claim, s, step);
    CoversStep(claim, s, step, names);
    hide Separate, Enabled, Quiet, Do, Covers, HopefulFor, Toll;
    forall n ensures HopefulFor(Do(s, step), n) && Toll(Do(s, step), n) <= Toll(s, n) {
      QuietStepAt(claim, s, step, n);
    }
    if IsWork(step) {
      QuietStepAt(claim, s, step, NameOf(step));
      RankDrops(s, Do(s, step), names, NameOf(step));
    } else {
      RankDrops(s, Do(s, step), names, "");
    }
  }

  /** However the operations interleave with the reconciler, and however stale its list is, they take
      a bounded number of steps. */
  lemma {:induction false} WorkIsBounded(
      claim: Name -> string, run: seq<Sys>, steps: seq<Step>, names: seq<Name>, i: nat)
    requires IsQuietRun(claim, run, steps) && Separate(claim, run[0]) && Hopeful(run[0]) && Covers(names, run[0])
    requires i < |run|
    ensures Separate(claim, run[i]) && Hopeful(run[i]) && Covers(names, run[i])
    ensures WorkIn(steps[..i]) + Rank(run[i], names) <= Rank(run[0], names)
  {
    hide Separate, Hopeful, Covers, Enabled, Quiet, Do, Rank, IsWork;
    if i > 0 {
      WorkIsBounded(claim, run, steps, names, i - 1);
      assert run[i - 1 + 1] == Do(run[i - 1], steps[i - 1]);
      QuietStep(claim, run[i - 1], steps[i - 1], names);
      assert steps[..i][..i - 1] == steps[..i - 1];
    }
  }

  ghost predicate IsQuietRun(claim: Name -> string, run: seq<Sys>, steps: seq<Step>) {
    IsRun(claim, run, steps) && forall j :: 0 <= j < |steps| ==> Quiet(run[j], steps[j])
  }

  lemma {:induction false} Enumerate(s: set<Name>) returns (names: seq<Name>)
    ensures forall n :: n in names <==> n in s
  {
    names := [];
    if s != {} {
      var n :| n in s;
      names := Enumerate(s - {n});
      names := names + [n];
    }
  }

  lemma SomeCover(s: Sys) returns (names: seq<Name>)
    ensures Covers(names, s)
  {
    names := Enumerate(s.desired.Keys + s.actual.Keys + s.listed.Keys + set o | o in s.running :: o.name);
  }

  /** From every state with hope there is a number of working steps that no such run exceeds:
      repeated rounds terminate, however operations and reconciler interleave. */
  lemma RoundsTerminate(claim: Name -> string, s: Sys) returns (bound: nat)
    requires Separate(claim, s) && Hopeful(s)
    ensures forall run, steps :: IsQuietRun(claim, run, steps) && run[0] == s ==> WorkIn(steps) <= bound
  {
    var names := SomeCover(s);
    bound := Rank(s, names);
    hide Separate, Hopeful, Covers, Quiet, Rank, Enabled, Do;
    forall run, steps | IsQuietRun(claim, run, steps) && run[0] == s ensures WorkIn(steps) <= bound {
      WorkIsBounded(claim, run, steps, names, |steps|);
      assert steps[..|steps|] == steps;
    }
  }

  // ---------------------------------------------------------------- where it ends

  ghost predicate NoWorkLeft(claim: Name -> string, s: Sys) {
    forall step :: IsWork(step) && Quiet(s, step) ==> !Enabled(claim, s, step)
  }

  lemma {:induction false} FreshId(ids: set<Id>) returns (id: Id)
    ensures forall i :: i in ids ==> i < id
  {
    id := 0;
    if ids != {} {
      var i :| i in ids;
      var other := FreshId(ids - {i});
      assert forall j :: j in ids ==> j == i || j in ids - {i};
      id := if other > i then other else i + 1;
    }
  }

  /** Every running operation has a step to take. */
  lemma StepOf(claim: Name -> string, s: Sys, op: Op) returns (step: Step)
    requires op in s.running && Fits(op.kind, s.running[op])
    ensures IsWork(step) && Quiet(s, step) && Enabled(claim, s, step)
    ensures step.Move? || step.Finish? || step.Fail? || step.Return?
  {
    match s.running[op] {
      case Starting(version) =>
        var unused := FreshId(s.owner.Keys);
        step := match version.status
          case New => Move(op, Taken(unused))
          case Pending => if Exists(s, version.bound) then Move(op, Bound(version.bound.value)) else Fail(op)
          case Ready => Finish(op, version.bound)
          case Failed => Fail(op);
      case Taken(id) => step := Move(op, Recorded(id));
      case Recorded(id) => step := Move(op, Bound(id));
      case Bound(id) => step := Finish(op, Some(id));
      case Looking(bound) => step := if Exists(s, bound) then Move(op, Removing(bound.value)) else Fail(op);
      case Removing(id) => step := Move(op, Removed(id));
      case Removed(id) => step := Move(op, Forgotten(id));
      case Forgotten(id) => step := Finish(op, Some(id));
      case Done => step := Return(op);
    }
  }

  /** Between two rounds, no work comes of either list exactly when reconciling has reached its goal. */
  lemma WorkEnds(claim: Name -> string, s: Sys)
    requires Separate(claim, s) && s.listed == map[] && s.wanted == map[]
    ensures NoWorkLeft(claim, Do(s, ListActual)) && NoWorkLeft(claim, Do(s, ListDesired)) <==>
      s.running == map[] && s.actual.Keys == s.desired.Keys
  {
    hide OpName;
    var a, d := Do(s, ListActual), Do(s, ListDesired);
    if NoWorkLeft(claim, a) && NoWorkLeft(claim, d) {
      forall op ensures op !in s.running {
        if op in s.running {
          PhaseOf(claim, s, op);
          var step := StepOf(claim, a, op);
        }
      }
      assert s.running == map[];
      forall n ensures n in s.actual <==> n in s.desired {
        assert Free(claim, s.running, Op(Create, n)) && Free(claim, s.running, Op(Delete, n));
        if n in s.desired {
          assert !Enabled(claim, d, Launch(Op(Create, n), Starting(s.desired[n])));
        }
        if n in s.actual {
          assert !Enabled(claim, a, Launch(Op(Delete, n), Looking(s.actual[n])));
        }
      }
    }
  }

  /** And then the storage holds exactly what is recorded, each for a snapshot that is desired, if it
      was empty at the beginning and nothing failed half-way, whatever else failed. */
  lemma Converged(claim: Name -> string, run: seq<Sys>, steps: seq<Step>, i: nat)
    requires IsRun(claim, run, steps) && Started(run[0]) && run[0].owner == map[] && i < |run|
    requires run[i].lost == {} && run[i].listed == map[] && run[i].wanted == map[]
    requires NoWorkLeft(claim, Do(run[i], ListActual)) && NoWorkLeft(claim, Do(run[i], ListDesired))
    ensures run[i].actual.Keys == run[i].desired.Keys && run[i].disk == run[i].data
    ensures forall id :: id in run[i].disk ==>
      id in run[i].owner && run[i].owner[id] in run[i].desired && run[i].actual[run[i].owner[id]] == Some(id)
  {
    hide Enabled, Do, IsRun, Started, Quiet, Separate, Accounted;
    EffectsNeverOverlap(claim, run, steps, i);
    WorkEnds(claim, run[i]);
  }
}
