/**
What failures leave behind for good: snapshots of the actual state that cannot be deleted any more,
and snapshots on the storage that nobody knows of.
*/
module SnapshotFailures {
  import opened Options
  import opened SnapshotProtocol
  import opened SnapshotConvergence

  // ---------------------------------------------------------------- where it fails

  predicate IsGone(s: Sys, bound: Option<Id>) {
    bound.Some? ==> bound.value !in s.data
  }

  /** A snapshot of the actual state whose record is gone, and that is not just being deleted: its
      deletion fails at the look-up, although it is meant to count the snapshot as deleted. */
  predicate IsStuck(s: Sys, n: Name) {
    n in s.actual && IsGone(s, s.actual[n]) && !IsDeleting(s, n)
  }

  lemma StuckStep(claim: Name -> string, s: Sys, step: Step, n: Name)
    requires Separate(claim, s) && IsStuck(s, n) && Enabled(claim, s, step)
    ensures IsStuck(Do(s, step), n)
  {
    GoneStays(claim, s, step);
    ActualAfter(claim, s, step);
    assert DeletesCurrent(s, n) && Given(s, s.actual[n]);
    DeletingAfter(claim, s, step, n);
    EitherKind(step);
    hide Enabled, Do, Separate, DeletesCurrent;
  }

  /** A deletion begins to work when it finds the record that the actual state names. */
  lemma DeletingAfter(claim: Name -> string, s: Sys, step: Step, n: Name)
    requires Separate(claim, s) && Enabled(claim, s, step)
    ensures IsDeleting(Do(s, step), n) && !IsDeleting(s, n) ==> n in s.actual && !IsGone(s, s.actual[n])
    ensures IsDeleting(s, n) && !IsDeleting(Do(s, step), n) ==>
      step == Fail(Op(Delete, n)) || (step.Finish? && step.op == Op(Delete, n))
    ensures step.Finish? && step.op == Op(Delete, n) ==> IsDeleting(s, n)
  {
    var o := Op(Delete, n);
    assert DeletesCurrent(s, n);
    if o in Do(s, step).running {
      OnlyOwnSteps(claim, s, step, o);
    } else {
      hide NamesDiffer, Known, OpName, HalfWay, Stored, Separate;
      assert o in s.running ==> s.running[o].Done?;
    }
    if o in s.running {
      PhaseOf(claim, s, o);
      hide Separate, Do, OpName;
    }
  }

  /** Whatever is wanted and whatever succeeds, it stays in the actual state for ever. */
  lemma {:induction false} StuckStays(claim: Name -> string, run: seq<Sys>, steps: seq<Step>, n: Name, i: nat)
    requires IsRun(claim, run, steps) && Separate(claim, run[0]) && IsStuck(run[0], n) && i < |run|
    ensures Separate(claim, run[i]) && IsStuck(run[i], n)
  {
    hide Enabled, Do, IsStuck, Separate;
    if i > 0 {
      StuckStays(claim, run, steps, n, i - 1);
      assert run[i - 1 + 1] == Do(run[i - 1], steps[i - 1]);
      StuckStep(claim, run[i - 1], steps[i - 1], n);
      SeparateStep(claim, run[i - 1], steps[i - 1]);
    }
  }

  /** It comes to that exactly when a deletion fails after it has deleted the record, when a creation
      adds a snapshot whose record is gone, or when another snapshot's deletion deletes the record. */
  lemma GetsStuck(claim: Name -> string, s: Sys, step: Step, n: Name)
    requires Separate(claim, s) && !IsStuck(s, n) && Enabled(claim, s, step)
    ensures IsStuck(Do(s, step), n) <==>
      || (step == Fail(Op(Delete, n)) && n in s.actual && IsDeleting(s, n) && IsGone(s, s.actual[n]))
      || (step.Finish? && step.op == Op(Create, n) && IsGone(s, step.bound))
      || (step.Move? && step.to.Forgotten? && step.op.name != n
          && n in s.actual && s.actual[n] == Some(step.to.id) && !IsDeleting(s, n))
  {
    GoneStays(claim, s, step);
    ActualAfter(claim, s, step);
    DeletingAfter(claim, s, step, n);
    NewlyGone(claim, s, step);
    assert DeletesCurrent(s, n);
    EitherKind(step);
    hide NamesDiffer, Known, DeletesCurrent, CurrentOrGone, Enabled;
  }

  lemma NewlyGone(claim: Name -> string, s: Sys, step: Step)
    requires Separate(claim, s) && Enabled(claim, s, step)
    ensures forall id :: id in s.data && id !in Do(s, step).data <==>
      id in s.data && step.Move? && step.to == Forgotten(id)
  {
    hide Separate, Free, CanFinish;
  }

  /** A creation from this version must fail. */
  predicate IsHopeless(s: Sys, version: Version) {
    version.status.Failed? || (version.status.Pending? && !Exists(s, version.bound))
  }

  /** Whoever is to create `n` has such a version. */
  predicate CannotBeMade(s: Sys, n: Name) {
    && n !in s.actual
    && (n in s.desired ==> IsHopeless(s, s.desired[n]))
    && (n in s.wanted ==> IsHopeless(s, s.wanted[n]))
    && (IsWorking(s, Op(Create, n)) ==>
          s.running[Op(Create, n)].Starting? && IsHopeless(s, s.running[Op(Create, n)].version))
  }

  lemma HopelessStep(claim: Name -> string, s: Sys, step: Step)
    requires Separate(claim, s) && Enabled(claim, s, step)
    ensures forall version: Version :: Given(s, version.bound) && IsHopeless(s, version) ==>
      IsHopeless(Do(s, step), version)
  {
    GoneStays(claim, s, step);
    hide Separate, Enabled, Do;
  }

  lemma UnmadeStep(claim: Name -> string, s: Sys, step: Step, n: Name)
    requires Separate(claim, s) && CannotBeMade(s, n) && Enabled(claim, s, step) && !(step.Want? && step.name == n)
    ensures CannotBeMade(Do(s, step), n)
  {
    var o, s' := Op(Create, n), Do(s, step);
    HopelessStep(claim, s, step);
    if o in s.running {
      PhaseOf(claim, s, o);
    }
    if o in s'.running {
      OnlyOwnSteps(claim, s, step, o);
    }
    assert ListsKnown(s);
    ListsAfter(claim, s, step, n);
    hide Separate, Do, IsHopeless, Free, CanFinish;
  }

  lemma ListsAfter(claim: Name -> string, s: Sys, step: Step, n: Name)
    requires Separate(claim, s) && Enabled(claim, s, step) && !(step.Want? && step.name == n)
    ensures n in Do(s, step).desired ==> n in s.desired && Do(s, step).desired[n] == s.desired[n]
    ensures n in Do(s, step).wanted ==>
      (n in s.wanted && Do(s, step).wanted[n] == s.wanted[n]) || (n in s.desired && Do(s, step).wanted[n] == s.desired[n])
    ensures n in Do(s, step).actual ==> n in s.actual || (step.Finish? && step.op == Op(Create, n))
  {
    EitherKind(step);
    hide Separate, Free, CanMove, CanFinish, Stored, HalfWay;
  }

  /** Whatever else happens, it never comes to the actual state, unless it is wanted anew. */
  lemma {:induction false} HopelessNeverMade(claim: Name -> string, run: seq<Sys>, steps: seq<Step>, n: Name, i: nat)
    requires IsRun(claim, run, steps) && Separate(claim, run[0]) && CannotBeMade(run[0], n) && i < |run|
    requires forall step :: step in steps ==> !(step.Want? && step.name == n)
    ensures Separate(claim, run[i]) && CannotBeMade(run[i], n)
  {
    hide Enabled, Do, CannotBeMade, Separate;
    if i > 0 {
      HopelessNeverMade(claim, run, steps, n, i - 1);
      assert run[i - 1 + 1] == Do(run[i - 1], steps[i - 1]);
      assert steps[i - 1] in steps;
      UnmadeStep(claim, run[i - 1], steps[i - 1], n);
      SeparateStep(claim, run[i - 1], steps[i - 1]);
    }
  }

  // ---------------------------------------------------------------- orphans

  ghost predicate Unlisted(s: Sys, id: Id) {
    && (forall n :: n in s.desired ==> s.desired[n].bound != Some(id))
    && (forall n :: n in s.wanted ==> s.wanted[n].bound != Some(id))
    && (forall n :: n in s.actual ==> s.actual[n] != Some(id))
    && (forall n :: n in s.listed ==> s.listed[n] != Some(id))
  }

  ghost predicate Untouched(s: Sys, id: Id) {
    forall o :: o in s.running ==> s.running[o] != Taken(id) && InPhase(s.running[o]) != Some(id)
  }

  /** A snapshot on the storage that nobody names or works on, and that no creation will find by its record. */
  ghost predicate IsOrphan(s: Sys, id: Id) {
    && id in s.disk && id in s.owner && Unlisted(s, id) && Untouched(s, id)
    && (id in s.data ==> Unsought(s, s.owner[id]))
  }

  predicate Unsought(s: Sys, n: Name) {
    n !in s.desired && n !in s.wanted && !IsWorking(s, Op(Create, n))
  }

  /** Its name, or that of the snapshot it is recorded for, is wanted again. */
  predicate Recalls(s: Sys, step: Step, id: Id) {
    step.Want? && (step.version.bound == Some(id) || IsRecordOf(s, id, step.name))
  }

  lemma UnlistedStep(claim: Name -> string, s: Sys, step: Step, id: Id)
    requires Unlisted(s, id) && Untouched(s, id) && Enabled(claim, s, step) && !Recalls(s, step, id)
    ensures Unlisted(Do(s, step), id)
  {
    FinishesOther(claim, s, step, id);
    var s' := Do(s, step);
    forall n
      ensures n in s'.desired ==> s'.desired[n].bound != Some(id)
      ensures n in s'.wanted ==> s'.wanted[n].bound != Some(id)
      ensures n in s'.actual ==> s'.actual[n] != Some(id)
      ensures n in s'.listed ==> s'.listed[n] != Some(id)
    {
      ListsBack(s, step, n);
      hide Do, Enabled, Untouched;
    }
  }

  lemma FinishesOther(claim: Name -> string, s: Sys, step: Step, id: Id)
    requires Untouched(s, id) && Enabled(claim, s, step)
    ensures step.Finish? ==> step.bound != Some(id)
  {
    if step.Finish? {
      assert InPhase(s.running[step.op]) != Some(id);
    }
    hide Untouched;
  }

  lemma UntouchedStep(claim: Name -> string, s: Sys, step: Step, id: Id)
    requires Separate(claim, s) && Unlisted(s, id) && Untouched(s, id) && Enabled(claim, s, step)
    requires id in s.owner && (id in s.data ==> Unsought(s, s.owner[id]))
    ensures Untouched(Do(s, step), id)
  {
    forall o | o in Do(s, step).running
      ensures Do(s, step).running[o] != Taken(id) && InPhase(Do(s, step).running[o]) != Some(id)
    {
      OnlyOwnSteps(claim, s, step, o);
      if o in s.running {
        PhaseOf(claim, s, o);
      }
      hide Separate, Do, Free;
    }
  }

  lemma UnsoughtStep(claim: Name -> string, s: Sys, step: Step, n: Name)
    requires Unsought(s, n) && Enabled(claim, s, step) && !(step.Want? && step.name == n)
    ensures Unsought(Do(s, step), n)
  {
    hide Free;
  }

  lemma OrphanStep(claim: Name -> string, s: Sys, step: Step, id: Id)
    requires Separate(claim, s) && IsOrphan(s, id) && Enabled(claim, s, step) && !Recalls(s, step, id)
    ensures IsOrphan(Do(s, step), id)
  {
    UnlistedStep(claim, s, step, id);
    UntouchedStep(claim, s, step, id);
    OwnerStays(claim, s, step, id);
    StoresBack(s, step);
    if id in s.data && !(step.Want? && step.name == s.owner[id]) {
      UnsoughtStep(claim, s, step, s.owner[id]);
    }
    if step.Move? {
      PhaseNames(s, step.op, step.to);
    }
    hide Separate, Do, Enabled, Unlisted, Unsought, CanMove;
  }

  /** A move goes on with what the operation works on, or with a new snapshot, or with one it finds. */
  lemma PhaseNames(s: Sys, op: Op, to: Phase)
    requires op in s.running && CanMove(s, op.name, s.running[op], to)
    ensures to.Removed? || to.Forgotten? ==> InPhase(s.running[op]) == Some(to.id)
    ensures to.Recorded? ==> s.running[op] == Taken(to.id) || to.id in s.data
  {}

  /** It stays there for ever, unless it is recorded and wanted again. */
  lemma {:induction false} OrphanStays(claim: Name -> string, run: seq<Sys>, steps: seq<Step>, id: Id, i: nat)
    requires IsRun(claim, run, steps) && Separate(claim, run[0]) && IsOrphan(run[0], id) && i < |run|
    requires forall j :: 0 <= j < |steps| ==> !Recalls(run[j], steps[j], id)
    ensures Separate(claim, run[i]) && IsOrphan(run[i], id)
    ensures id !in run[0].recorded ==> id !in run[i].recorded
  {
    hide Enabled, Do, IsOrphan, Separate, Recalls;
    if i > 0 {
      OrphanStays(claim, run, steps, id, i - 1);
      assert run[i - 1 + 1] == Do(run[i - 1], steps[i - 1]);
      OrphanStep(claim, run[i - 1], steps[i - 1], id);
      if id !in run[0].recorded {
        OrphanUnrecorded(claim, run[i - 1], steps[i - 1], id);
      }
      SeparateStep(claim, run[i - 1], steps[i - 1]);
    }
  }

  /** An orphan without a record gets none, and cannot be wanted. */
  lemma OrphanUnrecorded(claim: Name -> string, s: Sys, step: Step, id: Id)
    requires Separate(claim, s) && IsOrphan(s, id) && Enabled(claim, s, step) && id !in s.recorded
    ensures id !in Do(s, step).recorded && !Recalls(s, step, id)
  {
    OwnersKept(claim, s, step);
    assert StoresKnown(s);
    if step.Move? {
      MoveKeeps(s, step);
      PhaseNames(s, step.op, step.to);
    }
    hide Separate, Do, CanMove, Unlisted;
  }

  /** Every creation that fails after it has taken a snapshot and before it has recorded it makes such an orphan. */
  lemma FailedCreationOrphans(claim: Name -> string, s: Sys, n: Name, id: Id)
    requires Separate(claim, s) && At(s, Op(Create, n), Taken(id))
    ensures Enabled(claim, s, Fail(Op(Create, n)))
    ensures IsOrphan(Do(s, Fail(Op(Create, n))), id) && id !in s.recorded
  {
    hide NamesDiffer, CurrentOrGone, DeletesCurrent;
    PhaseOf(claim, s, Op(Create, n));
    forall o | o in s.running ensures s.running[o] == Taken(id) ==> o == Op(Create, n) {
      PhaseOf(claim, s, o);
    }
  }

  // ---------------------------------------------------------------- runs from nothing

  /** Taking the given steps, each of them enabled, leads from `s` to `s'`. */
  ghost predicate Leads(claim: Name -> string, s: Sys, steps: seq<Step>, s': Sys)
    decreases |steps|
  {
    if steps == [] then s' == s
    else Enabled(claim, s, steps[0]) && Leads(claim, Do(s, steps[0]), steps[1..], s')
  }

  lemma FirstStep(claim: Name -> string, s: Sys, step: Step, more: seq<Step>, s': Sys)
    requires Enabled(claim, s, step) && Leads(claim, Do(s, step), more, s')
    ensures Leads(claim, s, [step] + more, s')
  {
    hide Enabled, Do;
    assert ([step] + more)[1..] == more;
  }

  lemma TwoSteps(claim: Name -> string, s: Sys, a: Step, b: Step, more: seq<Step>, s': Sys) returns (steps: seq<Step>)
    requires Enabled(claim, s, a) && Enabled(claim, Do(s, a), b) && Leads(claim, Do(Do(s, a), b), more, s')
    ensures Leads(claim, s, steps, s')
  {
    hide Enabled, Do, Leads;
    FirstStep(claim, Do(s, a), b, more, s');
    FirstStep(claim, s, a, [b] + more, s');
    steps := [a] + ([b] + more);
  }

  const NOTHING := Sys(map[], map[], {}, map[], {}, {}, map[], map[], map[], {}, {})

  const FRESH := Version(New, None)

  predicate IsIdle(s: Sys) {
    s.running == map[] && s.wanted == map[] && s.listed == map[]
  }

  /** A new snapshot's creation is launched, and takes the snapshot `id`. */
  lemma Begins(claim: Name -> string, s: Sys, n: Name, id: Id, more: seq<Step>, s': Sys) returns (steps: seq<Step>)
    requires IsIdle(s) && s.desired == map[n := FRESH] && n !in s.actual && id !in s.owner
    requires Leads(claim, HasTaken(s, n, id), more, s')
    ensures Leads(claim, s, steps, s')
  {
    var op := Op(Create, n);
    var s1 := s.(wanted := map[n := FRESH]);
    var s2 := s.(running := map[op := Starting(FRESH)]);
    assert Do(s, ListDesired) == s1 && Do(s1, Launch(op, Starting(FRESH))) == s2;
    assert Do(s2, Move(op, Taken(id))) == HasTaken(s, n, id);
    hide OpName, Leads, Do;
    FirstStep(claim, s2, Move(op, Taken(id)), more, s');
    steps := TwoSteps(claim, s, ListDesired, Launch(op, Starting(FRESH)), [Move(op, Taken(id))] + more, s');
  }

  function HasTaken(s: Sys, n: Name, id: Id): Sys {
    s.(running := map[Op(Create, n) := Taken(id)], disk := s.disk + {id}, owner := s.owner[id := n])
  }

  function Created(s: Sys, n: Name, id: Id): Sys {
    s.(actual := s.actual[n := Some(id)], disk := s.disk + {id}, owner := s.owner[id := n],
       data := s.data + {id}, recorded := s.recorded + {id})
  }

  /** It goes on to the end, */
  lemma Succeeds(claim: Name -> string, s: Sys, n: Name, id: Id, more: seq<Step>, s': Sys) returns (steps: seq<Step>)
    requires IsIdle(s) && Leads(claim, Created(s, n, id), more, s')
    ensures Leads(claim, HasTaken(s, n, id), steps, s')
  {
    var op := Op(Create, n);
    var s1 := HasTaken(s, n, id);
    var s2 := s1.(running := map[op := Bound(id)], data := s.data + {id}, recorded := s.recorded + {id});
    assert Do(Do(s1, Move(op, Recorded(id))), Move(op, Bound(id))) == s2;
    hide OpName, Leads;
    steps := Ends(claim, s, n, id, more, s');
    steps := TwoSteps(claim, s1, Move(op, Recorded(id)), Move(op, Bound(id)), steps, s');
  }

  lemma Ends(claim: Name -> string, s: Sys, n: Name, id: Id, more: seq<Step>, s': Sys) returns (steps: seq<Step>)
    requires IsIdle(s) && Leads(claim, Created(s, n, id), more, s')
    ensures Leads(claim, HasTaken(s, n, id).(
      running := map[Op(Create, n) := Bound(id)], data := s.data + {id}, recorded := s.recorded + {id}), steps, s')
  {
    var op := Op(Create, n);
    var s2 := HasTaken(s, n, id).(
      running := map[op := Bound(id)], data := s.data + {id}, recorded := s.recorded + {id});
    assert Do(Do(s2, Finish(op, Some(id))), Return(op)) == Created(s, n, id);
    hide OpName, Leads;
    steps := TwoSteps(claim, s2, Finish(op, Some(id)), Return(op), more, s');
  }

  /** or fails before it has recorded what it has taken. */
  lemma Fails(claim: Name -> string, s: Sys, n: Name, id: Id, more: seq<Step>, s': Sys) returns (steps: seq<Step>)
    requires IsIdle(s) && Leads(claim, Failed(s, n, id), more, s')
    ensures Leads(claim, HasTaken(s, n, id), steps, s')
  {
    var op := Op(Create, n);
    assert Do(Do(HasTaken(s, n, id), Fail(op)), Return(op)) == Failed(s, n, id);
    hide OpName, Leads;
    steps := TwoSteps(claim, HasTaken(s, n, id), Fail(op), Return(op), more, s');
  }

  function Failed(s: Sys, n: Name, id: Id): Sys {
    s.(disk := s.disk + {id}, owner := s.owner[id := n], failed := s.failed + {Op(Create, n)}, lost := s.lost + {id})
  }

  function Deleting(s: Sys, n: Name, phase: Phase): Sys {
    s.(desired := s.desired - {n}, listed := s.actual - {n}, running := map[Op(Delete, n) := phase])
  }

  lemma Deletes(claim: Name -> string, s: Sys, n: Name, id: Id, more: seq<Step>, s': Sys) returns (steps: seq<Step>)
    requires IsIdle(s) && n in s.actual && s.actual[n] == Some(id) && id in s.data
    requires Leads(claim, Deleting(s, n, Removing(id)), more, s')
    ensures Leads(claim, s, steps, s')
  {
    var op := Op(Delete, n);
    var s2 := s.(desired := s.desired - {n}, listed := s.actual);
    assert Do(Do(s, Unwant(n)), ListActual) == s2;
    assert Do(Do(s2, Launch(op, Looking(Some(id)))), Move(op, Removing(id))) == Deleting(s, n, Removing(id));
    hide OpName, Leads;
    steps := TwoSteps(claim, s2, Launch(op, Looking(Some(id))), Move(op, Removing(id)), more, s');
    steps := TwoSteps(claim, s, Unwant(n), ListActual, steps, s');
  }

  /** From every state at rest, a snapshot that is there can get stuck: its deletion fails when all
      that is left to do is to tell the actual state. */
  lemma DeletionGetsStuck(claim: Name -> string, s: Sys, n: Name, id: Id) returns (steps: seq<Step>, s': Sys)
    requires IsIdle(s) && n in s.actual && s.actual[n] == Some(id) && id in s.data
    ensures Leads(claim, s, steps, s') && IsStuck(s', n) && n !in s'.desired
  {
    var op := Op(Delete, n);
    var s3 := Deleting(s, n, Removing(id));
    var s4 := Deleting(s.(disk := s.disk - {id}, data := s.data - {id}), n, Forgotten(id));
    assert Do(Do(s3, Move(op, Removed(id))), Move(op, Forgotten(id))) == s4;
    s' := Do(s4, Fail(op));
    assert Leads(claim, s', [], s');
    hide OpName, Leads;
    FirstStep(claim, s4, Fail(op), [], s');
    steps := TwoSteps(claim, s3, Move(op, Removed(id)), Move(op, Forgotten(id)), [Fail(op)] + [], s');
    steps := Deletes(claim, s, n, id, steps, s');
  }

  /** So a run from nothing comes to a snapshot that is not wanted any more and stuck. */
  lemma StuckReached(claim: Name -> string, n: Name) returns (steps: seq<Step>, s': Sys)
    ensures Started(NOTHING) && Leads(claim, NOTHING, steps, s')
    ensures IsStuck(s', n) && n !in s'.desired
  {
    var s0 := NOTHING.(desired := map[n := FRESH]);
    assert Do(NOTHING, Want(n, FRESH)) == s0;
    hide Leads, OpName, IsStuck, Do;
    steps, s' := DeletionGetsStuck(claim, Created(s0, n, 0), n, 0);
    steps := Succeeds(claim, s0, n, 0, steps, s');
    steps := Begins(claim, s0, n, 0, steps, s');
    FirstStep(claim, NOTHING, Want(n, FRESH), steps, s');
    steps := [Want(n, FRESH)] + steps;
  }

  /** A creation that is retried takes another snapshot, and the one that it took before is an orphan. */
  lemma RetryTakesAnother(claim: Name -> string, n: Name) returns (steps: seq<Step>, s': Sys)
    ensures Leads(claim, NOTHING, steps, s')
    ensures n in s'.actual && s'.actual[n] == Some(1) && IsOrphan(s', 0) && 0 !in s'.recorded
  {
    var s0 := NOTHING.(desired := map[n := FRESH]);
    var s1 := Failed(s0, n, 0);
    assert Do(NOTHING, Want(n, FRESH)) == s0;
    s' := Created(s1, n, 1);
    assert Leads(claim, s', [], s');
    hide Leads, OpName, Do;
    steps := Succeeds(claim, s1, n, 1, [], s');
    steps := Begins(claim, s1, n, 1, steps, s');
    steps := Fails(claim, s0, n, 0, steps, s');
    steps := Begins(claim, s0, n, 0, steps, s');
    FirstStep(claim, NOTHING, Want(n, FRESH), steps, s');
    steps := [Want(n, FRESH)] + steps;
  }
}
