/**
What the convergence of the snapshot controller rests on, followed from the start: as long as no
operation fails half-way, and nobody asks for a snapshot under a record that is not its own or is
about to go, everything that is desired can be made and everything else deleted.
*/
module SnapshotProspects {
  import opened Options
  import opened SnapshotProtocol
  import opened SnapshotConvergence

  predicate IsGood(s: Sys, version: Version) {
    version.status.New? || (!version.status.Failed? && Exists(s, version.bound))
  }

  predicate IsUndisturbed(s: Sys, n: Name, version: Version) {
    version.status.New? || !IsWorking(s, Op(Delete, n))
  }

  /** A VolumeSnapshot is wanted as a new one, or with its own record, which no deletion is after. */
  predicate IsSincere(s: Sys, step: Step) {
    step.Want? ==>
      && IsOwn(s, step.name, step.version.bound)
      && IsGood(s, step.version) && IsUndisturbed(s, step.name, step.version)
  }

  predicate MentionsOwn(s: Sys, n: Name) {
    && (n in s.desired ==> IsOwn(s, n, s.desired[n].bound))
    && (n in s.wanted ==> IsOwn(s, n, s.wanted[n].bound))
    && (n in s.actual ==> IsOwn(s, n, s.actual[n]))
    && (n in s.listed ==> IsOwn(s, n, s.listed[n]))
    && RunsOnOwn(s, Op(Create, n)) && RunsOnOwn(s, Op(Delete, n))
  }

  predicate CreatesWell(s: Sys, n: Name) {
    Op(Create, n) in s.running ==>
      match s.running[Op(Create, n)]
      case Starting(version) => IsGood(s, version)
      case Recorded(id) => id in s.data
      case Bound(id) => id in s.data
      case _ => true
  }

  predicate AddedWell(s: Sys, n: Name) {
    n in s.actual ==> Exists(s, s.actual[n]) || (s.actual[n].Some? && At(s, Op(Delete, n), Forgotten(s.actual[n].value)))
  }

  ghost predicate RecordsWell(s: Sys, n: Name) {
    forall id :: IsRecordOf(s, id, n) && id !in s.disk ==> At(s, Op(Delete, n), Removed(id))
  }

  ghost predicate SoundFor(s: Sys, n: Name) {
    && MentionsOwn(s, n) && CreatesWell(s, n) && AddedWell(s, n) && RecordsWell(s, n)
    && (n in s.desired ==> IsGood(s, s.desired[n]) && IsUndisturbed(s, n, s.desired[n]))
    && (n in s.wanted ==> IsGood(s, s.wanted[n]) && IsUndisturbed(s, n, s.wanted[n]))
  }

  lemma SoundIsHopeful(s: Sys, n: Name)
    requires SoundFor(s, n) && n !in s.wanted
    ensures HopefulFor(s, n)
  {}

  lemma SoundElsewhere(s: Sys, s': Sys, n: Name)
    requires SoundFor(s, n) && SameAt(s, s', n) && SameStores(s, s', n)
    ensures SoundFor(s', n)
  {}

  lemma SoundIdle(claim: Name -> string, s: Sys, step: Step, n: Name)
    requires SoundFor(s, n) && !IsWork(step) && Enabled(claim, s, step)
    ensures SoundFor(Do(s, step), n)
  {
    IdleKeeps(s, step);
    var s' := Do(s, step);
    assert MentionsOwn(s', n);
    assert n in s'.wanted ==> IsGood(s', s'.wanted[n]) && IsUndisturbed(s', n, s'.wanted[n]);
    hide Do, MentionsOwn;
  }

  lemma SoundWanted(claim: Name -> string, s: Sys, step: Step, n: Name)
    requires SoundFor(s, n) && (step.Want? || step.Unwant?) && Enabled(claim, s, step) && IsSincere(s, step)
    ensures SoundFor(Do(s, step), n)
  {}

  /** While no deletion finds or forgets its record, what exists goes on existing. */
  lemma ExistsStays(s: Sys, op: Op, to: Phase)
    requires op in s.running && CanMove(s, op.name, s.running[op], to)
    ensures forall bound :: Exists(s, bound) && !(to.Forgotten? && bound == Some(to.id)) ==>
      Exists(Do(s, Move(op, to)), bound)
  {}

  lemma SoundMove(claim: Name -> string, s: Sys, op: Op, to: Phase)
    requires Separate(claim, s) && SoundFor(s, op.name) && Enabled(claim, s, Move(op, to))
    ensures SoundFor(Do(s, Move(op, to)), op.name)
  {
    PhaseOf(claim, s, op);
    EitherOp(op);
    assert DeletesCurrent(s, op.name);
    MoveMentions(s, op, to);
    ExistsStays(s, op, to);
    MoveLeft(s, op, to);
    SoundDeletion(claim, s, op, to);
    hide Separate, MentionsOwn, IsOwn;
  }

  lemma MoveMentions(s: Sys, op: Op, to: Phase)
    requires Known(s) && MentionsOwn(s, op.name) && op in s.running && CanMove(s, op.name, s.running[op], to)
    ensures MentionsOwn(Do(s, Move(op, to)), op.name)
  {
    assert PhaseKnown(s, op, s.running[op]);
    EitherOp(op);
    OwnersGrow(s, op, to);
    hide Known;
  }

  lemma SoundDeletion(claim: Name -> string, s: Sys, op: Op, to: Phase)
    requires Separate(claim, s) && SoundFor(s, op.name) && Enabled(claim, s, Move(op, to))
    ensures AddedWell(Do(s, Move(op, to)), op.name) && RecordsWell(Do(s, Move(op, to)), op.name)
  {
    PhaseOf(claim, s, op);
    EitherOp(op);
    assert DeletesCurrent(s, op.name);
    hide Separate, MentionsOwn;
  }

  lemma SoundLaunch(claim: Name -> string, s: Sys, op: Op, first: Phase)
    requires Separate(claim, s) && SoundFor(s, op.name) && Enabled(claim, s, Launch(op, first))
    ensures SoundFor(Do(s, Launch(op, first)), op.name)
  {
    EitherOp(op);
    assert op !in s.running;
    assert OneList(s);
    hide Separate, Free;
  }

  lemma SoundFinish(claim: Name -> string, s: Sys, op: Op, bound: Option<Id>)
    requires Separate(claim, s) && SoundFor(s, op.name) && Enabled(claim, s, Finish(op, bound))
    ensures SoundFor(Do(s, Finish(op, bound)), op.name)
  {
    EitherOp(op);
    assert DeletesCurrent(s, op.name);
    hide Separate;
  }

  lemma SoundFail(claim: Name -> string, s: Sys, op: Op)
    requires SoundFor(s, op.name) && Enabled(claim, s, Fail(op)) && HalfWay(s, op) == {}
    ensures SoundFor(Do(s, Fail(op)), op.name)
  {
    EitherOp(op);
  }

  lemma SoundReturn(s: Sys, op: Op)
    requires SoundFor(s, op.name) && At(s, op, Done)
    ensures SoundFor(Do(s, Return(op)), op.name)
  {
    EitherOp(op);
  }

  ghost predicate IsSound(s: Sys) {
    forall n :: SoundFor(s, n)
  }

  lemma SoundStepAt(claim: Name -> string, s: Sys, step: Step, n: Name)
    requires Separate(claim, s) && IsSound(s) && Enabled(claim, s, step) && IsSincere(s, step)
    requires step.Fail? ==> HalfWay(s, step.op) == {}
    ensures SoundFor(Do(s, step), n)
  {
    assert SoundFor(s, n);
    hide Separate, IsSound, Do, CanMove, SameAt, SameStores, IsSincere;
    if !IsWork(step) {
      SoundIdle(claim, s, step, n);
    } else if step.Want? || step.Unwant? {
      SoundWanted(claim, s, step, n);
    } else if NameOf(step) != n {
      SoundAt(s, step.op);
      SameElsewhere(s, step, n);
      StoresElsewhere(claim, s, step, n);
      hide SoundFor;
      SoundElsewhere(s, Do(s, step), n);
    } else {
      hide SoundFor;
      match step {
        case Launch(op, first) => SoundLaunch(claim, s, op, first);
        case Move(op, to) => SoundMove(claim, s, op, to);
        case Finish(op, bound) => SoundFinish(claim, s, op, bound);
        case Fail(op) => SoundFail(claim, s, op);
        case Return(op) => SoundReturn(s, op);
        case _ =>
      }
    }
  }

  lemma SoundAt(s: Sys, op: Op)
    requires IsSound(s)
    ensures RunsOnOwn(s, op)
  {
    assert SoundFor(s, op.name);
    EitherOp(op);
  }

  lemma StartedSound(s: Sys, n: Name)
    requires Started(s) && s.data <= s.disk
    ensures SoundFor(s, n)
  {}

  /** In every such run from the start, whatever may have failed before it had an effect, every
      state between two rounds is one from which reconciling comes to its end. */
  lemma {:induction false} HopeFromTheStart(claim: Name -> string, run: seq<Sys>, steps: seq<Step>, i: nat)
    requires IsRun(claim, run, steps) && Started(run[0]) && run[0].data <= run[0].disk && i < |run|
    requires forall j :: 0 <= j < |steps| ==> IsSincere(run[j], steps[j])
    requires run[i].lost == {}
    ensures Separate(claim, run[i]) && IsSound(run[i])
    ensures run[i].wanted == map[] ==> Hopeful(run[i])
  {
    hide Enabled, Do, Separate, SoundFor, HopefulFor, IsSincere, Accounted;
    EffectsNeverOverlap(claim, run, steps, i);
    if i == 0 {
      hide Started;
      forall n ensures SoundFor(run[0], n) {
        StartedSound(run[0], n);
      }
    } else {
      assert run[i - 1 + 1] == Do(run[i - 1], steps[i - 1]);
      LostGrows(run[i - 1], steps[i - 1]);
      HopeFromTheStart(claim, run, steps, i - 1);
      forall n ensures SoundFor(run[i], n) {
        SoundStepAt(claim, run[i - 1], steps[i - 1], n);
      }
    }
    if run[i].wanted == map[] {
      forall n ensures HopefulFor(run[i], n) {
        SoundIsHopeful(run[i], n);
      }
    }
  }
}
