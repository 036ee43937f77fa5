/**
The snapshot controller's reconciliation as interleaved steps: the event handlers change the
desired state, the reconciler goes through copies of both states and launches operations, one at
a time per operation name, and every operation works on the storage and on the VolumeSnapshotData
before it changes the actual state.
*/
module SnapshotProtocol {
  import opened Options

  /** A snapshot's full name. */
  type Name = string

  /** What one attempt at creating a snapshot makes: a snapshot on the storage and the
      VolumeSnapshotData that records it, with a name that is never given out again. */
  type Id = nat

  datatype Kind = Create | Delete

  datatype Op = Op(kind: Kind, name: Name)

  /** A VolumeSnapshot's simplified status. */
  datatype Status = New | Pending | Ready | Failed

  /** A VolumeSnapshot as it was when somebody read it: its status and the VolumeSnapshotData it names. */
  datatype Version = Version(status: Status, bound: Option<Id>)

  /** How far an operation has come. A creation starts with the version it was launched for, a
      deletion by looking up the record that its version names. A done operation has no effects
      left, but its name is still taken. */
  datatype Phase =
    | Starting(version: Version)
    | Taken(id: Id)
    | Recorded(id: Id)
    | Bound(id: Id)
    | Looking(bound: Option<Id>)
    | Removing(id: Id)
    | Removed(id: Id)
    | Forgotten(id: Id)
    | Done

  /** `disk`: the snapshots on the storage; `owner`: for whom each was ever taken. `data`: the
      VolumeSnapshotData that exist; `recorded`: those that ever did. `wanted`, `listed`: what is left
      to go through of the reconciler's copies of the desired and the actual state. `failed`: the
      operations that ever failed; `lost`: what those that failed half-way were working on. */
  datatype Sys = Sys(desired: map<Name, Version>, actual: map<Name, Option<Id>>,
                     disk: set<Id>, owner: map<Id, Name>, data: set<Id>, recorded: set<Id>,
                     running: map<Op, Phase>,
                     wanted: map<Name, Version>, listed: map<Name, Option<Id>>, failed: set<Op>, lost: set<Id>)

  datatype Step =
    | Want(name: Name, version: Version)
    | Unwant(name: Name)
    | ListDesired
    | ListActual
    | Pass(op: Op)
    | Launch(op: Op, first: Phase)
    | Move(op: Op, to: Phase)
    | Finish(op: Op, bound: Option<Id>)
    | Fail(op: Op)
    | Return(op: Op)

  /** The name that at most one running operation has; a snapshot's claim does not change. */
  function OpName(claim: Name -> string, op: Op): string {
    (if op.kind.Create? then "create" else "delete") + op.name + claim(op.name)
  }

  predicate Free(claim: Name -> string, running: map<Op, Phase>, op: Op) {
    forall o :: o in running ==> OpName(claim, o) != OpName(claim, op)
  }

  predicate At(s: Sys, op: Op, phase: Phase) {
    op in s.running && s.running[op] == phase
  }

  predicate IsWorking(s: Sys, op: Op) {
    op in s.running && !s.running[op].Done?
  }

  /** The record `id` exists, and names `n` as its snapshot. */
  predicate IsRecordOf(s: Sys, id: Id, n: Name) {
    id in s.data && id in s.owner && s.owner[id] == n
  }

  predicate IsNew(phase: Phase) {
    phase.Starting? && phase.version.status.New?
  }

  /** How an operation on `n` goes on. The creation of a new snapshot takes one and records it, unless
      a record of an earlier attempt is found; a pending one goes on waiting. A deletion looks up the
      record, removes the snapshot from the storage, and then the record. */
  predicate CanMove(s: Sys, n: Name, from: Phase, to: Phase) {
    match to
    case Taken(id) => IsNew(from) && id !in s.owner
    case Recorded(id) => from == Taken(id) || (IsNew(from) && IsRecordOf(s, id, n))
    case Bound(id) => from == Recorded(id) || (from == Starting(Version(Pending, Some(id))) && id in s.data)
    case Removing(id) => from == Looking(Some(id)) && id in s.data
    case Removed(id) => from == Removing(id)
    case Forgotten(id) => from == Removed(id)
    case _ => false
  }

  /** A creation adds to the actual state what it has waited for; a ready snapshot is taken at its word. */
  predicate CanFinish(op: Op, phase: Phase, bound: Option<Id>) {
    if op.kind.Create? then phase == Starting(Version(Ready, bound)) || (bound.Some? && phase == Bound(bound.value))
    else bound.Some? && phase == Forgotten(bound.value)
  }

  predicate Enabled(claim: Name -> string, s: Sys, step: Step) {
    match step
    case Want(_, version) => version.bound.Some? ==> version.bound.value in s.recorded
    case Unwant(_) => true
    case ListDesired => s.listed == map[]
    case ListActual => s.wanted == map[]
    case Pass(_) => true
    case Launch(op, first) =>
      && Free(claim, s.running, op)
      && (if op.kind.Create? then op.name in s.wanted && op.name !in s.actual && first == Starting(s.wanted[op.name])
          else op.name in s.listed && op.name !in s.desired && first == Looking(s.listed[op.name]))
    case Move(op, to) => op in s.running && CanMove(s, op.name, s.running[op], to)
    case Finish(op, bound) => op in s.running && CanFinish(op, s.running[op], bound)
    case Fail(op) => IsWorking(s, op)
    case Return(op) => At(s, op, Done)
  }

  /** What an operation that fails now leaves behind half-done. */
  function HalfWay(s: Sys, op: Op): set<Id> {
    if op !in s.running then {}
    else
      match s.running[op]
      case Taken(id) => {id}
      case Recorded(id) => {id}
      case Bound(id) => {id}
      case Removed(id) => {id}
      case Forgotten(id) => {id}
      case _ => {}
  }

  function Moved(s: Sys, op: Op, phase: Phase): Sys {
    s.(running := s.running[op := phase])
  }

  function Passed(s: Sys, op: Op): Sys {
    if op.kind.Create? then s.(wanted := s.wanted - {op.name}) else s.(listed := s.listed - {op.name})
  }

  /** What a phase has done to the storage and the records when it begins. */
  function Stored(s: Sys, n: Name, phase: Phase): (s': Sys)
    ensures s' == s.(disk := s'.disk, owner := s'.owner, data := s'.data, recorded := s'.recorded)
  {
    match phase
    case Taken(id) => s.(disk := s.disk + {id}, owner := s.owner[id := n])
    case Recorded(id) => s.(data := s.data + {id}, recorded := s.recorded + {id})
    case Removed(id) => s.(disk := s.disk - {id})
    case Forgotten(id) => s.(data := s.data - {id})
    case _ => s
  }

  function Do(s: Sys, step: Step): Sys {
    match step
    case Want(n, version) => s.(desired := s.desired[n := version])
    case Unwant(n) => s.(desired := s.desired - {n})
    case ListDesired => s.(wanted := s.desired)
    case ListActual => s.(listed := s.actual)
    case Pass(op) => Passed(s, op)
    case Launch(op, first) => Passed(Moved(s, op, first), op)
    case Move(op, to) => Stored(Moved(s, op, to), op.name, to)
    case Finish(op, bound) =>
      Moved(s, op, Done).(actual := if op.kind.Create? then s.actual[op.name := bound] else s.actual - {op.name})
    case Fail(op) => Moved(s, op, Done).(failed := s.failed + {op}, lost := s.lost + HalfWay(s, op))
    case Return(op) => s.(running := s.running - {op})
  }

  ghost predicate IsRun(claim: Name -> string, run: seq<Sys>, steps: seq<Step>) {
    && |run| == |steps| + 1
    && forall i :: 0 <= i < |steps| ==> Enabled(claim, run[i], steps[i]) && run[i + 1] == Do(run[i], steps[i])
  }

  /** Whatever is there at the start, the controller has not seen yet. */
  ghost predicate Started(s: Sys) {
    && s.desired == map[] && s.actual == map[] && s.running == map[] && s.wanted == map[] && s.listed == map[]
    && s.failed == {} && s.lost == {}
    && StoresKnown(s)
  }

  // ---------------------------------------------------------------- safety

  predicate Fits(kind: Kind, phase: Phase) {
    phase.Done? || (kind.Create? <==> phase.Starting? || phase.Taken? || phase.Recorded? || phase.Bound?)
  }

  function InPhase(phase: Phase): Option<Id> {
    match phase
    case Starting(version) => version.bound
    case Looking(bound) => bound
    case Taken(_) => None
    case Done => None
    case _ => Some(phase.id)
  }

  predicate Given(s: Sys, bound: Option<Id>) {
    bound.Some? ==> bound.value in s.recorded
  }

  predicate StoresKnown(s: Sys) {
    s.data <= s.recorded <= s.owner.Keys && s.disk <= s.owner.Keys
  }

  predicate ListsKnown(s: Sys) {
    && (forall n :: n in s.desired ==> Given(s, s.desired[n].bound))
    && (forall n :: n in s.wanted ==> Given(s, s.wanted[n].bound))
    && (forall n :: n in s.actual ==> Given(s, s.actual[n]))
    && (forall n :: n in s.listed ==> Given(s, s.listed[n]))
  }

  /** What a creation has taken for its snapshot and has yet to record. */
  predicate TakenFor(s: Sys, n: Name, phase: Phase) {
    phase.Taken? ==> phase.id in s.owner && s.owner[phase.id] == n && phase.id !in s.recorded && phase.id in s.disk
  }

  predicate PhasesKnown(s: Sys) {
    forall o :: o in s.running ==> PhaseKnown(s, o, s.running[o])
  }

  predicate PhaseKnown(s: Sys, o: Op, phase: Phase) {
    Fits(o.kind, phase) && Given(s, InPhase(phase)) && TakenFor(s, o.name, phase)
  }

  /** Every VolumeSnapshotData that anyone mentions exists or has existed, and each is recorded once. */
  predicate Known(s: Sys) {
    StoresKnown(s) && ListsKnown(s) && PhasesKnown(s)
  }

  /** `bound` is what the actual state has for `n`, or its record is gone. */
  predicate CurrentOrGone(s: Sys, n: Name, bound: Option<Id>) {
    bound.Some? && bound.value in s.data ==> n in s.actual && s.actual[n] == bound
  }

  /** The deletion of `n` has found its record. */
  predicate IsDeleting(s: Sys, n: Name) {
    IsWorking(s, Op(Delete, n)) && !s.running[Op(Delete, n)].Looking?
  }

  predicate DeletesCurrent(s: Sys, n: Name) {
    Op(Delete, n) in s.running ==>
      match s.running[Op(Delete, n)]
      case Looking(bound) => CurrentOrGone(s, n, bound)
      case Removing(id) => n in s.actual && s.actual[n] == Some(id)
      case Removed(id) => n in s.actual && s.actual[n] == Some(id) && id !in s.disk
      case Forgotten(id) => n in s.actual && s.actual[n] == Some(id) && id !in s.disk && id !in s.data
      case _ => true
  }

  /** The reconciler goes through one copy after the other. */
  predicate OneList(s: Sys) {
    s.wanted == map[] || s.listed == map[]
  }

  ghost predicate NamesDiffer(claim: Name -> string, s: Sys) {
    forall o, p :: o in s.running && p in s.running && OpName(claim, o) == OpName(claim, p) ==> o == p
  }

  /** No two running operations have one name; creations work on snapshots that are not in the
      actual state; and what a deletion has found, or a list has that still exists, is in it. */
  ghost predicate Separate(claim: Name -> string, s: Sys) {
    && NamesDiffer(claim, s)
    && Known(s)
    && OneList(s)
    && (forall n :: IsWorking(s, Op(Create, n)) ==> n !in s.actual)
    && (forall n :: n in s.listed ==> CurrentOrGone(s, n, s.listed[n]))
    && (forall n :: DeletesCurrent(s, n))
  }

  /** Where the entries of the two states and of the lists come from. */
  lemma ListsBack(s: Sys, step: Step, n: Name)
    ensures n in Do(s, step).desired ==>
      (n in s.desired && Do(s, step).desired[n] == s.desired[n]) || step == Want(n, Do(s, step).desired[n])
    ensures n in Do(s, step).wanted ==>
      || (n in s.wanted && Do(s, step).wanted[n] == s.wanted[n])
      || (step.ListDesired? && n in s.desired && Do(s, step).wanted[n] == s.desired[n])
    ensures n in Do(s, step).actual ==>
      || (n in s.actual && Do(s, step).actual[n] == s.actual[n])
      || (step.Finish? && step.op.kind.Create? && step.op.name == n && Do(s, step).actual[n] == step.bound)
    ensures n in Do(s, step).listed ==>
      || (n in s.listed && Do(s, step).listed[n] == s.listed[n])
      || (step.ListActual? && n in s.actual && Do(s, step).listed[n] == s.actual[n])
  {
    if step.Move? {
      MoveKeeps(s, step);
      hide Do, Stored;
    } else if step.Launch? || step.Pass? {
      hide Stored, HalfWay;
    } else {
      hide Stored, HalfWay, Passed;
    }
  }

  /** And what comes to the storage and the records, and goes from them. */
  lemma StoresBack(s: Sys, step: Step)
    ensures forall id :: id in Do(s, step).disk ==> id in s.disk || (step.Move? && step.to == Taken(id))
    ensures forall id :: id in s.disk && id !in Do(s, step).disk ==> step.Move? && step.to == Removed(id)
    ensures forall id :: id in Do(s, step).data ==> id in s.data || (step.Move? && step.to == Recorded(id))
    ensures forall id :: id in s.data && id !in Do(s, step).data ==> step.Move? && step.to == Forgotten(id)
  {
    if step.Move? {
      MoveKeeps(s, step);
      hide Do;
    } else {
      StoresKept(s, step);
      hide Do;
    }
  }

  lemma LostGrows(s: Sys, step: Step)
    ensures s.lost <= Do(s, step).lost
    ensures step.Fail? ==> HalfWay(s, step.op) <= Do(s, step).lost
  {
    hide Stored, HalfWay;
  }

  lemma StoresKnownStep(claim: Name -> string, s: Sys, step: Step)
    requires StoresKnown(s) && PhasesKnown(s) && Enabled(claim, s, step)
    ensures StoresKnown(Do(s, step))
  {
    if step.Move? {
      assert PhaseKnown(s, step.op, s.running[step.op]);
      MoveStoresKnown(s, step.op, step.to);
    } else {
      StoresKept(s, step);
    }
    hide Do, Enabled, PhasesKnown;
  }

  lemma MoveStoresKnown(s: Sys, op: Op, to: Phase)
    requires StoresKnown(s) && op in s.running && PhaseKnown(s, op, s.running[op]) && CanMove(s, op.name, s.running[op], to)
    ensures StoresKnown(Do(s, Move(op, to)))
  {}

  /** Only a move changes the storage and the records. */
  lemma StoresKept(s: Sys, step: Step)
    requires !step.Move?
    ensures
      var s' := Do(s, step);
      s'.disk == s.disk && s'.owner == s.owner && s'.data == s.data && s'.recorded == s.recorded
  {
    hide HalfWay;
  }

  lemma MoveKeeps(s: Sys, step: Step)
    requires step.Move?
    ensures Do(s, step) == Stored(Moved(s, step.op, step.to), step.op.name, step.to)
    ensures s.recorded <= Do(s, step).recorded && forall id :: id in s.owner ==> id in Do(s, step).owner
  {}

  lemma OwnersKept(claim: Name -> string, s: Sys, step: Step)
    requires Enabled(claim, s, step)
    ensures forall bound :: Given(s, bound) ==> Given(Do(s, step), bound)
    ensures (step.Move? && step.to.Taken?) || Do(s, step).owner == s.owner
    ensures (step.Move? && step.to.Recorded?) || Do(s, step).recorded == s.recorded
  {
    if !step.Move? {
      StoresKept(s, step);
    }
    hide Free, CanMove, CanFinish, HalfWay;
  }

  lemma ListsKnownStep(claim: Name -> string, s: Sys, step: Step)
    requires ListsKnown(s) && PhasesKnown(s) && Enabled(claim, s, step)
    ensures ListsKnown(Do(s, step))
  {
    OwnersKept(claim, s, step);
    NewMentions(claim, s, step);
    var s' := Do(s, step);
    forall n
      ensures n in s'.desired ==> Given(s', s'.desired[n].bound)
      ensures n in s'.wanted ==> Given(s', s'.wanted[n].bound)
      ensures n in s'.actual ==> Given(s', s'.actual[n])
      ensures n in s'.listed ==> Given(s', s'.listed[n])
    {
      ListsBack(s, step, n);
      hide Do, Enabled, Given, PhasesKnown;
    }
  }

  lemma NewMentions(claim: Name -> string, s: Sys, step: Step)
    requires PhasesKnown(s) && Enabled(claim, s, step)
    ensures step.Want? ==> Given(s, step.version.bound)
    ensures step.Finish? ==> Given(s, step.bound)
  {
    if step.Finish? {
      assert PhaseKnown(s, step.op, s.running[step.op]);
    }
    hide PhasesKnown;
  }

  lemma PhaseStays(claim: Name -> string, s: Sys, step: Step, o: Op)
    requires Known(s) && Enabled(claim, s, step) && o in s.running && At(Do(s, step), o, s.running[o])
    ensures PhaseKnown(Do(s, step), o, s.running[o])
  {
    OwnersKept(claim, s, step);
    hide Free, OpName;
    assert PhaseKnown(s, o, s.running[o]);
    if step.Move? && step.to.Recorded? {
      assert PhaseKnown(s, step.op, s.running[step.op]);
    }
  }

  lemma NextPhase(s: Sys, op: Op, from: Phase, to: Phase)
    requires StoresKnown(s) && PhaseKnown(s, op, from) && CanMove(s, op.name, from, to)
    ensures PhaseKnown(Stored(Moved(s, op, to), op.name, to), op, to)
  {}

  /** Only its own steps move an operation. */
  lemma OnlyOwnSteps(claim: Name -> string, s: Sys, step: Step, o: Op)
    requires Enabled(claim, s, step) && o in Do(s, step).running
    ensures
      || ((step.Launch? || step.Move? || step.Finish? || step.Fail?) && o == step.op)
      || (o in s.running && Do(s, step).running[o] == s.running[o])
    ensures step.Launch? && o == step.op ==> o !in s.running
    ensures (step.Finish? || step.Fail?) && o == step.op ==> Do(s, step).running[o] == Done
    ensures step.Launch? && o == step.op ==> Do(s, step).running[o] == step.first
    ensures step.Move? && o == step.op ==> o in s.running && Do(s, step).running[o] == step.to
  {
    hide CanMove, CanFinish, OpName, HalfWay;
  }

  lemma PhaseMoves(claim: Name -> string, s: Sys, step: Step, o: Op)
    requires Known(s) && Enabled(claim, s, step) && o in Do(s, step).running
    requires o in s.running ==> Do(s, step).running[o] != s.running[o]
    ensures PhaseKnown(Do(s, step), o, Do(s, step).running[o])
  {
    OwnersKept(claim, s, step);
    OnlyOwnSteps(claim, s, step, o);
    if step.Move? {
      assert PhaseKnown(s, o, s.running[o]);
      NextPhase(s, o, s.running[o], step.to);
    } else {
      hide Free, OpName, CanMove, CanFinish, PhasesKnown, StoresKnown, HalfWay;
    }
  }

  lemma PhasesKnownStep(claim: Name -> string, s: Sys, step: Step)
    requires Known(s) && Enabled(claim, s, step)
    ensures PhasesKnown(Do(s, step))
  {
    hide Enabled, Known, Do, PhaseKnown;
    var s' := Do(s, step);
    forall o | o in s'.running ensures PhaseKnown(s', o, s'.running[o]) {
      if o in s.running && s'.running[o] == s.running[o] {
        PhaseStays(claim, s, step, o);
      } else {
        PhaseMoves(claim, s, step, o);
      }
    }
  }

  lemma NamesDifferStep(claim: Name -> string, s: Sys, step: Step)
    requires NamesDiffer(claim, s) && Enabled(claim, s, step)
    ensures NamesDiffer(claim, Do(s, step))
  {
    hide OpName;
  }

  /** What is gone stays gone. */
  lemma GoneStays(claim: Name -> string, s: Sys, step: Step)
    requires Known(s) && Enabled(claim, s, step)
    ensures forall id :: id in s.recorded && id !in s.data ==> id !in Do(s, step).data
  {
    hide Free, ListsKnown;
    if step.Move? && step.to.Recorded? {
      assert PhaseKnown(s, step.op, s.running[step.op]);
    }
  }

  /** The actual state changes only at the end of an operation. */
  lemma ActualAfter(claim: Name -> string, s: Sys, step: Step)
    requires Separate(claim, s) && Enabled(claim, s, step)
    ensures !step.Finish? ==> Do(s, step).actual == s.actual
    ensures step.Finish? && step.op.kind.Create? ==> step.op.name !in s.actual
    ensures step.Finish? && step.op.kind.Delete? ==>
      step.op.name in s.actual && s.actual[step.op.name] == step.bound && step.bound.Some? && step.bound.value !in s.data
  {
    hide Free, Known, NamesDiffer;
    if step.Finish? && step.op.kind.Delete? {
      assert DeletesCurrent(s, step.op.name);
      assert step.op == Op(Delete, step.op.name);
    }
    if step.Finish? && step.op.kind.Create? {
      assert step.op == Op(Create, step.op.name);
    }
  }

  lemma CurrentStays(claim: Name -> string, s: Sys, step: Step, n: Name, bound: Option<Id>)
    requires Separate(claim, s) && Enabled(claim, s, step)
    requires CurrentOrGone(s, n, bound) && Given(s, bound)
    ensures CurrentOrGone(Do(s, step), n, bound)
  {
    GoneStays(claim, s, step);
    ActualAfter(claim, s, step);
    hide Free, Known, NamesDiffer, Enabled;
  }

  lemma ListedStep(claim: Name -> string, s: Sys, step: Step, n: Name)
    requires Separate(claim, s) && Enabled(claim, s, step) && n in Do(s, step).listed
    ensures CurrentOrGone(Do(s, step), n, Do(s, step).listed[n])
  {
    ListsBack(s, step, n);
    if step.ListActual? && n in s.actual && Do(s, step).listed[n] == s.actual[n] {
      ActualAfter(claim, s, step);
      hide Separate, Enabled, Do;
    } else {
      assert ListsKnown(s);
      CurrentStays(claim, s, step, n, s.listed[n]);
      hide Separate, Enabled, Do;
    }
  }

  lemma ExclusiveStep(claim: Name -> string, s: Sys, step: Step, n: Name)
    requires Separate(claim, s) && Enabled(claim, s, step) && IsWorking(Do(s, step), Op(Create, n))
    ensures n !in Do(s, step).actual
  {
    ActualAfter(claim, s, step);
    hide Free, Known, NamesDiffer;
  }

  lemma DeletionStays(claim: Name -> string, s: Sys, step: Step, n: Name)
    requires Separate(claim, s) && Enabled(claim, s, step) && Op(Delete, n) in s.running
    requires At(Do(s, step), Op(Delete, n), s.running[Op(Delete, n)])
    ensures DeletesCurrent(Do(s, step), n)
  {
    var phase := s.running[Op(Delete, n)];
    ActualAfter(claim, s, step);
    GoneStays(claim, s, step);
    PhaseOf(claim, s, Op(Delete, n));
    assert DeletesCurrent(s, n);
    if phase.Looking? {
      CurrentStays(claim, s, step, n, phase.bound);
    } else {
      RemovedIsOffDisk(claim, s, step);
      OnlyOwnSteps(claim, s, step, Op(Delete, n));
      EitherKind(step);
      hide Enabled, Separate, Do, CurrentOrGone;
    }
  }

  lemma EitherKind(step: Step)
    ensures step.Finish? ==> step.op == Op(Create, step.op.name) || step.op == Op(Delete, step.op.name)
  {
    if step.Finish? && step.op.kind.Create? {
      assert step.op.kind == Create;
    }
  }

  /** What has been recorded comes back to the storage no more. */
  lemma RemovedIsOffDisk(claim: Name -> string, s: Sys, step: Step)
    requires Separate(claim, s) && Enabled(claim, s, step)
    ensures forall id :: id in s.recorded && id !in s.disk ==> id !in Do(s, step).disk
  {
    if !step.Move? {
      StoresKept(s, step);
      hide Do, Enabled, Separate;
    } else {
      hide NamesDiffer, CurrentOrGone, DeletesCurrent, ListsKnown, PhasesKnown;
    }
  }

  lemma NextDeletion(s: Sys, n: Name, from: Phase, to: Phase)
    requires DeletesCurrent(s, n) && At(s, Op(Delete, n), from) && Fits(Delete, from) && CanMove(s, n, from, to)
    ensures DeletesCurrent(Stored(Moved(s, Op(Delete, n), to), n, to), n)
  {}

  lemma DeletionMoves(claim: Name -> string, s: Sys, step: Step, n: Name)
    requires Separate(claim, s) && Enabled(claim, s, step) && Op(Delete, n) in Do(s, step).running
    requires Op(Delete, n) in s.running ==> Do(s, step).running[Op(Delete, n)] != s.running[Op(Delete, n)]
    ensures DeletesCurrent(Do(s, step), n)
  {
    OnlyOwnSteps(claim, s, step, Op(Delete, n));
    if step.Move? {
      PhaseOf(claim, s, step.op);
      assert DeletesCurrent(s, n);
      NextDeletion(s, n, s.running[step.op], step.to);
    } else if step.Launch? {
      assert CurrentOrGone(s, n, s.listed[n]);
    }
  }

  lemma KnownStep(claim: Name -> string, s: Sys, step: Step)
    requires Known(s) && Enabled(claim, s, step)
    ensures Known(Do(s, step))
  {
    StoresKnownStep(claim, s, step);
    ListsKnownStep(claim, s, step);
    PhasesKnownStep(claim, s, step);
  }

  lemma OneListStep(claim: Name -> string, s: Sys, step: Step)
    requires OneList(s) && Enabled(claim, s, step)
    ensures OneList(Do(s, step))
  {
    hide Free, Stored, CanMove, CanFinish, HalfWay;
  }

  lemma SeparateStep(claim: Name -> string, s: Sys, step: Step)
    requires Separate(claim, s) && Enabled(claim, s, step)
    ensures Separate(claim, Do(s, step))
  {
    KnownStep(claim, s, step);
    NamesDifferStep(claim, s, step);
    OneListStep(claim, s, step);
    var s' := Do(s, step);
    hide Enabled, Do, NamesDiffer, Known, CurrentOrGone, DeletesCurrent;
    forall n | IsWorking(s', Op(Create, n)) ensures n !in s'.actual {
      ExclusiveStep(claim, s, step, n);
    }
    forall n | n in s'.listed ensures CurrentOrGone(s', n, s'.listed[n]) {
      ListedStep(claim, s, step, n);
    }
    forall n ensures DeletesCurrent(s', n) {
      DeletesCurrentStep(claim, s, step, n);
    }
  }

  lemma DeletesCurrentStep(claim: Name -> string, s: Sys, step: Step, n: Name)
    requires Separate(claim, s) && Enabled(claim, s, step)
    ensures DeletesCurrent(Do(s, step), n)
  {
    var s' := Do(s, step);
    hide Enabled, Do, Separate;
    if Op(Delete, n) in s'.running {
      if Op(Delete, n) in s.running && s'.running[Op(Delete, n)] == s.running[Op(Delete, n)] {
        DeletionStays(claim, s, step, n);
      } else {
        DeletionMoves(claim, s, step, n);
      }
    }
  }

  // ---------------------------------------------------------------- accounting

  /** A creation holds what it has taken or found and is to add. */
  predicate IsCreating(s: Sys, n: Name, id: Id) {
    At(s, Op(Create, n), Taken(id)) || At(s, Op(Create, n), Recorded(id)) || At(s, Op(Create, n), Bound(id))
  }

  /** Nothing is on the storage but what was found there, what an operation that failed half-way
      left, and what is recorded; and a snapshot is not removed before its record, save by the
      deletion that comes to the record next. */
  ghost predicate Accounted(s: Sys, found: set<Id>) {
    && (forall id :: id in s.disk && id !in found && id !in s.lost ==>
          Kept(s, id) && (id in s.data || At(s, Op(Create, s.owner[id]), Taken(id))))
    && (forall id :: id in s.data && id !in found && id !in s.lost && id !in s.disk ==>
          exists n :: At(s, Op(Delete, n), Removed(id)))
  }

  /** The snapshot `id` is in the actual state, or being created. */
  predicate Kept(s: Sys, id: Id) {
    && id in s.owner
    && var n := s.owner[id]; IsCreating(s, n, id) || (n in s.actual && s.actual[n] == Some(id))
  }

  lemma KeptStays(claim: Name -> string, s: Sys, step: Step, id: Id)
    requires Separate(claim, s) && Enabled(claim, s, step) && Kept(s, id)
    requires id in Do(s, step).disk && id !in Do(s, step).lost
    ensures Kept(Do(s, step), id)
  {
    var n := s.owner[id];
    OwnersKept(claim, s, step);
    OwnerStays(claim, s, step, id);
    if IsCreating(s, n, id) {
      CreatingStays(claim, s, step, n, id);
    } else {
      ActualAfter(claim, s, step);
      assert DeletesCurrent(s, n);
      hide Separate, Do, Stored, CanMove;
      if step.Finish? && step.op.name == n {
        EitherKind(step);
        StoresKept(s, step);
      }
    }
  }

  lemma OwnerStays(claim: Name -> string, s: Sys, step: Step, id: Id)
    requires Enabled(claim, s, step) && id in s.owner
    ensures id in Do(s, step).owner && Do(s, step).owner[id] == s.owner[id]
  {
    if !step.Move? {
      StoresKept(s, step);
    }
    hide Free;
  }

  lemma CreatingStays(claim: Name -> string, s: Sys, step: Step, n: Name, id: Id)
    requires IsCreating(s, n, id) && Enabled(claim, s, step) && id !in Do(s, step).lost
    ensures IsCreating(Do(s, step), n, id) || (n in Do(s, step).actual && Do(s, step).actual[n] == Some(id))
  {
    var o := Op(Create, n);
    if (step.Move? || step.Finish? || step.Fail?) && step.op == o {
      LostGrows(s, step);
      hide OpName, Passed;
    } else {
      hide OpName, Stored, HalfWay, CanMove, CanFinish;
      assert At(Do(s, step), o, s.running[o]);
    }
  }

  lemma RecordStays(claim: Name -> string, s: Sys, step: Step, id: Id)
    requires Separate(claim, s) && Enabled(claim, s, step) && id in s.owner
    requires id in s.data || At(s, Op(Create, s.owner[id]), Taken(id))
    requires id in Do(s, step).disk && id !in Do(s, step).lost
    ensures id in Do(s, step).owner
    ensures id in Do(s, step).data || At(Do(s, step), Op(Create, Do(s, step).owner[id]), Taken(id))
  {
    OwnerStays(claim, s, step, id);
    if id in s.data {
      if step.Move? {
        assert DeletesCurrent(s, step.op.name);
        hide Known, NamesDiffer, CurrentOrGone;
        if step.to == Forgotten(id) {
          PhaseOf(claim, s, step.op);
        }
      } else {
        StoresKept(s, step);
      }
    } else {
      TakenStays(claim, s, step, s.owner[id], id);
    }
  }

  lemma TakenStays(claim: Name -> string, s: Sys, step: Step, n: Name, id: Id)
    requires At(s, Op(Create, n), Taken(id)) && Enabled(claim, s, step) && id !in Do(s, step).lost
    ensures id in Do(s, step).data || At(Do(s, step), Op(Create, n), Taken(id))
  {
    hide OpName;
  }

  lemma AccountedDisk(claim: Name -> string, s: Sys, step: Step, found: set<Id>, id: Id)
    requires Separate(claim, s) && Accounted(s, found) && Enabled(claim, s, step)
    requires id in Do(s, step).disk && id !in found && id !in Do(s, step).lost
    ensures Kept(Do(s, step), id)
    ensures id in Do(s, step).data || At(Do(s, step), Op(Create, Do(s, step).owner[id]), Taken(id))
  {
    if !(step.Move? && step.to == Taken(id)) {
      StoresBack(s, step);
      LostGrows(s, step);
      hide Enabled, Do, Separate, Kept;
      KeptStays(claim, s, step, id);
      assert id in s.owner;
      RecordStays(claim, s, step, id);
    }
  }
  lemma AccountedData(claim: Name -> string, s: Sys, step: Step, found: set<Id>, id: Id)
    requires Separate(claim, s) && Accounted(s, found) && Enabled(claim, s, step)
    requires id in Do(s, step).data && id !in found && id !in Do(s, step).lost && id !in Do(s, step).disk
    ensures exists n :: At(Do(s, step), Op(Delete, n), Removed(id))
  {
    StoresBack(s, step);
    LostGrows(s, step);
    if step.Move? {
      PhaseOf(claim, s, step.op);
      RecordsWhatIsThere(s, step.op, step.to);
    }
    hide Do, Enabled, Known, Kept, Separate, CanMove;
    if step.Move? && step.to == Removed(id) {
      MovedTo(s, step.op, step.to);
    } else {
      var n :| At(s, Op(Delete, n), Removed(id));
      RemovedStays(claim, s, step, n, id);
    }
  }

  lemma RecordsWhatIsThere(s: Sys, op: Op, to: Phase)
    requires op in s.running && PhaseKnown(s, op, s.running[op]) && CanMove(s, op.name, s.running[op], to)
    ensures to.Recorded? ==> to.id in s.data || (to.id in s.disk && to.id in Do(s, Move(op, to)).disk)
    ensures to.Removed? ==> op == Op(Delete, op.name)
  {}

  lemma MovedTo(s: Sys, op: Op, to: Phase)
    ensures At(Do(s, Move(op, to)), op, to)
  {}

  lemma RemovedStays(claim: Name -> string, s: Sys, step: Step, n: Name, id: Id)
    requires At(s, Op(Delete, n), Removed(id)) && Enabled(claim, s, step)
    requires id in Do(s, step).data && id !in Do(s, step).lost
    ensures At(Do(s, step), Op(Delete, n), Removed(id))
  {
    hide OpName;
  }

  lemma PhaseOf(claim: Name -> string, s: Sys, o: Op)
    requires Separate(claim, s) && o in s.running
    ensures PhaseKnown(s, o, s.running[o])
  {}

  lemma AccountedStep(claim: Name -> string, s: Sys, step: Step, found: set<Id>)
    requires Separate(claim, s) && Accounted(s, found) && Enabled(claim, s, step)
    ensures Accounted(Do(s, step), found)
  {
    var s' := Do(s, step);
    forall id | id in s'.disk && id !in found && id !in s'.lost
      ensures Kept(s', id) && (id in s'.data || At(s', Op(Create, s'.owner[id]), Taken(id)))
    {
      AccountedDisk(claim, s, step, found, id);
    }
    forall id | id in s'.data && id !in found && id !in s'.lost && id !in s'.disk
      ensures exists n :: At(s', Op(Delete, n), Removed(id))
    {
      AccountedData(claim, s, step, found, id);
    }
  }

  /** Creating and deleting one snapshot never overlap: in every run, a deletion that is past its
      look-up works on the snapshot that the actual state has, which no creation touches. Once
      nothing works, and as far as nothing was found at the start or failed half-way, the storage
      holds exactly what is recorded, and that is in the actual state of the snapshot it is for. */
  lemma {:induction false} EffectsNeverOverlap(claim: Name -> string, run: seq<Sys>, steps: seq<Step>, i: nat)
    requires IsRun(claim, run, steps) && Started(run[0]) && i < |run|
    ensures Separate(claim, run[i]) && Accounted(run[i], run[0].owner.Keys)
    ensures forall n :: !(IsWorking(run[i], Op(Create, n)) && IsDeleting(run[i], n))
    ensures run[0].owner == map[] && run[i].lost == {} && (forall o :: !IsWorking(run[i], o)) ==>
      && run[i].disk == run[i].data
      && forall id :: id in run[i].disk ==> Kept(run[i], id)
  {
    hide Enabled, Do, OpName, Known, NamesDiffer, CurrentOrGone, Accounted, Separate;
    if i == 0 {
      StartedInv(claim, run[0]);
    } else {
      EffectsNeverOverlap(claim, run, steps, i - 1);
      assert run[i - 1 + 1] == Do(run[i - 1], steps[i - 1]);
      SeparateStep(claim, run[i - 1], steps[i - 1]);
      AccountedStep(claim, run[i - 1], steps[i - 1], run[0].owner.Keys);
    }
    NoOverlap(claim, run[i]);
    AtRest(run[i], run[0].owner.Keys);
  }

  lemma StartedInv(claim: Name -> string, s: Sys)
    requires Started(s)
    ensures Separate(claim, s) && Accounted(s, s.owner.Keys)
  {}

  lemma NoOverlap(claim: Name -> string, s: Sys)
    requires Separate(claim, s)
    ensures forall n :: !(IsWorking(s, Op(Create, n)) && IsDeleting(s, n))
  {
    forall n | IsDeleting(s, n) ensures !IsWorking(s, Op(Create, n)) {
      PhaseOf(claim, s, Op(Delete, n));
      assert DeletesCurrent(s, n);
    }
  }

  lemma AtRest(s: Sys, found: set<Id>)
    requires Accounted(s, found)
    ensures found == {} && s.lost == {} && (forall o :: !IsWorking(s, o)) ==>
      && s.disk == s.data
      && forall id :: id in s.disk ==> Kept(s, id)
  {
    if found == {} && s.lost == {} && (forall o :: !IsWorking(s, o)) {
      forall id ensures id in s.disk <==> id in s.data {
        assert id in s.data && id !in s.disk ==> exists n :: At(s, Op(Delete, n), Removed(id)) && IsWorking(s, Op(Delete, n));
        assert id in s.disk && id !in s.data ==> IsWorking(s, Op(Create, s.owner[id]));
      }
    }
  }
}
