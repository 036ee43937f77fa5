/**
AttachDisk and DetachDisk calls in flight on many nodes: the critical sections of the map of
attachments in progress and the calls to EC2 interleave freely, and what EC2 reports for an
instance may be anything.
*/
module AttachProtocol {
  import opened Options
  import opened DeviceAllocators
  import opened VolumeAttach

  /** How far a call has got. `info`: what EC2 reported for the instance. `device`: the device
      that getMountDevice answered; `isNew`: it was newly assigned to this call. */
  datatype Stage =
    | Started
    | Described(info: DeviceMap)
    | Mounted(device: Option<Device>, isNew: bool)
    | Requested(device: Option<Device>, isNew: bool)
    | Ended(target: Device, isNew: bool)

  datatype Op = Op(attach: bool, node: Node, volume: Volume, stage: Stage)

  /** `ops`: the calls in flight, by an id of their own. */
  datatype State = State(attaching: map<Node, DeviceMap>, last: map<Node, nat>, ops: map<nat, Op>)

  function AttachingOn(s: State, node: Node): DeviceMap {
    if node in s.attaching then s.attaching[node] else map[]
  }

  function LastOn(s: State, node: Node): nat {
    if node in s.last then s.last[node] else 0
  }

  datatype Step =
    | Start(id: nat, attach: bool, node: Node, volume: Volume)
    | Describe(id: nat, info: DeviceMap)
    | GetMountDevice(id: nat, mount: Mount, entries: DeviceMap, index: nat)
    | Request(id: nat, ok: bool)
    | Wait(id: nat, ok: bool)
    | EndAttaching(id: nat)
    | Abandon(id: nat)

  ghost predicate Enabled(s: State, step: Step) {
    match step
    case Start(id, _, _, _) => id !in s.ops
    case Describe(id, _) => id in s.ops && s.ops[id].stage.Started?
    case GetMountDevice(id, mount, entries, index) =>
      id in s.ops && s.ops[id].stage.Described? &&
      var op := s.ops[id];
      Mounts(op.stage.info, AttachingOn(s, op.node), LastOn(s, op.node), op.volume, op.attach, mount, entries, index)
    case Request(id, _) => id in s.ops && s.ops[id].stage.Mounted?
    case Wait(id, _) => id in s.ops && s.ops[id].stage.Requested?
    case EndAttaching(id) => id in s.ops && s.ops[id].stage.Ended?
    case Abandon(id) => id in s.ops && (s.ops[id].stage.Started? || s.ops[id].stage.Described?)
  }

  function Do(s: State, step: Step): State
    requires Enabled(s, step)
  {
    match step
    case Start(id, attach, node, volume) => s.(ops := s.ops[id := Op(attach, node, volume, Started)])
    case Describe(id, info) => s.(ops := s.ops[id := s.ops[id].(stage := Described(info))])
    case GetMountDevice(id, mount, entries, index) =>
      var op := s.ops[id];
      var after := s.(attaching := s.attaching[op.node := entries], last := s.last[op.node := index]);
      (match mount
       case Full => after.(ops := s.ops - {id})
       case Absent => after.(ops := s.ops[id := op.(stage := Mounted(None, false))])
       case Already(d) => after.(ops := s.ops[id := op.(stage := Mounted(Some(d), false))])
       case Assigned(d) => after.(ops := s.ops[id := op.(stage := Mounted(Some(d), true))]))
    case Request(id, ok) =>
      // AttachVolume is called only for a new device; DetachVolume always.
      var op := s.ops[id];
      if ok || (op.attach && !op.stage.isNew)
      then s.(ops := s.ops[id := op.(stage := Requested(op.stage.device, op.stage.isNew))])
      else if op.attach && op.stage.device.Some?
      then s.(ops := s.ops[id := op.(stage := Ended(op.stage.device.value, op.stage.isNew))])
      else s.(ops := s.ops - {id})
    case Wait(id, ok) =>
      // A failed wait leaves the entry; so does a detach that knows no device.
      var op := s.ops[id];
      if ok && op.stage.device.Some?
      then s.(ops := s.ops[id := op.(stage := Ended(op.stage.device.value, op.stage.isNew))])
      else s.(ops := s.ops - {id})
    case EndAttaching(id) =>
      var op := s.ops[id];
      var entries := AttachingOn(s, op.node);
      var ended := op.stage.target in entries && entries[op.stage.target] == op.volume;
      s.(ops := s.ops - {id},
         attaching := if ended then s.attaching[op.node := entries - {op.stage.target}] else s.attaching)
    case Abandon(id) => s.(ops := s.ops - {id})
  }

  ghost predicate IsRun(states: seq<State>, steps: seq<Step>) {
    && |states| == |steps| + 1 && states[0] == State(map[], map[], map[])
    && forall i :: 0 <= i < |steps| ==> Enabled(states[i], steps[i]) && states[i + 1] == Do(states[i], steps[i])
  }

  // ---------------------------------------------------------------- every interleaving

  predicate Injective(m: DeviceMap) {
    forall d, e :: d in m && e in m && m[d] == m[e] ==> d == e
  }

  /** What a step may do to one node's entries: nothing; add a device that was neither among
      them nor reported for the instance, for a volume that had none; or remove the entry that
      a call of endAttaching names, for that call's own volume. */
  ghost predicate EntriesStep(s: State, step: Step, n: Node, entries: DeviceMap, entries': DeviceMap) {
    || entries' == entries
    || (step.GetMountDevice? && step.id in s.ops && s.ops[step.id].stage.Described? && step.mount.Assigned? &&
        var op := s.ops[step.id];
        && op.node == n && step.mount.device !in entries && step.mount.device !in op.stage.info
        && op.volume !in entries.Values && entries' == entries[step.mount.device := op.volume])
    || (step.EndAttaching? && step.id in s.ops && s.ops[step.id].stage.Ended? &&
        var op := s.ops[step.id];
        && op.node == n && op.stage.target in entries && entries[op.stage.target] == op.volume
        && entries' == entries - {op.stage.target})
  }

  lemma EntriesChange(s: State, step: Step, n: Node)
    requires Enabled(s, step)
    ensures EntriesStep(s, step, n, AttachingOn(s, n), AttachingOn(Do(s, step), n))
  {
    if step.GetMountDevice? {
      var op := s.ops[step.id];
      AssignedIsFree(op.stage.info, AttachingOn(s, op.node), LastOn(s, op.node), op.volume, op.attach,
                     step.mount, step.entries, step.index);
    }
  }

  lemma {:induction false} NoDeviceShared(states: seq<State>, steps: seq<Step>, i: nat, n: Node)
    requires IsRun(states, steps) && i < |states|
    ensures Injective(AttachingOn(states[i], n))
    ensures i < |steps| ==>
      EntriesStep(states[i], steps[i], n, AttachingOn(states[i], n), AttachingOn(states[i + 1], n))
  {
    hide Enabled, Do;
    if i > 0 {
      NoDeviceShared(states, steps, i - 1, n);
      StaysInjective(states[i - 1], steps[i - 1], n, AttachingOn(states[i - 1], n), AttachingOn(states[i], n));
    }
    if i < |steps| {
      EntriesChange(states[i], steps[i], n);
    }
  }

  lemma StaysInjective(s: State, step: Step, n: Node, entries: DeviceMap, entries': DeviceMap)
    requires Injective(entries) && EntriesStep(s, step, n, entries, entries')
    ensures Injective(entries')
  {}

  // ---------------------------------------------------------------- one call a volume

  /** No call starts while another one for the same volume and node is in flight. */
  ghost predicate OneCallAVolume(states: seq<State>, steps: seq<Step>)
    requires |states| == |steps| + 1
  {
    forall i :: 0 <= i < |steps| && steps[i].Start? ==> !InFlight(states[i], steps[i].node, steps[i].volume)
  }

  ghost predicate InFlight(s: State, n: Node, v: Volume) {
    exists id :: id in s.ops && s.ops[id].node == n && s.ops[id].volume == v
  }

  predicate UniqueCalls(s: State) {
    forall i, j :: i in s.ops && j in s.ops && i != j ==>
      s.ops[i].node != s.ops[j].node || s.ops[i].volume != s.ops[j].volume
  }

  /** The device that a call in flight was newly assigned. */
  function NewDevice(op: Op): Option<Device> {
    match op.stage
    case Mounted(d, isNew) => if isNew then d else None
    case Requested(d, isNew) => if isNew then d else None
    case Ended(d, isNew) => if isNew then Some(d) else None
    case _ => None
  }

  /** Each such call's device is still entered for its volume. */
  predicate EntriesHeld(s: State) {
    forall id :: id in s.ops && NewDevice(s.ops[id]).Some? ==>
      var entries, d := AttachingOn(s, s.ops[id].node), NewDevice(s.ops[id]).value;
      d in entries && entries[d] == s.ops[id].volume
  }

  /** Calls keep their node and volume; only starting one adds a call. */
  lemma CallsAfter(s: State, step: Step, id: nat)
    requires Enabled(s, step) && id in Do(s, step).ops
    ensures
      var op := Do(s, step).ops[id];
      if step.Start? && id == step.id then op.node == step.node && op.volume == step.volume
      else id in s.ops && op.node == s.ops[id].node && op.volume == s.ops[id].volume
  {
    hide Mounts;
  }

  lemma UniqueStep(s: State, step: Step)
    requires UniqueCalls(s) && Enabled(s, step)
    requires step.Start? ==> !InFlight(s, step.node, step.volume)
    ensures UniqueCalls(Do(s, step))
  {
    hide Enabled, Do;
    var s' := Do(s, step);
    forall i, j | i in s'.ops && j in s'.ops && s'.ops[i].node == s'.ops[j].node && s'.ops[i].volume == s'.ops[j].volume
      ensures i == j
    {
      CallsAfter(s, step, i);
      CallsAfter(s, step, j);
    }
  }

  lemma HeldStep(s: State, step: Step)
    requires UniqueCalls(s) && EntriesHeld(s) && Enabled(s, step)
    ensures EntriesHeld(Do(s, step))
  {
    hide Mounts;
    var s' := Do(s, step);
    forall id | id in s'.ops && NewDevice(s'.ops[id]).Some?
      ensures
        var entries, d := AttachingOn(s', s'.ops[id].node), NewDevice(s'.ops[id]).value;
        d in entries && entries[d] == s'.ops[id].volume
    {
      EntriesChange(s, step, s'.ops[id].node);
      if step.GetMountDevice? {
        var op := s.ops[step.id];
        AssignedIsFree(op.stage.info, AttachingOn(s, op.node), LastOn(s, op.node), op.volume, op.attach,
                       step.mount, step.entries, step.index);
      }
    }
  }

  /** Two calls in flight on one node that were assigned new devices have different ones, and
      neither device is handed out again while its call lasts. */
  lemma {:induction false} CallsKeepTheirDevices(states: seq<State>, steps: seq<Step>, i: nat)
    requires IsRun(states, steps) && OneCallAVolume(states, steps) && i < |states|
    ensures UniqueCalls(states[i]) && EntriesHeld(states[i])
    ensures
      var ops := states[i].ops;
      forall a, b :: a in ops && b in ops && a != b && ops[a].node == ops[b].node && NewDevice(ops[a]).Some? ==>
        NewDevice(ops[a]) != NewDevice(ops[b])
  {
    hide Enabled, Do;
    if i > 0 {
      CallsKeepTheirDevices(states, steps, i - 1);
      UniqueStep(states[i - 1], steps[i - 1]);
      HeldStep(states[i - 1], steps[i - 1]);
    }
  }

  /** A call that was assigned a new device finds its entry there when it ends, and takes it away:
      endAttaching never misses for such a call. */
  lemma EndFindsEntry(states: seq<State>, steps: seq<Step>, i: nat)
    requires IsRun(states, steps) && OneCallAVolume(states, steps) && i < |steps| && steps[i].EndAttaching?
    requires states[i].ops[steps[i].id].stage.isNew
    ensures
      var op := states[i].ops[steps[i].id];
      var d, entries := op.stage.target, AttachingOn(states[i], op.node);
      d in entries && entries[d] == op.volume && AttachingOn(states[i + 1], op.node) == entries - {d}
  {
    CallsKeepTheirDevices(states, steps, i);
    var op := states[i].ops[steps[i].id];
    assert NewDevice(op) == Some(op.stage.target);
    hide IsRun, OneCallAVolume;
    AfterStep(states, steps, i);
  }

  lemma AfterStep(states: seq<State>, steps: seq<Step>, i: nat)
    requires IsRun(states, steps) && i < |steps|
    ensures Enabled(states[i], steps[i]) && states[i + 1] == Do(states[i], steps[i])
  {
    hide Enabled, Do;
  }

  // ---------------------------------------------------------------- two calls for one volume

  ghost predicate ComesTo(states: seq<State>, steps: seq<Step>, s: State) {
    IsRun(states, steps) && states[|steps|] == s
  }

  lemma Go(states: seq<State>, steps: seq<Step>, s: State, step: Step)
    returns (states': seq<State>, steps': seq<Step>, s': State)
    requires ComesTo(states, steps, s) && Enabled(s, step)
    ensures s' == Do(s, step) && ComesTo(states', steps', s')
  {
    hide Enabled, Do;
    s' := Do(s, step);
    states', steps' := states + [s'], steps + [step];
  }

  /** The first device of a node goes to a new volume. */
  lemma FirstAssigned(v: Volume)
    ensures Mounts(map[], map[], 0, v, true, Assigned(DeviceName(1)), map[DeviceName(1) := v], 1)
  {
    var call := Call(0, {}, 1);
    assert RingAt(0, 1) == 1;
    assert FirstFreeAfter(0, {}, 1);
    assert IsCall(call) && After(call) == 1;
    var attaching: DeviceMap := map[];
    assert attaching[DeviceName(1) := v] == map[DeviceName(1) := v];
    assert Merged(map[], attaching) == map[] && Merged(map[], attaching).Keys == {};
  }

  lemma ThenFound(d: Device, v: Volume)
    ensures Mounts(map[], map[d := v], 1, v, true, Already(d), map[d := v], 1)
  {
    var taken := Merged(map[], map[d := v]);
    assert taken == map[d := v] && taken[d] == v && d in taken;
    assert v in taken.Values;
  }

  /** The condition is needed: of two calls that attach one volume to a node, the second may end the
      entry that the first was assigned, while the first is still in flight. */
  lemma SecondCallEndsEntry(n: Node, v: Volume) returns (states: seq<State>, steps: seq<Step>)
    ensures IsRun(states, steps) && !EntriesHeld(states[|steps|])
  {
    var s := State(map[], map[], map[]);
    var d := DeviceName(1);
    FirstAssigned(v);
    ThenFound(d, v);
    states, steps := [s], [];
    assert ComesTo(states, steps, s);
    hide Mounts, ComesTo;
    states, steps, s := Go(states, steps, s, Start(0, true, n, v));
    states, steps, s := Go(states, steps, s, Describe(0, map[]));
    states, steps, s := Go(states, steps, s, GetMountDevice(0, Assigned(d), map[d := v], 1));
    states, steps, s := SecondCall(states, steps, s, n, v, d);
    assert NewDevice(s.ops[0]) == Some(d) && AttachingOn(s, n) == map[];
    assert !EntriesHeld(s);
    CameTo(states, steps, s);
  }

  lemma CameTo(states: seq<State>, steps: seq<Step>, s: State)
    requires ComesTo(states, steps, s)
    ensures IsRun(states, steps) && states[|steps|] == s
  {
    hide IsRun;
  }

  lemma SecondCall(states: seq<State>, steps: seq<Step>, s: State, n: Node, v: Volume, d: Device)
    returns (states': seq<State>, steps': seq<Step>, s': State)
    requires ComesTo(states, steps, s) && s.attaching == map[n := map[d := v]] && s.last == map[n := 1]
    requires s.ops == map[0 := Op(true, n, v, Mounted(Some(d), true))]
    ensures ComesTo(states', steps', s') && 0 in s'.ops && s'.ops[0] == s.ops[0]
    ensures AttachingOn(s', n) == map[]
  {
    ThenFound(d, v);
    hide Mounts, ComesTo;
    states', steps', s' := Go(states, steps, s, Start(1, true, n, v));
    states', steps', s' := Go(states', steps', s', Describe(1, map[]));
    states', steps', s' := Go(states', steps', s', GetMountDevice(1, Already(d), map[d := v], 1));
    states', steps', s' := Go(states', steps', s', Request(1, true));
    states', steps', s' := Go(states', steps', s', Wait(1, true));
    states', steps', s' := Go(states', steps', s', EndAttaching(1));
  }
}
