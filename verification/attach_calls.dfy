/**
AttachDisk and DetachDisk as they are written, each a thread of its own: between any two of its
critical sections and API calls, the other calls in flight take any number of theirs.
*/
module AttachCalls {
  import opened Options
  import DeviceAllocators
  import opened VolumeAttach
  import opened AttachProtocol

  type Device = DeviceAllocators.Device

  function CallOf(step: Step): nat {
    match step
    case Start(id, _, _, _) => id
    case Describe(id, _) => id
    case GetMountDevice(id, _, _, _) => id
    case Request(id, _) => id
    case Wait(id, _) => id
    case EndAttaching(id) => id
    case Abandon(id) => id
  }

  /** The steps of one call. */
  function StepsOf(steps: seq<Step>, id: nat): seq<Step> {
    if steps == [] then []
    else
      var last := steps[|steps| - 1];
      StepsOf(steps[..|steps| - 1], id) + if CallOf(last) == id then [last] else []
  }

  lemma StepsOneMore(steps: seq<Step>, step: Step, id: nat)
    ensures StepsOf(steps + [step], id) == StepsOf(steps, id) + if CallOf(step) == id then [step] else []
  {
    assert (steps + [step])[..|steps|] == steps;
  }

  lemma RunGrows(states: seq<State>, steps: seq<Step>, step: Step)
    requires IsRun(states, steps) && Enabled(states[|steps|], step)
    ensures IsRun(states + [Do(states[|steps|], step)], steps + [step])
  {
    hide Enabled, Do;
  }

  predicate IsMount(step: Step, id: nat, mount: VolumeAttach.Mount) {
    step.GetMountDevice? && step.id == id && step.mount == mount
  }

  lemma AfterMount(s: State, id: nat, mount: VolumeAttach.Mount, entries: DeviceMap, index: nat)
    requires id in s.ops && s.ops[id].stage.Described?
    requires
      var op := s.ops[id];
      Mounts(op.stage.info, AttachingOn(s, op.node), LastOn(s, op.node), op.volume, op.attach,
             mount, entries, index)
    ensures
      var step := GetMountDevice(id, mount, entries, index);
      && Enabled(s, step)
      && (forall n :: AttachingOn(Do(s, step), n) == if n == s.ops[id].node then entries else AttachingOn(s, n))
      && (forall n :: LastOn(Do(s, step), n) == if n == s.ops[id].node then index else LastOn(s, n))
  {
    hide Mounts;
  }

  lemma AfterEnd(s: State, id: nat)
    requires id in s.ops && s.ops[id].stage.Ended?
    ensures
      var op, step := s.ops[id], EndAttaching(id);
      var entries := AttachingOn(s, op.node);
      var ended := op.stage.target in entries && entries[op.stage.target] == op.volume;
      && Enabled(s, step)
      && (forall n :: AttachingOn(Do(s, step), n) ==
            if n == op.node && ended then entries - {op.stage.target} else AttachingOn(s, n))
      && (forall n :: LastOn(Do(s, step), n) == LastOn(s, n))
  {}

  /** Only the two critical sections change the maps. */
  lemma MapsKept(s: State, step: Step)
    requires Enabled(s, step) && !step.GetMountDevice? && !step.EndAttaching?
    ensures forall n :: AttachingOn(Do(s, step), n) == AttachingOn(s, n)
    ensures forall n :: LastOn(Do(s, step), n) == LastOn(s, n)
  {}

  /** A call's stage is its own. */
  lemma OtherCallKept(s: State, step: Step, id: nat)
    requires Enabled(s, step) && CallOf(step) != id && id in s.ops
    ensures id in Do(s, step).ops && Do(s, step).ops[id] == s.ops[id]
  {
    hide Mounts;
  }

  /** What getMountDevice answers, and how far it takes its call. */
  lemma StageAfterMount(s: State, step: Step)
    requires step.GetMountDevice? && Enabled(s, step)
    ensures
      var id, op, s' := step.id, s.ops[step.id], Do(s, step);
      match step.mount
      case Full => op.attach && id !in s'.ops
      case Absent => !op.attach && id in s'.ops && s'.ops[id] == op.(stage := Mounted(None, false))
      case Already(d) => id in s'.ops && s'.ops[id] == op.(stage := Mounted(Some(d), false))
      case Assigned(d) => op.attach && id in s'.ops && s'.ops[id] == op.(stage := Mounted(Some(d), true))
  {}

  lemma GoneAfterAbandon(s: State, id: nat)
    requires id in s.ops && s.ops[id].stage.Described?
    ensures Enabled(s, Abandon(id)) && id !in Do(s, Abandon(id)).ops
  {}

  // ---------------------------------------------------------------- what a call does

  /** From the choice of a device on. An entry that was made is taken back by endAttaching, unless
      waiting for the attachment fails; the device is returned only after a wait that succeeded. */
  predicate AttachesOn(path: seq<Step>, id: nat, d: Device, isNew: bool, r: Result<Device>) {
    || (isNew && r.Failure? && path == [Request(id, false), EndAttaching(id)])
    || (r.Failure? && path == [Request(id, true), Wait(id, false)])
    || ((r.Failure? || r == Success(d)) && path == [Request(id, true), Wait(id, true), EndAttaching(id)])
  }

  predicate Attaches(path: seq<Step>, id: nat, node: Node, info: DeviceMap, volume: Volume, readOnly: bool,
                     r: Result<Device>)
  {
    |path| >= 2 && path[0] == Start(id, true, node, volume) &&
    if path[1] == Abandon(id) then |path| == 2 && r.Failure?
    else if readOnly then path[1..] == [Describe(id, info), Abandon(id)] && r.Failure?
    else
      |path| >= 3 && path[1] == Describe(id, info) && path[2].GetMountDevice? && path[2].id == id &&
      match path[2].mount
      case Absent => false
      case Full => |path| == 3 && r.Failure?
      case Already(d) => AttachesOn(path[3..], id, d, false, r)
      case Assigned(d) => AttachesOn(path[3..], id, d, true, r)
  }

  /** From the look-up of the device on. Only a detachment that was waited for ends an entry. */
  predicate DetachesOn(path: seq<Step>, id: nat, d: Option<Device>, r: Result<Option<Device>>) {
    || (r.Failure? && path == [Request(id, false)])
    || (r.Failure? && path == [Request(id, true), Wait(id, false)])
    || (r == Success(d) && path == [Request(id, true), Wait(id, true)] + if d.Some? then [EndAttaching(id)] else [])
  }

  predicate Detaches(path: seq<Step>, id: nat, node: Node, info: DeviceMap, volume: Volume, r: Result<Option<Device>>) {
    |path| >= 2 && path[0] == Start(id, false, node, volume) &&
    if path[1] == Abandon(id) then |path| == 2 && (r.Failure? || r == Success(None))
    else
      |path| >= 3 && path[1] == Describe(id, info) && path[2].GetMountDevice? && path[2].id == id &&
      match path[2].mount
      case Absent => DetachesOn(path[3..], id, None, r)
      case Already(d) => DetachesOn(path[3..], id, Some(d), r)
      case _ => false
  }

  class Attacher {
    const cloud: Cloud
    // The calls in flight, with the maps as the protocol sees them; `cloud` holds the same maps.
    var sys: State
    ghost var states: seq<State>
    ghost var steps: seq<Step>

    ghost predicate InStep(s: State)
      reads cloud, cloud.Repr
      requires cloud.Valid()
    {
      forall n :: AttachingOn(s, n) == cloud.AttachingOn(n) && LastOn(s, n) == cloud.LastOn(n)
    }

    ghost predicate Valid()
      reads this, cloud, cloud.Repr
    {
      && cloud.Valid() && this !in cloud.Repr
      && IsRun(states, steps) && states[|steps|] == sys
      && InStep(sys)
    }

    /** Whatever calls have been interleaved, no two devices of a node are entered for one volume. */
    lemma NothingShared(n: Node)
      requires Valid()
      ensures Injective(cloud.AttachingOn(n))
    {
      NoDeviceShared(states, steps, |steps|, n);
    }

    constructor ()
      ensures Valid() && fresh(cloud) && fresh(cloud.Repr) && steps == []
    {
      cloud := new Cloud();
      sys := State(map[], map[], map[]);
      new;
      states, steps := [sys], [];
    }

    /** One step of the protocol; the caller has made the step's change to the cloud's maps. */
    method Act(step: Step)
      requires cloud.Valid() && this !in cloud.Repr
      requires IsRun(states, steps) && states[|steps|] == sys
      requires Enabled(sys, step) && InStep(Do(sys, step))
      modifies this
      ensures Valid() && sys == Do(old(sys), step) && steps == old(steps) + [step]
      ensures forall id :: StepsOf(steps, id) == old(StepsOf(steps, id)) + if CallOf(step) == id then [step] else []
    {
      hide StepsOf, Enabled, Do;
      RunGrows(states, steps, step);
      forall id ensures StepsOf(steps + [step], id) == StepsOf(steps, id) + if CallOf(step) == id then [step] else [] {
        StepsOneMore(steps, step, id);
      }
      sys := Do(sys, step);
      states := states + [sys];
      steps := steps + [step];
    }

    /** The critical section of getMountDevice. */
    method Mount(id: nat) returns (mount: VolumeAttach.Mount)
      requires Valid() && id in sys.ops && sys.ops[id].stage.Described?
      modifies this, cloud.Repr
      ensures Valid() && fresh(cloud.Repr - old(cloud.Repr))
      ensures steps != [] && IsMount(steps[|steps| - 1], id, mount)
      ensures Enabled(old(sys), steps[|steps| - 1]) && sys == Do(old(sys), steps[|steps| - 1])
      ensures forall i :: StepsOf(steps, i) == old(StepsOf(steps, i)) + if i == id then [steps[|steps| - 1]] else []
    {
      hide Mounts, IsRun, AttachingOn, LastOn, StepsOf, Enabled, Do;
      var op := sys.ops[id];
      mount := cloud.MountDevice(op.node, op.stage.info, op.volume, op.attach);
      AfterMount(sys, id, mount, cloud.AttachingOn(op.node), cloud.LastOn(op.node));
      Act(GetMountDevice(id, mount, cloud.AttachingOn(op.node), cloud.LastOn(op.node)));
    }

    /** The critical section of endAttaching. */
    method End(id: nat)
      requires Valid() && id in sys.ops && sys.ops[id].stage.Ended?
      modifies this, cloud
      ensures Valid() && cloud.Repr == old(cloud.Repr)
      ensures sys == Do(old(sys), EndAttaching(id)) && steps == old(steps) + [EndAttaching(id)]
      ensures forall i :: StepsOf(steps, i) == old(StepsOf(steps, i)) + if i == id then [EndAttaching(id)] else []
    {
      hide IsRun, AttachingOn, LastOn, StepsOf, Enabled, Do;
      var op := sys.ops[id];
      AfterEnd(sys, id);
      var _ := cloud.EndAttaching(op.node, op.volume, op.stage.target);
      Act(EndAttaching(id));
    }

    /** One step of another call than `id`, or none: a new call, or the next step of one in flight. */
    method OtherStep(id: nat, other: nat)
      requires Valid() && id in sys.ops && other != id
      modifies this, cloud.Repr
      ensures Valid() && fresh(cloud.Repr - old(cloud.Repr))
      ensures id in sys.ops && sys.ops[id] == old(sys).ops[id]
      ensures StepsOf(steps, id) == old(StepsOf(steps, id))
    {
      hide IsRun, AttachingOn, LastOn, StepsOf, Mounts, Do;
      var ok: bool := *;
      if other !in sys.ops {
        var node: Node := *;
        var volume: Volume := *;
        Quietly(Start(other, ok, node, volume), id);
        return;
      }
      match sys.ops[other].stage {
        case Started =>
          var info: DeviceMap := *;
          Quietly(if ok then Describe(other, info) else Abandon(other), id);
        case Described(_) =>
          if ok {
            ghost var s := sys;
            var _ := Mount(other);
            OtherCallKept(s, steps[|steps| - 1], id);
          } else {
            Quietly(Abandon(other), id);
          }
        case Mounted(_, _) => Quietly(Request(other, ok), id);
        case Requested(_, _) => Quietly(Wait(other, ok), id);
        case Ended(_, _) =>
          OtherCallKept(sys, EndAttaching(other), id);
          End(other);
      }
    }

    /** A step outside the critical sections, of another call than `id`. */
    method Quietly(step: Step, ghost id: nat)
      requires Valid() && Enabled(sys, step) && !step.GetMountDevice? && !step.EndAttaching?
      requires id in sys.ops && CallOf(step) != id
      modifies this
      ensures Valid() && cloud.Repr == old(cloud.Repr)
      ensures id in sys.ops && sys.ops[id] == old(sys).ops[id]
      ensures StepsOf(steps, id) == old(StepsOf(steps, id))
    {
      hide IsRun, AttachingOn, LastOn, StepsOf, Enabled, Do;
      MapsKept(sys, step);
      OtherCallKept(sys, step, id);
      Act(step);
    }

    method Interleave(id: nat)
      requires Valid() && id in sys.ops
      modifies this, cloud.Repr
      ensures Valid() && fresh(cloud.Repr - old(cloud.Repr))
      ensures id in sys.ops && sys.ops[id] == old(sys).ops[id]
      ensures StepsOf(steps, id) == old(StepsOf(steps, id))
    {
      hide StepsOf, IsRun;
      var more: nat := *;
      while more > 0
        invariant Valid() && fresh(cloud.Repr - old(cloud.Repr))
        invariant id in sys.ops && sys.ops[id] == old(sys).ops[id]
        invariant StepsOf(steps, id) == old(StepsOf(steps, id))
      {
        more := more - 1;
        var other: nat := *;
        if other != id {
          OtherStep(id, other);
        }
      }
    }

    /** A step of the call's own outside the critical sections. */
    method Own(id: nat, step: Step)
      requires Valid() && Enabled(sys, step) && !step.GetMountDevice? && !step.EndAttaching? && CallOf(step) == id
      modifies this
      ensures Valid() && cloud.Repr == old(cloud.Repr) && sys == Do(old(sys), step)
      ensures StepsOf(steps, id) == old(StepsOf(steps, id)) + [step]
    {
      hide IsRun, AttachingOn, LastOn, StepsOf, Enabled, Do;
      MapsKept(sys, step);
      Act(step);
    }

    /** Begins a call and gets the instance's devices, unless the instance cannot be found. */
    method Begin(id: nat, attach: bool, node: Node, volume: Volume, devices: seq<BlockDevice>)
      returns (found: bool, ghost path: seq<Step>)
      requires Valid() && id !in sys.ops
      modifies this, cloud.Repr
      ensures Valid() && fresh(cloud.Repr - old(cloud.Repr))
      ensures StepsOf(steps, id) == old(StepsOf(steps, id)) + path
      ensures path == [Start(id, attach, node, volume), if found then Describe(id, Reported(devices)) else Abandon(id)]
      ensures found ==> id in sys.ops && sys.ops[id] == Op(attach, node, volume, Described(Reported(devices)))
      ensures !found ==> id !in sys.ops
    {
      hide IsRun, StepsOf, Reported;
      Own(id, Start(id, attach, node, volume));
      Interleave(id);
      found := *;
      if found {
        var info := ReadDevices(devices);
        Own(id, Describe(id, info));
      } else {
        Own(id, Abandon(id));
      }
      path := [Start(id, attach, node, volume), if found then Describe(id, Reported(devices)) else Abandon(id)];
    }

    /** attachDisk from the choice of a device on. */
    method AttachTo(id: nat, d: Device, isNew: bool) returns (r: Result<Device>, ghost path: seq<Step>)
      requires Valid() && id in sys.ops && sys.ops[id].attach && sys.ops[id].stage == Mounted(Some(d), isNew)
      modifies this, cloud.Repr
      ensures Valid() && fresh(cloud.Repr - old(cloud.Repr)) && id !in sys.ops
      ensures StepsOf(steps, id) == old(StepsOf(steps, id)) + path && AttachesOn(path, id, d, isNew, r)
    {
      hide IsRun, StepsOf;
      Interleave(id);
      var requested := true;
      if isNew {
        requested := *;
      }
      Own(id, Request(id, requested));
      Interleave(id);
      if !requested {
        End(id);
        return Failure, [Request(id, false), EndAttaching(id)];
      }
      var waited: bool := *;
      Own(id, Wait(id, waited));
      if !waited {
        return Failure, [Request(id, true), Wait(id, false)];
      }
      Interleave(id);
      End(id);
      // The attachment may turn out to be of another device or instance.
      var verified: bool := *;
      return if verified then Success(d) else Failure, [Request(id, true), Wait(id, true), EndAttaching(id)];
    }

    method DetachFrom(id: nat, d: Option<Device>) returns (r: Result<Option<Device>>, ghost path: seq<Step>)
      requires Valid() && id in sys.ops && !sys.ops[id].attach && sys.ops[id].stage == Mounted(d, false)
      modifies this, cloud.Repr
      ensures Valid() && fresh(cloud.Repr - old(cloud.Repr)) && id !in sys.ops
      ensures StepsOf(steps, id) == old(StepsOf(steps, id)) + path && DetachesOn(path, id, d, r)
    {
      hide IsRun, StepsOf;
      Interleave(id);
      var requested: bool := *;
      Own(id, Request(id, requested));
      if !requested {
        return Failure, [Request(id, false)];
      }
      Interleave(id);
      var waited: bool := *;
      Own(id, Wait(id, waited));
      if !waited {
        return Failure, [Request(id, true), Wait(id, false)];
      }
      path := [Request(id, true), Wait(id, true)];
      if d.Some? {
        Interleave(id);
        End(id);
        path := path + [EndAttaching(id)];
      }
      r := Success(d);
    }

    /** Detaches a volume; the call's steps are `path`. */
    method DetachDisk(id: nat, node: Node, volume: Volume, devices: seq<BlockDevice>)
      returns (r: Result<Option<Device>>, ghost path: seq<Step>)
      requires Valid() && id !in sys.ops
      modifies this, cloud.Repr
      ensures Valid() && fresh(cloud.Repr - old(cloud.Repr)) && id !in sys.ops
      ensures StepsOf(steps, id) == old(StepsOf(steps, id)) + path
      ensures Detaches(path, id, node, Reported(devices), volume, r)
    {
      hide IsRun, StepsOf, Reported, DetachesOn, Mounts, Do;
      var found;
      found, path := Begin(id, false, node, volume, devices);
      if !found {
        // An instance that does not exist counts as having nothing attached.
        var gone: bool := *;
        return if gone then Success(None) else Failure, path;
      }
      Interleave(id);
      ghost var s := sys;
      var mount := Mount(id);
      ghost var step := steps[|steps| - 1];
      StageAfterMount(s, step);
      path := path + [step];
      ghost var rest;
      r, rest := DetachFrom(id, if mount.Already? then Some(mount.device) else None);
      assert (path + rest)[3..] == rest;
      path := path + rest;
    }

    /** Attaches a volume; the call's steps are `path`. */
    method AttachDisk(id: nat, node: Node, volume: Volume, readOnly: bool, devices: seq<BlockDevice>)
      returns (r: Result<Device>, ghost path: seq<Step>)
      requires Valid() && id !in sys.ops
      modifies this, cloud.Repr
      ensures Valid() && fresh(cloud.Repr - old(cloud.Repr)) && id !in sys.ops
      ensures StepsOf(steps, id) == old(StepsOf(steps, id)) + path
      ensures Attaches(path, id, node, Reported(devices), volume, readOnly, r)
    {
      hide IsRun, StepsOf, Reported, AttachesOn, Mounts, Do;
      var found;
      found, path := Begin(id, true, node, volume, devices);
      if !found {
        return Failure, path;
      }
      if readOnly {
        GoneAfterAbandon(sys, id);
        Own(id, Abandon(id));
        return Failure, path + [Abandon(id)];
      }
      Interleave(id);
      ghost var s := sys;
      var mount := Mount(id);
      ghost var step := steps[|steps| - 1];
      StageAfterMount(s, step);
      path := path + [step];
      if mount.Full? {
        return Failure, path;
      }
      ghost var rest;
      r, rest := AttachTo(id, mount.device, mount.Assigned?);
      assert (path + rest)[3..] == rest;
      path := path + rest;
    }
  }
}
