/**
Attaching EBS volumes: the map of attachments in progress and the choice of a device, as
updated in place under the lock, and the interleaving of AttachDisk and DetachDisk calls.
*/
module VolumeAttach {
  import opened Options
  import opened DeviceAllocators

  type Node = string
  type Volume = string
  type DeviceMap = map<Device, Volume>

  // ---------------------------------------------------------------- one node's choice

  /** What getMountDevice answers: no device, the device the volume already has, a new one, or
      an error because all are taken. */
  datatype Mount = Absent | Already(device: Device) | Assigned(device: Device) | Full

  /** Devices reported for the instance, overridden by the attachments in progress. */
  function Merged(info: DeviceMap, attaching: DeviceMap): DeviceMap {
    info + attaching
  }

  /** The answers getMountDevice may give, and what each does to the attachments in progress and
      to the allocator's index. A volume found on several devices may be reported on any. */
  ghost predicate Mounts(info: DeviceMap, attaching: DeviceMap, last: nat, volume: Volume, assign: bool,
                         r: Mount, attaching': DeviceMap, last': nat)
  {
    var taken := Merged(info, attaching);
    if volume in taken.Values then
      r.Already? && r.device in taken && taken[r.device] == volume && attaching' == attaching && last' == last
    else if !assign then
      r.Absent? && attaching' == attaching && last' == last
    else
      Assigns(attaching, last, taken.Keys, volume, r, attaching', last')
  }

  /** The allocator's next device is entered for the volume, if there is one. */
  ghost predicate Assigns(attaching: DeviceMap, last: nat, taken: set<Device>, volume: Volume,
                          r: Mount, attaching': DeviceMap, last': nat)
  {
    exists call :: IsCall(call) && call.last == last && call.existing == taken && last' == After(call) &&
      if call.distance == 0 then r.Full? && attaching' == attaching
      else r == Assigned(DeviceName(last')) && attaching' == attaching[DeviceName(last') := volume]
  }

  lemma GivenBy(attaching: DeviceMap, last: nat, taken: set<Device>, volume: Volume, call: Call)
    requires IsCall(call) && call.last == last && call.existing == taken
    ensures call.distance == 0 ==> Assigns(attaching, last, taken, volume, Full, attaching, After(call))
    ensures call.distance != 0 ==>
      var d := DeviceName(After(call));
      Assigns(attaching, last, taken, volume, Assigned(d), attaching[d := volume], After(call))
  {
    hide After;
  }

  /** A volume that is found nowhere gets a device that nothing uses. */
  lemma AssignedIsFree(info: DeviceMap, attaching: DeviceMap, last: nat, volume: Volume, assign: bool,
                       r: Mount, attaching': DeviceMap, last': nat)
    requires Mounts(info, attaching, last, volume, assign, r, attaching', last')
    ensures r.Assigned? ==>
      && r.device !in info && r.device !in attaching && volume !in attaching.Values
      && attaching' == attaching[r.device := volume]
    ensures !r.Assigned? ==> attaching' == attaching
  {
    if r.Assigned? {
      var taken := Merged(info, attaching);
      forall d | d in attaching ensures attaching[d] != volume {
        assert taken[d] == attaching[d];
        assert taken[d] in taken.Values;
      }
    }
  }

  // ---------------------------------------------------------------- the shared map, in place

  datatype BlockDevice = BlockDevice(name: string, volume: Volume)

  /** "ba" for "/dev/sdba" and "/dev/xvdba". */
  function TrimDevice(name: string): Device {
    var n := if "/dev/sd" <= name then name[7..] else name;
    if "/dev/xvd" <= n then n[8..] else n
  }

  /** The instance's devices; of two entries for one device the later counts. */
  function Reported(devices: seq<BlockDevice>): DeviceMap {
    if devices == [] then map[]
    else Reported(devices[..|devices| - 1])
           [TrimDevice(devices[|devices| - 1].name) := devices[|devices| - 1].volume]
  }

  method ReadDevices(devices: seq<BlockDevice>) returns (deviceMappings: DeviceMap)
    ensures deviceMappings == Reported(devices)
  {
    deviceMappings := map[];
    for i := 0 to |devices|
      invariant deviceMappings == Reported(devices[..i])
    {
      assert devices[..i + 1][..i] == devices[..i];
      var name := devices[i].name;
      if "/dev/sd" <= name {
        name := name[7..];
      }
      if "/dev/xvd" <= name {
        name := name[8..];
      }
      deviceMappings := deviceMappings[name := devices[i].volume];
    }
    assert devices[..|devices|] == devices;
  }

  class Cloud {
    var attaching: map<Node, DeviceMap>
    var deviceAllocators: map<Node, DeviceAllocator>
    ghost var Repr: set<object>

    ghost predicate Valid()
      reads this, Repr
    {
      && this in Repr
      && (forall n :: n in deviceAllocators ==> deviceAllocators[n] in Repr && deviceAllocators[n].Valid())
      && (forall n, m :: n in deviceAllocators && m in deviceAllocators && n != m ==>
            deviceAllocators[n] != deviceAllocators[m])
    }

    function AttachingOn(node: Node): DeviceMap
      reads this
    {
      if node in attaching then attaching[node] else map[]
    }

    /** A node's first allocator starts at index 0. */
    function LastOn(node: Node): nat
      reads this, deviceAllocators.Values
    {
      if node in deviceAllocators then deviceAllocators[node].lastIndex else 0
    }

    constructor ()
      ensures Valid() && fresh(Repr) && attaching == map[] && deviceAllocators == map[]
    {
      attaching, deviceAllocators := map[], map[];
      Repr := {this};
    }

    method GetMountDevice(node: Node, devices: seq<BlockDevice>, volume: Volume, assign: bool) returns (r: Mount)
      requires Valid()
      modifies Repr
      ensures Valid() && fresh(Repr - old(Repr))
      ensures Mounts(Reported(devices), old(AttachingOn(node)), old(LastOn(node)), volume, assign,
                     r, AttachingOn(node), LastOn(node))
      ensures forall n :: n != node ==> AttachingOn(n) == old(AttachingOn(n)) && LastOn(n) == old(LastOn(n))
    {
      hide Reported, Mounts;
      var info := ReadDevices(devices);
      r := MountDevice(node, info, volume, assign);
    }

    /** The part of getMountDevice that holds the lock. */
    method MountDevice(node: Node, info: DeviceMap, volume: Volume, assign: bool) returns (r: Mount)
      requires Valid()
      modifies Repr
      ensures Valid() && fresh(Repr - old(Repr))
      ensures Mounts(info, old(AttachingOn(node)), old(LastOn(node)), volume, assign, r, AttachingOn(node), LastOn(node))
      ensures forall n :: n != node ==> AttachingOn(n) == old(AttachingOn(n)) && LastOn(n) == old(LastOn(n))
    {
      hide Assigns;
      var deviceMappings := info;
      if node in attaching {
        deviceMappings := deviceMappings + attaching[node];
      }
      assert deviceMappings == Merged(info, AttachingOn(node));
      if volume in deviceMappings.Values {
        var device :| device in deviceMappings && deviceMappings[device] == volume;
        return Already(device);
      }
      if !assign {
        return Absent;
      }
      r := AssignDevice(node, deviceMappings.Keys, volume);
    }

    /** Enters the volume under the next device that is not taken. */
    method AssignDevice(node: Node, taken: set<Device>, volume: Volume) returns (r: Mount)
      requires Valid()
      modifies Repr
      ensures Valid() && fresh(Repr - old(Repr))
      ensures Assigns(old(AttachingOn(node)), old(LastOn(node)), taken, volume, r, AttachingOn(node), LastOn(node))
      ensures forall n :: n != node ==> AttachingOn(n) == old(AttachingOn(n)) && LastOn(n) == old(LastOn(n))
    {
      hide IsCall, Assigns, After;
      EnsureAllocator(node);
      ghost var last := LastOn(node);
      var chosen, call := Allocate(node, taken);
      var entries := if node in attaching then attaching[node] else map[];
      if chosen.None? {
        GivenBy(entries, last, taken, volume, call);
        return Full;
      }
      attaching := attaching[node := entries[chosen.value := volume]];
      GivenBy(entries, last, taken, volume, call);
      return Assigned(chosen.value);
    }

    method Allocate(node: Node, taken: set<Device>) returns (chosen: Option<Device>, ghost call: Call)
      requires Valid() && node in deviceAllocators
      modifies deviceAllocators[node]
      ensures Valid()
      ensures IsCall(call) && call.last == old(LastOn(node)) && call.existing == taken && LastOn(node) == After(call)
      ensures chosen == if call.distance == 0 then None else Some(DeviceName(LastOn(node)))
      ensures forall n :: n != node ==> LastOn(n) == old(LastOn(n))
    {
      hide IsCall, AllTaken, After;
      chosen, call := deviceAllocators[node].GetNext(taken);
    }

    method EnsureAllocator(node: Node)
      requires Valid()
      modifies this`deviceAllocators, this`Repr
      ensures Valid() && fresh(Repr - old(Repr)) && node in deviceAllocators
      ensures deviceAllocators == old(deviceAllocators)[node := deviceAllocators[node]]
      ensures node in old(deviceAllocators) ==> deviceAllocators[node] == old(deviceAllocators)[node]
      ensures node !in old(deviceAllocators) ==> fresh(deviceAllocators[node]) && deviceAllocators[node].lastIndex == 0
    {
      if node !in deviceAllocators {
        var allocator := new DeviceAllocator(0);
        deviceAllocators := deviceAllocators[node := allocator];
        Repr := Repr + {allocator};
      }
    }

    /** Removes the entry, if it is still this volume's. */
    method EndAttaching(node: Node, volume: Volume, device: Device) returns (ended: bool)
      requires Valid()
      modifies this`attaching
      ensures Valid()
      ensures ended == (device in old(AttachingOn(node)) && old(AttachingOn(node))[device] == volume)
      ensures AttachingOn(node) == if ended then old(AttachingOn(node)) - {device} else old(AttachingOn(node))
      ensures forall n :: n != node ==> AttachingOn(n) == old(AttachingOn(n))
    {
      if node !in attaching || device !in attaching[node] {
        return false;
      }
      if attaching[node][device] != volume {
        return false;
      }
      attaching := attaching[node := attaching[node] - {device}];
      return true;
    }
  }
}
