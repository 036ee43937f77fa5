/**
The ring of EBS device names: each grant is the next free name after the last one granted.
*/
module DeviceAllocators {
  import opened Options

  type Device = string

  const DEVICE_COUNT := 52

  /** ba..bz, ca..cz. */
  function DeviceName(i: nat): Device
    requires i < DEVICE_COUNT
  {
    [if i < 26 then 'b' else 'c', (('a' as int) + i % 26) as char]
  }

  /** The position `m` places after `last` in the ring. */
  function RingAt(last: nat, m: nat): nat
    requires last < DEVICE_COUNT && m <= DEVICE_COUNT
  {
    if last + m < DEVICE_COUNT then last + m else last + m - DEVICE_COUNT
  }

  /** The grant lies `m` places after `last`, and every place before it is taken. */
  ghost predicate FirstFreeAfter(last: nat, existing: set<Device>, m: nat) {
    && last < DEVICE_COUNT && 1 <= m <= DEVICE_COUNT
    && DeviceName(RingAt(last, m)) !in existing
    && forall k :: 1 <= k < m ==> DeviceName(RingAt(last, k)) in existing
  }

  predicate AllTaken(existing: set<Device>) {
    forall i :: 0 <= i < DEVICE_COUNT ==> DeviceName(i) in existing
  }

  /** One call: the index before, the names in use, and the distance to the grant, or 0 when
      none was free. */
  datatype Call = Call(last: nat, existing: set<Device>, distance: nat)

  ghost predicate IsCall(c: Call) {
    c.last < DEVICE_COUNT &&
    if c.distance == 0 then AllTaken(c.existing) else FirstFreeAfter(c.last, c.existing, c.distance)
  }

  function After(c: Call): nat
    requires c.last < DEVICE_COUNT && c.distance <= DEVICE_COUNT
  {
    RingAt(c.last, c.distance)
  }

  lemma DeviceNamesDiffer(i: nat, j: nat)
    requires i < DEVICE_COUNT && j < DEVICE_COUNT && DeviceName(i) == DeviceName(j)
    ensures i == j
  {
    assert DeviceName(i)[0] == DeviceName(j)[0] && DeviceName(i)[1] == DeviceName(j)[1];
  }

  class DeviceAllocator {
    var possibleDevices: seq<Device>
    var lastIndex: nat

    ghost predicate Valid()
      reads this
    {
      && |possibleDevices| == DEVICE_COUNT && lastIndex < DEVICE_COUNT
      && forall i :: 0 <= i < DEVICE_COUNT ==> possibleDevices[i] == DeviceName(i)
    }

    constructor (lastIndex: nat)
      requires lastIndex < DEVICE_COUNT
      ensures Valid() && this.lastIndex == lastIndex
      ensures forall i, j :: 0 <= i < j < DEVICE_COUNT ==> possibleDevices[i] != possibleDevices[j]
    {
      var devices: seq<Device> := [];
      var firsts := ['b', 'c'];
      for f := 0 to 2
        invariant |devices| == 26 * f
        invariant forall i :: 0 <= i < |devices| ==> devices[i] == DeviceName(i)
      {
        for i := 0 to 26
          invariant |devices| == 26 * f + i
          invariant forall j :: 0 <= j < |devices| ==> devices[j] == DeviceName(j)
        {
          var dev := [firsts[f], (('a' as int) + i) as char];
          assert dev == DeviceName(26 * f + i);
          devices := devices + [dev];
        }
      }
      possibleDevices := devices;
      this.lastIndex := lastIndex;
      new;
      forall i, j | 0 <= i < j < DEVICE_COUNT ensures possibleDevices[i] != possibleDevices[j] {
        if DeviceName(i) == DeviceName(j) {
          DeviceNamesDiffer(i, j);
        }
      }
    }

    method NextDevice(nextIndex: nat) returns (device: Device, index: nat)
      requires Valid() && 1 <= nextIndex <= DEVICE_COUNT
      ensures index == RingAt(nextIndex - 1, 1) && device == DeviceName(index)
    {
      if nextIndex < |possibleDevices| {
        return possibleDevices[nextIndex], nextIndex;
      }
      return possibleDevices[0], 0;
    }

    /** The next free name in cyclic order; fails only when all 52 are taken. */
    method GetNext(existing: set<Device>) returns (r: Option<Device>, ghost call: Call)
      requires Valid()
      modifies this`lastIndex
      ensures Valid()
      ensures IsCall(call) && call.last == old(lastIndex) && call.existing == existing && lastIndex == After(call)
      ensures r == if call.distance == 0 then None else Some(DeviceName(lastIndex))
      ensures r.None? <==> AllTaken(existing)
    {
      var foundIndex := lastIndex;
      ghost var m := 0;
      while true
        invariant Valid() && lastIndex == old(lastIndex)
        invariant 0 <= m < DEVICE_COUNT && foundIndex == RingAt(lastIndex, m)
        invariant forall k :: 1 <= k <= m ==> DeviceName(RingAt(lastIndex, k)) in existing
        decreases DEVICE_COUNT - m
      {
        var candidate;
        candidate, foundIndex := NextDevice(foundIndex + 1);
        m := m + 1;
        assert foundIndex == RingAt(lastIndex, m);
        if candidate !in existing {
          assert FirstFreeAfter(lastIndex, existing, m);
          lastIndex := foundIndex;
          return Some(candidate), Call(old(lastIndex), existing, m);
        }
        if foundIndex == lastIndex {
          forall i | 0 <= i < DEVICE_COUNT ensures DeviceName(i) in existing {
            var k := if i > lastIndex then i - lastIndex else i + DEVICE_COUNT - lastIndex;
            assert RingAt(lastIndex, k) == i;
          }
          return None, Call(lastIndex, existing, 0);
        }
      }
    }
  }

  // ---------------------------------------------------------------- runs of grants

  /** Calls on one allocator, each starting where the one before it left the index. */
  ghost predicate IsRun(calls: seq<Call>) {
    && (forall i :: 0 <= i < |calls| ==> IsCall(calls[i]))
    && (forall i :: 0 < i < |calls| ==> calls[i].last == After(calls[i - 1]))
  }

  predicate Grants(c: Call, device: nat)
    requires c.last < DEVICE_COUNT && c.distance <= DEVICE_COUNT
  {
    c.distance != 0 && After(c) == device
  }

  /** The device at that index was granted or reported in use by one of the calls (i, k]. */
  ghost predicate Visited(calls: seq<Call>, i: nat, k: nat, device: nat)
    requires IsRun(calls) && i <= k < |calls| && device < DEVICE_COUNT
  {
    exists j :: i < j <= k && (Grants(calls[j], device) || DeviceName(device) in calls[j].existing)
  }

  function Offset(from: nat, to: nat): nat
    requires from < DEVICE_COUNT && to < DEVICE_COUNT
  {
    if from <= to then to - from else to + DEVICE_COUNT - from
  }

  /** Until the ring comes back to the first device, every device passed has been visited. */
  lemma {:induction false} PassedVisited(calls: seq<Call>, i: nat, k: nat, first: nat, other: nat)
    requires IsRun(calls) && i <= k < |calls|
    requires first < DEVICE_COUNT && other < DEVICE_COUNT && first != other
    requires Grants(calls[i], first)
    ensures Visited(calls, i, k, other) || Offset(first, After(calls[k])) < Offset(first, other)
  {
    if i < k {
      PassedVisited(calls, i, k - 1, first, other);
      if Visited(calls, i, k - 1, other) {
        var j :| i < j <= k - 1 && (Grants(calls[j], other) || DeviceName(other) in calls[j].existing);
      } else {
        var c := calls[k];
        assert c.last == After(calls[k - 1]) && IsCall(c);
        var gap := Offset(first, other) - Offset(first, c.last);
        assert RingAt(c.last, gap) == other;
        if c.distance == gap {
          assert Grants(c, other);
        } else if c.distance > gap || c.distance == 0 {
          assert DeviceName(other) in c.existing;
        } else {
          assert Offset(first, After(c)) == Offset(first, c.last) + c.distance;
        }
      }
    }
  }

  /** Names are reused as late as can be: between two grants of one device, every other device
      was granted or reported in use. */
  lemma NoEarlyReuse(calls: seq<Call>, i: nat, k: nat, device: nat, other: nat)
    requires IsRun(calls) && i < k < |calls|
    requires device < DEVICE_COUNT && other < DEVICE_COUNT && device != other
    requires Grants(calls[i], device) && Grants(calls[k], device)
    ensures Visited(calls, i, k, other)
  {
    PassedVisited(calls, i, k - 1, device, other);
    if Visited(calls, i, k - 1, other) {
      var j :| i < j <= k - 1 && (Grants(calls[j], other) || DeviceName(other) in calls[j].existing);
    } else {
      var c := calls[k];
      assert c.last == After(calls[k - 1]) && IsCall(c);
      var gap := Offset(device, other) - Offset(device, c.last);
      assert RingAt(c.last, gap) == other;
      assert DeviceName(other) in c.existing;
    }
  }
}
