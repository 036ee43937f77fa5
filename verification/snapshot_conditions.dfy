/**
The condition histories of a VolumeSnapshot and its VolumeSnapshotData. An update appends to the
history or overwrites its last entry, writes the VolumeSnapshot and then carries the condition
over to the VolumeSnapshotData. Every read and write of the API server may fail, and a write that
failed may have happened all the same.
*/
module SnapshotConditions {
  import opened Options

  datatype Kind = Pending | Ready | Error

  datatype Status = True | False | Unknown

  datatype Condition = Condition(kind: Kind, status: Status, reason: string, message: string, time: int)

  function Last(h: seq<Condition>): Condition
    requires h != []
  {
    h[|h| - 1]
  }

  /** A history after one more report. */
  function Merge(h: seq<Condition>, c: Condition): seq<Condition> {
    if h == [] || c.kind != Last(h).kind then h + [c]
    else h[..|h| - 1] + [if c.status == Last(h).status then c.(time := Last(h).time) else c]
  }

  /** Conditions of a VolumeSnapshotData are written without a reason. */
  function WithoutReason(c: Condition): Condition {
    c.(reason := "")
  }

  /** The stored objects; `created` is the VolumeSnapshotData's creation timestamp. */
  datatype Objects = Objects(snapshot: seq<Condition>, data: seq<Condition>, created: Option<int>)

  /** The VolumeSnapshotData after carrying `c` over. */
  function Propagated(o: Objects, c: Condition): Objects {
    var data := Merge(o.data, WithoutReason(c));
    if data == o.data then o
    else o.(data := data, created := if o.created.None? && c.kind.Ready? then Some(Last(data).time) else o.created)
  }

  /** The objects after an update in which no access failed. */
  function Updated(o: Objects, c: Condition): Objects {
    var h := Merge(o.snapshot, c);
    if h == o.snapshot then o else Propagated(o.(snapshot := h), Last(h))
  }

  /** The objects after an update in which some access may have failed. */
  predicate MayBecome(o: Objects, c: Condition, o': Objects) {
    || o' == o
    || o' == o.(snapshot := Merge(o.snapshot, c))
    || o' == Updated(o, c)
  }

  class ApiServer {
    var objects: Objects

    constructor (objects: Objects)
      ensures this.objects == objects
    {
      this.objects := objects;
    }

    /** One write: told to have succeeded, it has happened. */
    method Put(written: Objects) returns (ok: bool)
      modifies this
      ensures ok ==> objects == written
      ensures objects == written || objects == old(objects)
    {
      var happened: bool := *;
      var told: bool := *;
      if happened {
        objects := written;
      }
      ok := happened && told;
    }

    method PropagateVolumeSnapshotCondition(condition: Condition) returns (ok: bool)
      modifies this
      ensures ok ==> objects == Propagated(old(objects), condition)
      ensures objects == old(objects) || objects == Propagated(old(objects), condition)
    {
      var got: bool := *;
      if !got {
        return false;
      }
      var newCondition := WithoutReason(condition);
      var conditions := objects.data;
      var isEqual := false;
      if conditions == [] || newCondition.kind != Last(conditions).kind {
        conditions := conditions + [newCondition];
      } else {
        var oldCondition := Last(conditions);
        if newCondition.status == oldCondition.status {
          newCondition := newCondition.(time := oldCondition.time);
        }
        conditions := conditions[|conditions| - 1 := newCondition];
        isEqual := newCondition == oldCondition;
      }
      assert conditions == Merge(objects.data, WithoutReason(condition));
      assert isEqual <==> conditions == objects.data;
      if isEqual {
        return true;
      }
      var created := objects.created;
      if created.None? && newCondition.kind.Ready? {
        created := Some(newCondition.time);
      }
      ok := Put(objects.(data := conditions, created := created));
    }

    method UpdateVolumeSnapshotStatus(condition: Condition) returns (ok: bool)
      modifies this
      ensures ok ==> objects == Updated(old(objects), condition)
      ensures MayBecome(old(objects), condition, objects)
    {
      var got: bool := *;
      if !got {
        return false;
      }
      var newCondition := condition;
      var conditions := objects.snapshot;
      var isEqual := false;
      if conditions == [] || newCondition.kind != Last(conditions).kind {
        conditions := conditions + [newCondition];
      } else {
        var oldCondition := Last(conditions);
        if newCondition.status == oldCondition.status {
          newCondition := newCondition.(time := oldCondition.time);
        }
        conditions := conditions[|conditions| - 1 := newCondition];
        isEqual := newCondition == oldCondition;
      }
      assert conditions == Merge(objects.snapshot, condition);
      assert isEqual <==> conditions == objects.snapshot;
      if isEqual {
        return true;
      }
      ok := Put(objects.(snapshot := conditions));
      if ok {
        ok := PropagateVolumeSnapshotCondition(Last(conditions));
      }
    }

    /** Waits for the snapshot through the given answers of the plugin, each the last condition it
        reports or none when the query failed, and stops at the first that is ready or an error.
        `updated` is the answer of the last update: where it fails for a snapshot that is ready, the
        operation breaks down, and the snapshot does not count as created. */
    method WaitForSnapshot(described: seq<Option<Condition>>)
      returns (r: Waited, seen: nat, updated: bool, ghost run: seq<Objects>)
      modifies this
      ensures seen <= |described| && IsRun(run, Reports(described[..seen]))
      ensures run != [] && run[0] == old(objects) && Latest(run) == objects
      ensures Undecided(described, if r.TimedOut? then |described| else seen - 1)
      ensures r.TimedOut? ==> seen == |described|
      ensures !r.TimedOut? ==> seen > 0 && described[seen - 1].Some?
      ensures r.Failed? ==> described[seen - 1].value.kind.Error?
      ensures r.Created? || r.Panicked? ==> IsReady(described[seen - 1].value)
      ensures r.Created? || r.Panicked? ==> (r.Created? <==> updated)
      ensures !r.TimedOut? && updated ==> |run| > 1 && objects == Updated(run[|run| - 2], described[seen - 1].value)
    {
      hide Updated, MayBecome, IsRun, Reports;
      RunStarted(objects);
      assert described[..0] == [];
      run, seen, updated := [objects], 0, false;
      while seen < |described|
        invariant seen <= |described| && IsRun(run, Reports(described[..seen]))
        invariant run != [] && run[0] == old(objects) && Latest(run) == objects
        invariant Undecided(described, seen)
      {
        OneMoreReport(described, seen);
        if described[seen].Some? {
          var condition := described[seen].value;
          updated := UpdateVolumeSnapshotStatus(condition);
          RunExtended(run, Reports(described[..seen]), condition, objects);
          run := run + [objects];
          if IsReady(condition) {
            return if updated then Created else Panicked, seen + 1, updated, run;
          } else if condition.kind.Error? {
            return Failed, seen + 1, updated, run;
          }
        }
        seen := seen + 1;
      }
      r := TimedOut;
    }
  }

  /** The conditions among the answers. */
  function Reports(described: seq<Option<Condition>>): seq<Condition> {
    if described == [] then []
    else
      var last := described[|described| - 1];
      Reports(described[..|described| - 1]) + if last.Some? then [last.value] else []
  }

  /** None of the first `n` answers ends the wait. */
  predicate Undecided(described: seq<Option<Condition>>, n: int) {
    && n <= |described|
    && forall i :: 0 <= i < n && described[i].Some? ==> !IsReady(described[i].value) && !described[i].value.kind.Error?
  }

  datatype Waited = Created | Failed | Panicked | TimedOut

  predicate IsReady(c: Condition) {
    c.kind.Ready? && c.status.True?
  }

  // ---------------------------------------------------------------- runs

  function Latest(run: seq<Objects>): Objects
    requires run != []
  {
    run[|run| - 1]
  }

  predicate IsRun(run: seq<Objects>, reports: seq<Condition>) {
    && |run| == |reports| + 1
    && forall i :: 0 <= i < |reports| ==> MayBecome(run[i], reports[i], run[i + 1])
  }

  lemma RunStarted(o: Objects)
    ensures IsRun([o], Reports([]))
  {}

  lemma OneMoreReport(described: seq<Option<Condition>>, i: nat)
    requires i < |described|
    ensures described[i].Some? ==> Reports(described[..i + 1]) == Reports(described[..i]) + [described[i].value]
    ensures described[i].None? ==> Reports(described[..i + 1]) == Reports(described[..i])
  {
    assert described[..i + 1][..i] == described[..i];
  }

  lemma RunExtended(run: seq<Objects>, reports: seq<Condition>, c: Condition, o: Objects)
    requires IsRun(run, reports) && MayBecome(Latest(run), c, o)
    ensures IsRun(run + [o], reports + [c])
  {
    hide MayBecome;
  }

  predicate NeighboursDiffer(h: seq<Condition>) {
    forall i :: 0 < i < |h| ==> h[i - 1].kind != h[i].kind
  }

  /** `h` has become `h'`: it has kept all but its last entry, and that one's type. */
  predicate Extends(h: seq<Condition>, h': seq<Condition>) {
    && 0 < |h| <= |h'|
    && h'[..|h| - 1] == h[..|h| - 1]
    && h'[|h| - 1].kind == Last(h).kind
  }

  /** An entry's transition time moves only when its status does. */
  predicate TimesKept(h: seq<Condition>, h': seq<Condition>) {
    |h| <= |h'| && forall i :: 0 <= i < |h| && h'[i].time != h[i].time ==> h'[i].status != h[i].status
  }

  lemma MergeExtends(h: seq<Condition>, c: Condition)
    requires h != [] && NeighboursDiffer(h)
    ensures NeighboursDiffer(Merge(h, c)) && Extends(h, Merge(h, c)) && TimesKept(h, Merge(h, c))
    ensures Last(Merge(h, c)).kind == c.kind && Last(Merge(h, c)).status == c.status
  {
    var h' := Merge(h, c);
    assert forall i :: 0 <= i < |h| - 1 ==> h'[i] == h[i];
  }

  predicate WellFormed(o: Objects) {
    o.snapshot != [] && o.data != [] && NeighboursDiffer(o.snapshot) && NeighboursDiffer(o.data)
  }

  /** What one update, failed or not, makes of each history. */
  lemma UpdateExtends(o: Objects, c: Condition, o': Objects)
    requires WellFormed(o) && MayBecome(o, c, o')
    ensures WellFormed(o')
    ensures Extends(o.snapshot, o'.snapshot) && TimesKept(o.snapshot, o'.snapshot)
    ensures Extends(o.data, o'.data) && TimesKept(o.data, o'.data)
    ensures o.created.Some? ==> o'.created == o.created
  {
    MergeExtends(o.snapshot, c);
    MergeExtends(o.data, WithoutReason(Last(Merge(o.snapshot, c))));
  }

  lemma ExtendsTransitive(a: seq<Condition>, b: seq<Condition>, c: seq<Condition>)
    requires Extends(a, b) && Extends(b, c) && NeighboursDiffer(b)
    ensures Extends(a, c)
  {
    assert c[..|b| - 1] == b[..|b| - 1];
    assert a[..|a| - 1] == b[..|a| - 1];
    if |a| < |b| {
      assert c[|a| - 1] == c[..|b| - 1][|a| - 1] == b[|a| - 1];
    }
    assert c[..|a| - 1] == c[..|b| - 1][..|a| - 1] == b[..|a| - 1];
  }

  /** Over any run, whatever failed: only the last condition of either history is ever rewritten,
      and never its type; neighbours never share a type; from one update to the next a time moves
      only with its status; and a creation timestamp once set stays. */
  lemma {:induction false} HistoryRuns(run: seq<Objects>, reports: seq<Condition>, i: nat, j: nat)
    requires IsRun(run, reports) && WellFormed(run[0]) && i <= j < |run|
    ensures WellFormed(run[i]) && WellFormed(run[j])
    ensures Extends(run[i].snapshot, run[j].snapshot) && Extends(run[i].data, run[j].data)
    ensures run[i].created.Some? ==> run[j].created == run[i].created
    ensures j == i + 1 ==> TimesKept(run[i].snapshot, run[j].snapshot) && TimesKept(run[i].data, run[j].data)
    decreases j
  {
    hide MayBecome, NeighboursDiffer, Extends, TimesKept;
    if j == 0 {
      ExtendsSelf(run[0].snapshot);
      ExtendsSelf(run[0].data);
    } else if i == j {
      HistoryRuns(run, reports, j - 1, j - 1);
      UpdateExtends(run[j - 1], reports[j - 1], run[j]);
      ExtendsSelf(run[j].snapshot);
      ExtendsSelf(run[j].data);
    } else {
      HistoryRuns(run, reports, i, j - 1);
      UpdateExtends(run[j - 1], reports[j - 1], run[j]);
      ExtendsTransitive(run[i].snapshot, run[j - 1].snapshot, run[j].snapshot);
      ExtendsTransitive(run[i].data, run[j - 1].data, run[j].data);
    }
  }

  lemma ExtendsSelf(h: seq<Condition>)
    requires h != []
    ensures Extends(h, h)
  {}

  /** The same type and status. */
  predicate Alike(c: Condition, d: Condition) {
    c.kind == d.kind && c.status == d.status
  }

  /** `part` is, in types and statuses, a suffix of `h`. */
  predicate IsSuffix(part: seq<Condition>, h: seq<Condition>) {
    && 0 < |part| <= |h|
    && forall i :: 0 <= i < |part| ==> Alike(part[i], h[|h| - |part| + i])
  }

  lemma MergeKeepsSuffix(part: seq<Condition>, h: seq<Condition>, c: Condition, d: Condition)
    requires IsSuffix(part, h) && Alike(c, d)
    ensures IsSuffix(Merge(part, d), Merge(h, c))
  {
    var part', h' := Merge(part, d), Merge(h, c);
    assert Alike(Last(part), Last(h));
    assert |h'| - |part'| == |h| - |part|;
    var k := |h| - |part|;
    forall i | 0 <= i < |part'| ensures Alike(part'[i], h'[k + i]) {
      if i < |part| - 1 {
        assert part'[i] == part[i] && h'[k + i] == h[k + i];
      } else if i < |part'| - 1 {
        assert part'[i] == part[i] && h'[k + i] == h[k + i];
      }
    }
  }

  lemma UpdateKeepsSuffix(o: Objects, c: Condition)
    requires IsSuffix(o.data, o.snapshot)
    ensures IsSuffix(Updated(o, c).data, Updated(o, c).snapshot)
  {
    var last := Last(Merge(o.snapshot, c));
    hide IsSuffix;
    MergeKeepsSuffix(o.data, o.snapshot, c, WithoutReason(last)) by {
      assert last.kind == c.kind && last.status == c.status;
    }
  }

  /** While no access fails, the VolumeSnapshotData's history stays a suffix of the VolumeSnapshot's. */
  lemma {:induction false} DataFollowsSnapshot(run: seq<Objects>, reports: seq<Condition>, j: nat)
    requires |run| == |reports| + 1 && j < |run| && IsSuffix(run[0].data, run[0].snapshot)
    requires forall i :: 0 <= i < |reports| ==> run[i + 1] == Updated(run[i], reports[i])
    ensures IsSuffix(run[j].data, run[j].snapshot)
  {
    hide IsSuffix, Updated;
    if j > 0 {
      DataFollowsSnapshot(run, reports, j - 1);
      UpdateKeepsSuffix(run[j - 1], reports[j - 1]);
      assert run[j - 1 + 1] == Updated(run[j - 1], reports[j - 1]);
    }
  }

  /** How a snapshot starts out: the plugin's conditions on the VolumeSnapshot and the last of
      them, with a time of its own, on the VolumeSnapshotData. */
  lemma Started(conditions: seq<Condition>, now: int)
    requires conditions != [] && NeighboursDiffer(conditions)
    ensures
      var o := Objects(conditions, [WithoutReason(Last(conditions)).(time := now)], None);
      WellFormed(o) && IsSuffix(o.data, o.snapshot)
  {}

  /** When a change is written to the VolumeSnapshot alone, the suffix is kept exactly if the
      report has the type and status that the last condition had. */
  lemma SuffixWithoutPropagation(o: Objects, c: Condition)
    requires IsSuffix(o.data, o.snapshot)
    ensures IsSuffix(o.data, Merge(o.snapshot, c)) <==> Alike(c, Last(o.snapshot))
  {
    var h, h' := o.snapshot, Merge(o.snapshot, c);
    var n := |o.data|;
    assert Alike(o.data[n - 1], h[|h| - n + (n - 1)]);
    if Alike(c, Last(h)) {
      assert |h'| == |h| && forall i :: 0 <= i < |h| ==> Alike(h'[i], h[i]);
    } else {
      assert Alike(Last(h'), c);
      assert !Alike(o.data[n - 1], h'[|h'| - n + (n - 1)]);
    }
  }

  // ---------------------------------------------------------------- a change that is not carried over

  /** The objects after a change that was written to the VolumeSnapshot alone. */
  function Lost(o: Objects, b: Condition): Objects {
    o.(snapshot := Merge(o.snapshot, b))
  }

  function Front(h: seq<Condition>): seq<Condition>
    requires h != []
  {
    h[..|h| - 1]
  }

  /** The report `c` makes up for `b`, which was not carried over: it is a further change of that
      condition, or takes the VolumeSnapshotData's last condition away, which hides the gap if all
      before it is in order. */
  predicate MakesUp(o: Objects, b: Condition, c: Condition)
    requires o.snapshot != [] && o.data != []
  {
    var h := Lost(o, b).snapshot;
    if c.kind == b.kind then Merge(h, c) != h
    else
      && b.kind != Last(o.snapshot).kind && c.kind == Last(o.data).kind
      && (Front(o.data) == [] || IsSuffix(Front(o.data), h))
  }

  lemma LostIsNoSuffix(o: Objects, b: Condition)
    requires IsSuffix(o.data, o.snapshot) && !Alike(b, Last(o.snapshot))
    ensures MayBecome(o, b, Lost(o, b)) && !IsSuffix(o.data, Lost(o, b).snapshot) && Last(Lost(o, b).snapshot) == b
  {
    SuffixWithoutPropagation(o, b);
  }

  /** Reporting the same again succeeds and carries nothing over. */
  lemma RepeatSkips(o: Objects, b: Condition)
    requires IsSuffix(o.data, o.snapshot) && !Alike(b, Last(o.snapshot))
    ensures Updated(Lost(o, b), b) == Lost(o, b)
  {
    LostIsNoSuffix(o, b);
    var h := Lost(o, b).snapshot;
    assert Merge(h, b) == h;
  }

  /** The histories agree in their last conditions, but not before. */
  predicate IsSplit(part: seq<Condition>, h: seq<Condition>) {
    && 0 < |part| <= |h| && Alike(Last(part), Last(h))
    && exists i :: 0 <= i < |part| - 1 && !Alike(part[i], h[|h| - |part| + i])
  }

  lemma SplitStays(o: Objects, c: Condition)
    requires IsSplit(o.data, o.snapshot)
    ensures IsSplit(Updated(o, c).data, Updated(o, c).snapshot)
  {
    var i :| 0 <= i < |o.data| - 1 && !Alike(o.data[i], o.snapshot[|o.snapshot| - |o.data| + i]);
    var o' := Updated(o, c);
    assert |o'.snapshot| - |o'.data| == |o.snapshot| - |o.data|;
    assert o'.data[i] == o.data[i] && o'.snapshot[|o.snapshot| - |o.data| + i] == o.snapshot[|o.snapshot| - |o.data| + i];
  }

  lemma SplitIsNoSuffix(part: seq<Condition>, h: seq<Condition>)
    requires IsSplit(part, h)
    ensures !IsSuffix(part, h)
  {}

  /** With one more condition on both sides, what was before it decides. */
  lemma OneMoreDecides(part: seq<Condition>, h: seq<Condition>, d: Condition, c: Condition)
    requires |part| <= |h| && Alike(d, c)
    ensures if part == [] || IsSuffix(part, h) then IsSuffix(part + [d], h + [c]) else IsSplit(part + [d], h + [c])
  {
    var part', h' := part + [d], h + [c];
    var k := |h| - |part|;
    if part == [] || IsSuffix(part, h) {
      forall i | 0 <= i < |part'| ensures Alike(part'[i], h'[k + i]) {
        assert i < |part| ==> Alike(part[i], h[k + i]);
      }
    } else {
      var i :| 0 <= i < |part| && !Alike(part[i], h[k + i]);
      assert part'[i] == part[i] && h'[k + i] == h[k + i];
    }
  }

  lemma FrontSuffix(part: seq<Condition>, h: seq<Condition>)
    requires IsSuffix(part, h)
    ensures Alike(Last(part), Last(h)) && (Front(part) == [] || IsSuffix(Front(part), Front(h)))
  {
    var k := |h| - |part|;
    assert Alike(part[|part| - 1], h[k + (|part| - 1)]);
    forall i | 0 <= i < |part| - 1 ensures Alike(Front(part)[i], Front(h)[k + i]) {
      assert Alike(part[i], h[k + i]);
    }
  }

  /** A change of the same condition is carried over whole. */
  lemma SameKindMakesUp(o: Objects, b: Condition, c: Condition)
    requires IsSuffix(o.data, o.snapshot) && !Alike(b, Last(o.snapshot)) && c.kind == b.kind
    requires Merge(Lost(o, b).snapshot, c) != Lost(o, b).snapshot
    ensures IsSuffix(Updated(Lost(o, b), c).data, Updated(Lost(o, b), c).snapshot)
  {
    LostIsNoSuffix(o, b);
    FrontSuffix(o.data, o.snapshot);
    var last := Last(Merge(Lost(o, b).snapshot, c));
    var d := Last(Merge(o.data, WithoutReason(last)));
    hide IsSuffix;
    if b.kind != Last(o.snapshot).kind {
      assert Front(o.snapshot + [b]) == o.snapshot;
      OneMoreDecides(o.data, o.snapshot, d, last);
    } else {
      assert Front(Front(o.snapshot) + [b]) == Front(o.snapshot);
      OneMoreDecides(Front(o.data), Front(o.snapshot), d, last);
    }
  }

  /** Another condition settles it, for good or ill. */
  lemma OtherKindDecides(o: Objects, b: Condition, c: Condition)
    requires IsSuffix(o.data, o.snapshot) && !Alike(b, Last(o.snapshot)) && c.kind != b.kind
    ensures
      var o' := Updated(Lost(o, b), c);
      if MakesUp(o, b, c) then IsSuffix(o'.data, o'.snapshot) else IsSplit(o'.data, o'.snapshot)
  {
    LostIsNoSuffix(o, b);
    FrontSuffix(o.data, o.snapshot);
    var h := Lost(o, b).snapshot;
    var d := Last(Merge(o.data, WithoutReason(c)));
    assert |o.data| <= |h| && Alike(d, c);
    hide IsSuffix, IsSplit;
    OneMoreDecides(if c.kind == Last(o.data).kind then Front(o.data) else o.data, h, d, c);
  }

  lemma ChangeDecides(o: Objects, b: Condition, c: Condition)
    requires IsSuffix(o.data, o.snapshot) && !Alike(b, Last(o.snapshot))
    requires Merge(Lost(o, b).snapshot, c) != Lost(o, b).snapshot
    ensures
      var o' := Updated(Lost(o, b), c);
      if MakesUp(o, b, c) then IsSuffix(o'.data, o'.snapshot) else IsSplit(o'.data, o'.snapshot)
  {
    if c.kind == b.kind {
      SameKindMakesUp(o, b, c);
    } else {
      OtherKindDecides(o, b, c);
    }
  }

  lemma SameAgain(o: Objects, c: Condition)
    requires Merge(o.snapshot, c) == o.snapshot
    ensures Updated(o, c) == o
  {}

  /** What becomes of the histories after such a loss, however many updates follow in which no access
      fails: nothing, as long as the same is reported; and the first report of anything else decides
      once and for all whether they agree again. */
  lemma {:induction false} FirstChangeDecides(o: Objects, b: Condition, run: seq<Objects>, reports: seq<Condition>,
                                              k: nat, j: nat)
    requires IsSuffix(o.data, o.snapshot) && !Alike(b, Last(o.snapshot))
    requires |run| == |reports| + 1 && j < |run| && k <= |reports| && run[0] == Lost(o, b)
    requires forall i :: 0 <= i < |reports| ==> run[i + 1] == Updated(run[i], reports[i])
    requires forall i :: 0 <= i < k ==> Merge(run[0].snapshot, reports[i]) == run[0].snapshot
    requires k < |reports| ==> Merge(run[0].snapshot, reports[k]) != run[0].snapshot
    ensures j <= k ==> run[j] == run[0]
    ensures IsSuffix(run[j].data, run[j].snapshot) <==> j > k && MakesUp(o, b, reports[k])
    ensures j > k && !MakesUp(o, b, reports[k]) ==> IsSplit(run[j].data, run[j].snapshot)
  {
    LostIsNoSuffix(o, b);
    hide IsSuffix, IsSplit, MakesUp, Alike, Updated, Merge, Lost;
    if j > 0 {
      FirstChangeDecides(o, b, run, reports, k, j - 1);
      var c := reports[j - 1];
      assert run[j - 1 + 1] == Updated(run[j - 1], c);
      if j - 1 < k {
        SameAgain(run[0], c);
      } else if j - 1 == k {
        ChangeDecides(o, b, c);
      } else if MakesUp(o, b, reports[k]) {
        UpdateKeepsSuffix(run[j - 1], c);
      } else {
        SplitStays(run[j - 1], c);
      }
      if IsSplit(run[j].data, run[j].snapshot) {
        SplitIsNoSuffix(run[j].data, run[j].snapshot);
      }
    }
  }
}
