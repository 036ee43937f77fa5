/**
The table of cleanup processes, as a value with the operations that each take its lock
once, and as the class that updates it in place.
*/
module ProcTables {
  import opened Options

  datatype CleanupState = CSUnknown | CSNotFound | CSRunning | CSFailed | CSSucceeded

  /** The entries by PV name, and the two counters. */
  datatype Table = Table(entries: map<string, CleanupState>, succeeded: nat, failed: nat)

  datatype Stats = Stats(running: nat, succeeded: nat, failed: nat)

  predicate IsRunning(t: Table, name: string) {
    name in t.entries && t.entries[name] == CSRunning
  }

  function RunningNames(t: Table): set<string> {
    set n | n in t.entries && t.entries[n] == CSRunning
  }

  /** Records a process as started; fails while any entry is there. */
  function MarkRunning(t: Table, name: string): Result<Table> {
    if name in t.entries then Failure else Success(t.(entries := t.entries[name := CSRunning]))
  }

  /** Records the end of a process. The counter moves even when there is no entry. */
  function MarkStatus(t: Table, name: string, status: CleanupState): Table {
    var counted := t.(succeeded := t.succeeded + (if status == CSSucceeded then 1 else 0),
                      failed := t.failed + (if status == CSFailed then 1 else 0));
    if name in t.entries then counted.(entries := t.entries[name := status]) else counted
  }

  /** Takes out a finished entry and reports how it ended; fails on an unfinished one. */
  function RemoveEntry(t: Table, name: string): (Result<CleanupState>, Table) {
    if name !in t.entries then (Success(CSNotFound), t)
    else if t.entries[name] == CSRunning || t.entries[name] == CSUnknown then (Failure, t)
    else (Success(t.entries[name]), t.(entries := t.entries - {name}))
  }

  class ProcTable {
    var procTable: map<string, CleanupState>
    var succeeded: nat
    var failed: nat

    function Value(): Table
      reads this
    {
      Table(procTable, succeeded, failed)
    }

    constructor ()
      ensures Value() == Table(map[], 0, 0)
    {
      procTable, succeeded, failed := map[], 0, 0;
    }

    method IsProcessRunning(pvName: string) returns (r: bool)
      ensures r == IsRunning(Value(), pvName)
    {
      if pvName !in procTable || procTable[pvName] != CSRunning {
        return false;
      }
      return true;
    }

    method IsEmpty() returns (r: bool)
      ensures r <==> forall n :: n !in Value().entries
    {
      assert procTable == map[] || exists n :: n in procTable;
      r := |procTable| == 0;
    }

    method MarkProcessRunning(pvName: string) returns (ok: bool)
      modifies this
      ensures ok == MarkRunning(old(Value()), pvName).Success?
      ensures Value() == if ok then MarkRunning(old(Value()), pvName).value else old(Value())
    {
      if pvName in procTable {
        return false;
      }
      procTable := procTable[pvName := CSRunning];
      return true;
    }

    method MarkProcessStatus(pvName: string, status: CleanupState) returns (ok: bool)
      modifies this
      ensures Value() == MarkStatus(old(Value()), pvName, status)
      ensures ok == (pvName in old(Value()).entries)
    {
      ok := pvName in procTable;
      if ok {
        procTable := procTable[pvName := status];
      }
      if status == CSSucceeded {
        succeeded := succeeded + 1;
      } else if status == CSFailed {
        failed := failed + 1;
      }
    }

    method RemoveProcessEntry(pvName: string) returns (r: Result<CleanupState>)
      modifies this
      ensures (r, Value()) == RemoveEntry(old(Value()), pvName)
    {
      if pvName !in procTable {
        return Success(CSNotFound);
      }
      var status := procTable[pvName];
      if status == CSRunning || status == CSUnknown {
        return Failure;
      }
      procTable := procTable - {pvName};
      return Success(status);
    }

    method GetStats() returns (r: Stats)
      ensures r == Stats(|RunningNames(Value())|, succeeded, failed)
    {
      var running := 0;
      var rest := procTable.Keys;
      while rest != {}
        invariant rest <= procTable.Keys
        invariant running == |set n | n in RunningNames(Value()) && n !in rest|
      {
        var n :| n in rest;
        var before := set m | m in RunningNames(Value()) && m !in rest;
        rest := rest - {n};
        var after := set m | m in RunningNames(Value()) && m !in rest;
        if procTable[n] == CSRunning {
          assert after == before + {n};
          running := running + 1;
        } else {
          assert after == before;
        }
      }
      assert (set n | n in RunningNames(Value()) && n !in rest) == RunningNames(Value());
      return Stats(running, succeeded, failed);
    }
  }
}
