/**
 * sys_debug_transfer_handle: move a handle out of the calling process's
 * table into the table of another process.
 */
module HandleTransfer {
  import opened KernelObjects

  /** The handles of a table that refer to object o. */
  function Holders(t: HandleTable, o: Obj): set<Handle> {
    set h | h in t && t[h].obj == o
  }

  /** How many handles of a table refer to object o. */
  function RefCount(t: HandleTable, o: Obj): nat {
    |Holders(t, o)|
  }

  /**
   * Moving one handle from one table to a free value of another leaves the
   * number of handles to every object, summed over both tables, as it was:
   * no reference is lost or duplicated.
   */
  lemma MoveKeepsRefCount(from: HandleTable, to: HandleTable, src: Handle, hv: Handle, o: Obj)
    requires src in from && hv !in to
    ensures RefCount(from - {src}, o) + RefCount(to[hv := from[src]], o) == RefCount(from, o) + RefCount(to, o)
  {
    RemoveHolder(from, src, o);
    AddHolder(to, hv, from[src], o);
  }

  /** Removing a handle drops it from the holders of its object, and only there. */
  lemma RemoveHolder(t: HandleTable, h: Handle, o: Obj)
    requires h in t
    ensures RefCount(t - {h}, o) == if t[h].obj == o then RefCount(t, o) - 1 else RefCount(t, o)
  {
    var before, after := Holders(t, o), Holders(t - {h}, o);
    if t[h].obj == o {
      assert after == before - {h};
    } else {
      assert after == before;
    }
  }

  /** Adding a handle under a free value makes it a holder of its object, and only there. */
  lemma AddHolder(t: HandleTable, h: Handle, e: HandleEntry, o: Obj)
    requires h !in t
    ensures RefCount(t[h := e], o) == if e.obj == o then RefCount(t, o) + 1 else RefCount(t, o)
  {
    var before, after := Holders(t, o), Holders(t[h := e], o);
    if e.obj == o {
      assert after == before + {h};
    } else {
      assert after == before;
    }
  }

  /** Every process the caller holds a handle to keeps its table invariant. */
  ghost predicate TargetsValid(up: Process)
    reads up, TargetProcesses(up.handles)
  {
    forall p :: p in TargetProcesses(up.handles) ==> p.Valid()
  }

  /**
   * sys_debug_transfer_handle. The destination must be a process handle with
   * READ and WRITE rights, and not the caller itself; then the source handle
   * is removed from the caller's table (failing if it is not there) and added
   * to the destination's table under a new value, which is returned.
   * Every failure leaves both tables as they were.
   */
  method DebugTransferHandle(up: Process, proc: Handle, src: Handle) returns (r: int)
    requires up.Valid() && TargetsValid(up)
    modifies up, TargetProcesses(up.handles)
    ensures up.Valid() && TargetsValid(up)
    ensures var d := GetDispatcher(old(up.handles), proc, ProcessKind, {Read, Write});
      && (d.Err? ==> r == d.status)
      && (d.Ok? && d.value.process == up ==> r == ERR_INVALID_ARGS)
      && (d.Ok? && d.value.process != up && src !in old(up.handles) ==> r == ERR_BAD_HANDLE)
      && (d.Ok? && d.value.process != up && src in old(up.handles) ==> r > 0)
    ensures r <= 0 ==> r < 0 && unchanged(up) && unchanged(TargetProcesses(old(up.handles)))
    ensures r > 0 ==>
      var dest := GetDispatcher(old(up.handles), proc, ProcessKind, {Read, Write}).value.process;
      && dest != up
      && src in old(up.handles)
      && up.handles == old(up.handles) - {src}
      && r == old(dest.nextHandle) && r !in old(dest.handles)
      && dest.handles == old(dest.handles)[r := old(up.handles)[src]]
      && (forall o :: RefCount(up.handles, o) + RefCount(dest.handles, o)
                     == RefCount(old(up.handles), o) + RefCount(old(dest.handles), o))
      && dest.nextHandle == old(dest.nextHandle) + 1
      && up.aspace == old(up.aspace) && up.nextHandle == old(up.nextHandle)
      && dest.aspace == old(dest.aspace)
      && unchanged(TargetProcesses(old(up.handles)) - {dest, up})
  {
    var d := GetDispatcher(up.handles, proc, ProcessKind, {Read, Write});
    if d.Err? {
      return d.status;
    }
    var process := d.value.process;
    // The destination must be another process.
    if process == up {
      return ERR_INVALID_ARGS;
    }
    if src !in up.handles {  // RemoveHandle finds nothing
      return ERR_BAD_HANDLE;
    }
    var entry := up.handles[src];
    ghost var from, to := up.handles, process.handles;
    up.handles := up.handles - {src};
    var destValue := process.nextHandle;  // MapHandleToValue
    process.handles := process.handles[destValue := entry];
    process.nextHandle := process.nextHandle + 1;
    forall o
      ensures RefCount(up.handles, o) + RefCount(process.handles, o) == RefCount(from, o) + RefCount(to, o)
    {
      MoveKeepsRefCount(from, to, src, destValue, o);
    }
    r := destValue;
  }
}
