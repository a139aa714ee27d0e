/**
 * sys_process_read_memory and sys_process_write_memory: read or write the
 * memory of a process through the VM object that backs the region holding
 * the address.
 */
module ProcessMemory {
  import opened KernelObjects

  /** kMaxDebugReadBlock and kMaxDebugWriteBlock: 64 MiB each. */
  const MAX_DEBUG_READ_BLOCK: nat := 64 * 1024 * 1024
  const MAX_DEBUG_WRITE_BLOCK: nat := 64 * 1024 * 1024

  /** The checks made before any handle is looked up: a buffer, and a length in 1..max. */
  function CheckBuffer(buffer: UserPtr, len: uint64, max: nat): (status: int)
    ensures status == NO_ERROR <==> buffer.UserRange? && 0 < len <= max
    ensures status != NO_ERROR ==> status == ERR_INVALID_ARGS
  {
    if buffer.Null? then ERR_INVALID_ARGS
    else if len == 0 || len > max then ERR_INVALID_ARGS
    else NO_ERROR
  }

  predicate Contains(g: Region, vaddr: int) {
    g.base <= vaddr < g.base + g.size
  }

  /** VmAspace::FindRegion: the first region of the address space that holds the address. */
  function FindRegion(regions: seq<Region>, vaddr: uint64): (r: Option<Region>)
    ensures r.Some? ==> r.value in regions && Contains(r.value, vaddr)
    ensures r.None? ==> forall g :: g in regions ==> !Contains(g, vaddr)
  {
    if regions == [] then None
    else if Contains(regions[0], vaddr) then Some(regions[0])
    else FindRegion(regions[1..], vaddr)
  }

  /**
   * The offset into the VM object that backs address vaddr of region g, in
   * uint64 arithmetic: vaddr - base + object_offset, wrapping at 2^64.
   */
  function VmoOffset(vaddr: uint64, g: Region): (off: uint64)
    requires Contains(g, vaddr)
    ensures (off + g.base) % TWO_TO_64 == (vaddr + g.objectOffset) % TWO_TO_64
    ensures vaddr - g.base + g.objectOffset < TWO_TO_64 ==> off - g.objectOffset == vaddr - g.base
  {
    (vaddr - g.base + g.objectOffset) % TWO_TO_64
  }

  /** Where an address of a process lives: its region and that region's VM object. */
  datatype Target = Target(region: Region, vmo: Vmo)

  /**
   * The lookup chain both syscalls share, in its order: the process handle
   * with the required rights, then the address space, then the region that
   * holds the address, then its VM object.
   */
  function LocateVmo(t: HandleTable, proc: Handle, required: Rights, vaddr: uint64): (r: Result<Target>)
    reads TargetProcesses(t)
    ensures var d := GetDispatcher(t, proc, ProcessKind, required);
      && (d.Err? ==> r == Err(d.status))
      && (d.Ok? && d.value.process.aspace.None? ==> r == Err(ERR_BAD_STATE))
      && (d.Ok? && d.value.process.aspace.Some? ==>
            var found := FindRegion(d.value.process.aspace.value, vaddr);
            && (found.None? ==> r == Err(ERR_NO_MEMORY))
            && (found.Some? && found.value.vmo.None? ==> r == Err(ERR_NO_MEMORY))
            && (found.Some? && found.value.vmo.Some? ==> r == Ok(Target(found.value, found.value.vmo.value))))
    ensures r.Ok? ==> Contains(r.value.region, vaddr) && r.value.region.vmo == Some(r.value.vmo)
    ensures r.Ok? ==> r.value.vmo in MappedVmos(TargetProcesses(t))
    ensures r.Err? ==> r.status < 0
  {
    var d := GetDispatcher(t, proc, ProcessKind, required);
    if d.Err? then Err(d.status)
    else
      var process := d.value.process;
      if process.aspace.None? then Err(ERR_BAD_STATE)
      else
        var found := FindRegion(process.aspace.value, vaddr);
        if found.None? then Err(ERR_NO_MEMORY)
        else if found.value.vmo.None? then Err(ERR_NO_MEMORY)
        else
          assert found.value.vmo.value in MappedVmos(TargetProcesses(t));
          Ok(Target(found.value, found.value.vmo.value))
  }

  /**
   * sys_process_read_memory. Returns the status, the bytes the caller's
   * buffer received, and the count written back through `actual` (whose
   * copy-out succeeds when actualWritable). The count is written back only
   * when the VM object's read succeeds; a failed write-back turns success
   * into ERR_INVALID_ARGS; any other VM object status is returned as is.
   */
  method ProcessReadMemory(up: Process, proc: Handle, vaddr: uint64, buffer: UserPtr, len: uint64, actualWritable: bool)
    returns (status: int, received: seq<Byte>, actual: Option<uint64>)
    ensures CheckBuffer(buffer, len, MAX_DEBUG_READ_BLOCK) != NO_ERROR ==>
      status == ERR_INVALID_ARGS && received == [] && actual == None
    ensures CheckBuffer(buffer, len, MAX_DEBUG_READ_BLOCK) == NO_ERROR ==>
      var loc := LocateVmo(up.handles, proc, {Read, Write}, vaddr);
      && (loc.Err? ==> status == loc.status && received == [] && actual == None)
      && (loc.Ok? ==>
            var x := VmoReadUser(loc.value.vmo.bytes, VmoOffset(vaddr, loc.value.region), len, |Span(buffer)|);
            && received == x.dest
            && (x.status != NO_ERROR ==> status == x.status && actual == None)
            && (x.status == NO_ERROR && actualWritable ==> status == NO_ERROR && actual == Some(x.count))
            && (x.status == NO_ERROR && !actualWritable ==> status == ERR_INVALID_ARGS && actual == None))
    ensures actual.Some? <==> status == NO_ERROR
    ensures status == NO_ERROR ==> actual.Some? && actual.value <= len && |received| == actual.value
  {
    status := CheckBuffer(buffer, len, MAX_DEBUG_READ_BLOCK);
    if status != NO_ERROR {
      return status, [], None;
    }
    var loc := LocateVmo(up.handles, proc, {Read, Write}, vaddr);
    if loc.Err? {
      return loc.status, [], None;
    }
    var offset := VmoOffset(vaddr, loc.value.region);
    var x := VmoReadUser(loc.value.vmo.bytes, offset, len, |Span(buffer)|);
    received, actual := x.dest, None;
    if x.status == NO_ERROR {
      if !actualWritable {  // actual.copy_to_user faults
        return ERR_INVALID_ARGS, received, None;
      }
      actual := Some(x.count);
    }
    status := x.status;
  }

  /**
   * sys_process_write_memory: as the read, but the process handle needs only
   * WRITE, and the VM object takes the bytes from the caller's buffer.
   * Only that VM object changes.
   */
  method ProcessWriteMemory(up: Process, proc: Handle, vaddr: uint64, buffer: UserPtr, len: uint64, actualWritable: bool)
    returns (status: int, actual: Option<uint64>)
    modifies MappedVmos(TargetProcesses(up.handles))
    ensures CheckBuffer(buffer, len, MAX_DEBUG_WRITE_BLOCK) != NO_ERROR ==>
      status == ERR_INVALID_ARGS && actual == None && unchanged(MappedVmos(TargetProcesses(up.handles)))
    ensures CheckBuffer(buffer, len, MAX_DEBUG_WRITE_BLOCK) == NO_ERROR ==>
      var loc := old(LocateVmo(up.handles, proc, {Write}, vaddr));
      && (loc.Err? ==> status == loc.status && actual == None && unchanged(MappedVmos(TargetProcesses(up.handles))))
      && (loc.Ok? ==>
            var x := VmoWriteUser(old(loc.value.vmo.bytes), VmoOffset(vaddr, loc.value.region), len, Span(buffer));
            && loc.value.vmo.bytes == x.dest
            && unchanged(MappedVmos(TargetProcesses(up.handles)) - {loc.value.vmo})
            && (x.status != NO_ERROR ==> status == x.status && actual == None)
            && (x.status == NO_ERROR && actualWritable ==> status == NO_ERROR && actual == Some(x.count))
            && (x.status == NO_ERROR && !actualWritable ==> status == ERR_INVALID_ARGS && actual == None))
    ensures actual.Some? <==> status == NO_ERROR
    ensures status == NO_ERROR ==> actual.value <= len
  {
    status := CheckBuffer(buffer, len, MAX_DEBUG_WRITE_BLOCK);
    if status != NO_ERROR {
      return status, None;
    }
    var loc := LocateVmo(up.handles, proc, {Write}, vaddr);
    if loc.Err? {
      return loc.status, None;
    }
    var vmo := loc.value.vmo;
    var offset := VmoOffset(vaddr, loc.value.region);
    var x := VmoWriteUser(vmo.bytes, offset, len, Span(buffer));
    vmo.bytes := x.dest;
    actual := None;
    if x.status == NO_ERROR {
      if !actualWritable {  // actual.copy_to_user faults
        return ERR_INVALID_ARGS, None;
      }
      actual := Some(x.count);
    }
    status := x.status;
  }

  /**
   * What a successful write leaves in a VM object is what a read of the same
   * range returns: the bytes written.
   */
  lemma WriteThenRead(data: seq<Byte>, offset: nat, src: seq<Byte>, room: nat)
    requires offset + |src| <= |data| && |src| <= room
    ensures VmoWriteUser(data, offset, |src|, src).status == NO_ERROR
    ensures VmoReadUser(VmoWriteUser(data, offset, |src|, src).dest, offset, |src|, room)
            == VmoTransfer(NO_ERROR, |src|, src)
  {
    assert src[..|src|] == src;
  }

  /**
   * Rights: reading another process needs READ and WRITE on its handle,
   * writing needs only WRITE, so a write-only handle can write but not read.
   */
  lemma WriteOnlyHandle(t: HandleTable, proc: Handle, vaddr: uint64)
    requires proc in t && t[proc].obj.ProcessObj? && t[proc].rights == {Write}
    ensures LocateVmo(t, proc, {Read, Write}, vaddr) == Err(ERR_ACCESS_DENIED)
    ensures LocateVmo(t, proc, {Write}, vaddr).Err? ==>
      LocateVmo(t, proc, {Write}, vaddr).status in {ERR_BAD_STATE, ERR_NO_MEMORY}
  {
  }

  /**
   * Writing bytes into a process and reading the same range back through the
   * two syscalls yields the bytes written.
   */
  method WriteThenReadBack(up: Process, proc: Handle, vaddr: uint64, data: seq<Byte>)
    returns (written: int, read: int, received: seq<Byte>)
    requires 0 < |data| <= MAX_DEBUG_WRITE_BLOCK
    requires LocateVmo(up.handles, proc, {Read, Write}, vaddr).Ok?
    requires var loc := LocateVmo(up.handles, proc, {Read, Write}, vaddr).value;
      VmoOffset(vaddr, loc.region) + |data| <= |loc.vmo.bytes|
    modifies MappedVmos(TargetProcesses(up.handles))
    ensures written == NO_ERROR && read == NO_ERROR && received == data
  {
    var actual;
    written, actual := ProcessWriteMemory(up, proc, vaddr, UserRange(data), |data|, true);
    read, received, actual := ProcessReadMemory(up, proc, vaddr, UserRange(data), |data|, true);
    var loc := LocateVmo(up.handles, proc, {Read, Write}, vaddr).value;
    WriteThenRead(old(loc.vmo.bytes), VmoOffset(vaddr, loc.region), data, |data|);
  }
}
