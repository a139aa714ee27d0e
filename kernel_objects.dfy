/**
 * The kernel objects and collaborators that the debug syscalls consume:
 * status codes, handle tables with rights, processes with their address
 * spaces, threads, VM objects, and the user-memory boundary.
 *
 * None of these collaborators is part of syscalls_debug.cpp; they are kept
 * as small as the syscalls need them.
 */
module KernelObjects {

  /** Fixed-width integers of the C interface. */
  type uint32 = x: int | 0 <= x < 0x1_0000_0000
  type uint64 = x: int | 0 <= x < 0x1_0000_0000_0000_0000
  type Byte = b: int | 0 <= b < 0x100

  const TWO_TO_64: int := 0x1_0000_0000_0000_0000

  /** Status codes (mx_status_t). Zero is success, errors are negative. */
  const NO_ERROR: int := 0
  const ERR_NO_MEMORY: int := -4
  const ERR_INVALID_ARGS: int := -10
  const ERR_BAD_HANDLE: int := -11
  const ERR_WRONG_TYPE: int := -12
  const ERR_OUT_OF_RANGE: int := -14
  const ERR_BUFFER_TOO_SMALL: int := -15
  const ERR_BAD_STATE: int := -20
  const ERR_UNAVAILABLE: int := -28
  const ERR_ACCESS_DENIED: int := -30

  datatype Option<T> = None | Some(value: T)

  /** The outcome of a lookup: a value, or the status that a syscall returns. */
  datatype Result<T> = Ok(value: T) | Err(status: int)

  /** Handle rights; a handle carries a set of them. */
  datatype Right = Duplicate | Transfer | Read | Write | Execute
  type Rights = set<Right>

  /** mx_handle_t: a process-scoped handle value. */
  type Handle = int

  /** A thread dispatcher; only its identity matters to the syscalls. */
  class Thread {
  }

  /** A VM object and the bytes it holds. Regions of several processes may share one. */
  class Vmo {
    var bytes: seq<Byte>
  }

  /** A mapped range of an address space, backed (or not) by a VM object at an offset. */
  datatype Region = Region(base: uint64, size: uint64, vmo: Option<Vmo>, objectOffset: uint64)

  /** The kernel objects a handle can refer to. */
  datatype Obj =
    | ProcessObj(process: Process)
    | ThreadObj(thread: Thread)
    | ResourceObj
    | OtherObj(koid: nat)

  datatype ObjKind = ProcessKind | ThreadKind | ResourceKind | OtherKind

  function KindOf(o: Obj): ObjKind {
    match o
    case ProcessObj(_) => ProcessKind
    case ThreadObj(_) => ThreadKind
    case ResourceObj => ResourceKind
    case OtherObj(_) => OtherKind
  }

  /** A handle: the object it refers to and the rights it grants. */
  datatype HandleEntry = HandleEntry(obj: Obj, rights: Rights)

  type HandleTable = map<Handle, HandleEntry>

  /**
   * A process dispatcher: its handle table, the counter that stands in for
   * the handle-value scheme of MapHandleToValue, and its address space
   * (None once the process has no address space).
   */
  class Process {
    var handles: HandleTable
    var nextHandle: int
    var aspace: Option<seq<Region>>

    /** Every handle value in the table is positive and below nextHandle. */
    ghost predicate Valid()
      reads this
    {
      0 < nextHandle && forall h :: h in handles ==> 0 < h < nextHandle
    }
  }

  /** The processes a handle table refers to. */
  function TargetProcesses(t: HandleTable): set<Process> {
    set h | h in t && t[h].obj.ProcessObj? :: t[h].obj.process
  }

  /** The VM objects mapped into the address spaces of the given processes. */
  function MappedVmos(ps: set<Process>): set<Vmo>
    reads ps
  {
    set p, g | p in ps && p.aspace.Some? && g in p.aspace.value && g.vmo.Some? :: g.vmo.value
  }

  /**
   * ProcessDispatcher::GetDispatcher: resolve a handle of the caller to an
   * object of the wanted kind, holding at least the required rights.
   */
  function GetDispatcher(t: HandleTable, h: Handle, kind: ObjKind, required: Rights): (r: Result<Obj>)
    ensures r.Ok? <==> h in t && required <= t[h].rights && KindOf(t[h].obj) == kind
    ensures r.Ok? ==> r.value == t[h].obj
    ensures r.Ok? && kind == ProcessKind ==> r.value.ProcessObj? && r.value.process in TargetProcesses(t)
    ensures r.Ok? && kind == ThreadKind ==> r.value.ThreadObj?
    ensures h !in t ==> r == Err(ERR_BAD_HANDLE)
    ensures r.Err? ==> r.status < 0
  {
    if h !in t then Err(ERR_BAD_HANDLE)
    else if !(required <= t[h].rights) then Err(ERR_ACCESS_DENIED)
    else if KindOf(t[h].obj) != kind then Err(ERR_WRONG_TYPE)
    else Ok(t[h].obj)
  }

  /** validate_resource_handle: the handle must name a resource object. */
  function ValidateResourceHandle(t: HandleTable, h: Handle): (status: int)
    ensures status == NO_ERROR <==> h in t && t[h].obj.ResourceObj?
    ensures status != NO_ERROR ==> status < 0
  {
    var d := GetDispatcher(t, h, ResourceKind, {});
    if d.Err? then d.status else NO_ERROR
  }

  /**
   * A pointer into the caller's memory, as the kernel sees it: null, or the
   * run of accessible bytes that starts at it. A copy from user memory yields
   * a prefix of those bytes; a copy of more bytes than the run holds faults.
   * For a copy to user memory only the length of the run matters.
   */
  datatype UserPtr = Null | UserRange(bytes: seq<Byte>)

  function Span(p: UserPtr): seq<Byte> {
    if p.Null? then [] else p.bytes
  }

  /** What a bounded, fault-safe copy of n bytes from user memory yields. */
  function CopyFromUser(p: UserPtr, n: nat): (r: Option<seq<Byte>>)
    ensures r.Some? <==> n <= |Span(p)|
    ensures r.Some? ==> |r.value| == n && r.value == Span(p)[..n]
  {
    if n <= |Span(p)| then Some(Span(p)[..n]) else None
  }

  /** The bytes `data` with the `patch` written over them at `offset`. */
  function Overwrite(data: seq<Byte>, offset: nat, patch: seq<Byte>): (r: seq<Byte>)
    requires offset + |patch| <= |data|
    ensures |r| == |data|
    ensures r[offset..offset + |patch|] == patch
    ensures forall i :: 0 <= i < |data| && !(offset <= i < offset + |patch|) ==> r[i] == data[i]
  {
    data[..offset] + patch + data[offset + |patch|..]
  }

  /**
   * The outcome of a VM object's ReadUser or WriteUser: the status, the count
   * of bytes moved, and the bytes at the destination afterwards (for a read,
   * what the user buffer received; for a write, the object's new contents).
   */
  datatype VmoTransfer = VmoTransfer(status: int, count: nat, dest: seq<Byte>)

  /**
   * How many bytes of a request for `len` bytes at `offset` lie inside an
   * object of `size` bytes: the request is trimmed at the object's end.
   */
  function TrimmedLength(size: nat, offset: nat, len: nat): (n: nat)
    requires offset <= size
    ensures n <= len && offset + n <= size
    ensures n == len || offset + n == size
  {
    if offset + len <= size then len else size - offset
  }

  /**
   * VmObject::ReadUser into a user buffer with `room` writable bytes: a
   * request that starts past the object's end is out of range; one that runs
   * past it is trimmed to the end; a fault in the user buffer ends the copy
   * early with the bytes moved so far.
   */
  function VmoReadUser(data: seq<Byte>, offset: nat, len: nat, room: nat): (r: VmoTransfer)
    ensures r.count == |r.dest| <= len
    ensures r.status == NO_ERROR <==> offset <= |data| && TrimmedLength(|data|, offset, len) <= room
    ensures offset <= |data| ==> offset + r.count <= |data| && r.dest == data[offset..offset + r.count]
    ensures r.status == NO_ERROR ==> r.count == len || offset + r.count == |data|
    ensures offset > |data| ==> r == VmoTransfer(ERR_OUT_OF_RANGE, 0, [])
  {
    if offset > |data| then VmoTransfer(ERR_OUT_OF_RANGE, 0, [])
    else
      var n := TrimmedLength(|data|, offset, len);
      if n > room then VmoTransfer(ERR_INVALID_ARGS, room, data[offset..offset + room])
      else VmoTransfer(NO_ERROR, n, data[offset..offset + n])
  }

  /**
   * VmObject::WriteUser from a user buffer whose accessible bytes are `src`:
   * a request that starts past the object's end is out of range; one that
   * runs past it is trimmed to the end; a fault in the user buffer ends the
   * copy early, after the bytes moved so far reached the object.
   */
  function VmoWriteUser(data: seq<Byte>, offset: nat, len: nat, src: seq<Byte>): (r: VmoTransfer)
    ensures r.count <= len && r.count <= |src|
    ensures r.status == NO_ERROR <==> offset <= |data| && TrimmedLength(|data|, offset, len) <= |src|
    ensures r.status == NO_ERROR ==> r.count == len || offset + r.count == |data|
    ensures offset > |data| ==> r == VmoTransfer(ERR_OUT_OF_RANGE, 0, data)
    ensures offset <= |data| ==>
      && offset + r.count <= |data|
      && |r.dest| == |data|
      && r.dest[offset..offset + r.count] == src[..r.count]
      && r.dest[..offset] == data[..offset]
      && r.dest[offset + r.count..] == data[offset + r.count..]
  {
    if offset > |data| then VmoTransfer(ERR_OUT_OF_RANGE, 0, data)
    else
      var n := TrimmedLength(|data|, offset, len);
      if n > |src| then VmoTransfer(ERR_INVALID_ARGS, |src|, Overwrite(data, offset, src))
      else VmoTransfer(NO_ERROR, n, Overwrite(data, offset, src[..n]))
  }
}
