/**
 * The kernel-trace syscalls: sys_ktrace_read, sys_ktrace_control and
 * sys_ktrace_write. The trace ring itself is not modelled: what
 * ktrace_read_user and ktrace_control answer are inputs, and ktrace_open
 * either yields a record slot or does not.
 */
module Ktrace {
  import opened KernelObjects

  /** Event ids of probe records have 11 bits. */
  const MAX_PROBE_EVENT_ID: nat := 0x7FF

  /** KTRACE_ACTION_NEW_PROBE and MX_MAX_NAME_LEN. */
  const KTRACE_ACTION_NEW_PROBE: nat := 4
  const MAX_NAME_LEN: nat := 32

  /** The argument words of a probe record opened with the given event id. */
  datatype ProbeRecord = ProbeRecord(eventId: nat, arg0: uint32, arg1: uint32)

  /** The status of sys_ktrace_write and the record it filled, if any. */
  datatype WriteOutcome = WriteOutcome(status: int, record: Option<ProbeRecord>)

  /** The call that sys_ktrace_control hands to ktrace_control: action, options, probe name. */
  datatype ControlCall = ControlCall(action: uint32, options: uint32, name: Option<seq<Byte>>)

  /** The call that sys_ktrace_read hands to ktrace_read_user: buffer, offset and length. */
  datatype ReadCall = ReadCall(ptr: UserPtr, offset: uint32, len: uint32)

  /** The result of sys_ktrace_read and the call it made, if any. */
  datatype ReadOutcome = ReadOutcome(result: int, call: Option<ReadCall>)

  /** The status of sys_ktrace_control and the call it made, if any. */
  datatype ControlOutcome = ControlOutcome(status: int, call: Option<ControlCall>)

  /**
   * sys_ktrace_read: after the resource check, ktrace_read_user is called
   * with the caller's buffer, offset and length, and its result returned.
   */
  function KtraceRead(t: HandleTable, handle: Handle, ptr: UserPtr, off: uint32, len: uint32,
                      readUser: ReadCall -> int): (r: ReadOutcome)
    ensures ValidateResourceHandle(t, handle) != NO_ERROR ==>
      r == ReadOutcome(ValidateResourceHandle(t, handle), None) && r.result < 0
    ensures ValidateResourceHandle(t, handle) == NO_ERROR ==>
      r.call == Some(ReadCall(ptr, off, len)) && r.result == readUser(r.call.value)
  {
    var status := ValidateResourceHandle(t, handle);
    if status < 0 then ReadOutcome(status, None)
    else
      var call := ReadCall(ptr, off, len);
      ReadOutcome(readUser(call), Some(call))
  }

  /**
   * sys_ktrace_control. After the resource check, NEW_PROBE copies exactly
   * MX_MAX_NAME_LEN - 1 bytes of name from the caller and terminates them
   * with a NUL; every other action is passed on without a name.
   */
  function KtraceControl(t: HandleTable, handle: Handle, action: uint32, options: uint32, ptr: UserPtr,
                         control: ControlCall -> int): (r: ControlOutcome)
    ensures ValidateResourceHandle(t, handle) != NO_ERROR ==>
      r == ControlOutcome(ValidateResourceHandle(t, handle), None)
    ensures ValidateResourceHandle(t, handle) == NO_ERROR && action == KTRACE_ACTION_NEW_PROBE ==>
      if |Span(ptr)| < MAX_NAME_LEN - 1 then r == ControlOutcome(ERR_INVALID_ARGS, None)
      else r.call == Some(ControlCall(action, options, Some(Span(ptr)[..MAX_NAME_LEN - 1] + [0])))
    ensures ValidateResourceHandle(t, handle) == NO_ERROR && action != KTRACE_ACTION_NEW_PROBE ==>
      r.call == Some(ControlCall(action, options, None))
    ensures r.call.Some? ==> r.status == control(r.call.value)
    ensures r.call.Some? && r.call.value.name.Some? ==>
      |r.call.value.name.value| == MAX_NAME_LEN && r.call.value.name.value[MAX_NAME_LEN - 1] == 0
  {
    var status := ValidateResourceHandle(t, handle);
    if status < 0 then ControlOutcome(status, None)
    else if action == KTRACE_ACTION_NEW_PROBE then
      var name := CopyFromUser(ptr, MAX_NAME_LEN - 1);
      if name.None? then ControlOutcome(ERR_INVALID_ARGS, None)
      else
        var call := ControlCall(action, options, Some(name.value + [0]));
        ControlOutcome(control(call), Some(call))
    else
      var call := ControlCall(action, options, None);
      ControlOutcome(control(call), Some(call))
  }

  /**
   * sys_ktrace_write. After the resource check, an event id over 11 bits is
   * refused before any record is opened; if ktrace_open has no slot the call
   * is unavailable; otherwise the record's two argument words are filled.
   */
  function KtraceWrite(t: HandleTable, handle: Handle, eventId: uint32, arg0: uint32, arg1: uint32,
                       slotAvailable: bool): (r: WriteOutcome)
    ensures ValidateResourceHandle(t, handle) != NO_ERROR ==>
      r == WriteOutcome(ValidateResourceHandle(t, handle), None)
    ensures ValidateResourceHandle(t, handle) == NO_ERROR && eventId > MAX_PROBE_EVENT_ID ==>
      r == WriteOutcome(ERR_INVALID_ARGS, None)
    ensures ValidateResourceHandle(t, handle) == NO_ERROR && eventId <= MAX_PROBE_EVENT_ID && !slotAvailable ==>
      r == WriteOutcome(ERR_UNAVAILABLE, None)
    ensures r.status == NO_ERROR <==>
      ValidateResourceHandle(t, handle) == NO_ERROR && eventId <= MAX_PROBE_EVENT_ID && slotAvailable
    ensures r.record.Some? <==> r.status == NO_ERROR
    ensures r.record.Some? ==> r.record.value == ProbeRecord(eventId, arg0, arg1)
  {
    var status := ValidateResourceHandle(t, handle);
    if status < 0 then WriteOutcome(status, None)
    else if eventId > MAX_PROBE_EVENT_ID then WriteOutcome(ERR_INVALID_ARGS, None)
    else if !slotAvailable then WriteOutcome(ERR_UNAVAILABLE, None)
    else WriteOutcome(NO_ERROR, Some(ProbeRecord(eventId, arg0, arg1)))
  }

  /** The 11-bit boundary: 0x7FF is accepted (given a slot) and 0x800 refused. */
  lemma EventIdBoundary(t: HandleTable, handle: Handle, arg0: uint32, arg1: uint32, slotAvailable: bool)
    requires ValidateResourceHandle(t, handle) == NO_ERROR
    ensures KtraceWrite(t, handle, 0x800, arg0, arg1, slotAvailable).status == ERR_INVALID_ARGS
    ensures KtraceWrite(t, handle, 0x7FF, arg0, arg1, slotAvailable).status
            == if slotAvailable then NO_ERROR else ERR_UNAVAILABLE
  {
  }
}
