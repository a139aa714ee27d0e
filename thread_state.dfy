/**
 * sys_thread_read_state and sys_thread_write_state: move a thread's
 * architectural state between the thread and a caller's buffer through a
 * kernel scratch buffer.
 *
 * ThreadDispatcher::ReadState and WriteState are architecture specific:
 * they are given as functions from the thread, the state kind and the
 * scratch buffer (its capacity, or its bytes) to what they answer.
 */
module ThreadState {
  import opened KernelObjects

  /** kMaxThreadStateSize (MX_MAX_THREAD_STATE_SIZE). */
  const MAX_THREAD_STATE_SIZE: nat := 4096

  /**
   * What ReadState answers for a scratch buffer: its status, the length it
   * stores back into buffer_len (the true size of the state), and the bytes
   * it serialised into the buffer.
   */
  datatype StateReply = StateReply(status: int, size: uint32, data: seq<Byte>)

  /** ReadState's side of the bargain: on success the state fits the buffer and fills `size` bytes. */
  ghost predicate ReadStateFits(readState: (Thread, uint32, uint32) -> StateReply, th: Thread) {
    forall kind, cap :: readState(th, kind, cap).status == NO_ERROR ==>
      readState(th, kind, cap).size <= cap && |readState(th, kind, cap).data| == readState(th, kind, cap).size
  }

  /**
   * A thread whose state of this kind takes `need` bytes: any smaller buffer
   * is too small and reports `need`, any buffer of at least `need` is filled.
   */
  ghost predicate StateOfSize(readState: (Thread, uint32, uint32) -> StateReply, th: Thread, kind: uint32, need: uint32) {
    forall cap: uint32 ::
      && (cap < need ==> readState(th, kind, cap).status == ERR_BUFFER_TOO_SMALL && readState(th, kind, cap).size == need)
      && (need <= cap ==> readState(th, kind, cap).status == NO_ERROR && readState(th, kind, cap).size == need)
  }

  /**
   * sys_thread_read_state. The thread handle needs READ; the length is read
   * from the caller (lenIn, None when that copy faults) and bounded before
   * the scratch buffer is allocated (allocOk tells whether allocation
   * succeeds). After ReadState, the length is written back (lenWritable tells
   * whether that copy succeeds) if and only if the status is NO_ERROR or
   * ERR_BUFFER_TOO_SMALL, and the bytes are copied out only on NO_ERROR.
   * Returns the status, the length written back and the bytes the caller's
   * buffer received.
   */
  method ThreadReadState(up: Process, handle: Handle, kind: uint32, buffer: UserPtr,
                         lenIn: Option<uint32>, lenWritable: bool, allocOk: bool,
                         readState: (Thread, uint32, uint32) -> StateReply)
    returns (status: int, lenOut: Option<uint32>, dataOut: Option<seq<Byte>>)
    requires GetDispatcher(up.handles, handle, ThreadKind, {Read}).Ok? ==>
      ReadStateFits(readState, GetDispatcher(up.handles, handle, ThreadKind, {Read}).value.thread)
    ensures var d := GetDispatcher(up.handles, handle, ThreadKind, {Read});
      && (d.Err? ==> status == d.status && lenOut == None && dataOut == None)
      && (d.Ok? && lenIn.None? ==> status == ERR_INVALID_ARGS && lenOut == None && dataOut == None)
      && (d.Ok? && lenIn.Some? && lenIn.value > MAX_THREAD_STATE_SIZE ==>
            status == ERR_INVALID_ARGS && lenOut == None && dataOut == None)
      && (d.Ok? && lenIn.Some? && lenIn.value <= MAX_THREAD_STATE_SIZE && !allocOk ==>
            status == ERR_NO_MEMORY && lenOut == None && dataOut == None)
      && (d.Ok? && lenIn.Some? && lenIn.value <= MAX_THREAD_STATE_SIZE && allocOk ==>
            var reply := readState(d.value.thread, kind, lenIn.value);
            var sized := reply.status == NO_ERROR || reply.status == ERR_BUFFER_TOO_SMALL;
            && (lenOut.Some? <==> sized && lenWritable)
            && (lenOut.Some? ==> lenOut.value == reply.size)
            && (!sized ==> status == reply.status)
            && (sized && !lenWritable ==> status == ERR_INVALID_ARGS)
            && (reply.status == ERR_BUFFER_TOO_SMALL && lenWritable ==> status == ERR_BUFFER_TOO_SMALL)
            && (reply.status == NO_ERROR && lenWritable ==>
                  if reply.size <= |Span(buffer)| then status == NO_ERROR && dataOut == Some(reply.data)
                  else status == ERR_INVALID_ARGS))
    ensures dataOut.Some? <==> status == NO_ERROR
    ensures status == NO_ERROR ==> lenOut.Some? && |dataOut.value| == lenOut.value
  {
    var d := GetDispatcher(up.handles, handle, ThreadKind, {Read});
    if d.Err? {
      return d.status, None, None;
    }
    if lenIn.None? {  // _buffer_len.copy_from_user faults
      return ERR_INVALID_ARGS, None, None;
    }
    var bufferLen: uint32 := lenIn.value;
    // avoid allocating insane amounts
    if bufferLen > MAX_THREAD_STATE_SIZE {
      return ERR_INVALID_ARGS, None, None;
    }
    if !allocOk {
      return ERR_NO_MEMORY, None, None;
    }
    var reply := readState(d.value.thread, kind, bufferLen);
    status := reply.status;
    bufferLen := reply.size;
    lenOut, dataOut := None, None;
    // The length is worth writing back only on NO_ERROR or ERR_BUFFER_TOO_SMALL.
    if status == NO_ERROR || status == ERR_BUFFER_TOO_SMALL {
      if !lenWritable {  // _buffer_len.copy_to_user faults
        return ERR_INVALID_ARGS, None, None;
      }
      lenOut := Some(bufferLen);
    }
    if status != NO_ERROR {
      return;
    }
    if bufferLen > |Span(buffer)| {  // copy_array_to_user faults
      return ERR_INVALID_ARGS, lenOut, None;
    }
    dataOut := Some(reply.data);
  }

  /**
   * The size-probing protocol: for a thread whose state takes `need` bytes, a
   * call with length 0 reports ERR_BUFFER_TOO_SMALL and writes back `need`;
   * a second call with that length succeeds and delivers `need` bytes.
   */
  method ProbeThenRead(up: Process, handle: Handle, kind: uint32, buffer: UserPtr,
                       readState: (Thread, uint32, uint32) -> StateReply, need: uint32)
    returns (first: int, probed: Option<uint32>, second: int, data: Option<seq<Byte>>)
    requires GetDispatcher(up.handles, handle, ThreadKind, {Read}).Ok?
    requires ReadStateFits(readState, GetDispatcher(up.handles, handle, ThreadKind, {Read}).value.thread)
    requires StateOfSize(readState, GetDispatcher(up.handles, handle, ThreadKind, {Read}).value.thread, kind, need)
    requires 0 < need <= MAX_THREAD_STATE_SIZE && need <= |Span(buffer)|
    ensures first == ERR_BUFFER_TOO_SMALL && probed == Some(need)
    ensures second == NO_ERROR && data.Some? && |data.value| == need
  {
    var none;
    first, probed, none := ThreadReadState(up, handle, kind, buffer, Some(0), true, true, readState);
    var len;
    second, len, data := ThreadReadState(up, handle, kind, buffer, probed, true, true, readState);
  }

  /**
   * The call that sys_thread_write_state makes to WriteState: thread, kind,
   * bytes, and whether privileged register values may be set.
   */
  datatype StateWrite = StateWrite(thread: Thread, kind: uint32, bytes: seq<Byte>, privileged: bool)

  /**
   * sys_thread_write_state. The thread handle needs WRITE; the length is
   * bounded before the scratch buffer is allocated; the bytes are copied
   * from the caller, and only if that copy succeeds is WriteState called,
   * whose status is returned. Returns also the WriteState call, if made.
   */
  method ThreadWriteState(up: Process, handle: Handle, kind: uint32, buffer: UserPtr, len: uint32,
                          allocOk: bool, writeState: StateWrite -> int)
    returns (status: int, call: Option<StateWrite>)
    ensures var d := GetDispatcher(up.handles, handle, ThreadKind, {Write});
      && (d.Err? ==> status == d.status && call == None)
      && (d.Ok? && len > MAX_THREAD_STATE_SIZE ==> status == ERR_INVALID_ARGS && call == None)
      && (d.Ok? && len <= MAX_THREAD_STATE_SIZE && !allocOk ==> status == ERR_NO_MEMORY && call == None)
      && (d.Ok? && len <= MAX_THREAD_STATE_SIZE && allocOk ==>
            if len <= |Span(buffer)|
            then call == Some(StateWrite(d.value.thread, kind, Span(buffer)[..len], false)) && status == writeState(call.value)
            else status == ERR_INVALID_ARGS && call == None)
  {
    var d := GetDispatcher(up.handles, handle, ThreadKind, {Write});
    if d.Err? {
      return d.status, None;
    }
    // avoid allocating insane amounts
    if len > MAX_THREAD_STATE_SIZE {
      return ERR_INVALID_ARGS, None;
    }
    if !allocOk {
      return ERR_NO_MEMORY, None;
    }
    var bytes := CopyFromUser(buffer, len);
    if bytes.None? {
      return ERR_INVALID_ARGS, None;
    }
    call := Some(StateWrite(d.value.thread, kind, bytes.value, false));  // never privileged
    status := writeState(call.value);
  }
}
