/**
 * The console syscalls: sys_debug_read, sys_debug_write and
 * sys_debug_send_command.
 *
 * The console is I/O: what getchar would return is given as a sequence of
 * ints (a negative value, or the end of the sequence, means no more input),
 * what platform_dputc would emit is returned as a sequence of bytes, and the
 * command interpreter is a function from the script to its status.
 */
module DebugConsole {
  import opened KernelObjects

  /** kMaxDebugWriteSize. */
  const MAX_DEBUG_WRITE_SIZE: nat := 256

  const CR: int := 13  // '\r'
  const LF: int := 10  // '\n'

  /** The byte stored for a character: '\r' becomes '\n', then the int is cast to uint8_t. */
  function Cook(c: int): Byte {
    (if c == CR then LF else c) % 0x100
  }

  /** The bytes stored for a run of characters. */
  function Cooked(cs: seq<int>): (r: seq<Byte>)
    ensures |r| == |cs|
  {
    seq(|cs|, i requires 0 <= i < |cs| => Cook(cs[i]))
  }

  /** The index of the first negative getchar result, or the length of the input. */
  function FirstNegative(input: seq<int>): (n: nat)
    ensures n <= |input|
  {
    if input == [] || input[0] < 0 then 0 else 1 + FirstNegative(input[1..])
  }

  /** FirstNegative finds the first negative value: everything before it is a character. */
  lemma {:induction false} FirstNegativeIsFirst(input: seq<int>)
    ensures forall i :: 0 <= i < FirstNegative(input) ==> input[i] >= 0
    ensures FirstNegative(input) < |input| ==> input[FirstNegative(input)] < 0
  {
    if input != [] && input[0] >= 0 {
      var rest := input[1..];
      FirstNegativeIsFirst(rest);
      forall i | 0 <= i < FirstNegative(input) ensures input[i] >= 0 {
        if i > 0 {
          assert input[i] == rest[i - 1];
        }
      }
    }
  }

  /**
   * How many bytes sys_debug_read delivers: it stops at the requested length,
   * at the first negative getchar, and at the first byte the caller's buffer
   * (`room` writable bytes) cannot take.
   */
  function DebugReadCount(input: seq<int>, len: nat, room: nat): nat {
    var n := FirstNegative(input);
    if len <= room && len <= n then len else if room <= n then room else n
  }

  /** The delivered count is bounded, covers only characters, and stops for one of the three reasons. */
  lemma DebugReadCountStops(input: seq<int>, len: nat, room: nat)
    ensures var n := DebugReadCount(input, len, room);
      && n <= len && n <= room && n <= |input|
      && (forall i :: 0 <= i < n ==> input[i] >= 0)
      && (n < len ==> n == room || n == |input| || input[n] < 0)
  {
    FirstNegativeIsFirst(input);
  }

  /**
   * sys_debug_read. After the resource check, a zero length returns 0;
   * otherwise characters are read one at a time, '\r' turned into '\n', and
   * each stored into the caller's buffer (`room` writable bytes). Returns the
   * status (the byte count on success), the bytes the caller's buffer
   * received, and how many characters were taken from the console: a
   * character whose copy faulted is taken but not delivered.
   */
  method DebugRead(up: Process, handle: Handle, room: nat, input: seq<int>, len: uint32)
    returns (r: int, delivered: seq<Byte>, consumed: nat)
    ensures ValidateResourceHandle(up.handles, handle) != NO_ERROR ==>
      r == ValidateResourceHandle(up.handles, handle) && r < 0 && delivered == [] && consumed == 0
    ensures ValidateResourceHandle(up.handles, handle) == NO_ERROR && len == 0 ==>
      r == 0 && delivered == [] && consumed == 0
    ensures ValidateResourceHandle(up.handles, handle) == NO_ERROR ==>
      && r == DebugReadCount(input, len, room)
      && delivered == Cooked(input[..r])
      && consumed == (if r < len && r < FirstNegative(input) then r + 1 else r)
  {
    var status := ValidateResourceHandle(up.handles, handle);
    if status < 0 {
      return status, [], 0;
    }
    if len == 0 {
      return 0, [], 0;
    }
    FirstNegativeIsFirst(input);
    var i: nat := 0;
    delivered, consumed := [], 0;
    while i != len
      invariant i <= len && i <= room && i <= FirstNegative(input)
      invariant delivered == Cooked(input[..i])
      invariant consumed == i
      decreases len - i
    {
      var c := if i < |input| then input[i] else -1;  // getchar()
      if c < 0 {
        break;
      }
      consumed := consumed + 1;
      if c == CR {
        c := LF;
      }
      if i >= room {  // copy_to_user_u8_unsafe faults
        break;
      }
      assert Cooked(input[..i + 1]) == Cooked(input[..i]) + [c % 0x100];
      delivered := delivered + [c % 0x100];
      i := i + 1;
    }
    r := i;
  }

  /**
   * sys_debug_write. The length is clamped to kMaxDebugWriteSize, the bytes
   * are copied from the caller into a stack buffer in one copy, and each is
   * emitted to the console. Returns the status (the clamped length on
   * success) and the bytes emitted.
   */
  method DebugWrite(src: UserPtr, len: uint32) returns (r: int, emitted: seq<Byte>)
    ensures var n := if len > MAX_DEBUG_WRITE_SIZE then MAX_DEBUG_WRITE_SIZE else len;
      if n <= |Span(src)| then r == n && emitted == Span(src)[..n]
      else r == ERR_INVALID_ARGS && emitted == []
    ensures r >= 0 ==> r <= MAX_DEBUG_WRITE_SIZE && r <= len && |emitted| == r
    ensures len > MAX_DEBUG_WRITE_SIZE && r >= 0 ==> r == MAX_DEBUG_WRITE_SIZE
  {
    var n: nat := len;
    if n > MAX_DEBUG_WRITE_SIZE {
      n := MAX_DEBUG_WRITE_SIZE;
    }
    var buf := new Byte[MAX_DEBUG_WRITE_SIZE];
    var copied := CopyFromUser(src, n);
    if copied.None? {
      return ERR_INVALID_ARGS, [];
    }
    forall k | 0 <= k < n {
      buf[k] := copied.value[k];
    }
    emitted := [];
    var i := 0;
    while i < n
      invariant 0 <= i <= n
      invariant emitted == buf[..i]
    {
      emitted := emitted + [buf[i]];  // platform_dputc
      i := i + 1;
    }
    assert buf[..n] == copied.value;
    r := n;
  }

  /**
   * sys_debug_send_command. After the resource check a length over
   * kMaxDebugWriteSize is refused (not clamped); the bytes are copied into a
   * buffer two bytes longer, a '\n' and a NUL are stored after them, and the
   * buffer goes to the command interpreter, whose status is returned.
   * Returns also the script handed to the interpreter, if it was called.
   */
  method DebugSendCommand(up: Process, handle: Handle, src: UserPtr, len: uint32, runScript: seq<Byte> -> int)
    returns (r: int, script: Option<seq<Byte>>)
    ensures ValidateResourceHandle(up.handles, handle) != NO_ERROR ==>
      r == ValidateResourceHandle(up.handles, handle) && script == None
    ensures ValidateResourceHandle(up.handles, handle) == NO_ERROR && len > MAX_DEBUG_WRITE_SIZE ==>
      r == ERR_INVALID_ARGS && script == None
    ensures ValidateResourceHandle(up.handles, handle) == NO_ERROR && len <= MAX_DEBUG_WRITE_SIZE ==>
      if len <= |Span(src)| then script == Some(Span(src)[..len] + [LF, 0]) && r == runScript(script.value)
      else r == ERR_INVALID_ARGS && script == None
  {
    var status := ValidateResourceHandle(up.handles, handle);
    if status < 0 {
      return status, None;
    }
    if len > MAX_DEBUG_WRITE_SIZE {
      return ERR_INVALID_ARGS, None;
    }
    var buf := new Byte[MAX_DEBUG_WRITE_SIZE + 2];
    var copied := CopyFromUser(src, len);
    if copied.None? {
      return ERR_INVALID_ARGS, None;
    }
    forall k | 0 <= k < len {
      buf[k] := copied.value[k];
    }
    buf[len] := LF;
    buf[len + 1] := 0;
    assert buf[..len + 2] == copied.value + [LF, 0];
    script := Some(buf[..len + 2]);
    r := runScript(script.value);
  }
}
