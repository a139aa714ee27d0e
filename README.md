# Debug syscalls of the Magenta kernel, and the i915 bootloader display

This project models, in Dafny, two pieces of the Zircon (Magenta) tree:

- `kernel/lib/syscalls/syscalls_debug.cpp`: the debug and introspection
  syscalls. They read and write console bytes, run a kernel-console command,
  move a handle into another process, read and write another process's
  memory through the VM object behind an address, read and write a thread's
  register state, and drive the kernel trace buffer.
- `system/dev/display/intel-i915/bootloader-display.cpp`:
  `BootloaderDisplay::Init`. It describes the framebuffer the bootloader left
  behind, or a fixed fallback when the bootloader cannot be asked.

Each syscall is a fixed chain of steps: validate arguments, resolve a handle
with a rights mask, walk to the target object, call one collaborator, and map
the result to a status. The model keeps the chain and its error codes, and
makes the collaborators small and explicit:

- **Handles and objects** (`kernel_objects.dfy`, module `KernelObjects`).
  - A process is a class holding a handle table `map<Handle, HandleEntry>`
    and an optional address space, a sequence of regions
    `(base, size, vmo?, objectOffset)`.
  - A VM object is a class holding its bytes. Regions of several processes
    may share one.
  - `GetDispatcher` resolves a handle: it is absent, lacks the rights, has
    the wrong type, or yields the object. `validate_resource_handle` is that
    lookup for a resource object.
- **User memory.** A user pointer is `Null` or the run of accessible bytes
  that starts at it. A copy of more bytes than the run holds faults. What a
  syscall stores into the caller's memory is returned as an out-value: the
  bytes the buffer received, or the count written back through `actual`.
- **I/O and oracles.**
  - The console input is given as the sequence of values `getchar` would
    return. The console output is returned as the sequence of bytes emitted.
  - The command interpreter, `ktrace_control`, `ReadState` and `WriteState`
    are function parameters.
  - Whether a scratch allocation or a ktrace slot is available is a boolean
    input.

The console syscalls and `sys_thread_read_state` keep their imperative shape:
a loop that takes one character at a time, a loop that emits the staged bytes,
stack buffers that are filled and terminated in place, and a length variable
that `ReadState` updates. `sys_debug_transfer_handle` changes two handle
tables in place, and `sys_process_write_memory` changes the VM object in
place. The argument checks, the region lookup, the offset arithmetic and the
trace syscalls are functions.

Status codes are integers, as `mx_status_t` is: zero is success, errors are
negative, and `sys_debug_read`, `sys_debug_write` and
`sys_debug_transfer_handle` return a count or a handle value in the same
integer. The numeric values of the error constants, `MX_MAX_THREAD_STATE_SIZE`,
`MX_MAX_NAME_LEN` and `KTRACE_ACTION_NEW_PROBE` come from headers that are not
part of this model. The constants here stand in for them, and no proof
depends on their magnitudes beyond errors being distinct and negative.

Three facts about the code shape the model:

- A missing region or VM object returns `ERR_NO_MEMORY`.
- Both memory maxima are 64 MiB.
- `sys_debug_write` checks no resource handle at all.

## Model

| member | source | states |
|---|---|---|
| `KernelObjects.GetDispatcher` | kernel/lib/syscalls/syscalls_debug.cpp:119-122 | the handle lookup succeeds exactly when the handle is in the caller's table, carries the required rights and names an object of the wanted kind, and then yields that object; an absent handle gives ERR_BAD_HANDLE; every failure is a negative status |
| `KernelObjects.ValidateResourceHandle` | kernel/lib/syscalls/syscalls_debug.cpp:54-56 | the resource check passes exactly when the handle names a resource object; otherwise it yields a negative status |
| `KernelObjects.CopyFromUser` | kernel/lib/syscalls/syscalls_debug.cpp:85-86 | a copy of n bytes from user memory succeeds exactly when n bytes are accessible, and then yields the first n of them |
| `KernelObjects.VmoReadUser` | kernel/lib/syscalls/syscalls_debug.cpp:168 | a read starting past the object's end is out of range and moves nothing; otherwise the request is trimmed at the object's end, and the read succeeds exactly when the user buffer has room for the trimmed length; the bytes moved are the object's bytes at the offset; a successful read is short only at the object's end, and a fault moves a shorter prefix |
| `KernelObjects.VmoWriteUser` | kernel/lib/syscalls/syscalls_debug.cpp:207 | a write starting past the object's end is out of range and changes nothing; otherwise the request is trimmed at the object's end, and the write succeeds exactly when the trimmed length is readable from the user buffer; the object's new bytes are the old ones with the copied bytes over the range, and a successful write is short only at the object's end |
| `DebugConsole.FirstNegativeIsFirst` | kernel/lib/syscalls/syscalls_debug.cpp:64-67 | every getchar result before the first negative one is a character, and the one at that index is negative |
| `DebugConsole.DebugReadCountStops` | kernel/lib/syscalls/syscalls_debug.cpp:64-75 | the count sys_debug_read returns is at most the requested length and the buffer room, covers only characters, and falls short of the length only at the buffer's end, the input's end or a negative getchar |
| `DebugConsole.DebugRead` | kernel/lib/syscalls/syscalls_debug.cpp:49-76 | a failed resource check returns its status; after it, length 0 returns 0; otherwise the result is the delivered count, the caller receives the characters with '\r' turned into '\n', and a character whose copy faulted is taken from the console but not delivered |
| `DebugConsole.DebugWrite` | kernel/lib/syscalls/syscalls_debug.cpp:78-92 | the length is clamped to 256; if that many bytes cannot be copied the call returns ERR_INVALID_ARGS and emits nothing; otherwise it emits exactly the first min(len, 256) source bytes in order and returns that count |
| `DebugConsole.DebugSendCommand` | kernel/lib/syscalls/syscalls_debug.cpp:94-113 | a failed resource check returns its status; a length over 256 is refused with ERR_INVALID_ARGS before any copy; a failed copy returns ERR_INVALID_ARGS; otherwise the interpreter receives the len source bytes followed by '\n' and a NUL, and its status is returned |
| `HandleTransfer.RemoveHolder` | kernel/lib/syscalls/syscalls_debug.cpp:128 | removing a handle lowers the count of handles to its object by one and leaves every other object's count alone |
| `HandleTransfer.AddHolder` | kernel/lib/syscalls/syscalls_debug.cpp:133 | adding a handle under a free value raises the count of handles to its object by one and leaves every other object's count alone |
| `HandleTransfer.MoveKeepsRefCount` | kernel/lib/syscalls/syscalls_debug.cpp:128-133 | moving a handle between tables keeps, for every object, the number of handles to it summed over both tables |
| `HandleTransfer.DebugTransferHandle` | kernel/lib/syscalls/syscalls_debug.cpp:115-135 | a failed READ+WRITE process lookup returns its status; a transfer to the caller returns ERR_INVALID_ARGS; a missing source handle returns ERR_BAD_HANDLE; otherwise the transfer succeeds; every failure leaves all tables unchanged; on success the handle leaves the caller's table, the same entry sits in the destination's table under a new positive value, which is returned, per-object handle counts over the two tables are kept, and neither process's address space changes |
| `ProcessMemory.CheckBuffer` | kernel/lib/syscalls/syscalls_debug.cpp:140-143 | the pre-lookup check passes exactly for a non-null buffer and a length in 1..max, and otherwise yields ERR_INVALID_ARGS |
| `ProcessMemory.FindRegion` | kernel/lib/syscalls/syscalls_debug.cpp:157-159 | the region found belongs to the address space and holds the address; none is found only when no region holds it |
| `ProcessMemory.VmoOffset` | kernel/lib/syscalls/syscalls_debug.cpp:165 | the VM object offset is vaddr - base + object_offset in uint64 arithmetic: it agrees with that sum modulo 2^64, and equals it when the sum does not wrap |
| `ProcessMemory.LocateVmo` | kernel/lib/syscalls/syscalls_debug.cpp:147-163 | the lookups fail in order: the handle status, then ERR_BAD_STATE for a missing address space, then ERR_NO_MEMORY for a missing region or VM object; on success the region holds the address and is backed by the VM object returned |
| `ProcessMemory.ProcessReadMemory` | kernel/lib/syscalls/syscalls_debug.cpp:137-175 | a null buffer, length 0 or over 64 MiB returns ERR_INVALID_ARGS before any lookup; lookup failures follow, with READ+WRITE rights; the offset comes from the region; the count is written back only when the VM object read returns NO_ERROR, a failed write-back returns ERR_INVALID_ARGS, and any other VM status is returned unchanged; on success the count written back is at most len and equals the number of bytes the buffer received |
| `ProcessMemory.ProcessWriteMemory` | kernel/lib/syscalls/syscalls_debug.cpp:177-214 | the same order of checks with WRITE rights only; failures before the VM call change no VM object; otherwise only the located VM object changes, to what its write produces, and the count write-back convention is that of the read |
| `ProcessMemory.WriteThenRead` | kernel/lib/syscalls/syscalls_debug.cpp:168 | a successful VM object write followed by a read of the same range returns the bytes written |
| `ProcessMemory.WriteOnlyHandle` | kernel/lib/syscalls/syscalls_debug.cpp:148-149 | a WRITE-only process handle is refused for a read with ERR_ACCESS_DENIED but passes the rights check of a write |
| `ProcessMemory.WriteThenReadBack` | kernel/lib/syscalls/syscalls_debug.cpp:137-214 | writing bytes into a mapped range through sys_process_write_memory and reading the range back through sys_process_read_memory both succeed and return the bytes written |
| `Ktrace.KtraceRead` | kernel/lib/syscalls/syscalls_debug.cpp:216-224 | a failed resource check returns its status and calls nothing; otherwise ktrace_read_user is called with the caller's buffer, offset and length, and its result is returned |
| `Ktrace.KtraceControl` | kernel/lib/syscalls/syscalls_debug.cpp:226-244 | a failed resource check returns its status and calls nothing; NEW_PROBE copies exactly MX_MAX_NAME_LEN - 1 name bytes, failing with ERR_INVALID_ARGS if it cannot, and passes them NUL-terminated; other actions pass no name; whenever ktrace_control is called its status is returned |
| `Ktrace.KtraceWrite` | kernel/lib/syscalls/syscalls_debug.cpp:246-266 | an event id over 0x7FF returns ERR_INVALID_ARGS and opens no record; no slot returns ERR_UNAVAILABLE; the call succeeds exactly when all checks pass, and then the record's arguments are exactly (arg0, arg1) |
| `Ktrace.EventIdBoundary` | kernel/lib/syscalls/syscalls_debug.cpp:253-265 | event id 0x800 is refused with ERR_INVALID_ARGS, while 0x7FF succeeds or reports ERR_UNAVAILABLE when no slot is free |
| `ThreadState.ThreadReadState` | kernel/lib/syscalls/syscalls_debug.cpp:268-311 | lookup with READ, a faulting length read, a length over kMaxThreadStateSize and a failed allocation fail in that order with nothing written back; the length is written back exactly when ReadState returns NO_ERROR or ERR_BUFFER_TOO_SMALL, a failed write-back returns ERR_INVALID_ARGS, other ReadState statuses are returned as they are, and bytes reach the caller only on NO_ERROR |
| `ThreadState.ProbeThenRead` | kernel/lib/syscalls/syscalls_debug.cpp:294-300 | for a state of size need, a call with length 0 returns ERR_BUFFER_TOO_SMALL and writes back need, and a second call with that length succeeds with need bytes |
| `ThreadState.ThreadWriteState` | kernel/lib/syscalls/syscalls_debug.cpp:313-343 | lookup with WRITE, a length over kMaxThreadStateSize and a failed allocation fail in that order; a failed source copy returns ERR_INVALID_ARGS without calling WriteState; otherwise WriteState gets the thread, the kind, the len copied bytes and a privileged flag of false, and its status is returned |
| `BootloaderDisplay.PixelSize` | system/dev/display/intel-i915/bootloader-display.cpp:29-46 | RGB_565 has 2 bytes per pixel; RGB_x888 and ARGB_8888 have 4; RGB_332, RGB_2220, MONO_1 and MONO_8 have 1; any other format has none |
| `BootloaderDisplay.Init` | system/dev/display/intel-i915/bootloader-display.cpp:13-49 | on a successful probe, format, width, height and stride are the probe's; on a failed probe they are RGB_565, 1280, 850 and 1280; flags are the hardware-framebuffer flag on every path; Init succeeds exactly for a recognised format, with pixelsize that format's size, and otherwise leaves pixelsize as the caller had it |
| `BootloaderDisplay.FallbackSucceeds` | system/dev/display/intel-i915/bootloader-display.cpp:21-31 | the fallback path always succeeds, with pixelsize 2 |

## Left out

- Console transport: `getchar` and `platform_dputc` are an input sequence and
  an output sequence. A `getchar` that would block for more input is modelled
  as the end of the sequence, which reads as a negative value.
- `console_run_script`: an opaque function of the script. The script is the
  whole terminated buffer; how the interpreter parses it is not modelled.
- User-copy internals (`magenta_copy_from_user`, `copy_to_user_u8_unsafe`,
  `user_ptr`): fault handling is reduced to the length of the accessible run
  at the pointer. A bulk copy to user memory that faults is modelled as
  storing nothing, because the partial effect of a fault is not shown.
- Internals of `FindRegion`, of the VM object's `ReadUser` and `WriteUser`,
  and of the handle table: paging, locking and the region tree are not shown.
  They are modelled as a first-match search over a sequence of regions, a
  range check plus a byte copy, and a map. The VM object code is not part of
  this model. Here a request that starts past the object's end returns
  `ERR_OUT_OF_RANGE`, and one that runs past the end is trimmed to it, so a
  successful read or write may move fewer than len bytes. A fault in the user
  buffer returns `ERR_INVALID_ARGS` after moving the bytes before the fault.
  Reference counting of objects is represented only by counting the handles
  that refer to each object.
- `MapHandleToValue`: the handle-value scheme is not shown. It is replaced
  by a per-process counter that always gives a value not yet in the table.
- `ThreadDispatcher::ReadState` and `WriteState`, and the register layouts:
  architecture specific and not shown, so they are function parameters.
  `ReadState` is assumed to keep its own contract: on success it fills no
  more than the buffer it was given.
- Ktrace ring storage (`ktrace_open`, `ktrace_read_user`, `ktrace_control`):
  only success or failure and the record's arguments are modelled. The
  `TAG_PROBE_24` tag encoding and the timestamp are not.
- `AllocChecker` failure is a boolean input that yields `ERR_NO_MEMORY`.
- The `int` cast of the pointer difference that `sys_debug_read` returns is
  not reproduced; the model returns the explicit byte count.
- Concurrency: races on thread state and address-space teardown in the
  middle of a call are not modelled.
- Logging (`LTRACEF`, `zxlogf`).
- `bootloader-display.h` declares the class and holds no logic. The
  `BootloaderDisplay` constructor only forwards to `DisplayDevice`, which is
  not part of this model.
- Pixel formats are an enumeration. The numeric `ZX_PIXEL_FORMAT_*` codes
  and the flag's bit value are not modelled.
