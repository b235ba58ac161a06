# cheatron-native-mock in Dafny

This project models the in-memory Windows simulation at the core of
cheatron-native-mock. It covers:

- the kernel object registry (`Kernel`);
- the simulated processes, threads and modules;
- each process's page-granular virtual address space (`MemoryManager`);
- each process's handle table;
- the shims that expose these as the Win32 entry points of kernel32, psapi
  and msvcrt;
- the constants and record layouts those shims rely on.

One Dafny module corresponds to each source file:

| Dafny module | source file | form |
|---|---|---|
| `Memory` | `src/os/memory.ts` | class `MemoryManager` over a page-table field; loops with invariants |
| `Handles` | `src/os/handles.ts` | class `HandleTable` |
| `Thread` | `src/os/thread.ts` | class `SimulatedThread` plus the pure suspend/resume state machine |
| `Process` | `src/os/process.ts` | class `SimulatedProcess` |
| `Modules` | `src/os/module.ts` | class `SimulatedModule` |
| `Kernel` | `src/os/kernel.ts` | class `Kernel` (the registry) |
| `Kernel32` | `src/kernel32.ts` | shims over the kernel, plus the MEMORY_BASIC_INFORMATION serialization |
| `Psapi` | `src/psapi.ts` | `GetModuleInformation` and the MODULEINFO serialization |
| `Msvcrt` | `src/msvcrt.ts` | `malloc`, `free`, `memcpy`, `memset`, `memcmp` |
| `Constants` | `src/constants.ts` | flag values and C record layouts |
| `Buffers` | (Node `Buffer` operations used throughout) | little-endian fields, copy, compare |

Stateful source classes are Dafny classes. Their fields are updated by methods
with `modifies` clauses, and each method is proved against a specification
function of the old state:

- JavaScript `Map`s become a Dafny `map` field. Where iteration order matters, a
  `seq` of keys in insertion order sits beside the map: the kernel's processes
  and a process's threads.
- Page contents are byte sequences inside a `Page` value.
- Shim buffers (`lpBuffer`, a MODULEINFO buffer, msvcrt buffers) are Dafny
  arrays, updated in place.

Handles are unbounded integers. The shims compare them as follows:

- kernel32 compares a handle against the unsigned pseudo-handle value exactly.
- The kernel and psapi first read it as a signed 64-bit value (`AsInt64`,
  which is `BigInt.asIntN(64, ·)`).

Modules are created only by their constructor, and they gain exports only
through `addExport` (`src/os/module.ts:15-17`). No operation looks a module up
by name.

Where the tests expect something the code does not do, the model follows the
code. The kernel32 thread entry points return fixed answers and do not consult
the simulated threads:

- `OpenThread` always returns 0x200.
- `GetCurrentThreadId` always returns 98765.
- `SuspendThread` and `ResumeThread` always return 0.
- `GetThreadContext` always returns 0.
- `SetThreadContext` always returns 1.

`GetModuleInformation` is the one place where the model departs from the code.
As written it reads `process.modules` (`src/psapi.ts:28`), a field that
`SimulatedProcess` (`src/os/process.ts`) never declares, so it throws for every
handle that resolves to a process. The model keeps both behaviours:

- `Psapi.GetModuleInformationAsWritten` is the code as written.
- `Psapi.GetModuleInformation` is the evidently intended behaviour. It gives
  every process a `modules` list that starts empty.

"## Findings" records the discrepancy.

## Model

| member | source | states |
|---|---|---|
| Buffers.Filled | src/msvcrt.ts:53 | `Buffer.alloc(n, value)`: n bytes, each equal to the value reduced mod 256 |
| Buffers.DecodeEncodeLE | src/kernel32.ts:183-195 | reading back a little-endian encoding of v in `width` bytes gives v |
| Buffers.EncodeDecodeLE | src/kernel32.ts:183-195 | encoding the value a byte string denotes gives that byte string back |
| Buffers.PutLE | src/kernel32.ts:183 | `writeBigUInt64LE`/`writeUInt32LE`: the field bytes become the encoding, and every other byte is unchanged |
| Buffers.GetPutSame | src/kernel32.ts:183-195 | a field reads back as the value just stored in it |
| Buffers.GetPutOther | src/kernel32.ts:183-195 | a store leaves every non-overlapping field's value unchanged |
| Buffers.GetPutAll | src/kernel32.ts:183-195 | after a sequence of pairwise-disjoint stores, each field reads back as its value |
| Buffers.PutAllElsewhere | src/psapi.ts:43-46 | a sequence of stores leaves bytes outside all its fields unchanged |
| Buffers.WriteLE | src/kernel32.ts:183 | storing into an array in place leaves it equal to the `PutLE` of its old contents |
| Buffers.CopyInto | src/kernel32.ts:53 | `data.copy(lpBuffer)` copies min(source, target) bytes to the front and leaves the rest as it was |
| Buffers.Compare | src/msvcrt.ts:85 | `Buffer.compare` returns -1, 0 or 1 |
| Buffers.CompareZeroIffEqual | src/msvcrt.ts:85 | the comparison is 0 exactly when the byte strings are equal |
| Buffers.CompareAntisymmetric | src/msvcrt.ts:85 | swapping the operands negates the result |
| Buffers.CompareFirstDifference | src/msvcrt.ts:85 | the result is decided by the first differing byte, or else by which string is a proper prefix |
| Constants.ProtectionsAreDistinctBits | src/constants.ts:46-58 | the eleven page protections are distinct single bits, from 0x01 to 0x400 |
| Constants.StatesAndTypesAreDistinctBits | src/constants.ts:63-76 | the region states and types are pairwise disjoint single bits |
| Constants.ContextFlagsComposition | src/constants.ts:119-129 | every CONTEXT flag includes the AMD64 bit; FULL = CONTROL, INTEGER and FLOATING_POINT; ALL = FULL, SEGMENTS and DEBUG_REGISTERS |
| Constants.AllAccessIncludesEveryRight | src/constants.ts:5-40 | PROCESS_ALL_ACCESS and THREAD_ALL_ACCESS include every individual right |
| Constants.ExtentOfPrefix | src/constants.ts:149-215 | in a natural-alignment layout, appending fields does not move the earlier ones |
| Constants.ExtentOfConcat | src/constants.ts:149-215 | laying out a + b is laying out a, then b behind it |
| Constants.MemoryBasicInformationLayout | src/constants.ts:100-113 | MEMORY_BASIC_INFORMATION places its fields at 0, 8, 16, 24, 32, 36 and 40 and is 48 bytes |
| Constants.ContextLayout | src/constants.ts:135-215 | M128A is 16 bytes; in CONTEXT, ContextFlags is at 0x30, Rip at 0xf8, FltSave at 0x100, VectorRegister at 0x300 |
| Constants.ContextSize | src/constants.ts:149-217 | CONTEXT is 1232 bytes |
| Memory.AlignDown | src/os/memory.ts:26-28 | the page base is a multiple of 4096 with base <= a < base + 4096 |
| Memory.AlignDownUnique | src/os/memory.ts:26-28 | that page base is the only such multiple |
| Memory.PageCount | src/os/memory.ts:40 | `Math.ceil(size / 4096)`: the fewest pages covering `size` bytes |
| Memory.FreeCount | src/os/memory.ts:92 | the page count, or 1 when the size is 0 |
| Memory.Allocated | src/os/memory.ts:68-81 | the pages of the run join the table and nothing else is added or removed |
| Memory.Decommitted | src/os/memory.ts:94-104 | a decommit keeps the table's set of pages |
| Memory.Released | src/os/memory.ts:106-119 | a release removes exactly the pages of the run |
| Memory.Written | src/os/memory.ts:157-195 | a write keeps the table's set of pages |
| Memory.CopyIntoPage | src/os/memory.ts:177-182 | the chunk lands at the offset; the page's other bytes and its state, protection and type are unchanged |
| Memory.Query | src/os/memory.ts:197-222 | the descriptor of the page holding the address: its base, one page size, FREE/NOACCESS/PRIVATE when absent, otherwise the page's state, protection and type |
| Memory.ReadBytes | src/os/memory.ts:124-155 | a read returns exactly `size` bytes |
| Memory.WritableRunIsStop | src/os/memory.ts:162-192 | a write that stopped at the first page it may not write has stored exactly the writable prefix of the range |
| Memory.AllocateThenQuery | src/os/memory.ts:68-81 | after allocate, every address in the run is committed with the requested protection, keeping an existing page's type |
| Memory.AllocateThenRead | src/os/memory.ts:70-80 | a new page reads as zero; a recommitted page keeps its bytes |
| Memory.AllocateElsewhere | src/os/memory.ts:68-81 | allocate changes nothing outside its run |
| Memory.DecommitThenQuery | src/os/memory.ts:94-104 | decommitted pages become reserved and read as zero; absent pages stay free; the rest is untouched |
| Memory.ReleaseThenQuery | src/os/memory.ts:106-119 | released pages become free; the rest is untouched |
| Memory.RegionLifecycle | tests/unit/kernel32_mem.test.ts:5-52 | a 16 KiB region is committed after allocate, reserved after a full decommit and free after a release of size 0 |
| Memory.ReadAfterWrite | src/os/memory.ts:124-195 | reading back bytes written to readable, writable pages gives exactly the bytes written |
| Memory.AllocateWriteRead | tests/unit/kernel32_mem.test.ts:54-80 | a write into a fresh read-write region is stored in full and reads back unchanged |
| Memory.WriteElsewhere | src/os/memory.ts:157-195 | a write changes no byte and no descriptor outside the span it stored |
| Memory.MemoryManager.constructor | src/os/memory.ts:19-21 | a new address space has no pages |
| Memory.MemoryManager.HasCollision | src/os/memory.ts:50-56 | the scan reports a collision exactly when some page of the run is present |
| Memory.MemoryManager.FindFreeRun | src/os/memory.ts:44-59 | the first page-aligned run from 0x10000 with no present page: no collision there, and a collision at every earlier candidate |
| Memory.MemoryManager.Allocate | src/os/memory.ts:34-84 | the base is the aligned requested address, or the first free run when the address is 0; the table becomes `Allocated(old, base, PageCount(size), protect)` |
| Memory.MemoryManager.Free | src/os/memory.ts:86-122 | DECOMMIT gives `Decommitted` and RELEASE gives `Released`, both from the aligned address over `FreeCount(size)` pages; any other type returns false and changes nothing |
| Memory.MemoryManager.Read | src/os/memory.ts:124-155 | the result is `ReadBytes`: committed, accessible pages supply their bytes, and every other byte is zero |
| Memory.MemoryManager.Write | src/os/memory.ts:157-195 | `written` bytes were all writable, the next byte (if any) is not, and the table becomes `Written(old, address, data, written)` |
| Handles.HandleTable.constructor | src/os/handles.ts:10-11 | a new table is empty and its counter starts at 4 |
| Handles.HandleTable.CreateHandle | src/os/handles.ts:13-30 | returns the counter value, advances it by 4 and adds that entry; the value is above every existing handle and not in use |
| Handles.HandleTable.GetObject | src/os/handles.ts:32-34 | the entry for the handle exactly when there is one |
| Handles.HandleTable.CloseHandle | src/os/handles.ts:36-38 | removes the handle; returns true exactly when it was present |
| Handles.HandleLifecycle | src/os/handles.ts:9-39 | handles 4 and 8 are minted in turn; closing succeeds once, and the other entry survives |
| Thread.MergedFields | src/os/thread.ts:88-90 | `setContext` overwrites exactly the supplied registers |
| Thread.MergedExtremes | src/os/thread.ts:88-90 | merging no fields changes nothing; merging every field replaces the record |
| Thread.ContextExtensionality | src/os/thread.ts:9-28 | two contexts that agree on every register are equal |
| Thread.DefaultContextRegisters | src/os/thread.ts:43-62 | a new thread has Rip 0x7ff700001000, Rsp 0xe0000, EFlags 0x202 and every other register 0 |
| Thread.Suspended | src/os/thread.ts:65-71 | suspend adds one suspension; a running thread starts waiting |
| Thread.Resumed | src/os/thread.ts:73-81 | resume removes one suspension if there is any; the thread is ready when the count reaches zero |
| Thread.SuspendedTimesCount | src/os/thread.ts:65-71 | n suspends raise the count by n |
| Thread.ResumedTimesCount | src/os/thread.ts:73-81 | n resumes lower the count by n but never below 0, and leave the thread ready once it reaches 0 |
| Thread.SuspendThenResume | src/os/thread.ts:65-81 | n suspends followed by n resumes restore the count; an unsuspended thread ends ready |
| Thread.SimulatedThread.constructor | src/os/thread.ts:37-63 | a new thread is initialized, not suspended, with the default context |
| Thread.SimulatedThread.Suspend | src/os/thread.ts:65-71 | returns the previous count; the schedule becomes `Suspended(old)` and the context is unchanged |
| Thread.SimulatedThread.Resume | src/os/thread.ts:73-81 | returns the new count; the schedule becomes `Resumed(old)` |
| Thread.SimulatedThread.GetContext | src/os/thread.ts:83-86 | returns the saved context whatever the flags |
| Thread.SimulatedThread.SetContext | src/os/thread.ts:88-90 | the context becomes `Merged(old, partial)` and the schedule is unchanged |
| Thread.SuspendResumeFresh | tests/unit/kernel32_thread.test.ts:36-37 | on a fresh thread, suspend returns 0, resume returns 0, and the thread is ready |
| Process.SimulatedProcess.constructor | src/os/process.ts:15-21 | a new process has an empty address space, an empty handle table, no threads, no exit code, and thread ids starting at 1000 |
| Process.SimulatedProcess.CreateThread | src/os/process.ts:23-28 | mints the next thread id, owned by this process, appended in creation order |
| Process.SimulatedProcess.GetThread | src/os/process.ts:30-32 | the thread with that id exactly when there is one |
| Process.SimulatedProcess.Terminate | src/os/process.ts:34-40 | records the exit code (default 0) and drops every thread; the handles are left alone |
| Process.ThreadIdScenario | src/os/process.ts:23-40 | thread ids go 1000, 1001, and on to 1002 after a terminate |
| Modules.SimulatedModule.constructor | src/os/module.ts:8-13 | a module with its id, name, base and size, and no exports |
| Modules.SimulatedModule.AddExport | src/os/module.ts:15-17 | the export resolves to base + offset and every other name resolves as before |
| Modules.SimulatedModule.GetProcAddress | src/os/module.ts:19-21 | the export's address exactly when the name is exported |
| Modules.ExportScenario | src/os/module.ts:15-21 | two exports resolve to base + 0x20 and base + 0x40; an unknown name resolves to nothing |
| Kernel.AsInt64 | src/os/kernel.ts:86 | `BigInt.asIntN(64, x)`: in the signed 64-bit range and congruent to x mod 2^64 |
| Kernel.PseudoHandleValues | src/kernel32.ts:6-7 | 0xffff…ff and -1 both read as -1; 0xffff…fe and -2 both read as -2 |
| Kernel.MintedNotPseudo | src/os/handles.ts:11-19 | a minted handle, a multiple of 4, is never read as a pseudo-handle |
| Kernel.FirstWithThread | src/os/kernel.ts:72-81 | the first process, in insertion order, that owns the thread id |
| Kernel.FirstWithThreadIsFirst | src/os/kernel.ts:72-81 | a process owning the thread id, with none before it that does, is that first one |
| Kernel.Kernel.constructor | src/os/kernel.ts:14-31 | System (pid 4) and the current process (pid 9999, with thread 1000) are registered in that order, and the pid counter is 4; both address spaces are empty, the thread counter is 1001, and thread 1000 is initialized, not suspended and has the default registers |
| Kernel.Kernel.OrderedProcesses | src/os/kernel.ts:8 | the registered processes in insertion order |
| Kernel.Kernel.CreateProcess | src/os/kernel.ts:33-39 | takes the next pid and advances it by 4; the new process is registered under that pid, and an existing entry is replaced in place |
| Kernel.Kernel.GetProcess | src/os/kernel.ts:41-43 | the process registered under the pid exactly when there is one |
| Kernel.Kernel.GetObjectFromHandle | src/os/kernel.ts:108-110 | a lookup in the current process's table only |
| Kernel.Kernel.GetProcessId | src/os/kernel.ts:91-97 | -1 gives the current pid; a process handle gives the designated object's id; anything else gives 0 |
| Kernel.Kernel.GetThreadId | src/os/kernel.ts:99-105 | -2 gives the current process's first thread id, or 0 when it has no thread; a thread handle gives the designated object's id; anything else gives 0 |
| Kernel.Kernel.OpenProcess | src/os/kernel.ts:47-64 | 0 and no change for an unknown pid; otherwise a new handle naming that process, for which `GetProcessId` gives the pid |
| Kernel.Kernel.FindThread | src/os/kernel.ts:72-81 | the scan finds the thread of the first process in insertion order that owns it, or nothing exactly when no process does |
| Kernel.Kernel.OpenThread | src/os/kernel.ts:66-83 | 0 and no change when no process owns the thread; otherwise a new handle to it, for which `GetThreadId` gives the tid |
| Kernel.Kernel.CloseHandle | src/os/kernel.ts:85-89 | -1 and -2 succeed without changing the table; any other handle is removed, and the call succeeds exactly when the handle was present |
| Kernel.BootstrapScenario | tests/unit/kernel32_proc.test.ts:5-14 | the pseudo-handles give pid 9999 and tid 1000; the first `createProcess` takes pid 4 in System's place |
| Kernel.OpenCloseScenario | tests/unit/kernel32_proc.test.ts:16-29 | opening pid 9999 yields handle 4, which names 9999 and closes only once |
| Kernel.OpenThreadScenario | src/os/kernel.ts:66-83 | thread 1000 opens as handle 4 naming tid 1000; thread 5 gives 0 |
| Kernel32.ResolveProcess | src/kernel32.ts:35-46 | the current process for the exact pseudo-handle; otherwise the target of a process handle, or nothing |
| Kernel32.OpenProcess | src/kernel32.ts:11-17 | 0 exactly for an unknown pid; otherwise an unused handle whose pid is the requested one |
| Kernel32.GetCurrentProcess | src/kernel32.ts:18 | a handle that reads as -1 |
| Kernel32.GetCurrentProcessId | src/kernel32.ts:19 | the current process's id |
| Kernel32.CurrentProcessIdentity | src/kernel32.ts:18-19 | the pseudo-handle resolves to the current process, whose id is 9999 and agrees with `GetProcessId` |
| Kernel32.CloseHandle | src/kernel32.ts:20-25 | 1 for either pseudo-handle; otherwise 1 exactly when an entry was removed |
| Kernel32.ReadProcessMemory | src/kernel32.ts:28-58 | 0 and no change when the handle names no process; otherwise the target's `ReadBytes` lands at the front of the buffer and 1 is returned |
| Kernel32.WriteProcessMemory | src/kernel32.ts:59-92 | the first nSize bytes are written to the target; 1 exactly when the writable prefix is nonempty; no other address space changes |
| Kernel32.VirtualAllocEx | src/kernel32.ts:107-144 | 0 when the handle names no process; otherwise the target's `Allocate`, with no other address space changed |
| Kernel32.VirtualAlloc | src/kernel32.ts:93-106 | `VirtualAllocEx` on the current process |
| Kernel32.EncodeMbi | src/kernel32.ts:181-195 | serializing the descriptor keeps the buffer length |
| Kernel32.MbiFieldsReadBack | src/kernel32.ts:181-195 | each of the seven serialized fields reads back as the stored value |
| Kernel32.MbiRoundTrip | src/kernel32.ts:181-195 | decoding the serialized descriptor gives the descriptor back |
| Kernel32.MbiPadding | src/kernel32.ts:181-195 | bytes 20..24 and every byte from 44 on are left as they were |
| Kernel32.StoreMbi | src/kernel32.ts:183-195 | the seven in-place stores leave the buffer equal to `EncodeMbi` of its old contents |
| Kernel32.MbiFieldsFollowLayout | src/kernel32.ts:181-195 | the seven stores go to the offsets and widths of their fields in the MEMORY_BASIC_INFORMATION layout of src/constants.ts:100-111 |
| Kernel32.VirtualQueryEx | src/kernel32.ts:159-198 | 0 and no change when the handle names no process; otherwise the target's `Query` is serialized and `dwLength` returned |
| Kernel32.VirtualQuery | src/kernel32.ts:146-158 | `VirtualQueryEx` on the current process |
| Kernel32.OpenThread | src/kernel32.ts:201-207 | always the placeholder handle 0x200 |
| Kernel32.GetCurrentThread | src/kernel32.ts:208 | a handle that reads as -2 |
| Kernel32.GetCurrentThreadId | src/kernel32.ts:209 | always 98765 |
| Kernel32.SuspendThread | src/kernel32.ts:210-218 | 0 on every path |
| Kernel32.ResumeThread | src/kernel32.ts:219-227 | 0 on every path |
| Kernel32.GetThreadContext | src/kernel32.ts:228-230 | always 0 |
| Kernel32.SetThreadContext | src/kernel32.ts:231-233 | always 1 |
| Kernel32.GetLastError | src/kernel32.ts:234 | always 0 |
| Kernel32.ProcessScenario | tests/unit/kernel32_proc.test.ts:5-38 | the current pid is 9999; opening it yields handle 4, which closes once; the pseudo-handle always closes |
| Kernel32.WriteReadScenario | tests/unit/kernel32_mem.test.ts:54-80 | data written into a fresh allocation reports 1 and reads back unchanged |
| Kernel32.QueryBaseAndState | src/kernel32.ts:146-198 | the BaseAddress read from the buffer is the page base, and State is the page's state |
| Kernel32.FreeInCurrent | src/os/memory.ts:86-122 | a decommit or release in the current process keeps the kernel consistent |
| Kernel32.AllocateInEmpty | tests/unit/kernel32_mem.test.ts:5-17 | a 16 KiB allocation in an empty address space lands at 0x10000 |
| Kernel32.MemoryLifecycleScenario | tests/unit/kernel32_mem.test.ts:5-52 | the region queries as COMMIT, then RESERVE after a decommit, then FREE after a release |
| Psapi.ResolveProcess | src/psapi.ts:12-24 | the current process for any handle that reads as -1; otherwise the target of a process handle, or nothing |
| Psapi.FindModule | src/psapi.ts:28-30 | the first module with the requested base, or nothing exactly when none has it |
| Psapi.LookupModule | src/psapi.ts:12-32 | the module exists exactly when the process resolves and has a module at that base |
| Psapi.EncodeModuleInfo | src/psapi.ts:43-46 | serializing MODULEINFO keeps the buffer length |
| Psapi.ModuleInfoRoundTrip | src/psapi.ts:43-46 | the base reads back at 0, the size at 8 and base + 0x1000 at 12; bytes from 20 on are unchanged |
| Psapi.ModuleInfoEntryPointOffset | src/psapi.ts:34-46 | the x64 MODULEINFO record is 24 bytes; the base and size stores sit at its fields, but its EntryPoint is at 16 where the store goes to 12 |
| Psapi.StoreModuleInfo | src/psapi.ts:43-46 | the three in-place stores leave the buffer equal to `EncodeModuleInfo` of its old contents |
| Psapi.GetModuleInformation | src/psapi.ts:6-56 | 1 exactly when the module is found and cb >= 24, and then the base, size and entry point are stored into the buffer or record; otherwise 0 and nothing changes |
| Psapi.GetModuleInformationAsWritten | src/psapi.ts:12-32 | as written: 0 when the handle names no process, and an exception exactly when it resolves to one |
| Psapi.AsWrittenThrowsOnCurrentProcess | src/psapi.ts:13-28 | as written, every call on the current-process pseudo-handle throws, whatever module and size it passes |
| Psapi.UnknownModuleScenario | tests/unit/psapi.test.ts:23-33 | in the model an unknown base address gives 0 and leaves the buffer alone; the call as written throws |
| Psapi.KnownModuleScenario | tests/unit/psapi.test.ts:5-21 | in the model a known module gives 1, with its base at 0, its size at 8 and base + 0x1000 at 12; the call as written throws |
| Msvcrt.BytesLength | src/msvcrt.ts:36-40 | an operand supplies `count` bytes, or all of a shorter buffer |
| Msvcrt.Malloc | src/msvcrt.ts:19-22 | a read-write commit at the first free run from 0x10000; a nonempty block queries as committed read-write memory |
| Msvcrt.Free | src/msvcrt.ts:24-26 | releases the page holding the pointer, which then queries as free |
| Msvcrt.Store | src/msvcrt.ts:42-46 | a buffer destination receives the front of the data; an address destination receives the writable prefix |
| Msvcrt.Memcpy | src/msvcrt.ts:28-49 | the source bytes, taken before any store, go to the destination; the destination is returned |
| Msvcrt.Memset | src/msvcrt.ts:51-62 | `count` bytes of value mod 256 go to the destination, and the bytes beyond it are unchanged |
| Msvcrt.Memcmp | src/msvcrt.ts:64-86 | -1, 0 or 1, and 0 exactly when both operands supply the same bytes |
| Msvcrt.MemcmpAntisymmetric | src/msvcrt.ts:64-86 | swapping the operands negates the result |
| Msvcrt.CopyCompareScenario | tests/unit/msvcrt.test.ts:25-36 | after memcpy, memcmp finds the copy equal and a buffer differing in byte 0 unequal |
| Msvcrt.MemsetScenario | tests/unit/msvcrt.test.ts:38-45 | memset of five bytes of 0x41 sets bytes 0 to 4 and leaves byte 5 |
| Msvcrt.MallocScenario | tests/unit/msvcrt.test.ts:5-23 | a 256-byte malloc returns a nonzero pointer that queries as COMMIT, and FREE after free |

## Left out

- Logging (`src/logger.ts`) is not part of this model, and neither is the
  global singleton `kernel` (`src/os/kernel.ts:114`). Every entry point takes
  the kernel as an explicit parameter.
- `src/index.ts`, `src/process.ts` and `src/thread.ts` are not part of this
  model. Neither are the koffi struct objects as runtime values: their
  layouts are restated as `Constants` field lists.
- JavaScript `Number` precision is not modelled. Addresses and sizes are
  unbounded naturals, and the shims' `Number(...)` conversions are the
  identity.
- Negative addresses are not modelled.
- The `try`/`catch` paths of the shims are not modelled. The memory operations
  they guard do not throw for natural arguments.
- Kernel32.VirtualQueryEx: Node throws a RangeError for a buffer shorter than
  44 bytes or an address of 2^64 or more. The model requires both instead.
- Psapi.ModuleInfoRoundTrip: it reads the entry point back at offset 12,
  where `src/psapi.ts:46` stores it and `tests/unit/psapi.test.ts:20` reads it.
  The x64 MODULEINFO that the comment at `src/psapi.ts:34-41` describes puts
  EntryPoint at 16, after four bytes of padding
  (`Psapi.ModuleInfoEntryPointOffset`). This is a possible defect of the code,
  not executed. The model keeps offset 12 because the code and its test agree.
- Psapi.GetModuleInformation: it reads a per-process `modules` list that
  `src/os/process.ts` does not declare. As written (`src/psapi.ts:28`), the call
  throws a TypeError whenever the handle resolves to a process. That behaviour
  is `Psapi.GetModuleInformationAsWritten`; see "## Findings".
- Psapi.LookupModule: it searches the same `modules` list. As written, the
  search throws instead of finding or missing a module.
- Psapi.UnknownModuleScenario: it proves the result 0 of the corrected call.
  As written, the call in `tests/unit/psapi.test.ts:26-31` throws, and the
  scenario states that as well (`asWritten == Threw`).
- Psapi.KnownModuleScenario: it requires a non-empty module list. No operation
  of the source adds a module to a process, and the test obtains its module
  from `GetModuleHandleW`, which `src/kernel32.ts` does not define. As written,
  the call throws, and the scenario states that as well.
- Psapi.GetModuleInformation: Node throws a RangeError for a buffer shorter
  than 20 bytes or for values that do not fit their fields. The model requires
  both instead.
- Access masks and `bInheritHandle` are stored or ignored exactly as in the
  source. Nothing enforces them.
- Handle values are never reused. The source's comment about reuse describes
  nothing the code does.
- Process removal from the registry is not modelled: the code has no such
  operation.
- `GetModuleHandleW`, `VirtualFreeEx`, `VirtualFree`, `GetProcessId`,
  `GetThreadId`, `CreateRemoteThread`, `WaitForSingleObject` and
  `GetExitCodeThread` are not modelled. The tests call them on the kernel32
  shim, but `src/kernel32.ts` does not define them.
- Kernel32.GetThreadContext returns 0 as the code does.
  `tests/unit/kernel32_thread.test.ts:54` expects 1.
- Kernel32.GetCurrentThreadId returns the fixed 98765 as the code does.
  `tests/unit/kernel32_thread.test.ts:12-13` expects it to match the thread
  pseudo-handle's id.
- Msvcrt.Memset: only integer fill values are modelled. `Buffer.alloc` with a
  string or fractional fill is not covered.
- Memory.MemoryManager.Write: the ensures states that the stored bytes form a
  writable prefix and that the write stops at the first unwritable byte.
  `WritableRunIsStop` then turns this into "exactly `WritableRun` bytes",
  rather than the method stating it directly.
- Thread.SimulatedThread.GetContext: the result is the record as a value. The
  copy semantics of `{ ...this.context }` amount to the same thing.

## Findings

| source | as written | input that shows it | evidently intended | confidence | as-written member | corrected member |
|---|---|---|---|---|---|---|
| src/psapi.ts:28 | reads `process.modules`, which `SimulatedProcess` never declares, so the call throws a TypeError for every resolved process | `GetModuleInformation(0xffffffffffffffff, 0x1234, buf, 24)`, the call in tests/unit/psapi.test.ts:26-31 | each process keeps a list of its modules; the call returns 1 and fills MODULEINFO for a module at `hModule`, and otherwise returns 0 | high (not executed) | Psapi.GetModuleInformationAsWritten, Psapi.AsWrittenThrowsOnCurrentProcess | Psapi.GetModuleInformation |
