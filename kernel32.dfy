/** The kernel32 entry points: thin shims that resolve a process handle to a
    simulated process and delegate to its address space or to the kernel.
    Pointers and sizes are naturals; `lpBuffer` arguments are byte arrays the
    shim fills in place. */
module Kernel32 {
  import opened Buffers
  import opened Constants
  import opened Handles
  import opened Memory
  import opened Process
  import opened Kernel

  /** The pseudo handles for "the current process" and "the current thread":
      -1 and -2 as unsigned 64-bit values. */
  const PseudoHandleProcess: int := 0xffff_ffff_ffff_ffff
  const PseudoHandleThread: int := 0xffff_ffff_ffff_fffe

  /** The process a memory entry point acts on: the current process for the
      exact pseudo-handle value, otherwise the process named by an entry of the
      current handle table tagged as a process handle; nothing otherwise. */
  function ResolveProcess(k: Kernel, h: int): (r: Option<SimulatedProcess>)
    reads k, k.currentProcess.handles
    ensures h == PseudoHandleProcess ==> r == Some(k.currentProcess)
    ensures h != PseudoHandleProcess && r.Some? ==>
      h in k.currentProcess.handles.handles &&
      k.currentProcess.handles.handles[h].kind == ProcessHandle &&
      k.currentProcess.handles.handles[h].obj == ProcessObj(r.value)
    ensures
      (h != PseudoHandleProcess && h in k.currentProcess.handles.handles &&
       k.currentProcess.handles.handles[h].kind == ProcessHandle &&
       k.currentProcess.handles.handles[h].obj.ProcessObj?) ==> r.Some?
  {
    if h == PseudoHandleProcess then Some(k.currentProcess)
    else
      match k.GetObjectFromHandle(h)
      case Some(HandleObject(ProcessHandle, ProcessObj(p), _)) => Some(p)
      case _ => None
  }

  /** A resolved process is one the kernel knows, so its address space is valid. */
  lemma ResolvedIsKnown(k: Kernel, h: int)
    requires k.Valid()
    ensures ResolveProcess(k, h).Some? ==> ResolveProcess(k, h).value in k.known
  {
  }

  // ---------------------------------------------------------------------------
  // Processes and handles.

  /** `OpenProcess`: the BOOL flag is reduced to a truth value and the kernel
      opens the handle; 0 exactly for an unregistered pid, otherwise a handle
      not in use before that designates the requested process. */
  method OpenProcess(k: Kernel, dwDesiredAccess: int, bInheritHandle: int, dwProcessId: int) returns (h: int)
    requires k.Valid()
    modifies k.currentProcess.handles
    ensures k.Valid()
    ensures h == 0 <==> dwProcessId !in k.processes
    ensures h != 0 ==> h !in old(k.currentProcess.handles.handles) && k.GetProcessId(h) == dwProcessId
    ensures h != 0 ==>
      h == old(k.currentProcess.handles.nextHandleValue) &&
      k.currentProcess.handles.handles ==
        old(k.currentProcess.handles.handles)[h := HandleObject(ProcessHandle, ProcessObj(k.processes[dwProcessId]), dwDesiredAccess)]
    ensures h == 0 ==> k.currentProcess.handles.handles == old(k.currentProcess.handles.handles)
  {
    h := k.OpenProcess(dwDesiredAccess, bInheritHandle != 0, dwProcessId);
  }

  /** `GetCurrentProcess`: the process pseudo handle. */
  function GetCurrentProcess(): (h: int)
    ensures AsInt64(h) == -1
  {
    PseudoHandleProcess
  }

  /** `GetCurrentProcessId`: the id of the current process. */
  function GetCurrentProcessId(k: Kernel): (pid: int)
    reads k
    ensures pid == k.currentProcess.id
  {
    k.currentProcess.id
  }

  /** The pseudo handle and the current pid designate the same process. */
  lemma CurrentProcessIdentity(k: Kernel)
    requires k.Valid()
    ensures ResolveProcess(k, GetCurrentProcess()) == Some(k.currentProcess)
    ensures GetCurrentProcessId(k) == CurrentPid
    ensures k.GetProcessId(GetCurrentProcess()) == GetCurrentProcessId(k)
  {
    PseudoHandleValues();
  }

  /** `CloseHandle`: 1 for either pseudo handle (the table is untouched), else
      1 or 0 as the kernel reports closing an entry of the current table. */
  method CloseHandle(k: Kernel, hObject: int) returns (r: int)
    requires k.Valid()
    modifies k.currentProcess.handles
    ensures k.Valid()
    ensures r == 0 || r == 1
    ensures r == 1 <==> AsInt64(hObject) == -1 || AsInt64(hObject) == -2 || hObject in old(k.currentProcess.handles.handles)
    ensures k.currentProcess.handles.handles ==
      if AsInt64(hObject) == -1 || AsInt64(hObject) == -2 then old(k.currentProcess.handles.handles)
      else old(k.currentProcess.handles.handles) - {hObject}
  {
    PseudoHandleValues();
    if hObject == PseudoHandleProcess || hObject == PseudoHandleThread {
      return 1;
    }
    var ok := k.CloseHandle(hObject);
    r := if ok then 1 else 0;
  }

  // ---------------------------------------------------------------------------
  // Memory.

  /** `ReadProcessMemory`: 0 with the buffer untouched when the handle names no
      process; otherwise the `nSize` bytes from the address (unreadable bytes as
      zero) are copied to the front of the buffer, as many as fit, and 1 is
      returned. */
  method ReadProcessMemory(k: Kernel, hProcess: int, lpBaseAddress: nat, lpBuffer: array<Byte>, nSize: nat)
    returns (r: int)
    requires k.Valid()
    modifies lpBuffer
    ensures k.Valid()
    ensures ResolveProcess(k, hProcess).Some? ==> ResolveProcess(k, hProcess).value in k.known
    ensures ResolveProcess(k, hProcess).None? ==> r == 0 && lpBuffer[..] == old(lpBuffer[..])
    ensures ResolveProcess(k, hProcess).Some? ==>
      var data := ReadBytes(ResolveProcess(k, hProcess).value.memory.pages, lpBaseAddress, nSize);
      var copied := if nSize < lpBuffer.Length then nSize else lpBuffer.Length;
      r == 1 && lpBuffer[..] == data[..copied] + old(lpBuffer[copied..])
  {
    var process := ResolveProcess(k, hProcess);
    if process.None? {
      return 0;
    }
    ResolvedIsKnown(k, hProcess);
    var data := process.value.memory.Read(lpBaseAddress, nSize);
    var copied := CopyInto(data, lpBuffer);
    return 1;
  }

  /** `WriteProcessMemory`: 0 when the handle names no process; otherwise the
      first `nSize` bytes of the buffer are written, the target's pages become
      the table with the writable prefix of them stored, and the result is 1
      exactly when that prefix is not empty. No other address space changes. */
  method WriteProcessMemory(k: Kernel, hProcess: int, lpBaseAddress: nat, lpBuffer: seq<Byte>, nSize: nat)
    returns (r: int)
    requires k.Valid()
    modifies k.Memories()
    ensures k.Valid()
    ensures ResolveProcess(k, hProcess).Some? ==> ResolveProcess(k, hProcess).value in k.known
    ensures ResolveProcess(k, hProcess).None? ==>
      r == 0 && forall m :: m in old(k.Memories()) ==> m.pages == old(m.pages)
    ensures ResolveProcess(k, hProcess).Some? ==>
      var target := ResolveProcess(k, hProcess).value.memory;
      var chunk := lpBuffer[..if nSize < |lpBuffer| then nSize else |lpBuffer|];
      var stored := WritableRun(old(target.pages), lpBaseAddress, |chunk|);
      target.pages == Written(old(target.pages), lpBaseAddress, chunk, stored) &&
      (r == 1 <==> stored > 0) && (r == 0 || r == 1) &&
      forall m :: m in old(k.Memories()) && m != target ==> m.pages == old(m.pages)
  {
    var process := ResolveProcess(k, hProcess);
    if process.None? {
      return 0;
    }
    ResolvedIsKnown(k, hProcess);
    var target := process.value.memory;
    var chunk := lpBuffer[..if nSize < |lpBuffer| then nSize else |lpBuffer|];
    var written := target.Write(lpBaseAddress, chunk);
    WritableRunIsStop(old(target.pages), lpBaseAddress, |chunk|, written);
    r := if written > 0 then 1 else 0;
  }

  /** `VirtualAllocEx`: 0 when the handle names no process; otherwise the
      target commits `PageCount(dwSize)` pages with `flProtect` at the aligned
      requested address, or at the first free run from 0x10000 when the address
      is 0, and that base is returned. No other address space changes. */
  method VirtualAllocEx(k: Kernel, hProcess: int, lpAddress: nat, dwSize: nat, flAllocationType: bv32, flProtect: bv32)
    returns (base: nat)
    requires k.Valid()
    modifies k.Memories()
    ensures k.Valid()
    ensures ResolveProcess(k, hProcess).Some? ==> ResolveProcess(k, hProcess).value in k.known
    ensures ResolveProcess(k, hProcess).None? ==>
      base == 0 && forall m :: m in old(k.Memories()) ==> m.pages == old(m.pages)
    ensures ResolveProcess(k, hProcess).Some? ==>
      var target := ResolveProcess(k, hProcess).value.memory;
      base % PageSize == 0 &&
      (lpAddress > 0 ==> base == AlignDown(lpAddress)) &&
      (lpAddress == 0 ==> base >= SearchStart && !Collides(old(target.pages), base, PageCount(dwSize))) &&
      (lpAddress == 0 ==> forall c :: SearchStart <= c < base && c % PageSize == 0 ==>
         Collides(old(target.pages), c, PageCount(dwSize))) &&
      target.pages == Allocated(old(target.pages), base, PageCount(dwSize), flProtect) &&
      forall m :: m in old(k.Memories()) && m != target ==> m.pages == old(m.pages)
  {
    var process := ResolveProcess(k, hProcess);
    if process.None? {
      return 0;
    }
    ResolvedIsKnown(k, hProcess);
    base := process.value.memory.Allocate(lpAddress, dwSize, flAllocationType, flProtect);
  }

  /** `VirtualAlloc`: `VirtualAllocEx` on the current process. */
  method VirtualAlloc(k: Kernel, lpAddress: nat, dwSize: nat, flAllocationType: bv32, flProtect: bv32)
    returns (base: nat)
    requires k.Valid()
    modifies k.Memories()
    ensures k.Valid()
    ensures base % PageSize == 0
    ensures lpAddress > 0 ==> base == AlignDown(lpAddress)
    ensures lpAddress == 0 ==> base >= SearchStart && !Collides(old(k.currentProcess.memory.pages), base, PageCount(dwSize))
    ensures lpAddress == 0 ==> forall c :: SearchStart <= c < base && c % PageSize == 0 ==>
      Collides(old(k.currentProcess.memory.pages), c, PageCount(dwSize))
    ensures k.currentProcess.memory.pages == Allocated(old(k.currentProcess.memory.pages), base, PageCount(dwSize), flProtect)
    ensures forall m :: m in old(k.Memories()) && m != k.currentProcess.memory ==> m.pages == old(m.pages)
  {
    base := VirtualAllocEx(k, PseudoHandleProcess, lpAddress, dwSize, flAllocationType, flProtect);
  }

  /** The MEMORY_BASIC_INFORMATION stores, in the order the shim performs them:
      three 64-bit and four 32-bit little-endian fields. */
  function MbiFields(info: RegionInfo): seq<FieldWrite> {
    [FieldWrite(0, 8, info.baseAddress), FieldWrite(8, 8, info.allocationBase),
     FieldWrite(16, 4, info.allocationProtect as int), FieldWrite(24, 8, info.regionSize),
     FieldWrite(32, 4, info.state as int), FieldWrite(36, 4, info.protect as int),
     FieldWrite(40, 4, info.memType as int)]
  }

  /** The shim's stores follow the MEMORY_BASIC_INFORMATION record: each goes
      to the offset of its field in the naturally aligned layout, with that
      field's width; the partition id and padding fields receive no store. */
  lemma MbiFieldsFollowLayout(info: RegionInfo)
    ensures var fs := MbiFields(info);
      var layout := MemoryBasicInformation;
      var slots := [0, 1, 2, 5, 6, 7, 8];
      |fs| == |slots| &&
      forall i :: 0 <= i < |fs| ==>
        fs[i].offset == OffsetAt(layout, slots[i]) && fs[i].width == layout[slots[i]].size
  {
    MemoryBasicInformationLayout();
  }

  /** The 64-bit fields of `info` are representable. */
  predicate MbiFits(info: RegionInfo) {
    info.baseAddress < U64Limit && info.allocationBase < U64Limit && info.regionSize < U64Limit
  }

  /** `s` with `info` serialized over its first 44 bytes. */
  function EncodeMbi(s: seq<Byte>, info: RegionInfo): (r: seq<Byte>)
    requires |s| >= 44 && MbiFits(info)
    ensures |r| == |s|
  {
    FieldLimits();
    PutAll(s, MbiFields(info))
  }

  /** The descriptor that a MEMORY_BASIC_INFORMATION buffer holds. */
  function DecodeMbi(s: seq<Byte>): RegionInfo
    requires |s| >= 44
  {
    FieldLimits();
    RegionInfo(
      GetLE(s, 0, 8), GetLE(s, 8, 8), GetLE(s, 16, 4) as bv32, GetLE(s, 24, 8),
      GetLE(s, 32, 4) as bv32, GetLE(s, 36, 4) as bv32, GetLE(s, 40, 4) as bv32)
  }

  /** Each field of the serialization reads back as the value stored in it. */
  lemma MbiFieldsReadBack(s: seq<Byte>, info: RegionInfo)
    requires |s| >= 44 && MbiFits(info)
    ensures var r := EncodeMbi(s, info);
      GetLE(r, 0, 8) == info.baseAddress && GetLE(r, 8, 8) == info.allocationBase &&
      GetLE(r, 16, 4) == info.allocationProtect as int && GetLE(r, 24, 8) == info.regionSize &&
      GetLE(r, 32, 4) == info.state as int && GetLE(r, 36, 4) == info.protect as int &&
      GetLE(r, 40, 4) == info.memType as int
  {
    FieldLimits();
    var fs := MbiFields(info);
    assert PairwiseApart(fs);
    GetPutAll(s, fs, 0);
    GetPutAll(s, fs, 1);
    GetPutAll(s, fs, 2);
    GetPutAll(s, fs, 3);
    GetPutAll(s, fs, 4);
    GetPutAll(s, fs, 5);
    GetPutAll(s, fs, 6);
  }

  /** A 32-bit flag word survives the trip through an unsigned integer. */
  lemma FlagsAsInt(x: bv32)
    ensures (x as int) as bv32 == x
  {
  }

  /** The serialization loses nothing: decoding it gives back the descriptor. */
  lemma MbiRoundTrip(s: seq<Byte>, info: RegionInfo)
    requires |s| >= 44 && MbiFits(info)
    ensures DecodeMbi(EncodeMbi(s, info)) == info
  {
    MbiFieldsReadBack(s, info);
    FlagsAsInt(info.allocationProtect);
    FlagsAsInt(info.state);
    FlagsAsInt(info.protect);
    FlagsAsInt(info.memType);
  }

  /** The serialization leaves the padding at 20..24 and every byte from 44 on as it was. */
  lemma MbiPadding(s: seq<Byte>, info: RegionInfo)
    requires |s| >= 44 && MbiFits(info)
    ensures forall i :: 20 <= i < 24 || 44 <= i < |s| ==> EncodeMbi(s, info)[i] == s[i]
  {
    FieldLimits();
    forall i | 20 <= i < 24 || 44 <= i < |s|
      ensures EncodeMbi(s, info)[i] == s[i]
    {
      PutAllElsewhere(s, MbiFields(info), i);
    }
  }

  /** The seven stores of the serialization, one after another, on the buffer. */
  method StoreMbi(lpBuffer: array<Byte>, info: RegionInfo)
    requires lpBuffer.Length >= 44 && MbiFits(info)
    modifies lpBuffer
    ensures lpBuffer[..] == EncodeMbi(old(lpBuffer[..]), info)
  {
    FieldLimits();
    // `pending` holds the stores still to do: doing them on the buffer gives the serialization.
    ghost var pending := MbiFields(info);
    ghost var before := lpBuffer[..];
    WriteLE(lpBuffer, 0, info.baseAddress, 8);
    PutAllFirst(before, pending);
    pending, before := pending[1..], lpBuffer[..];
    WriteLE(lpBuffer, 8, info.allocationBase, 8);
    PutAllFirst(before, pending);
    pending, before := pending[1..], lpBuffer[..];
    WriteLE(lpBuffer, 16, info.allocationProtect as int, 4);
    PutAllFirst(before, pending);
    pending, before := pending[1..], lpBuffer[..];
    WriteLE(lpBuffer, 24, info.regionSize, 8);
    PutAllFirst(before, pending);
    pending, before := pending[1..], lpBuffer[..];
    WriteLE(lpBuffer, 32, info.state as int, 4);
    PutAllFirst(before, pending);
    pending, before := pending[1..], lpBuffer[..];
    WriteLE(lpBuffer, 36, info.protect as int, 4);
    PutAllFirst(before, pending);
    pending, before := pending[1..], lpBuffer[..];
    WriteLE(lpBuffer, 40, info.memType as int, 4);
    PutAllFirst(before, pending);
    assert pending[1..] == [];
  }

  /** `VirtualQueryEx`: 0 with the buffer untouched when the handle names no
      process; otherwise the target's descriptor of the page holding the
      address is serialized into the buffer and `dwLength` is returned as given. */
  method VirtualQueryEx(k: Kernel, hProcess: int, lpAddress: nat, lpBuffer: array<Byte>, dwLength: int)
    returns (r: int)
    requires k.Valid()
    requires ResolveProcess(k, hProcess).Some? ==> lpBuffer.Length >= 44 && lpAddress < U64Limit
    modifies lpBuffer
    ensures k.Valid()
    ensures ResolveProcess(k, hProcess).Some? ==> ResolveProcess(k, hProcess).value in k.known
    ensures ResolveProcess(k, hProcess).None? ==> r == 0 && lpBuffer[..] == old(lpBuffer[..])
    ensures ResolveProcess(k, hProcess).Some? ==>
      r == dwLength &&
      lpBuffer[..] == EncodeMbi(old(lpBuffer[..]), Query(ResolveProcess(k, hProcess).value.memory.pages, lpAddress))
  {
    var process := ResolveProcess(k, hProcess);
    if process.None? {
      return 0;
    }
    ResolvedIsKnown(k, hProcess);
    var info := Query(process.value.memory.pages, lpAddress);
    StoreMbi(lpBuffer, info);
    r := dwLength;
  }

  /** `VirtualQuery`: `VirtualQueryEx` on the current process. */
  method VirtualQuery(k: Kernel, lpAddress: nat, lpBuffer: array<Byte>, dwLength: int) returns (r: int)
    requires k.Valid()
    requires lpBuffer.Length >= 44 && lpAddress < U64Limit
    modifies lpBuffer
    ensures k.Valid()
    ensures r == dwLength
    ensures lpBuffer[..] == EncodeMbi(old(lpBuffer[..]), Query(k.currentProcess.memory.pages, lpAddress))
  {
    r := VirtualQueryEx(k, PseudoHandleProcess, lpAddress, lpBuffer, dwLength);
  }

  // ---------------------------------------------------------------------------
  // Threads: fixed answers that consult no thread.

  /** `OpenThread`: the same placeholder handle whatever the arguments. */
  function OpenThread(dwDesiredAccess: int, bInheritHandle: int, dwThreadId: int): (h: int)
    ensures h == 0x200 && h != 0
  {
    0x200
  }

  /** `GetCurrentThread`: the thread pseudo handle. */
  function GetCurrentThread(): (h: int)
    ensures AsInt64(h) == -2
  {
    PseudoHandleThread
  }

  /** `GetCurrentThreadId`: a fixed id, unrelated to any simulated thread. */
  function GetCurrentThreadId(): (tid: int)
    ensures tid == 98765
  {
    98765
  }

  /** `SuspendThread`: looks the handle up but reports a previous count of 0
      on every path, and suspends nothing. */
  function SuspendThread(k: Kernel, hThread: int): (count: int)
    reads k, k.currentProcess.handles
    ensures count == 0
  {
    if hThread == PseudoHandleThread then 0
    else
      match k.GetObjectFromHandle(hThread)
      case Some(HandleObject(ThreadHandle, _, _)) => 0
      case _ => 0
  }

  /** `ResumeThread`: likewise 0 on every path, resuming nothing. */
  function ResumeThread(k: Kernel, hThread: int): (count: int)
    reads k, k.currentProcess.handles
    ensures count == 0
  {
    if hThread == PseudoHandleThread then 0
    else
      match k.GetObjectFromHandle(hThread)
      case Some(HandleObject(ThreadHandle, _, _)) => 0
      case _ => 0
  }

  /** `GetThreadContext`: reports failure and leaves the record alone. */
  function GetThreadContext(hThread: int, lpContext: seq<Byte>): (ok: int)
    ensures ok == 0
  {
    0
  }

  /** `SetThreadContext`: reports success and changes nothing. */
  function SetThreadContext(hThread: int, lpContext: seq<Byte>): (ok: int)
    ensures ok == 1
  {
    1
  }

  /** `GetLastError`: always 0. */
  function GetLastError(): (code: int)
    ensures code == 0
  {
    0
  }

  // ---------------------------------------------------------------------------
  // End-to-end behaviour.

  /** The current pid is 9999; opening it yields handle 4 naming that pid, and
      closing it succeeds once; closing the pseudo handle always succeeds. */
  method ProcessScenario() returns (pid: int, handle: int, openedPid: int, closed: int, closedAgain: int, pseudoClosed: int)
    ensures pid == 9999 && handle == 4 && openedPid == 9999
    ensures closed == 1 && closedAgain == 0 && pseudoClosed == 1
  {
    var k := new Kernel();
    pid := GetCurrentProcessId(k);
    handle := OpenProcess(k, PROCESS_ALL_ACCESS as int, 0, pid);
    openedPid := k.GetProcessId(handle);
    closed := CloseHandle(k, handle);
    closedAgain := CloseHandle(k, handle);
    pseudoClosed := CloseHandle(k, GetCurrentProcess());
    PseudoHandleValues();
  }

  /** Data written to a fresh read-write allocation of the current process is
      stored in full (the call reports 1) and reads back unchanged. */
  method WriteReadScenario(k: Kernel, data: seq<Byte>, readBuffer: array<Byte>) returns (base: nat, wrote: int, read: int)
    requires k.Valid() && 0 < |data| <= 1024 && readBuffer.Length == |data|
    modifies k.Memories(), readBuffer
    ensures wrote == 1 && read == 1
    ensures readBuffer[..] == data
  {
    ghost var before := k.currentProcess.memory.pages;
    base := VirtualAlloc(k, 0, 1024, MEM_COMMIT, PAGE_READWRITE);
    AllocateWriteRead(before, base, PageCount(1024), data);
    wrote := WriteProcessMemory(k, GetCurrentProcess(), base, data, |data|);
    assert data[..|data|] == data;
    read := ReadProcessMemory(k, GetCurrentProcess(), base, readBuffer, |data|);
  }

  /** `VirtualQuery` on the current process, then the BaseAddress and State
      fields read back out of the buffer. */
  method QueryBaseAndState(k: Kernel, address: nat, info: array<Byte>) returns (queriedBase: nat, state: nat)
    requires k.Valid() && info.Length == 48 && address < U64Limit
    modifies info
    ensures k.Valid()
    ensures queriedBase == AlignDown(address)
    ensures state == Query(k.currentProcess.memory.pages, address).state as int
  {
    ghost var before := info[..];
    ghost var region := Query(k.currentProcess.memory.pages, address);
    var length := VirtualQuery(k, address, info, 48);
    MbiFieldsReadBack(before, region);
    queriedBase := GetLE(info[..], 0, 8);
    state := GetLE(info[..], 32, 4);
  }

  /** The address-space `free` of the current process, keeping the kernel valid. */
  method FreeInCurrent(k: Kernel, address: nat, size: nat, freeType: int)
    requires k.Valid()
    modifies k.currentProcess.memory
    ensures k.Valid()
    ensures freeType == MEM_DECOMMIT ==>
      k.currentProcess.memory.pages == Decommitted(old(k.currentProcess.memory.pages), AlignDown(address), FreeCount(size))
    ensures freeType == MEM_RELEASE ==>
      k.currentProcess.memory.pages == Released(old(k.currentProcess.memory.pages), AlignDown(address), FreeCount(size))
  {
    var ok := k.currentProcess.memory.Free(address, size, freeType);
  }

  /** In an empty address space, a 16 KiB read-write `VirtualAllocEx` on the
      current process lands at 0x10000. */
  method AllocateInEmpty(k: Kernel) returns (base: nat)
    requires k.Valid() && k.currentProcess.memory.pages == map[]
    modifies k.Memories()
    ensures k.Valid() && base == SearchStart
    ensures k.currentProcess.memory.pages == Allocated(map[], SearchStart, PageCount(16384), PAGE_READWRITE)
  {
    assert !Collides(map[], SearchStart, PageCount(16384));
    base := VirtualAllocEx(k, GetCurrentProcess(), 0, 16384, MEM_COMMIT | MEM_RESERVE, PAGE_READWRITE);
  }

  /** A 16 KiB read-write allocation in an empty address space lands at 0x10000
      and queries as committed with that base; after a decommit of the whole
      size it queries as reserved, and after a release of size 0 as free. */
  method MemoryLifecycleScenario(k: Kernel, info: array<Byte>)
    returns (base: nat, queriedBase: nat, committed: nat, reserved: nat, released: nat)
    requires k.Valid() && k.currentProcess.memory.pages == map[] && info.Length == 48
    modifies k.Memories(), info
    ensures base == SearchStart && queriedBase == base
    ensures committed == 0x1000 && reserved == 0x2000 && released == 0x10000
  {
    base := AllocateInEmpty(k);
    RegionLifecycle(map[], base, PAGE_READWRITE);
    queriedBase, committed := QueryBaseAndState(k, base, info);
    FreeInCurrent(k, base, 16384, MEM_DECOMMIT);
    var unused;
    unused, reserved := QueryBaseAndState(k, base, info);
    FreeInCurrent(k, base, 0, MEM_RELEASE);
    unused, released := QueryBaseAndState(k, base, info);
  }
}
