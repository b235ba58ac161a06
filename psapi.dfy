/** The psapi entry point `GetModuleInformation`: finds a module of a process by
    its base address and reports its base, image size and a placeholder entry
    point, either into a MODULEINFO byte buffer or into a record. */
module Psapi {
  import opened Buffers
  import opened Constants
  import opened Handles
  import opened Process
  import opened Kernel
  import opened Modules

  /** The process psapi acts on: the current process for any handle that is -1
      as a signed 64-bit value, otherwise the process named by an entry of the
      current handle table tagged as a process handle. */
  function ResolveProcess(k: Kernel, h: int): (r: Option<SimulatedProcess>)
    reads k, k.currentProcess.handles
    ensures AsInt64(h) == -1 ==> r == Some(k.currentProcess)
    ensures AsInt64(h) != -1 && r.Some? ==>
      h in k.currentProcess.handles.handles &&
      k.currentProcess.handles.handles[h].kind == ProcessHandle &&
      k.currentProcess.handles.handles[h].obj == ProcessObj(r.value)
    ensures
      (AsInt64(h) != -1 && h in k.currentProcess.handles.handles &&
       k.currentProcess.handles.handles[h].kind == ProcessHandle &&
       k.currentProcess.handles.handles[h].obj.ProcessObj?) ==> r.Some?
  {
    if AsInt64(h) == -1 then Some(k.currentProcess)
    else
      match k.GetObjectFromHandle(h)
      case Some(HandleObject(ProcessHandle, ProcessObj(p), _)) => Some(p)
      case _ => None
  }

  /** The resolved process, as a frame. */
  function ResolvedFootprint(k: Kernel, h: int): set<object>
    reads k, k.currentProcess.handles
  {
    match ResolveProcess(k, h)
    case Some(p) => {p}
    case None => {}
  }

  /** The position of the first module whose base address is `base`. */
  function FindModule(modules: seq<SimulatedModule>, base: int): (r: Option<nat>)
    ensures r.Some? ==> r.value < |modules| && modules[r.value].baseAddress == base
    ensures r.Some? ==> forall j :: 0 <= j < r.value ==> modules[j].baseAddress != base
    ensures r.None? ==> forall j :: 0 <= j < |modules| ==> modules[j].baseAddress != base
  {
    if modules == [] then None
    else if modules[0].baseAddress == base then Some(0)
    else
      match FindModule(modules[1..], base)
      case Some(i) => Some(i + 1)
      case None => None
  }

  /** The module `GetModuleInformation` reports on, if the handle names a
      process and one of its modules sits at `hModule`. */
  function LookupModule(k: Kernel, hProcess: int, hModule: int): (r: Option<SimulatedModule>)
    reads k, k.currentProcess.handles, ResolvedFootprint(k, hProcess)
    ensures r.Some? <==> ResolveProcess(k, hProcess).Some? && FindModule(ResolveProcess(k, hProcess).value.modules, hModule).Some?
    ensures r.Some? ==> r.value.baseAddress == hModule && r.value in ResolveProcess(k, hProcess).value.modules
  {
    match ResolveProcess(k, hProcess)
    case None => None
    case Some(p) =>
      match FindModule(p.modules, hModule)
      case None => None
      case Some(i) => Some(p.modules[i])
  }

  /** The MODULEINFO size the shim insists on (the 64-bit layout). */
  const ModuleInfoSize: int := 24

  /** A MODULEINFO passed as a record rather than as bytes. */
  class ModuleInfo {
    var lpBaseOfDll: int
    var SizeOfImage: int
    var EntryPoint: int

    constructor()
      ensures lpBaseOfDll == 0 && SizeOfImage == 0 && EntryPoint == 0
    {
      lpBaseOfDll, SizeOfImage, EntryPoint := 0, 0, 0;
    }
  }

  /** Where the answer goes: a byte buffer or a record. */
  datatype ModuleInfoTarget = BufferTarget(buf: array<Byte>) | RecordTarget(rec: ModuleInfo)

  function TargetFootprint(t: ModuleInfoTarget): set<object> {
    match t
    case BufferTarget(buf) => {buf}
    case RecordTarget(rec) => {rec}
  }

  /** The three stores into a MODULEINFO buffer: the base as 64 bits at 0, the
      size as 32 bits at 8 and the entry point as 64 bits at 12. */
  function ModuleInfoFields(m: SimulatedModule): seq<FieldWrite>
    requires m.baseAddress >= 0 && m.size >= 0
  {
    [FieldWrite(0, 8, m.baseAddress), FieldWrite(8, 4, m.size), FieldWrite(12, 8, m.baseAddress + EntryPointOffset)]
  }

  /** The module's numbers fit the fields they are stored in. */
  predicate ModuleFits(m: SimulatedModule) {
    0 <= m.baseAddress && m.baseAddress + EntryPointOffset < U64Limit && 0 <= m.size < U32Limit
  }

  /** `s` with the module's MODULEINFO stored over its first 20 bytes. */
  function EncodeModuleInfo(s: seq<Byte>, m: SimulatedModule): (r: seq<Byte>)
    requires |s| >= 20 && ModuleFits(m)
    ensures |r| == |s|
  {
    FieldLimits();
    PutAll(s, ModuleInfoFields(m))
  }

  /** The x64 MODULEINFO record that the size check of 24 bytes assumes. */
  const ModuleInfoLayout: seq<Field> := [Scalar("lpBaseOfDll", 8), Scalar("SizeOfImage", 4), Scalar("EntryPoint", 8)]

  /** Against the naturally aligned x64 record, the base and size stores sit at
      their fields, but EntryPoint lies at 16, after four bytes of padding, and
      the entry point store at 12 covers that padding and only half the field. */
  lemma ModuleInfoEntryPointOffset(m: SimulatedModule)
    requires m.baseAddress >= 0 && m.size >= 0
    ensures SizeOf(ModuleInfoLayout) == 24
    ensures ModuleInfoFields(m)[0].offset == OffsetAt(ModuleInfoLayout, 0)
    ensures ModuleInfoFields(m)[1].offset == OffsetAt(ModuleInfoLayout, 1)
    ensures ModuleInfoFields(m)[2].offset == 12 && OffsetAt(ModuleInfoLayout, 2) == 16
  {
    var f := ModuleInfoLayout;
    assert ExtentAt(f, 1) == Extent(8, 8);
    assert ExtentAt(f, 2) == Extent(12, 8);
    assert ExtentAt(f, 3) == Extent(24, 8);
  }

  /** Reading the buffer back gives the base, the size and base + 0x1000; the
      entry point overlaps no other field, and bytes from 20 on are untouched. */
  lemma ModuleInfoRoundTrip(s: seq<Byte>, m: SimulatedModule)
    requires |s| >= 20 && ModuleFits(m)
    ensures GetLE(EncodeModuleInfo(s, m), 0, 8) == m.baseAddress
    ensures GetLE(EncodeModuleInfo(s, m), 8, 4) == m.size
    ensures GetLE(EncodeModuleInfo(s, m), 12, 8) == m.baseAddress + EntryPointOffset
    ensures forall i :: 20 <= i < |s| ==> EncodeModuleInfo(s, m)[i] == s[i]
  {
    FieldLimits();
    var fs := ModuleInfoFields(m);
    assert PairwiseApart(fs);
    GetPutAll(s, fs, 0);
    GetPutAll(s, fs, 1);
    GetPutAll(s, fs, 2);
    forall i | 20 <= i < |s|
      ensures EncodeModuleInfo(s, m)[i] == s[i]
    {
      PutAllElsewhere(s, fs, i);
    }
  }

  /** The three stores, one after another, on the buffer. */
  method StoreModuleInfo(buf: array<Byte>, m: SimulatedModule)
    requires buf.Length >= 20 && ModuleFits(m)
    modifies buf
    ensures buf[..] == EncodeModuleInfo(old(buf[..]), m)
  {
    FieldLimits();
    // `pending` holds the stores still to do: doing them on the buffer gives the encoding.
    ghost var pending := ModuleInfoFields(m);
    ghost var before := buf[..];
    WriteLE(buf, 0, m.baseAddress, 8);
    PutAllFirst(before, pending);
    pending, before := pending[1..], buf[..];
    WriteLE(buf, 8, m.size, 4);
    PutAllFirst(before, pending);
    pending, before := pending[1..], buf[..];
    WriteLE(buf, 12, m.baseAddress + EntryPointOffset, 8);
    PutAllFirst(before, pending);
    assert pending[1..] == [];
  }

  /** `GetModuleInformation`: 0, writing nothing, when the handle names no
      process, when no module of it sits at `hModule`, or when `cb` is below 24;
      otherwise the module's base, size and base + 0x1000 are stored into the
      buffer or the record and 1 is returned. */
  method GetModuleInformation(k: Kernel, hProcess: int, hModule: int, lpmodinfo: ModuleInfoTarget, cb: int)
    returns (r: int)
    requires k.Valid()
    requires LookupModule(k, hProcess, hModule).Some? && cb >= ModuleInfoSize && lpmodinfo.BufferTarget? ==>
      lpmodinfo.buf.Length >= 20 && ModuleFits(LookupModule(k, hProcess, hModule).value)
    modifies TargetFootprint(lpmodinfo)
    ensures k.Valid()
    ensures r == 1 <==> LookupModule(k, hProcess, hModule).Some? && cb >= ModuleInfoSize
    ensures r == 0 || r == 1
    ensures r == 0 ==> unchanged(TargetFootprint(lpmodinfo))
    ensures r == 1 && lpmodinfo.BufferTarget? ==>
      lpmodinfo.buf[..] == EncodeModuleInfo(old(lpmodinfo.buf[..]), LookupModule(k, hProcess, hModule).value)
    ensures r == 1 && lpmodinfo.RecordTarget? ==>
      var m := LookupModule(k, hProcess, hModule).value;
      lpmodinfo.rec.lpBaseOfDll == m.baseAddress && lpmodinfo.rec.SizeOfImage == m.size &&
      lpmodinfo.rec.EntryPoint == m.baseAddress + EntryPointOffset
  {
    var process := ResolveProcess(k, hProcess);
    if process.None? {
      return 0;
    }
    var index := FindModule(process.value.modules, hModule);
    if index.None? {
      return 0;
    }
    var m := process.value.modules[index.value];
    if cb < ModuleInfoSize {
      return 0;
    }
    match lpmodinfo {
      case BufferTarget(buf) =>
        StoreModuleInfo(buf, m);
      case RecordTarget(rec) =>
        rec.lpBaseOfDll := m.baseAddress;
        rec.SizeOfImage := m.size;
        rec.EntryPoint := m.baseAddress + EntryPointOffset;
    }
    return 1;
  }

  /** How a call ends: with a return value, or with an exception. */
  datatype Outcome = Returned(value: int) | Threw

  /** `GetModuleInformation` as written: a simulated process has no module
      list, so as soon as the handle resolves, reading that list throws,
      before the module search, the size check or any store. A handle that
      names no process still returns 0. */
  function GetModuleInformationAsWritten(k: Kernel, hProcess: int, hModule: int, cb: int): (r: Outcome)
    reads k, k.currentProcess.handles
    ensures r == Threw <==> ResolveProcess(k, hProcess).Some?
    ensures r.Returned? ==> r.value == 0
  {
    match ResolveProcess(k, hProcess)
    case None => Returned(0)
    case Some(_) => Threw
  }

  /** As written, every call on the current process's pseudo handle throws,
      whatever module and size it passes: neither 1 for a known module nor 0
      for an unknown one comes back. */
  lemma AsWrittenThrowsOnCurrentProcess(k: Kernel, hModule: int, cb: int)
    ensures GetModuleInformationAsWritten(k, 0xffff_ffff_ffff_ffff, hModule, cb) == Threw
    ensures GetModuleInformationAsWritten(k, -1, hModule, cb) == Threw
  {
    PseudoHandleValues();
  }

  /** Asking about a base address where the current process has no module
      fails and leaves the buffer as it was; the call as written throws. */
  method UnknownModuleScenario(k: Kernel, info: array<Byte>) returns (r: int, asWritten: Outcome)
    requires k.Valid() && k.currentProcess.modules == [] && info.Length == 24
    modifies info
    ensures r == 0 && info[..] == old(info[..])
    ensures asWritten == Threw
  {
    PseudoHandleValues();
    asWritten := GetModuleInformationAsWritten(k, 0xffff_ffff_ffff_ffff, 0x1234, 24);
    r := GetModuleInformation(k, 0xffff_ffff_ffff_ffff, 0x1234, BufferTarget(info), 24);
  }

  /** For a module at the head of the current process's list, a 24-byte buffer
      receives its base at 0, its size at 8 and base + 0x1000 at 12; the call
      as written throws instead. */
  method KnownModuleScenario(k: Kernel, info: array<Byte>) returns (r: int, base: nat, size: nat, entry: nat, asWritten: Outcome)
    requires k.Valid() && k.currentProcess.modules != [] && info.Length == 24
    requires ModuleFits(k.currentProcess.modules[0])
    modifies info
    ensures r == 1
    ensures base == k.currentProcess.modules[0].baseAddress && size == k.currentProcess.modules[0].size
    ensures entry == base + 0x1000
    ensures asWritten == Threw
  {
    PseudoHandleValues();
    var m := k.currentProcess.modules[0];
    asWritten := GetModuleInformationAsWritten(k, -1, m.baseAddress, 24);
    ghost var before := info[..];
    r := GetModuleInformation(k, -1, m.baseAddress, BufferTarget(info), 24);
    ModuleInfoRoundTrip(before, m);
    base, size, entry := GetLE(info[..], 0, 8), GetLE(info[..], 8, 4), GetLE(info[..], 12, 8);
  }
}
