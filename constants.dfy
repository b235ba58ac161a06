/** The Win32 flag values and the x64 record layouts the simulation is
    byte-compatible with. */
module Constants {

  // Process access rights.
  const PROCESS_TERMINATE: bv32 := 0x0001
  const PROCESS_CREATE_THREAD: bv32 := 0x0002
  const PROCESS_SET_SESSIONID: bv32 := 0x0004
  const PROCESS_VM_OPERATION: bv32 := 0x0008
  const PROCESS_VM_READ: bv32 := 0x0010
  const PROCESS_VM_WRITE: bv32 := 0x0020
  const PROCESS_DUP_HANDLE: bv32 := 0x0040
  const PROCESS_CREATE_PROCESS: bv32 := 0x0080
  const PROCESS_SET_QUOTA: bv32 := 0x0100
  const PROCESS_SET_INFORMATION: bv32 := 0x0200
  const PROCESS_QUERY_INFORMATION: bv32 := 0x0400
  const PROCESS_SUSPEND_RESUME: bv32 := 0x0800
  const PROCESS_QUERY_LIMITED_INFORMATION: bv32 := 0x1000
  const PROCESS_SET_LIMITED_INFORMATION: bv32 := 0x2000
  const PROCESS_ALL_ACCESS: bv32 := 0x1fffff

  const ProcessRights: seq<bv32> := [
    PROCESS_TERMINATE, PROCESS_CREATE_THREAD, PROCESS_SET_SESSIONID, PROCESS_VM_OPERATION,
    PROCESS_VM_READ, PROCESS_VM_WRITE, PROCESS_DUP_HANDLE, PROCESS_CREATE_PROCESS,
    PROCESS_SET_QUOTA, PROCESS_SET_INFORMATION, PROCESS_QUERY_INFORMATION,
    PROCESS_SUSPEND_RESUME, PROCESS_QUERY_LIMITED_INFORMATION, PROCESS_SET_LIMITED_INFORMATION]

  // Thread access rights.
  const THREAD_TERMINATE: bv32 := 0x0001
  const THREAD_SUSPEND_RESUME: bv32 := 0x0002
  const THREAD_GET_CONTEXT: bv32 := 0x0008
  const THREAD_SET_CONTEXT: bv32 := 0x0010
  const THREAD_SET_INFORMATION: bv32 := 0x0020
  const THREAD_QUERY_INFORMATION: bv32 := 0x0040
  const THREAD_SET_THREAD_TOKEN: bv32 := 0x0080
  const THREAD_IMPERSONATE: bv32 := 0x0100
  const THREAD_DIRECT_IMPERSONATION: bv32 := 0x0200
  const THREAD_SET_LIMITED_INFORMATION: bv32 := 0x0400
  const THREAD_QUERY_LIMITED_INFORMATION: bv32 := 0x0800
  const THREAD_ALL_ACCESS: bv32 := 0x1fffff

  const ThreadRights: seq<bv32> := [
    THREAD_TERMINATE, THREAD_SUSPEND_RESUME, THREAD_GET_CONTEXT, THREAD_SET_CONTEXT,
    THREAD_SET_INFORMATION, THREAD_QUERY_INFORMATION, THREAD_SET_THREAD_TOKEN,
    THREAD_IMPERSONATE, THREAD_DIRECT_IMPERSONATION, THREAD_SET_LIMITED_INFORMATION,
    THREAD_QUERY_LIMITED_INFORMATION]

  // Page protection.
  const PAGE_NOACCESS: bv32 := 0x01
  const PAGE_READONLY: bv32 := 0x02
  const PAGE_READWRITE: bv32 := 0x04
  const PAGE_WRITECOPY: bv32 := 0x08
  const PAGE_EXECUTE: bv32 := 0x10
  const PAGE_EXECUTE_READ: bv32 := 0x20
  const PAGE_EXECUTE_READWRITE: bv32 := 0x40
  const PAGE_EXECUTE_WRITECOPY: bv32 := 0x80
  const PAGE_GUARD: bv32 := 0x100
  const PAGE_NOCACHE: bv32 := 0x200
  const PAGE_WRITECOMBINE: bv32 := 0x400

  const Protections: seq<bv32> := [
    PAGE_NOACCESS, PAGE_READONLY, PAGE_READWRITE, PAGE_WRITECOPY, PAGE_EXECUTE,
    PAGE_EXECUTE_READ, PAGE_EXECUTE_READWRITE, PAGE_EXECUTE_WRITECOPY, PAGE_GUARD,
    PAGE_NOCACHE, PAGE_WRITECOMBINE]

  // Region state.
  const MEM_COMMIT: bv32 := 0x1000
  const MEM_RESERVE: bv32 := 0x2000
  const MEM_FREE: bv32 := 0x10000

  // Region type.
  const MEM_PRIVATE: bv32 := 0x20000
  const MEM_MAPPED: bv32 := 0x40000
  const MEM_IMAGE: bv32 := 0x1000000

  const StatesAndTypes: seq<bv32> := [MEM_COMMIT, MEM_RESERVE, MEM_FREE, MEM_PRIVATE, MEM_MAPPED, MEM_IMAGE]

  // Free kinds accepted by the memory manager.
  const MEM_DECOMMIT: int := 0x4000
  const MEM_RELEASE: int := 0x8000

  // CONTEXT flags for x64.
  const CONTEXT_AMD64: bv32 := 0x00100000
  const CONTEXT_CONTROL: bv32 := CONTEXT_AMD64 | 0x01
  const CONTEXT_INTEGER: bv32 := CONTEXT_AMD64 | 0x02
  const CONTEXT_SEGMENTS: bv32 := CONTEXT_AMD64 | 0x04
  const CONTEXT_FLOATING_POINT: bv32 := CONTEXT_AMD64 | 0x08
  const CONTEXT_DEBUG_REGISTERS: bv32 := CONTEXT_AMD64 | 0x10
  const CONTEXT_FULL: bv32 := CONTEXT_AMD64 | 0x01 | 0x02 | 0x08
  const CONTEXT_ALL: bv32 := CONTEXT_AMD64 | 0x01 | 0x02 | 0x04 | 0x08 | 0x10

  const ContextFlagValues: seq<bv32> := [
    CONTEXT_AMD64, CONTEXT_CONTROL, CONTEXT_INTEGER, CONTEXT_SEGMENTS,
    CONTEXT_FLOATING_POINT, CONTEXT_DEBUG_REGISTERS, CONTEXT_FULL, CONTEXT_ALL]

  /** Exactly one bit of `x` is set. */
  predicate SingleBit(x: bv32) {
    x != 0 && x & (x - 1) == 0
  }

  /** The flags in `s` are pairwise disjoint single bits. */
  predicate DistinctBits(s: seq<bv32>) {
    (forall i :: 0 <= i < |s| ==> SingleBit(s[i])) &&
    (forall i, j :: 0 <= i < j < |s| ==> s[i] & s[j] == 0)
  }

  /** The page protections are distinct single bits, from 0x01 up to 0x400. */
  lemma ProtectionsAreDistinctBits()
    ensures DistinctBits(Protections)
    ensures Protections[0] == 0x01 && Protections[|Protections| - 1] == 0x400
  {
  }

  /** Region states and region types are pairwise disjoint bits. */
  lemma StatesAndTypesAreDistinctBits()
    ensures DistinctBits(StatesAndTypes)
  {
  }

  /** Every CONTEXT flag carries the AMD64 architecture bit; FULL and ALL are
      the unions of the groups they name. */
  lemma ContextFlagsComposition()
    ensures forall i :: 0 <= i < |ContextFlagValues| ==> ContextFlagValues[i] & CONTEXT_AMD64 == CONTEXT_AMD64
    ensures CONTEXT_FULL == CONTEXT_CONTROL | CONTEXT_INTEGER | CONTEXT_FLOATING_POINT
    ensures CONTEXT_ALL == CONTEXT_FULL | CONTEXT_SEGMENTS | CONTEXT_DEBUG_REGISTERS
  {
  }

  /** The ALL_ACCESS masks include every individual right. */
  lemma AllAccessIncludesEveryRight()
    ensures forall i :: 0 <= i < |ProcessRights| ==> ProcessRights[i] & PROCESS_ALL_ACCESS == ProcessRights[i]
    ensures forall i :: 0 <= i < |ThreadRights| ==> ThreadRights[i] & THREAD_ALL_ACCESS == ThreadRights[i]
  {
  }

  // ---------------------------------------------------------------------------
  // Record layouts with natural alignment.

  /** One field of a C record: its name, byte size and alignment. */
  datatype Field = Field(name: string, size: nat, align: nat)

  /** `x` rounded up to the next multiple of `a` (an alignment of 0 counts as 1). */
  function AlignUp(x: nat, a: nat): nat {
    if a == 0 || x % a == 0 then x else x + (a - x % a)
  }

  /** Where the fields laid out so far end, and the largest alignment among them. */
  datatype Extent = Extent(end: nat, align: nat)

  /** The extent after laying out the first `n` of `fields` behind `start`. */
  function ExtentFrom(fields: seq<Field>, n: nat, start: Extent): (e: Extent)
    requires n <= |fields|
    ensures e.align >= start.align && e.end >= start.end
  {
    if n == 0 then start
    else
      var prev := ExtentFrom(fields, n - 1, start);
      var f := fields[n - 1];
      Extent(AlignUp(prev.end, f.align) + f.size, if f.align > prev.align then f.align else prev.align)
  }

  function ExtentAt(fields: seq<Field>, n: nat): (e: Extent)
    requires n <= |fields|
  {
    ExtentFrom(fields, n, Extent(0, 1))
  }

  /** The offset of field `n`: the end of the fields before it, aligned up. */
  function OffsetAt(fields: seq<Field>, n: nat): nat
    requires n < |fields|
  {
    AlignUp(ExtentAt(fields, n).end, fields[n].align)
  }

  /** The record's size: the end of its last field padded to the record's alignment. */
  function SizeOf(fields: seq<Field>): nat {
    var e := ExtentAt(fields, |fields|);
    AlignUp(e.end, e.align)
  }

  /** Fields after the first `n` do not move the first `n`. */
  lemma {:induction false} ExtentOfPrefix(a: seq<Field>, b: seq<Field>, n: nat, start: Extent)
    requires n <= |a|
    ensures ExtentFrom(a + b, n, start) == ExtentFrom(a, n, start)
  {
    if n > 0 {
      ExtentOfPrefix(a, b, n - 1, start);
      assert (a + b)[n - 1] == a[n - 1];
    }
  }

  /** Laying out `a + b` is laying out `a`, then `b` behind it. */
  lemma {:induction false} ExtentOfConcat(a: seq<Field>, b: seq<Field>, n: nat, start: Extent)
    requires n <= |b|
    ensures ExtentFrom(a + b, |a| + n, start) == ExtentFrom(b, n, ExtentFrom(a, |a|, start))
  {
    if n == 0 {
      ExtentOfPrefix(a, b, |a|, start);
    } else {
      ExtentOfConcat(a, b, n - 1, start);
      assert (a + b)[|a| + n - 1] == b[n - 1];
    }
  }

  function Scalar(name: string, size: nat): Field { Field(name, size, size) }

  /** MEMORY_BASIC_INFORMATION for x64. */
  const MemoryBasicInformation: seq<Field> := [
    Scalar("BaseAddress", 8), Scalar("AllocationBase", 8), Scalar("AllocationProtect", 4),
    Scalar("PartitionId", 2), Scalar("Pad", 2), Scalar("RegionSize", 8),
    Scalar("State", 4), Scalar("Protect", 4), Scalar("Type", 4), Scalar("Pad2", 4)]

  /** With natural alignment the region descriptor puts RegionSize at 24, State at
      32, Protect at 36 and Type at 40, and is 48 bytes long. */
  lemma MemoryBasicInformationLayout()
    ensures OffsetAt(MemoryBasicInformation, 0) == 0
    ensures OffsetAt(MemoryBasicInformation, 1) == 8
    ensures OffsetAt(MemoryBasicInformation, 2) == 16
    ensures OffsetAt(MemoryBasicInformation, 5) == 24
    ensures OffsetAt(MemoryBasicInformation, 6) == 32
    ensures OffsetAt(MemoryBasicInformation, 7) == 36
    ensures OffsetAt(MemoryBasicInformation, 8) == 40
    ensures SizeOf(MemoryBasicInformation) == 48
  {
    var f := MemoryBasicInformation;
    assert ExtentAt(f, 1) == Extent(8, 8);
    assert ExtentAt(f, 2) == Extent(16, 8);
    assert ExtentAt(f, 3) == Extent(20, 8);
    assert ExtentAt(f, 4) == Extent(22, 8);
    assert ExtentAt(f, 5) == Extent(24, 8);
    assert ExtentAt(f, 6) == Extent(32, 8);
    assert ExtentAt(f, 7) == Extent(36, 8);
    assert ExtentAt(f, 8) == Extent(40, 8);
    assert ExtentAt(f, 9) == Extent(44, 8);
  }

  /** M128A: one 128-bit register as two 64-bit halves. */
  const M128A: seq<Field> := [Scalar("Low", 8), Scalar("High", 8)]

  /** The x64 CONTEXT record, in its natural groups. */
  const ContextHomeAndControl: seq<Field> := [
    Scalar("P1Home", 8), Scalar("P2Home", 8), Scalar("P3Home", 8),
    Scalar("P4Home", 8), Scalar("P5Home", 8), Scalar("P6Home", 8),
    Scalar("ContextFlags", 4), Scalar("MxCsr", 4),
    Scalar("SegCs", 2), Scalar("SegDs", 2), Scalar("SegEs", 2),
    Scalar("SegFs", 2), Scalar("SegGs", 2), Scalar("SegSs", 2),
    Scalar("EFlags", 4)]

  const ContextDebugRegisters: seq<Field> := [
    Scalar("Dr0", 8), Scalar("Dr1", 8), Scalar("Dr2", 8), Scalar("Dr3", 8), Scalar("Dr6", 8), Scalar("Dr7", 8)]

  const ContextIntegerRegistersLow: seq<Field> := [
    Scalar("Rax", 8), Scalar("Rcx", 8), Scalar("Rdx", 8), Scalar("Rbx", 8),
    Scalar("Rsp", 8), Scalar("Rbp", 8), Scalar("Rsi", 8), Scalar("Rdi", 8)]

  const ContextIntegerRegistersHigh: seq<Field> := [
    Scalar("R8", 8), Scalar("R9", 8), Scalar("R10", 8), Scalar("R11", 8),
    Scalar("R12", 8), Scalar("R13", 8), Scalar("R14", 8), Scalar("R15", 8),
    Scalar("Rip", 8)]

  const ContextVectorAndDebug: seq<Field> := [
    Field("FltSave", 512, 1),
    Field("VectorRegister", 26 * 16, 8),
    Scalar("VectorControl", 8),
    Scalar("DebugControl", 8), Scalar("LastBranchToRip", 8), Scalar("LastBranchFromRip", 8),
    Scalar("LastExceptionToRip", 8), Scalar("LastExceptionFromRip", 8)]

  const SizeOfM128A: nat := 16

  const Context: seq<Field> :=
    ContextHomeAndControl + ContextDebugRegisters + ContextIntegerRegistersLow +
    ContextIntegerRegistersHigh + ContextVectorAndDebug

  const Start := Extent(0, 1)

  lemma ContextHomeAndControlExtent()
    ensures ExtentFrom(ContextHomeAndControl, 15, Start) == Extent(72, 8)
    ensures ExtentFrom(ContextHomeAndControl, 6, Start) == Extent(48, 8)
  {
    var f := ContextHomeAndControl;
    assert ExtentFrom(f, 1, Start) == Extent(8, 8);
    assert ExtentFrom(f, 2, Start) == Extent(16, 8);
    assert ExtentFrom(f, 3, Start) == Extent(24, 8);
    assert ExtentFrom(f, 4, Start) == Extent(32, 8);
    assert ExtentFrom(f, 5, Start) == Extent(40, 8);
    assert ExtentFrom(f, 6, Start) == Extent(48, 8);
    assert ExtentFrom(f, 7, Start) == Extent(52, 8);
    assert ExtentFrom(f, 8, Start) == Extent(56, 8);
    assert ExtentFrom(f, 9, Start) == Extent(58, 8);
    assert ExtentFrom(f, 10, Start) == Extent(60, 8);
    assert ExtentFrom(f, 11, Start) == Extent(62, 8);
    assert ExtentFrom(f, 12, Start) == Extent(64, 8);
    assert ExtentFrom(f, 13, Start) == Extent(66, 8);
    assert ExtentFrom(f, 14, Start) == Extent(68, 8);
  }

  lemma ContextDebugRegistersExtent()
    ensures ExtentFrom(ContextDebugRegisters, 6, Extent(72, 8)) == Extent(120, 8)
  {
    var f, s := ContextDebugRegisters, Extent(72, 8);
    assert ExtentFrom(f, 1, s) == Extent(80, 8);
    assert ExtentFrom(f, 2, s) == Extent(88, 8);
    assert ExtentFrom(f, 3, s) == Extent(96, 8);
    assert ExtentFrom(f, 4, s) == Extent(104, 8);
    assert ExtentFrom(f, 5, s) == Extent(112, 8);
  }

  lemma ContextIntegerRegistersExtent()
    ensures ExtentFrom(ContextIntegerRegistersLow, 8, Extent(120, 8)) == Extent(184, 8)
    ensures ExtentFrom(ContextIntegerRegistersHigh, 8, Extent(184, 8)) == Extent(248, 8)
    ensures ExtentFrom(ContextIntegerRegistersHigh, 9, Extent(184, 8)) == Extent(256, 8)
  {
    var f, s := ContextIntegerRegistersLow, Extent(120, 8);
    assert ExtentFrom(f, 1, s) == Extent(128, 8);
    assert ExtentFrom(f, 2, s) == Extent(136, 8);
    assert ExtentFrom(f, 3, s) == Extent(144, 8);
    assert ExtentFrom(f, 4, s) == Extent(152, 8);
    assert ExtentFrom(f, 5, s) == Extent(160, 8);
    assert ExtentFrom(f, 6, s) == Extent(168, 8);
    assert ExtentFrom(f, 7, s) == Extent(176, 8);
    var h, t := ContextIntegerRegistersHigh, Extent(184, 8);
    assert ExtentFrom(h, 1, t) == Extent(192, 8);
    assert ExtentFrom(h, 2, t) == Extent(200, 8);
    assert ExtentFrom(h, 3, t) == Extent(208, 8);
    assert ExtentFrom(h, 4, t) == Extent(216, 8);
    assert ExtentFrom(h, 5, t) == Extent(224, 8);
    assert ExtentFrom(h, 6, t) == Extent(232, 8);
    assert ExtentFrom(h, 7, t) == Extent(240, 8);
  }

  lemma ContextVectorAndDebugExtent()
    ensures ExtentFrom(ContextVectorAndDebug, 1, Extent(256, 8)) == Extent(768, 8)
    ensures ExtentFrom(ContextVectorAndDebug, 8, Extent(256, 8)) == Extent(1232, 8)
  {
    var f, s := ContextVectorAndDebug, Extent(256, 8);
    assert ExtentFrom(f, 2, s) == Extent(1184, 8);
    assert ExtentFrom(f, 3, s) == Extent(1192, 8);
    assert ExtentFrom(f, 4, s) == Extent(1200, 8);
    assert ExtentFrom(f, 5, s) == Extent(1208, 8);
    assert ExtentFrom(f, 6, s) == Extent(1216, 8);
    assert ExtentFrom(f, 7, s) == Extent(1224, 8);
  }

  // The groups of CONTEXT joined one after another.
  const Context2 := ContextHomeAndControl + ContextDebugRegisters
  const Context3 := Context2 + ContextIntegerRegistersLow
  const Context4 := Context3 + ContextIntegerRegistersHigh

  lemma Context2Extent()
    ensures |Context2| == 21
    ensures ExtentFrom(Context2, 6, Start) == Extent(48, 8)
    ensures ExtentFrom(Context2, 21, Start) == Extent(120, 8)
  {
    ContextHomeAndControlExtent();
    ContextDebugRegistersExtent();
    ExtentOfConcat(ContextHomeAndControl, ContextDebugRegisters, 6, Start);
    ExtentOfPrefix(ContextHomeAndControl, ContextDebugRegisters, 6, Start);
  }

  lemma Context3Extent()
    ensures |Context3| == 29
    ensures ExtentFrom(Context3, 6, Start) == Extent(48, 8)
    ensures ExtentFrom(Context3, 29, Start) == Extent(184, 8)
  {
    Context2Extent();
    ContextIntegerRegistersExtent();
    ExtentOfConcat(Context2, ContextIntegerRegistersLow, 8, Start);
    ExtentOfPrefix(Context2, ContextIntegerRegistersLow, 6, Start);
  }

  lemma Context4Extent()
    ensures |Context4| == 38
    ensures ExtentFrom(Context4, 6, Start) == Extent(48, 8)
    ensures ExtentFrom(Context4, 37, Start) == Extent(248, 8)
    ensures ExtentFrom(Context4, 38, Start) == Extent(256, 8)
  {
    Context3Extent();
    ContextIntegerRegistersExtent();
    ExtentOfConcat(Context3, ContextIntegerRegistersHigh, 8, Start);
    ExtentOfConcat(Context3, ContextIntegerRegistersHigh, 9, Start);
    ExtentOfPrefix(Context3, ContextIntegerRegistersHigh, 6, Start);
  }

  lemma ContextSize()
    ensures SizeOf(Context) == 1232
  {
    Context4Extent();
    ContextVectorAndDebugExtent();
    ExtentOfConcat(Context4, ContextVectorAndDebug, 8, Start);
  }

  lemma ContextControlOffsets()
    ensures OffsetAt(Context, 6) == 0x30
    ensures OffsetAt(Context, 37) == 0xf8
  {
    Context4Extent();
    ExtentOfPrefix(Context4, ContextVectorAndDebug, 6, Start);
    ExtentOfPrefix(Context4, ContextVectorAndDebug, 37, Start);
    ContextFieldNames();
  }

  lemma ContextVectorOffsets()
    ensures OffsetAt(Context, 38) == 0x100
    ensures OffsetAt(Context, 39) == 0x300
  {
    Context4Extent();
    ContextVectorAndDebugExtent();
    ExtentOfConcat(Context4, ContextVectorAndDebug, 0, Start);
    ExtentOfConcat(Context4, ContextVectorAndDebug, 1, Start);
    ContextFieldNames();
  }

  lemma ContextFieldNames()
    ensures Context[6] == Scalar("ContextFlags", 4) && Context[37] == Scalar("Rip", 8)
    ensures Context[38] == Field("FltSave", 512, 1) && Context[39] == Field("VectorRegister", 26 * 16, 8)
  {
    assert Context[6] == ContextHomeAndControl[6];
    assert Context[37] == ContextIntegerRegistersHigh[8];
    assert Context[38] == ContextVectorAndDebug[0] && Context[39] == ContextVectorAndDebug[1];
  }

  /** An M128A is 16 bytes; in CONTEXT the six home slots put ContextFlags at 0x30,
      Rip lands at 0xf8, the vector registers at 0x300, and the record is 1232 bytes. */
  lemma ContextLayout()
    ensures SizeOf(M128A) == SizeOfM128A
    ensures Context[6].name == "ContextFlags" && OffsetAt(Context, 6) == 0x30
    ensures Context[37].name == "Rip" && OffsetAt(Context, 37) == 0xf8
    ensures Context[38].name == "FltSave" && OffsetAt(Context, 38) == 0x100
    ensures Context[39].name == "VectorRegister" && OffsetAt(Context, 39) == 0x300
    ensures SizeOf(Context) == 1232
  {
    assert ExtentFrom(M128A, 1, Start) == Extent(8, 8);
    ContextSize();
    ContextControlOffsets();
    ContextVectorOffsets();
    ContextFieldNames();
  }
}
