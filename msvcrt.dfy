/** The C runtime shims: allocation and release in the current process, and
    copy, fill and compare over operands that are either byte buffers or
    addresses in the current process. */
module Msvcrt {
  import opened Buffers
  import opened Constants
  import opened Memory
  import opened Kernel
  import Kernel32

  /** A pointer argument: a host byte buffer, or an address in the current process. */
  datatype Operand = Address(address: nat) | BufferArg(buf: array<Byte>)

  function Footprint(o: Operand): set<object> {
    match o
    case Address(_) => {}
    case BufferArg(buf) => {buf}
  }

  /** The bytes an operand supplies for `count`: the buffer's first `count`
      bytes (all of it when it is shorter), or `count` bytes read from the
      current process. */
  function Bytes(k: Kernel, o: Operand, count: nat): (r: seq<Byte>)
    requires TableValid(k.currentProcess.memory.pages)
    reads k.currentProcess.memory, Footprint(o)
  {
    match o
    case BufferArg(buf) => buf[..if count < buf.Length then count else buf.Length]
    case Address(a) => ReadBytes(k.currentProcess.memory.pages, a, count)
  }

  /** An operand reads `count` bytes exactly when it is an address or a buffer
      that long; a shorter buffer supplies all of itself. */
  lemma BytesLength(k: Kernel, o: Operand, count: nat)
    requires TableValid(k.currentProcess.memory.pages)
    ensures o.Address? || o.buf.Length >= count ==> |Bytes(k, o, count)| == count
    ensures o.BufferArg? && o.buf.Length < count ==> Bytes(k, o, count) == o.buf[..]
  {
  }

  /** `malloc`: a read-write commit of `size` bytes at the first free run from
      0x10000; a nonempty block queries as committed read-write memory. */
  method Malloc(k: Kernel, size: nat) returns (ptr: nat)
    requires k.Valid()
    modifies k.currentProcess.memory
    ensures k.Valid()
    ensures ptr % PageSize == 0 && ptr >= SearchStart
    ensures !Collides(old(k.currentProcess.memory.pages), ptr, PageCount(size))
    ensures forall c :: SearchStart <= c < ptr && c % PageSize == 0 ==>
      Collides(old(k.currentProcess.memory.pages), c, PageCount(size))
    ensures k.currentProcess.memory.pages == Allocated(old(k.currentProcess.memory.pages), ptr, PageCount(size), PAGE_READWRITE)
    ensures size > 0 ==>
      Query(k.currentProcess.memory.pages, ptr).state == MEM_COMMIT &&
      Query(k.currentProcess.memory.pages, ptr).protect == PAGE_READWRITE
  {
    ghost var before := k.currentProcess.memory.pages;
    ptr := k.currentProcess.memory.Allocate(0, size, MEM_COMMIT | MEM_RESERVE, PAGE_READWRITE);
    if size > 0 {
      AllocateThenQuery(before, ptr, PageCount(size), PAGE_READWRITE, ptr);
    }
  }

  /** `free`: the address-space release with its defaults (size 0, release),
      which frees only the page holding `ptr`. */
  method Free(k: Kernel, ptr: nat)
    requires k.Valid()
    modifies k.currentProcess.memory
    ensures k.Valid()
    ensures k.currentProcess.memory.pages == Released(old(k.currentProcess.memory.pages), AlignDown(ptr), 1)
    ensures Query(k.currentProcess.memory.pages, ptr).state == MEM_FREE
  {
    ghost var before := k.currentProcess.memory.pages;
    var ok := k.currentProcess.memory.Free(ptr, 0, MEM_RELEASE);
    ReleaseThenQuery(before, AlignDown(ptr), 1, ptr);
  }

  /** Store `data` at `dest`: copied over the front of a buffer, or written to
      the current process. */
  method Store(k: Kernel, dest: Operand, data: seq<Byte>)
    requires k.Valid()
    modifies k.currentProcess.memory, Footprint(dest)
    ensures k.Valid()
    ensures dest.BufferArg? ==>
      var copied := if |data| < dest.buf.Length then |data| else dest.buf.Length;
      dest.buf[..] == data[..copied] + old(dest.buf[copied..]) &&
      k.currentProcess.memory.pages == old(k.currentProcess.memory.pages)
    ensures dest.Address? ==>
      var stored := WritableRun(old(k.currentProcess.memory.pages), dest.address, |data|);
      k.currentProcess.memory.pages == Written(old(k.currentProcess.memory.pages), dest.address, data, stored)
  {
    match dest {
      case BufferArg(buf) =>
        var copied := CopyInto(data, buf);
      case Address(a) =>
        ghost var before := k.currentProcess.memory.pages;
        var written := k.currentProcess.memory.Write(a, data);
        WritableRunIsStop(before, a, |data|, written);
    }
  }

  /** `memcpy`: the source's `count` bytes, taken before anything is stored,
      go to the destination (into a buffer as far as it reaches, or into the
      writable prefix of the target range); the destination is returned. */
  method Memcpy(k: Kernel, dest: Operand, src: Operand, count: nat) returns (ret: Operand)
    requires k.Valid()
    modifies k.currentProcess.memory, Footprint(dest)
    ensures k.Valid()
    ensures ret == dest
    ensures dest.BufferArg? ==>
      var data := old(Bytes(k, src, count));
      var copied := if |data| < dest.buf.Length then |data| else dest.buf.Length;
      dest.buf[..] == data[..copied] + old(dest.buf[copied..]) &&
      k.currentProcess.memory.pages == old(k.currentProcess.memory.pages)
    ensures dest.Address? ==>
      var data := old(Bytes(k, src, count));
      var stored := WritableRun(old(k.currentProcess.memory.pages), dest.address, |data|);
      k.currentProcess.memory.pages == Written(old(k.currentProcess.memory.pages), dest.address, data, stored)
  {
    var data;
    match src {
      case BufferArg(buf) =>
        data := buf[..if count < buf.Length then count else buf.Length];
      case Address(a) =>
        data := k.currentProcess.memory.Read(a, count);
    }
    Store(k, dest, data);
    return dest;
  }

  /** `memset`: `count` copies of the fill value reduced to a byte go to the
      destination as `memcpy` would store them; the destination is returned. */
  method Memset(k: Kernel, dest: Operand, value: int, count: nat) returns (ret: Operand)
    requires k.Valid()
    modifies k.currentProcess.memory, Footprint(dest)
    ensures k.Valid()
    ensures ret == dest
    ensures dest.BufferArg? ==>
      var copied := if count < dest.buf.Length then count else dest.buf.Length;
      (forall i :: 0 <= i < copied ==> dest.buf[i] == value % 256) &&
      (forall i :: copied <= i < dest.buf.Length ==> dest.buf[i] == old(dest.buf[i])) &&
      k.currentProcess.memory.pages == old(k.currentProcess.memory.pages)
    ensures dest.Address? ==>
      var stored := WritableRun(old(k.currentProcess.memory.pages), dest.address, count);
      k.currentProcess.memory.pages == Written(old(k.currentProcess.memory.pages), dest.address, Filled(count, value), stored)
  {
    var data := Filled(count, value);
    Store(k, dest, data);
    if dest.BufferArg? {
      var copied := if count < dest.buf.Length then count else dest.buf.Length;
      forall i | copied <= i < dest.buf.Length
        ensures dest.buf[i] == old(dest.buf[i])
      {
        assert dest.buf[i] == (data[..copied] + old(dest.buf[copied..]))[i];
      }
    }
    return dest;
  }

  /** `memcmp`: the sign of the lexicographic comparison of the two operands'
      `count` bytes; 0 exactly when they supply the same bytes. */
  function Memcmp(k: Kernel, buf1: Operand, buf2: Operand, count: nat): (r: int)
    requires TableValid(k.currentProcess.memory.pages)
    reads k.currentProcess.memory, Footprint(buf1), Footprint(buf2)
    ensures r == -1 || r == 0 || r == 1
    ensures r == 0 <==> Bytes(k, buf1, count) == Bytes(k, buf2, count)
  {
    CompareZeroIffEqual(Bytes(k, buf1, count), Bytes(k, buf2, count));
    Compare(Bytes(k, buf1, count), Bytes(k, buf2, count))
  }

  /** Swapping the operands of `memcmp` flips the sign of its answer. */
  lemma MemcmpAntisymmetric(k: Kernel, buf1: Operand, buf2: Operand, count: nat)
    requires TableValid(k.currentProcess.memory.pages)
    ensures Memcmp(k, buf2, buf1, count) == -Memcmp(k, buf1, buf2, count)
  {
    CompareAntisymmetric(Bytes(k, buf1, count), Bytes(k, buf2, count));
  }

  /** After `memcpy` between two equally long buffers, `memcmp` over that
      length finds them equal, and a buffer differing in the first byte
      compares nonzero against the copy. */
  method CopyCompareScenario(k: Kernel, src: array<Byte>, dest: array<Byte>, diff: array<Byte>)
    returns (same: int, different: int)
    requires k.Valid() && src.Length == dest.Length > 0 && diff.Length <= src.Length
    requires diff.Length > 0 && diff[0] != src[0]
    requires diff != dest
    modifies k.currentProcess.memory, dest
    ensures dest[..] == src[..]
    ensures same == 0 && different != 0
  {
    var ret := Memcpy(k, BufferArg(dest), BufferArg(src), src.Length);
    assert src[..src.Length] == src[..];
    same := Memcmp(k, BufferArg(dest), BufferArg(src), src.Length);
    different := Memcmp(k, BufferArg(dest), BufferArg(diff), diff.Length);
    assert Bytes(k, BufferArg(dest), diff.Length)[0] != Bytes(k, BufferArg(diff), diff.Length)[0];
  }

  /** `memset` of five bytes of 0x41 over a zeroed ten-byte buffer sets bytes
      0 to 4 and leaves byte 5 at zero. */
  method MemsetScenario(k: Kernel, buf: array<Byte>) returns (first: Byte, fifth: Byte, sixth: Byte)
    requires k.Valid() && buf.Length == 10 && forall i :: 0 <= i < 10 ==> buf[i] == 0
    modifies k.currentProcess.memory, buf
    ensures first == 0x41 && fifth == 0x41 && sixth == 0
  {
    var ret := Memset(k, BufferArg(buf), 0x41, 5);
    first, fifth, sixth := buf[0], buf[4], buf[5];
  }

  /** A 256-byte `malloc` returns a nonzero pointer whose page queries as
      committed; `free` then releases that page. */
  method MallocScenario(k: Kernel, info: array<Byte>) returns (ptr: nat, state: nat, stateAfterFree: nat)
    requires k.Valid() && info.Length == 48
    requires forall a :: a in k.currentProcess.memory.pages ==> a < 0x1_0000_0000
    modifies k.currentProcess.memory, info
    ensures ptr != 0 && state == 0x1000 && stateAfterFree == 0x10000
  {
    // The page at 4 GiB is free, so the first-fit search stops there at the latest.
    assert !Collides(k.currentProcess.memory.pages, 0x1_0000_0000, PageCount(256));
    ptr := Malloc(k, 256);
    var queriedBase;
    queriedBase, state := Kernel32.QueryBaseAndState(k, ptr, info);
    Free(k, ptr);
    queriedBase, stateAfterFree := Kernel32.QueryBaseAndState(k, ptr, info);
  }
}
