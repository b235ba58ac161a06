/** The per-process virtual address space: a page table keyed by page-aligned
    base address, with first-fit allocation, decommit and release, best-effort
    reads, partial-prefix writes and single-page queries. */
module Memory {
  import opened Buffers
  import opened Constants

  const PageSize: nat := 4096

  /** Where the search for a free run starts when no address is requested. */
  const SearchStart: nat := 0x10000

  /** One page of bookkeeping: its base address, its bytes, its state,
      protection and region type. */
  datatype Page = Page(address: nat, data: seq<Byte>, state: bv32, protect: bv32, memType: bv32)

  type PageTable = map<nat, Page>

  /** The region descriptor that `query` reports. */
  datatype RegionInfo = RegionInfo(
    baseAddress: nat,
    allocationBase: nat,
    allocationProtect: bv32,
    regionSize: nat,
    state: bv32,
    protect: bv32,
    memType: bv32)

  /** The base of the page holding `a`. */
  function AlignDown(a: nat): (r: nat)
    ensures r % PageSize == 0 && r <= a < r + PageSize
  {
    (a / PageSize) * PageSize
  }

  /** A page boundary at most one page below `a` is the base of `a`'s page. */
  lemma AlignDownUnique(a: nat, r: nat)
    ensures r % PageSize == 0 && r <= a < r + PageSize ==> AlignDown(a) == r
  {
    if r % PageSize == 0 && r <= a < r + PageSize {
      var k := r / PageSize;
      assert r == k * PageSize;
      assert a == k * PageSize + (a - r);
      assert a / PageSize == k;
    }
  }

  /** The number of pages `size` bytes span, rounded up. */
  function PageCount(size: nat): (n: nat)
    ensures n * PageSize >= size
    ensures n > 0 ==> (n - 1) * PageSize < size
  {
    (size + PageSize - 1) / PageSize
  }

  /** The page table invariant: every entry sits at its own page-aligned base,
      holds one page of bytes, and is committed or reserved. */
  ghost predicate TableValid(pages: PageTable) {
    forall a :: a in pages ==>
      a % PageSize == 0 && pages[a].address == a && |pages[a].data| == PageSize &&
      (pages[a].state == MEM_COMMIT || pages[a].state == MEM_RESERVE)
  }

  /** The base of the `i`-th page of a run starting at `start`. */
  function PageBase(start: nat, i: nat): nat {
    start + i * PageSize
  }

  /** `a` is the base of one of the `n` pages of the run starting at `start`. */
  predicate Covered(start: nat, n: nat, a: nat) {
    start <= a < start + n * PageSize && (a - start) % PageSize == 0
  }

  lemma CoveredPageBase(start: nat, n: nat, a: nat)
    ensures Covered(start, n, a) <==> exists i :: 0 <= i < n && a == PageBase(start, i)
  {
    if Covered(start, n, a) {
      var i := (a - start) / PageSize;
      assert a == PageBase(start, i);
    }
  }

  /** The pages of a run from a page boundary sit on page boundaries. */
  lemma CoveredAligned(start: nat, n: nat)
    requires start % PageSize == 0
    ensures forall a: nat :: Covered(start, n, a) ==> a % PageSize == 0
  {
  }

  /** Some page of the run of `n` pages at `start` is already in the table. */
  predicate Collides(pages: PageTable, start: nat, n: nat) {
    exists i :: 0 <= i < n && PageBase(start, i) in pages
  }

  function CoveredSet(start: nat, n: nat): set<nat> {
    set a: nat | start <= a < start + n * PageSize && Covered(start, n, a)
  }

  // ---------------------------------------------------------------------------
  // Page attributes.

  /** Reads see a page that has the commit bit and lacks the no-access bit. */
  predicate Readable(p: Page) {
    p.state & MEM_COMMIT != 0 && p.protect & PAGE_NOACCESS == 0
  }

  /** Writes need the commit bit and a read-write or execute-read-write protection. */
  predicate Writable(p: Page) {
    Committed(p) && AllowsWrite(p)
  }

  /** The page has the commit bit. */
  predicate Committed(p: Page) {
    p.state & MEM_COMMIT != 0
  }

  /** The protection has the read-write or the execute-read-write bit. */
  predicate AllowsWrite(p: Page) {
    p.protect & (PAGE_READWRITE | PAGE_EXECUTE_READWRITE) != 0
  }

  predicate WritableAt(pages: PageTable, a: nat) {
    AlignDown(a) in pages && Writable(pages[AlignDown(a)])
  }

  // ---------------------------------------------------------------------------
  // The effect of each operation on the page table.

  /** The page at `a` after `allocate`: the existing page, or a fresh zero-filled
      private one, now committed with `protect`. */
  function CommitPage(pages: PageTable, a: nat, protect: bv32): Page {
    var page := if a in pages then pages[a]
                else Page(a, Zeroes(PageSize), MEM_FREE, PAGE_NOACCESS, MEM_PRIVATE);
    page.(state := MEM_COMMIT, protect := protect)
  }

  /** The table after committing the `n` pages at `base`. */
  function Allocated(pages: PageTable, base: nat, n: nat, protect: bv32): (r: PageTable)
    requires TableValid(pages) && base % PageSize == 0
    ensures TableValid(r)
    ensures forall a :: a in r <==> a in pages || Covered(base, n, a)
  {
    CoveredAligned(base, n);
    map a | a in pages.Keys + CoveredSet(base, n) ::
      if Covered(base, n, a) then CommitPage(pages, a, protect) else pages[a]
  }

  /** The table after decommitting the `n` pages at `base`: the present ones
      become reserved, keeping their bytes and protection. */
  function Decommitted(pages: PageTable, base: nat, n: nat): (r: PageTable)
    requires TableValid(pages)
    ensures TableValid(r) && r.Keys == pages.Keys
  {
    map a | a in pages :: if Covered(base, n, a) then pages[a].(state := MEM_RESERVE) else pages[a]
  }

  /** The table after releasing the `n` pages at `base`. */
  function Released(pages: PageTable, base: nat, n: nat): (r: PageTable)
    requires TableValid(pages)
    ensures TableValid(r)
    ensures forall a :: a in r <==> a in pages && !Covered(base, n, a)
  {
    map a | a in pages && !Covered(base, n, a) :: pages[a]
  }

  /** The byte a read sees at `a`: the page's byte if the page is readable, else 0. */
  function ByteAt(pages: PageTable, a: nat): Byte
    requires TableValid(pages)
  {
    var base := AlignDown(a);
    if base in pages && Readable(pages[base]) then pages[base].data[a - base] else 0
  }

  /** What `read(address, size)` returns. */
  function ReadBytes(pages: PageTable, address: nat, size: nat): (r: seq<Byte>)
    requires TableValid(pages)
    ensures |r| == size
  {
    seq<Byte>(size, i requires 0 <= i < size => ByteAt(pages, address + i))
  }

  /** A page's bytes once the first `count` bytes of `data` are stored at `address`. */
  function WrittenData(p: Page, address: nat, data: seq<Byte>, count: nat): (r: seq<Byte>)
    requires count <= |data|
    ensures |r| == |p.data|
  {
    seq(|p.data|, o requires 0 <= o < |p.data| =>
      if address <= p.address + o < address + count then data[p.address + o - address] else p.data[o])
  }

  /** The page with `chunk` copied over its bytes from `offset` on. */
  function CopyIntoPage(p: Page, offset: nat, chunk: seq<Byte>): (r: Page)
    requires offset + |chunk| <= |p.data|
    ensures r == p.(data := r.data) && |r.data| == |p.data|
    ensures r.data[offset..offset + |chunk|] == chunk
    ensures forall o :: 0 <= o < |p.data| && !(offset <= o < offset + |chunk|) ==> r.data[o] == p.data[o]
  {
    p.(data := p.data[..offset] + chunk + p.data[offset + |chunk|..])
  }

  /** The table once the first `count` bytes of `data` are stored at `address`. */
  function Written(pages: PageTable, address: nat, data: seq<Byte>, count: nat): (r: PageTable)
    requires TableValid(pages) && count <= |data|
    ensures TableValid(r) && r.Keys == pages.Keys
  {
    map a | a in pages :: pages[a].(data := WrittenData(pages[a], address, data, count))
  }

  /** What `query(address)` reports. */
  function Query(pages: PageTable, address: nat): (info: RegionInfo)
    requires TableValid(pages)
    ensures info.baseAddress == info.allocationBase == AlignDown(address)
    ensures info.regionSize == PageSize && info.allocationProtect == info.protect
    ensures info.state == MEM_FREE <==> AlignDown(address) !in pages
    ensures AlignDown(address) !in pages ==> info.protect == PAGE_NOACCESS && info.memType == MEM_PRIVATE
    ensures AlignDown(address) in pages ==>
      var p := pages[AlignDown(address)];
      info.state == p.state && info.protect == p.protect && info.memType == p.memType
  {
    var pageAddr := AlignDown(address);
    if pageAddr !in pages then
      RegionInfo(pageAddr, pageAddr, PAGE_NOACCESS, PageSize, MEM_FREE, PAGE_NOACCESS, MEM_PRIVATE)
    else
      var page := pages[pageAddr];
      RegionInfo(page.address, page.address, page.protect, PageSize, page.state, page.protect, page.memType)
  }

  /** The number of pages `free` acts on: the pages `size` spans, or one when it is 0. */
  function FreeCount(size: nat): (n: nat)
    ensures n >= 1
    ensures size == 0 ==> n == 1
    ensures size > 0 ==> n * PageSize >= size && (n - 1) * PageSize < size
  {
    var n := PageCount(size);
    if n == 0 then 1 else n
  }

  /** An upper bound on a finite set of addresses. */
  ghost function KeyBound(s: set<nat>): (b: nat)
    ensures forall k :: k in s ==> k < b
  {
    if s == {} then 0
    else
      var x :| x in s;
      var b := KeyBound(s - {x});
      assert forall k :: k in s ==> k == x || k in s - {x};
      if x + 1 > b then x + 1 else b
  }

  // ---------------------------------------------------------------------------
  // Step lemmas used by the loops of the memory manager.

  /** The run of `i + 1` pages covers the run of `i` pages and the next page. */
  lemma CoveredStep(base: nat, i: nat, b: nat)
    ensures Covered(base, i + 1, b) <==> Covered(base, i, b) || b == PageBase(base, i)
  {
  }

  lemma AllocatedStep(pages: PageTable, base: nat, i: nat, protect: bv32)
    requires TableValid(pages) && base % PageSize == 0
    ensures
      var cur := Allocated(pages, base, i, protect);
      var a := PageBase(base, i);
      Allocated(pages, base, i + 1, protect) == cur[a := CommitPage(cur, a, protect)]
  {
    var cur := Allocated(pages, base, i, protect);
    var a := PageBase(base, i);
    var next := Allocated(pages, base, i + 1, protect);
    var updated := cur[a := CommitPage(cur, a, protect)];
    assert !Covered(base, i, a);
    assert CommitPage(cur, a, protect) == CommitPage(pages, a, protect);
    forall b | b in next
      ensures b in updated && next[b] == updated[b]
    {
      CoveredStep(base, i, b);
    }
    forall b | b in updated
      ensures b in next
    {
      CoveredStep(base, i, b);
    }
    assert next == updated;
  }

  lemma DecommittedStep(pages: PageTable, base: nat, i: nat)
    requires TableValid(pages)
    ensures
      var cur := Decommitted(pages, base, i);
      var a := PageBase(base, i);
      Decommitted(pages, base, i + 1) ==
        if a in cur then cur[a := cur[a].(state := MEM_RESERVE)] else cur
  {
    var a := PageBase(base, i);
    forall b | true
      ensures Covered(base, i + 1, b) <==> Covered(base, i, b) || b == a
    {
      CoveredStep(base, i, b);
    }
  }

  lemma ReleasedStep(pages: PageTable, base: nat, i: nat)
    requires TableValid(pages)
    ensures Released(pages, base, i + 1) == Released(pages, base, i) - {PageBase(base, i)}
  {
    var a := PageBase(base, i);
    forall b | true
      ensures Covered(base, i + 1, b) <==> Covered(base, i, b) || b == a
    {
      CoveredStep(base, i, b);
    }
  }

  /** A page other than the one receiving the next `n` bytes keeps its bytes. */
  lemma WrittenDataOther(p: Page, address: nat, data: seq<Byte>, w: nat, n: nat, pageAddr: nat)
    requires p.address % PageSize == 0 && |p.data| == PageSize && p.address != pageAddr
    requires w + n <= |data| && pageAddr == AlignDown(address + w)
    requires address + w + n <= pageAddr + PageSize
    ensures WrittenData(p, address, data, w + n) == WrittenData(p, address, data, w)
  {
    forall o | 0 <= o < PageSize
      ensures WrittenData(p, address, data, w + n)[o] == WrittenData(p, address, data, w)[o]
    {
      AlignDownUnique(p.address + o, p.address);
      AlignDownUnique(p.address + o, pageAddr);
    }
  }

  /** The page receiving the next `n` bytes gets them at the right offset. */
  lemma WrittenDataSame(p: Page, address: nat, data: seq<Byte>, w: nat, n: nat)
    requires |p.data| == PageSize && w + n <= |data|
    requires p.address <= address + w && address + w + n <= p.address + PageSize
    ensures
      var cur := WrittenData(p, address, data, w);
      var offset := address + w - p.address;
      WrittenData(p, address, data, w + n) == cur[..offset] + data[w..w + n] + cur[offset + n..]
  {
  }

  /** Storing the next `n` bytes, which all fall in the page at `pageAddr`,
      changes that page's bytes and nothing else. */
  lemma WrittenStep(pages: PageTable, address: nat, data: seq<Byte>, w: nat, n: nat, pageAddr: nat)
    requires TableValid(pages) && w + n <= |data|
    requires pageAddr in pages && pageAddr == AlignDown(address + w)
    requires address + w + n <= pageAddr + PageSize
    ensures
      var cur := Written(pages, address, data, w);
      Written(pages, address, data, w + n) == cur[pageAddr := CopyIntoPage(cur[pageAddr], address + w - pageAddr, data[w..w + n])]
  {
    var cur := Written(pages, address, data, w);
    var offset := address + w - pageAddr;
    var next := Written(pages, address, data, w + n);
    var updated := cur[pageAddr := CopyIntoPage(cur[pageAddr], offset, data[w..w + n])];
    forall a | a in pages
      ensures next[a] == updated[a]
    {
      if a != pageAddr {
        WrittenDataOther(pages[a], address, data, w, n, pageAddr);
      } else {
        WrittenDataSame(pages[a], address, data, w, n);
      }
    }
    assert next == updated;
  }

  /** Every one of the `count` bytes from `address` lies in a writable page. */
  predicate WritablePrefix(pages: PageTable, address: nat, count: nat) {
    forall a :: address <= a < address + count ==> WritableAt(pages, a)
  }

  /** How many of the `limit` bytes from `address` lie, one after another, in
      writable pages: the length of the prefix `write` stores. */
  function WritableRun(pages: PageTable, address: nat, limit: nat): (n: nat)
    ensures n <= limit
    decreases limit
  {
    if limit == 0 || !WritableAt(pages, address) then 0
    else 1 + WritableRun(pages, address + 1, limit - 1)
  }

  /** A count that covers only writable bytes and stops at the limit or at a
      byte that is not writable is exactly the writable run. */
  lemma {:induction false} WritableRunIsStop(pages: PageTable, address: nat, limit: nat, w: nat)
    requires w <= limit && WritablePrefix(pages, address, w)
    requires w < limit ==> !WritableAt(pages, address + w)
    ensures WritableRun(pages, address, limit) == w
    decreases w
  {
    if w > 0 {
      assert WritableAt(pages, address);
      WritableRunIsStop(pages, address + 1, limit - 1, w - 1);
    }
  }

  /** Every address of a writable page is writable. */
  lemma WritableSpan(pages: PageTable, pageAddr: nat, lo: nat, hi: nat)
    requires pageAddr in pages && Writable(pages[pageAddr]) && pageAddr % PageSize == 0
    requires pageAddr <= lo && hi <= pageAddr + PageSize
    ensures forall a :: lo <= a < hi ==> WritableAt(pages, a)
  {
    forall a | lo <= a < hi
      ensures WritableAt(pages, a)
    {
      AlignDownUnique(a, pageAddr);
    }
  }

  /** Storing no bytes leaves the table as it is. */
  lemma WrittenNothing(pages: PageTable, address: nat, data: seq<Byte>)
    requires TableValid(pages)
    ensures Written(pages, address, data, 0) == pages
  {
    forall a | a in pages
      ensures Written(pages, address, data, 0)[a] == pages[a]
    {
      assert WrittenData(pages[a], address, data, 0) == pages[a].data;
    }
  }

  /** Under stored bytes the page of the next byte is writable exactly when
      it was writable before. */
  lemma WrittenWritable(pages: PageTable, address: nat, data: seq<Byte>, w: nat, pageAddr: nat, cur: PageTable)
    requires TableValid(pages) && w <= |data| && pageAddr == AlignDown(address + w)
    requires cur == Written(pages, address, data, w)
    ensures pageAddr in cur && Writable(cur[pageAddr]) <==> WritableAt(pages, address + w)
  {
  }

  /** One iteration of `write` over `cur`, the table holding the first `w`
      bytes, when the page of the next byte is writable: the next `n` bytes
      extend the writable prefix, and storing them into that page at `offset`
      gives the table holding `w + n` bytes. */
  lemma WriteChunk(pages: PageTable, address: nat, data: seq<Byte>, w: nat, n: nat, pageAddr: nat, offset: nat, cur: PageTable)
    requires TableValid(pages) && w + n <= |data|
    requires pageAddr == AlignDown(address + w) && offset == address + w - pageAddr
    requires address + w + n <= pageAddr + PageSize
    requires cur == Written(pages, address, data, w)
    requires WritablePrefix(pages, address, w) && WritableAt(pages, address + w)
    ensures WritablePrefix(pages, address, w + n)
    ensures pageAddr in cur && offset + n <= |cur[pageAddr].data|
    ensures Written(pages, address, data, w + n) == cur[pageAddr := CopyIntoPage(cur[pageAddr], offset, data[w..w + n])]
  {
    WrittenStep(pages, address, data, w, n, pageAddr);
    WritableSpan(pages, pageAddr, address + w, address + w + n);
  }

  // ---------------------------------------------------------------------------
  // What the operations promise, stated over the page table.

  /** The page of `a` is one of the `n` pages at `base` exactly when `a` lies in
      the `n * PageSize` bytes from `base`. */
  lemma CoveredAlignDown(base: nat, n: nat, a: nat)
    requires base % PageSize == 0
    ensures Covered(base, n, AlignDown(a)) <==> base <= a < base + n * PageSize
  {
    if base <= a {
      var r := base + ((a - base) / PageSize) * PageSize;
      AlignDownUnique(a, r);
    }
  }

  /** After `allocate`, every byte of the range lies in a committed page with
      the requested protection; a page that was present keeps its region type,
      a new one is private. */
  lemma AllocateThenQuery(pages: PageTable, base: nat, n: nat, protect: bv32, a: nat)
    requires TableValid(pages) && base % PageSize == 0
    requires base <= a < base + n * PageSize
    ensures
      var info := Query(Allocated(pages, base, n, protect), a);
      info.state == MEM_COMMIT && info.protect == protect &&
      info.memType == (if AlignDown(a) in pages then pages[AlignDown(a)].memType else MEM_PRIVATE)
  {
    CoveredAlignDown(base, n, a);
  }

  /** Memory that `allocate` adds reads as zero; memory it recommits keeps its bytes. */
  lemma AllocateThenRead(pages: PageTable, base: nat, n: nat, protect: bv32, a: nat)
    requires TableValid(pages) && base % PageSize == 0
    requires base <= a < base + n * PageSize
    ensures AlignDown(a) !in pages ==> ByteAt(Allocated(pages, base, n, protect), a) == 0
    ensures AlignDown(a) in pages && protect & PAGE_NOACCESS == 0 ==>
      ByteAt(Allocated(pages, base, n, protect), a) == pages[AlignDown(a)].data[a - AlignDown(a)]
  {
    CoveredAlignDown(base, n, a);
  }

  /** `allocate` leaves pages outside its range as they were. */
  lemma AllocateElsewhere(pages: PageTable, base: nat, n: nat, protect: bv32, a: nat)
    requires TableValid(pages) && base % PageSize == 0
    requires !(base <= a < base + n * PageSize)
    ensures Query(Allocated(pages, base, n, protect), a) == Query(pages, a)
    ensures ByteAt(Allocated(pages, base, n, protect), a) == ByteAt(pages, a)
  {
    CoveredAlignDown(base, n, a);
  }

  /** After a decommit, a present page of the range is reserved and reads as
      zero, an absent one stays free, and every other page is untouched. */
  lemma DecommitThenQuery(pages: PageTable, base: nat, n: nat, a: nat)
    requires TableValid(pages) && base % PageSize == 0
    ensures base <= a < base + n * PageSize ==>
      Query(Decommitted(pages, base, n), a).state == (if AlignDown(a) in pages then MEM_RESERVE else MEM_FREE) &&
      ByteAt(Decommitted(pages, base, n), a) == 0
    ensures !(base <= a < base + n * PageSize) ==>
      Query(Decommitted(pages, base, n), a) == Query(pages, a) &&
      ByteAt(Decommitted(pages, base, n), a) == ByteAt(pages, a)
  {
    CoveredAlignDown(base, n, a);
  }

  /** After a release, every page of the range is free and every other page is
      untouched. */
  lemma ReleaseThenQuery(pages: PageTable, base: nat, n: nat, a: nat)
    requires TableValid(pages) && base % PageSize == 0
    ensures base <= a < base + n * PageSize ==>
      Query(Released(pages, base, n), a).state == MEM_FREE && ByteAt(Released(pages, base, n), a) == 0
    ensures !(base <= a < base + n * PageSize) ==>
      Query(Released(pages, base, n), a) == Query(pages, a) &&
      ByteAt(Released(pages, base, n), a) == ByteAt(pages, a)
  {
    CoveredAlignDown(base, n, a);
  }

  /** The life cycle of a 16 KiB region: committed after `allocate`, reserved
      after a decommit of the whole size, free after a release of size 0. */
  lemma RegionLifecycle(pages: PageTable, base: nat, protect: bv32)
    requires TableValid(pages) && base % PageSize == 0
    ensures
      var committed := Allocated(pages, base, PageCount(16384), protect);
      var reserved := Decommitted(committed, base, FreeCount(16384));
      var released := Released(reserved, base, FreeCount(0));
      Query(committed, base).state == MEM_COMMIT &&
      Query(reserved, base).state == MEM_RESERVE &&
      Query(released, base).state == MEM_FREE
  {
    var committed := Allocated(pages, base, PageCount(16384), protect);
    var reserved := Decommitted(committed, base, FreeCount(16384));
    assert PageCount(16384) == 4 && FreeCount(16384) == 4 && FreeCount(0) == 1;
    AllocateThenQuery(pages, base, 4, protect, base);
    CoveredAlignDown(base, 4, base);
    DecommitThenQuery(committed, base, 4, base);
    ReleaseThenQuery(reserved, base, 1, base);
  }

  /** Bytes can be read back from the pages they were written to, provided
      those pages are readable and writable. */
  predicate ReadWritablePrefix(pages: PageTable, address: nat, count: nat) {
    forall a :: address <= a < address + count ==>
      AlignDown(a) in pages && Writable(pages[AlignDown(a)]) && Readable(pages[AlignDown(a)])
  }

  /** Reading back what `write` stored yields the stored bytes. */
  lemma ReadAfterWrite(pages: PageTable, address: nat, data: seq<Byte>, count: nat)
    requires TableValid(pages) && count <= |data|
    requires ReadWritablePrefix(pages, address, count)
    ensures ReadBytes(Written(pages, address, data, count), address, count) == data[..count]
  {
    var after := Written(pages, address, data, count);
    forall i | 0 <= i < count
      ensures ReadBytes(after, address, count)[i] == data[i]
    {
      var a := address + i;
      var base := AlignDown(a);
      assert base in pages && Readable(pages[base]);
      assert after[base] == pages[base].(data := after[base].data);
      assert after[base].data[a - base] == data[i];
      assert Readable(after[base]) && base in after;
      assert ByteAt(after, a) == after[base].data[a - base];
      assert ReadBytes(after, address, count)[i] == ByteAt(after, a);
    }
  }

  /** A region just committed read-write takes a write of up to its size in
      full, and reading the range back yields exactly the bytes written. */
  lemma AllocateWriteRead(pages: PageTable, base: nat, n: nat, data: seq<Byte>)
    requires TableValid(pages) && base % PageSize == 0 && |data| <= n * PageSize
    ensures
      var committed := Allocated(pages, base, n, PAGE_READWRITE);
      WritableRun(committed, base, |data|) == |data| &&
      ReadBytes(Written(committed, base, data, |data|), base, |data|) == data
  {
    var committed := Allocated(pages, base, n, PAGE_READWRITE);
    forall a | base <= a < base + |data|
      ensures AlignDown(a) in committed && Writable(committed[AlignDown(a)]) && Readable(committed[AlignDown(a)])
    {
      CoveredAlignDown(base, n, a);
    }
    assert WritablePrefix(committed, base, |data|);
    WritableRunIsStop(committed, base, |data|, |data|);
    ReadAfterWrite(committed, base, data, |data|);
    assert data[..|data|] == data;
  }

  /** `write` changes no byte outside the span it stored. */
  lemma WriteElsewhere(pages: PageTable, address: nat, data: seq<Byte>, count: nat, a: nat)
    requires TableValid(pages) && count <= |data|
    requires !(address <= a < address + count)
    ensures ByteAt(Written(pages, address, data, count), a) == ByteAt(pages, a)
    ensures Query(Written(pages, address, data, count), a) == Query(pages, a)
  {
  }

  // ---------------------------------------------------------------------------

  /** The page table of one simulated process. */
  class MemoryManager {
    var pages: PageTable

    ghost predicate Valid()
      reads this
    {
      TableValid(pages)
    }

    constructor()
      ensures Valid() && pages == map[]
    {
      pages := map[];
    }

    /** Whether any of the `n` pages at `start` is already present. */
    method HasCollision(start: nat, n: nat) returns (collision: bool)
      ensures collision == Collides(pages, start, n)
    {
      collision := false;
      var i := 0;
      while i < n
        invariant 0 <= i <= n
        invariant forall j :: 0 <= j < i ==> PageBase(start, j) !in pages
      {
        if PageBase(start, i) in pages {
          collision := true;
          break;
        }
        i := i + 1;
      }
    }

    /** The first candidate from `SearchStart` upward, in page steps, at which
        none of the `n` pages is present. */
    method FindFreeRun(n: nat) returns (start: nat)
      ensures start % PageSize == 0 && start >= SearchStart
      ensures !Collides(pages, start, n)
      ensures forall c :: SearchStart <= c < start && c % PageSize == 0 ==> Collides(pages, c, n)
    {
      start := SearchStart;
      ghost var bound := KeyBound(pages.Keys);
      while true
        invariant start % PageSize == 0 && start >= SearchStart
        invariant forall c :: SearchStart <= c < start && c % PageSize == 0 ==> Collides(pages, c, n)
        decreases bound - start
      {
        var collision := HasCollision(start, n);
        if !collision {
          break;
        }
        forall c | SearchStart <= c < start + PageSize && c % PageSize == 0
          ensures Collides(pages, c, n)
        {
          if c >= start {
            AlignDownUnique(c, start);
            AlignDownUnique(c, c);
          }
        }
        start := start + PageSize;
      }
    }

    /** `allocate(address, size, allocationType, protect)`. */
    method Allocate(address: nat, size: nat, allocationType: bv32, protect: bv32) returns (base: nat)
      requires Valid()
      modifies this
      ensures Valid()
      ensures base % PageSize == 0
      ensures address > 0 ==> base == AlignDown(address)
      ensures address == 0 ==> base >= SearchStart && !Collides(old(pages), base, PageCount(size))
      ensures address == 0 ==> forall c :: SearchStart <= c < base && c % PageSize == 0 ==> Collides(old(pages), c, PageCount(size))
      ensures pages == Allocated(old(pages), base, PageCount(size), protect)
    {
      var numPages := PageCount(size);
      var startAddress := if address > 0 then AlignDown(address) else SearchStart;
      if address == 0 {
        startAddress := FindFreeRun(numPages);
      }
      for i := 0 to numPages
        invariant pages == Allocated(old(pages), startAddress, i, protect)
      {
        AllocatedStep(old(pages), startAddress, i, protect);
        var pageAddr := PageBase(startAddress, i);
        var page := if pageAddr in pages then pages[pageAddr]
                    else Page(pageAddr, Zeroes(PageSize), MEM_FREE, PAGE_NOACCESS, MEM_PRIVATE);
        page := page.(state := MEM_COMMIT, protect := protect);
        pages := pages[pageAddr := page];
      }
      base := startAddress;
    }

    /** `free(address, size, freeType)`: decommit (0x4000) or release (0x8000);
        any other kind fails and changes nothing. */
    method Free(address: nat, size: nat, freeType: int) returns (ok: bool)
      requires Valid()
      modifies this
      ensures Valid()
      ensures ok <==> freeType == MEM_DECOMMIT || freeType == MEM_RELEASE
      ensures freeType == MEM_DECOMMIT ==> pages == Decommitted(old(pages), AlignDown(address), FreeCount(size))
      ensures freeType == MEM_RELEASE ==> pages == Released(old(pages), AlignDown(address), FreeCount(size))
      ensures !ok ==> pages == old(pages)
    {
      var startAddress := AlignDown(address);
      var numPages := FreeCount(size);

      if freeType == MEM_DECOMMIT {
        for i := 0 to numPages
          invariant pages == Decommitted(old(pages), startAddress, i)
        {
          DecommittedStep(old(pages), startAddress, i);
          var pageAddr := PageBase(startAddress, i);
          if pageAddr in pages {
            pages := pages[pageAddr := pages[pageAddr].(state := MEM_RESERVE)];
          }
        }
        return true;
      }

      if freeType == MEM_RELEASE {
        if size == 0 {
          // Only the page at the aligned address goes.
          ReleasedStep(pages, startAddress, 0);
          assert Released(pages, startAddress, 0) == pages;
          pages := pages - {startAddress};
        } else {
          for i := 0 to numPages
            invariant pages == Released(old(pages), startAddress, i)
          {
            ReleasedStep(old(pages), startAddress, i);
            pages := pages - {PageBase(startAddress, i)};
          }
        }
        return true;
      }

      return false;
    }

    /** `read(address, size)`: exactly `size` bytes; unreadable spans read as zero. */
    method Read(address: nat, size: nat) returns (result: seq<Byte>)
      requires Valid()
      ensures result == ReadBytes(pages, address, size)
    {
      var buf := new Byte[size](_ => 0);
      var bytesRead := 0;
      var currentAddr := address;
      while bytesRead < size
        invariant bytesRead <= size && currentAddr == address + bytesRead
        invariant forall i :: 0 <= i < bytesRead ==> buf[i] == ByteAt(pages, address + i)
        invariant forall i :: bytesRead <= i < size ==> buf[i] == 0
      {
        var pageAddr := AlignDown(currentAddr);
        var offsetInPage := currentAddr - pageAddr;
        var bytesToRead := if PageSize - offsetInPage < size - bytesRead then PageSize - offsetInPage else size - bytesRead;
        forall b | currentAddr <= b < currentAddr + bytesToRead
          ensures AlignDown(b) == pageAddr
        {
          AlignDownUnique(b, pageAddr);
        }
        if pageAddr in pages && Readable(pages[pageAddr]) {
          var page := pages[pageAddr];
          forall j | 0 <= j < bytesToRead {
            buf[bytesRead + j] := page.data[offsetInPage + j];
          }
        }
        bytesRead := bytesRead + bytesToRead;
        currentAddr := currentAddr + bytesToRead;
      }
      result := buf[..];
    }

    /** `write(address, data)`: stores `data` page by page, stopping at the first
        page that is absent, not committed or not writable; returns how many
        leading bytes were stored. */
    method Write(address: nat, data: seq<Byte>) returns (written: nat)
      requires Valid()
      modifies this
      ensures Valid()
      ensures written <= |data|
      ensures WritablePrefix(old(pages), address, written)
      ensures written < |data| ==> !WritableAt(old(pages), address + written)
      ensures pages == Written(old(pages), address, data, written)
    {
      written := 0;
      var currentAddr := address;
      var size := |data|;
      // The loop stores into a copy of the table, which replaces it at the end.
      var original, table := pages, pages;
      WrittenNothing(table, address, data);
      while written < size
        invariant written <= size && currentAddr == address + written
        invariant table == Written(original, address, data, written)
        invariant WritablePrefix(original, address, written)
      {
        var pageAddr := AlignDown(currentAddr);
        var offsetInPage := currentAddr - pageAddr;
        var bytesToWrite := if PageSize - offsetInPage < size - written then PageSize - offsetInPage else size - written;
        WrittenWritable(original, address, data, written, pageAddr, table);
        if pageAddr in table && Committed(table[pageAddr]) {
          if AllowsWrite(table[pageAddr]) {
            WriteChunk(original, address, data, written, bytesToWrite, pageAddr, offsetInPage, table);
            table := table[pageAddr := CopyIntoPage(table[pageAddr], offsetInPage, data[written..written + bytesToWrite])];
            assert table == Written(original, address, data, written + bytesToWrite);
          } else {
            break;
          }
        } else {
          break;
        }
        written := written + bytesToWrite;
        currentAddr := currentAddr + bytesToWrite;
      }
      pages := table;
    }
  }
}
