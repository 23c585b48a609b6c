/**
 * The virtual-memory distributed storage of storage_vm.hpp (`dynarray_storage<T, Dims, VM>`).
 *
 * Distributing an array walks its aligned index space with the page allocator and makes one
 * CUDA_VM_ALIGN-byte device allocation per page, on the page's device, expecting the driver
 * to hand out one flat virtual range. The bulk copies move the host buffer to and from that
 * range in CUDA_VM_ALIGN-byte chunks, the last one clipped to the buffer size.
 *
 * Sizes and offsets are in bytes.
 */
module StorageVM {
  import opened Arith
  import opened IndexSpace
  import opened PageAlloc
  import opened Runtime

  datatype Option<T> = None | Some(value: T)

  /** What a distributed array remembers: device count, local tile extents, device stride per axis. */
  datatype HostInfo = HostInfo(gpus: nat, localDims: seq<int>, arrayDimToGpus: seq<int>)

  /**
   * The parts of a compute mapping the storage reads: the device count, the number of
   * partitioned computation and array axes, and the tile extents and device strides the
   * distribution helpers derive from it.
   */
  datatype Mapping = Mapping(procs: nat, compPartDims: nat, arrayPartDims: nat,
                             localDims: seq<int>, arrayDimToGpus: seq<int>)

  /**
   * Result of distribute: true / false of the source, the reason the program stops, or a
   * distribution refused because it charges a position to a device that does not exist.
   */
  datatype Outcome = Distributed | AlreadyDistributed | NotEnoughPartitionedDims | NonContiguous | DeviceOutOfRange

  /** Byte offset of chunk i as the copy loops compute it: through an element index, rounded down. */
  function ChunkStart(i: nat, chunk: nat, elem: nat): (r: nat)
    requires elem > 0
    ensures r <= chunk * i < r + elem && r % elem == 0
  {
    RoundDown(chunk * i, elem);
    ((chunk * i) / elem) * elem
  }

  lemma RoundDown(n: nat, d: nat)
    requires d > 0
    ensures (n / d) * d <= n < (n / d) * d + d && ((n / d) * d) % d == 0
  {
    var q := n / d;
    assert n == q * d + n % d;
    DivModUnique(q * d, d, q, 0);
  }

  /** Number of chunks of a `size`-byte buffer. */
  function ChunkCount(size: nat, chunk: nat): (n: nat)
    requires chunk > 0
    ensures n * chunk >= size && (n > 0 ==> (n - 1) * chunk < size)
  {
    DivCeil(size, chunk)
  }

  /** Byte count of chunk i: a whole chunk, except the last, which ends at the end of the buffer. */
  function ChunkLen(i: nat, size: nat, chunk: nat): (r: nat)
    requires chunk > 0 && i < ChunkCount(size, chunk)
    ensures i * chunk < size && 0 < r <= chunk
    ensures i * chunk + r == Min((i + 1) * chunk, size)
    ensures i + 1 < ChunkCount(size, chunk) ==> r == chunk
  {
    ChunkBounds(i, ChunkCount(size, chunk), size, chunk);
    if (i + 1) * chunk > size then size - i * chunk else chunk
  }

  lemma ChunkBounds(i: nat, n: nat, size: nat, chunk: nat)
    requires chunk > 0 && i < n && (n - 1) * chunk < size
    ensures i * chunk < size && (i + 1) * chunk == i * chunk + chunk
    ensures i + 1 < n ==> (i + 1) * chunk < size
  {
    MulMono(i, n - 1, chunk);
    if i + 1 < n {
      MulMono(i + 1, n - 1, chunk);
    }
  }

  /** When the chunk is a whole number of elements, the rounded offset is exact. */
  lemma ChunkStartExact(i: nat, chunk: nat, elem: nat)
    requires elem > 0 && chunk % elem == 0
    ensures ChunkStart(i, chunk, elem) == i * chunk
  {
    var q := chunk / elem;
    assert chunk == q * elem;
    assert chunk * i == (q * i) * elem;
    DivModUnique(chunk * i, elem, q * i, 0);
  }

  /** Byte k lies in the j-th run of `chunk` bytes exactly when j is k / chunk. */
  lemma InChunk(k: nat, chunk: nat, j: nat)
    requires chunk > 0
    ensures j * chunk <= k < j * chunk + chunk <==> j == k / chunk
  {
    if j * chunk <= k < j * chunk + chunk {
      DivModUnique(k, chunk, j, k - j * chunk);
    }
  }

  /** The chunks tile the buffer: byte k lies in chunk k / chunk and in no other. */
  lemma ChunksTile(size: nat, chunk: nat, k: nat, j: nat)
    requires chunk > 0 && k < size && j < ChunkCount(size, chunk)
    ensures k / chunk < ChunkCount(size, chunk)
    ensures var i := k / chunk; i * chunk <= k < i * chunk + ChunkLen(i, size, chunk)
    ensures j * chunk <= k < j * chunk + ChunkLen(j, size, chunk) <==> j == k / chunk
  {
    var n := ChunkCount(size, chunk);
    var i := k / chunk;
    InChunk(k, chunk, i);
    InChunk(k, chunk, j);
    if i >= n {
      MulMono(n, i, chunk);
      assert false;
    }
    ChunkBounds(i, n, size, chunk);
  }

  /** The facts about chunk i both copy loops rely on, for chunks of whole elements. */
  lemma ChunkArith(i: nat, size: nat, chunk: nat, elem: nat)
    requires 0 < elem && chunk % elem == 0 && chunk > 0 && i < ChunkCount(size, chunk)
    ensures i * chunk < size && (chunk * i) / elem * elem == i * chunk == ChunkStart(i, chunk, elem)
    ensures ChunkLen(i, size, chunk) == if (i + 1) * chunk > size then size - i * chunk else chunk
    ensures Min(i * chunk, size) == i * chunk
    ensures i * chunk + ChunkLen(i, size, chunk) == Min((i + 1) * chunk, size)
    ensures i * chunk + ChunkLen(i, size, chunk) < size ==> i + 1 < ChunkCount(size, chunk)
    ensures i + 1 < ChunkCount(size, chunk) ==> i * chunk + ChunkLen(i, size, chunk) == (i + 1) * chunk
    ensures i + 1 == ChunkCount(size, chunk) ==> i * chunk + ChunkLen(i, size, chunk) == size
  {
    ChunkStartExact(i, chunk, elem);
    ChunkBounds(i, ChunkCount(size, chunk), size, chunk);
  }

  /**
   * Without the divisibility the code takes for granted, the chunks leave holes: with 16-byte
   * chunks and 12-byte elements, bytes 20 .. 23 of a 24-byte buffer are copied by no chunk.
   */
  lemma ChunksNeedWholeElements()
    ensures ChunkCount(24, 16) == 2
    ensures ChunkStart(0, 16, 12) + ChunkLen(0, 24, 16) == 16
    ensures ChunkStart(1, 16, 12) == 12 && ChunkStart(1, 16, 12) + ChunkLen(1, 24, 16) == 20
  {
    assert ChunkStart(1, 16, 12) == 12;
  }

  /** The copy calls of the first k chunks, in order, in the direction `toDevice` names. */
  function ChunkCopies(base: int, size: nat, chunk: nat, elem: nat, toDevice: bool, k: nat): seq<Call>
    requires chunk > 0 && elem > 0 && k <= ChunkCount(size, chunk)
  {
    seq(k, i requires 0 <= i < k =>
      var off := ChunkStart(i, chunk, elem);
      if toDevice then Call.CopyToDevice(base + off, off, ChunkLen(i, size, chunk))
      else Call.CopyToHost(off, base + off, ChunkLen(i, size, chunk)))
  }

  lemma ChunkCopiesStep(base: int, size: nat, chunk: nat, elem: nat, toDevice: bool, k: nat)
    requires chunk > 0 && elem > 0 && k < ChunkCount(size, chunk)
    ensures ChunkCopies(base, size, chunk, elem, toDevice, k + 1) ==
      ChunkCopies(base, size, chunk, elem, toDevice, k) + [ChunkCopies(base, size, chunk, elem, toDevice, k + 1)[k]]
  {
  }

  /** The calls alloc makes for pages `ps`, the i-th allocation being the (m0 + i)-th of the driver. */
  function AllocCalls(ps: seq<PageStats>, addrOf: nat -> int, m0: nat, bytes: nat): (cs: seq<Call>)
    ensures |cs| == 2 * |ps|
    ensures forall i :: 0 <= i < |ps| ==>
      cs[2 * i] == Call.SetDevice(ps[i].gpu) && cs[2 * i + 1] == Call.Malloc(ps[i].gpu, bytes, addrOf(m0 + i))
  {
    if |ps| == 0 then []
    else
      var k := |ps| - 1;
      AllocCalls(ps[..k], addrOf, m0, bytes) + [Call.SetDevice(ps[k].gpu), Call.Malloc(ps[k].gpu, bytes, addrOf(m0 + k))]
  }

  /** The device strides of an undistributed axis list: all zero. */
  function Zeros(n: nat): (z: seq<int>)
    ensures |z| == n && forall d :: 0 <= d < n ==> z[d] == 0
  {
    if n == 0 then [] else Zeros(n - 1) + [0]
  }

  /** Distance from the (k - 1)-th allocation to the k-th. */
  ghost function Gap(addrOf: nat -> int, k: nat): int
    requires k > 0
  {
    addrOf(k) - addrOf(k - 1)
  }

  /** Allocations m0 .. m0 + n - 1 each start `step` bytes after the previous one. */
  ghost predicate Contiguous(addrOf: nat -> int, m0: nat, n: nat, step: int)
  {
    forall k: nat :: m0 < k < m0 + n ==> Gap(addrOf, k) == step
  }

  /** In a contiguous run the i-th allocation sits i steps after the first: one flat range. */
  lemma {:induction false} ContiguousAt(addrOf: nat -> int, m0: nat, n: nat, step: int, i: nat)
    requires Contiguous(addrOf, m0, n, step) && i < n
    ensures addrOf(m0 + i) == addrOf(m0) + i * step
  {
    if i > 0 {
      ContiguousAt(addrOf, m0, n, step, i - 1);
      var k: nat := m0 + i;
      assert Gap(addrOf, k) == step;
    }
  }

  /** A contiguous run stays contiguous when the next address follows the last one. */
  lemma ContiguousStep(addrOf: nat -> int, m0: nat, n: nat, step: int)
    requires Contiguous(addrOf, m0, n, step) && (n > 0 ==> addrOf(m0 + n) == addrOf(m0 + n - 1) + step)
    ensures Contiguous(addrOf, m0, n + 1, step)
  {
    assert n > 0 ==> Gap(addrOf, m0 + n) == step;
  }

  /** One misplaced allocation breaks contiguity of every run containing it. */
  lemma BreakAt(addrOf: nat -> int, m0: nat, n: nat, step: int, k: nat)
    requires m0 < k < m0 + n && addrOf(k) != addrOf(k - 1) + step
    ensures !Contiguous(addrOf, m0, n, step)
  {
    assert Gap(addrOf, k) != step;
  }

  lemma AllocCallsStep(ps: seq<PageStats>, n: nat, addrOf: nat -> int, m0: nat, bytes: nat)
    requires n < |ps|
    ensures AllocCalls(ps[..n + 1], addrOf, m0, bytes) ==
      AllocCalls(ps[..n], addrOf, m0, bytes) + [Call.SetDevice(ps[n].gpu), Call.Malloc(ps[n].gpu, bytes, addrOf(m0 + n))]
  {
    assert ps[..n + 1][..n] == ps[..n];
  }

  /** The allocator has walked exactly the first k pages of `pages`, its whole page sequence. */
  ghost predicate Recorded(cursor: PageAllocator, pages: seq<PageStats>, k: nat)
    reads cursor, cursor.idx
  {
    cursor.Valid() && pages == PagesFrom(cursor.walk, 0) && k <= |pages| && cursor.pageStats == pages[..k]
  }

  /**
   * The state of the page walk alloc drives: while it goes on, `page` is page n and has been
   * recorded; once it stops, all pages are done.
   */
  ghost predicate Walking(cursor: PageAllocator, pages: seq<PageStats>, n: nat, done: bool, page: PageStats)
    reads cursor, cursor.idx
  {
    (!done || page.Total() > 0 ==> n < |pages| && page == pages[n] && Recorded(cursor, pages, n + 1)) &&
    (!(!done || page.Total() > 0) ==> n == |pages|)
  }

  /**
   * Advance the allocator when the first k pages are recorded: either the next page comes and
   * is recorded, or the allocator reports exhaustion with an empty page after the last one.
   */
  method NextPage(cursor: PageAllocator, ghost pages: seq<PageStats>, ghost k: nat) returns (done: bool, page: PageStats)
    requires Recorded(cursor, pages, k)
    modifies cursor, cursor.idx
    ensures Walking(cursor, pages, k, done, page)
  {
    done, page := cursor.Advance();
    PrefixOfWhole(cursor.pageStats, PagesFrom(cursor.walk, cursor.Position()), pages);
  }

  lemma PrefixOfWhole<T>(h: seq<T>, r: seq<T>, all: seq<T>)
    requires h + r == all
    ensures |h| <= |all| && all[..|h|] == h
  {
    assert all[..|h|] == (h + r)[..|h|];
  }

  /**
   * After the first n pages of `pages` are allocated from the driver's m0-th allocation on, each
   * `bytes` long: the calls made, the run of addresses, the first address and the last one
   * (0 before any allocation).
   */
  ghost predicate Placed(driver: Driver, pages: seq<PageStats>, n: nat, m0: nat, calls0: seq<Call>, bytes: nat,
                         base: int, last: int)
    reads driver
    requires n <= |pages|
  {
    PlacedRun(driver.addrOf, driver.mallocs, driver.calls, pages, n, m0, calls0, bytes, base, last)
  }

  /** Placed, over the driver's allocation count and call log as values. */
  ghost predicate PlacedRun(addrOf: nat -> int, mallocs: nat, calls: seq<Call>, pages: seq<PageStats>, n: nat,
                            m0: nat, calls0: seq<Call>, bytes: nat, base: int, last: int)
    requires n <= |pages|
  {
    mallocs == m0 + n &&
    calls == calls0 + AllocCalls(pages[..n], addrOf, m0, bytes) &&
    Contiguous(addrOf, m0, n, bytes) &&
    (n == 0 ==> last == 0 && base == 0) &&
    (n > 0 ==> last == addrOf(m0 + n - 1) && base == addrOf(m0))
  }

  /** Allocating page n at the address right after the last one (or as the first) extends the run. */
  lemma PlacedNext(addrOf: nat -> int, calls: seq<Call>, pages: seq<PageStats>, n: nat, m0: nat,
                   calls0: seq<Call>, bytes: nat, base: int, last: int)
    requires n < |pages| && PlacedRun(addrOf, m0 + n, calls, pages, n, m0, calls0, bytes, base, last)
    requires (forall k: nat :: addrOf(k) > 0) && (last == 0 || last + bytes == addrOf(m0 + n))
    ensures var curr := addrOf(m0 + n);
      PlacedRun(addrOf, m0 + n + 1, calls + [Call.SetDevice(pages[n].gpu), Call.Malloc(pages[n].gpu, bytes, curr)],
                pages, n + 1, m0, calls0, bytes, if last == 0 then curr else base, curr)
  {
    AllocCallsStep(pages, n, addrOf, m0, bytes);
    ContiguousStep(addrOf, m0, n, bytes);
  }

  /** The state alloc's loop keeps: the page walk and the allocations so far agree on n. */
  ghost predicate Turn(driver: Driver, cursor: PageAllocator, pages: seq<PageStats>, n: nat, done: bool,
                       page: PageStats, m0: nat, calls0: seq<Call>, bytes: nat, base: int, last: int)
    reads driver, cursor, cursor.idx
  {
    n <= |pages| && Walking(cursor, pages, n, done, page) && Placed(driver, pages, n, m0, calls0, bytes, base, last)
  }

  /**
   * The allocation loop of alloc over the pages `pages` of an allocator that has just yielded
   * the first one: each page is allocated on its device, `bytes` bytes at a time. The result says whether the addresses form one flat
   * range; `base` is the first address.
   */
  method AllocPages(driver: Driver, cursor: PageAllocator, bytes: nat, done0: bool, page0: PageStats,
                    ghost pages: seq<PageStats>) returns (ok: bool, base: int)
    requires driver.Valid() && Walking(cursor, pages, 0, done0, page0) && |pages| > 0
    modifies driver, cursor, cursor.idx
    ensures driver.Valid() && driver.mem == old(driver.mem) && base > 0
    ensures (ok <==> Contiguous(driver.addrOf, old(driver.mallocs), |pages|, bytes)) &&
      (ok ==>
        base == driver.addrOf(old(driver.mallocs)) &&
        driver.mallocs == old(driver.mallocs) + |pages| &&
        driver.calls == old(driver.calls) + AllocCalls(pages, driver.addrOf, old(driver.mallocs), bytes))
  {
    ghost var m0 := driver.mallocs;
    ghost var calls0 := driver.calls;
    var last, done, page := 0, done0, page0;
    base := 0;
    ghost var n: nat := 0;
    while !done || page.Total() > 0
      invariant Turn(driver, cursor, pages, n, done, page, m0, calls0, bytes, base, last)
      invariant driver.Valid() && driver.mem == old(driver.mem)
      decreases |pages| - n
    {
      var placed;
      last, base, placed, done, page := Step(driver, cursor, page, last, base, bytes, pages, n, m0, calls0, done);
      if !placed {
        return false, base;
      }
      n := n + 1;
    }
    assert pages[..n] == pages;
    return true, base;
  }

  /**
   * One turn of alloc's loop: allocate the current page, make the new address the last one,
   * and advance the allocator to the next page.
   */
  method Step(driver: Driver, cursor: PageAllocator, page: PageStats, last: int, base: int, bytes: nat,
              ghost pages: seq<PageStats>, ghost n: nat, ghost m0: nat, ghost calls0: seq<Call>, ghost done0: bool)
    returns (last': int, base': int, placed: bool, done: bool, page': PageStats)
    requires driver.Valid() && Turn(driver, cursor, pages, n, done0, page, m0, calls0, bytes, base, last)
    requires !done0 || page.Total() > 0
    modifies driver, cursor, cursor.idx
    ensures driver.Valid() && driver.mem == old(driver.mem) && base' > 0
    ensures placed ==> Turn(driver, cursor, pages, n + 1, done, page', m0, calls0, bytes, base', last')
    ensures !placed ==> !Contiguous(driver.addrOf, m0, |pages|, bytes)
  {
    last', base', placed := AllocPage(driver, page, last, base, bytes, pages, n, m0, calls0);
    done, page' := true, page;
    if placed {
      done, page' := NextPage(cursor, pages, n + 1);
    }
  }

  /**
   * One iteration of alloc: switch to the page's device and allocate one page there. The
   * first address becomes the base; a later one is placed if it follows `last` directly,
   * otherwise the run of allocations is not contiguous. The new address becomes the last one.
   */
  method AllocPage(driver: Driver, page: PageStats, last: int, base: int, bytes: nat, ghost pages: seq<PageStats>,
                   ghost n: nat, ghost m0: nat, ghost calls0: seq<Call>) returns (last': int, base': int, placed: bool)
    requires driver.Valid() && n < |pages| && page == pages[n]
    requires Placed(driver, pages, n, m0, calls0, bytes, base, last)
    modifies driver
    ensures driver.Valid() && driver.mem == old(driver.mem) && base' > 0
    ensures placed ==> Placed(driver, pages, n + 1, m0, calls0, bytes, base', last')
    ensures !placed ==> !Contiguous(driver.addrOf, m0, |pages|, bytes)
  {
    ghost var calls := driver.calls;
    driver.SetDevice(page.gpu);
    var curr := driver.Malloc(bytes);
    placed, base' := true, base;
    if last == 0 {
      base' := curr;
    } else if last + bytes != curr {
      BreakAt(driver.addrOf, m0, |pages|, bytes, m0 + n);
      placed := false;
    }
    if placed {
      PlacedNext(driver.addrOf, calls, pages, n, m0, calls0, bytes, base, last);
    }
    last' := curr;
  }

  /** The layout distribute gives a single device is a valid allocator layout with every page on device 0. */
  lemma SingleLayout(l: Layout)
    requires |l.align| >= 1 && |l.local| == |l.align| && Positive(l.align) && Positive(l.local)
    requires l.gpus == 1 && l.granularity > 0 && l.strides == Zeros(|l.local|)
    ensures l.Ok()
    ensures forall i :: 0 <= i < |l.Pages()| ==> l.Pages()[i].gpu == 0
  {
    ZeroStridesDevice(LastIndex(l.align), l.local, l.strides);
    forall i | 0 <= i < |l.Pages()|
      ensures l.Pages()[i].gpu == 0
    {
      SingleDevicePages(l, i);
    }
  }

  /** The highest device number of a well-formed tiling is not negative. */
  lemma SomeDevice(a: seq<int>, local: seq<int>, strides: seq<int>)
    requires Shape(a, local, strides)
    ensures MaxDevice(a, local, strides) >= 0
  {
    ProdPositive(a);
    DevAtBound(0, a, local, strides);
  }

  /**
   * A 1000-element array aligned to 1024 elements and split over two devices in tiles of 500:
   * position 1000, in the alignment padding, lies in a third tile and is charged to device 2,
   * which has no counter; such a layout is not one the allocator can walk.
   */
  lemma PaddingPastLastTile()
    ensures Shape([1024], [500], [1]) && DevAt(1000, [1024], [500], [1]) == 2
    ensures !Layout(2, [1024], [500], [1], 256).Ok()
  {
    assert Unlinear(1000, [1024]) == [1000];
    assert Device([1000], [500], [1]) == 2 by {
      assert [1000][..0] == [] && [500][..0] == [] && [1][..0] == [];
    }
    assert LastIndex([1024]) == [1023];
    assert Device([1023], [500], [1]) == 2 by {
      assert [1023][..0] == [] && [500][..0] == [] && [1][..0] == [];
    }
  }

  class DistributedStorage {
    const sizes: seq<int>
    const sizesAlign: seq<int>
    /** The dim-manager offset (get_offset() elements) in bytes, as the pointer arithmetic scales it. */
    const offsetBytes: nat
    const elemSize: nat
    const vmAlign: nat
    const host: array<int>
    const driver: Driver
    var dataDev: int
    var hostInfo: Option<HostInfo>

    ghost predicate Valid()
      reads this, driver
    {
      |sizesAlign| >= 1 && |sizes| == |sizesAlign| && Positive(sizes) && Positive(sizesAlign) &&
      driver.Valid() &&
      (dataDev != 0 ==> hostInfo.Some?)
    }

    constructor (sizes: seq<int>, sizesAlign: seq<int>, offsetBytes: nat, elemSize: nat, vmAlign: nat,
                 host: array<int>, driver: Driver)
      requires |sizesAlign| >= 1 && |sizes| == |sizesAlign| && Positive(sizes) && Positive(sizesAlign)
      requires 0 < elemSize <= vmAlign && vmAlign % elemSize == 0 && driver.Valid()
      ensures Valid() && WholeElements() && !IsDistributed() && hostInfo == None
      ensures this.sizes == sizes && this.sizesAlign == sizesAlign && this.offsetBytes == offsetBytes
      ensures this.elemSize == elemSize && this.vmAlign == vmAlign && this.host == host && this.driver == driver
    {
      this.sizes := sizes;
      this.sizesAlign := sizesAlign;
      this.offsetBytes := offsetBytes;
      this.elemSize := elemSize;
      this.vmAlign := vmAlign;
      this.host := host;
      this.driver := driver;
      dataDev := 0;
      hostInfo := None;
    }

    /** An allocation holds a whole number of elements. */
    ghost predicate WholeElements()
    {
      0 < elemSize <= vmAlign && vmAlign % elemSize == 0
    }

    /** Elements per page: one page of elements fills exactly one allocation. */
    function Granularity(): (g: nat)
      requires WholeElements()
      ensures g * elemSize == vmAlign
    {
      vmAlign / elemSize
    }

    /** The allocator layout for a distribution. */
    function LayoutFor(info: HostInfo): Layout
      requires WholeElements()
    {
      Layout(info.gpus, sizesAlign, info.localDims, info.arrayDimToGpus, Granularity())
    }

    /** The distribution distribute records: the whole array on one device, or the helpers' tiling. */
    function InfoFor(m: Mapping): (info: HostInfo)
      ensures info.gpus == m.procs
      ensures m.procs == 1 ==> info.localDims == sizes && forall d :: 0 <= d < |info.arrayDimToGpus| ==> info.arrayDimToGpus[d] == 0
    {
      if m.procs == 1 then HostInfo(1, sizes, Zeros(|sizes|))
      else HostInfo(m.procs, m.localDims, m.arrayDimToGpus)
    }

    /** Device memory exists once some allocation has been made; then a distribution is recorded. */
    function IsDistributed(): (b: bool)
      requires Valid()
      reads this, driver
      ensures b ==> hostInfo.Some?
    {
      dataDev != 0
    }

    /** Address of byte 0 of the host buffer's image: the first allocation. */
    ghost function Base(): int
      reads this
    {
      dataDev - offsetBytes
    }

    /**
     * Distribute the array once. An array that already has device memory is left alone. With
     * more partitioned array axes than computation axes the program stops before any device
     * call. A tiling that charges some position of the aligned space to a device number not
     * below the device count is refused before any device call. Otherwise the distribution is
     * recorded and one allocation per page is made, each on an existing device; the result
     * says whether the driver returned one flat range.
     */
    method Distribute(m: Mapping) returns (r: Outcome)
      requires Valid() && WholeElements()
      requires m.procs != 1 && m.arrayPartDims <= m.compPartDims ==> Shape(sizesAlign, m.localDims, m.arrayDimToGpus)
      modifies this, driver
      ensures Valid() && driver.mem == old(driver.mem)
      ensures r == AlreadyDistributed <==> old(IsDistributed())
      ensures old(IsDistributed()) ==>
        dataDev == old(dataDev) && hostInfo == old(hostInfo) &&
        driver.calls == old(driver.calls) && driver.mallocs == old(driver.mallocs)
      ensures !old(IsDistributed()) && m.procs != 1 && m.arrayPartDims > m.compPartDims ==>
        r == NotEnoughPartitionedDims && !IsDistributed() && driver.calls == old(driver.calls)
      ensures (!old(IsDistributed()) && m.procs != 1 && m.arrayPartDims <= m.compPartDims &&
               MaxDevice(sizesAlign, m.localDims, m.arrayDimToGpus) >= m.procs) ==>
        r == DeviceOutOfRange && !IsDistributed() && hostInfo == old(hostInfo) && driver.calls == old(driver.calls)
      ensures r == Distributed || r == NonContiguous ==>
        !old(IsDistributed()) && LayoutFor(InfoFor(m)).Ok() && hostInfo == Some(InfoFor(m)) && IsDistributed() &&
        (forall i :: 0 <= i < |LayoutFor(InfoFor(m)).Pages()| ==> LayoutFor(InfoFor(m)).Pages()[i].gpu < m.procs) &&
        (r == Distributed <==>
          Contiguous(driver.addrOf, old(driver.mallocs), |LayoutFor(InfoFor(m)).Pages()|, vmAlign)) &&
        (r == Distributed ==>
          dataDev == driver.addrOf(old(driver.mallocs)) + offsetBytes &&
          driver.calls == old(driver.calls) +
            AllocCalls(LayoutFor(InfoFor(m)).Pages(), driver.addrOf, old(driver.mallocs), vmAlign))
      ensures (!old(IsDistributed()) && (m.procs == 1 || (m.arrayPartDims <= m.compPartDims &&
               MaxDevice(sizesAlign, m.localDims, m.arrayDimToGpus) < m.procs))) ==>
        r == Distributed || r == NonContiguous
    {
      if dataDev != 0 {
        return AlreadyDistributed;
      }
      if m.procs == 1 {
        hostInfo := Some(InfoFor(m));
        SingleLayout(LayoutFor(InfoFor(m)));
      } else {
        if m.arrayPartDims > m.compPartDims {
          return NotEnoughPartitionedDims;
        }
        var last := Device(LastIndex(sizesAlign), m.localDims, m.arrayDimToGpus);
        if last >= m.procs {
          return DeviceOutOfRange;
        }
        SomeDevice(sizesAlign, m.localDims, m.arrayDimToGpus);
        hostInfo := Some(InfoFor(m));
      }
      PagesOnDevices(LayoutFor(InfoFor(m)));
      var ok := Alloc(m.procs);
      r := if ok then Distributed else NonContiguous;
    }

    /**
     * Allocate device memory page by page: for each page of the allocator, switch to its device
     * and allocate CUDA_VM_ALIGN bytes. The first address becomes the base; every later one must
     * follow the previous by CUDA_VM_ALIGN bytes, or the program stops (false here). At the end
     * the base is moved forward by the alignment offset.
     */
    method Alloc(gpus: nat) returns (ok: bool)
      requires Valid() && WholeElements() && dataDev == 0 && hostInfo.Some? && hostInfo.value.gpus == gpus
      requires LayoutFor(hostInfo.value).Ok()
      modifies this, driver
      ensures Valid() && IsDistributed() && hostInfo == old(hostInfo) && driver.mem == old(driver.mem)
      ensures var pages := LayoutFor(hostInfo.value).Pages();
        (ok <==> Contiguous(driver.addrOf, old(driver.mallocs), |pages|, vmAlign)) &&
        (ok ==>
          dataDev == driver.addrOf(old(driver.mallocs)) + offsetBytes &&
          driver.mallocs == old(driver.mallocs) + |pages| &&
          driver.calls == old(driver.calls) + AllocCalls(pages, driver.addrOf, old(driver.mallocs), vmAlign))
    {
      var cursor, done, page := StartWalk(gpus, hostInfo.value);
      var base;
      ok, base := AllocPages(driver, cursor, vmAlign, done, page, LayoutFor(hostInfo.value).Pages());
      dataDev := base + offsetBytes;
    }

    /** The page allocator alloc walks, created for the distribution and advanced to its first page. */
    method StartWalk(gpus: nat, info: HostInfo) returns (cursor: PageAllocator, done: bool, page: PageStats)
      requires WholeElements() && info.gpus == gpus && LayoutFor(info).Ok()
      ensures fresh(cursor) && fresh(cursor.idx) && Walking(cursor, LayoutFor(info).Pages(), 0, done, page)
      ensures |LayoutFor(info).Pages()| > 0
    {
      cursor := new PageAllocator(gpus, sizes, sizesAlign, info.localDims, info.arrayDimToGpus, Granularity());
      PageCount(LayoutFor(info));
      done, page := NextPage(cursor, LayoutFor(info).Pages(), 0);
    }

    /**
     * Copy the host buffer to device memory chunk by chunk: afterwards the bytes from the base
     * on hold the host buffer, every other device byte is unchanged.
     */
    method ToDevice()
      requires Valid() && WholeElements() && IsDistributed()
      modifies driver
      ensures forall a ::
                driver.Read(a) == (if Base() <= a < Base() + host.Length then host[a - Base()] else old(driver.Read(a)))
      ensures driver.calls == old(driver.calls) +
        ChunkCopies(Base(), host.Length, vmAlign, elemSize, true, ChunkCount(host.Length, vmAlign))
      ensures driver.mallocs == old(driver.mallocs) && driver.device == old(driver.device)
    {
      var npages := ChunkCount(host.Length, vmAlign);
      var dst := dataDev - offsetBytes;
      ghost var calls0 := driver.calls;
      ghost var covered := 0;
      var idx := 0;
      while idx < npages
        invariant 0 <= idx <= npages && covered == Min(idx * vmAlign, host.Length)
        invariant forall a ::
                    driver.Read(a) == (if dst <= a < dst + covered then host[a - dst] else old(driver.Read(a)))
        invariant driver.calls == calls0 + ChunkCopies(dst, host.Length, vmAlign, elemSize, true, idx)
        invariant driver.mallocs == old(driver.mallocs) && driver.device == old(driver.device)
      {
        var bytesChunk, off := CopyChunk(idx);
        driver.CopyToDevice(dst + off, host, off, bytesChunk);
        ChunkCopiesStep(dst, host.Length, vmAlign, elemSize, true, idx);
        covered := off + bytesChunk;
        idx := idx + 1;
      }
    }

    /**
     * Copy device memory back to the host buffer chunk by chunk: afterwards every host byte
     * holds the device byte at the same distance from the base; device memory is unchanged.
     */
    method ToHost()
      requires Valid() && WholeElements() && IsDistributed()
      modifies driver, host
      ensures forall i :: 0 <= i < host.Length ==> host[i] == old(driver.Read(Base() + i))
      ensures driver.calls == old(driver.calls) +
        ChunkCopies(Base(), host.Length, vmAlign, elemSize, false, ChunkCount(host.Length, vmAlign))
      ensures driver.mem == old(driver.mem) && driver.mallocs == old(driver.mallocs) && driver.device == old(driver.device)
    {
      var npages := ChunkCount(host.Length, vmAlign);
      var src := dataDev - offsetBytes;
      ghost var calls0 := driver.calls;
      ghost var covered := 0;
      var idx := 0;
      while idx < npages
        invariant 0 <= idx <= npages && covered == Min(idx * vmAlign, host.Length)
        invariant forall i :: 0 <= i < host.Length ==>
          host[i] == (if i < covered then driver.Read(src + i) else old(host[i]))
        invariant driver.calls == calls0 + ChunkCopies(src, host.Length, vmAlign, elemSize, false, idx)
        invariant driver.mem == old(driver.mem) && driver.mallocs == old(driver.mallocs) && driver.device == old(driver.device)
      {
        var bytesChunk, off := CopyChunk(idx);
        driver.CopyToHost(host, off, src + off, bytesChunk);
        ChunkCopiesStep(src, host.Length, vmAlign, elemSize, false, idx);
        covered := off + bytesChunk;
        idx := idx + 1;
      }
      assert covered == host.Length;
    }

    /** Size and byte offset of chunk idx, computed as both copy loops do. */
    method CopyChunk(idx: nat) returns (bytesChunk: nat, off: nat)
      requires Valid() && WholeElements() && idx < ChunkCount(host.Length, vmAlign)
      ensures bytesChunk == ChunkLen(idx, host.Length, vmAlign) && off == ChunkStart(idx, vmAlign, elemSize)
      ensures off == idx * vmAlign && off + bytesChunk == Min((idx + 1) * vmAlign, host.Length)
      ensures Min(idx * vmAlign, host.Length) == off
      ensures off + bytesChunk < host.Length ==> idx + 1 < ChunkCount(host.Length, vmAlign)
      ensures idx + 1 < ChunkCount(host.Length, vmAlign) ==> off + bytesChunk == (idx + 1) * vmAlign
      ensures idx + 1 == ChunkCount(host.Length, vmAlign) ==> off + bytesChunk == host.Length
    {
      ChunkArith(idx, host.Length, vmAlign, elemSize);
      bytesChunk := vmAlign;
      if (idx + 1) * vmAlign > host.Length {
        bytesChunk := host.Length - idx * vmAlign;
      }
      off := (vmAlign * idx) / elemSize * elemSize;
    }

    /** to_device followed by to_host leaves the host buffer as it was and the device holding it. */
    method ToDeviceThenToHost()
      requires Valid() && WholeElements() && IsDistributed()
      modifies driver, host
      ensures host[..] == old(host[..])
      ensures forall i :: 0 <= i < host.Length ==> driver.Read(Base() + i) == host[i]
    {
      ToDevice();
      ToHost();
    }
  }
}
