/**
 * The virtual-memory page allocator of storage_vm.hpp (`page_allocator<Dims>`).
 *
 * The allocator walks the aligned index space in granules of `granularity` elements, in
 * row-major order, and charges every granule to the device that owns most of its elements.
 * The specification side describes the walk over row-major positions: position p belongs
 * to device DevAt(p), a granule starting at s holds Granule(s) positions, and its page
 * record is PageOf(Counts(s, Granule(s))); PagesFrom(0) is the whole history the
 * allocator records.
 */
module PageAlloc {
  import opened Arith
  import opened IndexSpace

  /** Outcome of allocating one granule: the owning device and its local / remote element counts. */
  datatype PageStats = PageStats(gpu: nat, local: nat, remote: nat)
  {
    function Total(): nat { local + remote }
  }

  /** The allocator's fixed configuration. */
  datatype Layout = Layout(gpus: nat, align: seq<int>, local: seq<int>, strides: seq<int>, granularity: int)
  {
    /**
     * Extents and tiles are positive, strides are non-negative, the granule is not empty, and
     * every position of the aligned space is charged to an existing device (the per-device
     * counters are indexed by that device number).
     */
    ghost predicate Ok()
    {
      Shape(align, local, strides) && granularity > 0 && 1 <= gpus && MaxDevice(align, local, strides) < gpus
    }

    ghost function Size(): int
    {
      Prod(align)
    }

    /** The device every row-major position of the aligned space is charged to. */
    ghost function Owner(): int -> int
      requires Ok()
    {
      p => DevAt(p, align, local, strides)
    }

    ghost function Walked(): Space
      requires Ok()
    {
      Space(Owner(), gpus, Size(), granularity)
    }

    /** Every page the allocator records for this layout, in allocation order. */
    ghost function Pages(): seq<PageStats>
      requires Ok()
    {
      LayoutSpace(this);
      PagesFrom(Walked(), 0)
    }

    /** Tile boundaries fall on granule boundaries: each granule of the walk has a single owner. */
    ghost predicate GranuleAligned()
      requires Ok()
    {
      LayoutSpace(this);
      GranulesOwned(Walked(), 0)
    }
  }

  /**
   * `w` is the space the layout `l` describes: same devices, size and granule, and every
   * position of the space charged to the device owning its tile.
   */
  ghost predicate Describes(w: Space, l: Layout)
    requires l.Ok()
  {
    w.gpus == l.gpus && w.size == l.Size() && w.granularity == l.granularity &&
    forall p {:trigger DevAt(p, l.align, l.local, l.strides)} :: 0 <= p < l.Size() ==>
      w.owner(p) == DevAt(p, l.align, l.local, l.strides)
  }

  lemma DevInRange(l: Layout, p: int)
    requires l.Ok() && 0 <= p < l.Size()
    ensures 0 <= l.Owner()(p) < l.gpus
  {
    DevAtBound(p, l.align, l.local, l.strides);
  }

  /** Number of positions in [start, start + n) that `owner` charges to device g. */
  ghost function CountDev(owner: int -> int, start: int, n: int, g: int): nat
    decreases n
  {
    if n <= 0 then 0
    else CountDev(owner, start, n - 1, g) + (if owner(start + n - 1) == g then 1 else 0)
  }

  /** The per-device element counts of the positions [start, start + n). */
  ghost function Counts(owner: int -> int, gpus: nat, start: int, n: int): (c: seq<nat>)
    ensures |c| == gpus
  {
    seq(gpus, g requires 0 <= g < gpus => CountDev(owner, start, n, g))
  }

  /** Appending a run of positions that all belong to device `dev` adds its length to that device only. */
  lemma {:induction false} CountRun(owner: int -> int, start: int, n: nat, m: nat, dev: int, g: int)
    requires forall p :: start + n <= p < start + n + m ==> owner(p) == dev
    ensures CountDev(owner, start, n + m, g) == CountDev(owner, start, n, g) + (if g == dev then m else 0)
  {
    if m > 0 {
      CountRun(owner, start, n, m - 1, dev, g);
      assert owner(start + (n + m) - 1) == dev;
    }
  }

  /** The same, for the whole vector of per-device counts. */
  lemma CountsRun(owner: int -> int, gpus: nat, start: int, n: nat, m: nat, dev: int)
    requires 0 <= dev < gpus
    requires forall p :: start + n <= p < start + n + m ==> owner(p) == dev
    ensures var before := Counts(owner, gpus, start, n);
      Counts(owner, gpus, start, n + m) == before[dev := before[dev] + m]
  {
    forall g | 0 <= g < gpus
      ensures CountDev(owner, start, n + m, g) == CountDev(owner, start, n, g) + (if g == dev then m else 0)
    {
      CountRun(owner, start, n, m, dev, g);
    }
  }

  /** The per-device counts add up to the number of positions when every position has a device. */
  lemma {:induction false} SumCounts(owner: int -> int, gpus: nat, start: int, n: nat)
    requires forall p :: start <= p < start + n ==> 0 <= owner(p) < gpus
    ensures Sum(Counts(owner, gpus, start, n)) == n
  {
    if n == 0 {
      var c := Counts(owner, gpus, start, 0);
      assert forall g :: 0 <= g < |c| ==> c[g] == 0;
      SumZero(c);
    } else {
      SumCounts(owner, gpus, start, n - 1);
      var d := owner(start + n - 1);
      var prev := Counts(owner, gpus, start, n - 1);
      assert Counts(owner, gpus, start, n) == prev[d := prev[d] + 1];
      SumUpdate(prev, d, prev[d] + 1);
    }
  }

  lemma {:induction false} SumZero(s: seq<int>)
    requires forall i :: 0 <= i < |s| ==> s[i] == 0
    ensures Sum(s) == 0
  {
    if |s| > 0 {
      SumZero(s[..|s| - 1]);
    }
  }

  lemma {:induction false} SumGeElem(s: seq<int>, i: nat)
    requires i < |s| && forall j :: 0 <= j < |s| ==> s[j] >= 0
    ensures Sum(s) >= s[i]
  {
    var n := |s|;
    if i == n - 1 {
      SumNonNeg(s[..n - 1]);
    } else {
      SumGeElem(s[..n - 1], i);
    }
  }

  /** Index of the largest entry; ties go to the lowest index (the strict `>` scan of advance). */
  function ArgMaxLowest(c: seq<int>): (m: nat)
    requires |c| >= 1
    ensures m < |c|
  {
    if |c| == 1 then 0
    else
      var m := ArgMaxLowest(c[..|c| - 1]);
      if c[|c| - 1] > c[m] then |c| - 1 else m
  }

  /** ArgMaxLowest picks a maximal entry, and every entry before it is strictly smaller. */
  lemma {:induction false} ArgMaxLowestSpec(c: seq<int>)
    requires |c| >= 1
    ensures forall i :: 0 <= i < |c| ==> c[i] <= c[ArgMaxLowest(c)]
    ensures forall i :: 0 <= i < ArgMaxLowest(c) ==> c[i] < c[ArgMaxLowest(c)]
  {
    if |c| > 1 {
      ArgMaxLowestSpec(c[..|c| - 1]);
    }
  }

  /** The page record for a granule with per-device counts `counts`. */
  ghost function PageOf(counts: seq<nat>): (page: PageStats)
    requires |counts| >= 1
    ensures page.gpu < |counts| && page.Total() == Sum(counts)
  {
    var m := ArgMaxLowest(counts);
    SumGeElem(counts, m);
    PageStats(m, counts[m], Sum(counts) - counts[m])
  }

  /**
   * The space the allocator walks, seen only through which device owns each position: the
   * positions 0 .. size - 1, each charged by `owner` to one of the devices 0 .. gpus - 1.
   */
  datatype Space = Space(owner: int -> int, gpus: nat, size: int, granularity: int)
  {
    ghost predicate Ok()
    {
      1 <= gpus && 0 < granularity && 0 <= size &&
      forall p :: 0 <= p < size ==> 0 <= owner(p) < gpus
    }

    /** Number of elements the granule starting at `start` consumes. */
    ghost function Granule(start: int): int
    {
      Min(granularity, size - start)
    }

    /** The page record of the granule starting at `start`. */
    ghost function PageAt(start: int): PageStats
      requires Ok() && 0 <= start < size
    {
      PageOf(Counts(owner, gpus, start, Granule(start)))
    }
  }

  /** The page records of every granule from position `start` to the end of the space. */
  ghost function PagesFrom(w: Space, start: int): seq<PageStats>
    requires w.Ok() && 0 <= start <= w.size
    decreases w.size - start
  {
    if start == w.size then [] else [w.PageAt(start)] + PagesFrom(w, start + w.Granule(start))
  }

  /** The history `h` followed by the pages from position `pos` on is the whole page sequence. */
  ghost predicate History(h: seq<PageStats>, w: Space, pos: int)
    requires w.Ok() && 0 <= pos <= w.size
  {
    h + PagesFrom(w, pos) == PagesFrom(w, 0)
  }

  /** Recording the page at `start` moves it from the pages to come to the history. */
  lemma HistoryStep(h: seq<PageStats>, w: Space, start: int, page: PageStats)
    requires w.Ok() && 0 <= start < w.size && History(h, w, start) && page == w.PageAt(start)
    ensures 0 <= start + w.Granule(start) <= w.size
    ensures History(h + [page], w, start + w.Granule(start))
  {
    assert h + PagesFrom(w, start) == (h + [page]) + PagesFrom(w, start + w.Granule(start));
  }

  /** A granule inside the space: its counts add up to its length. */
  lemma PageAtTotal(w: Space, start: int)
    requires w.Ok() && 0 <= start < w.size
    ensures 1 <= w.PageAt(start).Total() == w.Granule(start) <= w.granularity
  {
    SumCounts(w.owner, w.gpus, start, w.Granule(start));
  }

  function SumTotals(ps: seq<PageStats>): nat
  {
    if |ps| == 0 then 0 else SumTotals(ps[..|ps| - 1]) + ps[|ps| - 1].Total()
  }

  function SumRemote(ps: seq<PageStats>): nat
  {
    if |ps| == 0 then 0 else SumRemote(ps[..|ps| - 1]) + ps[|ps| - 1].remote
  }

  lemma {:induction false} SumTotalsAppend(a: seq<PageStats>, b: seq<PageStats>)
    ensures SumTotals(a + b) == SumTotals(a) + SumTotals(b)
  {
    if |b| > 0 {
      assert (a + b)[..|a + b| - 1] == a + b[..|b| - 1];
      SumTotalsAppend(a, b[..|b| - 1]);
    } else {
      assert a + b == a;
    }
  }

  /** Remote elements never exceed the elements recorded. */
  lemma {:induction false} RemoteAtMostTotal(ps: seq<PageStats>)
    ensures SumRemote(ps) <= SumTotals(ps)
  {
    if |ps| > 0 {
      RemoteAtMostTotal(ps[..|ps| - 1]);
    }
  }

  /** The pages from `start` account for every remaining element exactly once. */
  lemma {:induction false} PagesFromTotal(w: Space, start: int)
    requires w.Ok() && 0 <= start <= w.size
    ensures SumTotals(PagesFrom(w, start)) == w.size - start
    decreases w.size - start
  {
    if start < w.size {
      var n := w.Granule(start);
      PagesFromTotal(w, start + n);
      PageAtTotal(w, start);
      SumTotalsAppend([w.PageAt(start)], PagesFrom(w, start + n));
      assert SumTotals([w.PageAt(start)]) == n by {
        assert [w.PageAt(start)][..0] == [];
      }
    }
  }

  /** There is one page per granule: ceil((size - start) / granularity) of them. */
  lemma {:induction false} PagesFromCount(w: Space, start: int)
    requires w.Ok() && 0 <= start <= w.size
    ensures |PagesFrom(w, start)| == DivCeil(w.size - start, w.granularity)
    decreases w.size - start
  {
    var g, rest := w.granularity, w.size - start;
    if start < w.size {
      PagesFromCount(w, start + w.Granule(start));
      DivCeilStep(rest, g);
    } else {
      DivCeilUnique(0, g, 0);
    }
  }

  /** Taking one granule off a non-empty remainder takes one off its ceiling quotient. */
  lemma DivCeilStep(rest: nat, g: nat)
    requires rest > 0 && g > 0
    ensures DivCeil(rest, g) == DivCeil(rest - Min(g, rest), g) + 1
  {
    var k := DivCeil(rest - Min(g, rest), g);
    if rest <= g {
      DivCeilUnique(0, g, 0);
      assert k == 0;
    } else {
      assert (k + 1) * g == k * g + g;
      assert k > 0 ==> (k - 1) * g == k * g - g;
    }
    DivCeilUnique(rest, g, k + 1);
  }

  lemma DivCeilUnique(n: nat, d: nat, r: nat)
    requires d > 0 && r * d >= n && (r > 0 ==> (r - 1) * d < n)
    ensures DivCeil(n, d) == r
  {
    var r' := DivCeil(n, d);
    if r' > r {
      MulMono(r, r' - 1, d);
      assert false;
    } else if r' < r {
      MulMono(r', r - 1, d);
      assert false;
    }
  }

  /** Every page but the last consumes a whole granule; the last consumes the rest. */
  lemma {:induction false} PagesFromFull(w: Space, start: int, i: nat)
    requires w.Ok() && 0 <= start <= w.size
    requires i < |PagesFrom(w, start)|
    ensures i < |PagesFrom(w, start)| - 1 ==> PagesFrom(w, start)[i].Total() == w.granularity
    ensures 1 <= PagesFrom(w, start)[i].Total() <= w.granularity
    decreases w.size - start
  {
    var n := w.Granule(start);
    PageAtTotal(w, start);
    if i > 0 {
      PagesFromFull(w, start + n, i - 1);
    } else if |PagesFrom(w, start)| > 1 {
      assert start + n < w.size;
    }
  }

  /**
   * Tile boundaries fall on granule boundaries: from `start` on, every granule of the walk has
   * all its positions charged to one device, the one owning its first position.
   */
  ghost predicate GranulesOwned(w: Space, start: int)
    requires w.Ok() && 0 <= start <= w.size
    decreases w.size - start
  {
    start == w.size ||
    ((forall p :: start <= p < start + w.Granule(start) ==> w.owner(p) == w.owner(start)) &&
     GranulesOwned(w, start + w.Granule(start)))
  }

  /** The first position of granule i of the walk from `start`. */
  function GranuleStart(w: Space, start: int, i: nat): int
  {
    start + i * w.granularity
  }

  /**
   * When every granule has a single owner, page i belongs to the device owning the first
   * position of its granule and has no remote element.
   */
  lemma {:induction false} OwnedGranulePages(w: Space, start: int, i: nat)
    requires w.Ok() && 0 <= start <= w.size && GranulesOwned(w, start)
    requires i < |PagesFrom(w, start)|
    ensures start <= GranuleStart(w, start, i) < w.size
    ensures PagesFrom(w, start)[i] ==
      PageStats(w.owner(GranuleStart(w, start, i)), PagesFrom(w, start)[i].Total(), 0)
    decreases w.size - start
  {
    var n := w.Granule(start);
    if i > 0 {
      OwnedGranulePages(w, start + n, i - 1);
      assert start + n + (i - 1) * w.granularity == start + i * w.granularity;
    } else {
      assert GranuleStart(w, start, 0) == start;
      OwnedGranulePage(w, start);
    }
  }

  /** A granule with a single owner gives a page of that owner with no remote element. */
  lemma OwnedGranulePage(w: Space, start: int)
    requires w.Ok() && 0 <= start < w.size
    requires forall p :: start <= p < start + w.Granule(start) ==> w.owner(p) == w.owner(start)
    ensures w.PageAt(start) == PageStats(w.owner(start), w.PageAt(start).Total(), 0)
  {
    var n := w.Granule(start);
    var d := w.owner(start);
    var c := Counts(w.owner, w.gpus, start, n);
    forall g | 0 <= g < w.gpus
      ensures c[g] == (if g == d then n else 0)
    {
      CountRun(w.owner, start, 0, n, d, g);
    }
    PageAtTotal(w, start);
    SumCounts(w.owner, w.gpus, start, n);
    ArgMaxLowestSpec(c);
    var m := ArgMaxLowest(c);
    assert c[d] == n >= 1;
  }

  /** Pages without a remote element sum to no remote element. */
  lemma {:induction false} NoRemote(ps: seq<PageStats>)
    requires forall i :: 0 <= i < |ps| ==> ps[i].remote == 0
    ensures SumRemote(ps) == 0
  {
    if |ps| > 0 {
      NoRemote(ps[..|ps| - 1]);
    }
  }

  /** When every granule has a single owner, no page of the walk has a remote element. */
  lemma OwnedGranulesBalanced(w: Space)
    requires w.Ok() && GranulesOwned(w, 0)
    ensures forall i :: 0 <= i < |PagesFrom(w, 0)| ==> PagesFrom(w, 0)[i].remote == 0
    ensures SumRemote(PagesFrom(w, 0)) == 0
  {
    var ps := PagesFrom(w, 0);
    forall i | 0 <= i < |ps|
      ensures ps[i].remote == 0
    {
      OwnedGranulePages(w, 0, i);
    }
    NoRemote(ps);
  }

  /** One owner for the whole space: every granule has a single owner. */
  lemma {:induction false} OneOwnerGranules(w: Space, start: int, d: int)
    requires w.Ok() && 0 <= start <= w.size
    requires forall p :: 0 <= p < w.size ==> w.owner(p) == d
    ensures GranulesOwned(w, start)
    decreases w.size - start
  {
    if start < w.size {
      OneOwnerGranules(w, start + w.Granule(start), d);
    }
  }

  /** The space a layout describes. */
  lemma LayoutSpace(l: Layout)
    requires l.Ok()
    ensures l.Walked().Ok() && Describes(l.Walked(), l)
  {
    ProdPositive(l.align);
    forall p | 0 <= p < l.Size()
      ensures 0 <= l.Owner()(p) < l.gpus
    {
      DevInRange(l, p);
    }
  }

  /** A layout has one page per granule of its aligned space, the last one possibly short. */
  lemma PageCount(l: Layout)
    requires l.Ok()
    ensures l.Size() > 0 && |l.Pages()| == DivCeil(l.Size(), l.granularity)
  {
    ProdPositive(l.align);
    LayoutSpace(l);
    PagesFromCount(l.Walked(), 0);
  }

  /** The pages of a layout account for every element of the aligned space exactly once. */
  lemma PageTotals(l: Layout)
    requires l.Ok()
    ensures SumTotals(l.Pages()) == Prod(l.align)
    ensures SumRemote(l.Pages()) <= Prod(l.align)
  {
    ProdPositive(l.align);
    LayoutSpace(l);
    PagesFromTotal(l.Walked(), 0);
    RemoteAtMostTotal(l.Pages());
  }

  /** Every page from `start` on is charged to one of the space's devices. */
  lemma {:induction false} PagesFromDevices(w: Space, start: int, i: nat)
    requires w.Ok() && 0 <= start <= w.size && i < |PagesFrom(w, start)|
    ensures PagesFrom(w, start)[i].gpu < w.gpus
    decreases w.size - start
  {
    if i > 0 {
      PagesFromDevices(w, start + w.Granule(start), i - 1);
    }
  }

  /** Every page of a layout is on one of its devices: alloc only selects devices that exist. */
  lemma PagesOnDevices(l: Layout)
    requires l.Ok()
    ensures forall i :: 0 <= i < |l.Pages()| ==> l.Pages()[i].gpu < l.gpus
  {
    LayoutSpace(l);
    forall i | 0 <= i < |l.Pages()|
      ensures l.Pages()[i].gpu < l.gpus
    {
      PagesFromDevices(l.Walked(), 0, i);
    }
  }

  /** With all-zero strides (a single device) every page belongs to device 0 and has no remote element. */
  lemma SingleDevicePages(l: Layout, i: nat)
    requires l.Ok() && forall d :: 0 <= d < |l.strides| ==> l.strides[d] == 0
    requires i < |l.Pages()|
    ensures l.Pages()[i].gpu == 0 && l.Pages()[i].remote == 0
  {
    LayoutSpace(l);
    forall p | 0 <= p < l.Size()
      ensures l.Owner()(p) == 0
    {
      ZeroStridesDevice(Unlinear(p, l.align), l.local, l.strides);
    }
    OneOwnerGranules(l.Walked(), 0, 0);
    OwnedGranulePages(l.Walked(), 0, i);
  }

  /**
   * When tile boundaries fall on granule boundaries, every page of the layout belongs to the
   * device owning its granule and the whole walk has no remote element.
   */
  lemma AlignedTilesBalanced(l: Layout)
    requires l.Ok() && l.GranuleAligned()
    ensures forall i :: 0 <= i < |l.Pages()| ==> l.Pages()[i].remote == 0
    ensures SumRemote(l.Pages()) == 0
  {
    var w := l.Walked();
    LayoutSpace(l);
    OwnedGranulesBalanced(w);
    assert l.Pages() == PagesFrom(w, 0);
  }

  /** The strict `>` scan of advance: the most charged device (the lowest on ties) and the total. */
  method MostCharged(counts: array<int>) returns (mgpu: nat, sum: int)
    requires counts.Length >= 1
    ensures mgpu == ArgMaxLowest(counts[..]) && sum == Sum(counts[..])
  {
    mgpu := 0;
    sum := 0;
    var g := 0;
    while g < counts.Length
      invariant 0 <= g <= counts.Length && mgpu < counts.Length
      invariant g > 0 ==> mgpu == ArgMaxLowest(counts[..g])
      invariant g == 0 ==> mgpu == 0
      invariant sum == Sum(counts[..g])
    {
      if counts[g] > counts[mgpu] {
        mgpu := g;
      }
      assert counts[..g + 1][..g] == counts[..g];
      sum := sum + counts[g];
      g := g + 1;
    }
    assert counts[..g] == counts[..];
  }

  /**
   * The allocator object. The cursor `idx` is a fixed-size array updated in place; the
   * history `pageStats` is a growing list.
   */
  class PageAllocator {
    const gpus: nat
    const dims: seq<int>
    const dimsAlign: seq<int>
    const dimsLocal: seq<int>
    const arrayDimToGpus: seq<int>
    const granularity: int
    const nelems: int
    const idx: array<int>
    var pageStats: seq<PageStats>

    /** The space the allocator walks; it is the one its layout describes. */
    ghost const walk: Space

    function Cfg(): Layout
    {
      Layout(gpus, dimsAlign, dimsLocal, arrayDimToGpus, granularity)
    }

    /** Row-major position of the cursor. */
    ghost function Position(): int
      reads idx
      requires idx.Length == |dimsAlign|
    {
      Linear(idx[..], dimsAlign)
    }

    /**
     * The cursor is a legal cursor of the aligned space, and the recorded history followed by
     * the pages still to come is the whole page sequence of the space.
     */
    ghost predicate Valid()
      reads this, idx
    {
      Cfg().Ok() && walk.Ok() && Describes(walk, Cfg()) &&
      idx.Length == |dimsAlign| && CursorOk(idx[..], dimsAlign) &&
      0 <= Position() <= walk.size && History(pageStats, walk, Position())
    }

    constructor (gpus: nat, elems: seq<int>, elemsAlign: seq<int>, elemsLocal: seq<int>,
                 arrayDimToGpus: seq<int>, granularity: int)
      requires Layout(gpus, elemsAlign, elemsLocal, arrayDimToGpus, granularity).Ok()
      ensures Valid() && fresh(idx)
      ensures this.gpus == gpus && dims == elems && dimsAlign == elemsAlign && dimsLocal == elemsLocal
      ensures this.arrayDimToGpus == arrayDimToGpus && this.granularity == granularity
      ensures nelems == Prod(elems) && walk == Cfg().Walked()
      ensures idx[..] == seq(|elemsAlign|, _ => 0) && Position() == 0 && pageStats == []
    {
      this.gpus := gpus;
      dims := elems;
      dimsAlign := elemsAlign;
      dimsLocal := elemsLocal;
      this.arrayDimToGpus := arrayDimToGpus;
      this.granularity := granularity;
      nelems := Prod(elems);
      walk := Layout(gpus, elemsAlign, elemsLocal, arrayDimToGpus, granularity).Walked();
      idx := new int[|elemsAlign|](_ => 0);
      pageStats := [];
      new;
      LayoutSpace(Cfg());
      ProdPositive(dimsAlign);
      assert Position() == 0 by {
        LinearZero(idx[..], dimsAlign);
      }
    }

    /**
     * Consume the next granule. On an exhausted cursor nothing changes and (true, empty page)
     * is returned, however often it is called; otherwise the cursor moves forward by exactly
     * the granule's element count, the page is the majority-device record of that granule and
     * is appended to the history, and `done` says whether the space is now exhausted.
     */
    method Advance() returns (done: bool, page: PageStats)
      requires Valid()
      modifies this, idx
      ensures Valid()
      ensures old(idx[0]) == dimsAlign[0] ==>
        done && page == PageStats(0, 0, 0) && idx[..] == old(idx[..]) && pageStats == old(pageStats) &&
        pageStats == PagesFrom(walk, 0)
      ensures old(idx[0]) < dimsAlign[0] ==>
        var start := old(Position());
        var n := walk.Granule(start);
        0 <= start < walk.size &&
        page.Total() == n && 1 <= n <= granularity &&
        Position() == start + n &&
        page == walk.PageAt(start) &&
        pageStats == old(pageStats) + [page] &&
        done == (Position() == walk.size)
    {
      var localStats := new int[gpus](_ => 0);
      if idx[0] == dimsAlign[0] {
        CursorLinear(idx[..], dimsAlign);
        assert pageStats + [] == pageStats;
        return true, PageStats(0, 0, 0);
      }
      ghost var start := Position();
      CursorLinear(idx[..], dimsAlign);
      assert localStats[..] == Counts(walk.owner, gpus, start, 0);
      done := ChargeGranule(localStats);
      ghost var n := walk.Granule(start);
      ghost var counts := Counts(walk.owner, gpus, start, n);
      var mgpu, sum := MostCharged(localStats);
      assert localStats[..] == counts;
      SumGeElem(counts, mgpu);
      page := PageStats(mgpu, localStats[mgpu], sum - localStats[mgpu]);
      assert page == walk.PageAt(start);
      PageAtTotal(walk, start);
      RecordPage(page, start);
    }

    /** Append the page of the granule that started at `start` to the history. */
    method RecordPage(page: PageStats, ghost start: int)
      requires Cfg().Ok() && walk.Ok() && Describes(walk, Cfg())
      requires idx.Length == |dimsAlign| && CursorOk(idx[..], dimsAlign)
      requires 0 <= start < walk.size && page == walk.PageAt(start)
      requires Position() == start + walk.Granule(start)
      requires History(pageStats, walk, start)
      modifies this
      ensures pageStats == old(pageStats) + [page] && Valid()
    {
      HistoryStep(pageStats, walk, start, page);
      pageStats := pageStats + [page];
    }

    /**
     * The do-while loop of advance: walk the granule as a sequence of runs, each of which
     * ends at the next tile boundary of the lowest-order axis or at the end of that axis, and
     * charge each run to the device owning its tile. Afterwards the cursor has moved by the
     * granule's length and the counters hold the granule's per-device counts.
     */
    method ChargeGranule(localStats: array<int>) returns (done: bool)
      requires Cfg().Ok() && Describes(walk, Cfg()) && idx.Length == |dimsAlign|
      requires CursorOk(idx[..], dimsAlign) && idx[0] < dimsAlign[0]
      requires localStats.Length == gpus && localStats != idx
      requires localStats[..] == Counts(walk.owner, gpus, Position(), 0)
      modifies idx, localStats
      ensures CursorOk(idx[..], dimsAlign)
      ensures Position() == old(Position()) + walk.Granule(old(Position()))
      ensures done == (Position() == walk.size)
      ensures localStats[..] == Counts(walk.owner, gpus, old(Position()), walk.Granule(old(Position())))
    {
      var inc := granularity;
      done := false;
      ghost var size := walk.size;
      ghost var start := Position();
      ghost var consumed := 0;
      CursorLinear(idx[..], dimsAlign);

      while true
        invariant Charged(localStats, start, consumed) && idx[0] < dimsAlign[0]
        invariant 0 < inc <= granularity && consumed == granularity - inc
        invariant start + consumed < size
        invariant !done
        decreases inc
      {
        var stop: bool;
        var step: int;
        inc, done, stop, step := Pass(localStats, inc, start, consumed);
        consumed := consumed + step;
        if stop || idx[0] == dimsAlign[0] {
          assert consumed == walk.Granule(start);
          break;
        }
        if inc <= 0 {
          assert consumed == walk.Granule(start);
          break;
        }
      }
    }

    /** The cursor sits `consumed` positions after `start` and the counters cover exactly those positions. */
    ghost predicate Charged(localStats: array<int>, start: int, consumed: int)
      reads idx, localStats
    {
      idx.Length == |dimsAlign| && localStats.Length == gpus && CursorOk(idx[..], dimsAlign) &&
      Position() == start + consumed && localStats[..] == Counts(walk.owner, gpus, start, consumed)
    }

    /**
     * One pass of the do-while body of advance up to its break tests: take the next run from
     * the cursor and charge it to its device. The counters then cover `step` more positions.
     */
    method Pass(localStats: array<int>, inc: int, ghost start: int, ghost consumed: nat)
      returns (inc': int, done: bool, stop: bool, step: int)
      requires Cfg().Ok() && Describes(walk, Cfg()) && localStats != idx && 0 < inc
      requires Charged(localStats, start, consumed) && idx[0] < dimsAlign[0]
      modifies idx, localStats
      ensures Charged(localStats, start, consumed + step)
      ensures 0 < step <= inc && (stop || inc' == inc - step)
      ensures stop ==> idx[0] == dimsAlign[0]
      ensures done == (idx[0] == dimsAlign[0])
      ensures start + consumed + step <= walk.size
      ensures start + consumed + step == walk.size <==> idx[0] == dimsAlign[0]
    {
      var gpu: int;
      ghost var c: seq<int>;
      inc', done, stop, gpu, step, c := NextRun(inc);
      Charge(localStats, gpu, step, start, consumed, c);
    }

    /**
     * The cursor movement of one pass of the do-while loop of advance: the run from the
     * cursor to the next tile boundary of the lowest-order axis or to the end of that axis,
     * cut short at `inc` elements. It returns the device owning the run's tile (`gpu`, taken
     * at the cursor `c` the run starts from) and the run's length `step`; `stop` is the
     * loop's inner break (the carry exhausted the space), taken before `inc` is decreased.
     */
    method NextRun(inc: int) returns (inc': int, done: bool, stop: bool, gpu: int, step: int, ghost c: seq<int>)
      requires Shape(dimsAlign, dimsLocal, arrayDimToGpus) && idx.Length == |dimsAlign|
      requires CursorOk(idx[..], dimsAlign) && idx[0] < dimsAlign[0] && 0 < inc
      modifies idx
      ensures c == old(idx[..]) && InRange(c, dimsAlign) && gpu == Device(c, dimsLocal, arrayDimToGpus)
      ensures 0 < step <= inc && (stop || inc' == inc - step)
      ensures c[|c| - 1] + step <= dimsAlign[|c| - 1]
      ensures c[|c| - 1] % dimsLocal[|c| - 1] + step <= dimsLocal[|c| - 1]
      ensures CursorOk(idx[..], dimsAlign)
      ensures Position() == old(Position()) + step <= Prod(dimsAlign)
      ensures Position() == Prod(dimsAlign) <==> idx[0] == dimsAlign[0]
      ensures stop ==> idx[0] == dimsAlign[0]
      ensures done == (idx[0] == dimsAlign[0])
    {
      var D := idx.Length;
      c := idx[..];
      inc' := inc;
      done := false;
      stop := false;
      gpu := Device(idx[..], dimsLocal, arrayDimToGpus);

      var off := RunLength();
      if inc' < off {
        Forward(inc');
        step := inc';
        inc' := 0;
      } else {
        step := off;
        if idx[D - 1] + off == dimsAlign[D - 1] {
          if D > 1 {
            Carry();
            if idx[0] == dimsAlign[0] {
              done := true;
              stop := true;
              return;
            }
          } else {
            done := true;
            Forward(off);
          }
        } else {
          Forward(off);
        }
        inc' := inc' - off;
      }
    }

    /**
     * Length of the run from the cursor to the next tile boundary of the lowest-order axis,
     * or to the end of that axis when it comes first.
     */
    method RunLength() returns (off: int)
      requires Positive(dimsLocal) && |dimsLocal| == |dimsAlign| == idx.Length >= 1
      requires InRange(idx[..], dimsAlign)
      ensures var D, x := idx.Length, idx[idx.Length - 1];
        0 < off && x + off <= dimsAlign[D - 1] && x % dimsLocal[D - 1] + off <= dimsLocal[D - 1]
      ensures var D, x := idx.Length, idx[idx.Length - 1];
        x + off == dimsAlign[D - 1] || x % dimsLocal[D - 1] + off == dimsLocal[D - 1]
    {
      var D := idx.Length;
      off := dimsLocal[D - 1] - idx[D - 1] % dimsLocal[D - 1];
      if idx[D - 1] + off >= dimsAlign[D - 1] {
        off := dimsAlign[D - 1] - idx[D - 1];
      }
    }

    /**
     * Add a run of m elements, starting at cursor c and staying inside the tile c lies in,
     * to the counter of the device owning that tile.
     */
    method Charge(localStats: array<int>, gpu: int, m: int, ghost start: int, ghost consumed: nat,
                  ghost c: seq<int>)
      requires Cfg().Ok() && Describes(walk, Cfg()) && localStats.Length == gpus
      requires InRange(c, dimsAlign) && Linear(c, dimsAlign) == start + consumed
      requires gpu == Device(c, dimsLocal, arrayDimToGpus)
      requires 0 <= m && c[|c| - 1] + m <= dimsAlign[|c| - 1]
      requires c[|c| - 1] % dimsLocal[|c| - 1] + m <= dimsLocal[|c| - 1]
      requires localStats[..] == Counts(walk.owner, gpus, start, consumed)
      modifies localStats
      ensures localStats[..] == Counts(walk.owner, gpus, start, consumed + m)
    {
      ghost var before := localStats[..];
      ChargeRun(walk, Cfg(), start, consumed, c, m);
      localStats[gpu] := localStats[gpu] + m;
      assert localStats[..] == before[gpu := before[gpu] + m];
    }

    /**
     * Move the cursor k steps along the lowest-order axis, without passing its extent; with
     * one axis, reaching the extent exhausts the cursor.
     */
    method Forward(k: int)
      requires Positive(dimsAlign) && idx.Length == |dimsAlign|
      requires CursorOk(idx[..], dimsAlign) && idx[0] < dimsAlign[0]
      requires 0 <= k && idx[idx.Length - 1] + k <= dimsAlign[idx.Length - 1]
      requires idx.Length > 1 ==> idx[idx.Length - 1] + k < dimsAlign[idx.Length - 1]
      modifies idx
      ensures CursorOk(idx[..], dimsAlign)
      ensures idx[..] == old(idx[..])[idx.Length - 1 := old(idx[idx.Length - 1]) + k]
      ensures Position() == old(Position()) + k <= Prod(dimsAlign)
      ensures Position() == Prod(dimsAlign) <==> idx[0] == dimsAlign[0]
    {
      var D := idx.Length;
      ghost var c := idx[..];
      idx[D - 1] := idx[D - 1] + k;
      assert idx[..] == c[D - 1 := c[D - 1] + k];
      MoveLowest(c, idx[..], k);
      CursorLinear(idx[..], dimsAlign);
    }

    /**
     * Wrap the lowest-order axis to 0 and propagate the carry towards the highest-order
     * axis: every axis that reaches its bound wraps to 0, except the highest-order one, which
     * stays on its bound to signal exhaustion.
     */
    method Carry()
      requires Positive(dimsAlign) && idx.Length == |dimsAlign| >= 2
      requires CursorOk(idx[..], dimsAlign) && idx[0] < dimsAlign[0]
      modifies idx
      ensures CursorOk(idx[..], dimsAlign)
      ensures Position() == old(Position()) + dimsAlign[|dimsAlign| - 1] - old(idx[|dimsAlign| - 1])
      ensures Position() <= Prod(dimsAlign)
      ensures Position() == Prod(dimsAlign) <==> idx[0] == dimsAlign[0]
    {
      var D := idx.Length;
      ghost var a := dimsAlign;
      ghost var c0 := idx[..];
      ghost var target := Linear(c0, a) + a[D - 1] - c0[D - 1];
      WrapLowest(c0, a);
      idx[D - 1] := 0;
      assert idx[..] == c0[D - 1 := 0];
      var dim := D - 2;
      while dim >= 0
        invariant -1 <= dim <= D - 2 && idx.Length == D
        invariant forall e :: 0 <= e <= dim ==> idx[e] == c0[e]
        invariant forall e :: dim < e < D && 0 < e ==> idx[e] == 0
        invariant dim < 0 ==> idx[0] == a[0]
        invariant dim >= 0 ==> Linear(idx[..], a) + Prod(a[dim + 1..]) == target
        invariant dim < 0 ==> Linear(idx[..], a) == target
      {
        ghost var c := idx[..];
        CarryInto(c, a, dim);
        idx[dim] := idx[dim] + 1;
        assert idx[..] == c[dim := c[dim] + 1];
        if idx[dim] < dimsAlign[dim] {
          break;
        } else if dim > 0 && idx[dim] == dimsAlign[dim] {
          ghost var c1 := idx[..];
          WrapAxis(c1, a, dim);
          idx[dim] := 0;
          assert idx[..] == c1[dim := 0];
        }
        dim := dim - 1;
      }
      CursorLinear(idx[..], dimsAlign);
    }

    /**
     * The imbalance of the recorded history as the integer pair (remote elements, elements):
     * the elements recorded are exactly the elements the cursor has passed, and the remote
     * ones are at most that many.
     */
    method ImbalanceRatio() returns (remote: nat, total: nat)
      requires Valid()
      ensures remote == SumRemote(pageStats) && total == SumTotals(pageStats)
      ensures total == Position() && remote <= total
      ensures GranulesOwned(walk, 0) ==> remote == 0
    {
      var local := 0;
      remote := 0;
      var i := 0;
      while i < |pageStats|
        invariant 0 <= i <= |pageStats|
        invariant remote == SumRemote(pageStats[..i])
        invariant local + remote == SumTotals(pageStats[..i])
      {
        assert pageStats[..i + 1][..i] == pageStats[..i];
        local := local + pageStats[i].local;
        remote := remote + pageStats[i].remote;
        i := i + 1;
      }
      assert pageStats[..i] == pageStats;
      total := local + remote;
      PagesFromTotal(walk, Position());
      PagesFromTotal(walk, 0);
      SumTotalsAppend(pageStats, PagesFrom(walk, Position()));
      RemoteAtMostTotal(pageStats);
      if GranulesOwned(walk, 0) {
        forall k | 0 <= k < |pageStats|
          ensures pageStats[k].remote == 0
        {
          assert pageStats[k] == PagesFrom(walk, 0)[k];
          OwnedGranulePages(walk, 0, k);
        }
        NoRemote(pageStats);
      }
    }
  }

  lemma {:induction false} LinearZero(c: seq<int>, a: seq<int>)
    requires |c| == |a| && forall d :: 0 <= d < |c| ==> c[d] == 0
    ensures Linear(c, a) == 0
  {
    if |c| > 0 {
      LinearZero(c[..|c| - 1], a[..|a| - 1]);
    }
  }

  /** Setting the lowest-order coordinate to 0 leaves a carry of one unit of the next axis. */
  lemma WrapLowest(c: seq<int>, a: seq<int>)
    requires |c| == |a| >= 1
    ensures Linear(c[|c| - 1 := 0], a) + Prod(a[|c| - 1..]) == Linear(c, a) + a[|c| - 1] - c[|c| - 1]
  {
    var n := |c|;
    LinearUpdate(c, a, n - 1, 0);
    assert a[n..] == [];
    ProdStep(a, n - 1);
  }

  /** Adding the pending carry to axis `dim` adds one unit of that axis to the position. */
  lemma CarryInto(c: seq<int>, a: seq<int>, dim: nat)
    requires |c| == |a| && dim < |c|
    ensures Linear(c[dim := c[dim] + 1], a) == Linear(c, a) + Prod(a[dim + 1..])
  {
    LinearUpdate(c, a, dim, c[dim] + 1);
  }

  /** Wrapping a full axis to 0 leaves a carry of one unit of the next-higher axis. */
  lemma WrapAxis(c: seq<int>, a: seq<int>, dim: nat)
    requires |c| == |a| && dim < |c| && c[dim] == a[dim]
    ensures Linear(c[dim := 0], a) + Prod(a[dim..]) == Linear(c, a)
  {
    LinearUpdate(c, a, dim, 0);
    ProdStep(a, dim);
    assert (0 - c[dim]) * Prod(a[dim + 1..]) == -(a[dim] * Prod(a[dim + 1..]));
  }

  /** The device owning an in-range cursor's tile is one of the allocator's devices. */
  lemma DeviceInRange(l: Layout, c: seq<int>)
    requires l.Ok() && InRange(c, l.align)
    ensures 0 <= Device(c, l.local, l.strides) < l.gpus
  {
    DeviceMonotone(c, LastIndex(l.align), l.local, l.strides);
  }

  /** Moving the lowest-order coordinate forward by k moves the position forward by k. */
  lemma MoveLowest(c: seq<int>, c2: seq<int>, k: int)
    requires |c| == |c2| >= 1
    requires c2 == c[|c| - 1 := c[|c| - 1] + k]
    ensures forall a: seq<int> :: |a| == |c| ==> Linear(c2, a) == Linear(c, a) + k
  {
    var n := |c|;
    assert c2[..n - 1] == c[..n - 1];
  }

  /**
   * The m positions after the cursor `c` stay in its tile and inside the space, so charging
   * them all to the cursor's device keeps the per-device counters of `w` exact.
   */
  lemma ChargeRun(w: Space, l: Layout, start: int, consumed: nat, c: seq<int>, m: nat)
    requires l.Ok() && Describes(w, l) && InRange(c, l.align) && Linear(c, l.align) == start + consumed
    requires c[|c| - 1] + m <= l.align[|c| - 1]
    requires c[|c| - 1] % l.local[|c| - 1] + m <= l.local[|c| - 1]
    ensures 0 <= Device(c, l.local, l.strides) < l.gpus
    ensures var dev, before := Device(c, l.local, l.strides), Counts(w.owner, l.gpus, start, consumed);
      Counts(w.owner, l.gpus, start, consumed + m) == before[dev := before[dev] + m]
  {
    var dev := Device(c, l.local, l.strides);
    DeviceInRange(l, c);
    RunOwned(l, start, consumed, c, m);
    LinearInRange(c, l.align);
    OwnedRun(w, l, start + consumed, m, dev);
    CountsRun(w.owner, l.gpus, start, consumed, m, dev);
  }

  /** Positions the layout gives one device are owned by that device in the space it describes. */
  lemma OwnedRun(w: Space, l: Layout, lo: int, m: nat, dev: int)
    requires l.Ok() && Describes(w, l) && 0 <= lo && lo + m <= l.Size()
    requires forall p :: lo <= p < lo + m ==> DevAt(p, l.align, l.local, l.strides) == dev
    ensures forall p :: lo <= p < lo + m ==> w.owner(p) == dev
  {
    forall p | lo <= p < lo + m
      ensures w.owner(p) == dev
    {
      assert DevAt(p, l.align, l.local, l.strides) == dev;
    }
  }

  /** The same run, stated on the positions: every one of them is in the cursor's tile. */
  lemma RunOwned(l: Layout, start: int, consumed: nat, c: seq<int>, m: nat)
    requires l.Ok() && InRange(c, l.align) && Linear(c, l.align) == start + consumed
    requires c[|c| - 1] + m <= l.align[|c| - 1]
    requires c[|c| - 1] % l.local[|c| - 1] + m <= l.local[|c| - 1]
    ensures start + consumed + m <= l.Size()
    ensures forall p :: start + consumed <= p < start + consumed + m ==>
      DevAt(p, l.align, l.local, l.strides) == Device(c, l.local, l.strides)
  {
    RunSameDevice(c, l.align, l.local, l.strides, m);
    RunEnd(c, l.align, m);
  }
}
