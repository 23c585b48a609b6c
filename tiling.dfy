/**
 * The integer arithmetic of the kernel launcher: how many devices a launch uses, how the
 * device count is spread over the partitioned axes of the computation, the tile and step of
 * every axis of the CUDA grid, and the extent each device slot launches.
 *
 * CUDA axes are numbered 0 = z, 1 = y, 2 = x. A computation of `dims` axes (1 to 3) uses the
 * last `dims` of them: its axis d is CUDA axis d + 3 - dims.
 */
module Tiling {
  import opened Arith
  import opened Runtime

  /** Devices a launcher uses: all peer devices when none are requested, else the request capped at the peers. */
  function GpuCount(procs: nat, peers: nat): (g: nat)
    ensures procs == 0 ==> g == peers
    ensures procs > 0 ==> g <= procs && g <= peers && (g == procs || g == peers)
  {
    if procs == 0 then peers else Min(procs, peers)
  }

  /** A request for more devices than there are peers only draws a warning: the launcher then uses every peer. */
  lemma OversubscribedUsesAllPeers(procs: nat, peers: nat)
    requires procs > peers
    ensures GpuCount(procs, peers) == peers
  {
  }

  // ---------------------------------------------------------------------------------------
  // Sorting the factor list, largest first

  ghost predicate Descending(s: seq<nat>)
  {
    forall i, j :: 0 <= i < j < |s| ==> s[i] >= s[j]
  }

  /** Insert x into a list sorted largest first, before the first entry it is not smaller than. */
  function Insert(x: nat, s: seq<nat>): (r: seq<nat>)
    requires Descending(s)
    ensures Descending(r) && multiset(r) == multiset(s) + multiset{x} && |r| == |s| + 1
  {
    if |s| == 0 || x >= s[0] then [x] + s
    else
      var rest := Insert(x, s[1..]);
      assert s == [s[0]] + s[1..];
      BoundedByHead(rest, s[1..], x, s[0]);
      [s[0]] + rest
  }

  /** Entries drawn from t and x are all at most h when t's entries and x are. */
  lemma BoundedByHead(r: seq<nat>, t: seq<nat>, x: nat, h: nat)
    requires multiset(r) == multiset(t) + multiset{x} && x <= h
    requires forall k :: 0 <= k < |t| ==> t[k] <= h
    ensures forall k :: 0 <= k < |r| ==> r[k] <= h
  {
    forall k | 0 <= k < |r|
      ensures r[k] <= h
    {
      assert r[k] in multiset(r);
      if r[k] != x {
        assert r[k] in multiset(t);
        var j :| 0 <= j < |t| && t[j] == r[k];
      }
    }
  }

  /** The factor list sorted in descending order, as the launcher orders it. */
  function SortDesc(s: seq<nat>): (r: seq<nat>)
    ensures Descending(r) && multiset(r) == multiset(s) && |r| == |s|
  {
    if |s| == 0 then []
    else
      assert s == [s[0]] + s[1..];
      Insert(s[0], SortDesc(s[1..]))
  }

  /** Removing one entry divides it out of the product. */
  lemma ProdRemove(t: seq<int>, i: nat)
    requires i < |t|
    ensures Prod(t) == Prod(t[..i] + t[i + 1..]) * t[i]
  {
    var a, b, x := t[..i], t[i + 1..], t[i];
    var ax := a + [x];
    assert ax[..|ax| - 1] == a;
    assert Prod(ax) == Prod(a) * x;
    assert t == ax + b;
    ProdAppend(ax, b);
    ProdAppend(a, b);
    MulSwap(Prod(a), Prod(b), x);
  }

  lemma MulSwap(a: int, b: int, x: int)
    ensures (a * x) * b == (a * b) * x
  {
  }

  /** Two lists with the same entries have the same product: sorting keeps the device count. */
  lemma {:induction false} ProdPermutation(s: seq<nat>, t: seq<nat>)
    requires multiset(s) == multiset(t)
    ensures Prod(s) == Prod(t)
    decreases |s|
  {
    if |s| == 0 {
      assert |t| == |multiset(t)| == 0;
    } else {
      var n := |s| - 1;
      var x := s[n];
      assert s == s[..n] + [x];
      assert x in multiset(t);
      var i :| 0 <= i < |t| && t[i] == x;
      var t' := t[..i] + t[i + 1..];
      assert t == t[..i] + [x] + t[i + 1..];
      assert multiset(t') == multiset(t) - multiset{x};
      assert multiset(s[..n]) == multiset(s) - multiset{x};
      ProdPermutation(s[..n], t');
      ProdRemove(t, i);
    }
  }

  // ---------------------------------------------------------------------------------------
  // Spreading the factors over the partitioned axes

  /** CountTrue of a one-longer prefix adds the new entry. */
  lemma CountTrueStep(info: seq<bool>, i: nat)
    requires i < |info|
    ensures CountTrue(info[..i + 1]) == CountTrue(info[..i]) + (if info[i] then 1 else 0)
  {
    assert info[..i + 1][..i] == info[..i];
  }

  /** A prefix has no more partitioned axes than the whole. */
  lemma {:induction false} CountTruePrefix(info: seq<bool>, i: nat)
    requires i <= |info|
    ensures CountTrue(info[..i]) <= CountTrue(info)
    decreases |info| - i
  {
    if i < |info| {
      CountTrueStep(info, i);
      CountTruePrefix(info, i + 1);
    } else {
      assert info[..i] == info;
    }
  }

  /**
   * The number of factors the first partitioned axis multiplies together: all but one per
   * other partitioned axis. With one factor fewer than partitioned axes the count is 0 (the
   * size_t subtraction of the source wraps around to exactly 0), and then no partitioned axis
   * takes a factor. With still fewer factors the count stays 0; SourceLead is the count as the
   * source writes it.
   */
  function Lead(nf: nat, partDims: nat): (inc: nat)
    ensures partDims <= nf ==> inc + partDims == nf + 1
    ensures partDims > nf ==> inc == 0
  {
    if partDims <= nf + 1 then nf + 1 - partDims else 0
  }

  /** The number of factors the partitioned axis that finds j factors used multiplies together. */
  function Inc(nf: nat, partDims: nat, j: nat): (inc: nat)
  {
    if j == 0 then Lead(nf, partDims) else 1
  }

  /**
   * Factors used by the axes before axis i: none before the first partitioned axis, which
   * takes Lead of them; every later partitioned axis takes one. When the first takes none,
   * j stays 0 and so does every later count.
   */
  function Taken(info: seq<bool>, nf: nat, partDims: nat, i: nat): (j: nat)
    requires i <= |info|
  {
    var c := CountTrue(info[..i]);
    if c == 0 || partDims > nf then 0 else nf - partDims + c
  }

  /** The device-grid entry of axis i, for a factor list `fs` sorted largest first. */
  function AxisFactor(info: seq<bool>, fs: seq<nat>, i: nat): (p: int)
    requires i < |info|
  {
    if !info[i] then 1
    else
      var pd := CountTrue(info);
      var j := Taken(info, |fs|, pd, i);
      TakenInRange(info, |fs|, i);
      Prod(fs[j..j + Inc(|fs|, pd, j)])
  }

  /** A partitioned axis finds the factors it takes still unused, whatever the list's length. */
  lemma TakenInRange(info: seq<bool>, nf: nat, i: nat)
    requires i < |info| && info[i]
    ensures var pd := CountTrue(info); var j := Taken(info, nf, pd, i);
      j + Inc(nf, pd, j) <= nf && Taken(info, nf, pd, i + 1) == j + Inc(nf, pd, j)
  {
    CountTrueStep(info, i);
    CountTruePrefix(info, i + 1);
  }

  /** size_t, the type in which the source counts the factors of the first partitioned axis. */
  const SizeMax: nat := 0x1_0000_0000_0000_0000

  /** The first partitioned axis's factor count as the source writes it: size() - partDims + 1 in size_t. */
  function SourceLead(nf: nat, partDims: nat): (inc: nat)
    ensures inc < SizeMax
  {
    (nf - partDims + 1) % SizeMax
  }

  /** Up to one factor fewer than partitioned axes, the source's count is Lead. */
  lemma SourceLeadAgrees(nf: nat, partDims: nat)
    requires partDims <= nf + 1 && nf + 1 < SizeMax
    ensures SourceLead(nf, partDims) == Lead(nf, partDims)
  {
    DivModUnique(nf - partDims + 1, SizeMax, 0, nf + 1 - partDims);
  }

  /**
   * With two or more factors fewer than partitioned axes the source's count wraps around to
   * nearly SizeMax: accumulate then reads far past the end of the factor list.
   */
  lemma SourceLeadOverruns(nf: nat, partDims: nat)
    requires nf + 2 <= partDims < SizeMax
    ensures SourceLead(nf, partDims) == SizeMax + nf + 1 - partDims > nf
  {
    DivModUnique(nf - partDims + 1, SizeMax, -1, SizeMax + nf + 1 - partDims);
  }

  /** One device and three partitioned axes: the list [1] and a count of SizeMax - 1 factors. */
  lemma OneDeviceThreeAxes()
    ensures SourceLead(1, 3) == SizeMax - 1 && Lead(1, 3) == 0
  {
    SourceLeadOverruns(1, 3);
  }

  /** The device grid: one entry per computation axis. */
  function DeviceGrid(info: seq<bool>, fs: seq<nat>): (g: seq<int>)
    ensures |g| == |info|
  {
    seq(|info|, i requires 0 <= i < |info| => AxisFactor(info, fs, i))
  }

  /** The grid of the first i axes multiplies exactly the factors they took. */
  lemma {:induction false} GridPrefixProduct(info: seq<bool>, fs: seq<nat>, i: nat)
    requires i <= |info|
    ensures Taken(info, |fs|, CountTrue(info), i) <= |fs|
    ensures Prod(DeviceGrid(info, fs)[..i]) == Prod(fs[..Taken(info, |fs|, CountTrue(info), i)])
  {
    var g := DeviceGrid(info, fs);
    var pd := CountTrue(info);
    if i == 0 {
      assert g[..0] == [] && fs[..0] == [];
    } else {
      var k := i - 1;
      GridPrefixProduct(info, fs, k);
      var j := Taken(info, |fs|, pd, k);
      assert g[..i][..k] == g[..k];
      assert Prod(g[..i]) == Prod(g[..k]) * g[k];
      CountTrueStep(info, k);
      if info[k] {
        TakenInRange(info, |fs|, k);
        var inc := Inc(|fs|, pd, j);
        if j == 0 {
          assert fs[j..j + inc] == fs[..inc];
          assert Prod(fs[..j]) == 1;
        } else {
          assert fs[j..j + 1] == [fs[j]];
          assert [fs[j]][..0] == [];
          assert Prod([fs[j]]) == fs[j];
          assert g[k] == fs[j];
          assert fs[..j + 1][..j] == fs[..j];
          assert Prod(fs[..j + 1]) == Prod(fs[..j]) * fs[j];
          assert Taken(info, |fs|, pd, i) == j + 1;
        }
      } else {
        assert Taken(info, |fs|, pd, i) == j;
      }
    }
  }

  /**
   * Every factor is used exactly once when there are at least as many factors as partitioned
   * axes (and at least one such axis): the device grid multiplies to the product of the factor
   * list. With no partitioned axis, or more partitioned axes than factors, it is all ones.
   */
  lemma GridProduct(info: seq<bool>, fs: seq<nat>)
    ensures 0 < CountTrue(info) <= |fs| ==> Prod(DeviceGrid(info, fs)) == Prod(fs)
    ensures CountTrue(info) == 0 || CountTrue(info) > |fs| ==>
      forall i :: 0 <= i < |info| ==> DeviceGrid(info, fs)[i] == 1
  {
    GridPrefixProduct(info, fs, |info|);
    var g := DeviceGrid(info, fs);
    assert g[..|info|] == g;
    assert info[..|info|] == info;
    assert fs[..|fs|] == fs;
    if CountTrue(info) == 0 {
      forall i | 0 <= i < |info|
        ensures g[i] == 1
      {
        if info[i] {
          CountTrueStep(info, i);
          CountTruePrefix(info, i + 1);
        }
      }
    } else if CountTrue(info) > |fs| {
      forall i | 0 <= i < |info|
        ensures g[i] == 1
      {
        if info[i] {
          assert fs[0..0] == [];
        }
      }
    }
  }

  /**
   * Two devices over two partitioned axes: get_factors gives the single factor 2, the first
   * axis takes no factor, and the grid is 1 by 1, so only device 0 is used.
   */
  lemma TwoDevicesTwoAxes()
    ensures DeviceGrid([true, true], [2]) == [1, 1]
  {
    GridProduct([true, true], [2]);
  }

  /** Every entry of the device grid is positive when every factor is. */
  lemma GridPositive(info: seq<bool>, fs: seq<nat>)
    requires forall k :: 0 <= k < |fs| ==> fs[k] > 0
    ensures forall i :: 0 <= i < |info| ==> DeviceGrid(info, fs)[i] > 0
  {
    forall i | 0 <= i < |info|
      ensures DeviceGrid(info, fs)[i] > 0
    {
      AxisFactorPositive(info, fs, i);
    }
  }

  lemma AxisFactorPositive(info: seq<bool>, fs: seq<nat>, i: nat)
    requires i < |info| && forall k :: 0 <= k < |fs| ==> fs[k] > 0
    ensures AxisFactor(info, fs, i) > 0
  {
    if info[i] {
      TakenInRange(info, |fs|, i);
      var pd := CountTrue(info);
      var j := Taken(info, |fs|, pd, i);
      var hi := j + Inc(|fs|, pd, j);
      SlicePositive(fs, j, hi);
      assert AxisFactor(info, fs, i) == Prod(fs[j..hi]);
    }
  }

  lemma SlicePositive(fs: seq<nat>, lo: nat, hi: nat)
    requires lo <= hi <= |fs| && forall k :: 0 <= k < |fs| ==> fs[k] > 0
    ensures Prod(fs[lo..hi]) > 0
  {
    var part := fs[lo..hi];
    assert forall k :: 0 <= k < |part| ==> part[k] == fs[lo + k];
    ProdPositive(part);
  }

  /** The factor list the launcher spreads: get_factors(procs), with a 1 appended for a single device. */
  function LaunchFactors(factors: seq<nat>, procs: nat): (fs: seq<nat>)
    ensures Prod(fs) == Prod(factors) && multiset(factors) <= multiset(fs)
  {
    if procs == 1 then
      ProdAppend(factors, [1]);
      factors + [1]
    else factors
  }

  // ---------------------------------------------------------------------------------------
  // Tiles and steps

  /** Component a (0 = z, 1 = y, 2 = x) of an extent. */
  function Get(d: Dim3, a: nat): int
  {
    if a == 0 then d.z else if a == 1 then d.y else d.x
  }

  /** The device-grid entry of CUDA axis a, or 1 for an axis the computation does not use. */
  function Factor(gpuGrid: seq<int>, a: nat): (f: int)
    requires a < 3 && |gpuGrid| <= 3
    ensures (forall i :: 0 <= i < |gpuGrid| ==> gpuGrid[i] > 0) ==> f > 0
  {
    if a + |gpuGrid| >= 3 then gpuGrid[a + |gpuGrid| - 3] else 1
  }

  /** Number of slots along each CUDA axis: the extent of the three nested slot loops. */
  function SlotGrid(gpuGrid: seq<int>): (n: Dim3)
    requires |gpuGrid| <= 3
    ensures forall a :: 0 <= a < 3 ==> Get(n, a) == Factor(gpuGrid, a)
  {
    Dim3(Factor(gpuGrid, 0), Factor(gpuGrid, 1), Factor(gpuGrid, 2))
  }

  /** Slots of the whole enumeration. */
  function SlotCount(gpuGrid: seq<int>): int
    requires |gpuGrid| <= 3
  {
    var n := SlotGrid(gpuGrid);
    n.z * n.y * n.x
  }

  /** The slots of the enumeration are the devices of the device grid. */
  lemma SlotCountIsGridProduct(gpuGrid: seq<int>)
    requires 1 <= |gpuGrid| <= 3
    ensures SlotCount(gpuGrid) == Prod(gpuGrid)
  {
    var g := gpuGrid;
    assert g[..0] == [];
    if |g| == 1 {
      assert g[..|g| - 1] == [];
    } else if |g| == 2 {
      assert g[..1][..0] == [];
      assert g[..|g| - 1] == g[..1];
    } else {
      assert g[..1][..0] == [];
      assert g[..2][..1] == g[..1];
      assert g[..|g| - 1] == g[..2];
      assert SlotCount(g) == (g[0] * g[1]) * g[2];
    }
  }

  /** t is the ceiling of total / g: the fewest per-part units that cover total in g parts. */
  ghost predicate CeilOf(t: int, total: int, g: int)
  {
    t * g >= total && (t > 0 ==> (t - 1) * g < total)
  }

  /**
   * Tile and step of the launch on each CUDA axis. An axis of the computation is split into
   * tiles of the ceiling of its extent over its device-grid entry, and consecutive slots are a
   * tile apart when that entry is above 1, else on top of each other; an unused axis has tile
   * 1 and step 0. Returns (step, tile).
   */
  function ComputeTiles(total: Dim3, gpuGrid: seq<int>): (r: (Dim3, Dim3))
    requires 1 <= |gpuGrid| <= 3 && forall i :: 0 <= i < |gpuGrid| ==> gpuGrid[i] > 0
    requires total.z >= 0 && total.y >= 0 && total.x >= 0
    ensures forall a :: 0 <= a < 3 && a + |gpuGrid| >= 3 ==>
      CeilOf(Get(r.1, a), Get(total, a), Factor(gpuGrid, a)) && Get(r.1, a) >= 0 &&
      Get(r.0, a) == (if Factor(gpuGrid, a) > 1 then Get(r.1, a) else 0)
    ensures forall a :: 0 <= a < 3 && a + |gpuGrid| < 3 ==> Get(r.1, a) == 1 && Get(r.0, a) == 0
  {
    var d := |gpuGrid|;
    var tz := if d > 2 then DivCeil(total.z, gpuGrid[d - 3]) else 1;
    var ty := if d > 1 then DivCeil(total.y, gpuGrid[d - 2]) else 1;
    var tx := DivCeil(total.x, gpuGrid[d - 1]);
    var sz := if d > 2 && gpuGrid[d - 3] > 1 then tz else 0;
    var sy := if d > 1 && gpuGrid[d - 2] > 1 then ty else 0;
    var sx := if gpuGrid[d - 1] > 1 then tx else 0;
    (Dim3(sz, sy, sx), Dim3(tz, ty, tx))
  }

  // ---------------------------------------------------------------------------------------
  // Clipping edge slots

  /** Extent left on an axis from `off` to `total`, or 0 past the end. */
  function Remaining(off: int, total: int): (e: int)
    ensures e >= 0 && (off <= total ==> off + e == total)
  {
    if off <= total then total - off else 0
  }

  /**
   * The extent a slot at offset `off` launches. Only the first axis, in z, y, x order, whose
   * next slot would start past the end is clipped to what is left; the others keep the tile.
   */
  function Clip(off: Dim3, step: Dim3, tile: Dim3, total: Dim3): (local: Dim3)
    ensures off.z + step.z > total.z ==>
      local == tile.(z := Remaining(off.z, total.z))
    ensures off.z + step.z <= total.z && off.y + step.y > total.y ==>
      local == tile.(y := Remaining(off.y, total.y))
    ensures off.z + step.z <= total.z && off.y + step.y <= total.y && off.x + step.x > total.x ==>
      local == tile.(x := Remaining(off.x, total.x))
    ensures off.z + step.z <= total.z && off.y + step.y <= total.y && off.x + step.x <= total.x ==>
      local == tile
  {
    var local := tile;
    if off.z + step.z > total.z then local.(z := Remaining(off.z, total.z))
    else if off.y + step.y > total.y then local.(y := Remaining(off.y, total.y))
    else if off.x + step.x > total.x then local.(x := Remaining(off.x, total.x))
    else local
  }

  /** A slot launches only with a positive extent on every axis. */
  predicate Launches(local: Dim3)
  {
    local.z > 0 && local.y > 0 && local.x > 0
  }

  /** With transposeXY the launch swaps the x and y extents. */
  function Transposed(local: Dim3, transposeXY: bool): (d: Dim3)
    ensures Launches(d) <==> Launches(local)
    ensures transposeXY ==> d.x == local.y && d.y == local.x && d.z == local.z
    ensures !transposeXY ==> d == local
  {
    if transposeXY then Dim3(local.z, local.x, local.y) else local
  }

  /** Extent of slot k on one axis split g ways, when it is the only axis that is split. */
  function SlotExtent(total: nat, g: nat, k: nat): int
    requires g > 0
  {
    var t := DivCeil(total, g);
    var s := if g > 1 then t else 0;
    if k * s + s > total then Remaining(k * s, total) else t
  }

  /** Offset of slot k on one axis split g ways. */
  function SlotOffset(total: nat, g: nat, k: nat): int
    requires g > 0
  {
    k * (if g > 1 then DivCeil(total, g) else 0)
  }

  /**
   * On an axis split g ways, the slot intervals [offset, offset + extent) of the g slots are
   * disjoint and cover [0, total): position p lies in exactly one of them.
   */
  lemma SplitCovers(total: nat, g: nat, p: nat, k: nat)
    requires g > 0 && p < total && k < g
    ensures var t := DivCeil(total, g); t > 0 && p / t < g
    ensures var t := DivCeil(total, g);
      SlotOffset(total, g, p / t) <= p < SlotOffset(total, g, p / t) + SlotExtent(total, g, p / t)
    ensures SlotOffset(total, g, k) <= p < SlotOffset(total, g, k) + SlotExtent(total, g, k) <==>
      k == p / DivCeil(total, g)
  {
    var t := DivCeil(total, g);
    if g == 1 {
      assert t * 1 >= total && t * 1 == t;
      assert p / t == 0 by { DivModUnique(p, t, 0, p); }
      assert SlotOffset(total, g, k) == 0;
    } else {
      var i := p / t;
      SlotMember(total, g, p, i);
      SlotMember(total, g, p, k);
      InSlot(p, t, i);
      if i >= g {
        MulMono(g, i, t);
        assert false;
      }
    }
  }

  /** On an axis split more than one way, slot k holds position p exactly when k is p / tile. */
  lemma SlotMember(total: nat, g: nat, p: nat, k: nat)
    requires g > 1 && p < total
    ensures DivCeil(total, g) > 0
    ensures SlotOffset(total, g, k) <= p < SlotOffset(total, g, k) + SlotExtent(total, g, k) <==>
      k == p / DivCeil(total, g)
  {
    var t := DivCeil(total, g);
    var kt := k * t;
    assert SlotOffset(total, g, k) == kt;
    assert SlotExtent(total, g, k) == if kt + t > total then Remaining(kt, total) else t;
    InSlot(p, t, k);
  }

  /** Position p lies in the j-th run of t positions exactly when j is p / t. */
  lemma InSlot(p: nat, t: nat, j: nat)
    requires t > 0
    ensures j * t <= p < j * t + t <==> j == p / t
  {
    if j * t <= p < j * t + t {
      DivModUnique(p, t, j, p - j * t);
    }
  }

  /**
   * With one split axis and the others unsplit, the clip rule gives the split axis the
   * extent SlotExtent and leaves the unsplit ones at their tile.
   */
  lemma ClipSingleSplit(total: Dim3, tile: Dim3, step: Dim3, off: Dim3, a: nat, g: nat, k: nat)
    requires a < 3 && g > 0 && total.z >= 0 && total.y >= 0 && total.x >= 0
    requires forall b :: 0 <= b < 3 && b != a ==> Get(step, b) == 0 && Get(off, b) == 0
    requires Get(tile, a) == DivCeil(Get(total, a), g)
    requires Get(step, a) == (if g > 1 then Get(tile, a) else 0) && Get(off, a) == k * Get(step, a)
    ensures Get(Clip(off, step, tile, total), a) == SlotExtent(Get(total, a), g, k)
    ensures Get(off, a) == SlotOffset(Get(total, a), g, k)
    ensures forall b :: 0 <= b < 3 && b != a ==> Get(Clip(off, step, tile, total), b) == Get(tile, b)
  {
    assert Get(step, 0) == step.z && Get(step, 1) == step.y && Get(step, 2) == step.x;
    assert Get(off, 0) == off.z && Get(off, 1) == off.y && Get(off, 2) == off.x;
  }

  /** 64 blocks over 4 devices: four slots of 16. */
  lemma Split64Over4()
    ensures DivCeil(64, 4) == 16
    ensures SlotExtent(64, 4, 0) == 16 && SlotExtent(64, 4, 1) == 16
    ensures SlotExtent(64, 4, 2) == 16 && SlotExtent(64, 4, 3) == 16
  {
    assert DivCeil(64, 4) == 16 by { CeilUnique(64, 4, 16); }
  }

  /** 10 blocks over 4 devices: slots of 3, 3, 3 and a clipped 1. */
  lemma Split10Over4()
    ensures DivCeil(10, 4) == 3
    ensures SlotExtent(10, 4, 0) == 3 && SlotExtent(10, 4, 1) == 3
    ensures SlotExtent(10, 4, 2) == 3 && SlotExtent(10, 4, 3) == 1
  {
    assert DivCeil(10, 4) == 3 by { CeilUnique(10, 4, 3); }
  }

  /** The ceiling is the only value with its defining property. */
  lemma CeilUnique(n: nat, d: nat, t: nat)
    requires d > 0 && t * d >= n && (t > 0 ==> (t - 1) * d < n)
    ensures DivCeil(n, d) == t
  {
    var r := DivCeil(n, d);
    if r < t {
      MulMono(r, t - 1, d);
    } else if r > t {
      MulMono(t, r - 1, d);
    }
  }

  /**
   * With two split axes the clip rule shortens only the first that runs past the end: a
   * 3-by-3 grid over 2-by-2 devices gives the corner slot one row but a full tile of two
   * columns, one more than is left.
   */
  lemma ClipShortensOneAxis()
    ensures var local := Clip(Dim3(0, 2, 2), Dim3(0, 2, 2), Dim3(1, 2, 2), Dim3(1, 3, 3));
      local == Dim3(1, 1, 2) && 2 + local.x > 3
  {
  }
}
