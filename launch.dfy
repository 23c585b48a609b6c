/**
 * The multi-device kernel launcher: the argument manager that finds the distributed arrays
 * among a kernel's arguments, the process-wide pool of per-device streams and events, and
 * the launcher that splits a CUDA grid over the devices of a device grid, sets every device
 * up, hands the arrays to their coherence policy, launches one kernel per device slot and
 * waits for them.
 *
 * Every observable effect is a call appended to the runtime's log (Runtime.Driver.calls), so
 * the launcher's contracts state the exact call sequence, and the lemmas at the end state the
 * ordering guarantees that sequence gives.
 */
module Launch {
  import opened Arith
  import opened Runtime
  import opened Tiling

  // ---------------------------------------------------------------------------------------
  // Kernel arguments

  /** A kernel argument: a distributed array, known by its identity, or any other value. */
  datatype Arg = Value | Array(id: nat)

  /** An argument together with the constness of the kernel parameter it binds to. */
  datatype Param = Param(arg: Arg, isConst: bool)

  /** A distributed array passed to a kernel and whether the kernel only reads it. */
  datatype Coherent = Coherent(id: nat, isConst: bool)

  /** What set_coherent_arg records for one argument: an array, or nothing. */
  function Record(p: Param): seq<Coherent>
  {
    if p.arg.Array? then [Coherent(p.arg.id, p.isConst)] else []
  }

  /** The arrays among the arguments, in argument order. */
  function CoherentOf(ps: seq<Param>): (cs: seq<Coherent>)
    ensures |cs| <= |ps|
  {
    if |ps| == 0 then [] else CoherentOf(ps[..|ps| - 1]) + Record(ps[|ps| - 1])
  }

  /** The record of a concatenation is the concatenation of the records: argument order is kept. */
  lemma {:induction false} CoherentOfAppend(ps: seq<Param>, qs: seq<Param>)
    ensures CoherentOf(ps + qs) == CoherentOf(ps) + CoherentOf(qs)
    decreases |qs|
  {
    if |qs| == 0 {
      assert ps + qs == ps;
    } else {
      var n := |qs| - 1;
      assert (ps + qs)[..|ps + qs| - 1] == ps + qs[..n];
      assert (ps + qs)[|ps + qs| - 1] == qs[n];
      assert qs[..n] + [qs[n]] == qs;
      CoherentOfAppend(ps, qs[..n]);
    }
  }

  /** Every array argument is recorded with its constness, and nothing that is not an array argument is. */
  lemma {:induction false} CoherentOfExact(ps: seq<Param>)
    ensures forall i :: 0 <= i < |ps| && ps[i].arg.Array? ==> Coherent(ps[i].arg.id, ps[i].isConst) in CoherentOf(ps)
    ensures forall c :: c in CoherentOf(ps) ==> exists i :: 0 <= i < |ps| && ps[i] == Param(Array(c.id), c.isConst)
    decreases |ps|
  {
    if |ps| > 0 {
      var n := |ps| - 1;
      CoherentOfExact(ps[..n]);
      forall i | 0 <= i < |ps| && ps[i].arg.Array?
        ensures Coherent(ps[i].arg.id, ps[i].isConst) in CoherentOf(ps)
      {
        if i < n {
          assert ps[..n][i] == ps[i];
        }
      }
      forall c | c in CoherentOf(ps)
        ensures exists i :: 0 <= i < |ps| && ps[i] == Param(Array(c.id), c.isConst)
      {
        if c in CoherentOf(ps[..n]) {
          var i :| 0 <= i < n && ps[..n][i] == Param(Array(c.id), c.isConst);
          assert ps[i] == ps[..n][i];
        } else {
          assert ps[n] == Param(Array(c.id), c.isConst);
        }
      }
    }
  }

  /** Arguments with no array among them leave nothing to keep coherent. */
  lemma {:induction false} NoArraysNoRecords(ps: seq<Param>)
    requires forall i :: 0 <= i < |ps| ==> ps[i].arg.Value?
    ensures CoherentOf(ps) == []
    decreases |ps|
  {
    if |ps| > 0 {
      NoArraysNoRecords(ps[..|ps| - 1]);
    }
  }

  /** The argument manager of a kernel signature: the arrays found in the last parsed argument list. */
  class ArgumentManager {
    var coherentParams: seq<Coherent>

    constructor ()
      ensures coherentParams == []
    {
      coherentParams := [];
    }

    /** set_coherent_arg: record one argument if it is an array. */
    method SetCoherentArg(p: Param)
      modifies this
      ensures coherentParams == old(coherentParams) + Record(p)
    {
      if p.arg.Array? {
        coherentParams := coherentParams + [Coherent(p.arg.id, p.isConst)];
      }
    }

    /** parse_args: forget the previous list, then record the arguments in order. */
    method ParseArgs(ps: seq<Param>)
      modifies this
      ensures coherentParams == CoherentOf(ps)
    {
      coherentParams := [];
      var i := 0;
      while i < |ps|
        invariant i <= |ps| && coherentParams == CoherentOf(ps[..i])
      {
        assert ps[..i + 1][..i] == ps[..i];
        SetCoherentArg(ps[i]);
        i := i + 1;
      }
      assert ps[..i] == ps;
    }
  }

  // ---------------------------------------------------------------------------------------
  // Streams and events

  /** init_streams' calls for devices from..gpus-1, the first stream handle being h. */
  function InitCalls(from: nat, gpus: nat, h: nat): seq<Call>
    decreases gpus - from
  {
    if from >= gpus then []
    else
      [Call.SetDevice(from), StreamCreate(from, h), EventCreate(from, h + 1), EventCreate(from, h + 2)] +
      InitCalls(from + 1, gpus, h + 3)
  }

  /** Device d's stream and its two events are created on device d, right after selecting it. */
  lemma {:induction false} InitCallsCreate(from: nat, gpus: nat, h: nat, d: nat)
    requires from <= d < gpus
    ensures |InitCalls(from, gpus, h)| == 4 * (gpus - from)
    ensures var k := 4 * (d - from); var e := h + 3 * (d - from);
      InitCalls(from, gpus, h)[k..k + 4] ==
        [Call.SetDevice(d), StreamCreate(d, e), EventCreate(d, e + 1), EventCreate(d, e + 2)]
    decreases gpus - from
  {
    var rest := InitCalls(from + 1, gpus, h + 3);
    var head := [Call.SetDevice(from), StreamCreate(from, h), EventCreate(from, h + 1), EventCreate(from, h + 2)];
    if from + 1 < gpus {
      InitCallsCreate(from + 1, gpus, h + 3, if d == from then from + 1 else d);
    }
    if d > from {
      var k := 4 * (d - from);
      assert (head + rest)[k..k + 4] == rest[k - 4..k];
    }
  }

  /**
   * `s` is `s0` followed by one handle per device added, the k-th new one being h0 + 3k + off:
   * each device takes three consecutive handles (its stream, its begin and its end event).
   */
  ghost predicate Issued(s0: seq<nat>, s: seq<nat>, h0: nat, off: nat)
  {
    |s0| <= |s| && s[..|s0|] == s0 && forall k :: |s0| <= k < |s| ==> s[k] == h0 + 3 * (k - |s0|) + off
  }

  lemma IssuedStep(s0: seq<nat>, s: seq<nat>, h0: nat, off: nat, x: nat)
    requires Issued(s0, s, h0, off) && x == h0 + 3 * (|s| - |s0|) + off
    ensures Issued(s0, s + [x], h0, off)
  {
    assert (s + [x])[..|s0|] == s[..|s0|];
  }

  /** The process-wide streams and events, one of each kind per device already set up. */
  class StreamPool {
    var streams: seq<nat>
    var eventsBegin: seq<nat>
    var eventsEnd: seq<nat>

    ghost predicate Valid()
      reads this
    {
      |eventsBegin| == |streams| && |eventsEnd| == |streams|
    }

    constructor ()
      ensures Valid() && streams == []
    {
      streams, eventsBegin, eventsEnd := [], [], [];
    }

    /**
     * init_streams: create a stream and a begin and an end event on every device from the
     * pool's size up to `gpus`; a pool already that large is left alone.
     */
    method InitStreams(gpus: nat, driver: Driver)
      requires Valid()
      modifies this, driver
      ensures Valid() && |streams| == Max(old(|streams|), gpus)
      ensures streams[..old(|streams|)] == old(streams)
      ensures eventsBegin[..old(|streams|)] == old(eventsBegin) && eventsEnd[..old(|streams|)] == old(eventsEnd)
      ensures forall i :: old(|streams|) <= i < |streams| ==>
        streams[i] == old(driver.handles) + 3 * (i - old(|streams|)) &&
        eventsBegin[i] == streams[i] + 1 && eventsEnd[i] == streams[i] + 2
      ensures driver.calls == old(driver.calls) + InitCalls(old(|streams|), gpus, old(driver.handles))
      ensures driver.mallocs == old(driver.mallocs) && driver.mem == old(driver.mem)
    {
      var n0 := |streams|;
      ghost var h0 := driver.handles;
      var i := n0;
      while i < gpus
        invariant Valid() && |streams| == Max(i, n0) && (i > n0 ==> i <= gpus)
        invariant Issued(old(streams), streams, h0, 0)
        invariant Issued(old(eventsBegin), eventsBegin, h0, 1) && Issued(old(eventsEnd), eventsEnd, h0, 2)
        invariant i >= n0 && driver.handles == h0 + 3 * (i - n0)
        invariant driver.calls + InitCalls(i, gpus, driver.handles) == old(driver.calls) + InitCalls(n0, gpus, h0)
        invariant driver.mallocs == old(driver.mallocs) && driver.mem == old(driver.mem)
      {
        ghost var calls, s, b, e, h := driver.calls, streams, eventsBegin, eventsEnd, driver.handles;
        AddDevice(i, driver);
        IssuedStep(old(streams), s, h0, 0, h);
        IssuedStep(old(eventsBegin), b, h0, 1, h + 1);
        IssuedStep(old(eventsEnd), e, h0, 2, h + 2);
        Assoc3(calls, InitCalls(i, i + 1, h), InitCalls(i + 1, gpus, driver.handles));
        i := i + 1;
      }
    }

    /** One round of init_streams' loop: select device `gpu`, create its stream and its two events. */
    method AddDevice(gpu: nat, driver: Driver)
      requires Valid()
      modifies this, driver
      ensures Valid()
      ensures streams == old(streams) + [old(driver.handles)]
      ensures eventsBegin == old(eventsBegin) + [old(driver.handles) + 1]
      ensures eventsEnd == old(eventsEnd) + [old(driver.handles) + 2]
      ensures driver.handles == old(driver.handles) + 3
      ensures driver.calls == old(driver.calls) + InitCalls(gpu, gpu + 1, old(driver.handles))
      ensures driver.mallocs == old(driver.mallocs) && driver.mem == old(driver.mem)
    {
      driver.SetDevice(gpu);
      var stream := driver.StreamCreate();
      streams := streams + [stream];
      var begin := driver.EventCreate();
      var end := driver.EventCreate();
      eventsBegin := eventsBegin + [begin];
      eventsEnd := eventsEnd + [end];
    }
  }

  // ---------------------------------------------------------------------------------------
  // Call sequences of the launcher's simple loops

  /** Select and synchronize devices 0..n-1, in order. */
  function SyncDeviceCalls(n: nat): (r: seq<Call>)
    ensures forall k :: 0 <= k < |r| ==> r[k].SetDevice? || r[k].DeviceSynchronize?
  {
    if n == 0 then [] else SyncDeviceCalls(n - 1) + [Call.SetDevice(n - 1), DeviceSynchronize(n - 1)]
  }

  /** set_args: tell every array the device the next launch runs on. */
  function SetArgsCalls(objects: seq<Coherent>, gpu: nat): (r: seq<Call>)
    ensures forall k :: 0 <= k < |r| ==> r[k].SetCurrentGpu?
  {
    if |objects| == 0 then []
    else SetArgsCalls(objects[..|objects| - 1], gpu) + [SetCurrentGpu(objects[|objects| - 1].id, gpu)]
  }

  /** release_args: hand every array to its coherence policy for the devices of the launch. */
  function ReleaseCalls(objects: seq<Coherent>, gpus: seq<nat>): (r: seq<Call>)
    ensures |r| == |objects|
    ensures forall k :: 0 <= k < |r| ==> r[k] == Release(objects[k].id, gpus, objects[k].isConst)
  {
    if |objects| == 0 then []
    else
      ReleaseCalls(objects[..|objects| - 1], gpus) +
      [Release(objects[|objects| - 1].id, gpus, objects[|objects| - 1].isConst)]
  }

  /** acquire_args: take every array back from its coherence policy. */
  function AcquireCalls(objects: seq<Coherent>): (r: seq<Call>)
    ensures |r| == |objects|
    ensures forall k :: 0 <= k < |r| ==> r[k] == Acquire(objects[k].id)
  {
    if |objects| == 0 then [] else AcquireCalls(objects[..|objects| - 1]) + [Acquire(objects[|objects| - 1].id)]
  }

  /** Wait for the end event of every listed device, in list order. */
  function EventSyncCalls(active: seq<nat>, ends: seq<nat>): (r: seq<Call>)
    requires forall k :: 0 <= k < |active| ==> active[k] < |ends|
    ensures |r| == |active|
    ensures forall k :: 0 <= k < |r| ==> r[k] == EventSynchronize(ends[active[k]])
  {
    if |active| == 0 then [] else EventSyncCalls(active[..|active| - 1], ends) + [EventSynchronize(ends[active[|active| - 1]])]
  }

  /** The devices a..b-1 in increasing order. */
  function Range(a: nat, b: nat): (r: seq<nat>)
    ensures |r| == if b <= a then 0 else b - a
    ensures forall i :: 0 <= i < |r| ==> r[i] == a + i
    decreases b
  {
    if b <= a then [] else Range(a, b - 1) + [b - 1]
  }

  /** The devices a loop over slots a..b-1 lists as active: all of them in the set-up loop, none in the launch loop. */
  function Listed(ph: Phase, a: nat, b: nat): seq<nat>
  {
    if ph == Setup then Range(a, b) else []
  }

  lemma ListedAppend(ph: Phase, xs: seq<nat>, a: nat, b: nat, c: nat)
    requires a <= b <= c
    ensures xs + Listed(ph, a, b) + Listed(ph, b, c) == xs + Listed(ph, a, c)
  {
    if ph == Setup {
      RangeAppend(a, b, c);
      Assoc3(xs, Range(a, b), Range(b, c));
    }
  }

  lemma Assoc3<T>(a: seq<T>, b: seq<T>, c: seq<T>)
    ensures a + b + c == a + (b + c)
  {
  }

  lemma RangeAppend(a: nat, b: nat, c: nat)
    requires a <= b <= c
    ensures Range(a, b) + Range(b, c) == Range(a, c)
  {
    assert |Range(a, b) + Range(b, c)| == |Range(a, c)|;
  }

  method SetArgs(driver: Driver, objects: seq<Coherent>, gpu: nat)
    modifies driver
    ensures driver.calls == old(driver.calls) + SetArgsCalls(objects, gpu)
    ensures driver.device == old(driver.device) && driver.mallocs == old(driver.mallocs)
    ensures driver.handles == old(driver.handles) && driver.mem == old(driver.mem)
  {
    for i := 0 to |objects|
      invariant driver.calls == old(driver.calls) + SetArgsCalls(objects[..i], gpu)
      invariant driver.device == old(driver.device) && driver.mallocs == old(driver.mallocs)
      invariant driver.handles == old(driver.handles) && driver.mem == old(driver.mem)
    {
      assert objects[..i + 1][..i] == objects[..i];
      driver.Issue(SetCurrentGpu(objects[i].id, gpu));
    }
    assert objects[..|objects|] == objects;
  }

  method ReleaseArgs(driver: Driver, objects: seq<Coherent>, gpus: seq<nat>)
    modifies driver
    ensures driver.calls == old(driver.calls) + ReleaseCalls(objects, gpus)
    ensures driver.mallocs == old(driver.mallocs) && driver.mem == old(driver.mem)
  {
    for i := 0 to |objects|
      invariant driver.calls == old(driver.calls) + ReleaseCalls(objects[..i], gpus)
      invariant driver.mallocs == old(driver.mallocs) && driver.mem == old(driver.mem)
    {
      assert objects[..i + 1][..i] == objects[..i];
      driver.Issue(Release(objects[i].id, gpus, objects[i].isConst));
    }
    assert objects[..|objects|] == objects;
  }

  method AcquireArgs(driver: Driver, objects: seq<Coherent>)
    modifies driver
    ensures driver.calls == old(driver.calls) + AcquireCalls(objects)
    ensures driver.mallocs == old(driver.mallocs) && driver.mem == old(driver.mem)
  {
    for i := 0 to |objects|
      invariant driver.calls == old(driver.calls) + AcquireCalls(objects[..i])
      invariant driver.mallocs == old(driver.mallocs) && driver.mem == old(driver.mem)
    {
      assert objects[..i + 1][..i] == objects[..i];
      driver.Issue(Acquire(objects[i].id));
    }
    assert objects[..|objects|] == objects;
  }

  /** The calls of wait: every listed device's end event, then every array taken back. */
  function WaitCalls(active: seq<nat>, ends: seq<nat>, objects: seq<Coherent>): seq<Call>
    requires forall k :: 0 <= k < |active| ==> active[k] < |ends|
  {
    EventSyncCalls(active, ends) + AcquireCalls(objects)
  }

  /** wait: block until every active device's kernel has finished, then acquire the arrays. */
  method Wait(driver: Driver, pool: StreamPool, active: seq<nat>, objects: seq<Coherent>) returns (ok: bool)
    requires forall k :: 0 <= k < |active| ==> active[k] < |pool.eventsEnd|
    modifies driver
    ensures ok
    ensures driver.calls == old(driver.calls) + WaitCalls(active, pool.eventsEnd, objects)
    ensures driver.mallocs == old(driver.mallocs) && driver.mem == old(driver.mem)
  {
    for i := 0 to |active|
      invariant driver.calls == old(driver.calls) + EventSyncCalls(active[..i], pool.eventsEnd)
      invariant driver.mallocs == old(driver.mallocs) && driver.mem == old(driver.mem)
    {
      assert active[..i + 1][..i] == active[..i];
      driver.Issue(EventSynchronize(pool.eventsEnd[active[i]]));
    }
    assert active[..|active|] == active;
    AcquireArgs(driver, objects);
    ok := true;
  }

  // ---------------------------------------------------------------------------------------
  // The slot enumeration

  /** The first slot loop only sets devices up; the second launches. */
  datatype Phase = Setup | Launch

  /**
   * What a slot's calls depend on: the CUDA grid and its tiling, the number of slots along
   * z, y and x, the block, whether x and y are swapped at launch, the stream pool and the
   * arrays passed to the kernel.
   */
  datatype Ctx = Ctx(total: Dim3, step: Dim3, tile: Dim3, nz: nat, ny: nat, nx: nat,
                     block: Dim3, transposeXY: bool,
                     streams: seq<nat>, eventsBegin: seq<nat>, eventsEnd: seq<nat>,
                     objects: seq<Coherent>)
  {
    predicate Ok()
    {
      |eventsBegin| == |streams| && |eventsEnd| == |streams|
    }
  }

  /** The device number after m rows of nx slots. */
  function PlaneEnd(nx: nat, gpu: nat, m: nat): (r: nat)
    ensures r >= gpu && (m > 0 ==> r >= gpu + nx)
    decreases m
  {
    if m == 0 then gpu else PlaneEnd(nx, gpu + nx, m - 1)
  }

  /** The device number after l planes of ny rows of nx slots. */
  function GridEnd(ny: nat, nx: nat, gpu: nat, l: nat): (r: nat)
    ensures r >= gpu && (l > 0 ==> r >= PlaneEnd(nx, gpu, ny))
    decreases l
  {
    if l == 0 then gpu else GridEnd(ny, nx, PlaneEnd(nx, gpu, ny), l - 1)
  }

  lemma {:induction false} PlaneEndIs(nx: nat, gpu: nat, m: nat)
    ensures PlaneEnd(nx, gpu, m) == gpu + m * nx
    decreases m
  {
    if m > 0 {
      PlaneEndIs(nx, gpu + nx, m - 1);
      assert (m - 1) * nx + nx == m * nx;
    }
  }

  /** Every slot gets its own device number: the enumeration counts l * ny * nx of them. */
  lemma {:induction false} GridEndIs(ny: nat, nx: nat, gpu: nat, l: nat)
    ensures GridEnd(ny, nx, gpu, l) == gpu + l * (ny * nx)
    decreases l
  {
    if l > 0 {
      PlaneEndIs(nx, gpu, ny);
      GridEndIs(ny, nx, gpu + ny * nx, l - 1);
      assert (l - 1) * (ny * nx) + ny * nx == l * (ny * nx);
    }
  }

  /**
   * The calls of one slot: nothing unless its clipped extent is positive on every axis; in
   * the set-up phase, select the device and give it the whole grid and the slot's offset; in
   * the launch phase, select the device, tell the arrays, and launch the (possibly transposed)
   * extent on the device's stream between its begin and end events.
   */
  function SlotCalls(ph: Phase, c: Ctx, gpu: nat, off: Dim3): seq<Call>
    requires c.Ok() && (ph == Launch ==> gpu < |c.streams|)
  {
    var local := Clip(off, c.step, c.tile, c.total);
    if !Launches(local) then []
    else if ph == Setup then [Call.SetDevice(gpu), SetGlobalGrid(gpu, c.total), SetOffset(gpu, off)]
    else
      [Call.SetDevice(gpu)] + SetArgsCalls(c.objects, gpu) +
      [EventRecord(c.eventsBegin[gpu], c.streams[gpu]),
       LaunchKernel(Transposed(local, c.transposeXY), c.block, c.streams[gpu]),
       EventRecord(c.eventsEnd[gpu], c.streams[gpu])]
  }

  /** The calls of n slots along x from device gpu at offset off. */
  function RowCalls(ph: Phase, c: Ctx, gpu: nat, off: Dim3, n: nat): seq<Call>
    requires c.Ok() && (ph == Launch ==> gpu + n <= |c.streams|)
    decreases n
  {
    if n == 0 then []
    else SlotCalls(ph, c, gpu, off) + RowCalls(ph, c, gpu + 1, off.(x := off.x + c.step.x), n - 1)
  }

  /** The calls of m rows along y, each starting at x offset 0. */
  function PlaneCalls(ph: Phase, c: Ctx, gpu: nat, off: Dim3, m: nat): seq<Call>
    requires c.Ok() && (ph == Launch ==> PlaneEnd(c.nx, gpu, m) <= |c.streams|)
    decreases m
  {
    if m == 0 then []
    else RowCalls(ph, c, gpu, off.(x := 0), c.nx) + PlaneCalls(ph, c, gpu + c.nx, off.(y := off.y + c.step.y), m - 1)
  }

  /** The calls of l planes along z, each starting at y offset 0. */
  function GridCalls(ph: Phase, c: Ctx, gpu: nat, off: Dim3, l: nat): seq<Call>
    requires c.Ok() && (ph == Launch ==> GridEnd(c.ny, c.nx, gpu, l) <= |c.streams|)
    decreases l
  {
    if l == 0 then []
    else
      PlaneCalls(ph, c, gpu, off.(y := 0), c.ny) +
      GridCalls(ph, c, PlaneEnd(c.nx, gpu, c.ny), off.(z := off.z + c.step.z), l - 1)
  }

  // ---------------------------------------------------------------------------------------
  // The enumeration slot by slot

  /**
   * The offset of the slot with device number s: its place (s / (ny * nx), s / nx % ny, s % nx)
   * in the z, y, x grid of slots, times the step on each axis.
   */
  function SlotOrigin(c: Ctx, s: nat): Dim3
    requires c.ny > 0 && c.nx > 0
  {
    Dim3((s / (c.ny * c.nx)) * c.step.z, (s / c.nx % c.ny) * c.step.y, (s % c.nx) * c.step.x)
  }

  /** The calls of the slots with device numbers s .. s + n - 1, in that order, each at its own offset. */
  function Enumerated(ph: Phase, c: Ctx, s: nat, n: nat): seq<Call>
    requires c.Ok() && c.ny > 0 && c.nx > 0 && (ph == Launch ==> s + n <= |c.streams|)
    decreases n
  {
    if n == 0 then [] else SlotCalls(ph, c, s, SlotOrigin(c, s)) + Enumerated(ph, c, s + 1, n - 1)
  }

  /** The calls of the slots with device numbers s, s + 1, ... at the listed offsets, in order. */
  function Listing(ph: Phase, c: Ctx, s: nat, offs: seq<Dim3>): seq<Call>
    requires c.Ok() && (ph == Launch ==> s + |offs| <= |c.streams|)
    decreases |offs|
  {
    if offs == [] then [] else SlotCalls(ph, c, s, offs[0]) + Listing(ph, c, s + 1, offs[1..])
  }

  lemma {:induction false} ListingSplit(ph: Phase, c: Ctx, s: nat, a: seq<Dim3>, b: seq<Dim3>)
    requires c.Ok() && (ph == Launch ==> s + |a| + |b| <= |c.streams|)
    ensures Listing(ph, c, s, a + b) == Listing(ph, c, s, a) + Listing(ph, c, s + |a|, b)
    decreases |a|
  {
    if a == [] {
      assert a + b == b;
    } else {
      assert (a + b)[1..] == a[1..] + b;
      ListingSplit(ph, c, s + 1, a[1..], b);
      Assoc3(SlotCalls(ph, c, s, a[0]), Listing(ph, c, s + 1, a[1..]), Listing(ph, c, s + |a|, b));
    }
  }

  /** Listing the slots at their SlotOrigin offsets is the enumeration. */
  lemma {:induction false} ListingEnumerates(ph: Phase, c: Ctx, s: nat, offs: seq<Dim3>)
    requires c.Ok() && c.ny > 0 && c.nx > 0 && (ph == Launch ==> s + |offs| <= |c.streams|)
    requires forall i :: 0 <= i < |offs| ==> offs[i] == SlotOrigin(c, s + i)
    ensures Listing(ph, c, s, offs) == Enumerated(ph, c, s, |offs|)
    decreases |offs|
  {
    if offs != [] {
      assert offs[0] == SlotOrigin(c, s + 0);
      forall i | 0 <= i < |offs[1..]|
        ensures offs[1..][i] == SlotOrigin(c, s + 1 + i)
      {
        assert offs[1..][i] == offs[i + 1];
      }
      ListingEnumerates(ph, c, s + 1, offs[1..]);
    }
  }

  /** The offsets the innermost loop gives its n slots: off, moved by one step along x each time. */
  function RowOffsets(c: Ctx, off: Dim3, n: nat): (r: seq<Dim3>)
    ensures |r| == n
    decreases n
  {
    if n == 0 then [] else [off] + RowOffsets(c, off.(x := off.x + c.step.x), n - 1)
  }

  /** The offsets the middle loop gives its m rows, each starting at x offset 0. */
  function PlaneOffsets(c: Ctx, off: Dim3, m: nat): seq<Dim3>
    decreases m
  {
    if m == 0 then [] else RowOffsets(c, off.(x := 0), c.nx) + PlaneOffsets(c, off.(y := off.y + c.step.y), m - 1)
  }

  /** The offsets the outer loop gives its l planes, each starting at y offset 0. */
  function GridOffsets(c: Ctx, off: Dim3, l: nat): seq<Dim3>
    decreases l
  {
    if l == 0 then [] else PlaneOffsets(c, off.(y := 0), c.ny) + GridOffsets(c, off.(z := off.z + c.step.z), l - 1)
  }

  lemma {:induction false} PlaneOffsetsLength(c: Ctx, g: nat, off: Dim3, m: nat)
    ensures g + |PlaneOffsets(c, off, m)| == PlaneEnd(c.nx, g, m)
    decreases m
  {
    if m > 0 {
      PlaneOffsetsLength(c, g + c.nx, off.(y := off.y + c.step.y), m - 1);
    }
  }

  lemma {:induction false} GridOffsetsLength(c: Ctx, g: nat, off: Dim3, l: nat)
    ensures g + |GridOffsets(c, off, l)| == GridEnd(c.ny, c.nx, g, l)
    decreases l
  {
    if l > 0 {
      PlaneOffsetsLength(c, g, off.(y := 0), c.ny);
      GridOffsetsLength(c, PlaneEnd(c.nx, g, c.ny), off.(z := off.z + c.step.z), l - 1);
    }
  }

  /** The innermost loop makes the calls of its slots at the row's offsets. */
  lemma {:induction false} RowListing(ph: Phase, c: Ctx, g: nat, off: Dim3, n: nat)
    requires c.Ok() && (ph == Launch ==> g + n <= |c.streams|)
    ensures RowCalls(ph, c, g, off, n) == Listing(ph, c, g, RowOffsets(c, off, n))
    decreases n
  {
    if n > 0 {
      var rest := RowOffsets(c, off.(x := off.x + c.step.x), n - 1);
      assert ([off] + rest)[1..] == rest;
      RowListing(ph, c, g + 1, off.(x := off.x + c.step.x), n - 1);
    }
  }

  /** The middle loop makes the calls of its slots at the plane's offsets. */
  lemma {:induction false} PlaneListing(ph: Phase, c: Ctx, g: nat, off: Dim3, m: nat)
    requires c.Ok() && (ph == Launch ==> PlaneEnd(c.nx, g, m) <= |c.streams|)
    ensures g + |PlaneOffsets(c, off, m)| == PlaneEnd(c.nx, g, m)
    ensures PlaneCalls(ph, c, g, off, m) == Listing(ph, c, g, PlaneOffsets(c, off, m))
    decreases m
  {
    PlaneOffsetsLength(c, g, off, m);
    if m > 0 {
      var next := off.(y := off.y + c.step.y);
      var row := RowOffsets(c, off.(x := 0), c.nx);
      var rest := PlaneOffsets(c, next, m - 1);
      assert PlaneOffsets(c, off, m) == row + rest;
      assert PlaneEnd(c.nx, g, m) == PlaneEnd(c.nx, g + c.nx, m - 1);
      assert PlaneCalls(ph, c, g, off, m) ==
        RowCalls(ph, c, g, off.(x := 0), c.nx) + PlaneCalls(ph, c, g + c.nx, next, m - 1);
      RowListing(ph, c, g, off.(x := 0), c.nx);
      PlaneListing(ph, c, g + c.nx, next, m - 1);
      ListingSplit(ph, c, g, row, rest);
    }
  }

  /** The outer loop makes the calls of its slots at the grid's offsets. */
  lemma {:induction false} GridListing(ph: Phase, c: Ctx, g: nat, off: Dim3, l: nat)
    requires c.Ok() && (ph == Launch ==> GridEnd(c.ny, c.nx, g, l) <= |c.streams|)
    ensures g + |GridOffsets(c, off, l)| == GridEnd(c.ny, c.nx, g, l)
    ensures GridCalls(ph, c, g, off, l) == Listing(ph, c, g, GridOffsets(c, off, l))
    decreases l
  {
    GridOffsetsLength(c, g, off, l);
    if l > 0 {
      var p := PlaneEnd(c.nx, g, c.ny);
      var next := off.(z := off.z + c.step.z);
      var plane := PlaneOffsets(c, off.(y := 0), c.ny);
      var rest := GridOffsets(c, next, l - 1);
      PlaneListing(ph, c, g, off.(y := 0), c.ny);
      GridListing(ph, c, p, next, l - 1);
      ListingSplit(ph, c, g, plane, rest);
    }
  }

  /** Slot k of a row sits k steps along x from the row's start. */
  lemma {:induction false} RowOffsetsAt(c: Ctx, off: Dim3, n: nat, k: nat)
    requires k < n
    ensures RowOffsets(c, off, n)[k] == off.(x := off.x + k * c.step.x)
    decreases n
  {
    if k > 0 {
      RowOffsetsAt(c, off.(x := off.x + c.step.x), n - 1, k - 1);
      assert off.x + c.step.x + (k - 1) * c.step.x == off.x + k * c.step.x;
    }
  }

  /** Slot j * nx + k of a plane sits j steps along y and k steps along x from the plane's start. */
  lemma {:induction false} PlaneOffsetsAt(c: Ctx, off: Dim3, m: nat, j: nat, k: nat, s: nat)
    requires j < m && k < c.nx && s == j * c.nx + k
    ensures |PlaneOffsets(c, off, m)| > s
    ensures PlaneOffsets(c, off, m)[s] == Dim3(off.z, off.y + j * c.step.y, k * c.step.x)
    decreases m
  {
    var row := RowOffsets(c, off.(x := 0), c.nx);
    var next := off.(y := off.y + c.step.y);
    assert PlaneOffsets(c, off, m) == row + PlaneOffsets(c, next, m - 1);
    if j == 0 {
      IndexShift(s, 0, c.nx, k);
      RowOffsetsAt(c, off.(x := 0), c.nx, k);
    } else {
      IndexShift(s, j, c.nx, k);
      PlaneOffsetsAt(c, next, m - 1, j - 1, k, s - c.nx);
      StepShift(off.y, c.step.y, j);
    }
  }

  lemma {:induction false} PlaneOffsetsSize(c: Ctx, off: Dim3, m: nat)
    ensures |PlaneOffsets(c, off, m)| == m * c.nx
    decreases m
  {
    if m > 0 {
      PlaneOffsetsSize(c, off.(y := off.y + c.step.y), m - 1);
      StepShift(0, c.nx, m);
    }
  }

  /** Slot i * (ny * nx) + t of the grid sits i steps along z from slot t of a plane. */
  lemma {:induction false} GridOffsetsAt(c: Ctx, off: Dim3, l: nat, i: nat, j: nat, k: nat, t: nat, s: nat)
    requires i < l && j < c.ny && k < c.nx && t == j * c.nx + k && s == i * (c.ny * c.nx) + t
    ensures |GridOffsets(c, off, l)| > s
    ensures GridOffsets(c, off, l)[s] == Dim3(off.z + i * c.step.z, j * c.step.y, k * c.step.x)
    decreases l
  {
    var plane := PlaneOffsets(c, off.(y := 0), c.ny);
    var next := off.(z := off.z + c.step.z);
    assert GridOffsets(c, off, l) == plane + GridOffsets(c, next, l - 1);
    PlaneOffsetsSize(c, off.(y := 0), c.ny);
    PlaneOffsetsAt(c, off.(y := 0), c.ny, j, k, t);
    if i == 0 {
      IndexShift(s, 0, c.ny * c.nx, t);
    } else {
      IndexShift(s, i, c.ny * c.nx, t);
      GridOffsetsAt(c, next, l - 1, i - 1, j, k, t, s - |plane|);
      StepShift(off.z, c.step.z, i);
    }
  }

  /** Moving one step, then i - 1 more, is moving i steps. */
  lemma StepShift(a: int, d: int, i: int)
    ensures a + d + (i - 1) * d == a + i * d
  {
  }

  /** Index i * p + t, less one block of p, is index (i - 1) * p + t. */
  lemma IndexShift(s: int, i: int, p: int, t: int)
    requires s == i * p + t
    ensures s - p == (i - 1) * p + t && (i == 0 ==> s == t)
  {
  }

  /** Every device number below nz * ny * nx is slot (i * ny + j) * nx + k for one slot (i, j, k). */
  lemma SlotDecompose(s: nat, nz: nat, ny: nat, nx: nat) returns (i: nat, j: nat, k: nat)
    requires ny > 0 && nx > 0 && s < nz * (ny * nx)
    ensures i < nz && j < ny && k < nx
    ensures s == (i * ny + j) * nx + k == i * (ny * nx) + (j * nx + k)
  {
    var q;
    q, k := Split(s, nx);
    i, j := Split(q, ny);
    Recompose(s, q, i, j, k, ny, nx);
    PlaneBelow(s, i, j * nx + k, nz, ny * nx);
  }

  /** Quotient and remainder of n over d. */
  lemma Split(n: nat, d: nat) returns (q: nat, r: nat)
    requires d > 0
    ensures n == q * d + r && r < d
  {
    q, r := n / d, n % d;
  }

  lemma Recompose(s: int, q: int, i: int, j: int, k: int, ny: int, nx: int)
    requires s == q * nx + k && q == i * ny + j
    ensures s == (i * ny + j) * nx + k == i * (ny * nx) + (j * nx + k)
  {
    assert (i * ny + j) * nx == i * (ny * nx) + j * nx;
  }

  lemma PlaneBelow(s: int, i: int, t: int, nz: int, p: int)
    requires t >= 0 && p > 0 && s == i * p + t && s < nz * p
    ensures i < nz
  {
    if i >= nz {
      MulMono(nz, i, p);
      assert false;
    }
  }

  /**
   * The three nested slot loops, from device 0 at offset 0, make exactly the calls of slots
   * 0 .. nz * ny * nx - 1 in increasing order, slot s on device s at offset SlotOrigin(c, s).
   */
  lemma SlotLoopsEnumerate(ph: Phase, c: Ctx)
    requires c.Ok() && c.ny > 0 && c.nx > 0
    requires ph == Launch ==> GridEnd(c.ny, c.nx, 0, c.nz) <= |c.streams|
    ensures GridEnd(c.ny, c.nx, 0, c.nz) == c.nz * (c.ny * c.nx)
    ensures GridCalls(ph, c, 0, Origin, c.nz) == Enumerated(ph, c, 0, c.nz * (c.ny * c.nx))
  {
    GridEndIs(c.ny, c.nx, 0, c.nz);
    GridListing(ph, c, 0, Origin, c.nz);
    GridOffsetsOrigins(c);
    ListingEnumerates(ph, c, 0, GridOffsets(c, Origin, c.nz));
  }

  /** The offsets the three loops list are the SlotOrigin offsets of slots 0 .. nz * ny * nx - 1. */
  lemma GridOffsetsOrigins(c: Ctx)
    requires c.ny > 0 && c.nx > 0
    ensures |GridOffsets(c, Origin, c.nz)| == c.nz * (c.ny * c.nx)
    ensures forall s :: 0 <= s < |GridOffsets(c, Origin, c.nz)| ==> GridOffsets(c, Origin, c.nz)[s] == SlotOrigin(c, 0 + s)
  {
    var offs := GridOffsets(c, Origin, c.nz);
    GridOffsetsLength(c, 0, Origin, c.nz);
    GridEndIs(c.ny, c.nx, 0, c.nz);
    forall s | 0 <= s < |offs|
      ensures offs[s] == SlotOrigin(c, 0 + s)
    {
      var i, j, k := SlotDecompose(s, c.nz, c.ny, c.nx);
      GridOffsetsAt(c, Origin, c.nz, i, j, k, j * c.nx + k, s);
      SlotPlace(i, j, k, c.ny, c.nx);
    }
  }

  /** Slot (i, j, k) of the z, y, x grid of slots has device number (i * ny + j) * nx + k. */
  lemma SlotPlace(i: nat, j: nat, k: nat, ny: nat, nx: nat)
    requires j < ny && k < nx
    ensures var s := (i * ny + j) * nx + k;
      s % nx == k && s / nx % ny == j && s / (ny * nx) == i
  {
    var s := (i * ny + j) * nx + k;
    DivModUnique(s, nx, i * ny + j, k);
    DivModUnique(i * ny + j, ny, i, j);
    assert j * nx <= (ny - 1) * nx by { MulMono(j, ny - 1, nx); }
    assert s == i * (ny * nx) + (j * nx + k);
    DivModUnique(s, ny * nx, i, j * nx + k);
  }

  /**
   * With a single axis a split g ways and every other axis a single slot with step 0, slot k
   * starts at SlotOffset and launches SlotExtent along a, and the whole tile on the others.
   */
  lemma SingleSplitSlot(c: Ctx, a: nat, g: nat, k: nat)
    requires c.Ok() && a < 3 && 0 < g && k < g
    requires Get(Dim3(c.nz, c.ny, c.nx), a) == g
    requires forall b :: 0 <= b < 3 && b != a ==> Get(Dim3(c.nz, c.ny, c.nx), b) == 1 && Get(c.step, b) == 0
    requires c.total.z >= 0 && c.total.y >= 0 && c.total.x >= 0
    requires Get(c.tile, a) == DivCeil(Get(c.total, a), g)
    requires Get(c.step, a) == (if g > 1 then Get(c.tile, a) else 0)
    ensures c.ny > 0 && c.nx > 0
    ensures Get(SlotOrigin(c, k), a) == SlotOffset(Get(c.total, a), g, k)
    ensures Get(Clip(SlotOrigin(c, k), c.step, c.tile, c.total), a) == SlotExtent(Get(c.total, a), g, k)
    ensures forall b :: 0 <= b < 3 && b != a ==>
      Get(SlotOrigin(c, k), b) == 0 && Get(Clip(SlotOrigin(c, k), c.step, c.tile, c.total), b) == Get(c.tile, b)
  {
    assert Get(c.step, 0) == c.step.z && Get(c.step, 1) == c.step.y && Get(c.step, 2) == c.step.x;
    var o := SlotOrigin(c, k);
    if a == 0 {
      assert c.ny == 1 && c.nx == 1;
      assert o.z == k * c.step.z;
    } else if a == 1 {
      assert c.nz == 1 && c.nx == 1;
      assert k / c.nx == k;
      DivModUnique(k, c.ny, 0, k);
      assert o.y == k * c.step.y;
    } else {
      assert c.nz == 1 && c.ny == 1;
      DivModUnique(k, c.nx, 0, k);
      assert o.x == k * c.step.x;
    }
    assert Get(o, 0) == o.z && Get(o, 1) == o.y && Get(o, 2) == o.x;
    ClipSingleSplit(c.total, c.tile, c.step, o, a, g, k);
  }

  /**
   * With a single split axis, the extents the slots launch along it tile [0, total): position
   * p lies in the launch of slot k exactly when k is p over the tile.
   */
  lemma SingleSplitCovers(c: Ctx, a: nat, g: nat, p: nat, k: nat)
    requires c.Ok() && a < 3 && 0 < g && k < g
    requires Get(Dim3(c.nz, c.ny, c.nx), a) == g
    requires forall b :: 0 <= b < 3 && b != a ==> Get(Dim3(c.nz, c.ny, c.nx), b) == 1 && Get(c.step, b) == 0
    requires c.total.z >= 0 && c.total.y >= 0 && c.total.x >= 0
    requires Get(c.tile, a) == DivCeil(Get(c.total, a), g)
    requires Get(c.step, a) == (if g > 1 then Get(c.tile, a) else 0)
    requires p < Get(c.total, a)
    ensures c.ny > 0 && c.nx > 0 && p / Get(c.tile, a) < g
    ensures var o := Get(SlotOrigin(c, k), a);
      o <= p < o + Get(Clip(SlotOrigin(c, k), c.step, c.tile, c.total), a) <==> k == p / Get(c.tile, a)
  {
    SingleSplitSlot(c, a, g, k);
    SplitCovers(Get(c.total, a), g, p, k);
  }

  // ---------------------------------------------------------------------------------------
  // Shape of the call sequences

  ghost predicate NoLaunch(t: seq<Call>)
  {
    forall k :: 0 <= k < |t| ==> !t[k].LaunchKernel?
  }

  ghost predicate NoRelease(t: seq<Call>)
  {
    forall k :: 0 <= k < |t| ==> !t[k].Release?
  }

  /**
   * The launch at index k has a positive extent and the launcher's block, and runs on the
   * stream of some device g < n, right after recording g's begin event and right before
   * recording g's end event on that stream.
   */
  ghost predicate LaunchAt(t: seq<Call>, c: Ctx, n: nat, k: nat)
    requires c.Ok() && k < |t|
  {
    t[k].LaunchKernel? && 0 < k < |t| - 1 && Launches(t[k].grid) && t[k].block == c.block &&
    exists g :: 0 <= g < n && g < |c.streams| && t[k].stream == c.streams[g] &&
      t[k - 1] == EventRecord(c.eventsBegin[g], c.streams[g]) &&
      t[k + 1] == EventRecord(c.eventsEnd[g], c.streams[g])
  }

  ghost predicate WellLaunched(t: seq<Call>, c: Ctx, n: nat)
    requires c.Ok()
  {
    forall k :: 0 <= k < |t| && t[k].LaunchKernel? ==> LaunchAt(t, c, n, k)
  }

  /** What the calls of a phase look like: no releases, and no launches or only well-formed ones. */
  ghost predicate PhaseShape(ph: Phase, t: seq<Call>, c: Ctx, n: nat)
    requires c.Ok()
  {
    NoRelease(t) && (if ph == Setup then NoLaunch(t) else WellLaunched(t, c, n))
  }

  lemma ShapeConcat(ph: Phase, a: seq<Call>, b: seq<Call>, c: Ctx, n: nat)
    requires c.Ok() && PhaseShape(ph, a, c, n) && PhaseShape(ph, b, c, n)
    ensures PhaseShape(ph, a + b, c, n)
  {
    var t := a + b;
    forall k | 0 <= k < |t|
      ensures !t[k].Release?
      ensures ph == Setup ==> !t[k].LaunchKernel?
      ensures ph == Launch && t[k].LaunchKernel? ==> LaunchAt(t, c, n, k)
    {
      if k < |a| {
        assert t[k] == a[k];
        if ph == Launch && a[k].LaunchKernel? {
          assert LaunchAt(a, c, n, k);
          assert t[k - 1] == a[k - 1] && t[k + 1] == a[k + 1];
        }
      } else {
        var j := k - |a|;
        assert t[k] == b[j];
        if ph == Launch && b[j].LaunchKernel? {
          assert LaunchAt(b, c, n, j);
          assert t[k - 1] == b[j - 1] && t[k + 1] == b[j + 1];
        }
      }
    }
  }

  lemma SeqAssoc4<T>(a: seq<T>, b: seq<T>, c: seq<T>, d: seq<T>, e: seq<T>)
    ensures a + b + c + d + e == a + (b + c + d + e)
  {
  }

  /** Calls with no launch in front of well-formed launches keep them well-formed. */
  lemma LaunchesAfter(pre: seq<Call>, t: seq<Call>, c: Ctx, n: nat)
    requires c.Ok() && NoLaunch(pre) && WellLaunched(t, c, n)
    ensures WellLaunched(pre + t, c, n)
  {
    var s := pre + t;
    forall k | 0 <= k < |s| && s[k].LaunchKernel?
      ensures LaunchAt(s, c, n, k)
    {
      var j := k - |pre|;
      assert s[k] == t[j];
      assert LaunchAt(t, c, n, j);
      assert s[k - 1] == t[j - 1] && s[k + 1] == t[j + 1];
    }
  }

  lemma SlotShape(ph: Phase, c: Ctx, gpu: nat, off: Dim3, n: nat)
    requires c.Ok() && (ph == Launch ==> gpu < |c.streams|) && gpu < n
    ensures PhaseShape(ph, SlotCalls(ph, c, gpu, off), c, n)
  {
    var local := Clip(off, c.step, c.tile, c.total);
    if Launches(local) && ph == Launch {
      var pre := [Call.SetDevice(gpu)] + SetArgsCalls(c.objects, gpu);
      var tail := [EventRecord(c.eventsBegin[gpu], c.streams[gpu]),
                   LaunchKernel(Transposed(local, c.transposeXY), c.block, c.streams[gpu]),
                   EventRecord(c.eventsEnd[gpu], c.streams[gpu])];
      assert forall k :: 0 <= k < |pre| ==> pre[k].SetDevice? || pre[k].SetCurrentGpu?;
      assert PhaseShape(ph, pre, c, n);
      assert LaunchAt(tail, c, n, 1);
      assert PhaseShape(ph, tail, c, n);
      ShapeConcat(ph, pre, tail, c, n);
    }
  }

  lemma {:induction false} ListingShape(ph: Phase, c: Ctx, s: nat, offs: seq<Dim3>, n: nat)
    requires c.Ok() && (ph == Launch ==> s + |offs| <= |c.streams|) && s + |offs| <= n
    ensures PhaseShape(ph, Listing(ph, c, s, offs), c, n)
    decreases |offs|
  {
    if offs != [] {
      var slot := SlotCalls(ph, c, s, offs[0]);
      var rest := Listing(ph, c, s + 1, offs[1..]);
      SlotShape(ph, c, s, offs[0], n);
      ListingShape(ph, c, s + 1, offs[1..], n);
      ShapeConcat(ph, slot, rest, c, n);
    }
  }

  lemma GridShape(ph: Phase, c: Ctx, gpu: nat, off: Dim3, l: nat, n: nat)
    requires c.Ok() && (ph == Launch ==> GridEnd(c.ny, c.nx, gpu, l) <= |c.streams|) && GridEnd(c.ny, c.nx, gpu, l) <= n
    ensures PhaseShape(ph, GridCalls(ph, c, gpu, off, l), c, n)
  {
    GridListing(ph, c, gpu, off, l);
    ListingShape(ph, c, gpu, GridOffsets(c, off, l), n);
  }

  // ---------------------------------------------------------------------------------------
  // The launcher

  const Origin := Dim3(0, 0, 0)

  /** A launcher for one kernel: its CUDA configuration, device count and device grid. */
  class Launcher {
    const total: Dim3
    const block: Dim3
    const transposeXY: bool
    const gpus: nat
    const gpuGrid: seq<int>
    const pool: StreamPool
    const driver: Driver
    const manager: ArgumentManager
    var coherentParams: seq<Coherent>
    var activeGPUs: seq<nat>

    /** The launch geometry is usable: one to three positive device-grid entries and a non-negative grid. */
    predicate Shaped()
    {
      1 <= |gpuGrid| <= 3 && (forall i :: 0 <= i < |gpuGrid| ==> gpuGrid[i] > 0) &&
      total.z >= 0 && total.y >= 0 && total.x >= 0
    }

    ghost predicate Valid()
      reads pool
    {
      Shaped() && pool.Valid()
    }

    /** The number of device slots the two slot loops enumerate. */
    function Slots(): nat
      requires Shaped()
    {
      GridEnd(Factor(gpuGrid, 1), Factor(gpuGrid, 2), 0, Factor(gpuGrid, 0))
    }

    /** There is one slot per device of the device grid. */
    lemma SlotsAreDevices()
      requires Shaped()
      ensures Slots() == SlotCount(gpuGrid) == Prod(gpuGrid)
    {
      var n := SlotGrid(gpuGrid);
      GridEndIs(n.y, n.x, 0, n.z);
      assert n.z * (n.y * n.x) == n.z * n.y * n.x;
      SlotCountIsGridProduct(gpuGrid);
    }

    /**
     * launcher_common's constructor. `factors` stands for get_factors(procs): positive
     * numbers whose product is procs. `info` says which computation axes are partitioned.
     */
    constructor (total: Dim3, block: Dim3, procs: nat, peers: nat, info: seq<bool>, factors: seq<nat>,
                 transposeXY: bool, pool: StreamPool, driver: Driver, manager: ArgumentManager)
      requires 1 <= |info| <= 3 && total.z >= 0 && total.y >= 0 && total.x >= 0
      requires (forall k :: 0 <= k < |factors| ==> factors[k] > 0) && (procs > 0 ==> Prod(factors) == procs)
      requires pool.Valid()
      modifies pool, driver
      ensures Valid()
      ensures this.total == total && this.block == block && this.transposeXY == transposeXY
      ensures this.pool == pool && this.driver == driver && this.manager == manager
      ensures gpus == GpuCount(procs, peers)
      ensures gpuGrid == DeviceGrid(info, SortDesc(LaunchFactors(factors, procs)))
      ensures procs > 0 && 0 < CountTrue(info) <= |LaunchFactors(factors, procs)| ==> Prod(gpuGrid) == procs
      ensures CountTrue(info) > |LaunchFactors(factors, procs)| ==> forall i :: 0 <= i < |gpuGrid| ==> gpuGrid[i] == 1
      ensures coherentParams == [] && activeGPUs == []
      ensures |pool.streams| == Max(old(|pool.streams|), gpus) && pool.streams[..old(|pool.streams|)] == old(pool.streams)
      ensures driver.calls == old(driver.calls) + InitCalls(old(|pool.streams|), gpus, old(driver.handles))
    {
      this.total := total;
      this.block := block;
      this.transposeXY := transposeXY;
      this.pool := pool;
      this.driver := driver;
      this.manager := manager;
      gpus := GpuCount(procs, peers);
      var fs := SortDesc(LaunchFactors(factors, procs));
      var grid := BuildGrid(info, fs);
      gpuGrid := grid;
      coherentParams := [];
      activeGPUs := [];
      new;
      pool.InitStreams(gpus, driver);
      FactorsPositive(factors, procs, fs);
      GridPositive(info, fs);
      GridProduct(info, fs);
      ProdPermutation(fs, LaunchFactors(factors, procs));
    }

    /** The slot context of a launch with the given arrays. */
    function Context(objects: seq<Coherent>): (c: Ctx)
      reads pool
      requires Valid()
      ensures c.Ok() && c.streams == pool.streams && c.eventsEnd == pool.eventsEnd && c.block == block
      ensures GridEnd(c.ny, c.nx, 0, c.nz) == Slots()
    {
      var tiles := ComputeTiles(total, gpuGrid);
      var c := Ctx(total, tiles.0, tiles.1, Factor(gpuGrid, 0), Factor(gpuGrid, 1), Factor(gpuGrid, 2),
                   block, transposeXY, pool.streams, pool.eventsBegin, pool.eventsEnd, objects);
      c
    }

    /** Every call execute makes, in order. */
    ghost function ExecuteCalls(ps: seq<Param>): seq<Call>
      reads pool
      requires Valid() && Slots() <= |pool.streams|
    {
      var c := Context(CoherentOf(ps));
      SyncDeviceCalls(gpus) + GridCalls(Setup, c, 0, Origin, c.nz) +
      ReleaseCalls(CoherentOf(ps), Range(0, Slots())) + GridCalls(Launch, c, 0, Origin, c.nz)
    }

    /** Every call the launcher's call operator makes, in order: execute, then wait. */
    ghost function InvokeCalls(ps: seq<Param>): seq<Call>
      reads pool
      requires Valid() && Slots() <= |pool.streams|
    {
      ExecuteCalls(ps) + WaitCalls(Range(0, Slots()), pool.eventsEnd, CoherentOf(ps))
    }

    method SyncDevices()
      modifies driver
      ensures driver.calls == old(driver.calls) + SyncDeviceCalls(gpus)
      ensures driver.mallocs == old(driver.mallocs) && driver.mem == old(driver.mem)
    {
      for i := 0 to gpus
        invariant driver.calls == old(driver.calls) + SyncDeviceCalls(i)
        invariant driver.mallocs == old(driver.mallocs) && driver.mem == old(driver.mem)
      {
        driver.SetDevice(i);
        driver.DeviceSynchronize();
      }
    }

    /** One slot of either loop; the set-up loop lists every slot's device as active. */
    method RunSlot(ph: Phase, c: Ctx, gpu: nat, off: Dim3)
      requires c.Ok() && (ph == Launch ==> gpu < |c.streams|)
      modifies this, driver
      ensures driver.calls == old(driver.calls) + SlotCalls(ph, c, gpu, off)
      ensures activeGPUs == old(activeGPUs) + Listed(ph, gpu, gpu + 1)
      ensures coherentParams == old(coherentParams)
    {
      var local := Clip(off, c.step, c.tile, c.total);
      if Launches(local) {
        driver.SetDevice(gpu);
        if ph == Setup {
          driver.Issue(SetGlobalGrid(gpu, c.total));
          driver.Issue(SetOffset(gpu, off));
        } else {
          local := Transposed(local, c.transposeXY);
          SetArgs(driver, c.objects, gpu);
          driver.Issue(EventRecord(c.eventsBegin[gpu], c.streams[gpu]));
          driver.Issue(LaunchKernel(local, c.block, c.streams[gpu]));
          driver.Issue(EventRecord(c.eventsEnd[gpu], c.streams[gpu]));
        }
      }
      if ph == Setup {
        activeGPUs := activeGPUs + [gpu];
        assert Range(gpu, gpu + 1) == [gpu];
      }
    }

    /** The innermost loop: nx slots along x. */
    method RunRow(ph: Phase, c: Ctx, gpu0: nat, off0: Dim3) returns (gpu: nat)
      requires c.Ok() && (ph == Launch ==> gpu0 + c.nx <= |c.streams|)
      modifies this, driver
      ensures gpu == gpu0 + c.nx
      ensures driver.calls == old(driver.calls) + RowCalls(ph, c, gpu0, off0, c.nx)
      ensures activeGPUs == old(activeGPUs) + Listed(ph, gpu0, gpu)
      ensures coherentParams == old(coherentParams)
    {
      gpu := gpu0;
      var off := off0;
      for k := 0 to c.nx
        invariant gpu == gpu0 + k
        invariant driver.calls + RowCalls(ph, c, gpu, off, c.nx - k) ==
          old(driver.calls) + RowCalls(ph, c, gpu0, off0, c.nx)
        invariant activeGPUs == old(activeGPUs) + Listed(ph, gpu0, gpu)
        invariant coherentParams == old(coherentParams)
      {
        ghost var before := driver.calls;
        ghost var rest := RowCalls(ph, c, gpu + 1, off.(x := off.x + c.step.x), c.nx - k - 1);
        RunSlot(ph, c, gpu, off);
        Assoc3(before, SlotCalls(ph, c, gpu, off), rest);
        ListedAppend(ph, old(activeGPUs), gpu0, gpu, gpu + 1);
        off := off.(x := off.x + c.step.x);
        gpu := gpu + 1;
      }
    }

    /** The middle loop: ny rows along y. */
    method RunPlane(ph: Phase, c: Ctx, gpu0: nat, off0: Dim3) returns (gpu: nat)
      requires c.Ok() && (ph == Launch ==> PlaneEnd(c.nx, gpu0, c.ny) <= |c.streams|)
      modifies this, driver
      ensures gpu == PlaneEnd(c.nx, gpu0, c.ny)
      ensures driver.calls == old(driver.calls) + PlaneCalls(ph, c, gpu0, off0, c.ny)
      ensures activeGPUs == old(activeGPUs) + Listed(ph, gpu0, gpu)
      ensures coherentParams == old(coherentParams)
    {
      gpu := gpu0;
      var off := off0;
      for j := 0 to c.ny
        invariant gpu0 <= gpu && PlaneEnd(c.nx, gpu, c.ny - j) == PlaneEnd(c.nx, gpu0, c.ny)
        invariant driver.calls + PlaneCalls(ph, c, gpu, off, c.ny - j) ==
          old(driver.calls) + PlaneCalls(ph, c, gpu0, off0, c.ny)
        invariant activeGPUs == old(activeGPUs) + Listed(ph, gpu0, gpu)
        invariant coherentParams == old(coherentParams)
      {
        ghost var before := driver.calls;
        ghost var rest := PlaneCalls(ph, c, gpu + c.nx, off.(y := off.y + c.step.y), c.ny - j - 1);
        var g := gpu;
        gpu := RunRow(ph, c, gpu, off.(x := 0));
        Assoc3(before, RowCalls(ph, c, g, off.(x := 0), c.nx), rest);
        ListedAppend(ph, old(activeGPUs), gpu0, g, gpu);
        off := off.(y := off.y + c.step.y);
      }
    }

    /** The outer loop: nz planes along z, from device 0 at offset 0. */
    method RunGrid(ph: Phase, c: Ctx) returns (gpu: nat)
      requires c.Ok() && (ph == Launch ==> GridEnd(c.ny, c.nx, 0, c.nz) <= |c.streams|)
      modifies this, driver
      ensures gpu == GridEnd(c.ny, c.nx, 0, c.nz)
      ensures driver.calls == old(driver.calls) + GridCalls(ph, c, 0, Origin, c.nz)
      ensures activeGPUs == old(activeGPUs) + Listed(ph, 0, gpu)
      ensures coherentParams == old(coherentParams)
    {
      gpu := 0;
      var off := Origin;
      for i := 0 to c.nz
        invariant GridEnd(c.ny, c.nx, gpu, c.nz - i) == GridEnd(c.ny, c.nx, 0, c.nz)
        invariant driver.calls + GridCalls(ph, c, gpu, off, c.nz - i) ==
          old(driver.calls) + GridCalls(ph, c, 0, Origin, c.nz)
        invariant activeGPUs == old(activeGPUs) + Listed(ph, 0, gpu)
        invariant coherentParams == old(coherentParams)
      {
        ghost var before := driver.calls;
        ghost var rest := GridCalls(ph, c, PlaneEnd(c.nx, gpu, c.ny), off.(z := off.z + c.step.z), c.nz - i - 1);
        var g := gpu;
        gpu := RunPlane(ph, c, gpu, off.(y := 0));
        Assoc3(before, PlaneCalls(ph, c, g, off.(y := 0), c.ny), rest);
        ListedAppend(ph, old(activeGPUs), 0, g, gpu);
        off := off.(z := off.z + c.step.z);
      }
    }

    /**
     * execute: record the arrays among the arguments, synchronize every device, set up every
     * slot with a non-empty extent (listing every slot's device as active), release the arrays
     * to the active devices, then launch every non-empty slot.
     */
    method Execute(ps: seq<Param>) returns (ok: bool)
      requires Valid() && Slots() <= |pool.streams|
      modifies this, driver, manager
      ensures ok
      ensures coherentParams == CoherentOf(ps) && manager.coherentParams == CoherentOf(ps)
      ensures activeGPUs == Range(0, Slots())
      ensures driver.calls == old(driver.calls) + ExecuteCalls(ps)
    {
      manager.ParseArgs(ps);
      coherentParams := manager.coherentParams;
      activeGPUs := [];
      ghost var calls0 := driver.calls;
      assert calls0 == old(driver.calls);
      SyncDevices();
      var c := Context(coherentParams);
      var n := RunGrid(Setup, c);
      ghost var setup := GridCalls(Setup, c, 0, Origin, c.nz);
      ghost var calls1 := driver.calls;
      assert calls1 == calls0 + SyncDeviceCalls(gpus) + setup;
      assert n == Slots();
      assert activeGPUs == [] + Range(0, Slots()) == Range(0, Slots());
      assert coherentParams == CoherentOf(ps);
      ReleaseArgs(driver, coherentParams, activeGPUs);
      ghost var calls2 := driver.calls;
      assert calls2 == calls1 + ReleaseCalls(CoherentOf(ps), Range(0, Slots()));
      n := RunGrid(Launch, c);
      assert driver.calls == calls2 + GridCalls(Launch, c, 0, Origin, c.nz);
      ghost var e := SyncDeviceCalls(gpus) + setup + ReleaseCalls(CoherentOf(ps), Range(0, Slots())) +
        GridCalls(Launch, c, 0, Origin, c.nz);
      assert ExecuteCalls(ps) == e;
      SeqAssoc4(calls0, SyncDeviceCalls(gpus), setup, ReleaseCalls(CoherentOf(ps), Range(0, Slots())),
        GridCalls(Launch, c, 0, Origin, c.nz));
      ok := true;
    }

    /** The call operator: execute, then wait for the active devices and acquire the arrays. */
    method Invoke(ps: seq<Param>) returns (ok: bool)
      requires Valid() && Slots() <= |pool.streams|
      modifies this, driver, manager
      ensures ok
      ensures coherentParams == CoherentOf(ps) && activeGPUs == Range(0, Slots())
      ensures driver.calls == old(driver.calls) + InvokeCalls(ps)
    {
      ok := Execute(ps);
      ghost var calls1 := driver.calls;
      if ok {
        var active := activeGPUs;
        var params := coherentParams;
        ok := Wait(driver, pool, active, params);
      }
      assert driver.calls == calls1 + WaitCalls(Range(0, Slots()), pool.eventsEnd, CoherentOf(ps));
      Assoc3(old(driver.calls), ExecuteCalls(ps), WaitCalls(Range(0, Slots()), pool.eventsEnd, CoherentOf(ps)));
    }

    /**
     * In execute's calls every release comes before every launch, and every launch runs a
     * positive extent with the launcher's block on the stream of an active device, between
     * that device's begin and end events.
     */
    lemma ExecuteOrder(ps: seq<Param>)
      requires Valid() && Slots() <= |pool.streams|
      ensures var t := ExecuteCalls(ps);
        forall a, b :: 0 <= a < b < |t| && t[a].LaunchKernel? ==> !t[b].Release?
      ensures WellLaunched(ExecuteCalls(ps), Context(CoherentOf(ps)), Slots())
    {
      var c := Context(CoherentOf(ps));
      var n := Slots();
      var setup := GridCalls(Setup, c, 0, Origin, c.nz);
      var launch := GridCalls(Launch, c, 0, Origin, c.nz);
      var pre := SyncDeviceCalls(gpus) + setup + ReleaseCalls(CoherentOf(ps), Range(0, n));
      GridShape(Setup, c, 0, Origin, c.nz, n);
      GridShape(Launch, c, 0, Origin, c.nz, n);
      assert NoLaunch(pre);
      LaunchesAfter(pre, launch, c, n);
      assert ExecuteCalls(ps) == pre + launch;
    }

    /**
     * In the call operator's calls, the end event recorded after every launch is waited for
     * later, and every array is acquired only after every launch.
     */
    lemma EveryLaunchAwaited(ps: seq<Param>)
      requires Valid() && Slots() <= |pool.streams|
      ensures Awaited(InvokeCalls(ps)) && AcquiredLast(InvokeCalls(ps))
    {
      var c := Context(CoherentOf(ps));
      ExecuteOrder(ps);
      ExecuteAcquiresNothing(ps);
      AwaitAfter(ExecuteCalls(ps), c, Slots(), CoherentOf(ps));
    }

    /** execute never acquires an array. */
    lemma ExecuteAcquiresNothing(ps: seq<Param>)
      requires Valid() && Slots() <= |pool.streams|
      ensures NoAcquire(ExecuteCalls(ps))
    {
      var c := Context(CoherentOf(ps));
      NoAcquireGrid(Setup, c, 0, Origin, c.nz);
      NoAcquireGrid(Launch, c, 0, Origin, c.nz);
    }

    /**
     * execute's calls slot by slot: after synchronizing, the set-up calls of slots 0 .. Slots() - 1
     * in increasing order, slot s on device s at offset SlotOrigin(c, s); then the releases; then
     * the launches of the same slots in the same order.
     */
    lemma ExecuteEnumerates(ps: seq<Param>)
      requires Valid() && Slots() <= |pool.streams|
      ensures var c := Context(CoherentOf(ps));
        c.ny > 0 && c.nx > 0 &&
        ExecuteCalls(ps) == SyncDeviceCalls(gpus) + Enumerated(Setup, c, 0, Slots()) +
          ReleaseCalls(CoherentOf(ps), Range(0, Slots())) + Enumerated(Launch, c, 0, Slots())
    {
      var c := Context(CoherentOf(ps));
      SlotLoopsEnumerate(Setup, c);
      SlotLoopsEnumerate(Launch, c);
    }

    /**
     * When only CUDA axis a of the device grid is split, the extents execute launches along a
     * tile [0, total): position p lies in the launch of slot k exactly when k is p over the tile.
     */
    lemma ExecuteCoversSplitAxis(ps: seq<Param>, a: nat, p: nat, k: nat)
      requires Valid() && a < 3 && a + |gpuGrid| >= 3
      requires forall b :: 0 <= b < 3 && b != a ==> Factor(gpuGrid, b) == 1
      requires k < Factor(gpuGrid, a) && p < Get(total, a)
      ensures var c := Context(CoherentOf(ps));
        c.ny > 0 && c.nx > 0 && Get(c.tile, a) > 0 && p / Get(c.tile, a) < Factor(gpuGrid, a) &&
        var o := Get(SlotOrigin(c, k), a);
        (o <= p < o + Get(Clip(SlotOrigin(c, k), c.step, c.tile, c.total), a) <==> k == p / Get(c.tile, a))
    {
      var c := Context(CoherentOf(ps));
      var g := Factor(gpuGrid, a);
      var n := Dim3(c.nz, c.ny, c.nx);
      assert forall b :: 0 <= b < 3 ==> Get(n, b) == Factor(gpuGrid, b);
      CeilUnique(Get(total, a), g, Get(c.tile, a));
      SingleSplitCovers(c, a, g, p, k);
    }
  }

  /** The end event recorded after every launch is waited for later. */
  ghost predicate Awaited(t: seq<Call>)
  {
    forall k :: 0 <= k < |t| && t[k].LaunchKernel? ==>
      k + 1 < |t| && t[k + 1].EventRecord? &&
      exists m :: k + 1 < m < |t| && t[m] == EventSynchronize(t[k + 1].event)
  }

  /** No launch comes after an acquire. */
  ghost predicate AcquiredLast(t: seq<Call>)
  {
    forall a, b :: 0 <= a < b < |t| && t[a].Acquire? ==> !t[b].LaunchKernel?
  }

  /** Waiting for devices 0..n-1 after well-formed launches on them awaits every launch. */
  lemma AwaitAfter(e: seq<Call>, c: Ctx, n: nat, objects: seq<Coherent>)
    requires c.Ok() && n <= |c.streams| && WellLaunched(e, c, n) && NoAcquire(e)
    ensures Awaited(e + WaitCalls(Range(0, n), c.eventsEnd, objects))
    ensures AcquiredLast(e + WaitCalls(Range(0, n), c.eventsEnd, objects))
  {
    var syncs := EventSyncCalls(Range(0, n), c.eventsEnd);
    var acquires := AcquireCalls(objects);
    var w := syncs + acquires;
    assert forall j :: 0 <= j < |w| ==> w[j].EventSynchronize? || w[j].Acquire? by {
      forall j | 0 <= j < |w|
        ensures w[j].EventSynchronize? || w[j].Acquire?
      {
        if j < |syncs| {
          assert w[j] == syncs[j];
        } else {
          assert w[j] == acquires[j - |syncs|];
        }
      }
    }
    forall g | 0 <= g < n
      ensures w[g] == EventSynchronize(c.eventsEnd[g])
    {
      assert w[g] == syncs[g];
    }
    LaunchesAwaited(e, w, c, n);
    AcquiresLast(e, syncs, acquires);
  }

  lemma LaunchesAwaited(e: seq<Call>, w: seq<Call>, c: Ctx, n: nat)
    requires c.Ok() && n <= |c.streams| && WellLaunched(e, c, n) && n <= |w|
    requires forall j :: 0 <= j < |w| ==> !w[j].LaunchKernel?
    requires forall g :: 0 <= g < n ==> w[g] == EventSynchronize(c.eventsEnd[g])
    ensures Awaited(e + w)
  {
    var t := e + w;
    forall k | 0 <= k < |t| && t[k].LaunchKernel?
      ensures k + 1 < |t| && t[k + 1].EventRecord? &&
        exists m :: k + 1 < m < |t| && t[m] == EventSynchronize(t[k + 1].event)
    {
      if k >= |e| {
        assert false;
      }
      assert t[k] == e[k];
      assert LaunchAt(e, c, n, k);
      var g :| 0 <= g < n && g < |c.streams| && e[k].stream == c.streams[g] &&
        e[k + 1] == EventRecord(c.eventsEnd[g], c.streams[g]);
      assert t[k + 1] == e[k + 1];
      assert t[|e| + g] == w[g];
    }
  }

  lemma AcquiresLast(e: seq<Call>, syncs: seq<Call>, acquires: seq<Call>)
    requires NoAcquire(e)
    requires forall j :: 0 <= j < |syncs| ==> !syncs[j].LaunchKernel?
    requires forall j :: 0 <= j < |acquires| ==> !acquires[j].LaunchKernel?
    ensures AcquiredLast(e + (syncs + acquires))
  {
    var w := syncs + acquires;
    var t := e + w;
    forall a, b | 0 <= a < b < |t| && t[a].Acquire?
      ensures !t[b].LaunchKernel?
    {
      if a < |e| {
        assert false;
      }
      var j := b - |e|;
      assert t[b] == w[j];
      if j < |syncs| {
        assert w[j] == syncs[j];
      } else {
        assert w[j] == acquires[j - |syncs|];
      }
    }
  }

  ghost predicate NoAcquire(t: seq<Call>)
  {
    forall k :: 0 <= k < |t| ==> !t[k].Acquire?
  }

  lemma NoAcquireGrid(ph: Phase, c: Ctx, gpu: nat, off: Dim3, l: nat)
    requires c.Ok() && (ph == Launch ==> GridEnd(c.ny, c.nx, gpu, l) <= |c.streams|)
    ensures NoAcquire(GridCalls(ph, c, gpu, off, l))
  {
    GridListing(ph, c, gpu, off, l);
    NoAcquireListing(ph, c, gpu, GridOffsets(c, off, l));
  }

  lemma {:induction false} NoAcquireListing(ph: Phase, c: Ctx, s: nat, offs: seq<Dim3>)
    requires c.Ok() && (ph == Launch ==> s + |offs| <= |c.streams|)
    ensures NoAcquire(Listing(ph, c, s, offs))
    decreases |offs|
  {
    if offs != [] {
      NoAcquireSlot(ph, c, s, offs[0]);
      NoAcquireListing(ph, c, s + 1, offs[1..]);
    }
  }

  lemma NoAcquireSlot(ph: Phase, c: Ctx, gpu: nat, off: Dim3)
    requires c.Ok() && (ph == Launch ==> gpu < |c.streams|)
    ensures NoAcquire(SlotCalls(ph, c, gpu, off))
  {
    if ph == Launch && Launches(Clip(off, c.step, c.tile, c.total)) {
      assert forall k :: 0 <= k < |SetArgsCalls(c.objects, gpu)| ==> !SetArgsCalls(c.objects, gpu)[k].Acquire?;
    }
  }

  /** The device grid the constructor builds: the loop over the computation axes. */
  method BuildGrid(info: seq<bool>, fs: seq<nat>) returns (grid: seq<int>)
    ensures grid == DeviceGrid(info, fs)
  {
    var partDims := CountTrue(info);
    grid := [];
    var j := 0;
    for i := 0 to |info|
      invariant grid == DeviceGrid(info, fs)[..i]
      invariant j == Taken(info, |fs|, partDims, i)
    {
      var partition := 1;
      CountTrueStep(info, i);
      if info[i] {
        TakenInRange(info, |fs|, i);
        var inc := if j == 0 then Lead(|fs|, partDims) else 1;
        partition := Prod(fs[j..j + inc]);
        j := j + inc;
      }
      grid := grid + [partition];
    }
  }

  /** The factors the launcher spreads, after sorting, are all positive. */
  lemma FactorsPositive(factors: seq<nat>, procs: nat, fs: seq<nat>)
    requires forall k :: 0 <= k < |factors| ==> factors[k] > 0
    requires fs == SortDesc(LaunchFactors(factors, procs))
    ensures forall k :: 0 <= k < |fs| ==> fs[k] > 0
  {
    var ls := LaunchFactors(factors, procs);
    forall k | 0 <= k < |fs|
      ensures fs[k] > 0
    {
      assert fs[k] in multiset(ls);
      var i :| 0 <= i < |ls| && ls[i] == fs[k];
      if i >= |factors| {
        assert ls == factors + [1];
      } else {
        assert ls[i] == factors[i];
      }
    }
  }
}
