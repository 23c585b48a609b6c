/**
 * The device runtime the storage and the launcher call into, reduced to what they can observe:
 * a log of the calls made, the current-device register, the addresses handed out by device
 * allocation, fresh stream and event handles, and the bytes held in device memory.
 */
module Runtime {

  /** CUDA's three-component extent, written highest-order axis first. */
  datatype Dim3 = Dim3(z: int, y: int, x: int)

  /** One runtime call, with the arguments the model tracks. */
  datatype Call =
    | SetDevice(gpu: nat)
    | DeviceSynchronize(gpu: nat)
    | Malloc(gpu: nat, bytes: nat, addr: int)
    | CopyToDevice(addr: int, offset: nat, bytes: nat)
    | CopyToHost(offset: nat, addr: int, bytes: nat)
    | StreamCreate(gpu: nat, stream: nat)
    | EventCreate(gpu: nat, event: nat)
    | SetGlobalGrid(gpu: nat, grid: Dim3)
    | SetOffset(gpu: nat, off: Dim3)
    | EventRecord(event: nat, stream: nat)
    | LaunchKernel(grid: Dim3, block: Dim3, stream: nat)
    | EventSynchronize(event: nat)
      // calls into the coherence policy of a distributed array, logged in the same order
    | Release(array: nat, gpus: seq<nat>, isConst: bool)
    | Acquire(array: nat)
    | SetCurrentGpu(array: nat, gpu: nat)

  /**
   * The runtime's state. `addrOf(n)` is the address the n-th device allocation returns; it is
   * a positive address (never the null pointer). Device memory never written reads as 0 in the model.
   */
  class Driver {
    const addrOf: nat -> int
    var mallocs: nat
    var handles: nat
    var device: nat
    var calls: seq<Call>
    var mem: int -> int

    ghost predicate Valid()
    {
      forall n: nat :: addrOf(n) > 0
    }

    constructor (addrOf: nat -> int)
      requires forall n: nat :: addrOf(n) > 0
      ensures Valid() && this.addrOf == addrOf
      ensures mallocs == 0 && handles == 0 && device == 0 && calls == []
      ensures forall a :: Read(a) == 0
    {
      this.addrOf := addrOf;
      mallocs := 0;
      handles := 0;
      device := 0;
      calls := [];
      mem := _ => 0;
    }

    /** The byte at device address `a`. */
    function Read(a: int): int
      reads this
    {
      mem(a)
    }

    /** cudaSetDevice: later allocations and launches go to `gpu`. */
    method SetDevice(gpu: nat)
      modifies this
      ensures device == gpu && calls == old(calls) + [Call.SetDevice(gpu)]
      ensures mallocs == old(mallocs) && handles == old(handles) && mem == old(mem)
    {
      device := gpu;
      calls := calls + [Call.SetDevice(gpu)];
    }

    /** cudaDeviceSynchronize on the current device. */
    method DeviceSynchronize()
      modifies this
      ensures calls == old(calls) + [Call.DeviceSynchronize(device)]
      ensures device == old(device) && mallocs == old(mallocs) && handles == old(handles) && mem == old(mem)
    {
      calls := calls + [Call.DeviceSynchronize(device)];
    }

    /** cudaMalloc on the current device: the next address of the allocation sequence. */
    method Malloc(bytes: nat) returns (addr: int)
      requires Valid()
      modifies this
      ensures addr == addrOf(old(mallocs)) && addr > 0 && mallocs == old(mallocs) + 1
      ensures calls == old(calls) + [Call.Malloc(device, bytes, addr)]
      ensures device == old(device) && handles == old(handles) && mem == old(mem)
    {
      addr := addrOf(mallocs);
      mallocs := mallocs + 1;
      calls := calls + [Call.Malloc(device, bytes, addr)];
    }

    /** cudaStreamCreate on the current device. */
    method StreamCreate() returns (stream: nat)
      modifies this
      ensures stream == old(handles) && handles == old(handles) + 1
      ensures calls == old(calls) + [Call.StreamCreate(device, stream)]
      ensures device == old(device) && mallocs == old(mallocs) && mem == old(mem)
    {
      stream := handles;
      handles := handles + 1;
      calls := calls + [Call.StreamCreate(device, stream)];
    }

    /** cudaEventCreate on the current device. */
    method EventCreate() returns (event: nat)
      modifies this
      ensures event == old(handles) && handles == old(handles) + 1
      ensures calls == old(calls) + [Call.EventCreate(device, event)]
      ensures device == old(device) && mallocs == old(mallocs) && mem == old(mem)
    {
      event := handles;
      handles := handles + 1;
      calls := calls + [Call.EventCreate(device, event)];
    }

    /** Record a call that changes nothing the model tracks but the log. */
    method Issue(c: Call)
      requires !c.SetDevice? && !c.Malloc? && !c.CopyToDevice? && !c.CopyToHost?
      modifies this
      ensures calls == old(calls) + [c]
      ensures device == old(device) && mallocs == old(mallocs) && handles == old(handles) && mem == old(mem)
    {
      calls := calls + [c];
    }

    /** cudaMemcpy host to device: `bytes` bytes of `src` from offset `from` land at address `dst`. */
    method CopyToDevice(dst: int, src: array<int>, from: nat, bytes: nat)
      requires from + bytes <= src.Length
      modifies this
      ensures forall a :: Read(a) == if dst <= a < dst + bytes then src[from + (a - dst)] else old(Read(a))
      ensures calls == old(calls) + [Call.CopyToDevice(dst, from, bytes)]
      ensures device == old(device) && mallocs == old(mallocs) && handles == old(handles)
    {
      var data, before := src[from..from + bytes], mem;
      mem := a => if dst <= a < dst + bytes then data[a - dst] else before(a);
      calls := calls + [Call.CopyToDevice(dst, from, bytes)];
    }

    /** cudaMemcpy device to host: `bytes` bytes from address `src` land in `dst` from offset `to`. */
    method CopyToHost(dst: array<int>, to: nat, src: int, bytes: nat)
      requires to + bytes <= dst.Length
      modifies this, dst
      ensures forall i :: 0 <= i < dst.Length ==>
        dst[i] == if to <= i < to + bytes then old(Read(src + (i - to))) else old(dst[i])
      ensures calls == old(calls) + [Call.CopyToHost(to, src, bytes)]
      ensures device == old(device) && mallocs == old(mallocs) && handles == old(handles) && mem == old(mem)
    {
      forall i | to <= i < to + bytes {
        dst[i] := Read(src + (i - to));
      }
      calls := calls + [Call.CopyToHost(to, src, bytes)];
    }
  }
}
