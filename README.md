# cudarrays: page allocator, virtual-memory storage and kernel launcher

This project models two parts of cudarrays, a C++/CUDA library for arrays spread over several GPUs.

**Virtual-memory storage.** The first part is the virtual-memory storage of a distributed array (`storage_vm.hpp`).
- `page_allocator` walks the aligned index space of the array in row-major order, in granules of a fixed number of elements.
- It charges each element to the device that owns the element's tile. That device is the dot product of the tile index with the per-axis device strides.
- It records each granule as a page. A page belongs to the device that owns most of the granule's elements; ties go to the lowest device.
- `dynarray_storage` (VM variant) drives the allocator:
  - `distribute` records a distribution once.
  - `alloc` makes one device allocation per page, on the page's device, and expects the addresses to form one flat range.
  - `to_device` and `to_host` copy the host buffer to and from that range in fixed-size chunks.

**Kernel launcher.** The second part is the multi-device kernel launcher (`launch.hpp`).
- The launcher clamps the requested device count to the peer devices.
- It spreads a factor list of that count over the partitioned axes of the computation. The result is the device grid.
- It computes a tile and a step for each axis of the CUDA grid.
- It enumerates the device slots z-outer and x-inner, clipping edge slots and skipping empty ones.
- It orders its side effects: coherence release, then per-slot launches bracketed by begin and end events, then waiting on the end events, then coherence acquire.

**Modules.**
- `Runtime` replaces the CUDA runtime with a `Driver` object. The object holds a log of the calls made, the current device, an allocation oracle `addrOf` (the address of the n-th allocation), a handle counter for streams and events, and device memory.
- `PageAlloc` models the allocator as a class. The cursor is an array updated in place, and the page history is a growing sequence. Every method is proved against `PagesFrom`, an independent reference: a functional walk over row-major positions whose owner is given by `DevAt`.
- `IndexSpace` holds the mixed-radix arithmetic behind that reference.
- `StorageVM` models the storage. Its allocation loop is proved to make exactly the calls `AllocCalls` lists, and its result is proved to be true exactly when the addresses are contiguous.
- `Tiling` holds the pure integer parts of the launcher. `Launch` holds its stateful parts. Each launcher method is proved to append an exact call sequence to the log, and lemmas state the ordering guarantees that sequence gives.

## Model

| member | source | states |
|---|---|---|
| Arith.DivCeil | include/cudarrays/launch.hpp:385 | the ceiling quotient: the least r with r * d >= n |
| IndexSpace.UnlinearLinear | include/cudarrays/detail/dynarray/storage_vm.hpp:129-147 | the row-major position of an in-range cursor decodes back to the cursor (the carry walk is mixed-radix counting) |
| IndexSpace.LinearUnlinear | include/cudarrays/detail/dynarray/storage_vm.hpp:129-147 | every position below the product of the aligned extents decodes to an in-range cursor that encodes back to it |
| IndexSpace.CursorLinear | include/cudarrays/detail/dynarray/storage_vm.hpp:101 | a legal cursor's position is between 0 and the product of the extents, and reaches the product exactly when the highest-order index sits on its bound |
| IndexSpace.DeviceMonotone | include/cudarrays/detail/dynarray/storage_vm.hpp:106-112 | the tile-index times stride sum is non-negative and monotone in every coordinate |
| IndexSpace.DevAtBound | include/cudarrays/detail/dynarray/storage_vm.hpp:106-112 | every position of the space is charged to a device between 0 and the device of the last cursor |
| IndexSpace.ZeroStridesDevice | include/cudarrays/detail/dynarray/storage_vm.hpp:106-112 | with all-zero strides every cursor belongs to device 0 |
| IndexSpace.RunSameDevice | include/cudarrays/detail/dynarray/storage_vm.hpp:114-120 | a run along the lowest-order axis that stays inside its tile is charged to one device, the cursor's |
| IndexSpace.RunEnd | include/cudarrays/detail/dynarray/storage_vm.hpp:118-120 | a run that stays inside the lowest-order extent ends inside the space |
| PageAlloc.ArgMaxLowestSpec | include/cudarrays/detail/dynarray/storage_vm.hpp:164-167 | the strict `>` scan picks a maximal counter, and every counter before it is strictly smaller (lowest device wins ties) |
| PageAlloc.MostCharged | include/cudarrays/detail/dynarray/storage_vm.hpp:164-170 | the scan loop returns the lowest most-charged device and the sum of all counters |
| PageAlloc.PageOf | include/cudarrays/detail/dynarray/storage_vm.hpp:172-175 | a page's device is one of the devices, and local plus remote is the granule's element count |
| PageAlloc.CountsRun | include/cudarrays/detail/dynarray/storage_vm.hpp:125 | charging a run owned by one device adds its length to that device's counter only |
| PageAlloc.SumCounts | include/cudarrays/detail/dynarray/storage_vm.hpp:166-170 | the per-device counters of n positions add up to n |
| PageAlloc.PageAtTotal | include/cudarrays/detail/dynarray/storage_vm.hpp:59-62 | the total of a granule's page is the granule's length, between 1 and the granularity |
| PageAlloc.HistoryStep | include/cudarrays/detail/dynarray/storage_vm.hpp:177 | appending the page at the cursor moves it from the pages still to come to the history |
| PageAlloc.SumTotalsAppend | include/cudarrays/detail/dynarray/storage_vm.hpp:187-190 | the totals of a concatenation add up |
| PageAlloc.RemoteAtMostTotal | include/cudarrays/detail/dynarray/storage_vm.hpp:184-192 | the remote elements of a history never exceed its elements |
| PageAlloc.PagesFromTotal | include/cudarrays/detail/dynarray/storage_vm.hpp:97-161 | the pages from a position on account for every remaining element exactly once |
| PageAlloc.PagesFromCount | include/cudarrays/detail/dynarray/storage_vm.hpp:97 | there are ceil(remaining / granularity) pages |
| PageAlloc.PagesFromFull | include/cudarrays/detail/dynarray/storage_vm.hpp:97-161 | every page but the last holds exactly `granularity` elements; the last holds between 1 and that many |
| PageAlloc.OwnedGranulePage | include/cudarrays/detail/dynarray/storage_vm.hpp:164-175 | a granule whose positions all have one owner gives a page of that owner with no remote element |
| PageAlloc.OwnedGranulePages | include/cudarrays/detail/dynarray/storage_vm.hpp:97-175 | when every granule has one owner, page i starts at i granules from the start and belongs to the owner of that position, with no remote element |
| PageAlloc.OwnedGranulesBalanced | include/cudarrays/detail/dynarray/storage_vm.hpp:182-193 | when every granule has one owner, no page has a remote element and the remote sum is 0 |
| PageAlloc.AlignedTilesBalanced | include/cudarrays/detail/dynarray/storage_vm.hpp:182-193 | a layout whose granules each lie in one device's tiles has no remote element at all: a zero imbalance |
| PageAlloc.PagesFromDevices | include/cudarrays/detail/dynarray/storage_vm.hpp:164-175 | every page is charged to one of the space's devices |
| PageAlloc.PagesOnDevices | include/cudarrays/detail/dynarray/storage_vm.hpp:164-175 | every page of a layout is on a device below the device count |
| PageAlloc.PageCount | include/cudarrays/detail/dynarray/storage_vm.hpp:97 | a layout's space is non-empty and has ceil(size / granularity) pages |
| PageAlloc.PageTotals | include/cudarrays/detail/dynarray/storage_vm.hpp:103-161 | the page totals of a layout sum to the product of the aligned extents, and the remote elements to at most that |
| PageAlloc.SingleDevicePages | include/cudarrays/detail/dynarray/storage_vm.hpp:245-247 | with all-zero strides every page is on device 0 and has no remote element |
| PageAlloc.PageAllocator.constructor | include/cudarrays/detail/dynarray/storage_vm.hpp:70-90 | stores the configuration, zeroes the cursor, and makes the element count the product of the extents; the history is empty |
| PageAlloc.PageAllocator.Advance | include/cudarrays/detail/dynarray/storage_vm.hpp:93-180 | on an exhausted cursor, (true, empty page) with cursor and history unchanged; otherwise the cursor moves forward by the granule's length, the page is the reference page of that granule and is appended, and `done` says the space is now exhausted |
| PageAlloc.PageAllocator.RecordPage | include/cudarrays/detail/dynarray/storage_vm.hpp:172-177 | appending the page keeps history plus pages to come equal to the whole page sequence |
| PageAlloc.PageAllocator.ChargeGranule | include/cudarrays/detail/dynarray/storage_vm.hpp:103-161 | the do-while loop moves the cursor by exactly one granule and leaves the granule's per-device counts in the counters |
| PageAlloc.PageAllocator.Pass | include/cudarrays/detail/dynarray/storage_vm.hpp:104-160 | one pass consumes a positive run of at most `inc` elements and charges it; the space is exhausted exactly when the highest-order index is on its bound |
| PageAlloc.PageAllocator.NextRun | include/cudarrays/detail/dynarray/storage_vm.hpp:104-156 | the run starts at the old cursor, stays inside its tile and the lowest-order extent, the position grows by its length, and the early break happens only on exhaustion |
| PageAlloc.PageAllocator.RunLength | include/cudarrays/detail/dynarray/storage_vm.hpp:115-120 | the run is positive and ends at the next tile boundary or at the end of the lowest-order axis, whichever comes first |
| PageAlloc.PageAllocator.Charge | include/cudarrays/detail/dynarray/storage_vm.hpp:125 | after charging, the counters are the reference counts of the positions consumed so far |
| PageAlloc.PageAllocator.Forward | include/cudarrays/detail/dynarray/storage_vm.hpp:122-127 | moving the lowest-order index by k moves the position by k and keeps the cursor legal |
| PageAlloc.PageAllocator.Carry | include/cudarrays/detail/dynarray/storage_vm.hpp:129-147 | the carry advances the position to the end of the lowest-order row, keeps every non-highest index below its bound, and exhausts only by putting the highest-order index on its bound |
| PageAlloc.PageAllocator.ImbalanceRatio | include/cudarrays/detail/dynarray/storage_vm.hpp:182-193 | (remote, total) of the history, where total is the number of elements the cursor has passed and remote is at most that; when every granule has one owner, remote is 0 |
| PageAlloc.WrapLowest | include/cudarrays/detail/dynarray/storage_vm.hpp:131 | zeroing the lowest-order index leaves a carry of one unit of the next axis |
| PageAlloc.CarryInto | include/cudarrays/detail/dynarray/storage_vm.hpp:134 | incrementing axis `dim` adds one unit of that axis to the position |
| PageAlloc.WrapAxis | include/cudarrays/detail/dynarray/storage_vm.hpp:138-141 | wrapping a full axis to 0 leaves a carry of one unit of the next-higher axis |
| PageAlloc.ChargeRun | include/cudarrays/detail/dynarray/storage_vm.hpp:114-125 | a run inside one tile and the space is charged to an existing device, and the reference counts grow at that device only |
| StorageVM.PaddingPastLastTile | include/cudarrays/detail/dynarray/storage_vm.hpp:106-125 | 1000 elements aligned to 1024 in tiles of 500 on two devices: position 1000 is charged to device 2, and no allocator layout admits this |
| StorageVM.ChunkCount | include/cudarrays/detail/dynarray/storage_vm.hpp:277 | the number of chunks is the ceiling of size over the chunk size |
| StorageVM.ChunkLen | include/cudarrays/detail/dynarray/storage_vm.hpp:282-284 | each chunk is full except the last, which ends exactly at the end of the buffer |
| StorageVM.ChunkStart | include/cudarrays/detail/dynarray/storage_vm.hpp:289-290 | the offset computed through an element index is the byte offset rounded down to a whole element |
| StorageVM.ChunkStartExact | include/cudarrays/detail/dynarray/storage_vm.hpp:289-290 | when a chunk holds whole elements, that offset is exactly i times the chunk size |
| StorageVM.ChunksTile | include/cudarrays/detail/dynarray/storage_vm.hpp:281-292 | the chunks tile the buffer: byte k lies in chunk k / chunk and in no other |
| StorageVM.ChunksNeedWholeElements | include/cudarrays/detail/dynarray/storage_vm.hpp:289-290 | with chunks that are not whole elements the rounded offsets leave holes (a 24-byte buffer, 16-byte chunks, 12-byte elements) |
| StorageVM.AllocCalls | include/cudarrays/detail/dynarray/storage_vm.hpp:413-415 | two calls per page: select the page's device, then allocate there |
| StorageVM.ContiguousAt | include/cudarrays/detail/dynarray/storage_vm.hpp:426 | in a contiguous run the i-th allocation is i steps after the first: one flat range |
| StorageVM.ContiguousStep | include/cudarrays/detail/dynarray/storage_vm.hpp:426 | an address right after the last one extends a contiguous run |
| StorageVM.BreakAt | include/cudarrays/detail/dynarray/storage_vm.hpp:426 | one misplaced address breaks contiguity |
| StorageVM.NextPage | include/cudarrays/detail/dynarray/storage_vm.hpp:408-410 | the loop's advance either yields the next page and records it, or reports that every page is done |
| StorageVM.PlacedNext | include/cudarrays/detail/dynarray/storage_vm.hpp:422-428 | placing the next page at the first address, or right after the last one, extends the allocated run |
| StorageVM.AllocPage | include/cudarrays/detail/dynarray/storage_vm.hpp:413-428 | one iteration selects the page's device and allocates; either the run grows or contiguity is refuted |
| StorageVM.Step | include/cudarrays/detail/dynarray/storage_vm.hpp:408-429 | one turn allocates the current page and advances the walk, keeping the loop state |
| StorageVM.AllocPages | include/cudarrays/detail/dynarray/storage_vm.hpp:405-429 | the result is true exactly when the allocations are contiguous; then the base is the first address and the log holds exactly the calls of every page |
| StorageVM.Zeros | include/cudarrays/detail/dynarray/storage_vm.hpp:247 | the single-device strides are all zero |
| StorageVM.SingleLayout | include/cudarrays/detail/dynarray/storage_vm.hpp:245-248 | the single-device layout is a valid allocator layout, and all of its pages are on device 0 |
| StorageVM.DistributedStorage.constructor | include/cudarrays/detail/dynarray/storage_vm.hpp:317-324 | a new storage has no device memory and no distribution |
| StorageVM.DistributedStorage.Granularity | include/cudarrays/detail/dynarray/storage_vm.hpp:403 | one page of elements fills exactly one allocation |
| StorageVM.DistributedStorage.InfoFor | include/cudarrays/detail/dynarray/storage_vm.hpp:243-247 | the recorded device count is the mapping's; with one device the tiles are the full sizes and the strides are zero |
| StorageVM.DistributedStorage.IsDistributed | include/cudarrays/detail/dynarray/storage_vm.hpp:262-266 | device memory exists only once a distribution is recorded |
| StorageVM.DistributedStorage.Distribute | include/cudarrays/detail/dynarray/storage_vm.hpp:238-260 | an already distributed array is left alone; too many partitioned array axes, or a tiling that charges an aligned position to a device at or past the count, stops before any device call; otherwise the distribution is recorded, every page is on an existing device, and the result is Distributed exactly when the addresses are contiguous |
| StorageVM.DistributedStorage.Alloc | include/cudarrays/detail/dynarray/storage_vm.hpp:387-432 | one allocation per page with the exact call log; success exactly on contiguity; the data pointer is the first address plus the offset |
| StorageVM.DistributedStorage.StartWalk | include/cudarrays/detail/dynarray/storage_vm.hpp:398-408 | a fresh allocator over the distribution's layout, advanced to its first page; the layout has at least one page |
| StorageVM.DistributedStorage.CopyChunk | include/cudarrays/detail/dynarray/storage_vm.hpp:282-290 | chunk idx's byte count and offset, the offset being idx times the chunk size |
| StorageVM.DistributedStorage.ToDevice | include/cudarrays/detail/dynarray/storage_vm.hpp:295-315 | afterwards the device bytes from the base hold the host buffer and all other device bytes are unchanged; the log holds one copy per chunk |
| StorageVM.DistributedStorage.ToHost | include/cudarrays/detail/dynarray/storage_vm.hpp:273-293 | afterwards every host byte holds the device byte at the same distance from the base; device memory is unchanged |
| StorageVM.DistributedStorage.ToDeviceThenToHost | include/cudarrays/detail/dynarray/storage_vm.hpp:273-315 | a copy to the device followed by a copy back leaves the host buffer unchanged, with the device holding it |
| Tiling.GpuCount | include/cudarrays/launch.hpp:343-347 | all peers when none are requested, else the request capped at the peers |
| Tiling.OversubscribedUsesAllPeers | include/cudarrays/launch.hpp:348-350 | asking for more devices than there are peers uses every peer |
| Tiling.Insert | include/cudarrays/launch.hpp:360 | inserting into a descending list keeps it descending and adds exactly the new entry |
| Tiling.SortDesc | include/cudarrays/launch.hpp:360 | the sorted factor list is descending and a permutation of the input |
| Tiling.ProdPermutation | include/cudarrays/launch.hpp:360 | sorting keeps the product of the factors |
| Tiling.LaunchFactors | include/cudarrays/launch.hpp:356-359 | appending a 1 for a single device keeps the product and every factor |
| Tiling.TakenInRange | include/cudarrays/launch.hpp:364-370 | each partitioned axis takes factors not yet used, and the next axis starts after them |
| Tiling.GridPrefixProduct | include/cudarrays/launch.hpp:362-374 | the grid entries of the first i axes multiply exactly the factors those axes took |
| Tiling.Lead | include/cudarrays/launch.hpp:367 | the first partitioned axis takes all factors but one for each later partitioned axis; none when the partitioned axes outnumber the factors |
| Tiling.SourceLeadAgrees | include/cudarrays/launch.hpp:367 | the unsigned `size() - partDims + 1` equals that count whenever it does not wrap |
| Tiling.SourceLeadOverruns | include/cudarrays/launch.hpp:367 | with at least two more partitioned axes than factors the unsigned count wraps to a number larger than the factor list |
| Tiling.OneDeviceThreeAxes | include/cudarrays/launch.hpp:356-367 | one device (factor list [1]) over three partitioned axes: the source's count is 2^64 - 1, the modelled one 0 |
| Tiling.GridProduct | include/cudarrays/launch.hpp:354-374 | with at least one partitioned axis and no more of them than factors, the device grid multiplies to the product of the factors; with none, or with more than there are factors, it is all ones |
| Tiling.TwoDevicesTwoAxes | include/cudarrays/launch.hpp:354-374 | two devices (factors [2]) over two partitioned axes give the all-ones grid [1, 1] |
| Tiling.GridPositive | include/cudarrays/launch.hpp:362-374 | every device-grid entry is positive when every factor is |
| Tiling.Factor | include/cudarrays/launch.hpp:385 | the factor of a used CUDA axis, or 1; positive when the grid is |
| Tiling.SlotCountIsGridProduct | include/cudarrays/launch.hpp:451-455 | the slot loops enumerate exactly the product of the device grid |
| Tiling.ComputeTiles | include/cudarrays/launch.hpp:377-409 | each used axis gets the ceiling tile of its extent over its factor, with step equal to the tile when the factor exceeds 1 and 0 otherwise; unused axes get tile 1 and step 0 |
| Tiling.Remaining | include/cudarrays/launch.hpp:461-464 | the extent left on an axis is non-negative and reaches the end exactly when the offset is inside |
| Tiling.Clip | include/cudarrays/launch.hpp:460-475 | only the first axis, in z, y, x order, whose next slot would pass the end is clipped, to what is left; the others keep the tile |
| Tiling.Transposed | include/cudarrays/launch.hpp:534-536 | the transposed extent swaps x and y and launches exactly when the original does |
| Tiling.SplitCovers | include/cudarrays/launch.hpp:385-406 | with one split axis the slot intervals are disjoint and cover the extent: each position lies in exactly one slot |
| Tiling.SlotMember | include/cudarrays/launch.hpp:460-475 | on an axis split more than one way, slot k holds position p exactly when k is p over the tile |
| Tiling.ClipSingleSplit | include/cudarrays/launch.hpp:460-475 | with one split axis the clip rule gives that axis the slot extent and leaves the others at their tile |
| Tiling.Split64Over4 | include/cudarrays/launch.hpp:385-406 | 64 blocks over 4 devices: slots of 16, 16, 16, 16 |
| Tiling.Split10Over4 | include/cudarrays/launch.hpp:385-406 | 10 blocks over 4 devices: slots of 3, 3, 3, 1 |
| Tiling.ClipShortensOneAxis | include/cudarrays/launch.hpp:460-475 | with two split axes the corner slot is clipped on one axis only and keeps a full tile on the other, past the end |
| Launch.CoherentOfAppend | include/cudarrays/launch.hpp:183-190 | the records of a concatenation are the concatenated records: argument order is kept |
| Launch.CoherentOfExact | include/cudarrays/launch.hpp:153-181 | every array argument is recorded with its constness, and every record comes from an array argument |
| Launch.NoArraysNoRecords | include/cudarrays/launch.hpp:153-158 | arguments without arrays leave nothing to keep coherent |
| Launch.ArgumentManager.SetCoherentArg | include/cudarrays/launch.hpp:153-166 | an array argument is appended with its constness; any other argument changes nothing |
| Launch.ArgumentManager.ParseArgs | include/cudarrays/launch.hpp:168-199 | after parsing, the list holds exactly the array arguments in order, whatever it held before |
| Launch.InitCallsCreate | include/cudarrays/launch.hpp:269-291 | each device's stream and two events are created right after selecting that device |
| Launch.StreamPool.InitStreams | include/cudarrays/launch.hpp:265-293 | the pools grow to max(old size, gpus), existing entries are untouched, the new handles are fresh, and the log holds exactly the creation calls |
| Launch.StreamPool.AddDevice | include/cudarrays/launch.hpp:272-290 | one loop round appends one fresh stream, begin event and end event for the device |
| Launch.SyncDeviceCalls | include/cudarrays/launch.hpp:442-447 | the synchronization loop only selects and synchronizes devices |
| Launch.SetArgsCalls | include/cudarrays/launch.hpp:309-316 | set_args only sets the current device of arrays |
| Launch.SetArgs | include/cudarrays/launch.hpp:309-316 | the loop issues exactly set_args' calls and changes nothing else |
| Launch.ReleaseCalls | include/cudarrays/launch.hpp:318-324 | one release per recorded array, in order, with the given devices and the array's constness |
| Launch.ReleaseArgs | include/cudarrays/launch.hpp:318-324 | the loop issues exactly those releases |
| Launch.AcquireCalls | include/cudarrays/launch.hpp:326-332 | one acquire per recorded array, in order |
| Launch.AcquireArgs | include/cudarrays/launch.hpp:326-332 | the loop issues exactly those acquires |
| Launch.EventSyncCalls | include/cudarrays/launch.hpp:591-594 | one end-event wait per listed device, in list order |
| Launch.Wait | include/cudarrays/launch.hpp:589-609 | waits for the end events of the active devices in order, then acquires every array; returns true |
| Launch.Range | include/cudarrays/launch.hpp:488 | the active devices a..b-1 in increasing order |
| Launch.SlotPlace | include/cudarrays/launch.hpp:449-496 | device number (i * ny + j) * nx + k decodes back to slot (i, j, k) by division and remainder |
| Launch.RowListing | include/cudarrays/launch.hpp:455-492 | the innermost loop's calls are the calls of its slots, in device order, at the offsets off, off + step.x, ... |
| Launch.PlaneListing | include/cudarrays/launch.hpp:453-494 | the middle loop's calls are the calls of its slots, in device order, at the offsets of its rows, and it numbers exactly as many devices |
| Launch.GridListing | include/cudarrays/launch.hpp:451-496 | the outer loop's calls are the calls of its slots, in device order, at the offsets of its planes, and it numbers exactly as many devices |
| Launch.SlotLoopsEnumerate | include/cudarrays/launch.hpp:449-496 | the three slot loops make the calls of slots 0 .. nz * ny * nx - 1 in order, slot (i, j, k) on device (i * ny + j) * nx + k at offset (i * step.z, j * step.y, k * step.x) |
| Launch.ListingEnumerates | include/cudarrays/launch.hpp:449-496 | listing slots at their SlotOrigin offsets is the slot-by-slot enumeration |
| Launch.SlotDecompose | include/cudarrays/launch.hpp:449-496 | every device number below nz * ny * nx is (i * ny + j) * nx + k for one in-range slot (i, j, k) |
| Launch.GridOffsetsOrigins | include/cudarrays/launch.hpp:449-496 | the loops give device s the offset SlotOrigin(s), for every one of the nz * ny * nx devices |
| Launch.GridOffsetsAt | include/cudarrays/launch.hpp:449-496 | the loops give slot (i, j, k) the offset (i * step.z, j * step.y, k * step.x) |
| Launch.SingleSplitSlot | include/cudarrays/launch.hpp:385-475 | with one split axis, slot k starts at k tiles along it and launches the slot extent there, and the whole tile at offset 0 on the other axes |
| Launch.SingleSplitCovers | include/cudarrays/launch.hpp:385-475 | with one split axis, position p lies in the launch of slot k exactly when k is p over the tile |
| Launch.PlaneEndIs | include/cudarrays/launch.hpp:453-494 | after m rows of nx slots the device number has grown by m * nx |
| Launch.GridEndIs | include/cudarrays/launch.hpp:451-496 | the slot loops give every slot its own device number, l * ny * nx in total |
| Launch.SlotShape | include/cudarrays/launch.hpp:477-486 | a slot's calls contain no release; a set-up slot launches nothing; a launch slot's launch is positive and sits between its device's begin and end events |
| Launch.ListingShape | include/cudarrays/launch.hpp:477-486 | slots listed in device order have no release; in set-up no launch, and in launch every launch positive between its device's begin and end events |
| Launch.GridShape | include/cudarrays/launch.hpp:451-496 | the same for the whole slot enumeration |
| Launch.LaunchesAfter | include/cudarrays/launch.hpp:498-500 | calls without launches in front of well-formed launches keep them well-formed |
| Launch.AwaitAfter | include/cudarrays/launch.hpp:589-608 | waiting on devices 0..n-1 after well-formed launches waits for every launch's end event, and acquires come after every launch |
| Launch.LaunchesAwaited | include/cudarrays/launch.hpp:591-594 | every launch's end event is waited for later |
| Launch.AcquiresLast | include/cudarrays/launch.hpp:606 | no launch follows an acquire |
| Launch.NoAcquireGrid | include/cudarrays/launch.hpp:449-583 | the slot loops never acquire |
| Launch.BuildGrid | include/cudarrays/launch.hpp:362-374 | the constructor's loop builds exactly the device grid |
| Launch.FactorsPositive | include/cudarrays/launch.hpp:356-360 | the sorted factor list is all positive |
| Launch.Launcher.SlotsAreDevices | include/cudarrays/launch.hpp:451-455 | there is one slot per device of the device grid |
| Launch.Launcher.constructor | include/cudarrays/launch.hpp:337-375 | the device count is clamped, the streams are initialised for it, the device grid is the factor distribution of the sorted factors, and with a partitioned axis and enough factors its product is the requested count; with more partitioned axes than factors it is all ones |
| Launch.Launcher.Context | include/cudarrays/launch.hpp:426 | the slot context uses the pool's streams and events and the launcher's block, and enumerates Slots() slots |
| Launch.Launcher.SyncDevices | include/cudarrays/launch.hpp:442-447 | selects and synchronizes every device in order |
| Launch.Launcher.RunSlot | include/cudarrays/launch.hpp:456-491 | one slot issues exactly its calls, and the set-up loop lists its device as active whether it was skipped or not |
| Launch.Launcher.RunRow | include/cudarrays/launch.hpp:455-492 | the innermost loop issues exactly the row's calls and lists its devices |
| Launch.Launcher.RunPlane | include/cudarrays/launch.hpp:453-494 | the middle loop issues exactly the plane's calls and lists its devices |
| Launch.Launcher.RunGrid | include/cudarrays/launch.hpp:451-496 | the outer loop issues exactly the enumeration's calls and lists devices 0..Slots()-1 |
| Launch.Launcher.Execute | include/cudarrays/launch.hpp:411-586 | records the array arguments, lists every slot as active, and issues exactly: device syncs, slot set-ups, releases, launches |
| Launch.Launcher.Invoke | include/cudarrays/launch.hpp:621-633 | execute then wait; the log is execute's calls followed by wait's |
| Launch.Launcher.ExecuteOrder | include/cudarrays/launch.hpp:498-575 | every release comes before every launch, and every launch is positive with the launcher's block, between its device's begin and end events |
| Launch.Launcher.EveryLaunchAwaited | include/cudarrays/launch.hpp:625-630 | in the call operator's log every launch's end event is waited for later, and every acquire comes after every launch |
| Launch.Launcher.ExecuteAcquiresNothing | include/cudarrays/launch.hpp:411-586 | execute never acquires an array |
| Launch.Launcher.ExecuteEnumerates | include/cudarrays/launch.hpp:442-586 | execute's calls are the device syncs, the set-ups of slots 0 .. Slots() - 1 in order, each on its own device at its own offset, the releases, then the launches of the same slots in the same order |
| Launch.Launcher.ExecuteCoversSplitAxis | include/cudarrays/launch.hpp:377-496 | when one axis of the device grid is split, the extents execute launches along it tile [0, total): each position is launched by exactly one slot |

## Left out

- CUDA calls are modelled by `Runtime.Driver`. Every CUDA error and every `assert(err == cudaSuccess)` is treated as never happening.
- Device addresses come from an oracle function (`addrOf`). Device memory never written reads as 0.
- `cudaFree` in the destructor, the copy constructor's aliasing of device memory and host info, and `get_ngpus` are not modelled.
- `access_pos`, the `linearizer`, and the `helper_distribution_*` functions are not part of this model. Their outputs (tile extents and device strides) are inputs of `StorageVM.Mapping`.
- `get_factors` is not part of this model. It is a parameter: a list of positive factors whose product is the requested count.
- `div_ceil` is not part of this model. `Arith.DivCeil` stands for it.
- `launcher_async` (`std::async`/`std::future`) and the `thread_local` argument buffers are not modelled. Their point is concurrency; the model is sequential.
- `Params`, `mycudaAddressOf`, `check_arg_type`, the `#if 0` blocks and `DEBUG`/`printf` output are not modelled. They are pointer casts, compile-time checks or output.
- The unused `mayOverflow_` array is not modelled.
- `PageAlloc.PageAllocator.ImbalanceRatio`: returns the integer pair (remote, total) instead of the floating-point ratio. The per-page ratio of `page_stats` is left out for the same reason.
- Unsigned wrap-around of the element counters, sizes and device numbers is not modelled. They are unbounded integers.
- `PageAlloc.PageAllocator.ChargeGranule`: the loop's two exits (the inner break on exhaustion and the test of the highest-order index at the end of the body) are merged into one test after each pass. Both leave the same state.
- `StorageVM.DistributedStorage.Alloc`: the contiguity `assert` becomes a `false` result (`NonContiguous` from `Distribute`) instead of aborting. The model does not describe a build without asserts.
- `StorageVM.DistributedStorage.Distribute`: a multi-device distribution with too many partitioned array axes stops with `NotEnoughPartitionedDims` instead of the fatal exit. The host info the source allocates before exiting is not modelled.
- `StorageVM.DistributedStorage.ToDevice` requires that an allocation holds a whole number of elements, as it does for the element types the library uses. `StorageVM.ChunksNeedWholeElements` shows the holes the chunk offsets would leave otherwise.
- `StorageVM.DistributedStorage` keeps the dim-manager offset already scaled to bytes.
- `Launch.Launcher.Execute` requires the slot count to be at most the number of streams in the pool. The device grid is built from the requested count, the pool from the clamped one, and the source indexes the pool by slot.
- `Launch.Launcher.RunGrid`: both slot loops of execute are one method, parameterised by the phase. The second loop's `off` starts from the first loop's final value except `off.z`; every slot's offset is still rebuilt from the loop indices, so nothing observable differs.
- `Launch.Wait` waits on the end event of every active device, including slots that launched nothing, exactly as the source does. Such a wait is on an event that was never recorded.
- `PageAlloc.PageAllocator.constructor` requires `Layout.Ok`: positive tiles and extents, non-negative strides, and every aligned position charged to a device below the device count. The source checks none of this; the last condition fails for some tilings (see Findings), and there the model stops in `Distribute` instead of writing past the counters.
- `StorageVM.DistributedStorage.Distribute` requires that a multi-device distribution's tile extents and strides are well-formed (`Shape`: one entry per axis, positive tiles, non-negative strides). The helper functions that compute them are not part of this model.
- `StorageVM.DistributedStorage.Distribute`: a tiling that charges an aligned position to a device at or past the count returns `DeviceOutOfRange` before any device call. The source goes on and indexes the per-device counters out of range.
- `Tiling.Lead`: when there are more partitioned axes than factors, the source's unsigned count wraps and its product reads past the factor list. The model takes no factor there and gives the all-ones grid (see Findings).
- `Tiling.SplitCovers`: coverage is proved only when a single axis is split. With two split axes the else-if clip chain shortens one axis only (`Tiling.ClipShortensOneAxis`), so the slot intervals do not stay inside the grid.

## Findings

| source | as written | input that shows it | evidently intended | confidence | as-written member | corrected member |
|---|---|---|---|---|---|---|
| include/cudarrays/launch.hpp:367 | the first partitioned axis takes `factorsGPUs.size() - partDims + 1` factors, computed in `size_t`; with two or more partitioned axes beyond the factor count it wraps, and `std::accumulate` reads past the vector | one device (factor list [1]) and three partitioned axes: the count is 2^64 - 1 | a count inside the factor list, 0 when the partitioned axes outnumber the factors (the all-ones grid the source already gives when they outnumber them by one) | not executed | `Tiling.SourceLead`, with `Tiling.SourceLeadOverruns` and `Tiling.OneDeviceThreeAxes` | `Tiling.Lead`, with `Tiling.TakenInRange` and `Tiling.GridProduct` |
| include/cudarrays/detail/dynarray/storage_vm.hpp:99-125 | the walk covers the aligned extents (line 396) while the tiles come from the unaligned sizes (lines 455-464), so a padding position can lie in a tile past the last device, and `localStats[gpu]` is then written out of range | 1000 elements aligned to 1024, two devices, tiles of 500: position 1000 is charged to device 2 | every position charged to an existing device | not executed | `StorageVM.PaddingPastLastTile` | `StorageVM.DistributedStorage.Distribute`, with `PageAlloc.PagesOnDevices` |
