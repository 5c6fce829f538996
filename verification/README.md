# CUDA machine state of gorgonia, modelled in Dafny

This project models the sequential core of `cuda.go` in gorgonia's CUDA
build: the `ExternMetadata` record that describes the CUDA devices a VM
runs on. It covers four parts.

- **Launch geometry.** `calcBlocks`, `ElemGridSize` and `blockThread` are
  pure integer functions. Go's `/` truncates toward zero, so it is written
  out (`Geometry.TruncDiv`); `blockThread` and `calcBlocks` accept any `int`.
- **Memory arena.** `Get` and `Put` work on a per-device map from slab size
  to a pool of recycled device-memory slabs.
- **Flush loop.** `DoWork` flushes the flagged devices in order and clears
  each one's flag. At the first device whose context reports an error it
  returns that error, and that device keeps its flag.
- **Lifecycle.** `init` enumerates the devices and builds their profiles,
  contexts and arena maps. `initFail` disables the machine when a device
  cannot be set up.

Modules:

- `Wrappers` (`wrappers.dfy`): `Option`.
- `Machine` (`machine.dfy`): the data model. One `Profile` per device holds
  the values the source keeps in the parallel slices `warp`, `mtpb`, `mgdx`,
  `mgdy`, `mgdz`, `mbdx`, `mbdy`, `mbdz`, `freeMem` and `totalMem`. The
  arena is a `seq<Option<map<nat, seq<Memory>>>>`; `None` is Go's nil map.
  Contexts are a sequence whose nil value is `[]`.
- `Geometry` (`geometry.dfy`) and `GridCoverage` (`grid_coverage.dfy`):
  launch geometry, and the finding below.
- `Arena` (`arena.dfy`), `Work` (`work.dfy`) and `Lifecycle` (`lifecycle.dfy`).
- `Scenarios` (`scenarios.dfy`): properties that span several parts.

Driver calls are not modelled; their answers are inputs.

- `init` receives the device count (`None` when the query fails) and one
  `Lifecycle.Probe` per device. A probe records how far the queries for that
  device got: getting the device, making a context, reading the eight
  attributes, reading the memory statistics.
- `DoWork` receives, per device, the error that device's context reports
  after its flush.

The pool type `memoryQueue` is not part of this model. A pool here is a
sequence: `add` appends, `get` takes the oldest slab, and an empty pool
answers "not found".

Two behaviours of the code are worth noting:

- A failed `init` does not clear the capability profiles, the arena maps or
  the pending-work flags. `initFail` (cuda.go:297-307) resets only the
  contexts, the module and function tables, and the work channel. A device
  whose attributes were read before its memory query failed keeps those
  attribute values.
- `ElemGridSize` does not always cover every element (see Findings).

## Model

| member | source | states |
|---|---|---|
| Geometry.CalcBlocks | cuda.go:335-337 | For `n >= 0` the result is the ceiling of `n / maxThreads`: `blocks*maxThreads >= n > (blocks-1)*maxThreads`. It is never positive for `n <= 0`. |
| Geometry.CalcBlocksUnique | cuda.go:335-337 | Any count that satisfies both ceiling inequalities equals `calcBlocks`, so the ensures of `CalcBlocks` pin it down completely. |
| Geometry.ElemGridSize | cuda.go:62-100 | `blockDimY = blockDimZ = 1` and `1 <= blockDimX <= maxThreads`. For `1 <= n <= maxThreads` the shape is exactly `(1,1,1,n,1,1)`. For `n <= 0` the grid is empty. When the block count is at least 2 and reaches `maxGridX*maxGridY*maxGridZ`, every dimension is 1. Below `maxGridX` the shape is one row of the least number of full blocks that covers `n`. The full-row and full-plane cases use `gridDimX = maxGridX` and `blockDimX = maxThreads`. |
| Geometry.ElemGridSizeTwoBlocks | cuda.go:79-96 | 300 elements with 256 threads per block and `maxGridX = 65535` give `(2,1,1,256,1,1)`. |
| Geometry.BlockThread | cuda.go:103-124 | The thread count is one of 32, 64, …, 1024. For `n <= 1024` it is the smallest of those that is at least `n`; above that it is 1024. The block count is always in `0..128`. For `n >= 1` it is the ceiling of `n/threads` when that is at most 128, and otherwise 128. Under Go's truncating division, counts from -62 to 0 give 0 blocks and counts of -63 or less are clamped to 128. |
| GridCoverage.ElemGridSizeDropsRows | cuda.go:90-93 | As written, a block count of exactly `2*maxGridX` gives `gridDimY = 0`, so the launch has no lanes for a positive element count. |
| GridCoverage.ElemGridSizeDropsPlanes | cuda.go:85-89 | As written, a block count of exactly `maxGridX*maxGridY` gives `gridDimZ = 0`, so the launch has no lanes. |
| GridCoverage.ElemGridSizeShortRows | cuda.go:90-92 | As written, a 4×4×4 grid with one thread per block gives `(4,1,1,1,1,1)` for 9 elements: a row count that is not a multiple can leave elements without a lane. |
| GridCoverage.CoveringGridSize | cuda.go:79-97 | The corrected shape. For `n >= 1`, whenever the block count is below `maxGridX*maxGridY*maxGridZ`, it has at least `n` lanes and every dimension lies between 1 and its device limit. |
| GridCoverage.CoveringAgreesOutsidePartialCases | cuda.go:80-97 | Outside the full-row and full-plane cases, the corrected shape equals the source's. |
| Arena.Get | cuda.go:167-176 | The result is "not found" exactly when nothing of that size is held on the device. This covers an out-of-range device, a nil map, a missing pool and an empty pool, and in each of these cases the arena is unchanged, so no pool is created. Otherwise the returned slab was held and is removed from its pool. No pool is created or dropped, and every other `(device, size)` pool is unchanged. |
| Arena.Put | cuda.go:179-191 | An out-of-range device leaves the arena unchanged. Otherwise the slabs held for `(d, size)` gain exactly `mem`, and the pool exists afterwards: it is created if it was absent. Other devices' maps and every other `(device, size)` pool are unchanged. |
| Arena.PutExtendsExistingPool | cuda.go:185-190 | `Put` on a size that already has a pool appends to that same pool. |
| Arena.PutThenGet | cuda.go:167-191 | `Get` after `Put` returns the pool's oldest slab, or the slab just put if the pool was empty. The put slab is now at the back of the pool. |
| Arena.FreshPutThenGet | cuda.go:167-191 | `Put(d, b, s)` on a fresh `(d, s)`, followed by `Get(d, s)`, returns `b` and leaves that pool empty. |
| Arena.GetThenPutRestores | cuda.go:167-191 | Putting back the slab just retrieved restores what the pool holds, counted with multiplicity. |
| Arena.OutOfRangeIsInert | cuda.go:167-183 | For `d >= len(arena)`, `Get` answers "not found" and `Put` changes nothing. |
| Work.FirstFailure | cuda.go:131-136 | Finds the first flagged device whose flush reports an error: it fails, and no flagged device before it fails. `None` means no flagged device fails. |
| Work.FlushDevices | cuda.go:131-139 | The device loop alone. Each flushed device was flagged, is flushed once, and devices are flushed in order. With no failing flagged device it returns no error, flushes every flagged device and clears every flag. With the first failure at `k` it returns that device's error, flushes the flagged devices up to `k`, clears the flags before `k` and leaves flag `k` and the later flags unchanged. |
| Work.DoWork | cuda.go:130-146 | Every flagged device must have a non-nil context. Only the flags change. Each flushed device was flagged, is flushed once, and devices are flushed in order. If no flagged device fails, the result is `nil`, every flagged device and the BLAS backend are flushed, and all flags are cleared. If the first failure is at `k`, that device's error is returned and flagged devices up to `k` are flushed. Flags before `k` are cleared; flag `k`, the later flags and the BLAS flag are unchanged, and the BLAS backend is not flushed. |
| Lifecycle.FirstUnready | cuda.go:232-238 | Finds the first device whose probe did not succeed: every device before it is ready, and the device itself is not. |
| Lifecycle.ProbeDevices | cuda.go:232-285 | The device loop completes exactly when every remaining probe succeeds. Each ready device gets its probed profile, an empty arena map and context `i`. The failing device keeps any attributes already read. Later devices, earlier devices and all other fields are untouched. |
| Lifecycle.InitFail | cuda.go:297-307 | Resets the contexts, the module and function tables and the work channel. Profiles, arena maps, flags and the lifecycle flag are unchanged. |
| Lifecycle.Init | cuda.go:200-295 | `init` is a no-op if already initialised, if the device-count query fails or if there are no devices. Otherwise every slice has one slot per device, all flags are false and the BLAS flag is kept. The result is initialised exactly when every probe succeeds. Each device before the first failure has its profile (warp size, max threads, grid X/Y/Z, block X/Y/Z, free, total) and an empty arena map. On success all contexts and empty tables exist and the channel is open. On failure there are no contexts, tables or channel, the failing device keeps what was read of it, and later devices have zero profiles and nil arena maps. |
| Lifecycle.ProbeIgnoresTables | cuda.go:232-285 | The device loop neither reads nor writes the module and function tables. |
| Lifecycle.InitForgetsEarlierState | cuda.go:200-293 | Once `init` reaches probing, its result depends only on the driver's answers and the BLAS flag. |
| Lifecycle.RetryAfterFailure | cuda.go:200-307 | When the retry's device count is positive, a retry of a failed `init` ends exactly as a first attempt with the same driver answers would. |
| Lifecycle.HasFunc | cuda.go:151-154 | A nil function table knows no function. |
| Scenarios.InitLeavesNoPools | cuda.go:167-176 | After `init` has probed, successful or not, every `Get` answers "not found" and changes nothing. |
| Scenarios.PutAllowedAfterFailedInit | cuda.go:179-190 | After a failed `init`, a device's arena map is non-nil (so `Put` on it does not panic) exactly for devices before the failing one or out of range. |
| Scenarios.NoFunctionsAfterInit | cuda.go:289-290 | After `init` has probed, `HasFunc` is false for every name. |
| Scenarios.TwoDevicesThreeHundredElements | cuda.go:79-96 | Two healthy devices: after `init`, 300 elements on device 0 (256 threads, 65535 X blocks) launch as `(2,1,1,256,1,1)`. |
| Scenarios.SecondDeviceFailureDisablesAll | cuda.go:240-253 | A context failure on the second of two devices leaves the machine uninitialised with no contexts and no channel. Device 0 keeps its empty arena map, and device 1's map stays nil. |

## Findings

| source | as written | input that shows it | evidently intended | confidence | as-written member | corrected member |
|---|---|---|---|---|---|---|
| cuda.go:90-92 | `gridDimY = calcBlocks(blocks % maxGridX, maxGridY)` | 1024 threads, grid 2147483647×65535×65535, `n = 2*2147483647*1024`: blocks is `2*maxGridX`, so `gridDimY = 0` | `gridDimY = ceil(blocks / maxGridX)`, so that `maxGridX` blocks per row cover every block | medium, not executed | GridCoverage.ElemGridSizeDropsRows | GridCoverage.CoveringGridSize |
| cuda.go:85-88 | `gridDimZ = calcBlocks(blocks % (maxGridX*maxGridY), maxGridZ)` | same device, `n = 2147483647*65535*1024`: blocks is `maxGridX*maxGridY`, so `gridDimZ = 0` | `gridDimZ = ceil(blocks / (maxGridX*maxGridY))`, so that full planes cover every block | medium, not executed | GridCoverage.ElemGridSizeDropsPlanes | GridCoverage.CoveringGridSize |

In both cases the row (or plane) count of a block count that is not a whole
multiple is unrelated to the number needed. It can be too few:
`GridCoverage.ElemGridSizeShortRows` shows a 4×4×4 grid with one thread per
block giving 4 lanes for 9 elements.
`CoveringGridSize` proves coverage and the per-dimension limits for `n >= 1`
whenever the block count is below the grid capacity. At or above that
capacity, both versions return all ones, and the caller is expected to split
the launch.

## Left out

- Geometry.ElemGridSize: does not claim that the shape covers all `n` elements or that `gridDimY`/`gridDimZ` stay within their limits in the full-row and full-plane cases, because the code does not guarantee either (see Findings). It also does not pin those two values down beyond the counterexamples.
- Lifecycle.HasFunc: states only that a nil function table knows no function. The full answer is the table's key lookup itself, and the table's contents are filled by the module loader, which is not part of this model.
- `collectWork`, `collectBLASWork`, `signal` and the `WorkAvailable` getter: goroutine fan-in over channels. The relays' effect on the model is only that they set `hasWork[i]` or `blasHasWork`, which `DoWork` takes as input.
- Closing the work channel in `initFail`: channel semantics. The model records only that the channel becomes nil.
- The driver calls (`NumDevices`, `GetDevice`, `MakeContext`, `Attributes`, `MemInfo`, `NewBatchedContext`, `SetCurrent`, the contexts' `DoWork`, `Errors` and `Cleanup`, and the BLAS backend's `DoWork`): foreign calls. Their answers are inputs, and a new context is `Context(i)`.
- The out-of-memory branch's extra memory query and all logging: diagnostics only. `NoContext(outOfMemory)` takes the same failure transition as any other failed probe.
- `Cleanup`: a loop of foreign calls that changes no modelled state.
- The getters `Contexts`, `Modules` and `Functions`, the `AddToStdLib` write to the global kernel-source table, and the package `init` log line: trivial or global state outside the machine record.
- The internals of `memoryQueue`, which is not part of this model. Pools are sequences with FIFO `get`, and an empty pool answers "not found".
- Go's 64-bit overflow, for example of `maxGridX*maxGridY*maxGridZ`: integers are unbounded.
- Negative device ids: device ids are `nat`. The range guards in `Get` and `Put` do not catch negative values, which would panic.
- Panics are preconditions rather than modelled behaviour. They are: `ElemGridSize` on a device without a profile (its bounds check is empty); `Put` into a nil per-device map; `DoWork` on a flagged device without a (non-nil) context; and a driver that answers the attribute query without error but with fewer than eight values (storing them indexes past the end). `Lifecycle.WellFormed` asks for exactly eight values, one per attribute requested. A `maxThreadsPerBlock` of 0 would also panic, as a divisor.
- Geometry.ElemGridSize: assumes grid limits of at least 1, as a device reports them. This is not a panic: with a zero grid limit the product is 0 and the all-ones case is taken before any division by it.
