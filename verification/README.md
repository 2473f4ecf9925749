# memory3d, verified

memory3d is a virtual machine over a three-dimensional memory. An address names a region (X), a
plane inside it (Y) and a byte offset (Z). Each plane tracks its used bytes in a bitmap. The
allocator first looks in the regions used last, then spreads a block over several planes of one
region ("Y-promotion", undone when it falls short), then opens a new region. On top of it run a
byte-coded VM with a memory manager, a read cache and gas, and a lock-free gas accountant.

The project has two levels. The heap level has the program's own form: classes whose methods loop
over arrays, maps and lists and update them in place. Every such method is tied by its `ensures`
to a function on plain values, and the theorems are about those functions, over all inputs and
all runs.

| files | what they hold |
|---|---|
| `Words`, `FirstFit`, `Bitmap` | 64-bit masks; first fit on a sequence of flags, with the 16-bit arithmetic of the search; the word-packed bitmap |
| `Model`, `Placement`, `Effects`, `Layout`, `Invariant`, `Handles`, `Grants`, `Runs`, `Ids`, `Threshold`, `Witnesses`, `Lru`, `Scans` | the allocator on values: what each path does, the layout invariant, freeing with any handle, where a request goes, all runs, allocation IDs, the exact plane-size bound, reachable failures, the region list, map scans |
| `Plane`, `Region`, `Allocator` | the allocator as objects on the heap |
| `Codec`, `Instructions`, `Cache`, `Vm`, `Execution` | byte encodings, decoding, the cache, the VM on values, its loop |
| `Assembly`, `Programs` | byte layout, price and meaning of every instruction, written down independently, and whole programs in those terms |
| `OnePlane`, `Trust`, `Isolation`, `Blocks`, `FlatMemory`, `VmRuns`, `Usage`, `Reads`, `CarefulRuns`, `VmThreshold` | which requests are answered rightly, the VM's memory as a flat map, the invisible cache, usage counters, reads and writes over runs, the exact bounds for the VM |
| `Machine` | the VM as an object on the heap |
| `Gas` | the gas accountant as atomic steps of any number of threads |

## Main results

- **Search.** `FindContiguous` is first fit whenever a fit exists. Its range ends are 16-bit sums
  that can wrap; it reports "no room" correctly exactly when a stated condition on the free bits
  holds, and under the callers' free-count guard that is always so up to 43690 bytes.
- **Layout.** Every operation keeps "the used bytes are tiled by the live allocations and all
  counters are exact" if and only if it is neither an empty request while a region of the type has
  room nor a free, with a live or a stale handle, that removes anything but one single-plane entry
  of the handle's size.
- **Exact bound.** Every lawful allocator run is safe if and only if planes have at most 43690
  bytes; likewise, for the VM, no program panics or is given a block it cannot read back if and
  only if planes have at most 43690 bytes. The shipped size, 65535, is beyond the bound. Without
  frees every size is safe.
- **Y-promotion** takes all of its fragments or changes nothing. Without frees, a request for more
  than a plane is granted if and only if it is at most the configured number of planes' worth of
  bytes and some region of the type has that many free.
- **Placement.** Where a request goes is decided by the free bytes and the region list alone: first
  listed region with a free run, else the region with most free bytes, else a new one.
- **Requests.** For every plane size, a request of the VM is answered rightly if and only if a
  stated condition on the bitmaps holds when it is made; otherwise it panics or is granted a run
  that leaves its plane. With planes of at most 43690 bytes, or without frees, it always holds.
- **Flat memory.** Over every run of programs and host calls whose requests meet that condition,
  frees included and for every plane size, the VM's memory is a map from live blocks to bytes: a
  load returns what the last store to that block left, whatever happened to other blocks, and the
  cache cannot be observed although eviction leaves its map entries behind.
- **Programs.** The decoder inverts an independent assembler and accepts nothing else. An assembled
  program does, on the bytes, what its operations mean one after the other, for literal prices, and
  stops exactly where gas, limit, halt or an error says.
- **Execution** composes over concatenation of programs, is bounded by gas, and accounts for every
  unit spent.
- **Gas.** Under every interleaving remaining, used and in-flight gas add up, up to refunds that no
  recorded use stood behind, if and only if no addition wraps; each wrap loses 2^64. An undisturbed
  refund takes back what a charge recorded.

## Where the code and its description part

The model follows the code in each case.

- A search without room is meant to fail; with planes above 43690 bytes it can return a range past
  the plane's end or crash (`internal/types/bitmap.go:98-140`).
- Freeing a Y-promoted allocation clears, in the first plane only, as many bytes as the whole
  allocation has (16-bit), and leaves the other fragments marked
  (`internal/allocator/allocator.go:475-489`). A stale handle frees whatever is filed under its
  address now and credits its own size (`Handles.FreeKeepsInvIffHarmless`).
- A request for no bytes succeeds with the zero address and takes 2^32 off the region's free
  counter (`internal/allocator/allocator.go:385-397`).
- The cache's capacity bounds its list but not its map (`internal/vm/spatial.go:72-81`): see
  `CacheModel.Replay` for the exact size of the map.
- The fast path drops the caller's flags (`internal/allocator/allocator.go:194-217`): see
  `Effects.FlagsSurviveIff`.
- A failed allocation leaves an empty region behind (`internal/allocator/allocator.go:408-447`).
- `AllocateInRegion` is documented to be called with the region write-locked; its call of
  `AddPlane`, which takes that lock itself, would then never return
  (`internal/types/region.go:103-105`). Locks are not modelled, so neither is this.

## Model

| member | source | states |
|---|---|---|
| `FirstFit.FindsFirstFit` | internal/types/bitmap.go:64-148 | whenever a free run of the size exists, the search, with all its 16-bit wrap-arounds, returns the least start of one |
| `FirstFit.FailsIffWrapSafe` | internal/types/bitmap.go:98-140 | when no run exists, the search says so if and only if no late free bit makes `startPos+size` wrap |
| `FirstFit.ShortIsWrapSafe` | internal/types/bitmap.go:99-104 | length plus size at most 65536 rules every wrap out |
| `FirstFit.GuardedIsWrapSafe` | internal/allocator/allocator.go:211-213 | under the callers' free-count guard, no bitmap of at most 43690 positions ever wraps |
| `FirstFit.CountFreeMark` | internal/types/bitmap.go:151-156 | marking a free range costs exactly its length |
| `FirstFit.CountFreeUnmark` | internal/types/bitmap.go:158-163 | clearing a used range gives back exactly its length |
| `BitmapModel.Bitmap.constructor` | internal/types/bitmap.go:14-22 | all positions free, and the bits past the size clear |
| `BitmapModel.Bitmap.Set` | internal/types/bitmap.go:25-35 | exactly position `pos` becomes used, out-of-range positions change nothing, the tail stays clear |
| `BitmapModel.Bitmap.Clear` | internal/types/bitmap.go:38-48 | exactly position `pos` becomes free, the tail stays clear |
| `BitmapModel.Bitmap.IsSet` | internal/types/bitmap.go:51-61 | reads one position; false past the size |
| `BitmapModel.Bitmap.SetRange` | internal/types/bitmap.go:151-156 | exactly the positions of the half-open range become used |
| `BitmapModel.Bitmap.ClearRange` | internal/types/bitmap.go:158-163 | exactly the positions of the half-open range become free |
| `BitmapModel.Bitmap.RangeIsFree` | internal/types/bitmap.go:103-140 | the masked word-by-word test decides whether the possibly wrapped range holds a used position, or crashes |
| `BitmapModel.Bitmap.FreeBitsOf` | internal/types/bitmap.go:72-89 | the inverted, masked word has a one exactly at the free positions of that word |
| `BitmapModel.Bitmap.SearchWord` | internal/types/bitmap.go:72-145 | trying the free bits of a word in turn advances the position-by-position search over that word |
| `BitmapModel.Bitmap.FindContiguous` | internal/types/bitmap.go:64-148 | the word-packed search returns what the position-by-position search returns |
| `BitmapModel.Bitmap.UsedBytes` | internal/types/bitmap.go:174-180 | the popcount of the words is the number of used positions |
| `BitmapModel.Bitmap.FreeBytes` | internal/types/bitmap.go:165-171 | size minus popcount is the number of free positions |
| `PlaneModel.Plane.constructor` | internal/types/plane.go:20-34 | a free plane of the given size; size 0 stands for 65535 |
| `PlaneModel.Plane.Allocate` | internal/types/plane.go:37-48 | marks the run that the search returns, with a 16-bit end, and nothing else |
| `PlaneModel.Plane.Free` | internal/types/plane.go:51-63 | clears what the map entry says, with 16-bit arithmetic, and drops the entry; false changes nothing |
| `PlaneModel.Plane.IsAllocated` | internal/types/plane.go:66-77 | true exactly when some map entry reaches over the position, in any iteration order |
| `PlaneModel.Plane.GetContainingAllocation` | internal/types/plane.go:80-90 | an entry that reaches over the position, or none if there is none |
| `PlaneModel.Plane.Undo` | internal/allocator/allocator.go:356-367 | clears one fragment and drops the entry at its start |
| `PlaneModel.Plane.Write` | internal/vm/memory_manager.go:186-187 | exactly the addressed bytes of the plane change |
| `Scans.ScanAgreesWithBitmap` | internal/types/plane.go:65-90 | in every state that keeps the invariant, on a plane without pieces of promoted allocations, the map scan is true exactly where the bit is set, and at most one entry reaches a position, so the order of the scan does not matter |
| `RegionModel.Region.AddPlane` | internal/types/region.go:103-109 | appends the plane and adds its size and free bytes to the counters |
| `RegionModel.Region.GetPlane` | internal/types/region.go:131-141 | the first plane with the ID, or past the end |
| `RegionModel.Region.FreeTotals` | internal/allocator/allocator.go:261-271 | the sum of the planes' free bytes and the number of planes with any |
| `RegionModel.Region.TakeSpot` | internal/allocator/allocator.go:211-233 | takes the run of the first plane that passes guard and search; a miss leaves the region as it was |
| `RegionModel.Region.Serve` | internal/allocator/allocator.go:211-233 | takes a spot, files the handle and updates the counters, in one region |
| `RegionModel.Region.Carve` | internal/allocator/allocator.go:317-352 | the fragment loop carries out `Carve` on the region's planes |
| `RegionModel.Region.Rollback` | internal/allocator/allocator.go:354-370 | the rollback loop carries out `Rollback` |
| `RegionModel.Region.Spread` | internal/allocator/allocator.go:310-397 | a finished promotion with its handle filed and counters updated, or everything put back |
| `RegionModel.Region.FreeFragments` | internal/allocator/allocator.go:475-489 | frees each fragment its plane's map knows and ignores the rest |
| `RegionModel.Region.Release` | internal/allocator/allocator.go:475-509 | gives an allocation back and updates the counters; an error changes nothing |
| `AllocatorModel.Allocator.constructor` | internal/allocator/allocator.go:81-107 | no regions, both ID counters at one |
| `AllocatorModel.Allocator.TryFastAllocation` | internal/allocator/allocator.go:194-239 | the loop over the region list takes the first spot in list order, installs it and promotes the region, or changes nothing |
| `AllocatorModel.Allocator.FindBest` | internal/allocator/allocator.go:251-285 | the scan over the region map, in any order, ends with an eligible region of most free bytes, or none is eligible |
| `AllocatorModel.Allocator.TryYPromotion` | internal/allocator/allocator.go:243-406 | carries out the promotion of the value model, with the region met first as tie-break; `Grants` says which requests that grants |
| `AllocatorModel.Allocator.PromoteRegionLru` | internal/allocator/allocator.go:515-536 | the list of region pointers is moved to front and trimmed as the list of IDs is |
| `AllocatorModel.Allocator.AllocateNewRegion` | internal/allocator/allocator.go:408-448 | registers a region with one plane and serves the request there or fails |
| `AllocatorModel.Allocator.Allocate` | internal/allocator/allocator.go:170-192 | the three paths on the heap leave what the value model's `Allocate` says, for the tie-break taken; unless the process crashed |
| `AllocatorModel.Allocator.AllocateInRegion` | internal/allocator/allocator.go:626-669 | existing planes first, then one more plane, as the value model's `AllocateInRegion` |
| `AllocatorModel.Allocator.Free` | internal/allocator/allocator.go:463-513 | `freeSync` on the heap is the value model's `Free`, error returns included |
| `AllocatorModel.Allocator.Grow` | internal/types/region.go:103-109 | adds a fresh plane to a registered region and nothing else |
| `Placement.RightIffWrapSafe` | internal/types/bitmap.go:64-148 | a search answers as plain first fit would if and only if a fit exists or no wrap can occur |
| `Placement.PrefixSearch` | internal/types/bitmap.go:64-148 | if the used bytes form a prefix, a guarded search returns the used count, for every plane size up to 65535 |
| `Placement.CarveSpec` | internal/allocator/allocator.go:317-352 | fragments are wholly free first fits in planes of increasing position, and sizes plus remainder add up to the request |
| `Placement.RollbackRestores` | internal/allocator/allocator.go:354-370 | the rollback undoes a carving exactly: every bitmap and map as before |
| `Effects.AllOrNothing` | internal/allocator/allocator.go:287-406 | a promotion takes fragments that sum to the size in distinct planes of one region and changes nothing else, or leaves the whole allocator unchanged; it never crashes |
| `Effects.PrefixCarving` | internal/allocator/allocator.go:317-352 | on prefixes the fragment loop always gets all it needs |
| `Effects.AllocateEffect` | internal/allocator/allocator.go:170-192 | for a positive size, whichever path serves: one region takes the pieces out of free space and is booked; failure means the size exceeds a plane and leaves one empty region (which path serves and when a large size is granted: `Grants.AllocateGoesTo`, `Grants.LargeGrantIff`) |
| `Effects.NewRegionEffect` | internal/allocator/allocator.go:408-448 | a new region serves the request at its start exactly when it fits a plane |
| `Effects.FlagsSurviveIff` | internal/allocator/allocator.go:194-217 | the flags of a granted request survive if and only if there are none or the fast path did not serve it |
| `Effects.BestExists` | internal/allocator/allocator.go:251-285 | whenever a region is eligible, some region is best |
| `Effects.GrantedParts` | internal/allocator/allocator.go:373-383 | every grant has the size and type asked for and the next ID, which is used up |
| `Grants.SpotIsFirst` | internal/allocator/allocator.go:211-233 | where searches are right, the loop over a region's planes finds the first fit of the first plane that has a free run, or there is none |
| `Grants.FastIsFirst` | internal/allocator/allocator.go:194-239 | the fast path serves from the first region of the list that has the type and a free run, there from the first plane and at the least start, or no listed region has one |
| `Grants.CarveIsShort` | internal/allocator/allocator.go:317-352 | the fragment loop falls short by exactly what is left after every plane in turn gave all its free bytes, or as many as still needed, if it has them in one run |
| `Grants.ChoiceIsMostFree` | internal/allocator/allocator.go:251-285 | a promotion tries a region of the type with most free bytes, the first met among equals, and tries one if and only if some region of the type has as many free bytes as asked for |
| `Grants.AllocateGoesTo` | internal/allocator/allocator.go:170-192 | the whole decision of a request, on free bytes and the region list: the first listed region with a free run; else, within the configured number of planes, the region with most free bytes if its planes do not fall short; else the start of a new region if the size fits a plane; else failure |
| `Grants.InvGoesTo` | internal/allocator/allocator.go:170-448 | so decides every request in a state that keeps the layout invariant and whose searches are right |
| `Grants.LargeOutcome` | internal/allocator/allocator.go:243-406 | a request for more than a plane fails exactly if it takes more than the configured planes, or no region of the type has the free bytes, or the planes of the one with most free bytes fall short |
| `Grants.LargeGrantIff` | internal/allocator/allocator.go:243-406 | without frees, for every plane size: a request for more than a plane is granted if and only if it is at most plane size times the configured number of planes and some region of the type has that many bytes free; sizes so close to 2^32 that rounding up overflows are measured by the remainder |
| `Grants.AllocateInGoesTo` | internal/allocator/allocator.go:626-669 | serves from the first plane with a free run, else at the start of a plane it adds, else fails and the added plane stays |
| `Layout.PlacedKeepsTiled` | internal/allocator/allocator.go:310-393 | placing pieces in free space keeps "used bytes are exactly the disjoint pieces of live allocations" |
| `Layout.ReleasedKeepsTiled` | internal/types/plane.go:51-63 | freeing a single-plane allocation keeps it too |
| `Layout.OccupyCost` | internal/allocator/allocator.go:396-397 | taking pieces lowers the planes' free total by exactly their sizes |
| `Invariant.CounterIsExact` | internal/allocator/allocator.go:205-224 | in every state that keeps the invariant the region counter is the planes' free total and at most the total bytes, and a region that the pre-check skips has no spot for the request |
| `Invariant.PlaneCountTestIsRedundant` | internal/allocator/allocator.go:246-281 | enough free bytes already imply enough planes with free bytes |
| `Invariant.EnoughFragments` | internal/allocator/allocator.go:317-352 | a finished promotion has at least as many fragments as planes were needed |
| `Invariant.AllocateKeepsInvIff` | internal/allocator/allocator.go:170-448 | an allocation never crashes, keeps layout and counters exact if and only if it is not an empty request that finds room, and fails only for sizes 0 or above a plane |
| `Invariant.ZeroEffect` | internal/allocator/allocator.go:243-406 | what exactly an empty request does: zero-address handle filed under start 0 of the best region, or failure when no region has room |
| `Invariant.ZeroBreaks` | internal/allocator/allocator.go:385-397 | an empty request that succeeds always breaks the invariant |
| `Invariant.FreeKeepsInvIff` | internal/allocator/allocator.go:463-513 | freeing a live handle succeeds, and keeps the invariant if and only if it is not Y-promoted |
| `Invariant.FreePromotedBreaks` | internal/allocator/allocator.go:475-489 | after freeing a promoted allocation its second fragment is marked but owned by nobody |
| `Handles.PromotedFreeClears` | internal/allocator/allocator.go:475-489 | what exactly it clears: in the plane of the first fragment as many bytes as the whole allocation has, in 16 bits, whoever owns them; nothing elsewhere |
| `Runs.AllocateInEffect` | internal/allocator/allocator.go:626-669 | takes the space in an existing plane or in one it adds; on failure the added plane stays |
| `Runs.GrowKeepsInv` | internal/types/region.go:103-109 | adding a plane keeps layout and counters exact |
| `Handles.FreeKeepsInvIffHarmless` | internal/allocator/allocator.go:463-513 | freeing any handle, live or stale, errs and changes nothing, or removes the entries found under it; the invariant survives if and only if it errs or removes exactly one entry, not promoted, of the handle's size |
| `Handles.LiveIsHarmlessIff` | internal/allocator/allocator.go:463-513 | for a live handle that means: it is not Y-promoted |
| `Runs.StepKeepsInvIff` | internal/allocator/allocator.go:170-513 | every public operation, frees with any handle included, keeps the invariant if and only if it is neither an empty request with room nor a harmful free |
| `Runs.RunsAreSafe` | internal/allocator/allocator.go:170-669 | over every run, frees included, with planes of at most 43690 bytes: layout and counters stay exact and nothing crashes |
| `Ids.ActKeepsNumbers` | internal/allocator/allocator.go:170-513 | every operation, frees with any handle included, keeps the IDs of filed allocations pairwise different |
| `Ids.IdsAreDistinct` | internal/allocator/allocator.go:215-217 | over every run from a new allocator no two filed allocations have the same ID |
| `Runs.PromotionNeverRollsBack` | internal/allocator/allocator.go:287-370 | in runs without frees an attempted promotion always succeeds |
| `Runs.StepKeepsPrefix` | internal/allocator/allocator.go:170-448 | every operation but a free keeps the used bytes of every plane a prefix, for every plane size |
| `Runs.RunsWithoutFrees` | internal/allocator/allocator.go:170-448 | over every run without frees, for every plane size: prefixes throughout and no crash |
| `Runs.LawfulRunsWithoutFrees` | internal/allocator/allocator.go:170-448 | over every run without frees and empty requests, for every plane size: layout and counters stay exact |
| `Witnesses.EmptyRequestBreaksAReachableState` | internal/allocator/allocator.go:385-397 | for every plane size above 1: one byte allocated, then an empty request, and the invariant is gone |
| `Witnesses.FlagsGetLost` | internal/allocator/allocator.go:194-217 | for every plane size above 1: the second of two requests for a byte loses its flags |
| `Witnesses.FreeingAPromotedOneBreaksAReachableState` | internal/allocator/allocator.go:475-489 | for every plane size, if two promotions are allowed: four calls without a free lead to a live promoted allocation whose freeing breaks the invariant |
| `Threshold.SearchGoesWrong` | internal/types/bitmap.go:98-140 | for every length above 43690 a bitmap on which a guarded search returns a range past the end or crashes |
| `Threshold.LargePlanesUnsafe` | internal/types/constants.go:8 | above 43690 a run of four lawful calls crashes or breaks the invariant |
| `Threshold.SafeExactlyUpToThreshold` | internal/types/constants.go:8 | all lawful runs are safe if and only if planes have at most 43690 bytes |
| `Lru.BoundedIsTaken` | internal/allocator/allocator.go:515-536 | after any promotion history the region list is the first 100 entries of the unbounded move-to-front list |
| `Lru.LruIsMostRecent` | internal/allocator/allocator.go:515-536 | no duplicates, ordered by last promotion, every region left out is older than all listed ones, nothing left out below 100 |
| `Lru.ActServes` | internal/allocator/allocator.go:515-536 | an operation promotes exactly the region that served it, and none if it was not served |
| `Lru.RunLru` | internal/allocator/allocator.go:515-536 | in every run the allocator's list is the bounded list of the regions that served the run's requests, in that order |
| `Lru.RunLruIsMostRecent` | internal/allocator/allocator.go:515-536 | from a new allocator: the hundred regions that served last, without duplicates, the latest first |
| `Codec.FromBytesOfBytes` | internal/types/address.go:27-45 | decoding an encoded address gives it back |
| `Codec.BytesOfFromBytes` | internal/types/address.go:27-45 | encoding a decoded 14-byte string gives it back |
| `Codec.CompareIsLexicographic` | internal/types/address.go:73-93 | `Compare` is the byte-wise order of the encodings |
| `Codec.CompareIsTotalOrder` | internal/types/address.go:73-93 | zero only on equal addresses, antisymmetric, transitive |
| `Codec.GetPut` | internal/vm/executor.go:413-424 | reading back a written word gives it back |
| `Instructions.FetchedIsWellTyped` | internal/vm/instructions.go:34-258 | whatever is fetched has the length of the size table, lies in the program, and has the operands its handler asks for; which bytes they come from is in `Assembly` |
| `Assembly.FetchOfAssembled` | internal/vm/instructions.go:34-258 | for all eleven instructions, every value of every field and anything in the padding: the assembled bytes, wherever they stand in a program, are fetched as the instruction they were assembled from |
| `Assembly.FetchedIsAssembled` | internal/vm/instructions.go:34-258 | whatever is fetched from any program is the instruction assembled in the bytes there |
| `Assembly.FetchesIff` | internal/vm/vm.go:194-228 | a fetch succeeds if and only if one of the eleven instructions is encoded there in full |
| `Instructions.FetchBefore` | internal/vm/vm.go:194-228 | appending bytes does not change what is fetched before them |
| `Instructions.FetchAfter` | internal/vm/vm.go:194-228 | prepending bytes only shifts positions |
| `CacheModel.SpatialCache.Get` | internal/vm/spatial.go:36-53 | answers from the map; the element found moves to the front of the list, which keeps its order otherwise |
| `CacheModel.SpatialCache.Put` | internal/vm/spatial.go:56-82 | this address answers the new bytes, every other address as before; its element comes to the front and a full list loses its last element, not its map entry |
| `CacheModel.SpatialCache.Invalidate` | internal/vm/spatial.go:85-93 | this address no longer answers and its element leaves the list, every other address as before |
| `CacheModel.NothingIsForgotten` | internal/vm/spatial.go:56-93 | after any history an address answers exactly if a store to it was not dropped since, with the bytes of the last store |
| `CacheModel.Replay` | internal/vm/spatial.go:26-93 | through any history the list stays within 1000 and the map has one entry per such address, so it outgrows the capacity if and only if there are more than 1000 of them |
| `CacheModel.MapOutgrowsCapacity` | internal/vm/spatial.go:72-81 | for every number there is a history that leaves that many entries |
| `Execution.ExecuteComposes` | internal/vm/vm.go:139-228 | if `p` completes, running `p` and `q` as one program is running `p` and then `q`: registers, memory, cache, gas, count and ending |
| `Execution.ExecuteAccounts` | internal/vm/vm.go:158-192 | used gas rises by exactly the summed cost of the charged instructions (the cost in numbers: `Assembly.PriceOnBytes`) |
| `Execution.ExecuteIsBounded` | internal/vm/vm.go:139-192 | at most max(1, gas) instructions, and the instruction limit is passed by at most one |
| `Execution.ExecuteEndsWell` | internal/vm/vm.go:177-185 | a run of a non-empty program that returns no error has gas left |
| `Execution.TurnCounts` | internal/vm/vm.go:230-235 | an instruction takes exactly its cost or, if that is not there, errs and takes nothing (the cost in numbers: `Assembly.PriceOnBytes`) |
| `Assembly.PriceOnBytes` | internal/vm/vm.go:310-340 | the price read off the bytes: 10, 15 and 20 plus twice the 32-bit size field for load, store and allocation, 25 plus twice the size byte for a copy, 5 for a free and a size query, 2 for a move, 3 for a sum and a difference, 1 for no operation and halt |
| `Assembly.ChargedByBytes` | internal/vm/vm.go:230-235 | an instruction is refused, and takes nothing, exactly when less than that price is left; otherwise it takes exactly the price |
| `Assembly.ExecuteAccountsByBytes` | internal/vm/vm.go:139-192 | a run takes exactly the sum of the prices, read off the bytes, of the instructions it pays for |
| `Execution.ExecuteEndings` | internal/vm/vm.go:147-192 | a run ends for the reason it gives: out of gas, at the limit, halted by a halt that it paid for, or at the end of the program |
| `Execution.HostStoreCharges` | internal/vm/vm.go:453-455 | a host store that succeeds takes fifteen units a byte and records them as used; one that fails takes none |
| `Execution.RegisterReads` | internal/vm/registers.go:65-72 | a register with fewer than eight bytes reads as 0, a longer one as its first eight bytes, so an allocated address reads as its region |
| `OnePlane.FastScanExact` | internal/allocator/allocator.go:194-239 | with one plane to a region, the fast path misses rightly or hits a first fit if and only if every plane it searches in vain is free of wraps |
| `OnePlane.TrustedEffect` | internal/allocator/allocator.go:170-448 | a trusted request takes free space in one region or fails because it exceeds a plane; for every plane size |
| `Trust.RightIffTrusted` | internal/allocator/allocator.go:170-448 | for every plane size and whatever was freed, a request of the VM does not panic and is granted free space only, if and only if the trust condition on bitmaps, region list and tie-break holds when it is made |
| `Trust.DistrustedGoesWrong` | internal/types/bitmap.go:98-140 | a request that is not trusted panics or is granted a run that leaves its plane |
| `Trust.GrantStartsFree` | internal/types/bitmap.go:64-148 | trusted or not, what is granted never starts at a used byte |
| `Trust.CarefulIsTrusted` | internal/allocator/allocator.go:211-213 | with planes of at most 43690 bytes, or with prefixes of used bytes, every request is trusted |
| `OnePlane.AllocateInFlat` | internal/allocator/allocator.go:170-448 | in VM states a trusted request of positive size succeeds if and only if it fits a plane, takes the first fit in the only plane of some region, and is never promoted |
| `OnePlane.AllocateNothing` | internal/allocator/allocator.go:243-406 | in VM states an empty request changes no used byte |
| `OnePlane.FreeInFlat` | internal/allocator/allocator.go:463-513 | for every plane size, freeing clears exactly what the map entry says, in one plane, or errs |
| `Isolation.MixedWidthExact` | internal/vm/memory_manager.go:107-131 | the 16-bit and 32-bit bounds checks together accept a 32-bit access size exactly when it is at most the block's size |
| `Isolation.CheckIsExact` | internal/vm/memory_manager.go:97-131 | access is granted exactly to a tracked block within its size, and never panics |
| `Isolation.LookupIsExact` | internal/vm/memory_manager.go:198-218 | the fragment scan never fires in VM runs: a lookup is the map lookup |
| `Isolation.LoadIsFlat` | internal/vm/memory_manager.go:97-146 | a load returns the front of the block's own bytes, or errs, never panics |
| `Isolation.StoreEffect` | internal/vm/memory_manager.go:148-196 | a store patches the addressed block and no other |
| `BlockLife.AllocateEffectOnBlocks` | internal/vm/executor.go:122-141 | an allocation adds one block at a new address; all others keep their bytes |
| `BlockLife.FreeEffectOnBlocks` | internal/vm/executor.go:153-171 | a free removes one block; all others keep their bytes |
| `FlatMemory.LoadRefines` | internal/vm/executor.go:31-55 | a load through the cache is a load from memory: same register, same success |
| `FlatMemory.StoreRefines` | internal/vm/executor.go:77-100 | a store is a patch of one block, with or without cache |
| `FlatMemory.CopyRefines` | internal/vm/executor.go:193-209 | a copy patches the target with the front of the source, both cached lines staying right |
| `FlatMemory.FreeRefines` | internal/vm/executor.go:153-171 | a free removes the block and its cache line; other addresses err |
| `FlatMemory.AllocRefines` | internal/vm/executor.go:122-141 | a trusted allocation adds a block at a new address and puts that address in register 0, exactly when the size fits |
| `FlatMemory.TurnRefines` | internal/vm/vm.go:230-268 | every trusted instruction, frees on planes of any size included, does to the VM what it does to the flat machine, cached and uncached alike, and never panics |
| `FlatMemory.ExecuteIgnoresCache` | internal/vm/vm.go:139-192 | every program whose requests are trusted ends alike with and without cache: same ending and same state but for the cache |
| `FlatMemory.ExecuteIsFlat` | internal/vm/vm.go:139-192 | what such a program does to registers and blocks, the flat machine does with the instructions paid for |
| `Programs.RunsAsMeant` | internal/vm/executor.go:11-410 | every assembled instruction that is paid for and trusted does what its own operands say: sum, difference or copy of named registers, load, store, copy, free, allocation or size of the named block; no other register or block changes; for its price |
| `Programs.ProgramMeans` | internal/vm/vm.go:139-268 | every assembled program whose requests are trusted does what its instructions mean, one after the other, ends where gas, limit, halt or an error stops it and with exactly the gas left that they did not cost |
| `Programs.AllocatesAsAsked` | internal/vm/executor.go:102-141 | for every plane size, an allocation that succeeds tracks one block under its own address, of the size and type in the instruction and, unless the fast path served it, with its flags, and leaves that address in register 0 |
| `VmRuns.HostStoreRefines` | internal/vm/vm.go:415-457 | exactly: a tracked block with room is patched; bytes for an untracked address that fit a plane get a new block that holds exactly them; everything else is an error and leaves the blocks alone; success means the bytes are there; the same without cache |
| `VmRuns.HostAllocateRefines` | internal/vm/vm.go:481-491 | a size that fits a plane succeeds and adds exactly one block, of that size, at the address returned, which was not tracked before; anything else leaves the blocks alone and returns the zero address; the same without cache |
| `VmRuns.RunsIgnoreCache` | internal/vm/vm.go:139-491 | over every run of programs and host calls whose requests are trusted, for every plane size, all answers are the same with and without cache, and nothing panics |
| `CarefulRuns.ExecuteIsTrusted` | internal/vm/vm.go:139-192 | with planes of at most 43690 bytes every program makes trusted requests only; with larger ones every program that frees nothing does |
| `CarefulRuns.RunsFromNewAreTrusted` | internal/vm/vm.go:88-491 | so does every run of such programs and host calls from a new machine |
| `VmRuns.LoadAfterAnyRun` | internal/vm/executor.go:31-55 | after every run from a new machine whose requests are trusted, a load through the cache gives what memory gives |
| `Reads.RunsKeepBlock` | internal/vm/memory_manager.go:148-196 | whatever a run with trusted requests does to other blocks, a block it does not store to, copy to or free keeps its bytes |
| `Reads.LastStoreWins` | internal/vm/executor.go:77-89 | after a successful store and any run with trusted requests that spares the block, every load within it succeeds and returns the stored bytes, cached or not |
| `Usage.RunsKeepCounted` | internal/vm/memory_manager.go:220-263 | every run of programs and host calls whose requests are trusted keeps the usage counters exact and backed by used bytes |
| `Usage.UsageAfterAnyRun` | internal/vm/memory_manager.go:220-263 | after every such run from a new machine each region's usage counter is the sum of the sizes tracked in it, and that sum and the plane's free bytes fit in the plane |
| `VmThreshold.TurnIsSafeIffTrusted` | internal/vm/vm.go:230-268 | for every plane size, an instruction keeps the machine's invariant and does not panic if and only if the request it pays for, if any, is trusted |
| `VmThreshold.BadProgramFails` | internal/vm/vm.go:90 | for every plane size above 43690 a program of four instructions panics or ends with a live block that cannot be read |
| `VmThreshold.VmSafeExactlyUpToThreshold` | internal/vm/vm.go:88-95 | all programs avoid panics and leave every live block readable if and only if planes have at most 43690 bytes |
| `MachineModel.AllocateKeepsOneEach` | internal/allocator/allocator.go:170-448 | for every plane size, whatever the searches return, a VM request keeps one plane to a region and what it grants is not spread over planes |
| `MachineModel.NewAddress` | internal/vm/vm.go:481-491 | for every plane size, trusted or not, a request of positive size is granted at an address that is not tracked |
| `MachineModel.Machine.constructor` | internal/vm/vm.go:88-122 | a machine with no regions, nothing tracked or cached, and the full gas limit |
| `MachineModel.Machine.GetAllocation` | internal/vm/memory_manager.go:198-218 | the exact match, else some promoted allocation around the address in any scan order, else none |
| `MachineModel.Machine.CheckAccess` | internal/vm/memory_manager.go:101-131 | the checks in the order and widths of the code |
| `MachineModel.Machine.MemoryLoad` | internal/vm/memory_manager.go:97-146 | the load on the heap is the value model's load |
| `MachineModel.Machine.MemoryStore` | internal/vm/memory_manager.go:148-196 | the store on the heap writes exactly what the value model's store writes, or nothing |
| `MachineModel.Machine.TrackAllocation` | internal/vm/memory_manager.go:220-242 | tracks the handle and adds its size to the region's usage |
| `MachineModel.Machine.UntrackAllocation` | internal/vm/memory_manager.go:244-263 | drops the handle and takes its size off again |
| `MachineModel.Machine.ExecuteLoad` | internal/vm/executor.go:11-55 | the handler on the heap is the value model's handler |
| `MachineModel.Machine.ExecuteStore` | internal/vm/executor.go:57-100 | the handler on the heap is the value model's handler |
| `MachineModel.Machine.ExecuteAlloc` | internal/vm/executor.go:102-141 | the handler on the heap is the value model's handler, for the tie-break taken |
| `MachineModel.Machine.ExecuteFree` | internal/vm/executor.go:143-171 | the handler on the heap is the value model's handler |
| `MachineModel.Machine.ExecuteCopy` | internal/vm/executor.go:173-209 | the handler on the heap is the value model's handler |
| `MachineModel.Machine.ExecuteSize` | internal/vm/executor.go:383-410 | the handler on the heap is the value model's handler |
| `Execution.ComputedMeans` | internal/vm/executor.go:293-381 | the target's word is the sum modulo 2^64 of the sources' words, or the word that added to the second gives the first, or the target is a copy; no other register changes |
| `MachineModel.Machine.ExecuteAdd` | internal/vm/executor.go:293-324 | reading the target back gives the sum of the two words modulo 2^64; no other register changes |
| `MachineModel.Machine.ExecuteSub` | internal/vm/executor.go:326-357 | the word read back from the target, added to the second source's, gives the first source's modulo 2^64; no other register changes |
| `MachineModel.Machine.ExecuteMov` | internal/vm/executor.go:359-381 | the target reads as the source did; no other register changes |
| `MachineModel.Machine.Consume` | internal/vm/gas.go:72-85 | takes the gas and records it as used, or finds too little and changes nothing |
| `MachineModel.Machine.ExecuteTurn` | internal/vm/vm.go:230-268 | charge, dispatch and count of one instruction, for the tie-break taken |
| `MachineModel.Machine.Execute` | internal/vm/vm.go:139-192 | for every plane size and program, the loop on the heap ends as the value model's execution does with the tie-breaks its allocations took, and in the same state unless it panicked |
| `MachineModel.Machine.AllocateMemory` | internal/vm/vm.go:481-491 | the host allocation on the heap is the value model's, address included; on success the tracked handles gain exactly the one at the returned address, of the size asked for, and from a state that keeps the machine's invariant that address is new, trusted or not |
| `MachineModel.Machine.HostStore` | internal/vm/vm.go:415-457 | the host store on the heap is the value model's, second attempt included |
| `Gas.StartBalanced` | internal/vm/gas.go:44-70 | the limit is spread over the buckets without loss, an equal share to each and the remainder to the first, nothing used |
| `Gas.StepKeepsBalanceIff` | internal/vm/gas.go:72-151 | an atomic step of any thread keeps remaining + used + in flight = limit + excess refunds if and only if its addition does not wrap |
| `Gas.BalancedIffNeverWraps` | internal/vm/gas.go:72-151 | over every schedule of any number of threads over any number of buckets the books balance at the end if and only if no addition wrapped, and are short of exactly 2^64 for each wrap |
| `Gas.FitsNeverWraps` | internal/vm/gas.go:72-151 | while the limit and the refunds asked for fit in 64 bits, no step can wrap |
| `Gas.PlayKeepsBalance` | internal/vm/gas.go:72-151 | so a schedule whose limit and requested refunds fit in 64 bits never wraps and keeps the books balanced |
| `Gas.NoOverdraft` | internal/vm/gas.go:72-151 | over every schedule that does not wrap, charges never exceed limit plus refunds, and when all threads are idle, remaining plus used is limit plus excess |
| `Gas.TotalGrowsIffUnbacked` | internal/vm/gas.go:126-151 | a step that does not wrap never lowers the total of remaining, used and in-flight gas, and raises it exactly when it refunds more than the use it saw |
| `Gas.BackedRunsHaveNoExcess` | internal/vm/gas.go:126-151 | if every refund is at most the use its swap saw and nothing wraps, the total of remaining, used and in-flight gas never changes |
| `Gas.WrapBreaksBalance` | internal/vm/gas.go:126-151 | wraps are within reach: from a fresh single bucket, every refund that takes the limit past 64 bits wraps it within three steps |
| `Gas.ConsumeAlone` | internal/vm/gas.go:72-95 | an undisturbed `Consume` takes the amount from the bucket whose turn it is and records it as used, or finds too little there and changes nothing; either way it ends |
| `Gas.RefundAlone` | internal/vm/gas.go:126-151 | an undisturbed `Refund` ends; the first bucket with recorded use loses up to the amount from it and gains the whole amount, modulo 2^64; if none has use, the first bucket gains it; all others stay as they were |
| `Gas.RefundUndoesConsume` | internal/vm/gas.go:72-151 | on one bucket, `Consume(g)` and then `Refund(r)` with `r <= g` leave `limit - g + r` remaining and `g - r` used |
| `Gas.CallsRunToTheEnd` | internal/vm/gas.go:72-151 | under every interleaving a call returns only after it recorded its charge, found too little or gave the gas back, and keeps its amount (a `Consume` its bucket) until then |

## Left out

- Tie-breaks: the region that Y-promotion picks among equals follows Go's map iteration order; the value model takes it as the parameter `hint`, the heap methods report the one they took.
- Locks, worker channels, object pools, pause and halt channels, timestamps, latency metrics, logs: the allocator and VM operations run one at a time under their mutexes; only the gas accountant is modelled step by step.
- Widths: region and allocation IDs are unbounded, and a region has fewer than 2^32 planes; offsets, sizes, counters and gas have their 16, 32 and 64 bits.
- Plane IDs are the planes' positions, as at every call site; a configured plane size of 0 divides by zero in the original and is excluded.
- Byte slices are immutable values; the code never writes into a slice it shares, and a host that later overwrites a buffer it passed in is not modelled.
- AllocatorModel.Allocator.Allocate: says nothing about the state after a crash of the search, since the process is gone.
- MachineModel.Machine.Execute: says nothing about the state after such a crash either, and relies on one plane to a region, which every VM run keeps.
- VmRuns.RunsIgnoreCache: covers runs whose requests are trusted; `VmThreshold.TurnIsSafeIffTrusted` shows that the first request that is not breaks the machine's invariant or panics. What happens after that is not described.
- VmRuns.HostStoreRefines: host data has fewer than 2^32 bytes; longer data is truncated by the original.
- Statistics other than `CurrentUsage` (maximum usage, access counts, access logs, hotness) do not bear on memory contents.
- Several gas buckets in `Remaining` and `Used`: the VM is built with one, and the machine keeps one pair of counters; `Gas` covers any number.
- The Merkle tree: its root depends on map iteration order and on SHA-256.
- The fragment planner `internal/allocator/ypromotion.go`, `RelocateAllocation`, `UpdateAllocationAddress`, `RemovePlane`, `calculateGas`: nothing the VM does calls them.
- Compaction and queries: their opcodes cannot be decoded; fragmentation scores and gas refund percentages are floating-point heuristics.
- Spatial prefetching only announces addresses on a channel; permission tables, `String` and `ParseAddress`, the command line and benchmarks do not touch memory contents.
