# TMFQS: a verified model of the chunked quantum simulator

TMFQS keeps a quantum state vector either in one dense buffer or in compressed chunks behind a write-back LRU cache with
nested batches, and puts a lazy affine overlay on top for Grover diffusion. This Dafny project models both stores, the
register, the simulator loop and the QFT and Grover generators, and proves that the fast parts mean what the simple
ones do, over all inputs and over whole runs. `dafny verify dfyconfig.toml` checks everything.

How the pieces fit:

- `Amplitudes`, `Bits`, `StateOps` say what an operation means on a plain vector; `PairKernels`, `GateBlocks` and
  `KernelMatrices` tie kernels to matrices and to bit-level maps. `GateLaws`, `CallLaws` and `OperationLaws` state, in
  terms of bits, components, literal matrices and readings, what every kernel, backend call and circuit operation does.
- `PairKernelExecutor`, `BlockEngine`, `ChunkLayouts` are the index traversals, as loops.
- `ChunkStores`, `ChunkCaches`, `ChunkViews`, `CompressedBackend` are the chunked store. Its abstraction function reads a
  chunk from its cached buffer if it is resident and from its decoded payload if not; it yields `None` when any
  invariant is broken, so `Abs() == Some(v)` states the invariants and the vector at once.
- `DenseBackend` is the reference store, `BackendRuns` the specification of runs both are held to.
- `AffineOverlays`, `Registers`, `Circuits`, `CircuitBuilders`, `Simulator` are the layers above, and `QftCorrectness`,
  `QftSuperpositions`, `GroverCorrectness`, `Conservation` and `EndToEnd` what whole circuits do.
- `GateMatch` and `Tolerance` are about the gate matchers: `applyGate` of the chunked store runs a matrix within 1e-12 of
  a built-in gate as that gate. The backend interface promises identical behaviour, which this breaks for matrices near
  but not equal to a built-in one: `DispatchCanDiffer` gives one, `DispatchPreservesExactly` says for which
  matrices it does not happen, and `DispatchError` bounds the difference.
- The stores also differ on stray batch ends and on initialising inside a batch (`StrayEndDiffers`,
  `LoadInBatchDiffers`); `SameOutcomes` says exactly when that matters.

Reading conventions: components are exact reals. The numeric library is a parameter, `Numerics`: `invSqrt(m)` stands for
`1.0 / std::sqrt(m)`, and `Exact()` says it is exact and that going through `atan2` scales a phase onto the unit circle. A
phase angle appears as its pair (cos, sin). The codec is a parameter with decode(encode(x)) = x. An error that the
source throws is a result (`ok == false`, `Rejected`, `None`) together with what the state is afterwards.

## Model

| member | source | states |
|---|---|---|
| `CompressedBackend.RunBoth` | include/tmfqs/storage/i_state_backend.h:16-20 | the same run of calls (updates, gates, reads, batches, initialisations, loads, exports, total probability, sampling) on a dense and on a chunked store, for any chunk width, any cache of two slots or more, a lossless codec, and gate matrices that are exactly built-in or matched by nothing, leaves equal vectors; the callers see the same results if and only if no batch is closed that was not opened since the last initialisation |
| `BackendRuns.SameVector` | include/tmfqs/storage/common/compressed_state_backend.h:711-746 | a run means the same vector under the chunked store's gate dispatch as under the dense store's plain matrix application, when every gate is exactly built-in or matched by nothing |
| `BackendRuns.SameOutcomes` | include/tmfqs/storage/common/compressed_state_backend.h:352-360 | what callers observe on the two stores agrees exactly when every batch end has its begin: the dense store ignores a stray end, the chunked one rejects it, and an initialisation closes all open batches |
| `BackendRuns.StrayEndDiffers` | include/tmfqs/storage/common/compressed_state_backend.h:352-355 | a lone batch end: done on the dense store, rejected on the chunked one |
| `BackendRuns.LoadInBatchDiffers` | include/tmfqs/storage/common/compressed_state_backend.h:256-266 | begin, load, end: accepted by the dense store, while the chunked one rejects the end because loading closed the batch |
| `BackendRuns.InitialisationMeans` | include/tmfqs/storage/i_state_backend.h:37-57 | what each initialisation leaves and reports, on both stores |
| `CallLaws.HadamardCall` | src/tmfqs/storage/dense/dense_state_backend.cpp:255-273 | a Hadamard call on either store is the matrix [[h, h], [h, -h]] on its qubit |
| `CallLaws.PauliXCall` | src/tmfqs/storage/dense/dense_state_backend.cpp:276-286 | an X call is the matrix [[0, 1], [1, 0]] on its qubit |
| `CallLaws.ControlledNotCall` | src/tmfqs/storage/dense/dense_state_backend.cpp:306-318 | a controlled-NOT call is its matrix on (control, target), in that order |
| `CallLaws.ControlledPhaseCall` | src/tmfqs/storage/dense/dense_state_backend.cpp:289-303 | a controlled-phase call is its matrix on (control, target) |
| `CallLaws.MatrixCall` | include/tmfqs/storage/common/compressed_state_backend.h:711-746 | a matrix call acts on its targets in the order listed: the matrix itself on the dense store, that of its route on the chunked one |
| `CallLaws.AmplitudeAfter` | src/tmfqs/storage/dense/dense_state_backend.cpp:77-244 | every other call, amplitude by amplitude: writes, flips and initialisations reach exactly the states they name, a reflection every state, and batch and reading calls none |
| `CallLaws.AffineAfter` | src/tmfqs/storage/dense/dense_state_backend.cpp:243-252 | any complex scale and bias reach every amplitude, component by component |
| `CallLaws.MeanReflection` | src/tmfqs/storage/dense/dense_state_backend.cpp:212-240 | the reflection uses the amplitude that, times the number of states, is the sum of all |
| `CallLaws.RejectionMeans` | src/tmfqs/storage/dense/dense_state_backend.cpp:84-339 | exactly which calls are rejected, from their arguments and the open batches |
| `CallLaws.RejectedKeeps` | src/tmfqs/storage/dense/dense_state_backend.cpp:84-339 | a rejected call leaves every amplitude alone, but a rejected basis initialisation leaves zeros |
| `CallLaws.ExportIsReads` | src/tmfqs/storage/dense/dense_state_backend.cpp:127-131 | entry s of an export is what reading state s gives |
| `CallLaws.TotalIsReads` | src/tmfqs/storage/dense/dense_state_backend.cpp:160-170 | the total probability is the sum of the squared magnitudes of what reading gives |
| `CallLaws.SampleOutcome` | src/tmfqs/storage/dense/dense_state_backend.cpp:173-187 | a sample gives the first state whose running total reaches it, and each error exactly when it should |
| `CallLaws.WriteThenRead` | src/tmfqs/storage/dense/dense_state_backend.cpp:140-157 | after any run, reading a state right after writing it gives what was written, and reading any other gives what it gave before |
| `CallLaws.RunVecSnoc` | include/tmfqs/storage/i_state_backend.h:16-20 | a run is its calls, first to last |
| `CallLaws.DepthCounts` | include/tmfqs/storage/common/compressed_state_backend.h:347-360 | in a run without initialisations or stray ends the open batches are the begins without an end |
| `CallLaws.InitialisationCloses` | include/tmfqs/storage/common/compressed_state_backend.h:256-266 | an initialisation closes every open batch |
| `CompressedBackend.CompressedStateBackend.Run` | include/tmfqs/storage/common/compressed_state_backend.h:483-746 | a run on the chunked store: its vector, every result and the batch depth are those of the run on a plain vector |
| `CompressedBackend.CompressedStateBackend.Execute` | include/tmfqs/storage/common/compressed_state_backend.h:347-360 | one call: new vector, result and batch depth, accepted or rejected |
| `DenseBackend.DenseStateBackend.Run` | src/tmfqs/storage/dense/dense_state_backend.cpp:140-339 | the same for the dense store, whose batches are no-ops |
| `DenseBackend.DenseStateBackend.Execute` | src/tmfqs/storage/dense/dense_state_backend.cpp:204-339 | one call on the dense store: new vector and result, accepted or rejected |
| `CompressedBackend.CompressedStateBackend.PayloadsSuffice` | include/tmfqs/storage/common/compressed_state_backend.h:226-237 | flush discipline: outside a batch no slot is dirty, so decoding the payloads alone gives the vector |
| `CompressedBackend.CompressedStateBackend.constructor` | include/tmfqs/storage/common/compressed_state_backend.h:333-334 | a new store holds nothing and is ready to be initialised |
| `CompressedBackend.CompressedStateBackend.ConfigureStorage` | include/tmfqs/storage/common/compressed_state_backend.h:256-266 | every initialisation starts from recorded chunk widths, no payloads, an empty cache and no open batch |
| `CompressedBackend.CompressedStateBackend.EncodeChunk` | include/tmfqs/storage/common/compressed_state_backend.h:177-186 | encoding the next slice of a vector extends the encoded prefix by that slice |
| `CompressedBackend.CompressedStateBackend.Built` | include/tmfqs/storage/common/compressed_state_backend.h:362-370 | once every chunk is encoded the store is valid and stands for the whole vector |
| `CompressedBackend.CompressedStateBackend.InitZero` | include/tmfqs/storage/common/compressed_state_backend.h:362-370 | chunk by chunk, the zero vector |
| `CompressedBackend.CompressedStateBackend.InitBasis` | include/tmfqs/storage/common/compressed_state_backend.h:372-377 | one basis amplitude; an out-of-range state is rejected and leaves the zero vector |
| `CompressedBackend.CompressedStateBackend.LoadAmplitudes` | include/tmfqs/storage/common/compressed_state_backend.h:413-427 | cutting a vector into chunks and encoding them loads exactly that vector; a wrong length is an error that leaves no payload behind |
| `CompressedBackend.CompressedStateBackend.InitUniformSuperposition` | include/tmfqs/storage/common/compressed_state_backend.h:379-411 | the single-cursor chunk merge gives the dense result: one equal amplitude on each distinct listed state, zero elsewhere; an empty list and an out-of-range state are errors that leave no payload behind |
| `CompressedBackend.CompressedStateBackend.FillUniform` | include/tmfqs/storage/common/compressed_state_backend.h:394-410 | the cursor loop over the chunks |
| `CompressedBackend.MergeChunk` | include/tmfqs/storage/common/compressed_state_backend.h:396-409 | one chunk of the merge holds the listed states it covers and no others, and the cursor has passed exactly those |
| `CompressedBackend.CompressedStateBackend.AcquireChunk` | include/tmfqs/storage/common/compressed_state_backend.h:188-197 | acquiring a chunk does not change the vector |
| `CompressedBackend.CompressedStateBackend.AcquireAmplitudeRef` | include/tmfqs/storage/common/compressed_state_backend.h:199-203 | the slot and offset found for a state hold that state's amplitude |
| `CompressedBackend.CompressedStateBackend.WriteSlot` | include/tmfqs/storage/common/compressed_state_backend.h:219-224 | a write through a live handle is a write to one state of the vector, provided a changing write sets the dirty flag |
| `CompressedBackend.CompressedStateBackend.ReadAmplitude` | include/tmfqs/storage/common/compressed_state_backend.h:214-217 | reads the amplitude of a state; no slot becomes dirty |
| `CompressedBackend.CompressedStateBackend.WriteAmplitude` | include/tmfqs/storage/common/compressed_state_backend.h:219-224 | changes one state of the vector and no other |
| `CompressedBackend.CompressedStateBackend.FlushCache` | include/tmfqs/storage/common/compressed_state_backend.h:226-231 | afterwards nothing is dirty and the vector is unchanged |
| `CompressedBackend.CompressedStateBackend.VisitIntra` | include/tmfqs/storage/common/compressed_state_backend.h:274-284 | one intra-chunk callback applies the kernel to its pair, both amplitudes sharing one slot and one dirty flag |
| `CompressedBackend.CompressedStateBackend.VisitInter` | include/tmfqs/storage/common/compressed_state_backend.h:293-307 | one inter-chunk callback applies the kernel to its pair across two live slots, each marked dirty only if written |
| `CompressedBackend.CompressedStateBackend.VisitFallback` | include/tmfqs/storage/common/compressed_state_backend.h:311-322 | one generic callback applies the kernel to its pair through two acquisitions, the first handle still good after the second |
| `CompressedBackend.CompressedStateBackend.RunPairKernel` | include/tmfqs/storage/common/compressed_state_backend.h:268-323 | whatever traversal the geometry selects, the result is the kernel applied to every pair of states that differ in the target bit |
| `CompressedBackend.CompressedStateBackend.RunIntraKernel` | include/tmfqs/storage/common/compressed_state_backend.h:271-286 | the intra-chunk loop with its remembered active slot |
| `CompressedBackend.CompressedStateBackend.RunInterKernel` | include/tmfqs/storage/common/compressed_state_backend.h:288-309 | the inter-chunk loop with two remembered slots |
| `CompressedBackend.CompressedStateBackend.RunFallbackKernel` | include/tmfqs/storage/common/compressed_state_backend.h:311-322 | the generic loop |
| `CompressedBackend.CompressedStateBackend.PeekChunk` | include/tmfqs/storage/common/compressed_state_backend.h:454-474 | a chunk's current content is its cached buffer if resident and its decoded payload if not; the cache is not touched. After a failed initialisation there is nothing to read |
| `CompressedBackend.CompressedStateBackend.ExportAmplitudes` | include/tmfqs/storage/common/compressed_state_backend.h:429-452 | the exported vector is the stored one, chunk by chunk |
| `CompressedBackend.CompressedStateBackend.Initialise` | include/tmfqs/storage/common/compressed_state_backend.h:362-427 | an initialisation call of a run |
| `CompressedBackend.CompressedStateBackend.Answer` | include/tmfqs/storage/common/compressed_state_backend.h:429-553 | a reading call of a run leaves the vector alone |
| `CompressedBackend.CompressedStateBackend.ApplyGateCall` | include/tmfqs/storage/common/compressed_state_backend.h:636-746 | a gate call of a run |
| `CompressedBackend.CompressedStateBackend.Update` | include/tmfqs/storage/common/compressed_state_backend.h:483-634 | any other call of a run |
| `CompressedBackend.CompressedStateBackend.TakeHandles` | include/tmfqs/storage/common/compressed_state_backend.h:294-301 | the two slots of an inter-chunk callback, remembered or acquired, hold the two chunks |
| `CompressedBackend.CompressedStateBackend.MapAll` | include/tmfqs/storage/common/compressed_state_backend.h:239-250 | the in-place pass over all chunks applies one function to every amplitude |
| `CompressedBackend.CompressedStateBackend.ComputeMean` | include/tmfqs/storage/common/compressed_state_backend.h:599-613 | the mean of all amplitudes, summed over acquired chunks |
| `CompressedBackend.CompressedStateBackend.TotalProbability` | include/tmfqs/storage/common/compressed_state_backend.h:495-518 | the sum of squared magnitudes over cached and encoded chunks |
| `CompressedBackend.CompressedStateBackend.SampleMeasurement` | include/tmfqs/storage/common/compressed_state_backend.h:520-553 | the least state whose inclusive cumulative probability reaches the sample, or the error the dense store gives |
| `CompressedBackend.CompressedStateBackend.ApplyGateByBlocks` | include/tmfqs/storage/gate_block_apply.h:103-212 | the block loop over the cache equals the matrix tensored with the identity, including the skipped all-zero blocks |
| `CompressedBackend.CompressedStateBackend.ApplyGate` | include/tmfqs/storage/common/compressed_state_backend.h:711-746 | matched gates run as their kernel, all others as their matrix, with the same validation |
| `CompressedBackend.CompressedStateBackend.Amplitude` | include/tmfqs/storage/common/compressed_state_backend.h:476-481 | reads one amplitude, resident or not, without changing the vector |
| `CompressedBackend.CompressedStateBackend.SetAmplitude` | include/tmfqs/storage/common/compressed_state_backend.h:483-488 | writes one amplitude; an out-of-range state changes nothing |
| `CompressedBackend.CompressedStateBackend.PhaseFlipBasisState` | include/tmfqs/storage/common/compressed_state_backend.h:589-597 | negates one amplitude |
| `CompressedBackend.CompressedStateBackend.InversionAboutMean` | include/tmfqs/storage/common/compressed_state_backend.h:599-615 | reflects every amplitude about the mean |
| `CompressedBackend.CompressedStateBackend.InversionAboutGivenMean` | include/tmfqs/storage/common/compressed_state_backend.h:617-619 | reflects every amplitude about a given mean |
| `CompressedBackend.CompressedStateBackend.ApplyAffineTransform` | include/tmfqs/storage/common/compressed_state_backend.h:621-634 | scale times amplitude plus bias, on every state |
| `CompressedBackend.CompressedStateBackend.ApplyHadamard` | include/tmfqs/storage/common/compressed_state_backend.h:636-657 | the Hadamard kernel on every pair of the qubit's bit |
| `CompressedBackend.CompressedStateBackend.ApplyPauliX` | include/tmfqs/storage/common/compressed_state_backend.h:659-673 | the X kernel on every pair of the qubit's bit |
| `CompressedBackend.CompressedStateBackend.ApplyControlledPhaseShift` | include/tmfqs/storage/common/compressed_state_backend.h:675-693 | the controlled-phase kernel on every pair of the target's bit |
| `CompressedBackend.CompressedStateBackend.ApplyControlledNot` | include/tmfqs/storage/common/compressed_state_backend.h:695-709 | the controlled-NOT kernel on every pair of the target's bit |
| `CompressedBackend.CompressedStateBackend.BeginOperationBatch` | include/tmfqs/storage/common/compressed_state_backend.h:347-350 | opens one more batch |
| `CompressedBackend.CompressedStateBackend.EndOperationBatch` | include/tmfqs/storage/common/compressed_state_backend.h:352-360 | closing the outermost batch leaves nothing dirty; closing an unopened one is an error |
| `ChunkCaches.ChunkCache.Acquire` | include/tmfqs/storage/common/chunk_cache.h:83-122 | a hit, a fresh slot or an eviction: no chunk's logical content changes, no other slot is touched, nothing becomes dirty, and with two slots the chunk acquired just before stays in its slot; an unknown chunk is an error |
| `ChunkCaches.ChunkCache.AcquireResident` | include/tmfqs/storage/common/chunk_cache.h:92-97 | a hit changes the touch stamp only |
| `ChunkCaches.ChunkCache.AcquireFresh` | include/tmfqs/storage/common/chunk_cache.h:100-102 | a miss with a free slot |
| `ChunkCaches.ChunkCache.AcquireEvicting` | include/tmfqs/storage/common/chunk_cache.h:103-106 | a miss with no free slot writes back, unmaps and reuses the oldest slot |
| `ChunkCaches.ChunkCache.SelectEvictionSlot` | include/tmfqs/storage/common/chunk_cache.h:169-179 | no slot was touched longer ago |
| `ChunkCaches.ChunkCache.FlushSlot` | include/tmfqs/storage/common/chunk_cache.h:196-205 | writing a slot back cleans it and keeps every chunk's logical content |
| `ChunkCaches.ChunkCache.FlushAll` | include/tmfqs/storage/common/chunk_cache.h:134-138 | afterwards nothing is dirty and every chunk's logical content is unchanged |
| `ChunkCaches.ChunkCache.FindBuffer` | include/tmfqs/storage/common/chunk_cache.h:125-130 | the buffer of a resident chunk |
| `ChunkCaches.ChunkCache.Configure` | include/tmfqs/storage/common/chunk_cache.h:50-59 | resets to an empty cache; a zero capacity is an error |
| `ChunkCaches.ChunkCache.WriteThrough` | include/tmfqs/storage/common/chunk_cache.h:20-31 | a write through a slot handle changes one position of one chunk's logical content, given that a changing write marks the slot |
| `ChunkCaches.TwoHandles` | include/tmfqs/storage/common/compressed_state_backend.h:288-322 | two live handles: after two acquisitions in a row both slots still hold their chunks, because the capacity is two or there is one chunk only |
| `ChunkCaches.LastIsSafe` | include/tmfqs/storage/common/chunk_cache.h:169-179 | the chunk acquired last is never the eviction victim when two slots are in use |
| `ChunkCaches.StampsDistinct` | include/tmfqs/storage/common/chunk_cache.h:93-111 | touch stamps of resident slots are pairwise distinct |
| `ChunkCaches.OldestIsStrict` | include/tmfqs/storage/common/chunk_cache.h:169-179 | the eviction victim is strictly older than every other slot |
| `ChunkCaches.ChunkCache.HoldsMostRecent` | include/tmfqs/storage/common/chunk_cache.h:83-122 | a live cache holds exactly the most recently acquired distinct chunks |
| `ChunkCaches.ResidentIsMostRecent` | include/tmfqs/storage/common/chunk_cache.h:83-122 | after any history of acquisitions the resident set is exactly the `capacity` most recently acquired distinct chunks |
| `ChunkCaches.MostRecentUnique` | include/tmfqs/storage/common/chunk_cache.h:169-179 | a history has only one such set |
| `ChunkCaches.ResidentCount` | include/tmfqs/storage/common/chunk_cache.h:153-160 | as many chunks are mapped as there are slots |
| `ChunkCaches.HitKeeps` | include/tmfqs/storage/common/chunk_cache.h:93-97 | a hit keeps every invariant and all logical contents |
| `ChunkCaches.FreshKeeps` | include/tmfqs/storage/common/chunk_cache.h:100-121 | so does a fresh load |
| `ChunkCaches.EvictKeeps` | include/tmfqs/storage/common/chunk_cache.h:183-192 | so does reusing a clean oldest slot |
| `ChunkCaches.FlushKeeps` | include/tmfqs/storage/common/chunk_cache.h:196-205 | so does writing a slot back |
| `ChunkCaches.WriteKeeps` | include/tmfqs/storage/common/chunk_cache.h:20-31 | a marked write keeps every invariant and changes one position only |
| `ChunkCaches.CleanReading` | include/tmfqs/storage/common/compressed_state_backend.h:226-231 | with no dirty slot the payloads decode to the logical contents |
| `ChunkStores.ChunkStore.Configure` | include/tmfqs/storage/common/compressed_state_backend.h:260-263 | chunks of the given widths without payloads |
| `ChunkStores.ChunkStore.LoadChunk` | include/tmfqs/storage/common/compressed_state_backend.h:166-175 | decodes a chunk; a width that is not the recorded one and an empty payload are errors |
| `ChunkStores.ChunkStore.StoreChunk` | include/tmfqs/storage/common/compressed_state_backend.h:177-186 | encoding into one chunk changes what that chunk decodes to and no other; a width that is not the recorded one is an error |
| `ChunkLayouts.MakeLayout` | include/tmfqs/storage/common/chunk_layout.h:27-35 | the rounded-up chunk count tiles the register, last chunk not empty; no states make no chunks, and a zero chunk width is an error |
| `ChunkLayouts.ChunkLayout.ChunkShape` | include/tmfqs/storage/common/chunk_layout.h:49-63 | chunks hold whole states, are consecutive and cover the register; only the last may be short |
| `ChunkLayouts.ChunkLayout.StateRefCorrect` | include/tmfqs/storage/common/chunk_layout.h:66-72 | the reference of a state points inside a chunk, at that state |
| `ChunkLayouts.ChunkLayout.SlotIsState` | include/tmfqs/storage/common/chunk_layout.h:66-72 | and every chunk position is the home of exactly one state |
| `ChunkViews.FlattenWrite` | include/tmfqs/storage/common/chunk_layout.h:66-72 | writing one chunk position writes exactly one state of the vector |
| `ChunkViews.FlattenSlices` | include/tmfqs/storage/common/compressed_state_backend.h:413-427 | cutting a vector into chunks and reading the chunks back is the identity |
| `PairKernelExecutor.RunFallback` | include/tmfqs/storage/common/pair_kernel_executor.h:42-50 | visits the pairs (s, s + mask) of all states with the target bit clear, each once, in increasing order |
| `PairKernelExecutor.RunIntraChunk` | include/tmfqs/storage/common/pair_kernel_executor.h:54-71 | the same pairs in the same order, with chunk-local positions that name them, also when the chunk is wider than the register |
| `PairKernelExecutor.RunInterChunk` | include/tmfqs/storage/common/pair_kernel_executor.h:75-97 | the same pairs in the same order, with two chunks and a position that name them |
| `PairKernelExecutor.PairsPartition` | include/tmfqs/storage/common/pair_kernel_executor.h:40-97 | the visited pairs partition the register: every state is in exactly one |
| `PairKernelExecutor.ModeMeans` | include/tmfqs/storage/common/pair_kernel_executor.h:26-38 | what the selected mode guarantees about chunk width and target bit |
| `PairKernelExecutor.FallbackExactly` | include/tmfqs/storage/common/pair_kernel_executor.h:26-38 | the generic traversal is selected if and only if the chunk width is not a power of two |
| `PairKernels.AnyOrderIsMap` | include/tmfqs/storage/common/pair_kernel_executor.h:40-97 | pairs are disjoint: visiting all of them in any order gives the same vector |
| `PairKernels.VisitedPairs` | include/tmfqs/storage/common/pair_kernel_executor.h:40-97 | after any part of a traversal exactly the visited pairs have their new values |
| `PairKernels.ClearStatesExact` | include/tmfqs/storage/common/pair_kernel_executor.h:42-50 | the lower states of the pairs are exactly the states with the target bit clear |
| `StateOps.KernelsAreHonest` | include/tmfqs/storage/common/compressed_state_backend.h:110-115 | every kernel reports each amplitude it changes |
| `BlockEngine.MakeGateBlockLayout` | include/tmfqs/storage/gate_block_apply.h:64-99 | the computed masks, non-target positions and offsets |
| `BlockEngine.ComposeBaseStateFromBlock` | include/tmfqs/storage/gate_block_apply.h:55-61 | the block number spread over the non-target bits |
| `BlockEngine.BlocksAreBijection` | include/tmfqs/storage/gate_block_apply.h:55-99 | (block, index) to base or offset is a bijection onto the states, for any distinct ordered targets |
| `BlockEngine.BlockStates` | include/tmfqs/storage/gate_block_apply.h:117-191 | the one-qubit, two-qubit and general paths address the same states |
| `BlockEngine.BlockProduct` | include/tmfqs/storage/gate_block_apply.h:129-138 | the written-out and the looped arithmetic are the matrix product of the block |
| `BlockEngine.RowTimesBlock` | include/tmfqs/storage/gate_block_apply.h:201-208 | one accumulated row product |
| `BlockEngine.BlockTurn` | include/tmfqs/storage/gate_block_apply.h:185-211 | after one more block exactly that block holds its matrix products, computed from old amplitudes |
| `BlockEngine.ZeroBlockStep` | include/tmfqs/storage/gate_block_apply.h:198-198 | skipping an all-zero block changes nothing |
| `BlockEngine.AllBlocksDone` | include/tmfqs/storage/gate_block_apply.h:103-212 | after the last block every state holds the row sum over its own block: the matrix tensored with the identity |
| `BlockEngine.ValidateGateTargets` | include/tmfqs/core/validation.h:56-78 | accepts exactly distinct in-range targets with a matching matrix dimension |
| `DenseBackend.DenseStateBackend.ApplyGate` | src/tmfqs/storage/dense/dense_state_backend.cpp:321-339 | the block engine over the dense buffer |
| `DenseBackend.DenseStateBackend.RunPairKernel` | src/tmfqs/storage/dense/dense_state_backend.cpp:54-62 | the pair loop over the dense buffer |
| `DenseBackend.DenseStateBackend.InitUniformSuperposition` | src/tmfqs/storage/dense/dense_state_backend.cpp:92-115 | equal amplitudes on the distinct listed states; a bad list is an error that leaves the zero vector |
| `DenseBackend.DenseStateBackend.SampleMeasurement` | src/tmfqs/storage/dense/dense_state_backend.cpp:173-187 | the least state that reaches the sample |
| `DenseBackend.DenseStateBackend.TotalProbability` | src/tmfqs/storage/dense/dense_state_backend.cpp:161-170 | the sum of squared magnitudes |
| `Gates.Multiply` | src/tmfqs/gates/quantum_gate.cpp:59-77 | the accumulating triple loop computes the matrix product; differing dimensions are an error |
| `Gates.ProductComposes` | src/tmfqs/gates/quantum_gate.cpp:59-77 | the product of two matrices acts as one after the other |
| `GateBlocks.ProductIsComposition` | src/tmfqs/gates/quantum_gate.cpp:59-77 | applying A*B to a qubit list equals applying B and then A, on every register |
| `KernelMatrices.HadamardIsMatrix` | src/tmfqs/storage/dense/dense_state_backend.cpp:255-273 | the Hadamard kernel equals its matrix on every vector |
| `KernelMatrices.PauliXIsMatrix` | src/tmfqs/storage/dense/dense_state_backend.cpp:276-286 | the X kernel equals its matrix |
| `KernelMatrices.ControlledPhaseIsMatrix` | src/tmfqs/storage/dense/dense_state_backend.cpp:289-303 | the controlled-phase kernel equals its matrix |
| `KernelMatrices.ControlledNotIsMatrix` | src/tmfqs/storage/dense/dense_state_backend.cpp:306-318 | the controlled-NOT kernel equals its matrix |
| `GateLaws.HadamardLaw` | src/tmfqs/storage/dense/dense_state_backend.cpp:255-273 | state by state: with bit n-1-q clear the scaled sum with the partner, with it set the scaled difference, partner first |
| `GateLaws.PauliXLaw` | src/tmfqs/storage/dense/dense_state_backend.cpp:276-286 | state by state: the amplitude of the partner across bit n-1-q |
| `GateLaws.ControlledNotLaw` | src/tmfqs/storage/dense/dense_state_backend.cpp:306-318 | state by state: where bit n-1-c is set the amplitude of the partner across bit n-1-t, elsewhere the old one |
| `GateLaws.ControlledPhaseLaw` | src/tmfqs/storage/dense/dense_state_backend.cpp:289-303 | state by state: the complex product with the phase where both bits are set, elsewhere the old amplitude |
| `GateLaws.MatrixLaw` | include/tmfqs/storage/gate_block_apply.h:64-191 | a matrix on listed qubits leaves at each state the row that its listed bits select, first qubit most significant, times the amplitudes of the states that differ in those bits only |
| `GateLaws.MeanLaw` | src/tmfqs/storage/dense/dense_state_backend.cpp:212-226 | the mean is exactly the amplitude that, times the number of states, is the sum of all |
| `GateLaws.BitIsDigit` | include/tmfqs/storage/common/backend_validation.h:37-39 | a bit of a state is its binary digit |
| `KernelMatrices.SwapPermutes` | src/tmfqs/register/quantum_register.cpp:518-527 | three controlled-NOTs permute amplitudes by exchanging two bits of the state |
| `KernelMatrices.SwapIsMatrix` | src/tmfqs/gates/quantum_gate.cpp:187-194 | and equal the Swap matrix |
| `GateMatch.DispatchIsRouteMatrix` | include/tmfqs/storage/common/compressed_state_backend.h:711-746 | dispatching computes exactly the matrix of the route taken |
| `GateMatch.DispatchPreservesExactly` | include/tmfqs/storage/common/compressed_state_backend.h:711-746 | dispatching a gate keeps its meaning on all vectors if and only if the matrix is exactly a Hadamard, X, controlled-NOT or unit controlled phase, or within tolerance of none of them |
| `GateMatch.PreservedIfRouteMatrix` | include/tmfqs/storage/common/compressed_state_backend.h:711-746 | in terms of the route: if and only if the matrix equals what the route implements |
| `GateMatch.DispatchCanDiffer` | include/tmfqs/storage/common/compressed_state_backend.h:31-60 | it need not: an X matrix with a 1e-13 diagonal entry is accepted and loses it |
| `GateMatch.BuiltInsAreFaithful` | include/tmfqs/storage/common/compressed_state_backend.h:45-98 | a matrix equals what its route implements if and only if it is exactly built-in or no matcher accepts it |
| `GateMatch.RouteValidates` | include/tmfqs/storage/common/compressed_state_backend.h:713-732 | the kernel routes accept exactly the targets the general path would |
| `Tolerance.DispatchError` | include/tmfqs/storage/common/compressed_state_backend.h:33-98 | each component of a dispatched result differs from the true matrix product by at most 1e-12 times the absolute component sum of its block, 1e-10 times for a controlled phase |
| `Tolerance.AcceptedIsClose` | include/tmfqs/storage/common/compressed_state_backend.h:45-98 | an accepted matrix is within 1e-12, entry by entry, of what its route implements, within 1e-10 for a controlled phase |
| `Tolerance.RouteMeans` | include/tmfqs/storage/common/compressed_state_backend.h:31-98 | exactly which matrices take which route: those with every entry within 1e-12 of the kernel's gate, and for a phase its squared magnitude within 1e-10 of 1, in the order the matchers are tried; every other matrix runs as it is |
| `Tolerance.FarFromBoth` | include/tmfqs/storage/common/compressed_state_backend.h:31-60 | a one-qubit matrix with an entry more than 1e-12 from X and one that far from Hadamard runs as it is |
| `Tolerance.NormalizeError` | include/tmfqs/storage/common/compressed_state_backend.h:93-96 | replacing a nearly unit phase by its angle moves each component by no more than the magnitude error |
| `Tolerance.ActionError` | include/tmfqs/storage/common/compressed_state_backend.h:33-79 | close matrices act closely |
| `StateOps.SampleIsLeast` | src/tmfqs/storage/dense/dense_state_backend.cpp:173-187 | sampling returns the least state whose inclusive cumulative probability reaches the sample, and succeeds exactly when the total does |
| `StateOps.MeasureMeans` | src/tmfqs/storage/dense/dense_state_backend.cpp:173-187 | measuring, for every sample: state s exactly when its running total is the first to reach the sample, not reached exactly when the total stays below, bad exactly outside [0, 1) |
| `StateOps.ScanMeans` | src/tmfqs/register/quantum_register.cpp:289-309 | the same without the range check |
| `AffineOverlays.RemoveInverts` | src/tmfqs/register/quantum_register.cpp:160-173 | with a scale of +1 or -1 removing the overlay never divides by zero and is the exact inverse of applying it |
| `AffineOverlays.ReflectAll` | src/tmfqs/register/quantum_register.cpp:433-444 | changing scale and bias reflects the logical vector about any mean and keeps the scale at +1 or -1 |
| `AffineOverlays.SumReflected` | src/tmfqs/register/quantum_register.cpp:435-438 | the sum update of a reflection, also for a caller-supplied mean |
| `AffineOverlays.SumFlipped` | src/tmfqs/register/quantum_register.cpp:408-413 | the sum update of a sign flip |
| `AffineOverlays.ImageSet` | src/tmfqs/register/quantum_register.cpp:313-318 | storing the un-overlaid amplitude changes one logical amplitude and no other |
| `AffineOverlays.ImageFlip` | src/tmfqs/register/quantum_register.cpp:405-420 | the sign flip, stored directly or through the inverse overlay, with the sum adjusted |
| `AffineOverlays.ImageReflect` | src/tmfqs/register/quantum_register.cpp:433-444 | the lazy reflection keeps overlay and cached sum consistent with the store |
| `AffineOverlays.ImageReflectStored` | src/tmfqs/register/quantum_register.cpp:457-467 | so does the stored reflection |
| `AffineOverlays.ImageFlushed` | src/tmfqs/register/quantum_register.cpp:223-231 | so does a flush |
| `Registers.QuantumRegister.constructor` | src/tmfqs/register/quantum_register.cpp:67-75 | an identity overlay over a store ready to be initialised |
| `Registers.QuantumRegister.FromBasis` | src/tmfqs/register/quantum_register.cpp:92-96 | a new register shows its basis state; an out-of-range state makes no register |
| `Registers.QuantumRegister.FromAmplitudes` | src/tmfqs/register/quantum_register.cpp:99-103 | a new register shows the given vector; a wrong length makes no register |
| `Registers.QuantumRegister.LogicalAmplitudeSum` | src/tmfqs/register/quantum_register.cpp:176-189 | the sum of all logical amplitudes, cached or recomputed, and cached afterwards |
| `Registers.QuantumRegister.LogicalChunk` | src/tmfqs/register/quantum_register.cpp:192-210 | the next slice of the logical vector, overlay applied |
| `Registers.QuantumRegister.Amplitude` | src/tmfqs/register/quantum_register.cpp:249-253 | the logical amplitude of a state |
| `Registers.QuantumRegister.Amplitudes` | src/tmfqs/register/quantum_register.cpp:213-220 | the exported vector is the logical vector |
| `Registers.QuantumRegister.TotalProbability` | src/tmfqs/register/quantum_register.cpp:269-281 | the total probability of the logical vector, through the overlay or the store |
| `Registers.QuantumRegister.MeasureState` | src/tmfqs/register/quantum_register.cpp:284-310 | the least state that reaches the sample, through the overlay or the store; only the store checks the sample's range |
| `Registers.QuantumRegister.SetAmplitude` | src/tmfqs/register/quantum_register.cpp:313-318 | writes one logical amplitude and drops the cached sum |
| `Registers.QuantumRegister.LoadAmplitudes` | src/tmfqs/register/quantum_register.cpp:321-328 | replaces the logical vector and closes every open batch; a wrong length changes nothing |
| `Registers.QuantumRegister.InitUniformSuperposition` | src/tmfqs/register/quantum_register.cpp:331-341 | uniform over the distinct listed states, closing every open batch; an empty or out-of-range list changes nothing |
| `Registers.QuantumRegister.FlushAffineOverlay` | src/tmfqs/register/quantum_register.cpp:223-231 | the store takes over what the overlay showed; the logical vector and the cached sum stay |
| `Registers.QuantumRegister.InversionAboutGivenMean` | src/tmfqs/register/quantum_register.cpp:433-444 | reflects the logical vector without touching the store |
| `Registers.QuantumRegister.InversionAboutGivenMeanMaterialized` | src/tmfqs/register/quantum_register.cpp:457-467 | reflects the logical vector in the store |
| `Registers.QuantumRegister.InversionAboutMean` | src/tmfqs/register/quantum_register.cpp:423-454 | both ways reflect the logical vector about its own mean; only the lazy one leaves an overlay |
| `Registers.QuantumRegister.PhaseFlipBasisState` | src/tmfqs/register/quantum_register.cpp:405-420 | negates one logical amplitude on all three paths |
| `Registers.QuantumRegister.ApplyGate` | src/tmfqs/register/quantum_register.cpp:394-402 | validates, flushes, applies, drops the sum |
| `Registers.QuantumRegister.ApplyHadamard` | src/tmfqs/register/quantum_register.cpp:470-478 | Hadamard on the logical vector |
| `Registers.QuantumRegister.ApplyPauliX` | src/tmfqs/register/quantum_register.cpp:481-489 | X on the logical vector |
| `Registers.QuantumRegister.ApplyControlledPhaseShift` | src/tmfqs/register/quantum_register.cpp:492-502 | controlled phase on the logical vector |
| `Registers.QuantumRegister.ApplyControlledNot` | src/tmfqs/register/quantum_register.cpp:505-515 | controlled-NOT on the logical vector |
| `Registers.QuantumRegister.ApplySwap` | src/tmfqs/register/quantum_register.cpp:518-527 | validated once, then three controlled-NOTs |
| `Registers.QuantumRegister.EndOperationBatch` | src/tmfqs/register/quantum_register.cpp:536-539 | closing a batch does not change the logical vector |
| `Simulator.Execute` | src/tmfqs/sim/simulator.cpp:17-44 | one operation is accepted or rejected by the register's validation and has its meaning on the logical vector; a diffusion leaves an overlay exactly if it is not materialised |
| `Simulator.Run` | src/tmfqs/sim/simulator.cpp:66-96 | the batch opened for a run is closed again on success and after a rejected operation alike; the register then shows the state after the operations before the first rejected one, and success means all were accepted |
| `OperationLaws.OperationMeans` | src/tmfqs/sim/simulator.cpp:17-44 | every gate operation is its matrix on its qubits, control before target and listed targets in order; a flip negates one amplitude |
| `OperationLaws.DiffusionMeans` | src/tmfqs/sim/simulator.cpp:35-40 | a diffusion reflects about the amplitude that, times the number of states, is the sum of all |
| `OperationLaws.RunStepMeans` | src/tmfqs/sim/simulator.cpp:71-82 | between one operation of a gate circuit and the next lies one application of its matrix |
| `OperationLaws.RunIsMatrixTrace` | src/tmfqs/sim/simulator.cpp:71-82 | running a gate circuit is applying its matrices one after the other |
| `EndToEnd.RunGates` | src/tmfqs/sim/simulator.cpp:66-96 | a gate circuit run on the chunked, cached, batched register and exported is its matrices applied one after the other |
| `Circuits.RunConcat` | src/tmfqs/sim/simulator.cpp:71-82 | running two operation lists one after the other is running their concatenation |
| `EndToEnd.RunEitherWay` | src/tmfqs/sim/simulator.cpp:35-40 | lazy equals materialised: one list of operations with the diffusions carried out either way in any pattern, on two registers of any geometry and codec that show the same state, is accepted alike and ends in the same logical vector, also if an operation is rejected |
| `EndToEnd.FlagsDoNotStop` | src/tmfqs/sim/simulator.cpp:35-40 | how diffusions are carried out does not change which operations run |
| `Circuits.FlagsDoNotMatter` | src/tmfqs/sim/simulator.cpp:35-40 | an operation list means the same whatever its diffusion flags |
| `EndToEnd.ReadBoth` | src/tmfqs/register/quantum_register.cpp:269-310 | registers that show the same state report the same total probability and the same measurement for a sample |
| `CircuitBuilders.Circuit.AppendQft` | src/tmfqs/circuit/circuit.cpp:87-100 | appends the stages of Hadamard and controlled phases and then the reversal swaps |
| `CircuitBuilders.Circuit.AppendGrover` | src/tmfqs/circuit/circuit.cpp:118-141 | appends the layer and k rounds over the sorted distinct marked states, one diffusion each, with k the whole part of pi/4 * sqrt(N/m) for m distinct states and, for an exact root, 16 k^2 m <= pi^2 N < 16 (k+1)^2 m; an empty list is an error up front, more than 31 qubits one after the layer, and an out-of-range state one only if there is an iteration to notice it, after the layer and the flips of the smaller states |
| `CircuitBuilders.GroverIterationCount` | src/tmfqs/circuit/circuit.cpp:108-116 | no marked state is an error, otherwise there is a count |
| `CircuitBuilders.CountFits` | src/tmfqs/circuit/circuit.cpp:108-116 | the count is the whole part of pi/4 * sqrt(N/m), whatever the root returns, and for an exact root the number of rounds |
| `CircuitBuilders.RoundsFitMeans` | src/tmfqs/circuit/circuit.cpp:108-116 | a number of rounds k for m of N states: k <= pi/4 * sqrt(N/m) < k + 1 or both zero, and 16 k^2 m <= pi^2 N < 16 (k+1)^2 m when the root is exact |
| `CircuitBuilders.RoundCountUnique` | src/tmfqs/circuit/circuit.cpp:108-116 | only one number satisfies the last inequality |
| `CircuitBuilders.GroverDiffuses` | src/tmfqs/circuit/circuit.cpp:132-140 | the circuit holds one diffusion per round |
| `CircuitBuilders.GroverKeepsFlag` | src/tmfqs/circuit/circuit.cpp:139-139 | and all of them lazy, or all materialised, as asked |
| `CircuitBuilders.GroverIterationsAre` | src/tmfqs/circuit/circuit.cpp:108-116 | with an exact root the count is the largest k with 16 k^2 m at most pi^2 N |
| `QftSuperpositions.QftTransforms` | src/tmfqs/circuit/circuit.cpp:87-100 | for every register size and every state v the QFT circuit leaves, at y, the sum over x of v[x] * h^n * w^(x*y) |
| `QftSuperpositions.RunComb` | src/tmfqs/circuit/circuit.cpp:87-100 | running the QFT operations is linear |
| `QftCorrectness.QftIsFourier` | src/tmfqs/circuit/circuit.cpp:87-100 | for every register size the QFT circuit takes basis state x to amplitude h^n * w^(x*y) at every y |
| `QftCorrectness.QftIsFourierVec` | src/tmfqs/circuit/circuit.cpp:87-100 | the same as one vector |
| `QftCorrectness.RootIsPrimitive` | src/tmfqs/circuit/circuit.cpp:92-93 | w has order 2^n: its 2^(n-1)-th power is -1 |
| `QftCorrectness.HadamardMid` | src/tmfqs/circuit/circuit.cpp:90-90 | a stage's Hadamard, on the stage invariant |
| `QftCorrectness.PhaseMid` | src/tmfqs/circuit/circuit.cpp:91-95 | a stage's controlled phases, on the stage invariant |
| `QftCorrectness.TurnIsPower` | src/tmfqs/circuit/circuit.cpp:91-95 | the controlled turns of a stage multiply to one power of its root |
| `QftCorrectness.RunStages` | src/tmfqs/circuit/circuit.cpp:89-96 | after t stages the top t bits are transformed, in reversed significance, and the rest still select x |
| `QftCorrectness.RunSwaps` | src/tmfqs/circuit/circuit.cpp:97-99 | the swaps move every amplitude to the bit-mirrored state |
| `QftCorrectness.ReverseOfMirror` | src/tmfqs/circuit/circuit.cpp:97-99 | which undoes the reversal of the stages |
| `GroverCorrectness.GroverIsTwoLevel` | src/tmfqs/circuit/circuit.cpp:118-141 | after any number of rounds all marked states share one real amplitude and all others another, for marked lists in any order with repetitions, and the two follow the flip-then-reflect recurrence |
| `GroverCorrectness.LayerIsUniform` | src/tmfqs/circuit/circuit.cpp:126-128 | the Hadamard layer makes the state uniform |
| `GroverCorrectness.OracleAt` | src/tmfqs/circuit/circuit.cpp:133-138 | the oracle negates exactly the marked states |
| `GroverCorrectness.RoundOnLevels` | src/tmfqs/circuit/circuit.cpp:132-140 | one round takes a two-level state to the two-level state of the recurrence |
| `GroverCorrectness.LevelsNorm` | src/tmfqs/circuit/circuit.cpp:132-140 | m u^2 + (N - m) v^2 = 1 after every round |
| `GroverCorrectness.LevelsTurn` | src/tmfqs/circuit/circuit.cpp:132-140 | after k rounds the two amplitudes are those of angle (2k + 1) theta, with sin^2 theta the marked fraction |
| `GroverCorrectness.GroverSucceeds` | src/tmfqs/circuit/circuit.cpp:118-141 | after k rounds a marked state is measured with probability sin^2((2k + 1) theta) |
| `EndToEnd.SimulateQft` | src/tmfqs/circuit/circuit.cpp:102-106 | QFT of any state generated, run on the chunked, cached, batched register and exported: its Fourier transform |
| `EndToEnd.SimulateGrover` | src/tmfqs/circuit/circuit.cpp:143-147 | Grover generated, run on that register and read: total probability 1, and the exported amplitudes of the marked states carry sin^2((2k + 1) theta) of it for k the whole part of pi/4 * sqrt(N/m), stated without the root when that is exact |
| `EndToEnd.RunGrover` | src/tmfqs/circuit/circuit.cpp:143-147 | Grover generated and run, with that number of rounds |
| `EndToEnd.ReadOut` | src/tmfqs/register/quantum_register.cpp:256-281 | export and total probability agree with the shown state |
| `Conservation.RunKeepsProbability` | src/tmfqs/sim/simulator.cpp:71-82 | every accepted run of Hadamard, X, controlled-NOT, unit controlled phase, swap, sign flip, mean inversion (lazy or stored), matched gate and norm-keeping matrix keeps the total probability exactly |
| `Conservation.MapKeeps` | include/tmfqs/storage/common/pair_kernel_executor.h:40-97 | a kernel that keeps the probability of every pair keeps the total |
| `Conservation.MatrixKeeps` | include/tmfqs/storage/gate_block_apply.h:103-212 | a norm-keeping matrix keeps the total on whatever qubits it acts |
| `Conservation.InversionKeeps` | src/tmfqs/register/quantum_register.cpp:423-430 | reflecting about the true mean keeps the total |
| `GateMatch.MatchedPhaseIsUnit` | include/tmfqs/storage/common/compressed_state_backend.h:93-96 | a matched phase is executed as an exactly unit phase |
| `Conservation.UniformIsNormalised` | src/tmfqs/storage/dense/dense_state_backend.cpp:92-115 | uniform initialisation has total probability 1 |
| `BasisLists.SortUnique` | src/tmfqs/circuit/circuit.cpp:123-124 | sorted without repetitions, same members |
| `BasisLists.SortUniqueCount` | src/tmfqs/circuit/circuit.cpp:123-124 | as many states as were listed, each counted once |
| `BasisLists.IncreasingUnique` | src/tmfqs/circuit/circuit.cpp:123-124 | any sort-and-unique gives this list |
| `Bits.PowerOfTwoTest` | include/tmfqs/storage/common/pair_kernel_executor.h:27-30 | x & (x - 1) is zero exactly for powers of two |
| `DenseBackend.DenseStateBackend.constructor` | src/tmfqs/storage/dense/dense_state_backend.cpp:77-81 | a zero vector of the right length |
| `DenseBackend.DenseStateBackend.InitBasis` | src/tmfqs/storage/dense/dense_state_backend.cpp:84-89 | one basis amplitude; an out-of-range state is rejected and leaves the zero vector |
| `DenseBackend.DenseStateBackend.ComputeMean` | src/tmfqs/storage/dense/dense_state_backend.cpp:213-226 | the mean of all amplitudes |
| `DenseBackend.DenseStateBackend.InversionAboutMean` | src/tmfqs/storage/dense/dense_state_backend.cpp:230-240 | reflects every amplitude about a given mean |
| `DenseBackend.DenseStateBackend.ApplyAffineTransform` | src/tmfqs/storage/dense/dense_state_backend.cpp:242-252 | scale times amplitude plus bias, on every state |
| `DenseBackend.DenseStateBackend.ApplyGateByBlocks` | include/tmfqs/storage/gate_block_apply.h:103-212 | the block loop over the dense buffer is the matrix tensored with the identity |
| `CompressedBackend.CompressedStateBackend.FlushCacheIfNeeded` | include/tmfqs/storage/common/compressed_state_backend.h:233-237 | outside a batch nothing stays dirty |
| `CompressedBackend.CompressedStateBackend.WritePair` | include/tmfqs/storage/common/compressed_state_backend.h:314-321 | both writes of a pair, with one shared dirty flag if both states live in one slot |
| `CompressedBackend.CompressedStateBackend.BothHandles` | include/tmfqs/storage/common/compressed_state_backend.h:288-322 | in a valid store two acquisitions in a row leave both slots usable |
| `CompressedBackend.CompressedStateBackend.SlotHolds` | include/tmfqs/storage/common/compressed_state_backend.h:199-203 | what a slot holds at a state's home is that state's amplitude |
| `CompressedBackend.CompressedStateBackend.MapChunk` | include/tmfqs/storage/common/compressed_state_backend.h:239-250 | one chunk of an in-place pass |
| `CompressedBackend.CompressedStateBackend.LoadBlock` | include/tmfqs/storage/gate_block_apply.h:188-196 | loads a block's amplitudes through the cache |
| `CompressedBackend.CompressedStateBackend.StoreAll` | include/tmfqs/storage/gate_block_apply.h:200-210 | stores a block's outputs one after the other |
| `CompressedBackend.CompressedStateBackend.ApplyMatrixGate` | include/tmfqs/storage/common/compressed_state_backend.h:734-745 | an unmatched gate: validation, layout, block loop, flush |
| `CompressedBackend.AddChunk` | include/tmfqs/storage/common/compressed_state_backend.h:603-609 | extends a running amplitude sum by one chunk |
| `CompressedBackend.AddChunkProbability` | include/tmfqs/storage/common/compressed_state_backend.h:513-515 | extends a running total probability by one chunk |
| `CompressedBackend.SampleChunk` | include/tmfqs/storage/common/compressed_state_backend.h:542-550 | scans one chunk for the sample |
| `ChunkCaches.ChunkCache.constructor` | include/tmfqs/storage/common/chunk_cache.h:39-39 | a cache without chunks and without room |
| `ChunkCaches.ChunkCache.AcquireKnown` | include/tmfqs/storage/common/chunk_cache.h:92-121 | the acquisition of a known chunk |
| `ChunkCaches.ChunkCache.Remap` | include/tmfqs/storage/common/chunk_cache.h:108-120 | hands a freed slot to another chunk |
| `PairKernelExecutor.VisitStride` | include/tmfqs/storage/common/pair_kernel_executor.h:45-48 | the inner loop of the generic traversal |
| `PairKernelExecutor.VisitBlock` | include/tmfqs/storage/common/pair_kernel_executor.h:61-68 | the inner loop of the intra-chunk traversal, with its early exit |
| `PairKernelExecutor.VisitChunk` | include/tmfqs/storage/common/pair_kernel_executor.h:58-69 | its loop over one chunk |
| `PairKernelExecutor.VisitChunkPair` | include/tmfqs/storage/common/pair_kernel_executor.h:85-94 | the inner loop of the inter-chunk traversal |
| `PairKernelExecutor.VisitGroup` | include/tmfqs/storage/common/pair_kernel_executor.h:81-95 | its loop over one group of chunks, with its early exit |
| `BlockEngine.PairProduct` | include/tmfqs/storage/gate_block_apply.h:129-138 | the written-out arithmetic for one qubit |
| `Registers.QuantumRegister.SumOverChunks` | src/tmfqs/register/quantum_register.cpp:180-186 | one pass summing the logical amplitudes |
| `Registers.QuantumRegister.ProbabilityOverChunks` | src/tmfqs/register/quantum_register.cpp:274-280 | one pass summing the logical probabilities |
| `Registers.QuantumRegister.SampleOverChunks` | src/tmfqs/register/quantum_register.cpp:289-309 | one pass scanning for the sample |
| `Registers.QuantumRegister.BeginOperationBatch` | src/tmfqs/register/quantum_register.cpp:530-533 | opens a batch without changing the logical vector |
| `CircuitBuilders.Circuit.constructor` | src/tmfqs/circuit/circuit.cpp:14-14 | an empty circuit |
| `CircuitBuilders.Circuit.Append` | src/tmfqs/circuit/circuit.cpp:60-68 | appends one operation |
| `CircuitBuilders.Circuit.AppendStage` | src/tmfqs/circuit/circuit.cpp:90-95 | one Hadamard and its controlled phases, nearest control first |
| `CircuitBuilders.Circuit.AppendSwaps` | src/tmfqs/circuit/circuit.cpp:97-99 | the reversal swaps |
| `CircuitBuilders.Circuit.AppendOracle` | src/tmfqs/circuit/circuit.cpp:133-138 | the flips of one round; stops at an out-of-range state |
| `CircuitBuilders.Circuit.AppendRound` | src/tmfqs/circuit/circuit.cpp:132-140 | the flips and then the diffusion |
| `Simulator.Simulate` | src/tmfqs/sim/simulator.cpp:54-96 | differing qubit counts, a bad initial state and a rejected operation end the run without a result; otherwise the new register shows the circuit's meaning on the described state |
| `Simulator.Materialize` | src/tmfqs/state/quantum_state.cpp:290-307 | a new register shows the described state; a bad description makes none |
| `Simulator.InitialAmplitude` | src/tmfqs/state/quantum_state.cpp:290-307 | the amplitude each description gives each state; a subset of k distinct states gives each of them 1/sqrt(k) |
| `DenseBackend.DenseStateBackend.InitZero` | src/tmfqs/storage/dense/dense_state_backend.cpp:77-81 | the zero vector |
| `DenseBackend.DenseStateBackend.LoadAmplitudes` | src/tmfqs/storage/dense/dense_state_backend.cpp:118-125 | replaces the vector; a wrong length is an error that keeps the old amplitudes |
| `DenseBackend.DenseStateBackend.Initialise` | src/tmfqs/storage/dense/dense_state_backend.cpp:77-125 | an initialisation call of a run |
| `DenseBackend.DenseStateBackend.Answer` | src/tmfqs/storage/dense/dense_state_backend.cpp:128-187 | a reading call of a run |
| `DenseBackend.DenseStateBackend.ApplyGateCall` | src/tmfqs/storage/dense/dense_state_backend.cpp:255-339 | a gate call of a run |
| `DenseBackend.DenseStateBackend.Update` | src/tmfqs/storage/dense/dense_state_backend.cpp:147-252 | any other call of a run |
| `BasisLists.CheckRange` | src/tmfqs/storage/dense/dense_state_backend.cpp:99-102 | every listed state is in range |
| `BlockEngine.BlockOffsets` | include/tmfqs/storage/gate_block_apply.h:87-96 | the block-local offset of every target-bit pattern |

## Left out

- Blosc2 and ZFP contexts, threads and streams: foreign libraries; what remains is the encode/decode law and the error for an empty payload.
- Lossy ZFP accuracy and IEEE rounding: the model is over exact reals and a lossless codec; the refinement between the stores is false for a lossy codec.
- `sin`, `cos`, `sqrt`, `atan2` and pi: parameters (`Numerics`, the phase pairs, `cis`, and the two arguments of `GroverIterationCount`).
- Interleaved buffers of doubles: an amplitude is one value, so a partly written amplitude cannot be expressed.
- Machine widths: states and masks are `unsigned int` in the source, so initialisations take at most 31 qubits; the 64-bit touch counter does not wrap here.
- Executor callbacks: a traversal returns the list of its callback arguments in order and the stores then act on that list, since a Dafny loop cannot call back into a heap-changing closure.
- Slot handles: a handle is a slot index; the raw pointers of the source are stable because the slots are reserved.
- Clone and copy: a copied cache does not carry the slot reservation, so handle stability is stated for stores initialised in place only; a run started from a register-backed state is not modelled, and neither is the normalisation of a loaded state description.
- The errors of a backend that was never initialised: calls other than initialisations are made on initialised stores.
- CompressedBackend.RunBoth: a run holds no load of the wrong length and no uniform initialisation from a bad list. On the chunked store these drop all payloads and nothing can be read until the next initialisation, on the dense store they leave a readable vector (`LoadAmplitudes`, `InitUniformSuperposition`, `PeekChunk` say so), so the stores then differ; the register checks both before it calls. Initialisations in a run keep the number of qubits, as the register's do.
- ChunkStores.ChunkStore.StoreChunk: the buffer is as long as the width that is passed with it.
- The register over a dense store, strategy selection and configuration: the register is modelled over the chunked store.
- The trace, timing and report of `Simulator::run`; metrics, printing, exception texts and types; the CLI, the examples and the registry.
- EndToEnd.ReadBoth: for a sample outside [0, 1), which the random source never produces, a register with an active overlay does not report the error its store would.
- Remaining gate constructors (Y, Z, T, Toffoli, Ising): more constants of the same kind; they run through the block engine, which is proved for every matrix.
