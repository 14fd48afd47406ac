# Verification of the SPH core and the framework under it

This project models the central algorithms of the particle-hydrodynamics code and of the GPU and MPI framework it
runs on, and proves properties of them with Dafny. `dafny verify dfyconfig.toml` checks everything.

The models follow the code branch by branch. Shared memory, messages and signals are modelled as steps that any
schedule may interleave; methods that change state are proved against functions, and the lemmas are about those
functions and about all schedules. Physical quantities are real numbers.

| file | content |
|---|---|
| FrameLists, FrameListHeap | lock-free push onto frame lists, as a state machine and as pointer writes on a heap |
| ParticleInit, ParticleInitRun, SpeciesInit | frame arithmetic, scan and search, the initialisation kernel under any schedule, the setup blocks of a species |
| SphKernels, SphNorm | smoothing kernels, their shape, derivative and normalisation |
| SphPairs, SphStep, SphLaws, SphSpecies | pair forces, the time step in place, what the passes leave, what a run does to each species |
| SphConservation, SphLattice | conservation over runs, exact lattice density |
| DeviceReduce | block kernel and host loop of the multi-pass reduction |
| Bits, GlobalIds, WarpIncrement | globally unique ids and the warp-aggregated increment |
| ChunkedExchange, SignalAgreement, SlidingGrid | particle exchange in chunks, agreement on signals, neighbour tables of the sliding process grid |
| Lockstep, GatherSlice, DomainOffsets, TimeSlices | lockstep index distribution, gathering of 2D slices, domain offsets, time slices |
| Arith, Sums, RealArith, RealSums | sums and arithmetic shared by the others |

Findings, where the code does less than one might expect:

- The multi-pass reduction is complete for all inputs if and only if the shared memory of a block holds at least two
  elements or `min(2 * nBuffer, n) < 8`. With one thread per block the accumulating launch has zero blocks and half of
  the buffer is dropped (`DeviceReduce.HostReducesAll`, `DeviceReduce.HostLosesInput`).
- A lone number and the same number as a period select the same steps except when its 32-bit value is zero: `::0` is
  rejected, `0` gives a slice with period zero, on which `containsStep` would divide by zero
  (`TimeSlices.LoneNumberIsPeriod`).
- A lone number N read as a range stands for N and N + 1, but for N = 2^32 - 1 the end wraps to zero and nothing is
  selected (`TimeSlices.RangeOfNumberSelects`).
- For coinciding particles the interaction code sets both the distance and its reciprocal to zero, while comments in the
  kernels and in the pair context speak of NaN and infinity. The model follows the code.
- `setStateAfterSlides` reports false for every multiple of the grid height, also on a rank that ends in the last layer in
  y, where the same number of single slides ends with true (`SlidingGrid.FullTurnsUnreported`).
- The energy is not conserved by the Euler update but grows by exactly `dt^2/2` times the sum of `m |dvdt|^2`.

Conventions: `rsqrt` is a function parameter with the defining property of the reciprocal square root; pi is any
positive number. Raw memory of fresh frames is arbitrary. Collectives match in call order per communicator (section 5.12
of MPI 3.1) and ranks are numbered row by row (section 7.2 of MPI 3.1). Splitting text follows the regular expression
token iterator (section 31.12.2 of ISO C++17): a trailing empty token is not produced.

## Model

| member | source | states |
|---|---|---|
| FrameLists.StepKeepsInv | packages/pmacc/include/spmacc/SinglyLinkedListDevice.hpp:122-141 | every operation of every thread keeps the invariant that ties the pointers of each list to the order of its atomic exchanges |
| FrameLists.RunKeepsInv | packages/pmacc/include/spmacc/SinglyLinkedListDevice.hpp:122-141 | the invariant holds after every interleaving of any number of pushes onto any number of lists |
| FrameLists.PathUnique | packages/pmacc/include/spmacc/SinglyLinkedListDevice.hpp:149-169 | a list has at most one finite path from its first pointer, so reading it is unambiguous |
| FrameLists.EverySnapshotIsAPrefix | packages/pmacc/include/spmacc/SinglyLinkedListDevice.hpp:122-169 | at any moment what is reachable from the first pointer is an acyclic prefix of the exchange order, cut at the first push whose link is still missing |
| FrameLists.LinkedIsFinishedPrefix | packages/pmacc/include/spmacc/SinglyLinkedListDevice.hpp:122-169 | a reader sees exactly the longest run of finished pushes at the front of the order |
| FrameLists.PushIsWaitFree | packages/pmacc/include/spmacc/SinglyLinkedListDevice.hpp:122-141 | a thread finishes its push in three operations of its own, whatever the others do |
| FrameLists.DoneListIsComplete | packages/pmacc/include/spmacc/SinglyLinkedListDevice.hpp:122-169 | once every push of a list has finished, its path is all pushed nodes in exchange order |
| FrameLists.FinishedListIsComplete | packages/pmacc/include/spmacc/SinglyLinkedListDevice.hpp:122-169 | the same over whole runs: after any schedule that finishes all pushes, every list holds each of its frames once and is as long as the number of pushes onto it |
| FrameLists.OrderOnlyGrows | packages/pmacc/include/spmacc/SinglyLinkedListDevice.hpp:122-141 | the order of a list is only ever extended at its end |
| FrameLists.FinishedPushStaysAhead | packages/pmacc/include/spmacc/SinglyLinkedListDevice.hpp:122-141 | a frame whose push finished before another began stays ahead of it |
| FrameLists.ReachableFramesStay | packages/pmacc/include/spmacc/SinglyLinkedListDevice.hpp:122-169 | a frame that a reader can reach once can be reached for ever |
| FrameListHeap.SingleLinkedListDevice.PushBack | packages/pmacc/include/spmacc/SinglyLinkedListDevice.hpp:122-141 | an undisturbed push appends the frame: the heap path becomes the old path followed by the new frame |
| FrameListHeap.SingleLinkedListDevice.Size | packages/pmacc/include/spmacc/SinglyLinkedListDevice.hpp:159-169 | the pointer-walking loop ends and counts the frames of the path |
| FrameListHeap.ThreadStep | packages/pmacc/include/spmacc/SinglyLinkedListDevice.hpp:122-141 | the pointer writes of one operation on the heap refine the step of the state machine |
| FrameListHeap.RunInterleaved | packages/pmacc/include/spmacc/SinglyLinkedListDevice.hpp:122-141 | any schedule run on the heap ends in a heap that represents the state the schedule leads to |
| FrameListHeap.HeapSnapshot | packages/pmacc/include/spmacc/SinglyLinkedListDevice.hpp:149-169 | what is reachable in the heap is the prefix that the state machine predicts |
| FrameListHeap.SizeAfterInterleaving | packages/pmacc/include/spmacc/SinglyLinkedListDevice.hpp:122-169 | after any interleaving `size()` returns the number of frames before the first unfinished link, and the number of pushes onto the list once all have finished or every thread had three turns |
| ParticleInit.LastFrameHoldsTheRest | packages/pmacc/include/spmacc/FrameList.hpp:147-199 | for a non-empty region all frames but the last are full and the last holds between one and frameSize particles, together numParticles |
| ParticleInit.SlotOfParticle | include/spearhed/particles/initialization/InitParticles.hpp:142-226 | frame number and slot determine the particle index and the other way round |
| ParticleInit.FramesHoldAllParticles | packages/pmacc/include/spmacc/FrameList.hpp:147-199 | the live counts of the frames of a region add up to its number of particles |
| ParticleInit.InclusiveScanHost | packages/pmacc/include/spmacc/particles/algorithms/FrameDispatch.hpp:87-95 | the in-place scan replaces every entry by the sum up to and including it, modulo 2^32, and returns the last one |
| ParticleInit.RegionOf | include/spearhed/particles/initialization/InitParticles.hpp:86-103 | the region whose range of frame numbers contains the block, skipping empty regions |
| ParticleInit.BlocksAreFrames | include/spearhed/particles/initialization/InitParticles.hpp:86-103 | blocks and (region, frame) pairs correspond one to one |
| ParticleInit.FindFrameLocation | include/spearhed/particles/initialization/InitParticles.hpp:86-103 | the binary search finds the region of the block, its frame within it and the number of frames there |
| ParticleInitRun.ActKeepsInv | include/spearhed/particles/initialization/InitParticles.hpp:232-277 | every action of the kernel, a block pushing its frame or filling one slot, keeps the invariant on slots, ids and lists |
| ParticleInitRun.RunInitKeepsInv | include/spearhed/particles/initialization/InitParticles.hpp:232-277 | the invariant holds after every schedule of blocks and slot fills |
| ParticleInitRun.NoBlockWaits | include/spearhed/particles/initialization/InitParticles.hpp:232-277 | while a slot is unset its own block has an action that changes the state, whatever the other blocks have done |
| ParticleInitRun.ActDoesOneUnit | include/spearhed/particles/initialization/InitParticles.hpp:142-277 | an action that changes anything lowers the work left by exactly one |
| ParticleInitRun.RunIsBounded | include/spearhed/particles/initialization/InitParticles.hpp:142-277 | in any schedule at most frameSize + 4 actions per block change anything, and exactly so many if and only if the run has set every slot |
| ParticleInitRun.EndedMeansQuiet | include/spearhed/particles/initialization/InitParticles.hpp:142-277 | every slot is set exactly when no action of any block can change anything any more |
| ParticleInitRun.EveryRunCanEnd | include/spearhed/particles/initialization/InitParticles.hpp:142-277 | from every reachable state there is a schedule that ends the run, as long as the work left |
| ParticleInitRun.EachParticlePlacedOnce | include/spearhed/particles/initialization/InitParticles.hpp:142-226 | a filled slot holds the particle whose home it is, so each particle of a region sits in exactly one slot |
| ParticleInitRun.TicketsAreUnique | include/spearhed/particles/initialization/InitParticles.hpp:142-226 | the id drawn in a slot was drawn there only |
| ParticleInitRun.IdsDrawn | include/spearhed/particles/initialization/InitParticles.hpp:142-226 | a completed run has drawn exactly as many ids as there are particles |
| ParticleInitRun.RegionIsComplete | include/spearhed/particles/initialization/InitParticles.hpp:232-277 | every region, also an empty one, ends with numFrames frames on its list and live counts that add up to numParticles |
| ParticleInitRun.InitialisationIsComplete | include/spearhed/particles/initialization/InitParticles.hpp:232-277 | end to end, for any region counts and any schedule that ends: lists complete, particles placed once, ids drawn once |
| SpeciesInit.CreateSpecies | include/spearhed/particles/initialization/InitRegions.hpp:58-103 | the region buffer is the concatenation, in block order, of the volumes of the setup blocks that target the species |
| SpeciesInit.LocateBlocks | include/spearhed/particles/initialization/InitParticles.hpp:86-103 | searching the scan gives every block of a launch its region, frame and live count: the plan that the kernel run follows |
| SpeciesInit.PlanIsUnique | include/spearhed/particles/initialization/InitParticles.hpp:86-103 | particle counts and frame size determine the plan |
| SpeciesInit.EveryRunFillsTheSlice | include/spearhed/particles/initialization/InitParticles.hpp:232-277 | whatever the schedule, after a kernel run that ends a reader of the lists finds each particle of each region once, and each id below the number of particles at exactly one place of the slice |
| SpeciesInit.KernelCanEnd | include/spearhed/particles/initialization/InitParticles.hpp:232-277 | whatever the frames held before, the kernel of a slice has a schedule on which it ends |
| SpeciesInit.RunKernel | include/spearhed/particles/initialization/InitParticles.hpp:232-277 | locating the blocks in the scan, running their actions in the given order and reading the lists gives what EveryRunFillsTheSlice promises; nothing is assumed but that the run ends |
| SpeciesInit.CountSlice | include/spearhed/particles/initialization/InitParticles.hpp:110-137 | the counting pass writes for each region the count that the block's recipe gives for its volume, and its number of frames; nothing outside the slice changes |
| SpeciesInit.InitBlockSlice | include/spearhed/particles/initialization/InitParticles.hpp:340-430 | count, scan, kernel run and fill change only the slice of the block: its regions hold the particles their volumes call for, each once, and each of the next Sum(counts) ids belongs to exactly one of them, also when there is nothing to create; of the kernel it assumes only that its run ends |
| SpeciesInit.InitSpecies | include/spearhed/particles/initialization/InitParticles.hpp:299-337 | walking the setup blocks with a running region offset fills each region with the particles that the contributing block counts for its volume; in the whole buffer each id handed out belongs to exactly one particle; the topology version is bumped |
| SphKernels.EvalW | include/spearhed/sph/CubicSplineKernel.hpp:68-88 | the piecewise evaluation of both kernels, with the power loop, equals a combination of truncated powers |
| SphKernels.EvalDWdr | include/spearhed/sph/QuinticSplineKernel.hpp:106-139 | the piecewise evaluation of the radial derivative equals a combination of truncated powers |
| SphKernels.KernelSupport | include/spearhed/sph/QuinticSplineKernel.hpp:59-99 | W is non-negative, positive exactly for r < supportRadius * h, and W and dWdr vanish beyond |
| SphKernels.KernelFalls | include/spearhed/sph/CubicSplineKernel.hpp:61-88 | W does not increase with the distance, across all pieces |
| SphKernels.DWdrNotPositive | include/spearhed/sph/CubicSplineKernel.hpp:96-115 | the radial derivative is never positive |
| SphKernels.DWdrIsDerivative | include/spearhed/sph/QuinticSplineKernel.hpp:101-139 | dWdr is the derivative of W everywhere, knots included: the tangent error is at most a constant times the square of the step |
| SphKernels.RemainderBound | include/spearhed/sph/QuinticSplineKernel.hpp:66-139 | a power lies above its tangent by at most n choose 2 times the square of the step, for every degree |
| SphNorm.KernelScales | include/spearhed/sph/CubicSplineKernel.hpp:46-88 | W(r, h) times h, h^2 or h^3 is W(r/h, 1) in one, two or three dimensions, and W is positive exactly below 2h (cubic) or 3h (quintic) |
| SphNorm.EnclosedIsIntegral | include/spearhed/sph/CubicSplineKernel.hpp:46-88 | a combination of truncated powers grows with the radius at the rate (2, 2 pi r or 4 pi r^2) times W(r, h), up to a multiple of the squared step: it is the integral of W over a ball |
| SphNorm.EnclosesOne | include/spearhed/sph/CubicSplineKernel.hpp:46-60 | that integral over the whole support is exactly one, for both kernels, in every dimension, for every h |
| SphNorm.ShellsAddUpToOne | include/spearhed/sph/CubicSplineKernel.hpp:46-88 | without naming the primitive: the sum of W over n spherical shells of the support differs from one by at most a constant divided by n |
| SphPairs.ContextMeasured | packages/pmacc/include/spmacc/particles/algorithms/ParticleParticleInteraction.hpp:277-305 | r is the square root of r2 and invR its reciprocal, both zero for coinciding particles |
| SphPairs.ContextMirrored | packages/pmacc/include/spmacc/particles/algorithms/ParticleParticleInteraction.hpp:277-305 | seen from the other particle only the direction changes |
| SphPairs.GradW | include/spearhed/sph/CubicSplineKernel.hpp:145-161 | r times the gradient is dW/dr times rVec; zero at the origin and beyond the support, parallel to rVec, and never up the slope of W |
| SphPairs.GradientIsScalar | include/spearhed/sph/QuinticSplineKernel.hpp:141-180 | the scalar factor times the separation is the vector gradient |
| SphPairs.AccelerationIsCentral | include/spearhed/sph/HydroForces.hpp:163-168 | the symmetric pressure force acts along the line through the pair |
| SphPairs.PressurePushesApart | include/spearhed/sph/HydroForces.hpp:163-168 | with pressures that are not negative the force of a pair is repulsive |
| SphPairs.HeatingIsAdiabatic | include/spearhed/sph/EquationOfState.hpp:30-36 | with the ideal-gas pressure the heating of a pair follows its compression adiabatically: rho du/dt = (gamma - 1) u drho/dt |
| SphPairs.HydroInteraction | include/spearhed/sph/HydroForces.hpp:106-175 | the hoisted scalar form (prepare, stage, pair) computes the documented pressure-gradient force and P dV heating |
| SphStep.PushVelocity | include/spearhed/particles/pusher/PushVelocity.hpp:38-41 | the in-place push advances the positions of fluid and tracer particles by v dt, component by component, and changes nothing else; walls stay |
| SphStep.DensityInitSelf | include/spearhed/particles/density/DensitySummation.hpp:83-94 | targets start from their own contribution, everything else is unchanged |
| SphStep.UpdateDensity | include/spearhed/particles/density/DensitySummation.hpp:51-138 | the in-place pass gives every target its self term plus the sum of m_j W(r_ij, h_i) over the sources in reach |
| SphStep.DensityIsPositive | include/spearhed/particles/density/DensitySummation.hpp:51-94 | with positive masses and smoothing lengths every density is positive, so the force pass never divides by zero |
| SphStep.UpdateHydroForces | include/spearhed/sph/HydroForces.hpp:51-215 | zeroing, staging and accumulating in place gives every target its sums of pair forces and heating |
| SphStep.EulerIntegrate | include/spearhed/particles/pusher/EulerIntegrate.hpp:45-51 | the in-place update adds dvdt dt to the velocity and dudt dt to the internal energy of targets only |
| SphStep.RunOneStep | include/spearhed/control/Simulation.x.cpp:196-305 | the stages in their order compute the step function |
| SphLaws.ContextDistance | packages/pmacc/include/spmacc/particles/algorithms/ParticleParticleInteraction.hpp:277-305 | r in the pair context is the Euclidean distance of the two particles |
| SphLaws.LoneDensity | include/spearhed/particles/density/DensitySummation.hpp:83-94 | a fluid particle alone gets the density m W(0, h) |
| SphLaws.DensityWithOneMore | include/spearhed/particles/density/DensitySummation.hpp:51-138 | one more particle at distance r adds m_j W(r, h_i) to the density of particle i, h_i being its own length, if it is fluid or wall and closer than 2 h0 (cubic) or 3 h0 (quintic), else nothing |
| SphLaws.OthersLengthIsIgnored | include/spearhed/particles/density/DensitySummation.hpp:60-73 | changing the smoothing length of any other particle leaves the density as it is |
| SphLaws.DensityIsLinearInMass | include/spearhed/particles/density/DensitySummation.hpp:60-73 | raising the mass of a source in reach by d raises the density by d W(r, h_i) |
| SphLaws.StepLeavesOwnDensity | include/spearhed/control/Simulation.x.cpp:196-305 | the density stored after a step is the density of the places stored after the step |
| SphLaws.LoneRates | include/spearhed/sph/HydroForces.hpp:51-215 | a particle alone is neither accelerated nor heated |
| SphLaws.RatesWithIdle | include/spearhed/sph/HydroForces.hpp:51-215 | one more particle that is a tracer, out of reach or at the same place changes neither derivative |
| SphLaws.RatesWithOneMore | include/spearhed/sph/HydroForces.hpp:63-90 | one more source adds -m_j (P_i/rho_i^2 W'(r, h_i) + P_j/rho_j^2 W'(r, h_j)) r_ij / r to dvdt and m_j P_i/rho_i^2 W'(r, h_i) v_ij.r_ij / r to dudt, for the ideal gas |
| SphConservation.ForcesOppose | include/spearhed/sph/HydroForces.hpp:163-168 | action and reaction of a pair |
| SphConservation.TorquesOppose | include/spearhed/sph/HydroForces.hpp:163-168 | the torques of a pair cancel |
| SphConservation.PowersOppose | include/spearhed/sph/HydroForces.hpp:139-175 | what one particle of a pair loses in kinetic plus internal energy the other gains, also for unequal smoothing lengths |
| SphConservation.OnlyWallsRemain | include/spearhed/sph/HydroForces.hpp:139-175 | summed over all pairs every quantity changes only through fluid-wall pairs |
| SphConservation.StepBalance | include/spearhed/particles/pusher/EulerIntegrate.hpp:45-51 | one step changes momentum and angular momentum by dt times what the walls exert, and the energy by the walls' work plus exactly dt^2/2 times the sum of m abs(dvdt)^2 |
| SphConservation.ClosedStep | include/spearhed/control/Simulation.x.cpp:196-305 | without walls a step keeps both momenta and changes the energy by exactly the non-negative second-order term |
| SphConservation.RunConserves | include/spearhed/control/Simulation.x.cpp:196-305 | without walls any run conserves linear and angular momentum and never loses energy |
| SphConservation.RunBalance | include/spearhed/control/Simulation.x.cpp:196-305 | with walls, over a run of any length, the totals change by the sum of the walls' impulses and the second-order terms |
| SphConservation.CentreOfMassMovesUniformly | include/spearhed/particles/pusher/PushVelocity.hpp:38-41 | without walls, after n steps the first mass moment has changed by n dt times the momentum, however the particles interact |
| SphSpecies.TracersDrift | include/spearhed/control/Simulation.x.cpp:225-260 | after n steps a tracer is at x + n dt v and nothing else about it has changed |
| SphSpecies.WallsStay | include/spearhed/control/Simulation.x.cpp:225-260 | a wall particle is the same after any number of steps |
| SphSpecies.FluidFollowsVelocity | include/spearhed/control/Simulation.x.cpp:196-305 | in each step of a run a fluid particle moves by dt times the velocity before the step, then velocity and energy change by dt times the derivatives of the step; mass and smoothing length stay |
| SphSpecies.TracersArePassive | include/spearhed/control/Simulation.x.cpp:196-305 | deleting a tracer changes no other particle, over a run of any length |
| SphSpecies.MovedTracerChangesNothing | include/spearhed/control/Simulation.x.cpp:196-305 | nor does putting another tracer in its place |
| SphConservation.CutDensityIsExact | include/spearhed/particles/density/DensitySummation.hpp:105-138 | with all h <= h0 cutting pairs at supportRadius * h0 changes no density |
| SphConservation.CutForcesAreExact | include/spearhed/sph/HydroForces.hpp:184-215 | with all h <= h0 the cut changes no force and no heating |
| SphLattice.CubicUnity | include/spearhed/sph/CubicSplineKernel.hpp:49-88 | the cubic sums to the inverse of its 1D norm over the integers, for every offset |
| SphLattice.QuinticUnity | include/spearhed/sph/QuinticSplineKernel.hpp:47-99 | the quintic sums to the inverse of its 1D norm over the integers, for every offset |
| SphLattice.SupportSum | include/spearhed/sph/QuinticSplineKernel.hpp:47-99 | sampled k times per smoothing length, the samples of the support add up to k times that |
| SphLattice.LatticeDensityIsExact | include/spearhed/particles/density/DensitySummation.hpp:57-93 | in 1D, for every k, an interior particle of a lattice with spacing h/k and mass rho0 h/k gets density exactly rho0, with both kernels |
| DeviceReduce.FoldStrided | packages/pmacc/include/pmacc/device/reduce/Kernel.hpp:154-168 | a thread's grid-strided loop folds the elements dealt to it |
| DeviceReduce.FoldShared | packages/pmacc/include/pmacc/device/reduce/Kernel.hpp:173-197 | the tree in shared memory, halving with rounding up, leaves the fold of all elements in element 0 |
| DeviceReduce.ReduceBlock | packages/pmacc/include/pmacc/device/reduce/Kernel.hpp:133-198 | a block whose threads all have an element returns the fold of its share |
| DeviceReduce.EnqueueKernel | packages/pmacc/include/pmacc/device/reduce/Kernel.hpp:79-104 | a launch stores, or combines, one value per block and leaves the rest of the destination; a source inside the destination is not disturbed |
| DeviceReduce.LaunchReduces | packages/pmacc/include/pmacc/device/reduce/Kernel.hpp:79-198 | the values of all blocks together fold to the fold of the source |
| DeviceReduce.ThreadsPerBlock | packages/pmacc/include/pmacc/device/Reduce.hpp:181-208 | a block size between 1 and 512, at most the limit and more than half of it below 512 |
| DeviceReduce.FirstLaunchFits | packages/pmacc/include/pmacc/device/Reduce.hpp:109-127 | the first launch has at least one block, an element for each thread and room for each block in the scratch buffer |
| DeviceReduce.AccumulationFits | packages/pmacc/include/pmacc/device/Reduce.hpp:136-155 | a further launch reads behind what it writes, has an element for each thread, and leaves fewer elements than before; with two threads per block it has at least one block |
| DeviceReduce.EnqueueReduction | packages/pmacc/include/pmacc/device/Reduce.hpp:100-174 | the host loop terminates, every launch fits, and element 0 is the result of the passes |
| DeviceReduce.HostReducesAll | packages/pmacc/include/pmacc/device/Reduce.hpp:100-174 | for every associative and commutative operator the result is the fold of all n inputs, if shared memory holds two elements or min(2 nBuffer, n) < 8 |
| DeviceReduce.HostLosesInput | packages/pmacc/include/pmacc/device/Reduce.hpp:100-174 | and only then: otherwise summing a single one among zeros does not give one |
| GlobalIds.ReverseBits | packages/pmacc/include/pmacc/algorithms/reverseBits.hpp:43-61 | the shifting loop computes the reversed word |
| Bits.BitOfRev | packages/pmacc/include/pmacc/algorithms/reverseBits.hpp:43-61 | bit i of the reversed word is bit w-1-i of the original |
| Bits.RevRev | packages/pmacc/include/pmacc/algorithms/reverseBits.hpp:43-61 | reversing twice gives the original |
| GlobalIds.IdProvider.constructor | packages/pmacc/include/pmacc/particles/IdProvider.hpp:132-139 | a rank starts at its reversed number |
| GlobalIds.IdProvider.SetStateHost | packages/pmacc/include/pmacc/particles/IdProvider.hpp:115-123 | the counter and start are set, the maximal number of processes never decreases |
| GlobalIds.IdProvider.FetchInc | packages/pmacc/include/pmacc/particles/IdProvider.hpp:38-42 | n fetches return the next n ids modulo 2^64 |
| GlobalIds.OverflownIffShareUsed | packages/pmacc/include/pmacc/particles/IdProvider.hpp:142-168 | for fewer than 2^w ids, isOverflown is true exactly when the rank has issued at least 2^(w-n), n the bit width of maxNumProc-1 |
| GlobalIds.SharesFillTheRange | packages/pmacc/include/pmacc/particles/IdProvider.hpp:142-168 | the shares of maxNumProc ranks fit into the range of ids and fill more than half of it |
| GlobalIds.IdInShare | packages/pmacc/include/pmacc/particles/IdProvider.hpp:132-168 | while not overflown the ids of a rank lie in its own share of the range |
| GlobalIds.IdsAreUnique | packages/pmacc/include/pmacc/particles/IdProvider.hpp:132-168 | no id is issued twice, by one rank or by two, while no rank is overflown |
| GlobalIds.WarpsIssueIds | packages/pmacc/include/pmacc/particles/IdProvider.hpp:38-42 | warp-aggregated fetching issues the same ids |
| WarpIncrement.AtomicAllInc | packages/pmacc/include/pmacc/kernel/atomic.hpp:81-109 | the active lanes of a warp get old .. old+popcount-1 in lane order, and the counter moves on by the popcount |
| WarpIncrement.RunWarps | packages/pmacc/include/pmacc/kernel/atomic.hpp:81-109 | any sequence of warps hands out what increments one at a time would |
| WarpIncrement.IncrementsAreDistinct | packages/pmacc/include/pmacc/kernel/atomic.hpp:81-109 | no value is handed out twice within a turn of the counter |
| ChunkedExchange.SendKeepsInv | packages/pmacc/include/pmacc/particles/Communication.hpp:82-118 | a chunk sent keeps the balance of guard, channel and inserted particles and the sizes of the chunks in flight |
| ChunkedExchange.ReceiveKeepsInv | packages/pmacc/include/pmacc/particles/Communication.hpp:121-147 | so does a chunk received |
| ChunkedExchange.NoUnmatchedMessage | packages/pmacc/include/pmacc/particles/Communication.hpp:82-147 | neither side waits for a message that does not come, and none is left over |
| ChunkedExchange.RunIsBounded | packages/pmacc/include/pmacc/particles/Communication.hpp:151-212 | every run over any number of directions is finite |
| ChunkedExchange.NeverStuck | packages/pmacc/include/pmacc/particles/Communication.hpp:151-212 | until the gaps are filled some action is enabled |
| ChunkedExchange.GapsFilledLast | packages/pmacc/include/pmacc/particles/Communication.hpp:151-212 | gaps are filled only when every direction has delivered exactly the sender's guard particles, in N div max + 1 rounds on both sides |
| ChunkedExchange.Link.SendChunks | packages/pmacc/include/pmacc/particles/Communication.hpp:82-118 | the sender's loop empties the guard in N div max full chunks and a short or empty one |
| ChunkedExchange.Link.ReceiveChunks | packages/pmacc/include/pmacc/particles/Communication.hpp:121-147 | the receiver's loop takes in every chunk of such a sequence and stops after the last |
| ChunkedExchange.ExchangeOneDirection | packages/pmacc/include/pmacc/particles/Communication.hpp:82-147 | the two loops together move exactly the guard particles |
| SignalAgreement.SignalCounters.Handle | packages/pmacc/include/pmacc/simulationControl/signal.cpp:39-53 | a handler adds to the counters of its signal |
| SignalAgreement.SignalCounters.Poll | packages/pmacc/include/pmacc/simulationControl/signal.cpp:70-83 | a signal is reported once and locks until release |
| SignalAgreement.SignalCounters.Release | packages/pmacc/include/pmacc/simulationControl/signal.cpp:85-96 | handled signals are taken off the counters only while locked |
| SignalAgreement.VotesAreUnanimous | packages/pmacc/include/pmacc/simulationControl/SimulationHelper.cpp:299-304 | the sum of the flags equals the number of ranks exactly if every rank asked |
| SignalAgreement.ActKeepsInv | packages/pmacc/include/pmacc/simulationControl/SimulationHelper.cpp:262-321 | signal arrival, stepping, sampling of either flag and completion of a round keep the invariant on all ranks |
| SignalAgreement.RanksAgree | packages/pmacc/include/pmacc/simulationControl/SimulationHelper.cpp:262-321 | two ranks that finished a round took the same decision with the same common step |
| SignalAgreement.RanksActAlike | packages/pmacc/include/pmacc/simulationControl/SimulationHelper.cpp:305-317 | ranks that finished equally many rounds have the same checkpoints and the same last step |
| SignalAgreement.SignalsBalance | packages/pmacc/include/pmacc/simulationControl/signal.cpp:70-111 | counters never go negative and signals delivered equal outstanding plus handled |
| SignalAgreement.DecisionsAreUnanimous | packages/pmacc/include/pmacc/simulationControl/SimulationHelper.cpp:262-321 | a decision is taken exactly if all asked, for the largest proposed step, and an agreed stop means no rank saw more than one checkpoint outstanding |
| SignalAgreement.PollSeesSignals | packages/pmacc/include/pmacc/simulationControl/signal.cpp:70-83 | an idle rank that polls joins a round, for its next step, exactly if one of its counters is not zero |
| SignalAgreement.SamplesAreReadings | packages/pmacc/include/pmacc/simulationControl/signal.cpp:98-111 | a rank asks for a checkpoint if and only if its checkpoint counter was not zero when read, for a stop if and only if the stop counter was not zero and the checkpoint counter at most one, and proposes the step after its poll |
| SignalAgreement.FinishFollowsCounters | packages/pmacc/include/pmacc/simulationControl/SimulationHelper.cpp:262-317 | finishing a round appends a checkpoint exactly if every rank had one outstanding when it read its counter, and sets the last step exactly if every rank had a stop and at most one checkpoint outstanding; both for the largest of the ranks' next steps |
| SignalAgreement.CountersAreOutstanding | packages/pmacc/include/pmacc/simulationControl/signal.cpp:39-53 | the counters of a rank are the signals delivered to it less those it has handled, and its step is the number of its advances |
| SlidingGrid.ContainsExchangeType | packages/pmacc/include/pmacc/memory/dataTypes/Mask.hpp:130-148 | the loop over base-3 digits tests for one face of a direction |
| SlidingGrid.FacesAreDigits | packages/pmacc/include/pmacc/memory/dataTypes/Mask.hpp:130-148 | the six faces are the digits 1 and 2 of the three dimensions |
| SlidingGrid.MirroredIsOpposite | packages/pmacc/include/pmacc/memory/dataTypes/Mask.hpp:194-215 | the mirrored direction is the opposite step in every dimension |
| SlidingGrid.CommunicatorMPI.UpdateCoordinates | packages/pmacc/include/pmacc/communication/CommunicatorMPI.cpp:140-222 | coordinates, neighbour table and communication mask of the rank for its window offset |
| SlidingGrid.CommunicatorMPI.Slide | packages/pmacc/include/pmacc/communication/CommunicatorMPI.cpp:104-117 | the window offset moves on by one, the table follows, true on the last layer in y |
| SlidingGrid.CommunicatorMPI.SetStateAfterSlides | packages/pmacc/include/pmacc/communication/CommunicatorMPI.cpp:120-137 | from the state after any number of slides, the state that numSlides more lead to; the flag is set exactly on the last layer in y when numSlides is no multiple of the grid height |
| SlidingGrid.SlideTimes | packages/pmacc/include/pmacc/communication/CommunicatorMPI.cpp:104-117 | k slides lead to that same state, with the flag of the last of them: set exactly on the last layer in y |
| SlidingGrid.FullTurnsUnreported | packages/pmacc/include/pmacc/communication/CommunicatorMPI.cpp:104-137 | after any positive number of full turns, single slides end with true exactly on the ranks of the last layer, the restored state with false on all |
| SlidingGrid.EntryIsOneStepAway | packages/pmacc/include/pmacc/communication/CommunicatorMPI.cpp:140-222 | the table names the rank whose position is one step away, wrapping only where periodic |
| SlidingGrid.OppositeLeadsBack | packages/pmacc/include/pmacc/communication/CommunicatorMPI.cpp:140-222 | the named rank's entry for the opposite direction is the first rank |
| SlidingGrid.SlideMovesLayers | packages/pmacc/include/pmacc/communication/CommunicatorMPI.cpp:104-117 | a slide moves every rank one layer down in y and the first layer becomes the last |
| SlidingGrid.NeighbourRanks | packages/pmacc/include/pmacc/communication/CommunicatorMPI.cpp:140-222 | after any number k of slides, for all directions at once and in plain numbers: the table names the rank at (x + sx, y + sy, z + sz), wrapped and numbered row by row, and nobody exactly if some axis that is not periodic ends there, y counted from the row y - k |
| SlidingGrid.FacesAlongXAndZ | packages/pmacc/include/pmacc/communication/CommunicatorMPI.cpp:140-222 | directions 1, 2, 9 and 18 (RIGHT, LEFT, BACK, FRONT) name the next larger or smaller coordinate in x or z |
| SlidingGrid.FacesAlongY | packages/pmacc/include/pmacc/communication/CommunicatorMPI.cpp:140-222 | directions 3 and 6 (BOTTOM, TOP) name the next larger or smaller coordinate in y, where the present row decides whether there is one |
| SlidingGrid.CombinedDirections | packages/pmacc/include/pmacc/communication/CommunicatorMPI.cpp:140-222 | an edge or corner names whom the neighbour across the face along x names for the rest of the way |
| SlidingGrid.RankInjective | packages/pmacc/include/pmacc/communication/CommunicatorMPI.cpp:206-212 | different places have different row-major ranks |
| Lockstep.ForEach | packages/pmacc/include/pmacc/lockstep/ForEach.hpp:174-218 | a worker visits exactly its indices of the domain, each once, with their slots |
| Lockstep.EveryIndexOnce | packages/pmacc/include/pmacc/lockstep/ForEach.hpp:174-218 | over all workers every index is visited exactly once, by its owner, in a slot that the owner has |
| Lockstep.PlacesAreDistinct | packages/pmacc/include/pmacc/lockstep/ForEach.hpp:182-203 | a worker and a slot belong to at most one index |
| Lockstep.SlotFits | packages/pmacc/include/pmacc/lockstep/Config.hpp:49-50 | slots stay below maxIndicesPerWorker |
| Lockstep.Variable.Assign | packages/pmacc/include/pmacc/lockstep/Variable.hpp:95-103 | a loop that assigns a value per index leaves it in the slot of the index |
| Lockstep.Variable.ReadBack | packages/pmacc/include/pmacc/lockstep/Variable.hpp:95-103 | a later loop finds at every index what was assigned there |
| GatherSlice.Displacements | packages/pmacc/include/pmacc/mpi/GatherSlice.hpp:158-175 | displacements are the prefix sums of the areas and counts the areas, both in bytes |
| GatherSlice.GatherV | packages/pmacc/include/pmacc/mpi/GatherSlice.hpp:176-189 | copying each rank's bytes to its displacement makes the receive buffer the data of all ranks one after the other, in whatever order the messages arrive |
| GatherSlice.GatherSliceExplicit | packages/pmacc/include/pmacc/mpi/GatherSlice.hpp:158-213 | there is a field exactly if the element count is right, and then every cell of every slice holds the value sent for it, in whatever order the messages arrive |
| GatherSlice.CellsInRowOrder | packages/pmacc/include/pmacc/mpi/GatherSlice.hpp:198-211 | the first cell of a slice holds its first value, one step in x the next value, one step in y the value a row later |
| GatherSlice.EveryCellHasOneOwner | packages/pmacc/include/pmacc/mpi/GatherSlice.hpp:194-211 | disjoint slices inside the field with the right element count cover every cell exactly once |
| DomainOffsets.SumOverRanks | include/spearhed/control/DomainAdjuster.hpp:145-158 | dividing the all-rank sum by the number of ranks that share a coordinate is exact |
| DomainOffsets.DomainAdjuster.UpdateLocalDomainOffset | include/spearhed/control/DomainAdjuster.hpp:116-158 | the offset of the rank is the sum of the extents of the coordinates before it |
| DomainOffsets.DomainAdjuster.DeriveGlobalDomainSize | include/spearhed/control/DomainAdjuster.hpp:167-192 | the global size is the sum of the extents along the axis |
| DomainOffsets.DomainAdjuster.Adjust | include/spearhed/control/DomainAdjuster.hpp:72-99 | both for every axis |
| DomainOffsets.DomainsTile | include/spearhed/control/DomainAdjuster.hpp:116-192 | the local domains tile the global domain: every cell belongs to exactly one position of the process grid |
| TimeSlices.ToSlice | packages/pmacc/include/pmacc/pluginSystem/toSlice.hpp:67-115 | the nested loops compute the parse of the text, an error at the first text that fails |
| TimeSlices.RoundTrip | packages/pmacc/include/pmacc/pluginSystem/Slice.hpp:45-67 | reading the comma-joined print of any list of slices with non-zero period gives the list back |
| TimeSlices.LoneNumberIsPeriod | packages/pmacc/include/pmacc/pluginSystem/toSlice.hpp:127-141 | a lone number parses like the period of an open slice exactly unless its 32-bit value is zero |
| TimeSlices.ContainsStep | packages/pmacc/include/pmacc/pluginSystem/containsStep.hpp:38-50 | a step is accepted exactly if some slice accepts it |
| TimeSlices.AcceptsEveryPeriod | packages/pmacc/include/pmacc/pluginSystem/containsStep.hpp:38-50 | a slice accepts exactly begin, begin + period, begin + 2 period and so on up to its end |
| TimeSlices.OpenEndSelects | packages/pmacc/include/pmacc/pluginSystem/toSlice.hpp:67-115 | the text b:-1:p is read and accepts exactly b, b + p, b + 2p and so on up to 2^32 - 1 |
| TimeSlices.RangeOfNumberSelects | packages/pmacc/include/pmacc/pluginSystem/toSlice.hpp:154-169 | a lone number N read as a range accepts exactly N and N + 1, and nothing for N = 2^32 - 1, where N + 1 wraps to zero |

## Left out

- openPMD output, command line, logging, timing, plugin loading and checkpoint files: no property beyond plumbing.
- Floating-point rounding, NaN and infinity: physical quantities are reals.
- Weak memory: atomic operations and link writes are sequentially consistent steps.
- Order of neighbours: the sums run over particles in index order, not in the order of regions, frames and slots; over the reals it does not matter. Positions are absolute instead of relative to a region, and only live slots are modelled.
- Neighbour search: which regions are offered to a target; the model offers every source and cuts at the interaction radius.
- SpeciesInit.InitBlockSlice: assumes that the run of the kernel ends; RunIsBounded and EveryRunCanEnd say how long a run can be and that it can always end, but that the device keeps giving turns to every block is not modelled. Ids are counted without wrap-around; GlobalIds has the wrap-around. A recipe is a map from volumes to particle counts, `filledBy` only names the setup block, and where a particle is placed within its region is not modelled.
- ParticleInitRun.RunInitKeepsInv: slots are values and a fill is one step; the writes of the individual attributes of a particle are not interleaved.
- FrameListHeap.SingleLinkedListDevice.PushBack: states the push of an undisturbed thread; interleavings are ThreadStep and RunInterleaved.
- Allocation of a frame (`getEmptyNode`, `getEmptyFrame`) and the retry on an exhausted heap.
- DeviceReduce.EnqueueReduction: requires that nBuffer * blockcount * 2 fits into 32 bits and n >= 1, and at least one element of scratch; the choice of the launch template by block size is not modelled, and the ceiling of the double quotient is an integer ceiling.
- GlobalIds.OverflownIffShareUsed: requires maxNumProc >= 2; with one process the code shifts a 64-bit value by 64.
- ChunkedExchange.Link.SendChunks: which particles a chunk takes is arbitrary; the copy kernel is modelled as moving as many as fit, with an index that is empty exactly if the payload is. Directions without a neighbour are not modelled.
- SignalAgreement.DecisionsAreUnanimous: does not say that the common step is still ahead of every rank; the code does not bound how far a rank runs ahead.
- GatherSlice.GatherSliceExplicit: the master rank only; 32-bit overflow of counts and displacements is not modelled, and a copy of bytes moves whole elements.
- DomainOffsets.DomainAdjuster.Adjust: 32- and 64-bit overflow and the messages of the validation mode are not modelled.
- TimeSlices.ToSlice: all exceptions are one error value.
- `soundSpeed`, spherical and polar coordinates, `Matrix`, `cPow`, `DataConnector`, and the memory probing of the device: only easy members.
- alpaka, mallocMC, Boost, MPI and the Caravan senders: kept only as the ordering and matching stated above.
