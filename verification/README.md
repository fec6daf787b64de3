# Vlasiator field solver core, modelled in Dafny

This project models the part of Vlasiator that advances the electromagnetic
field on the uniform field-solver grid, and the small infrastructure it sits on.

- **Edge electric field** (`EdgeField`, `WaveSpeed`, `ElectricFieldStage`).
  The upwinded constrained-transport electric field on cell edges, in x, y and z.
  - The ideal, resistive, Hall and electron-pressure terms at the four corner cells of an edge.
  - The clamp range for the reconstructed densities.
  - The Alfvén, sound and whistler speeds, the signal speed and the CFL speed.
  - The running maxima of the one-sided characteristic speeds, the upwind average and the diffusive correction.
  - The per-cell step bound `maxFsDt`.
  - The stage loop over all local cells, and the ghost exchanges that precede it.
- **Electron pressure gradient term** (`GradPe`).
  The first-order grad-Pe term with the Hall minimum charge density.
  Cells are routed three ways: skipped, taken from the boundary condition, or computed.
- **Field propagation** (`PropagateFields`, `SubcycleControl`, `StepBounds`).
  - One step, first or second order in time.
  - Subcycling: the CFL check, and the snap that makes the last one or two subcycles land on the target time.
  - The reset and minimum of the step bounds.
  - The order of solver events, and the Hall-communication flag.
- **The `arch` loop layer** (`ArchApi`, `ArchHost`, `GridSweep`).
  - The host back end of `parallel_for` and `parallel_reduce`: which index tuples reach the body, in which order, and what the index variables hold afterwards.
  - The nested-body reductions.
  - The host buffer classes.
- **The `arch` unit tests** (`ArchUnitTests`): the local-ID arithmetic and the two field tests.
- **The velocity block container** (`BlockContainer`): the flat data and parameter arrays, and every operation on them.
- **The one-dimensional PPM reconstruction** (`Ppm`): face filtering and parabola coefficients, in the scalar and the vector overload.
- **The guarded division** (`GuardedDivision`) of the moment kernels.
- **The DO_NOT_COMPUTE system boundary** (`DoNotComputeBoundary`).

Conventions:
- Floating point is modelled by `real`.
- Fields are total functions from cell index to cell record (`FieldGrids`).
- Operations that only compute are pure functions. Those with loops are methods whose invariants tie them to a functional definition.
- I/O, MPI and the device back end are not modelled. Where the solver consumes a value computed elsewhere, such as the global step bound after an `MPI_Allreduce`, that value is a parameter.

## Model

| member | source | states |
|---|---|---|
| GuardedDivision.DivideIfNonZero | vlasovsolver/gpu_moments.hpp:64-73 | zero denominator gives zero; otherwise the result times the denominator is the numerator; a zero numerator always gives zero |
| GuardedDivision.DivideIfNonZeroSign | vlasovsolver/gpu_moments.hpp:64-73 | a non-negative numerator keeps the denominator's sign in the result (zero counts as either) |
| GuardedDivision.DivideIfNonZeroScale | vlasovsolver/gpu_moments.hpp:64-73 | scaling numerator and denominator by the same non-zero factor does not change the result, including the guarded zero case |
| Ppm.MonotoneIffEndSlopesAgree | vlasovsolver/cuda_1d_ppm_nonuniform.h:69-71 | a reconstruction parabola is monotone on the cell iff its slopes at the two faces do not have opposite signs |
| Ppm.FilterFaces | vlasovsolver/cuda_1d_ppm_nonuniform.h:57-64 | a left overshoot moves the left face so that the mean is kept with the right face fixed; a right overshoot, tested against the possibly moved left face, does the same on the right; faces without overshoot are kept |
| Ppm.LeftFilterSettlesRight | vlasovsolver/cuda_1d_ppm_nonuniform.h:57-64 | once the left face has been corrected, the right-overshoot test never fires, so at most one face moves |
| Ppm.Coefficients | vlasovsolver/cuda_1d_ppm_nonuniform.h:95-109 | the parabola preserves the cell average and takes the filtered face values at both ends |
| Ppm.CoefficientsMonotoneIff | vlasovsolver/cuda_1d_ppm_nonuniform.h:95-109 | the filtered parabola is monotone on the cell exactly when the two input faces differ or the average equals them, so filtering removes every interior extremum it can |
| Ppm.VecCoefficients | vlasovsolver/cuda_1d_ppm_nonuniform.h:45-77 | the vector overload keeps the cell average in every lane |
| Ppm.ScalarMatchesVectorLane | vlasovsolver/cuda_1d_ppm_nonuniform.h:45-115 | each lane of the vector overload equals the scalar overload applied to that lane's values |
| DoNotComputeBoundary.ZeroedParamsAreTheNamedOnes | sysboundary/donotcompute.cpp:62-80 | the parameters the initial state zeroes are exactly the 19 named ones: PERBX/Y/Z and their _DT2 copies, EX/EY/EZ, RHO and RHOVX/Y/Z and their _DT2 copies, RHOLOSSADJUST and RHOLOSSVELBOUNDARY; every other parameter keeps its value |
| DoNotComputeBoundary.Init | sysboundary/donotcompute.cpp:39-46 | initialisation always succeeds, with precedence 0 and a static boundary |
| DoNotComputeBoundary.Assign | sysboundary/donotcompute.cpp:48-50 | assignment succeeds and leaves every cell as it was |
| DoNotComputeBoundary.Index | sysboundary/donotcompute.cpp:93 | the boundary's index is the DO_NOT_COMPUTE type |
| DoNotComputeBoundary.Name | sysboundary/donotcompute.cpp:91 | the boundary's name is "DoNotCompute" |
| DoNotComputeBoundary.ApplyToCell | sysboundary/donotcompute.cpp:60-80 | a cell of another boundary type is untouched; a DO_NOT_COMPUTE cell has exactly the named parameters zeroed, and its flag never changes |
| DoNotComputeBoundary.ApplyInitialState | sysboundary/donotcompute.cpp:52-89 | the loop over cells succeeds and applies the per-cell rule to every cell and only to DO_NOT_COMPUTE ones |
| DoNotComputeBoundary.ApplyToCellIdempotent | sysboundary/donotcompute.cpp:62-80 | applying the initial state twice gives the same cell as applying it once |
| ArchApi.ParallelFor | arch/arch_device_api.h:43-52 | the host `parallel_for` calls the body on exactly the tuples of the box |
| ArchApi.ReduceScalar | arch/arch_device_api.h:55-59 | the scalar reduction passes one reduction and one dynamic size with the caller's operator, limits and storage |
| ArchApi.ReduceArray | arch/arch_device_api.h:62-65 | the array reduction passes the array length as both reduction counts |
| ArchApi.ReduceVector | arch/arch_device_api.h:68-71 | the vector reduction passes no static count and the vector size as the dynamic count |
| ArchApi.ParallelReduce | arch/arch_device_api.h:55-71 | every overload ends in the driver: one call per tuple of the box, each given the same storage address |
| ArchApi.OverloadsAgree | arch/arch_device_api.h:55-71 | the three overloads differ only in the reduction counts, so their body calls are identical |
| ArchApi.NewBuf | arch/arch_device_host.h:30 | a new host buffer wraps the caller's pointer and size, is not a copy, and has no device pointer |
| ArchApi.CopyBuf | arch/arch_device_host.h:32-33 | a copied buffer shares the pointer, device pointer and size, and is marked as a copy |
| ArchApi.CopySharesStorage | arch/arch_device_host.h:32-41 | indexing a copy reads the same storage as the original, and copying is idempotent |
| ArchApi.SyncDeviceData | arch/arch_device_host.h:26-28 | on the host back end, syncing to the device changes no memory |
| ArchApi.SyncHostData | arch/arch_device_host.h:26-28 | on the host back end, syncing to the host changes no memory |
| ArchApi.CopyGridBuf | arch/arch_device_host.h:58-69 | a copied grid buffer is marked as a copy and reads the same cell as the original at every coordinate |
| ArchHost.VisitsLength | arch/arch_device_host.h:102-139 | a loop nest makes as many body calls as the product of its limits |
| ArchHost.VisitsAt | arch/arch_device_host.h:102-139 | the n-th call receives a tuple inside the box whose row-major rank is n |
| ArchHost.VisitsCover | arch/arch_device_host.h:102-139 | every tuple of the box is the call at its rank |
| ArchHost.VisitedExactlyOnce | arch/arch_device_host.h:102-139 | a tuple is visited iff it lies in the box, and no tuple is visited twice |
| ArchHost.ExitIdempotent | arch/arch_device_host.h:102-114 | rerunning a finished nest leaves the index variables unchanged |
| ArchHost.ExitFromUnset | arch/arch_device_host.h:102-114 | after a nest, an index holds its limit iff every enclosing loop iterated, and is otherwise still unset |
| ArchHost.RunNest | arch/arch_device_host.h:102-139 | the written-out loops call the body in the order of the reference enumeration, and leave the index variables as the exit rule says |
| ArchHost.ParallelForDriver | arch/arch_device_host.h:102-139 | the 1-, 2- and 3-dimensional drivers visit every tuple of the box once, in rank order, and nothing outside it |
| ArchHost.ParallelReduceDriver | arch/arch_device_host.h:142-229 | the flat reduction drivers make one call per tuple, in rank order, each with the same storage address, and ignore the operator and counts |
| ArchHost.NestedReduceDriver | arch/arch_device_host.h:169-246 | the nested-body drivers make, per outermost index, one outer call then one closure call per inner tuple |
| ArchHost.NestedCallsMatchNest | arch/arch_device_host.h:199-213 | the closure calls alone follow the flat loop order; the o-th outer call sees index o and stale inner indices (unset before the first pass, at their limits after it) |
| ArchHost.NestedReduceVisits | arch/arch_device_host.h:231-246 | over a whole run, the closures see every tuple of the box exactly once, and there is one outer call per outermost index |
| ArchHost.SweepPointwise | arch/arch_device_api.h:43-52 | a `parallel_for` that updates the cell it is given leaves each visited cell holding its update of the old value, and every other cell unchanged, whatever the order |
| ArchHost.SelectBackend | arch/arch_device_api.h:29-33 | the CUDA back end is chosen iff CUDA is requested and the CUDA compiler is in use |
| ArchUnitTests.LocalIdAllDimensions | arch/unit_testing_fields.cpp:36-49 | when every dimension is larger than 1, the local ID is the row-major offset of the stencil-shifted coordinates |
| ArchUnitTests.LocalIdFlatDimension | arch/unit_testing_fields.cpp:36-49 | the coordinate of a dimension of size 1 does not affect the local ID |
| ArchUnitTests.LocalIdRoundTrip | arch/unit_testing_fields.cpp:36-49 | inside the storage box, decoding the local ID recovers the coordinates |
| ArchUnitTests.LocalIdInjective | arch/unit_testing_fields.cpp:36-49 | distinct in-box coordinates get distinct local IDs |
| ArchUnitTests.IdFormula | arch/unit_testing_fields.cpp:57-96 | for the 100-cube test grid with stencil 2, the address is 10816(z+2)+104(y+2)+(x+2), and the buffer's base offset is 21842 |
| ArchUnitTests.LimitsBox | arch/unit_testing_fields.cpp:73-76 | the test's loop limits describe exactly the 100-cube of cells |
| ArchUnitTests.ArchAddressShifted | arch/unit_testing_fields.cpp:73-76 | the address the arch loop writes is the local ID of the stencil-shifted cell |
| ArchUnitTests.SetTwo | arch/unit_testing_fields.cpp:73-86 | a loop that writes 2 sets every written address to 2 and leaves every other address as it was |
| ArchUnitTests.Element10NotWrittenByArch | arch/unit_testing_fields.cpp:89-94 | element 10 of the buffer is not an address the arch loop writes |
| ArchUnitTests.Test0IgnoresParallelFor | arch/unit_testing_fields.cpp:57-96 | test 0 passes from any initial memory, and for any result of the arch loop |
| ArchUnitTests.Test0FixedDetectsBrokenLoop | arch/unit_testing_fields.cpp:89-94 | with the check reading cell (10,10,10), test 0 passes with the real loop and fails with a loop that does nothing, unless memory already held 2 |
| ArchUnitTests.Test1IgnoresParallelFor | arch/unit_testing_fields.cpp:100-147 | test 1 passes always, because the host loop rewrites the checked cell before the check |
| ArchUnitTests.Test1FixedDetectsBrokenLoop | arch/unit_testing_fields.cpp:139-143 | with the check before the host loop, test 1 passes with the real loop and fails with one that does nothing, unless memory already held 2 |
| ArchUnitTests.Instantiate | arch/unit_testing_fields.cpp:152-164 | the instantiator fills slots 0..i-1 with their own test numbers and leaves the rest |
| ArchUnitTests.SuiteTable | arch/unit_testing_fields.cpp:175-177 | the suite registers exactly tests 0 and 1 |
| BlockContainer.ZeroLoop | velocity_block_container.h:507-509 | the element loop zeroes exactly the given range |
| BlockContainer.CopyLoop | velocity_block_container.h:203-206 | the element loop copies the source range onto the target range, for equal or non-overlapping ranges |
| BlockContainer.PrefixLoop | velocity_block_container.h:529-552 | the copy into fresh storage keeps the prefix and zeroes the rest |
| BlockContainer.DataOffset | velocity_block_container.h:237-244 | block l's data starts at l·WID3 |
| BlockContainer.ParamOffset | velocity_block_container.h:466-473 | block l's parameters start at l·N_PARAMS |
| BlockContainer.OffsetsRoundTrip | velocity_block_container.h:237-244 | an element's flat position decodes back to its block and its offset within the block |
| BlockContainer.BlocksDisjoint | velocity_block_container.h:237-244 | two blocks' data never share a position |
| BlockContainer.New | velocity_block_container.h:126-137 | a new container is valid and empty, with capacity 0 |
| BlockContainer.Clear | velocity_block_container.h:163-177 | clearing leaves a valid, empty container with no storage |
| BlockContainer.BlockAllocationFactor | velocity_block_container.h:222-225 | the growth factor is 11/10 |
| BlockContainer.GrownCapacity | velocity_block_container.h:554-572 | the grown capacity leaves room for at least two more blocks and is 2 + 1.1n rounded down |
| BlockContainer.Resize | velocity_block_container.h:554-572 | resize keeps a container with two free slots as it is; otherwise it grows so that two free slots remain, keeps the old contents and zero-fills the new storage |
| BlockContainer.ResizeKeepsBlocks | velocity_block_container.h:554-572 | every block below the old capacity reads the same after a resize |
| BlockContainer.ZeroBlockRange | velocity_block_container.h:507-509 | the given blocks and their parameters read zero, and every other block is unchanged |
| BlockContainer.PushBack | velocity_block_container.h:490-513 | push_back returns the old size as the new index, zeroes that block, keeps the blocks in use, and grows only when full |
| BlockContainer.PushBackN | velocity_block_container.h:515-527 | push_back(N) returns the old size, counts N more blocks, zeroes exactly those, and keeps the rest |
| BlockContainer.Pop | velocity_block_container.h:484-488 | pop does nothing when empty, otherwise drops one block from use, and never touches storage |
| BlockContainer.PopUndoesPushBack | velocity_block_container.h:484-513 | a pop after a push_back restores the size, and every block that was in use reads as before |
| BlockContainer.Recapacitate | velocity_block_container.h:529-552 | recapacitate is refused iff the new capacity is below the size; otherwise it has exactly that capacity, keeps the blocks in use and zeroes the rest |
| BlockContainer.SetSize | velocity_block_container.h:574-579 | setSize always succeeds, grows only beyond the capacity, and keeps every stored block |
| BlockContainer.Copy | velocity_block_container.h:179-207 | the target block and its parameters become the source's; every other block is unchanged |
| BlockContainer.Swap | velocity_block_container.h:593-622 | the two containers exchange all their contents |
| BlockContainer.SwapTwice | velocity_block_container.h:593-622 | swapping twice restores both containers |
| BlockContainer.SizeInBytes | velocity_block_container.h:588-591 | the reported size is the capacity times one block's data plus its parameters |
| BlockContainer.Apply | velocity_block_container.h:484-579 | every container operation preserves the layout invariant |
| BlockContainer.RunKeepsValid | velocity_block_container.h:126-622 | any sequence of operations keeps the container valid, with its size within its capacity |
| FieldGrids.StencilGrids | fieldsolver/ldz_electric_field.cpp:1694-1730 | the first stage of a second-order step reads the half-step B and moments; every other stage reads the full-step ones |
| EdgeField.ExStencilCells | fieldsolver/ldz_electric_field.cpp:493-512 | the x-edge corners are (i,j-1,k), (i,j,k-1) and (i,j-1,k-1), and the derivative neighbour is i+1 |
| EdgeField.EyStencilCells | fieldsolver/ldz_electric_field.cpp:851-869 | the y-edge corners are (i,j,k-1), (i-1,j,k) and (i-1,j,k-1), and the derivative neighbour is j+1 |
| EdgeField.EzStencilCells | fieldsolver/ldz_electric_field.cpp:1209-1227 | the z-edge corners are (i-1,j,k), (i,j-1,k) and (i-1,j-1,k), and the derivative neighbour is k+1 |
| EdgeField.DensityRangeOf | fieldsolver/ldz_electric_field.cpp:530-545 | the clamp range contains all four corner densities, each end is a corner density or its seed, and positive corners give a positive lower end |
| EdgeField.ResistiveTerm | fieldsolver/ldz_electric_field.cpp:565-577 | the resistive term vanishes when resistivity is off |
| EdgeField.CornerField | fieldsolver/ldz_electric_field.cpp:562-593 | with every optional term off, the corner field is the ideal term alone |
| EdgeField.SampleAt | fieldsolver/ldz_electric_field.cpp:604-610 | a corner's signal speed never exceeds the configured maximum wave velocity |
| EdgeField.Accumulate | fieldsolver/ldz_electric_field.cpp:604-778 | the four one-sided maxima are non-negative and at least every corner's flow ± signal speed |
| EdgeField.AccumulateAttained | fieldsolver/ldz_electric_field.cpp:604-778 | each maximum is the zero seed or the speed of some corner |
| EdgeField.MaxCflSpeed | fieldsolver/ldz_electric_field.cpp:604-778 | the edge CFL speed is non-negative and at least every corner's CFL speed |
| EdgeField.MaxCflSpeedAttained | fieldsolver/ldz_electric_field.cpp:604-778 | the edge CFL speed is zero or the CFL speed of some corner |
| EdgeField.UpwindSpeedsBounded | fieldsolver/ldz_electric_field.cpp:604-778 | with flow speeds bounded by v and signal speeds by c, every one-sided maximum is at most c + v |
| EdgeField.UpwindAverage | fieldsolver/ldz_electric_field.cpp:780-781 | the edge field times (total weight + eps) is the speed-weighted sum of the corner fields |
| EdgeField.WeightedSumOfEqualFields | fieldsolver/ldz_electric_field.cpp:780-781 | equal corner fields weight to the total weight times that field |
| EdgeField.UniformCornersGiveUniformEdge | fieldsolver/ldz_electric_field.cpp:780-781 | equal corner fields give that field scaled by W/(W+eps), and zero corner fields give a zero edge |
| EdgeField.DiffusiveTerm | fieldsolver/ldz_electric_field.cpp:782-792 | the diffusive correction is zero when switched off, or when the flow is one-sided along both transverse axes |
| EdgeField.MinTransverseSpacing | fieldsolver/ldz_electric_field.cpp:794-801 | the spacing used is the smaller of the two transverse cell sizes, capped by the largest real |
| EdgeField.UpdatedMaxFsDt | fieldsolver/ldz_electric_field.cpp:794-801 | the step bound never grows, is untouched on the first stage or with zero speed, and otherwise lets the fastest wave cross at most the smaller transverse cell size |
| EdgeField.EdgeValue | fieldsolver/ldz_electric_field.cpp:780-792 | without diffusive terms, the edge field is the upwind average of the four corner fields |
| EdgeField.Combine | fieldsolver/ldz_electric_field.cpp:780-801 | the step bound never grows, and is kept on the first stage or when no corner moves |
| EdgeField.EdgeElectricField | fieldsolver/ldz_electric_field.cpp:456-802 | computing an edge field never raises the cell's step bound, and leaves it as it was on the first stage of a second-order step |
| WaveSpeed.ClampDensity | fieldsolver/ldz_electric_field.cpp:140-144 | the reconstructed density ends inside the range, and stays unchanged when it already lies inside |
| WaveSpeed.NonNegativePressure | fieldsolver/ldz_electric_field.cpp:136-138 | negative reconstructed pressures become zero; non-negative ones are kept |
| WaveSpeed.ReconstructedDensity | fieldsolver/ldz_electric_field.cpp:135-144 | the density at the corner lies within the clamp range |
| WaveSpeed.PressureTrace | fieldsolver/ldz_electric_field.cpp:158-160 | the pressure trace used for the sound speed is non-negative |
| WaveSpeed.MagneticEnergyDensity | fieldsolver/ldz_electric_field.cpp:146-156 | the reconstructed B² is non-negative |
| WaveSpeed.AlfvenSpeed2 | fieldsolver/ldz_electric_field.cpp:177 | vA² is non-negative for non-negative inputs, and zero when the density is zero |
| WaveSpeed.SoundSpeed2 | fieldsolver/ldz_electric_field.cpp:178 | vS² times 2ρ is the pressure trace, and it is non-negative for non-negative inputs |
| WaveSpeed.CornerSpeeds | fieldsolver/ldz_electric_field.cpp:97-188 | the speeds at a corner are the roots of vA² and vS², with the whistler speed only when the Hall term is on; the roots' arguments are non-negative when the clamp range is |
| WaveSpeed.CflSpeed | fieldsolver/ldz_electric_field.cpp:54-64 | the CFL speed is the flow speed plus the larger of the magnetosonic and whistler speeds |
| WaveSpeed.SignalSpeed | fieldsolver/ldz_electric_field.cpp:180-187 | the signal speed is magnetosonic plus whistler, capped at the maximum wave velocity |
| ElectricFieldStage.EdgeSolverOf | fieldsolver/ldz_electric_field.cpp:1563-1623 | on defined edges the solver is the edge-field computation; it never raises the step bound, and the field value does not depend on the incoming bound |
| ElectricFieldStage.ComponentStep | fieldsolver/ldz_electric_field.cpp:1563-1623 | one component changes only that component and the step bound, and the bound does not grow |
| ElectricFieldStage.CellElectricField | fieldsolver/ldz_electric_field.cpp:1543-1624 | a DO_NOT_COMPUTE cell is untouched; otherwise only E and the step bound change, and the bound never grows |
| ElectricFieldStage.CellComponents | fieldsolver/ldz_electric_field.cpp:1563-1623 | each component comes from the edge solver when its SOLVE bit is set, and from the boundary condition otherwise |
| ElectricFieldStage.SolvedComponentIsEdgeField | fieldsolver/ldz_electric_field.cpp:1563-1623 | a component whose SOLVE bit is set is the upwinded edge field |
| ElectricFieldStage.ExchangesBefore | fieldsolver/ldz_electric_field.cpp:1671-1688 | the Hall and grad-Pe grids are exchanged iff their term is on; dPerB and dMoments iff both terms are off; E itself is never exchanged first |
| ElectricFieldStage.UpwindedElectricFieldSimple | fieldsolver/ldz_electric_field.cpp:1647-1748 | the stage runs the exchanges, one cell loop and the E exchange; only the stage's E grid and the technical grid change, local cells as the cell rule says, others kept |
| ElectricFieldStage.DoNotComputeCellsUntouched | fieldsolver/ldz_electric_field.cpp:1561 | a DO_NOT_COMPUTE cell keeps its E and step bound over the stage |
| ElectricFieldStage.StageStepBoundNeverGrows | fieldsolver/ldz_electric_field.cpp:1647-1748 | no cell's step bound grows over a stage |
| GradPe.HallRhoq | fieldsolver/ldz_gradpe.cpp:48-53 | the divisor is the larger of ρq and the Hall minimum |
| GradPe.GradPeComponent | fieldsolver/ldz_gradpe.cpp:33-59 | with term 1, the component times (floored ρq · cell size) is −dPe; any other order leaves it unchanged |
| GradPe.RouteOf | fieldsolver/ldz_gradpe.cpp:139-146 | DO_NOT_COMPUTE cells are skipped; boundary cells off layer 1 take the boundary value; all others are computed |
| GradPe.CellGradPe | fieldsolver/ldz_gradpe.cpp:120-152 | the cell's grad-Pe field follows its route: kept, taken from the boundary condition, or computed per component |
| GradPe.GradPeTermSimple | fieldsolver/ldz_gradpe.cpp:154-189 | the dMoments exchange then one cell loop; only the grad-Pe grid changes, local cells by the cell rule, other cells kept |
| GradPe.GradPeBounded | fieldsolver/ldz_gradpe.cpp:48-53 | the term's magnitude is at most \|dPe\| / (Hall minimum · cell size) |
| GradPe.GradPeOpposesGradient | fieldsolver/ldz_gradpe.cpp:48-53 | the field's sign is opposite to the pressure derivative's, and zero iff it is |
| GradPe.DoNotComputeKeepsGradPe | fieldsolver/ldz_gradpe.cpp:139 | a DO_NOT_COMPUTE cell keeps its grad-Pe field over a stage |
| GradPe.FirstStageIgnoresFullStepMoments | fieldsolver/ldz_gradpe.cpp:180-184 | the first stage of a second-order step reads only the half-step moments |
| GradPe.TermOffKeepsComputedCells | fieldsolver/ldz_gradpe.cpp:44-57 | with the term off, computed cells keep their grad-Pe field |
| GridSweep.CellLoop | fieldsolver/ldz_gradpe.cpp:179-185 | the cell loop applies the body once to each local cell, and to no other cell |
| StepBounds.ResetStepBounds | fieldsolver/ldz_main.cpp:117-119 | every local cell's step bound becomes the largest real, and nothing else changes |
| StepBounds.MinOver | fieldsolver/ldz_main.cpp:357-372 | the running minimum is at most the seed and every limiting cell's bound, and is the seed or one of those bounds |
| StepBounds.DtMaxLocal | fieldsolver/ldz_main.cpp:357-372 | the local bound is at most every limiting local cell's bound, and is one of them or the largest real |
| StepBounds.ResetGivesLargestBound | fieldsolver/ldz_main.cpp:117-119 | right after the reset, the local bound is the largest real |
| SubcycleControl.CflAdjusted | fieldsolver/ldz_main.cpp:379-385 | a step within the CFL bound is kept; a step above it becomes exactly 0.5·(maxCFL + minCFL)·dtMaxGlobal; with ordered CFL limits the result never grows, ends within the bound and is not negative |
| SubcycleControl.Reassess | fieldsolver/ldz_main.cpp:379-397 | a snap closes the gap to the target exactly, in one step when the whole gap is within the CFL bound and in two equal half steps exactly when it is not; without a snap the step is CFL-adjusted and the count limit kept (as written) or lifted (corrected) |
| PropagateFields.StageEvents | fieldsolver/ldz_main.cpp:253-297 | a stage propagates B, takes derivatives, adds grad-Pe only on the first subcycle with the term on, adds Hall iff that term is on, and ends with E |
| PropagateFields.StageHallFlags | fieldsolver/ldz_main.cpp:257-261 | the Hall-communication flag passed to each event is the one left by the events before it |
| PropagateFields.TwoStages | fieldsolver/ldz_main.cpp:253-335 | a second-order subcycle is the half-step stage then the full-step stage, with grad-Pe only on the first subcycle |
| PropagateFields.SubcycleLoop | fieldsolver/ldz_main.cpp:250-400 | the loop counts its subcycles in 32-bit range and stops on reaching the target or the count limit |
| PropagateFields.SubcycleEventsShape | fieldsolver/ldz_main.cpp:253-335 | subcycle k's events start with its B propagation, and only subcycle 0 computes grad-Pe |
| PropagateFields.SubcycleHallFlags | fieldsolver/ldz_main.cpp:253-335 | across all subcycles, the Hall flag threads from each event to the next |
| PropagateFields.SingleStep | fieldsolver/ldz_main.cpp:123-241 | the no-subcycling step is one first-order stage or two second-order stages, with the Hall flag threaded |
| PropagateFields.InitialSubcycle | fieldsolver/ldz_main.cpp:243-247 | subcycling starts at t0 with step dt/subcycles, count 0 and no count limit |
| PropagateFields.Clock | fieldsolver/ldz_main.cpp:338-352 | with one subcycle, the clock ends after one step at t0 + dt; the count never passes the 32-bit limit |
| PropagateFields.Propagate | fieldsolver/ldz_main.cpp:93-409 | zero subcycles aborts; otherwise the trace opens with the step-bound reset, then B propagated over the first (sub)step at the first stage of the time order, contains an electric-field stage, and closes with the volume averages and their derivatives; the effective subcycle count is between 1 and the 32-bit limit; with one subcycle the trace is exactly the single first- or second-order step and the clock ends at t0 + dt after 1 subcycle |
| PropagateFields.StagesShape | fieldsolver/ldz_main.cpp:123-341 | under either step-control rule, the framed stages open with the first B propagation and include an electric-field stage, because the loop runs at least one subcycle |
| PropagateFields.ReassessKeepsCourse | fieldsolver/ldz_main.cpp:389-397 | with the corrected rule, a reassessment keeps the loop able to reach the target |
| PropagateFields.CorrectedLoopEndsOnTarget | fieldsolver/ldz_main.cpp:341-397 | with the corrected rule, a loop started on course ends exactly at the target time |
| PropagateFields.InitialOnCourse | fieldsolver/ldz_main.cpp:243-247 | the initial subcycle state is on course for t0 + dt |
| PropagateFields.PropagateEndsOnTarget | fieldsolver/ldz_main.cpp:341-352 | a propagation with the corrected rule ends at t0 + dt |
| PropagateFields.ClockEndsOnTarget | fieldsolver/ldz_main.cpp:338-352 | the subcycle clock ends at t0 + dt |
| PropagateFields.PropagateHallFlags | fieldsolver/ldz_main.cpp:98-303 | over a whole propagation, under either step-control rule, every event sees the Hall flag left by the one before |
| PropagateFields.AsWrittenStopsShortOfTarget | fieldsolver/ldz_main.cpp:389-397 | with the source's rule, the stale count limit stops the loop at 1.89 after 3 subcycles instead of 2.4, for any global bound that is 2.0 after subcycle 1 and 0.2 after subcycle 2 |
| PropagateFields.PropagateAsWrittenStopsShort | fieldsolver/ldz_main.cpp:338-352 | the whole propagation under the source's rule reports 3 effective subcycles and ends at 1.89 on that input |
| PropagateFields.CorrectedContinuesPastStaleLimit | fieldsolver/ldz_main.cpp:341-397 | on the same input, the corrected rule continues and reaches the target |

## Left out

- MPI: the ghost-cell exchanges are trace events, and the global step bound (an `MPI_Allreduce` of `dtMaxLocal`) is an input sequence indexed by subcycle.
- The CUDA back end, all `dev_*` functions, and the device copy of block parameters.
- `memcpy_h2d`, `memcpy_d2h`, `host_register`, `host_unregister` and the grid buffer's sync calls. On the host they are empty, like the two buffer syncs that are modelled, so they get no members of their own.
- Profiling, logging and the `abort` messages. An abort is an outcome of `PropagateFields.Propagate`.
- OpenMP threading. The host loops are sequential, which is what the host back end does.
- Floating point: rounding, infinity and NaN are not modelled.
  - `numeric_limits<Real>::max()` and `min()` are decimal real literals.
  - `sqrt`, μ0, the charge-to-mass ratio and the whistler closed form are parameters of a `Physics` record.
- The second-order-in-space reconstruction terms of the edge field. They enter as one abstract additive term per corner.
- The magnetic-field propagation, the derivative computation, the Hall term and the volume averages. Each is an event in the trace, not a computation.
- The system-boundary callbacks for E and grad-Pe, other than DO_NOT_COMPUTE. They are abstract functions of cell and component.
- `setbyuser`, `outflow` and the project initialisers.
- ElectricFieldStage.EdgeSolverOf: on an edge whose corner charge density is zero while resistivity is on, the source divides by zero. The model gives 0 there.
- GradPe.GradPeComponent: requires a positive Hall minimum charge density and positive cell sizes. The source divides by both, and a zero yields inf or NaN.
- Constants defined outside the modelled files are fixed at Vlasiator's values:
  - WID3 = 64 and N_PARAMS = 6;
  - the SOLVE bits for Ex, Ey and Ez are 1<<3, 1<<4 and 1<<5; the proofs only need them to be distinct single bits;
  - FS_STENCIL_WIDTH = 2 in the unit-test model.
- BlockContainer.GrownCapacity: the factor 1.1 is taken as exactly 11/10, and the product is truncated in exact arithmetic. The double 1.1 is slightly above 11/10, so the double product is never below the exact one. Truncation gives the same integer until the excess reaches 0.1, which takes block counts near 10^15.
- BlockContainer.PushBackN: 32-bit overflow of the block count is not modelled.
- The debug-build copy checks (the source block must be the last one) and the debug NULL-pointer aborts.
- `capacityInBytes`, `getNullData` and the raw whole-array `getData()`.
- PropagateFields.Propagate: takes the subcycle step-control rule as a parameter. Ending on t0 + dt is proved for the corrected rule only (PropagateEndsOnTarget), because the source's rule can stop short (see Findings). The effective-subcycle count and end time are summaries, not a log.
- PropagateFields.Clock: states only the single-subcycle case and the count limit in its contract. Reaching the target in general is ClockEndsOnTarget, for the corrected rule.
- `adjustSingleCellVelocityBlocks`, called for every population in the DO_NOT_COMPUTE initial-state pass (sysboundary/donotcompute.cpp:84-85): not modelled. Only the per-cell parameter zeroing is. Block adjustment belongs to the velocity-space machinery outside this model.
- The third-order and higher grad-Pe terms. The source leaves the value unchanged for them, and so does the model.

## Findings

| source | as written | input that shows it | evidently intended | confidence | as-written member | corrected member |
|---|---|---|---|---|---|---|
| fieldsolver/ldz_main.cpp:389-397 | the snap sets `maxSubcycleCount`, and a later subcycle that does not snap leaves that limit in place; the loop exit at line 341 then stops on the stale count | maxCFL 0.5, minCFL 0.4, t0 0, dt 2.4, 2 subcycles; global step bound 2.0 after the first subcycle, 0.2 after the second. The loop stops at t = 1.89 after 3 subcycles | the count limit applies only while a snap is in force, so the loop ends at t0 + dt | not executed | PropagateFields.AsWrittenStopsShortOfTarget | PropagateFields.CorrectedLoopEndsOnTarget |
| arch/unit_testing_fields.cpp:89-94 | `dataBuffer[10,10,10]` is a comma expression, so it reads element 10, which is the storage of cell (10,0,0) that the host loop sets to 2 | any memory, and any result of the `parallel_for`: test 0 passes | the check reads cell (10,10,10) as written by the `parallel_for` | not executed | ArchUnitTests.Test0IgnoresParallelFor | ArchUnitTests.Test0FixedDetectsBrokenLoop |
| arch/unit_testing_fields.cpp:139-143 | the check runs after the host loop has rewritten the checked cell to 2 | a `parallel_for` that writes nothing: test 1 still passes | the check runs before the host loop, so it tests what the `parallel_for` wrote | not executed | ArchUnitTests.Test1IgnoresParallelFor | ArchUnitTests.Test1FixedDetectsBrokenLoop |
