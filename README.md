# Voxel terrain density core

This project models the density side of a marching-cubes voxel terrain for Unity:

- **Chunk.** It stores a flat array of densities, one per voxel corner, indexed by the rule `i + j * size.x + k * size.x * size.y`. The array is filled from fractal noise. It can be faded above a noisy ground, and it can be stamped with boxes and spheres.
- **Level generator.** It lays a grid of chunks over the level, sets their sizes, and fills and remeshes every chunk.
- **Terrain edit.** It digs or builds within a radius of a hit point, with either a unit step or a delta that fades linearly to zero, and clamps every value to [-1, 1].
- **Demo player.** Its click handler collects the chunks hit by the edit sphere, each chunk once, and edits each of them.

## Structure

Each Dafny module follows one source file:

- `grid.dfy` (`Grid`): vectors, `Mathf.Clamp`/`Lerp`, and the flattening rule `Flatten`. That rule is a bijection between in-grid cells and array indices. `Unflatten` is its inverse and is used in specifications only.
- `chunk.dfy` (`Chunks`): class `Chunk` with fields `voxels: array<real>`, `size`, `position` (the transform's world position) and `meshRequests`.
  - Each state-changing method is a k/j/i triple loop over the array, as in the source.
  - Each method ensures `voxels[..] == F(old(voxels[..]), ...)`, where `F` is a specification function built cell by cell (`NoiseField`, `Grounded`, `BoxStamped`, `SphereStamped`).
  - Lemmas state what `F` does at cell (i, j, k), and prove idempotence and range properties.
- `level_generation.dfy` (`LevelGeneration`): class `Level` holds the static fields of `LevelGeneration`. `GenerateXYZ` keeps the source's k/j/i loop and is split into a row method and a slice method.
- `terrain_editing.dfy` (`TerrainEditing`):
  - The edit of one cell is `EditCell`. The whole edit is `Edited`.
  - The triple loop is `EditVoxels`.
  - Class `Editor` holds the static `editTaskBuffer` and `isPerformingTask`.
- `demo_player_controls.dfy` (`DemoPlayerControls`):
  - `Dedup` specifies the collider loop. `CollectEditChunks` is that loop.
  - `EditChunks` is the dispatch loop.
  - `EditTerrain` is the click handler.

External services are passed in as parameters:

- `Perlin.Fbm` after `Perlin.GeneratePerm(seed)` is a function `noise: int -> Fbm3` from the seed.
- `Vector3.magnitude` is an uninterpreted `Magnitude` function.
- The remesh (`CubeMarch`) is recorded as a `MeshRequest` holding the arguments that `CubeMarching.March` would get.
- The raycast is an `Option<Vec3>`.
- The `OverlapSphere` plus `GetComponentInParent<Chunk>` results are a `seq<Chunk?>`.

Two points about how the model reads the code:
- **Gradient sign.** The gradient delta's sign is `-1 + 2 * ToInt32(isSubtract)` (Scripts/TerrainEditing.cs:71). That is +1 when subtracting, the same direction as step mode (line 76), so digging raises density.
- **Static voxel size and surface.** `CubeMarch`, the edit and `AddGround` read the static `LevelGeneration.VoxelSize` and `Surface` (Scripts/Chunk.cs:51, 62 and 133-134; Scripts/TerrainEditing.cs:60-62). In the model, `CubeMarch` and the edit take the `Level`'s fields. `AddGround` takes the y component as a parameter `voxelSizeY`, because no caller in the modelled core passes it a level: the caller supplies the level's `voxelSize.y`.

## Model

| member | source | states |
|---|---|---|
| Grid.Unflatten | Scripts/Chunk.cs:25 | every index of a grid's array stands for an in-grid cell whose flat index it is |
| Grid.FlattenInGrid | Scripts/Chunk.cs:25 | the flat index of every in-grid cell lies inside the array |
| Grid.FlattenInjective | Scripts/Chunk.cs:25 | two in-grid cells with the same flat index are the same cell, so the fill loops write each cell at most once |
| Grid.UnflattenFlatten | Scripts/Chunk.cs:25 | flattening an in-grid cell and unflattening gives the cell back |
| Grid.FlattenDecompose | Scripts/Chunk.cs:25 | the cell is recovered from its flat index by remainder and division by size.x and size.x * size.y |
| Grid.FlattenNextRow | Scripts/Chunk.cs:21-23 | the index one past the end of row j is the start of row j + 1 (the x-fastest loop order is contiguous) |
| Grid.FlattenNextSlice | Scripts/Chunk.cs:19-21 | the index one past the end of slice k is the start of slice k + 1 |
| Grid.FlattenEnd | Scripts/Chunk.cs:19 | one past the last slice is the array length, so the fill loops cover every index |
| Grid.Clamp | Scripts/TerrainEditing.cs:79 | `Mathf.Clamp` lands in [min, max] and is the identity inside it |
| Chunks.ValidSizeVolume | Scripts/Chunk.cs:16-17 | a chunk's size gives a non-negative array length, and a chunk with any cell has at least two samples per axis |
| Chunks.NoiseFieldAt | Scripts/Chunk.cs:27-31 | cell (i, j, k) of a generated chunk holds the noise at (i/(size.x-1) + chunkPos.x, j/(size.y-1) + chunkPos.y, k/(size.z-1) + chunkPos.z) with the given octave |
| Chunks.NoiseFieldDependsOnSamplesOnly | Scripts/Chunk.cs:27-31 | generation is deterministic: two noise functions that agree on the sample points give the same array |
| Chunks.NoiseFieldSharedFace | Scripts/Chunk.cs:27-31 | the last column of one chunk and the first column of its +x neighbour sample the same noise point |
| Chunks.GroundCell | Scripts/Chunk.cs:51-64 | a cell at or below the ground keeps its value, and a cell above it ends in [-1, 1] |
| Chunks.GroundedAt | Scripts/Chunk.cs:51-64 | after AddGround, cell (i, j, k) is clamp(old + 2 (h - groundLevel) / ((size.y - 1) voxelSize.y - groundLevel), -1, 1) when its height h is above groundLevel + ground noise, and the old value otherwise |
| Chunks.GroundedKeepsUnitRange | Scripts/Chunk.cs:57-64 | every cell AddGround changes ends in [-1, 1], and an array in [-1, 1] stays there |
| Chunks.BoxStampedAt | Scripts/Chunk.cs:76-94 | after AddBox, exactly the cells whose position lies in the closed box become surface - 0.01 and all others keep their value |
| Chunks.BoxStampIdempotent | Scripts/Chunk.cs:93 | stamping the same box twice equals stamping it once |
| Chunks.SphereStampedAt | Scripts/Chunk.cs:111-121 | after AddSphere, exactly the cells within radius of the centre become surface - 0.01 and all others keep their value |
| Chunks.SphereStampIdempotent | Scripts/Chunk.cs:121 | stamping the same sphere twice equals stamping it once |
| Chunks.StampValueInUnitRange | Scripts/Chunk.cs:93 | the stamped value surface - 0.01 lies in [-1, 1] exactly when surface lies in [-0.99, 1.01]; a surface of -1 stamps -1.01 |
| Chunks.BoxStampedKeepsUnitRange | Scripts/Chunk.cs:89-93 | AddBox changes a cell only to surface - 0.01, and an array in [-1, 1] stays in [-1, 1] when -0.99 <= surface <= 1.01 |
| Chunks.SphereStampedKeepsUnitRange | Scripts/Chunk.cs:116-121 | AddSphere changes a cell only to surface - 0.01, and an array in [-1, 1] stays in [-1, 1] when -0.99 <= surface <= 1.01 |
| Chunks.Chunk.constructor | Scripts/Chunk.cs:5-9 | a new chunk component has size zero, an empty array and no remesh requests |
| Chunks.Chunk.GenerateNoise | Scripts/Chunk.cs:14-35 | size becomes voxelGrid + (1, 1, 1), a fresh array of size.x * size.y * size.z cells is allocated, and every cell holds its noise sample (NoiseField) |
| Chunks.Chunk.AddGround | Scripts/Chunk.cs:41-69 | size and length unchanged; the array becomes Grounded of the old array |
| Chunks.Chunk.AddBox | Scripts/Chunk.cs:74-98 | size and length unchanged; the array becomes BoxStamped of the old array |
| Chunks.Chunk.AddSphere | Scripts/Chunk.cs:103-126 | size and length unchanged; the array becomes SphereStamped of the old array |
| Chunks.Chunk.CubeMarch | Scripts/Chunk.cs:131-134 | exactly one remesh request with the current densities, size, voxel size and surface is appended |
| LevelGeneration.PartSize | Scripts/LevelGeneration.cs:48-55 | one part times the grid gives back the total on every axis: chunk size times the chunk grid is the level size, and voxel size times the voxel grid is the chunk size |
| LevelGeneration.BuildChunk | Scripts/LevelGeneration.cs:67-75 | a fresh chunk at (i * chunkSize.x, j * chunkSize.y, k * chunkSize.z), generated with chunkPos (i, j, k) and octave 3, remeshed exactly once |
| LevelGeneration.GenerateRow | Scripts/LevelGeneration.cs:63-76 | row (j, k) stores chunk (i, j, k) at index i + j cx + k cx cy for every i, touches no other entry, and gives each chunk its own fresh array |
| LevelGeneration.RowMonotone | Scripts/LevelGeneration.cs:61-65 | the start of row j + 1 never passes the start of the next slice |
| LevelGeneration.GenerateSlice | Scripts/LevelGeneration.cs:61-77 | slice k fills exactly the index range of the slice, each entry with the chunk built for its cell |
| LevelGeneration.Level.constructor | Scripts/LevelGeneration.cs:5-10 | the static fields start at their defaults, with no chunks |
| LevelGeneration.Level.GenerateXYZ | Scripts/LevelGeneration.cs:37-79 | seed and surface are the arguments, the chunk size is PartSize(levelSize, chunkGrid) and the voxel size PartSize(chunkSize, voxelGrid), the chunk array is fresh with cx cy cz entries, entry n holds the chunk built for cell Unflatten(n), and all chunks have distinct fresh voxel arrays |
| LevelGeneration.Level.GenerateXZ | Scripts/LevelGeneration.cs:18-31 | the same outcome as GenerateXYZ with chunk grid (x, 1, y) |
| TerrainEditing.EditSign | Scripts/TerrainEditing.cs:71 | the sign is +1 exactly when subtracting and -1 otherwise |
| TerrainEditing.StepValue | Scripts/TerrainEditing.cs:76 | a step is old + 1 when subtracting and old - 1 when adding |
| TerrainEditing.EditCell | Scripts/TerrainEditing.cs:64-80 | a cell beyond the radius is unchanged and a cell within it ends in [-1, 1] |
| TerrainEditing.EditedAt | Scripts/TerrainEditing.cs:59-80 | cell (i, j, k) after the edit, with distance measured from hitLocal to (i voxelSize.x, j voxelSize.y, k voxelSize.z): old value beyond the radius, else clamp(old + Lerp(±1, 0, dist/radius)) in gradient mode or clamp(old ± 1) in step mode |
| TerrainEditing.EditedLocalAndClamped | Scripts/TerrainEditing.cs:64-79 | every cell beyond the radius keeps its value, every cell within it ends in [-1, 1], and an array in [-1, 1] stays there |
| TerrainEditing.GradientDeltaFades | Scripts/TerrainEditing.cs:70-72 | for radius > 0 the gradient delta is sign (1 - dist/radius): full at the hit point, zero at the radius, never larger in magnitude further out |
| TerrainEditing.LerpToZero | Scripts/TerrainEditing.cs:71-72 | Lerp(±1, 0, t) for t in [0, 1] is ±(1 - t), of magnitude 1 - t |
| TerrainEditing.TwoStepsSaturate | Scripts/TerrainEditing.cs:76-79 | two identical step edits drive every in-radius cell that started at or above -1 to exactly 1 when subtracting, and at or below 1 to exactly -1 when adding |
| TerrainEditing.EditPosIsStampPos | Scripts/TerrainEditing.cs:59-62 | with the voxel size GenerateXYZ derives, the edit's cell position i voxelSize.x equals the stamps' i / (size.x - 1) chunkSize.x |
| TerrainEditing.EditedSharedFace | Scripts/TerrainEditing.cs:49-65 | for neighbouring chunks of a generated level along x, one hit point gives the same distance to A's last column as to B's first column, so a shared sample with equal old densities has equal new densities after the same edit |
| TerrainEditing.EditVoxels | Scripts/TerrainEditing.cs:51-83 | the triple loop leaves the array equal to Edited of the old array |
| TerrainEditing.Editor.constructor | Scripts/TerrainEditing.cs:18-21 | the task buffer starts empty and the flag false |
| TerrainEditing.Editor.PerformEditTask | Scripts/TerrainEditing.cs:45-86 | the flag is raised, the chunk's array becomes Edited with hit point hitPos - chunk position, its size is unchanged, and exactly one remesh request is appended after the edit |
| TerrainEditing.Editor.CreateEditTask | Scripts/TerrainEditing.cs:23-43 | the edit is performed immediately with the same effect as PerformEditTask, and the task buffer is unchanged |
| DemoPlayerControls.Dedup | Demo/DemoPlayerControls.cs:91-100 | the collected list is never longer than the collider results |
| DemoPlayerControls.FirstIndex | Demo/DemoPlayerControls.cs:96 | the position of a chunk's first occurrence among the collider results |
| DemoPlayerControls.DedupMembers | Demo/DemoPlayerControls.cs:93-99 | a chunk is listed exactly when it is non-null and some collider belongs to it, so null lookups are never added |
| DemoPlayerControls.DedupDistinct | Demo/DemoPlayerControls.cs:96 | no chunk is listed twice |
| DemoPlayerControls.DedupFirstOrder | Demo/DemoPlayerControls.cs:96-98 | listed chunks come from the results and appear in the order of their first collider |
| DemoPlayerControls.FirstIndexPrefix | Demo/DemoPlayerControls.cs:96-98 | appending results never moves the first occurrence of a chunk already seen |
| DemoPlayerControls.CollectEditChunks | Demo/DemoPlayerControls.cs:91-100 | the foreach with Contains/Add yields exactly Dedup of the results |
| DemoPlayerControls.EditChunks | Demo/DemoPlayerControls.cs:102-105 | every listed chunk is edited exactly once with the same hit point, radius and mode and gets one remesh request, and the flag is raised iff it was raised already or the list is non-empty |
| DemoPlayerControls.EditFound | Demo/DemoPlayerControls.cs:91-105 | the list holds exactly the chunks found, and chunks with distinct arrays stay distinct in it |
| DemoPlayerControls.DemoPlayerControls.constructor | Demo/DemoPlayerControls.cs:8-10 | the inspector defaults are raycast range 5, edit radius 1 and no gradient |
| DemoPlayerControls.DemoPlayerControls.EditTerrain | Demo/DemoPlayerControls.cs:84-130 | with a click and a hit, every chunk found is edited once around the hit point with editRadius and useGradient, as a subtract when the left button is down (it takes precedence) and an add otherwise; without a click or a hit, no array, remesh list or flag changes |
| DemoPlayerControls.DemoPlayerControls.EditAround | Demo/DemoPlayerControls.cs:91-105 | the shared branch body: collect the chunks without duplicates, then edit each found chunk once |

## Left out

- IEEE single-precision floats. Rounding, NaN and infinity are not modelled: densities, positions and sizes are reals. `Vector3.magnitude` (a square root) is an uninterpreted function.
- Division by zero. Where the source would produce an infinity or NaN, the model requires the divisor to be non-zero:
  - chunk and voxel grid components `>= 1` in GenerateXYZ and GenerateXZ;
  - `radius != 0` in gradient mode;
  - `(size.y - 1) * voxelSize.y - groundLevel != 0` in AddGround.
- Chunks.Chunk.AddGround: requires the fade span to be non-zero even for a chunk of size zero, although the loop would not run there.
- Null before generation: in the source, a new `Chunk`'s `voxels` (Scripts/Chunk.cs:5) and the static `LevelGeneration.chunks` (Scripts/LevelGeneration.cs:7) are null until first assigned. The model starts them as empty arrays. Nothing in the modelled core can tell the difference, because a size-zero chunk runs no loop iteration and `chunks` is replaced before it is read.
- 32-bit integer overflow of the index and array-length products. Integers are unbounded.
- The Unity host layer:
  - `GameObject`/`Transform`. The level object sits at the origin, so a chunk's local position is its world position.
  - `MonoBehaviour` lifecycle and `Update`.
  - The model does not capture `transform.childCount` bookkeeping, or Unity's overloaded null test for destroyed components.
  - `DemoScript.cs`, which only makes a configuration call.
- Mesh building: `CubeMarching.March`, and destroying and creating child mesh objects in `CubeMarch`. A remesh is recorded as a `MeshRequest`.
- `Perlin.Fbm` and `Perlin.GeneratePerm`. The noise is an uninterpreted function of the seed, and the permutation table is not modelled.
- Physics queries. The camera raycast and `OverlapSphere`, with each collider's `GetComponentInParent<Chunk>`, are inputs to EditTerrain: `hit` and `found`. Key presses are the booleans `mouse0Down` and `mouse1Down`.
- Movement and look: `MouseLook`, `Fly` and `ClampRotationAroundXAxis`, along with their settings fields.
- The unused parts of `TerrainEditing`: the commented-out task queue, `startedTasks`, and the never-reset `isPerformingTask`. The flag is modelled only as being raised.
- The unused `freq` parameters. They are accepted and ignored, as in the source.
- The GenerateXYZ loop body and the EditTerrain branch body are split into helper methods (BuildChunk, GenerateRow, GenerateSlice, EditVoxels, EditChunks, EditAround). The helpers exist only for proof size. Their order of effects is the source's.
- TerrainEditing.EditVoxels: returns at once for a chunk of size zero. In the source the loops would run zero times, so the effect is the same.
- DemoPlayerControls.DemoPlayerControls.EditTerrain: requires that distinct found chunks have distinct voxel arrays (GenerateXYZ guarantees this). Without it, one edit could alias another chunk's array, which the source never does.
