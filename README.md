# Voxel world core, modelled in Dafny

This project models the core of a small Unity voxel game (a Minecraft-like
world made of chunks). Three parts are covered:

- **World** (`World.cs`) has a pure half and a stateful half.
  - The pure half is the terrain classifier `GetVoxel`: bedrock, then grass,
    dirt, air or stone relative to a noise-driven surface height, then ore
    lodes that override stone. It also includes the block registry's per-face
    texture lookup.
  - The stateful half is the world object: a square grid of chunks and the
    list of active chunk coordinates. It covers chunk creation, start-up
    generation of the centre square, the view-distance update
    (`CheckViewDistance`) and the player's solid-block probe (`CheckForVoxel`).
    The view-distance update is defined but never runs: its only call site,
    in `Update` (World.cs:37-40), is commented out.
- **Chunk** (`Chunk.cs`): one column of `W x H x W` voxels.
  - On construction it fills its voxel map from the terrain.
  - It then builds its mesh: for every visible face of every solid voxel, it
    appends four vertices, four texture-atlas coordinates and two triangles.
- **Structure** (`Structure.cs`): the tree generator. It returns the FIFO
  list of block changes for a trunk and its leaves cap.

The engine's constants (chunk width and height, world size, view distance,
atlas size and the face tables) live in a file that is not part of this
model. They are parameters here (`VoxelData.Constants`), and
`VoxelData.ValidConstants` states what the code needs of them.

The noise generator is an opaque pair of functions (`Terrain.Noise`). The
tree's noise sample is a parameter.

Host-language arithmetic is written out explicitly:
- C# integer division truncates toward zero (`VoxelData.TruncDiv`).
- A float-to-int cast truncates (`VoxelData.Truncate`).
- `Mathf.FloorToInt` is `.Floor`.
- Floats are modelled as exact reals.

`WorldState.World.CheckForVoxel` returns an explicit `Fault` where its
code would fault without checking: an index out of range, or a member
access on null. The two other unchecked faults in the core are left out
and listed under "Left out": a registry lookup in the chunk, and a
start-up square that does not fit in the grid.

Modules, one per file:

| file | module | models |
|---|---|---|
| `voxel_data.dfy` | `VoxelData` | ids, positions, chunk coordinates, the constants, host arithmetic |
| `terrain.dfy` | `Terrain` | the pure half of `World.cs`: `BlockType`, biome, lodes, `GetVoxel` |
| `meshing.dfy` | `Meshing` | what the chunk's mesh builder computes, stated on values |
| `chunk.dfy` | `ChunkMesh` | `class Chunk`, its voxel map and its mesh buffers |
| `chunk_lists.dfy` | `ChunkLists` | the list removal loop of `CheckViewDistance` and the scanned window |
| `world.dfy` | `WorldState` | `class World`: grid, active list, generation, view distance, probe |
| `structure.dfy` | `Structure` | `MakeTree` |

How the proofs are organised:

- **Chunk class.** Its methods are proved against value-level definitions in
  `Meshing`.
  - `ChunkFaces` is the quads the scan emits. `ChunkFacesExactly` proves that
    a quad is emitted exactly when its voxel is solid and the neighbour across
    that face is not.
  - `MeshOf` is the buffers those quads produce. Per-quad lemmas cover the
    vertices, texture coordinates and triangles.
- **View-distance update.** It is proved against `WindowActivated`
  (coordinates appended) and `WindowSurvivors` (coordinates left in the copy
  of the old list). Lemmas tie both to scan-order definitions over the window
  (`Activated` and `Survivors` over `WindowCells`) and state their meaning.

## Model

| member | source | states |
|---|---|---|
| VoxelData.ChunkCoord.Equals | Minecraft/Assets/Script/Chunk.cs:169-174 | equal exactly when the other coordinate is present and has the same x and z; a null argument is never equal |
| VoxelData.EqualsIsReflexiveAndSymmetric | Minecraft/Assets/Script/Chunk.cs:169-174 | coordinate equality is reflexive and symmetric, and false against null |
| VoxelData.NormalizedBlockTextureSize | Minecraft/Assets/Script/Chunk.cs:147-150 | the tile side is positive, and the atlas's tiles together span exactly one unit |
| VoxelData.TruncDiv | Minecraft/Assets/Script/World.cs:103-104 | integer division rounds toward zero: the remainder lies in [0, b) for a non-negative dividend and in (-b, 0] for a negative one |
| VoxelData.Truncate | Minecraft/Assets/Script/Structure.cs:10 | the float-to-int cast drops the fraction toward zero, on both signs |
| Terrain.BlockType.GetTexutureID | Minecraft/Assets/Script/World.cs:185-200 | face index 0..5 selects the back, front, top, bottom, left or right texture; any other index gives 0 |
| Terrain.IsVoxelInWorld | Minecraft/Assets/Script/World.cs:163-164 | a position is in the world exactly when x and z lie in [0, world size in voxels) and y in [0, chunk height) |
| Terrain.TerrainHeightIsFloor | Minecraft/Assets/Script/World.cs:128 | the surface height minus the solid ground height is the scaled noise sample rounded down |
| Terrain.BaseBlockLayers | Minecraft/Assets/Script/World.cs:118-138 | before the lode pass a block is air, bedrock, stone, grass or dirt; each one exactly on its part of the column: air outside the world or above the surface, bedrock at y = 0, grass at the surface, dirt in the three layers below, stone further down |
| Terrain.LodesApplied | Minecraft/Assets/Script/World.cs:140-148 | the value after the lode pass is the base block, or the id of some lode that matches at this position |
| Terrain.VoxelAt | Minecraft/Assets/Script/World.cs:112-150 | in a well-formed configuration every generated id has a registry entry |
| Terrain.VoxelAtValues | Minecraft/Assets/Script/World.cs:112-150 | the terrain only produces air, bedrock, stone, grass, dirt or a lode's id |
| Terrain.GetVoxel | Minecraft/Assets/Script/World.cs:112-150 | the early returns plus the lode loop, where every match overwrites, compute exactly VoxelAt |
| Terrain.TerrainLayers | Minecraft/Assets/Script/World.cs:118-138 | air outside the world; bedrock at y = 0; grass at the surface height; dirt in the three layers below; air above; stone (then the lode pass) further down |
| Terrain.LastMatchingLodeWins | Minecraft/Assets/Script/World.cs:142-147 | with no matching lode the base stays; otherwise the last matching lode's id wins |
| Terrain.OnlyStoneIsOverridden | Minecraft/Assets/Script/World.cs:140-148 | only stone is ever replaced, and only by a lode whose height band holds the position; grass, dirt, air and bedrock stay |
| Meshing.MeshVertices | Minecraft/Assets/Script/Chunk.cs:110-113 | four vertices per quad |
| Meshing.MeshUvs | Minecraft/Assets/Script/Chunk.cs:152-156 | four texture coordinates per quad |
| Meshing.MeshTriangles | Minecraft/Assets/Script/Chunk.cs:117-124 | six indices per quad, each naming one of the 4n vertices |
| Meshing.AtlasTile | Minecraft/Assets/Script/Chunk.cs:144-145 | for a non-negative id the tile is (id mod n, id div n) |
| Meshing.TileCornersAt | Minecraft/Assets/Script/Chunk.cs:147-156 | the origin is (col * s, 1 - (row + 1) * s) for tile side s, so rows count down from the top edge; then up, right and up-right of it, one tile side apart |
| Meshing.AppendQuad | Minecraft/Assets/Script/Chunk.cs:105-124 | appending one quad's 4 corners, 4 texture coordinates and 2 triangles (numbered from the next vertex index), then advancing the index by 4, gives the buffers of the face list with that quad appended |
| Meshing.VoxelFacesExactly | Minecraft/Assets/Script/Chunk.cs:103-107 | face p of a voxel is emitted exactly when its neighbour across p is not solid, and it carries the voxel's id |
| Meshing.IsolatedAndEnclosedVoxels | Minecraft/Assets/Script/Chunk.cs:103-105 | a voxel with no solid neighbour emits six quads; one enclosed on all sides emits none |
| Meshing.StripFacesExactly | Minecraft/Assets/Script/Chunk.cs:63-66 | the strip's quads are exactly the emitted faces of its solid voxels |
| Meshing.LayerFacesExactly | Minecraft/Assets/Script/Chunk.cs:61-67 | the layer's quads are exactly the emitted faces of its solid voxels |
| Meshing.FacesBelowExactly | Minecraft/Assets/Script/Chunk.cs:59-69 | the quads of layers below y are exactly the emitted faces of their solid voxels |
| Meshing.VoxelFacesDistinct | Minecraft/Assets/Script/Chunk.cs:103-126 | a voxel appends each face direction at most once |
| Meshing.ChunkFacesDistinct | Minecraft/Assets/Script/Chunk.cs:57-71 | no quad occurs twice in the chunk's quad list: every emitted quad appears exactly once |
| Meshing.ChunkFacesExactly | Minecraft/Assets/Script/Chunk.cs:57-71 | face culling: a quad is in the chunk's mesh exactly when its voxel is a solid voxel of the chunk, its neighbour across that face is not solid, and it carries the voxel's id |
| Meshing.TrianglePattern | Minecraft/Assets/Script/Chunk.cs:117-124 | quad k's six indices are 4k, 4k+1, 4k+2, 4k+2, 4k+1, 4k+3 |
| Meshing.VertexOfQuad | Minecraft/Assets/Script/Chunk.cs:110-113 | vertex 4k + j is corner j of quad k, so quad k's triangles span exactly its own corners |
| Meshing.TileOriginBounds | Minecraft/Assets/Script/Chunk.cs:144-150 | for a tile inside the atlas, its origin and the opposite corner lie in the unit square |
| Meshing.TileInUnitSquare | Minecraft/Assets/Script/Chunk.cs:152-156 | all four corners of a tile inside the atlas lie in the unit square |
| Meshing.AtlasTileInRange | Minecraft/Assets/Script/Chunk.cs:144-145 | for an id inside the atlas, column and row both lie in 0..n-1 |
| Meshing.TileCornersInUnitSquare | Minecraft/Assets/Script/Chunk.cs:142-157 | for an id inside the atlas, every texture coordinate AddTexture emits lies in the unit square |
| ChunkMesh.Chunk.constructor | Minecraft/Assets/Script/Chunk.cs:23-40 | a new chunk is active, holds the terrain of its column, and its buffers hold exactly the chunk's culled faces |
| ChunkMesh.Chunk.BuffersAreMeshOf | Minecraft/Assets/Script/Chunk.cs:57-71 | the buffers equal MeshOf of the quads appended so far |
| ChunkMesh.Chunk.PopulateVoxelMap | Minecraft/Assets/Script/Chunk.cs:42-54 | every cell holds the terrain block at its world position |
| ChunkMesh.Chunk.CreateMeshData | Minecraft/Assets/Script/Chunk.cs:57-71 | appends exactly the quads of ChunkFaces, in y, x, z order; the buffers stay the mesh of the quads |
| ChunkMesh.Chunk.AddLayer | Minecraft/Assets/Script/Chunk.cs:61-68 | appends exactly the quads of layer y |
| ChunkMesh.Chunk.AddStrip | Minecraft/Assets/Script/Chunk.cs:63-67 | appends exactly the quads of strip (x, y) |
| ChunkMesh.Chunk.IsVoxelInChunk | Minecraft/Assets/Script/Chunk.cs:84-85 | true exactly when the local position lies inside the chunk's bounds |
| ChunkMesh.Chunk.CheckVoxel | Minecraft/Assets/Script/Chunk.cs:88-98 | the answer is the terrain's solidity at the world position, whether read from the map or asked of the terrain |
| ChunkMesh.Chunk.AddTexture | Minecraft/Assets/Script/Chunk.cs:142-157 | appends the four texture coordinates of the tile of the texture id, and nothing else changes |
| ChunkMesh.Chunk.AddFaceVertices | Minecraft/Assets/Script/Chunk.cs:110-113 | appends the four corners of face p |
| ChunkMesh.Chunk.AddQuad | Minecraft/Assets/Script/Chunk.cs:107-124 | appends one quad, keeping the buffers the mesh of the quad list |
| ChunkMesh.Chunk.AddvoxelDataToChunk | Minecraft/Assets/Script/Chunk.cs:101-127 | appends exactly the voxel's visible faces, in face order |
| ChunkLists.SkipRemove | Minecraft/Assets/Script/World.cs:83-87 | the removal loop as written never lengthens the list |
| ChunkLists.SkipRemoveFromSplits | Minecraft/Assets/Script/World.cs:83-87 | running the loop from slot i keeps slots 0..i-1 and applies SkipRemove to the rest |
| ChunkLists.RemoveMatching | Minecraft/Assets/Script/World.cs:83-87 | the in-place loop (RemoveAt, then i++ in every case) leaves exactly SkipRemove |
| ChunkLists.SkipRemoveCount | Minecraft/Assets/Script/World.cs:83-87 | other entries keep their multiplicity; the removed coordinate never gains copies |
| ChunkLists.SkipRemoveKeepsOthers | Minecraft/Assets/Script/World.cs:83-87 | the result is a sub-multiset of the input that keeps every other entry |
| ChunkLists.SurvivesIffAdjacentDuplicate | Minecraft/Assets/Script/World.cs:83-87 | a copy of c survives exactly when the list holds two adjacent copies of c |
| ChunkLists.AdjacentCopyEscapes | Minecraft/Assets/Script/World.cs:83-87 | [c, c] keeps a copy of c |
| ChunkLists.RemoveAllMatching | Minecraft/Assets/Script/World.cs:83-87 | the corrected loop, which advances only when nothing was removed, leaves RemoveAll |
| ChunkLists.RemoveAllExact | Minecraft/Assets/Script/World.cs:83-87 | after RemoveAll no copy of c remains and every other entry keeps its multiplicity |
| ChunkLists.SkipRemoveIsRemoveAllWithoutPairs | Minecraft/Assets/Script/World.cs:83-87 | without adjacent copies, the loop as written equals the intended removal |
| ChunkLists.SkipRemoveWithoutDuplicates | Minecraft/Assets/Script/World.cs:83-87 | on a list without duplicates, one run removes c and nothing else |
| ChunkLists.SurvivorsConcat | Minecraft/Assets/Script/World.cs:68-89 | scanning a, then b, leaves what scanning a + b leaves |
| ChunkLists.SurvivorsAreFromList | Minecraft/Assets/Script/World.cs:68-89 | the scan only removes entries from the copy of the old active list |
| ChunkLists.UnscannedSurvives | Minecraft/Assets/Script/World.cs:68-89 | an entry equal to no scanned cell is never removed from the copy |
| ChunkLists.SurvivorsWithoutDuplicates | Minecraft/Assets/Script/World.cs:68-89 | on a list without duplicates, what survives the whole scan is exactly the entries outside the scanned cells |
| ChunkLists.WindowRowExactly | Minecraft/Assets/Script/World.cs:70 | the inner loop visits z = zLo..zHi-1 of row x, once each |
| ChunkLists.WindowCellsExactly | Minecraft/Assets/Script/World.cs:68-71 | the nested loops visit exactly the cells of the half-open window |
| ChunkLists.WindowCellsCount | Minecraft/Assets/Script/World.cs:68-71 | they visit (xHi - xLo) * (zHi - zLo) cells, so each cell once |
| ChunkLists.RowSurvivorsIsSurvivors | Minecraft/Assets/Script/World.cs:70-88 | the row-by-row removal equals the cell-by-cell removal along the row |
| ChunkLists.WindowSurvivorsIsSurvivors | Minecraft/Assets/Script/World.cs:68-89 | the window removal equals the cell-by-cell removal in scan order |
| ChunkLists.WindowSurvivorsAreFromList | Minecraft/Assets/Script/World.cs:68-89 | the window scan only removes entries |
| ChunkLists.UnscannedSurvivesWindow | Minecraft/Assets/Script/World.cs:68-89 | an entry outside the scanned window survives the window scan |
| ChunkLists.RemoveCell | Minecraft/Assets/Script/World.cs:83-87 | one run of the removal loop advances the row's survivors by one cell |
| WorldState.GetChunkCoordFromVector3 | Minecraft/Assets/Script/World.cs:56-61 | the chunk's x and z span, in world units, contains the position (floor division) |
| WorldState.IsChunkInWorld | Minecraft/Assets/Script/World.cs:160-161 | an accepted coordinate indexes the grid, and is never on its border ring |
| WorldState.SplitCoordinate | Minecraft/Assets/Script/World.cs:103-107 | chunk index times width plus offset gives back the coordinate; the offset lies in [0, w) for a non-negative coordinate and in (-w, 0] for a negative one |
| WorldState.ActivatedConcat | Minecraft/Assets/Script/World.cs:68-89 | what scanning a + b appends is what a appends followed by what b appends |
| WorldState.ActivatedMembers | Minecraft/Assets/Script/World.cs:72-80 | a coordinate is appended exactly when it was scanned, lies in the world and was not active before |
| WorldState.OutsideWindowSurvives | Minecraft/Assets/Script/World.cs:66-94 | a coordinate of the old active list outside the view window stays in the copy, so its chunk is switched off |
| WorldState.RowActivatedIsActivated | Minecraft/Assets/Script/World.cs:70-81 | the row-by-row activation list equals the cell-by-cell one along the row |
| WorldState.WindowActivatedIsActivated | Minecraft/Assets/Script/World.cs:68-89 | the window activation list equals the cell-by-cell one in scan order |
| WorldState.World.constructor | Minecraft/Assets/Script/World.cs:17-19 | a new world has an empty world-size grid and an empty active list |
| WorldState.World.CreateNewChunk | Minecraft/Assets/Script/World.cs:152-158 | the slot gets a new, active chunk that is `Built`: its voxel map holds the terrain of its column and its buffers hold the mesh of exactly `ChunkFaces`, the visible faces of its solid voxels; its coordinate is appended to the active list; no other slot changes |
| WorldState.World.GenrateWorld | Minecraft/Assets/Script/World.cs:43-54 | every slot of the centre square of side 2V gets a new, active, `Built` chunk (terrain in its voxel map, mesh of exactly `ChunkFaces`); their coordinates are appended row by row; no other slot changes |
| WorldState.World.CreateRow | Minecraft/Assets/Script/World.cs:47-50 | every slot of the row gets a new, active, `Built` chunk; the row's coordinates are appended in z order; no other slot changes |
| WorldState.World.ActivateChunk | Minecraft/Assets/Script/World.cs:74-80 | an empty slot gets a new, `Built` chunk; an inactive chunk is switched on; either way its coordinate is appended; an active chunk is left as is; no other slot changes; of the chunks already in the grid only the `isActive` flag may change, so their mesh buffers, quads and voxel maps are kept |
| WorldState.World.ScanRow | Minecraft/Assets/Script/World.cs:70-88 | every in-world cell of the row ends active; the appended list is RowActivated; the copy of the list is RowSurvivors; other slots keep their chunk and state; of the chunks already in the grid only the `isActive` flag may change, so their mesh buffers, quads and voxel maps are kept |
| WorldState.World.ScanWindow | Minecraft/Assets/Script/World.cs:68-89 | every in-world cell of the window ends active; the appended list is WindowActivated of the active set before the scan; the copy is WindowSurvivors; other slots keep their state; no chunk is replaced, and a chunk in a slot that was empty is new; of the chunks already in the grid only the `isActive` flag may change, so their mesh buffers, quads and voxel maps are kept |
| WorldState.World.DeactivateAll | Minecraft/Assets/Script/World.cs:91-94 | the chunk of every coordinate in the list ends inactive, and every other slot keeps its state; of the chunks already in the grid only the `isActive` flag may change, so their mesh buffers, quads and voxel maps are kept |
| WorldState.World.UpdateWindow | Minecraft/Assets/Script/World.cs:66-94 | around a given centre chunk: a slot ends inactive if its coordinate survives in the copy of the old list; otherwise active if in the window and in the world; otherwise unchanged. The active list grows by exactly WindowActivated; no chunk is replaced; of the chunks already in the grid only the `isActive` flag may change, so their mesh buffers, quads and voxel maps are kept |
| WorldState.World.CheckViewDistance | Minecraft/Assets/Script/World.cs:63-95 | a slot ends inactive if its coordinate survives in the copy of the old list; otherwise active if in the window and in the world; otherwise unchanged. The active list grows by exactly WindowActivated; no chunk is replaced; of the chunks already in the grid only the `isActive` flag may change, so their mesh buffers, quads and voxel maps are kept |
| WorldState.World.CheckForVoxel | Minecraft/Assets/Script/World.cs:97-110 | faults out of range outside the grid, the chunk's map or the registry, and on null for an empty slot; otherwise returns the registry's solidity of the stored id, which for a non-negative probe into a populated chunk is the terrain's |
| Structure.TrunkHeight | Minecraft/Assets/Script/Structure.cs:10-12 | the height is at least the minimum and at least the truncated noise-scaled maximum, and equals one of the two |
| Structure.MakeTree | Minecraft/Assets/Script/Structure.cs:7-20 | max(height, 0) trunk blocks (id 6) at y, y+1, ..., then one leaves block (id 11) at y + height; all share x and z, and come out in strictly ascending y |

## Left out

- Unity plumbing is not modelled. This covers game objects, transforms, materials, `createMesh` (Chunk.cs:129-140), `Debug.Log`, `Start` and `Update` (World.cs:23-41). The mesh is modelled by its buffers.
- The player's transform is a parameter of `CheckViewDistance` (World.cs:65). The spawn position and `player.position = spawnPosition` (World.cs:27, 53) are not modelled.
- The noise implementation is not part of this model: it is an opaque deterministic function. The tree's noise sample is a parameter of `MakeTree`.
- The constants file (`VoxelData`) is not part of this model. Its values are parameters.
- Floats are exact reals: rounding in float arithmetic is not modelled.
- Terrain.GetVoxel: takes an integer position. Every caller in the core passes integer positions (Chunk.cs:50, 95), so the float floor of `pos.y` and the float bounds test are not modelled.
- The source's nested loops are split into one method per loop.
  - `CreateMeshData`'s x and z loops are `AddLayer` and `AddStrip`.
  - The vertex loop is `AddFaceVertices`, and a quad's appends are `AddQuad`.
  - `GenrateWorld`'s inner loop is `CreateRow`.
  - `CheckViewDistance` computes the player's chunk and hands it to `UpdateWindow`, which holds the rest of its body. Its loops are `ScanWindow` (x), `ScanRow` (z) and `ActivateChunk` (the activation branch). The removal loop is `RemoveCell`/`RemoveMatching`, and the final loop is `DeactivateAll`.
  - The statements and their order are the source's.
- ChunkMesh.Chunk.constructor, ChunkMesh.Chunk.PopulateVoxelMap, ChunkMesh.Chunk.CreateMeshData, ChunkMesh.Chunk.AddLayer, ChunkMesh.Chunk.AddStrip, ChunkMesh.Chunk.CheckVoxel, ChunkMesh.Chunk.AddvoxelDataToChunk: require a well-formed configuration (`Terrain.WellFormed`), in which every id the terrain can produce has a registry entry. The source does not check this. With a registry that lacks such an id, the lookups in `blockTypes` at Chunk.cs:65, 95, 97 and 115 would fault out of range. The chunk model does not model that fault; `WorldState.World.CheckForVoxel` models the same fault for its own lookup.
- WorldState.World.GenrateWorld: requires the start-up square to fit in the grid. The source would fault out of range otherwise, and that fault is not modelled.
- WorldState.World.DeactivateAll: requires every coordinate in the list to name a filled slot. `CheckViewDistance` always meets this, because every coordinate in the active list names a filled slot.
- WorldState.World.CheckViewDistance: does not state which chunks in the window are freshly created. `ScanWindow` states it.
- WorldState.World.ScanRow, WorldState.World.ScanWindow, WorldState.World.UpdateWindow: say that a chunk the scan creates is new, not that it is `Built`. `ActivateChunk` states that for the chunk it creates, and `CreateRow`/`GenrateWorld` state it for start-up. Carrying it through the scan's loops costs more than the verifier's limit allows.
- WorldState.World.CheckForVoxel: ties the answer to the terrain only for a non-negative probe into a populated chunk. The world's invariant does not record that every chunk in the grid is populated, although every chunk is built populated.
- The chunk's mesh builder reads the configuration (`cfg`) instead of the `World` object. It only ever reads the world's immutable settings: the block registry, the biome and the noise.
- Meshing.MeshVertices, Meshing.MeshUvs, Meshing.MeshTriangles: their own contracts state only lengths and index bounds. Their contents are stated by `AppendQuad`, `VertexOfQuad` and `TrianglePattern`.
- The code has no transparency, no tree pass in the terrain, no block edits and no cross-chunk modification queue, so none is modelled.

## Findings

| source | as written | input that shows it | evidently intended | confidence | as-written member | corrected member |
|---|---|---|---|---|---|---|
| Minecraft/Assets/Script/World.cs:83-87 | after `RemoveAt(i)` the loop still runs `i++`, so the entry that slides into slot i is never examined | a copy of the old active list equal to `[c, c]` while scanning cell c: one copy of c survives and is switched off at World.cs:91-94 although c is in view | every copy of the scanned coordinate is removed | not executed | ChunkLists.SkipRemove (ChunkLists.SurvivesIffAdjacentDuplicate, ChunkLists.AdjacentCopyEscapes) | ChunkLists.RemoveAll (ChunkLists.RemoveAllMatching, ChunkLists.RemoveAllExact) |

How duplicates arise: the list of active coordinates only grows. A chunk switched off at World.cs:93 keeps its coordinate in the list, and switching it on again at World.cs:79 appends the coordinate a second time.

The bug is latent: `CheckViewDistance` is never called, because its only call, in `Update` (World.cs:37-40), is commented out. It would show as soon as that call is restored. `CheckViewDistance` keeps the loop as written, because that is the code. `ChunkLists.SkipRemoveIsRemoveAllWithoutPairs` and `ChunkLists.SurvivorsWithoutDuplicates` show that the two removals agree on lists without duplicates.
