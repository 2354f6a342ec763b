/** Chunk.cs: one W x H x W column of the world. On construction it fills its
    voxel map from the terrain, then scans the map and appends, for every
    visible face of every solid voxel, four vertices, four texture
    coordinates and six triangle indices to its mesh buffers. */
module ChunkMesh {
  import opened VoxelData
  import opened Terrain
  import opened Meshing

  class Chunk {
    const coord: ChunkCoord
    /** The world the chunk was built for; only its immutable configuration
        (constants, biome, noise, block registry) is ever read. */
    const cfg: WorldConfig
    const voxelMap: array3<byte>
    /** MeshOf(cfg, _), as a value (see MeshIsMeshOf). */
    ghost const mesh: seq<Face> -> MeshBuffers

    /** The active flag of the chunk's scene object. */
    var isActive: bool

    var vertexIndex: int
    var vertices: seq<Vec3>
    var triangles: seq<int>
    var uvs: seq<Uv>
    /** The quads appended so far, in order; the buffers are functions of it. */
    ghost var faces: seq<Face>

    /** The voxel map has the chunk's dimensions and holds, at every local
        position, the terrain's block at the corresponding world position. */
    ghost predicate Populated()
      reads voxelMap
    {
      && WellFormed(cfg)
      && voxelMap.Length0 == cfg.data.chunkWidth
      && voxelMap.Length1 == cfg.data.chunkHeight
      && voxelMap.Length2 == cfg.data.chunkWidth
      && forall x, y, z :: 0 <= x < voxelMap.Length0 && 0 <= y < voxelMap.Length1 && 0 <= z < voxelMap.Length2 ==>
           voxelMap[x, y, z] == TerrainCell(x, y, z)
    }

    /** The terrain's block at local position (x, y, z) of this chunk. */
    ghost function TerrainCell(x: int, y: int, z: int): byte {
      VoxelAt(cfg, ToWorld(cfg.data, coord, Vec3(x, y, z)))
    }

    /** The buffers are exactly those of the quads in `faces`, and the next
        vertex index is the number of vertices so far. */
    ghost predicate MeshConsistent()
      reads this`faces, this`vertices, this`uvs, this`triangles, this`vertexIndex
    {
      FacesWellFormed(cfg, faces) && mesh(faces) == MeshBuffers(vertices, uvs, triangles, vertexIndex)
    }

    /** `mesh` is MeshOf for this chunk's configuration. The scanning methods
        only pass MeshConsistent along; going through `mesh` keeps MeshOf's
        definition out of their proofs, and AddQuad uses this predicate to
        see through it. */
    ghost predicate MeshIsMeshOf() {
      && ValidConstants(cfg.data)
      && forall fs {:trigger MeshOf(cfg, fs)} :: FacesWellFormed(cfg, fs) ==> mesh(fs) == MeshOf(cfg, fs)
    }

    /** The state a new chunk is left in: the terrain of its column in the
        voxel map, and buffers holding the mesh of exactly the visible faces
        of its solid voxels. Only the active flag changes afterwards. The
        body is guarded by the term ChunkFaces(cfg, c), so the world's proofs,
        which carry Built() through their loops, never unfold it; BuiltParts
        spells it out for a caller that needs the parts. */
    ghost predicate Built()
      reads this`faces, this`vertices, this`uvs, this`triangles, this`vertexIndex, voxelMap
    {
      && WellFormed(cfg)
      && forall c {:trigger ChunkFaces(cfg, c)} :: c == coord ==>
           Populated() && MeshIsMeshOf() && MeshConsistent() && faces == ChunkFaces(cfg, c)
    }

    lemma BuiltParts()
      requires Built()
      ensures Populated() && MeshIsMeshOf() && MeshConsistent() && faces == ChunkFaces(cfg, coord)
    {
      var fs := ChunkFaces(cfg, coord);  // the term that opens Built's body
    }

    /** A new chunk is active, holds the terrain of its column and carries the
        mesh of exactly the visible faces of its solid voxels. */
    constructor (coord: ChunkCoord, cfg: WorldConfig)
      requires WellFormed(cfg)
      ensures this.coord == coord && this.cfg == cfg
      ensures fresh(voxelMap)
      ensures isActive
      ensures Populated() && MeshIsMeshOf() && MeshConsistent()
      ensures faces == ChunkFaces(cfg, coord)
    {
      this.coord := coord;
      this.cfg := cfg;
      mesh := fs => if ValidConstants(cfg.data) && FacesWellFormed(cfg, fs) then MeshOf(cfg, fs)
                    else MeshBuffers([], [], [], 0);
      voxelMap := new byte[cfg.data.chunkWidth, cfg.data.chunkHeight, cfg.data.chunkWidth];
      isActive := true;
      vertexIndex := 0;
      vertices := [];
      triangles := [];
      uvs := [];
      faces := [];
      new;
      PopulateVoxelMap();
      CreateMeshData();
      ChunkFacesExactly(cfg, coord);
    }

    /** The buffers of a consistent chunk are those MeshOf gives for its
        quads; for a new chunk, those of ChunkFaces. */
    lemma BuffersAreMeshOf()
      requires MeshIsMeshOf() && MeshConsistent()
      ensures MeshBuffers(vertices, uvs, triangles, vertexIndex) == MeshOf(cfg, faces)
    {
      assert MeshOf(cfg, faces) == mesh(faces);
    }

    /** Fills every cell, layer by layer, with the terrain's block. */
    method PopulateVoxelMap()
      requires WellFormed(cfg)
      requires voxelMap.Length0 == cfg.data.chunkWidth
      requires voxelMap.Length1 == cfg.data.chunkHeight
      requires voxelMap.Length2 == cfg.data.chunkWidth
      modifies voxelMap
      ensures Populated()
    {
      var y := 0;
      while y < cfg.data.chunkHeight
        invariant 0 <= y <= cfg.data.chunkHeight
        invariant forall x', y', z' :: 0 <= x' < voxelMap.Length0 && 0 <= y' < y && 0 <= z' < voxelMap.Length2 ==>
                    voxelMap[x', y', z'] == TerrainCell(x', y', z')
      {
        var x := 0;
        while x < cfg.data.chunkWidth
          invariant 0 <= x <= cfg.data.chunkWidth
          invariant forall x', y', z' :: 0 <= x' < voxelMap.Length0 && 0 <= y' < y && 0 <= z' < voxelMap.Length2 ==>
                      voxelMap[x', y', z'] == TerrainCell(x', y', z')
          invariant forall x', z' :: 0 <= x' < x && 0 <= z' < voxelMap.Length2 ==> voxelMap[x', y, z'] == TerrainCell(x', y, z')
        {
          var z := 0;
          while z < cfg.data.chunkWidth
            invariant 0 <= z <= cfg.data.chunkWidth
            invariant forall x', y', z' :: 0 <= x' < voxelMap.Length0 && 0 <= y' < y && 0 <= z' < voxelMap.Length2 ==>
                        voxelMap[x', y', z'] == TerrainCell(x', y', z')
            invariant forall x', z' :: 0 <= x' < x && 0 <= z' < voxelMap.Length2 ==> voxelMap[x', y, z'] == TerrainCell(x', y, z')
            invariant forall z' :: 0 <= z' < z ==> voxelMap[x, y, z'] == TerrainCell(x, y, z')
          {
            var id := GetVoxel(cfg, ToWorld(cfg.data, coord, Vec3(x, y, z)));
            voxelMap[x, y, z] := id;
            z := z + 1;
          }
          x := x + 1;
        }
        y := y + 1;
      }
    }

    /** Scans the map layer by layer (y, then x, then z) and appends the
        quads of every solid voxel. The x and z loops are the bodies of
        AddLayer and AddStrip. */
    method CreateMeshData()
      requires Populated() && MeshIsMeshOf() && MeshConsistent()
      modifies this
      ensures MeshConsistent()
      ensures faces == old(faces) + ChunkFaces(cfg, coord)
      ensures isActive == old(isActive)
    {
      var y := 0;
      ghost var done: seq<Face> := [];
      while y < cfg.data.chunkHeight
        invariant 0 <= y <= cfg.data.chunkHeight
        invariant MeshConsistent() && isActive == old(isActive)
        invariant done == FacesBelow(cfg, coord, y)
        invariant faces == old(faces) + done
      {
        ghost var added := BelowStep(cfg, coord, y);
        AddLayer(y);
        ConcatAssoc(old(faces), done, added);
        done := done + added;
        y := y + 1;
      }
    }

    /** The middle loop of the scan: every strip of layer y, in x order. */
    method AddLayer(y: int)
      requires Populated() && MeshIsMeshOf() && MeshConsistent() && 0 <= y < cfg.data.chunkHeight
      modifies this
      ensures MeshConsistent()
      ensures faces == old(faces) + LayerFaces(cfg, coord, y, cfg.data.chunkWidth)
      ensures isActive == old(isActive)
    {
      var x := 0;
      ghost var done: seq<Face> := [];
      while x < cfg.data.chunkWidth
        invariant 0 <= x <= cfg.data.chunkWidth
        invariant MeshConsistent() && isActive == old(isActive)
        invariant done == LayerFaces(cfg, coord, y, x)
        invariant faces == old(faces) + done
      {
        ghost var added := LayerStep(cfg, coord, y, x);
        AddStrip(x, y);
        ConcatAssoc(old(faces), done, added);
        done := done + added;
        x := x + 1;
      }
    }

    /** The inner loop of the scan: the solid voxels (x, y, 0) .. (x, y, W-1). */
    method AddStrip(x: int, y: int)
      requires Populated() && MeshIsMeshOf() && MeshConsistent()
      requires 0 <= x < cfg.data.chunkWidth && 0 <= y < cfg.data.chunkHeight
      modifies this
      ensures MeshConsistent()
      ensures faces == old(faces) + StripFaces(cfg, coord, x, y, cfg.data.chunkWidth)
      ensures isActive == old(isActive)
    {
      var z := 0;
      ghost var done: seq<Face> := [];
      while z < cfg.data.chunkWidth
        invariant 0 <= z <= cfg.data.chunkWidth
        invariant MeshConsistent() && isActive == old(isActive)
        invariant done == StripFaces(cfg, coord, x, y, z)
        invariant faces == old(faces) + done
      {
        ghost var added := StripStep(cfg, coord, x, y, z);
        if cfg.blockTypes[voxelMap[x, y, z]].isSolid {
          AddvoxelDataToChunk(Vec3(x, y, z));
        }
        ConcatAssoc(old(faces), done, added);
        done := done + added;
        z := z + 1;
      }
    }

    /** Whether local (x, y, z) lies inside the chunk. */
    function IsVoxelInChunk(x: int, y: int, z: int): (inside: bool)
      ensures inside <==> InChunk(cfg.data, Vec3(x, y, z))
    {
      !(x < 0 || x > cfg.data.chunkWidth - 1 || y < 0 || y > cfg.data.chunkHeight - 1
        || z < 0 || z > cfg.data.chunkWidth - 1)
    }

    /** Whether the block at local position `pos` is solid: read from the
        voxel map inside the chunk, asked of the terrain outside it. Either
        way the answer is the terrain's. */
    method CheckVoxel(pos: Vec3) returns (solid: bool)
      requires Populated()
      ensures solid == SolidAt(cfg, ToWorld(cfg.data, coord, pos))
    {
      if !IsVoxelInChunk(pos.x, pos.y, pos.z) {
        var id := GetVoxel(cfg, ToWorld(cfg.data, coord, pos));
        return cfg.blockTypes[id].isSolid;
      }
      return cfg.blockTypes[voxelMap[pos.x, pos.y, pos.z]].isSolid;
    }

    /** Appends the four texture coordinates of atlas tile `textureID`. */
    method AddTexture(textureID: int)
      requires ValidConstants(cfg.data)
      modifies this
      ensures uvs == old(uvs) + TileCorners(cfg.data.textureAtlasSizeInBlocks, textureID)
      ensures vertices == old(vertices) && triangles == old(triangles)
      ensures vertexIndex == old(vertexIndex) && faces == old(faces) && isActive == old(isActive)
    {
      var n := cfg.data.textureAtlasSizeInBlocks;
      var s := NormalizedBlockTextureSize(cfg.data);
      var row := TruncDiv(textureID, n);
      var col := textureID - row * n;
      var x := col as real * s;
      var y := row as real * s;
      y := 1.0 - y - s;
      ghost var corners := [Uv(x, y), Uv(x, y + s), Uv(x + s, y), Uv(x + s, y + s)];
      assert corners == TileCorners(n, textureID) by {
        assert s == 1.0 / n as real;
        assert AtlasTile(n, textureID) == (col, row);
        assert TileCorners(n, textureID) == TileCornersAt(n, col, row);
        var t := TileCornersAt(n, col, row);
        assert t[0] == corners[0];
        assert t[1] == corners[1];
        assert t[2] == corners[2];
        assert t[3] == corners[3];
      }
      uvs := uvs + [Uv(x, y)];
      uvs := uvs + [Uv(x, y + s)];
      uvs := uvs + [Uv(x + s, y)];
      uvs := uvs + [Uv(x + s, y + s)];
      assert uvs == old(uvs) + corners;
    }

    /** Appends the four corners of face `p` of the voxel at `pos`. */
    method AddFaceVertices(pos: Vec3, p: int)
      requires ValidConstants(cfg.data) && 0 <= p < 6
      modifies this
      ensures vertices == old(vertices) + QuadVertices(cfg.data, pos, p)
      ensures uvs == old(uvs) && triangles == old(triangles) && vertexIndex == old(vertexIndex)
      ensures faces == old(faces) && isActive == old(isActive)
    {
      var num := 0;
      while num < 4
        invariant 0 <= num <= 4
        invariant vertices == old(vertices) + QuadVertices(cfg.data, pos, p)[..num]
        invariant uvs == old(uvs) && triangles == old(triangles) && vertexIndex == old(vertexIndex)
        invariant faces == old(faces) && isActive == old(isActive)
      {
        vertices := vertices + [pos.Plus(cfg.data.voxelVerts[cfg.data.voxelTris[p][num]])];
        num := num + 1;
      }
    }

    /** Appends the quad of face `p` of the voxel at `pos` holding block
        `blockID`: its four corners, the four texture coordinates of the
        face's atlas tile, and two triangles over the new vertices. */
    method AddQuad(pos: Vec3, p: int, blockID: byte)
      requires MeshIsMeshOf() && MeshConsistent() && 0 <= p < 6 && (blockID as int) < |cfg.blockTypes|
      modifies this
      ensures MeshConsistent()
      ensures faces == old(faces) + [Face(pos, p, blockID)]
      ensures isActive == old(isActive)
    {
      ghost var f := Face(pos, p, blockID);
      AppendQuad(cfg, faces, f);
      ghost var next := MeshOf(cfg, faces + [f]);
      AddFaceVertices(pos, p);
      assert vertices == next.vertices;
      AddTexture(cfg.blockTypes[blockID].GetTexutureID(p));
      assert uvs == next.uvs;
      triangles := triangles + [vertexIndex, vertexIndex + 1, vertexIndex + 2, vertexIndex + 2, vertexIndex + 1, vertexIndex + 3];
      assert triangles == next.triangles;
      vertexIndex := vertexIndex + 4;
      faces := faces + [f];
    }

    /** Appends the quads of the visible faces of the solid voxel at `pos`,
        in face order. */
    method AddvoxelDataToChunk(pos: Vec3)
      requires Populated() && MeshIsMeshOf() && MeshConsistent() && InChunk(cfg.data, pos)
      modifies this
      ensures MeshConsistent()
      ensures faces == old(faces) + VoxelFaces(cfg, coord, pos)
      ensures isActive == old(isActive)
    {
      var p := 0;
      ghost var done: seq<Face> := [];
      while p < 6
        invariant 0 <= p <= 6
        invariant MeshConsistent() && isActive == old(isActive)
        invariant done == VoxelFacesUpTo(cfg, coord, pos, p)
        invariant faces == old(faces) + done
      {
        ghost var added := VoxelStep(cfg, coord, pos, p);
        var neighbourSolid := CheckVoxel(pos.Plus(cfg.data.faceCheckers[p]));
        if !neighbourSolid {
          var blockID := voxelMap[pos.x, pos.y, pos.z];
          AddQuad(pos, p, blockID);
        }
        ConcatAssoc(old(faces), done, added);
        done := done + added;
        p := p + 1;
      }
    }
  }
}
