/** What Chunk.cs's mesh builder computes, stated on values: the faces a
    chunk emits (face culling against the terrain), the vertex, UV and
    triangle buffers those faces produce, and the texture-atlas tile
    arithmetic. The Chunk class is proved to fill its buffers with exactly
    these. */
module Meshing {
  import opened VoxelData
  import opened Terrain

  /** A texture coordinate. */
  datatype Uv = Uv(u: real, v: real)

  /** One emitted quad: the chunk-local position of the solid voxel, the face
      index p (0..5) and the voxel's block id. */
  datatype Face = Face(pos: Vec3, dir: int, blockId: byte)

  /** The world position of a chunk's local origin. */
  function ChunkOrigin(vd: Constants, coord: ChunkCoord): Vec3 {
    Vec3(coord.x * vd.chunkWidth, 0, coord.z * vd.chunkWidth)
  }

  function ToWorld(vd: Constants, coord: ChunkCoord, local: Vec3): Vec3 {
    local.Plus(ChunkOrigin(vd, coord))
  }

  predicate InChunk(vd: Constants, pos: Vec3) {
    && 0 <= pos.x < vd.chunkWidth
    && 0 <= pos.y < vd.chunkHeight
    && 0 <= pos.z < vd.chunkWidth
  }

  /** Whether the terrain holds a solid block at a world position. */
  predicate SolidAt(cfg: WorldConfig, pos: Vec3)
    requires WellFormed(cfg)
  {
    IsSolid(cfg, VoxelAt(cfg, pos))
  }

  /** Whether face `dir` of the voxel at local `pos` is visible: its
      neighbour across that face is not solid. */
  predicate FaceVisible(cfg: WorldConfig, coord: ChunkCoord, pos: Vec3, dir: int)
    requires WellFormed(cfg) && 0 <= dir < 6
  {
    !SolidAt(cfg, ToWorld(cfg.data, coord, pos.Plus(cfg.data.faceCheckers[dir])))
  }

  /** The reference definition of face culling: `f` is a quad of the chunk
      at `coord` exactly when its voxel lies in the chunk and is solid, the
      face's neighbour is not solid, and the quad carries the voxel's id. */
  predicate Emitted(cfg: WorldConfig, coord: ChunkCoord, f: Face)
    requires WellFormed(cfg)
  {
    && InChunk(cfg.data, f.pos)
    && SolidAt(cfg, ToWorld(cfg.data, coord, f.pos))
    && 0 <= f.dir < 6
    && FaceVisible(cfg, coord, f.pos, f.dir)
    && f.blockId == VoxelAt(cfg, ToWorld(cfg.data, coord, f.pos))
  }

  /** The quads of voxel `pos` for faces 0 .. p-1, in face order. */
  function VoxelFacesUpTo(cfg: WorldConfig, coord: ChunkCoord, pos: Vec3, p: nat): seq<Face>
    requires WellFormed(cfg) && p <= 6
  {
    if p == 0 then []
    else
      VoxelFacesUpTo(cfg, coord, pos, p - 1)
      + if FaceVisible(cfg, coord, pos, p - 1)
        then [Face(pos, p - 1, VoxelAt(cfg, ToWorld(cfg.data, coord, pos)))]
        else []
  }

  /** One step of the face loop: the quad face p of `pos` adds, if any. */
  lemma VoxelStep(cfg: WorldConfig, coord: ChunkCoord, pos: Vec3, p: nat) returns (added: seq<Face>)
    requires WellFormed(cfg) && p < 6
    ensures added == if FaceVisible(cfg, coord, pos, p) then [Face(pos, p, VoxelAt(cfg, ToWorld(cfg.data, coord, pos)))] else []
    ensures VoxelFacesUpTo(cfg, coord, pos, p + 1) == VoxelFacesUpTo(cfg, coord, pos, p) + added
  {
    added := if FaceVisible(cfg, coord, pos, p) then [Face(pos, p, VoxelAt(cfg, ToWorld(cfg.data, coord, pos)))] else [];
  }

  function VoxelFaces(cfg: WorldConfig, coord: ChunkCoord, pos: Vec3): seq<Face>
    requires WellFormed(cfg)
  {
    VoxelFacesUpTo(cfg, coord, pos, 6)
  }

  /** The quads of the solid voxels (x, y, 0) .. (x, y, zEnd-1). */
  function StripFaces(cfg: WorldConfig, coord: ChunkCoord, x: int, y: int, zEnd: nat): seq<Face>
    requires WellFormed(cfg)
  {
    if zEnd == 0 then []
    else
      var pos := Vec3(x, y, zEnd - 1);
      StripFaces(cfg, coord, x, y, zEnd - 1)
      + if SolidAt(cfg, ToWorld(cfg.data, coord, pos)) then VoxelFaces(cfg, coord, pos) else []
  }

  /** One step of the strip scan: the quads voxel (x, y, z) adds. */
  lemma StripStep(cfg: WorldConfig, coord: ChunkCoord, x: int, y: int, z: nat) returns (added: seq<Face>)
    requires WellFormed(cfg)
    ensures added == if SolidAt(cfg, ToWorld(cfg.data, coord, Vec3(x, y, z))) then VoxelFaces(cfg, coord, Vec3(x, y, z)) else []
    ensures StripFaces(cfg, coord, x, y, z + 1) == StripFaces(cfg, coord, x, y, z) + added
  {
    added := if SolidAt(cfg, ToWorld(cfg.data, coord, Vec3(x, y, z))) then VoxelFaces(cfg, coord, Vec3(x, y, z)) else [];
  }

  /** The quads of layer y for x in 0 .. xEnd-1. */
  function LayerFaces(cfg: WorldConfig, coord: ChunkCoord, y: int, xEnd: nat): seq<Face>
    requires WellFormed(cfg)
  {
    if xEnd == 0 then []
    else LayerFaces(cfg, coord, y, xEnd - 1) + StripFaces(cfg, coord, xEnd - 1, y, cfg.data.chunkWidth)
  }

  /** One step of the layer scan: the quads strip x adds. */
  lemma LayerStep(cfg: WorldConfig, coord: ChunkCoord, y: int, x: nat) returns (added: seq<Face>)
    requires WellFormed(cfg)
    ensures added == StripFaces(cfg, coord, x, y, cfg.data.chunkWidth)
    ensures LayerFaces(cfg, coord, y, x + 1) == LayerFaces(cfg, coord, y, x) + added
  {
    added := StripFaces(cfg, coord, x, y, cfg.data.chunkWidth);
  }

  /** The quads of the layers 0 .. yEnd-1, in the builder's scan order
      (y, then x, then z). */
  function FacesBelow(cfg: WorldConfig, coord: ChunkCoord, yEnd: nat): seq<Face>
    requires WellFormed(cfg)
  {
    if yEnd == 0 then []
    else FacesBelow(cfg, coord, yEnd - 1) + LayerFaces(cfg, coord, yEnd - 1, cfg.data.chunkWidth)
  }

  /** One step of the chunk scan: the quads layer y adds. */
  lemma BelowStep(cfg: WorldConfig, coord: ChunkCoord, y: nat) returns (added: seq<Face>)
    requires WellFormed(cfg)
    ensures added == LayerFaces(cfg, coord, y, cfg.data.chunkWidth)
    ensures FacesBelow(cfg, coord, y + 1) == FacesBelow(cfg, coord, y) + added
  {
    added := LayerFaces(cfg, coord, y, cfg.data.chunkWidth);
  }

  /** All quads of the chunk at `coord`. */
  function ChunkFaces(cfg: WorldConfig, coord: ChunkCoord): seq<Face>
    requires WellFormed(cfg)
  {
    FacesBelow(cfg, coord, cfg.data.chunkHeight)
  }

  // ---------------------------------------------------------------------
  // Buffers

  predicate FacesWellFormed(cfg: WorldConfig, faces: seq<Face>) {
    forall i :: 0 <= i < |faces| ==> 0 <= faces[i].dir < 6 && (faces[i].blockId as int) < |cfg.blockTypes|
  }

  /** Corner k of face `dir` of the voxel at `pos`: the voxel position plus
      the cube corner that the face table names. */
  function Corner(vd: Constants, pos: Vec3, dir: int, k: int): Vec3
    requires ValidConstants(vd) && 0 <= dir < 6 && 0 <= k < 4
  {
    pos.Plus(vd.voxelVerts[vd.voxelTris[dir][k]])
  }

  function QuadVertices(vd: Constants, pos: Vec3, dir: int): seq<Vec3>
    requires ValidConstants(vd) && 0 <= dir < 6
  {
    [Corner(vd, pos, dir, 0), Corner(vd, pos, dir, 1), Corner(vd, pos, dir, 2), Corner(vd, pos, dir, 3)]
  }

  function MeshVertices(cfg: WorldConfig, faces: seq<Face>): (vs: seq<Vec3>)
    requires ValidConstants(cfg.data) && FacesWellFormed(cfg, faces)
    ensures |vs| == 4 * |faces|
  {
    if |faces| == 0 then []
    else MeshVertices(cfg, faces[..|faces| - 1]) + QuadVertices(cfg.data, faces[|faces| - 1].pos, faces[|faces| - 1].dir)
  }

  /** The atlas tile (column, row) of a texture id in an atlas `n` tiles
      wide, with the host language's truncating division. */
  function AtlasTile(n: int, id: int): (tile: (int, int))
    requires n > 0
    ensures 0 <= id ==> tile == (id % n, id / n)
  {
    var row := TruncDiv(id, n);
    (id - row * n, row)
  }

  /** The four texture coordinates of tile (col, row) of an atlas `n` tiles
      wide, in the order the quad's corners are emitted: the tile's
      lower-left origin (rows count down from the top edge), then up, right,
      and up-right by one tile side. */
  function TileCornersAt(n: int, col: int, row: int): (corners: seq<Uv>)
    requires n > 0
    ensures |corners| == 4
    ensures var s := 1.0 / n as real;
            var o := corners[0];
            && o.u == col as real * s && o.v + s == 1.0 - row as real * s
            && corners[1] == Uv(o.u, o.v + s)
            && corners[2] == Uv(o.u + s, o.v)
            && corners[3] == Uv(o.u + s, o.v + s)
  {
    var s := 1.0 / n as real;
    var x := col as real * s;
    var y := 1.0 - row as real * s - s;
    [Uv(x, y), Uv(x, y + s), Uv(x + s, y), Uv(x + s, y + s)]
  }

  /** The texture coordinates of texture id `id`. */
  function TileCorners(n: int, id: int): (corners: seq<Uv>)
    requires n > 0
  {
    var tile := AtlasTile(n, id);
    TileCornersAt(n, tile.0, tile.1)
  }

  function FaceUvs(cfg: WorldConfig, f: Face): seq<Uv>
    requires ValidConstants(cfg.data) && 0 <= f.dir < 6 && (f.blockId as int) < |cfg.blockTypes|
  {
    TileCorners(cfg.data.textureAtlasSizeInBlocks, cfg.blockTypes[f.blockId].GetTexutureID(f.dir))
  }

  function MeshUvs(cfg: WorldConfig, faces: seq<Face>): (uvs: seq<Uv>)
    requires ValidConstants(cfg.data) && FacesWellFormed(cfg, faces)
    ensures |uvs| == 4 * |faces|
  {
    if |faces| == 0 then []
    else MeshUvs(cfg, faces[..|faces| - 1]) + FaceUvs(cfg, faces[|faces| - 1])
  }

  /** The two triangles of a quad whose first vertex is `v`. */
  function QuadIndices(v: int): seq<int> {
    [v, v + 1, v + 2, v + 2, v + 1, v + 3]
  }

  /** The index buffer of `n` quads; every index names one of the 4n
      vertices. */
  function MeshTriangles(n: nat): (ts: seq<int>)
    ensures |ts| == 6 * n
    ensures forall i :: 0 <= i < |ts| ==> 0 <= ts[i] < 4 * n
  {
    if n == 0 then [] else MeshTriangles(n - 1) + QuadIndices(4 * (n - 1))
  }

  /** The four mesh buffers of the chunk class: vertices, texture
      coordinates, triangle indices and the next free vertex index. */
  datatype MeshBuffers = MeshBuffers(vertices: seq<Vec3>, uvs: seq<Uv>, triangles: seq<int>, vertexIndex: int)

  /** The buffers that hold exactly the quads `faces`, in order. */
  function MeshOf(cfg: WorldConfig, faces: seq<Face>): MeshBuffers
    requires ValidConstants(cfg.data) && FacesWellFormed(cfg, faces)
  {
    MeshBuffers(MeshVertices(cfg, faces), MeshUvs(cfg, faces), MeshTriangles(|faces|), 4 * |faces|)
  }

  // ---------------------------------------------------------------------
  // Properties

  /** Appending one quad's four corners, four texture coordinates and two
      triangles (numbered from the next vertex index) to the buffers of
      `faces` gives the buffers of `faces + [f]`. */
  lemma AppendQuad(cfg: WorldConfig, faces: seq<Face>, f: Face)
    requires ValidConstants(cfg.data) && FacesWellFormed(cfg, faces)
    requires 0 <= f.dir < 6 && (f.blockId as int) < |cfg.blockTypes|
    ensures FacesWellFormed(cfg, faces + [f])
    ensures var m := MeshOf(cfg, faces);
            MeshOf(cfg, faces + [f])
            == MeshBuffers(m.vertices + QuadVertices(cfg.data, f.pos, f.dir), m.uvs + FaceUvs(cfg, f),
                           m.triangles + QuadIndices(m.vertexIndex), m.vertexIndex + 4)
  {
    assert (faces + [f])[..|faces|] == faces;
  }

  /** Face culling, voxel by voxel: face p of a voxel is emitted exactly when
      its neighbour is not solid, and carries the voxel's id. */
  lemma {:induction false} VoxelFacesExactly(cfg: WorldConfig, coord: ChunkCoord, pos: Vec3, p: nat)
    requires WellFormed(cfg) && p <= 6
    ensures forall f :: f in VoxelFacesUpTo(cfg, coord, pos, p) <==>
      && f.pos == pos && 0 <= f.dir < p
      && FaceVisible(cfg, coord, pos, f.dir)
      && f.blockId == VoxelAt(cfg, ToWorld(cfg.data, coord, pos))
  {
    if p > 0 {
      VoxelFacesExactly(cfg, coord, pos, p - 1);
    }
  }

  /** A voxel whose six neighbours are all non-solid emits six quads; one
      whose six neighbours are all solid emits none. */
  lemma {:induction false} IsolatedAndEnclosedVoxels(cfg: WorldConfig, coord: ChunkCoord, pos: Vec3, p: nat)
    requires WellFormed(cfg) && p <= 6
    ensures (forall d :: 0 <= d < p ==> FaceVisible(cfg, coord, pos, d)) ==> |VoxelFacesUpTo(cfg, coord, pos, p)| == p
    ensures (forall d :: 0 <= d < p ==> !FaceVisible(cfg, coord, pos, d)) ==> VoxelFacesUpTo(cfg, coord, pos, p) == []
  {
    if p > 0 {
      IsolatedAndEnclosedVoxels(cfg, coord, pos, p - 1);
    }
  }

  /** Quad `f` belongs to its voxel's quads and that voxel is solid. */
  predicate VoxelEmits(cfg: WorldConfig, coord: ChunkCoord, f: Face)
    requires WellFormed(cfg)
  {
    SolidAt(cfg, ToWorld(cfg.data, coord, f.pos)) && f in VoxelFaces(cfg, coord, f.pos)
  }

  lemma {:induction false} StripFacesExactly(cfg: WorldConfig, coord: ChunkCoord, x: int, y: int, zEnd: nat)
    requires WellFormed(cfg)
    ensures forall f :: f in StripFaces(cfg, coord, x, y, zEnd) <==>
      f.pos.x == x && f.pos.y == y && 0 <= f.pos.z < zEnd && VoxelEmits(cfg, coord, f)
  {
    if zEnd > 0 {
      StripFacesExactly(cfg, coord, x, y, zEnd - 1);
      var pos := Vec3(x, y, zEnd - 1);
      var before := StripFaces(cfg, coord, x, y, zEnd - 1);
      var added := if SolidAt(cfg, ToWorld(cfg.data, coord, pos)) then VoxelFaces(cfg, coord, pos) else [];
      assert StripFaces(cfg, coord, x, y, zEnd) == before + added;
      VoxelFacesAt(cfg, coord, pos, 6);
      forall f: Face
        ensures f in before + added <==> f.pos.x == x && f.pos.y == y && 0 <= f.pos.z < zEnd && VoxelEmits(cfg, coord, f)
      {
        assert f in before + added <==> f in before || f in added;
        if f.pos == pos {
          assert f !in before;
        } else {
          assert f !in added;
        }
      }
    }
  }

  lemma {:induction false} LayerFacesExactly(cfg: WorldConfig, coord: ChunkCoord, y: int, xEnd: nat)
    requires WellFormed(cfg)
    ensures forall f :: f in LayerFaces(cfg, coord, y, xEnd) <==>
      0 <= f.pos.x < xEnd && f.pos.y == y && 0 <= f.pos.z < cfg.data.chunkWidth && VoxelEmits(cfg, coord, f)
  {
    if xEnd > 0 {
      LayerFacesExactly(cfg, coord, y, xEnd - 1);
      StripFacesExactly(cfg, coord, xEnd - 1, y, cfg.data.chunkWidth);
      var before := LayerFaces(cfg, coord, y, xEnd - 1);
      var added := StripFaces(cfg, coord, xEnd - 1, y, cfg.data.chunkWidth);
      assert LayerFaces(cfg, coord, y, xEnd) == before + added;
      forall f: Face
        ensures f in before + added <==>
          0 <= f.pos.x < xEnd && f.pos.y == y && 0 <= f.pos.z < cfg.data.chunkWidth && VoxelEmits(cfg, coord, f)
      {
        assert f in before + added <==> f in before || f in added;
        if f.pos.x == xEnd - 1 {
          assert f !in before;
        } else {
          assert f !in added;
        }
      }
    }
  }

  lemma {:induction false} FacesBelowExactly(cfg: WorldConfig, coord: ChunkCoord, yEnd: nat)
    requires WellFormed(cfg)
    ensures forall f :: f in FacesBelow(cfg, coord, yEnd) <==>
      0 <= f.pos.x < cfg.data.chunkWidth && 0 <= f.pos.y < yEnd && 0 <= f.pos.z < cfg.data.chunkWidth
      && VoxelEmits(cfg, coord, f)
  {
    if yEnd > 0 {
      FacesBelowExactly(cfg, coord, yEnd - 1);
      LayerFacesExactly(cfg, coord, yEnd - 1, cfg.data.chunkWidth);
      var before := FacesBelow(cfg, coord, yEnd - 1);
      var added := LayerFaces(cfg, coord, yEnd - 1, cfg.data.chunkWidth);
      assert FacesBelow(cfg, coord, yEnd) == before + added;
      forall f: Face
        ensures f in before + added <==>
          0 <= f.pos.x < cfg.data.chunkWidth && 0 <= f.pos.y < yEnd && 0 <= f.pos.z < cfg.data.chunkWidth
          && VoxelEmits(cfg, coord, f)
      {
        assert f in before + added <==> f in before || f in added;
        if f.pos.y == yEnd - 1 {
          assert f !in before;
        } else {
          assert f !in added;
        }
      }
    }
  }

  /** Face culling for the whole chunk: a quad is in the mesh exactly when
      its voxel is a solid voxel of the chunk and its neighbour across that
      face is not solid. Non-solid voxels contribute nothing. */
  lemma ChunkFacesExactly(cfg: WorldConfig, coord: ChunkCoord)
    requires WellFormed(cfg)
    ensures forall f :: f in ChunkFaces(cfg, coord) <==> Emitted(cfg, coord, f)
    ensures FacesWellFormed(cfg, ChunkFaces(cfg, coord))
  {
    FacesBelowExactly(cfg, coord, cfg.data.chunkHeight);
    forall f: Face | InChunk(cfg.data, f.pos)
      ensures f in VoxelFaces(cfg, coord, f.pos) <==>
                0 <= f.dir < 6 && FaceVisible(cfg, coord, f.pos, f.dir)
                && f.blockId == VoxelAt(cfg, ToWorld(cfg.data, coord, f.pos))
    {
      VoxelFacesExactly(cfg, coord, f.pos, 6);
    }
    var faces := ChunkFaces(cfg, coord);
    forall i | 0 <= i < |faces|
      ensures 0 <= faces[i].dir < 6 && (faces[i].blockId as int) < |cfg.blockTypes|
    {
      assert faces[i] in faces;
    }
  }

  /** No quad occurs twice in `faces`. */
  predicate NoRepeatedFace(faces: seq<Face>) {
    forall i, j :: 0 <= i < j < |faces| ==> faces[i] != faces[j]
  }

  lemma NoRepeatedFaceConcat(a: seq<Face>, b: seq<Face>)
    requires NoRepeatedFace(a) && NoRepeatedFace(b)
    requires forall f :: f in a ==> f !in b
    ensures NoRepeatedFace(a + b)
  {
    forall i, j | 0 <= i < j < |a + b|
      ensures (a + b)[i] != (a + b)[j]
    {
      if i < |a| && |a| <= j {
        assert (a + b)[i] in a && (a + b)[j] == b[j - |a|];
      }
    }
  }

  /** The quads of a voxel sit at that voxel and face directions below p. */
  lemma VoxelFacesAt(cfg: WorldConfig, coord: ChunkCoord, pos: Vec3, p: nat)
    requires WellFormed(cfg) && p <= 6
    ensures forall f :: f in VoxelFacesUpTo(cfg, coord, pos, p) ==> f.pos == pos && f.dir < p
  {
    VoxelFacesExactly(cfg, coord, pos, p);
  }

  /** The quads of a strip lie in its column, below zEnd. */
  lemma StripFacesAt(cfg: WorldConfig, coord: ChunkCoord, x: int, y: int, zEnd: nat)
    requires WellFormed(cfg)
    ensures forall f :: f in StripFaces(cfg, coord, x, y, zEnd) ==> f.pos.x == x && f.pos.y == y && f.pos.z < zEnd
  {
    StripFacesExactly(cfg, coord, x, y, zEnd);
  }

  /** The quads of a layer lie in it, in the strips below xEnd. */
  lemma LayerFacesAt(cfg: WorldConfig, coord: ChunkCoord, y: int, xEnd: nat)
    requires WellFormed(cfg)
    ensures forall f :: f in LayerFaces(cfg, coord, y, xEnd) ==> f.pos.y == y && f.pos.x < xEnd
  {
    LayerFacesExactly(cfg, coord, y, xEnd);
  }

  /** The quads below yEnd lie in the layers below yEnd. */
  lemma FacesBelowAt(cfg: WorldConfig, coord: ChunkCoord, yEnd: nat)
    requires WellFormed(cfg)
    ensures forall f :: f in FacesBelow(cfg, coord, yEnd) ==> f.pos.y < yEnd
  {
    FacesBelowExactly(cfg, coord, yEnd);
  }

  /** The quads of voxel (x, y, zEnd) come after those of the strip below zEnd. */
  lemma StripDisjoint(cfg: WorldConfig, coord: ChunkCoord, x: int, y: int, zEnd: nat)
    requires WellFormed(cfg)
    ensures forall f :: f in StripFaces(cfg, coord, x, y, zEnd) ==> f !in VoxelFaces(cfg, coord, Vec3(x, y, zEnd))
  {
    StripFacesAt(cfg, coord, x, y, zEnd);
    VoxelFacesAt(cfg, coord, Vec3(x, y, zEnd), 6);
  }

  /** The quads of strip xEnd come after those of the layer's strips below it. */
  lemma LayerDisjoint(cfg: WorldConfig, coord: ChunkCoord, y: int, xEnd: nat)
    requires WellFormed(cfg)
    ensures forall f :: f in LayerFaces(cfg, coord, y, xEnd) ==> f !in StripFaces(cfg, coord, xEnd, y, cfg.data.chunkWidth)
  {
    LayerFacesAt(cfg, coord, y, xEnd);
    StripFacesAt(cfg, coord, xEnd, y, cfg.data.chunkWidth);
  }

  /** The quads of layer yEnd come after those of the layers below it. */
  lemma BelowDisjoint(cfg: WorldConfig, coord: ChunkCoord, yEnd: nat)
    requires WellFormed(cfg)
    ensures forall f :: f in FacesBelow(cfg, coord, yEnd) ==> f !in LayerFaces(cfg, coord, yEnd, cfg.data.chunkWidth)
  {
    FacesBelowAt(cfg, coord, yEnd);
    LayerFacesAt(cfg, coord, yEnd, cfg.data.chunkWidth);
  }

  /** A voxel emits each face direction at most once. */
  lemma {:induction false} VoxelFacesDistinct(cfg: WorldConfig, coord: ChunkCoord, pos: Vec3, p: nat)
    requires WellFormed(cfg) && p <= 6
    ensures NoRepeatedFace(VoxelFacesUpTo(cfg, coord, pos, p))
  {
    if p > 0 {
      VoxelFacesDistinct(cfg, coord, pos, p - 1);
      VoxelFacesAt(cfg, coord, pos, p - 1);
      var added := if FaceVisible(cfg, coord, pos, p - 1)
                   then [Face(pos, p - 1, VoxelAt(cfg, ToWorld(cfg.data, coord, pos)))] else [];
      NoRepeatedFaceConcat(VoxelFacesUpTo(cfg, coord, pos, p - 1), added);
    }
  }

  lemma {:induction false} StripFacesDistinct(cfg: WorldConfig, coord: ChunkCoord, x: int, y: int, zEnd: nat)
    requires WellFormed(cfg)
    ensures NoRepeatedFace(StripFaces(cfg, coord, x, y, zEnd))
  {
    if zEnd > 0 {
      var pos := Vec3(x, y, zEnd - 1);
      var before := StripFaces(cfg, coord, x, y, zEnd - 1);
      StripFacesDistinct(cfg, coord, x, y, zEnd - 1);
      if SolidAt(cfg, ToWorld(cfg.data, coord, pos)) {
        assert StripFaces(cfg, coord, x, y, zEnd) == before + VoxelFaces(cfg, coord, pos);
        StripDisjoint(cfg, coord, x, y, zEnd - 1);
        VoxelFacesDistinct(cfg, coord, pos, 6);
        NoRepeatedFaceConcat(before, VoxelFaces(cfg, coord, pos));
      } else {
        assert StripFaces(cfg, coord, x, y, zEnd) == before + [];
        assert before + [] == before;
      }
    }
  }

  lemma {:induction false} LayerFacesDistinct(cfg: WorldConfig, coord: ChunkCoord, y: int, xEnd: nat)
    requires WellFormed(cfg)
    ensures NoRepeatedFace(LayerFaces(cfg, coord, y, xEnd))
  {
    if xEnd > 0 {
      var w := cfg.data.chunkWidth;
      LayerFacesDistinct(cfg, coord, y, xEnd - 1);
      LayerDisjoint(cfg, coord, y, xEnd - 1);
      StripFacesDistinct(cfg, coord, xEnd - 1, y, w);
      NoRepeatedFaceConcat(LayerFaces(cfg, coord, y, xEnd - 1), StripFaces(cfg, coord, xEnd - 1, y, w));
    }
  }

  lemma {:induction false} FacesBelowDistinct(cfg: WorldConfig, coord: ChunkCoord, yEnd: nat)
    requires WellFormed(cfg)
    ensures NoRepeatedFace(FacesBelow(cfg, coord, yEnd))
  {
    if yEnd > 0 {
      var w := cfg.data.chunkWidth;
      FacesBelowDistinct(cfg, coord, yEnd - 1);
      BelowDisjoint(cfg, coord, yEnd - 1);
      LayerFacesDistinct(cfg, coord, yEnd - 1, w);
      NoRepeatedFaceConcat(FacesBelow(cfg, coord, yEnd - 1), LayerFaces(cfg, coord, yEnd - 1, w));
    }
  }

  /** The chunk's quad list holds every emitted quad exactly once. */
  lemma ChunkFacesDistinct(cfg: WorldConfig, coord: ChunkCoord)
    requires WellFormed(cfg)
    ensures NoRepeatedFace(ChunkFaces(cfg, coord))
    ensures forall f :: f in ChunkFaces(cfg, coord) ==> multiset(ChunkFaces(cfg, coord))[f] == 1
  {
    var faces := ChunkFaces(cfg, coord);
    FacesBelowDistinct(cfg, coord, cfg.data.chunkHeight);
    forall f | f in faces
      ensures multiset(faces)[f] == 1
    {
      CountOfDistinct(faces, f);
    }
  }

  lemma {:induction false} CountOfDistinct(faces: seq<Face>, f: Face)
    requires NoRepeatedFace(faces) && f in faces
    ensures multiset(faces)[f] == 1
    decreases |faces|
  {
    var front := faces[..|faces| - 1];
    var last := faces[|faces| - 1];
    assert faces == front + [last];
    assert NoRepeatedFace(front);
    if f == last {
      assert f !in front;
    } else {
      CountOfDistinct(front, f);
    }
  }

  /** Quad k of the index buffer is the two triangles over vertices
      4k .. 4k+3 in the fixed pattern. */
  lemma {:induction false} TrianglePattern(n: nat, k: nat)
    requires k < n
    ensures forall j :: 0 <= j < 6 ==> MeshTriangles(n)[6 * k + j] == QuadIndices(4 * k)[j]
  {
    if k < n - 1 {
      TrianglePattern(n - 1, k);
    }
  }

  /** Vertex 4k + j of the vertex buffer is corner j of quad k, so the two
      triangles of quad k span exactly that quad's four corners. */
  lemma {:induction false} VertexOfQuad(cfg: WorldConfig, faces: seq<Face>, k: nat, j: nat)
    requires ValidConstants(cfg.data) && FacesWellFormed(cfg, faces)
    requires k < |faces| && j < 4
    ensures MeshVertices(cfg, faces)[4 * k + j] == Corner(cfg.data, faces[k].pos, faces[k].dir, j)
  {
    var prefix := faces[..|faces| - 1];
    if k < |faces| - 1 {
      VertexOfQuad(cfg, prefix, k, j);
      assert prefix[k] == faces[k];
    }
  }

  lemma RowBelowAtlasSize(n: int, id: int)
    requires n > 0 && 0 <= id < n * n
    ensures id / n < n
  {
  }

  /** a/n lies in the unit interval for 0 <= a <= n. */
  lemma ScaledInUnit(a: int, n: int)
    requires 0 <= a <= n && n > 0
    ensures 0.0 <= a as real * (1.0 / n as real) <= 1.0
  {
    var s := 1.0 / n as real;
    assert n as real * s == 1.0;
    assert (n - a) as real * s >= 0.0;
  }

  /** The origin of tile (col, row) of an n-by-n atlas and the opposite
      corner lie in the unit square. */
  lemma TileOriginBounds(n: int, col: int, row: int)
    requires n > 0 && 0 <= col < n && 0 <= row < n
    ensures var s := 1.0 / n as real;
            var x := col as real * s;
            var y := 1.0 - row as real * s - s;
            && 0.0 <= x && x + s <= 1.0
            && 0.0 <= y && y + s <= 1.0
  {
    var s := 1.0 / n as real;
    ScaledInUnit(col + 1, n);
    ScaledInUnit(row, n);
    ScaledInUnit(row + 1, n);
    assert col as real * s + s == (col + 1) as real * s;
    assert row as real * s + s == (row + 1) as real * s;
  }

  /** All four corners of tile (col, row) of an n-by-n atlas lie in the unit
      square. */
  lemma TileInUnitSquare(n: int, col: int, row: int)
    requires n > 0 && 0 <= col < n && 0 <= row < n
    ensures forall c :: c in TileCornersAt(n, col, row) ==> 0.0 <= c.u <= 1.0 && 0.0 <= c.v <= 1.0
  {
    TileOriginBounds(n, col, row);
    var s := 1.0 / n as real;
    var x := col as real * s;
    var y := 1.0 - row as real * s - s;
    var corners := TileCornersAt(n, col, row);
    assert corners[0] == Uv(x, y);
    assert corners == [corners[0], corners[1], corners[2], corners[3]];
  }

  /** For an id inside the atlas the tile is (id mod n, id div n), and both
      lie in 0 .. n-1. */
  lemma AtlasTileInRange(n: int, id: int)
    requires n > 0 && 0 <= id < n * n
    ensures AtlasTile(n, id) == (id % n, id / n)
    ensures 0 <= AtlasTile(n, id).0 < n && 0 <= AtlasTile(n, id).1 < n
  {
    var tile := AtlasTile(n, id);
    assert tile == (id % n, id / n);
    RowBelowAtlasSize(n, id);
    QuotientNonNegative(n, id);
  }

  lemma QuotientNonNegative(n: int, id: int)
    requires n > 0 && 0 <= id
    ensures 0 <= id / n && 0 <= id % n < n
  {
  }

  /** For an id inside the atlas, all four texture coordinates lie in the
      unit square. */
  lemma TileCornersInUnitSquare(n: int, id: int)
    requires n > 0 && 0 <= id < n * n
    ensures forall c :: c in TileCorners(n, id) ==> 0.0 <= c.u <= 1.0 && 0.0 <= c.v <= 1.0
  {
    AtlasTileInRange(n, id);
    var tile := AtlasTile(n, id);
    TileInUnitSquare(n, tile.0, tile.1);
  }
}
