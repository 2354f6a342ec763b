/** The pure part of World.cs: the block registry entry and its per-face
    texture lookup, the world configuration, and the layered terrain
    classifier GetVoxel (bounds, bedrock, grass/dirt/air/stone relative to a
    noise-driven terrain height, then the ore-lode override on stone). */
module Terrain {
  import opened VoxelData

  /** One registry entry: whether the block is solid and the atlas tile of
      each face (back, front, top, bottom, left, right). */
  datatype BlockType = BlockType(
    blockName: string,
    isSolid: bool,
    backFaceTexture: int,
    frontFaceTexture: int,
    topFaceTexture: int,
    bottomFaceTexture: int,
    leftFaceTexture: int,
    rightFaceTexture: int)
  {
    /** The six face textures in face-index order. */
    function FaceTextures(): seq<int> {
      [backFaceTexture, frontFaceTexture, topFaceTexture, bottomFaceTexture, leftFaceTexture, rightFaceTexture]
    }

    /** The atlas tile of face `faceTexture`; an index outside 0..5 gives 0. */
    function GetTexutureID(faceTexture: int): (id: int)
      ensures 0 <= faceTexture < 6 ==> id == FaceTextures()[faceTexture]
      ensures (faceTexture < 0 || 6 <= faceTexture) ==> id == 0
    {
      match faceTexture
      case 0 => backFaceTexture
      case 1 => frontFaceTexture
      case 2 => topFaceTexture
      case 3 => bottomFaceTexture
      case 4 => leftFaceTexture
      case 5 => rightFaceTexture
      case _ => 0
    }
  }

  /** An ore vein rule: inside the open height band (minHeight, maxHeight)
      and where the 3D noise test holds, stone becomes `blockID`. */
  datatype Lode = Lode(
    blockID: byte,
    minHeight: int,
    maxHeight: int,
    scale: real,
    threshold: real,
    noiseOffset: real)

  datatype BiomeAttributes = BiomeAttributes(
    solidGroundHeight: int,
    terrainHeight: int,
    terrainScale: real,
    lodes: seq<Lode>)

  /** The noise generator, deterministic and otherwise unknown:
      `perlin2(x, z, offset, scale)` is the 2D sample and
      `perlin3(position, offset, scale, threshold)` the 3D test. */
  datatype Noise = Noise(
    perlin2: (int, int, real, real) -> real,
    perlin3: (Vec3, real, real, real) -> bool)

  /** Everything GetVoxel and the mesh builder read from the world; none of
      it changes after start-up. */
  datatype WorldConfig = WorldConfig(
    data: Constants,
    biome: BiomeAttributes,
    noise: Noise,
    blockTypes: seq<BlockType>)

  /** The configuration the engine can run with: valid constants, and a
      registry entry for every id the terrain produces (so that looking a
      generated block up in `blockTypes` never goes out of range). */
  predicate WellFormed(cfg: WorldConfig) {
    && ValidConstants(cfg.data)
    && |cfg.blockTypes| >= 6
    && forall lode :: lode in cfg.biome.lodes ==> (lode.blockID as int) < |cfg.blockTypes|
  }

  predicate IsSolid(cfg: WorldConfig, id: byte)
    requires (id as int) < |cfg.blockTypes|
  {
    cfg.blockTypes[id].isSolid
  }

  /** Whether a position lies in the world's box of voxels: every axis from
      0, x and z below the world size in voxels, y below the chunk height. */
  function IsVoxelInWorld(vd: Constants, pos: Vec3): (inside: bool)
    ensures inside <==> (0 <= pos.x < vd.worldSizeInVoxels) && (0 <= pos.y < vd.chunkHeight)
                        && (0 <= pos.z < vd.worldSizeInVoxels)
  {
    && 0 <= pos.x < vd.worldSizeInVoxels
    && 0 <= pos.y < vd.chunkHeight
    && 0 <= pos.z < vd.worldSizeInVoxels
  }

  /** The surface height of column (x, z): the noise sample scaled by the
      biome's terrain height, rounded down, above the solid ground height. */
  function TerrainHeight(cfg: WorldConfig, x: int, z: int): int {
    var sample := cfg.noise.perlin2(x, z, 0.0, cfg.biome.terrainScale);
    (cfg.biome.terrainHeight as real * sample).Floor + cfg.biome.solidGroundHeight
  }

  /** The block before the ore pass: air outside the world, bedrock at y = 0,
      grass on the surface, three layers of dirt below it, air above it and
      stone further down. */
  function BaseBlock(cfg: WorldConfig, pos: Vec3): byte {
    if !IsVoxelInWorld(cfg.data, pos) then 0
    else if pos.y == 0 then 1
    else
      var h := TerrainHeight(cfg, pos.x, pos.z);
      if pos.y == h then 3
      else if pos.y < h && pos.y > h - 4 then 5
      else if pos.y > h then 0
      else 2
  }

  /** The surface lies in the unit band above the scaled noise sample: the
      scaled sample, rounded down, plus the solid ground height. */
  lemma TerrainHeightIsFloor(cfg: WorldConfig, x: int, z: int)
    ensures var h := TerrainHeight(cfg, x, z);
            var scaled := cfg.biome.terrainHeight as real * cfg.noise.perlin2(x, z, 0.0, cfg.biome.terrainScale);
            (h - cfg.biome.solidGroundHeight) as real <= scaled < (h - cfg.biome.solidGroundHeight + 1) as real
  {
  }

  /** The layer pass yields air, bedrock, stone, grass or dirt; each one
      exactly on its own part of the column. */
  lemma BaseBlockLayers(cfg: WorldConfig, pos: Vec3)
    ensures var b := BaseBlock(cfg, pos);
            b == 0 || b == 1 || b == 2 || b == 3 || b == 5
    ensures var b := BaseBlock(cfg, pos);
            var inside := IsVoxelInWorld(cfg.data, pos);
            var h := TerrainHeight(cfg, pos.x, pos.z);
            && (b == 1 <==> inside && pos.y == 0)
            && (b == 0 <==> !inside || (pos.y != 0 && pos.y > h))
            && (b == 3 <==> inside && pos.y != 0 && pos.y == h)
            && (b == 5 <==> inside && pos.y != 0 && h - 4 < pos.y < h)
            && (b == 2 <==> inside && pos.y != 0 && pos.y <= h - 4)
  {
  }

  predicate LodeMatches(noise: Noise, pos: Vec3, lode: Lode) {
    && pos.y > lode.minHeight
    && pos.y < lode.maxHeight
    && noise.perlin3(pos, lode.noiseOffset, lode.scale, lode.threshold)
  }

  /** The block after applying `lodes`, in order, to `base`. The result is the
      base or the id of some lode that matches. */
  function LodesApplied(noise: Noise, pos: Vec3, lodes: seq<Lode>, base: byte): (v: byte)
    ensures v == base || exists i :: 0 <= i < |lodes| && LodeMatches(noise, pos, lodes[i]) && v == lodes[i].blockID
    decreases |lodes|
  {
    if |lodes| == 0 then base
    else
      var last := lodes[|lodes| - 1];
      var before := LodesApplied(noise, pos, lodes[..|lodes| - 1], base);
      if LodeMatches(noise, pos, last) then last.blockID else before
  }

  /** The block id at a world position; in a well-formed configuration it
      always has a registry entry. */
  function VoxelAt(cfg: WorldConfig, pos: Vec3): (id: byte)
    ensures WellFormed(cfg) ==> (id as int) < |cfg.blockTypes|
  {
    var base := BaseBlock(cfg, pos);
    if base == 2 then LodesApplied(cfg.noise, pos, cfg.biome.lodes, 2) else base
  }

  /** The terrain produces air, bedrock, stone, grass or dirt, or the id of
      one of the biome's lodes, and nothing else. */
  lemma VoxelAtValues(cfg: WorldConfig, pos: Vec3)
    ensures var id := VoxelAt(cfg, pos);
            || id == 0 || id == 1 || id == 2 || id == 3 || id == 5
            || exists lode :: lode in cfg.biome.lodes && id == lode.blockID
  {
    var id := VoxelAt(cfg, pos);
    if id !in {0, 1, 2, 3, 5} {
      var lodes := cfg.biome.lodes;
      var i :| 0 <= i < |lodes| && LodeMatches(cfg.noise, pos, lodes[i]) && id == lodes[i].blockID;
      assert lodes[i] in lodes;
    }
  }

  /** GetVoxel as the engine runs it: the layer tests, then a loop over the
      lodes in which every match overwrites the value. */
  method GetVoxel(cfg: WorldConfig, pos: Vec3) returns (voxelValue: byte)
    ensures voxelValue == VoxelAt(cfg, pos)
  {
    var yPos := pos.y;
    if !IsVoxelInWorld(cfg.data, pos) {
      return 0;
    }
    if yPos == 0 {
      return 1;
    }
    var terrainHeight := TerrainHeight(cfg, pos.x, pos.z);
    if yPos == terrainHeight {
      voxelValue := 3;
    } else if yPos < terrainHeight && yPos > terrainHeight - 4 {
      voxelValue := 5;
    } else if yPos > terrainHeight {
      return 0;
    } else {
      voxelValue := 2;
    }
    if voxelValue == 2 {
      var lodes := cfg.biome.lodes;
      var i := 0;
      while i < |lodes|
        invariant 0 <= i <= |lodes|
        invariant voxelValue == LodesApplied(cfg.noise, pos, lodes[..i], 2)
      {
        var lode := lodes[i];
        if yPos > lode.minHeight && yPos < lode.maxHeight {
          if cfg.noise.perlin3(pos, lode.noiseOffset, lode.scale, lode.threshold) {
            voxelValue := lode.blockID;
          }
        }
        assert lodes[..i + 1][..i] == lodes[..i];
        i := i + 1;
      }
      assert lodes[..|lodes|] == lodes;
    }
  }

  /** The layers of the classifier: air outside the world, bedrock on the
      bottom layer whatever the terrain, then grass, dirt, air and stone (with
      its ore override) relative to the terrain height `h`. */
  lemma TerrainLayers(cfg: WorldConfig, pos: Vec3)
    ensures !IsVoxelInWorld(cfg.data, pos) ==> VoxelAt(cfg, pos) == 0
    ensures IsVoxelInWorld(cfg.data, pos) && pos.y == 0 ==> VoxelAt(cfg, pos) == 1
    ensures IsVoxelInWorld(cfg.data, pos) && pos.y != 0 ==>
      var h := TerrainHeight(cfg, pos.x, pos.z);
      && (pos.y == h ==> VoxelAt(cfg, pos) == 3)
      && (h - 4 < pos.y < h ==> VoxelAt(cfg, pos) == 5)
      && (pos.y > h ==> VoxelAt(cfg, pos) == 0)
      && (pos.y <= h - 4 ==> VoxelAt(cfg, pos) == LodesApplied(cfg.noise, pos, cfg.biome.lodes, 2))
  {
  }

  predicate NoLaterMatch(noise: Noise, pos: Vec3, lodes: seq<Lode>, i: int) {
    forall j :: 0 <= j < |lodes| && i < j ==> !LodeMatches(noise, pos, lodes[j])
  }

  /** Lodes are applied without early exit, so the last matching lode decides;
      with no match the base block stays. */
  lemma {:induction false} LastMatchingLodeWins(noise: Noise, pos: Vec3, lodes: seq<Lode>, base: byte)
    ensures (forall j :: 0 <= j < |lodes| ==> !LodeMatches(noise, pos, lodes[j])) ==>
              LodesApplied(noise, pos, lodes, base) == base
    ensures forall i :: 0 <= i < |lodes| && LodeMatches(noise, pos, lodes[i]) && NoLaterMatch(noise, pos, lodes, i) ==>
              LodesApplied(noise, pos, lodes, base) == lodes[i].blockID
    decreases |lodes|
  {
    if |lodes| > 0 {
      var prefix := lodes[..|lodes| - 1];
      LastMatchingLodeWins(noise, pos, prefix, base);
      assert forall j :: 0 <= j < |prefix| ==> prefix[j] == lodes[j];
    }
  }

  /** Only stone is ever overridden: a block that differs from the layer
      classification was stone, lies in a lode's height band and carries that
      lode's id. Grass, dirt, air and bedrock stay as classified. */
  lemma OnlyStoneIsOverridden(cfg: WorldConfig, pos: Vec3)
    ensures VoxelAt(cfg, pos) != BaseBlock(cfg, pos) ==>
      && BaseBlock(cfg, pos) == 2
      && exists lode :: lode in cfg.biome.lodes && lode.minHeight < pos.y < lode.maxHeight
                        && VoxelAt(cfg, pos) == lode.blockID
    ensures BaseBlock(cfg, pos) != 2 ==> VoxelAt(cfg, pos) == BaseBlock(cfg, pos)
  {
    if VoxelAt(cfg, pos) != BaseBlock(cfg, pos) {
      var lodes := cfg.biome.lodes;
      var i :| 0 <= i < |lodes| && LodeMatches(cfg.noise, pos, lodes[i]) && VoxelAt(cfg, pos) == lodes[i].blockID;
      assert lodes[i] in lodes;
    }
  }
}
