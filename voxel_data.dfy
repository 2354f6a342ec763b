/** Shared values of the voxel engine: block ids, integer positions, chunk
    coordinates, the engine's configuration constants (chunk width and height,
    world size, view distance, texture atlas size and the face tables), and
    the integer arithmetic of the host language. */
module VoxelData {

  /** A block id as stored in a chunk's voxel map. */
  newtype byte = x: int | 0 <= x < 256

  datatype Option<T> = None | Some(value: T)

  /** An integer block position, chunk-local or in world space. */
  datatype Vec3 = Vec3(x: int, y: int, z: int) {
    function Plus(o: Vec3): Vec3 {
      Vec3(x + o.x, y + o.y, z + o.z)
    }
  }

  /** A floating-point position such as the player's, kept exact as reals. */
  datatype Position = Position(x: real, y: real, z: real)

  /** A chunk's position in the world grid, in chunks. */
  datatype ChunkCoord = ChunkCoord(x: int, z: int) {
    /** Field-wise equality; `None` stands for a null argument. */
    function Equals(other: Option<ChunkCoord>): (same: bool)
      ensures same <==> other == Some(this)
    {
      match other
      case None => false
      case Some(o) => o.x == x && o.z == z
    }
  }

  lemma EqualsIsReflexiveAndSymmetric(a: ChunkCoord, b: ChunkCoord)
    ensures a.Equals(Some(a))
    ensures a.Equals(Some(b)) <==> b.Equals(Some(a))
    ensures !a.Equals(None)
  {
  }

  /** The engine's static configuration: the chunk dimensions, the world size,
      the view distance, the texture atlas size, the six neighbour offsets
      checked for each face, the cube's corner table and the per-face table of
      four corner indices. */
  datatype Constants = Constants(
    chunkWidth: int,
    chunkHeight: int,
    worldSizeInChunks: int,
    worldSizeInVoxels: int,
    viewDistanceInChunks: int,
    textureAtlasSizeInBlocks: int,
    faceCheckers: seq<Vec3>,
    voxelVerts: seq<Vec3>,
    voxelTris: seq<seq<int>>)

  predicate ValidConstants(vd: Constants) {
    && vd.chunkWidth > 0
    && vd.chunkHeight > 0
    && vd.worldSizeInChunks > 0
    && vd.viewDistanceInChunks >= 0
    && vd.textureAtlasSizeInBlocks > 0
    && |vd.faceCheckers| == 6
    && |vd.voxelTris| == 6
    && (forall p :: 0 <= p < 6 ==> |vd.voxelTris[p]| == 4)
    && (forall p, k :: 0 <= p < 6 && 0 <= k < 4 ==> 0 <= vd.voxelTris[p][k] < |vd.voxelVerts|)
  }

  /** The side of one atlas tile in texture coordinates. */
  function NormalizedBlockTextureSize(vd: Constants): (s: real)
    requires vd.textureAtlasSizeInBlocks > 0
    ensures s > 0.0 && s * vd.textureAtlasSizeInBlocks as real == 1.0
  {
    1.0 / vd.textureAtlasSizeInBlocks as real
  }

  /** Integer division as the host language does it: the quotient is rounded
      toward zero, so the remainder takes the sign of the dividend. */
  function TruncDiv(a: int, b: int): (q: int)
    requires b > 0
    ensures 0 <= a ==> 0 <= q && 0 <= a - q * b < b
    ensures a < 0 ==> q <= 0 && -b < a - q * b <= 0
  {
    if a >= 0 then a / b else -((-a) / b)
  }

  lemma ConcatAssoc<T>(a: seq<T>, b: seq<T>, c: seq<T>)
    ensures a + b + c == a + (b + c)
  {
  }

  /** The cast from a float to an int: truncation toward zero. */
  function Truncate(r: real): (t: int)
    ensures 0.0 <= r ==> t as real <= r < t as real + 1.0
    ensures r < 0.0 ==> t as real - 1.0 < r <= t as real
  {
    if r >= 0.0 then r.Floor else -((-r).Floor)
  }
}
