/** Tree generation: the list of block modifications that plants a tree. */
module Structure {
  import opened VoxelData

  /** One pending block change: place block `id` at `position`. */
  datatype VoxelMod = VoxelMod(position: Position, id: byte)

  const TrunkBlock: byte := 6
  const LeavesBlock: byte := 11

  /** The trunk height: the noise-scaled maximum, cast to an int, but never
      less than the minimum. `sample` is the Perlin noise value at the tree's
      column, taken as a parameter. */
  function TrunkHeight(minTrunkHeight: int, maxTrunkHeight: int, sample: real): (h: int)
    ensures h >= minTrunkHeight
    ensures h == minTrunkHeight || h == Truncate(maxTrunkHeight as real * sample)
    ensures h >= Truncate(maxTrunkHeight as real * sample)
  {
    var h := Truncate(maxTrunkHeight as real * sample);
    if h < minTrunkHeight then minTrunkHeight else h
  }

  /** The block change `i` levels above `position`. */
  function ModAbove(position: Position, i: int, id: byte): VoxelMod {
    VoxelMod(Position(position.x, position.y + i as real, position.z), id)
  }

  /** Builds the tree's modifications in the order they are to be applied
      (first in, first out): one trunk block per level from the base upward,
      then one leaves block on top. A height that comes out negative plants
      no trunk, and the leaves then sit below `position`. */
  method MakeTree(position: Position, minTrunkHeight: int, maxTrunkHeight: int, sample: real)
    returns (queue: seq<VoxelMod>)
    ensures var height := TrunkHeight(minTrunkHeight, maxTrunkHeight, sample);
            var trunk := if height < 0 then 0 else height;
            && |queue| == trunk + 1
            && (forall i :: 0 <= i < trunk ==> queue[i] == ModAbove(position, i, TrunkBlock))
            && queue[trunk] == ModAbove(position, height, LeavesBlock)
    ensures forall m :: m in queue ==> m.position.x == position.x && m.position.z == position.z
    ensures forall i, j :: 0 <= i < j < |queue| ==> queue[i].position.y < queue[j].position.y
  {
    queue := [];
    var height := Truncate(maxTrunkHeight as real * sample);
    if height < minTrunkHeight {
      height := minTrunkHeight;
    }
    var i := 0;
    while i < height
      invariant 0 <= i <= if height < 0 then 0 else height
      invariant |queue| == i
      invariant forall k :: 0 <= k < i ==> queue[k] == ModAbove(position, k, TrunkBlock)
    {
      queue := queue + [ModAbove(position, i, TrunkBlock)];
      i := i + 1;
    }
    queue := queue + [ModAbove(position, height, LeavesBlock)];
  }
}
