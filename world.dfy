/** The stateful part of World.cs: the grid of chunks, the list of active
    chunk coordinates, chunk creation, the start-up world generation, the
    view-distance update and the player's solid-block probe. */
module WorldState {
  import opened VoxelData
  import opened Terrain
  import opened Meshing
  import opened ChunkMesh
  import opened ChunkLists

  /** The exceptions the host runtime raises where the engine does not
      check: an array index out of range, or a member access on null. */
  datatype Fault = IndexOutOfRange | NullReference

  datatype Result<T> = Ok(value: T) | Err(fault: Fault)

  /** The chunk holding a floating-point position: floor division of x and z
      by the chunk width. */
  function GetChunkCoordFromVector3(vd: Constants, pos: Position): (c: ChunkCoord)
    requires vd.chunkWidth > 0
    ensures c.x as real * vd.chunkWidth as real <= pos.x < (c.x + 1) as real * vd.chunkWidth as real
    ensures c.z as real * vd.chunkWidth as real <= pos.z < (c.z + 1) as real * vd.chunkWidth as real
  {
    var w := vd.chunkWidth as real;
    var c := ChunkCoord((pos.x / w).Floor, (pos.z / w).Floor);
    FloorDivBounds(pos.x, w);
    FloorDivBounds(pos.z, w);
    c
  }

  lemma FloorDivBounds(v: real, w: real)
    requires w > 0.0
    ensures (v / w).Floor as real * w <= v < ((v / w).Floor + 1) as real * w
  {
    var q := v / w;
    var f := q.Floor;
    assert q * w == v;
    MulMonotone(f as real, q, w);
    assert q < f as real + 1.0;
    assert (f + 1) as real == f as real + 1.0;
    MulStrict(q, (f + 1) as real, w);
    assert q * w < (f + 1) as real * w;
    assert v < (f + 1) as real * w;
  }

  lemma MulMonotone(a: real, b: real, w: real)
    requires a <= b && w > 0.0
    ensures a * w <= b * w
  {
  }

  lemma MulStrict(a: real, b: real, w: real)
    requires a < b && w > 0.0
    ensures a * w < b * w
  {
  }

  /** Chunk coordinates whose slot the engine uses: strictly inside the
      grid, so the border ring of slots is never filled by the view-distance
      update. Every accepted coordinate indexes the grid in range. */
  function IsChunkInWorld(vd: Constants, c: ChunkCoord): (inside: bool)
    ensures inside ==> 0 <= c.x < vd.worldSizeInChunks && 0 <= c.z < vd.worldSizeInChunks
    ensures inside ==> c.x != 0 && c.z != 0 && c.x != vd.worldSizeInChunks - 1 && c.z != vd.worldSizeInChunks - 1
  {
    c.x > 0 && c.x < vd.worldSizeInChunks - 1 && c.z > 0 && c.z < vd.worldSizeInChunks - 1
  }

  /** One coordinate of a probe split into chunk index and offset in the
      chunk, with the host language's truncating division. For a
      non-negative coordinate the offset lies in 0 .. width-1; for a
      negative one it is not positive. */
  function SplitCoordinate(v: int, w: int): (parts: (int, int))
    requires w > 0
    ensures v == parts.0 * w + parts.1
    ensures 0 <= v ==> 0 <= parts.0 && 0 <= parts.1 < w
    ensures v < 0 ==> parts.0 <= 0 && -w < parts.1 <= 0
  {
    var chunk := TruncDiv(v, w);
    (chunk, v - chunk * w)
  }

  /** The square of chunk coordinates within view distance of `center`:
      half-open, from center - V up to center + V - 1 on each axis. */
  predicate InWindow(vd: Constants, center: ChunkCoord, c: ChunkCoord) {
    && center.x - vd.viewDistanceInChunks <= c.x < center.x + vd.viewDistanceInChunks
    && center.z - vd.viewDistanceInChunks <= c.z < center.z + vd.viewDistanceInChunks
  }

  /** The coordinates among `cells`, in scan order, that the view-distance
      update appends to the active list: those in the world whose chunk was
      not already active (`wasActive`). */
  function Activated(vd: Constants, cells: seq<ChunkCoord>, wasActive: set<ChunkCoord>): seq<ChunkCoord>
    decreases |cells|
  {
    if |cells| == 0 then []
    else
      var c := cells[|cells| - 1];
      Activated(vd, cells[..|cells| - 1], wasActive) + (if IsChunkInWorld(vd, c) && c !in wasActive then [c] else [])
  }

  /** Scanning one more cell appends at most that cell. */
  lemma ActivatedStep(vd: Constants, cells: seq<ChunkCoord>, c: ChunkCoord, wasActive: set<ChunkCoord>)
    ensures Activated(vd, cells + [c], wasActive)
         == Activated(vd, cells, wasActive) + (if IsChunkInWorld(vd, c) && c !in wasActive then [c] else [])
  {
    assert (cells + [c])[..|cells|] == cells;
  }

  /** Scanning `a` and then `b` appends what scanning `a + b` appends. */
  lemma {:induction false} ActivatedConcat(vd: Constants, a: seq<ChunkCoord>, b: seq<ChunkCoord>, wasActive: set<ChunkCoord>)
    ensures Activated(vd, a + b, wasActive) == Activated(vd, a, wasActive) + Activated(vd, b, wasActive)
    decreases |b|
  {
    if |b| == 0 {
      assert a + b == a;
    } else {
      var b' := b[..|b| - 1];
      var c := b[|b| - 1];
      ActivatedConcat(vd, a, b', wasActive);
      assert a + b == (a + b') + [c];
      assert b == b' + [c];
      ActivatedStep(vd, a + b', c, wasActive);
      ActivatedStep(vd, b', c, wasActive);
    }
  }

  /** A coordinate is appended exactly when it was scanned, lies in the
      world and was not active before. */
  lemma {:induction false} ActivatedMembers(vd: Constants, cells: seq<ChunkCoord>, wasActive: set<ChunkCoord>)
    ensures forall c :: c in Activated(vd, cells, wasActive) <==> c in cells && IsChunkInWorld(vd, c) && c !in wasActive
    decreases |cells|
  {
    if |cells| > 0 {
      var front := cells[..|cells| - 1];
      ActivatedMembers(vd, front, wasActive);
      assert cells == front + [cells[|cells| - 1]];
    }
  }

  /** Activated for the cells (x, zLo) .. (x, z - 1), counted by z. */
  function RowActivated(vd: Constants, x: int, zLo: int, z: int, wasActive: set<ChunkCoord>): seq<ChunkCoord>
    decreases z - zLo
  {
    if z <= zLo then []
    else
      var c := ChunkCoord(x, z - 1);
      RowActivated(vd, x, zLo, z - 1, wasActive) + (if IsChunkInWorld(vd, c) && c !in wasActive then [c] else [])
  }

  /** Activated for the rows xLo .. x - 1 of the window, counted by x. */
  function WindowActivated(vd: Constants, xLo: int, x: int, zLo: int, zHi: int, wasActive: set<ChunkCoord>): seq<ChunkCoord>
    decreases x - xLo
  {
    if x <= xLo then [] else WindowActivated(vd, xLo, x - 1, zLo, zHi, wasActive) + RowActivated(vd, x - 1, zLo, zHi, wasActive)
  }

  lemma {:induction false} RowActivatedIsActivated(vd: Constants, x: int, zLo: int, z: int, wasActive: set<ChunkCoord>)
    requires zLo <= z
    ensures RowActivated(vd, x, zLo, z, wasActive) == Activated(vd, WindowRow(x, zLo, z), wasActive)
    decreases z - zLo
  {
    if zLo < z {
      RowActivatedIsActivated(vd, x, zLo, z - 1, wasActive);
      WindowRowStep(x, zLo, z - 1);
      ActivatedStep(vd, WindowRow(x, zLo, z - 1), ChunkCoord(x, z - 1), wasActive);
    }
  }

  lemma {:induction false} WindowActivatedIsActivated(vd: Constants, xLo: int, x: int, zLo: int, zHi: int, wasActive: set<ChunkCoord>)
    requires xLo <= x && zLo <= zHi
    ensures WindowActivated(vd, xLo, x, zLo, zHi, wasActive) == Activated(vd, WindowCells(xLo, x, zLo, zHi), wasActive)
    decreases x - xLo
  {
    if xLo < x {
      WindowActivatedIsActivated(vd, xLo, x - 1, zLo, zHi, wasActive);
      RowActivatedIsActivated(vd, x - 1, zLo, zHi, wasActive);
      WindowCellsStep(xLo, x - 1, zLo, zHi);
      ActivatedConcat(vd, WindowCells(xLo, x - 1, zLo, zHi), WindowRow(x - 1, zLo, zHi), wasActive);
    }
  }

  /** A coordinate of the old active list that lies outside the view window
      is never removed from the copy, so the view-distance update switches
      its chunk off. */
  lemma OutsideWindowSurvives(vd: Constants, s: seq<ChunkCoord>, center: ChunkCoord, e: ChunkCoord)
    requires e in s && !InWindow(vd, center, e)
    ensures var v := vd.viewDistanceInChunks;
            e in WindowSurvivors(s, center.x - v, center.x + v, center.z - v, center.z + v)
  {
    var v := vd.viewDistanceInChunks;
    if v >= 0 {
      UnscannedSurvivesWindow(s, center.x - v, center.x + v, center.z - v, center.z + v, e);
    }
  }

  /** What a slot of the chunk grid holds: nothing, or a chunk whose scene
      object is inactive or active. */
  datatype SlotState = Empty | Inactive | Active

  class World {
    const cfg: WorldConfig
    const chunks: array2<Chunk?>
    var activeChunk: seq<ChunkCoord>

    /** The grid is world-size square; every chunk in it sits at its own
        coordinate and was built from this world's configuration; every
        coordinate in the active list names a filled slot. */
    ghost predicate Valid()
      reads this, chunks
    {
      && WellFormed(cfg)
      && chunks.Length0 == cfg.data.worldSizeInChunks
      && chunks.Length1 == cfg.data.worldSizeInChunks
      && (forall x, z :: 0 <= x < chunks.Length0 && 0 <= z < chunks.Length1 && chunks[x, z] != null ==>
            chunks[x, z].coord == ChunkCoord(x, z) && chunks[x, z].cfg == cfg)
      && (forall c :: c in activeChunk ==> Filled(c))
    }

    ghost predicate Filled(c: ChunkCoord)
      reads chunks
    {
      0 <= c.x < chunks.Length0 && 0 <= c.z < chunks.Length1 && chunks[c.x, c.z] != null
    }

    /** An empty world: no chunk yet and no active coordinate. */
    constructor (cfg: WorldConfig)
      requires WellFormed(cfg)
      ensures this.cfg == cfg && fresh(chunks)
      ensures Valid() && activeChunk == []
      ensures forall x, z :: 0 <= x < chunks.Length0 && 0 <= z < chunks.Length1 ==> chunks[x, z] == null
    {
      this.cfg := cfg;
      chunks := new Chunk?[cfg.data.worldSizeInChunks, cfg.data.worldSizeInChunks]((x, z) => null);
      activeChunk := [];
    }

    /** Builds the chunk at (x, z) into its slot and appends its coordinate
        to the active list. */
    method CreateNewChunk(x: int, z: int)
      requires Valid()
      requires 0 <= x < chunks.Length0 && 0 <= z < chunks.Length1
      modifies this, chunks
      ensures Valid()
      ensures chunks[x, z] != null && fresh(chunks[x, z]) && chunks[x, z].isActive && chunks[x, z].Built()
      ensures forall x', z' :: 0 <= x' < chunks.Length0 && 0 <= z' < chunks.Length1 && (x' != x || z' != z) ==>
                chunks[x', z'] == old(chunks[x', z'])
      ensures activeChunk == old(activeChunk) + [ChunkCoord(x, z)]
    {
      var chunk := new Chunk(ChunkCoord(x, z), cfg);
      chunks[x, z] := chunk;
      activeChunk := activeChunk + [ChunkCoord(x, z)];
    }

    predicate InGrid(x: int, z: int) {
      0 <= x < chunks.Length0 && 0 <= z < chunks.Length1
    }

    ghost function Status(x: int, z: int): SlotState
      reads chunks, if InGrid(x, z) then {chunks[x, z]} else {}
    {
      if !InGrid(x, z) || chunks[x, z] == null then Empty
      else if chunks[x, z].isActive then Active
      else Inactive
    }

    /** The coordinates of the slots whose chunk is active. */
    ghost function ActiveCoords(): set<ChunkCoord>
      reads chunks, Loaded()
    {
      set a, b | 0 <= a < chunks.Length0 && 0 <= b < chunks.Length1 && chunks[a, b] != null && chunks[a, b].isActive
        :: ChunkCoord(a, b)
    }

    lemma ActiveCoordsMembers()
      ensures forall a, b :: InGrid(a, b) ==>
                (ChunkCoord(a, b) in ActiveCoords() <==> chunks[a, b] != null && chunks[a, b].isActive)
    {
    }

    /** The chunks currently in the grid. */
    ghost function Loaded(): set<Chunk?>
      reads chunks
    {
      set x, z | 0 <= x < chunks.Length0 && 0 <= z < chunks.Length1 :: chunks[x, z]
    }

    /** Start-up generation: creates every chunk of the square of side
        2 * view distance centred on the middle of the grid, row by row. */
    method GenrateWorld()
      requires Valid()
      requires cfg.data.viewDistanceInChunks <= cfg.data.worldSizeInChunks / 2
      modifies this, chunks
      ensures Valid()
      ensures var lo := cfg.data.worldSizeInChunks / 2 - cfg.data.viewDistanceInChunks;
              var hi := cfg.data.worldSizeInChunks / 2 + cfg.data.viewDistanceInChunks;
              && activeChunk == old(activeChunk) + WindowCells(lo, hi, lo, hi)
              && (forall a, b :: lo <= a < hi && lo <= b < hi ==>
                    chunks[a, b] != null && fresh(chunks[a, b]) && chunks[a, b].isActive && chunks[a, b].Built())
              && (forall a, b :: 0 <= a < chunks.Length0 && 0 <= b < chunks.Length1 && !(lo <= a < hi && lo <= b < hi) ==>
                    chunks[a, b] == old(chunks[a, b]))
    {
      var lo := cfg.data.worldSizeInChunks / 2 - cfg.data.viewDistanceInChunks;
      var hi := cfg.data.worldSizeInChunks / 2 + cfg.data.viewDistanceInChunks;
      var x := lo;
      while x < hi
        invariant lo <= x <= hi
        invariant Valid()
        invariant activeChunk == old(activeChunk) + WindowCells(lo, x, lo, hi)
        invariant forall a, b :: lo <= a < x && lo <= b < hi ==>
                    chunks[a, b] != null && fresh(chunks[a, b]) && chunks[a, b].isActive
        invariant forall a, b :: lo <= a < x && lo <= b < hi ==> chunks[a, b] != null && chunks[a, b].Built()
        invariant forall a, b :: 0 <= a < chunks.Length0 && 0 <= b < chunks.Length1 && !(lo <= a < x && lo <= b < hi) ==>
                    chunks[a, b] == old(chunks[a, b])
      {
        WindowCellsStep(lo, x, lo, hi);
        ConcatAssoc(old(activeChunk), WindowCells(lo, x, lo, hi), WindowRow(x, lo, hi));
        label L:
        CreateRow(x, lo, hi);
        forall a, b | lo <= a <= x && lo <= b < hi
          ensures chunks[a, b] != null && fresh(chunks[a, b]) && chunks[a, b].isActive
          ensures chunks[a, b].Built()
        {
          if a < x {
            assert chunks[a, b] == old@L(chunks[a, b]);
          }
        }
        x := x + 1;
      }
    }

    /** The inner loop of GenrateWorld: creates the chunks (x, zLo) ..
        (x, zHi - 1). */
    method CreateRow(x: int, zLo: int, zHi: int)
      requires Valid()
      requires 0 <= x < chunks.Length0 && 0 <= zLo <= zHi <= chunks.Length1
      modifies this, chunks
      ensures Valid()
      ensures activeChunk == old(activeChunk) + WindowRow(x, zLo, zHi)
      ensures forall b :: zLo <= b < zHi ==> chunks[x, b] != null && fresh(chunks[x, b]) && chunks[x, b].isActive && chunks[x, b].Built()
      ensures forall a, b :: 0 <= a < chunks.Length0 && 0 <= b < chunks.Length1 && !(a == x && zLo <= b < zHi) ==>
                chunks[a, b] == old(chunks[a, b])
    {
      var z := zLo;
      ghost var done: seq<ChunkCoord> := [];
      while z < zHi
        invariant zLo <= z <= zHi
        invariant Valid()
        invariant done == WindowRow(x, zLo, z)
        invariant activeChunk == old(activeChunk) + done
        invariant forall b :: zLo <= b < z ==> chunks[x, b] != null && fresh(chunks[x, b]) && chunks[x, b].isActive
        invariant forall b :: zLo <= b < z ==> chunks[x, b] != null && chunks[x, b].Built()
        invariant forall a, b :: 0 <= a < chunks.Length0 && 0 <= b < chunks.Length1 && !(a == x && zLo <= b < z) ==>
                    chunks[a, b] == old(chunks[a, b])
      {
        WindowRowStep(x, zLo, z);
        ConcatAssoc(old(activeChunk), done, [ChunkCoord(x, z)]);
        label L:
        CreateNewChunk(x, z);
        forall b | zLo <= b < z
          ensures chunks[x, b] != null && fresh(chunks[x, b]) && chunks[x, b].isActive
          ensures chunks[x, b].Built()
        {
          assert chunks[x, b] == old@L(chunks[x, b]);
        }
        done := done + [ChunkCoord(x, z)];
        z := z + 1;
      }
    }

    /** The activation step of the view-distance scan for an in-world cell:
        an empty slot gets a new chunk, an inactive chunk is switched on and
        its coordinate appended to the active list, an active one is left
        alone. */
    method ActivateChunk(x: int, z: int) returns (ghost added: seq<ChunkCoord>)
      requires Valid() && InGrid(x, z)
      modifies this, chunks, {chunks[x, z]}`isActive
      ensures Valid()
      ensures chunks[x, z] != null && chunks[x, z].isActive
      ensures old(chunks[x, z]) != null ==> chunks[x, z] == old(chunks[x, z])
      ensures old(chunks[x, z]) == null ==> fresh(chunks[x, z]) && chunks[x, z].Built()
      ensures added == if old(chunks[x, z] != null && chunks[x, z].isActive) then [] else [ChunkCoord(x, z)]
      ensures activeChunk == old(activeChunk) + added
      ensures forall a, b :: InGrid(a, b) && (a != x || b != z) ==>
                chunks[a, b] == old(chunks[a, b]) && (chunks[a, b] != null ==> chunks[a, b].isActive == old(chunks[a, b].isActive))
    {
      if chunks[x, z] == null {
        label L:
        CreateNewChunk(x, z);
        forall a, b | InGrid(a, b) && (a != x || b != z)
          ensures chunks[a, b] == old(chunks[a, b]) && (chunks[a, b] != null ==> chunks[a, b].isActive == old(chunks[a, b].isActive))
        {
          assert chunks[a, b] == old@L(chunks[a, b]);
        }
        added := [ChunkCoord(x, z)];
      } else if !chunks[x, z].isActive {
        chunks[x, z].isActive := true;
        activeChunk := activeChunk + [ChunkCoord(x, z)];
        added := [ChunkCoord(x, z)];
      } else {
        added := [];
      }
    }

    /** The inner loop of CheckViewDistance for row x: every in-world cell
        (x, zLo) .. (x, zHi - 1) is activated, and for every cell the removal
        loop runs on the list of previously active chunks. Cells that are not
        activated keep their chunk and its state; an activated cell keeps
        its chunk, or gets a new one if it had none. */
    method ScanRow(x: int, zLo: int, zHi: int, prev: seq<ChunkCoord>, ghost wasActive: set<ChunkCoord>)
        returns (rest: seq<ChunkCoord>, ghost added: seq<ChunkCoord>)
      requires Valid() && zLo <= zHi
      requires forall b :: zLo <= b < zHi && InGrid(x, b) ==>
                 (ChunkCoord(x, b) in wasActive <==> chunks[x, b] != null && chunks[x, b].isActive)
      modifies this, chunks, Loaded()`isActive
      ensures Valid()
      ensures activeChunk == old(activeChunk) + added
      ensures rest == RowSurvivors(prev, x, zLo, zHi)
      ensures added == RowActivated(cfg.data, x, zLo, zHi, wasActive)
      ensures forall a, b :: InGrid(a, b) && !(a == x && zLo <= b < zHi && IsChunkInWorld(cfg.data, ChunkCoord(a, b))) ==>
                chunks[a, b] == old(chunks[a, b]) && (chunks[a, b] != null ==> chunks[a, b].isActive == old(chunks[a, b].isActive))
      ensures forall b :: zLo <= b < zHi && IsChunkInWorld(cfg.data, ChunkCoord(x, b)) ==>
                chunks[x, b] != null && chunks[x, b].isActive && (old(chunks[x, b]) != null ==> chunks[x, b] == old(chunks[x, b]))
                && (old(chunks[x, b]) == null ==> fresh(chunks[x, b]))
    {
      rest := prev;
      added := [];
      var z := zLo;
      while z < zHi
        invariant zLo <= z <= zHi
        invariant Valid()
        invariant activeChunk == old(activeChunk) + added
        invariant rest == RowSurvivors(prev, x, zLo, z)
        invariant added == RowActivated(cfg.data, x, zLo, z, wasActive)
        invariant forall a, b :: InGrid(a, b) && !(a == x && zLo <= b < z && IsChunkInWorld(cfg.data, ChunkCoord(a, b))) ==>
                    chunks[a, b] == old(chunks[a, b]) && (chunks[a, b] != null ==> chunks[a, b].isActive == old(chunks[a, b].isActive))
        invariant forall b :: zLo <= b < z && IsChunkInWorld(cfg.data, ChunkCoord(x, b)) ==>
                    chunks[x, b] != null && chunks[x, b].isActive && (old(chunks[x, b]) != null ==> chunks[x, b] == old(chunks[x, b]))
                    && (old(chunks[x, b]) == null ==> fresh(chunks[x, b]))
      {
        if IsChunkInWorld(cfg.data, ChunkCoord(x, z)) {
          ghost var more;
          label L:
          more := ActivateChunk(x, z);
          ConcatAssoc(old(activeChunk), added, more);
          added := added + more;
          forall b | zLo <= b < z && IsChunkInWorld(cfg.data, ChunkCoord(x, b))
            ensures chunks[x, b] != null && chunks[x, b].isActive && (old(chunks[x, b]) != null ==> chunks[x, b] == old(chunks[x, b]))
                    && (old(chunks[x, b]) == null ==> fresh(chunks[x, b]))
          {
            assert chunks[x, b] == old@L(chunks[x, b]);
          }
        }
        rest := RemoveCell(rest, prev, x, zLo, z);
        z := z + 1;
      }
    }

    /** The outer loop of CheckViewDistance: the rows xLo .. xHi - 1, each
        scanned from zLo to zHi - 1. */
    method ScanWindow(xLo: int, xHi: int, zLo: int, zHi: int, prev: seq<ChunkCoord>)
        returns (rest: seq<ChunkCoord>, ghost added: seq<ChunkCoord>)
      requires Valid() && xLo <= xHi && zLo <= zHi
      modifies this, chunks, Loaded()`isActive
      ensures Valid()
      ensures activeChunk == old(activeChunk) + added
      ensures rest == WindowSurvivors(prev, xLo, xHi, zLo, zHi)
      ensures added == WindowActivated(cfg.data, xLo, xHi, zLo, zHi, old(ActiveCoords()))
      ensures forall a, b :: InGrid(a, b) && old(chunks[a, b]) != null ==> chunks[a, b] == old(chunks[a, b])
      ensures forall a, b :: InGrid(a, b) && old(chunks[a, b]) == null && chunks[a, b] != null ==> fresh(chunks[a, b])
      ensures forall a, b :: InGrid(a, b) ==>
                Status(a, b) == if xLo <= a < xHi && zLo <= b < zHi && IsChunkInWorld(cfg.data, ChunkCoord(a, b)) then Active
                                else old(Status(a, b))
    {
      ghost var wasActive := ActiveCoords();
      ActiveCoordsMembers();
      rest := prev;
      added := [];
      var x := xLo;
      while x < xHi
        invariant xLo <= x <= xHi
        invariant Valid()
        invariant activeChunk == old(activeChunk) + added
        invariant rest == WindowSurvivors(prev, xLo, x, zLo, zHi)
        invariant added == WindowActivated(cfg.data, xLo, x, zLo, zHi, wasActive)
        invariant forall a, b :: InGrid(a, b) && !(xLo <= a < x && zLo <= b < zHi && IsChunkInWorld(cfg.data, ChunkCoord(a, b))) ==>
                    chunks[a, b] == old(chunks[a, b]) && (chunks[a, b] != null ==> chunks[a, b].isActive == old(chunks[a, b].isActive))
        invariant forall a, b :: xLo <= a < x && zLo <= b < zHi && IsChunkInWorld(cfg.data, ChunkCoord(a, b)) ==>
                    chunks[a, b] != null && chunks[a, b].isActive && (old(chunks[a, b]) != null ==> chunks[a, b] == old(chunks[a, b]))
                    && (old(chunks[a, b]) == null ==> fresh(chunks[a, b]))
      {
        ghost var more;
        label L:
        assert WindowSurvivors(prev, xLo, x + 1, zLo, zHi) == RowSurvivors(rest, x, zLo, zHi);
        assert WindowActivated(cfg.data, xLo, x + 1, zLo, zHi, wasActive)
            == added + RowActivated(cfg.data, x, zLo, zHi, wasActive);
        rest, more := ScanRow(x, zLo, zHi, rest, wasActive);
        ConcatAssoc(old(activeChunk), added, more);
        added := added + more;
        x := x + 1;
        forall a, b | xLo <= a < x && zLo <= b < zHi && IsChunkInWorld(cfg.data, ChunkCoord(a, b))
          ensures chunks[a, b] != null && chunks[a, b].isActive && (old(chunks[a, b]) != null ==> chunks[a, b] == old(chunks[a, b]))
                  && (old(chunks[a, b]) == null ==> fresh(chunks[a, b]))
        {
          if a < x - 1 {
            assert chunks[a, b] == old@L(chunks[a, b]);
          }
        }
      }
    }

    /** The last loop of CheckViewDistance: switches off the chunk of every
        coordinate left in the list. */
    method DeactivateAll(list: seq<ChunkCoord>)
      requires Valid()
      requires forall c :: c in list ==> Filled(c)
      modifies Loaded()`isActive
      ensures forall a, b :: InGrid(a, b) ==>
                Status(a, b) == if ChunkCoord(a, b) in list then Inactive else old(Status(a, b))
    {
      var i := 0;
      while i < |list|
        invariant 0 <= i <= |list|
        invariant forall a, b :: InGrid(a, b) && chunks[a, b] != null ==>
                    chunks[a, b].isActive == (ChunkCoord(a, b) !in list[..i] && old(chunks[a, b].isActive))
      {
        var c := list[i];
        assert Filled(c);
        chunks[c.x, c.z].isActive := false;
        assert list[..i + 1] == list[..i] + [c];
        i := i + 1;
      }
      assert list[..i] == list;
      forall a, b | InGrid(a, b)
        ensures Status(a, b) == if ChunkCoord(a, b) in list then Inactive else old(Status(a, b))
      {
        if ChunkCoord(a, b) in list {
          assert Filled(ChunkCoord(a, b));
        }
      }
    }

    /** The view-distance update for a player at `playerPos`: the window
        update around the chunk the player stands in. The engine defines it
        but never calls it (the call in `Update` is commented out). */
    method CheckViewDistance(playerPos: Position) returns (ghost added: seq<ChunkCoord>)
      requires Valid()
      modifies this, chunks, Loaded()`isActive
      ensures Valid()
      ensures activeChunk == old(activeChunk) + added
      ensures var center := GetChunkCoordFromVector3(cfg.data, playerPos);
              var v := cfg.data.viewDistanceInChunks;
              && added == WindowActivated(cfg.data, center.x - v, center.x + v, center.z - v, center.z + v, old(ActiveCoords()))
              && forall a, b :: InGrid(a, b) ==>
                   Status(a, b) == if ChunkCoord(a, b) in WindowSurvivors(old(activeChunk), center.x - v, center.x + v, center.z - v, center.z + v)
                                   then Inactive
                                   else if InWindow(cfg.data, center, ChunkCoord(a, b)) && IsChunkInWorld(cfg.data, ChunkCoord(a, b))
                                   then Active
                                   else old(Status(a, b))
      ensures forall a, b :: InGrid(a, b) && old(chunks[a, b]) != null ==> chunks[a, b] == old(chunks[a, b])
    {
      var coord := GetChunkCoordFromVector3(cfg.data, playerPos);
      added := UpdateWindow(coord);
    }

    /** The body of the view-distance update once the player's chunk
        `center` is known, on the window of side 2 * view distance around
        it. Every in-world cell of the window ends active (created if its
        slot was empty, its coordinate appended to the active list if it was
        not active before), except that the chunks whose coordinates the
        removal loop leaves in the copy of the old active list are switched
        off; every other slot keeps its state. No chunk is ever replaced. */
    method UpdateWindow(center: ChunkCoord) returns (ghost added: seq<ChunkCoord>)
      requires Valid()
      modifies this, chunks, Loaded()`isActive
      ensures Valid()
      ensures activeChunk == old(activeChunk) + added
      ensures var v := cfg.data.viewDistanceInChunks;
              && added == WindowActivated(cfg.data, center.x - v, center.x + v, center.z - v, center.z + v, old(ActiveCoords()))
              && forall a, b :: InGrid(a, b) ==>
                   Status(a, b) == if ChunkCoord(a, b) in WindowSurvivors(old(activeChunk), center.x - v, center.x + v, center.z - v, center.z + v)
                                   then Inactive
                                   else if InWindow(cfg.data, center, ChunkCoord(a, b)) && IsChunkInWorld(cfg.data, ChunkCoord(a, b))
                                   then Active
                                   else old(Status(a, b))
      ensures forall a, b :: InGrid(a, b) && old(chunks[a, b]) != null ==> chunks[a, b] == old(chunks[a, b])
    {
      var v := cfg.data.viewDistanceInChunks;
      var previouslyActiveChunks := activeChunk;
      var rest;
      rest, added := ScanWindow(center.x - v, center.x + v, center.z - v, center.z + v, previouslyActiveChunks);
      WindowSurvivorsAreFromList(previouslyActiveChunks, center.x - v, center.x + v, center.z - v, center.z + v);
      forall c | c in rest
        ensures Filled(c)
      {
        assert c in old(activeChunk);
      }
      DeactivateAll(rest);
    }

    /** The player's collision probe: whether the block at (x, y, z) is
        solid, looked up through the chunk grid. The engine checks nothing:
        a probe outside the grid, into an empty slot, outside the chunk's
        voxel map or onto an unregistered id faults as the runtime would.
        Inside the world and on a loaded chunk the answer is the terrain's. */
    method CheckForVoxel(x: real, y: real, z: real) returns (r: Result<bool>)
      requires Valid()
      ensures var xs := SplitCoordinate(x.Floor, cfg.data.chunkWidth);
              var zs := SplitCoordinate(z.Floor, cfg.data.chunkWidth);
              && (!InGrid(xs.0, zs.0) ==> r == Err(IndexOutOfRange))
              && (InGrid(xs.0, zs.0) && chunks[xs.0, zs.0] == null ==> r == Err(NullReference))
              && (InGrid(xs.0, zs.0) && chunks[xs.0, zs.0] != null ==>
                    var m := chunks[xs.0, zs.0].voxelMap;
                    if !(0 <= xs.1 < m.Length0 && 0 <= y.Floor < m.Length1 && 0 <= zs.1 < m.Length2)
                       || (m[xs.1, y.Floor, zs.1] as int) >= |cfg.blockTypes|
                    then r == Err(IndexOutOfRange)
                    else r == Ok(cfg.blockTypes[m[xs.1, y.Floor, zs.1]].isSolid))
      ensures var p := Vec3(x.Floor, y.Floor, z.Floor);
              var xs := SplitCoordinate(p.x, cfg.data.chunkWidth);
              var zs := SplitCoordinate(p.z, cfg.data.chunkWidth);
              0 <= p.x && 0 <= p.z && 0 <= p.y < cfg.data.chunkHeight && InGrid(xs.0, zs.0)
              && chunks[xs.0, zs.0] != null && chunks[xs.0, zs.0].Populated()
              ==> r == Ok(IsSolid(cfg, VoxelAt(cfg, p)))
    {
      var xCheck := x.Floor;
      var yCheck := y.Floor;
      var zCheck := z.Floor;
      var w := cfg.data.chunkWidth;
      var xChunk := TruncDiv(xCheck, w);
      var zChunk := TruncDiv(zCheck, w);
      xCheck := xCheck - xChunk * w;
      zCheck := zCheck - zChunk * w;
      if !InGrid(xChunk, zChunk) {
        return Err(IndexOutOfRange);
      }
      var chunk := chunks[xChunk, zChunk];
      if chunk == null {
        return Err(NullReference);
      }
      var m := chunk.voxelMap;
      if !(0 <= xCheck < m.Length0 && 0 <= yCheck < m.Length1 && 0 <= zCheck < m.Length2) {
        return Err(IndexOutOfRange);
      }
      var id := m[xCheck, yCheck, zCheck];
      if (id as int) >= |cfg.blockTypes| {
        return Err(IndexOutOfRange);
      }
      r := Ok(cfg.blockTypes[id].isSolid);
      if chunk.Populated() && 0 <= x.Floor && 0 <= z.Floor {
        assert ToWorld(cfg.data, chunk.coord, Vec3(xCheck, yCheck, zCheck)) == Vec3(x.Floor, y.Floor, z.Floor);
      }
    }
  }
}
