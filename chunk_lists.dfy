/** The list work inside World.CheckViewDistance: removing every copy of a
    coordinate from the list of previously active chunks, and the square
    window of chunk coordinates the view-distance scan visits. */
module ChunkLists {
  import opened VoxelData

  // ---------------------------------------------------------------------
  // Removal as the engine writes it: RemoveAt(i), then i++ regardless

  /** The list left by the engine's removal loop. When element i matches it
      is removed, the next element slides into slot i and the loop moves on
      to slot i + 1, so that element is never looked at. */
  function SkipRemove(s: seq<ChunkCoord>, c: ChunkCoord): (r: seq<ChunkCoord>)
    ensures |r| <= |s|
  {
    if |s| == 0 then []
    else if s[0] == c then
      if |s| == 1 then [] else [s[1]] + SkipRemove(s[2..], c)
    else [s[0]] + SkipRemove(s[1..], c)
  }

  /** The engine's loop from slot i on, step by step: the state (list, i)
      it ends in. */
  function SkipRemoveFrom(r: seq<ChunkCoord>, c: ChunkCoord, i: nat): seq<ChunkCoord>
    decreases |r| - i
  {
    if i >= |r| then r
    else if r[i] == c then SkipRemoveFrom(r[..i] + r[i + 1..], c, i + 1)
    else SkipRemoveFrom(r, c, i + 1)
  }

  /** Running the loop from slot i keeps the first i entries and applies the
      skipping removal to the rest. */
  lemma {:induction false} SkipRemoveFromSplits(r: seq<ChunkCoord>, c: ChunkCoord, i: nat)
    requires i <= |r|
    ensures SkipRemoveFrom(r, c, i) == r[..i] + SkipRemove(r[i..], c)
    decreases |r| - i
  {
    if i == |r| {
      assert r[..i] == r;
    } else if r[i] == c {
      var r' := r[..i] + r[i + 1..];
      if i + 1 < |r| {
        SkipRemoveFromSplits(r', c, i + 1);
        assert r'[..i + 1] == r[..i] + [r[i + 1]];
        assert r'[i + 1..] == r[i + 2..] == r[i..][2..];
        ConcatAssoc(r[..i], [r[i + 1]], SkipRemove(r[i + 2..], c));
      } else {
        assert r' == r[..i];
      }
    } else {
      SkipRemoveFromSplits(r, c, i + 1);
      assert r[..i + 1] == r[..i] + [r[i]];
      assert r[i + 1..] == r[i..][1..];
      ConcatAssoc(r[..i], [r[i]], SkipRemove(r[i + 1..], c));
    }
  }

  /** The removal loop on a copy of the list: walks the list with index i,
      removes a matching entry in place and advances i in every case. */
  method RemoveMatching(list: seq<ChunkCoord>, c: ChunkCoord) returns (r: seq<ChunkCoord>)
    ensures r == SkipRemove(list, c)
  {
    r := list;
    var i := 0;
    SkipRemoveFromSplits(list, c, 0);
    while i < |r|
      invariant SkipRemoveFrom(r, c, i) == SkipRemove(list, c)
      decreases |r| - i
    {
      if r[i].Equals(Some(c)) {
        r := r[..i] + r[i + 1..];
      }
      i := i + 1;
    }
  }

  /** How often one entry `e` occurs after the engine's removal: as often as
      before when `e` is not `c`, never more often when it is. */
  lemma {:induction false} SkipRemoveCount(s: seq<ChunkCoord>, c: ChunkCoord, e: ChunkCoord)
    ensures multiset(SkipRemove(s, c))[e] <= multiset(s)[e]
    ensures e != c ==> multiset(SkipRemove(s, c))[e] == multiset(s)[e]
  {
    if |s| >= 2 && s[0] == c {
      SkipRemoveCount(s[2..], c, e);
      CountAfterMatch(s, c, e);
    } else if |s| >= 1 && s[0] != c {
      SkipRemoveCount(s[1..], c, e);
      CountAfterKeep(s, c, e);
    }
  }

  /** One step of the count when the head matches: the head is dropped, the
      next entry is kept unexamined. */
  lemma CountAfterMatch(s: seq<ChunkCoord>, c: ChunkCoord, e: ChunkCoord)
    requires |s| >= 2 && s[0] == c
    ensures multiset(SkipRemove(s, c))[e] == multiset{s[1]}[e] + multiset(SkipRemove(s[2..], c))[e]
    ensures multiset(s)[e] == multiset{c}[e] + multiset{s[1]}[e] + multiset(s[2..])[e]
  {
    assert s == [s[0]] + ([s[1]] + s[2..]);
    assert SkipRemove(s, c) == [s[1]] + SkipRemove(s[2..], c);
  }

  /** One step of the count when the head does not match: it is kept. */
  lemma CountAfterKeep(s: seq<ChunkCoord>, c: ChunkCoord, e: ChunkCoord)
    requires |s| >= 1 && s[0] != c
    ensures multiset(SkipRemove(s, c))[e] == multiset{s[0]}[e] + multiset(SkipRemove(s[1..], c))[e]
    ensures multiset(s)[e] == multiset{s[0]}[e] + multiset(s[1..])[e]
  {
    assert s == [s[0]] + s[1..];
  }

  /** Entries other than `c` are kept, each as often as before; nothing is
      added. */
  lemma SkipRemoveKeepsOthers(s: seq<ChunkCoord>, c: ChunkCoord)
    ensures multiset(SkipRemove(s, c)) <= multiset(s)
    ensures forall e :: e != c ==> multiset(SkipRemove(s, c))[e] == multiset(s)[e]
  {
    forall e {
      SkipRemoveCount(s, c, e);
    }
  }

  /** Two entries equal to `c` next to each other. */
  predicate HasAdjacentPair(s: seq<ChunkCoord>, c: ChunkCoord) {
    exists k :: 0 <= k < |s| - 1 && s[k] == c && s[k + 1] == c
  }

  /** A copy of `c` survives the engine's removal exactly when the list holds
      two copies of `c` side by side: the second of them is never examined. */
  lemma {:induction false} SurvivesIffAdjacentDuplicate(s: seq<ChunkCoord>, c: ChunkCoord)
    ensures c in SkipRemove(s, c) <==> HasAdjacentPair(s, c)
  {
    if |s| >= 2 {
      if s[0] == c {
        var t := s[2..];
        SurvivesIffAdjacentDuplicate(t, c);
        if HasAdjacentPair(t, c) {
          var k :| 0 <= k < |t| - 1 && t[k] == c && t[k + 1] == c;
          assert s[k + 2] == c && s[k + 3] == c;
        }
        if HasAdjacentPair(s, c) && s[1] != c {
          var k :| 0 <= k < |s| - 1 && s[k] == c && s[k + 1] == c;
          assert t[k - 2] == c && t[k - 1] == c;
        }
      } else {
        var t := s[1..];
        SurvivesIffAdjacentDuplicate(t, c);
        if HasAdjacentPair(t, c) {
          var k :| 0 <= k < |t| - 1 && t[k] == c && t[k + 1] == c;
          assert s[k + 1] == c && s[k + 2] == c;
        }
        if HasAdjacentPair(s, c) {
          var k :| 0 <= k < |s| - 1 && s[k] == c && s[k + 1] == c;
          assert t[k - 1] == c && t[k] == c;
        }
      }
    } else if |s| == 1 {
      assert !HasAdjacentPair(s, c);
    }
  }

  /** The smallest list that shows it: [c, c] loses only its first copy. */
  lemma AdjacentCopyEscapes(c: ChunkCoord)
    ensures c in SkipRemove([c, c], c)
  {
    SurvivesIffAdjacentDuplicate([c, c], c);
    assert [c, c][0] == c && [c, c][1] == c;
  }

  // ---------------------------------------------------------------------
  // Removal as intended: every copy goes

  /** The list without any copy of `c`, order kept. */
  function RemoveAll(s: seq<ChunkCoord>, c: ChunkCoord): seq<ChunkCoord> {
    if |s| == 0 then []
    else (if s[0] == c then [] else [s[0]]) + RemoveAll(s[1..], c)
  }

  /** The removal loop with the index advanced only when nothing was
      removed, so the entry that slides into slot i is examined too. */
  method RemoveAllMatching(list: seq<ChunkCoord>, c: ChunkCoord) returns (r: seq<ChunkCoord>)
    ensures r == RemoveAll(list, c)
  {
    r := list;
    var i := 0;
    assert r[i..] == list;
    while i < |r|
      invariant 0 <= i <= |r|
      invariant r[..i] + RemoveAll(r[i..], c) == RemoveAll(list, c)
      decreases |r| - i
    {
      ghost var tail := r[i..];
      assert tail[1..] == r[i + 1..];
      if r[i].Equals(Some(c)) {
        r := r[..i] + r[i + 1..];
        assert r[i..] == tail[1..];
      } else {
        ConcatAssoc(r[..i], [r[i]], RemoveAll(r[i + 1..], c));
        assert r[..i + 1] == r[..i] + [r[i]];
        i := i + 1;
      }
    }
    assert r[..i] == r;
  }

  /** The intended removal: no copy of `c` is left and every other entry is
      kept, as often as before. */
  lemma {:induction false} RemoveAllExact(s: seq<ChunkCoord>, c: ChunkCoord)
    ensures c !in RemoveAll(s, c)
    ensures forall e :: e != c ==> multiset(RemoveAll(s, c))[e] == multiset(s)[e]
  {
    if |s| > 0 {
      RemoveAllExact(s[1..], c);
      assert s == [s[0]] + s[1..];
    }
  }

  /** Without two adjacent copies of `c` the engine's loop does what was
      intended. */
  lemma {:induction false} SkipRemoveIsRemoveAllWithoutPairs(s: seq<ChunkCoord>, c: ChunkCoord)
    requires !HasAdjacentPair(s, c)
    ensures SkipRemove(s, c) == RemoveAll(s, c)
  {
    if |s| >= 2 && s[0] == c {
      assert s[1] != c;
      SkipRemoveIsRemoveAllWithoutPairs(s[2..], c);
      assert s[1..][1..] == s[2..];
      assert RemoveAll(s[1..], c) == [s[1]] + RemoveAll(s[2..], c);
    } else if |s| >= 1 && s[0] != c {
      SkipRemoveIsRemoveAllWithoutPairs(s[1..], c);
    }
  }

  // ---------------------------------------------------------------------
  // The removal loop run once per scanned cell

  /** The list of previously active chunks after the engine's removal loop
      has run for each coordinate of `cells`, in order. */
  function Survivors(s: seq<ChunkCoord>, cells: seq<ChunkCoord>): seq<ChunkCoord>
    decreases |cells|
  {
    if |cells| == 0 then s
    else SkipRemove(Survivors(s, cells[..|cells| - 1]), cells[|cells| - 1])
  }

  /** Scanning one more cell runs the removal loop once more. */
  lemma SurvivorsStep(s: seq<ChunkCoord>, cells: seq<ChunkCoord>, c: ChunkCoord)
    ensures Survivors(s, cells + [c]) == SkipRemove(Survivors(s, cells), c)
  {
    assert (cells + [c])[..|cells|] == cells;
  }

  /** Scanning `a` and then `b` leaves what scanning `a + b` leaves. */
  lemma {:induction false} SurvivorsConcat(s: seq<ChunkCoord>, a: seq<ChunkCoord>, b: seq<ChunkCoord>)
    ensures Survivors(s, a + b) == Survivors(Survivors(s, a), b)
    decreases |b|
  {
    if |b| == 0 {
      assert a + b == a;
    } else {
      var b' := b[..|b| - 1];
      SurvivorsConcat(s, a, b');
      assert (a + b)[..|a + b| - 1] == a + b';
    }
  }

  /** The scan only removes entries. */
  lemma {:induction false} SurvivorsAreFromList(s: seq<ChunkCoord>, cells: seq<ChunkCoord>)
    ensures forall e :: e in Survivors(s, cells) ==> e in s
    decreases |cells|
  {
    if |cells| > 0 {
      var t := Survivors(s, cells[..|cells| - 1]);
      SurvivorsAreFromList(s, cells[..|cells| - 1]);
      forall e | e in SkipRemove(t, cells[|cells| - 1])
        ensures e in t
      {
        SkipRemoveCount(t, cells[|cells| - 1], e);
        assert multiset(SkipRemove(t, cells[|cells| - 1]))[e] > 0;
      }
    }
  }

  /** An entry equal to no scanned cell is never removed. */
  lemma {:induction false} UnscannedSurvives(s: seq<ChunkCoord>, cells: seq<ChunkCoord>, e: ChunkCoord)
    requires e in s && e !in cells
    ensures e in Survivors(s, cells)
    decreases |cells|
  {
    if |cells| > 0 {
      var front := cells[..|cells| - 1];
      var c := cells[|cells| - 1];
      assert cells == front + [c];
      UnscannedSurvives(s, front, e);
      var t := Survivors(s, front);
      SkipRemoveCount(t, c, e);
      assert multiset(t)[e] > 0;
    }
  }

  /** Every coordinate occurs at most once. */
  ghost predicate NoDuplicates(s: seq<ChunkCoord>) {
    forall e :: multiset(s)[e] <= 1
  }

  lemma AdjacentPairCounts(s: seq<ChunkCoord>, c: ChunkCoord)
    requires HasAdjacentPair(s, c)
    ensures multiset(s)[c] >= 2
  {
    var k :| 0 <= k < |s| - 1 && s[k] == c && s[k + 1] == c;
    assert s == s[..k] + [c, c] + s[k + 2..];
  }

  /** On a list without duplicates one run of the engine's removal loop
      removes `c` and nothing else. */
  lemma SkipRemoveWithoutDuplicates(t: seq<ChunkCoord>, c: ChunkCoord)
    requires NoDuplicates(t)
    ensures NoDuplicates(SkipRemove(t, c))
    ensures forall e :: e in SkipRemove(t, c) <==> e in t && e != c
  {
    if HasAdjacentPair(t, c) {
      AdjacentPairCounts(t, c);
      assert false;
    }
    SkipRemoveIsRemoveAllWithoutPairs(t, c);
    RemoveAllExact(t, c);
    forall e
      ensures multiset(SkipRemove(t, c))[e] <= 1
      ensures e in SkipRemove(t, c) <==> e in t && e != c
    {
      SkipRemoveCount(t, c, e);
      assert e in t <==> multiset(t)[e] > 0;
      assert e in SkipRemove(t, c) <==> multiset(SkipRemove(t, c))[e] > 0;
    }
  }

  /** .. so on such a list what survives the whole scan is exactly the
      entries outside the scanned cells, and the list stays free of
      duplicates. */
  lemma {:induction false} SurvivorsWithoutDuplicates(s: seq<ChunkCoord>, cells: seq<ChunkCoord>)
    requires NoDuplicates(s)
    ensures NoDuplicates(Survivors(s, cells))
    ensures forall e :: e in Survivors(s, cells) <==> e in s && e !in cells
    decreases |cells|
  {
    if |cells| > 0 {
      var front := cells[..|cells| - 1];
      var c := cells[|cells| - 1];
      SurvivorsWithoutDuplicates(s, front);
      SkipRemoveWithoutDuplicates(Survivors(s, front), c);
      assert cells == front + [c];
    }
  }

  // ---------------------------------------------------------------------
  // The square window of chunk coordinates, in scan order

  /** (x, zLo), (x, zLo + 1), .., (x, zHi - 1). */
  function WindowRow(x: int, zLo: int, zHi: int): seq<ChunkCoord>
    decreases zHi - zLo
  {
    if zHi <= zLo then [] else WindowRow(x, zLo, zHi - 1) + [ChunkCoord(x, zHi - 1)]
  }

  /** The rows xLo .. xHi - 1 of the window, x outer and z inner, as the
      engine's nested loops visit them. */
  function WindowCells(xLo: int, xHi: int, zLo: int, zHi: int): seq<ChunkCoord>
    decreases xHi - xLo
  {
    if xHi <= xLo then [] else WindowCells(xLo, xHi - 1, zLo, zHi) + WindowRow(xHi - 1, zLo, zHi)
  }

  /** One more row at the end of the window. */
  lemma WindowCellsStep(xLo: int, x: int, zLo: int, zHi: int)
    requires xLo <= x
    ensures WindowCells(xLo, x + 1, zLo, zHi) == WindowCells(xLo, x, zLo, zHi) + WindowRow(x, zLo, zHi)
  {
  }

  /** One more cell at the end of a row. */
  lemma WindowRowStep(x: int, zLo: int, z: int)
    requires zLo <= z
    ensures WindowRow(x, zLo, z + 1) == WindowRow(x, zLo, z) + [ChunkCoord(x, z)]
  {
  }

  lemma {:induction false} WindowRowExactly(x: int, zLo: int, zHi: int)
    ensures |WindowRow(x, zLo, zHi)| == if zHi <= zLo then 0 else zHi - zLo
    ensures forall c :: c in WindowRow(x, zLo, zHi) <==> c.x == x && zLo <= c.z < zHi
    decreases zHi - zLo
  {
    if zLo < zHi {
      WindowRowExactly(x, zLo, zHi - 1);
    }
  }

  /** The scan visits exactly the coordinates of the half-open window. */
  lemma {:induction false} WindowCellsExactly(xLo: int, xHi: int, zLo: int, zHi: int)
    ensures forall c :: c in WindowCells(xLo, xHi, zLo, zHi) <==> xLo <= c.x < xHi && zLo <= c.z < zHi
    decreases xHi - xLo
  {
    if xLo < xHi {
      WindowCellsExactly(xLo, xHi - 1, zLo, zHi);
      WindowRowExactly(xHi - 1, zLo, zHi);
    }
  }

  /** .. and each of them once: as many cells as the window has. */
  lemma {:induction false} WindowCellsCount(xLo: int, xHi: int, zLo: int, zHi: int)
    requires xLo <= xHi && zLo <= zHi
    ensures |WindowCells(xLo, xHi, zLo, zHi)| == (xHi - xLo) * (zHi - zLo)
    decreases xHi - xLo
  {
    if xLo < xHi {
      WindowCellsCount(xLo, xHi - 1, zLo, zHi);
      WindowRowExactly(xHi - 1, zLo, zHi);
      var h, w := xHi - 1 - xLo, zHi - zLo;
      assert h * w + w == (h + 1) * w;
    }
  }

  // ---------------------------------------------------------------------
  // The removal loop along the scan, row by row

  /** The list left after the removal loop has run for the cells
      (x, zLo) .. (x, z - 1), in that order. */
  function RowSurvivors(s: seq<ChunkCoord>, x: int, zLo: int, z: int): seq<ChunkCoord>
    decreases z - zLo
  {
    if z <= zLo then s else SkipRemove(RowSurvivors(s, x, zLo, z - 1), ChunkCoord(x, z - 1))
  }

  /** The list left after the removal loop has run for every cell of the
      rows xLo .. x - 1, each row from zLo to zHi - 1. */
  function WindowSurvivors(s: seq<ChunkCoord>, xLo: int, x: int, zLo: int, zHi: int): seq<ChunkCoord>
    decreases x - xLo
  {
    if x <= xLo then s else RowSurvivors(WindowSurvivors(s, xLo, x - 1, zLo, zHi), x - 1, zLo, zHi)
  }

  /** Row by row is the same as cell by cell along WindowRow. */
  lemma {:induction false} RowSurvivorsIsSurvivors(s: seq<ChunkCoord>, x: int, zLo: int, z: int)
    requires zLo <= z
    ensures RowSurvivors(s, x, zLo, z) == Survivors(s, WindowRow(x, zLo, z))
    decreases z - zLo
  {
    if zLo < z {
      RowSurvivorsIsSurvivors(s, x, zLo, z - 1);
      WindowRowStep(x, zLo, z - 1);
      SurvivorsStep(s, WindowRow(x, zLo, z - 1), ChunkCoord(x, z - 1));
    }
  }

  /** .. and along WindowCells. */
  lemma {:induction false} WindowSurvivorsIsSurvivors(s: seq<ChunkCoord>, xLo: int, x: int, zLo: int, zHi: int)
    requires xLo <= x && zLo <= zHi
    ensures WindowSurvivors(s, xLo, x, zLo, zHi) == Survivors(s, WindowCells(xLo, x, zLo, zHi))
    decreases x - xLo
  {
    if xLo < x {
      var t := WindowSurvivors(s, xLo, x - 1, zLo, zHi);
      WindowSurvivorsIsSurvivors(s, xLo, x - 1, zLo, zHi);
      RowSurvivorsIsSurvivors(t, x - 1, zLo, zHi);
      WindowCellsStep(xLo, x - 1, zLo, zHi);
      SurvivorsConcat(s, WindowCells(xLo, x - 1, zLo, zHi), WindowRow(x - 1, zLo, zHi));
    }
  }

  /** The window scan only removes entries. */
  lemma WindowSurvivorsAreFromList(s: seq<ChunkCoord>, xLo: int, x: int, zLo: int, zHi: int)
    requires xLo <= x && zLo <= zHi
    ensures forall e :: e in WindowSurvivors(s, xLo, x, zLo, zHi) ==> e in s
  {
    WindowSurvivorsIsSurvivors(s, xLo, x, zLo, zHi);
    SurvivorsAreFromList(s, WindowCells(xLo, x, zLo, zHi));
  }

  /** An entry outside the window survives the window scan. */
  lemma UnscannedSurvivesWindow(s: seq<ChunkCoord>, xLo: int, xHi: int, zLo: int, zHi: int, e: ChunkCoord)
    requires xLo <= xHi && zLo <= zHi
    requires e in s && !(xLo <= e.x < xHi && zLo <= e.z < zHi)
    ensures e in WindowSurvivors(s, xLo, xHi, zLo, zHi)
  {
    WindowCellsExactly(xLo, xHi, zLo, zHi);
    UnscannedSurvives(s, WindowCells(xLo, xHi, zLo, zHi), e);
    WindowSurvivorsIsSurvivors(s, xLo, xHi, zLo, zHi);
  }

  /** The removal loop for cell (x, z) of a row scan, on the list left by the
      cells (x, zLo) .. (x, z - 1). */
  method RemoveCell(list: seq<ChunkCoord>, ghost s: seq<ChunkCoord>, x: int, zLo: int, z: int)
      returns (r: seq<ChunkCoord>)
    requires zLo <= z && list == RowSurvivors(s, x, zLo, z)
    ensures r == RowSurvivors(s, x, zLo, z + 1)
  {
    r := RemoveMatching(list, ChunkCoord(x, z));
  }
}
