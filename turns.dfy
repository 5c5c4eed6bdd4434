/**
 * Properties of the rotation geometry: the table is a closed ring, four turns are the
 * identity, a turn of the opposite side at the mirrored layer undoes a turn, a turn
 * only moves the cells of the physical layer whose lock it holds, and turns of
 * different physical layers of one axis commute.
 */
module Turns {
  import opened Geometry

  /** p lies on one of the four slices the ring of rotate(side, layer) writes. */
  predicate OnRing(n: int, side: int, layer: int, p: Pos)
    requires 0 <= side < Faces && 0 <= layer < n
  {
    OnSlice(RingLink(n, side, layer, 0).target, p) || OnSlice(RingLink(n, side, layer, 1).target, p)
    || OnSlice(RingLink(n, side, layer, 2).target, p) || OnSlice(RingLink(n, side, layer, 3).target, p)
  }

  /** The link of rotate(side, layer) that link i of the opposite rotation runs backwards. */
  function Partner(side: int, i: int): int
    requires 0 <= side < Faces && 0 <= i < 4
  {
    if Axis(side) == 0 then 3 - i
    else if i % 2 == 0 then i + 1
    else i - 1
  }

  /** The same entry of the table read backwards: source and target exchanged. */
  function Swap(link: Link): Link {
    Link(link.source, link.target, link.reversed)
  }

  // ---------------------------------------------------------------------------
  // Side, axis and layer bookkeeping

  lemma OppositeIsInvolution(side: int)
    requires 0 <= side < Faces
    ensures Opposite(Opposite(side)) == side
  {
  }

  lemma AxisSharedByOpposites(s1: int, s2: int)
    requires 0 <= s1 < Faces && 0 <= s2 < Faces
    ensures Axis(s1) == Axis(s2) <==> s1 == s2 || s2 == Opposite(s1)
  {
  }

  lemma ActualLayerMirror(n: int, side: int, layer: int)
    requires 0 <= side < Faces && 0 <= layer < n
    ensures ActualLayer(n, Opposite(side), n - 1 - layer) == ActualLayer(n, side, layer)
  {
  }

  // ---------------------------------------------------------------------------
  // Face spins

  lemma SpinLeftIsThreeRights(n: int, p: Pos)
    ensures Spun(n, 3, p) == SpinLeft(n, p)
  {
    calc {
      Spun(n, 3, p);
      Spun(n, 2, SpinRight(n, p));
      Spun(n, 1, SpinRight(n, SpinRight(n, p)));
      Spun(n, 0, SpinRight(n, SpinRight(n, SpinRight(n, p))));
    }
  }

  lemma FourSpinsAreIdentity(n: int, p: Pos)
    ensures Spun(n, 4, p) == p
  {
    SpinLeftIsThreeRights(n, SpinRight(n, p));
  }

  lemma SpinLeftUndoesSpinRight(n: int, p: Pos)
    ensures SpinLeft(n, SpinRight(n, p)) == p && SpinRight(n, SpinLeft(n, p)) == p
  {
  }

  // ---------------------------------------------------------------------------
  // The rotation table

  lemma RingIsClosed(n: int, side: int, layer: int)
    requires 0 <= side < Faces && 0 <= layer < n
    ensures ClosedRing(n, side, layer)
  {
    RingIsChained(n, side, layer);
    RingAvoidsCaps(n, side, layer);
    RingUsesFourFaces(n, side, layer);
    RingHasEvenReversals(n, side, layer);
  }

  lemma RingIsChained(n: int, side: int, layer: int)
    requires 0 <= side < Faces && 0 <= layer < n
    ensures LinksChained(n, side, layer)
  {
  }

  lemma RingAvoidsCaps(n: int, side: int, layer: int)
    requires 0 <= side < Faces && 0 <= layer < n
    ensures RingOffCaps(n, side, layer)
  {
  }

  lemma RingUsesFourFaces(n: int, side: int, layer: int)
    requires 0 <= side < Faces && 0 <= layer < n
    ensures RingFacesDistinct(n, side, layer)
  {
  }

  lemma RingHasEvenReversals(n: int, side: int, layer: int)
    requires 0 <= side < Faces && 0 <= layer < n
    ensures EvenReversals(n, side, layer)
  {
  }

  /** The rotation of the opposite side at the mirrored layer runs the same ring backwards. */
  lemma OppositeRingRunsBackwards(n: int, side: int, layer: int, i: int)
    requires 0 <= side < Faces && 0 <= layer < n && 0 <= i < 4
    ensures 0 <= Partner(side, i) < 4
    ensures RingLink(n, side, layer, Partner(side, i)) == Swap(RingLink(n, Opposite(side), n - 1 - layer, i))
  {
  }

  /** Both rotations write the same four slices. */
  lemma OppositeRingSameCells(n: int, side: int, layer: int, p: Pos)
    requires 0 <= side < Faces && 0 <= layer < n
    ensures OnRing(n, Opposite(side), n - 1 - layer, p) <==> OnRing(n, side, layer, p)
  {
  }

  lemma CellAtOffset(s: Slice, p: Pos)
    requires OnSlice(s, p)
    ensures CellAt(s, Offset(s, p)) == p
  {
  }

  lemma LinkSourceOnSource(n: int, link: Link, p: Pos)
    ensures OnSlice(link.source, LinkSource(n, link, p))
    ensures Offset(link.source, LinkSource(n, link, p))
            == if link.reversed then n - 1 - Offset(link.target, p) else Offset(link.target, p)
  {
  }

  /** The ring part of a rotation reads a cell of the j-th written slice through the j-th link. */
  lemma ShiftOnLink(n: int, side: int, layer: int, j: int, p: Pos)
    requires 0 <= side < Faces && 0 <= layer < n && 0 <= j < 4
    requires OnSlice(RingLink(n, side, layer, j).target, p)
    ensures ShiftSource(n, side, layer, p) == LinkSource(n, RingLink(n, side, layer, j), p)
  {
    RingIsClosed(n, side, layer);
  }

  /** The ring part of a rotation leaves every cell off the ring where it is. */
  lemma ShiftOffRing(n: int, side: int, layer: int, p: Pos)
    requires 0 <= side < Faces && 0 <= layer < n && !OnRing(n, side, layer, p)
    ensures ShiftSource(n, side, layer, p) == p
  {
  }

  // The ring of each side written out cell by cell, as the cases of the rotation switch do.

  /** rotate(0, layer): row `layer` of face 4 takes face 1's, face 3 takes face 4's, face 2 face 3's and face 1 face 2's. */
  lemma ShiftOfSide0(n: int, layer: int, p: Pos)
    requires 0 <= layer < n && InGrid(n, p)
    ensures ShiftSource(n, 0, layer, p) ==
      if p.side == 4 && p.row == layer then Pos(1, layer, p.col)
      else if p.side == 3 && p.row == layer then Pos(4, layer, p.col)
      else if p.side == 2 && p.row == layer then Pos(3, layer, p.col)
      else if p.side == 1 && p.row == layer then Pos(2, layer, p.col)
      else p
  {
  }

  /** rotate(1, layer) shifts columns `layer` of faces 0, 2 and 5 and the mirrored column of face 4, turned over where face 4 is involved. */
  lemma ShiftOfSide1(n: int, layer: int, p: Pos)
    requires 0 <= layer < n && InGrid(n, p)
    ensures ShiftSource(n, 1, layer, p) ==
      if p.side == 0 && p.col == layer then Pos(4, n - 1 - p.row, n - 1 - layer)
      else if p.side == 2 && p.col == layer then Pos(0, p.row, layer)
      else if p.side == 5 && p.col == layer then Pos(2, p.row, layer)
      else if p.side == 4 && p.col == n - 1 - layer then Pos(5, n - 1 - p.row, layer)
      else p
  {
  }

  /** rotate(2, layer) shifts the rows of faces 0 and 5 and the columns of faces 3 and 1 nearest face 2. */
  lemma ShiftOfSide2(n: int, layer: int, p: Pos)
    requires 0 <= layer < n && InGrid(n, p)
    ensures ShiftSource(n, 2, layer, p) ==
      if p.side == 0 && p.row == n - 1 - layer then Pos(1, n - 1 - p.col, n - 1 - layer)
      else if p.side == 3 && p.col == layer then Pos(0, n - 1 - layer, p.row)
      else if p.side == 5 && p.row == layer then Pos(3, n - 1 - p.col, layer)
      else if p.side == 1 && p.col == n - 1 - layer then Pos(5, layer, p.row)
      else p
  {
  }

  /** rotate(3, layer) shifts the mirrored columns of faces 0, 5 and 2 and column `layer` of face 4, turned over where face 4 is involved. */
  lemma ShiftOfSide3(n: int, layer: int, p: Pos)
    requires 0 <= layer < n && InGrid(n, p)
    ensures ShiftSource(n, 3, layer, p) ==
      if p.side == 0 && p.col == n - 1 - layer then Pos(2, p.row, n - 1 - layer)
      else if p.side == 4 && p.col == layer then Pos(0, n - 1 - p.row, n - 1 - layer)
      else if p.side == 5 && p.col == n - 1 - layer then Pos(4, n - 1 - p.row, layer)
      else if p.side == 2 && p.col == n - 1 - layer then Pos(5, p.row, n - 1 - layer)
      else p
  {
  }

  /** rotate(4, layer) shifts the rows of faces 0 and 5 and the columns of faces 1 and 3 nearest face 4. */
  lemma ShiftOfSide4(n: int, layer: int, p: Pos)
    requires 0 <= layer < n && InGrid(n, p)
    ensures ShiftSource(n, 4, layer, p) ==
      if p.side == 0 && p.row == layer then Pos(3, p.col, n - 1 - layer)
      else if p.side == 1 && p.col == layer then Pos(0, layer, n - 1 - p.row)
      else if p.side == 5 && p.row == n - 1 - layer then Pos(1, p.col, layer)
      else if p.side == 3 && p.col == n - 1 - layer then Pos(5, n - 1 - layer, n - 1 - p.row)
      else p
  {
  }

  /** rotate(5, layer): the mirrored row of face 2 takes face 1's, face 3 takes face 2's, face 4 face 3's and face 1 face 4's. */
  lemma ShiftOfSide5(n: int, layer: int, p: Pos)
    requires 0 <= layer < n && InGrid(n, p)
    ensures ShiftSource(n, 5, layer, p) ==
      if p.side == 2 && p.row == n - 1 - layer then Pos(1, n - 1 - layer, p.col)
      else if p.side == 3 && p.row == n - 1 - layer then Pos(2, n - 1 - layer, p.col)
      else if p.side == 4 && p.row == n - 1 - layer then Pos(3, n - 1 - layer, p.col)
      else if p.side == 1 && p.row == n - 1 - layer then Pos(4, n - 1 - layer, p.col)
      else p
  {
  }

  /** A cell on the j-th written slice takes its colour through the j-th link. */
  lemma TurnOnRing(n: int, side: int, layer: int, j: int, p: Pos)
    requires 0 <= side < Faces && 0 <= layer < n && 0 <= j < 4
    requires OnSlice(RingLink(n, side, layer, j).target, p)
    ensures TurnSource(n, side, layer, p) == LinkSource(n, RingLink(n, side, layer, j), p)
  {
    RingIsClosed(n, side, layer);
  }

  /** A cell off the ring only moves with its cap face, and stays off the ring. */
  lemma TurnOffRing(n: int, side: int, layer: int, p: Pos)
    requires 0 <= side < Faces && 0 <= layer < n
    requires !OnRing(n, side, layer, p)
    ensures TurnSource(n, side, layer, p) == CapSource(n, side, layer, p)
    ensures TurnSource(n, side, layer, p).side == p.side
    ensures !OnRing(n, side, layer, TurnSource(n, side, layer, p))
  {
    RingIsClosed(n, side, layer);
  }

  /** Rotation moves a cell of the j-th written slice onto the slice written by the link before. */
  lemma TurnAlongRing(n: int, side: int, layer: int, j: int, p: Pos)
    requires 0 <= side < Faces && 0 <= layer < n && 0 <= j < 4
    requires OnSlice(RingLink(n, side, layer, j).target, p)
    ensures OnSlice(RingLink(n, side, layer, Prev(j)).target, TurnSource(n, side, layer, p))
    ensures Offset(RingLink(n, side, layer, Prev(j)).target, TurnSource(n, side, layer, p))
            == if RingLink(n, side, layer, j).reversed then n - 1 - Offset(RingLink(n, side, layer, j).target, p)
               else Offset(RingLink(n, side, layer, j).target, p)
  {
    TurnOnRing(n, side, layer, j, p);
    LinkSourceOnSource(n, RingLink(n, side, layer, j), p);
    RingIsClosed(n, side, layer);
  }

  // ---------------------------------------------------------------------------
  // Properties of a whole rotation

  /** Four rotations bring a cell of the ring once round the cycle, back to where it was. */
  lemma RingFourTimes(n: int, side: int, layer: int, j: int, p: Pos)
    requires 0 <= side < Faces && 0 <= layer < n && 0 <= j < 4
    requires OnSlice(RingLink(n, side, layer, j).target, p)
    ensures TurnSource(n, side, layer, TurnSource(n, side, layer,
              TurnSource(n, side, layer, TurnSource(n, side, layer, p)))) == p
  {
    RingIsClosed(n, side, layer);
    var p1 := TurnSource(n, side, layer, p);
    var p2 := TurnSource(n, side, layer, p1);
    var p3 := TurnSource(n, side, layer, p2);
    var p4 := TurnSource(n, side, layer, p3);
    var j1 := Prev(j);
    var j2 := Prev(j1);
    var j3 := Prev(j2);
    TurnAlongRing(n, side, layer, j, p);
    TurnAlongRing(n, side, layer, j1, p1);
    TurnAlongRing(n, side, layer, j2, p2);
    TurnAlongRing(n, side, layer, j3, p3);
    var s := RingLink(n, side, layer, j).target;
    assert Prev(j3) == j;
    assert Offset(s, p4) == Offset(s, p);
    CellAtOffset(s, p);
    CellAtOffset(s, p4);
  }

  /** Rotating the same layer four times restores every cell. */
  lemma TurnFourTimes(n: int, side: int, layer: int, p: Pos)
    requires 0 <= side < Faces && 0 <= layer < n && InGrid(n, p)
    ensures TurnSource(n, side, layer, TurnSource(n, side, layer,
              TurnSource(n, side, layer, TurnSource(n, side, layer, p)))) == p
  {
    if OnRing(n, side, layer, p) {
      var j :| 0 <= j < 4 && OnSlice(RingLink(n, side, layer, j).target, p);
      RingFourTimes(n, side, layer, j, p);
    } else {
      var p1 := TurnSource(n, side, layer, p);
      var p2 := TurnSource(n, side, layer, p1);
      var p3 := TurnSource(n, side, layer, p2);
      TurnOffRing(n, side, layer, p);
      TurnOffRing(n, side, layer, p1);
      TurnOffRing(n, side, layer, p2);
      TurnOffRing(n, side, layer, p3);
      if layer == 0 && p.side == side {
        FourSpinsAreIdentity(n, p);
        SpinLeftIsThreeRights(n, SpinRight(n, p));
      } else if layer != 0 && layer == n - 1 && p.side == Opposite(side) {
        SpinLeftUndoesSpinRight(n, SpinLeft(n, p));
        SpinLeftUndoesSpinRight(n, SpinLeft(n, SpinLeft(n, p)));
        assert SpinLeft(n, SpinLeft(n, SpinLeft(n, SpinLeft(n, p)))) == p;
      }
    }
  }

  /**
   * A rotation changes only its four ring slices and the cap it spins: layer 0 spins the
   * side's own face, the last layer the opposite face, a middle layer no face at all.
   */
  lemma TurnFixesOtherCells(n: int, side: int, layer: int, p: Pos)
    requires 0 <= side < Faces && 0 <= layer < n
    requires !OnRing(n, side, layer, p)
    requires !(layer == 0 && p.side == side)
    requires !(layer != 0 && layer == n - 1 && p.side == Opposite(side))
    ensures TurnSource(n, side, layer, p) == p
  {
    TurnOffRing(n, side, layer, p);
  }

  /**
   * A rotation only permutes cells: no two cells take their colour from the same cell,
   * and every cell gives its colour to some cell.
   */
  lemma TurnIsPermutation(n: int, side: int, layer: int, p: Pos, q: Pos)
    requires 0 <= side < Faces && 0 <= layer < n && InGrid(n, p) && InGrid(n, q)
    ensures TurnSource(n, side, layer, p) == TurnSource(n, side, layer, q) ==> p == q
    ensures exists r :: InGrid(n, r) && TurnSource(n, side, layer, r) == q
  {
    TurnFourTimes(n, side, layer, p);
    TurnFourTimes(n, side, layer, q);
    var r := TurnSource(n, side, layer, TurnSource(n, side, layer, TurnSource(n, side, layer, q)));
    assert InGrid(n, r) && TurnSource(n, side, layer, r) == q;
  }

  /** Reading a slice through a link and back through the swapped link returns to the start. */
  lemma SwappedLinkUndoes(n: int, link: Link, p: Pos)
    requires OnSlice(link.target, p)
    ensures LinkSource(n, Swap(link), LinkSource(n, link, p)) == p
  {
    LinkSourceOnSource(n, link, p);
    CellAtOffset(link.target, p);
  }

  /** A cell of the ring: the opposite rotation moves it one link back, this one moves it forward again. */
  lemma OppositeTurnUndoesOnRing(n: int, side: int, layer: int, i: int, p: Pos)
    requires 0 <= side < Faces && 0 <= layer < n && 0 <= i < 4
    requires OnSlice(RingLink(n, Opposite(side), n - 1 - layer, i).target, p)
    ensures TurnSource(n, side, layer, TurnSource(n, Opposite(side), n - 1 - layer, p)) == p
  {
    var back := RingLink(n, Opposite(side), n - 1 - layer, i);
    var j := Partner(side, i);
    OppositeRingRunsBackwards(n, side, layer, i);
    var fwd := RingLink(n, side, layer, j);
    var q := LinkSource(n, back, p);
    TurnOnRing(n, Opposite(side), n - 1 - layer, i, p);
    LinkSourceOnSource(n, back, p);
    assert OnSlice(fwd.target, q);
    TurnOnRing(n, side, layer, j, q);
    SwappedLinkUndoes(n, back, p);
  }

  /** rotate(Opposite(side), size - 1 - layer) undoes rotate(side, layer), and conversely. */
  lemma OppositeTurnUndoes(n: int, side: int, layer: int, p: Pos)
    requires 0 <= side < Faces && 0 <= layer < n && InGrid(n, p)
    ensures TurnSource(n, side, layer, TurnSource(n, Opposite(side), n - 1 - layer, p)) == p
  {
    var opp, mirrored := Opposite(side), n - 1 - layer;
    OppositeIsInvolution(side);
    if OnRing(n, opp, mirrored, p) {
      var i :| 0 <= i < 4 && OnSlice(RingLink(n, opp, mirrored, i).target, p);
      OppositeTurnUndoesOnRing(n, side, layer, i, p);
    } else {
      var q := TurnSource(n, opp, mirrored, p);
      TurnOffRing(n, opp, mirrored, p);
      OppositeRingSameCells(n, side, layer, q);
      TurnOffRing(n, side, layer, q);
      SpinLeftUndoesSpinRight(n, p);
    }
  }

  /** The written slices of a rotation lie in the physical layer whose lock it takes. */
  lemma RingInSlab(n: int, side: int, layer: int, j: int, p: Pos)
    requires 0 <= side < Faces && 0 <= layer < n && 0 <= j < 4
    requires OnSlice(RingLink(n, side, layer, j).target, p)
    ensures InSlab(n, Axis(side), ActualLayer(n, side, layer), p)
  {
  }

  lemma CapInSlab(n: int, side: int, layer: int, p: Pos)
    requires 0 <= side < Faces && 0 <= layer < n
    requires CapSource(n, side, layer, p) != p
    ensures InSlab(n, Axis(side), ActualLayer(n, side, layer), p)
    ensures InSlab(n, Axis(side), ActualLayer(n, side, layer), CapSource(n, side, layer, p))
  {
  }

  /** A rotation moves only cells of its physical layer, and keeps them there. */
  lemma TurnStaysInSlab(n: int, side: int, layer: int, p: Pos)
    requires 0 <= side < Faces && 0 <= layer < n && InGrid(n, p)
    ensures !InSlab(n, Axis(side), ActualLayer(n, side, layer), p) ==> TurnSource(n, side, layer, p) == p
    ensures InSlab(n, Axis(side), ActualLayer(n, side, layer), p) ==>
              InSlab(n, Axis(side), ActualLayer(n, side, layer), TurnSource(n, side, layer, p))
  {
    var q := TurnSource(n, side, layer, p);
    if OnRing(n, side, layer, p) {
      var j :| 0 <= j < 4 && OnSlice(RingLink(n, side, layer, j).target, p);
      RingInSlab(n, side, layer, j, p);
      TurnAlongRing(n, side, layer, j, p);
      RingInSlab(n, side, layer, Prev(j), q);
    } else {
      TurnOffRing(n, side, layer, p);
      if q != p {
        CapInSlab(n, side, layer, p);
      }
    }
  }

  lemma SlabsDisjoint(n: int, axis: int, d1: int, d2: int, p: Pos)
    requires InSlab(n, axis, d1, p) && InSlab(n, axis, d2, p)
    ensures d1 == d2
  {
  }

  /**
   * Rotations of one axis that take different layer locks touch disjoint cells, so
   * running them in either order gives the same grid.
   */
  lemma DisjointLayersCommute(n: int, s1: int, l1: int, s2: int, l2: int, p: Pos)
    requires 0 <= s1 < Faces && 0 <= l1 < n && 0 <= s2 < Faces && 0 <= l2 < n && InGrid(n, p)
    requires Axis(s1) == Axis(s2) && ActualLayer(n, s1, l1) != ActualLayer(n, s2, l2)
    ensures TurnSource(n, s1, l1, TurnSource(n, s2, l2, p)) == TurnSource(n, s2, l2, TurnSource(n, s1, l1, p))
  {
    var axis, d1, d2 := Axis(s1), ActualLayer(n, s1, l1), ActualLayer(n, s2, l2);
    var q1, q2 := TurnSource(n, s1, l1, p), TurnSource(n, s2, l2, p);
    TurnStaysInSlab(n, s1, l1, p);
    TurnStaysInSlab(n, s2, l2, p);
    TurnStaysInSlab(n, s2, l2, q1);
    TurnStaysInSlab(n, s1, l1, q2);
    if InSlab(n, axis, d1, p) {
      if InSlab(n, axis, d2, p) { SlabsDisjoint(n, axis, d1, d2, p); }
      if InSlab(n, axis, d2, q1) { SlabsDisjoint(n, axis, d1, d2, q1); }
    } else if InSlab(n, axis, d2, p) {
      if InSlab(n, axis, d1, q2) { SlabsDisjoint(n, axis, d1, d2, q2); }
    }
  }
}
