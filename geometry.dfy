/**
 * The fixed geometry of the cube: positions on the 6 x n x n grid, the side-to-axis
 * mapping, the physical layer a rotation locks, the in-place face spin, and the
 * per-side rotation table.  A rotation is described by where every cell takes its
 * new colour from ("source positions"); the imperative model in CubeGrid is proved
 * to realise exactly these source maps.
 */
module Geometry {

  /** Number of faces (the constant SIDESNUM of the constructor). */
  const Faces := 6

  /** Admission axis used by show; rotations use the axes 0, 1 and 2. */
  const ShowAxis := 3

  /** A cell of the grid: face, row, column. */
  datatype Pos = Pos(side: int, row: int, col: int)

  predicate InGrid(n: int, p: Pos) {
    0 <= p.side < Faces && 0 <= p.row < n && 0 <= p.col < n
  }

  /** The cap face on the other end of a side's axis (the face rotateSideLeft spins). */
  function Opposite(side: int): (o: int)
    requires 0 <= side < Faces
    ensures 0 <= o < Faces && o != side
  {
    match side
    case 0 => 5
    case 1 => 3
    case 2 => 4
    case 3 => 1
    case 4 => 2
    case _ => 0
  }

  /** The admission axis of a rotation of `side`. */
  function Axis(side: int): (axis: int)
    requires 0 <= side < Faces
    ensures 0 <= axis < 3 && axis != ShowAxis
  {
    if side == 0 || side == 5 then 0
    else if side == 1 || side == 3 then 1
    else 2
  }

  /**
   * The layer lock a rotation takes: sides 3, 4 and 5 count their layers from the
   * far cap, so their layer index is mirrored.
   */
  function ActualLayer(n: int, side: int, layer: int): (depth: int)
    requires 0 <= side < Faces && 0 <= layer < n
    ensures 0 <= depth < n
  {
    if side == 3 || side == 4 || side == 5 then n - 1 - layer else layer
  }

  /** Source of cell p after one clockwise spin of its face (rotateSideRight). */
  function SpinRight(n: int, p: Pos): Pos {
    Pos(p.side, n - 1 - p.col, p.row)
  }

  /** Source of cell p after one counter-clockwise spin of its face. */
  function SpinLeft(n: int, p: Pos): Pos {
    Pos(p.side, p.col, n - 1 - p.row)
  }

  /** Source of cell p after k clockwise spins of its face. */
  function Spun(n: int, k: nat, p: Pos): (q: Pos)
    ensures q.side == p.side && (InGrid(n, p) ==> InGrid(n, q))
  {
    if k == 0 then p else Spun(n, k - 1, SpinRight(n, p))
  }

  /** A row or a column of one face. */
  datatype Slice = Row(face: int, index: int) | Column(face: int, index: int)

  predicate OnSlice(s: Slice, p: Pos) {
    p.side == s.face && if s.Row? then p.row == s.index else p.col == s.index
  }

  predicate SliceInGrid(n: int, s: Slice) {
    0 <= s.face < Faces && 0 <= s.index < n
  }

  /** Position of p along the slice it lies on. */
  function Offset(s: Slice, p: Pos): int {
    if s.Row? then p.col else p.row
  }

  /** The k-th cell of a slice. */
  function CellAt(s: Slice, k: int): Pos {
    if s.Row? then Pos(s.face, s.index, k) else Pos(s.face, k, s.index)
  }

  /**
   * One entry of the rotation table: `target` is overwritten with the colours of
   * `source`, read forward or (when `reversed`) with the inverted readers.
   */
  datatype Link = Link(target: Slice, source: Slice, reversed: bool)

  /** Source of a cell p lying on link.target. */
  function LinkSource(n: int, link: Link, p: Pos): Pos {
    var k := Offset(link.target, p);
    CellAt(link.source, if link.reversed then n - 1 - k else k)
  }

  /**
   * The rotation table: link j (0 <= j < 4) of the ring that rotate(side, layer) shifts,
   * links numbered in the order of the change calls.  `inv` is size - 1 - layer.
   */
  function RingLink(n: int, side: int, layer: int, j: int): (link: Link)
    requires 0 <= side < Faces && 0 <= layer < n && 0 <= j < 4
    ensures SliceInGrid(n, link.target) && SliceInGrid(n, link.source)
  {
    var inv := n - 1 - layer;
    match side
    case 0 => (match j
               case 0 => Link(Row(4, layer), Row(1, layer), false)
               case 1 => Link(Row(3, layer), Row(4, layer), false)
               case 2 => Link(Row(2, layer), Row(3, layer), false)
               case _ => Link(Row(1, layer), Row(2, layer), false))
    case 1 => (match j
               case 0 => Link(Column(0, layer), Column(4, inv), true)
               case 1 => Link(Column(2, layer), Column(0, layer), false)
               case 2 => Link(Column(5, layer), Column(2, layer), false)
               case _ => Link(Column(4, inv), Column(5, layer), true))
    case 2 => (match j
               case 0 => Link(Row(0, inv), Column(1, inv), true)
               case 1 => Link(Column(3, layer), Row(0, inv), false)
               case 2 => Link(Row(5, layer), Column(3, layer), true)
               case _ => Link(Column(1, inv), Row(5, layer), false))
    case 3 => (match j
               case 0 => Link(Column(0, inv), Column(2, inv), false)
               case 1 => Link(Column(4, layer), Column(0, inv), true)
               case 2 => Link(Column(5, inv), Column(4, layer), true)
               case _ => Link(Column(2, inv), Column(5, inv), false))
    case 4 => (match j
               case 0 => Link(Row(0, layer), Column(3, inv), false)
               case 1 => Link(Column(1, layer), Row(0, layer), true)
               case 2 => Link(Row(5, inv), Column(1, layer), false)
               case _ => Link(Column(3, inv), Row(5, inv), true))
    case _ => (match j
               case 0 => Link(Row(2, inv), Row(1, inv), false)
               case 1 => Link(Row(3, inv), Row(2, inv), false)
               case 2 => Link(Row(4, inv), Row(3, inv), false)
               case _ => Link(Row(1, inv), Row(4, inv), false))
  }

  /** The link before link j in the cycle. */
  function Prev(j: int): int {
    if j == 0 then 3 else j - 1
  }

  /**
   * The table describes a closed ring round the side's axis: every link reads the slice
   * written by the link before it, the four written slices lie on four different faces,
   * none of them a cap of the side's axis, and an even number of links read reversed.
   */
  ghost predicate ClosedRing(n: int, side: int, layer: int)
    requires 0 <= side < Faces && 0 <= layer < n
  {
    LinksChained(n, side, layer) && RingOffCaps(n, side, layer)
    && RingFacesDistinct(n, side, layer) && EvenReversals(n, side, layer)
  }

  /** Every link reads the slice the link before it writes. */
  ghost predicate LinksChained(n: int, side: int, layer: int)
    requires 0 <= side < Faces && 0 <= layer < n
  {
    forall j :: 0 <= j < 4 ==> RingLink(n, side, layer, j).source == RingLink(n, side, layer, Prev(j)).target
  }

  /** No written slice lies on a cap face of the side's axis. */
  ghost predicate RingOffCaps(n: int, side: int, layer: int)
    requires 0 <= side < Faces && 0 <= layer < n
  {
    forall j :: 0 <= j < 4 ==> RingLink(n, side, layer, j).target.face != side
                               && RingLink(n, side, layer, j).target.face != Opposite(side)
  }

  /** The four written slices lie on four different faces. */
  ghost predicate RingFacesDistinct(n: int, side: int, layer: int)
    requires 0 <= side < Faces && 0 <= layer < n
  {
    forall i, j :: 0 <= i < j < 4 ==> RingLink(n, side, layer, i).target.face != RingLink(n, side, layer, j).target.face
  }

  /** An even number of links read their source reversed. */
  ghost predicate EvenReversals(n: int, side: int, layer: int)
    requires 0 <= side < Faces && 0 <= layer < n
  {
    (RingLink(n, side, layer, 0).reversed == RingLink(n, side, layer, 1).reversed)
      == (RingLink(n, side, layer, 2).reversed == RingLink(n, side, layer, 3).reversed)
  }

  /**
   * The cap part of a rotation: layer 0 spins the side's own face clockwise,
   * otherwise the last layer spins the opposite face counter-clockwise.
   */
  function CapSource(n: int, side: int, layer: int, p: Pos): (q: Pos)
    requires 0 <= side < Faces
    ensures q.side == p.side && (InGrid(n, p) ==> InGrid(n, q))
  {
    if layer == 0 then (if p.side == side then SpinRight(n, p) else p)
    else if layer == n - 1 then (if p.side == Opposite(side) then SpinLeft(n, p) else p)
    else p
  }

  /** The ring part of a rotation: a cell on a written slice takes its colour through that slice's link. */
  function ShiftSource(n: int, side: int, layer: int, p: Pos): (q: Pos)
    requires 0 <= side < Faces && 0 <= layer < n
    ensures InGrid(n, p) ==> InGrid(n, q)
  {
    if OnSlice(RingLink(n, side, layer, 0).target, p) then LinkSource(n, RingLink(n, side, layer, 0), p)
    else if OnSlice(RingLink(n, side, layer, 1).target, p) then LinkSource(n, RingLink(n, side, layer, 1), p)
    else if OnSlice(RingLink(n, side, layer, 2).target, p) then LinkSource(n, RingLink(n, side, layer, 2), p)
    else if OnSlice(RingLink(n, side, layer, 3).target, p) then LinkSource(n, RingLink(n, side, layer, 3), p)
    else p
  }

  /**
   * Where cell p takes its colour from when rotate(side, layer) runs: the ring is
   * shifted first, then the cap face is spun.
   */
  function TurnSource(n: int, side: int, layer: int, p: Pos): (q: Pos)
    requires 0 <= side < Faces && 0 <= layer < n
    ensures InGrid(n, p) ==> InGrid(n, q)
  {
    ShiftSource(n, side, layer, CapSource(n, side, layer, p))
  }

  /** The cells of physical layer `depth` of an axis: the cells a rotation holding that layer's lock may move. */
  predicate InSlab(n: int, axis: int, depth: int, p: Pos) {
    if axis == 0 then
      (p.side == 0 && depth == 0) || (p.side == 5 && depth == n - 1)
      || (1 <= p.side <= 4 && p.row == depth)
    else if axis == 1 then
      (p.side == 1 && depth == 0) || (p.side == 3 && depth == n - 1)
      || ((p.side == 0 || p.side == 2 || p.side == 5) && p.col == depth)
      || (p.side == 4 && p.col == n - 1 - depth)
    else
      (p.side == 2 && depth == 0) || (p.side == 4 && depth == n - 1)
      || (p.side == 0 && p.row == n - 1 - depth) || (p.side == 5 && p.row == depth)
      || (p.side == 3 && p.col == depth) || (p.side == 1 && p.col == n - 1 - depth)
  }
}
