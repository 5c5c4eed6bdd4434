# Concurrent cube — grid and rotation geometry

A Dafny model of the sequential core of `Cube.java`: the 6 × size × size grid of colour ids
(`sequence[side][row][column]`), the slice readers and writers, the in-place face spin,
the rotation switch of `rotate(side, layer)` with its axis and physical-layer bookkeeping,
and the string `show` builds.

The model has three modules:

- `Geometry` (geometry.dfy) holds cell positions, the side → axis mapping, `actualLayer`
  and the rotation table.
  - Each of the 24 cases of the table (6 sides × 4 change calls) is a `Link`: the slice a
    change call overwrites, the slice its colours were taken from, and whether they were
    read with an inverted reader.
  - A rotation is described by its *source map* `TurnSource(n, side, layer, p)`: the cell
    whose old colour ends up in cell p. It is the ring shift followed by the cap spin.
- `Turns` (turns.dfy) proves properties of the source maps. A turn is a permutation, and
  four turns are the identity. A turn of the opposite side at the mirrored layer undoes a
  turn. A turn moves only the cells of the physical layer whose lock it takes, so turns of
  different layers of one axis commute.
- `Layout` (layout.dfy) holds the order in which `show` lists the cells. A cell's offset is
  side·n·n + row·n + column, and the offsets of the 6·n·n cells are exactly the positions
  0 .. 6·n·n - 1, each used once.
- `CubeGrid` (cube.dfy) holds the class `Cube`: a `const grid: array3<int>` that the
  methods update in place, as the Java helpers do.
  - The two slice writers state the whole new grid: the written slice holds the given
    values and every other cell keeps its colour.
  - Every spin and rotation method is proved against a source map:
    `ensures forall p :: At(p) == old(At(Source(p)))`.
  - `Valid()` (grid shape plus colours 0..5) is the class invariant. The constructor
    establishes it, `Rotate` keeps it, and `Show` relies on it. The private helpers need
    only the grid's shape.

## Model

| member | source | states |
|---|---|---|
| CubeGrid.Cube.constructor | Cube.java:39-47 | the grid is 6 × size × size, all colours are valid, and every cell of face f holds colour f |
| CubeGrid.Cube.TakeVertical | Cube.java:70-76 | returns size values; value r is the colour at row r of the given column |
| CubeGrid.Cube.TakeHorizontal | Cube.java:79-83 | returns size values; value c is the colour at column c of the given row |
| CubeGrid.Cube.TakeVerticalInverted | Cube.java:86-92 | returns the column bottom to top: value r is the colour at row size-1-r |
| CubeGrid.Cube.TakeHorizontalInverted | Cube.java:95-101 | returns the row right to left: value c is the colour at column size-1-c |
| CubeGrid.Cube.ChangeVertical | Cube.java:104-108 | the cell at row r of that column now holds values[r]; every other cell keeps its colour |
| CubeGrid.Cube.ChangeHorizontal | Cube.java:111-114 | the cell at column c of that row now holds values[c]; every other cell keeps its colour |
| CubeGrid.Cube.RotateSideRight | Cube.java:124-136 | new[r][c] = old[size-1-c][r] on that face; all other faces unchanged |
| CubeGrid.Cube.RotateSideLeft | Cube.java:117-121 | three right spins give new[r][c] = old[c][size-1-r] on that face (a counter-clockwise spin); all other faces unchanged |
| CubeGrid.Cube.SpinCap | Cube.java:248-252 | layer 0 spins face `side` clockwise; otherwise the last layer spins the opposite face counter-clockwise; otherwise nothing changes |
| CubeGrid.Cube.RotateSide0 | Cube.java:239-247 | the four takes and changes of case 0 move every cell exactly as the ring part of the table (ShiftSource) for side 0 says |
| CubeGrid.Cube.RotateSide1 | Cube.java:258-266 | the same for case 1 |
| CubeGrid.Cube.RotateSide2 | Cube.java:278-286 | the same for case 2 |
| CubeGrid.Cube.RotateSide3 | Cube.java:296-304 | the same for case 3 |
| CubeGrid.Cube.RotateSide4 | Cube.java:314-322 | the same for case 4 |
| CubeGrid.Cube.RotateSide5 | Cube.java:332-340 | the same for case 5 |
| CubeGrid.Cube.Rotate | Cube.java:236-348 | every cell p ends up with the old colour of TurnSource(size, side, layer, p), and the grid stays valid |
| CubeGrid.Cube.Show | Cube.java:362-369 | the result has 6·size·size characters; the character at side·size·size + row·size + column is the digit of that cell; every position is some cell's offset; every character is one of 0..5 |
| CubeGrid.Cube.ShownStep | Cube.java:366 | appending one cell's digit extends the shown prefix by exactly that cell |
| CubeGrid.Cube.ShownNextRow | Cube.java:364-367 | the end of a row is the start of the next row in show's order |
| CubeGrid.Cube.ShownNextFace | Cube.java:363-368 | the end of a face is the start of the next face in show's order |
| CubeGrid.Cube.ShownAll | Cube.java:362-369 | once all six faces are shown, every cell sits at its offset, every position belongs to a cell, and the length is 6·size·size |
| CubeGrid.Cube.ShowIsUnique | Cube.java:362-369 | show's contract fixes the whole string: two strings that satisfy it are equal |
| Geometry.Axis | Cube.java:202-219 | a rotation's axis is one of 0, 1, 2, never show's axis 3 |
| Geometry.ActualLayer | Cube.java:223-226 | the layer lock a rotation takes lies in 0..size-1 |
| Geometry.Opposite | Cube.java:251 | the face spun counter-clockwise on the last layer is another face |
| Geometry.RingLink | Cube.java:239-247 | every slice the table reads or writes lies inside the grid |
| Geometry.CapSource | Cube.java:248-252 | the cap spin keeps every cell on its face and inside the grid |
| Geometry.ShiftSource | Cube.java:239-247 | the ring shift reads every cell from a cell inside the grid |
| Geometry.TurnSource | Cube.java:236-348 | a rotation reads every cell from a cell inside the grid |
| Geometry.Spun | Cube.java:117-121 | k clockwise spins keep a cell on its face and inside the grid |
| Turns.AxisSharedByOpposites | Cube.java:202-219 | two sides share an axis if and only if they are equal or opposite |
| Turns.OppositeIsInvolution | Cube.java:248-347 | the opposite of the opposite face is the face itself |
| Turns.ActualLayerMirror | Cube.java:223-226 | a side's layer and its opposite's mirrored layer take the same lock |
| Turns.SpinLeftIsThreeRights | Cube.java:117-121 | three clockwise spins equal one counter-clockwise spin |
| Turns.FourSpinsAreIdentity | Cube.java:124-136 | four clockwise spins bring every cell back |
| Turns.SpinLeftUndoesSpinRight | Cube.java:117-136 | a counter-clockwise spin undoes a clockwise one, and conversely |
| Turns.RingIsClosed | Cube.java:236-348 | each case's four changes form a closed cycle of four distinct ring faces with an even number of inverted reads |
| Turns.RingIsChained | Cube.java:236-348 | every change writes colours taken from the slice the previous change overwrote |
| Turns.RingAvoidsCaps | Cube.java:236-348 | no change writes onto the side's own face or its opposite |
| Turns.RingUsesFourFaces | Cube.java:236-348 | the four changed slices lie on four different faces |
| Turns.RingHasEvenReversals | Cube.java:236-348 | an even number of each case's four reads are inverted |
| Turns.OppositeRingRunsBackwards | Cube.java:236-348 | the opposite side at the mirrored layer has the same links with source and target exchanged |
| Turns.OppositeRingSameCells | Cube.java:236-348 | the opposite side at the mirrored layer changes the same cells |
| Turns.ShiftOnLink | Cube.java:239-247 | a cell on a written slice takes its colour through that slice's link |
| Turns.ShiftOffRing | Cube.java:239-247 | the ring shift leaves every other cell in place |
| Turns.ShiftOfSide0 | Cube.java:239-247 | case 0 cell by cell: row `layer` of face 4 reads face 1's, 3 reads 4's, 2 reads 3's, 1 reads 2's; everything else stays |
| Turns.ShiftOfSide1 | Cube.java:258-266 | case 1 cell by cell, including the two inverted columns through face 4 |
| Turns.ShiftOfSide2 | Cube.java:278-286 | case 2 cell by cell: rows of faces 0 and 5 exchange with columns of faces 1 and 3, two of them inverted |
| Turns.ShiftOfSide3 | Cube.java:296-304 | case 3 cell by cell, including the two inverted columns through face 4 |
| Turns.ShiftOfSide4 | Cube.java:314-322 | case 4 cell by cell: rows of faces 0 and 5 exchange with columns of faces 1 and 3, two of them inverted |
| Turns.ShiftOfSide5 | Cube.java:332-340 | case 5 cell by cell: the mirrored rows of faces 2, 3, 4 and 1 each read the previous face's |
| Turns.TurnOnRing | Cube.java:236-348 | the cap spin never moves a ring cell, so a ring cell's source is its link's |
| Turns.TurnOffRing | Cube.java:236-348 | a cell off the ring moves only by the cap spin and stays off the ring |
| Turns.TurnAlongRing | Cube.java:236-348 | rotation moves a ring cell to the previous slice of the cycle, at the same or the mirrored offset |
| Turns.TurnFixesOtherCells | Cube.java:236-348 | a rotation changes only its four ring slices and the cap face of layer 0 or of the last layer |
| Turns.RingFourTimes | Cube.java:236-348 | four rotations carry a ring cell once round the cycle and back |
| Turns.TurnFourTimes | Cube.java:236-348 | rotating the same (side, layer) four times restores every cell |
| Turns.TurnIsPermutation | Cube.java:236-348 | a rotation is a bijection of cells: injective, and every cell is the source of some cell |
| Turns.OppositeTurnUndoesOnRing | Cube.java:236-348 | on the ring, the rotation of the opposite side at the mirrored layer is undone by this one |
| Turns.OppositeTurnUndoes | Cube.java:236-348 | rotate(side, layer) undoes rotate(opposite side, size-1-layer) on every cell |
| Turns.RingInSlab | Cube.java:223-348 | every slice a rotation writes lies in the physical layer whose lock it takes |
| Turns.CapInSlab | Cube.java:223-348 | a cap cell that moves lies, before and after, in the locked physical layer |
| Turns.TurnStaysInSlab | Cube.java:223-348 | a rotation fixes every cell outside its locked layer and keeps that layer's cells inside it |
| Turns.SlabsDisjoint | Cube.java:223-228 | different layer locks of one axis cover disjoint cells |
| Turns.DisjointLayersCommute | Cube.java:223-348 | two rotations of one axis holding different layer locks give the same grid in either order |
| Layout.IndexIsProduct | Cube.java:362-369 | show's offset of a cell is side·n·n + row·n + column |
| Layout.IndexInRange | Cube.java:362-369 | a cell's offset lies inside its face's block of n·n characters and below 6·n·n |
| Layout.IndexInjective | Cube.java:362-369 | different cells have different offsets |
| Layout.IndexOnto | Cube.java:362-369 | every position below 6·n·n is the offset of some cell |

## Left out

- The admission protocol (`accessProtocol`, `exitProtocol`), the axis, mutex and layer semaphores, and the `InterruptedException` paths. They only coordinate threads. The model describes one rotation or one snapshot at a time. `DisjointLayersCommute` states why two rotations holding different layer locks may overlap.
- The `beforeRotation`, `afterRotation`, `beforeShowing` and `afterShowing` hooks. They are calls into code that is not part of this model.
- Argument validation. Java gives no axis to an out-of-range side and throws on an out-of-range layer. The model requires `0 <= side < 6` and `0 <= layer < size` instead.
- The take readers build a fresh Java array. The model fills a local array and returns its contents as a sequence value.
- ChangeVertical and ChangeHorizontal require at least `size` values. With a shorter array, changeVertical's loop writes the cells it has values for and then throws `ArrayIndexOutOfBoundsException`, leaving the column partly written. changeHorizontal's `System.arraycopy` throws before writing anything. Neither failure is modelled.
- The guard `if (size >= 0)` in changeHorizontal always holds, so it is not modelled.
- CubeGrid.Cube.Rotate: requires `Valid()`, the class invariant that the constructor establishes and `Rotate` preserves; the Java method states no such condition.
- CubeGrid.Cube.Rotate: each Java case repeats the cap code. The model runs the case's ring code in `RotateSideK`, then the shared `SpinCap`, in the same order.
- CubeGrid.Cube.Show: returns the digits as a `string` rather than a `StringBuilder`. `append(int)` of a colour 0..5 is exactly one digit.
- Turns.TurnIsPermutation: shows the rotation is a bijection of cells. Preservation of the colour multiset is not derived from it.
- Turns.TurnFourTimes: stated on the source map that `Rotate` is proved to realise, not as four successive calls of `Rotate`. The same holds for OppositeTurnUndoes and DisjointLayersCommute.
