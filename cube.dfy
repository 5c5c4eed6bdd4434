/**
 * The cube object: six faces of size x size colour ids, stored in one three-dimensional
 * array that every rotation updates in place.  The methods follow the helpers of the
 * Java class one by one; each is proved against the source maps of module Geometry.
 */
module CubeGrid {
  import opened Geometry
  import opened Turns
  import opened Layout

  /** The character show appends for a colour id below ten. */
  function Digit(colour: int): char
    requires 0 <= colour < 10
  {
    ('0' as int + colour) as char
  }

  /** Every character of s is one of the colour digits 0..5. */
  predicate AllDigits(s: string) {
    forall i :: 0 <= i < |s| ==> '0' <= s[i] <= '5'
  }

  class Cube {
    const size: nat
    /** Face, row, column. */
    const grid: array3<int>

    ghost predicate Shaped() {
      grid.Length0 == Faces && grid.Length1 == size && grid.Length2 == size
    }

    /** The colour of cell p. */
    function At(p: Pos): int
      reads grid
      requires Shaped() && InGrid(size, p)
    {
      grid[p.side, p.row, p.col]
    }

    /** The grid has its shape and holds only the colour ids 0..5. */
    ghost predicate Valid()
      reads grid
    {
      Shaped() && forall p {:trigger At(p)} :: InGrid(size, p) ==> 0 <= At(p) < Faces
    }

    /** A solved cube: every cell of face f has colour f. */
    constructor (size: nat)
      ensures this.size == size && Valid() && fresh(grid)
      ensures forall p {:trigger At(p)} :: InGrid(size, p) ==> At(p) == p.side
    {
      var g := new int[Faces, size, size];
      var side := 0;
      while side < Faces
        invariant 0 <= side <= Faces
        invariant forall s, r, c :: 0 <= s < side && 0 <= r < size && 0 <= c < size ==> g[s, r, c] == s
      {
        var row := 0;
        while row < size
          invariant 0 <= row <= size
          invariant forall s, r, c :: 0 <= s < side && 0 <= r < size && 0 <= c < size ==> g[s, r, c] == s
          invariant forall r, c :: 0 <= r < row && 0 <= c < size ==> g[side, r, c] == side
        {
          var column := 0;
          while column < size
            invariant 0 <= column <= size
            invariant forall s, r, c :: 0 <= s < side && 0 <= r < size && 0 <= c < size ==> g[s, r, c] == s
            invariant forall r, c :: 0 <= r < row && 0 <= c < size ==> g[side, r, c] == side
            invariant forall c :: 0 <= c < column ==> g[side, row, c] == side
          {
            g[side, row, column] := side;
            column := column + 1;
          }
          row := row + 1;
        }
        side := side + 1;
      }
      this.size := size;
      grid := g;
    }

    /** Column `column` of face `side`, top to bottom. */
    method TakeVertical(side: int, column: int) returns (result: seq<int>)
      requires Shaped() && 0 <= side < Faces && 0 <= column < size
      ensures |result| == size
      ensures forall row {:trigger result[row]} :: 0 <= row < size ==> result[row] == At(Pos(side, row, column))
    {
      var a := new int[size];
      var row := 0;
      while row < size
        invariant 0 <= row <= size
        invariant forall r {:trigger a[r]} :: 0 <= r < row ==> a[r] == At(Pos(side, r, column))
      {
        a[row] := grid[side, row, column];
        row := row + 1;
      }
      result := a[..];
    }

    /** Row `row` of face `side`, left to right. */
    method TakeHorizontal(side: int, row: int) returns (result: seq<int>)
      requires Shaped() && 0 <= side < Faces && 0 <= row < size
      ensures |result| == size
      ensures forall column {:trigger result[column]} :: 0 <= column < size ==> result[column] == At(Pos(side, row, column))
    {
      var a := new int[size];
      var column := 0;
      while column < size
        invariant 0 <= column <= size
        invariant forall c {:trigger a[c]} :: 0 <= c < column ==> a[c] == At(Pos(side, row, c))
      {
        a[column] := grid[side, row, column];
        column := column + 1;
      }
      result := a[..];
    }

    /** Column `column` of face `side`, bottom to top. */
    method TakeVerticalInverted(side: int, column: int) returns (result: seq<int>)
      requires Shaped() && 0 <= side < Faces && 0 <= column < size
      ensures |result| == size
      ensures forall row {:trigger result[row]} :: 0 <= row < size ==> result[row] == At(Pos(side, size - 1 - row, column))
    {
      var a := new int[size];
      var row := 0;
      while row < size
        invariant 0 <= row <= size
        invariant forall r {:trigger a[r]} :: 0 <= r < row ==> a[r] == At(Pos(side, size - 1 - r, column))
      {
        a[row] := grid[side, size - 1 - row, column];
        row := row + 1;
      }
      result := a[..];
    }

    /** Row `row` of face `side`, right to left. */
    method TakeHorizontalInverted(side: int, row: int) returns (result: seq<int>)
      requires Shaped() && 0 <= side < Faces && 0 <= row < size
      ensures |result| == size
      ensures forall column {:trigger result[column]} :: 0 <= column < size ==> result[column] == At(Pos(side, row, size - 1 - column))
    {
      var a := new int[size];
      var column := 0;
      while column < size
        invariant 0 <= column <= size
        invariant forall c {:trigger a[c]} :: 0 <= c < column ==> a[c] == At(Pos(side, row, size - 1 - c))
      {
        a[column] := grid[side, row, size - 1 - column];
        column := column + 1;
      }
      result := a[..];
    }

    /** Overwrites column `column` of face `side` with the first size values. */
    method ChangeVertical(side: int, column: int, values: seq<int>)
      requires Shaped() && 0 <= side < Faces && 0 <= column < size
      requires |values| >= size
      modifies grid
      ensures forall p {:trigger At(p)} :: InGrid(size, p) ==>
                At(p) == if p.side == side && p.col == column then values[p.row] else old(At(p))
    {
      var row := 0;
      while row < size
        invariant 0 <= row <= size
        invariant forall p :: InGrid(size, p) ==>
                    At(p) == if p.side == side && p.col == column && p.row < row then values[p.row] else old(At(p))
      {
        grid[side, row, column] := values[row];
        row := row + 1;
      }
    }

    /** Overwrites row `row` of face `side` with the first size values. */
    method ChangeHorizontal(side: int, row: int, values: seq<int>)
      requires Shaped() && 0 <= side < Faces && 0 <= row < size
      requires |values| >= size
      modifies grid
      ensures forall p {:trigger At(p)} :: InGrid(size, p) ==>
                At(p) == if p.side == side && p.row == row then values[p.col] else old(At(p))
    {
      var column := 0;
      while column < size
        invariant 0 <= column <= size
        invariant forall p :: InGrid(size, p) ==>
                    At(p) == if p.side == side && p.row == row && p.col < column then values[p.col] else old(At(p))
      {
        grid[side, row, column] := values[column];
        column := column + 1;
      }
    }

    /** Spins face `side` a quarter turn counter-clockwise: three clockwise spins. */
    method RotateSideLeft(side: int)
      requires Shaped() && 0 <= side < Faces
      modifies grid
      ensures forall p {:trigger At(p)} :: InGrid(size, p) ==> At(p) == old(At(if p.side == side then SpinLeft(size, p) else p))
    {
      var i := 0;
      while i < 3
        invariant 0 <= i <= 3
        invariant forall p {:trigger At(p)} :: InGrid(size, p) ==> At(p) == old(At(if p.side == side then Spun(size, i, p) else p))
      {
        label before:
        RotateSideRight(side);
        forall p {:trigger At(p)} | InGrid(size, p)
          ensures At(p) == old(At(if p.side == side then Spun(size, i + 1, p) else p))
        {
          var q := if p.side == side then SpinRight(size, p) else p;
          assert At(p) == old@before(At(q));
          assert old@before(At(q)) == old(At(if q.side == side then Spun(size, i, q) else q));
          assert p.side == side ==> Spun(size, i + 1, p) == Spun(size, i, q);
        }
        i := i + 1;
      }
      forall p {:trigger At(p)} | InGrid(size, p)
        ensures At(p) == old(At(if p.side == side then SpinLeft(size, p) else p))
      {
        SpinLeftIsThreeRights(size, p);
      }
    }

    /** Spins face `side` a quarter turn clockwise, through a copy of the face. */
    method RotateSideRight(side: int)
      requires Shaped() && 0 <= side < Faces
      modifies grid
      ensures forall p {:trigger At(p)} :: InGrid(size, p) ==> At(p) == old(At(if p.side == side then SpinRight(size, p) else p))
    {
      var copy := new int[size, size];
      var row := 0;
      while row < size
        modifies copy
        invariant 0 <= row <= size
        invariant forall r, c :: 0 <= r < row && 0 <= c < size ==> copy[r, c] == grid[side, r, c]
      {
        var column := 0;
        while column < size
          modifies copy
          invariant 0 <= column <= size
          invariant forall r, c :: 0 <= r < row && 0 <= c < size ==> copy[r, c] == grid[side, r, c]
          invariant forall c :: 0 <= c < column ==> copy[row, c] == grid[side, row, c]
        {
          copy[row, column] := grid[side, row, column];
          column := column + 1;
        }
        row := row + 1;
      }
      row := 0;
      while row < size
        modifies grid
        invariant 0 <= row <= size
        invariant forall r, c {:trigger copy[r, c]} :: 0 <= r < size && 0 <= c < size ==> copy[r, c] == old(At(Pos(side, r, c)))
        invariant forall p {:trigger At(p)} :: InGrid(size, p) ==>
                    At(p) == if p.side == side && p.row < row then copy[size - 1 - p.col, p.row] else old(At(p))
      {
        var column := 0;
        while column < size
          modifies grid
          invariant 0 <= column <= size
          invariant forall r, c {:trigger copy[r, c]} :: 0 <= r < size && 0 <= c < size ==> copy[r, c] == old(At(Pos(side, r, c)))
          invariant forall p :: InGrid(size, p) ==>
                      At(p) == if p.side == side && (p.row < row || (p.row == row && p.col < column))
                               then copy[size - 1 - p.col, p.row] else old(At(p))
        {
          grid[side, row, column] := copy[size - 1 - column, row];
          column := column + 1;
        }
        row := row + 1;
      }
    }

    /**
     * The grid part of rotate(side, layer): shift one slice round the four faces of the
     * side's axis (the RotateSide method of that case of the switch) and then, on an
     * outer layer, spin a cap face (SpinCap, the tail every case repeats).
     */
    method Rotate(side: int, layer: int)
      requires Valid() && 0 <= side < Faces && 0 <= layer < size
      modifies grid
      ensures Valid()
      ensures forall p {:trigger At(p)} :: InGrid(size, p) ==> At(p) == old(At(TurnSource(size, side, layer, p)))
    {
      if side == 0 {
        RotateSide0(layer);
      } else if side == 1 {
        RotateSide1(layer);
      } else if side == 2 {
        RotateSide2(layer);
      } else if side == 3 {
        RotateSide3(layer);
      } else if side == 4 {
        RotateSide4(layer);
      } else {
        RotateSide5(layer);
      }
      label shifted:
      SpinCap(side, layer);
      forall p {:trigger At(p)} | InGrid(size, p)
        ensures At(p) == old(At(TurnSource(size, side, layer, p)))
      {
        var q := CapSource(size, side, layer, p);
        assert At(p) == old@shifted(At(q));
      }
    }

    /**
     * The tail of every case of the rotation: layer 0 spins the side's own face
     * clockwise, otherwise the last layer spins the opposite face counter-clockwise.
     */
    method SpinCap(side: int, layer: int)
      requires Shaped() && 0 <= side < Faces && 0 <= layer < size
      modifies grid
      ensures forall p {:trigger At(p)} :: InGrid(size, p) ==> At(p) == old(At(CapSource(size, side, layer, p)))
    {
      if layer == 0 {
        RotateSideRight(side);
      } else if layer == size - 1 {
        RotateSideLeft(Opposite(side));
      }
    }

    /** Case 0 of the rotation switch: rows `layer` of faces 4, 3, 2 and 1 pass one face on. */
    method RotateSide0(layer: int)
      requires Shaped() && 0 <= layer < size
      modifies grid
      ensures forall p {:trigger At(p)} :: InGrid(size, p) ==> At(p) == old(At(ShiftSource(size, 0, layer, p)))
    {
      var coloursUp := TakeHorizontal(4, layer);
      var coloursRight := TakeHorizontal(3, layer);
      var coloursDown := TakeHorizontal(2, layer);
      var coloursLeft := TakeHorizontal(1, layer);
      ChangeHorizontal(4, layer, coloursLeft);
      ChangeHorizontal(3, layer, coloursUp);
      ChangeHorizontal(2, layer, coloursRight);
      ChangeHorizontal(1, layer, coloursDown);
      forall p {:trigger At(p)} | InGrid(size, p)
        ensures At(p) == old(At(ShiftSource(size, 0, layer, p)))
      {
        ShiftOfSide0(size, layer, p);
      }
    }

    /** Case 1: columns `layer` of faces 0, 2 and 5 and the mirrored column of face 4, the last two read bottom to top. */
    method RotateSide1(layer: int)
      requires Shaped() && 0 <= layer < size
      modifies grid
      ensures forall p {:trigger At(p)} :: InGrid(size, p) ==> At(p) == old(At(ShiftSource(size, 1, layer, p)))
    {
      var layerInverted := size - 1 - layer;
      var coloursUp := TakeVertical(0, layer);
      var coloursRight := TakeVertical(2, layer);
      var coloursDown := TakeVerticalInverted(5, layer);
      var coloursLeft := TakeVerticalInverted(4, layerInverted);
      ChangeVertical(0, layer, coloursLeft);
      ChangeVertical(2, layer, coloursUp);
      ChangeVertical(5, layer, coloursRight);
      ChangeVertical(4, layerInverted, coloursDown);
      forall p {:trigger At(p)} | InGrid(size, p)
        ensures At(p) == old(At(ShiftSource(size, 1, layer, p)))
      {
        ShiftOfSide1(size, layer, p);
      }
    }

    /** Case 2: the row of face 0 and the column of face 3 nearest face 2 and their counterparts on faces 5 and 1. */
    method RotateSide2(layer: int)
      requires Shaped() && 0 <= layer < size
      modifies grid
      ensures forall p {:trigger At(p)} :: InGrid(size, p) ==> At(p) == old(At(ShiftSource(size, 2, layer, p)))
    {
      var layerInverted := size - 1 - layer;
      var coloursUp := TakeHorizontal(0, layerInverted);
      var coloursRight := TakeVerticalInverted(3, layer);
      var coloursDown := TakeHorizontal(5, layer);
      var coloursLeft := TakeVerticalInverted(1, layerInverted);
      ChangeHorizontal(0, layerInverted, coloursLeft);
      ChangeVertical(3, layer, coloursUp);
      ChangeHorizontal(5, layer, coloursRight);
      ChangeVertical(1, layerInverted, coloursDown);
      forall p {:trigger At(p)} | InGrid(size, p)
        ensures At(p) == old(At(ShiftSource(size, 2, layer, p)))
      {
        ShiftOfSide2(size, layer, p);
      }
    }

    /** Case 3: the mirrored columns of faces 0, 5 and 2 and column `layer` of face 4, read bottom to top where face 4 is involved. */
    method RotateSide3(layer: int)
      requires Shaped() && 0 <= layer < size
      modifies grid
      ensures forall p {:trigger At(p)} :: InGrid(size, p) ==> At(p) == old(At(ShiftSource(size, 3, layer, p)))
    {
      var layerInverted := size - 1 - layer;
      var coloursUp := TakeVerticalInverted(0, layerInverted);
      var coloursRight := TakeVerticalInverted(4, layer);
      var coloursDown := TakeVertical(5, layerInverted);
      var coloursLeft := TakeVertical(2, layerInverted);
      ChangeVertical(0, layerInverted, coloursLeft);
      ChangeVertical(4, layer, coloursUp);
      ChangeVertical(5, layerInverted, coloursRight);
      ChangeVertical(2, layerInverted, coloursDown);
      forall p {:trigger At(p)} | InGrid(size, p)
        ensures At(p) == old(At(ShiftSource(size, 3, layer, p)))
      {
        ShiftOfSide3(size, layer, p);
      }
    }

    /** Case 4: row `layer` of face 0, column `layer` of face 1 and the mirrored slices of faces 5 and 3. */
    method RotateSide4(layer: int)
      requires Shaped() && 0 <= layer < size
      modifies grid
      ensures forall p {:trigger At(p)} :: InGrid(size, p) ==> At(p) == old(At(ShiftSource(size, 4, layer, p)))
    {
      var layerInverted := size - 1 - layer;
      var coloursUp := TakeHorizontalInverted(0, layer);
      var coloursRight := TakeVertical(1, layer);
      var coloursDown := TakeHorizontalInverted(5, layerInverted);
      var coloursLeft := TakeVertical(3, layerInverted);
      ChangeHorizontal(0, layer, coloursLeft);
      ChangeVertical(1, layer, coloursUp);
      ChangeHorizontal(5, layerInverted, coloursRight);
      ChangeVertical(3, layerInverted, coloursDown);
      forall p {:trigger At(p)} | InGrid(size, p)
        ensures At(p) == old(At(ShiftSource(size, 4, layer, p)))
      {
        ShiftOfSide4(size, layer, p);
      }
    }

    /** Case 5: the mirrored rows of faces 2, 3, 4 and 1 pass one face on. */
    method RotateSide5(layer: int)
      requires Shaped() && 0 <= layer < size
      modifies grid
      ensures forall p {:trigger At(p)} :: InGrid(size, p) ==> At(p) == old(At(ShiftSource(size, 5, layer, p)))
    {
      var layerInverted := size - 1 - layer;
      var coloursUp := TakeHorizontal(2, layerInverted);
      var coloursRight := TakeHorizontal(3, layerInverted);
      var coloursDown := TakeHorizontal(4, layerInverted);
      var coloursLeft := TakeHorizontal(1, layerInverted);
      ChangeHorizontal(2, layerInverted, coloursLeft);
      ChangeHorizontal(3, layerInverted, coloursUp);
      ChangeHorizontal(4, layerInverted, coloursRight);
      ChangeHorizontal(1, layerInverted, coloursDown);
      forall p {:trigger At(p)} | InGrid(size, p)
        ensures At(p) == old(At(ShiftSource(size, 5, layer, p)))
      {
        ShiftOfSide5(size, layer, p);
      }
    }

    /**
     * The snapshot show builds: every colour as one digit, face by face, row by row,
     * column by column.
     */
    method Show() returns (s: string)
      requires Valid()
      ensures |s| == Faces * (size * size)
      ensures forall p :: InGrid(size, p) ==> 0 <= Index(size, p) < |s| && s[Index(size, p)] == Digit(At(p))
      ensures forall i :: 0 <= i < |s| ==> IsCellOffset(size, i)
      ensures forall i :: 0 <= i < |s| ==> '0' <= s[i] <= '5'
    {
      s := [];
      var side := 0;
      while side < Faces
        invariant 0 <= side <= Faces
        invariant Shown(s, Pos(side, 0, 0))
      {
        var row := 0;
        while row < size
          invariant 0 <= row <= size
          invariant Shown(s, Pos(side, row, 0))
        {
          var column := 0;
          while column < size
            invariant 0 <= column <= size
            invariant Shown(s, Pos(side, row, column))
          {
            ShownStep(s, Pos(side, row, column));
            s := s + [Digit(At(Pos(side, row, column)))];
            column := column + 1;
          }
          ShownNextRow(s, side, row);
          row := row + 1;
        }
        ShownNextFace(s, side);
        side := side + 1;
      }
      ShownAll(s);
    }

    /** Appending the digit of cell q extends what is shown to the cell after q. */
    lemma ShownStep(s: string, q: Pos)
      requires Valid() && InGrid(size, q) && Shown(s, q)
      ensures Shown(s + [Digit(At(q))], Pos(q.side, q.row, q.col + 1))
    {
      var t := s + [Digit(At(q))];
      forall p | InGrid(size, p) && Before(p, Pos(q.side, q.row, q.col + 1))
        ensures 0 <= Index(size, p) < |t| && t[Index(size, p)] == Digit(At(p))
      {
        if p != q {
          assert Before(p, q);
        }
      }
    }

    /** Past the end of a row, show continues at the start of the next row. */
    lemma ShownNextRow(s: string, side: int, row: int)
      requires Valid() && 0 <= side < Faces && 0 <= row < size
      requires Shown(s, Pos(side, row, size))
      ensures Shown(s, Pos(side, row + 1, 0))
    {
    }

    /** Past the last row of a face, show continues at the start of the next face. */
    lemma ShownNextFace(s: string, side: int)
      requires Valid() && 0 <= side < Faces
      requires Shown(s, Pos(side, size, 0))
      ensures Shown(s, Pos(side + 1, 0, 0))
    {
    }

    /** Past the last face, every cell is shown, and every position of s is some cell's. */
    lemma ShownAll(s: string)
      requires Valid() && Shown(s, Pos(Faces, 0, 0))
      ensures |s| == Faces * (size * size)
      ensures forall p :: InGrid(size, p) ==> 0 <= Index(size, p) < |s| && s[Index(size, p)] == Digit(At(p))
      ensures forall i :: 0 <= i < |s| ==> IsCellOffset(size, i)
      ensures forall i :: 0 <= i < |s| ==> '0' <= s[i] <= '5'
    {
      TimesIsProduct(size, size);
      TimesIsProduct(Faces, size * size);
      forall i | 0 <= i < |s|
        ensures IsCellOffset(size, i)
      {
        IndexOnto(size, i);
      }
    }

    /** Show's contract fixes the whole string: two results of Show are equal. */
    lemma ShowIsUnique(s1: string, s2: string)
      requires Valid() && |s1| == |s2|
      requires forall p :: InGrid(size, p) ==> 0 <= Index(size, p) < |s1| && s1[Index(size, p)] == Digit(At(p))
      requires forall p :: InGrid(size, p) ==> 0 <= Index(size, p) < |s2| && s2[Index(size, p)] == Digit(At(p))
      requires forall i :: 0 <= i < |s1| ==> IsCellOffset(size, i)
      ensures s1 == s2
    {
      forall i | 0 <= i < |s1|
        ensures s1[i] == s2[i]
      {
        assert IsCellOffset(size, i);
        var p :| InGrid(size, p) && Index(size, p) == i;
      }
    }

    /**
     * s holds exactly the cells before `next` in show's order: its length is next's
     * index, every earlier cell sits at its index as a digit, and every character is 0..5.
     */
    ghost predicate Shown(s: string, next: Pos)
      reads grid
      requires Valid()
    {
      |s| == Index(size, next)
      && (forall p :: InGrid(size, p) && Before(p, next) ==> ShowsCell(s, p))
      && AllDigits(s)
    }

    /** Cell p's colour sits at p's index of s, as a digit. */
    ghost predicate ShowsCell(s: string, p: Pos)
      reads grid
      requires Valid() && InGrid(size, p)
    {
      0 <= Index(size, p) < |s| && s[Index(size, p)] == Digit(At(p))
    }
  }
}
