/**
 * The layout of show's output: cells in face-major, row-major, column-major order,
 * each at offset side * n * n + row * n + col, so that the offsets of the 6 * n * n
 * cells are exactly the positions 0 .. 6 * n * n - 1.
 */
module Layout {
  import opened Geometry

  /** p comes before q in face-major, row-major, column-major order. */
  predicate Before(p: Pos, q: Pos) {
    p.side < q.side || (p.side == q.side && (p.row < q.row || (p.row == q.row && p.col < q.col)))
  }

  /**
   * a copies of b added up (a * b for a >= 0): show's offsets grow by counting, one
   * row of n cells or one face of n * n cells at a time.
   */
  function Times(a: int, b: int): int
    decreases a
  {
    if a <= 0 then 0 else Times(a - 1, b) + b
  }

  /** Offset of cell p in show's face-major, row-major, column-major output: side * n * n + row * n + col. */
  function Index(n: int, p: Pos): int {
    Times(p.side, Times(n, n)) + Times(p.row, n) + p.col
  }

  lemma {:induction false} TimesIsProduct(a: int, b: int)
    requires 0 <= a
    ensures Times(a, b) == a * b
  {
    if a > 0 {
      TimesIsProduct(a - 1, b);
    }
  }

  lemma MulLeq(a: int, b: int, c: int)
    requires a <= b && 0 <= c
    ensures a * c <= b * c
  {
  }

  /** Quotient and remainder are unique: the fact behind show's index arithmetic. */
  lemma DivisionUnique(m: int, a1: int, b1: int, a2: int, b2: int)
    requires 0 <= b1 < m && 0 <= b2 < m && a1 * m + b1 == a2 * m + b2
    ensures a1 == a2 && b1 == b2
  {
    if a1 < a2 {
      MulLeq(a1 + 1, a2, m);
    } else if a2 < a1 {
      MulLeq(a2 + 1, a1, m);
    }
  }

  /** show's offset of a cell, written out with multiplication. */
  lemma IndexIsProduct(n: int, p: Pos)
    requires InGrid(n, p)
    ensures Index(n, p) == p.side * (n * n) + p.row * n + p.col
  {
    TimesIsProduct(n, n);
    TimesIsProduct(p.side, n * n);
    TimesIsProduct(p.row, n);
  }

  /** Row and column of a cell give an offset inside its face's block of n * n. */
  lemma OffsetInFace(n: int, r: int, c: int)
    requires 0 <= r < n && 0 <= c < n
    ensures 0 <= r * n + c < n * n
  {
    MulLeq(0, r, n);
    MulLeq(r, n - 1, n);
  }

  /** Every cell has an offset inside its own face's block of n * n characters. */
  lemma IndexInRange(n: int, p: Pos)
    requires InGrid(n, p)
    ensures p.side * (n * n) <= Index(n, p) < (p.side + 1) * (n * n)
    ensures Index(n, p) < Faces * (n * n)
  {
    IndexIsProduct(n, p);
    OffsetInFace(n, p.row, p.col);
    MulLeq(p.side + 1, Faces, n * n);
  }

  /** Face, row and column are determined by the offset. */
  lemma OffsetInjective(n: int, s1: int, r1: int, c1: int, s2: int, r2: int, c2: int)
    requires 0 <= r1 < n && 0 <= c1 < n && 0 <= r2 < n && 0 <= c2 < n
    requires s1 * (n * n) + r1 * n + c1 == s2 * (n * n) + r2 * n + c2
    ensures s1 == s2 && r1 == r2 && c1 == c2
  {
    OffsetInFace(n, r1, c1);
    OffsetInFace(n, r2, c2);
    DivisionUnique(n * n, s1, r1 * n + c1, s2, r2 * n + c2);
    DivisionUnique(n, r1, c1, r2, c2);
  }

  /** Different cells have different offsets. */
  lemma IndexInjective(n: int, p: Pos, q: Pos)
    requires InGrid(n, p) && InGrid(n, q) && Index(n, p) == Index(n, q)
    ensures p == q
  {
    IndexIsProduct(n, p);
    IndexIsProduct(n, q);
    OffsetInjective(n, p.side, p.row, p.col, q.side, q.row, q.col);
  }

  /** Position i of show's output holds some cell. */
  ghost predicate IsCellOffset(n: int, i: int) {
    exists p :: InGrid(n, p) && Index(n, p) == i
  }

  /** Every position below 6 * n * n is the offset of some cell: show leaves no gap. */
  lemma IndexOnto(n: int, i: int)
    requires 0 <= n && 0 <= i < Faces * (n * n)
    ensures IsCellOffset(n, i)
  {
    var m := n * n;
    var side, rest := i / m, i % m;
    var row, col := rest / n, rest % n;
    assert i == side * m + rest;
    assert rest == row * n + col;
    if side >= Faces {
      MulLeq(Faces, side, m);
    }
    if row >= n {
      MulLeq(n, row, n);
    }
    var p := Pos(side, row, col);
    IndexIsProduct(n, p);
    assert InGrid(n, p) && Index(n, p) == i;
  }
}
