/**
 The pitch mapper and the pitch table. A scancode is placed on an
 isomorphic lattice by a row and a column computed with truncating integer
 arithmetic; moving one row up multiplies the frequency by a fifth (3/2),
 moving one column right by a fourth (4/3). Frequencies are exact reals.
 */
module Pitch {
  import opened Arith

  /** Number of scancodes that have a pitch; the table has this many entries. */
  const MaxScancode: nat := 64

  /** Base frequency in Hz of the lattice point (0, 0). */
  const BaseFrequency: real := 100.0

  /** Ratio of one row step (a perfect fifth). */
  const RowRatio: real := 3.0 / 2.0

  /** Ratio of one column step (a perfect fourth). */
  const ColumnRatio: real := 4.0 / 3.0

  /** Row of a scancode: `(53 - k) / 13` with truncation, so every scancode
      above 53 lands on row 0 rather than on a negative row. */
  function Row(k: int): (row: int)
    ensures 0 <= k < MaxScancode ==> 0 <= row <= 4
    ensures k > 53 && k - 53 < 13 ==> row == 0
  {
    TDiv(53 - k, 13)
  }

  /** Column of a scancode: `(k - 5 + row) % 13 - row` with a remainder that
      follows the sign of the dividend. */
  function Column(k: int): (column: int)
    ensures 0 <= k < MaxScancode ==> -5 <= column <= 12
  {
    TMod(k - 5 + Row(k), 13) - Row(k)
  }

  /** Frequency of a lattice point. */
  function LatticeFrequency(row: int, column: int): (f: real)
    ensures f > 0.0
  {
    BaseFrequency * IPow(RowRatio, row) * IPow(ColumnRatio, column)
  }

  /** `scancode_to_frequency`: the frequency in Hz of a scancode. */
  function ScancodeToFrequency(k: int): (f: real)
    ensures f > 0.0
  {
    LatticeFrequency(Row(k), Column(k))
  }

  /** One row up at the same column sounds a perfect fifth higher. */
  lemma RowStepIsFifth(row: int, column: int)
    ensures LatticeFrequency(row + 1, column) == RowRatio * LatticeFrequency(row, column)
  {
    IPowSucc(RowRatio, row);
  }

  /** One column right in the same row sounds a perfect fourth higher. */
  lemma ColumnStepIsFourth(row: int, column: int)
    ensures LatticeFrequency(row, column + 1) == ColumnRatio * LatticeFrequency(row, column)
  {
    IPowSucc(ColumnRatio, column);
  }

  /** Scancode 0 exercises the truncating operators on negative operands:
      `53 / 13` gives row 4 and `-1 % 13` gives `-1`, so the column is -5
      (a Euclidean remainder would have given column 8). */
  lemma ScancodeZeroLattice()
    ensures Row(0) == 4
    ensures TMod(0 - 5 + Row(0), 13) == -1 && (0 - 5 + Row(0)) % 13 == 12
    ensures Column(0) == -5
  {
    LatticePoint(0, 4, 1, 0, -1);
  }

  /** Scancode 5 sits on row 3, column 0: exactly 100 * 1.5^3 = 337.5 Hz. */
  lemma ScancodeFiveFrequency()
    ensures Row(5) == 3 && Column(5) == 0
    ensures ScancodeToFrequency(5) == 337.5
  {
    LatticePoint(5, 3, 9, 0, 3);
    assert IPow(RowRatio, 3) == 3.375 by {
      assert Pow(RowRatio, 1) == 1.5;
      assert Pow(RowRatio, 2) == 2.25;
    }
    assert IPow(ColumnRatio, 0) == 1.0;
  }

  /** A scancode whose row and column division steps are witnessed by
      quotient/remainder pairs lies at the lattice point they give. */
  lemma LatticePoint(k: int, row: int, r0: int, q: int, c0: int)
    requires 53 - k == 13 * row + r0 && -13 < r0 < 13
    requires 53 - k >= 0 ==> r0 >= 0
    requires 53 - k <= 0 ==> r0 <= 0
    requires k - 5 + row == 13 * q + c0 && -13 < c0 < 13
    requires k - 5 + row >= 0 ==> c0 >= 0
    requires k - 5 + row <= 0 ==> c0 <= 0
    ensures Row(k) == row && Column(k) == c0 - row
  {
    TruncDivModUnique(53 - k, 13, row, r0);
    TruncDivModUnique(k - 5 + row, 13, q, c0);
  }

  /** Scancodes 13 apart share a column on the next row, so the lower one
      sounds a perfect fifth above the higher one; this holds from scancode 16
      to 53 except where the column wraps (29 and 43). */
  lemma FifthAcrossRows(k: int)
    requires 16 <= k <= 53 && k != 29 && k != 43
    ensures Row(k - 13) == Row(k) + 1 && Column(k - 13) == Column(k)
    ensures ScancodeToFrequency(k - 13) == RowRatio * ScancodeToFrequency(k)
  {
    StackedLattice(k);
    RowStepIsFifth(Row(k), Column(k));
  }

  /** The lattice positions behind `FifthAcrossRows`, row by row. */
  lemma StackedLattice(k: int)
    requires 16 <= k <= 53 && k != 29 && k != 43
    ensures Row(k - 13) == Row(k) + 1 && Column(k - 13) == Column(k)
  {
    if k <= 27 {
      LatticePoint(k, 2, 27 - k, 1, k - 16);
      LatticePoint(k - 13, 3, 27 - k, 0, k - 15);
    } else if k == 28 {
      LatticePoint(k, 1, 12, 1, 11);
      LatticePoint(k - 13, 2, 12, 0, 12);
    } else if k <= 40 {
      LatticePoint(k, 1, 40 - k, 2, k - 30);
      LatticePoint(k - 13, 2, 40 - k, 1, k - 29);
    } else if k <= 42 {
      LatticePoint(k, 0, 53 - k, 2, k - 31);
      LatticePoint(k - 13, 1, 53 - k, 1, k - 30);
    } else {
      LatticePoint(k, 0, 53 - k, 3, k - 44);
      LatticePoint(k - 13, 1, 53 - k, 2, k - 43);
    }
  }

  /** Neighbouring scancodes in the same row segment sit one column apart,
      so the higher scancode sounds a perfect fourth above the lower one;
      this fails only where a row's column sequence wraps or the row changes. */
  lemma FourthAlongRow(k: int)
    requires || k == 0 || 2 <= k <= 13 || 16 <= k <= 26 || k == 28 || 30 <= k <= 39
             || 41 <= k <= 42 || 44 <= k <= 55 || 57 <= k <= 62
    ensures Row(k + 1) == Row(k) && Column(k + 1) == Column(k) + 1
    ensures ScancodeToFrequency(k + 1) == ColumnRatio * ScancodeToFrequency(k)
  {
    NeighbourLattice(k);
    ColumnStepIsFourth(Row(k), Column(k));
  }

  /** The lattice positions behind `FourthAlongRow`, split at the row
      boundaries into the upper and the lower rows. */
  lemma NeighbourLattice(k: int)
    requires || k == 0 || 2 <= k <= 13 || 16 <= k <= 26 || k == 28 || 30 <= k <= 39
             || 41 <= k <= 42 || 44 <= k <= 55 || 57 <= k <= 62
    ensures Row(k + 1) == Row(k) && Column(k + 1) == Column(k) + 1
  {
    if k <= 28 {
      NeighbourLatticeUpper(k);
    } else {
      NeighbourLatticeLower(k);
    }
  }

  lemma NeighbourLatticeUpper(k: int)
    requires k == 0 || 2 <= k <= 13 || 16 <= k <= 26 || k == 28
    ensures Row(k + 1) == Row(k) && Column(k + 1) == Column(k) + 1
  {
    if k == 0 {
      LatticePoint(k, 4, 1, 0, -1);
      LatticePoint(k + 1, 4, 0, 0, 0);
    } else if k <= 13 {
      LatticePoint(k, 3, 14 - k, 0, k - 2);
      LatticePoint(k + 1, 3, 13 - k, 0, k - 1);
    } else if k <= 26 {
      LatticePoint(k, 2, 27 - k, 1, k - 16);
      LatticePoint(k + 1, 2, 26 - k, 1, k - 15);
    } else {
      LatticePoint(k, 1, 12, 1, 11);
      LatticePoint(k + 1, 1, 11, 1, 12);
    }
  }

  lemma NeighbourLatticeLower(k: int)
    requires 30 <= k <= 39 || 41 <= k <= 42 || 44 <= k <= 55 || 57 <= k <= 62
    ensures Row(k + 1) == Row(k) && Column(k + 1) == Column(k) + 1
  {
    if k <= 39 {
      LatticePoint(k, 1, 40 - k, 2, k - 30);
      LatticePoint(k + 1, 1, 39 - k, 2, k - 29);
    } else if k <= 42 {
      LatticePoint(k, 0, 53 - k, 2, k - 31);
      LatticePoint(k + 1, 0, 52 - k, 2, k - 30);
    } else if k <= 55 {
      LatticePoint(k, 0, 53 - k, 3, k - 44);
      LatticePoint(k + 1, 0, 52 - k, 3, k - 43);
    } else {
      LatticePoint(k, 0, 53 - k, 4, k - 57);
      LatticePoint(k + 1, 0, 52 - k, 4, k - 56);
    }
  }

  /** Scancodes 54..63 fall on row 0 by truncation and repeat the pitches of
      scancodes 41..50. */
  lemma HighScancodesRepeat(k: int)
    requires 54 <= k < MaxScancode
    ensures Row(k) == 0 && Row(k - 13) == 0
    ensures ScancodeToFrequency(k) == ScancodeToFrequency(k - 13)
  {
    if k <= 56 {
      LatticePoint(k, 0, 53 - k, 3, k - 44);
      LatticePoint(k - 13, 0, 66 - k, 2, k - 44);
    } else {
      LatticePoint(k, 0, 53 - k, 4, k - 57);
      LatticePoint(k - 13, 0, 66 - k, 3, k - 57);
    }
  }

  /** The contents `KEY_FREQUENCIES` is meant to hold: entry `i` is the
      frequency of scancode `i`. */
  function PitchTable(): (t: seq<real>)
    ensures |t| == MaxScancode
    ensures forall i :: 0 <= i < |t| ==> t[i] > 0.0
  {
    seq(MaxScancode, i => ScancodeToFrequency(i))
  }

  /** The initialiser of `KEY_FREQUENCIES`: a table of `MaxScancode` zeros
      whose entries are overwritten, in index order, by the frequency of
      their own index. */
  method BuildKeyFrequencies() returns (table: seq<real>)
    ensures |table| == MaxScancode
    ensures forall i :: 0 <= i < MaxScancode ==> table[i] == ScancodeToFrequency(i)
    ensures forall i :: 0 <= i < |table| ==> table[i] > 0.0
    ensures table == PitchTable()
  {
    table := seq(MaxScancode, _ => 0.0);
    var i := 0;
    while i < MaxScancode
      invariant 0 <= i <= MaxScancode
      invariant |table| == MaxScancode
      invariant forall j :: 0 <= j < i ==> table[j] == ScancodeToFrequency(j)
      invariant forall j :: i <= j < MaxScancode ==> table[j] == 0.0
    {
      table := table[i := ScancodeToFrequency(i)];
      i := i + 1;
    }
  }
}
