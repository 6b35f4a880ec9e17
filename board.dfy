/**
 * The game board of CrossZero: a jagged sequence of rows of cell values.
 *
 * A cell holds 0 (empty) or a player, 1 or 2. The board is materialised only
 * where it has been touched: a row may be shorter than others and rows past
 * the end do not exist yet. Reading anything that is not materialised (a
 * negative index, a missing row, a column past the end of its row) yields
 * empty; this stands for the holes and `undefined` entries of the JavaScript
 * arrays, which every read in the game treats like an empty cell.
 */
module Board {

  type Grid = seq<seq<int>>

  const Empty := 0

  predicate IsPlayer(v: int) {
    v == 1 || v == 2
  }

  /** Every stored cell is empty or holds a player. */
  predicate WellFormed(b: Grid) {
    forall r, c :: 0 <= r < |b| && 0 <= c < |b[r]| ==> b[r][c] == Empty || IsPlayer(b[r][c])
  }

  /** The value seen at logical cell (r, c); never fails. */
  function Get(b: Grid, r: int, c: int): int {
    if 0 <= r < |b| && 0 <= c < |b[r]| then b[r][c] else Empty
  }

  /** A cell counts as occupied when its value is truthy, i.e. non-zero. */
  predicate Occupied(b: Grid, r: int, c: int) {
    Get(b, r, c) != Empty
  }

  // ---------------------------------------------------------------------------
  // Growth towards negative rows: `n` times `map.unshift([])`.

  function PrependRows(b: Grid, n: nat): (g: Grid)
    ensures |g| == |b| + n
  {
    if n == 0 then b else [[]] + PrependRows(b, n - 1)
  }

  /** After prepending `n` rows, every cell is found `n` rows further down, and the new rows are empty. */
  lemma {:induction false} PrependRowsGet(b: Grid, n: nat, r: int, c: int)
    ensures Get(PrependRows(b, n), r, c) == Get(b, r - n, c)
  {
    if n > 0 {
      PrependRowsGet(b, n - 1, r - 1, c);
    }
  }

  lemma {:induction false} PrependRowsWellFormed(b: Grid, n: nat)
    requires WellFormed(b)
    ensures WellFormed(PrependRows(b, n))
  {
    if n > 0 {
      PrependRowsWellFormed(b, n - 1);
    }
  }

  // ---------------------------------------------------------------------------
  // Growth towards negative columns: `n` times `row.unshift(0)` on every row.

  function PadRow(row: seq<int>, n: nat): (p: seq<int>)
    ensures |p| == |row| + n
  {
    if n == 0 then row else [0] + PadRow(row, n - 1)
  }

  lemma {:induction false} PadRowAt(row: seq<int>, n: nat, c: int)
    requires 0 <= c < |row| + n
    ensures PadRow(row, n)[c] == if c < n then 0 else row[c - n]
  {
    if n > 0 && c > 0 {
      PadRowAt(row, n - 1, c - 1);
    }
  }

  /** Every row, materialised or not, gets n leading zeros in front of its old contents. */
  function PadRows(b: Grid, n: nat): (g: Grid)
    ensures |g| == |b|
    ensures forall i :: 0 <= i < |b| ==> g[i] == PadRow(b[i], n)
    ensures forall i :: 0 <= i < |b| ==> |g[i]| == |b[i]| + n
    ensures forall i, c :: 0 <= i < |b| && 0 <= c < |g[i]| ==> g[i][c] == if c < n then 0 else b[i][c - n]
  {
    var g := seq(|b|, i requires 0 <= i < |b| => PadRow(b[i], n));
    assert forall i, c :: 0 <= i < |b| && 0 <= c < |g[i]| ==> g[i][c] == if c < n then 0 else b[i][c - n] by {
      forall i, c | 0 <= i < |b| && 0 <= c < |g[i]|
        ensures g[i][c] == if c < n then 0 else b[i][c - n]
      {
        PadRowAt(b[i], n, c);
      }
    }
    g
  }

  /** After padding every row with `n` zeros, every cell is found `n` columns further right, and the new columns are empty. */
  lemma PadRowsGet(b: Grid, n: nat, r: int, c: int)
    ensures Get(PadRows(b, n), r, c) == Get(b, r, c - n)
  {
    if 0 <= r < |b| && 0 <= c < |b[r]| + n {
      PadRowAt(b[r], n, c);
    }
  }

  lemma PadRowsWellFormed(b: Grid, n: nat)
    requires WellFormed(b)
    ensures WellFormed(PadRows(b, n))
  {
    forall r, c | 0 <= r < |b| && 0 <= c < |PadRows(b, n)[r]|
      ensures PadRows(b, n)[r][c] == Empty || IsPlayer(PadRows(b, n)[r][c])
    {
      PadRowAt(b[r], n, c);
    }
  }

  // ---------------------------------------------------------------------------
  // Growth downwards: `map[row] = []` past the end, leaving holes (empty rows) between.

  function ExtendRows(b: Grid, len: nat): (g: Grid)
    requires |b| <= len
    ensures |g| == len
    ensures g[..|b|] == b
  {
    b + seq(len - |b|, _ => [])
  }

  /** Extending the board downwards changes no cell. */
  lemma ExtendRowsGet(b: Grid, len: nat, r: int, c: int)
    requires |b| <= len
    ensures Get(ExtendRows(b, len), r, c) == Get(b, r, c)
  {
    if 0 <= r < |b| {
      assert ExtendRows(b, len)[r] == ExtendRows(b, len)[..|b|][r];
    }
  }

  // ---------------------------------------------------------------------------
  // Writing a cell: `map[r][c] = v`, materialising the columns before it.

  function WriteAt(row: seq<int>, c: nat, v: int): (w: seq<int>)
    ensures |w| == if c < |row| then |row| else c + 1
    ensures w[c] == v
    ensures forall i :: 0 <= i < |w| && i != c ==> w[i] == if i < |row| then row[i] else 0
  {
    if c < |row| then row[c := v] else row + seq(c - |row|, _ => 0) + [v]
  }

  function SetCell(b: Grid, r: nat, c: nat, v: int): Grid
    requires r < |b|
  {
    b[r := WriteAt(b[r], c, v)]
  }

  /** A write changes exactly the addressed cell. */
  lemma SetCellGet(b: Grid, r: nat, c: nat, v: int, r': int, c': int)
    requires r < |b|
    ensures Get(SetCell(b, r, c, v), r', c') == if r' == r && c' == c then v else Get(b, r', c')
  {
  }

  lemma SetCellWellFormed(b: Grid, r: nat, c: nat, v: int)
    requires r < |b| && WellFormed(b) && IsPlayer(v)
    ensures WellFormed(SetCell(b, r, c, v))
  {
  }
}
