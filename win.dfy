/**
 * Win detection: after a move at (r, c), scan the four line directions
 * through that cell, each in both senses, for a run of the mover's value.
 */
module Win {
  import opened Board

  /** The scan directions as (dy, dx): horizontal, diagonal, vertical, anti-diagonal. */
  const Dirs: seq<(int, int)> := [(0, 1), (1, 1), (1, 0), (1, -1)]

  /** The default `limit` of one side's scan: it looks at most ScanLimit - 1 cells. */
  const ScanLimit := 5

  /** A line of this many equal cells wins. */
  const WinLength := 5

  /** The value of the cell k steps from (r, c) in direction (dy, dx); k may be negative. */
  function Along(b: Grid, r: int, c: int, dy: int, dx: int, k: int): int {
    Get(b, r + k * dy, c + k * dx)
  }

  /**
   * Number of consecutive cells equal to p, starting at the neighbour of (r, c)
   * in direction (dy, dx) and looking at no more than n cells.
   */
  function Run(b: Grid, r: int, c: int, dy: int, dx: int, p: int, n: nat): (k: nat)
    ensures k <= n
    decreases n
  {
    if n == 0 || Get(b, r + dy, c + dx) != p then 0
    else 1 + Run(b, r + dy, c + dx, dy, dx, p, n - 1)
  }

  lemma AlongStep(b: Grid, r: int, c: int, dy: int, dx: int, k: int)
    ensures Along(b, r + dy, c + dx, dy, dx, k) == Along(b, r, c, dy, dx, k + 1)
  {
    assert (k + 1) * dy == k * dy + dy;
    assert (k + 1) * dx == k * dx + dx;
  }

  lemma AlongReversed(b: Grid, r: int, c: int, dy: int, dx: int, k: int)
    ensures Along(b, r, c, -dy, -dx, k) == Along(b, r, c, dy, dx, -k)
  {
    assert k * -dy == -k * dy;
    assert k * -dx == -k * dx;
  }

  /** Run(..., n) is the length of the longest run of p that starts at the neighbour and is at most n long. */
  lemma {:induction false} RunIsLongestPrefix(b: Grid, r: int, c: int, dy: int, dx: int, p: int, n: nat)
    ensures forall i :: 1 <= i <= Run(b, r, c, dy, dx, p, n) ==> Along(b, r, c, dy, dx, i) == p
    ensures Run(b, r, c, dy, dx, p, n) < n ==> Along(b, r, c, dy, dx, Run(b, r, c, dy, dx, p, n) + 1) != p
    decreases n
  {
    var k := Run(b, r, c, dy, dx, p, n);
    AlongStep(b, r, c, dy, dx, 0);
    if k > 0 {
      RunIsLongestPrefix(b, r + dy, c + dx, dy, dx, p, n - 1);
      forall i | 1 <= i <= k ensures Along(b, r, c, dy, dx, i) == p {
        AlongStep(b, r, c, dy, dx, i - 1);
      }
      AlongStep(b, r, c, dy, dx, k);
    }
  }

  /** Length of the line through (r, c) in direction Dirs[d] as the game measures it: 1 + both scans. */
  function Total(b: Grid, r: int, c: int, d: nat): (t: int)
    requires d < |Dirs|
    ensures 1 <= t <= 2 * (ScanLimit - 1) + 1
  {
    var (dy, dx) := Dirs[d];
    var p := Get(b, r, c);
    1 + Run(b, r, c, dy, dx, p, ScanLimit - 1) + Run(b, r, c, -dy, -dx, p, ScanLimit - 1)
  }

  /** The game's verdict: some direction measures at least WinLength. */
  predicate HasWin(b: Grid, r: int, c: int) {
    exists d :: 0 <= d < |Dirs| && Total(b, r, c, d) >= WinLength
  }

  // ---------------------------------------------------------------------------
  // An independent statement of "five in a row through (r, c)".

  /** The WinLength cells at steps lo .. lo + WinLength - 1 from (r, c) all hold p. */
  predicate Window(b: Grid, r: int, c: int, dy: int, dx: int, p: int, lo: int) {
    forall k :: lo <= k < lo + WinLength ==> Along(b, r, c, dy, dx, k) == p
  }

  /** Some line of WinLength cells in direction (dy, dx) that contains (r, c) holds only p. */
  predicate FiveThrough(b: Grid, r: int, c: int, dy: int, dx: int, p: int) {
    exists lo :: -(WinLength - 1) <= lo <= 0 && Window(b, r, c, dy, dx, p, lo)
  }

  /** Cells at steps -g .. f from (r, c) hold p, where f and g are the two scans. */
  lemma RunsCover(b: Grid, r: int, c: int, dy: int, dx: int, p: int, n: nat)
    requires Get(b, r, c) == p
    ensures var f: int, g: int := Run(b, r, c, dy, dx, p, n), Run(b, r, c, -dy, -dx, p, n);
      && (forall k: int :: -g <= k <= f ==> Along(b, r, c, dy, dx, k) == p)
      && (f < n ==> Along(b, r, c, dy, dx, f + 1) != p)
      && (g < n ==> Along(b, r, c, dy, dx, -(g + 1)) != p)
  {
    var f: int, g: int := Run(b, r, c, dy, dx, p, n), Run(b, r, c, -dy, -dx, p, n);
    RunIsLongestPrefix(b, r, c, dy, dx, p, n);
    RunIsLongestPrefix(b, r, c, -dy, -dx, p, n);
    assert Along(b, r, c, dy, dx, 0) == p;
    forall k: int | -g <= k < 0 ensures Along(b, r, c, dy, dx, k) == p {
      AlongReversed(b, r, c, dy, dx, -k);
    }
    AlongReversed(b, r, c, dy, dx, g + 1);
  }

  /** Through (r, c), direction (dy, dx) measures at least five exactly when five equal cells line up in it. */
  lemma LineIffFiveThrough(b: Grid, r: int, c: int, dy: int, dx: int)
    ensures var p := Get(b, r, c);
      1 + Run(b, r, c, dy, dx, p, ScanLimit - 1) + Run(b, r, c, -dy, -dx, p, ScanLimit - 1) >= WinLength
      <==> FiveThrough(b, r, c, dy, dx, p)
  {
    var p := Get(b, r, c);
    var f: int, g: int := Run(b, r, c, dy, dx, p, ScanLimit - 1), Run(b, r, c, -dy, -dx, p, ScanLimit - 1);
    RunsCover(b, r, c, dy, dx, p, ScanLimit - 1);
    if f + g >= WinLength - 1 {
      assert Window(b, r, c, dy, dx, p, -g);
    } else if FiveThrough(b, r, c, dy, dx, p) {
      var lo :| -(WinLength - 1) <= lo <= 0 && Window(b, r, c, dy, dx, p, lo);
      WindowBoundsRuns(b, r, c, dy, dx, lo);
    }
  }

  /** A window of five equal cells through (r, c) forces the two scans to add up to at least four. */
  lemma WindowBoundsRuns(b: Grid, r: int, c: int, dy: int, dx: int, lo: int)
    requires -(WinLength - 1) <= lo <= 0 && Window(b, r, c, dy, dx, Get(b, r, c), lo)
    ensures var p := Get(b, r, c);
      Run(b, r, c, dy, dx, p, ScanLimit - 1) + Run(b, r, c, -dy, -dx, p, ScanLimit - 1) >= WinLength - 1
  {
    var p := Get(b, r, c);
    var f: int, g: int := Run(b, r, c, dy, dx, p, ScanLimit - 1), Run(b, r, c, -dy, -dx, p, ScanLimit - 1);
    RunsCover(b, r, c, dy, dx, p, ScanLimit - 1);
    // Neither cell that stopped a scan can lie in the window, so the window fits in -g .. f.
    assert lo + WinLength - 1 <= f && -g <= lo;
  }

  /** One direction measures at least five exactly when five equal cells line up through (r, c) in it. */
  lemma TotalIffFiveThrough(b: Grid, r: int, c: int, d: nat)
    requires d < |Dirs|
    ensures Total(b, r, c, d) >= WinLength <==> FiveThrough(b, r, c, Dirs[d].0, Dirs[d].1, Get(b, r, c))
  {
    LineIffFiveThrough(b, r, c, Dirs[d].0, Dirs[d].1);
  }

  /** The game's verdict holds exactly when five or more equal cells line up through (r, c) in one of the four directions. */
  lemma HasWinIffFiveThrough(b: Grid, r: int, c: int)
    ensures HasWin(b, r, c) <==>
      exists d :: 0 <= d < |Dirs| && FiveThrough(b, r, c, Dirs[d].0, Dirs[d].1, Get(b, r, c))
  {
    forall d | 0 <= d < |Dirs| {
      TotalIffFiveThrough(b, r, c, d);
    }
  }
}
