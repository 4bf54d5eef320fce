/**
 * The board rules of the 2048 game (Game/Game/GameWindow.cpp): sliding and merging one line,
 * moving the whole board in one of four directions, random tiles, game over, undo and the best
 * score per board size. The Qt display, message boxes and the saved settings are not modelled.
 */
module Game2048 {
  import opened Common

  // ---------------------------------------------------------------------------------------
  // One line
  // ---------------------------------------------------------------------------------------

  /** The non-zero tiles of a line, in order. */
  function NonZeros(line: seq<int>): (r: seq<int>)
    ensures |r| <= |line|
    ensures forall k :: 0 <= k < |r| ==> r[k] != 0
  {
    if line == [] then []
    else NonZeros(line[..|line| - 1]) + (if line[|line| - 1] != 0 then [line[|line| - 1]] else [])
  }

  /**
   * The merging pass over the non-zero tiles: an equal pair merges into its double unless the
   * previous step was itself a merge (`merged`), in which case the first tile stays as it is.
   */
  function MergeLine(nz: seq<int>, merged: bool): (r: seq<int>)
    ensures |r| <= |nz|
    ensures (forall k :: 0 <= k < |nz| ==> nz[k] != 0) ==> forall k :: 0 <= k < |r| ==> r[k] != 0
  {
    if nz == [] then []
    else if |nz| >= 2 && nz[0] == nz[1] && !merged then [nz[0] * 2] + MergeLine(nz[2..], true)
    else [nz[0]] + MergeLine(nz[1..], false)
  }

  /** The points the merging pass earns: the value of every tile it creates by a merge. */
  function MergeGain(nz: seq<int>, merged: bool): int
  {
    if nz == [] then 0
    else if |nz| >= 2 && nz[0] == nz[1] && !merged then nz[0] * 2 + MergeGain(nz[2..], true)
    else MergeGain(nz[1..], false)
  }

  function Zeros(k: nat): (r: seq<int>)
    ensures |r| == k && forall i :: 0 <= i < k ==> r[i] == 0
  {
    seq(k, _ => 0)
  }

  /** slideAndMerge: the merged non-zero tiles, padded with zeros to the length of the line. */
  function Slide(line: seq<int>): (r: seq<int>)
    ensures |r| == |line|
  {
    var m := MergeLine(NonZeros(line), false);
    m + Zeros(|line| - |m|)
  }

  /** What slideAndMerge adds to the score for one line. */
  function LineGain(line: seq<int>): int
  {
    MergeGain(NonZeros(line), false)
  }

  /** slideAndMerge, with its loops; `changed` is its contribution to `moved`. */
  method SlideAndMerge(line: seq<int>) returns (result: seq<int>, gain: int, changed: bool)
    ensures result == Slide(line) && gain == LineGain(line)
    ensures changed <==> result != line
  {
    var nonZeros := CollectNonZeros(line);
    result, gain := MergePairs(nonZeros);
    result := PadWithZeros(result, |line|);
    changed := result != line;
  }

  /** The first loop of slideAndMerge: the tiles of the line, in order. */
  method CollectNonZeros(line: seq<int>) returns (nonZeros: seq<int>)
    ensures nonZeros == NonZeros(line)
  {
    nonZeros := [];
    for k := 0 to |line|
      invariant nonZeros == NonZeros(line[..k])
    {
      assert line[..k + 1][..k] == line[..k];
      if line[k] != 0 {
        nonZeros := nonZeros + [line[k]];
      }
    }
    assert line[..|line|] == line;
  }

  /** The second loop of slideAndMerge: merge equal neighbours, a merged tile merging no further. */
  method MergePairs(nonZeros: seq<int>) returns (result: seq<int>, gain: int)
    ensures result == MergeLine(nonZeros, false) && gain == MergeGain(nonZeros, false)
  {
    var merged := false;
    result := [];
    gain := 0;
    var i := 0;
    assert nonZeros[0..] == nonZeros;
    while i < |nonZeros|
      invariant 0 <= i <= |nonZeros|
      invariant result + MergeLine(nonZeros[i..], merged) == MergeLine(nonZeros, false)
      invariant gain + MergeGain(nonZeros[i..], merged) == MergeGain(nonZeros, false)
    {
      if i + 1 < |nonZeros| && nonZeros[i] == nonZeros[i + 1] && !merged {
        assert nonZeros[i..][2..] == nonZeros[i + 2..];
        result := result + [nonZeros[i] * 2];
        gain := gain + nonZeros[i] * 2;
        i := i + 2;
        merged := true;
      } else {
        assert nonZeros[i..][1..] == nonZeros[i + 1..];
        result := result + [nonZeros[i]];
        i := i + 1;
        merged := false;
      }
    }
  }

  /** The last loop of slideAndMerge: zeros appended up to the line's length. */
  method PadWithZeros(m: seq<int>, size: nat) returns (result: seq<int>)
    requires |m| <= size
    ensures result == m + Zeros(size - |m|)
  {
    result := m;
    while |result| < size
      invariant |m| <= |result| <= size
      invariant result == m + Zeros(|result| - |m|)
    {
      result := result + [0];
    }
  }

  /** After a slide every zero comes after every tile. */
  lemma SlideZerosLast(line: seq<int>, i: nat, j: nat)
    requires i < j < |line| && Slide(line)[i] == 0
    ensures Slide(line)[j] == 0
  {
    var m := MergeLine(NonZeros(line), false);
    assert Slide(line) == m + Zeros(|line| - |m|);
  }

  lemma {:induction false} SumNonZeros(line: seq<int>)
    ensures Sum(NonZeros(line)) == Sum(line)
    decreases |line|
  {
    if line != [] {
      var last := line[|line| - 1];
      SumNonZeros(line[..|line| - 1]);
      SumConcat(NonZeros(line[..|line| - 1]), if last != 0 then [last] else []);
      assert Sum([last]) == Sum([]) + last;
    }
  }

  lemma {:induction false} SumMergeLine(nz: seq<int>, merged: bool)
    ensures Sum(MergeLine(nz, merged)) == Sum(nz)
    decreases |nz|
  {
    if nz != [] {
      var k := if |nz| >= 2 && nz[0] == nz[1] && !merged then 2 else 1;
      SumMergeLine(nz[k..], k == 2);
      assert nz == nz[..k] + nz[k..];
      SumConcat(nz[..k], nz[k..]);
      var head := MergeLine(nz, merged)[..1];
      assert MergeLine(nz, merged) == head + MergeLine(nz[k..], k == 2);
      SumConcat(head, MergeLine(nz[k..], k == 2));
      assert Sum(head) == Sum([]) + head[0];
      assert nz[..k][..k - 1] == nz[..k - 1];
      if k == 2 {
        assert nz[..1][..0] == [];
      }
    }
  }

  lemma {:induction false} SumZeros(k: nat)
    ensures Sum(Zeros(k)) == 0
  {
    if k > 0 {
      assert Zeros(k)[..k - 1] == Zeros(k - 1);
      SumZeros(k - 1);
    }
  }

  /** A slide moves tiles and merges equal pairs, so the sum of the line is kept. */
  lemma SlideKeepsSum(line: seq<int>)
    ensures Sum(Slide(line)) == Sum(line)
  {
    var m := MergeLine(NonZeros(line), false);
    SumNonZeros(line);
    SumMergeLine(NonZeros(line), false);
    SumConcat(m, Zeros(|line| - |m|));
    SumZeros(|line| - |m|);
  }

  /** With positive tiles the line earns nothing exactly when nothing merged (no tile disappeared). */
  lemma {:induction false} GainIffMerge(nz: seq<int>, merged: bool)
    requires forall k :: 0 <= k < |nz| ==> nz[k] > 0
    ensures MergeGain(nz, merged) >= 0
    ensures MergeGain(nz, merged) == 0 <==> |MergeLine(nz, merged)| == |nz|
    decreases |nz|
  {
    if nz != [] {
      if |nz| >= 2 && nz[0] == nz[1] && !merged {
        GainIffMerge(nz[2..], true);
      } else {
        GainIffMerge(nz[1..], false);
      }
    }
  }

  /** A merge blocks the next pair: [2,2,2,2] becomes [4,2,2,0] and earns 4. */
  lemma FourTwos()
    ensures Slide([2, 2, 2, 2]) == [4, 2, 2, 0] && LineGain([2, 2, 2, 2]) == 4
  {
    var line := [2, 2, 2, 2];
    NonZerosOfFull(line);
    assert line[2..] == [2, 2] && [2, 2][2..] == [];
    assert MergeLine(line, false) == [4, 2, 2];
  }

  /** [2,2,4,4] becomes [4,4,4,0]: the pair of fours follows a merge and stays apart. */
  lemma TwoPairs()
    ensures Slide([2, 2, 4, 4]) == [4, 4, 4, 0] && LineGain([2, 2, 4, 4]) == 4
  {
    var line := [2, 2, 4, 4];
    NonZerosOfFull(line);
    assert line[2..] == [4, 4] && [4, 4][1..] == [4] && [4][1..] == [];
    assert MergeLine(line, false) == [4, 4, 4];
  }

  /** A tile made by a merge does not merge again in the same move: [2,2,4] becomes [4,4,0]. */
  lemma MergedTileStays()
    ensures Slide([2, 2, 4]) == [4, 4, 0] && LineGain([2, 2, 4]) == 4
  {
    var line := [2, 2, 4];
    NonZerosOfFull(line);
    assert line[2..] == [4] && [4][1..] == [];
    assert MergeLine(line, false) == [4, 4];
  }

  /** No zero and no equal neighbours. */
  predicate Blocked(line: seq<int>)
  {
    (forall k :: 0 <= k < |line| ==> line[k] != 0) &&
    forall k :: 0 <= k < |line| - 1 ==> line[k] != line[k + 1]
  }

  lemma {:induction false} NonZerosOfFull(line: seq<int>)
    requires forall k :: 0 <= k < |line| ==> line[k] != 0
    ensures NonZeros(line) == line
    decreases |line|
  {
    if line != [] {
      NonZerosOfFull(line[..|line| - 1]);
    }
  }

  lemma {:induction false} MergeLineOfBlocked(nz: seq<int>, merged: bool)
    requires forall k :: 0 <= k < |nz| - 1 ==> nz[k] != nz[k + 1]
    ensures MergeLine(nz, merged) == nz && MergeGain(nz, merged) == 0
    decreases |nz|
  {
    if nz != [] {
      MergeLineOfBlocked(nz[1..], false);
    }
  }

  /** A line with no empty cell and no equal neighbours does not change and earns nothing. */
  lemma BlockedLineStays(line: seq<int>)
    requires Blocked(line)
    ensures Slide(line) == line && LineGain(line) == 0
  {
    NonZerosOfFull(line);
    MergeLineOfBlocked(line, false);
    assert Zeros(0) == [];
  }

  // ---------------------------------------------------------------------------------------
  // The board
  // ---------------------------------------------------------------------------------------

  datatype Direction = Up | Down | Left | Right

  /**
   * The keys keyPressEvent handles: the arrow keys and WASD move, U undoes; Other is any other
   * key, including C and Q, which only change colours.
   */
  datatype Key = KeyUp | KeyW | KeyDown | KeyS | KeyLeft | KeyA | KeyRight | KeyD | KeyU | Other

  /** The branch of moveTiles a key selects; any other key selects none. */
  function DirectionOf(key: Key): (r: Option<Direction>)
    ensures r == Some(Up) <==> key in {KeyUp, KeyW}
    ensures r == Some(Down) <==> key in {KeyDown, KeyS}
    ensures r == Some(Left) <==> key in {KeyLeft, KeyA}
    ensures r == Some(Right) <==> key in {KeyRight, KeyD}
  {
    match key
    case KeyUp => Some(Up)
    case KeyW => Some(Up)
    case KeyDown => Some(Down)
    case KeyS => Some(Down)
    case KeyLeft => Some(Left)
    case KeyA => Some(Left)
    case KeyRight => Some(Right)
    case KeyD => Some(Right)
    case KeyU => None
    case Other => None
  }

  predicate IsBoard(b: seq<seq<int>>, n: nat)
  {
    |b| == n && forall i :: 0 <= i < n ==> |b[i]| == n
  }

  /**
   * The k-th line in the order slideAndMerge sees it: rows for Left and Right, columns for Up
   * and Down, read backwards for Right and Down.
   */
  function LineOf(b: seq<seq<int>>, n: nat, dir: Direction, k: nat): (line: seq<int>)
    requires IsBoard(b, n) && k < n
    ensures |line| == n
  {
    match dir
    case Left => b[k]
    case Right => Reversed(b[k])
    case Up => seq(n, i requires 0 <= i < n => b[i][k])
    case Down => seq(n, i requires 0 <= i < n => b[n - 1 - i][k])
  }

  /** Which line cell (i, j) lies on. */
  function LineIndex(dir: Direction, i: nat, j: nat): nat
  {
    if dir == Left || dir == Right then i else j
  }

  /** Where on its line cell (i, j) lies. */
  function LinePos(n: nat, dir: Direction, i: nat, j: nat): nat
    requires i < n && j < n
  {
    match dir
    case Left => j
    case Right => n - 1 - j
    case Up => i
    case Down => n - 1 - i
  }

  /** Every cell is on its line at its position. */
  lemma CellOnLine(b: seq<seq<int>>, n: nat, dir: Direction, i: nat, j: nat)
    requires IsBoard(b, n) && i < n && j < n
    ensures LinePos(n, dir, i, j) < n && LineIndex(dir, i, j) < n
    ensures LineOf(b, n, dir, LineIndex(dir, i, j))[LinePos(n, dir, i, j)] == b[i][j]
  {
    if dir == Left || dir == Right {
      CellOnRow(b, n, dir, i, j);
    } else {
      CellOnColumn(b, n, dir, i, j);
    }
  }

  lemma CellOnRow(b: seq<seq<int>>, n: nat, dir: Direction, i: nat, j: nat)
    requires IsBoard(b, n) && i < n && j < n && (dir == Left || dir == Right)
    ensures LinePos(n, dir, i, j) < n && LineIndex(dir, i, j) == i
    ensures LineOf(b, n, dir, i)[LinePos(n, dir, i, j)] == b[i][j]
  {
    if dir == Right {
      assert LineOf(b, n, dir, i) == Reversed(b[i]);
    }
  }

  lemma CellOnColumn(b: seq<seq<int>>, n: nat, dir: Direction, i: nat, j: nat)
    requires IsBoard(b, n) && i < n && j < n && (dir == Up || dir == Down)
    ensures LinePos(n, dir, i, j) < n && LineIndex(dir, i, j) == j
    ensures LineOf(b, n, dir, j)[LinePos(n, dir, i, j)] == b[i][j]
  {
    if dir == Up {
      assert LineOf(b, n, dir, j)[i] == b[i][j];
    } else {
      assert LineOf(b, n, dir, j)[n - 1 - i] == b[i][j];
    }
  }

  /** The new value of cell (i, j) after a move. */
  function Cell(b: seq<seq<int>>, n: nat, dir: Direction, i: nat, j: nat): int
    requires IsBoard(b, n) && i < n && j < n
  {
    Slide(LineOf(b, n, dir, LineIndex(dir, i, j)))[LinePos(n, dir, i, j)]
  }

  /** The board after moving every line in direction `dir`. */
  function Moved(b: seq<seq<int>>, n: nat, dir: Direction): (r: seq<seq<int>>)
    requires IsBoard(b, n)
    ensures IsBoard(r, n)
  {
    seq(n, i requires 0 <= i < n => seq(n, j requires 0 <= j < n => Cell(b, n, dir, i, j)))
  }

  /** The score a move earns over lines 0..m-1. */
  function TotalGain(b: seq<seq<int>>, n: nat, dir: Direction, m: nat): int
    requires IsBoard(b, n) && m <= n
  {
    if m == 0 then 0 else TotalGain(b, n, dir, m - 1) + LineGain(LineOf(b, n, dir, m - 1))
  }

  /** Some line among 0..m-1 is changed by the slide. */
  predicate AnyLineMoves(b: seq<seq<int>>, n: nat, dir: Direction, m: nat)
    requires IsBoard(b, n) && m <= n
  {
    exists k :: 0 <= k < m && Slide(LineOf(b, n, dir, k)) != LineOf(b, n, dir, k)
  }

  /** A move changes the board exactly when it changes some line. */
  lemma MovesIffChanges(b: seq<seq<int>>, n: nat, dir: Direction)
    requires IsBoard(b, n)
    ensures AnyLineMoves(b, n, dir, n) <==> Moved(b, n, dir) != b
  {
    if AnyLineMoves(b, n, dir, n) {
      ChangedLineChangesBoard(b, n, dir);
    } else {
      StillLinesKeepBoard(b, n, dir);
    }
  }

  lemma ChangedLineChangesBoard(b: seq<seq<int>>, n: nat, dir: Direction)
    requires IsBoard(b, n) && AnyLineMoves(b, n, dir, n)
    ensures Moved(b, n, dir) != b
  {
    var k :| 0 <= k < n && Slide(LineOf(b, n, dir, k)) != LineOf(b, n, dir, k);
    var line := LineOf(b, n, dir, k);
    var p :| 0 <= p < n && Slide(line)[p] != line[p];
    var i, j := CellAt(n, dir, k, p);
    CellOnLine(b, n, dir, i, j);
    MovedCell(b, n, dir, i, j);
  }

  /** Cell (i, j) of the moved board holds the slid value at its place on its line. */
  lemma MovedCell(b: seq<seq<int>>, n: nat, dir: Direction, i: nat, j: nat)
    requires IsBoard(b, n) && i < n && j < n
    ensures Moved(b, n, dir)[i][j] == Cell(b, n, dir, i, j)
  {
    var row := seq(n, j' requires 0 <= j' < n => Cell(b, n, dir, i, j'));
    assert Moved(b, n, dir)[i] == row;
  }

  lemma StillLinesKeepBoard(b: seq<seq<int>>, n: nat, dir: Direction)
    requires IsBoard(b, n) && !AnyLineMoves(b, n, dir, n)
    ensures Moved(b, n, dir) == b
  {
    var r := Moved(b, n, dir);
    forall i | 0 <= i < n
      ensures r[i] == b[i]
    {
      forall j | 0 <= j < n
        ensures r[i][j] == b[i][j]
      {
        CellOnLine(b, n, dir, i, j);
        var k := LineIndex(dir, i, j);
        assert Slide(LineOf(b, n, dir, k)) == LineOf(b, n, dir, k);
      }
    }
  }

  /** The cell at position p of line k. */
  lemma CellAt(n: nat, dir: Direction, k: nat, p: nat) returns (i: nat, j: nat)
    requires k < n && p < n
    ensures i < n && j < n && LineIndex(dir, i, j) == k && LinePos(n, dir, i, j) == p
  {
    match dir
    case Left => i, j := k, p;
    case Right => i, j := k, n - 1 - p;
    case Up => i, j := p, k;
    case Down => i, j := n - 1 - p, k;
  }

  /** isGameOver's condition: no empty cell and no equal neighbours across or down. */
  predicate GameOver(b: seq<seq<int>>, n: nat)
    requires IsBoard(b, n)
  {
    (forall i, j :: 0 <= i < n && 0 <= j < n ==> b[i][j] != 0) &&
    (forall i, j :: 0 <= i < n - 1 && 0 <= j < n ==> DiffersBelow(b, i, j)) &&
    (forall i, j :: 0 <= i < n && 0 <= j < n - 1 ==> DiffersRight(b, i, j))
  }

  predicate DiffersBelow(b: seq<seq<int>>, i: nat, j: nat)
    requires i + 1 < |b| && j < |b[i]| && j < |b[i + 1]|
  {
    b[i][j] != b[i + 1][j]
  }

  predicate DiffersRight(b: seq<seq<int>>, i: nat, j: nat)
    requires i < |b| && j + 1 < |b[i]|
  {
    b[i][j] != b[i][j + 1]
  }

  /** Once the game is over no direction moves any line, so no move changes the board. */
  lemma GameOverNoMove(b: seq<seq<int>>, n: nat, dir: Direction)
    requires IsBoard(b, n) && GameOver(b, n)
    ensures !AnyLineMoves(b, n, dir, n) && Moved(b, n, dir) == b && TotalGain(b, n, dir, n) == 0
  {
    forall k | 0 <= k < n
      ensures Slide(LineOf(b, n, dir, k)) == LineOf(b, n, dir, k) && LineGain(LineOf(b, n, dir, k)) == 0
    {
      OverLineBlocked(b, n, dir, k);
      BlockedLineStays(LineOf(b, n, dir, k));
    }
    GainsOfStill(b, n, dir, n);
    MovesIffChanges(b, n, dir);
  }

  /** Once the game is over every line, in every direction, is full with no equal neighbours. */
  lemma OverLineBlocked(b: seq<seq<int>>, n: nat, dir: Direction, k: nat)
    requires IsBoard(b, n) && GameOver(b, n) && k < n
    ensures Blocked(LineOf(b, n, dir, k))
  {
    var line := LineOf(b, n, dir, k);
    forall p | 0 <= p < n
      ensures line[p] != 0
    {
      var i, j := CellAt(n, dir, k, p);
      CellOnLine(b, n, dir, i, j);
    }
    forall p | 0 <= p < n - 1
      ensures line[p] != line[p + 1]
    {
      match dir
      case Left => assert DiffersRight(b, k, p);
      case Right => assert DiffersRight(b, k, n - 2 - p);
      case Up => assert DiffersBelow(b, p, k);
      case Down => assert DiffersBelow(b, n - 2 - p, k);
    }
  }

  lemma {:induction false} GainsOfStill(b: seq<seq<int>>, n: nat, dir: Direction, m: nat)
    requires IsBoard(b, n) && m <= n
    requires forall k :: 0 <= k < n ==> LineGain(LineOf(b, n, dir, k)) == 0
    ensures TotalGain(b, n, dir, m) == 0
  {
    if m > 0 {
      GainsOfStill(b, n, dir, m - 1);
    }
  }

  // ---------------------------------------------------------------------------------------
  // Empty cells and random tiles
  // ---------------------------------------------------------------------------------------

  /** The empty cells (i, j) with j < m of row i, left to right. */
  function EmptyInRow(row: seq<int>, i: int, m: nat): seq<(int, int)>
    requires m <= |row|
  {
    if m == 0 then [] else EmptyInRow(row, i, m - 1) + (if row[m - 1] == 0 then [(i, m - 1)] else [])
  }

  /** The empty cells of rows 0..m-1 in the row-major order addRandomTile collects them. */
  function EmptyBefore(b: seq<seq<int>>, n: nat, m: nat): seq<(int, int)>
    requires IsBoard(b, n) && m <= n
  {
    if m == 0 then [] else EmptyBefore(b, n, m - 1) + EmptyInRow(b[m - 1], m - 1, n)
  }

  function EmptyCells(b: seq<seq<int>>, n: nat): seq<(int, int)>
    requires IsBoard(b, n)
  {
    EmptyBefore(b, n, n)
  }

  /** Entry k of the row's list is an empty cell of row i among its first m. */
  lemma {:induction false} EmptyInRowSound(row: seq<int>, i: int, m: nat, k: nat)
    requires m <= |row| && k < |EmptyInRow(row, i, m)|
    ensures EmptyInRow(row, i, m)[k].0 == i && 0 <= EmptyInRow(row, i, m)[k].1 < m
    ensures row[EmptyInRow(row, i, m)[k].1] == 0
  {
    var earlier := EmptyInRow(row, i, m - 1);
    if k < |earlier| {
      EmptyInRowSound(row, i, m - 1, k);
      assert EmptyInRow(row, i, m)[k] == earlier[k];
    }
  }

  /** Entry k of the list is an empty cell of rows 0..m-1. */
  lemma {:induction false} EmptyBeforeSound(b: seq<seq<int>>, n: nat, m: nat, k: nat)
    requires IsBoard(b, n) && m <= n && k < |EmptyBefore(b, n, m)|
    ensures 0 <= EmptyBefore(b, n, m)[k].0 < m && 0 <= EmptyBefore(b, n, m)[k].1 < n
    ensures b[EmptyBefore(b, n, m)[k].0][EmptyBefore(b, n, m)[k].1] == 0
  {
    var earlier := EmptyBefore(b, n, m - 1);
    var last := EmptyInRow(b[m - 1], m - 1, n);
    assert EmptyBefore(b, n, m) == earlier + last;
    if k < |earlier| {
      EmptyBeforeSound(b, n, m - 1, k);
      assert EmptyBefore(b, n, m)[k] == earlier[k];
    } else {
      EmptyInRowSound(b[m - 1], m - 1, n, k - |earlier|);
      assert EmptyBefore(b, n, m)[k] == last[k - |earlier|];
    }
  }

  /** An empty cell (i, j) of the row is listed; `k` is its position in the list. */
  lemma {:induction false} EmptyInRowComplete(row: seq<int>, i: int, m: nat, j: nat) returns (k: nat)
    requires j < m <= |row| && row[j] == 0
    ensures k < |EmptyInRow(row, i, m)| && EmptyInRow(row, i, m)[k] == (i, j)
  {
    var earlier := EmptyInRow(row, i, m - 1);
    if j < m - 1 {
      k := EmptyInRowComplete(row, i, m - 1, j);
      assert EmptyInRow(row, i, m)[k] == earlier[k];
    } else {
      k := |earlier|;
    }
  }

  /** An empty cell (i, j) of rows 0..m-1 is listed; `k` is its position in the list. */
  lemma {:induction false} EmptyBeforeComplete(b: seq<seq<int>>, n: nat, m: nat, i: nat, j: nat) returns (k: nat)
    requires IsBoard(b, n) && i < m <= n && j < n && b[i][j] == 0
    ensures k < |EmptyBefore(b, n, m)| && EmptyBefore(b, n, m)[k] == (i, j)
  {
    var earlier := EmptyBefore(b, n, m - 1);
    var last := EmptyInRow(b[m - 1], m - 1, n);
    assert EmptyBefore(b, n, m) == earlier + last;
    if i < m - 1 {
      k := EmptyBeforeComplete(b, n, m - 1, i, j);
      assert EmptyBefore(b, n, m)[k] == earlier[k];
    } else {
      var p := EmptyInRowComplete(b[i], i, n, j);
      k := |earlier| + p;
      assert EmptyBefore(b, n, m)[k] == last[p];
    }
  }

  /** The list addRandomTile draws from holds exactly the empty cells of the board. */
  lemma EmptyCellsExact(b: seq<seq<int>>, n: nat, i: int, j: int)
    requires IsBoard(b, n)
    ensures (i, j) in EmptyCells(b, n) <==> 0 <= i < n && 0 <= j < n && b[i][j] == 0
  {
    if 0 <= i < n && 0 <= j < n && b[i][j] == 0 {
      var k := EmptyBeforeComplete(b, n, n, i, j);
    }
    if (i, j) in EmptyCells(b, n) {
      var k :| 0 <= k < |EmptyCells(b, n)| && EmptyCells(b, n)[k] == (i, j);
      EmptyBeforeSound(b, n, n, k);
    }
  }

  /** A board with no tile. */
  function EmptyBoard(n: nat): (b: seq<seq<int>>)
    ensures IsBoard(b, n) && forall i, j :: 0 <= i < n && 0 <= j < n ==> b[i][j] == 0
  {
    seq(n, _ => seq(n, _ => 0))
  }

  /** Cell (i, j) of `b` replaced by v. */
  function Put(b: seq<seq<int>>, n: nat, i: nat, j: nat, v: int): (r: seq<seq<int>>)
    requires IsBoard(b, n) && i < n && j < n
    ensures IsBoard(r, n) && r[i][j] == v
    ensures forall p, q :: 0 <= p < n && 0 <= q < n && (p, q) != (i, j) ==> r[p][q] == b[p][q]
  {
    b[i := b[i][j := v]]
  }

  /**
   * The tile addRandomTile places: the two random draws (each from 0..|empty|-1) are the
   * parameters `pick` and `roll`, reduced modulo the number of empty cells. The value is 2 when
   * the second draw is even, so with a single empty cell the new tile is always a 2.
   */
  function RandomTile(empty: seq<(int, int)>, pick: nat, roll: nat): (t: ((int, int), int))
    requires |empty| > 0
    ensures t.0 in empty && (t.1 == 2 || t.1 == 4)
    ensures |empty| == 1 ==> t.1 == 2
  {
    (empty[pick % |empty|], if (roll % |empty|) % 2 == 0 then 2 else 4)
  }

  /** The board after addRandomTile with draws `pick` and `roll`. */
  function WithRandomTile(b: seq<seq<int>>, n: nat, pick: nat, roll: nat): (r: seq<seq<int>>)
    requires IsBoard(b, n)
    ensures IsBoard(r, n)
  {
    var empty := EmptyCells(b, n);
    if empty == [] then b
    else
      var t := RandomTile(empty, pick, roll);
      EmptyCellsExact(b, n, t.0.0, t.0.1);
      Put(b, n, t.0.0, t.0.1, t.1)
  }

  /**
   * addRandomTile leaves a full board alone; otherwise exactly one empty cell becomes a 2 or
   * a 4 and every other cell is kept.
   */
  lemma RandomTilePlaced(b: seq<seq<int>>, n: nat, pick: nat, roll: nat)
    requires IsBoard(b, n)
    ensures EmptyCells(b, n) == [] ==> WithRandomTile(b, n, pick, roll) == b
    ensures EmptyCells(b, n) != [] ==> exists i, j :: (0 <= i < n && 0 <= j < n && b[i][j] == 0 &&
      var r := WithRandomTile(b, n, pick, roll);
      (r[i][j] == 2 || r[i][j] == 4) && r == Put(b, n, i, j, r[i][j]))
  {
    var empty := EmptyCells(b, n);
    if empty != [] {
      var t := RandomTile(empty, pick, roll);
      EmptyCellsExact(b, n, t.0.0, t.0.1);
      var i, j := t.0.0, t.0.1;
      assert 0 <= i < n && 0 <= j < n && b[i][j] == 0;
      var r := WithRandomTile(b, n, pick, roll);
      assert r == Put(b, n, i, j, r[i][j]);
    }
  }

  /** A line of cells (i, j) read back onto the board: writes `line` onto line k in direction dir. */
  function WriteLine(b: seq<seq<int>>, n: nat, dir: Direction, k: nat, line: seq<int>): (r: seq<seq<int>>)
    requires IsBoard(b, n) && k < n && |line| == n
    ensures IsBoard(r, n)
    ensures forall i, j :: 0 <= i < n && 0 <= j < n ==>
      r[i][j] == if LineIndex(dir, i, j) == k then line[LinePos(n, dir, i, j)] else b[i][j]
  {
    seq(n, i requires 0 <= i < n =>
      seq(n, j requires 0 <= j < n => if LineIndex(dir, i, j) == k then line[LinePos(n, dir, i, j)] else b[i][j]))
  }

  /** Lines 0..k-1 of `nb` are the slid lines of `b`, the others are still those of `b`. */
  predicate MovedUpTo(b: seq<seq<int>>, nb: seq<seq<int>>, n: nat, dir: Direction, k: nat)
    requires IsBoard(b, n) && IsBoard(nb, n)
  {
    forall i, j :: 0 <= i < n && 0 <= j < n ==>
      nb[i][j] == if LineIndex(dir, i, j) < k then Cell(b, n, dir, i, j) else b[i][j]
  }

  /** A line that has not been written yet reads as in the old board. */
  lemma UntouchedLine(b: seq<seq<int>>, nb: seq<seq<int>>, n: nat, dir: Direction, k: nat)
    requires IsBoard(b, n) && IsBoard(nb, n) && k < n && MovedUpTo(b, nb, n, dir, k)
    ensures LineOf(nb, n, dir, k) == LineOf(b, n, dir, k)
  {
    forall p | 0 <= p < n
      ensures LineOf(nb, n, dir, k)[p] == LineOf(b, n, dir, k)[p]
    {
      var i, j := CellAt(n, dir, k, p);
      CellOnLine(b, n, dir, i, j);
      CellOnLine(nb, n, dir, i, j);
    }
  }

  /**
   * The line loop of moveTiles: every line in direction `dir` is read from the new board,
   * slid and written back; the gains add up and `moved` records whether some line changed.
   */
  method MoveBoard(b: seq<seq<int>>, n: nat, dir: Direction) returns (newBoard: seq<seq<int>>, gain: int, moved: bool)
    requires IsBoard(b, n)
    ensures newBoard == Moved(b, n, dir) && gain == TotalGain(b, n, dir, n)
    ensures moved <==> newBoard != b
  {
    moved := false;
    newBoard := b;
    gain := 0;
    for k := 0 to n
      invariant IsBoard(newBoard, n)
      invariant MovedUpTo(b, newBoard, n, dir, k)
      invariant gain == TotalGain(b, n, dir, k)
      invariant moved == AnyLineMoves(b, n, dir, k)
    {
      newBoard, gain, moved := MoveLine(b, n, dir, k, newBoard, gain, moved);
    }
    AllLinesMoved(b, newBoard, n, dir);
    MovesIffChanges(b, n, dir);
  }

  /** One turn of moveTiles' line loop: line k is slid and written back. */
  method MoveLine(b: seq<seq<int>>, n: nat, dir: Direction, k: nat, newBoard: seq<seq<int>>, gain: int, moved: bool)
    returns (nb: seq<seq<int>>, g: int, m: bool)
    requires IsBoard(b, n) && IsBoard(newBoard, n) && k < n
    requires MovedUpTo(b, newBoard, n, dir, k)
    requires gain == TotalGain(b, n, dir, k) && moved == AnyLineMoves(b, n, dir, k)
    ensures IsBoard(nb, n) && MovedUpTo(b, nb, n, dir, k + 1)
    ensures g == TotalGain(b, n, dir, k + 1) && m == AnyLineMoves(b, n, dir, k + 1)
  {
    UntouchedLine(b, newBoard, n, dir, k);
    var line := LineOf(newBoard, n, dir, k);
    var result, lineGain, changed := SlideAndMerge(line);
    g := gain + lineGain;
    m := moved || changed;
    TotalsStep(b, n, dir, k, line);
    WriteMovedLine(b, newBoard, n, dir, k, result);
    nb := WriteLine(newBoard, n, dir, k, result);
  }

  /** Line k adds its gain to the score and its change to `moved`. */
  lemma TotalsStep(b: seq<seq<int>>, n: nat, dir: Direction, k: nat, line: seq<int>)
    requires IsBoard(b, n) && k < n && line == LineOf(b, n, dir, k)
    ensures TotalGain(b, n, dir, k + 1) == TotalGain(b, n, dir, k) + LineGain(line)
    ensures AnyLineMoves(b, n, dir, k + 1) <==> AnyLineMoves(b, n, dir, k) || Slide(line) != line
  {
    MovesStep(b, n, dir, k, line);
  }

  lemma MovesStep(b: seq<seq<int>>, n: nat, dir: Direction, k: nat, line: seq<int>)
    requires IsBoard(b, n) && k < n && line == LineOf(b, n, dir, k)
    ensures AnyLineMoves(b, n, dir, k + 1) <==> AnyLineMoves(b, n, dir, k) || Slide(line) != line
  {
    if AnyLineMoves(b, n, dir, k + 1) {
      var q :| 0 <= q < k + 1 && Slide(LineOf(b, n, dir, q)) != LineOf(b, n, dir, q);
      if q < k {
        assert AnyLineMoves(b, n, dir, k);
      }
    }
    if AnyLineMoves(b, n, dir, k) {
      var q :| 0 <= q < k && Slide(LineOf(b, n, dir, q)) != LineOf(b, n, dir, q);
      assert 0 <= q < k + 1;
    }
    if Slide(line) != line {
      assert Slide(LineOf(b, n, dir, k)) != LineOf(b, n, dir, k);
    }
  }

  lemma AllLinesMoved(b: seq<seq<int>>, nb: seq<seq<int>>, n: nat, dir: Direction)
    requires IsBoard(b, n) && IsBoard(nb, n) && MovedUpTo(b, nb, n, dir, n)
    ensures nb == Moved(b, n, dir)
  {
    forall i | 0 <= i < n
      ensures nb[i] == Moved(b, n, dir)[i]
    {
      forall j | 0 <= j < n
        ensures nb[i][j] == Moved(b, n, dir)[i][j]
      {
        CellOnLine(b, n, dir, i, j);
        MovedCell(b, n, dir, i, j);
      }
    }
  }

  /** Writing the slid line k extends the moved part of the board by that line. */
  lemma WriteMovedLine(b: seq<seq<int>>, nb: seq<seq<int>>, n: nat, dir: Direction, k: nat, result: seq<int>)
    requires IsBoard(b, n) && IsBoard(nb, n) && k < n && MovedUpTo(b, nb, n, dir, k)
    requires result == Slide(LineOf(b, n, dir, k))
    ensures MovedUpTo(b, WriteLine(nb, n, dir, k, result), n, dir, k + 1)
  {
  }

  /** Cell (i, j) is filled and differs from its neighbours below and to the right. */
  predicate CellSettled(b: seq<seq<int>>, n: nat, i: nat, j: nat)
    requires IsBoard(b, n) && i < n && j < n
  {
    b[i][j] != 0 && (i < n - 1 ==> DiffersBelow(b, i, j)) && (j < n - 1 ==> DiffersRight(b, i, j))
  }

  lemma SettledGameOver(b: seq<seq<int>>, n: nat)
    requires IsBoard(b, n)
    requires forall p, q :: 0 <= p < n && 0 <= q < n ==> CellSettled(b, n, p, q)
    ensures GameOver(b, n)
  {
    forall i, j | 0 <= i < n && 0 <= j < n
      ensures b[i][j] != 0
    {
      assert CellSettled(b, n, i, j);
    }
    forall i, j | 0 <= i < n - 1 && 0 <= j < n
      ensures DiffersBelow(b, i, j)
    {
      assert CellSettled(b, n, i, j);
    }
    forall i, j | 0 <= i < n && 0 <= j < n - 1
      ensures DiffersRight(b, i, j)
    {
      assert CellSettled(b, n, i, j);
    }
  }

  predicate Has2048(b: seq<seq<int>>, n: nat)
    requires IsBoard(b, n)
  {
    exists i, j :: 0 <= i < n && 0 <= j < n && b[i][j] == 2048
  }
}
