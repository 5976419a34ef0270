/** Squares, lines and runs: the geometry that the validator and the move generator share. */
module Grids {
  import opened Tiles

  const BOARD_SIZE := 15

  datatype Pos = Pos(row: int, col: int)

  datatype Direction = Horizontal | Vertical

  /** The filled squares and the tiles on them. */
  type Grid = map<Pos, Tile>

  const CENTER := Pos(7, 7)

  predicate InBounds(p: Pos) {
    0 <= p.row < BOARD_SIZE && 0 <= p.col < BOARD_SIZE
  }

  /** `q` comes before `p` when a board is read row by row. */
  predicate Earlier(q: Pos, p: Pos) {
    q.row < p.row || (q.row == p.row && q.col < p.col)
  }

  predicate OnBoard(g: Grid) {
    forall p :: p in g ==> InBounds(p)
  }

  function Perpendicular(d: Direction): Direction {
    if d == Horizontal then Vertical else Horizontal
  }

  /** The square at offset `i` of line `line`: lines are rows when reading across, columns when reading down. */
  function Cell(d: Direction, line: int, i: int): Pos {
    if d == Horizontal then Pos(line, i) else Pos(i, line)
  }

  function LineOf(d: Direction, p: Pos): int {
    if d == Horizontal then p.row else p.col
  }

  function IndexOf(d: Direction, p: Pos): int {
    if d == Horizontal then p.col else p.row
  }

  function TileAt(g: Grid, p: Pos): Tile {
    if p in g then g[p] else Tile(0, false)
  }

  /** Offsets `start .. end - 1` of one line. */
  datatype Run = Run(dir: Direction, line: int, start: int, end: int) {
    function Length(): int {
      end - start
    }
  }

  predicate InRun(r: Run, p: Pos) {
    LineOf(r.dir, p) == r.line && r.start <= IndexOf(r.dir, p) < r.end
  }

  /** Every square of `r` is filled. */
  predicate Solid(g: Grid, r: Run) {
    && 0 <= r.line < BOARD_SIZE
    && 0 <= r.start <= r.end <= BOARD_SIZE
    && (forall k :: r.start <= k < r.end ==> Cell(r.dir, r.line, k) in g)
  }

  /** `r` is a maximal stretch of filled squares. */
  predicate IsRun(g: Grid, r: Run) {
    && Solid(g, r)
    && r.start < r.end
    && (r.start > 0 ==> Cell(r.dir, r.line, r.start - 1) !in g)
    && (r.end < BOARD_SIZE ==> Cell(r.dir, r.line, r.end) !in g)
  }

  /** Walks back over filled squares. */
  function RunStart(g: Grid, d: Direction, line: int, i: int): (s: int)
    requires 0 <= i <= BOARD_SIZE
    ensures 0 <= s <= i
    decreases i
  {
    if i > 0 && Cell(d, line, i - 1) in g then RunStart(g, d, line, i - 1) else i
  }

  /** Walks forward over filled squares. */
  function RunEnd(g: Grid, d: Direction, line: int, i: int): (e: int)
    requires 0 <= i <= BOARD_SIZE
    ensures i <= e <= BOARD_SIZE
    decreases BOARD_SIZE - i
  {
    if i < BOARD_SIZE && Cell(d, line, i) in g then RunEnd(g, d, line, i + 1) else i
  }

  /** The walks stop at the first empty square or the edge. */
  lemma {:induction false} RunStartIs(g: Grid, d: Direction, line: int, i: int)
    requires 0 <= i <= BOARD_SIZE
    ensures forall k :: RunStart(g, d, line, i) <= k < i ==> Cell(d, line, k) in g
    ensures RunStart(g, d, line, i) > 0 ==> Cell(d, line, RunStart(g, d, line, i) - 1) !in g
    decreases i
  {
    if i > 0 && Cell(d, line, i - 1) in g {
      RunStartIs(g, d, line, i - 1);
    }
  }

  lemma {:induction false} RunEndIs(g: Grid, d: Direction, line: int, i: int)
    requires 0 <= i <= BOARD_SIZE
    ensures forall k :: i <= k < RunEnd(g, d, line, i) ==> Cell(d, line, k) in g
    ensures RunEnd(g, d, line, i) < BOARD_SIZE ==> Cell(d, line, RunEnd(g, d, line, i)) !in g
    decreases BOARD_SIZE - i
  {
    if i < BOARD_SIZE && Cell(d, line, i) in g {
      RunEndIs(g, d, line, i + 1);
    }
  }

  lemma RunAtEnds(g: Grid, d: Direction, p: Pos)
    requires InBounds(p)
    ensures var r := RunAt(g, d, p);
            && (forall k :: r.start <= k < r.end && k != IndexOf(d, p) ==> Cell(d, r.line, k) in g)
            && (r.start > 0 ==> Cell(d, r.line, r.start - 1) !in g)
            && (r.end < BOARD_SIZE ==> Cell(d, r.line, r.end) !in g)
            && r.start <= IndexOf(d, p) <= r.end && r.line == LineOf(d, p)
  {
    RunStartIs(g, d, LineOf(d, p), IndexOf(d, p));
    RunEndIs(g, d, LineOf(d, p), IndexOf(d, p));
  }

  /** The stretch around a square, as the validator extracts it. */
  function RunAt(g: Grid, d: Direction, p: Pos): Run
    requires InBounds(p)
  {
    Run(d, LineOf(d, p), RunStart(g, d, LineOf(d, p), IndexOf(d, p)), RunEnd(g, d, LineOf(d, p), IndexOf(d, p)))
  }

  /** Around a filled square there is exactly one maximal stretch in each direction. */
  lemma RunAtIsTheRun(g: Grid, d: Direction, p: Pos)
    requires InBounds(p) && p in g
    ensures IsRun(g, RunAt(g, d, p)) && InRun(RunAt(g, d, p), p)
    ensures forall r :: IsRun(g, r) && r.dir == d && InRun(r, p) ==> r == RunAt(g, d, p)
  {
    var w := RunAt(g, d, p);
    var i := IndexOf(d, p);
    RunAtEnds(g, d, p);
    assert Cell(d, w.line, i) == p;
    assert w.start <= i < w.end;
    forall k | w.start <= k < w.end
      ensures Cell(d, w.line, k) in g
    {
    }
    forall r | IsRun(g, r) && r.dir == d && InRun(r, p)
      ensures r == w
    {
      assert r.start < w.start ==> Cell(d, w.line, w.start - 1) in g;
      assert w.start < r.start ==> Cell(d, w.line, r.start - 1) in g;
      assert r.end < w.end ==> Cell(d, w.line, r.end) in g;
      assert w.end < r.end ==> Cell(d, w.line, w.end) in g;
    }
  }

  /** Any two squares of one stretch have the same stretch around them. */
  lemma SameRun(g: Grid, r: Run, p: Pos)
    requires IsRun(g, r) && InRun(r, p)
    ensures InBounds(p) && p in g
    ensures RunAt(g, r.dir, p) == r
  {
    assert p == Cell(r.dir, r.line, IndexOf(r.dir, p));
    RunAtIsTheRun(g, r.dir, p);
  }

  /** The letters on offsets `s .. e - 1` of a line. */
  function Letters(g: Grid, d: Direction, line: int, s: int, e: int): (w: seq<LetterID>)
    requires s <= e
    ensures |w| == e - s
    decreases e - s
  {
    if s == e then [] else [TileAt(g, Cell(d, line, s)).letter] + Letters(g, d, line, s + 1, e)
  }

  lemma {:induction false} LettersAre(g: Grid, d: Direction, line: int, s: int, e: int, k: int)
    requires s <= k < e
    ensures Letters(g, d, line, s, e)[k - s] == TileAt(g, Cell(d, line, k)).letter
    decreases e - s
  {
    if s < k {
      LettersAre(g, d, line, s + 1, e, k);
    }
  }

  function RunLetters(g: Grid, r: Run): seq<LetterID>
    requires r.start <= r.end
  {
    Letters(g, r.dir, r.line, r.start, r.end)
  }

  lemma {:induction false} LettersAgree(g: Grid, h: Grid, d: Direction, line: int, s: int, e: int)
    requires s <= e
    requires forall k :: s <= k < e ==> TileAt(g, Cell(d, line, k)).letter == TileAt(h, Cell(d, line, k)).letter
    ensures Letters(g, d, line, s, e) == Letters(h, d, line, s, e)
    decreases e - s
  {
    if s < e {
      LettersAgree(g, h, d, line, s + 1, e);
    }
  }

  predicate SameOnLine(g: Grid, h: Grid, d: Direction, line: int) {
    && (forall k :: 0 <= k < BOARD_SIZE ==> (Cell(d, line, k) in g <==> Cell(d, line, k) in h))
    && (forall k :: 0 <= k < BOARD_SIZE ==>
          TileAt(g, Cell(d, line, k)).letter == TileAt(h, Cell(d, line, k)).letter)
  }

  /** The word around a square depends on its line only. */
  lemma WordsAreLocal(g: Grid, h: Grid, d: Direction, p: Pos)
    requires InBounds(p) && SameOnLine(g, h, d, LineOf(d, p))
    ensures RunAt(g, d, p) == RunAt(h, d, p)
    ensures RunLetters(g, RunAt(g, d, p)) == RunLetters(h, RunAt(h, d, p))
  {
    var line := LineOf(d, p);
    var r, w := RunAt(g, d, p), RunAt(h, d, p);
    RunStartIs(g, d, line, IndexOf(d, p));
    RunStartIs(h, d, line, IndexOf(d, p));
    RunEndIs(g, d, line, IndexOf(d, p));
    RunEndIs(h, d, line, IndexOf(d, p));
    assert r.start < w.start ==> Cell(d, line, w.start - 1) in g;
    assert w.start < r.start ==> Cell(d, line, r.start - 1) in h;
    assert r.end < w.end ==> Cell(d, line, r.end) in h;
    assert w.end < r.end ==> Cell(d, line, w.end) in g;
    LettersAgree(g, h, d, line, r.start, r.end);
  }

  lemma {:induction false} LettersSplit(g: Grid, d: Direction, line: int, s: int, m: int, e: int)
    requires s <= m <= e
    ensures Letters(g, d, line, s, e) == Letters(g, d, line, s, m) + Letters(g, d, line, m, e)
    decreases m - s
  {
    if s < m {
      LettersSplit(g, d, line, s + 1, m, e);
    }
  }
}
