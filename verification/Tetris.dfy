/** A Tetris match (goakt-tetris/match.go): the falling piece, the stack of locked rows, and the clearing of lines. */
module Tetris {
  const BOARD_W := 10
  const BOARD_H := 20

  const GRAVITY_START := 50
  const GRAVITY_MIN := 6
  const GRAVITY_PER_LEVEL := 4
  const SOFT_DROP_TICKS := 3
  const HARD_DROP_BONUS := 2

  // ---------- pieces ----------

  datatype Cell = Cell(x: int, y: int)

  datatype Piece = Piece(kind: int, rot: int, x: int, y: int) {
    predicate Valid() {
      0 <= kind < 7 && 0 <= rot < 4
    }
  }

  const KIND_O := 1

  function Shape(kind: int): (cells: seq<Cell>)
    requires 0 <= kind < 7
    ensures |cells| == 4
  {
    if kind == 0 then [Cell(-1, 0), Cell(0, 0), Cell(1, 0), Cell(2, 0)]
    else if kind == 1 then [Cell(0, 0), Cell(1, 0), Cell(0, 1), Cell(1, 1)]
    else if kind == 2 then [Cell(-1, 0), Cell(0, 0), Cell(1, 0), Cell(0, 1)]
    else if kind == 3 then [Cell(0, 0), Cell(1, 0), Cell(-1, 1), Cell(0, 1)]
    else if kind == 4 then [Cell(-1, 0), Cell(0, 0), Cell(0, 1), Cell(1, 1)]
    else if kind == 5 then [Cell(-1, 0), Cell(0, 0), Cell(1, 0), Cell(1, 1)]
    else [Cell(-1, 0), Cell(0, 0), Cell(1, 0), Cell(-1, 1)]
  }

  /** A quarter turn clockwise, `rot` times. */
  function Turned(c: Cell, rot: nat): Cell {
    if rot == 0 then c else var d := Turned(c, rot - 1); Cell(-d.y, d.x)
  }

  /** The square of the board under cell `i` of the piece. */
  function At(p: Piece, i: int): Cell
    requires p.Valid() && 0 <= i < 4
  {
    var d := Turned(Shape(p.kind)[i], p.rot);
    Cell(p.x + d.x, p.y + d.y)
  }

  lemma {:induction false} TurnedApart(c: Cell, d: Cell, rot: nat)
    requires c != d
    ensures Turned(c, rot) != Turned(d, rot)
    decreases rot
  {
    if rot > 0 {
      TurnedApart(c, d, rot - 1);
    }
  }

  lemma {:induction false} TurnedNear(c: Cell, rot: nat)
    requires -2 <= c.x <= 2 && -2 <= c.y <= 2
    ensures -2 <= Turned(c, rot).x <= 2 && -2 <= Turned(c, rot).y <= 2
    decreases rot
  {
    if rot > 0 {
      TurnedNear(c, rot - 1);
    }
  }

  /** The four cells of a piece are four different squares near its position. */
  lemma CellsApart(p: Piece, i: int, j: int)
    requires p.Valid() && 0 <= i < j < 4
    ensures At(p, i) != At(p, j)
  {
    var s := Shape(p.kind);
    assert s[i] != s[j];
    TurnedApart(s[i], s[j], p.rot);
  }

  lemma CellsNear(p: Piece, i: int)
    requires p.Valid() && 0 <= i < 4
    ensures p.y - 2 <= At(p, i).y <= p.y + 2
  {
    TurnedNear(Shape(p.kind)[i], p.rot);
  }

  /** The offsets of a piece, turned step by step in place. */
  method PieceCells(kind: int, rot: nat) returns (cells: seq<Cell>)
    requires 0 <= kind < 7
    ensures |cells| == 4 && forall i :: 0 <= i < 4 ==> cells[i] == Turned(Shape(kind)[i], rot)
  {
    cells := Shape(kind);
    for n := 0 to rot
      invariant |cells| == 4 && forall i :: 0 <= i < 4 ==> cells[i] == Turned(Shape(kind)[i], n)
    {
      for j := 0 to 4
        invariant |cells| == 4
        invariant forall i :: 0 <= i < 4 ==> cells[i] == Turned(Shape(kind)[i], if i < j then n + 1 else n)
      {
        cells := cells[j := Cell(-cells[j].y, cells[j].x)];
      }
    }
  }

  // ---------- rows ----------

  /** A row of the board; 0 is an empty square. */
  type Row = r: seq<int> | |r| == BOARD_W witness [0, 0, 0, 0, 0, 0, 0, 0, 0, 0]

  const EMPTY_ROW: Row := [0, 0, 0, 0, 0, 0, 0, 0, 0, 0]

  predicate Full(r: Row) {
    forall c :: 0 <= c < BOARD_W ==> r[c] != 0
  }

  /** Filled squares among the first `n` of a row. */
  function FilledTo(r: Row, n: nat): nat
    requires n <= BOARD_W
  {
    if n == 0 then 0 else FilledTo(r, n - 1) + (if r[n - 1] != 0 then 1 else 0)
  }

  function Filled(rows: seq<Row>): nat {
    if rows == [] then 0 else FilledTo(rows[0], BOARD_W) + Filled(rows[1..])
  }

  function FullRows(rows: seq<Row>): (n: nat)
    ensures n <= |rows|
  {
    if rows == [] then 0 else (if Full(rows[0]) then 1 else 0) + FullRows(rows[1..])
  }

  /** The rows that are not full, in order. */
  function NotFull(rows: seq<Row>): (out: seq<Row>)
    ensures |out| == |rows| - FullRows(rows)
  {
    if rows == [] then [] else (if Full(rows[0]) then [] else [rows[0]]) + NotFull(rows[1..])
  }

  function EmptyRows(n: nat): (out: seq<Row>)
    ensures |out| == n
  {
    if n == 0 then [] else [EMPTY_ROW] + EmptyRows(n - 1)
  }

  /** The board once its full rows are gone: empty rows on top of the others. */
  function Collapsed(rows: seq<Row>): (out: seq<Row>)
    ensures |out| == |rows|
  {
    EmptyRows(FullRows(rows)) + NotFull(rows)
  }

  lemma {:induction false} FullRowCount(r: Row, n: nat)
    requires n <= BOARD_W
    ensures FilledTo(r, n) <= n
    ensures FilledTo(r, n) == n <==> forall c :: 0 <= c < n ==> r[c] != 0
    decreases n
  {
    if n > 0 {
      FullRowCount(r, n - 1);
    }
  }

  lemma {:induction false} NoneFilled(n: nat)
    requires n <= BOARD_W
    ensures FilledTo(EMPTY_ROW, n) == 0
    decreases n
  {
    if n > 0 {
      NoneFilled(n - 1);
    }
  }

  lemma {:induction false} EmptyRowsAre(n: nat)
    ensures Filled(EmptyRows(n)) == 0 && FullRows(EmptyRows(n)) == 0
    decreases n
  {
    if n > 0 {
      EmptyRowsAre(n - 1);
      NoneFilled(BOARD_W);
      assert EMPTY_ROW[0] == 0;
      assert EmptyRows(n)[1..] == EmptyRows(n - 1);
    }
  }

  predicate Empty(rows: seq<Row>) {
    forall r :: 0 <= r < |rows| ==> rows[r] == EMPTY_ROW
  }

  /** Rows that are all empty are the empty rows. */
  lemma {:induction false} AllEmpty(rows: seq<Row>)
    requires Empty(rows)
    ensures rows == EmptyRows(|rows|)
    decreases |rows|
  {
    if rows != [] {
      AllEmpty(rows[1..]);
      assert rows == [rows[0]] + rows[1..];
    }
  }

  lemma {:induction false} CountsConcat(a: seq<Row>, b: seq<Row>)
    ensures Filled(a + b) == Filled(a) + Filled(b)
    ensures FullRows(a + b) == FullRows(a) + FullRows(b)
    ensures NotFull(a + b) == NotFull(a) + NotFull(b)
    decreases |a|
  {
    if a == [] {
      assert a + b == b;
    } else {
      assert (a + b)[1..] == a[1..] + b;
      CountsConcat(a[1..], b);
    }
  }

  lemma {:induction false} NotFullAre(rows: seq<Row>)
    ensures FullRows(NotFull(rows)) == 0
    ensures Filled(NotFull(rows)) + BOARD_W * FullRows(rows) == Filled(rows)
    decreases |rows|
  {
    if rows != [] {
      NotFullAre(rows[1..]);
      FullRowCount(rows[0], BOARD_W);
      if Full(rows[0]) {
        assert NotFull(rows) == NotFull(rows[1..]);
      } else {
        assert NotFull(rows)[1..] == NotFull(rows[1..]);
      }
    }
  }

  /** Collapsing leaves no full row and takes away exactly the squares of the full ones. */
  lemma CollapsedCounts(rows: seq<Row>)
    ensures FullRows(Collapsed(rows)) == 0
    ensures Filled(Collapsed(rows)) + BOARD_W * FullRows(rows) == Filled(rows)
  {
    EmptyRowsAre(FullRows(rows));
    CountsConcat(EmptyRows(FullRows(rows)), NotFull(rows));
    NotFullAre(rows);
  }

  /** How many of the rows from `r` on are full, and those that are not. */
  function FullFrom(rows: seq<Row>, r: nat): nat
    requires r <= |rows|
    decreases |rows| - r
  {
    if r == |rows| then 0 else (if Full(rows[r]) then 1 else 0) + FullFrom(rows, r + 1)
  }

  function NotFullFrom(rows: seq<Row>, r: nat): seq<Row>
    requires r <= |rows|
    decreases |rows| - r
  {
    if r == |rows| then [] else (if Full(rows[r]) then [] else [rows[r]]) + NotFullFrom(rows, r + 1)
  }

  lemma {:induction false} FromIs(rows: seq<Row>, r: nat)
    requires r <= |rows|
    ensures FullFrom(rows, r) == FullRows(rows[r..]) && NotFullFrom(rows, r) == NotFull(rows[r..])
    decreases |rows| - r
  {
    if r < |rows| {
      FromIs(rows, r + 1);
      assert rows[r..][1..] == rows[r + 1..];
    }
  }

  lemma {:induction false} EmptyRowsAt(n: nat, i: nat)
    requires i < n
    ensures EmptyRows(n)[i] == EMPTY_ROW
    decreases n
  {
    if i > 0 {
      EmptyRowsAt(n - 1, i - 1);
    }
  }

  /** Empty rows on top of what was gathered are the collapsed board. */
  lemma CollapsedIs(rows: seq<Row>, after: seq<Row>, n: nat, tail: seq<Row>)
    requires tail == NotFullFrom(rows, 0) && n == FullFrom(rows, 0) && |after| == n + |tail|
    requires forall i :: 0 <= i < n ==> after[i] == EMPTY_ROW
    requires forall i :: 0 <= i < |tail| ==> after[n + i] == tail[i]
    ensures after == Collapsed(rows) && n == FullRows(rows)
  {
    FromIs(rows, 0);
    assert rows[0..] == rows;
    var top := EmptyRows(n);
    forall i | 0 <= i < |after|
      ensures after[i] == (top + tail)[i]
    {
      if i < n {
        EmptyRowsAt(n, i);
      } else {
        assert after[n + (i - n)] == tail[i - n];
      }
    }
  }

  // ---------- locking ----------

  predicate Inside(c: Cell) {
    0 <= c.x < BOARD_W && 0 <= c.y < BOARD_H
  }

  /** A square that a falling piece may occupy: above the board, or on it and empty. */
  predicate Free(rows: seq<Row>, c: Cell)
    requires |rows| == BOARD_H
  {
    0 <= c.x < BOARD_W && c.y < BOARD_H && (c.y >= 0 ==> rows[c.y][c.x] == 0)
  }

  predicate Fits(rows: seq<Row>, p: Piece)
    requires |rows| == BOARD_H && p.Valid()
  {
    forall i :: 0 <= i < 4 ==> Free(rows, At(p, i))
  }

  function Put(rows: seq<Row>, c: Cell, v: int): (out: seq<Row>)
    requires |rows| == BOARD_H
    ensures |out| == BOARD_H
  {
    if Inside(c) then rows[c.y := rows[c.y][c.x := v]] else rows
  }

  /** The board with the first `n` cells of the piece written into it. */
  function Locked(rows: seq<Row>, p: Piece, n: nat): (out: seq<Row>)
    requires |rows| == BOARD_H && p.Valid() && n <= 4
    ensures |out| == BOARD_H
  {
    if n == 0 then rows else Put(Locked(rows, p, n - 1), At(p, n - 1), p.kind + 1)
  }

  /** Cells of the piece that are on the board. */
  function Visible(p: Piece, n: nat): nat
    requires p.Valid() && n <= 4
  {
    if n == 0 then 0 else Visible(p, n - 1) + (if Inside(At(p, n - 1)) then 1 else 0)
  }

  lemma {:induction false} PutCell(r: Row, x: nat, v: int, n: nat)
    requires x < BOARD_W && n <= BOARD_W && r[x] == 0 && v != 0
    ensures FilledTo(r[x := v], n) == FilledTo(r, n) + (if x < n then 1 else 0)
    decreases n
  {
    if n > 0 {
      PutCell(r, x, v, n - 1);
    }
  }

  lemma {:induction false} PutRow(rows: seq<Row>, y: nat, r: Row)
    requires y < |rows|
    ensures Filled(rows[y := r]) + FilledTo(rows[y], BOARD_W) == Filled(rows) + FilledTo(r, BOARD_W)
    ensures FullRows(rows[y := r]) <= FullRows(rows) + 1
    decreases |rows|
  {
    if y == 0 {
      assert rows[y := r][1..] == rows[1..];
    } else {
      PutRow(rows[1..], y - 1, r);
      assert rows[y := r][1..] == rows[1..][y - 1 := r];
    }
  }

  /** Writing one free square fills one more and completes at most one row. */
  lemma PutCounts(rows: seq<Row>, c: Cell, v: int)
    requires |rows| == BOARD_H && Free(rows, c) && v != 0
    ensures Filled(Put(rows, c, v)) == Filled(rows) + (if Inside(c) then 1 else 0)
    ensures FullRows(Put(rows, c, v)) <= FullRows(rows) + 1
  {
    if Inside(c) {
      PutCell(rows[c.y], c.x, v, BOARD_W);
      PutRow(rows, c.y, rows[c.y][c.x := v]);
    }
  }

  lemma {:induction false} StillFree(rows: seq<Row>, p: Piece, n: nat, i: int)
    requires |rows| == BOARD_H && p.Valid() && n <= i < 4 && Fits(rows, p)
    ensures Free(Locked(rows, p, n), At(p, i))
    decreases n
  {
    if n > 0 {
      StillFree(rows, p, n - 1, i);
      CellsApart(p, n - 1, i);
    }
  }

  /** Locking a piece that fits overwrites nothing: it fills exactly its visible squares, and completes at most four
      rows. */
  lemma {:induction false} LockedCounts(rows: seq<Row>, p: Piece, n: nat)
    requires |rows| == BOARD_H && p.Valid() && n <= 4 && Fits(rows, p)
    ensures Filled(Locked(rows, p, n)) == Filled(rows) + Visible(p, n)
    ensures FullRows(Locked(rows, p, n)) <= FullRows(rows) + n
    decreases n
  {
    if n > 0 {
      LockedCounts(rows, p, n - 1);
      StillFree(rows, p, n - 1, n - 1);
      PutCounts(Locked(rows, p, n - 1), At(p, n - 1), p.kind + 1);
    }
  }

  /** One column over, if the piece fits there. */
  function Shifted(rows: seq<Row>, p: Piece, dx: int): Piece
    requires |rows| == BOARD_H && p.Valid()
  {
    if Fits(rows, p.(x := p.x + dx)) then p.(x := p.x + dx) else p
  }

  /** A quarter turn, if the piece fits then; the O piece is never turned. */
  function Rotated(rows: seq<Row>, p: Piece): Piece
    requires |rows| == BOARD_H && p.Valid()
  {
    var next := p.(rot := (p.rot + 1) % 4);
    if p.kind != KIND_O && Fits(rows, next) then next else p
  }

  /** Where pieces come in. */
  function Spawned(kind: int): Piece {
    Piece(kind, 0, BOARD_W / 2, 1)
  }

  /** Every first piece fits the empty board. */
  lemma FirstPieceFits(rows: seq<Row>, kind: int)
    requires |rows| == BOARD_H && 0 <= kind < 7 && Empty(rows)
    ensures Fits(rows, Spawned(kind))
  {
    forall i | 0 <= i < 4
      ensures Free(rows, At(Spawned(kind), i))
    {
      var c := Shape(kind)[i];
      assert Turned(c, 0) == c && -1 <= c.x <= 2 && 0 <= c.y <= 1;
    }
  }

  // ---------- the match ----------

  datatype Action = Pause | Restart | Left | Right | Rotate | SoftDrop | SoftDropEnd | HardDrop | OtherAction

  datatype Message = Tick | PlayerInput(action: Action)

  /** What clearing so many lines at once is worth. */
  const SCORE_FOR: seq<int> := [0, 100, 300, 500, 800]

  function GravityAt(level: int): int {
    var g := GRAVITY_START - (level - 1) * GRAVITY_PER_LEVEL;
    if g < GRAVITY_MIN then GRAVITY_MIN else g
  }

  /** The visible state of a match. */
  datatype View = Shown(rows: seq<Row>, piece: Piece, nextKind: int, score: int, lines: int, level: int,
                       gameOver: bool, softDrop: bool, paused: bool, fallTick: int) {
    predicate Valid() {
      |rows| == BOARD_H && piece.Valid() && 0 <= nextKind < 7
    }

    /** The ticks that a row takes. */
    function Pace(): int {
      if softDrop then SOFT_DROP_TICKS else GravityAt(level)
    }

    function Lowered(): Piece {
      piece.(y := piece.y + 1)
    }
  }

  /** The piece is locked where it is: its full rows are cleared and scored, the next piece comes in, and the game is
      over exactly when that one does not fit. */
  predicate LockStep(v: View, w: View)
    requires v.Valid()
  {
    && Dropped(v.rows, v.piece, w.rows, v.lines, w.lines)
    && w.score == v.score + SCORE_FOR[w.lines - v.lines] * v.level
    && w.level == 1 + w.lines / 10
    && w.piece == Spawned(v.nextKind) && 0 <= w.nextKind < 7
    && (w.gameOver <==> !Fits(w.rows, w.piece))
    && w.softDrop == v.softDrop && w.paused == v.paused
  }

  /** One row down and nothing else, or locked if that row is taken. */
  predicate FallStep(v: View, w: View)
    requires v.Valid()
  {
    if Fits(v.rows, v.Lowered()) then w == v.(piece := v.Lowered(), fallTick := w.fallTick) else LockStep(v, w)
  }

  /** A tick counts down; the last one moves the piece and starts the next countdown. */
  predicate TickStep(v: View, w: View)
    requires v.Valid()
  {
    if v.fallTick > 1 then w == v.(fallTick := v.fallTick - 1) else FallStep(v, w) && w.fallTick == w.Pace()
  }

  /** The countdown takes no part in the fall itself. */
  lemma LastTick(before: View, v: View, w: View, after: View)
    requires before.Valid() && before.fallTick <= 1 && v == before.(fallTick := v.fallTick) && FallStep(v, w)
    requires after == w.(fallTick := w.Pace())
    ensures TickStep(before, after)
  {
  }

  /** The piece is locked at its landing row `y`; each row on the way is worth two points. */
  ghost predicate DropStep(v: View, y: int, w: View)
    requires v.Valid()
  {
    && Landing(v.rows, v.piece, y)
    && LockStep(v.(piece := v.piece.(y := y), score := v.score + HARD_DROP_BONUS * (y - v.piece.y)), w)
    && w.fallTick == w.Pace()
  }

  /** A new match: an empty board, nothing scored yet, and a piece at the top that fits. */
  predicate Started(w: View) {
    && w.Valid() && Empty(w.rows)
    && w.piece == Spawned(w.piece.kind) && Fits(w.rows, w.piece)
    && w.score == w.lines == 0 && w.level == 1 && !w.gameOver && !w.softDrop && !w.paused
    && w.fallTick == GRAVITY_START
  }

  /** What each key does. Pausing works until the game is over; a finished match knows only the restart, a paused
      one nothing else. */
  ghost predicate InputStep(v: View, action: Action, w: View)
    requires v.Valid()
  {
    if action.Pause? then w == v.(paused := v.paused != !v.gameOver)
    else if v.gameOver then if action.Restart? then Started(w) else w == v
    else if v.paused then w == v
    else match action
      case Left => w == v.(piece := Shifted(v.rows, v.piece, -1))
      case Right => w == v.(piece := Shifted(v.rows, v.piece, 1))
      case Rotate => w == v.(piece := Rotated(v.rows, v.piece))
      case SoftDrop =>
        w == v.(softDrop := true, fallTick := if v.fallTick > SOFT_DROP_TICKS then SOFT_DROP_TICKS else v.fallTick)
      case SoftDropEnd => w == v.(softDrop := false)
      case HardDrop => exists y :: DropStep(v, y, w)
      case _ => w == v
  }

  /** A tick is a step of gravity exactly while the match is neither over nor paused. */
  ghost predicate MessageStep(v: View, msg: Message, w: View)
    requires v.Valid()
  {
    match msg
    case Tick => if v.gameOver || v.paused then w == v else TickStep(v, w)
    case PlayerInput(action) => InputStep(v, action, w)
  }

  /** The views of a run: one before each message and one at the end. */
  ghost predicate Shows(views: seq<View>, msgs: seq<Message>) {
    && |views| == |msgs| + 1 && (forall i :: 0 <= i < |views| ==> views[i].Valid())
    && forall i :: 0 <= i < |msgs| ==> MessageStep(views[i], msgs[i], views[i + 1])
  }

  class Match {
    const grid: array<Row>
    var piece: Piece
    var nextKind: int
    var score: int
    var lines: int
    var level: int
    var gameOver: bool
    var softDrop: bool
    var paused: bool
    var gravity: int
    var fallTick: int
    var tickN: int

    /** Visible squares locked since the last reset. */
    ghost var locked: nat

    /** Between messages the countdown is running. */
    ghost predicate Valid()
      reads this, grid
    {
      Sound() && fallTick >= 1
    }

    /** No row is full, the active piece fits unless the game is over, and every square that was locked is still there
        or was cleared with its line. */
    ghost predicate Sound()
      reads this, grid
    {
      && grid.Length == BOARD_H && piece.Valid() && 0 <= nextKind < 7
      && FullRows(grid[..]) == 0
      && (!gameOver ==> Fits(grid[..], piece))
      && lines >= 0 && Filled(grid[..]) + BOARD_W * lines == locked
      && level == 1 + lines / 10 && gravity == GravityAt(level)
    }

    ghost function View(): View
      reads this, grid
    {
      Shown(grid[..], piece, nextKind, score, lines, level, gameOver, softDrop, paused, fallTick)
    }

    /** Whether the piece is inside the walls and floor and overlaps nothing. */
    method CanPlace(p: Piece) returns (ok: bool)
      requires grid.Length == BOARD_H && p.Valid()
      ensures ok <==> Fits(grid[..], p)
    {
      var cells := PieceCells(p.kind, p.rot);
      for i := 0 to 4
        invariant forall k :: 0 <= k < i ==> Free(grid[..], At(p, k))
      {
        var x, y := p.x + cells[i].x, p.y + cells[i].y;
        assert At(p, i) == Cell(x, y);
        if x < 0 || x >= BOARD_W || y >= BOARD_H {
          return false;
        }
        if y >= 0 && grid[y][x] != 0 {
          return false;
        }
      }
      return true;
    }

    /** Moves the rows that are not full to the bottom, in place, and blanks the rest. */
    method ClearLines() returns (cleared: nat)
      requires grid.Length == BOARD_H
      modifies grid
      ensures grid[..] == Collapsed(old(grid[..])) && cleared == FullRows(old(grid[..]))
    {
      var write;
      ghost var tail;
      ghost var rows := grid[..];
      write, cleared, tail := Gather();
      BlankTop(write);
      CollapsedIs(rows, grid[..], write + 1, tail);
    }

    /** Moves the rows that are not full to the bottom; `write` is the last row above them. */
    method Gather() returns (write: int, cleared: nat, ghost tail: seq<Row>)
      requires grid.Length == BOARD_H
      modifies grid
      ensures -1 <= write < BOARD_H && write + 1 == cleared
      ensures tail == NotFullFrom(old(grid[..]), 0) && cleared == FullFrom(old(grid[..]), 0)
      ensures |tail| == BOARD_H - cleared
      ensures forall i :: 0 <= i < |tail| ==> grid[cleared + i] == tail[i]
    {
      ghost var rows := grid[..];
      tail, cleared := [], 0;
      write := BOARD_H - 1;
      var read := BOARD_H - 1;
      while read >= 0
        invariant -1 <= read <= write < BOARD_H && write - read == cleared
        invariant tail == NotFullFrom(rows, read + 1) && cleared == FullFrom(rows, read + 1)
        invariant |tail| == BOARD_H - 1 - write
        invariant forall i :: 0 <= i <= write ==> grid[i] == rows[i]
        invariant forall i :: 0 <= i < |tail| ==> grid[write + 1 + i] == tail[i]
        decreases read
      {
        var full := IsFull(read);
        if full {
          cleared := cleared + 1;
        } else {
          if write != read {
            grid[write] := grid[read];
          }
          tail := [rows[read]] + tail;
          write := write - 1;
        }
        read := read - 1;
      }
    }

    method IsFull(r: int) returns (full: bool)
      requires 0 <= r < grid.Length
      ensures full <==> Full(grid[r])
    {
      for c := 0 to BOARD_W
        invariant forall k :: 0 <= k < c ==> grid[r][k] != 0
      {
        if grid[r][c] == 0 {
          return false;
        }
      }
      return true;
    }

    /** Blanks rows `0 .. last`. */
    method BlankTop(last: int)
      requires -1 <= last < grid.Length
      modifies grid
      ensures forall r :: 0 <= r <= last ==> grid[r] == EMPTY_ROW
      ensures forall r :: last < r < grid.Length ==> grid[r] == old(grid[r])
    {
      var w := last;
      while w >= 0
        invariant -1 <= w <= last
        invariant forall r :: w < r <= last ==> grid[r] == EMPTY_ROW
        invariant forall r :: last < r < grid.Length ==> grid[r] == old(grid[r])
        decreases w
      {
        grid[w] := EMPTY_ROW;
        w := w - 1;
      }
    }

    // ---------- the life of a piece ----------

    constructor ()
      ensures Valid() && fresh(grid) && locked == 0 && Started(View())
    {
      grid := new Row[BOARD_H](_ => EMPTY_ROW);
      piece, nextKind := Piece(0, 0, 0, 0), 0;
      tickN := 0;
      new;
      Reset();
    }

    /** Empties the board and starts over; the first piece always fits. */
    method Reset()
      requires grid.Length == BOARD_H
      modifies this, grid
      ensures Valid() && locked == 0 && Started(View())
    {
      BlankAll();
      var kind :| 0 <= kind < 7;
      nextKind := kind;
      score, lines, level, locked := 0, 0, 1, 0;
      gameOver, softDrop, paused := false, false, false;
      gravity := GRAVITY_START;
      fallTick := gravity;
      FirstPieceFits(grid[..], nextKind);
      SpawnPiece();
    }

    method BlankAll()
      requires grid.Length == BOARD_H
      modifies grid
      ensures Empty(grid[..]) && FullRows(grid[..]) == 0 && Filled(grid[..]) == 0
    {
      var last := grid.Length - 1;
      BlankTop(last);
      AllEmpty(grid[..]);
      EmptyRowsAre(last + 1);
    }

    /** The next piece comes in at the top; if it does not fit the game is over. */
    method SpawnPiece()
      requires grid.Length == BOARD_H && 0 <= nextKind < 7
      modifies `piece, `nextKind, `gameOver
      ensures piece == Spawned(old(nextKind)) && 0 <= nextKind < 7
      ensures gameOver <==> old(gameOver) || !Fits(grid[..], piece)
    {
      piece := Spawned(nextKind);
      var kind :| 0 <= kind < 7;
      nextKind := kind;
      var ok := CanPlace(piece);
      if !ok {
        gameOver := true;
      }
    }

    /** Writes the piece into the grid. */
    method WritePiece()
      requires grid.Length == BOARD_H && piece.Valid()
      modifies grid
      ensures grid[..] == Locked(old(grid[..]), piece, 4)
    {
      var cells := PieceCells(piece.kind, piece.rot);
      for i := 0 to 4
        invariant grid[..] == Locked(old(grid[..]), piece, i)
      {
        var x, y := piece.x + cells[i].x, piece.y + cells[i].y;
        assert At(piece, i) == Cell(x, y);
        if x >= 0 && x < BOARD_W && y >= 0 && y < BOARD_H {
          ghost var rows := grid[..];
          grid[y] := grid[y][x := piece.kind + 1];
          assert grid[..] == Put(rows, Cell(x, y), piece.kind + 1);
        }
      }
    }

    /** Writes the piece and clears the rows it completes. */
    method LockAndClear() returns (cleared: nat)
      requires Sound() && !gameOver
      modifies `locked, grid
      ensures grid[..] == Collapsed(Locked(old(grid[..]), piece, 4))
      ensures cleared == FullRows(Locked(old(grid[..]), piece, 4)) <= 4
      ensures locked == old(locked) + Visible(piece, 4)
      ensures FullRows(grid[..]) == 0 && Filled(grid[..]) + BOARD_W * (lines + cleared) == locked
    {
      LockedCounts(grid[..], piece, 4);
      locked := locked + Visible(piece, 4);
      WritePiece();
      CollapsedCounts(grid[..]);
      cleared := ClearLines();
    }

    /** Locks the piece, clears the rows it completes, scores them, and brings in the next piece. */
    method LockPiece()
      requires Sound() && !gameOver
      modifies `piece, `nextKind, `score, `lines, `level, `gravity, `gameOver, `locked, grid
      ensures Sound() && LockStep(old(View()), View())
      ensures locked == old(locked) + Visible(old(piece), 4)
    {
      var cleared := LockAndClear();
      score := score + SCORE_FOR[cleared] * level;
      lines := lines + cleared;
      level := 1 + lines / 10;
      gravity := GRAVITY_START - (level - 1) * GRAVITY_PER_LEVEL;
      if gravity < GRAVITY_MIN {
        gravity := GRAVITY_MIN;
      }
      SpawnPiece();
    }

    /** One row down, or locked. */
    method TryFall()
      requires Sound() && !gameOver
      modifies `piece, `nextKind, `score, `lines, `level, `gravity, `gameOver, `locked, grid
      ensures Sound() && FallStep(old(View()), View())
      ensures locked == old(locked) + (if Fits(old(grid[..]), old(View()).Lowered()) then 0 else Visible(old(piece), 4))
    {
      var next := piece.(y := piece.y + 1);
      var ok := CanPlace(next);
      if ok {
        piece := next;
        return;
      }
      LockPiece();
    }

    method Step()
      requires Valid() && !gameOver
      modifies this, grid
      ensures Valid() && tickN == old(tickN) + 1 && TickStep(old(View()), View())
    {
      tickN := tickN + 1;
      fallTick := fallTick - 1;
      if fallTick <= 0 {
        ghost var v := View();
        TryFall();
        ghost var w := View();
        fallTick := CurrentGravity();
        LastTick(old(View()), v, w, View());
      }
    }

    function CurrentGravity(): int
      reads this
    {
      if softDrop then SOFT_DROP_TICKS else gravity
    }

    method TryShift(dx: int)
      requires Valid() && !gameOver
      modifies `piece
      ensures Valid()
      ensures piece == Shifted(grid[..], old(piece), dx)
    {
      var next := piece.(x := piece.x + dx);
      var ok := CanPlace(next);
      if ok {
        piece := next;
      }
    }

    method TryRotate()
      requires Valid() && !gameOver
      modifies `piece
      ensures Valid()
      ensures piece == Rotated(grid[..], old(piece))
    {
      if piece.kind == KIND_O {
        return;
      }
      var next := piece.(rot := (piece.rot + 1) % 4);
      var ok := CanPlace(next);
      if ok {
        piece := next;
      }
    }

    /** Drops the piece as far as it goes. */
    method Drop()
      requires Valid() && !gameOver
      modifies `piece, `score
      ensures Valid() && Landing(grid[..], old(piece), piece.y) && piece == old(piece).(y := piece.y)
      ensures score == old(score) + HARD_DROP_BONUS * (piece.y - old(piece).y)
    {
      ghost var rows, p := grid[..], piece;
      while true
        invariant piece == p.(y := piece.y) && p.y <= piece.y && FitsDown(rows, p, piece.y)
        invariant score == old(score) + HARD_DROP_BONUS * (piece.y - p.y)
        decreases BOARD_H + 2 - piece.y
      {
        var next := piece.(y := piece.y + 1);
        var ok := CanPlace(next);
        assert ok <==> FitsAt(rows, p, next.y);
        if !ok {
          break;
        }
        NotBelowFloor(rows, next);
        OneFurther(rows, p, piece.y);
        piece := next;
        score := score + HARD_DROP_BONUS;
      }
      assert FitsAt(rows, p, piece.y);
    }

    /** Drops the piece and locks it where it lands, the one landing row there is; each row is worth two points. */
    method HardDrop() returns (ghost y: int)
      requires Valid() && !gameOver
      modifies this, grid
      ensures Valid() && DropStep(old(View()), y, View())
      ensures forall z :: Landing(old(grid[..]), old(piece), z) <==> z == y
      ensures locked == old(locked) + Visible(old(piece).(y := y), 4)
    {
      ghost var rows := grid[..];
      Drop();
      y := piece.y;
      forall z | Landing(rows, old(piece), z)
        ensures z == y
      {
        LandingUnique(rows, old(piece), y, z);
      }
      LockPiece();
      fallTick := CurrentGravity();
    }

    /** The row that the client shows as the landing hint. */
    method GhostY() returns (y: int)
      requires Valid()
      ensures gameOver || paused ==> y == piece.y
      ensures !gameOver && !paused ==> Landing(grid[..], piece, y)
    {
      if gameOver || paused {
        return piece.y;
      }
      var p := piece;
      while true
        invariant p == piece.(y := p.y) && piece.y <= p.y && FitsDown(grid[..], piece, p.y)
        decreases BOARD_H + 2 - p.y
      {
        var next := p.(y := p.y + 1);
        var ok := CanPlace(next);
        assert ok <==> FitsAt(grid[..], piece, next.y);
        if !ok {
          return p.y;
        }
        NotBelowFloor(grid[..], next);
        OneFurther(grid[..], piece, p.y);
        p := next;
      }
    }

    method HandleInput(action: Action)
      requires Valid()
      modifies this, grid
      ensures Valid() && InputStep(old(View()), action, View())
    {
      if action.Pause? {
        if !gameOver {
          paused := !paused;
        }
        return;
      }
      if gameOver {
        if action.Restart? {
          Reset();
        }
        return;
      }
      if paused {
        return;
      }
      match action {
        case Left => TryShift(-1);
        case Right => TryShift(1);
        case Rotate => TryRotate();
        case SoftDrop =>
          softDrop := true;
          if fallTick > SOFT_DROP_TICKS {
            fallTick := SOFT_DROP_TICKS;
          }
        case SoftDropEnd => softDrop := false;
        case HardDrop =>
          ghost var y := HardDrop();
        case _ =>
      }
    }

    method Receive(msg: Message)
      requires Valid()
      modifies this, grid
      ensures Valid() && MessageStep(old(View()), msg, View())
    {
      match msg {
        case Tick =>
          if !gameOver && !paused {
            Step();
          }
        case PlayerInput(action) => HandleInput(action);
      }
    }

    /** Any run of messages keeps everything that `Valid` says, and shows one step for each. */
    method Play(msgs: seq<Message>) returns (ghost views: seq<View>)
      requires Valid()
      modifies this, grid
      ensures Valid()
      ensures Shows(views, msgs) && views[0] == old(View()) && views[|msgs|] == View()
      ensures FullRows(grid[..]) == 0 && (!gameOver ==> Fits(grid[..], piece))
      ensures Filled(grid[..]) + BOARD_W * lines == locked
    {
      views := [View()];
      for n := 0 to |msgs|
        invariant Valid() && Shows(views, msgs[..n]) && views[0] == old(View()) && views[n] == View()
      {
        Receive(msgs[n]);
        ShowsMore(views, msgs[..n], msgs[n], View());
        assert msgs[..n + 1] == msgs[..n] + [msgs[n]];
        views := views + [View()];
      }
      assert msgs[..|msgs|] == msgs;
    }
  }

  lemma ShowsMore(views: seq<View>, msgs: seq<Message>, msg: Message, w: View)
    requires Shows(views, msgs) && w.Valid() && MessageStep(views[|msgs|], msg, w)
    ensures Shows(views + [w], msgs + [msg])
  {
    var more, all := views + [w], msgs + [msg];
    forall i | 0 <= i < |all|
      ensures MessageStep(more[i], all[i], more[i + 1])
    {
      if i < |msgs| {
        assert MessageStep(views[i], msgs[i], views[i + 1]);
      }
    }
  }

  predicate FitsAt(rows: seq<Row>, p: Piece, y: int)
    requires |rows| == BOARD_H && p.Valid()
  {
    Fits(rows, p.(y := y))
  }

  /** The piece fits everywhere from its own row down to `y`. */
  ghost predicate FitsDown(rows: seq<Row>, p: Piece, y: int)
    requires |rows| == BOARD_H && p.Valid()
  {
    forall k {:trigger FitsAt(rows, p, k)} :: p.y <= k <= y ==> FitsAt(rows, p, k)
  }

  /** `y` is where the piece comes to rest: it fits everywhere on the way, and not one row further down. */
  ghost predicate Landing(rows: seq<Row>, p: Piece, y: int)
    requires |rows| == BOARD_H && p.Valid()
  {
    p.y <= y && FitsDown(rows, p, y) && !FitsAt(rows, p, y + 1)
  }

  /** The board once the piece is locked, and the lines that this has completed. */
  predicate Dropped(rows: seq<Row>, p: Piece, after: seq<Row>, linesBefore: int, linesAfter: int)
    requires |rows| == BOARD_H && p.Valid()
  {
    && after == Collapsed(Locked(rows, p, 4))
    && linesAfter == linesBefore + FullRows(Locked(rows, p, 4)) && linesAfter - linesBefore <= 4
  }

  lemma OneFurther(rows: seq<Row>, p: Piece, y: int)
    requires |rows| == BOARD_H && p.Valid() && FitsDown(rows, p, y) && FitsAt(rows, p, y + 1)
    ensures FitsDown(rows, p, y + 1)
  {
  }

  lemma NotBelowFloor(rows: seq<Row>, p: Piece)
    requires |rows| == BOARD_H && p.Valid() && Fits(rows, p)
    ensures p.y < BOARD_H + 2
  {
    CellsNear(p, 0);
    assert Free(rows, At(p, 0));
  }

  /** There is one landing row, so the landing hint is where a hard drop ends. */
  lemma LandingUnique(rows: seq<Row>, p: Piece, y: int, z: int)
    requires |rows| == BOARD_H && p.Valid() && Landing(rows, p, y) && Landing(rows, p, z)
    ensures y == z
  {
  }
}
