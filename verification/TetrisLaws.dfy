/** What a match of Tetris does over many messages: how pieces fall, and that waiting ends where a hard drop does. */
module TetrisLaws {
  import opened Tetris

  // ---------- gravity ----------

  /** A row takes fifty ticks at first and four fewer at each level, but never fewer than six. */
  lemma GravityIs(level: int)
    ensures GravityAt(1) == 50 && GravityAt(level) >= 6
    ensures level >= 1 ==> GravityAt(level + 1) == if GravityAt(level) >= 10 then GravityAt(level) - 4 else 6
  {
  }

  /** A run without input. */
  ghost predicate Quiet(views: seq<View>) {
    (forall i :: 0 <= i < |views| ==> views[i].Valid()) && forall i :: 0 <= i < |views| - 1 ==> Ticked(views, i)
  }

  ghost predicate Ticked(views: seq<View>, i: nat)
    requires i + 1 < |views| && views[i].Valid()
  {
    MessageStep(views[i], Tick, views[i + 1])
  }

  lemma TicksAreQuiet(views: seq<View>, msgs: seq<Message>)
    requires Shows(views, msgs) && forall i :: 0 <= i < |msgs| ==> msgs[i] == Tick
    ensures Quiet(views)
  {
  }

  /** Gravity is at work on the piece. */
  predicate Falling(v: View) {
    v.Valid() && !v.gameOver && !v.paused && v.fallTick >= 1
  }

  /** Until the countdown ends nothing else changes. */
  lemma {:induction false} CountsDown(views: seq<View>, i: nat, k: nat)
    requires Quiet(views) && i + k < |views| && Falling(views[i]) && k < views[i].fallTick
    ensures views[i + k] == views[i].(fallTick := views[i].fallTick - k)
    decreases k
  {
    if k > 0 {
      CountsDown(views, i, k - 1);
      assert Ticked(views, i + k - 1);
    }
  }

  /** The tick that ends the countdown is a step of the fall. */
  lemma CountdownEnds(views: seq<View>, i: nat, k: nat)
    requires Quiet(views) && i < |views| && Falling(views[i]) && k == i + views[i].fallTick && k < |views|
    ensures FallStep(views[i], views[k]) && views[k].fallTick == views[k].Pace()
  {
    CountsDown(views, i, views[i].fallTick - 1);
    assert Ticked(views, k - 1);
    AnyCountdown(views[i], views[k - 1], views[k]);
  }

  lemma AnyCountdownLocks(v: View, u: View, w: View)
    requires v.Valid() && u == v.(fallTick := u.fallTick) && u.Valid() && LockStep(u, w)
    ensures LockStep(v, w)
  {
    assert u.rows == v.rows && u.piece == v.piece;
    assert Dropped(v.rows, v.piece, w.rows, v.lines, w.lines);
  }

  lemma AnyCountdown(v: View, u: View, w: View)
    requires v.Valid() && u == v.(fallTick := u.fallTick) && u.Valid() && FallStep(u, w)
    ensures FallStep(v, w)
  {
    assert u.rows == v.rows && u.piece == v.piece && u.Lowered() == v.Lowered();
    if !Fits(v.rows, v.Lowered()) {
      AnyCountdownLocks(v, u, w);
    }
  }

  /** Without input a piece that fits one row lower is exactly one row down after as many ticks as the countdown
      shows, and nothing else has changed. */
  lemma OneRowDown(views: seq<View>, i: nat)
    requires Quiet(views) && i < |views| && Falling(views[i]) && i + views[i].fallTick < |views|
    requires Fits(views[i].rows, views[i].Lowered())
    ensures views[i + views[i].fallTick] == views[i].(piece := views[i].Lowered(), fallTick := views[i].Pace())
  {
    CountdownEnds(views, i, i + views[i].fallTick);
  }

  /** The ticks it takes to fall `d` rows. */
  function Due(v: View, d: nat): (n: nat)
    requires v.fallTick >= 1
    ensures n >= d
  {
    if d == 0 then 0 else v.fallTick + Times(d - 1, v.Pace())
  }

  function Times(n: nat, pace: int): (t: nat)
    requires pace >= 3
    ensures t >= n
  {
    if n == 0 then 0 else pace + Times(n - 1, pace)
  }

  /** So it goes on, row by row, as far as the piece fits. */
  lemma {:induction false} FallsRows(views: seq<View>, i: nat, d: nat)
    requires Quiet(views) && i < |views| && Falling(views[i]) && i + Due(views[i], d) < |views|
    requires FitsDown(views[i].rows, views[i].piece, views[i].piece.y + d)
    ensures views[i + Due(views[i], d)] == Fallen(views[i], d)
    decreases d
  {
    var v := views[i];
    if d > 0 {
      var j := i + Due(v, d - 1);
      assert FitsAt(v.rows, v.piece, v.piece.y + d);
      assert j + Fallen(v, d - 1).fallTick == i + Due(v, d);
      FallsRows(views, i, d - 1);
      assert Fallen(v, d - 1).Lowered() == v.piece.(y := v.piece.y + d);
      OneRowDown(views, j);
    }
  }

  function Fallen(v: View, d: nat): View {
    v.(piece := v.piece.(y := v.piece.y + d), fallTick := if d == 0 then v.fallTick else v.Pace())
  }

  /** Left alone, a piece is locked at the row where a hard drop would lock it, after a number of ticks that can be
      told beforehand. */
  lemma WaitingLocks(views: seq<View>, i: nat, y: int, k: nat)
    requires Quiet(views) && i < |views| && Falling(views[i]) && Landing(views[i].rows, views[i].piece, y)
    requires k == i + Due(views[i], y + 1 - views[i].piece.y) && k < |views|
    ensures LockStep(views[i].(piece := views[i].piece.(y := y)), views[k])
  {
    var j := Lands(views, i, y, k);
    CountdownEnds(views, j, k);
    LandsThere(views[i], y, views[j], views[k]);
  }

  /** The view in which the piece has come down to its landing row. */
  lemma Lands(views: seq<View>, i: nat, y: int, k: nat) returns (j: nat)
    requires Quiet(views) && i < |views| && Falling(views[i]) && Landing(views[i].rows, views[i].piece, y)
    requires k == i + Due(views[i], y + 1 - views[i].piece.y) && k < |views|
    ensures j < |views| && Falling(views[j]) && k == j + views[j].fallTick
    ensures views[j] == views[i].(piece := views[i].piece.(y := y), fallTick := views[j].fallTick)
  {
    var v, d := views[i], y - views[i].piece.y;
    j := i + Due(v, d);
    assert j + Fallen(v, d).fallTick == i + Due(v, d + 1);
    FallsRows(views, i, d);
  }

  lemma LandsThere(v: View, y: int, u: View, w: View)
    requires v.Valid() && Landing(v.rows, v.piece, y)
    requires u == v.(piece := v.piece.(y := y), fallTick := u.fallTick) && u.Valid() && FallStep(u, w)
    ensures LockStep(v.(piece := v.piece.(y := y)), w)
  {
    assert u.Lowered() == v.piece.(y := y + 1);
    assert !FitsAt(v.rows, v.piece, y + 1);
    assert LockStep(u, w);
    AnyCountdownLocks(v.(piece := v.piece.(y := y)), u, w);
  }

  /** Waiting ends where a hard drop does: the same board, lines, level and piece, and the same end of the game. The
      drop is worth two points more for each row. */
  lemma WaitingIsDropping(views: seq<View>, i: nat, y: int, k: nat, dropped: View)
    requires Quiet(views) && i < |views| && Falling(views[i]) && DropStep(views[i], y, dropped)
    requires k == i + Due(views[i], y + 1 - views[i].piece.y) && k < |views|
    ensures && views[k].rows == dropped.rows && views[k].lines == dropped.lines && views[k].level == dropped.level
            && views[k].piece == dropped.piece && views[k].gameOver == dropped.gameOver
            && dropped.score == views[k].score + 2 * (y - views[i].piece.y)
  {
    WaitingLocks(views, i, y, k);
  }

  // ---------- turning, locking and clearing ----------

  /** A quarter turn takes what is on the right below, and what is below to the left; four of them are none. */
  lemma TurnsAre(c: Cell)
    ensures Turned(c, 0) == c && Turned(c, 1) == Cell(-c.y, c.x)
    ensures Turned(c, 2) == Cell(-c.x, -c.y) && Turned(c, 3) == Cell(c.y, -c.x) && Turned(c, 4) == c
  {
    assert Turned(c, 1) == Cell(-c.y, c.x);
    assert Turned(c, 2) == Cell(-c.x, -c.y);
    assert Turned(c, 3) == Cell(c.y, -c.x);
  }

  /** One of the first `n` cells of the piece is on that square. */
  predicate Covers(p: Piece, n: nat, x: int, y: int)
    requires p.Valid() && n <= 4
  {
    exists i :: 0 <= i < n && At(p, i) == Cell(x, y)
  }

  /** A locked piece has written its number on the squares it covers, and left all others as they were. */
  lemma {:induction false} LockedIs(rows: seq<Row>, p: Piece, n: nat, x: nat, y: nat)
    requires |rows| == BOARD_H && p.Valid() && n <= 4 && x < BOARD_W && y < BOARD_H
    ensures Locked(rows, p, n)[y][x] == if Covers(p, n, x, y) then p.kind + 1 else rows[y][x]
    decreases n
  {
    if n > 0 {
      LockedIs(rows, p, n - 1, x, y);
      if Covers(p, n - 1, x, y) {
        var i :| 0 <= i < n - 1 && At(p, i) == Cell(x, y);
        assert Covers(p, n, x, y);
      }
    }
  }

  /** A row that is not full comes down by the number of full rows below it. */
  lemma {:induction false} RowsComeDown(rows: seq<Row>, r: nat)
    requires r < |rows| && !Full(rows[r])
    ensures r + FullRows(rows[r + 1..]) < |rows|
    ensures Collapsed(rows)[r + FullRows(rows[r + 1..])] == rows[r]
  {
    KeptAt(rows, r);
    var above, below := rows[..r], rows[r + 1..];
    assert rows == above + ([rows[r]] + below);
    CountsConcat(above, [rows[r]] + below);
    assert ([rows[r]] + below)[1..] == below;
  }

  /** Its place among the rows that are kept. */
  lemma KeptAt(rows: seq<Row>, r: nat)
    requires r < |rows| && !Full(rows[r])
    ensures r - FullRows(rows[..r]) < |NotFull(rows)|
    ensures NotFull(rows)[r - FullRows(rows[..r])] == rows[r]
  {
    var above, below := rows[..r], rows[r + 1..];
    assert rows == above + ([rows[r]] + below);
    CountsConcat(above, [rows[r]] + below);
    assert ([rows[r]] + below)[1..] == below;
    assert NotFull([rows[r]] + below) == [rows[r]] + NotFull(below);
  }

  /** As many empty rows come in at the top as full ones have gone. */
  lemma EmptyRowsComeIn(rows: seq<Row>, r: nat)
    requires r < FullRows(rows)
    ensures Collapsed(rows)[r] == EMPTY_ROW
  {
    EmptyRowsAt(FullRows(rows), r);
  }

  /** The full ones among the first `n` rows: those without an empty square. */
  function FullOnes(rows: seq<Row>, n: nat): set<int>
    requires n <= |rows|
  {
    set r | 0 <= r < n && 0 !in rows[r]
  }

  lemma FullOnesMore(rows: seq<Row>, n: nat)
    requires n < |rows|
    ensures |FullOnes(rows, n + 1)| == |FullOnes(rows, n)| + (if Full(rows[n]) then 1 else 0)
  {
    assert 0 !in rows[n] <==> Full(rows[n]);
    assert FullOnes(rows, n + 1) == FullOnes(rows, n) + if 0 !in rows[n] then {n} else {};
  }

  /** The lines cleared at once are counted as the rows without an empty square. */
  lemma {:induction false} FullRowsAre(rows: seq<Row>, n: nat)
    requires n <= |rows|
    ensures FullRows(rows[..n]) == |FullOnes(rows, n)|
    decreases n
  {
    if n > 0 {
      FullRowsAre(rows, n - 1);
      FullOnesMore(rows, n - 1);
      assert rows[..n] == rows[..n - 1] + [rows[n - 1]];
      CountsConcat(rows[..n - 1], [rows[n - 1]]);
      FullRowsOne(rows[n - 1]);
    }
  }

  lemma FullRowsOne(r: Row)
    ensures FullRows([r]) == if Full(r) then 1 else 0
  {
    assert [r][1..] == [];
  }
}
