/** The mutable board (goakt-scrabble/scrabble/board.go). */
module Boards {
  import opened Tiles
  import opened Grids
  import opened Moves

  datatype Square = Square(premium: Premium, tile: Tile, filled: bool)

  class Board {
    const squares: array2<Square>
    var tiles: int

    /** The filled squares. */
    ghost var grid: Grid

    ghost predicate Shaped() {
      squares.Length0 == BOARD_SIZE && squares.Length1 == BOARD_SIZE
    }

    ghost function Grid(): Grid
      reads `grid
    {
      grid
    }

    /** The square has its premium, and is filled as the grid says. */
    ghost predicate SquareOk(p: Pos)
      requires Shaped() && InBounds(p)
      reads `grid, squares
    {
      var sq := squares[p.row, p.col];
      && sq.premium == StandardPremium(p)
      && (sq.filled <==> p in grid)
      && (sq.filled ==> sq.tile == grid[p])
    }

    /** The counter counts the filled squares. */
    ghost predicate Valid()
      reads this, squares
    {
      && Shaped()
      && OnBoard(grid)
      && tiles == |grid|
      && (forall p {:trigger SquareOk(p)} :: InBounds(p) ==> SquareOk(p))
    }

    constructor ()
      ensures Valid() && fresh(squares)
      ensures Grid() == map[]
    {
      squares := new Square[BOARD_SIZE,
                            BOARD_SIZE]((r, c) => Square(StandardPremium(Pos(r, c)), Tile(0, false), false));
      tiles, grid := 0, map[];
    }

    /** A deep copy. */
    constructor Clone(board: Board)
      requires board.Valid()
      ensures Valid() && fresh(squares)
      ensures Grid() == board.Grid()
    {
      var source := board.squares;
      squares := new Square[BOARD_SIZE, BOARD_SIZE]((r, c)
        requires source.Length0 == BOARD_SIZE && source.Length1 == BOARD_SIZE && 0 <= r < BOARD_SIZE
        requires 0 <= c < BOARD_SIZE
        reads source
        => source[r, c]);
      tiles, grid := board.tiles, board.grid;
      new;
      forall p | InBounds(p)
        ensures SquareOk(p)
      {
        assert board.SquareOk(p);
      }
    }

    /** Reading a square is looking it up in the grid. */
    function At(p: Pos): (sq: Square)
      requires Valid() && InBounds(p)
      reads this, squares
      ensures sq.filled <==> p in Grid()
      ensures sq.filled ==> sq.tile == Grid()[p]
      ensures sq.premium == StandardPremium(p)
    {
      assert SquareOk(p);
      squares[p.row, p.col]
    }

    predicate IsEmptyBoard()
      reads this
    {
      tiles == 0
    }

    /** Puts a tile on an empty square; an occupied one is refused and nothing changes. */
    method Place(p: Pos, t: Tile) returns (ok: bool)
      requires Valid() && InBounds(p)
      modifies this, squares
      ensures Valid()
      ensures ok == (p !in old(Grid()))
      ensures Grid() == if ok then old(Grid())[p := t] else old(Grid())
    {
      var sq := squares[p.row, p.col];
      assert SquareOk(p);
      if sq.filled {
        return false;
      }
      squares[p.row, p.col] := sq.(tile := t, filled := true);
      tiles, grid := tiles + 1, grid[p := t];
      forall q | InBounds(q)
        ensures SquareOk(q)
      {
        assert old(SquareOk(q));
      }
      return true;
    }
  }

  /** Only the empty board has a zero counter. */
  lemma EmptyIsEmpty(b: Board)
    requires b.Valid()
    ensures b.IsEmptyBoard() <==> b.Grid() == map[]
  {
  }
}
