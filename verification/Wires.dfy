/** The string forms that travel between the room and its bots (goakt-scrabble/wire.go, goakt-scrabble/bot.go). */
module Wires {
  import opened Wrappers
  import opened Tiles
  import opened Grids
  import opened Moves
  import opened Boards

  const BLANK_PREFIX := '*'
  const UNASSIGNED_BLANK := "?"

  datatype PlacementWire = PlacementWire(row: int, col: int, letter: string, blank: bool)

  datatype WireError = BadTile | EmptyLetter | NotOneLetter | NotInAlphabet

  /** Alphabets whose characters are upper case and none of the two marks. */
  predicate Writable(lang: Language) {
    lang.WellFormed() && forall i :: 0 <= i < |lang.letters| ==>
      ToUpper(lang.letters[i]) == lang.letters[i] && lang.letters[i] != BLANK_PREFIX &&
        [lang.letters[i]] != UNASSIGNED_BLANK
  }

  // ---------- tiles ----------

  function TileToWire(t: Tile, lang: Language): string
    requires lang.Has(t)
  {
    if t.IsUnassignedBlank() then UNASSIGNED_BLANK
    else if t.blank then [BLANK_PREFIX, lang.letters[t.letter]]
    else [lang.letters[t.letter]]
  }

  function WireToTile(raw: string, lang: Language): (r: Option<Tile>)
    requires lang.WellFormed()
  {
    if raw == UNASSIGNED_BLANK then Some(BLANK_TILE)
    else
      var blank := raw != "" && raw[0] == BLANK_PREFIX;
      var part := if blank then raw[1..] else raw;
      if |part| != 1 then None
      else match lang.Id(part[0])
        case None => None
        case Some(id) => Some(Tile(id, blank))
  }

  /** A tile survives its wire form, and the wire form of no tile is empty. */
  lemma TileRoundTrip(t: Tile, lang: Language)
    requires Writable(lang) && lang.Has(t)
    ensures WireToTile(TileToWire(t, lang), lang) == Some(t)
    ensures TileToWire(t, lang) != ""
  {
    RuneThenId(lang, t.letter);
    assert [BLANK_PREFIX, lang.letters[t.letter]][1..] == [lang.letters[t.letter]];
  }

  /** How a tile is written: a question mark for a blank without a letter, a star before the letter of any other blank,
      and otherwise the letter alone. */
  predicate Writes(raw: string, t: Tile, lang: Language) {
    if raw == "?" then t == BLANK_TILE
    else if raw != "" && raw[0] == '*' then t.blank && |raw| == 2 && SpellsAt(lang, raw[1], t.letter)
    else !t.blank && |raw| == 1 && SpellsAt(lang, raw[0], t.letter)
  }

  /** A tile is read from exactly the strings that write it. */
  lemma TileReadIff(raw: string, t: Tile, lang: Language)
    requires lang.WellFormed()
    ensures WireToTile(raw, lang) == Some(t) <==> Writes(raw, t, lang)
  {
    var blank := raw != "" && raw[0] == BLANK_PREFIX;
    var part := if blank then raw[1..] else raw;
    if raw != "?" && |part| == 1 {
      IdIsThere(lang, part[0]);
      if SpellsAt(lang, part[0], t.letter) {
        LettersDiffer(lang, t.letter, lang.Id(part[0]).value);
      }
    }
  }

  /** What was read has a letter of the alphabet. */
  lemma WireToTileHas(raw: string, lang: Language)
    requires lang.WellFormed()
    ensures WireToTile(raw, lang).Some? ==> lang.Has(WireToTile(raw, lang).value)
  {
  }

  // ---------- racks ----------

  method RackToWire(tiles: seq<Tile>, lang: Language) returns (out: seq<string>)
    requires forall i :: 0 <= i < |tiles| ==> lang.Has(tiles[i])
    ensures |out| == |tiles| && forall i :: 0 <= i < |tiles| ==> out[i] == TileToWire(tiles[i], lang)
  {
    out := [];
    for i := 0 to |tiles|
      invariant |out| == i && forall k :: 0 <= k < i ==> out[k] == TileToWire(tiles[k], lang)
    {
      out := out + [TileToWire(tiles[i], lang)];
    }
  }

  /** Reads a rack, exactly when each of its tiles can be read. */
  method WireToRack(tiles: seq<string>, lang: Language) returns (r: Result<seq<Tile>, WireError>)
    requires lang.WellFormed()
    ensures r.Ok? <==> forall i :: 0 <= i < |tiles| ==> WireToTile(tiles[i], lang).Some?
    ensures r.Ok? ==> |r.value| == |tiles| && forall i :: 0 <= i < |tiles| ==>
            WireToTile(tiles[i], lang) == Some(r.value[i])
  {
    var parsed := [];
    for i := 0 to |tiles|
      invariant |parsed| == i && forall k :: 0 <= k < i ==> WireToTile(tiles[k], lang) == Some(parsed[k])
    {
      var tile := WireToTile(tiles[i], lang);
      if tile.None? {
        return Err(BadTile);
      }
      parsed := parsed + [tile.value];
    }
    return Ok(parsed);
  }

  // ---------- boards ----------

  predicate IsSquare(wire: seq<seq<string>>) {
    |wire| == BOARD_SIZE && forall r :: 0 <= r < BOARD_SIZE ==> |wire[r]| == BOARD_SIZE
  }

  /** The string for one square. */
  function CellWire(g: Grid, lang: Language, p: Pos): string
    requires p in g ==> lang.Has(g[p])
  {
    if p in g then TileToWire(g[p], lang) else ""
  }

  /** The wire form shows the grid, square by square. */
  ghost predicate Shows(wire: seq<seq<string>>, g: Grid, lang: Language)
    requires GridHas(lang, g)
  {
    IsSquare(wire) && forall p {:trigger CellShows(wire, g, lang, p)} :: InBounds(p) ==> CellShows(wire, g, lang, p)
  }

  ghost predicate CellShows(wire: seq<seq<string>>, g: Grid, lang: Language, p: Pos)
    requires GridHas(lang, g) && InBounds(p) && IsSquare(wire)
  {
    wire[p.row][p.col] == CellWire(g, lang, p)
  }

  method RowToWire(board: Board, lang: Language, row: int) returns (out: seq<string>)
    requires board.Valid() && GridHas(lang, board.Grid()) && 0 <= row < BOARD_SIZE
    ensures |out| == BOARD_SIZE
    ensures forall c :: 0 <= c < BOARD_SIZE ==> out[c] == CellWire(board.Grid(), lang, Pos(row, c))
  {
    out := [];
    for col := 0 to BOARD_SIZE
      invariant |out| == col
      invariant forall c :: 0 <= c < col ==> out[c] == CellWire(board.Grid(), lang, Pos(row, c))
    {
      var sq := board.At(Pos(row, col));
      out := out + [if sq.filled then TileToWire(sq.tile, lang) else ""];
    }
  }

  method BoardToWire(board: Board, lang: Language) returns (out: seq<seq<string>>)
    requires board.Valid() && GridHas(lang, board.Grid())
    ensures Shows(out, board.Grid(), lang)
  {
    out := [];
    for row := 0 to BOARD_SIZE
      invariant |out| == row && forall r :: 0 <= r < row ==> |out[r]| == BOARD_SIZE
      invariant forall r, c :: 0 <= r < row && 0 <= c < BOARD_SIZE ==>
                out[r][c] == CellWire(board.Grid(), lang, Pos(r, c))
    {
      var line := RowToWire(board, lang, row);
      out := out + [line];
    }
  }

  /** The string written for a square; rows may be missing or short. */
  function CellAt(wire: seq<seq<string>>, p: Pos): string {
    if 0 <= p.row < |wire| && 0 <= p.col < |wire[p.row]| then wire[p.row][p.col] else ""
  }

  /** Whatever is written is on the board. */
  ghost predicate OnSquares(wire: seq<seq<string>>) {
    forall p :: CellAt(wire, p) != "" ==> InBounds(p)
  }

  /** The tiles read from the squares before `cur`, row by row. */
  ghost predicate ReadUpTo(wire: seq<seq<string>>, lang: Language, cur: Pos, g: Grid)
    requires lang.WellFormed()
  {
    forall p {:trigger ReadAt(wire, lang, cur, g, p)} :: ReadAt(wire, lang, cur, g, p)
  }

  ghost predicate ReadAt(wire: seq<seq<string>>, lang: Language, cur: Pos, g: Grid, p: Pos)
    requires lang.WellFormed()
  {
    if Earlier(p, cur) && CellAt(wire, p) != ""
    then p in g && WireToTile(CellAt(wire, p), lang) == Some(g[p])
    else p !in g
  }

  /** The board holds exactly the tiles that are written. */
  ghost predicate IsRead(wire: seq<seq<string>>, lang: Language, g: Grid)
    requires lang.WellFormed()
  {
    ReadUpTo(wire, lang, Pos(|wire|, 0), g)
  }

  lemma ReadNothing(wire: seq<seq<string>>, lang: Language, cur: Pos, g: Grid)
    requires lang.WellFormed() && ReadUpTo(wire, lang, cur, g) && CellAt(wire, cur) == ""
    ensures ReadUpTo(wire, lang, Pos(cur.row, cur.col + 1), g)
  {
    var next := Pos(cur.row, cur.col + 1);
    forall p
      ensures ReadAt(wire, lang, next, g, p)
    {
      assert ReadAt(wire, lang, cur, g, p);
    }
  }

  lemma ReadTile(wire: seq<seq<string>>, lang: Language, cur: Pos, g: Grid, t: Tile)
    requires lang.WellFormed() && ReadUpTo(wire, lang, cur, g)
    requires CellAt(wire, cur) != "" && WireToTile(CellAt(wire, cur), lang) == Some(t)
    ensures cur !in g && ReadUpTo(wire, lang, Pos(cur.row, cur.col + 1), g[cur := t])
  {
    assert ReadAt(wire, lang, cur, g, cur);
    var next, h := Pos(cur.row, cur.col + 1), g[cur := t];
    forall p
      ensures ReadAt(wire, lang, next, h, p)
    {
      assert ReadAt(wire, lang, cur, g, p);
      assert p != cur ==> (Earlier(p, next) <==> Earlier(p, cur));
    }
  }

  lemma ReadRow(wire: seq<seq<string>>, lang: Language, row: nat, g: Grid)
    requires lang.WellFormed() && row < |wire| && ReadUpTo(wire, lang, Pos(row, |wire[row]|), g)
    ensures ReadUpTo(wire, lang, Pos(row + 1, 0), g)
  {
    var next := Pos(row + 1, 0);
    forall p
      ensures ReadAt(wire, lang, next, g, p)
    {
      assert ReadAt(wire, lang, Pos(row, |wire[row]|), g, p);
    }
  }

  lemma NothingRead(wire: seq<seq<string>>, lang: Language)
    requires lang.WellFormed()
    ensures ReadUpTo(wire, lang, Pos(0, 0), map[])
  {
  }

  /** Builds a board from its wire form, whose rows may be missing or short: it is refused only when some square cannot
      be read, and otherwise holds exactly the tiles that are written. */
  method WireToBoard(wire: seq<seq<string>>, lang: Language) returns (r: Result<Board, WireError>)
    requires OnSquares(wire) && lang.WellFormed()
    ensures r.Ok? ==> r.value.Valid() && IsRead(wire, lang, r.value.Grid())
    ensures r.Ok? ==> fresh(r.value) && fresh(r.value.squares)
    ensures r.Err? ==> exists p :: CellAt(wire, p) != "" && WireToTile(CellAt(wire, p), lang).None?
  {
    var board := new Board();
    NothingRead(wire, lang);
    for row := 0 to |wire|
      invariant board.Valid() && ReadUpTo(wire, lang, Pos(row, 0), board.Grid())
      invariant fresh(board) && fresh(board.squares)
    {
      for col := 0 to |wire[row]|
        invariant board.Valid() && ReadUpTo(wire, lang, Pos(row, col), board.Grid())
        invariant fresh(board) && fresh(board.squares)
      {
        var tile := WireToTile(wire[row][col], lang);
        assert CellAt(wire, Pos(row, col)) == wire[row][col];
        if wire[row][col] != "" {
          if tile.None? {
            return Err(BadTile);
          }
          ReadTile(wire, lang, Pos(row, col), board.Grid(), tile.value);
          var ok := board.Place(Pos(row, col), tile.value);
        } else {
          ReadNothing(wire, lang, Pos(row, col), board.Grid());
        }
      }
      ReadRow(wire, lang, row, board.Grid());
    }
    return Ok(board);
  }

  lemma ShownOnSquares(wire: seq<seq<string>>, g: Grid, lang: Language)
    requires GridHas(lang, g) && Shows(wire, g, lang)
    ensures OnSquares(wire)
  {
  }

  /** Reading what was written gives the board back. */
  lemma BoardRoundTrip(wire: seq<seq<string>>, g: Grid, h: Grid, lang: Language)
    requires Writable(lang) && GridHas(lang, g) && OnBoard(g) && OnBoard(h) && Shows(wire, g, lang)
    ensures forall p :: CellAt(wire, p) != "" ==> WireToTile(CellAt(wire, p), lang).Some?
    ensures IsRead(wire, lang, h) ==> h == g
  {
    forall p
      ensures CellAt(wire, p) != "" <==> p in g
      ensures p in g ==> WireToTile(CellAt(wire, p), lang) == Some(g[p])
    {
      if InBounds(p) {
        assert CellShows(wire, g, lang, p);
        if p in g {
          TileRoundTrip(g[p], lang);
        }
      }
    }
    if IsRead(wire, lang, h) {
      forall p
        ensures p in h <==> p in g
        ensures p in g ==> h[p] == g[p]
      {
        assert ReadAt(wire, lang, Pos(|wire|, 0), h, p);
      }
    }
  }

  // ---------- placements ----------

  function PlacementToWire(x: Placement, lang: Language): PlacementWire
    requires lang.Has(x.tile)
  {
    PlacementWire(x.pos.row, x.pos.col, [lang.letters[x.tile.letter]], x.tile.blank)
  }

  function WireToPlacement(w: PlacementWire, lang: Language): (r: Result<Placement, WireError>)
    requires lang.WellFormed()
  {
    if w.letter == "" then Err(EmptyLetter)
    else if |w.letter| != 1 then Err(NotOneLetter)
    else match lang.Id(w.letter[0])
      case None => Err(NotInAlphabet)
      case Some(id) => Ok(Placement(Pos(w.row, w.col), Tile(id, w.blank)))
  }

  method EnginePlacementsToWire(pl: seq<Placement>, lang: Language) returns (out: seq<PlacementWire>)
    requires AllHas(lang, pl)
    ensures |out| == |pl| && forall i :: 0 <= i < |pl| ==> out[i] == PlacementToWire(pl[i], lang)
  {
    out := [];
    for i := 0 to |pl|
      invariant |out| == i && forall k :: 0 <= k < i ==> out[k] == PlacementToWire(pl[k], lang)
    {
      out := out + [PlacementToWire(pl[i], lang)];
    }
  }

  /** The placements meant by their wire forms, or the error of the first that cannot be read. */
  function Read(wires: seq<PlacementWire>, n: nat, lang: Language): (r: Result<seq<Placement>, WireError>)
    requires n <= |wires| && lang.WellFormed()
    ensures r.Ok? ==> |r.value| == n && AllHas(lang, r.value)
  {
    if n == 0 then Ok([])
    else match Read(wires, n - 1, lang)
      case Err(e) => Err(e)
      case Ok(pl) => match WireToPlacement(wires[n - 1], lang)
        case Err(e) => Err(e)
        case Ok(x) => Ok(pl + [x])
  }

  lemma {:induction false} ReadStops(wires: seq<PlacementWire>, n: nat, m: nat, lang: Language)
    requires n <= m <= |wires| && lang.WellFormed() && Read(wires, n, lang).Err?
    ensures Read(wires, m, lang) == Read(wires, n, lang)
    decreases m
  {
    if n < m {
      ReadStops(wires, n, m - 1, lang);
    }
  }

  /** What a placement on the wire means: its square, whether it is a blank, and its only character, in either case. */
  predicate Means(w: PlacementWire, x: Placement, lang: Language) {
    && x.pos.row == w.row && x.pos.col == w.col && x.tile.blank == w.blank
    && |w.letter| == 1 && SpellsAt(lang, w.letter[0], x.tile.letter)
  }

  /** Why a placement cannot be read. */
  predicate Unreadable(w: PlacementWire, e: WireError, lang: Language) {
    match e
    case EmptyLetter => w.letter == ""
    case NotOneLetter => |w.letter| > 1
    case NotInAlphabet => |w.letter| == 1 && !InAlphabet(lang, w.letter[0])
    case BadTile => false
  }

  lemma PlacementReadIff(w: PlacementWire, x: Placement, e: WireError, lang: Language)
    requires lang.WellFormed()
    ensures WireToPlacement(w, lang) == Ok(x) <==> Means(w, x, lang)
    ensures WireToPlacement(w, lang) == Err(e) <==> Unreadable(w, e, lang)
  {
    if |w.letter| == 1 {
      IdIsThere(lang, w.letter[0]);
      if SpellsAt(lang, w.letter[0], x.tile.letter) {
        LettersDiffer(lang, x.tile.letter, lang.Id(w.letter[0]).value);
      }
    }
  }

  predicate AllMean(wires: seq<PlacementWire>, pl: seq<Placement>, lang: Language)
    requires |pl| <= |wires|
  {
    forall i :: 0 <= i < |pl| ==> Means(wires[i], pl[i], lang)
  }

  /** Placements are read exactly as what their wire forms mean, one by one and in order; and reading fails exactly if
      one of them cannot be read, with the reason of the first such. */
  lemma {:induction false} ReadIff(wires: seq<PlacementWire>, n: nat, lang: Language, pl: seq<Placement>)
    requires lang.WellFormed() && n <= |wires|
    ensures Read(wires, n, lang) == Ok(pl) <==> |pl| == n && AllMean(wires, pl, lang)
    ensures Read(wires, n, lang).Err? ==> exists i ::
              0 <= i < n && Unreadable(wires[i], Read(wires, n, lang).error, lang) && Read(wires, i, lang).Ok?
    decreases n
  {
    if n > 0 {
      var w := wires[n - 1];
      if |pl| == n {
        var init := pl[..n - 1];
        assert pl == init + [pl[n - 1]];
        ReadIff(wires, n - 1, lang, init);
        PlacementReadIff(w, pl[n - 1], BadTile, lang);
      } else {
        ReadIff(wires, n - 1, lang, []);
      }
      if WireToPlacement(w, lang).Err? {
        PlacementReadIff(w, Placement(CENTER, BLANK_TILE), WireToPlacement(w, lang).error, lang);
      }
    }
  }

  method ToEnginePlacements(wires: seq<PlacementWire>, lang: Language) returns (r: Result<seq<Placement>, WireError>)
    requires lang.WellFormed()
    ensures r == Read(wires, |wires|, lang)
  {
    var out := [];
    for i := 0 to |wires|
      invariant Read(wires, i, lang) == Ok(out)
    {
      var x := WireToPlacement(wires[i], lang);
      if x.Err? {
        ReadStops(wires, i + 1, |wires|, lang);
        return Err(x.error);
      }
      out := out + [x.value];
    }
    return Ok(out);
  }

  /** Placements survive their wire form. */
  lemma {:induction false} PlacementsRoundTrip(pl: seq<Placement>, wires: seq<PlacementWire>, n: nat, lang: Language)
    requires Writable(lang) && AllHas(lang, pl) && |wires| == |pl| && n <= |pl|
    requires forall i :: 0 <= i < |pl| ==> wires[i] == PlacementToWire(pl[i], lang)
    ensures Read(wires, n, lang) == Ok(pl[..n])
    decreases n
  {
    if n > 0 {
      PlacementsRoundTrip(pl, wires, n - 1, lang);
      RuneThenId(lang, pl[n - 1].tile.letter);
      assert pl[..n] == pl[..n - 1] + [pl[n - 1]];
    }
  }

  lemma UsedMore(pl: seq<Placement>, i: nat, out: seq<Tile>)
    requires i < |pl| && Cost(out) == Price(pl[..i])
    ensures Cost(out + [Norm(pl[i].tile)]) == Price(pl[..i + 1])
  {
    assert pl[..i + 1] == pl[..i] + [pl[i]];
    PriceConcat(pl[..i], [pl[i]]);
    PriceOne(pl[i]);
    CostConcat(out, [Norm(pl[i].tile)]);
    CostOne(Norm(pl[i].tile));
  }

  /** The rack tiles that placements use up. */
  method TilesUsed(pl: seq<Placement>) returns (out: seq<Tile>)
    ensures |out| == |pl| && forall i :: 0 <= i < |pl| ==> out[i] == Norm(pl[i].tile)
    ensures Cost(out) == Price(pl)
  {
    out := [];
    for i := 0 to |pl|
      invariant |out| == i && forall k :: 0 <= k < i ==> out[k] == Norm(pl[k].tile)
      invariant Cost(out) == Price(pl[..i])
    {
      var t := if pl[i].tile.blank then BLANK_TILE else Tile(pl[i].tile.letter, false);
      UsedMore(pl, i, out);
      out := out + [t];
    }
    assert pl[..|pl|] == pl;
  }
}
