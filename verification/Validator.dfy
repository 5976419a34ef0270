/** The validator as the engine runs it (goakt-scrabble/scrabble/move.go): loops over placements and squares,
    on a copy of the board. Each is proved to compute the corresponding part of `Outcome`. */
module Validator {
  import opened Wrappers
  import opened Tiles
  import opened Grids
  import opened Moves
  import opened MoveLaws
  import opened Boards
  import opened Dawgs

  /** One tile of a word, with its square. */
  datatype WordTile = WordTile(pos: Pos, tile: Tile)

  /** The tiles on offsets `s .. e - 1` of a line. */
  function TilesOn(g: Grid, d: Direction, line: int, s: int, e: int): (w: seq<WordTile>)
    requires s <= e
    ensures |w| == e - s
    decreases e - s
  {
    if s == e then []
    else TilesOn(g, d, line, s, e - 1) + [WordTile(Cell(d, line, e - 1), TileAt(g, Cell(d, line, e - 1)))]
  }

  function WordOf(g: Grid, r: Run): seq<WordTile>
    requires r.start <= r.end
  {
    TilesOn(g, r.dir, r.line, r.start, r.end)
  }

  function WordsOf(g: Grid, runs: seq<Run>): (ws: seq<seq<WordTile>>)
    requires RunsOk(runs)
    ensures |ws| == |runs|
  {
    if runs == [] then [] else WordsOf(g, runs[..|runs| - 1]) + [WordOf(g, runs[|runs| - 1])]
  }

  lemma {:induction false} WordsOfAt(g: Grid, runs: seq<Run>, i: nat)
    requires RunsOk(runs) && i < |runs|
    ensures WordsOf(g, runs)[i] == WordOf(g, runs[i])
    decreases |runs|
  {
    if i < |runs| - 1 {
      WordsOfAt(g, runs[..|runs| - 1], i);
    }
  }

  lemma {:induction false} TilesOnAt(g: Grid, d: Direction, line: int, s: int, e: int, k: int)
    requires s <= k < e
    ensures TilesOn(g, d, line, s, e)[k - s] == WordTile(Cell(d, line, k), TileAt(g, Cell(d, line, k)))
    decreases e - s
  {
    if k < e - 1 {
      TilesOnAt(g, d, line, s, e - 1, k);
    }
  }

  // ---------- the checks ----------

  lemma {:induction false} FaultStays(g: Grid, pl: seq<Placement>, n: nat, m: nat)
    requires n <= m <= |pl| && FirstFault(g, pl, n).Some?
    ensures FirstFault(g, pl, m) == FirstFault(g, pl, n)
    decreases m
  {
    if n < m {
      FaultStays(g, pl, n, m - 1);
    }
  }

  lemma PositionsMore(pl: seq<Placement>, i: nat)
    requires i < |pl|
    ensures Positions(pl[..i + 1]) == Positions(pl[..i]) + {pl[i].pos}
  {
    var a, b := pl[..i + 1], pl[..i];
    assert a[i] == pl[i];
    assert forall k :: 0 <= k < i ==> a[k] == b[k];
  }

  method CheckPlacements(board: Board, pl: seq<Placement>) returns (err: Option<MoveError>)
    requires board.Valid()
    ensures err == PlacementFault(board.Grid(), pl)
  {
    if |pl| == 0 {
      return Some(EmptyMove);
    }
    if |pl| > RACK_SIZE {
      return Some(TooManyPlacements);
    }
    ghost var g := board.Grid();
    var seen: set<Pos> := {};
    for i := 0 to |pl|
      invariant seen == Positions(pl[..i])
      invariant FirstFault(g, pl, i).None?
    {
      var p := pl[i];
      if !InBounds(p.pos) {
        err := Some(OutOfBounds);
      } else if p.tile.IsUnassignedBlank() {
        err := Some(UnassignedBlank);
      } else if p.pos in seen {
        err := Some(DuplicatePlacement);
      } else if board.At(p.pos).filled {
        err := Some(SquareOccupied);
      } else {
        err := None;
      }
      assert err == Fault(g, pl, i);
      if err.Some? {
        FaultStays(g, pl, i + 1, |pl|);
        return err;
      }
      PositionsMore(pl, i);
      seen := seen + {p.pos};
    }
    return None;
  }

  method LineDirectionOf(pl: seq<Placement>) returns (d: Option<Direction>)
    requires |pl| > 0
    ensures d == LineDirection(pl)
  {
    if |pl| == 1 {
      return Some(Horizontal);
    }
    var first := pl[0].pos;
    var sameRow, sameCol := true, true;
    for i := 1 to |pl|
      invariant sameRow <==> forall k :: 0 <= k < i ==> pl[k].pos.row == first.row
      invariant sameCol <==> forall k :: 0 <= k < i ==> pl[k].pos.col == first.col
    {
      if pl[i].pos.row != first.row {
        sameRow := false;
      }
      if pl[i].pos.col != first.col {
        sameCol := false;
      }
    }
    LineByFirst(pl, Horizontal);
    LineByFirst(pl, Vertical);
    if sameRow {
      return Some(Horizontal);
    } else if sameCol {
      return Some(Vertical);
    }
    return None;
  }

  lemma LineByFirst(pl: seq<Placement>, d: Direction)
    requires |pl| > 0
    ensures SameLine(pl, d) <==> forall k :: 0 <= k < |pl| ==> LineOf(d, pl[k].pos) == LineOf(d, pl[0].pos)
  {
  }

  method CheckConnectivity(board: Board, sorted: seq<Placement>, d: Direction) returns (ok: bool)
    requires board.Valid() && InBoundsAll(sorted)
    ensures ok <==> Contiguous(board.Grid(), sorted, d)
  {
    if |sorted| <= 1 {
      return true;
    }
    var first, last := sorted[0].pos, sorted[|sorted| - 1].pos;
    assert sorted[0] in sorted && sorted[|sorted| - 1] in sorted;
    ghost var g := board.Grid();
    var k := IndexOf(d, first) + 1;
    while k < IndexOf(d, last)
      invariant IndexOf(d, first) < k
      invariant forall j :: IndexOf(d, first) < j < k && j < IndexOf(d, last) ==>
                  Cell(d, LineOf(d, first), j) in g || Cell(d, LineOf(d, first), j) in Positions(sorted)
    {
      var p := Cell(d, LineOf(d, first), k);
      if !board.At(p).filled && p !in Positions(sorted) {
        return false;
      }
      k := k + 1;
    }
    return true;
  }

  // ---------- the words ----------

  method WalkBack(tmp: Board, d: Direction, line: int, i: int) returns (start: int)
    requires tmp.Valid() && 0 <= line < BOARD_SIZE && 0 <= i < BOARD_SIZE
    ensures start == RunStart(tmp.Grid(), d, line, i)
  {
    start := i;
    while start > 0 && tmp.At(Cell(d, line, start - 1)).filled
      invariant 0 <= start <= i
      invariant RunStart(tmp.Grid(), d, line, start) == RunStart(tmp.Grid(), d, line, i)
    {
      start := start - 1;
    }
  }

  method WalkOn(tmp: Board, d: Direction, line: int, start: int) returns (w: seq<WordTile>)
    requires tmp.Valid() && 0 <= line < BOARD_SIZE && 0 <= start < BOARD_SIZE
    ensures w == TilesOn(tmp.Grid(), d, line, start, RunEnd(tmp.Grid(), d, line, start))
  {
    w := [];
    var cur := start;
    while cur < BOARD_SIZE && tmp.At(Cell(d, line, cur)).filled
      invariant start <= cur <= BOARD_SIZE
      invariant w == TilesOn(tmp.Grid(), d, line, start, cur)
      invariant RunEnd(tmp.Grid(), d, line, cur) == RunEnd(tmp.Grid(), d, line, start)
    {
      w := w + [WordTile(Cell(d, line, cur), tmp.At(Cell(d, line, cur)).tile)];
      cur := cur + 1;
    }
  }

  /** Walks back to the start of the word and then collects its tiles. */
  method ExtractWord(tmp: Board, p: Pos, d: Direction) returns (w: seq<WordTile>)
    requires tmp.Valid() && InBounds(p)
    ensures w == WordOf(tmp.Grid(), RunAt(tmp.Grid(), d, p))
  {
    var start := WalkBack(tmp, d, LineOf(d, p), IndexOf(d, p));
    w := WalkOn(tmp, d, LineOf(d, p), start);
    RunStartIs(tmp.Grid(), d, LineOf(d, p), IndexOf(d, p));
    RunEndFromStart(tmp.Grid(), d, LineOf(d, p), start, IndexOf(d, p));
  }

  lemma {:induction false} RunEndFromStart(g: Grid, d: Direction, line: int, s: int, i: int)
    requires 0 <= s <= i <= BOARD_SIZE && forall k :: s <= k < i ==> Cell(d, line, k) in g
    ensures RunEnd(g, d, line, s) == RunEnd(g, d, line, i)
    decreases i - s
  {
    if s < i {
      assert Cell(d, line, s) in g;
      RunEndFromStart(g, d, line, s + 1, i);
    }
  }

  lemma WordsOfOne(g: Grid, r: Run)
    requires r.start <= r.end
    ensures WordsOf(g, [r]) == [WordOf(g, r)]
  {
    assert [r][..0] == [];
  }

  /** The cross word of one placement, if it has two letters. */
  method CrossWord(tmp: Board, p: Pos, d: Direction) returns (words: seq<seq<WordTile>>)
    requires tmp.Valid() && InBounds(p)
    ensures RunsOk(CrossRun(tmp.Grid(), p, d)) && words == WordsOf(tmp.Grid(), CrossRun(tmp.Grid(), p, d))
  {
    var cross := ExtractWord(tmp, p, Perpendicular(d));
    words := [];
    if |cross| >= MIN_WORD_LENGTH {
      WordsOfOne(tmp.Grid(), RunAt(tmp.Grid(), Perpendicular(d), p));
      words := [cross];
    }
  }

  lemma {:induction false} WordsOfConcat(g: Grid, a: seq<Run>, b: seq<Run>)
    requires RunsOk(a) && RunsOk(b)
    ensures RunsOk(a + b) && WordsOf(g, a + b) == WordsOf(g, a) + WordsOf(g, b)
    decreases |b|
  {
    if b == [] {
      assert a + b == a;
    } else {
      var init := b[..|b| - 1];
      assert (a + b)[..|a + b| - 1] == a + init;
      WordsOfConcat(g, a, init);
    }
  }

  lemma CrossStep(g: Grid, sorted: seq<Placement>, i: nat, d: Direction)
    requires i < |sorted| && InBoundsAll(sorted)
    ensures sorted[i] in sorted
    ensures RunsOk(CrossRuns(g, sorted, i, d)) && RunsOk(CrossRun(g, sorted[i].pos, d))
    ensures RunsOk(CrossRuns(g, sorted, i + 1, d))
    ensures WordsOf(g, CrossRuns(g, sorted, i + 1, d)) ==
            WordsOf(g, CrossRuns(g, sorted, i, d)) + WordsOf(g, CrossRun(g, sorted[i].pos, d))
  {
    CrossRunsOk(g, sorted, i, d);
    WordsOfConcat(g, CrossRuns(g, sorted, i, d), CrossRun(g, sorted[i].pos, d));
  }

  method CrossWords(tmp: Board, sorted: seq<Placement>, d: Direction) returns (words: seq<seq<WordTile>>)
    requires tmp.Valid() && InBoundsAll(sorted)
    ensures RunsOk(CrossRuns(tmp.Grid(), sorted, |sorted|, d))
    ensures words == WordsOf(tmp.Grid(), CrossRuns(tmp.Grid(), sorted, |sorted|, d))
  {
    words := [];
    for i := 0 to |sorted|
      invariant RunsOk(CrossRuns(tmp.Grid(), sorted, i, d))
      invariant words == WordsOf(tmp.Grid(), CrossRuns(tmp.Grid(), sorted, i, d))
    {
      CrossStep(tmp.Grid(), sorted, i, d);
      var cross := CrossWord(tmp, sorted[i].pos, d);
      words := words + cross;
    }
  }

  method CollectWords(tmp: Board, sorted: seq<Placement>, d: Direction) returns (words: seq<seq<WordTile>>)
    requires tmp.Valid() && |sorted| > 0 && InBoundsAll(sorted)
    ensures RunsOk(CollectRuns(tmp.Grid(), sorted, d))
    ensures words == WordsOf(tmp.Grid(), CollectRuns(tmp.Grid(), sorted, d))
  {
    ghost var g := tmp.Grid();
    assert sorted[0] in sorted;
    var main := CrossWord(tmp, sorted[0].pos, Perpendicular(d));
    var crosses := CrossWords(tmp, sorted, d);
    WordsOfConcat(g, CrossRun(g, sorted[0].pos, Perpendicular(d)), CrossRuns(g, sorted, |sorted|, d));
    words := main + crosses;
  }

  /** Letter points times word multiplier; premiums count under new tiles only. */
  method ScoreWord(w: seq<WordTile>, newSquares: set<Pos>, lang: Language, ghost g: Grid, ghost r: Run)
    returns (score: int)
    requires lang.WellFormed() && GridHas(lang, g)
    requires r.start <= r.end && w == WordOf(g, r)
    ensures score == WordScore(g, r, newSquares, lang)
  {
    var letterTotal, wordMultiplier := 0, 1;
    for i := 0 to |w|
      invariant letterTotal == LetterPoints(g, r, r.start + i, newSquares, lang)
      invariant wordMultiplier == WordMultiplier(r, r.start + i, newSquares)
    {
      TilesOnAt(g, r.dir, r.line, r.start, r.end, r.start + i);
      var base := w[i].tile.Score(lang);
      if w[i].pos in newSquares {
        match StandardPremium(w[i].pos) {
          case DoubleLetter => base := base * 2;
          case TripleLetter => base := base * 3;
          case DoubleWord => wordMultiplier := wordMultiplier * 2;
          case TripleWord => wordMultiplier := wordMultiplier * 3;
          case NoPremium =>
        }
      }
      letterTotal := letterTotal + base;
    }
    score := letterTotal * wordMultiplier;
  }

  // ---------- placing and validating ----------

  /** Places the tiles one after the other and stops at an occupied square; `n` tiles are placed. On a move that
      the validator accepts it never stops early. */
  method Apply(board: Board, pl: seq<Placement>) returns (ok: bool, ghost n: nat)
    requires board.Valid() && InBoundsAll(pl)
    modifies board, board.squares
    ensures board.Valid()
    ensures n <= |pl| && board.Grid() == After(old(board.Grid()), pl[..n])
    ensures ok <==> n == |pl|
    ensures n < |pl| ==> pl[n].pos in After(old(board.Grid()), pl[..n])
    ensures WellPlaced(old(board.Grid()), pl) ==> ok && board.Grid() == After(old(board.Grid()), pl)
  {
    ghost var g := board.Grid();
    assert pl[..|pl|] == pl && After(g, pl[..0]) == g;
    for i := 0 to |pl|
      invariant board.Valid() && board.Grid() == After(g, pl[..i])
    {
      assert pl[i] in pl;
      FreeSquare(g, pl, i);
      AfterMore(g, pl, i);
      var placed := board.Place(pl[i].pos, pl[i].tile);
      if !placed {
        return false, i;
      }
    }
    return true, |pl|;
  }

  lemma FreeSquare(g: Grid, pl: seq<Placement>, i: nat)
    requires i < |pl|
    ensures WellPlaced(g, pl) ==> pl[i].pos !in After(g, pl[..i])
  {
    assert forall k :: 0 <= k < i ==> pl[..i][k] == pl[k];
  }

  /** Some word holds a tile that is not new. */
  method ExtendsOld(words: seq<seq<WordTile>>, newSquares: set<Pos>, ghost g: Grid, ghost runs: seq<Run>)
    returns (b: bool)
    requires RunsOk(runs) && words == WordsOf(g, runs)
    ensures b <==> ExtendsExisting(runs, newSquares)
  {
    for i := 0 to |words|
      invariant forall j, k :: 0 <= j < i && runs[j].start <= k < runs[j].end ==>
                Cell(runs[j].dir, runs[j].line, k) in newSquares
    {
      WordsOfAt(g, runs, i);
      var r := runs[i];
      for t := 0 to |words[i]|
        invariant forall k :: r.start <= k < r.start + t ==> Cell(r.dir, r.line, k) in newSquares
      {
        TilesOnAt(g, r.dir, r.line, r.start, r.end, r.start + t);
        if words[i][t].pos !in newSquares {
          return true;
        }
      }
    }
    return false;
  }

  lemma {:induction false} LettersOfWord(g: Grid, d: Direction, line: int, s: int, e: int)
    requires s <= e
    ensures WordLetters(TilesOn(g, d, line, s, e)) == Letters(g, d, line, s, e)
    decreases e - s
  {
    if s < e {
      LettersOfWord(g, d, line, s, e - 1);
      LettersSplit(g, d, line, s, e - 1, e);
    }
  }

  function WordLetters(w: seq<WordTile>): seq<LetterID> {
    if w == [] then [] else WordLetters(w[..|w| - 1]) + [w[|w| - 1].tile.letter]
  }

  lemma {:induction false} TallyErrorStays(g: Grid, runs: seq<Run>, n: nat, m: nat, added: set<Pos>, words: Lexicon,
                                           lang: Language)
    requires n <= m <= |runs| && RunsOk(runs) && lang.WellFormed() && GridHas(lang, g)
    requires Tally(g, runs, n, added, words, lang).Err?
    ensures Tally(g, runs, m, added, words, lang) == Tally(g, runs, n, added, words, lang)
    decreases m
  {
    if n < m {
      TallyErrorStays(g, runs, n, m - 1, added, words, lang);
    }
  }

  function Direct(w: seq<WordTile>): Direction {
    if |w| < 2 || w[0].pos.row == w[1].pos.row then Horizontal else Vertical
  }

  lemma DirectOfWord(g: Grid, r: Run)
    requires r.end - r.start >= 2
    ensures Direct(WordOf(g, r)) == r.dir && WordOf(g, r)[0].pos == Cell(r.dir, r.line, r.start)
  {
    TilesOnAt(g, r.dir, r.line, r.start, r.end, r.start);
    TilesOnAt(g, r.dir, r.line, r.start, r.end, r.start + 1);
  }

  method WordString(w: seq<WordTile>, lang: Language, ghost g: Grid, ghost r: Run) returns (s: string)
    requires lang.WellFormed() && GridHas(lang, g) && r.start <= r.end && w == WordOf(g, r)
    ensures s == SpellRun(g, r, lang)
  {
    s := [];
    for i := |w| downto 0
      invariant s == Spell(g, r.dir, r.line, r.start + i, r.end, lang)
    {
      TilesOnAt(g, r.dir, r.line, r.start, r.end, r.start + i);
      s := [lang.letters[w[i].tile.letter]] + s;
    }
  }

  /** One formed word, or the error that names it. */
  method FormWord(w: seq<WordTile>, newSquares: set<Pos>, dawg: DAWG, lang: Language, ghost g: Grid, ghost r: Run)
    returns (f: Result<FormedWord, MoveError>)
    requires lang.WellFormed() && GridHas(lang, g) && r.end - r.start >= 2 && w == WordOf(g, r)
    requires dawg.Valid()
    ensures f == if InDictionary(dawg.words, RunLetters(g, r)) then Ok(Formed(g, r, newSquares, lang))
                 else Err(InvalidWord(SpellRun(g, r, lang)))
  {
    LettersOfWord(g, r.dir, r.line, r.start, r.end);
    var found := dawg.Contains(WordLetters(w));
    var spelled := WordString(w, lang, g, r);
    if !found {
      return Err(InvalidWord(spelled));
    }
    var score := ScoreWord(w, newSquares, lang, g, r);
    DirectOfWord(g, r);
    return Ok(FormedWord(spelled, score, w[0].pos, Direct(w)));
  }

  lemma TallyStep(g: Grid, runs: seq<Run>, i: nat, added: set<Pos>, words: Lexicon, lang: Language)
    requires i < |runs| && RunsOk(runs) && lang.WellFormed() && GridHas(lang, g)
    requires Tally(g, runs, i, added, words, lang).Ok?
    ensures var before, f := Tally(g, runs, i, added, words, lang).value, Formed(g, runs[i], added, lang);
            Tally(g, runs, i + 1, added, words, lang) ==
            if InDictionary(words, RunLetters(g, runs[i])) then Ok((before.0 + [f], before.1 + f.score))
            else Err(InvalidWord(SpellRun(g, runs[i], lang)))
  {
  }

  /** Looks every word up and adds up the scores. */
  method ScoreAll(words: seq<seq<WordTile>>, newSquares: set<Pos>, dawg: DAWG, lang: Language, ghost g: Grid,
                  ghost runs: seq<Run>)
    returns (t: Result<(seq<FormedWord>, int), MoveError>)
    requires lang.WellFormed() && GridHas(lang, g) && dawg.Valid()
    requires RunsOk(runs) && LongRuns(runs)
    requires words == WordsOf(g, runs)
    ensures t == Tally(g, runs, |runs|, newSquares, dawg.words, lang)
  {
    var formed: seq<FormedWord>, score := [], 0;
    for i := 0 to |words|
      invariant Tally(g, runs, i, newSquares, dawg.words, lang) == Ok((formed, score))
    {
      WordsOfAt(g, runs, i);
      TallyStep(g, runs, i, newSquares, dawg.words, lang);
      var f := FormWord(words[i], newSquares, dawg, lang, g, runs[i]);
      if f.Err? {
        TallyErrorStays(g, runs, i + 1, |runs|, newSquares, dawg.words, lang);
        return Err(f.error);
      }
      formed, score := formed + [f.value], score + f.value.score;
    }
    return Ok((formed, score));
  }

  predicate LongRuns(runs: seq<Run>) {
    forall i :: 0 <= i < |runs| ==> runs[i].Length() >= MIN_WORD_LENGTH
  }

  lemma {:induction false} CrossRunsLong(g: Grid, pl: seq<Placement>, n: nat, d: Direction)
    requires n <= |pl| && InBoundsAll(pl)
    ensures LongRuns(CrossRuns(g, pl, n, d))
    decreases n
  {
    if n > 0 {
      CrossRunsLong(g, pl, n - 1, d);
    }
  }

  lemma CollectedLong(g: Grid, sorted: seq<Placement>, d: Direction)
    requires |sorted| > 0 && InBoundsAll(sorted)
    ensures LongRuns(CollectRuns(g, sorted, d))
  {
    CrossRunsLong(g, sorted, |sorted|, d);
  }

  lemma PlacedDistinct(g: Grid, pl: seq<Placement>, d: Direction)
    requires WellPlaced(g, pl)
    ensures InBoundsAll(Sorted(pl, d)) && |Sorted(pl, d)| == |pl| && WellPlaced(g, Sorted(pl, d))
    ensures forall x :: x in Sorted(pl, d) <==> x in pl
  {
    SortingKeepsMove(g, pl, d);
  }

  method SettleWords(empty: bool, words: seq<seq<WordTile>>, newSquares: set<Pos>, n: nat, dawg: DAWG, lang: Language,
                     ghost g: Grid, ghost after: Grid, ghost runs: seq<Run>)
    returns (r: Result<MoveResult, MoveError>)
    requires lang.WellFormed() && GridHas(lang, after) && dawg.Valid() && empty == (g == map[])
    requires RunsOk(runs) && LongRuns(runs)
    requires words == WordsOf(after, runs)
    ensures r == Settle(g, after, runs, newSquares, n, dawg.words, lang)
  {
    if |words| == 0 {
      return Err(NoWordFormed);
    }
    if empty {
      if CENTER !in newSquares {
        return Err(FirstMoveMustCoverCenter);
      }
    } else {
      var extended := ExtendsOld(words, newSquares, after, runs);
      if !extended {
        return Err(MustTouchExisting);
      }
    }
    var t := ScoreAll(words, newSquares, dawg, lang, after, runs);
    if t.Err? {
      return Err(t.error);
    }
    var bingo := n == RACK_SIZE;
    return Ok(MoveResult(t.value.0, t.value.1 + (if bingo then BINGO_BONUS else 0), bingo));
  }

  /** A copy of the board with the tiles placed. */
  method PlaceOnCopy(board: Board, sorted: seq<Placement>) returns (tmp: Board)
    requires board.Valid() && InBoundsAll(sorted) && WellPlaced(board.Grid(), sorted)
    ensures tmp.Valid() && tmp.Grid() == After(board.Grid(), sorted)
  {
    tmp := new Board.Clone(board);
    var placed, _ := Apply(tmp, sorted);
  }

  /** The words of the move, collected on a copy of the board. */
  method WordsOnCopy(board: Board, sorted: seq<Placement>, d: Direction, ghost after: Grid)
    returns (words: seq<seq<WordTile>>)
    requires board.Valid() && InBoundsAll(sorted) && WellPlaced(board.Grid(), sorted)
    requires after == After(board.Grid(), sorted)
    ensures LongRuns(CollectRuns(after, sorted, d)) && RunsOk(CollectRuns(after, sorted, d))
    ensures words == WordsOf(after, CollectRuns(after, sorted, d))
  {
    var tmp := PlaceOnCopy(board, sorted);
    words := CollectWords(tmp, sorted, d);
    CollectedLong(after, sorted, d);
  }

  /** A move that passed the checks on its squares: the sorted placements and the words they make. */
  datatype Draft = Draft(sorted: seq<Placement>, dir: Direction, words: seq<seq<WordTile>>)

  /** The draft holds what `Outcome` goes on with. */
  ghost predicate Drafted(g: Grid, pl: seq<Placement>, f: Draft) {
    && WellPlaced(g, pl) && LineDirection(pl) == Some(f.dir)
    && f.sorted == Sorted(pl, f.dir) && |f.sorted| == |pl| && InBoundsAll(f.sorted) &&
      (forall x :: x in f.sorted <==> x in pl)
    && Contiguous(g, f.sorted, f.dir)
    && var runs := CollectRuns(After(g, f.sorted), f.sorted, f.dir);
    && LongRuns(runs) && RunsOk(runs)
    && f.words == WordsOf(After(g, f.sorted), runs)
  }

  ghost predicate Refused(g: Grid, pl: seq<Placement>, e: MoveError) {
    if PlacementFault(g, pl).Some? then e == PlacementFault(g, pl).value
    else if LineDirection(pl).None? then e == NotOnLine
    else e == NotContiguous && !Contiguous(g, Sorted(pl, LineDirection(pl).value), LineDirection(pl).value)
  }

  lemma RefusedOutcome(g: Grid, pl: seq<Placement>, e: MoveError, words: Lexicon, lang: Language)
    requires Refused(g, pl, e) && lang.WellFormed() && GridHas(lang, g) && AllHas(lang, pl)
    ensures Outcome(g, pl, words, lang) == Err(e)
  {
  }

  /** The checks on the squares, up to the words. */
  method Prepare(board: Board, pl: seq<Placement>) returns (f: Result<Draft, MoveError>)
    requires board.Valid()
    ensures f.Ok? ==> Drafted(board.Grid(), pl, f.value)
    ensures f.Err? ==> Refused(board.Grid(), pl, f.error)
  {
    ghost var g := board.Grid();
    var fault := CheckPlacements(board, pl);
    if fault.Some? {
      return Err(fault.value);
    }
    var d := LineDirectionOf(pl);
    if d.None? {
      return Err(NotOnLine);
    }
    NoFaultIsWellPlaced(g, pl);
    PlacedDistinct(g, pl, d.value);
    var sorted := Sorted(pl, d.value);
    var ok := CheckConnectivity(board, sorted, d.value);
    if !ok {
      return Err(NotContiguous);
    }
    var words := WordsOnCopy(board, sorted, d.value, After(g, sorted));
    return Ok(Draft(sorted, d.value, words));
  }

  lemma DraftOutcome(g: Grid, pl: seq<Placement>, f: Draft, words: Lexicon, lang: Language)
    requires Drafted(g, pl, f) && lang.WellFormed() && GridHas(lang, g) && AllHas(lang, pl)
    ensures AllHas(lang, f.sorted) && GridHas(lang, After(g, f.sorted))
    ensures Outcome(g, pl, words, lang) ==
            Settle(g, After(g, f.sorted), CollectRuns(After(g, f.sorted), f.sorted, f.dir), Positions(f.sorted),
                   |f.sorted|, words, lang)
  {
    NoFaultIsWellPlaced(g, pl);
    AfterHas(lang, g, f.sorted);
  }

  /** The dictionary and the score. */
  method Finish(f: Draft, empty: bool, dawg: DAWG, lang: Language, ghost g: Grid, ghost pl: seq<Placement>)
    returns (r: Result<MoveResult, MoveError>)
    requires Drafted(g, pl, f) && dawg.Valid() && lang.WellFormed() && GridHas(lang, g) && AllHas(lang, pl)
    requires empty == (g == map[])
    ensures r == Outcome(g, pl, dawg.words, lang)
  {
    DraftOutcome(g, pl, f, dawg.words, lang);
    r := SettleWords(empty, f.words, Positions(f.sorted), |f.sorted|, dawg, lang, g, After(g, f.sorted),
                     CollectRuns(After(g, f.sorted), f.sorted, f.dir));
  }

  /** Checks a move against the board and the dictionary and scores it; the board is not changed. With
      `AcceptedIffLegal`, it accepts exactly the legal moves. */
  method Validate(board: Board, pl: seq<Placement>, dawg: DAWG, lang: Language)
    returns (r: Result<MoveResult, MoveError>)
    requires board.Valid() && dawg.Valid() && lang.WellFormed() && GridHas(lang, board.Grid()) && AllHas(lang, pl)
    ensures r == Outcome(board.Grid(), pl, dawg.words, lang)
  {
    ghost var g := board.Grid();
    EmptyIsEmpty(board);
    var empty := board.IsEmptyBoard();
    var f := Prepare(board, pl);
    assert dawg.Valid() && board.Grid() == g;
    if f.Err? {
      RefusedOutcome(g, pl, f.error, dawg.words, lang);
      return Err(f.error);
    }
    r := Finish(f.value, empty, dawg, lang, g, pl);
  }
}
