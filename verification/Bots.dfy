/** The whole of the bot's search (goakt-scrabble/scrabble/bot.go): all anchors, both directions, the filter by the
    validator, and the choice of the best move. */
module Bots {
  import opened Wrappers
  import opened Tiles
  import opened Grids
  import opened Moves
  import opened MoveLaws
  import opened Search
  import opened SearchSound
  import opened SearchComplete
  import opened SearchSets
  import opened Boards
  import opened Dawgs
  import opened CrossChecks
  import opened Validator
  import opened Generator

  datatype ScoredMove = ScoredMove(move: Move, result: MoveResult)

  // ---------- the squares visited so far ----------

  ghost function FromSet(g: Grid, words: Lexicon, avail: multiset<Tile>, p: Pos, d: Direction): iset<Move>
    requires InBounds(p)
  {
    AnchorSet(LaneAt(g, words, d, p), avail, IndexOf(d, p))
  }

  ghost predicate StartBefore(g: Grid, words: Lexicon, avail: multiset<Tile>, cur: Pos, p: Pos, d: Direction, m: Move) {
    InBounds(p) && IsStart(g, p) && Earlier(p, cur) && MoveFrom(g, words, avail, p, d, m)
  }

  /** What the anchors before `cur` record, row by row. */
  ghost function SearchedSet(g: Grid, words: Lexicon, avail: multiset<Tile>, cur: Pos): iset<Move> {
    iset m | Searched(g, words, avail, cur, m)
  }

  ghost predicate Searched(g: Grid, words: Lexicon, avail: multiset<Tile>, cur: Pos, m: Move) {
    exists p, d :: StartBefore(g, words, avail, cur, p, d, m)
  }

  lemma FromSetIs(g: Grid, words: Lexicon, avail: multiset<Tile>, p: Pos, d: Direction, m: Move)
    requires InBounds(p)
    ensures m in FromSet(g, words, avail, p, d) <==> MoveFrom(g, words, avail, p, d, m)
  {
    AnchorSetIs(LaneAt(g, words, d, p), avail, IndexOf(d, p), m);
  }

  /** One more square: its moves are added if it is an anchor. */
  lemma SearchedMore(g: Grid, words: Lexicon, avail: multiset<Tile>, p: Pos)
    requires InBounds(p)
    ensures SearchedSet(g, words, avail, Pos(p.row, p.col + 1)) == SearchedSet(g, words, avail, p) +
            (if IsStart(g, p) then FromSet(g, words, avail, p, Horizontal) + FromSet(g, words, avail, p, Vertical)
             else iset{})
  {
    var next := Pos(p.row, p.col + 1);
    var here := if IsStart(g, p) then FromSet(g, words, avail, p, Horizontal) + FromSet(g, words, avail, p, Vertical)
        else iset{};
    forall m
      ensures m in SearchedSet(g, words, avail, next) <==> m in SearchedSet(g, words, avail, p) + here
    {
      FromSetIs(g, words, avail, p, Horizontal, m);
      FromSetIs(g, words, avail, p, Vertical, m);
      if q, d :| StartBefore(g, words, avail, next, q, d, m) {
        assert q == p || StartBefore(g, words, avail, p, q, d, m);
      }
      if q, d :| StartBefore(g, words, avail, p, q, d, m) {
        assert StartBefore(g, words, avail, next, q, d, m);
      }
      if d :| IsStart(g, p) && MoveFrom(g, words, avail, p, d, m) {
        assert StartBefore(g, words, avail, next, p, d, m);
      }
    }
  }

  lemma SearchedRow(g: Grid, words: Lexicon, avail: multiset<Tile>, row: int)
    ensures SearchedSet(g, words, avail, Pos(row, BOARD_SIZE)) == SearchedSet(g, words, avail, Pos(row + 1, 0))
  {
    var end, next := Pos(row, BOARD_SIZE), Pos(row + 1, 0);
    forall m
      ensures m in SearchedSet(g, words, avail, end) <==> m in SearchedSet(g, words, avail, next)
    {
      if q, d :| StartBefore(g, words, avail, end, q, d, m) {
        assert StartBefore(g, words, avail, next, q, d, m);
      }
      if q, d :| StartBefore(g, words, avail, next, q, d, m) {
        assert StartBefore(g, words, avail, end, q, d, m);
      }
    }
  }

  lemma SearchedNone(g: Grid, words: Lexicon, avail: multiset<Tile>)
    ensures SearchedSet(g, words, avail, Pos(0, 0)) == iset{}
  {
  }

  ghost function GeneratedSet(g: Grid, words: Lexicon, avail: multiset<Tile>): iset<Move> {
    iset m | Generated(g, words, avail, m)
  }

  lemma SearchedAll(g: Grid, words: Lexicon, avail: multiset<Tile>)
    ensures SearchedSet(g, words, avail, Pos(BOARD_SIZE, 0)) == GeneratedSet(g, words, avail)
  {
    forall m
      ensures m in SearchedSet(g, words, avail, Pos(BOARD_SIZE, 0)) <==> Generated(g, words, avail, m)
    {
      if p, d :| InBounds(p) && IsStart(g, p) && MoveFrom(g, words, avail, p, d, m) {
        assert StartBefore(g, words, avail, Pos(BOARD_SIZE, 0), p, d, m);
      }
    }
  }

  /** On the empty board everything starts from the centre. */
  lemma CentreAlone(words: Lexicon, avail: multiset<Tile>)
    ensures FromSet(map[], words, avail, CENTER, Horizontal) + FromSet(map[], words, avail, CENTER, Vertical)
            == GeneratedSet(map[], words, avail)
  {
    forall m
      ensures m in FromSet(map[], words, avail, CENTER, Horizontal) + FromSet(map[], words, avail, CENTER, Vertical)
              <==> Generated(map[], words, avail, m)
    {
      FromSetIs(map[], words, avail, CENTER, Horizontal, m);
      FromSetIs(map[], words, avail, CENTER, Vertical, m);
      if p, d :| InBounds(p) && IsStart(map[], p) && MoveFrom(map[], words, avail, p, d, m) {
        assert p == CENTER;
      }
      if d :| MoveFrom(map[], words, avail, CENTER, d, m) {
        assert InBounds(CENTER) && IsStart(map[], CENTER);
      }
    }
  }

  /** A correct table has the cross checks of every lane. */
  lemma TableAgrees(valid: Table, g: Grid, words: Lexicon, d: Direction, n: nat, p: Pos)
    requires TableOk(valid, g, words, d, n) && InBounds(p)
    ensures Agrees(valid, LaneAt(g, words, d, p), n)
  {
    var l := LaneAt(g, words, d, p);
    forall k: int, c: LetterID | 0 <= k < BOARD_SIZE && c < n
      ensures AgreesAt(valid, l, k, c)
    {
      if l.At(k) !in g {
        assert EntryOk(valid[l.At(k)], g, words, d, l.At(k), n);
      }
    }
  }

  // ---------- the search ----------

  ghost predicate Prepared(gen: GenState, g: Grid, words: Lexicon) {
    && TableOk(gen.crossH, g, words, Horizontal, |gen.lang.letters|)
    && TableOk(gen.crossV, g, words, Vertical, |gen.lang.letters|)
    && AnchorsOk(gen.anchors, g)
  }

  /** The state of the generator stands for this board and dictionary, and the rack is as it was. */
  ghost predicate Running(gen: GenState, g: Grid, words: Lexicon, avail: multiset<Tile>)
    reads gen, gen.rackCount, gen.board, gen.board.squares, gen.dawg, gen.dawg.repr
  {
    && gen.board.Valid() && gen.board.Grid() == g
    && gen.dawg.Valid() && gen.dawg.words == words && gen.dawg.alphabet == |gen.lang.letters|
    && gen.Funds(avail)
  }

  /** Both directions from one square. */
  method RunBoth(gen: GenState, p: Pos, ghost g: Grid, ghost words: Lexicon, ghost avail: multiset<Tile>,
                 ghost before: iset<Move>)
    requires Prepared(gen, g, words) && Running(gen, g, words, avail) && InBounds(p)
    requires Recorded(gen.emitted) == before
    modifies gen, gen.rackCount
    ensures Running(gen, g, words, avail)
    ensures Recorded(gen.emitted) ==
            before + (FromSet(g, words, avail, p, Horizontal) + FromSet(g, words, avail, p, Vertical))
  {
    ghost var first := RunOne(gen, p, Horizontal, g, words, avail);
    RecordedConcat(old(gen.emitted), first);
    ghost var second := RunOne(gen, p, Vertical, g, words, avail);
    RecordedConcat(old(gen.emitted) + first, second);
    UnionAssoc(before, FromSet(g, words, avail, p, Horizontal), FromSet(g, words, avail, p, Vertical));
  }

  method RunOne(gen: GenState, p: Pos, d: Direction, ghost g: Grid, ghost words: Lexicon, ghost avail: multiset<Tile>)
    returns (ghost out: seq<Move>)
    requires Prepared(gen, g, words) && Running(gen, g, words, avail) && InBounds(p)
    modifies gen, gen.rackCount
    ensures Running(gen, g, words, avail)
    ensures gen.emitted == old(gen.emitted) + out
    ensures Recorded(out) == FromSet(g, words, avail, p, d)
  {
    ghost var l := LaneAt(g, words, d, p);
    TableAgrees(gen.CrossFor(d), g, words, d, |gen.lang.letters|, p);
    out := gen.RunFromAnchor(d, LineOf(d, p), IndexOf(d, p), l, avail);
  }

  method RunAnchors(gen: GenState, ghost g: Grid, ghost words: Lexicon, ghost avail: multiset<Tile>)
    requires Prepared(gen, g, words) && Running(gen, g, words, avail) && g != map[]
    requires gen.emitted == []
    modifies gen, gen.rackCount
    ensures Running(gen, g, words, avail)
    ensures Recorded(gen.emitted) == GeneratedSet(g, words, avail)
  {
    SearchedNone(g, words, avail);
    for row := 0 to BOARD_SIZE
      invariant Running(gen, g, words, avail)
      invariant Recorded(gen.emitted) == SearchedSet(g, words, avail, Pos(row, 0))
    {
      for col := 0 to BOARD_SIZE
        invariant Running(gen, g, words, avail)
        invariant Recorded(gen.emitted) == SearchedSet(g, words, avail, Pos(row, col))
      {
        SearchedMore(g, words, avail, Pos(row, col));
        if Pos(row, col) in gen.anchors {
          RunBoth(gen, Pos(row, col), g, words, avail, SearchedSet(g, words, avail, Pos(row, col)));
        }
      }
      SearchedRow(g, words, avail, row);
    }
    SearchedAll(g, words, avail);
  }

  /** The tables and anchors of a board; the empty board has no anchors. */
  method Tables(board: Board, dawg: DAWG, n: nat) returns (crossH: Table, crossV: Table, anchors: set<Pos>)
    requires board.Valid() && dawg.Valid() && n <= WIDTH
    ensures TableOk(crossH, board.Grid(), dawg.words, Horizontal, n)
    ensures TableOk(crossV, board.Grid(), dawg.words, Vertical, n)
    ensures AnchorsOk(anchors, board.Grid())
  {
    ghost var g, words := board.Grid(), dawg.words;
    crossH := ComputeCrossChecks(board, dawg, n, Horizontal);
    crossV := ComputeCrossChecks(board, dawg, n, Vertical);
    anchors := {};
    EmptyIsEmpty(board);
    if !board.IsEmptyBoard() {
      anchors := BuildAnchorGrid(board);
    }
  }

  method NewGenState(board: Board, rack: seq<Tile>, dawg: DAWG, lang: Language) returns (gen: GenState)
    requires board.Valid() && dawg.Valid() && dawg.alphabet == |lang.letters| <= WIDTH
    requires forall t :: t in rack ==> lang.Has(t)
    ensures fresh(gen) && fresh(gen.rackCount) && gen.board == board && gen.dawg == dawg
    ensures Prepared(gen, board.Grid(), dawg.words) && Running(gen, board.Grid(), dawg.words, Cost(rack))
    ensures gen.emitted == []
  {
    var crossH, crossV, anchors := Tables(board, dawg, |lang.letters|);
    assert dawg.Valid() && board.Valid();
    gen := new GenState(board, rack, dawg, lang, crossH, crossV, anchors);
  }

  /** Records everything the search can reach. */
  method RunSearch(board: Board, rack: seq<Tile>, dawg: DAWG, lang: Language) returns (emitted: seq<Move>)
    requires board.Valid() && dawg.Valid() && dawg.alphabet == |lang.letters| <= WIDTH
    requires forall t :: t in rack ==> lang.Has(t)
    ensures Recorded(emitted) == GeneratedSet(board.Grid(), dawg.words, Cost(rack))
  {
    ghost var g, words, avail := board.Grid(), dawg.words, Cost(rack);
    var gen := NewGenState(board, rack, dawg, lang);
    EmptyIsEmpty(board);
    if board.IsEmptyBoard() {
      RunCentre(gen, words, avail);
    } else {
      RunAnchors(gen, g, words, avail);
    }
    emitted := gen.emitted;
  }

  method RunCentre(gen: GenState, ghost words: Lexicon, ghost avail: multiset<Tile>)
    requires Prepared(gen, map[], words) && Running(gen, map[], words, avail) && gen.emitted == []
    modifies gen, gen.rackCount
    ensures Running(gen, map[], words, avail)
    ensures Recorded(gen.emitted) == GeneratedSet(map[], words, avail)
  {
    RunBoth(gen, CENTER, map[], words, avail, iset{});
    CentreAlone(words, avail);
    NothingPlus(GeneratedSet(map[], words, avail));
  }

  lemma NothingPlus(a: iset<Move>)
    ensures iset{} + a == a
  {
  }

  // ---------- what the search finds ----------

  lemma {:induction false} NewTilesHas(l: Lane, s: int, tiles: seq<Tile>, lang: Language)
    requires forall i :: 0 <= i < |tiles| ==> lang.Has(tiles[i])
    ensures AllHas(lang, NewTiles(l, s, tiles))
    decreases |tiles|
  {
    if tiles != [] {
      NewTilesHas(l, s + 1, tiles[1..], lang);
    }
  }

  lemma {:induction false} PartLettersAt(part: seq<Tile>, i: nat)
    requires i < |part|
    ensures PartLetters(part)[i] == part[i].letter
    decreases i
  {
    if i > 0 {
      PartLettersAt(part[1..], i - 1);
    }
  }

  /** Only letters of the alphabet are placed. */
  lemma GeneratedHas(g: Grid, words: Lexicon, avail: multiset<Tile>, m: Move, lang: Language)
    requires Generated(g, words, avail, m) && IsLexicon(lang, words)
    ensures AllHas(lang, m)
  {
    var p, d :| InBounds(p) && IsStart(g, p) && MoveFrom(g, words, avail, p, d, m);
    var l := LaneAt(g, words, d, p);
    assert l.At(IndexOf(d, p)) == p;
    var s, tiles := AnchorMoveSound(l, avail, IndexOf(d, p), m);
    forall i | 0 <= i < |tiles|
      ensures lang.Has(tiles[i])
    {
      PartLettersAt(tiles, i);
      assert PartLetters(tiles)[i] < |lang.letters|;
    }
    NewTilesHas(l, s, tiles, lang);
  }

  /** A legal move that the rack can pay for. */
  ghost predicate Playable(g: Grid, words: Lexicon, avail: multiset<Tile>, pl: Move) {
    Legal(g, words, pl) && Price(pl) <= avail
  }

  /** Every entry is a legal move that the rack can pay for, with its words and score. */
  ghost predicate Sound(out: seq<ScoredMove>, g: Grid, words: Lexicon, avail: multiset<Tile>, lang: Language)
    requires lang.WellFormed() && GridHas(lang, g)
  {
    forall x :: x in out ==> Scores(x, g, words, avail, lang)
  }

  ghost predicate Scores(x: ScoredMove, g: Grid, words: Lexicon, avail: multiset<Tile>, lang: Language)
    requires lang.WellFormed() && GridHas(lang, g)
  {
    && Playable(g, words, avail, x.move)
    && AllHas(lang, x.move) && Outcome(g, x.move, words, lang) == Ok(x.result)
  }

  /** Every legal move that the rack can pay for is there, up to the order of its placements, with its words and
      score. */
  ghost predicate Complete(out: seq<ScoredMove>, g: Grid, words: Lexicon, avail: multiset<Tile>, lang: Language)
    requires lang.WellFormed() && GridHas(lang, g)
  {
    forall pl :: Playable(g, words, avail, pl) ==> Listed(out, pl, g, words, lang)
  }

  ghost predicate Listed(out: seq<ScoredMove>, pl: Move, g: Grid, words: Lexicon, lang: Language)
    requires lang.WellFormed() && GridHas(lang, g)
  {
    exists x :: x in out && IsFor(x, pl, g, words, lang)
  }

  ghost predicate IsFor(x: ScoredMove, pl: Move, g: Grid, words: Lexicon, lang: Language)
    requires lang.WellFormed() && GridHas(lang, g)
  {
    && multiset(x.move) == multiset(pl)
    && AllHas(lang, pl) && Outcome(g, pl, words, lang) == Ok(x.result)
  }

  /** The entry of a recorded move that the validator accepts. */
  ghost predicate Retained(out: seq<ScoredMove>, m: Move, g: Grid, words: Lexicon, lang: Language)
    requires lang.WellFormed() && GridHas(lang, g)
  {
    AllHas(lang, m) && (Outcome(g, m, words, lang).Ok? ==> ScoredMove(m, Outcome(g, m, words, lang).value) in out)
  }

  lemma SearchIsComplete(emitted: seq<Move>, out: seq<ScoredMove>, g: Grid, words: Lexicon, avail: multiset<Tile>,
                         lang: Language)
    requires lang.WellFormed() && GridHas(lang, g) && OnBoard(g)
    requires Recorded(emitted) == GeneratedSet(g, words, avail)
    requires forall m :: m in emitted ==> Retained(out, m, g, words, lang)
    ensures Complete(out, g, words, avail, lang)
  {
    forall pl | Playable(g, words, avail, pl)
      ensures Listed(out, pl, g, words, lang)
    {
      var m := LegalIsGenerated(g, words, avail, pl);
      assert m in Recorded(emitted);
      assert Retained(out, m, g, words, lang);
      OrderIrrelevant(g, m, pl, words, lang);
      OrderIrrelevant(g, pl, m, words, lang);
      AcceptedIffLegal(g, pl, words, lang);
      assert IsFor(ScoredMove(m, Outcome(g, m, words, lang).value), pl, g, words, lang);
    }
  }

  /** Keeps the recorded moves that the validator accepts, each with its result. */
  method Scored(emitted: seq<Move>, board: Board, dawg: DAWG, lang: Language, ghost avail: multiset<Tile>)
    returns (out: seq<ScoredMove>)
    requires board.Valid() && dawg.Valid() && lang.WellFormed() && GridHas(lang, board.Grid())
    requires forall m :: m in emitted ==> AllHas(lang, m) && Price(m) <= avail
    ensures Sound(out, board.Grid(), dawg.words, avail, lang)
    ensures forall m :: m in emitted ==> Retained(out, m, board.Grid(), dawg.words, lang)
  {
    ghost var g, words := board.Grid(), dawg.words;
    out := [];
    for i := 0 to |emitted|
      invariant Sound(out, g, words, avail, lang)
      invariant forall m :: m in emitted[..i] ==> Retained(out, m, g, words, lang)
    {
      assert emitted[..i + 1] == emitted[..i] + [emitted[i]];
      var result := Validate(board, emitted[i], dawg, lang);
      AcceptedIffLegal(g, emitted[i], words, lang);
      if result.Ok? {
        out := out + [ScoredMove(emitted[i], result.value)];
      }
    }
    assert emitted[..|emitted|] == emitted;
  }

  /** All legal moves of a rack, and nothing else. */
  method GenerateMoves(board: Board, rack: seq<Tile>, dawg: DAWG, lang: Language) returns (out: seq<ScoredMove>)
    requires board.Valid() && dawg.Valid() && dawg.alphabet == |lang.letters| <= WIDTH
    requires lang.WellFormed() && IsLexicon(lang, dawg.words) && GridHas(lang, board.Grid())
    requires forall t :: t in rack ==> lang.Has(t)
    ensures Sound(out, board.Grid(), dawg.words, Cost(rack), lang)
    ensures Complete(out, board.Grid(), dawg.words, Cost(rack), lang)
  {
    ghost var g, words, avail := board.Grid(), dawg.words, Cost(rack);
    var emitted := RunSearch(board, rack, dawg, lang);
    forall m | m in emitted
      ensures AllHas(lang, m) && Price(m) <= avail
    {
      assert m in Recorded(emitted);
      GeneratedHas(g, words, avail, m, lang);
      GeneratedIsPaid(g, words, avail, m);
    }
    out := Scored(emitted, board, dawg, lang, avail);
    SearchIsComplete(emitted, out, g, words, avail, lang);
  }

  lemma GeneratedIsPaid(g: Grid, words: Lexicon, avail: multiset<Tile>, m: Move)
    requires Generated(g, words, avail, m)
    ensures Price(m) <= avail
  {
    var p, d :| InBounds(p) && IsStart(g, p) && MoveFrom(g, words, avail, p, d, m);
    assert LaneAt(g, words, d, p).At(IndexOf(d, p)) == p;
    var s, tiles := AnchorMoveSound(LaneAt(g, words, d, p), avail, IndexOf(d, p), m);
  }

  ghost predicate ScoresAtMost(g: Grid, words: Lexicon, lang: Language, pl: Move, score: int)
    requires lang.WellFormed() && GridHas(lang, g)
  {
    AllHas(lang, pl) && Outcome(g, pl, words, lang).Ok? && Outcome(g, pl, words, lang).value.score <= score
  }

  lemma BestOfAll(moves: seq<ScoredMove>, top: ScoredMove, g: Grid, words: Lexicon, avail: multiset<Tile>,
                  lang: Language)
    requires lang.WellFormed() && GridHas(lang, g) && Complete(moves, g, words, avail, lang)
    requires forall x :: x in moves ==> x.result.score <= top.result.score
    ensures forall pl :: Playable(g, words, avail, pl) ==> ScoresAtMost(g, words, lang, pl, top.result.score)
  {
    forall pl | Playable(g, words, avail, pl)
      ensures ScoresAtMost(g, words, lang, pl, top.result.score)
    {
      var x :| x in moves && IsFor(x, pl, g, words, lang);
    }
  }

  lemma NoMoves(g: Grid, words: Lexicon, avail: multiset<Tile>, lang: Language)
    requires lang.WellFormed() && GridHas(lang, g) && Complete([], g, words, avail, lang)
    ensures forall pl :: !Playable(g, words, avail, pl)
  {
  }

  /** The first of the entries with the highest score. */
  method Highest(moves: seq<ScoredMove>) returns (top: ScoredMove)
    requires |moves| > 0
    ensures top in moves && forall x :: x in moves ==> x.result.score <= top.result.score
  {
    top := moves[0];
    for i := 1 to |moves|
      invariant top in moves
      invariant forall k :: 0 <= k < i ==> moves[k].result.score <= top.result.score
    {
      if moves[i].result.score > top.result.score {
        top := moves[i];
      }
    }
  }

  /** The choice: no entry exactly when nothing is playable, otherwise one that no playable move outscores. */
  ghost predicate IsBest(best: Option<ScoredMove>, g: Grid, words: Lexicon, avail: multiset<Tile>, lang: Language)
    requires lang.WellFormed() && GridHas(lang, g)
  {
    match best
    case None => forall pl :: !Playable(g, words, avail, pl)
    case Some(x) =>
      && Scores(x, g, words, avail, lang)
      && forall pl :: Playable(g, words, avail, pl) ==> ScoresAtMost(g, words, lang, pl, x.result.score)
  }

  method Choose(moves: seq<ScoredMove>, ghost g: Grid, ghost words: Lexicon, ghost avail: multiset<Tile>,
                ghost lang: Language)
    returns (best: Option<ScoredMove>)
    requires lang.WellFormed() && GridHas(lang, g)
    requires Sound(moves, g, words, avail, lang) && Complete(moves, g, words, avail, lang)
    ensures IsBest(best, g, words, avail, lang)
  {
    if |moves| == 0 {
      NoMoves(g, words, avail, lang);
      return None;
    }
    var top := Highest(moves);
    BestOfAll(moves, top, g, words, avail, lang);
    best := Some(top);
  }

  /** A legal move of the highest score; none exactly when the rack has no legal move. */
  method BestMove(board: Board, rack: seq<Tile>, dawg: DAWG, lang: Language) returns (best: Option<ScoredMove>)
    requires board.Valid() && dawg.Valid() && dawg.alphabet == |lang.letters| <= WIDTH
    requires lang.WellFormed() && IsLexicon(lang, dawg.words) && GridHas(lang, board.Grid())
    requires forall t :: t in rack ==> lang.Has(t)
    ensures IsBest(best, board.Grid(), dawg.words, Cost(rack), lang)
  {
    var moves := GenerateMoves(board, rack, dawg, lang);
    best := Choose(moves, board.Grid(), dawg.words, Cost(rack), lang);
  }
}
