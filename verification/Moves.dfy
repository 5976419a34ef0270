/** Moves and what it means for one to be legal (goakt-scrabble/scrabble/move.go): the declarative rule
    `Legal`, and `Outcome`, the checks in the order in which the engine makes them. */
module Moves {
  import opened Wrappers
  import opened Tiles
  import opened Grids

  const BINGO_BONUS := 50

  datatype Placement = Placement(pos: Pos, tile: Tile)

  datatype MoveError =
    | EmptyMove
    | TooManyPlacements
    | OutOfBounds
    | DuplicatePlacement
    | SquareOccupied
    | UnassignedBlank
    | NotOnLine
    | NotContiguous
    | FirstMoveMustCoverCenter
    | MustTouchExisting
    | NoWordFormed
    | InvalidWord(word: string)

  datatype FormedWord = FormedWord(word: string, score: int, start: Pos, direction: Direction)

  datatype MoveResult = MoveResult(words: seq<FormedWord>, score: int, bingo: bool)

  type Lexicon = set<seq<LetterID>>

  /** What `Dictionary.Contains` answers. */
  predicate InDictionary(words: Lexicon, w: seq<LetterID>) {
    |w| >= MIN_WORD_LENGTH && w in words
  }

  // ---------- the placed tiles ----------

  function Positions(pl: seq<Placement>): set<Pos> {
    set i | 0 <= i < |pl| :: pl[i].pos
  }

  predicate InBoundsAll(pl: seq<Placement>) {
    forall x :: x in pl ==> InBounds(x.pos)
  }

  predicate Distinct(pl: seq<Placement>) {
    forall i, j :: 0 <= i < j < |pl| ==> pl[i].pos != pl[j].pos
  }

  /** The last tile that `pl` puts on `p`. */
  function TileFor(pl: seq<Placement>, p: Pos): Tile {
    if pl == [] then Tile(0, false)
    else if pl[|pl| - 1].pos == p then pl[|pl| - 1].tile
    else TileFor(pl[..|pl| - 1], p)
  }

  /** The tiles of `pl` alone, placed one after the other. */
  function Placed(pl: seq<Placement>): Grid {
    map p | p in Positions(pl) :: TileFor(pl, p)
  }

  lemma {:induction false} TileForIs(pl: seq<Placement>, i: nat)
    requires i < |pl| && Distinct(pl)
    ensures TileFor(pl, pl[i].pos) == pl[i].tile
    decreases |pl|
  {
    if i < |pl| - 1 {
      TileForIs(pl[..|pl| - 1], i);
    }
  }

  lemma PlacedIs(pl: seq<Placement>)
    requires Distinct(pl)
    ensures forall i :: 0 <= i < |pl| ==> pl[i].pos in Placed(pl) && Placed(pl)[pl[i].pos] == pl[i].tile
  {
    forall i | 0 <= i < |pl|
      ensures pl[i].pos in Placed(pl) && Placed(pl)[pl[i].pos] == pl[i].tile
    {
      TileForIs(pl, i);
    }
  }

  /** The board after the move. */
  function After(g: Grid, pl: seq<Placement>): Grid {
    g + Placed(pl)
  }

  /** One more tile on the board. */
  lemma AfterMore(g: Grid, pl: seq<Placement>, n: nat)
    requires n < |pl|
    ensures After(g, pl[..n + 1]) == After(g, pl[..n])[pl[n].pos := pl[n].tile]
  {
    var more, init := pl[..n + 1], pl[..n];
    assert more[..n] == init;
    assert Positions(more) == Positions(init) + {pl[n].pos};
  }

  function TilesOf(pl: seq<Placement>): (ts: seq<Tile>)
    ensures |ts| == |pl|
  {
    if pl == [] then [] else [pl[0].tile] + TilesOf(pl[1..])
  }

  lemma {:induction false} TilesOfConcat(a: seq<Placement>, b: seq<Placement>)
    ensures TilesOf(a + b) == TilesOf(a) + TilesOf(b)
    decreases |a|
  {
    if a == [] {
      assert a + b == b;
    } else {
      assert (a + b)[1..] == a[1..] + b;
      TilesOfConcat(a[1..], b);
    }
  }

  /** What the rack must pay for the placements. */
  function Price(pl: seq<Placement>): multiset<Tile> {
    Cost(TilesOf(pl))
  }

  lemma PriceOne(x: Placement)
    ensures Price([x]) == multiset{Norm(x.tile)}
  {
    var t := [x.tile];
    assert TilesOf([x]) == t;
    assert t[1..] == [];
    assert Cost(t) == multiset{Norm(x.tile)} + Cost(t[1..]);
  }

  lemma PriceConcat(a: seq<Placement>, b: seq<Placement>)
    ensures Price(a + b) == Price(a) + Price(b)
  {
    TilesOfConcat(a, b);
    CostConcat(TilesOf(a), TilesOf(b));
  }

  /** A move costs as many tiles as it places. */
  lemma PriceSize(pl: seq<Placement>)
    ensures |Price(pl)| == |pl|
  {
    CostSize(TilesOf(pl));
  }

  // ---------- the rule ----------

  /** Each tile goes on its own empty square of the board, and every blank has a letter. */
  predicate WellPlaced(g: Grid, pl: seq<Placement>) {
    && 1 <= |pl| <= RACK_SIZE
    && (forall i :: 0 <= i < |pl| ==>
          InBounds(pl[i].pos) && pl[i].pos !in g && !pl[i].tile.IsUnassignedBlank())
    && Distinct(pl)
  }

  predicate Touches(r: Run, s: set<Pos>) {
    exists p :: p in s && InRun(r, p)
  }

  predicate Covers(r: Run, s: set<Pos>) {
    forall p :: p in s ==> InRun(r, p)
  }

  /** `r` is a word of the board `after` that the squares `added` are part of. */
  predicate NewWord(after: Grid, added: set<Pos>, r: Run) {
    IsRun(after, r) && r.Length() >= MIN_WORD_LENGTH && Touches(r, added)
  }

  /** The rule of the game: the new tiles lie in one stretch of the resulting board; they make at least one
      word; the first move covers the centre and every later one makes a word with a tile already there;
      and every word they make is in the dictionary. */
  ghost predicate Legal(g: Grid, words: Lexicon, pl: seq<Placement>) {
    && WellPlaced(g, pl)
    && var after, added := After(g, pl), Positions(pl);
    && (exists r :: IsRun(after, r) && Covers(r, added))
    && (exists r :: NewWord(after, added, r))
    && (if g == map[] then CENTER in added
        else exists r :: NewWord(after, added, r) && Touches(r, g.Keys))
    && (forall r :: NewWord(after, added, r) ==> InDictionary(words, RunLetters(after, r)))
  }

  // ---------- the checks, in the engine's order ----------

  function Fault(g: Grid, pl: seq<Placement>, i: nat): Option<MoveError>
    requires i < |pl|
  {
    if !InBounds(pl[i].pos) then Some(OutOfBounds)
    else if pl[i].tile.IsUnassignedBlank() then Some(UnassignedBlank)
    else if pl[i].pos in Positions(pl[..i]) then Some(DuplicatePlacement)
    else if pl[i].pos in g then Some(SquareOccupied)
    else None
  }

  /** The first fault among the first `n` placements. */
  function FirstFault(g: Grid, pl: seq<Placement>, n: nat): Option<MoveError>
    requires n <= |pl|
  {
    if n == 0 then None
    else if FirstFault(g, pl, n - 1).Some? then FirstFault(g, pl, n - 1)
    else Fault(g, pl, n - 1)
  }

  function PlacementFault(g: Grid, pl: seq<Placement>): Option<MoveError> {
    if |pl| == 0 then Some(EmptyMove)
    else if |pl| > RACK_SIZE then Some(TooManyPlacements)
    else FirstFault(g, pl, |pl|)
  }

  predicate SameLine(pl: seq<Placement>, d: Direction) {
    forall i, j :: 0 <= i < |pl| && 0 <= j < |pl| ==> LineOf(d, pl[i].pos) == LineOf(d, pl[j].pos)
  }

  function LineDirection(pl: seq<Placement>): Option<Direction> {
    if |pl| == 1 then Some(Horizontal)
    else if SameLine(pl, Horizontal) then Some(Horizontal)
    else if SameLine(pl, Vertical) then Some(Vertical)
    else None
  }

  /** The order along the line of the word. */
  predicate Before(d: Direction, a: Pos, b: Pos) {
    IndexOf(d, a) < IndexOf(d, b) || (IndexOf(d, a) == IndexOf(d, b) && LineOf(d, a) <= LineOf(d, b))
  }

  predicate Ordered(pl: seq<Placement>, d: Direction) {
    forall i, j :: 0 <= i < j < |pl| ==> Before(d, pl[i].pos, pl[j].pos)
  }

  function Insert(p: Placement, pl: seq<Placement>, d: Direction): seq<Placement> {
    if pl == [] then [p]
    else if Before(d, pl[|pl| - 1].pos, p.pos) then pl + [p]
    else Insert(p, pl[..|pl| - 1], d) + [pl[|pl| - 1]]
  }

  lemma {:induction false} InsertElements(p: Placement, pl: seq<Placement>, d: Direction)
    ensures multiset(Insert(p, pl, d)) == multiset(pl) + multiset{p}
    decreases |pl|
  {
    if pl != [] && !Before(d, pl[|pl| - 1].pos, p.pos) {
      var init, last := pl[..|pl| - 1], pl[|pl| - 1];
      assert pl == init + [last];
      InsertElements(p, init, d);
    }
  }

  lemma {:induction false} InsertOrdered(p: Placement, pl: seq<Placement>, d: Direction)
    requires Ordered(pl, d)
    ensures Ordered(Insert(p, pl, d), d)
    decreases |pl|
  {
    if pl == [] {
    } else if Before(d, pl[|pl| - 1].pos, p.pos) {
      forall i | 0 <= i < |pl|
        ensures Before(d, pl[i].pos, p.pos)
      {
        assert i < |pl| - 1 ==> Before(d, pl[i].pos, pl[|pl| - 1].pos);
      }
    } else {
      var init, last := pl[..|pl| - 1], pl[|pl| - 1];
      InsertOrdered(p, init, d);
      InsertElements(p, init, d);
      var r := Insert(p, init, d);
      forall i | 0 <= i < |r|
        ensures Before(d, r[i].pos, last.pos)
      {
        assert r[i] in multiset(init) + multiset{p};
        if r[i] != p {
          var j :| 0 <= j < |init| && init[j] == r[i];
          assert pl[j] == r[i];
        }
      }
    }
  }

  /** A sorted copy of the placements. */
  function Sorted(pl: seq<Placement>, d: Direction): (r: seq<Placement>) {
    if pl == [] then [] else Insert(pl[|pl| - 1], Sorted(pl[..|pl| - 1], d), d)
  }

  lemma {:induction false} SortedIsSorted(pl: seq<Placement>, d: Direction)
    ensures Ordered(Sorted(pl, d), d)
    ensures multiset(Sorted(pl, d)) == multiset(pl)
    ensures |Sorted(pl, d)| == |pl|
    decreases |pl|
  {
    if pl != [] {
      var init, last := pl[..|pl| - 1], pl[|pl| - 1];
      assert pl == init + [last];
      SortedIsSorted(init, d);
      InsertOrdered(last, Sorted(init, d), d);
      InsertElements(last, Sorted(init, d), d);
      assert |multiset(Sorted(pl, d))| == |multiset(pl)|;
    }
  }

  /** No gap between the first and the last placement. */
  predicate Contiguous(g: Grid, sorted: seq<Placement>, d: Direction) {
    |sorted| <= 1 ||
    var first, last := sorted[0].pos, sorted[|sorted| - 1].pos;
    forall k :: IndexOf(d, first) < k < IndexOf(d, last) ==>
      Cell(d, LineOf(d, first), k) in g || Cell(d, LineOf(d, first), k) in Positions(sorted)
  }

  /** The cross word at one placement, if it has two letters. */
  function CrossRun(after: Grid, p: Pos, d: Direction): seq<Run>
    requires InBounds(p)
  {
    var cross := RunAt(after, Perpendicular(d), p);
    if cross.Length() >= MIN_WORD_LENGTH then [cross] else []
  }

  /** The cross words of the first `n` placements. */
  function CrossRuns(after: Grid, pl: seq<Placement>, n: nat, d: Direction): seq<Run>
    requires n <= |pl| && InBoundsAll(pl)
  {
    if n == 0 then [] else CrossRuns(after, pl, n - 1, d) + CrossRun(after, pl[n - 1].pos, d)
  }

  /** The main word, if it has two letters, and then the cross words in the order of the placements. */
  function CollectRuns(after: Grid, sorted: seq<Placement>, d: Direction): seq<Run>
    requires |sorted| > 0
    requires InBoundsAll(sorted)
  {
    var main := RunAt(after, d, sorted[0].pos);
    (if main.Length() >= MIN_WORD_LENGTH then [main] else []) + CrossRuns(after, sorted, |sorted|, d)
  }

  /** Some word has a square that is not new. */
  predicate ExtendsExisting(runs: seq<Run>, added: set<Pos>) {
    exists i, k :: 0 <= i < |runs| && runs[i].start <= k < runs[i].end && Cell(runs[i].dir, runs[i].line, k) !in added
  }

  // ---------- scoring ----------

  datatype Premium = NoPremium | DoubleLetter | TripleLetter | DoubleWord | TripleWord

  function StandardPremium(p: Pos): Premium {
    var r := if p.row > 7 then 14 - p.row else p.row;
    var c := if p.col > 7 then 14 - p.col else p.col;
    var (lo, hi) := if r > c then (c, r) else (r, c);
    if (lo, hi) in {(0, 0), (0, 7)} then TripleWord
    else if (lo, hi) in {(1, 1), (2, 2), (3, 3), (4, 4), (7, 7)} then DoubleWord
    else if (lo, hi) in {(1, 5), (5, 5)} then TripleLetter
    else if (lo, hi) in {(0, 3), (2, 6), (3, 7), (6, 6)} then DoubleLetter
    else NoPremium
  }

  predicate GridHas(lang: Language, g: Grid) {
    forall p :: p in g ==> lang.Has(g[p])
  }

  predicate AllHas(lang: Language, pl: seq<Placement>) {
    forall x :: x in pl ==> lang.Has(x.tile)
  }

  lemma {:induction false} TileForHas(lang: Language, pl: seq<Placement>, p: Pos)
    requires AllHas(lang, pl) && lang.WellFormed()
    ensures lang.Has(TileFor(pl, p))
    decreases |pl|
  {
    if pl != [] {
      TileForHas(lang, pl[..|pl| - 1], p);
    }
  }

  lemma AfterHas(lang: Language, g: Grid, pl: seq<Placement>)
    requires GridHas(lang, g) && AllHas(lang, pl) && lang.WellFormed()
    ensures GridHas(lang, After(g, pl))
  {
    forall p | p in Placed(pl)
      ensures lang.Has(Placed(pl)[p])
    {
      TileForHas(lang, pl, p);
    }
  }

  function LetterFactor(p: Pos, added: set<Pos>): int {
    if p !in added then 1
    else match StandardPremium(p)
      case DoubleLetter => 2
      case TripleLetter => 3
      case _ => 1
  }

  function WordFactor(p: Pos, added: set<Pos>): int {
    if p !in added then 1
    else match StandardPremium(p)
      case DoubleWord => 2
      case TripleWord => 3
      case _ => 1
  }

  /** The letter points of offsets `r.start .. k - 1`. */
  function LetterPoints(after: Grid, r: Run, k: int, added: set<Pos>, lang: Language): int
    requires r.start <= k
    requires lang.WellFormed() && GridHas(lang, after)
    decreases k - r.start
  {
    if k == r.start then 0
    else
      var p := Cell(r.dir, r.line, k - 1);
      LetterPoints(after, r, k - 1, added, lang) + TileAt(after, p).Score(lang) * LetterFactor(p, added)
  }

  function WordMultiplier(r: Run, k: int, added: set<Pos>): int
    requires r.start <= k
    decreases k - r.start
  {
    if k == r.start then 1
    else WordMultiplier(r, k - 1, added) * WordFactor(Cell(r.dir, r.line, k - 1), added)
  }

  function WordScore(after: Grid, r: Run, added: set<Pos>, lang: Language): int
    requires r.start <= r.end
    requires lang.WellFormed() && GridHas(lang, after)
  {
    LetterPoints(after, r, r.end, added, lang) * WordMultiplier(r, r.end, added)
  }

  /** The characters on offsets `s .. e - 1` of a line. */
  function Spell(g: Grid, d: Direction, line: int, s: int, e: int, lang: Language): (w: string)
    requires s <= e
    requires lang.WellFormed() && GridHas(lang, g)
    decreases e - s
  {
    if s == e then [] else [lang.letters[TileAt(g, Cell(d, line, s)).letter]] + Spell(g, d, line, s + 1, e, lang)
  }

  function SpellRun(g: Grid, r: Run, lang: Language): string
    requires r.start <= r.end
    requires lang.WellFormed() && GridHas(lang, g)
  {
    Spell(g, r.dir, r.line, r.start, r.end, lang)
  }

  predicate RunsOk(runs: seq<Run>) {
    forall i :: 0 <= i < |runs| ==> runs[i].start <= runs[i].end
  }

  function Formed(after: Grid, r: Run, added: set<Pos>, lang: Language): FormedWord
    requires r.start <= r.end
    requires lang.WellFormed() && GridHas(lang, after)
  {
    FormedWord(SpellRun(after, r, lang), WordScore(after, r, added, lang), Cell(r.dir, r.line, r.start), r.dir)
  }

  /** The words and the points of the first `n` runs, or the first of them that is not a word. */
  function Tally(after: Grid, runs: seq<Run>, n: nat, added: set<Pos>, words: Lexicon, lang: Language)
    : Result<(seq<FormedWord>, int), MoveError>
    requires n <= |runs| && RunsOk(runs)
    requires lang.WellFormed() && GridHas(lang, after)
  {
    if n == 0 then Ok(([], 0))
    else match Tally(after, runs, n - 1, added, words, lang)
      case Err(e) => Err(e)
      case Ok((formed, score)) =>
        var r := runs[n - 1];
        if !InDictionary(words, RunLetters(after, r)) then Err(InvalidWord(SpellRun(after, r, lang)))
        else
          var f := Formed(after, r, added, lang);
          Ok((formed + [f], score + f.score))
  }

  lemma {:induction false} CrossRunsOk(after: Grid, pl: seq<Placement>, n: nat, d: Direction)
    requires n <= |pl| && InBoundsAll(pl)
    ensures RunsOk(CrossRuns(after, pl, n, d))
    decreases n
  {
    if n > 0 {
      CrossRunsOk(after, pl, n - 1, d);
    }
  }

  lemma CollectRunsOk(after: Grid, sorted: seq<Placement>, d: Direction)
    requires |sorted| > 0 && InBoundsAll(sorted)
    ensures RunsOk(CollectRuns(after, sorted, d))
  {
    CrossRunsOk(after, sorted, |sorted|, d);
  }

  lemma FaultFree(g: Grid, pl: seq<Placement>, n: nat)
    requires n <= |pl|
    ensures FirstFault(g, pl, n).None? <==> forall i :: 0 <= i < n ==> Fault(g, pl, i).None?
  {
  }

  /** Passing the first check is being well placed. */
  lemma NoFaultIsWellPlaced(g: Grid, pl: seq<Placement>)
    ensures PlacementFault(g, pl).None? <==> WellPlaced(g, pl)
  {
    FaultFree(g, pl, |pl|);
    if WellPlaced(g, pl) {
      forall i | 0 <= i < |pl|
        ensures Fault(g, pl, i).None?
      {
        assert forall j :: 0 <= j < i ==> pl[..i][j] == pl[j];
      }
    }
    if PlacementFault(g, pl).None? {
      forall i, j | 0 <= i < j < |pl|
        ensures pl[i].pos != pl[j].pos
      {
        assert Fault(g, pl, j).None?;
        assert pl[..j][i] == pl[i];
        assert pl[..j][i].pos in Positions(pl[..j]);
      }
      forall i | 0 <= i < |pl|
        ensures InBounds(pl[i].pos) && pl[i].pos !in g && !pl[i].tile.IsUnassignedBlank()
      {
        assert Fault(g, pl, i).None?;
      }
    }
  }

  lemma SortedKeeps(pl: seq<Placement>, d: Direction)
    ensures |Sorted(pl, d)| == |pl|
    ensures forall x :: x in Sorted(pl, d) <==> x in pl
  {
    SortedIsSorted(pl, d);
    forall x
      ensures x in Sorted(pl, d) <==> x in pl
    {
      assert x in Sorted(pl, d) <==> x in multiset(Sorted(pl, d));
    }
  }

  /** The checks on the words of a move that places `n` tiles. */
  function Settle(g: Grid, after: Grid, runs: seq<Run>, added: set<Pos>, n: nat, words: Lexicon,
                  lang: Language): Result<MoveResult, MoveError>
    requires lang.WellFormed() && GridHas(lang, after) && RunsOk(runs)
  {
    if runs == [] then Err(NoWordFormed)
    else if g == map[] && CENTER !in added then Err(FirstMoveMustCoverCenter)
    else if g != map[] && !ExtendsExisting(runs, added) then Err(MustTouchExisting)
    else match Tally(after, runs, |runs|, added, words, lang)
      case Err(e) => Err(e)
      case Ok((formed, score)) =>
        var bingo := n == RACK_SIZE;
        Ok(MoveResult(formed, score + (if bingo then BINGO_BONUS else 0), bingo))
  }

  /** The checks that follow the sort. */
  function Judge(g: Grid, sorted: seq<Placement>, d: Direction, words: Lexicon,
                 lang: Language): Result<MoveResult, MoveError>
    requires lang.WellFormed() && GridHas(lang, g) && AllHas(lang, sorted)
    requires |sorted| > 0 && InBoundsAll(sorted)
  {
    if !Contiguous(g, sorted, d) then Err(NotContiguous)
    else
      var after := After(g, sorted);
      AfterHas(lang, g, sorted);
      CollectRunsOk(after, sorted, d);
      Settle(g, after, CollectRuns(after, sorted, d), Positions(sorted), |sorted|, words, lang)
  }

  /** What the validator answers. */
  function Outcome(g: Grid, pl: seq<Placement>, words: Lexicon, lang: Language): Result<MoveResult, MoveError>
    requires lang.WellFormed() && GridHas(lang, g) && AllHas(lang, pl)
  {
    if PlacementFault(g, pl).Some? then Err(PlacementFault(g, pl).value)
    else if LineDirection(pl).None? then Err(NotOnLine)
    else
      var d := LineDirection(pl).value;
      NoFaultIsWellPlaced(g, pl);
      SortedKeeps(pl, d);
      Judge(g, Sorted(pl, d), d, words, lang)
  }
}
