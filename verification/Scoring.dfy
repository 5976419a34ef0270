/** Laws of the scores (goakt-scrabble/scrabble/move.go, board.go). */
module Scoring {
  import opened Wrappers
  import opened Tiles
  import opened Grids
  import opened Moves

  function ScoreSum(formed: seq<FormedWord>, n: nat): int
    requires n <= |formed|
  {
    if n == 0 then 0 else ScoreSum(formed, n - 1) + formed[n - 1].score
  }

  lemma {:induction false} SumPrefix(formed: seq<FormedWord>, f: FormedWord, n: nat)
    requires n <= |formed|
    ensures ScoreSum(formed + [f], n) == ScoreSum(formed, n)
    decreases n
  {
    if n > 0 {
      SumPrefix(formed, f, n - 1);
    }
  }

  lemma {:induction false} TallyIsSum(after: Grid, runs: seq<Run>, n: nat, added: set<Pos>, words: Lexicon,
                                      lang: Language)
    requires n <= |runs| && RunsOk(runs) && lang.WellFormed() && GridHas(lang, after)
    requires Tally(after, runs, n, added, words, lang).Ok?
    ensures var t := Tally(after, runs, n, added, words, lang).value;
            t.1 == ScoreSum(t.0, |t.0|)
    decreases n
  {
    if n > 0 {
      TallyIsSum(after, runs, n - 1, added, words, lang);
      var (formed, score) := Tally(after, runs, n - 1, added, words, lang).value;
      SumPrefix(formed, Formed(after, runs[n - 1], added, lang), |formed|);
    }
  }

  lemma JudgeScore(g: Grid, pl: seq<Placement>, d: Direction, words: Lexicon, lang: Language)
    requires lang.WellFormed() && GridHas(lang, g) && AllHas(lang, pl) && |pl| > 0 && InBoundsAll(pl)
    requires Judge(g, pl, d, words, lang).Ok?
    ensures var r := Judge(g, pl, d, words, lang).value;
            r.bingo == (|pl| == RACK_SIZE) &&
              r.score == ScoreSum(r.words, |r.words|) + (if |pl| == RACK_SIZE then BINGO_BONUS else 0)
  {
    var after := After(g, pl);
    AfterHas(lang, g, pl);
    CollectRunsOk(after, pl, d);
    var runs := CollectRuns(after, pl, d);
    TallyIsSum(after, runs, |runs|, Positions(pl), words, lang);
  }

  /** The score of a move is the sum of its words' scores, and a bonus exactly when all seven tiles were placed. */
  lemma ScoreIsSum(g: Grid, pl: seq<Placement>, words: Lexicon, lang: Language)
    requires lang.WellFormed() && GridHas(lang, g) && AllHas(lang, pl) && Outcome(g, pl, words, lang).Ok?
    ensures var r := Outcome(g, pl, words, lang).value;
            r.bingo == (|pl| == RACK_SIZE) &&
              r.score == ScoreSum(r.words, |r.words|) + (if |pl| == RACK_SIZE then BINGO_BONUS else 0)
  {
    NoFaultIsWellPlaced(g, pl);
    var d := LineDirection(pl).value;
    SortedKeeps(pl, d);
    JudgeScore(g, Sorted(pl, d), d, words, lang);
  }

  // ---------- what the premiums are worth ----------

  /** The points printed on a tile; a blank has none. */
  function Face(t: Tile, lang: Language): int
    requires lang.WellFormed() && lang.Has(t)
  {
    if t.blank then 0 else lang.points[t.letter]
  }

  function FaceAt(after: Grid, r: Run, k: int, lang: Language): int
    requires lang.WellFormed() && GridHas(lang, after)
  {
    var p := Cell(r.dir, r.line, k);
    if p in after then Face(after[p], lang) else Face(Tile(0, false), lang)
  }

  /** The face value of the tiles on offsets `r.start .. k - 1`. */
  function FaceValue(after: Grid, r: Run, k: int, lang: Language): int
    requires r.start <= k && lang.WellFormed() && GridHas(lang, after)
    decreases k - r.start
  {
    if k == r.start then 0 else FaceValue(after, r, k - 1, lang) + FaceAt(after, r, k - 1, lang)
  }

  /** Offset `k` of the word holds a new tile on a square of this kind. */
  predicate NewOn(r: Run, k: int, added: set<Pos>, kind: Premium) {
    Cell(r.dir, r.line, k) in added && StandardPremium(Cell(r.dir, r.line, k)) == kind
  }

  /** The face value of the new tiles on squares of a kind. */
  function FaceOn(after: Grid, r: Run, k: int, added: set<Pos>, kind: Premium, lang: Language): int
    requires r.start <= k && lang.WellFormed() && GridHas(lang, after)
    decreases k - r.start
  {
    if k == r.start then 0
    else FaceOn(after, r, k - 1, added, kind, lang)
         + (if NewOn(r, k - 1, added, kind) then FaceAt(after, r, k - 1, lang) else 0)
  }

  /** How many new tiles lie on squares of a kind. */
  function CountOn(r: Run, k: int, added: set<Pos>, kind: Premium): nat
    requires r.start <= k
    decreases k - r.start
  {
    if k == r.start then 0 else CountOn(r, k - 1, added, kind) + (if NewOn(r, k - 1, added, kind) then 1 else 0)
  }

  function Power(base: nat, n: nat): nat {
    if n == 0 then 1 else base * Power(base, n - 1)
  }

  lemma {:induction false} LetterPointsAre(after: Grid, r: Run, k: int, added: set<Pos>, lang: Language)
    requires r.start <= k && lang.WellFormed() && GridHas(lang, after)
    ensures LetterPoints(after, r, k, added, lang) ==
            FaceValue(after, r, k, lang) + FaceOn(after, r, k, added, DoubleLetter, lang)
            + 2 * FaceOn(after, r, k, added, TripleLetter, lang)
    decreases k - r.start
  {
    if r.start < k {
      LetterPointsAre(after, r, k - 1, added, lang);
    }
  }

  lemma PowerProduct(a: nat, b: nat)
    ensures Power(2, a + 1) * Power(3, b) == Power(2, a) * Power(3, b) * 2
    ensures Power(2, a) * Power(3, b + 1) == Power(2, a) * Power(3, b) * 3
  {
  }

  lemma {:induction false} MultiplierIs(r: Run, k: int, added: set<Pos>)
    requires r.start <= k
    ensures WordMultiplier(r, k, added) ==
            Power(2, CountOn(r, k, added, DoubleWord)) * Power(3, CountOn(r, k, added, TripleWord))
    decreases k - r.start
  {
    if r.start < k {
      MultiplierIs(r, k - 1, added);
      PowerProduct(CountOn(r, k - 1, added, DoubleWord), CountOn(r, k - 1, added, TripleWord));
    }
  }

  /** The score of a word, from what is printed on its tiles: a new tile on a double or triple letter counts once or
      twice more, and then each new tile on a double word doubles and each on a triple word triples the whole. Squares
      under older tiles count for nothing. */
  lemma WordScoreIs(after: Grid, r: Run, added: set<Pos>, lang: Language)
    requires r.start <= r.end && lang.WellFormed() && GridHas(lang, after)
    ensures WordScore(after, r, added, lang) ==
            (FaceValue(after, r, r.end, lang) + FaceOn(after, r, r.end, added, DoubleLetter, lang)
             + 2 * FaceOn(after, r, r.end, added, TripleLetter, lang))
            * (Power(2, CountOn(r, r.end, added, DoubleWord)) * Power(3, CountOn(r, r.end, added, TripleWord)))
  {
    LetterPointsAre(after, r, r.end, added, lang);
    MultiplierIs(r, r.end, added);
  }

  /** No new tile on offsets `r.start .. k - 1` lies on a premium square, except that of offset `j`. */
  predicate PlainBut(r: Run, k: int, added: set<Pos>, j: int) {
    forall i :: r.start <= i < k && i != j && Cell(r.dir, r.line, i) in added ==>
      StandardPremium(Cell(r.dir, r.line, i)) == NoPremium
  }

  lemma {:induction false} OnlyOne(after: Grid, r: Run, k: int, added: set<Pos>, j: int, kind: Premium, lang: Language)
    requires r.start <= k && lang.WellFormed() && GridHas(lang, after) && PlainBut(r, k, added, j)
    requires r.start <= j && kind != NoPremium
    ensures FaceOn(after, r, k, added, kind, lang) ==
            if j < k && NewOn(r, j, added, kind) then FaceAt(after, r, j, lang) else 0
    ensures CountOn(r, k, added, kind) == if j < k && NewOn(r, j, added, kind) then 1 else 0
    decreases k - r.start
  {
    if r.start < k {
      OnlyOne(after, r, k - 1, added, j, kind, lang);
    }
  }

  /** What a single premium does. */
  lemma OnePremium(after: Grid, r: Run, added: set<Pos>, j: int, lang: Language)
    requires r.start <= j < r.end && lang.WellFormed() && GridHas(lang, after)
    requires PlainBut(r, r.end, added, j) && Cell(r.dir, r.line, j) in added
    ensures var face, tile := FaceValue(after, r, r.end, lang), FaceAt(after, r, j, lang);
            WordScore(after, r, added, lang) ==
            match StandardPremium(Cell(r.dir, r.line, j))
            case NoPremium => face
            case DoubleLetter => face + tile
            case TripleLetter => face + 2 * tile
            case DoubleWord => 2 * face
            case TripleWord => 3 * face
  {
    WordScoreIs(after, r, added, lang);
    OnlyOne(after, r, r.end, added, j, DoubleLetter, lang);
    OnlyOne(after, r, r.end, added, j, TripleLetter, lang);
    OnlyOne(after, r, r.end, added, j, DoubleWord, lang);
    OnlyOne(after, r, r.end, added, j, TripleWord, lang);
    assert Power(2, 1) == 2 && Power(3, 1) == 3;
  }

  /** Two double words quadruple, two triple words multiply by nine. */
  lemma TwoWordPremiums()
    ensures Power(2, 2) == 4 && Power(3, 2) == 9
  {
    assert Power(2, 1) == 2 && Power(3, 1) == 3;
  }

  /** No new tile on offsets `r.start .. k - 1` lies on a premium square. */
  predicate Plain(r: Run, k: int, added: set<Pos>) {
    forall i :: r.start <= i < k && Cell(r.dir, r.line, i) in added ==>
      StandardPremium(Cell(r.dir, r.line, i)) == NoPremium
  }

  lemma {:induction false} PlainPoints(after: Grid, r: Run, k: int, added: set<Pos>, lang: Language)
    requires r.start <= k && lang.WellFormed() && GridHas(lang, after) && Plain(r, k, added)
    ensures LetterPoints(after, r, k, added, lang) == FaceValue(after, r, k, lang) && WordMultiplier(r, k, added) == 1
    decreases k - r.start
  {
    if r.start < k {
      PlainPoints(after, r, k - 1, added, lang);
    }
  }

  /** Premiums count only under new tiles: a word without one there scores its face value. */
  lemma PlainWordScore(after: Grid, r: Run, added: set<Pos>, lang: Language)
    requires r.start <= r.end && lang.WellFormed() && GridHas(lang, after) && Plain(r, r.end, added)
    ensures WordScore(after, r, added, lang) == FaceValue(after, r, r.end, lang)
  {
    PlainPoints(after, r, r.end, added, lang);
  }
}
