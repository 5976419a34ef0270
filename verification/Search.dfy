/** The moves that the Appel/Jacobson search visits (goakt-scrabble/scrabble/bot.go), described without its
    data structures: which placements it can reach from an anchor along one line of the board. */
module Search {
  import opened Tiles
  import opened Grids
  import opened Moves

  /** One line of the board, together with the board, the dictionary and the line's cross checks: the pairs of
      an offset and a letter that may stand there. */
  datatype Lane = Lane(g: Grid, words: Lexicon, dir: Direction, line: int, cross: set<(int, LetterID)>) {
    predicate Valid() {
      0 <= line < BOARD_SIZE
    }

    function At(k: int): Pos {
      Cell(dir, line, k)
    }

    predicate Allows(k: int, letter: LetterID) {
      (k, letter) in cross
    }
  }

  /** The letter makes no word across the line at `p`, or makes one that is in the dictionary. */
  predicate CrossOk(g: Grid, words: Lexicon, d: Direction, p: Pos, letter: LetterID)
    requires InBounds(p)
  {
    var h := g[p := Tile(letter, false)];
    var cross := RunAt(h, Perpendicular(d), p);
    cross.Length() < MIN_WORD_LENGTH || InDictionary(words, RunLetters(h, cross))
  }

  function CrossTable(g: Grid, words: Lexicon, d: Direction, line: int): set<(int, LetterID)>
    requires 0 <= line < BOARD_SIZE
  {
    set k: int, letter: LetterID | 0 <= k < BOARD_SIZE && CrossOk(g, words, d, Cell(d, line, k), letter) :: (k, letter)
  }

  predicate FilledNeighbour(g: Grid, p: Pos) {
    Pos(p.row - 1, p.col) in g || Pos(p.row + 1, p.col) in g || Pos(p.row, p.col - 1) in g || Pos(p.row, p.col + 1) in g
  }

  /** An empty square next to a filled one. */
  predicate IsAnchor(g: Grid, p: Pos) {
    InBounds(p) && p !in g && FilledNeighbour(g, p)
  }

  /** Empty squares before `a` that are not anchors. */
  function LeftLimit(l: Lane, a: int): (n: nat)
    requires l.Valid() && 0 <= a <= BOARD_SIZE
    ensures n <= a
    decreases a
  {
    if a > 0 && l.At(a - 1) !in l.g && !IsAnchor(l.g, l.At(a - 1)) then 1 + LeftLimit(l, a - 1) else 0
  }

  lemma {:induction false} LeftLimitIs(l: Lane, a: int)
    requires l.Valid() && 0 <= a <= BOARD_SIZE
    ensures forall k :: a - LeftLimit(l, a) <= k < a ==> l.At(k) !in l.g && !IsAnchor(l.g, l.At(k))
    ensures LeftLimit(l, a) < a ==> l.At(a - LeftLimit(l, a) - 1) in l.g || IsAnchor(l.g, l.At(a - LeftLimit(l, a) - 1))
    decreases a
  {
    if LeftLimit(l, a) > 0 {
      LeftLimitIs(l, a - 1);
    }
  }

  function PartLetters(part: seq<Tile>): (w: seq<LetterID>)
    ensures |w| == |part|
  {
    if part == [] then [] else [part[0].letter] + PartLetters(part[1..])
  }

  lemma {:induction false} PartLettersConcat(a: seq<Tile>, b: seq<Tile>)
    ensures PartLetters(a + b) == PartLetters(a) + PartLetters(b)
    decreases |a|
  {
    if a == [] {
      assert a + b == b;
    } else {
      assert (a + b)[1..] == a[1..] + b;
      PartLettersConcat(a[1..], b);
    }
  }

  /** Tiles for the squares from offset `s` on: they agree with the tiles already there, and each new one
      passes the cross check. */
  predicate Spelled(l: Lane, s: int, tiles: seq<Tile>)
    decreases |tiles|
  {
    if tiles == [] then 0 <= s <= BOARD_SIZE
    else
      && 0 <= s < BOARD_SIZE
      && (if l.At(s) in l.g then tiles[0] == l.g[l.At(s)] else l.Allows(s, tiles[0].letter))
      && Spelled(l, s + 1, tiles[1..])
  }

  /** The new ones among them. */
  function NewTiles(l: Lane, s: int, tiles: seq<Tile>): seq<Placement>
    decreases |tiles|
  {
    if tiles == [] then []
    else (if l.At(s) in l.g then [] else [Placement(l.At(s), tiles[0])]) + NewTiles(l, s + 1, tiles[1..])
  }

  /** Offset `e` ends a word: it is off the board or empty. */
  predicate IsEnd(l: Lane, e: int) {
    e < BOARD_SIZE ==> l.At(e) !in l.g
  }

  /** Going on with the tiles `w` from offset `i`, with `avail` left on the rack, completes a word and records
      `m`; `path` has been spelled and `pl` placed before. */
  predicate RightWord(l: Lane, avail: multiset<Tile>, path: seq<LetterID>, pl: seq<Placement>, i: int,
                      placed: bool, w: seq<Tile>, m: seq<Placement>)
    decreases |w|
  {
    if w == [] then
      0 <= i <= BOARD_SIZE && IsEnd(l, i) && path in l.words && placed && pl != [] && m == pl
    else if 0 <= i < BOARD_SIZE && l.At(i) in l.g then
      w[0] == l.g[l.At(i)] && RightWord(l, avail, path + [w[0].letter], pl, i + 1, placed, w[1..], m)
    else
      && 0 <= i < BOARD_SIZE && l.Allows(i, w[0].letter) && Norm(w[0]) in avail
      && RightWord(l, avail - multiset{Norm(w[0])}, path + [w[0].letter], pl + [Placement(l.At(i), w[0])], i + 1, true,
                   w[1..], m)
  }

  /** What that comes to, all at once. */
  predicate Continues(l: Lane, avail: multiset<Tile>, path: seq<LetterID>, pl: seq<Placement>, i: int,
                      placed: bool, w: seq<Tile>, m: seq<Placement>) {
    && Spelled(l, i, w)
    && IsEnd(l, i + |w|)
    && path + PartLetters(w) in l.words
    && Price(NewTiles(l, i, w)) <= avail
    && m == pl + NewTiles(l, i, w)
    && m != []
    && (placed || NewTiles(l, i, w) != [])
  }

  /** `m` is recorded by walking on from offset `i`. */
  ghost predicate RightMove(l: Lane, avail: multiset<Tile>, path: seq<LetterID>, pl: seq<Placement>, i: int,
                            placed: bool, m: seq<Placement>) {
    exists w :: RightWord(l, avail, path, pl, i, placed, w, m)
  }

  /** The left part, laid out so that it ends just before the anchor. */
  function LeftPlacements(l: Lane, part: seq<Tile>, a: int): seq<Placement> {
    if part == [] then [] else [Placement(l.At(a - |part|), part[0])] + LeftPlacements(l, part[1..], a)
  }

  /** `m` is recorded by first adding the tiles `more` to the left part. */
  ghost predicate LeftWith(l: Lane, avail: multiset<Tile>, part: seq<Tile>, a: int, limit: nat, more: seq<Tile>,
                           m: seq<Placement>)
    decreases |more|
  {
    if more == [] then
      RightMove(l, avail, PartLetters(part), LeftPlacements(l, part, a), a, false, m)
    else
      && limit > 0 && Norm(more[0]) in avail
      && LeftWith(l, avail - multiset{Norm(more[0])}, part + [more[0]], a, limit - 1, more[1..], m)
  }

  /** `m` is recorded by growing the left part by at most `limit` tiles before walking on from the anchor. */
  ghost predicate LeftMove(l: Lane, avail: multiset<Tile>, part: seq<Tile>, a: int, limit: nat, m: seq<Placement>) {
    exists more :: LeftWith(l, avail, part, a, limit, more, m)
  }

  /** `m` is recorded from the anchor at offset `a`: after the tiles already there, or after a left part of new ones. */
  ghost predicate AnchorMove(l: Lane, avail: multiset<Tile>, a: int, m: seq<Placement>)
    requires l.Valid() && 0 <= a < BOARD_SIZE
  {
    if LeftLimit(l, a) == 0 then
      var s := RunStart(l.g, l.dir, l.line, a);
      RightMove(l, avail, Letters(l.g, l.dir, l.line, s, a), [], a, false, m)
    else
      LeftMove(l, avail, [], a, LeftLimit(l, a), m)
  }

  /** A square that the search starts from. */
  predicate IsStart(g: Grid, p: Pos) {
    if g == map[] then p == CENTER else IsAnchor(g, p)
  }

  function LaneAt(g: Grid, words: Lexicon, d: Direction, p: Pos): Lane
    requires InBounds(p)
  {
    Lane(g, words, d, LineOf(d, p), CrossTable(g, words, d, LineOf(d, p)))
  }

  ghost predicate MoveFrom(g: Grid, words: Lexicon, avail: multiset<Tile>, p: Pos, d: Direction, m: seq<Placement>)
    requires InBounds(p)
  {
    AnchorMove(LaneAt(g, words, d, p), avail, IndexOf(d, p), m)
  }

  /** `m` is recorded by the whole search. */
  ghost predicate Generated(g: Grid, words: Lexicon, avail: multiset<Tile>, m: seq<Placement>) {
    exists p, d :: InBounds(p) && IsStart(g, p) && MoveFrom(g, words, avail, p, d, m)
  }

  // ---------- one step of the walk ----------

  /** `m` is recorded by placing `t` on offset `i` and walking on. */
  ghost predicate RightVia(l: Lane, avail: multiset<Tile>, path: seq<LetterID>, pl: seq<Placement>, i: int, t: Tile,
                           m: seq<Placement>) {
    && l.Allows(i, t.letter) && Norm(t) in avail
    && RightMove(l, avail - multiset{Norm(t)}, path + [t.letter], pl + [Placement(l.At(i), t)], i + 1, true, m)
  }

  /** Over a filled square the walk can only go on. */
  lemma RightThrough(l: Lane, avail: multiset<Tile>, path: seq<LetterID>, pl: seq<Placement>, i: int, placed: bool,
                     m: seq<Placement>)
    requires 0 <= i < BOARD_SIZE && l.At(i) in l.g
    ensures RightMove(l, avail, path, pl, i, placed, m) <==>
            RightMove(l, avail, path + [l.g[l.At(i)].letter], pl, i + 1, placed, m)
  {
    var t := l.g[l.At(i)];
    var longer, next := path + [t.letter], i + 1;
    if w :| RightWord(l, avail, path, pl, i, placed, w, m) {
      assert RightWord(l, avail, longer, pl, next, placed, w[1..], m);
    }
    if w :| RightWord(l, avail, longer, pl, next, placed, w, m) {
      assert ([t] + w)[1..] == w;
      assert RightWord(l, avail, path, pl, i, placed, [t] + w, m);
    }
  }

  /** On an empty square the walk ends or places a tile. */
  lemma RightChoices(l: Lane, avail: multiset<Tile>, path: seq<LetterID>, pl: seq<Placement>, i: int, placed: bool,
                     m: seq<Placement>)
    requires 0 <= i < BOARD_SIZE && l.At(i) !in l.g
    ensures RightMove(l, avail, path, pl, i, placed, m) <==>
            || (path in l.words && placed && pl != [] && m == pl)
            || exists t :: RightVia(l, avail, path, pl, i, t, m)
  {
    if w :| RightWord(l, avail, path, pl, i, placed, w, m) {
      if w != [] {
        var t := w[0];
        assert RightWord(l, avail - multiset{Norm(t)}, path + [t.letter], pl + [Placement(l.At(i), t)], i + 1, true,
                         w[1..], m);
        assert RightVia(l, avail, path, pl, i, t, m);
      }
    }
    if path in l.words && placed && pl != [] && m == pl {
      assert RightWord(l, avail, path, pl, i, placed, [], m);
    }
    if t :| RightVia(l, avail, path, pl, i, t, m) {
      var w :| RightWord(l, avail - multiset{Norm(t)}, path + [t.letter], pl + [Placement(l.At(i), t)], i + 1, true, w,
                         m);
      assert ([t] + w)[1..] == w;
      assert RightWord(l, avail, path, pl, i, placed, [t] + w, m);
    }
  }

  /** Past the last square the walk ends. */
  lemma RightAtEdge(l: Lane, avail: multiset<Tile>, path: seq<LetterID>, pl: seq<Placement>, placed: bool,
                    m: seq<Placement>)
    ensures RightMove(l, avail, path, pl, BOARD_SIZE, placed, m) <==> path in l.words && placed && pl != [] && m == pl
  {
    if path in l.words && placed && pl != [] && m == pl {
      assert RightWord(l, avail, path, pl, BOARD_SIZE, placed, [], m);
    }
  }

  /** `m` is recorded by adding `t` to the left part. */
  ghost predicate LeftVia(l: Lane, avail: multiset<Tile>, part: seq<Tile>, a: int, limit: nat, t: Tile,
                          m: seq<Placement>) {
    limit > 0 && Norm(t) in avail && LeftMove(l, avail - multiset{Norm(t)}, part + [t], a, limit - 1, m)
  }

  /** The search extends the left part as it is to the right, or adds one more tile to it. */
  lemma LeftChoices(l: Lane, avail: multiset<Tile>, part: seq<Tile>, a: int, limit: nat, m: seq<Placement>)
    ensures LeftMove(l, avail, part, a, limit, m) <==>
            || RightMove(l, avail, PartLetters(part), LeftPlacements(l, part, a), a, false, m)
            || exists t :: LeftVia(l, avail, part, a, limit, t, m)
  {
    assert LeftWith(l, avail, part, a, limit, [], m) <==>
           RightMove(l, avail, PartLetters(part), LeftPlacements(l, part, a), a, false, m);
    if more :| LeftWith(l, avail, part, a, limit, more, m) {
      if more != [] {
        var t := more[0];
        assert LeftWith(l, avail - multiset{Norm(t)}, part + [t], a, limit - 1, more[1..], m);
        assert LeftVia(l, avail, part, a, limit, t, m);
      }
    }
    if t :| LeftVia(l, avail, part, a, limit, t, m) {
      var more :| LeftWith(l, avail - multiset{Norm(t)}, part + [t], a, limit - 1, more, m);
      assert ([t] + more)[1..] == more;
      assert LeftWith(l, avail, part, a, limit, [t] + more, m);
    }
  }

  /** Whatever the walk records ends in a word that starts with what has been spelled. */
  lemma {:induction false} RightWordPrefix(l: Lane, avail: multiset<Tile>, path: seq<LetterID>, pl: seq<Placement>,
                                           i: int,
                                           placed: bool, w: seq<Tile>, m: seq<Placement>)
    requires RightWord(l, avail, path, pl, i, placed, w, m)
    ensures exists v :: v in l.words && path <= v
    decreases |w|
  {
    if w == [] {
      assert path in l.words && path <= path;
    } else {
      var longer := path + [w[0].letter];
      if l.At(i) in l.g {
        RightWordPrefix(l, avail, longer, pl, i + 1, placed, w[1..], m);
      } else {
        RightWordPrefix(l, avail - multiset{Norm(w[0])}, longer, pl + [Placement(l.At(i), w[0])], i + 1, true, w[1..],
                        m);
      }
      var v :| v in l.words && longer <= v;
      assert path <= v;
    }
  }

  lemma {:induction false} LeftWithPrefix(l: Lane, avail: multiset<Tile>, part: seq<Tile>, a: int, limit: nat,
                                          more: seq<Tile>, m: seq<Placement>)
    requires LeftWith(l, avail, part, a, limit, more, m)
    ensures exists v :: v in l.words && PartLetters(part) <= v
    decreases |more|
  {
    if more == [] {
      var w :| RightWord(l, avail, PartLetters(part), LeftPlacements(l, part, a), a, false, w, m);
      RightWordPrefix(l, avail, PartLetters(part), LeftPlacements(l, part, a), a, false, w, m);
    } else {
      LeftWithPrefix(l, avail - multiset{Norm(more[0])}, part + [more[0]], a, limit - 1, more[1..], m);
      var v :| v in l.words && PartLetters(part + [more[0]]) <= v;
      PartLettersConcat(part, [more[0]]);
    }
  }

  // ---------- cross words ----------

  /** Checking a letter against the board before the move is checking the cross word that the validator
      extracts after it: the other new tiles are on other lines. */
  lemma CrossWordAfterMove(g: Grid, words: Lexicon, d: Direction, line: int, pl: seq<Placement>, j: nat)
    requires j < |pl| && Distinct(pl) && InBounds(pl[j].pos)
    requires forall i :: 0 <= i < |pl| ==> LineOf(d, pl[i].pos) == line
    ensures var after := After(g, pl);
            var cross := RunAt(after, Perpendicular(d), pl[j].pos);
            CrossOk(g, words, d, pl[j].pos, pl[j].tile.letter) <==>
            (cross.Length() < MIN_WORD_LENGTH || InDictionary(words, RunLetters(after, cross)))
  {
    var after, h, c := After(g, pl), g[pl[j].pos := Tile(pl[j].tile.letter, false)], Perpendicular(d);
    var k := IndexOf(d, pl[j].pos);
    PlacedIs(pl);
    assert Cell(c, k, line) == pl[j].pos;
    forall i | 0 <= i < BOARD_SIZE
      ensures Cell(c, k, i) in after <==> Cell(c, k, i) in h
      ensures TileAt(after, Cell(c, k, i)).letter == TileAt(h, Cell(c, k, i)).letter
    {
      assert LineOf(d, Cell(c, k, i)) == i;
    }
    WordsAreLocal(after, h, c, pl[j].pos);
  }

  /** A square without filled neighbours forms no cross word, whatever the letter. */
  lemma NonAnchorAllows(g: Grid, words: Lexicon, d: Direction, p: Pos, letter: LetterID)
    requires InBounds(p) && p !in g && !IsAnchor(g, p)
    ensures CrossOk(g, words, d, p, letter)
  {
    var h, c := g[p := Tile(letter, false)], Perpendicular(d);
    var line, k := LineOf(c, p), IndexOf(c, p);
    RunAtEnds(h, c, p);
    assert Cell(c, line, k) == p;
    assert Cell(c, line, k - 1) !in h && Cell(c, line, k + 1) !in h;
  }
}
