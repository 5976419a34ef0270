/** The cross-check tables and the anchor grid of the move generator (goakt-scrabble/scrabble/bot.go). */
module CrossChecks {
  import opened Tiles
  import opened Grids
  import opened Moves
  import opened Search
  import opened Boards
  import opened Dawgs

  /** The width of one entry of the table. */
  const WIDTH := 32

  /** The letters that a 32-bit word can hold: bit `i` is letter `i`, and a bit past the width is lost. */
  function Bit(i: nat): set<nat> {
    if i < WIDTH then {i} else {}
  }

  function AllLettersMask(n: nat): (bits: set<nat>)
    ensures forall i: nat :: i in bits <==> i < n && i < WIDTH
  {
    if n == 0 then {} else AllLettersMask(n - 1) + Bit(n - 1)
  }

  // ---------- letters on both sides of a square ----------

  function Reversed(s: seq<LetterID>): (r: seq<LetterID>)
    ensures |r| == |s|
  {
    if s == [] then [] else Reversed(s[1..]) + [s[0]]
  }

  lemma {:induction false} ReversedAt(s: seq<LetterID>, k: nat)
    requires k < |s|
    ensures Reversed(s)[k] == s[|s| - 1 - k]
    decreases |s|
  {
    if k < |s| - 1 {
      ReversedAt(s[1..], k);
    }
  }

  lemma ReversedTwice(s: seq<LetterID>)
    ensures Reversed(Reversed(s)) == s
  {
    forall k | 0 <= k < |s|
      ensures Reversed(Reversed(s))[k] == s[k]
    {
      ReversedAt(Reversed(s), k);
      ReversedAt(s, |s| - 1 - k);
    }
  }

  /** Swaps the ends of the slice until they meet. */
  method ReverseInPlace(s: seq<LetterID>) returns (r: seq<LetterID>)
    ensures r == Reversed(s)
  {
    r := s;
    var i, j := 0, |s| - 1;
    while i < j
      invariant 0 <= i && i + j == |s| - 1 && |r| == |s|
      invariant forall k :: 0 <= k < |s| && (k < i || k > j) ==> r[k] == s[|s| - 1 - k]
      invariant forall k :: i <= k <= j ==> r[k] == s[k]
      decreases j - i
    {
      r := r[i := r[j]][j := r[i]];
      i, j := i + 1, j - 1;
    }
    forall k | 0 <= k < |s|
      ensures r[k] == Reversed(s)[k]
    {
      ReversedAt(s, k);
    }
  }

  /** Letters from offset `k` backwards until an empty square. */
  method WalkExistingBack(board: Board, d: Direction, line: int, k: int) returns (out: seq<LetterID>)
    requires board.Valid() && 0 <= line < BOARD_SIZE && -1 <= k < BOARD_SIZE
    ensures out == Reversed(Letters(board.Grid(), d, line, RunStart(board.Grid(), d, line, k + 1), k + 1))
  {
    out := [];
    var cur := k;
    while cur >= 0 && board.At(Cell(d, line, cur)).filled
      invariant -1 <= cur <= k
      invariant RunStart(board.Grid(), d, line, cur + 1) == RunStart(board.Grid(), d, line, k + 1)
      invariant out == Reversed(Letters(board.Grid(), d, line, cur + 1, k + 1))
    {
      out := out + [board.At(Cell(d, line, cur)).tile.letter];
      assert Letters(board.Grid(), d, line, cur, k + 1)[1..] == Letters(board.Grid(), d, line, cur + 1, k + 1);
      cur := cur - 1;
    }
  }

  /** Letters from offset `k` forwards until an empty square. */
  method WalkExisting(board: Board, d: Direction, line: int, k: int) returns (out: seq<LetterID>)
    requires board.Valid() && 0 <= line < BOARD_SIZE && 0 <= k <= BOARD_SIZE
    ensures out == Letters(board.Grid(), d, line, k, RunEnd(board.Grid(), d, line, k))
  {
    out := [];
    var cur := k;
    while cur < BOARD_SIZE && board.At(Cell(d, line, cur)).filled
      invariant k <= cur <= BOARD_SIZE
      invariant RunEnd(board.Grid(), d, line, cur) == RunEnd(board.Grid(), d, line, k)
      invariant out == Letters(board.Grid(), d, line, k, cur)
    {
      out := out + [board.At(Cell(d, line, cur)).tile.letter];
      LettersSplit(board.Grid(), d, line, k, cur, cur + 1);
      cur := cur + 1;
    }
  }

  function PrefixOf(g: Grid, c: Direction, p: Pos): seq<LetterID>
    requires InBounds(p)
  {
    Letters(g, c, LineOf(c, p), RunStart(g, c, LineOf(c, p), IndexOf(c, p)), IndexOf(c, p))
  }

  function SuffixOf(g: Grid, c: Direction, p: Pos): seq<LetterID>
    requires InBounds(p)
  {
    Letters(g, c, LineOf(c, p), IndexOf(c, p) + 1, RunEnd(g, c, LineOf(c, p), IndexOf(c, p) + 1))
  }

  /** The perpendicular word around an empty square, with the letter put there. */
  function Candidate(g: Grid, c: Direction, p: Pos, letter: LetterID): seq<LetterID>
    requires InBounds(p)
  {
    PrefixOf(g, c, p) + [letter] + SuffixOf(g, c, p)
  }

  lemma CandidateLetters(g: Grid, c: Direction, p: Pos, letter: LetterID)
    requires InBounds(p) && p !in g
    ensures var h := g[p := Tile(letter, false)];
            RunLetters(h, RunAt(h, c, p)) == Candidate(g, c, p, letter)
  {
    var h, line, i := g[p := Tile(letter, false)], LineOf(c, p), IndexOf(c, p);
    var s, e := RunStart(g, c, line, i), RunEnd(g, c, line, i + 1);
    assert Cell(c, line, i) == p;
    SameEnds(g, h, c, line, i);
    LettersAgree(g, h, c, line, s, i);
    LettersAgree(g, h, c, line, i + 1, e);
    LettersSplit(h, c, line, s, i, e);
    Regroup(Letters(g, c, line, s, i), letter, Letters(g, c, line, i + 1, e));
  }

  lemma Regroup(a: seq<LetterID>, letter: LetterID, b: seq<LetterID>)
    ensures a + [letter] + b == a + ([letter] + b)
  {
  }

  /** The candidate is the cross word that the rule speaks of. */
  lemma CandidateIsCrossWord(g: Grid, words: Lexicon, d: Direction, p: Pos, letter: LetterID)
    requires InBounds(p) && p !in g
    ensures var w := Candidate(g, Perpendicular(d), p, letter);
            CrossOk(g, words, d, p, letter) <==> |w| == 1 || InDictionary(words, w)
  {
    CandidateLetters(g, Perpendicular(d), p, letter);
  }

  lemma SameEnds(g: Grid, h: Grid, c: Direction, line: int, i: int)
    requires 0 <= i < BOARD_SIZE && Cell(c, line, i) in h
    requires forall k :: 0 <= k < BOARD_SIZE && k != i ==> (Cell(c, line, k) in g <==> Cell(c, line, k) in h)
    ensures RunStart(h, c, line, i) == RunStart(g, c, line, i)
    ensures RunEnd(h, c, line, i) == RunEnd(g, c, line, i + 1)
  {
    var s, t := RunStart(g, c, line, i), RunStart(h, c, line, i);
    RunStartIs(g, c, line, i);
    RunStartIs(h, c, line, i);
    RunEndIs(g, c, line, i + 1);
    RunEndIs(h, c, line, i);
    assert s < t ==> Cell(c, line, t - 1) in g;
    assert t < s ==> Cell(c, line, s - 1) in h;
    var e, f := RunEnd(g, c, line, i + 1), RunEnd(h, c, line, i);
    assert e < f ==> Cell(c, line, e) in h;
    assert f < e && f > i ==> Cell(c, line, f) in g;
  }

  // ---------- the table ----------

  /** The entry for one empty square says which letters make no bad cross word there. */
  ghost predicate EntryOk(bits: set<nat>, g: Grid, words: Lexicon, d: Direction, p: Pos, n: nat)
    requires InBounds(p)
  {
    forall letter: LetterID :: letter < n ==> (letter in bits <==> CrossOk(g, words, d, p, letter))
  }

  /** The letters that make a word between `prefix` and `suffix`. */
  method Lookup(dawg: DAWG, n: nat, prefix: seq<LetterID>, suffix: seq<LetterID>) returns (bits: set<nat>)
    requires dawg.Valid() && n <= WIDTH
    ensures forall letter: LetterID :: letter < n ==>
            (letter in bits <==> InDictionary(dawg.words, prefix + [letter] + suffix))
  {
    bits := {};
    for id := 0 to n
      invariant forall letter: nat :: letter in bits ==> letter < id
      invariant forall letter: LetterID :: letter < id ==>
                  (letter in bits <==> InDictionary(dawg.words, prefix + [letter] + suffix))
    {
      var found := dawg.Contains(prefix + [id] + suffix);
      if found {
        bits := bits + Bit(id);
      }
    }
  }

  lemma LookupIsEntry(bits: set<nat>, g: Grid, words: Lexicon, d: Direction, p: Pos, n: nat, prefix: seq<LetterID>,
                      suffix: seq<LetterID>)
    requires InBounds(p) && p !in g && |prefix| + |suffix| > 0
    requires forall letter: LetterID :: letter < n ==>
             (letter in bits <==> InDictionary(words, prefix + [letter] + suffix))
    requires prefix == PrefixOf(g, Perpendicular(d), p) && suffix == SuffixOf(g, Perpendicular(d), p)
    ensures EntryOk(bits, g, words, d, p, n)
  {
    forall letter: LetterID | letter < n
      ensures letter in bits <==> CrossOk(g, words, d, p, letter)
    {
      CandidateIsCrossWord(g, words, d, p, letter);
    }
  }

  lemma NoNeighbours(g: Grid, words: Lexicon, d: Direction, p: Pos, n: nat)
    requires InBounds(p) && p !in g && n <= WIDTH
    requires PrefixOf(g, Perpendicular(d), p) == SuffixOf(g, Perpendicular(d), p) == []
    ensures EntryOk(AllLettersMask(n), g, words, d, p, n)
  {
    forall letter: LetterID | letter < n
      ensures CrossOk(g, words, d, p, letter)
    {
      CandidateIsCrossWord(g, words, d, p, letter);
    }
  }

  /** The tiles before and after a square. */
  method Neighbours(board: Board, c: Direction, p: Pos) returns (prefix: seq<LetterID>, suffix: seq<LetterID>)
    requires board.Valid() && InBounds(p)
    ensures prefix == PrefixOf(board.Grid(), c, p) && suffix == SuffixOf(board.Grid(), c, p)
  {
    ghost var g := board.Grid();
    var line, i := LineOf(c, p), IndexOf(c, p);
    var before := WalkExistingBack(board, c, line, i - 1);
    assert before == Reversed(PrefixOf(g, c, p));
    assert board.Valid() && board.Grid() == g;
    suffix := WalkExisting(board, c, line, i + 1);
    assert suffix == SuffixOf(g, c, p) && board.Grid() == g;
    ReversedTwice(PrefixOf(g, c, p));
    prefix := ReverseInPlace(before);
  }

  /** The letters allowed on one empty square by its perpendicular neighbours. */
  method Entry(board: Board, dawg: DAWG, n: nat, d: Direction, p: Pos) returns (bits: set<nat>)
    requires board.Valid() && dawg.Valid() && n <= WIDTH
    requires InBounds(p) && p !in board.Grid()
    ensures EntryOk(bits, board.Grid(), dawg.words, d, p, n)
  {
    ghost var g := board.Grid();
    var prefix, suffix := Neighbours(board, Perpendicular(d), p);
    assert dawg.Valid() && board.Grid() == g;
    if |prefix| == 0 && |suffix| == 0 {
      bits := AllLettersMask(n);
      NoNeighbours(g, dawg.words, d, p, n);
    } else {
      bits := Lookup(dawg, n, prefix, suffix);
      LookupIsEntry(bits, g, dawg.words, d, p, n, prefix, suffix);
    }
  }

  type Table = map<Pos, set<nat>>

  ghost predicate FilledUpTo(valid: Table, g: Grid, words: Lexicon, d: Direction, n: nat, p: Pos) {
    forall q :: InBounds(q) && Earlier(q, p) && q !in g ==> q in valid && EntryOk(valid[q], g, words, d, q, n)
  }

  /** Every empty square has its entry. */
  ghost predicate TableOk(valid: Table, g: Grid, words: Lexicon, d: Direction, n: nat) {
    forall q :: InBounds(q) && q !in g ==> q in valid && EntryOk(valid[q], g, words, d, q, n)
  }

  lemma FillStep(valid: Table, g: Grid, words: Lexicon, d: Direction, n: nat, p: Pos, bits: set<nat>)
    requires InBounds(p) && FilledUpTo(valid, g, words, d, n, p)
    ensures p in g ==> FilledUpTo(valid, g, words, d, n, Pos(p.row, p.col + 1))
    ensures EntryOk(bits, g, words, d, p, n) ==> FilledUpTo(valid[p := bits], g, words, d, n, Pos(p.row, p.col + 1))
  {
  }

  lemma NextRow(valid: Table, g: Grid, words: Lexicon, d: Direction, n: nat, row: int)
    requires FilledUpTo(valid, g, words, d, n, Pos(row, BOARD_SIZE))
    ensures FilledUpTo(valid, g, words, d, n, Pos(row + 1, 0))
  {
  }

  /** The table for words in direction `d`. */
  method ComputeCrossChecks(board: Board, dawg: DAWG, n: nat, d: Direction) returns (valid: Table)
    requires board.Valid() && dawg.Valid() && n <= WIDTH
    ensures TableOk(valid, board.Grid(), dawg.words, d, n)
  {
    ghost var g, words := board.Grid(), dawg.words;
    valid := map[];
    for row := 0 to BOARD_SIZE
      invariant FilledUpTo(valid, g, words, d, n, Pos(row, 0))
    {
      for col := 0 to BOARD_SIZE
        invariant FilledUpTo(valid, g, words, d, n, Pos(row, col))
      {
        if !board.At(Pos(row, col)).filled {
          var bits := Entry(board, dawg, n, d, Pos(row, col));
          FillStep(valid, g, words, d, n, Pos(row, col), bits);
          valid := valid[Pos(row, col) := bits];
        } else {
          FillStep(valid, g, words, d, n, Pos(row, col), {});
        }
      }
      NextRow(valid, g, words, d, n, row);
    }
  }

  // ---------- anchors ----------

  /** The grid marks exactly the anchors. */
  ghost predicate AnchorsOk(grid: set<Pos>, g: Grid) {
    forall q :: InBounds(q) ==> (q in grid <==> IsAnchor(g, q))
  }

  predicate HasFilledNeighbour(board: Board, p: Pos)
    requires board.Valid() && InBounds(p)
    reads board, board.squares
    ensures HasFilledNeighbour(board, p) <==> FilledNeighbour(board.Grid(), p)
  {
    var up, down, left, right :=
        Pos(p.row - 1, p.col), Pos(p.row + 1, p.col), Pos(p.row, p.col - 1), Pos(p.row, p.col + 1);
    || (InBounds(up) && board.At(up).filled)
    || (InBounds(down) && board.At(down).filled)
    || (InBounds(left) && board.At(left).filled)
    || (InBounds(right) && board.At(right).filled)
  }

  method BuildAnchorGrid(board: Board) returns (grid: set<Pos>)
    requires board.Valid()
    ensures AnchorsOk(grid, board.Grid())
  {
    grid := {};
    for row := 0 to BOARD_SIZE
      invariant forall q :: InBounds(q) ==> (q in grid <==> Earlier(q, Pos(row, 0)) && IsAnchor(board.Grid(), q))
    {
      for col := 0 to BOARD_SIZE
        invariant forall q :: InBounds(q) ==> (q in grid <==> Earlier(q, Pos(row, col)) && IsAnchor(board.Grid(), q))
      {
        if !board.At(Pos(row, col)).filled {
          if HasFilledNeighbour(board, Pos(row, col)) {
            grid := grid + {Pos(row, col)};
          }
        }
      }
    }
  }
}
