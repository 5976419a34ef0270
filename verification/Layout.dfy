/** The premium squares of the board (goakt-scrabble/scrabble/board.go), listed one by one. */
module Layout {
  import opened Grids
  import opened Moves

  // ---------- symmetry ----------

  lemma SameTransposed(p: Pos)
    ensures StandardPremium(Pos(p.col, p.row)) == StandardPremium(p)
  {
  }

  lemma SameUpsideDown(p: Pos)
    ensures StandardPremium(Pos(14 - p.row, p.col)) == StandardPremium(p)
  {
  }

  lemma SameMirrored(p: Pos)
    ensures StandardPremium(Pos(p.row, 14 - p.col)) == StandardPremium(p)
  {
  }

  /** The layout is the same on either side of each diagonal and of each middle line. */
  lemma LayoutIsSymmetric(p: Pos)
    ensures StandardPremium(Pos(p.col, p.row)) == StandardPremium(p)
    ensures StandardPremium(Pos(14 - p.row, p.col)) == StandardPremium(p)
    ensures StandardPremium(Pos(p.row, 14 - p.col)) == StandardPremium(p)
  {
    SameTransposed(p);
    SameUpsideDown(p);
    SameMirrored(p);
  }

  // ---------- square by square ----------

  /** The columns of the premium squares in each row. */
  function Columns(kind: Premium, row: int): seq<int>
    requires kind != NoPremium
  {
    var r := if row > 7 then 14 - row else row;
    match kind
    case TripleWord => if r == 0 then [0, 7, 14] else if r == 7 then [0, 14] else []
    case DoubleWord => if 1 <= r <= 4 then [r, 14 - r] else if r == 7 then [7] else []
    case TripleLetter => if r == 1 then [5, 9] else if r == 5 then [1, 5, 9, 13] else []
    case DoubleLetter =>
      if r == 0 || r == 7 then [3, 11]
      else if r == 2 then [6, 8]
      else if r == 3 then [0, 7, 14]
      else if r == 6 then [2, 6, 8, 12]
      else []
  }

  /** The premium squares are the listed ones. */
  lemma LayoutIs(kind: Premium, p: Pos)
    requires kind != NoPremium && InBounds(p)
    ensures StandardPremium(p) == kind <==> p.col in Columns(kind, p.row)
  {
  }

  /** Squares of a kind among the first `n` of a row. */
  function RowCount(kind: Premium, row: int, n: nat): nat {
    if n == 0 then 0 else RowCount(kind, row, n - 1) + (if StandardPremium(Pos(row, n - 1)) == kind then 1 else 0)
  }

  /** How many of the first `k` numbers of a list are below `n`. */
  function Below(cols: seq<int>, k: nat, n: int): nat
    requires k <= |cols|
  {
    if k == 0 then 0 else Below(cols, k - 1, n) + (if cols[k - 1] < n then 1 else 0)
  }

  predicate Increasing(cols: seq<int>) {
    forall i, j :: 0 <= i < j < |cols| ==> cols[i] < cols[j]
  }

  lemma {:induction false} BelowNext(cols: seq<int>, k: nat, n: int)
    requires k <= |cols| && Increasing(cols)
    ensures Below(cols, k, n + 1) == Below(cols, k, n) + (if n in cols[..k] then 1 else 0)
    decreases k
  {
    if k > 0 {
      BelowNext(cols, k - 1, n);
      assert cols[..k] == cols[..k - 1] + [cols[k - 1]];
    }
  }

  lemma {:induction false} BelowAll(cols: seq<int>, k: nat, n: int)
    requires k <= |cols|
    ensures (forall i :: 0 <= i < |cols| ==> cols[i] < n) ==> Below(cols, k, n) == k
    ensures (forall i :: 0 <= i < |cols| ==> cols[i] >= n) ==> Below(cols, k, n) == 0
    decreases k
  {
    if k > 0 {
      BelowAll(cols, k - 1, n);
    }
  }

  lemma ColumnsOk(kind: Premium, row: int)
    requires kind != NoPremium && 0 <= row < BOARD_SIZE
    ensures Increasing(Columns(kind, row))
    ensures forall i :: 0 <= i < |Columns(kind, row)| ==> 0 <= Columns(kind, row)[i] < BOARD_SIZE
  {
  }

  lemma {:induction false} RowCountIs(kind: Premium, row: int, n: nat)
    requires kind != NoPremium && 0 <= row < BOARD_SIZE && n <= BOARD_SIZE
    ensures RowCount(kind, row, n) == Below(Columns(kind, row), |Columns(kind, row)|, n)
    decreases n
  {
    var cols := Columns(kind, row);
    ColumnsOk(kind, row);
    if n == 0 {
      BelowAll(cols, |cols|, 0);
    } else {
      RowCountIs(kind, row, n - 1);
      LayoutIs(kind, Pos(row, n - 1));
      BelowNext(cols, |cols|, n - 1);
      assert cols[..|cols|] == cols;
    }
  }

  /** A row has as many squares of a kind as are listed. */
  lemma FullRowCount(kind: Premium, row: int)
    requires kind != NoPremium && 0 <= row < BOARD_SIZE
    ensures RowCount(kind, row, BOARD_SIZE) == |Columns(kind, row)|
  {
    RowCountIs(kind, row, BOARD_SIZE);
    ColumnsOk(kind, row);
    BelowAll(Columns(kind, row), |Columns(kind, row)|, BOARD_SIZE);
  }

  /** Squares of a kind in the first `n` rows. */
  function CountTo(kind: Premium, n: nat): nat {
    if n == 0 then 0 else CountTo(kind, n - 1) + RowCount(kind, n - 1, BOARD_SIZE)
  }

  /** How many there are in the first `n` rows. */
  function Known(kind: Premium, n: nat): nat
    requires kind != NoPremium
  {
    if n == 0 then 0 else Known(kind, n - 1) + |Columns(kind, n - 1)|
  }

  lemma {:induction false} CountIs(kind: Premium, n: nat)
    requires kind != NoPremium && n <= BOARD_SIZE
    ensures CountTo(kind, n) == Known(kind, n)
    decreases n
  {
    if n > 0 {
      CountIs(kind, n - 1);
      FullRowCount(kind, n - 1);
    }
  }

  /** `k` squares once row `row` is among the first `n`. */
  function After(row: nat, n: nat, k: nat): nat {
    if row < n then k else 0
  }

  lemma {:induction false} KnownTripleWords(n: nat)
    requires n <= BOARD_SIZE
    ensures Known(TripleWord, n) ==
            After(0, n, 3) + After(7, n, 2) + After(14, n, 3)
    decreases n
  {
    if n > 0 {
      KnownTripleWords(n - 1);
    }
  }

  lemma {:induction false} KnownDoubleWords(n: nat)
    requires n <= BOARD_SIZE
    ensures Known(DoubleWord, n) ==
            After(1, n, 2) + After(2, n, 2) + After(3, n, 2) + After(4, n, 2) + After(7, n, 1) +
            After(10, n, 2) + After(11, n, 2) + After(12, n, 2) + After(13, n, 2)
    decreases n
  {
    if n > 0 {
      KnownDoubleWords(n - 1);
    }
  }

  lemma {:induction false} KnownTripleLetters(n: nat)
    requires n <= BOARD_SIZE
    ensures Known(TripleLetter, n) ==
            After(1, n, 2) + After(5, n, 4) + After(9, n, 4) + After(13, n, 2)
    decreases n
  {
    if n > 0 {
      KnownTripleLetters(n - 1);
    }
  }

  lemma {:induction false} KnownDoubleLetters(n: nat)
    requires n <= BOARD_SIZE
    ensures Known(DoubleLetter, n) ==
            After(0, n, 2) + After(2, n, 2) + After(3, n, 3) + After(6, n, 4) + After(7, n, 2) +
            After(8, n, 4) + After(11, n, 3) + After(12, n, 2) + After(14, n, 2)
    decreases n
  {
    if n > 0 {
      KnownDoubleLetters(n - 1);
    }
  }

  lemma TripleWordCount(rows: nat)
    requires rows == BOARD_SIZE
    ensures CountTo(TripleWord, rows) == 8
  {
    CountIs(TripleWord, rows);
    KnownTripleWords(rows);
  }

  lemma DoubleWordCount(rows: nat)
    requires rows == BOARD_SIZE
    ensures CountTo(DoubleWord, rows) == 17
  {
    CountIs(DoubleWord, rows);
    KnownDoubleWords(rows);
  }

  lemma TripleLetterCount(rows: nat)
    requires rows == BOARD_SIZE
    ensures CountTo(TripleLetter, rows) == 12
  {
    CountIs(TripleLetter, rows);
    KnownTripleLetters(rows);
  }

  lemma DoubleLetterCount(rows: nat)
    requires rows == BOARD_SIZE
    ensures CountTo(DoubleLetter, rows) == 24
  {
    CountIs(DoubleLetter, rows);
    KnownDoubleLetters(rows);
  }

  /** Eight triple words, seventeen double words with the centre among them, twelve triple letters and twenty-four
      double letters. */
  lemma LayoutCounts(rows: nat)
    requires rows == BOARD_SIZE
    ensures CountTo(TripleWord, rows) == 8 && CountTo(DoubleWord, rows) == 17
    ensures CountTo(TripleLetter, rows) == 12 && CountTo(DoubleLetter, rows) == 24
    ensures StandardPremium(CENTER) == DoubleWord
  {
    TripleWordCount(rows);
    DoubleWordCount(rows);
    TripleLetterCount(rows);
    DoubleLetterCount(rows);
  }
}
