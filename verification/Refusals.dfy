/** Why a move is refused: for each error of the validator the condition on the board and the move under which it, and
    no other, is the answer. */
module Refusals {
  import opened Wrappers
  import opened Tiles
  import opened Grids
  import opened Moves
  import opened MoveLaws

  // ---------- the conditions ----------

  /** Nothing is wrong with placement `i` by itself and those before it. */
  predicate Fine(g: Grid, pl: seq<Placement>, i: nat)
    requires i < |pl|
  {
    InBounds(pl[i].pos) && !pl[i].tile.IsUnassignedBlank() && !Repeated(pl, i) && pl[i].pos !in g
  }

  predicate Repeated(pl: seq<Placement>, i: nat)
    requires i < |pl|
  {
    exists j :: 0 <= j < i && pl[j].pos == pl[i].pos
  }

  /** What is wrong with a placement: that it is off the board, or else that it is a blank without a letter, or else
      that its square is taken by the same move, or else by an earlier one. */
  predicate Wrong(g: Grid, pl: seq<Placement>, i: nat, e: MoveError)
    requires i < |pl|
  {
    match e
    case OutOfBounds => !InBounds(pl[i].pos)
    case UnassignedBlank => InBounds(pl[i].pos) && pl[i].tile.IsUnassignedBlank()
    case DuplicatePlacement => InBounds(pl[i].pos) && !pl[i].tile.IsUnassignedBlank() && Repeated(pl, i)
    case SquareOccupied =>
      InBounds(pl[i].pos) && !pl[i].tile.IsUnassignedBlank() && !Repeated(pl, i) && pl[i].pos in g
    case _ => false
  }

  /** The first placement that is not fine is wrong in this way. */
  predicate FirstWrong(g: Grid, pl: seq<Placement>, e: MoveError) {
    exists i :: 0 <= i < |pl| && Wrong(g, pl, i, e) && forall j :: 0 <= j < i ==> Fine(g, pl, j)
  }

  predicate InOneRow(pl: seq<Placement>) {
    forall i, j :: 0 <= i < |pl| && 0 <= j < |pl| ==> pl[i].pos.row == pl[j].pos.row
  }

  predicate InOneColumn(pl: seq<Placement>) {
    forall i, j :: 0 <= i < |pl| && 0 <= j < |pl| ==> pl[i].pos.col == pl[j].pos.col
  }

  ghost predicate InOneRun(g: Grid, pl: seq<Placement>) {
    exists r :: IsRun(After(g, pl), r) && Covers(r, Positions(pl))
  }

  ghost predicate MakesWord(g: Grid, pl: seq<Placement>) {
    exists r :: NewWord(After(g, pl), Positions(pl), r)
  }

  ghost predicate TouchesOld(g: Grid, pl: seq<Placement>) {
    exists r :: NewWord(After(g, pl), Positions(pl), r) && Touches(r, g.Keys)
  }

  /** A new word that the dictionary does not have. */
  ghost predicate Unknown(g: Grid, pl: seq<Placement>, words: Lexicon, r: Run) {
    NewWord(After(g, pl), Positions(pl), r) && !InDictionary(words, RunLetters(After(g, pl), r))
  }

  /** The word along the move comes first, and then the words across it from its start to its end. */
  predicate Earlier(d: Direction, r: Run, q: Run) {
    r == q || (r.dir == d && q.dir != d) || (r.dir != d && q.dir != d && r.line < q.line)
  }

  function Along(pl: seq<Placement>): Direction {
    if InOneRow(pl) then Horizontal else Vertical
  }

  /** `w` is what is written on the squares of `r`. */
  predicate Reads(g: Grid, r: Run, w: string, lang: Language)
    requires lang.WellFormed() && GridHas(lang, g)
  {
    |w| == r.Length() &&
    forall k :: 0 <= k < |w| ==> w[k] == lang.letters[TileAt(g, Cell(r.dir, r.line, r.start + k)).letter]
  }

  ghost predicate ComesFirst(g: Grid, pl: seq<Placement>, words: Lexicon, r: Run) {
    Unknown(g, pl, words, r) && forall q :: Unknown(g, pl, words, q) ==> Earlier(Along(pl), r, q)
  }

  /** The first word that the dictionary does not have reads `w`. */
  ghost predicate FirstUnknown(g: Grid, pl: seq<Placement>, words: Lexicon, lang: Language, w: string)
    requires lang.WellFormed() && GridHas(lang, After(g, pl))
  {
    exists r :: ComesFirst(g, pl, words, r) && Reads(After(g, pl), r, w, lang)
  }

  /** When each error is the answer. */
  ghost predicate Refused(g: Grid, pl: seq<Placement>, words: Lexicon, lang: Language, e: MoveError)
    requires lang.WellFormed() && GridHas(lang, After(g, pl))
  {
    match e
    case EmptyMove => pl == []
    case TooManyPlacements => |pl| > RACK_SIZE
    case NotOnLine => WellPlaced(g, pl) && !InOneRow(pl) && !InOneColumn(pl)
    case NotContiguous => WellPlaced(g, pl) && (InOneRow(pl) || InOneColumn(pl)) && !InOneRun(g, pl)
    case NoWordFormed => WellPlaced(g, pl) && InOneRun(g, pl) && !MakesWord(g, pl)
    case FirstMoveMustCoverCenter =>
      WellPlaced(g, pl) && InOneRun(g, pl) && MakesWord(g, pl) && g == map[] && CENTER !in Positions(pl)
    case MustTouchExisting =>
      WellPlaced(g, pl) && InOneRun(g, pl) && MakesWord(g, pl) && g != map[] && !TouchesOld(g, pl)
    case InvalidWord(w) =>
      && WellPlaced(g, pl) && InOneRun(g, pl)
      && (if g == map[] then CENTER in Positions(pl) else TouchesOld(g, pl))
      && FirstUnknown(g, pl, words, lang, w)
    case _ => 1 <= |pl| <= RACK_SIZE && FirstWrong(g, pl, e)
  }

  // ---------- the placements ----------

  lemma RepeatedIs(pl: seq<Placement>, i: nat)
    requires i < |pl|
    ensures pl[i].pos in Positions(pl[..i]) <==> Repeated(pl, i)
  {
    if Repeated(pl, i) {
      var j :| 0 <= j < i && pl[j].pos == pl[i].pos;
      assert pl[..i][j].pos in Positions(pl[..i]);
    }
  }

  lemma FaultIs(g: Grid, pl: seq<Placement>, i: nat, e: MoveError)
    requires i < |pl|
    ensures Fault(g, pl, i).None? <==> Fine(g, pl, i)
    ensures Fault(g, pl, i) == Some(e) <==> Wrong(g, pl, i, e)
  {
    RepeatedIs(pl, i);
  }

  /** Every faulty list has a first fault. */
  lemma {:induction false} FirstFaultIs(g: Grid, pl: seq<Placement>, n: nat)
    requires n <= |pl|
    ensures FirstFault(g, pl, n).None? ==> forall j :: 0 <= j < n ==> Fine(g, pl, j)
    ensures FirstFault(g, pl, n).Some? ==> FirstWrong(g, pl, FirstFault(g, pl, n).value)
    decreases n
  {
    if n > 0 {
      FirstFaultIs(g, pl, n - 1);
      FaultIs(g, pl, n - 1, EmptyMove);
      if Fault(g, pl, n - 1).Some? {
        FaultIs(g, pl, n - 1, Fault(g, pl, n - 1).value);
      }
    }
  }

  lemma WellPlacedIsFine(g: Grid, pl: seq<Placement>, e: MoveError)
    requires WellPlaced(g, pl)
    ensures !FirstWrong(g, pl, e)
  {
  }

  lemma FirstWrongUnique(g: Grid, pl: seq<Placement>, e: MoveError, f: MoveError)
    requires FirstWrong(g, pl, e) && FirstWrong(g, pl, f)
    ensures e == f
  {
    var i :| 0 <= i < |pl| && Wrong(g, pl, i, e) && forall j :: 0 <= j < i ==> Fine(g, pl, j);
    var k :| 0 <= k < |pl| && Wrong(g, pl, k, f) && forall j :: 0 <= j < k ==> Fine(g, pl, j);
    assert !Fine(g, pl, i) && !Fine(g, pl, k);
    assert i == k;
  }

  // ---------- the words ----------

  lemma {:induction false} SpellIs(g: Grid, d: Direction, line: int, s: int, e: int, lang: Language, k: nat)
    requires s <= e && lang.WellFormed() && GridHas(lang, g)
    ensures |Spell(g, d, line, s, e, lang)| == e - s
    ensures k < e - s ==> Spell(g, d, line, s, e, lang)[k] == lang.letters[TileAt(g, Cell(d, line, s + k)).letter]
    decreases e - s
  {
    if s < e {
      SpellIs(g, d, line, s + 1, e, lang, if k > 0 then k - 1 else 0);
    }
  }

  /** The reported spelling of a word is what is written on its squares. */
  lemma SpellingReads(g: Grid, r: Run, lang: Language)
    requires r.start <= r.end && lang.WellFormed() && GridHas(lang, g)
    ensures Reads(g, r, SpellRun(g, r, lang), lang)
  {
    var w := SpellRun(g, r, lang);
    SpellIs(g, r.dir, r.line, r.start, r.end, lang, 0);
    forall k | 0 <= k < |w|
      ensures w[k] == lang.letters[TileAt(g, Cell(r.dir, r.line, r.start + k)).letter]
    {
      SpellIs(g, r.dir, r.line, r.start, r.end, lang, k);
    }
  }

  lemma ReadsUnique(g: Grid, r: Run, w: string, v: string, lang: Language)
    requires lang.WellFormed() && GridHas(lang, g) && Reads(g, r, w, lang) && Reads(g, r, v, lang)
    ensures w == v
  {
  }

  /** The collected words are in that order. */
  predicate InOrder(runs: seq<Run>, d: Direction) {
    forall i, j :: 0 <= i < j < |runs| ==> Earlier(d, runs[i], runs[j])
  }

  lemma {:induction false} CrossInOrder(after: Grid, pl: seq<Placement>, n: nat, d: Direction)
    requires n <= |pl| && InBoundsAll(pl) && Distinct(pl) && SameLine(pl, d) && Ordered(pl, d)
    ensures InOrder(CrossRuns(after, pl, n, d), d)
    ensures forall r :: r in CrossRuns(after, pl, n, d) ==>
              r.dir != d && (n < |pl| ==> r.line < IndexOf(d, pl[n].pos))
    decreases n
  {
    if n > 0 {
      CrossInOrder(after, pl, n - 1, d);
      var less, all := CrossRuns(after, pl, n - 1, d), CrossRuns(after, pl, n, d);
      if n < |pl| {
        assert pl[n - 1].pos != pl[n].pos && Before(d, pl[n - 1].pos, pl[n].pos);
        assert LineOf(d, pl[n - 1].pos) == LineOf(d, pl[n].pos);
      }
      forall i, j | 0 <= i < j < |all|
        ensures Earlier(d, all[i], all[j])
      {
        assert all[i] == less[i] && all[i] in less;
        if j < |less| {
          assert all[j] == less[j];
        }
      }
    }
  }

  lemma CollectedInOrder(g: Grid, pl: seq<Placement>, d: Direction)
    requires Lined(g, pl, d) && InBoundsAll(pl)
    ensures InOrder(CollectRuns(After(g, pl), pl, d), d)
  {
    var after := After(g, pl);
    CrossInOrder(after, pl, |pl|, d);
    var runs, cross := CollectRuns(after, pl, d), CrossRuns(after, pl, |pl|, d);
    var m := |runs| - |cross|;
    forall i, j | 0 <= i < j < |runs|
      ensures Earlier(d, runs[i], runs[j])
    {
      assert runs[j] == cross[j - m] && runs[j] in cross;
      if i >= m {
        assert runs[i] == cross[i - m];
      }
    }
  }

  /** A tally that fails stops at the first run that is not in the dictionary. */
  lemma {:induction false} TallyStops(after: Grid, runs: seq<Run>, n: nat, added: set<Pos>, words: Lexicon,
                                      lang: Language) returns (k: nat)
    requires n <= |runs| && RunsOk(runs) && lang.WellFormed() && GridHas(lang, after)
    requires Tally(after, runs, n, added, words, lang).Err?
    ensures k < n && !InDictionary(words, RunLetters(after, runs[k]))
    ensures Tally(after, runs, n, added, words, lang) == Err(InvalidWord(SpellRun(after, runs[k], lang)))
    ensures forall i :: 0 <= i < k ==> InDictionary(words, RunLetters(after, runs[i]))
    decreases n
  {
    if Tally(after, runs, n - 1, added, words, lang).Err? {
      k := TallyStops(after, runs, n - 1, added, words, lang);
    } else {
      TallyAccepts(after, runs, n - 1, added, words, lang);
      k := n - 1;
    }
  }

  lemma FirstOfList(g: Grid, pl: seq<Placement>, runs: seq<Run>, words: Lexicon, k: nat)
    requires RunsOk(runs) && InOrder(runs, Along(pl))
    requires forall r :: r in runs <==> NewWord(After(g, pl), Positions(pl), r)
    requires k < |runs| && !InDictionary(words, RunLetters(After(g, pl), runs[k]))
    requires forall i :: 0 <= i < k ==> InDictionary(words, RunLetters(After(g, pl), runs[i]))
    ensures ComesFirst(g, pl, words, runs[k])
  {
    assert runs[k] in runs;
    forall q | Unknown(g, pl, words, q)
      ensures Earlier(Along(pl), runs[k], q)
    {
      assert q in runs;
      var i :| 0 <= i < |runs| && runs[i] == q;
      assert i >= k;
    }
  }

  lemma FirstUnknownIs(g: Grid, pl: seq<Placement>, runs: seq<Run>, words: Lexicon, lang: Language)
    requires lang.WellFormed() && GridHas(lang, After(g, pl)) && RunsOk(runs) && InOrder(runs, Along(pl))
    requires forall r :: r in runs <==> NewWord(After(g, pl), Positions(pl), r)
    requires Tally(After(g, pl), runs, |runs|, Positions(pl), words, lang).Err?
    ensures var e := Tally(After(g, pl), runs, |runs|, Positions(pl), words, lang).error;
            e.InvalidWord? && FirstUnknown(g, pl, words, lang, e.word)
  {
    var after := After(g, pl);
    var k := TallyStops(after, runs, |runs|, Positions(pl), words, lang);
    SpellingReads(after, runs[k], lang);
    FirstOfList(g, pl, runs, words, k);
  }

  // ---------- the answer ----------

  lemma SettleRefuses(g: Grid, pl: seq<Placement>, runs: seq<Run>, words: Lexicon, lang: Language)
    requires WellPlaced(g, pl) && InOneRun(g, pl) && InOrder(runs, Along(pl))
    requires lang.WellFormed() && GridHas(lang, After(g, pl)) && RunsOk(runs)
    requires forall r :: r in runs <==> NewWord(After(g, pl), Positions(pl), r)
    requires Settle(g, After(g, pl), runs, Positions(pl), |pl|, words, lang).Err?
    ensures Refused(g, pl, words, lang, Settle(g, After(g, pl), runs, Positions(pl), |pl|, words, lang).error)
  {
    ExtendsExistingIsTouching(g, pl, runs);
    assert runs == [] <==> !MakesWord(g, pl) by {
      assert runs != [] ==> runs[0] in runs;
    }
    assert TouchesOld(g, pl) <==> ExtendsExisting(runs, Positions(pl));
    if Tally(After(g, pl), runs, |runs|, Positions(pl), words, lang).Err? {
      FirstUnknownIs(g, pl, runs, words, lang);
    }
  }

  /** The engine's direction is the direction of the move. */
  lemma DirectionIs(pl: seq<Placement>)
    requires pl != []
    ensures LineDirection(pl) == if InOneRow(pl) then Some(Horizontal) else if InOneColumn(pl) then Some(Vertical)
            else None
    ensures LineDirection(pl).Some? ==> SameLine(pl, LineDirection(pl).value)
  {
    assert SameLine(pl, Horizontal) <==> InOneRow(pl);
    assert SameLine(pl, Vertical) <==> InOneColumn(pl);
  }

  lemma SortedSame(g: Grid, pl: seq<Placement>, d: Direction)
    requires WellPlaced(g, pl) && SameLine(pl, d)
    ensures var s := Sorted(pl, d);
            && WellPlaced(g, s) && Ordered(s, d) && SameLine(s, d) && InBoundsAll(s) && |s| == |pl|
            && After(g, s) == After(g, pl) && Positions(s) == Positions(pl)
            && (Contiguous(g, s, d) <==> InOneRun(g, pl))
  {
    SortingKeepsMove(g, pl, d);
    var s := Sorted(pl, d);
    if Contiguous(g, s, d) {
      MainRun(g, s, d);
    }
    if InOneRun(g, pl) && |pl| > 1 {
      var r :| IsRun(After(g, pl), r) && Covers(r, Positions(pl));
      OneRunFixesLine(g, s, d, r);
      OneRunHasNoGap(g, s, r);
    }
  }

  lemma OneRunFixesLine(g: Grid, pl: seq<Placement>, d: Direction, r: Run)
    requires WellPlaced(g, pl) && SameLine(pl, d) && |pl| > 1 && Covers(r, Positions(pl))
    ensures r.dir == d
  {
    assert pl[0].pos in Positions(pl) && pl[1].pos in Positions(pl);
    assert pl[0].pos != pl[1].pos && LineOf(d, pl[0].pos) == LineOf(d, pl[1].pos);
  }

  lemma JudgeRefuses(g: Grid, pl: seq<Placement>, d: Direction, words: Lexicon, lang: Language)
    requires WellPlaced(g, pl) && LineDirection(pl) == Some(d)
    requires lang.WellFormed() && GridHas(lang, g) && AllHas(lang, pl)
    requires Outcome(g, pl, words, lang).Err?
    ensures GridHas(lang, After(g, pl)) && Refused(g, pl, words, lang, Outcome(g, pl, words, lang).error)
  {
    NoFaultIsWellPlaced(g, pl);
    AfterHas(lang, g, pl);
    DirectionIs(pl);
    SortedSame(g, pl, d);
    SortedKeeps(pl, d);
    var s := Sorted(pl, d);
    if Contiguous(g, s, d) {
      CollectedAreTheNewWords(g, s, d);
      CollectedInOrder(g, s, d);
      CollectRunsOk(After(g, s), s, d);
      SettleRefuses(g, pl, CollectRuns(After(g, s), s, d), words, lang);
    }
  }

  lemma ErrorIsRefused(g: Grid, pl: seq<Placement>, words: Lexicon, lang: Language)
    requires lang.WellFormed() && GridHas(lang, g) && AllHas(lang, pl)
    requires Outcome(g, pl, words, lang).Err?
    ensures GridHas(lang, After(g, pl)) && Refused(g, pl, words, lang, Outcome(g, pl, words, lang).error)
  {
    AfterHas(lang, g, pl);
    NoFaultIsWellPlaced(g, pl);
    if !WellPlaced(g, pl) {
      FirstFaultIs(g, pl, |pl|);
    } else if LineDirection(pl).None? {
      DirectionIs(pl);
    } else {
      JudgeRefuses(g, pl, LineDirection(pl).value, words, lang);
    }
  }

  lemma FirstUnknownUnique(g: Grid, pl: seq<Placement>, words: Lexicon, lang: Language, w: string, v: string)
    requires lang.WellFormed() && GridHas(lang, After(g, pl))
    requires FirstUnknown(g, pl, words, lang, w) && FirstUnknown(g, pl, words, lang, v)
    ensures w == v
  {
    var r :| ComesFirst(g, pl, words, r) && Reads(After(g, pl), r, w, lang);
    var s :| ComesFirst(g, pl, words, s) && Reads(After(g, pl), s, v, lang);
    assert Earlier(Along(pl), r, s) && Earlier(Along(pl), s, r);
    ReadsUnique(After(g, pl), r, w, v, lang);
  }

  lemma OneRunIsOneLine(g: Grid, pl: seq<Placement>)
    requires WellPlaced(g, pl) && InOneRun(g, pl)
    ensures InOneRow(pl) || InOneColumn(pl)
  {
    var r :| IsRun(After(g, pl), r) && Covers(r, Positions(pl));
    OneRunIsLined(g, pl, r);
    DirectionIs(pl);
  }

  lemma UnknownMakesWord(g: Grid, pl: seq<Placement>, words: Lexicon, lang: Language, w: string)
    requires lang.WellFormed() && GridHas(lang, After(g, pl)) && FirstUnknown(g, pl, words, lang, w)
    ensures MakesWord(g, pl)
  {
  }

  /** The conditions exclude each other. */
  lemma RefusedUnique(g: Grid, pl: seq<Placement>, words: Lexicon, lang: Language, e: MoveError, f: MoveError)
    requires lang.WellFormed() && GridHas(lang, After(g, pl))
    requires Refused(g, pl, words, lang, e) && Refused(g, pl, words, lang, f)
    ensures e == f
  {
    if WellPlaced(g, pl) {
      WellPlacedIsFine(g, pl, e);
      WellPlacedIsFine(g, pl, f);
      if InOneRun(g, pl) {
        OneRunIsOneLine(g, pl);
      }
      if e.InvalidWord? {
        UnknownMakesWord(g, pl, words, lang, e.word);
      }
      if f.InvalidWord? {
        UnknownMakesWord(g, pl, words, lang, f.word);
      }
      if e.InvalidWord? && f.InvalidWord? {
        FirstUnknownUnique(g, pl, words, lang, e.word, f.word);
      }
    } else if FirstWrong(g, pl, e) && FirstWrong(g, pl, f) {
      FirstWrongUnique(g, pl, e, f);
    }
  }

  lemma RefusedIsIllegal(g: Grid, pl: seq<Placement>, words: Lexicon, lang: Language, e: MoveError)
    requires lang.WellFormed() && GridHas(lang, After(g, pl)) && Refused(g, pl, words, lang, e)
    ensures !Legal(g, words, pl)
  {
    if Legal(g, words, pl) {
      WellPlacedIsFine(g, pl, e);
      assert InOneRun(g, pl) && MakesWord(g, pl);
      OneRunIsOneLine(g, pl);
      assert g != map[] ==> TouchesOld(g, pl);
    }
  }

  /** The validator answers with an error exactly under its condition. */
  lemma RefusedIff(g: Grid, pl: seq<Placement>, words: Lexicon, lang: Language, e: MoveError)
    requires lang.WellFormed() && GridHas(lang, g) && AllHas(lang, pl)
    ensures GridHas(lang, After(g, pl))
    ensures Outcome(g, pl, words, lang) == Err(e) <==> Refused(g, pl, words, lang, e)
  {
    AfterHas(lang, g, pl);
    if Outcome(g, pl, words, lang).Err? {
      ErrorIsRefused(g, pl, words, lang);
    } else {
      AcceptedIffLegal(g, pl, words, lang);
    }
    if Refused(g, pl, words, lang, e) {
      RefusedIsIllegal(g, pl, words, lang, e);
      RefusedUnique(g, pl, words, lang, e, Outcome(g, pl, words, lang).error);
    }
  }
}
