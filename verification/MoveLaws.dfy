/** The validator decides the rule: `Outcome` accepts exactly the `Legal` moves, the words that it reports are
    exactly the new words of the board, and the order of the placements does not matter. */
module MoveLaws {
  import opened Wrappers
  import opened Tiles
  import opened Grids
  import opened Moves

  // ---------- permuting the placements ----------

  lemma {:induction false} DistinctByCount(pl: seq<Placement>)
    ensures |Positions(pl)| <= |pl|
    ensures Distinct(pl) <==> |Positions(pl)| == |pl|
    decreases |pl|
  {
    if pl != [] {
      var init, last := pl[..|pl| - 1], pl[|pl| - 1];
      DistinctByCount(init);
      assert forall i :: 0 <= i < |init| ==> init[i] == pl[i];
      assert Positions(pl) == Positions(init) + {last.pos} by {
        assert pl[|pl| - 1].pos in Positions(pl);
        forall p | p in Positions(init)
          ensures p in Positions(pl)
        {
          var i :| 0 <= i < |init| && init[i].pos == p;
          assert pl[i].pos == p;
        }
      }
      if last.pos in Positions(init) {
        assert Positions(pl) == Positions(init);
        var i :| 0 <= i < |init| && init[i].pos == last.pos;
        assert pl[i].pos == pl[|pl| - 1].pos;
      }
    }
  }

  lemma SameElements(a: seq<Placement>, b: seq<Placement>)
    requires multiset(a) == multiset(b)
    ensures |a| == |b|
    ensures forall x :: x in a <==> x in b
    ensures Positions(a) == Positions(b)
  {
    assert |multiset(a)| == |multiset(b)|;
    forall x
      ensures x in a <==> x in b
    {
      assert x in a <==> x in multiset(a);
      assert x in b <==> x in multiset(b);
    }
    forall p
      ensures p in Positions(a) <==> p in Positions(b)
    {
      if p in Positions(a) {
        var i :| 0 <= i < |a| && a[i].pos == p;
        assert a[i] in b;
      }
      if p in Positions(b) {
        var i :| 0 <= i < |b| && b[i].pos == p;
        assert b[i] in a;
      }
    }
  }

  /** The board after a move depends on which tiles are placed, not on their order. */
  lemma SameBoard(g: Grid, a: seq<Placement>, b: seq<Placement>)
    requires multiset(a) == multiset(b) && Distinct(a)
    ensures Distinct(b) && Positions(a) == Positions(b) && After(g, a) == After(g, b)
  {
    SameElements(a, b);
    DistinctByCount(a);
    DistinctByCount(b);
    PlacedIs(a);
    PlacedIs(b);
    forall p | p in Positions(a)
      ensures Placed(a)[p] == Placed(b)[p]
    {
      var i :| 0 <= i < |a| && a[i].pos == p;
      assert a[i] in b;
      var j :| 0 <= j < |b| && b[j] == a[i];
      assert Placed(b)[b[j].pos] == b[j].tile;
    }
    assert Placed(a) == Placed(b);
  }

  lemma LastOfSorted(a: seq<Placement>, b: seq<Placement>, d: Direction)
    requires |a| == |b| > 0 && Distinct(a)
    requires forall x :: x in a <==> x in b
    requires Ordered(a, d) && Ordered(b, d)
    ensures a[|a| - 1] == b[|b| - 1]
  {
    var n := |a| - 1;
    assert a[n] in b && b[n] in a;
    var i :| 0 <= i < |a| && a[i] == b[n];
    var j :| 0 <= j < |b| && b[j] == a[n];
    assert i < n ==> Before(d, a[i].pos, a[n].pos);
    assert j < n ==> Before(d, b[j].pos, b[n].pos);
  }

  lemma DropLast(a: seq<Placement>)
    requires |a| > 0
    ensures multiset(a[..|a| - 1]) == multiset(a) - multiset{a[|a| - 1]}
  {
    assert a == a[..|a| - 1] + [a[|a| - 1]];
  }

  /** An ordered sequence of distinct squares is determined by its elements. */
  lemma {:induction false} SortedUnique(a: seq<Placement>, b: seq<Placement>, d: Direction)
    requires multiset(a) == multiset(b) && Distinct(a)
    requires Ordered(a, d) && Ordered(b, d)
    ensures a == b
    decreases |a|
  {
    SameElements(a, b);
    if a != [] {
      LastOfSorted(a, b, d);
      DropLast(a);
      DropLast(b);
      InitOrdered(a, d);
      InitOrdered(b, d);
      SortedUnique(a[..|a| - 1], b[..|b| - 1], d);
      SameEnds(a, b);
    }
  }

  lemma InitOrdered(a: seq<Placement>, d: Direction)
    requires |a| > 0 && Ordered(a, d)
    ensures Ordered(a[..|a| - 1], d)
    ensures Distinct(a) ==> Distinct(a[..|a| - 1])
  {
  }

  lemma SameEnds(a: seq<Placement>, b: seq<Placement>)
    requires |a| == |b| > 0 && a[..|a| - 1] == b[..|b| - 1] && a[|a| - 1] == b[|b| - 1]
    ensures a == b
  {
    assert a == a[..|a| - 1] + [a[|a| - 1]] && b == b[..|b| - 1] + [b[|b| - 1]];
  }

  lemma WellPlacedPermutes(g: Grid, a: seq<Placement>, b: seq<Placement>)
    requires multiset(a) == multiset(b) && WellPlaced(g, a)
    ensures WellPlaced(g, b)
  {
    SameElements(a, b);
    SameBoard(g, a, b);
    forall i | 0 <= i < |b|
      ensures InBounds(b[i].pos) && b[i].pos !in g && !b[i].tile.IsUnassignedBlank()
    {
      assert b[i] in a;
    }
  }

  lemma SameLinePermutes(a: seq<Placement>, b: seq<Placement>, d: Direction)
    requires multiset(a) == multiset(b) && SameLine(a, d)
    ensures SameLine(b, d)
  {
    SameElements(a, b);
    forall i, j | 0 <= i < |b| && 0 <= j < |b|
      ensures LineOf(d, b[i].pos) == LineOf(d, b[j].pos)
    {
      assert b[i] in a && b[j] in a;
    }
  }

  lemma LineDirectionPermutes(a: seq<Placement>, b: seq<Placement>)
    requires multiset(a) == multiset(b)
    ensures LineDirection(a) == LineDirection(b)
  {
    SameElements(a, b);
    if SameLine(a, Horizontal) {
      SameLinePermutes(a, b, Horizontal);
    }
    if SameLine(b, Horizontal) {
      SameLinePermutes(b, a, Horizontal);
    }
    if SameLine(a, Vertical) {
      SameLinePermutes(a, b, Vertical);
    }
    if SameLine(b, Vertical) {
      SameLinePermutes(b, a, Vertical);
    }
  }

  /** What sorting the placements of a move changes: only their order. */
  lemma SortingKeepsMove(g: Grid, pl: seq<Placement>, d: Direction)
    requires WellPlaced(g, pl)
    ensures var s := Sorted(pl, d);
            && multiset(s) == multiset(pl) && |s| == |pl| && (forall x :: x in s <==> x in pl)
            && WellPlaced(g, s) && Ordered(s, d) && InBoundsAll(s)
            && Positions(s) == Positions(pl) && After(g, s) == After(g, pl)
            && (SameLine(pl, d) ==> SameLine(s, d))
  {
    var s := Sorted(pl, d);
    SortedIsSorted(pl, d);
    SortedKeeps(pl, d);
    SameBoard(g, pl, s);
    WellPlacedPermutes(g, pl, s);
    if SameLine(pl, d) {
      SameLinePermutes(pl, s, d);
    }
  }

  /** Acceptance, words (in order), points and bingo do not depend on the order of the placements. */
  lemma OrderIrrelevant(g: Grid, a: seq<Placement>, b: seq<Placement>, words: Lexicon, lang: Language)
    requires multiset(a) == multiset(b)
    requires lang.WellFormed() && GridHas(lang, g) && AllHas(lang, a)
    ensures AllHas(lang, b)
    ensures WellPlaced(g, a) ==> Outcome(g, a, words, lang) == Outcome(g, b, words, lang)
    ensures Outcome(g, a, words, lang).Ok? <==> Outcome(g, b, words, lang).Ok?
  {
    SameElements(a, b);
    NoFaultIsWellPlaced(g, a);
    NoFaultIsWellPlaced(g, b);
    if WellPlaced(g, a) {
      WellPlacedPermutes(g, a, b);
      LineDirectionPermutes(a, b);
      if LineDirection(a).Some? {
        var d := LineDirection(a).value;
        SortingKeepsMove(g, a, d);
        SortingKeepsMove(g, b, d);
        SortedUnique(Sorted(a, d), Sorted(b, d), d);
      }
    } else if WellPlaced(g, b) {
      WellPlacedPermutes(g, b, a);
    }
  }

  // ---------- the words of a move ----------

  /** Placements that passed the line and gap checks, in order. */
  predicate Lined(g: Grid, pl: seq<Placement>, d: Direction) {
    WellPlaced(g, pl) && Ordered(pl, d) && SameLine(pl, d) && Contiguous(g, pl, d)
  }

  /** Without gaps, all placements lie in the stretch around the first. */
  lemma MainRun(g: Grid, pl: seq<Placement>, d: Direction)
    requires Lined(g, pl, d)
    ensures IsRun(After(g, pl), RunAt(After(g, pl), d, pl[0].pos))
    ensures Covers(RunAt(After(g, pl), d, pl[0].pos), Positions(pl))
  {
    var after := After(g, pl);
    var r := RunAt(after, d, pl[0].pos);
    RunAtIsTheRun(after, d, pl[0].pos);
    var hi := IndexOf(d, pl[|pl| - 1].pos);
    if r.end <= hi {
      NoGap(g, pl, d, r.end);
      assert false;
    }
    forall p | p in Positions(pl)
      ensures InRun(r, p)
    {
      var i :| 0 <= i < |pl| && pl[i].pos == p;
      assert i > 0 ==> Before(d, pl[0].pos, pl[i].pos);
      assert i < |pl| - 1 ==> Before(d, pl[i].pos, pl[|pl| - 1].pos);
    }
  }

  lemma NoGap(g: Grid, pl: seq<Placement>, d: Direction, k: int)
    requires |pl| > 0 && SameLine(pl, d) && Contiguous(g, pl, d)
    requires IndexOf(d, pl[0].pos) <= k <= IndexOf(d, pl[|pl| - 1].pos)
    ensures Cell(d, LineOf(d, pl[0].pos), k) in After(g, pl)
  {
    var first, last := pl[0].pos, pl[|pl| - 1].pos;
    assert first in Positions(pl) && last in Positions(pl);
    assert Cell(d, LineOf(d, first), IndexOf(d, first)) == first && Cell(d, LineOf(d, last), IndexOf(d, last)) == last;
  }

  lemma OneRunFixesDirection(g: Grid, pl: seq<Placement>, r: Run)
    requires WellPlaced(g, pl) && Covers(r, Positions(pl))
    ensures LineDirection(pl).Some? && SameLine(pl, LineDirection(pl).value)
    ensures |pl| > 1 ==> LineDirection(pl) == Some(r.dir)
  {
    forall i | 0 <= i < |pl|
      ensures LineOf(r.dir, pl[i].pos) == r.line
    {
      assert pl[i].pos in Positions(pl);
    }
    if |pl| > 1 {
      assert pl[0].pos != pl[1].pos;
      assert LineOf(Perpendicular(r.dir), pl[0].pos) != LineOf(Perpendicular(r.dir), pl[1].pos);
      assert !SameLine(pl, Perpendicular(r.dir));
    }
  }

  lemma OneRunHasNoGap(g: Grid, pl: seq<Placement>, r: Run)
    requires |pl| > 0 && IsRun(After(g, pl), r) && Covers(r, Positions(pl))
    ensures Contiguous(g, pl, r.dir)
  {
    var lo, hi := pl[0].pos, pl[|pl| - 1].pos;
    assert lo in Positions(pl) && hi in Positions(pl);
    forall k | IndexOf(r.dir, lo) < k < IndexOf(r.dir, hi)
      ensures Cell(r.dir, LineOf(r.dir, lo), k) in g || Cell(r.dir, LineOf(r.dir, lo), k) in Positions(pl)
    {
      assert Cell(r.dir, r.line, k) in After(g, pl);
    }
  }

  /** Placements within one stretch pass the line and gap checks, and the stretch fixes the direction. */
  lemma OneRunIsLined(g: Grid, pl: seq<Placement>, r: Run)
    requires WellPlaced(g, pl) && IsRun(After(g, pl), r) && Covers(r, Positions(pl))
    ensures LineDirection(pl).Some? && SameLine(pl, LineDirection(pl).value)
    ensures |pl| > 1 ==> LineDirection(pl) == Some(r.dir)
    ensures Lined(g, Sorted(pl, LineDirection(pl).value), LineDirection(pl).value)
  {
    OneRunFixesDirection(g, pl, r);
    var d := LineDirection(pl).value;
    SortingKeepsMove(g, pl, d);
    if |pl| > 1 {
      OneRunHasNoGap(g, Sorted(pl, d), r);
    }
  }

  lemma {:induction false} CrossRunsAre(after: Grid, pl: seq<Placement>, n: nat, d: Direction, r: Run)
    requires n <= |pl| && InBoundsAll(pl)
    ensures r in CrossRuns(after, pl, n, d) <==>
            r.Length() >= MIN_WORD_LENGTH && exists i :: 0 <= i < n && r == RunAt(after, Perpendicular(d), pl[i].pos)
    decreases n
  {
    if n > 0 {
      CrossRunsAre(after, pl, n - 1, d, r);
    }
  }

  predicate NoDuplicates(runs: seq<Run>) {
    forall i, j :: 0 <= i < j < |runs| ==> runs[i] != runs[j]
  }

  lemma {:induction false} CrossRunsDiffer(after: Grid, pl: seq<Placement>, n: nat, d: Direction)
    requires n <= |pl| && InBoundsAll(pl) && Distinct(pl) && SameLine(pl, d)
    ensures NoDuplicates(CrossRuns(after, pl, n, d))
    decreases n
  {
    if n > 0 {
      CrossRunsDiffer(after, pl, n - 1, d);
      var cross := RunAt(after, Perpendicular(d), pl[n - 1].pos);
      CrossRunsAre(after, pl, n - 1, d, cross);
      forall i | 0 <= i < n - 1
        ensures cross != RunAt(after, Perpendicular(d), pl[i].pos)
      {
        assert pl[i].pos != pl[n - 1].pos && LineOf(d, pl[i].pos) == LineOf(d, pl[n - 1].pos);
      }
    }
  }

  lemma RunAtNew(after: Grid, pl: seq<Placement>, i: nat, d: Direction)
    requires i < |pl| && InBounds(pl[i].pos) && pl[i].pos in after
    requires RunAt(after, d, pl[i].pos).Length() >= MIN_WORD_LENGTH
    ensures NewWord(after, Positions(pl), RunAt(after, d, pl[i].pos))
  {
    RunAtIsTheRun(after, d, pl[i].pos);
    assert pl[i].pos in Positions(pl);
  }

  lemma CollectedIsNewWord(g: Grid, pl: seq<Placement>, d: Direction, r: Run)
    requires |pl| > 0 && InBoundsAll(pl)
    requires r in CollectRuns(After(g, pl), pl, d)
    ensures NewWord(After(g, pl), Positions(pl), r)
  {
    var after, c := After(g, pl), Perpendicular(d);
    if r in CrossRuns(after, pl, |pl|, d) {
      CrossRunsAre(after, pl, |pl|, d, r);
      var i :| 0 <= i < |pl| && r == RunAt(after, c, pl[i].pos);
      RunAtNew(after, pl, i, c);
    } else {
      RunAtNew(after, pl, 0, d);
    }
  }

  lemma NewWordIsCollected(g: Grid, pl: seq<Placement>, d: Direction, r: Run)
    requires Lined(g, pl, d) && InBoundsAll(pl)
    requires NewWord(After(g, pl), Positions(pl), r)
    ensures r in CollectRuns(After(g, pl), pl, d)
  {
    var after := After(g, pl);
    var p :| p in Positions(pl) && InRun(r, p);
    SameRun(after, r, p);
    if r.dir == d {
      MainRun(g, pl, d);
      SameRun(after, RunAt(after, d, pl[0].pos), p);
    } else {
      var i :| 0 <= i < |pl| && pl[i].pos == p;
      CrossRunsAre(after, pl, |pl|, d, r);
    }
  }

  /** The collected runs are exactly the words of the new board that hold a new tile, each once. */
  lemma CollectedAreTheNewWords(g: Grid, pl: seq<Placement>, d: Direction)
    requires Lined(g, pl, d)
    ensures InBoundsAll(pl)
    ensures forall r :: r in CollectRuns(After(g, pl), pl, d) <==> NewWord(After(g, pl), Positions(pl), r)
    ensures NoDuplicates(CollectRuns(After(g, pl), pl, d))
  {
    var after := After(g, pl);
    forall r
      ensures r in CollectRuns(after, pl, d) <==> NewWord(after, Positions(pl), r)
    {
      if r in CollectRuns(after, pl, d) {
        CollectedIsNewWord(g, pl, d, r);
      }
      if NewWord(after, Positions(pl), r) {
        NewWordIsCollected(g, pl, d, r);
      }
    }
    CrossRunsDiffer(after, pl, |pl|, d);
    CrossRunsAre(after, pl, |pl|, d, RunAt(after, d, pl[0].pos));
  }

  // ---------- acceptance is legality ----------

  lemma {:induction false} TallyAccepts(after: Grid, runs: seq<Run>, n: nat, added: set<Pos>, words: Lexicon,
                                        lang: Language)
    requires n <= |runs| && RunsOk(runs)
    requires lang.WellFormed() && GridHas(lang, after)
    ensures Tally(after, runs, n, added, words, lang).Ok? <==>
            forall i :: 0 <= i < n ==> InDictionary(words, RunLetters(after, runs[i]))
    decreases n
  {
    if n > 0 {
      TallyAccepts(after, runs, n - 1, added, words, lang);
    }
  }

  lemma {:induction false} TallyReports(after: Grid, runs: seq<Run>, n: nat, added: set<Pos>, words: Lexicon,
                                        lang: Language)
    requires n <= |runs| && RunsOk(runs)
    requires lang.WellFormed() && GridHas(lang, after)
    requires Tally(after, runs, n, added, words, lang).Ok?
    ensures var formed := Tally(after, runs, n, added, words, lang).value.0;
            |formed| == n && forall i :: 0 <= i < n ==> formed[i] == Formed(after, runs[i], added, lang)
    decreases n
  {
    if n > 0 {
      TallyReports(after, runs, n - 1, added, words, lang);
      var before := Tally(after, runs, n - 1, added, words, lang).value.0;
      var formed := Tally(after, runs, n, added, words, lang).value.0;
      assert formed == before + [Formed(after, runs[n - 1], added, lang)];
    }
  }

  lemma ExtendsExistingIsTouching(g: Grid, pl: seq<Placement>, runs: seq<Run>)
    requires WellPlaced(g, pl)
    requires forall r :: r in runs ==> IsRun(After(g, pl), r)
    ensures ExtendsExisting(runs, Positions(pl)) <==> exists r :: r in runs && Touches(r, g.Keys)
  {
    var added := Positions(pl);
    if ExtendsExisting(runs, added) {
      var i, k :| 0 <= i < |runs| && runs[i].start <= k < runs[i].end && Cell(runs[i].dir, runs[i].line, k) !in added;
      var p := Cell(runs[i].dir, runs[i].line, k);
      assert runs[i] in runs && IsRun(After(g, pl), runs[i]);
      assert p in After(g, pl);
      assert p in g.Keys && InRun(runs[i], p);
    }
    if r :| r in runs && Touches(r, g.Keys) {
      var p :| p in g.Keys && InRun(r, p);
      var i :| 0 <= i < |runs| && runs[i] == r;
      assert Cell(r.dir, r.line, IndexOf(r.dir, p)) == p;
      assert p !in added;
    }
  }

  /** The rest of the rule, once the tiles lie in one stretch. */
  ghost predicate WordRule(g: Grid, words: Lexicon, after: Grid, added: set<Pos>) {
    && (exists r :: NewWord(after, added, r))
    && (if g == map[] then CENTER in added
        else exists r :: NewWord(after, added, r) && Touches(r, g.Keys))
    && (forall r :: NewWord(after, added, r) ==> InDictionary(words, RunLetters(after, r)))
  }

  lemma SettleIsRule(g: Grid, pl: seq<Placement>, runs: seq<Run>, words: Lexicon, lang: Language)
    requires WellPlaced(g, pl) && lang.WellFormed() && GridHas(lang, After(g, pl)) && RunsOk(runs)
    requires forall r :: r in runs <==> NewWord(After(g, pl), Positions(pl), r)
    ensures Settle(g, After(g, pl), runs, Positions(pl), |pl|, words, lang).Ok? <==>
            WordRule(g, words, After(g, pl), Positions(pl))
  {
    var after, added := After(g, pl), Positions(pl);
    TallyAccepts(after, runs, |runs|, added, words, lang);
    ExtendsExistingIsTouching(g, pl, runs);
    assert runs == [] <==> !exists r :: r in runs by {
      assert runs != [] ==> runs[0] in runs;
    }
  }

  /** After the line and gap checks, the remaining checks are the rest of the rule. */
  lemma JudgeIsRule(g: Grid, pl: seq<Placement>, d: Direction, words: Lexicon, lang: Language)
    requires Lined(g, pl, d)
    requires lang.WellFormed() && GridHas(lang, g) && AllHas(lang, pl)
    ensures InBoundsAll(pl)
    ensures Judge(g, pl, d, words, lang).Ok? <==> WordRule(g, words, After(g, pl), Positions(pl))
  {
    var after := After(g, pl);
    var runs := CollectRuns(after, pl, d);
    CollectedAreTheNewWords(g, pl, d);
    AfterHas(lang, g, pl);
    CollectRunsOk(after, pl, d);
    SettleIsRule(g, pl, runs, words, lang);
  }

  lemma LegalIsAccepted(g: Grid, pl: seq<Placement>, words: Lexicon, lang: Language)
    requires lang.WellFormed() && GridHas(lang, g) && AllHas(lang, pl) && Legal(g, words, pl)
    ensures Outcome(g, pl, words, lang).Ok?
  {
    NoFaultIsWellPlaced(g, pl);
    var r :| IsRun(After(g, pl), r) && Covers(r, Positions(pl));
    OneRunIsLined(g, pl, r);
    var d := LineDirection(pl).value;
    SortingKeepsMove(g, pl, d);
    assert WordRule(g, words, After(g, pl), Positions(pl));
    JudgeIsRule(g, Sorted(pl, d), d, words, lang);
  }

  lemma AcceptedIsLegal(g: Grid, pl: seq<Placement>, words: Lexicon, lang: Language)
    requires lang.WellFormed() && GridHas(lang, g) && AllHas(lang, pl) && Outcome(g, pl, words, lang).Ok?
    ensures Legal(g, words, pl)
  {
    NoFaultIsWellPlaced(g, pl);
    var d := LineDirection(pl).value;
    SortingKeepsMove(g, pl, d);
    MainRun(g, Sorted(pl, d), d);
    JudgeIsRule(g, Sorted(pl, d), d, words, lang);
    assert WordRule(g, words, After(g, pl), Positions(pl));
  }

  /** The validator accepts exactly the legal moves. */
  lemma AcceptedIffLegal(g: Grid, pl: seq<Placement>, words: Lexicon, lang: Language)
    requires lang.WellFormed() && GridHas(lang, g) && AllHas(lang, pl)
    ensures Outcome(g, pl, words, lang).Ok? <==> Legal(g, words, pl)
  {
    if Legal(g, words, pl) {
      LegalIsAccepted(g, pl, words, lang);
    }
    if Outcome(g, pl, words, lang).Ok? {
      AcceptedIsLegal(g, pl, words, lang);
    }
  }

  /** The runs whose words an accepted move is scored on. */
  function WordRuns(g: Grid, pl: seq<Placement>): seq<Run>
    requires WellPlaced(g, pl) && LineDirection(pl).Some?
  {
    var d := LineDirection(pl).value;
    SortedKeeps(pl, d);
    CollectRuns(After(g, pl), Sorted(pl, d), d)
  }

  lemma JudgeReports(g: Grid, pl: seq<Placement>, d: Direction, words: Lexicon, lang: Language)
    requires lang.WellFormed() && GridHas(lang, g) && AllHas(lang, pl)
    requires |pl| > 0 && InBoundsAll(pl)
    requires Judge(g, pl, d, words, lang).Ok?
    ensures GridHas(lang, After(g, pl))
    ensures var runs, formed := CollectRuns(After(g, pl), pl, d), Judge(g, pl, d, words, lang).value.words;
            && |formed| == |runs| && RunsOk(runs)
            && forall i :: 0 <= i < |formed| ==> formed[i] == Formed(After(g, pl), runs[i], Positions(pl), lang)
  {
    var runs := CollectRuns(After(g, pl), pl, d);
    AfterHas(lang, g, pl);
    CollectRunsOk(After(g, pl), pl, d);
    TallyReports(After(g, pl), runs, |runs|, Positions(pl), words, lang);
  }

  /** The report of an accepted move: one entry for each new word of the resulting board and no others. */
  lemma ReportsExactlyTheNewWords(g: Grid, pl: seq<Placement>, words: Lexicon, lang: Language)
    requires lang.WellFormed() && GridHas(lang, g) && AllHas(lang, pl)
    requires Outcome(g, pl, words, lang).Ok?
    ensures WellPlaced(g, pl) && LineDirection(pl).Some? && GridHas(lang, After(g, pl))
    ensures NoDuplicates(WordRuns(g, pl))
    ensures forall r :: r in WordRuns(g, pl) <==> NewWord(After(g, pl), Positions(pl), r)
    ensures var formed := Outcome(g, pl, words, lang).value.words;
            && |formed| == |WordRuns(g, pl)| && RunsOk(WordRuns(g, pl))
            && forall i :: 0 <= i < |formed| ==>
              formed[i] == Formed(After(g, pl), WordRuns(g, pl)[i], Positions(pl), lang)
  {
    NoFaultIsWellPlaced(g, pl);
    var d := LineDirection(pl).value;
    SortingKeepsMove(g, pl, d);
    var s := Sorted(pl, d);
    CollectedAreTheNewWords(g, s, d);
    JudgeReports(g, s, d, words, lang);
  }
}
