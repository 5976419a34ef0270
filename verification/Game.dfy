/** What every game keeps: the board reached by any sequence of legal moves. */
module Game {
  import opened Tiles
  import opened Grids
  import opened Moves
  import opened MoveLaws

  predicate Adjacent(p: Pos, q: Pos) {
    || (p.row == q.row && (p.col == q.col + 1 || q.col == p.col + 1))
    || (p.col == q.col && (p.row == q.row + 1 || q.row == p.row + 1))
  }

  /** A walk over filled, neighbouring squares. */
  predicate IsPath(g: Grid, path: seq<Pos>) {
    && |path| > 0
    && (forall i :: 0 <= i < |path| ==> path[i] in g)
    && (forall i :: 0 < i < |path| ==> Adjacent(path[i - 1], path[i]))
  }

  predicate Leads(g: Grid, path: seq<Pos>, p: Pos) {
    IsPath(g, path) && path[0] == CENTER && path[|path| - 1] == p
  }

  ghost predicate Reachable(g: Grid, p: Pos) {
    exists path :: Leads(g, path, p)
  }

  /** All filled squares form one group around the centre, and every word on the board is in the dictionary. */
  ghost predicate GoodBoard(g: Grid, words: Lexicon) {
    && OnBoard(g)
    && (forall p :: p in g ==> Reachable(g, p))
    && (forall r :: IsRun(g, r) && r.Length() >= MIN_WORD_LENGTH ==> InDictionary(words, RunLetters(g, r)))
  }

  lemma ReachMore(g: Grid, h: Grid, p: Pos)
    requires Reachable(g, p) && g.Keys <= h.Keys
    ensures Reachable(h, p)
  {
    var path :| Leads(g, path, p);
    assert Leads(h, path, p);
  }

  lemma ReachNext(g: Grid, p: Pos, q: Pos)
    requires Reachable(g, p) && Adjacent(p, q) && q in g
    ensures Reachable(g, q)
  {
    var path :| Leads(g, path, p);
    assert Leads(g, path + [q], q);
  }

  /** From one square of a stretch the whole stretch can be reached. */
  lemma {:induction false} ReachAlong(g: Grid, r: Run, i: int, j: int)
    requires IsRun(g, r) && r.start <= i < r.end && r.start <= j < r.end
    requires Reachable(g, Cell(r.dir, r.line, i))
    ensures Reachable(g, Cell(r.dir, r.line, j))
    decreases if i < j then j - i else i - j
  {
    if i != j {
      var next := if i < j then i + 1 else i - 1;
      ReachNext(g, Cell(r.dir, r.line, i), Cell(r.dir, r.line, next));
      ReachAlong(g, r, next, j);
    }
  }

  lemma ReachRun(g: Grid, r: Run, p: Pos, q: Pos)
    requires IsRun(g, r) && InRun(r, p) && InRun(r, q) && Reachable(g, p)
    ensures Reachable(g, q)
  {
    assert Cell(r.dir, r.line, IndexOf(r.dir, p)) == p && Cell(r.dir, r.line, IndexOf(r.dir, q)) == q;
    ReachAlong(g, r, IndexOf(r.dir, p), IndexOf(r.dir, q));
  }

  /** Some new square can be reached after a legal move. */
  lemma NewTileReached(g: Grid, words: Lexicon, pl: seq<Placement>) returns (p: Pos)
    requires GoodBoard(g, words) && Legal(g, words, pl)
    ensures p in Positions(pl) && Reachable(After(g, pl), p)
  {
    var after, added := After(g, pl), Positions(pl);
    if g == map[] {
      p := CENTER;
      assert Leads(after, [CENTER], CENTER);
    } else {
      var r :| NewWord(after, added, r) && Touches(r, g.Keys);
      p :| p in added && InRun(r, p);
      var q :| q in g.Keys && InRun(r, q);
      ReachMore(g, after, q);
      ReachRun(after, r, q, p);
    }
  }

  lemma MoveKeepsReach(g: Grid, words: Lexicon, pl: seq<Placement>)
    requires GoodBoard(g, words) && Legal(g, words, pl)
    ensures forall p :: p in After(g, pl) ==> Reachable(After(g, pl), p)
  {
    var after := After(g, pl);
    var first := NewTileReached(g, words, pl);
    var r :| IsRun(after, r) && Covers(r, Positions(pl));
    forall p | p in after
      ensures Reachable(after, p)
    {
      if p in g {
        ReachMore(g, after, p);
      } else {
        ReachRun(after, r, first, p);
      }
    }
  }

  /** A stretch without a new tile was there before the move, with the same letters. */
  lemma OldRunStays(g: Grid, pl: seq<Placement>, r: Run)
    requires WellPlaced(g, pl)
    requires IsRun(After(g, pl), r) && !Touches(r, Positions(pl))
    ensures IsRun(g, r) && RunLetters(g, r) == RunLetters(After(g, pl), r)
  {
    var after := After(g, pl);
    forall k | r.start <= k < r.end
      ensures Cell(r.dir, r.line, k) in g && g[Cell(r.dir, r.line, k)] == after[Cell(r.dir, r.line, k)]
    {
      assert Cell(r.dir, r.line, k) in after;
      assert InRun(r, Cell(r.dir, r.line, k));
    }
    LettersAgree(g, after, r.dir, r.line, r.start, r.end);
  }

  /** A legal move keeps the board good. */
  lemma LegalMoveKeepsBoard(g: Grid, words: Lexicon, pl: seq<Placement>)
    requires GoodBoard(g, words) && Legal(g, words, pl)
    ensures GoodBoard(After(g, pl), words)
  {
    var after := After(g, pl);
    MoveKeepsReach(g, words, pl);
    forall r | IsRun(after, r) && r.Length() >= MIN_WORD_LENGTH
      ensures InDictionary(words, RunLetters(after, r))
    {
      if Touches(r, Positions(pl)) {
        assert NewWord(after, Positions(pl), r);
      } else {
        OldRunStays(g, pl, r);
      }
    }
    forall p | p in after
      ensures InBounds(p)
    {
    }
  }

  /** The board after the moves of a game. */
  function BoardOf(moves: seq<seq<Placement>>): Grid {
    if moves == [] then map[] else After(BoardOf(moves[..|moves| - 1]), moves[|moves| - 1])
  }

  ghost predicate LegalGame(words: Lexicon, moves: seq<seq<Placement>>) {
    moves == [] ||
    (&& LegalGame(words, moves[..|moves| - 1])
     && Legal(BoardOf(moves[..|moves| - 1]), words, moves[|moves| - 1]))
  }

  function TilesPlayed(moves: seq<seq<Placement>>): nat {
    if moves == [] then 0 else TilesPlayed(moves[..|moves| - 1]) + |moves[|moves| - 1]|
  }

  lemma MoveAddsItsTiles(g: Grid, pl: seq<Placement>)
    requires WellPlaced(g, pl)
    ensures |After(g, pl)| == |g| + |pl|
  {
    DistinctByCount(pl);
    assert After(g, pl).Keys == g.Keys + Positions(pl);
    assert g.Keys !! Positions(pl);
  }

  /** In every game every board is good and holds exactly the tiles played. */
  lemma {:induction false} EveryGameKeepsBoard(words: Lexicon, moves: seq<seq<Placement>>)
    requires LegalGame(words, moves)
    ensures GoodBoard(BoardOf(moves), words)
    ensures |BoardOf(moves)| == TilesPlayed(moves)
    decreases |moves|
  {
    if moves != [] {
      var init, last := moves[..|moves| - 1], moves[|moves| - 1];
      EveryGameKeepsBoard(words, init);
      LegalMoveKeepsBoard(BoardOf(init), words, last);
      MoveAddsItsTiles(BoardOf(init), last);
    }
  }
}
