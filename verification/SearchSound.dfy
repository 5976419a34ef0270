/** Soundness of the search: what it records is legal without any further filter, except for a blank that
    stands for letter 0. */
module SearchSound {
  import opened Tiles
  import opened Grids
  import opened Moves
  import opened Search

  // ---------- what a walk comes to ----------

  lemma PayOne(t: Tile, cost: multiset<Tile>, avail: multiset<Tile>)
    ensures multiset{t} + cost <= avail <==> t in avail && cost <= avail - multiset{t}
    ensures avail - (multiset{t} + cost) == avail - multiset{t} - cost
  {
  }

  lemma NewTilesHead(l: Lane, i: int, w: seq<Tile>, pl: seq<Placement>)
    requires w != [] && l.At(i) !in l.g
    ensures pl + NewTiles(l, i, w) == pl + [Placement(l.At(i), w[0])] + NewTiles(l, i + 1, w[1..])
    ensures Price(NewTiles(l, i, w)) == multiset{Norm(w[0])} + Price(NewTiles(l, i + 1, w[1..]))
  {
    var x := Placement(l.At(i), w[0]);
    PriceConcat([x], NewTiles(l, i + 1, w[1..]));
    PriceOne(x);
  }

  /** A walk, tile by tile, passes all the checks on the finished word. */
  lemma {:induction false} WalkContinues(l: Lane, avail: multiset<Tile>, path: seq<LetterID>, pl: seq<Placement>,
                                         i: int,
                                         placed: bool, w: seq<Tile>, m: seq<Placement>)
    requires RightWord(l, avail, path, pl, i, placed, w, m) && (placed ==> pl != [])
    ensures Continues(l, avail, path, pl, i, placed, w, m)
    decreases |w|
  {
    if w == [] {
      assert path + PartLetters([]) == path;
      assert pl + NewTiles(l, i, []) == pl;
    } else if l.At(i) in l.g {
      WalkContinues(l, avail, path + [w[0].letter], pl, i + 1, placed, w[1..], m);
      ContinuesFromOld(l, avail, path, pl, i, placed, w, m);
    } else {
      WalkContinues(l, avail - multiset{Norm(w[0])}, path + [w[0].letter], pl + [Placement(l.At(i), w[0])], i + 1, true,
                    w[1..], m);
      ContinuesFromNew(l, avail, path, pl, i, placed, w, m);
    }
  }

  lemma ContinuesFromOld(l: Lane, avail: multiset<Tile>, path: seq<LetterID>, pl: seq<Placement>, i: int,
                         placed: bool, w: seq<Tile>, m: seq<Placement>)
    requires w != [] && 0 <= i < BOARD_SIZE && l.At(i) in l.g && w[0] == l.g[l.At(i)]
    requires Continues(l, avail, path + [w[0].letter], pl, i + 1, placed, w[1..], m)
    ensures Continues(l, avail, path, pl, i, placed, w, m)
  {
    assert path + PartLetters(w) == path + [w[0].letter] + PartLetters(w[1..]);
    assert NewTiles(l, i, w) == NewTiles(l, i + 1, w[1..]);
  }

  lemma ContinuesFromNew(l: Lane, avail: multiset<Tile>, path: seq<LetterID>, pl: seq<Placement>, i: int,
                         placed: bool, w: seq<Tile>, m: seq<Placement>)
    requires w != [] && 0 <= i < BOARD_SIZE && l.At(i) !in l.g && l.Allows(i, w[0].letter) && Norm(w[0]) in avail
    requires Continues(l, avail - multiset{Norm(w[0])}, path + [w[0].letter], pl + [Placement(l.At(i), w[0])], i + 1,
                       true, w[1..], m)
    ensures Continues(l, avail, path, pl, i, placed, w, m)
  {
    assert path + PartLetters(w) == path + [w[0].letter] + PartLetters(w[1..]);
    NewTilesHead(l, i, w, pl);
    PayOne(Norm(w[0]), Price(NewTiles(l, i + 1, w[1..])), avail);
  }

  lemma ContinuesOnOld(l: Lane, avail: multiset<Tile>, path: seq<LetterID>, pl: seq<Placement>, i: int,
                       placed: bool, w: seq<Tile>, m: seq<Placement>)
    requires Continues(l, avail, path, pl, i, placed, w, m) && w != [] && l.At(i) in l.g
    ensures Continues(l, avail, path + [w[0].letter], pl, i + 1, placed, w[1..], m)
  {
    assert path + PartLetters(w) == path + [w[0].letter] + PartLetters(w[1..]);
    assert NewTiles(l, i, w) == NewTiles(l, i + 1, w[1..]);
  }

  lemma ContinuesOnNew(l: Lane, avail: multiset<Tile>, path: seq<LetterID>, pl: seq<Placement>, i: int,
                       placed: bool, w: seq<Tile>, m: seq<Placement>)
    requires Continues(l, avail, path, pl, i, placed, w, m) && w != [] && l.At(i) !in l.g
    ensures Norm(w[0]) in avail
    ensures Continues(l, avail - multiset{Norm(w[0])}, path + [w[0].letter], pl + [Placement(l.At(i), w[0])], i + 1,
                      true, w[1..], m)
  {
    assert path + PartLetters(w) == path + [w[0].letter] + PartLetters(w[1..]);
    NewTilesHead(l, i, w, pl);
    PayOne(Norm(w[0]), Price(NewTiles(l, i + 1, w[1..])), avail);
  }

  /** Conversely, a word that passes them can be walked tile by tile. */
  lemma {:induction false} ContinuationWalks(l: Lane, avail: multiset<Tile>, path: seq<LetterID>, pl: seq<Placement>,
                                             i: int,
                                             placed: bool, w: seq<Tile>, m: seq<Placement>)
    requires Continues(l, avail, path, pl, i, placed, w, m) && (placed ==> pl != [])
    ensures RightWord(l, avail, path, pl, i, placed, w, m)
    decreases |w|
  {
    if w == [] {
      assert path + PartLetters([]) == path;
      assert pl + NewTiles(l, i, []) == pl;
    } else {
      var longer := path + [w[0].letter];
      if l.At(i) in l.g {
        ContinuesOnOld(l, avail, path, pl, i, placed, w, m);
        ContinuationWalks(l, avail, longer, pl, i + 1, placed, w[1..], m);
      } else {
        ContinuesOnNew(l, avail, path, pl, i, placed, w, m);
        ContinuationWalks(l, avail - multiset{Norm(w[0])}, longer, pl + [Placement(l.At(i), w[0])], i + 1, true, w[1..],
                          m);
      }
    }
  }

  /** A complete word of the search and the placements recorded for it. */
  predicate Completed(l: Lane, s: int, tiles: seq<Tile>, m: seq<Placement>) {
    && l.Valid() && Spelled(l, s, tiles)
    && (s > 0 ==> l.At(s - 1) !in l.g)
    && s + |tiles| <= BOARD_SIZE && IsEnd(l, s + |tiles|)
    && PartLetters(tiles) in l.words
    && m == NewTiles(l, s, tiles)
    && m != []
  }

  lemma {:induction false} SpelledFits(l: Lane, s: int, tiles: seq<Tile>)
    requires Spelled(l, s, tiles)
    ensures 0 <= s && s + |tiles| <= BOARD_SIZE
    decreases |tiles|
  {
    if tiles != [] {
      SpelledFits(l, s + 1, tiles[1..]);
    }
  }

  lemma {:induction false} SpelledParts(l: Lane, s: int, a: seq<Tile>, b: seq<Tile>)
    ensures Spelled(l, s, a + b) <==> Spelled(l, s, a) && Spelled(l, s + |a|, b)
    decreases |a|
  {
    if a == [] {
      assert a + b == b;
      if Spelled(l, s, b) {
        SpelledFits(l, s, b);
      }
    } else {
      assert (a + b)[1..] == a[1..] + b;
      SpelledParts(l, s + 1, a[1..], b);
    }
  }

  lemma {:induction false} NewParts(l: Lane, s: int, a: seq<Tile>, b: seq<Tile>)
    ensures NewTiles(l, s, a + b) == NewTiles(l, s, a) + NewTiles(l, s + |a|, b)
    decreases |a|
  {
    if a == [] {
      assert a + b == b;
    } else {
      var rest := a[1..];
      assert (a + b)[1..] == rest + b && (a + b)[0] == a[0];
      NewParts(l, s + 1, rest, b);
      Regroup(if l.At(s) in l.g then [] else [Placement(l.At(s), a[0])], NewTiles(l, s + 1, rest),
              NewTiles(l, s + |a|, b));
    }
  }

  lemma Regroup(x: seq<Placement>, y: seq<Placement>, z: seq<Placement>)
    ensures x + (y + z) == x + y + z
  {
  }

  lemma SpelledConcat(l: Lane, s: int, a: seq<Tile>, b: seq<Tile>)
    ensures Spelled(l, s, a + b) <==> Spelled(l, s, a) && Spelled(l, s + |a|, b)
    ensures NewTiles(l, s, a + b) == NewTiles(l, s, a) + NewTiles(l, s + |a|, b)
    ensures PartLetters(a + b) == PartLetters(a) + PartLetters(b)
  {
    SpelledParts(l, s, a, b);
    NewParts(l, s, a, b);
    PartLettersConcat(a, b);
  }

  /** The walk that starts on the anchor puts a tile on it. */
  lemma AnchorSound(l: Lane, avail: multiset<Tile>, s: int, left: seq<Tile>, m: seq<Placement>)
    returns (word: seq<Tile>)
    requires l.Valid() && Spelled(l, s, left) && (s > 0 ==> l.At(s - 1) !in l.g)
    requires s + |left| < BOARD_SIZE && l.At(s + |left|) !in l.g
    requires RightMove(l, avail, PartLetters(left), NewTiles(l, s, left), s + |left|, false, m)
    ensures Completed(l, s, word, m)
    ensures l.At(s + |left|) in Positions(m)
    ensures Price(m) <= Price(NewTiles(l, s, left)) + avail
  {
    var path, pl, a := PartLetters(left), NewTiles(l, s, left), s + |left|;
    var w :| RightWord(l, avail, path, pl, a, false, w, m);
    WalkContinues(l, avail, path, pl, a, false, w, m);
    word := left + w;
    SpelledConcat(l, s, left, w);
    SpelledFits(l, s, word);
    PriceConcat(pl, NewTiles(l, a, w));
    StartsOnAnchor(l, a, w, pl, m);
  }

  lemma StartsOnAnchor(l: Lane, a: int, w: seq<Tile>, pl: seq<Placement>, m: seq<Placement>)
    requires l.At(a) !in l.g && NewTiles(l, a, w) != [] && m == pl + NewTiles(l, a, w)
    ensures l.At(a) in Positions(m)
  {
    assert w != [];
    assert m[|pl|] == NewTiles(l, a, w)[0];
  }

  // ---------- the left part ----------

  /** The table of the line is the one that the board asks for. */
  ghost predicate TrueTable(l: Lane) {
    l.Valid() && l.cross == CrossTable(l.g, l.words, l.dir, l.line)
  }

  lemma NonAnchorIn(l: Lane, k: int, letter: LetterID)
    requires TrueTable(l) && 0 <= k < BOARD_SIZE
    requires l.At(k) !in l.g && !IsAnchor(l.g, l.At(k))
    ensures l.Allows(k, letter)
  {
    NonAnchorAllows(l.g, l.words, l.dir, l.At(k), letter);
  }

  lemma BesideFilled(l: Lane, k: int)
    requires l.Valid() && 0 < k < BOARD_SIZE && l.At(k - 1) in l.g && l.At(k) !in l.g
    ensures IsAnchor(l.g, l.At(k))
  {
  }

  /** A left part on empty squares that are not anchors passes every check. */
  lemma {:induction false} LeftPartSpelled(l: Lane, s: int, part: seq<Tile>)
    requires TrueTable(l) && 0 <= s && s + |part| <= BOARD_SIZE
    requires forall k :: s <= k < s + |part| ==> l.At(k) !in l.g && !IsAnchor(l.g, l.At(k))
    ensures Spelled(l, s, part)
    decreases |part|
  {
    if part != [] {
      assert l.At(s) !in l.g && !IsAnchor(l.g, l.At(s));
      NonAnchorIn(l, s, part[0].letter);
      LeftPartSpelled(l, s + 1, part[1..]);
    }
  }

  lemma {:induction false} LeftPartIsNew(l: Lane, s: int, part: seq<Tile>)
    requires forall k :: s <= k < s + |part| ==> l.At(k) !in l.g
    ensures NewTiles(l, s, part) == LeftPlacements(l, part, s + |part|)
    decreases |part|
  {
    if part != [] {
      assert l.At(s) !in l.g;
      LeftPartIsNew(l, s + 1, part[1..]);
      assert s + 1 + |part[1..]| == s + |part|;
    }
  }

  lemma {:induction false} LeftPartCost(l: Lane, part: seq<Tile>, a: int)
    ensures TilesOf(LeftPlacements(l, part, a)) == part
    decreases |part|
  {
    if part != [] {
      LeftPartCost(l, part[1..], a);
    }
  }

  lemma LeftEdge(l: Lane, a: int, n: nat)
    requires l.Valid() && 0 <= a < BOARD_SIZE && n <= LeftLimit(l, a) && 0 < LeftLimit(l, a) && n < a
    ensures l.At(a - n - 1) !in l.g
  {
    LeftLimitIs(l, a);
    if n == LeftLimit(l, a) && l.At(a - n - 1) in l.g {
      BesideFilled(l, a - n);
    }
  }

  lemma LeftIsSpelled(l: Lane, part: seq<Tile>, s: int, a: int)
    requires TrueTable(l) && 0 <= a < BOARD_SIZE && |part| <= LeftLimit(l, a) && s == a - |part|
    ensures Spelled(l, s, part)
  {
    LeftLimitIs(l, a);
    LeftPartSpelled(l, s, part);
  }

  lemma LeftIsNew(l: Lane, part: seq<Tile>, s: int, a: int)
    requires l.Valid() && 0 <= a < BOARD_SIZE && |part| <= LeftLimit(l, a) && s == a - |part|
    ensures NewTiles(l, s, part) == LeftPlacements(l, part, a)
  {
    LeftLimitIs(l, a);
    LeftPartIsNew(l, s, part);
  }

  lemma LeftNowSound(l: Lane, avail: multiset<Tile>, part: seq<Tile>, a: int, m: seq<Placement>)
    returns (s: int, word: seq<Tile>)
    requires TrueTable(l) && 0 <= a < BOARD_SIZE && l.At(a) !in l.g
    requires |part| <= LeftLimit(l, a) && 0 < LeftLimit(l, a)
    requires RightMove(l, avail, PartLetters(part), LeftPlacements(l, part, a), a, false, m)
    ensures Completed(l, s, word, m) && l.At(a) in Positions(m)
    ensures Price(m) <= Cost(part) + avail
  {
    s := a - |part|;
    LeftIsSpelled(l, part, s, a);
    LeftIsNew(l, part, s, a);
    if s > 0 {
      LeftEdge(l, a, |part|);
    }
    word := AnchorSound(l, avail, s, part, m);
    LeftPartCost(l, part, a);
  }

  lemma {:induction false} LeftSound(l: Lane, avail: multiset<Tile>, part: seq<Tile>, a: int, limit: nat,
                                     more: seq<Tile>, m: seq<Placement>)
    returns (s: int, word: seq<Tile>)
    requires TrueTable(l) && 0 <= a < BOARD_SIZE && l.At(a) !in l.g
    requires |part| + limit <= LeftLimit(l, a) && 0 < LeftLimit(l, a)
    requires LeftWith(l, avail, part, a, limit, more, m)
    ensures Completed(l, s, word, m) && l.At(a) in Positions(m)
    ensures Price(m) <= Cost(part) + avail
    decreases |more|
  {
    if more == [] {
      s, word := LeftNowSound(l, avail, part, a, m);
    } else {
      var t := more[0];
      s, word := LeftSound(l, avail - multiset{Norm(t)}, part + [t], a, limit - 1, more[1..], m);
      CostConcat(part, [t]);
    }
  }

  // ---------- after the tiles already there ----------

  function TilesAlong(l: Lane, s: int, e: int): (ts: seq<Tile>)
    requires s <= e
    ensures |ts| == e - s
    decreases e - s
  {
    if s == e then [] else [TileAt(l.g, l.At(s))] + TilesAlong(l, s + 1, e)
  }

  lemma {:induction false} TilesAlongSpelled(l: Lane, s: int, e: int)
    requires 0 <= s <= e <= BOARD_SIZE
    requires forall k :: s <= k < e ==> l.At(k) in l.g
    ensures Spelled(l, s, TilesAlong(l, s, e)) && NewTiles(l, s, TilesAlong(l, s, e)) == []
    ensures PartLetters(TilesAlong(l, s, e)) == Letters(l.g, l.dir, l.line, s, e)
    decreases e - s
  {
    if s < e {
      TilesAlongSpelled(l, s + 1, e);
      LettersSplit(l.g, l.dir, l.line, s, s + 1, e);
      assert l.At(s) in l.g;
      assert TilesAlong(l, s, e)[1..] == TilesAlong(l, s + 1, e);
      assert Letters(l.g, l.dir, l.line, s, s + 1) == [l.g[l.At(s)].letter];
    }
  }

  /** Every move recorded from an anchor completes a word through the anchor, paid from the rack. */
  lemma AnchorMoveSound(l: Lane, avail: multiset<Tile>, a: int, m: seq<Placement>) returns (s: int, word: seq<Tile>)
    requires TrueTable(l) && 0 <= a < BOARD_SIZE && l.At(a) !in l.g
    requires AnchorMove(l, avail, a, m)
    ensures Completed(l, s, word, m) && l.At(a) in Positions(m)
    ensures Price(m) <= avail
  {
    if LeftLimit(l, a) == 0 {
      s := RunStart(l.g, l.dir, l.line, a);
      RunStartIs(l.g, l.dir, l.line, a);
      TilesAlongSpelled(l, s, a);
      word := AnchorSound(l, avail, s, TilesAlong(l, s, a), m);
    } else {
      var more :| LeftWith(l, avail, [], a, LeftLimit(l, a), more, m);
      s, word := LeftSound(l, avail, [], a, LeftLimit(l, a), more, m);
    }
  }

  // ---------- a completed word is legal ----------

  /** `x` is one of the new tiles of the word. */
  predicate NewOn(l: Lane, s: int, tiles: seq<Tile>, x: Placement) {
    && LineOf(l.dir, x.pos) == l.line
    && s <= IndexOf(l.dir, x.pos) < s + |tiles|
    && x.pos !in l.g
    && x.tile == tiles[IndexOf(l.dir, x.pos) - s]
  }

  lemma {:induction false} NewTilesAre(l: Lane, s: int, tiles: seq<Tile>, x: Placement)
    ensures x in NewTiles(l, s, tiles) <==> NewOn(l, s, tiles, x)
    decreases |tiles|
  {
    if tiles != [] {
      NewTilesAre(l, s + 1, tiles[1..], x);
      var k := IndexOf(l.dir, x.pos);
      if k == s && LineOf(l.dir, x.pos) == l.line {
        assert x.pos == l.At(s);
      }
      if s < k < s + |tiles| {
        assert tiles[1..][k - (s + 1)] == tiles[k - s];
      }
    }
  }

  lemma {:induction false} NewTilesDistinct(l: Lane, s: int, tiles: seq<Tile>)
    ensures Distinct(NewTiles(l, s, tiles))
    decreases |tiles|
  {
    if tiles != [] {
      NewTilesDistinct(l, s + 1, tiles[1..]);
      var rest, m := NewTiles(l, s + 1, tiles[1..]), NewTiles(l, s, tiles);
      if l.At(s) !in l.g {
        forall i | 0 <= i < |rest|
          ensures rest[i].pos != l.At(s)
        {
          NewTilesAre(l, s + 1, tiles[1..], rest[i]);
        }
      }
    }
  }

  lemma {:induction false} SpelledAt(l: Lane, s: int, tiles: seq<Tile>, j: nat)
    requires Spelled(l, s, tiles) && j < |tiles|
    ensures 0 <= s + j < BOARD_SIZE
    ensures if l.At(s + j) in l.g then tiles[j] == l.g[l.At(s + j)] else l.Allows(s + j, tiles[j].letter)
    decreases j
  {
    if j > 0 {
      SpelledAt(l, s + 1, tiles[1..], j - 1);
    }
  }

  /** The word as it stands on the board after the move. */
  lemma WordOnBoard(l: Lane, s: int, tiles: seq<Tile>, j: nat)
    requires Spelled(l, s, tiles) && j < |tiles|
    ensures var after := After(l.g, NewTiles(l, s, tiles));
            l.At(s + j) in after && after[l.At(s + j)] == tiles[j]
  {
    var m, p := NewTiles(l, s, tiles), l.At(s + j);
    SpelledAt(l, s, tiles, j);
    NewTilesDistinct(l, s, tiles);
    PlacedIs(m);
    if p in l.g {
      forall i | 0 <= i < |m|
        ensures m[i].pos != p
      {
        NewTilesAre(l, s, tiles, m[i]);
      }
    } else {
      NewTilesAre(l, s, tiles, Placement(p, tiles[j]));
      var i :| 0 <= i < |m| && m[i] == Placement(p, tiles[j]);
      assert Placed(m)[m[i].pos] == tiles[j];
    }
  }

  lemma {:induction false} SameLetters(g: Grid, d: Direction, line: int, s: int, tiles: seq<Tile>)
    requires forall j :: 0 <= j < |tiles| ==> TileAt(g, Cell(d, line, s + j)) == tiles[j]
    ensures Letters(g, d, line, s, s + |tiles|) == PartLetters(tiles)
    decreases |tiles|
  {
    if tiles != [] {
      forall j | 0 <= j < |tiles[1..]|
        ensures TileAt(g, Cell(d, line, s + 1 + j)) == tiles[1..][j]
      {
        assert TileAt(g, Cell(d, line, s + (j + 1))) == tiles[j + 1];
      }
      SameLetters(g, d, line, s + 1, tiles[1..]);
      assert TileAt(g, Cell(d, line, s + 0)) == tiles[0];
    }
  }

  function WordRun(l: Lane, s: int, tiles: seq<Tile>): Run {
    Run(l.dir, l.line, s, s + |tiles|)
  }

  lemma WordCovers(l: Lane, s: int, tiles: seq<Tile>)
    ensures Covers(WordRun(l, s, tiles), Positions(NewTiles(l, s, tiles)))
  {
    var m := NewTiles(l, s, tiles);
    forall p | p in Positions(m)
      ensures InRun(WordRun(l, s, tiles), p)
    {
      var i :| 0 <= i < |m| && m[i].pos == p;
      NewTilesAre(l, s, tiles, m[i]);
    }
  }

  lemma WordLetters(l: Lane, s: int, tiles: seq<Tile>)
    requires Spelled(l, s, tiles)
    ensures RunLetters(After(l.g, NewTiles(l, s, tiles)), WordRun(l, s, tiles)) == PartLetters(tiles)
  {
    var after := After(l.g, NewTiles(l, s, tiles));
    forall j | 0 <= j < |tiles|
      ensures TileAt(after, Cell(l.dir, l.line, s + j)) == tiles[j]
    {
      WordOnBoard(l, s, tiles, j);
    }
    SameLetters(after, l.dir, l.line, s, tiles);
  }

  lemma WordIsSolid(l: Lane, s: int, tiles: seq<Tile>)
    requires l.Valid() && Spelled(l, s, tiles)
    ensures Solid(After(l.g, NewTiles(l, s, tiles)), WordRun(l, s, tiles))
  {
    SpelledFits(l, s, tiles);
    forall k | s <= k < s + |tiles|
      ensures Cell(l.dir, l.line, k) in After(l.g, NewTiles(l, s, tiles))
    {
      WordOnBoard(l, s, tiles, k - s);
    }
  }

  /** It is a maximal stretch that holds all new tiles and spells the dictionary word. */
  lemma WordIsRun(l: Lane, s: int, tiles: seq<Tile>, m: seq<Placement>)
    requires Completed(l, s, tiles, m) && tiles != []
    ensures IsRun(After(l.g, m), WordRun(l, s, tiles)) && Covers(WordRun(l, s, tiles), Positions(m))
    ensures RunLetters(After(l.g, m), WordRun(l, s, tiles)) == PartLetters(tiles)
  {
    var r := WordRun(l, s, tiles);
    WordIsSolid(l, s, tiles);
    WordCovers(l, s, tiles);
    WordLetters(l, s, tiles);
    assert !InRun(r, l.At(s - 1)) && !InRun(r, l.At(r.end));
  }

  /** Two filled neighbours share a word. */
  lemma NeighboursShareWord(after: Grid, p: Pos, q: Pos) returns (r: Run)
    requires p in after && q in after && InBounds(p) && InBounds(q)
    requires FilledNeighbour(map[q := Tile(0, false)], p)
    ensures IsRun(after, r) && InRun(r, p) && InRun(r, q) && r.Length() >= MIN_WORD_LENGTH
  {
    var d := if p.row == q.row then Horizontal else Vertical;
    r := RunAt(after, d, p);
    RunAtIsTheRun(after, d, p);
    RunAtIsTheRun(after, d, q);
    assert Cell(d, r.line, IndexOf(d, q)) == q && Cell(d, r.line, IndexOf(d, p)) == p;
  }

  /** Every new word of a completed move is in the dictionary. */
  lemma NewWordsInDictionary(l: Lane, s: int, tiles: seq<Tile>, m: seq<Placement>, w: Run)
    requires TrueTable(l) && Completed(l, s, tiles, m) && |tiles| >= MIN_WORD_LENGTH
    requires NewWord(After(l.g, m), Positions(m), w)
    ensures InDictionary(l.words, RunLetters(After(l.g, m), w))
  {
    var after := After(l.g, m);
    var p :| p in Positions(m) && InRun(w, p);
    var i :| 0 <= i < |m| && m[i].pos == p;
    WordIsRun(l, s, tiles, m);
    SameRun(after, w, p);
    if w.dir == l.dir {
      SameRun(after, WordRun(l, s, tiles), p);
    } else {
      CrossInDictionary(l, s, tiles, m, i);
    }
  }

  lemma CrossInDictionary(l: Lane, s: int, tiles: seq<Tile>, m: seq<Placement>, i: nat)
    requires TrueTable(l) && Completed(l, s, tiles, m) && i < |m|
    ensures InBounds(m[i].pos)
    ensures var cross := RunAt(After(l.g, m), Perpendicular(l.dir), m[i].pos);
            cross.Length() >= MIN_WORD_LENGTH ==> InDictionary(l.words, RunLetters(After(l.g, m), cross))
  {
    NewTilesAre(l, s, tiles, m[i]);
    NewTilesDistinct(l, s, tiles);
    forall j | 0 <= j < |m|
      ensures LineOf(l.dir, m[j].pos) == l.line
    {
      NewTilesAre(l, s, tiles, m[j]);
    }
    var k := IndexOf(l.dir, m[i].pos);
    SpelledAt(l, s, tiles, k - s);
    assert m[i].pos == l.At(k) && l.Allows(k, m[i].tile.letter);
    CrossWordAfterMove(l.g, l.words, l.dir, l.line, m, i);
  }

  lemma CompletedTouches(l: Lane, s: int, tiles: seq<Tile>, m: seq<Placement>, p: Pos) returns (r: Run)
    requires OnBoard(l.g) && Completed(l, s, tiles, m)
    requires p in Positions(m) && IsAnchor(l.g, p)
    ensures NewWord(After(l.g, m), Positions(m), r) && Touches(r, l.g.Keys)
  {
    var q: Pos;
    if Pos(p.row - 1, p.col) in l.g {
      q := Pos(p.row - 1, p.col);
    } else if Pos(p.row + 1, p.col) in l.g {
      q := Pos(p.row + 1, p.col);
    } else if Pos(p.row, p.col - 1) in l.g {
      q := Pos(p.row, p.col - 1);
    } else {
      q := Pos(p.row, p.col + 1);
    }
    r := NeighboursShareWord(After(l.g, m), p, q);
  }

  lemma CompletedWellPlaced(l: Lane, s: int, tiles: seq<Tile>, m: seq<Placement>)
    requires Completed(l, s, tiles, m) && |m| <= RACK_SIZE
    requires forall i :: 0 <= i < |m| ==> !m[i].tile.IsUnassignedBlank()
    ensures WellPlaced(l.g, m)
  {
    NewTilesDistinct(l, s, tiles);
    SpelledFits(l, s, tiles);
    forall i | 0 <= i < |m|
      ensures InBounds(m[i].pos) && m[i].pos !in l.g
    {
      NewTilesAre(l, s, tiles, m[i]);
    }
  }

  /** A completed word through a starting square is a legal move. */
  lemma CompletedIsLegal(l: Lane, s: int, tiles: seq<Tile>, m: seq<Placement>, p: Pos)
    requires TrueTable(l) && OnBoard(l.g) && Completed(l, s, tiles, m) && |tiles| >= MIN_WORD_LENGTH && |m| <= RACK_SIZE
    requires forall i :: 0 <= i < |m| ==> !m[i].tile.IsUnassignedBlank()
    requires p in Positions(m) && IsStart(l.g, p)
    ensures Legal(l.g, l.words, m)
  {
    var after, added := After(l.g, m), Positions(m);
    CompletedWellPlaced(l, s, tiles, m);
    WordIsRun(l, s, tiles, m);
    var r := WordRun(l, s, tiles);
    assert InRun(r, p);
    assert NewWord(after, added, r);
    if l.g != map[] {
      var w := CompletedTouches(l, s, tiles, m, p);
    }
    forall w | NewWord(after, added, w)
      ensures InDictionary(l.words, RunLetters(after, w))
    {
      NewWordsInDictionary(l, s, tiles, m, w);
    }
  }

  /** Whatever the search records can be paid from the rack, and is legal unless it plays a blank as letter 0. */
  lemma GeneratedIsLegal(g: Grid, words: Lexicon, avail: multiset<Tile>, m: seq<Placement>)
    requires OnBoard(g) && |avail| <= RACK_SIZE
    requires forall w :: w in words ==> |w| >= MIN_WORD_LENGTH
    requires Generated(g, words, avail, m)
    ensures Price(m) <= avail
    ensures Legal(g, words, m) <==> forall i :: 0 <= i < |m| ==> !m[i].tile.IsUnassignedBlank()
  {
    var p, d :| InBounds(p) && IsStart(g, p) && MoveFrom(g, words, avail, p, d, m);
    var l := LaneAt(g, words, d, p);
    assert l.At(IndexOf(d, p)) == p;
    var s, tiles := AnchorMoveSound(l, avail, IndexOf(d, p), m);
    PriceSize(m);
    assert avail == Price(m) + (avail - Price(m));
    if forall i :: 0 <= i < |m| ==> !m[i].tile.IsUnassignedBlank() {
      CompletedIsLegal(l, s, tiles, m, p);
    }
  }

  // ---------- the one kind of move that is recorded and refused ----------

  /** A two-letter word at the start of the game, with a blank for its first letter. */
  function BlankFirst(first: LetterID, second: LetterID): seq<Placement> {
    [Placement(CENTER, Tile(first, true)), Placement(Pos(CENTER.row, CENTER.col + 1), Tile(second, false))]
  }

  lemma OpenSquare(words: Lexicon, d: Direction, p: Pos, letter: LetterID)
    requires InBounds(p)
    ensures (IndexOf(d, p), letter) in CrossTable(map[], words, d, LineOf(d, p))
  {
    NonAnchorAllows(map[], words, d, p, letter);
    assert Cell(d, LineOf(d, p), IndexOf(d, p)) == p;
  }

  /** The search records the word with a blank first whatever its letters are, and it is legal exactly when the first
      is not letter 0. */
  lemma BlankFirstIsRecorded(first: LetterID, second: LetterID)
    ensures Generated(map[], {[first, second]}, multiset{BLANK_TILE, Tile(second, false)}, BlankFirst(first, second))
    ensures Legal(map[], {[first, second]}, BlankFirst(first, second)) <==> first != 0
  {
    var words, avail, m := {[first, second]}, multiset{BLANK_TILE, Tile(second, false)}, BlankFirst(first, second);
    var l := LaneAt(map[], words, Horizontal, CENTER);
    var a := CENTER.col;
    OpenSquare(words, Horizontal, CENTER, first);
    OpenSquare(words, Horizontal, Pos(CENTER.row, a + 1), second);
    var x, y := Tile(first, true), Tile(second, false);
    assert RightWord(l, avail - multiset{BLANK_TILE} - multiset{y}, [first, second], m, a + 2, true, [], m);
    assert [] + [first] + [second] == [first, second] && [] + [m[0]] + [m[1]] == m;
    assert RightWord(l, avail - multiset{BLANK_TILE}, [] + [first], [] + [m[0]], a + 1, true, [y], m);
    assert RightWord(l, avail, [], [], a, false, [x, y], m) by {
      assert [x, y][1..] == [y];
    }
    assert LeftWith(l, avail, [], a, LeftLimit(l, a), [], m);
    assert MoveFrom(map[], words, avail, CENTER, Horizontal, m);
    GeneratedIsLegal(map[], words, avail, m);
  }
}
