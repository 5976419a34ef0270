/** Completeness of the search: every legal move that the rack can pay for is recorded, up to the order of its
    placements. */
module SearchComplete {
  import opened Tiles
  import opened Grids
  import opened Moves
  import opened MoveLaws
  import opened Search
  import opened SearchSound

  // ---------- the word and the anchor to find it from ----------

  lemma OneSquare(r: Run, p: Pos, q: Pos)
    requires InRun(r, p) && InRun(r, q) && r.Length() < MIN_WORD_LENGTH
    ensures p == q
  {
  }

  lemma LongerWord(r: Run, w: Run, added: set<Pos>)
    requires Covers(r, added) && r.Length() < MIN_WORD_LENGTH && Touches(w, added)
    ensures Covers(w, added)
  {
    var p :| p in added && InRun(w, p);
    forall q | q in added
      ensures InRun(w, q)
    {
      OneSquare(r, p, q);
    }
  }

  /** All placements of a legal move lie in one word of the board after it. */
  lemma MainWord(g: Grid, words: Lexicon, pl: seq<Placement>) returns (r: Run)
    requires Legal(g, words, pl)
    ensures NewWord(After(g, pl), Positions(pl), r) && Covers(r, Positions(pl))
  {
    var after, added := After(g, pl), Positions(pl);
    r :| IsRun(after, r) && Covers(r, added);
    if r.Length() < MIN_WORD_LENGTH {
      var w :| NewWord(after, added, w);
      LongerWord(r, w, added);
      r := w;
    } else {
      assert pl[0].pos in added;
    }
  }

  /** Between a new and an old tile of a word there is a new tile next to an old one. */
  lemma {:induction false} Seam(g: Grid, after: Grid, r: Run, i: int, j: int) returns (k: int)
    requires IsRun(after, r) && r.start <= i < r.end && r.start <= j < r.end
    requires Cell(r.dir, r.line, i) !in g && Cell(r.dir, r.line, j) in g
    ensures r.start <= k < r.end && IsAnchor(g, Cell(r.dir, r.line, k))
    decreases if i < j then j - i else i - j
  {
    var next := if i < j then i + 1 else i - 1;
    if Cell(r.dir, r.line, next) in g {
      k := i;
    } else {
      k := Seam(g, after, r, next, j);
    }
  }

  lemma SomeAnchor(g: Grid, words: Lexicon, pl: seq<Placement>) returns (p: Pos)
    requires Legal(g, words, pl) && g != map[]
    ensures p in Positions(pl) && IsAnchor(g, p)
  {
    var after, added := After(g, pl), Positions(pl);
    var w :| NewWord(after, added, w) && Touches(w, g.Keys);
    var x :| x in added && InRun(w, x);
    var q :| q in g.Keys && InRun(w, q);
    assert Cell(w.dir, w.line, IndexOf(w.dir, x)) == x && Cell(w.dir, w.line, IndexOf(w.dir, q)) == q;
    var k := Seam(g, after, w, IndexOf(w.dir, x), IndexOf(w.dir, q));
    p := Cell(w.dir, w.line, k);
    assert p in after;
  }

  /** The first anchor of the line from offset `s` on. */
  lemma FirstAnchor(l: Lane, s: int, last: int) returns (a: int)
    requires s <= last && IsAnchor(l.g, l.At(last))
    ensures s <= a <= last && IsAnchor(l.g, l.At(a))
    ensures forall k :: s <= k < a ==> !IsAnchor(l.g, l.At(k))
  {
    a := s;
    while !IsAnchor(l.g, l.At(a))
      invariant s <= a <= last
      invariant forall k :: s <= k < a ==> !IsAnchor(l.g, l.At(k))
      decreases last - a
    {
      a := a + 1;
    }
  }

  /** The first starting square of the word: no square before it is an anchor. */
  lemma FirstStart(g: Grid, words: Lexicon, pl: seq<Placement>, l: Lane, r: Run) returns (a: int)
    requires Legal(g, words, pl) && l.g == g && l.dir == r.dir && l.line == r.line
    requires Covers(r, Positions(pl))
    ensures r.start <= a < r.end && l.At(a) !in g && IsStart(g, l.At(a))
    ensures forall k :: r.start <= k < a ==> !IsAnchor(g, l.At(k))
  {
    if g == map[] {
      a := IndexOf(r.dir, CENTER);
      assert InRun(r, CENTER);
    } else {
      var p := SomeAnchor(g, words, pl);
      assert InRun(r, p) && l.At(IndexOf(r.dir, p)) == p;
      a := FirstAnchor(l, r.start, IndexOf(r.dir, p));
    }
  }

  // ---------- what is left of the anchor ----------

  lemma {:induction false} AllOldBefore(l: Lane, s: int, a: int)
    requires l.Valid() && 0 <= s < a < BOARD_SIZE && l.At(a - 1) in l.g
    requires forall k :: s <= k < a ==> !IsAnchor(l.g, l.At(k))
    ensures forall k :: s <= k < a ==> l.At(k) in l.g
    decreases a
  {
    if s < a - 1 {
      assert !IsAnchor(l.g, l.At(a - 2));
      AllOldBefore(l, s, a - 1);
    }
  }

  lemma {:induction false} AllNewBefore(l: Lane, s: int, a: int)
    requires l.Valid() && 0 <= s < a < BOARD_SIZE && l.At(a - 1) !in l.g
    requires forall k :: s <= k < a ==> !IsAnchor(l.g, l.At(k))
    ensures forall k :: s <= k < a ==> l.At(k) !in l.g && !IsAnchor(l.g, l.At(k))
    decreases a
  {
    assert !IsAnchor(l.g, l.At(a - 1));
    if s < a - 1 {
      if l.At(a - 2) in l.g {
        BesideFilled(l, a - 1);
      }
      AllNewBefore(l, s, a - 1);
    }
  }

  /** The tiles of `word` before the anchor, which the walk from the anchor continues. */
  lemma {:induction false} LeftWalks(l: Lane, avail: multiset<Tile>, part: seq<Tile>, a: int, limit: nat,
                                     more: seq<Tile>, m: seq<Placement>)
    requires |more| <= limit && Cost(more) <= avail
    requires RightMove(l, avail - Cost(more), PartLetters(part + more), LeftPlacements(l, part + more, a), a, false, m)
    ensures LeftWith(l, avail, part, a, limit, more, m)
    decreases |more|
  {
    if more == [] {
      assert part + more == part;
      assert avail - Cost(more) == avail;
    } else {
      var t := more[0];
      assert part + [t] + more[1..] == part + more;
      PayOne(Norm(t), Cost(more[1..]), avail);
      LeftWalks(l, avail - multiset{Norm(t)}, part + [t], a, limit - 1, more[1..], m);
    }
  }

  /** With no room for a left part, the word goes on from the tiles already there. */
  lemma FromOldTiles(l: Lane, avail: multiset<Tile>, s: int, a: int, right: seq<Tile>, m: seq<Placement>)
    requires l.Valid() && 0 <= s <= a < BOARD_SIZE && LeftLimit(l, a) == 0
    requires s > 0 ==> l.At(s - 1) !in l.g
    requires forall k :: s <= k < a ==> l.At(k) in l.g
    requires Continues(l, avail, Letters(l.g, l.dir, l.line, s, a), [], a, false, right, m)
    ensures AnchorMove(l, avail, a, m)
  {
    var t := RunStart(l.g, l.dir, l.line, a);
    RunStartIs(l.g, l.dir, l.line, a);
    assert t < s ==> Cell(l.dir, l.line, s - 1) in l.g;
    assert s < t ==> l.At(t - 1) in l.g;
    ContinuationWalks(l, avail, Letters(l.g, l.dir, l.line, s, a), [], a, false, right, m);
  }

  /** Otherwise the tiles before the anchor are new, and the search lays them as its left part. */
  lemma FromLeftPart(l: Lane, avail: multiset<Tile>, a: int, left: seq<Tile>, right: seq<Tile>, m: seq<Placement>)
    requires l.Valid() && 0 <= a < BOARD_SIZE && |left| <= LeftLimit(l, a) && 0 < LeftLimit(l, a)
    requires Cost(left) <= avail
    requires Continues(l, avail - Cost(left), PartLetters(left), LeftPlacements(l, left, a), a, false, right, m)
    ensures AnchorMove(l, avail, a, m)
  {
    ContinuationWalks(l, avail - Cost(left), PartLetters(left), LeftPlacements(l, left, a), a, false, right, m);
    assert [] + left == left;
    LeftWalks(l, avail, [], a, LeftLimit(l, a), left, m);
  }

  lemma RecordedAfterOld(l: Lane, avail: multiset<Tile>, s: int, left: seq<Tile>, right: seq<Tile>, m: seq<Placement>)
    requires Completed(l, s, left + right, m) && Price(m) <= avail
    requires right != [] && l.At(s + |left|) !in l.g && s + |left| < BOARD_SIZE && LeftLimit(l, s + |left|) == 0
    requires forall k :: s <= k < s + |left| ==> !IsAnchor(l.g, l.At(k))
    ensures AnchorMove(l, avail, s + |left|, m)
  {
    SpelledConcat(l, s, left, right);
    SpelledFits(l, s, left);
    RightOfAnchor(l, s, left, right, m);
    OldLeft(l, s, s + |left|, left);
    assert [] + NewTiles(l, s + |left|, right) == NewTiles(l, s + |left|, right);
    FromOldTiles(l, avail, s, s + |left|, right, m);
  }

  lemma PayRest(first: multiset<Tile>, rest: multiset<Tile>, avail: multiset<Tile>)
    requires first + rest <= avail
    ensures first <= avail && rest <= avail - first
  {
  }

  lemma RestIsPaid(l: Lane, avail: multiset<Tile>, left: seq<Tile>, a: int, rest: seq<Placement>)
    requires Price(LeftPlacements(l, left, a) + rest) <= avail
    ensures Cost(left) <= avail && Price(rest) <= avail - Cost(left)
  {
    LeftPartCost(l, left, a);
    PriceConcat(LeftPlacements(l, left, a), rest);
    PayRest(Cost(left), Price(rest), avail);
  }

  lemma RightOfAnchor(l: Lane, s: int, left: seq<Tile>, right: seq<Tile>, m: seq<Placement>)
    requires Completed(l, s, left + right, m) && right != [] && l.At(s + |left|) !in l.g
    ensures Spelled(l, s + |left|, right) && IsEnd(l, s + |left| + |right|)
    ensures PartLetters(left) + PartLetters(right) in l.words
    ensures m == NewTiles(l, s, left) + NewTiles(l, s + |left|, right)
    ensures NewTiles(l, s + |left|, right) != []
  {
    SpelledConcat(l, s, left, right);
    assert s + |left + right| == s + |left| + |right|;
  }

  lemma RecordedAfterNew(l: Lane, avail: multiset<Tile>, s: int, left: seq<Tile>, right: seq<Tile>, m: seq<Placement>)
    requires Completed(l, s, left + right, m) && Price(m) <= avail
    requires right != [] && l.At(s + |left|) !in l.g && s + |left| < BOARD_SIZE && LeftLimit(l, s + |left|) > 0
    requires forall k :: s <= k < s + |left| ==> !IsAnchor(l.g, l.At(k))
    ensures AnchorMove(l, avail, s + |left|, m)
  {
    var a := s + |left|;
    SpelledFits(l, s, left + right);
    RightOfAnchor(l, s, left, right, m);
    NewLeft(l, s, a, left);
    RestIsPaid(l, avail, left, a, NewTiles(l, a, right));
    FromLeftPart(l, avail, a, left, right, m);
  }

  /** A completed word whose first starting square is at offset `a` is recorded from there. */
  lemma CompletedIsRecorded(l: Lane, avail: multiset<Tile>, s: int, tiles: seq<Tile>, a: int, m: seq<Placement>)
    requires Completed(l, s, tiles, m) && Price(m) <= avail
    requires 0 <= s <= a < s + |tiles| && l.At(a) !in l.g
    requires forall k :: s <= k < a ==> !IsAnchor(l.g, l.At(k))
    ensures AnchorMove(l, avail, a, m)
  {
    var left, right := tiles[..a - s], tiles[a - s..];
    assert tiles == left + right;
    if LeftLimit(l, a) == 0 {
      RecordedAfterOld(l, avail, s, left, right, m);
    } else {
      RecordedAfterNew(l, avail, s, left, right, m);
    }
  }

  lemma OldLeft(l: Lane, s: int, a: int, left: seq<Tile>)
    requires l.Valid() && 0 <= s <= a < BOARD_SIZE && LeftLimit(l, a) == 0 && |left| == a - s && Spelled(l, s, left)
    requires forall k :: s <= k < a ==> !IsAnchor(l.g, l.At(k))
    ensures forall k :: s <= k < a ==> l.At(k) in l.g
    ensures NewTiles(l, s, left) == [] && PartLetters(left) == Letters(l.g, l.dir, l.line, s, a)
  {
    if s < a {
      assert !IsAnchor(l.g, l.At(a - 1));
      AllOldBefore(l, s, a);
    }
    OldTiles(l, s, left);
  }

  lemma {:induction false} OldTiles(l: Lane, s: int, left: seq<Tile>)
    requires Spelled(l, s, left) && forall k :: s <= k < s + |left| ==> l.At(k) in l.g
    ensures NewTiles(l, s, left) == [] && PartLetters(left) == Letters(l.g, l.dir, l.line, s, s + |left|)
    decreases |left|
  {
    if left != [] {
      assert l.At(s) in l.g;
      OldTiles(l, s + 1, left[1..]);
      assert s + 1 + |left[1..]| == s + |left|;
    }
  }

  lemma NewLeft(l: Lane, s: int, a: int, left: seq<Tile>)
    requires l.Valid() && 0 <= s <= a < BOARD_SIZE && LeftLimit(l, a) > 0 && |left| == a - s
    requires forall k :: s <= k < a ==> !IsAnchor(l.g, l.At(k))
    ensures |left| <= LeftLimit(l, a)
    ensures NewTiles(l, s, left) == LeftPlacements(l, left, a)
  {
    var n := LeftLimit(l, a);
    LeftLimitIs(l, a);
    assert l.At(a - 1) !in l.g;
    if s < a {
      AllNewBefore(l, s, a);
      assert n < a - s ==> l.At(a - n - 1) !in l.g && !IsAnchor(l.g, l.At(a - n - 1));
    }
    LeftPartIsNew(l, s, left);
  }

  // ---------- the word of a legal move ----------

  lemma {:induction false} SpelledFrom(l: Lane, after: Grid, s: int, e: int)
    requires 0 <= s <= e <= BOARD_SIZE
    requires forall k :: s <= k < e ==> l.At(k) in after &&
                                        if l.At(k) in l.g then after[l.At(k)] == l.g[l.At(k)]
                                          else l.Allows(k, after[l.At(k)].letter)
    ensures Spelled(l, s, TilesAlong(l.(g := after), s, e))
    decreases e - s
  {
    if s < e {
      assert l.At(s) in after;
      SpelledFrom(l, after, s + 1, e);
      assert TilesAlong(l.(g := after), s, e)[1..] == TilesAlong(l.(g := after), s + 1, e);
    }
  }

  lemma {:induction false} TilesAlongAre(l: Lane, s: int, e: int, k: int)
    requires s <= k < e
    ensures TilesAlong(l, s, e)[k - s] == TileAt(l.g, l.At(k))
    decreases e - s
  {
    if s < k {
      TilesAlongAre(l, s + 1, e, k);
    }
  }

  /** The cross checks of the line allow every tile of a legal move. */
  lemma LegalTileAllowed(l: Lane, pl: seq<Placement>, r: Run, i: nat)
    requires TrueTable(l) && Legal(l.g, l.words, pl) && i < |pl|
    requires l.dir == r.dir && l.line == r.line && Covers(r, Positions(pl))
    ensures l.Allows(IndexOf(l.dir, pl[i].pos), pl[i].tile.letter)
  {
    var after, p, c := After(l.g, pl), pl[i].pos, Perpendicular(l.dir);
    assert p in Positions(pl);
    forall j | 0 <= j < |pl|
      ensures LineOf(l.dir, pl[j].pos) == l.line
    {
      assert pl[j].pos in Positions(pl);
    }
    CrossWordAfterMove(l.g, l.words, l.dir, l.line, pl, i);
    RunAtIsTheRun(after, c, p);
    if RunAt(after, c, p).Length() >= MIN_WORD_LENGTH {
      assert NewWord(after, Positions(pl), RunAt(after, c, p));
    }
    assert Cell(l.dir, l.line, IndexOf(l.dir, p)) == p;
  }

  lemma LegalWordSpelled(l: Lane, pl: seq<Placement>, r: Run)
    requires TrueTable(l) && Legal(l.g, l.words, pl)
    requires l.dir == r.dir && l.line == r.line && IsRun(After(l.g, pl), r) && Covers(r, Positions(pl))
    ensures Spelled(l, r.start, TilesAlong(l.(g := After(l.g, pl)), r.start, r.end))
  {
    var after := After(l.g, pl);
    PlacedIs(pl);
    forall k | r.start <= k < r.end
      ensures l.At(k) in after
      ensures if l.At(k) in l.g then after[l.At(k)] == l.g[l.At(k)] else l.Allows(k, after[l.At(k)].letter)
    {
      assert Cell(r.dir, r.line, k) in after;
      if l.At(k) !in l.g {
        var i :| 0 <= i < |pl| && pl[i].pos == l.At(k);
        LegalTileAllowed(l, pl, r, i);
      }
    }
    SpelledFrom(l, after, r.start, r.end);
  }

  /** A new tile of the word is a placement of the move. */
  lemma NewTileIsPlaced(l: Lane, pl: seq<Placement>, r: Run, x: Placement, k: int)
    requires WellPlaced(l.g, pl) && l.dir == r.dir && l.line == r.line && IsRun(After(l.g, pl), r)
    requires r.start <= k < r.end && x.pos == l.At(k) && x.pos !in l.g && x.tile == TileAt(After(l.g, pl), x.pos)
    ensures x in pl
  {
    PlacedIs(pl);
    assert Cell(r.dir, r.line, k) in After(l.g, pl);
    var i :| 0 <= i < |pl| && pl[i].pos == x.pos;
    assert x == pl[i];
  }

  /** A placement of the move is a new tile on the word's line. */
  lemma PlacedIsNewTile(l: Lane, pl: seq<Placement>, r: Run, x: Placement)
    requires WellPlaced(l.g, pl) && l.dir == r.dir && l.line == r.line && Covers(r, Positions(pl)) && x in pl
    ensures InRun(r, x.pos) && x.pos !in l.g && x.pos in After(l.g, pl) && After(l.g, pl)[x.pos] == x.tile
  {
    PlacedIs(pl);
    var i :| 0 <= i < |pl| && pl[i] == x;
    assert pl[i].pos in Positions(pl);
  }

  /** The placements of a legal move are the new tiles of its word. */
  lemma SameTiles(l: Lane, pl: seq<Placement>, r: Run, x: Placement)
    requires WellPlaced(l.g, pl)
    requires l.dir == r.dir && l.line == r.line && IsRun(After(l.g, pl), r) && Covers(r, Positions(pl))
    ensures x in NewTiles(l, r.start, TilesAlong(l.(g := After(l.g, pl)), r.start, r.end)) <==> x in pl
  {
    var after := After(l.g, pl);
    var tiles, k := TilesAlong(l.(g := after), r.start, r.end), IndexOf(l.dir, x.pos);
    NewTilesAre(l, r.start, tiles, x);
    if LineOf(l.dir, x.pos) == l.line && r.start <= k < r.end {
      assert x.pos == l.At(k);
      TilesAlongAre(l.(g := after), r.start, r.end, k);
      if x.pos !in l.g && x.tile == TileAt(after, x.pos) {
        NewTileIsPlaced(l, pl, r, x, k);
      }
    }
    if x in pl {
      PlacedIsNewTile(l, pl, r, x);
    }
  }

  lemma {:induction false} DistinctCount(a: seq<Placement>, x: Placement)
    requires Distinct(a)
    ensures multiset(a)[x] == if x in a then 1 else 0
    decreases |a|
  {
    if a != [] {
      var init, last := a[..|a| - 1], a[|a| - 1];
      assert a == init + [last];
      DistinctCount(init, x);
      assert forall i :: 0 <= i < |init| ==> init[i] == a[i] && a[i].pos != last.pos;
    }
  }

  lemma SameMultiset(a: seq<Placement>, b: seq<Placement>)
    requires Distinct(a) && Distinct(b)
    requires forall x :: x in a <==> x in b
    ensures multiset(a) == multiset(b)
  {
    forall x
      ensures multiset(a)[x] == multiset(b)[x]
    {
      DistinctCount(a, x);
      DistinctCount(b, x);
    }
  }

  lemma TakeOut(b: seq<Placement>, i: nat)
    requires i < |b|
    ensures multiset(b[..i] + b[i + 1..]) == multiset(b) - multiset{b[i]}
    ensures Price(b) == Price([b[i]]) + Price(b[..i] + b[i + 1..])
  {
    assert b == b[..i] + [b[i]] + b[i + 1..];
    PriceConcat(b[..i] + [b[i]], b[i + 1..]);
    PriceConcat(b[..i], [b[i]]);
    PriceConcat(b[..i], b[i + 1..]);
  }

  lemma FindIn(x: Placement, b: seq<Placement>) returns (i: nat)
    requires x in b
    ensures i < |b| && b[i] == x
  {
    i :| 0 <= i < |b| && b[i] == x;
  }

  lemma {:induction false} PriceOfElements(a: seq<Placement>, b: seq<Placement>)
    requires multiset(a) == multiset(b)
    ensures Price(a) == Price(b)
    decreases |a|
  {
    SameElements(a, b);
    if a != [] {
      var i := FindIn(a[0], b);
      TakeOut(a, 0);
      TakeOut(b, i);
      PriceOfElements(a[..0] + a[1..], b[..i] + b[i + 1..]);
    }
  }

  lemma SameMove(l: Lane, pl: seq<Placement>, r: Run)
    requires WellPlaced(l.g, pl)
    requires l.dir == r.dir && l.line == r.line && IsRun(After(l.g, pl), r) && Covers(r, Positions(pl))
    ensures multiset(NewTiles(l, r.start, TilesAlong(l.(g := After(l.g, pl)), r.start, r.end))) == multiset(pl)
  {
    var tiles := TilesAlong(l.(g := After(l.g, pl)), r.start, r.end);
    var m := NewTiles(l, r.start, tiles);
    forall x
      ensures x in m <==> x in pl
    {
      SameTiles(l, pl, r, x);
    }
    NewTilesDistinct(l, r.start, tiles);
    SameMultiset(m, pl);
  }

  lemma SameWord(l: Lane, after: Grid, r: Run)
    requires l.dir == r.dir && l.line == r.line && IsRun(after, r)
    ensures PartLetters(TilesAlong(l.(g := after), r.start, r.end)) == RunLetters(after, r)
  {
    forall k | r.start <= k < r.end
      ensures l.(g := after).At(k) in after
    {
      assert Cell(r.dir, r.line, k) in after;
    }
    TilesAlongSpelled(l.(g := after), r.start, r.end);
  }

  lemma RunEdges(g: Grid, pl: seq<Placement>, l: Lane, r: Run)
    requires l.g == g && l.dir == r.dir && l.line == r.line && IsRun(After(g, pl), r)
    ensures r.start > 0 ==> l.At(r.start - 1) !in g
    ensures IsEnd(l, r.end)
  {
  }

  lemma LegalWordIn(g: Grid, words: Lexicon, pl: seq<Placement>, r: Run)
    requires Legal(g, words, pl) && NewWord(After(g, pl), Positions(pl), r)
    ensures WellPlaced(g, pl) && RunLetters(After(g, pl), r) in words
  {
  }

  lemma WordIsCompleted(l: Lane, pl: seq<Placement>, r: Run) returns (tiles: seq<Tile>, m: seq<Placement>)
    requires l.Valid() && l.dir == r.dir && l.line == r.line
    requires IsRun(After(l.g, pl), r) && Covers(r, Positions(pl))
    requires WellPlaced(l.g, pl) && RunLetters(After(l.g, pl), r) in l.words
    requires Spelled(l, r.start, TilesAlong(l.(g := After(l.g, pl)), r.start, r.end))
    ensures Completed(l, r.start, tiles, m) && |tiles| == r.end - r.start
    ensures multiset(m) == multiset(pl)
  {
    tiles := TilesAlong(l.(g := After(l.g, pl)), r.start, r.end);
    m := NewTiles(l, r.start, tiles);
    SameWord(l, After(l.g, pl), r);
    SameMove(l, pl, r);
    RunEdges(l.g, pl, l, r);
    NotEmptyEither(m, pl);
  }

  lemma NotEmptyEither(a: seq<Placement>, b: seq<Placement>)
    requires multiset(a) == multiset(b) && b != []
    ensures a != []
  {
    assert b[0] in multiset(b);
  }

  /** Every legal move that the rack can pay for is recorded, up to the order of its placements. */
  lemma LegalIsGenerated(g: Grid, words: Lexicon, avail: multiset<Tile>, pl: seq<Placement>) returns (m: seq<Placement>)
    requires OnBoard(g) && Legal(g, words, pl) && Price(pl) <= avail
    ensures Generated(g, words, avail, m) && multiset(m) == multiset(pl)
  {
    var r := MainWord(g, words, pl);
    var l := Lane(g, words, r.dir, r.line, CrossTable(g, words, r.dir, r.line));
    var a := FirstStart(g, words, pl, l, r);
    var tiles;
    LegalWordIn(g, words, pl, r);
    LegalWordSpelled(l, pl, r);
    tiles, m := WordIsCompleted(l, pl, r);
    PriceOfElements(m, pl);
    CompletedIsRecorded(l, avail, r.start, tiles, a, m);
    var p := l.At(a);
    assert LaneAt(g, words, r.dir, p) == l;
    assert MoveFrom(g, words, avail, p, r.dir, m);
  }
}
