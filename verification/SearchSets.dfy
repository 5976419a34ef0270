/** The moves recorded by each part of the search, as sets: how the whole is put together from its steps. */
module SearchSets {
  import opened Tiles
  import opened Grids
  import opened Moves
  import opened Search
  import opened Dawgs

  type Move = seq<Placement>

  ghost function Recorded(out: seq<Move>): iset<Move> {
    iset m | m in out
  }

  lemma RecordedConcat(a: seq<Move>, b: seq<Move>)
    ensures Recorded(a + b) == Recorded(a) + Recorded(b)
  {
    assert forall m :: m in a + b <==> m in a || m in b;
  }

  ghost function RightSet(l: Lane, avail: multiset<Tile>, path: seq<LetterID>, pl: Move, i: int,
                          placed: bool): iset<Move> {
    iset m | RightMove(l, avail, path, pl, i, placed, m)
  }

  /** What is recorded by stopping here. */
  ghost function StopSet(l: Lane, path: seq<LetterID>, pl: Move, placed: bool): iset<Move> {
    if path in l.words && placed && pl != [] then iset{pl} else iset{}
  }

  /** What is recorded by placing `t` on offset `i`. */
  ghost function ViaSet(l: Lane, avail: multiset<Tile>, path: seq<LetterID>, pl: Move, i: int, t: Tile): iset<Move> {
    if l.Allows(i, t.letter) && Norm(t) in avail
    then RightSet(l, avail - multiset{Norm(t)}, path + [t.letter], pl + [Placement(l.At(i), t)], i + 1, true)
    else iset{}
  }

  /** What is recorded by placing one of the first `k` letters, as a tile or as a blank. */
  ghost function EdgesSet(letters: seq<LetterID>, k: nat, l: Lane, avail: multiset<Tile>, path: seq<LetterID>, pl: Move,
                          i: int): iset<Move>
    requires k <= |letters|
    decreases k
  {
    if k == 0 then iset{}
    else
      var c := letters[k - 1];
      EdgesSet(letters, k - 1, l, avail, path, pl, i)
      + ViaSet(l, avail, path, pl, i, Tile(c, false)) + ViaSet(l, avail, path, pl, i, Tile(c, true))
  }

  lemma UnionAssoc(a: iset<Move>, b: iset<Move>, c: iset<Move>)
    ensures a + b + c == a + (b + c)
  {
  }

  lemma EdgesStep(letters: seq<LetterID>, k: nat, l: Lane, avail: multiset<Tile>, path: seq<LetterID>, pl: Move, i: int)
    requires k < |letters|
    ensures EdgesSet(letters, k + 1, l, avail, path, pl, i) ==
            EdgesSet(letters, k, l, avail, path, pl, i) +
            (ViaSet(l, avail, path, pl, i, Tile(letters[k], false)) +
             ViaSet(l, avail, path, pl, i, Tile(letters[k], true)))
  {
    UnionAssoc(EdgesSet(letters, k, l, avail, path, pl, i), ViaSet(l, avail, path, pl, i, Tile(letters[k], false)),
               ViaSet(l, avail, path, pl, i, Tile(letters[k], true)));
  }

  lemma ViaSetIs(l: Lane, avail: multiset<Tile>, path: seq<LetterID>, pl: Move, i: int, t: Tile, m: Move)
    ensures m in ViaSet(l, avail, path, pl, i, t) <==> RightVia(l, avail, path, pl, i, t, m)
  {
  }

  lemma {:induction false} EdgesSetIs(letters: seq<LetterID>, k: nat, l: Lane, avail: multiset<Tile>,
                                      path: seq<LetterID>, pl: Move, i: int, m: Move)
    requires k <= |letters|
    ensures m in EdgesSet(letters, k, l, avail, path, pl, i) <==>
            exists j, b :: 0 <= j < k && RightVia(l, avail, path, pl, i, Tile(letters[j], b), m)
    decreases k
  {
    if k > 0 {
      EdgesSetIs(letters, k - 1, l, avail, path, pl, i, m);
      ViaSetIs(l, avail, path, pl, i, Tile(letters[k - 1], false), m);
      ViaSetIs(l, avail, path, pl, i, Tile(letters[k - 1], true), m);
      if j, b :| 0 <= j < k && RightVia(l, avail, path, pl, i, Tile(letters[j], b), m) {
        assert j < k - 1 || j == k - 1;
      }
    }
  }

  lemma AtEdge(l: Lane, avail: multiset<Tile>, path: seq<LetterID>, pl: Move, placed: bool)
    ensures RightSet(l, avail, path, pl, BOARD_SIZE, placed) == StopSet(l, path, pl, placed)
  {
    forall m
      ensures m in RightSet(l, avail, path, pl, BOARD_SIZE, placed) <==> m in StopSet(l, path, pl, placed)
    {
      RightAtEdge(l, avail, path, pl, placed, m);
    }
  }

  lemma Through(l: Lane, avail: multiset<Tile>, path: seq<LetterID>, pl: Move, i: int, placed: bool)
    requires 0 <= i < BOARD_SIZE && l.At(i) in l.g
    ensures RightSet(l, avail, path, pl, i, placed) ==
            RightSet(l, avail, path + [l.g[l.At(i)].letter], pl, i + 1, placed)
  {
    forall m: Move
      ensures m in RightSet(l, avail, path, pl, i, placed) <==>
              m in RightSet(l, avail, path + [l.g[l.At(i)].letter], pl, i + 1, placed)
    {
      RightThrough(l, avail, path, pl, i, placed, m);
    }
  }

  // ---------- the trie prunes only what cannot be completed ----------

  lemma PrefixIn(d: DAWG, words: Lexicon, path: seq<LetterID>)
    requires d.Valid() && d.words == words && exists v :: v in words && path <= v
    ensures path in d.nodes
  {
    var v :| v in words && path <= v;
    PrefixesAreNodes(d, v, |path|);
    assert v[..|path|] == path;
  }

  /** Where the trie has no node, the walk records nothing. */
  lemma DeadEnd(d: DAWG, l: Lane, avail: multiset<Tile>, path: seq<LetterID>, pl: Move, i: int, placed: bool)
    requires d.Valid() && d.words == l.words && path !in d.nodes
    ensures RightSet(l, avail, path, pl, i, placed) == iset{}
  {
    forall m
      ensures !RightMove(l, avail, path, pl, i, placed, m)
    {
      if w :| RightWord(l, avail, path, pl, i, placed, w, m) {
        RightWordPrefix(l, avail, path, pl, i, placed, w, m);
        PrefixIn(d, l.words, path);
        assert false;
      }
    }
  }

  lemma ViaNeedsNode(d: DAWG, l: Lane, avail: multiset<Tile>, path: seq<LetterID>, pl: Move, i: int, t: Tile, m: Move)
    requires d.Valid() && d.words == l.words && RightVia(l, avail, path, pl, i, t, m)
    ensures path + [t.letter] in d.nodes
  {
    var less, longer, more := avail - multiset{Norm(t)}, path + [t.letter], pl + [Placement(l.At(i), t)];
    var w :| RightWord(l, less, longer, more, i + 1, true, w, m);
    RightWordPrefix(l, less, longer, more, i + 1, true, w, m);
    PrefixIn(d, l.words, longer);
  }

  /** On an empty square: stop, or place a letter that has an edge. */
  lemma Choices(d: DAWG, letters: seq<LetterID>, l: Lane, avail: multiset<Tile>, path: seq<LetterID>, pl: Move, i: int,
                placed: bool)
    requires d.Valid() && d.words == l.words && 0 <= i < BOARD_SIZE && l.At(i) !in l.g
    requires forall c: LetterID :: path + [c] in d.nodes ==> c in letters
    ensures RightSet(l, avail, path, pl, i, placed) ==
            StopSet(l, path, pl, placed) + EdgesSet(letters, |letters|, l, avail, path, pl, i)
  {
    forall m
      ensures m in RightSet(l, avail, path, pl, i, placed) <==>
              m in StopSet(l, path, pl, placed) + EdgesSet(letters, |letters|, l, avail, path, pl, i)
    {
      RightChoices(l, avail, path, pl, i, placed, m);
      EdgesSetIs(letters, |letters|, l, avail, path, pl, i, m);
      if t :| RightVia(l, avail, path, pl, i, t, m) {
        ViaNeedsNode(d, l, avail, path, pl, i, t, m);
        var j :| 0 <= j < |letters| && letters[j] == t.letter;
        assert t == Tile(letters[j], t.blank);
      }
    }
  }

  // ---------- the left part ----------

  ghost function LeftSet(l: Lane, avail: multiset<Tile>, part: seq<Tile>, a: int, limit: nat): iset<Move> {
    iset m | LeftMove(l, avail, part, a, limit, m)
  }

  ghost function LeftViaSet(l: Lane, avail: multiset<Tile>, part: seq<Tile>, a: int, limit: nat, t: Tile): iset<Move> {
    if limit > 0 && Norm(t) in avail then LeftSet(l, avail - multiset{Norm(t)}, part + [t], a, limit - 1) else iset{}
  }

  ghost function LeftEdgesSet(letters: seq<LetterID>, k: nat, l: Lane, avail: multiset<Tile>, part: seq<Tile>, a: int,
                              limit: nat): iset<Move>
    requires k <= |letters|
    decreases k
  {
    if k == 0 then iset{}
    else
      var c := letters[k - 1];
      LeftEdgesSet(letters, k - 1, l, avail, part, a, limit)
      + LeftViaSet(l, avail, part, a, limit, Tile(c, false)) + LeftViaSet(l, avail, part, a, limit, Tile(c, true))
  }

  lemma LeftEdgesStep(letters: seq<LetterID>, k: nat, l: Lane, avail: multiset<Tile>, part: seq<Tile>, a: int,
                      limit: nat)
    requires k < |letters|
    ensures LeftEdgesSet(letters, k + 1, l, avail, part, a, limit) ==
            LeftEdgesSet(letters, k, l, avail, part, a, limit) +
            (LeftViaSet(l, avail, part, a, limit, Tile(letters[k], false)) +
             LeftViaSet(l, avail, part, a, limit, Tile(letters[k], true)))
  {
    UnionAssoc(LeftEdgesSet(letters, k, l, avail, part, a, limit),
               LeftViaSet(l, avail, part, a, limit, Tile(letters[k], false)),
               LeftViaSet(l, avail, part, a, limit, Tile(letters[k], true)));
  }

  lemma LeftViaSetIs(l: Lane, avail: multiset<Tile>, part: seq<Tile>, a: int, limit: nat, t: Tile, m: Move)
    ensures m in LeftViaSet(l, avail, part, a, limit, t) <==> LeftVia(l, avail, part, a, limit, t, m)
  {
  }

  lemma {:induction false} LeftEdgesSetIs(letters: seq<LetterID>, k: nat, l: Lane, avail: multiset<Tile>,
                                          part: seq<Tile>, a: int, limit: nat, m: Move)
    requires k <= |letters|
    ensures m in LeftEdgesSet(letters, k, l, avail, part, a, limit) <==>
            exists j, b :: 0 <= j < k && LeftVia(l, avail, part, a, limit, Tile(letters[j], b), m)
    decreases k
  {
    if k > 0 {
      LeftEdgesSetIs(letters, k - 1, l, avail, part, a, limit, m);
      LeftViaSetIs(l, avail, part, a, limit, Tile(letters[k - 1], false), m);
      LeftViaSetIs(l, avail, part, a, limit, Tile(letters[k - 1], true), m);
      if j, b :| 0 <= j < k && LeftVia(l, avail, part, a, limit, Tile(letters[j], b), m) {
        assert j < k - 1 || j == k - 1;
      }
    }
  }

  lemma LeftViaNeedsNode(d: DAWG, l: Lane, avail: multiset<Tile>, part: seq<Tile>, a: int, limit: nat, t: Tile, m: Move)
    requires d.Valid() && d.words == l.words && LeftVia(l, avail, part, a, limit, t, m)
    ensures PartLetters(part) + [t.letter] in d.nodes
  {
    var less, longer := avail - multiset{Norm(t)}, part + [t];
    var more :| LeftWith(l, less, longer, a, limit - 1, more, m);
    LeftWithPrefix(l, less, longer, a, limit - 1, more, m);
    PartLettersConcat(part, [t]);
    assert PartLetters([t]) == [t.letter];
    PrefixIn(d, l.words, PartLetters(longer));
  }

  /** Extend to the right now, or add to the left part a letter that has an edge. */
  lemma LeftSteps(d: DAWG, letters: seq<LetterID>, l: Lane, avail: multiset<Tile>, part: seq<Tile>, a: int, limit: nat)
    requires d.Valid() && d.words == l.words
    requires forall c: LetterID :: PartLetters(part) + [c] in d.nodes ==> c in letters
    ensures LeftSet(l, avail, part, a, limit) ==
            RightSet(l, avail, PartLetters(part), LeftPlacements(l, part, a), a, false)
            + LeftEdgesSet(letters, |letters|, l, avail, part, a, limit)
  {
    forall m
      ensures m in LeftSet(l, avail, part, a, limit) <==>
              m in RightSet(l, avail, PartLetters(part), LeftPlacements(l, part, a), a, false)
              + LeftEdgesSet(letters, |letters|, l, avail, part, a, limit)
    {
      LeftChoices(l, avail, part, a, limit, m);
      LeftEdgesSetIs(letters, |letters|, l, avail, part, a, limit, m);
      if t :| LeftVia(l, avail, part, a, limit, t, m) {
        LeftViaNeedsNode(d, l, avail, part, a, limit, t, m);
        var j :| 0 <= j < |letters| && letters[j] == t.letter;
        assert t == Tile(letters[j], t.blank);
      }
    }
  }

  lemma NoMoreLeft(letters: seq<LetterID>, k: nat, l: Lane, avail: multiset<Tile>, part: seq<Tile>, a: int)
    requires k <= |letters|
    ensures LeftEdgesSet(letters, k, l, avail, part, a, 0) == iset{}
    decreases k
  {
    if k > 0 {
      NoMoreLeft(letters, k - 1, l, avail, part, a);
    }
  }
}
