/** The move generator as the engine runs it (goakt-scrabble/scrabble/bot.go): recursion that takes tiles from the
    rack counters, puts them back, and appends to the list of recorded moves. */
module Generator {
  import opened Wrappers
  import opened Tiles
  import opened Grids
  import opened Moves
  import opened Search
  import opened SearchSets
  import opened Boards
  import opened Dawgs
  import opened CrossChecks

  lemma Assoc(a: seq<Move>, b: seq<Move>, c: seq<Move>)
    ensures a + b + c == a + (b + c)
  {
  }

  /** The letters of a node's edges. */
  function EdgeLetters(edges: seq<Edge>): (cs: seq<LetterID>)
    ensures |cs| == |edges|
  {
    if edges == [] then [] else EdgeLetters(edges[..|edges| - 1]) + [edges[|edges| - 1].letter]
  }

  lemma {:induction false} EdgeLettersAt(edges: seq<Edge>, k: nat)
    requires k < |edges|
    ensures EdgeLetters(edges)[k] == edges[k].letter
    decreases |edges|
  {
    if k < |edges| - 1 {
      EdgeLettersAt(edges[..|edges| - 1], k);
    }
  }

  /** Every way on from a node has an edge. */
  lemma EdgesComplete(d: DAWG, path: seq<LetterID>)
    requires d.Valid() && path in d.nodes
    ensures forall c: LetterID :: path + [c] in d.nodes ==> c in EdgeLetters(d.nodes[path].edges)
  {
    assert d.NodeOk(path);
    var edges := d.nodes[path].edges;
    forall c: LetterID | path + [c] in d.nodes
      ensures c in EdgeLetters(edges)
    {
      var k :| 0 <= k < |edges| && edges[k].letter == c;
      EdgeLettersAt(edges, k);
    }
  }

  lemma EdgeLeads(d: DAWG, path: seq<LetterID>, k: nat, words: Lexicon, lang: Language)
    requires d.Valid() && path in d.nodes && k < |d.nodes[path].edges|
    ensures var e := d.nodes[path].edges[k];
            path + [e.letter] in d.nodes && d.nodes[path + [e.letter]] == e.target && e.letter < d.alphabet
  {
    assert d.NodeOk(path);
    assert d.Leads(path, d.nodes[path].edges[k]);
  }

  /** The table has the lane's cross checks for its empty squares. */
  ghost predicate Agrees(valid: Table, l: Lane, n: nat) {
    forall k: int, c: LetterID :: 0 <= k < BOARD_SIZE && c < n ==> AgreesAt(valid, l, k, c)
  }

  ghost predicate AgreesAt(valid: Table, l: Lane, k: int, c: LetterID) {
    l.At(k) !in l.g ==> l.At(k) in valid && (c in valid[l.At(k)] <==> l.Allows(k, c))
  }

  /** On an empty square the walk stops or places one of the node's letters. */
  lemma RightSplit(d: DAWG, l: Lane, avail: multiset<Tile>, path: seq<LetterID>, pl: Move, i: int, placed: bool)
    requires d.Valid() && d.words == l.words && path in d.nodes && 0 <= i < BOARD_SIZE && l.At(i) !in l.g
    ensures var edges := d.nodes[path].edges;
            RightSet(l, avail, path, pl, i, placed) ==
            StopSet(l, path, pl, placed) + EdgesSet(EdgeLetters(edges), |edges|, l, avail, path, pl, i)
  {
    EdgesComplete(d, path);
    Choices(d, EdgeLetters(d.nodes[path].edges), l, avail, path, pl, i, placed);
  }

  class GenState {
    const board: Board
    const dawg: DAWG
    const lang: Language
    const crossH: Table
    const crossV: Table
    const anchors: set<Pos>
    const rackCount: array<int>
    var blanks: int
    var emitted: seq<Move>

    function CrossFor(d: Direction): Table {
      if d == Horizontal then crossH else crossV
    }

    /** The lane's table and anchors are those of the search; nothing here can change. */
    ghost predicate Static(l: Lane) {
      l.Valid() && Agrees(CrossFor(l.dir), l, |lang.letters|)
    }

    /** The lane describes this board and this dictionary; every letter of the trie is in the alphabet. */
    ghost predicate Ready(l: Lane)
      reads board, board.squares, dawg, dawg.repr
    {
      && board.Valid() && board.Grid() == l.g
      && dawg.Valid() && dawg.words == l.words
      && dawg.alphabet == |lang.letters|
    }

    /** The counters hold exactly the tiles `avail`. */
    ghost predicate Funds(avail: multiset<Tile>)
      reads this`blanks, rackCount
    {
      && rackCount.Length == |lang.letters| <= 255
      && (forall c: LetterID :: c < rackCount.Length ==> rackCount[c] == avail[Tile(c, false)])
      && blanks == avail[BLANK_TILE]
    }

    constructor (board: Board, rack: seq<Tile>, dawg: DAWG, lang: Language, crossH: Table, crossV: Table,
                 anchors: set<Pos>)
      requires |lang.letters| <= 255 && forall t :: t in rack ==> lang.Has(t)
      ensures this.board == board && this.dawg == dawg && this.lang == lang
      ensures this.crossH == crossH && this.crossV == crossV && this.anchors == anchors
      ensures fresh(rackCount) && Funds(Cost(rack)) && emitted == []
    {
      this.board, this.dawg, this.lang := board, dawg, lang;
      this.crossH, this.crossV, this.anchors := crossH, crossV, anchors;
      rackCount := new int[|lang.letters|](_ => 0);
      blanks, emitted := 0, [];
      new;
      for i := 0 to |rack|
        invariant emitted == [] && Funds(Cost(rack[..i]))
      {
        assert lang.Has(rack[i]) by {
          assert rack[i] in rack;
        }
        CostMore(rack, i);
        CountUp(rack[i], Cost(rack[..i]));
      }
      assert rack[..|rack|] == rack;
    }

    method CountUp(t: Tile, ghost avail: multiset<Tile>)
      requires Funds(avail) && lang.Has(t)
      modifies `blanks, rackCount
      ensures Funds(avail + multiset{Norm(t)}) && emitted == old(emitted)
    {
      if t.blank {
        blanks := blanks + 1;
      } else {
        rackCount[t.letter] := rackCount[t.letter] + 1;
      }
    }

    method Record(pl: Move) returns (ghost out: seq<Move>)
      modifies `emitted
      ensures emitted == old(emitted) + out
      ensures Recorded(out) == if pl == [] then iset{} else iset{pl}
    {
      if |pl| == 0 {
        return [];
      }
      emitted := emitted + [pl];
      return [pl];
    }

    /** Counts one tile down, unless there is none. */
    method Take(t: Tile, ghost avail: multiset<Tile>, ghost l: Lane) returns (have: bool)
      requires Ready(l) && Funds(avail) && lang.Has(t)
      modifies `blanks, rackCount
      ensures Ready(l)
      ensures have <==> Norm(t) in avail
      ensures Funds(if have then avail - multiset{Norm(t)} else avail)
    {
      if t.blank {
        have := blanks > 0;
        if have {
          blanks := blanks - 1;
        }
      } else {
        have := rackCount[t.letter] > 0;
        if have {
          rackCount[t.letter] := rackCount[t.letter] - 1;
        }
      }
    }

    /** Counts it up again. */
    method PutBack(t: Tile, ghost avail: multiset<Tile>, ghost l: Lane)
      requires Ready(l) && Norm(t) in avail && Funds(avail - multiset{Norm(t)}) && lang.Has(t)
      modifies `blanks, rackCount
      ensures Ready(l) && Funds(avail)
    {
      CountUp(t, avail - multiset{Norm(t)});
      assert avail - multiset{Norm(t)} + multiset{Norm(t)} == avail;
    }

    // ---------- to the right ----------

    /** Records the move if the path is a word and a tile was placed at the anchor. */
    method Stop(node: Node, pl: Move, placed: bool, ghost l: Lane, ghost path: seq<LetterID>)
      returns (ghost out: seq<Move>)
      requires Ready(l) && path in dawg.nodes && dawg.nodes[path] == node
      modifies `emitted
      ensures Ready(l)
      ensures emitted == old(emitted) + out
      ensures Recorded(out) == StopSet(l, path, pl, placed)
    {
      assert dawg.NodeOk(path);
      out := [];
      if node.terminal && placed {
        out := Record(pl);
      }
    }

    /** Walks on from offset `i`: every move within reach is recorded, no others, and the counters are as before. */
    method ExtendRight(node: Node, pl: Move, dir: Direction, line: int, i: int, placed: bool,
                       ghost l: Lane, ghost path: seq<LetterID>, ghost avail: multiset<Tile>)
      returns (ghost out: seq<Move>)
      requires Static(l) && Ready(l) && Funds(avail) && l.dir == dir && l.line == line && 0 <= i <= BOARD_SIZE
      requires path in dawg.nodes && dawg.nodes[path] == node
      modifies `emitted, `blanks, rackCount
      ensures Ready(l) && Funds(avail)
      ensures emitted == old(emitted) + out
      ensures Recorded(out) == RightSet(l, avail, path, pl, i, placed)
      decreases BOARD_SIZE - i, 6
    {
      if i >= BOARD_SIZE {
        AtEdge(l, avail, path, pl, placed);
        out := Stop(node, pl, placed, l, path);
        return;
      }
      var sq := board.At(Cell(dir, line, i));
      if !sq.filled {
        out := OnEmpty(node, pl, dir, line, i, placed, l, path, avail);
      } else {
        Through(l, avail, path, pl, i, placed);
        out := Follow(node, sq.tile.letter, pl, dir, line, i, placed, l, path, avail);
      }
    }

    /** Stops on an empty square or places a tile there. */
    method OnEmpty(node: Node, pl: Move, dir: Direction, line: int, i: int, placed: bool,
                   ghost l: Lane, ghost path: seq<LetterID>, ghost avail: multiset<Tile>) returns (ghost out: seq<Move>)
      requires Static(l) && Ready(l) && Funds(avail) && l.dir == dir && l.line == line && 0 <= i < BOARD_SIZE
      requires l.At(i) !in l.g
      requires path in dawg.nodes && dawg.nodes[path] == node
      modifies `emitted, `blanks, rackCount
      ensures Ready(l) && Funds(avail)
      ensures emitted == old(emitted) + out
      ensures Recorded(out) == RightSet(l, avail, path, pl, i, placed)
      decreases BOARD_SIZE - i, 5
    {
      RightSplit(dawg, l, avail, path, pl, i, placed);
      out := Stop(node, pl, placed, l, path);
      assert Funds(avail);
      ghost var rest := PlaceEach(node, pl, dir, line, i, l, path, avail);
      RecordedConcat(out, rest);
      Assoc(old(emitted), out, rest);
      out := out + rest;
    }

    /** Walks over a tile that is already there. */
    method Follow(node: Node, letter: LetterID, pl: Move, dir: Direction, line: int, i: int, placed: bool,
                  ghost l: Lane, ghost path: seq<LetterID>, ghost avail: multiset<Tile>) returns (ghost out: seq<Move>)
      requires Static(l) && Ready(l) && Funds(avail) && l.dir == dir && l.line == line && 0 <= i < BOARD_SIZE
      requires path in dawg.nodes && dawg.nodes[path] == node
      modifies `emitted, `blanks, rackCount
      ensures Ready(l) && Funds(avail)
      ensures emitted == old(emitted) + out
      ensures Recorded(out) == RightSet(l, avail, path + [letter], pl, i + 1, placed)
      decreases BOARD_SIZE - i, 2
    {
      var next := dawg.Child(node, path, letter);
      assert Ready(l) && Funds(avail);
      if next.Some? {
        out := ExtendRight(next.value, pl, dir, line, i + 1, placed, l, path + [letter], avail);
      } else {
        out := [];
        DeadEnd(dawg, l, avail, path + [letter], pl, i + 1, placed);
      }
    }

    /** Places each letter that the trie and the cross checks allow, as a tile and as a blank. */
    method PlaceEach(node: Node, pl: Move, dir: Direction, line: int, i: int,
                     ghost l: Lane, ghost path: seq<LetterID>, ghost avail: multiset<Tile>)
      returns (ghost out: seq<Move>)
      requires Static(l) && Ready(l) && Funds(avail) && l.dir == dir && l.line == line && 0 <= i < BOARD_SIZE
      requires l.At(i) !in l.g
      requires path in dawg.nodes && dawg.nodes[path] == node
      modifies `emitted, `blanks, rackCount
      ensures Ready(l) && Funds(avail)
      ensures emitted == old(emitted) + out
      ensures Recorded(out) == EdgesSet(EdgeLetters(node.edges), |node.edges|, l, avail, path, pl, i)
      decreases BOARD_SIZE - i, 4
    {
      out := [];
      var k := 0;
      while k < |node.edges|
        invariant k <= |node.edges|
        invariant Ready(l) && Funds(avail)
        invariant path in dawg.nodes && dawg.nodes[path] == node
        invariant emitted == old(emitted) + out
        invariant Recorded(out) == EdgesSet(EdgeLetters(node.edges), k, l, avail, path, pl, i)
      {
        out := PlaceEdge(node, node.edges, k, pl, dir, line, i, l, path, avail, old(emitted), out);
        k := k + 1;
      }
    }

    method PlaceEdge(node: Node, edges: seq<Edge>, k: nat, pl: Move, dir: Direction, line: int, i: int,
                     ghost l: Lane, ghost path: seq<LetterID>, ghost avail: multiset<Tile>,
                     ghost start: seq<Move>, ghost before: seq<Move>)
      returns (ghost out: seq<Move>)
      requires Static(l) && Ready(l) && Funds(avail) && l.dir == dir && l.line == line && 0 <= i < BOARD_SIZE
      requires l.At(i) !in l.g
      requires path in dawg.nodes && dawg.nodes[path] == node && node.edges == edges && k < |edges|
      requires emitted == start + before
      requires Recorded(before) == EdgesSet(EdgeLetters(edges), k, l, avail, path, pl, i)
      modifies `emitted, `blanks, rackCount
      ensures Ready(l) && Funds(avail)
      ensures path in dawg.nodes && dawg.nodes[path] == node && node.edges == edges
      ensures emitted == start + out
      ensures Recorded(out) == EdgesSet(EdgeLetters(edges), k + 1, l, avail, path, pl, i)
      decreases BOARD_SIZE - i, 3
    {
      EdgeLettersAt(edges, k);
      EdgeLeads(dawg, path, k, l.words, lang);
      EdgesStep(EdgeLetters(edges), k, l, avail, path, pl, i);
      ghost var more := PlaceLetter(edges[k].target, edges[k].letter, pl, dir, line, i, l, path, avail);
      RecordedConcat(before, more);
      Assoc(start, before, more);
      out := before + more;
    }

    /** Places one letter, as a tile and as a blank. */
    method PlaceLetter(next: Node, c: LetterID, pl: Move, dir: Direction, line: int, i: int,
                       ghost l: Lane, ghost path: seq<LetterID>, ghost avail: multiset<Tile>)
      returns (ghost out: seq<Move>)
      requires Static(l) && Ready(l) && Funds(avail) && l.dir == dir && l.line == line && 0 <= i < BOARD_SIZE
      requires l.At(i) !in l.g
      requires path + [c] in dawg.nodes && dawg.nodes[path + [c]] == next && c < |lang.letters|
      modifies `emitted, `blanks, rackCount
      ensures Ready(l) && Funds(avail)
      ensures emitted == old(emitted) + out
      ensures Recorded(out) == ViaSet(l, avail, path, pl, i, Tile(c, false)) +
              ViaSet(l, avail, path, pl, i, Tile(c, true))
      decreases BOARD_SIZE - i, 2
    {
      var p := Cell(dir, line, i);
      assert AgreesAt(CrossFor(dir), l, i, c);
      if c !in CrossFor(dir)[p] {
        return [];
      }
      out := PlaceTile(next, Tile(c, false), pl, dir, line, i, l, path, avail);
      ghost var more := PlaceTile(next, Tile(c, true), pl, dir, line, i, l, path, avail);
      RecordedConcat(out, more);
      Assoc(old(emitted), out, more);
      out := out + more;
    }

    /** Takes a tile off the rack if there is one, goes on, and puts it back. */
    method PlaceTile(next: Node, t: Tile, pl: Move, dir: Direction, line: int, i: int,
                     ghost l: Lane, ghost path: seq<LetterID>, ghost avail: multiset<Tile>)
      returns (ghost out: seq<Move>)
      requires Static(l) && Ready(l) && Funds(avail) && l.dir == dir && l.line == line && 0 <= i < BOARD_SIZE
      requires l.Allows(i, t.letter)
      requires path + [t.letter] in dawg.nodes && dawg.nodes[path + [t.letter]] == next && lang.Has(t)
      modifies `emitted, `blanks, rackCount
      ensures Ready(l) && Funds(avail)
      ensures emitted == old(emitted) + out
      ensures Recorded(out) == ViaSet(l, avail, path, pl, i, t)
      decreases BOARD_SIZE - i, 1
    {
      var have := Take(t, avail, l);
      out := [];
      if have {
        out := GoOn(next, t, pl, dir, line, i, l, path, avail);
      }
    }

    method GoOn(next: Node, t: Tile, pl: Move, dir: Direction, line: int, i: int,
                ghost l: Lane, ghost path: seq<LetterID>, ghost avail: multiset<Tile>) returns (ghost out: seq<Move>)
      requires Static(l) && Ready(l) && l.dir == dir && l.line == line && 0 <= i < BOARD_SIZE
      requires Norm(t) in avail && Funds(avail - multiset{Norm(t)})
      requires path + [t.letter] in dawg.nodes && dawg.nodes[path + [t.letter]] == next && lang.Has(t)
      modifies `emitted, `blanks, rackCount
      ensures Ready(l) && Funds(avail)
      ensures emitted == old(emitted) + out
      ensures Recorded(out) == RightSet(l, avail - multiset{Norm(t)}, path + [t.letter], pl + [Placement(l.At(i), t)],
                                        i + 1, true)
      decreases BOARD_SIZE - i, 0
    {
      out := ExtendRight(next, pl + [Placement(Cell(dir, line, i), t)], dir, line, i + 1, true,
                         l, path + [t.letter], avail - multiset{Norm(t)});
      PutBack(t, avail, l);
    }

    // ---------- to the left ----------

    /** Lays the left part out before the anchor. */
    method BuildLeftPlacements(part: seq<Tile>, dir: Direction, line: int, a: int, ghost l: Lane) returns (out: Move)
      requires l.dir == dir && l.line == line
      ensures out == LeftPlacements(l, part, a)
    {
      out := [];
      var i := 0;
      while i < |part|
        invariant 0 <= i <= |part|
        invariant out + LeftPlacements(l, part[i..], a) == LeftPlacements(l, part, a)
      {
        assert part[i..][1..] == part[i + 1..];
        var x := Placement(Cell(dir, line, a - (|part| - i)), part[i]);
        assert LeftPlacements(l, part[i..], a) == [x] + LeftPlacements(l, part[i + 1..], a);
        assert out + ([x] + LeftPlacements(l, part[i + 1..], a)) == out + [x] + LeftPlacements(l, part[i + 1..], a);
        out := out + [x];
        i := i + 1;
      }
      assert part[|part|..] == [];
    }

    /** Extends every left part of at most `limit` more tiles to the right. */
    method ExtendLeft(node: Node, part: seq<Tile>, dir: Direction, line: int, a: int, limit: nat,
                      ghost l: Lane, ghost avail: multiset<Tile>) returns (ghost out: seq<Move>)
      requires Static(l) && Ready(l) && Funds(avail) && l.dir == dir && l.line == line && 0 <= a < BOARD_SIZE
      requires PartLetters(part) in dawg.nodes && dawg.nodes[PartLetters(part)] == node
      modifies `emitted, `blanks, rackCount
      ensures Ready(l) && Funds(avail)
      ensures emitted == old(emitted) + out
      ensures Recorded(out) == LeftSet(l, avail, part, a, limit)
      decreases limit, 4
    {
      LeftSplit(dawg, l, avail, part, a, limit);
      out := RightNow(node, part, dir, line, a, l, avail);
      if limit == 0 {
        NoMoreLeft(EdgeLetters(node.edges), |node.edges|, l, avail, part, a);
        return;
      }
      ghost var rest := AddEach(node, part, dir, line, a, limit, l, avail, PartLetters(part));
      LoggedIs(rest, EdgeLetters(node.edges), |node.edges|, l, avail, part, a, limit);
      RecordedConcat(out, rest);
      Assoc(old(emitted), out, rest);
      out := out + rest;
    }

    /** Extends the left part as it is to the right. */
    method RightNow(node: Node, part: seq<Tile>, dir: Direction, line: int, a: int,
                    ghost l: Lane, ghost avail: multiset<Tile>) returns (ghost out: seq<Move>)
      requires Static(l) && Ready(l) && Funds(avail) && l.dir == dir && l.line == line && 0 <= a < BOARD_SIZE
      requires PartLetters(part) in dawg.nodes && dawg.nodes[PartLetters(part)] == node
      modifies `emitted, `blanks, rackCount
      ensures Ready(l) && Funds(avail)
      ensures PartLetters(part) in dawg.nodes && dawg.nodes[PartLetters(part)] == node && node.edges == old(node.edges)
      ensures emitted == old(emitted) + out
      ensures Recorded(out) == RightSet(l, avail, PartLetters(part), LeftPlacements(l, part, a), a, false)
    {
      var pl := BuildLeftPlacements(part, dir, line, a, l);
      assert Ready(l) && Funds(avail);
      out := ExtendRight(node, pl, dir, line, a, false, l, PartLetters(part), avail);
    }

    /** Adds each of the node's letters, as a tile and as a blank. */
    method AddEach(node: Node, part: seq<Tile>, dir: Direction, line: int, a: int, limit: nat,
                   ghost l: Lane, ghost avail: multiset<Tile>, ghost path: seq<LetterID>) returns (ghost out: seq<Move>)
      requires Static(l) && Ready(l) && Funds(avail) && l.dir == dir && l.line == line && 0 <= a < BOARD_SIZE
      requires limit > 0
      requires path == PartLetters(part) && path in dawg.nodes && dawg.nodes[path] == node
      modifies `emitted, `blanks, rackCount
      ensures Ready(l) && Funds(avail)
      ensures emitted == old(emitted) + out
      ensures Logged(out, EdgeLetters(node.edges), |node.edges|, l, avail, part, a, limit)
      decreases limit, 3
    {
      out := [];
      var k := 0;
      while k < |node.edges|
        invariant k <= |node.edges|
        invariant Ready(l) && Funds(avail)
        invariant path in dawg.nodes && dawg.nodes[path] == node
        invariant emitted == old(emitted) + out
        invariant Logged(out, EdgeLetters(node.edges), k, l, avail, part, a, limit)
      {
        out := AddEdge(node, node.edges, k, part, dir, line, a, limit, l, avail, path, old(emitted), out);
        k := k + 1;
      }
    }

    /** Adds the letter of one edge, as a tile and as a blank. */
    method AddEdge(node: Node, edges: seq<Edge>, k: nat, part: seq<Tile>, dir: Direction, line: int, a: int, limit: nat,
                   ghost l: Lane, ghost avail: multiset<Tile>, ghost path: seq<LetterID>,
                   ghost start: seq<Move>, ghost before: seq<Move>) returns (ghost out: seq<Move>)
      requires Static(l) && Ready(l) && Funds(avail) && l.dir == dir && l.line == line && 0 <= a < BOARD_SIZE
      requires limit > 0
      requires path == PartLetters(part) && path in dawg.nodes && dawg.nodes[path] == node && node.edges == edges
      requires k < |edges|
      requires emitted == start + before && Logged(before, EdgeLetters(edges), k, l, avail, part, a, limit)
      modifies `emitted, `blanks, rackCount
      ensures Ready(l) && Funds(avail)
      ensures path in dawg.nodes && dawg.nodes[path] == node && node.edges == edges
      ensures emitted == start + out
      ensures Logged(out, EdgeLetters(edges), k + 1, l, avail, part, a, limit)
      decreases limit, 2
    {
      EdgeLettersAt(edges, k);
      EdgeLeads(dawg, path, k, l.words, lang);
      ghost var more := AddLetter(edges[k].target, edges[k].letter, part, dir, line, a, limit, l, avail);
      LoggedMore(before, more, EdgeLetters(edges), k, l, avail, part, a, limit);
      Assoc(start, before, more);
      out := before + more;
    }

    method AddLetter(next: Node, c: LetterID, part: seq<Tile>, dir: Direction, line: int, a: int, limit: nat,
                     ghost l: Lane, ghost avail: multiset<Tile>) returns (ghost out: seq<Move>)
      requires Static(l) && Ready(l) && Funds(avail) && l.dir == dir && l.line == line && 0 <= a < BOARD_SIZE
      requires limit > 0
      requires PartLetters(part) + [c] in dawg.nodes && dawg.nodes[PartLetters(part) + [c]] == next
      requires c < |lang.letters|
      modifies `emitted, `blanks, rackCount
      ensures Ready(l) && Funds(avail)
      ensures emitted == old(emitted) + out
      ensures Recorded(out) == LeftLetterSet(c, l, avail, part, a, limit)
      decreases limit, 1
    {
      out := AddTile(next, Tile(c, false), part, dir, line, a, limit, l, avail);
      ghost var more := AddTile(next, Tile(c, true), part, dir, line, a, limit, l, avail);
      RecordedConcat(out, more);
      Assoc(old(emitted), out, more);
      out := out + more;
    }

    /** Takes a tile off the rack if there is one, adds it to the left part, and puts it back. */
    method AddTile(next: Node, t: Tile, part: seq<Tile>, dir: Direction, line: int, a: int, limit: nat,
                   ghost l: Lane, ghost avail: multiset<Tile>) returns (ghost out: seq<Move>)
      requires Static(l) && Ready(l) && Funds(avail) && l.dir == dir && l.line == line && 0 <= a < BOARD_SIZE
      requires limit > 0
      requires PartLetters(part) + [t.letter] in dawg.nodes && dawg.nodes[PartLetters(part) + [t.letter]] == next
      requires lang.Has(t)
      modifies `emitted, `blanks, rackCount
      ensures Ready(l) && Funds(avail)
      ensures emitted == old(emitted) + out
      ensures Recorded(out) == LeftViaSet(l, avail, part, a, limit, t)
      decreases limit, 0
    {
      var have := Take(t, avail, l);
      out := [];
      if have {
        out := GrowLeft(next, t, part, dir, line, a, limit, l, avail);
      }
    }

    method GrowLeft(next: Node, t: Tile, part: seq<Tile>, dir: Direction, line: int, a: int, limit: nat,
                    ghost l: Lane, ghost avail: multiset<Tile>) returns (ghost out: seq<Move>)
      requires Static(l) && Ready(l) && l.dir == dir && l.line == line && 0 <= a < BOARD_SIZE && limit > 0
      requires Norm(t) in avail && Funds(avail - multiset{Norm(t)})
      requires PartLetters(part) + [t.letter] in dawg.nodes && dawg.nodes[PartLetters(part) + [t.letter]] == next
      requires lang.Has(t)
      modifies `emitted, `blanks, rackCount
      ensures Ready(l) && Funds(avail)
      ensures emitted == old(emitted) + out
      ensures Recorded(out) == LeftSet(l, avail - multiset{Norm(t)}, part + [t], a, limit - 1)
      decreases limit - 1, 5
    {
      PartGrows(part, t);
      out := ExtendLeft(next, part + [t], dir, line, a, limit - 1, l, avail - multiset{Norm(t)});
      PutBack(t, avail, l);
    }

    // ---------- from an anchor ----------

    method ComputeLeftLimit(dir: Direction, line: int, a: int, ghost l: Lane) returns (limit: nat)
      requires Static(l) && AnchorsOk(anchors, l.g) && Ready(l) && l.dir == dir && l.line == line && 0 <= a < BOARD_SIZE
      ensures limit == LeftLimit(l, a)
    {
      limit := 0;
      while a - limit > 0 && !board.At(Cell(dir, line, a - limit - 1)).filled &&
        Cell(dir, line, a - limit - 1) !in anchors
        invariant limit <= a && limit + LeftLimit(l, a - limit) == LeftLimit(l, a)
      {
        limit := limit + 1;
      }
    }

    /** Follows the tiles before the anchor through the trie. */
    method WalkLeftExisting(dir: Direction, line: int, a: int, ghost l: Lane) returns (node: Option<Node>)
      requires Static(l) && Ready(l) && l.dir == dir && l.line == line && 0 <= a < BOARD_SIZE
      ensures var path := Letters(l.g, dir, line, RunStart(l.g, dir, line, a), a);
              node == if path in dawg.nodes then Some(dawg.nodes[path]) else None
    {
      var start := FirstTile(dir, line, a, l);
      assert Ready(l);
      node := FollowTiles(dir, line, start, a, l);
    }

    method FirstTile(dir: Direction, line: int, a: int, ghost l: Lane) returns (start: int)
      requires l.Valid() && Ready(l) && l.dir == dir && l.line == line && 0 <= a < BOARD_SIZE
      ensures start == RunStart(l.g, dir, line, a)
    {
      start := a;
      while start > 0 && board.At(Cell(dir, line, start - 1)).filled
        invariant 0 <= start <= a && RunStart(l.g, dir, line, start) == RunStart(l.g, dir, line, a)
      {
        start := start - 1;
      }
    }

    method FollowTiles(dir: Direction, line: int, start: int, a: int, ghost l: Lane) returns (node: Option<Node>)
      requires l.Valid() && Ready(l) && l.dir == dir && l.line == line && 0 <= start <= a < BOARD_SIZE
      requires start == RunStart(l.g, dir, line, a)
      ensures var path := Letters(l.g, dir, line, start, a);
              node == if path in dawg.nodes then Some(dawg.nodes[path]) else None
    {
      var cur := start;
      node := Some(dawg.root);
      while cur < a && node.Some?
        invariant start <= cur <= a && Ready(l)
        invariant Reached(node, l, start, cur)
      {
        node := FollowTile(node.value, dir, line, start, cur, a, l);
        cur := cur + 1;
      }
      if node.None? {
        StaysLost(dawg, l, start, cur, a);
      }
    }

    /** The node that the tiles on offsets `start .. cur - 1` lead to, if the trie has one. */
    ghost predicate Reached(node: Option<Node>, l: Lane, start: int, cur: int)
      requires start <= cur
      reads dawg
    {
      var path := Letters(l.g, l.dir, l.line, start, cur);
      node == if path in dawg.nodes then Some(dawg.nodes[path]) else None
    }

    method FollowTile(at: Node, dir: Direction, line: int, start: int, cur: int, a: int, ghost l: Lane)
      returns (node: Option<Node>)
      requires l.Valid() && Ready(l) && l.dir == dir && l.line == line && 0 <= start <= cur < a < BOARD_SIZE
      requires start == RunStart(l.g, dir, line, a) && Reached(Some(at), l, start, cur)
      ensures Ready(l) && Reached(node, l, start, cur + 1)
    {
      RunStartIs(l.g, dir, line, a);
      assert Cell(dir, line, cur) in l.g;
      LettersSplit(l.g, dir, line, start, cur, cur + 1);
      var letter := board.At(Cell(dir, line, cur)).tile.letter;
      assert Letters(l.g, dir, line, cur, cur + 1) == [letter];
      node := dawg.Child(at, Letters(l.g, dir, line, start, cur), letter);
    }

    /** Records every move from the anchor at offset `a`. */
    method RunFromAnchor(dir: Direction, line: int, a: int, ghost l: Lane, ghost avail: multiset<Tile>)
      returns (ghost out: seq<Move>)
      requires Static(l) && AnchorsOk(anchors, l.g) && Ready(l) && Funds(avail) && l.dir == dir && l.line == line
      requires 0 <= a < BOARD_SIZE
      modifies `emitted, `blanks, rackCount
      ensures Ready(l) && Funds(avail)
      ensures emitted == old(emitted) + out
      ensures Recorded(out) == AnchorSet(l, avail, a)
    {
      var leftLimit := ComputeLeftLimit(dir, line, a, l);
      assert Ready(l) && Funds(avail);
      if leftLimit == 0 {
        var node := WalkLeftExisting(dir, line, a, l);
        assert Ready(l) && Funds(avail);
        ghost var path := Letters(l.g, dir, line, RunStart(l.g, dir, line, a), a);
        if node.None? {
          DeadEnd(dawg, l, avail, path, [], a, false);
          return [];
        }
        out := ExtendRight(node.value, [], dir, line, a, false, l, path, avail);
      } else {
        out := ExtendLeft(dawg.root, [], dir, line, a, leftLimit, l, avail);
      }
    }
  }

  ghost function AnchorSet(l: Lane, avail: multiset<Tile>, a: int): iset<Move>
    requires l.Valid() && 0 <= a < BOARD_SIZE
  {
    if LeftLimit(l, a) == 0
    then RightSet(l, avail, Letters(l.g, l.dir, l.line, RunStart(l.g, l.dir, l.line, a), a), [], a, false)
    else LeftSet(l, avail, [], a, LeftLimit(l, a))
  }

  lemma AnchorSetIs(l: Lane, avail: multiset<Tile>, a: int, m: Move)
    requires l.Valid() && 0 <= a < BOARD_SIZE
    ensures m in AnchorSet(l, avail, a) <==> AnchorMove(l, avail, a, m)
  {
  }

  /** A path that has left the trie does not come back. */
  lemma StaysLost(d: DAWG, l: Lane, start: int, cur: int, a: int)
    requires d.Valid() && start <= cur <= a && Letters(l.g, l.dir, l.line, start, cur) !in d.nodes
    ensures Letters(l.g, l.dir, l.line, start, a) !in d.nodes
  {
    LettersSplit(l.g, l.dir, l.line, start, cur, a);
    PrefixesAreNodes(d, Letters(l.g, l.dir, l.line, start, a), cur - start);
  }

  ghost function LeftLetterSet(c: LetterID, l: Lane, avail: multiset<Tile>, part: seq<Tile>, a: int,
                               limit: nat): iset<Move> {
    LeftViaSet(l, avail, part, a, limit, Tile(c, false)) + LeftViaSet(l, avail, part, a, limit, Tile(c, true))
  }

  /** The log is put together from what each of the first `k` letters adds. */
  ghost predicate Logged(out: seq<Move>, letters: seq<LetterID>, k: nat, l: Lane, avail: multiset<Tile>,
                         part: seq<Tile>, a: int, limit: nat)
    requires k <= |letters|
    decreases k
  {
    if k == 0 then out == []
    else exists n: nat :: n <= |out| && LoggedTo(out, n, letters, k, l, avail, part, a, limit)
  }

  ghost predicate LoggedTo(out: seq<Move>, n: nat, letters: seq<LetterID>, k: nat, l: Lane, avail: multiset<Tile>,
                           part: seq<Tile>, a: int, limit: nat)
    requires 0 < k <= |letters| && n <= |out|
    decreases k, 0
  {
    Logged(out[..n], letters, k - 1, l, avail, part, a, limit)
    && Recorded(out[n..]) == LeftLetterSet(letters[k - 1], l, avail, part, a, limit)
  }

  lemma LoggedMore(before: seq<Move>, more: seq<Move>, letters: seq<LetterID>, k: nat, l: Lane, avail: multiset<Tile>,
                   part: seq<Tile>, a: int, limit: nat)
    requires k < |letters| && Logged(before, letters, k, l, avail, part, a, limit)
    requires Recorded(more) == LeftLetterSet(letters[k], l, avail, part, a, limit)
    ensures Logged(before + more, letters, k + 1, l, avail, part, a, limit)
  {
    var out := before + more;
    assert out[..|before|] == before && out[|before|..] == more;
    assert LoggedTo(out, |before|, letters, k + 1, l, avail, part, a, limit);
  }

  lemma {:induction false} LoggedIs(out: seq<Move>, letters: seq<LetterID>, k: nat, l: Lane, avail: multiset<Tile>,
                                    part: seq<Tile>, a: int, limit: nat)
    requires k <= |letters| && Logged(out, letters, k, l, avail, part, a, limit)
    ensures Recorded(out) == LeftEdgesSet(letters, k, l, avail, part, a, limit)
    decreases k
  {
    if k > 0 {
      var n :| 0 <= n <= |out| && LoggedTo(out, n, letters, k, l, avail, part, a, limit);
      LoggedIs(out[..n], letters, k - 1, l, avail, part, a, limit);
      LeftEdgesStep(letters, k - 1, l, avail, part, a, limit);
      RecordedConcat(out[..n], out[n..]);
      assert out[..n] + out[n..] == out;
    }
  }

  lemma PartGrows(part: seq<Tile>, t: Tile)
    ensures PartLetters(part + [t]) == PartLetters(part) + [t.letter]
  {
    PartLettersConcat(part, [t]);
    assert PartLetters([t]) == [t.letter];
  }

  lemma LeftSplit(d: DAWG, l: Lane, avail: multiset<Tile>, part: seq<Tile>, a: int, limit: nat)
    requires d.Valid() && d.words == l.words && PartLetters(part) in d.nodes
    ensures var edges := d.nodes[PartLetters(part)].edges;
            LeftSet(l, avail, part, a, limit) ==
            RightSet(l, avail, PartLetters(part), LeftPlacements(l, part, a), a, false)
            + LeftEdgesSet(EdgeLetters(edges), |edges|, l, avail, part, a, limit)
  {
    EdgesComplete(d, PartLetters(part));
    LeftSteps(d, EdgeLetters(d.nodes[PartLetters(part)].edges), l, avail, part, a, limit);
  }
}
