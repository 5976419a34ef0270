/** The room that runs a game (goakt-scrabble/room.go): its handlers, each shown to make a step of the turn loop. */
module Rooms {
  import opened Wrappers
  import opened Tiles
  import opened Grids
  import opened Moves
  import opened MoveLaws
  import opened Boards
  import opened Dawgs
  import opened Validator
  import opened CrossChecks
  import opened Bots
  import opened Racks
  import opened Endgame
  import opened Wires
  import opened Turns

  datatype Player = Player(id: string, score: int, rack: Rack)

  lemma {:induction false} DealtIs(bag: seq<Tile>, n: nat, k: nat)
    requires k < n
    ensures Dealt(bag, n)[k] == Drawn(BagAfter(bag, k), RACK_SIZE)
    decreases n
  {
    if k < n - 1 {
      DealtIs(bag, n - 1, k);
    }
  }

  ghost predicate Different(players: seq<Player>) {
    forall i, j {:trigger players[i], players[j]} :: 0 <= i < j < |players| ==> players[i].rack != players[j].rack
  }

  /** Seats the players, each with a new rack drawn from the bag. */
  method Deal(ids: seq<string>, bag: Bag) returns (players: seq<Player>, ghost racks: set<Rack>)
    modifies bag
    ensures fresh(racks) && bag.tiles == BagAfter(old(bag.tiles), |ids|)
    ensures |players| == |ids| && Different(players)
    ensures forall i :: 0 <= i < |ids| ==> SeatIs(players[i], racks, ids[i], 0, Dealt(old(bag.tiles), |ids|)[i])
  {
    ghost var full := bag.tiles;
    players, racks := [], {};
    for k := 0 to |ids|
      invariant fresh(racks) && |players| == k && bag.tiles == BagAfter(full, k) && Different(players)
      invariant forall i :: 0 <= i < k ==> SeatIs(players[i], racks, ids[i], 0, Dealt(full, |ids|)[i])
    {
      var rack := new Rack();
      rack.Refill(bag);
      DealtIs(full, |ids|, k);
      players, racks := players + [Player(ids[k], 0, rack)], racks + {rack};
    }
  }

  /** A seat, with its rack among `racks`, is as described. */
  ghost predicate SeatIs(p: Player, racks: set<Rack>, id: string, score: int, hand: seq<Tile>)
    reads racks
  {
    p.rack in racks && p.id == id && p.score == score && p.rack.tiles == hand
  }

  lemma CoreHas(lang: Language, words: Lexicon, s: State)
    requires Core(lang, words, s)
    ensures AllHave(s.racks, lang)
  {
    forall k | 0 <= k < |s.racks|
      ensures Have(s.racks[k], lang)
    {
      assert HandOk(lang, s.bag, s.racks[k]);
    }
  }

  /** The state with another hand for the current player. */
  function WithHand(s: State, hand: seq<Tile>): State
    requires Seated(s)
  {
    s.(racks := s.racks[s.current := hand])
  }

  /** The score of a move that the validator accepts. */
  ghost function ScoreOf(lang: Language, words: Lexicon, g: Grid, pl: seq<Placement>): Option<int>
    requires lang.WellFormed() && GridHas(lang, g) && AllHas(lang, pl)
  {
    if Outcome(g, pl, words, lang).Ok? then Some(Outcome(g, pl, words, lang).value.score) else None
  }

  /** Its score, if the current player can pay for it. */
  ghost function Judged(lang: Language, words: Lexicon, s: State, pl: seq<Placement>): Option<int>
    requires Seated(s) && lang.WellFormed() && GridHas(lang, s.board) && AllHas(lang, pl)
  {
    if Price(pl) <= multiset(s.racks[s.current]) then ScoreOf(lang, words, s.board, pl) else None
  }

  /** The move is judged; either everything is as before but for the order of the hand, or its price has been paid. */
  ghost predicate Tried(lang: Language, words: Lexicon, s: State, pl: seq<Placement>, t: State, result: Option<int>)
    requires Seated(s) && lang.WellFormed() && GridHas(lang, s.board) && AllHas(lang, pl)
  {
    && result == Judged(lang, words, s, pl)
    && (if result.Some? then HasPaid(s, pl, t) else if Price(pl) <= multiset(s.racks[s.current]) then Unchanged(s, t)
        else t == s)
  }

  /** The price of the move is off the current hand, and nothing else has changed. */
  predicate HasPaid(s: State, pl: seq<Placement>, t: State)
    requires Seated(s)
  {
    && |t.racks| == |s.racks| && t == WithHand(s, t.racks[s.current])
    && multiset(t.racks[s.current]) == multiset(s.racks[s.current]) - Price(pl)
  }

  /** A move that was accepted and played is good for the end of the turn. */
  lemma LandedOk(lang: Language, words: Lexicon, s: State, pl: seq<Placement>, rest: seq<Tile>)
    requires Core(lang, words, s) && AllHas(lang, pl) && Judged(lang, words, s, pl).Some?
    requires multiset(rest) == multiset(s.racks[s.current]) - Price(pl)
    ensures WellPlaced(s.board, pl)
    ensures AllHave(AfterPlace(s, pl, rest, Judged(lang, words, s, pl).value).racks, lang)
  {
    AcceptedIffLegal(s.board, pl, words, lang);
    PlaceKeeps(lang, words, s, pl, rest, Judged(lang, words, s, pl).value);
    CoreHas(lang, words, AfterPlace(s, pl, rest, Judged(lang, words, s, pl).value));
  }

  /** With points for the current player, whose rack is refilled. */
  function Rewarded(s: State, score: int): State
    requires Seated(s)
  {
    var hand := s.racks[s.current];
    WithHand(s, hand + Drawn(s.bag, Need(hand))).(
      bag := Kept(s.bag, Need(hand)),
      scores := s.scores[s.current := s.scores[s.current] + score],
      scoreless := 0)
  }

  lemma LandedIs(s: State, pl: seq<Placement>, rest: seq<Tile>, score: int)
    requires Seated(s)
    ensures Rewarded(WithHand(s, rest).(board := After(s.board, pl)), score) == AfterPlace(s, pl, rest, score)
  {
    var hand := rest + Drawn(s.bag, Need(rest));
    assert s.racks[s.current := rest][s.current := hand] == s.racks[s.current := hand];
  }

  /** Applying a well-placed move never fails. */
  method ApplyAll(board: Board, pl: seq<Placement>, ghost g: Grid)
    requires board.Valid() && board.Grid() == g && WellPlaced(g, pl)
    modifies board, board.squares
    ensures board.Valid() && board.Grid() == After(g, pl)
  {
    var applied, n := Apply(board, pl);
  }

  lemma SameHand(s: State)
    requires Seated(s)
    ensures WithHand(s, s.racks[s.current]) == s
  {
    assert s.racks[s.current := s.racks[s.current]] == s.racks;
  }

  lemma SmallLetters(lang: Language, pl: seq<Placement>, required: seq<Tile>)
    requires lang.WellFormed() && AllHas(lang, pl) && |required| == |pl|
    requires forall i :: 0 <= i < |pl| ==> required[i] == Norm(pl[i].tile)
    ensures forall i :: 0 <= i < |required| ==> required[i].letter < SENTINEL.letter
  {
    forall i | 0 <= i < |required|
      ensures required[i].letter < SENTINEL.letter
    {
      assert pl[i] in pl;
    }
  }

  /** Takes what a move costs off a rack, if it is all there. */
  method PayFor(rack: Rack, pl: seq<Placement>, lang: Language) returns (taken: Option<seq<Tile>>)
    requires lang.WellFormed() && AllHas(lang, pl)
    modifies rack
    ensures taken.Some? <==> Price(pl) <= multiset(old(rack.tiles))
    ensures taken.None? ==> rack.tiles == old(rack.tiles)
    ensures taken.Some? ==> multiset(taken.value) == Price(pl)
    ensures taken.Some? ==> multiset(rack.tiles) == multiset(old(rack.tiles)) - Price(pl)
  {
    var required := TilesUsed(pl);
    SmallLetters(lang, pl, required);
    var r := rack.Remove(required);
    return if r.Ok? then Some(r.value) else None;
  }

  /** Tiles that were taken and put back leave the hand as it was, up to order. */
  lemma HandRestored(s: State, rest: seq<Tile>, taken: seq<Tile>, price: multiset<Tile>)
    requires Seated(s) && price <= multiset(s.racks[s.current])
    requires multiset(rest) == multiset(s.racks[s.current]) - price && multiset(taken) == price
    ensures Unchanged(s, WithHand(WithHand(s, rest), rest + taken))
  {
    assert multiset(rest + taken) == multiset(s.racks[s.current]);
    assert s.racks[s.current := rest][s.current := rest + taken] == s.racks[s.current := rest + taken];
  }

  // ---------- the bot ----------

  /** The wire forms show this board and this hand. */
  ghost predicate Told(boardWire: seq<seq<string>>, rackWire: seq<string>, g: Grid, hand: seq<Tile>, lang: Language)
    requires GridHas(lang, g) && Have(hand, lang)
  {
    && Shows(boardWire, g, lang)
    && |rackWire| == |hand| && forall i :: 0 <= i < |hand| ==> rackWire[i] == TileToWire(hand[i], lang)
  }

  /** An empty answer means that nothing is playable; any other is a playable move that no other outscores. */
  ghost predicate GoodAnswer(lang: Language, words: Lexicon, g: Grid, hand: seq<Tile>, wires: seq<PlacementWire>)
    requires lang.WellFormed() && GridHas(lang, g)
  {
    if wires == [] then forall pl :: !Playable(g, words, Cost(hand), pl)
    else
      && Read(wires, |wires|, lang).Ok?
      && var m := Read(wires, |wires|, lang).value;
      && Playable(g, words, Cost(hand), m) && Outcome(g, m, words, lang).Ok?
      && forall pl :: Playable(g, words, Cost(hand), pl) ==>
           ScoresAtMost(g, words, lang, pl, Outcome(g, m, words, lang).value.score)
  }

  /** Reading a rack back. */
  lemma RackRoundTrip(rackWire: seq<string>, hand: seq<Tile>, lang: Language)
    requires Writable(lang) && Have(hand, lang)
    requires |rackWire| == |hand| && forall i :: 0 <= i < |hand| ==> rackWire[i] == TileToWire(hand[i], lang)
    ensures forall i :: 0 <= i < |hand| ==> WireToTile(rackWire[i], lang) == Some(hand[i])
  {
    forall i | 0 <= i < |hand|
      ensures WireToTile(rackWire[i], lang) == Some(hand[i])
    {
      TileRoundTrip(hand[i], lang);
    }
  }

  lemma AnswerIsGood(lang: Language, words: Lexicon, g: Grid, hand: seq<Tile>, best: Option<ScoredMove>,
                     wires: seq<PlacementWire>)
    requires Writable(lang) && GridHas(lang, g) && IsBest(best, g, words, Cost(hand), lang)
    requires best.None? ==> wires == []
    requires best.Some? ==> AllHas(lang, best.value.move) && |wires| == |best.value.move|
    requires best.Some? ==> forall i :: 0 <= i < |wires| ==> wires[i] == PlacementToWire(best.value.move[i], lang)
    ensures GoodAnswer(lang, words, g, hand, wires)
  {
    if best.Some? {
      var m := best.value.move;
      PlacementsRoundTrip(m, wires, |m|, lang);
      assert m[..|m|] == m;
      assert Scores(best.value, g, words, Cost(hand), lang);
    }
  }

  method ReadTurn(boardWire: seq<seq<string>>, rackWire: seq<string>, lang: Language, ghost g: Grid,
                  ghost hand: seq<Tile>)
    returns (board: Option<Board>, rack: seq<Tile>)
    requires OnSquares(boardWire) && Writable(lang) && GridHas(lang, g) && OnBoard(g) && Have(hand, lang)
    ensures board.Some? ==> board.value.Valid() && fresh(board.value) && fresh(board.value.squares)
    ensures board.Some? ==> GridHas(lang, board.value.Grid()) && Have(rack, lang)
    ensures Told(boardWire, rackWire, g, hand, lang) ==> board.Some? && board.value.Grid() == g && rack == hand
  {
    rack := [];
    var b := WireToBoard(boardWire, lang);
    if Told(boardWire, rackWire, g, hand, lang) {
      BoardRoundTrip(boardWire, g, if b.Ok? then b.value.Grid() else g, lang);
      RackRoundTrip(rackWire, hand, lang);
    }
    if b.Err? {
      return None, [];
    }
    ReadHas(boardWire, lang, b.value.Grid());
    var r := WireToRack(rackWire, lang);
    if r.Err? {
      return None, [];
    }
    RackHas(rackWire, lang, r.value);
    return Some(b.value), r.value;
  }

  lemma ReadHas(wire: seq<seq<string>>, lang: Language, g: Grid)
    requires lang.WellFormed() && IsRead(wire, lang, g)
    ensures GridHas(lang, g)
  {
    forall p | p in g
      ensures lang.Has(g[p])
    {
      assert ReadAt(wire, lang, Pos(|wire|, 0), g, p);
      WireToTileHas(CellAt(wire, p), lang);
    }
  }

  lemma RackHas(wire: seq<string>, lang: Language, rack: seq<Tile>)
    requires lang.WellFormed() && |wire| == |rack|
    requires forall i :: 0 <= i < |wire| ==> WireToTile(wire[i], lang) == Some(rack[i])
    ensures Have(rack, lang)
  {
    forall i | 0 <= i < |rack|
      ensures lang.Has(rack[i])
    {
      WireToTileHas(wire[i], lang);
    }
  }

  /** The bot's answer; anything it cannot read makes it pass. */
  method BotReply(boardWire: seq<seq<string>>, rackWire: seq<string>, dawg: DAWG, lang: Language, ghost g: Grid,
                  ghost hand: seq<Tile>)
    returns (wires: seq<PlacementWire>)
    requires OnSquares(boardWire) && Writable(lang) && GridHas(lang, g) && OnBoard(g) && Have(hand, lang)
    requires dawg.Valid() && dawg.alphabet == |lang.letters| <= WIDTH && IsLexicon(lang, dawg.words)
    ensures Told(boardWire, rackWire, g, hand, lang) ==> GoodAnswer(lang, dawg.words, g, hand, wires)
  {
    ghost var words := dawg.words;
    var board, rack := ReadTurn(boardWire, rackWire, lang, g, hand);
    if board.None? {
      return [];
    }
    assert dawg.Valid();
    var best := BestMove(board.value, rack, dawg, lang);
    if best.None? {
      wires := [];
    } else {
      assert Scores(best.value, board.value.Grid(), words, Cost(rack), lang);
      wires := EnginePlacementsToWire(best.value.move, lang);
    }
    if Told(boardWire, rackWire, g, hand, lang) {
      AnswerIsGood(lang, words, g, hand, best, wires);
    }
  }

  /** What a bot's turn comes to. */
  ghost predicate Answered(lang: Language, words: Lexicon, s: State, wires: seq<PlacementWire>, t: State)
    requires Core(lang, words, s)
  {
    && Completed(s, t)
    && (if wires == [] then t.board == s.board && forall pl :: !Playable(s.board, words, Cost(s.racks[s.current]), pl)
        else
          && Read(wires, |wires|, lang).Ok?
          && t.board == After(s.board, Read(wires, |wires|, lang).value))
  }

  /** An answer computed from the current board and rack is never refused. */
  lemma BotNeverRefused(lang: Language, words: Lexicon, s: State, wires: seq<PlacementWire>, t: State)
    requires Inv(lang, words, s) && !s.over && !s.paused && GoodAnswer(lang, words, s.board, s.racks[s.current], wires)
    requires Step(lang, words, s, BotPlay(s.ids[s.current], wires), t)
    ensures Answered(lang, words, s, wires, t)
  {
    var hand := s.racks[s.current];
    assert HandOk(lang, s.bag, hand);
    NoLettersCost(hand);
    if wires == [] {
      PassProgress(lang, words, s, t);
    } else {
      MoveGoesThrough(lang, words, s, Read(wires, |wires|, lang).value, t);
    }
  }

  lemma MoveGoesThrough(lang: Language, words: Lexicon, s: State, m: seq<Placement>, t: State)
    requires Inv(lang, words, s) && !s.over && AllHas(lang, m) && Moved(lang, words, s, m, t)
    requires Price(m) <= multiset(s.racks[s.current]) && Outcome(s.board, m, words, lang).Ok?
    ensures Completed(s, t) && t.board == After(s.board, m)
  {
    var rest :| Accepted(lang, words, s, m, rest, t);
    PlaceProgress(lang, words, s, m, rest, t);
  }

  class Room {
    const lang: Language
    const dawg: DAWG
    var players: seq<Player>
    var bag: Bag
    var board: Board
    var currentIdx: int
    var scorelessTurns: int
    var over: bool
    var paused: bool

    /** The game as a value, and the racks in it. */
    ghost var state: State
    ghost var racks: set<Rack>

    /** Seat `i` is as the value says. */
    ghost predicate SeatOk(i: int)
      requires 0 <= i < |players| == |state.ids| == |state.scores| == |state.racks|
      reads this, racks
    {
      SeatIs(players[i], racks, state.ids[i], state.scores[i], state.racks[i])
    }

    /** The room's parts agree with the value. */
    ghost predicate Linked()
      reads this, racks, bag, board, board.squares
    {
      && Seated(state) && |players| == |state.ids| && Different(players)
      && (forall i {:trigger SeatOk(i)} :: 0 <= i < |players| ==> SeatOk(i))
      && bag.tiles == state.bag
      && board.Valid() && board.Grid() == state.board
      && currentIdx == state.current && scorelessTurns == state.scoreless
      && over == state.over && paused == state.paused
    }

    /** Starts a game: everyone in turn draws a rackful from a shuffled bag. */
    constructor (lang: Language, dawg: DAWG, ids: seq<string>)
      requires lang.WellFormed()
      requires |ids| >= MIN_PLAYERS && lang.TotalTiles() >= RACK_SIZE * |ids|
      ensures this.lang == lang && this.dawg == dawg
      ensures Linked() && Inv(lang, dawg.words, state) && state.ids == ids && !over && !paused && state.board == map[]
      ensures fresh(bag) && fresh(board) && fresh(board.squares) && fresh(racks)
    {
      this.lang, this.dawg := lang, dawg;
      var newBag := new Bag(lang);
      ghost var full := newBag.tiles;
      var seats, dealt := Deal(ids, newBag);
      bag, players, racks := newBag, seats, dealt;
      board := new Board();
      currentIdx, scorelessTurns, over, paused := 0, 0, false, false;
      state := StartState(ids, full);
      StartKeeps(lang, dawg.words, ids, full);
    }

    // ---------- the end of a turn ----------

    method CollectRacks() returns (out: seq<Rack>)
      requires Linked()
      ensures Hands(out) == state.racks
    {
      out := [];
      for i := 0 to |players|
        invariant |out| == i && forall k :: 0 <= k < i ==> out[k] == players[k].rack
      {
        out := out + [players[i].rack];
      }
      forall i | 0 <= i < |players|
        ensures out[i].tiles == state.racks[i]
      {
        assert SeatOk(i);
      }
    }

    /** Ends the game and settles it if it is over; otherwise the next player is up. */
    method FinishTurn()
      requires Linked() && lang.WellFormed() && AllHave(state.racks, lang) && !over
      modifies this
      ensures Linked() && Finished(lang, old(state), state)
      ensures bag == old(bag) && board == old(board) && racks == old(racks) && |players| == |old(players)|
      ensures forall i :: 0 <= i < |players| ==> players[i].rack == old(players[i].rack)
    {
      var all := CollectRacks();
      assert Linked();
      var done := IsGameOver(bag, all, scorelessTurns);
      assert Linked();
      if done {
        EnterGameOver(all);
      } else {
        currentIdx := (currentIdx + 1) % |players|;
        state := state.(current := currentIdx);
        forall i | 0 <= i < |players|
          ensures SeatOk(i)
        {
          assert old(SeatOk(i));
        }
      }
    }

    method EnterGameOver(all: seq<Rack>)
      requires Linked() && lang.WellFormed() && AllHave(state.racks, lang) && Hands(all) == state.racks
      modifies this
      ensures Linked()
      ensures state == old(state).(over := true, scores := Settled(old(state.scores), old(state.racks), lang))
      ensures bag == old(bag) && board == old(board) && racks == old(racks) && |players| == |old(players)|
      ensures forall i :: 0 <= i < |players| ==> players[i].rack == old(players[i].rack)
    {
      var scores := seq(|players|, i requires 0 <= i < |players| reads this => players[i].score);
      forall i | 0 <= i < |players|
        ensures scores[i] == state.scores[i]
      {
        assert SeatOk(i);
      }
      assert scores == state.scores;
      var final := FinalScores(scores, all, lang);
      players := seq(|players|, i requires 0 <= i < |players| &&
                     |final| == |players| reads this => players[i].(score := final[i]));
      over := true;
      state := state.(over := true, scores := final);
      forall i | 0 <= i < |players|
        ensures SeatOk(i)
      {
        assert old(SeatOk(i));
      }
    }
  
    // ---------- the three kinds of turn ----------

    method ApplyPass(id: string)
      requires Linked() && Inv(lang, dawg.words, state) && !over
      modifies this
      ensures Linked() && PassStep(lang, old(state), id, state)
      ensures bag == old(bag) && board == old(board) && racks == old(racks)
    {
      assert SeatOk(currentIdx);
      if players[currentIdx].id != id {
        return;
      }
      scorelessTurns := scorelessTurns + 1;
      state := state.(scoreless := scorelessTurns);
      forall i | 0 <= i < |players|
        ensures SeatOk(i)
      {
        assert old(SeatOk(i));
      }
      CoreHas(lang, dawg.words, old(state));
      FinishTurn();
    }

    method ApplyExchange(id: string, indices: seq<int>)
      requires Linked() && Inv(lang, dawg.words, state) && !over
      modifies this, racks, bag
      ensures Linked() && ExchangeStep(lang, old(state), id, indices, state)
      ensures bag == old(bag) && board == old(board) && racks == old(racks)
    {
      assert SeatOk(currentIdx);
      if players[currentIdx].id != id {
        return;
      }
      var bad := SwapTiles(indices);
      if bad.Some? {
        return;
      }
      ExchangeKeeps(lang, dawg.words, old(state), indices, state.bag);
      CoreHas(lang, dawg.words, state);
      FinishTurn();
      assert Exchanged(lang, old(state), indices, state.bag, state);
    }

    /** The exchange itself, without the end of the turn. */
    method SwapTiles(indices: seq<int>) returns (bad: Option<RackError>)
      requires Linked()
      modifies this`state, this`scorelessTurns, racks, bag
      ensures Linked()
      ensures bad.None? <==> |old(state).bag| >= RACK_SIZE && Slots(indices, |old(state).racks[currentIdx]|)
      ensures bad.Some? ==> state == old(state)
      ensures bad.None? ==> BagAfterExchange(old(state), indices, state.bag)
      ensures bad.None? ==> state == AfterExchange(old(state), indices, state.bag)
    {
      assert SeatOk(currentIdx);
      var rack := players[currentIdx].rack;
      bad := rack.Exchange(indices, bag);
      if bad.None? {
        scorelessTurns := scorelessTurns + 1;
        state := AfterExchange(state, indices, bag.tiles);
      }
      KeepOtherSeats(currentIdx);
    }

    /** Takes the tiles of a move off the current rack, if they are all there. */
    method TakeTiles(pl: seq<Placement>) returns (taken: Option<seq<Tile>>)
      requires Linked() && lang.WellFormed() && AllHas(lang, pl)
      modifies this`state, racks
      ensures Linked()
      ensures taken.Some? <==> Price(pl) <= multiset(old(state).racks[currentIdx])
      ensures taken.None? ==> state == old(state)
      ensures taken.Some? ==> multiset(taken.value) == Price(pl) && HasPaid(old(state), pl, state)
    {
      assert SeatOk(currentIdx);
      var rack := players[currentIdx].rack;
      taken := PayFor(rack, pl, lang);
      ghost var hand := if taken.Some? then rack.tiles else state.racks[currentIdx];
      SameHand(state);
      state := WithHand(state, hand);
      KeepOtherSeats(currentIdx);
    }

    method AddTiles(tiles: seq<Tile>)
      requires Linked()
      modifies this`state, racks
      ensures Linked() && state == WithHand(old(state), old(state).racks[currentIdx] + tiles)
    {
      assert SeatOk(currentIdx);
      var rack := players[currentIdx].rack;
      rack.Add(tiles);
      state := WithHand(state, rack.tiles);
      KeepOtherSeats(currentIdx);
    }

    /** Takes the tiles off the rack and has the move validated; if it is refused they go back on the rack. */
    method TryMove(pl: seq<Placement>) returns (result: Option<int>)
      requires Linked() && dawg.Valid() && lang.WellFormed() && GridHas(lang, state.board) && AllHas(lang, pl)
      modifies this`state, racks
      ensures Linked() && Tried(lang, dawg.words, old(state), pl, state, result)
    {
      ghost var words := dawg.words;
      var taken := TakeTiles(pl);
      if taken.None? {
        return None;
      }
      assert dawg.Valid();
      result := JudgePaid(pl, taken.value, old(state), words);
    }

    /** Has a move validated whose tiles are off the rack already. */
    method JudgePaid(pl: seq<Placement>, taken: seq<Tile>, ghost before: State, ghost words: Lexicon)
      returns (result: Option<int>)
      requires Linked() && dawg.Valid() && dawg.words == words && lang.WellFormed() && GridHas(lang, state.board)
      requires AllHas(lang, pl)
      requires Seated(before) && Price(pl) <= multiset(before.racks[before.current]) && multiset(taken) == Price(pl)
      requires HasPaid(before, pl, state)
      modifies this`state, racks
      ensures Linked() && Tried(lang, words, before, pl, state, result)
    {
      ghost var rest := state.racks[currentIdx];
      result := ScoreIt(pl, words);
      if result.None? {
        AddTiles(taken);
        HandRestored(before, rest, taken, Price(pl));
      }
    }

    /** Asks the validator. */
    method ScoreIt(pl: seq<Placement>, ghost words: Lexicon) returns (result: Option<int>)
      requires Linked() && dawg.Valid() && dawg.words == words
      requires lang.WellFormed() && GridHas(lang, state.board) && AllHas(lang, pl)
      ensures Linked() && result == ScoreOf(lang, words, state.board, pl)
    {
      var r := Validate(board, pl, dawg, lang);
      return if r.Ok? then Some(r.value.score) else None;
    }

    method PutOnBoard(pl: seq<Placement>)
      requires Linked() && WellPlaced(state.board, pl)
      modifies `state, board, board.squares
      ensures Linked() && state == old(state).(board := After(old(state).board, pl))
    {
      ghost var before := state.board;
      ApplyAll(board, pl, before);
      state := state.(board := After(before, pl));
      forall i | 0 <= i < |players|
        ensures SeatOk(i)
      {
        assert old(SeatOk(i));
      }
    }

    /** Adds the points and refills the rack. */
    method Reward(score: int)
      requires Linked()
      modifies `state, `players, `scorelessTurns, racks, bag
      ensures Linked() && state == Rewarded(old(state), score)
    {
      assert SeatOk(currentIdx);
      var p := players[currentIdx];
      players := players[currentIdx := p.(score := p.score + score)];
      p.rack.Refill(bag);
      scorelessTurns := 0;
      state := Rewarded(state, score);
      forall i | 0 <= i < |players|
        ensures SeatOk(i)
      {
        assert old(SeatOk(i));
      }
    }

    /** Puts an accepted move on the board, scores it and refills the rack. */
    method Land(pl: seq<Placement>, score: int, ghost before: State)
      requires Linked() && WellPlaced(state.board, pl)
      requires Seated(before) && before.current == state.current
      requires state == WithHand(before, state.racks[state.current])
      modifies this, racks, bag, board, board.squares
      ensures Linked() && state == AfterPlace(before, pl, old(state.racks[state.current]), score)
      ensures bag == old(bag) && board == old(board) && racks == old(racks)
    {
      ghost var rest := state.racks[currentIdx];
      PutOnBoard(pl);
      Reward(score);
      LandedIs(before, pl, rest, score);
    }

    /** The move of the player whose turn it is, if it can be read; any other changes nothing. The points go to its
        sender's seat alone. */
    method ApplyPlace(id: string, wires: seq<PlacementWire>)
      requires Linked() && dawg.Valid() && Inv(lang, dawg.words, state) && !over
      modifies this, racks, bag, board, board.squares
      ensures Linked() && PlaceStep(lang, dawg.words, old(state), id, wires, state)
      ensures !old(state).paused ==> Effect(lang, dawg.words, old(state), Input.Place(id, wires), state)
      ensures bag == old(bag) && board == old(board) && racks == old(racks)
    {
      ghost var words := dawg.words;
      PlaceFor(id, wires);
      if !old(state).paused {
        StepEffect(lang, words, old(state), Input.Place(id, wires), state);
      }
    }

    method PlaceFor(id: string, wires: seq<PlacementWire>)
      requires Linked() && dawg.Valid() && Inv(lang, dawg.words, state) && !over
      modifies this, racks, bag, board, board.squares
      ensures Linked() && PlaceStep(lang, dawg.words, old(state), id, wires, state)
      ensures bag == old(bag) && board == old(board) && racks == old(racks)
    {
      assert SeatOk(currentIdx);
      if players[currentIdx].id != id {
        return;
      }
      var parsed := ToEnginePlacements(wires, lang);
      assert Linked() && dawg.Valid();
      if parsed.Err? {
        return;
      }
      PlayMove(parsed.value);
      assert Moved(lang, dawg.words, old(state), parsed.value, state);
    }

    /** Plays a move, or leaves everything as it is but for the order of the rack. */
    method PlayMove(pl: seq<Placement>)
      requires Linked() && dawg.Valid() && Inv(lang, dawg.words, state) && !over && AllHas(lang, pl)
      modifies this, racks, bag, board, board.squares
      ensures Linked() && Moved(lang, dawg.words, old(state), pl, state)
      ensures bag == old(bag) && board == old(board) && racks == old(racks)
    {
      ghost var words := dawg.words;
      var score := TryMove(pl);
      if score.None? {
        return;
      }
      ghost var rest := state.racks[currentIdx];
      LandedOk(lang, words, old(state), pl, rest);
      Land(pl, score.value, old(state));
      FinishTurn();
      assert Accepted(lang, words, old(state), pl, rest, state);
    }

    // ---------- messages ----------

    method HandleBotPlay(bot: string, wires: seq<PlacementWire>)
      requires Linked() && dawg.Valid() && Inv(lang, dawg.words, state) && !over && !paused
      modifies this, racks, bag, board, board.squares
      ensures Linked() && Step(lang, dawg.words, old(state), BotPlay(bot, wires), state)
      ensures bag == old(bag) && board == old(board) && racks == old(racks)
    {
      assert SeatOk(currentIdx);
      if players[currentIdx].id != bot {
        return;
      }
      if |wires| == 0 {
        ApplyPass(bot);
      } else {
        ApplyPlace(bot, wires);
      }
    }

    /** Every message makes a step of the turn loop; once the game is over it changes nothing, and while it is
        paused only resuming does. */
    method Receive(input: Input)
      requires Linked() && dawg.Valid() && Inv(lang, dawg.words, state)
      modifies this, racks, bag, board, board.squares
      ensures Linked() && Step(lang, dawg.words, old(state), input, state)
      ensures bag == old(bag) && board == old(board) && racks == old(racks)
      ensures Inv(lang, dawg.words, state) && Effect(lang, dawg.words, old(state), input, state)
    {
      ghost var words := dawg.words;
      Dispatch(input);
      StepProgress(lang, words, old(state), input, state);
      StepEffect(lang, words, old(state), input, state);
    }

    method Dispatch(input: Input)
      requires Linked() && dawg.Valid() && Inv(lang, dawg.words, state)
      modifies this, racks, bag, board, board.squares
      ensures Linked() && Step(lang, dawg.words, old(state), input, state)
      ensures bag == old(bag) && board == old(board) && racks == old(racks)
    {
      if over {
        return;
      }
      if paused {
        if input.Resume? {
          SetPaused(false);
        }
        return;
      }
      match input {
        case Place(id, wires) => ApplyPlace(id, wires);
        case Exchange(id, indices) => ApplyExchange(id, indices);
        case Pass(id) => ApplyPass(id);
        case Timeout =>
          assert SeatOk(currentIdx);
          ApplyPass(players[currentIdx].id);
        case Pause(_) => SetPaused(true);
        case Resume(_) =>
        case BotPlay(bot, wires) => HandleBotPlay(bot, wires);
      }
    }

    /** Any player may pause and resume the game. */
    method SetPaused(value: bool)
      requires Linked()
      modifies `paused, `state
      ensures Linked() && state == old(state).(paused := value)
    {
      paused := value;
      state := state.(paused := value);
      forall i | 0 <= i < |players|
        ensures SeatOk(i)
      {
        assert old(SeatOk(i));
      }
    }

    /** What the room sends to a bot whose turn it is. */
    method YourTurn() returns (boardWire: seq<seq<string>>, rackWire: seq<string>)
      requires Linked() && lang.WellFormed() && GridHas(lang, state.board) && Have(state.racks[currentIdx], lang)
      ensures Linked() && Told(boardWire, rackWire, state.board, state.racks[currentIdx], lang)
    {
      assert SeatOk(currentIdx);
      boardWire := BoardToWire(board, lang);
      assert Linked();
      rackWire := RackToWire(players[currentIdx].rack.tiles, lang);
    }

    /** A whole turn of a bot: the room sends it the board and its rack, it answers, and the room plays the answer. The
        turn is always completed: either the best move is on the board, or there is none and the bot has passed. */
    method BotTurn() returns (ghost wires: seq<PlacementWire>)
      requires Linked() && dawg.Valid() && Inv(lang, dawg.words, state) && !over && !paused
      requires Writable(lang) && dawg.alphabet == |lang.letters| <= WIDTH && IsLexicon(lang, dawg.words)
      modifies this, racks, bag, board, board.squares
      ensures Linked() && Inv(lang, dawg.words, state)
      ensures Answered(lang, dawg.words, old(state), wires, state)
      ensures GoodAnswer(lang, dawg.words, old(state.board), old(state.racks[state.current]), wires)
    {
      ghost var words := dawg.words;
      assert SeatOk(currentIdx);
      CoreHas(lang, words, state);
      assert Have(state.racks[currentIdx], lang);
      var boardWire, rackWire := YourTurn();
      assert dawg.Valid();
      ShownOnSquares(boardWire, state.board, lang);
      var answer := BotReply(boardWire, rackWire, dawg, lang, state.board, state.racks[currentIdx]);
      assert Linked() && dawg.Valid();
      HandleBotPlay(players[currentIdx].id, answer);
      BotNeverRefused(lang, words, old(state), answer, state);
      StepProgress(lang, words, old(state), BotPlay(old(state).ids[old(state).current], answer), state);
      wires := answer;
    }

    /** Seats whose racks and entries are as before still agree with the value. */
    twostate lemma KeepOtherSeats(k: int)
      requires old(Linked()) && players == old(players) && racks == old(racks)
      requires |state.ids| == |state.scores| == |state.racks| == |players|
      requires 0 <= k < |players| && SeatOk(k)
      requires forall i :: 0 <= i < |players| && i != k ==>
                 players[i].rack.tiles == old(players[i].rack.tiles)
      requires state.ids == old(state.ids) && state.scores == old(state.scores)
      requires forall i :: 0 <= i < |players| && i != k ==> state.racks[i] == old(state.racks[i])
      ensures forall i {:trigger SeatOk(i)} :: 0 <= i < |players| ==> SeatOk(i)
    {
      forall i | 0 <= i < |players|
        ensures SeatOk(i)
      {
        assert old(SeatOk(i));
      }
    }
  }
}
