/** The turn loop of a room as steps on a value (goakt-scrabble/room.go), and what every run of it keeps. */
module Turns {
  import opened Wrappers
  import opened Tiles
  import opened Grids
  import opened Moves
  import opened MoveLaws
  import opened Game
  import opened Racks
  import opened Endgame
  import opened Ledgers
  import opened Wires

  const MIN_PLAYERS := 2
  const MAX_PLAYERS := 4

  /** One game with fixed seats; `over` once the scores are settled, `paused` while it waits to be resumed. */
  datatype State = State(ids: seq<string>, racks: seq<seq<Tile>>, scores: seq<int>, bag: seq<Tile>, board: Grid,
                         current: int, scoreless: int, over: bool, paused: bool)

  datatype Input =
    | Place(player: string, wires: seq<PlacementWire>)
    | Exchange(player: string, indices: seq<int>)
    | Pass(player: string)
    | Timeout
    | Pause(player: string)
    | Resume(player: string)
    | BotPlay(bot: string, wires: seq<PlacementWire>)

  // ---------- what every state keeps ----------

  predicate Seated(s: State) {
    MIN_PLAYERS <= |s.ids| == |s.racks| == |s.scores| && 0 <= s.current < |s.ids|
  }

  /** Hands hold at most seven tiles, and exactly seven while there are tiles in the bag. */
  predicate HandOk(lang: Language, bag: seq<Tile>, hand: seq<Tile>) {
    Plain(lang, hand) && |hand| <= RACK_SIZE && (bag != [] ==> |hand| == RACK_SIZE)
  }

  ghost predicate HandsOk(lang: Language, bag: seq<Tile>, racks: seq<seq<Tile>>) {
    forall k {:trigger HandOk(lang, bag, racks[k])} :: 0 <= k < |racks| ==> HandOk(lang, bag, racks[k])
  }

  /** How many tiles `t` the first `n` players hold. */
  function HandCount(racks: seq<seq<Tile>>, n: nat, t: Tile): nat
    requires n <= |racks|
  {
    if n == 0 then 0 else HandCount(racks, n - 1, t) + multiset(racks[n - 1])[t]
  }

  /** How many squares hold the tile `t`, whatever letter a blank stands for. */
  function BoardCount(g: Grid, t: Tile): nat {
    |set p | p in g && Norm(g[p]) == t|
  }

  /** How many tiles `t` there are in the bag, on the racks and on the board. */
  function Count(s: State, t: Tile): nat {
    multiset(s.bag)[t] + HandCount(s.racks, |s.racks|, t) + BoardCount(s.board, t)
  }

  /** Of each tile there are as many as in a full set. */
  ghost predicate Conserved(lang: Language, s: State)
    requires lang.WellFormed()
  {
    forall t :: Count(s, t) == multiset(FullSet(lang))[t]
  }

  ghost predicate Core(lang: Language, words: Lexicon, s: State) {
    && lang.WellFormed() && Seated(s)
    && Plain(lang, s.bag) && HandsOk(lang, s.bag, s.racks)
    && GridHas(lang, s.board) && GoodBoard(s.board, words)
    && Conserved(lang, s)
  }

  /** While the game is on there have been fewer than six scoreless turns, and nobody's rack is empty. */
  ghost predicate Inv(lang: Language, words: Lexicon, s: State) {
    && Core(lang, words, s)
    && 0 <= s.scoreless <= SCORELESS_TURNS_TO_END
    && (!s.over ==> s.scoreless < SCORELESS_TURNS_TO_END && !SomeEmpty(s.racks))
  }

  // ---------- steps ----------

  /** The end of a completed turn: the game is over and settled, or the next player is up. */
  ghost predicate Finished(lang: Language, mid: State, t: State)
    requires lang.WellFormed() && Seated(mid)
  {
    if GameOver(mid.bag, mid.racks, mid.scoreless)
    then AllHave(mid.racks, lang) && t == mid.(over := true, scores := Settled(mid.scores, mid.racks, lang))
    else t == mid.(current := (mid.current + 1) % |mid.ids|)
  }

  /** After an accepted placement, with `rest` left on the rack before it is refilled. */
  function AfterPlace(s: State, pl: seq<Placement>, rest: seq<Tile>, score: int): State
    requires Seated(s)
  {
    s.(board := After(s.board, pl),
       racks := s.racks[s.current := rest + Drawn(s.bag, Need(rest))],
       bag := Kept(s.bag, Need(rest)),
       scores := s.scores[s.current := s.scores[s.current] + score],
       scoreless := 0)
  }

  function AfterExchange(s: State, indices: seq<int>, bag: seq<Tile>): State
    requires Seated(s)
  {
    s.(racks := s.racks[s.current := Without(s.racks[s.current], SlotSet(indices)) + Drawn(s.bag, |indices|)],
       bag := bag,
       scoreless := s.scoreless + 1)
  }

  /** Only the order of the current player's tiles may have changed. */
  predicate Unchanged(s: State, t: State)
    requires Seated(s)
  {
    |t.racks| == |s.racks| && multiset(t.racks[s.current]) == multiset(s.racks[s.current])
    && t == s.(racks := s.racks[s.current := t.racks[s.current]])
  }

  ghost predicate Accepted(lang: Language, words: Lexicon, s: State, pl: seq<Placement>, rest: seq<Tile>, t: State)
    requires Core(lang, words, s) && AllHas(lang, pl)
  {
    && Price(pl) <= multiset(s.racks[s.current])
    && multiset(rest) == multiset(s.racks[s.current]) - Price(pl)
    && Outcome(s.board, pl, words, lang).Ok?
    && Finished(lang, AfterPlace(s, pl, rest, Outcome(s.board, pl, words, lang).value.score), t)
  }

  /** A move is accepted if the current player can pay for it and the validator agrees. */
  ghost predicate Moved(lang: Language, words: Lexicon, s: State, pl: seq<Placement>, t: State)
    requires Core(lang, words, s) && AllHas(lang, pl)
  {
    if !(Price(pl) <= multiset(s.racks[s.current])) then t == s
    else if Outcome(s.board, pl, words, lang).Err? then Unchanged(s, t)
    else exists rest :: Accepted(lang, words, s, pl, rest, t)
  }

  ghost predicate PlaceStep(lang: Language, words: Lexicon, s: State, id: string, wires: seq<PlacementWire>, t: State)
    requires Core(lang, words, s)
  {
    if s.ids[s.current] != id || Read(wires, |wires|, lang).Err? then t == s
    else Moved(lang, words, s, Read(wires, |wires|, lang).value, t)
  }

  /** What was given back has been mixed into what the draw left. */
  ghost predicate BagAfterExchange(s: State, indices: seq<int>, bag: seq<Tile>)
    requires Seated(s) && Slots(indices, |s.racks[s.current]|)
  {
    multiset(bag) == multiset(Kept(s.bag, |indices|)) + Cost(Picked(s.racks[s.current], indices))
  }

  ghost predicate Exchanged(lang: Language, s: State, indices: seq<int>, bag: seq<Tile>, t: State)
    requires lang.WellFormed() && Seated(s) && Slots(indices, |s.racks[s.current]|)
  {
    && BagAfterExchange(s, indices, bag)
    && Finished(lang, AfterExchange(s, indices, bag), t)
  }

  ghost predicate ExchangeStep(lang: Language, s: State, id: string, indices: seq<int>, t: State)
    requires lang.WellFormed() && Seated(s)
  {
    if s.ids[s.current] != id || |s.bag| < RACK_SIZE || !Slots(indices, |s.racks[s.current]|) then t == s
    else exists bag :: Exchanged(lang, s, indices, bag, t)
  }

  ghost predicate PassStep(lang: Language, s: State, id: string, t: State)
    requires lang.WellFormed() && Seated(s)
  {
    if s.ids[s.current] != id then t == s
    else Finished(lang, s.(scoreless := s.scoreless + 1), t)
  }

  ghost predicate Step(lang: Language, words: Lexicon, s: State, input: Input, t: State)
    requires Core(lang, words, s)
  {
    if s.over then t == s
    else if s.paused then t == if input.Resume? then s.(paused := false) else s
    else match input
      case Place(id, wires) => PlaceStep(lang, words, s, id, wires, t)
      case Exchange(id, indices) => ExchangeStep(lang, s, id, indices, t)
      case Pass(id) => PassStep(lang, s, id, t)
      case Timeout => PassStep(lang, s, s.ids[s.current], t)
      case Pause(_) => t == s.(paused := true)
      case Resume(_) => t == s
      case BotPlay(id, wires) =>
        if s.ids[s.current] != id then t == s
        else if wires == [] then PassStep(lang, s, id, t)
        else PlaceStep(lang, words, s, id, wires, t)
  }

  // ---------- counting tiles ----------

  lemma {:induction false} HandUpdate(racks: seq<seq<Tile>>, n: nat, k: nat, hand: seq<Tile>, t: Tile)
    requires n <= |racks| && k < |racks|
    ensures HandCount(racks[k := hand], n, t) + (if k < n then multiset(racks[k])[t] else 0) ==
            HandCount(racks, n, t) + (if k < n then multiset(hand)[t] else 0)
    decreases n
  {
    if n > 0 {
      HandUpdate(racks, n - 1, k, hand, t);
    }
  }

  /** Replacing one hand, the bag and the board changes the count by the differences. */
  lemma CountUpdate(s: State, u: State, t: Tile)
    requires Seated(s) && |u.racks| == |s.racks| && u.racks == s.racks[s.current := u.racks[s.current]]
    ensures Count(u, t) == Count(s, t) + multiset(u.racks[s.current])[t] - multiset(s.racks[s.current])[t]
                           + multiset(u.bag)[t] - multiset(s.bag)[t] + BoardCount(u.board, t) - BoardCount(s.board, t)
  {
    HandUpdate(s.racks, |s.racks|, s.current, u.racks[s.current], t);
  }

  lemma CountOne(g: Grid, p: Pos, x: Tile, t: Tile)
    requires p !in g
    ensures BoardCount(g[p := x], t) == BoardCount(g, t) + (if Norm(x) == t then 1 else 0)
  {
    var h := g[p := x];
    var a, b := (set q | q in g && Norm(g[q]) == t), (set q | q in h && Norm(h[q]) == t);
    assert b == if Norm(x) == t then a + {p} else a;
  }

  lemma PriceMore(pl: seq<Placement>, n: nat)
    requires n < |pl|
    ensures Price(pl[..n + 1]) == Price(pl[..n]) + multiset{Norm(pl[n].tile)}
  {
    assert pl[..n + 1] == pl[..n] + [pl[n]];
    PriceConcat(pl[..n], [pl[n]]);
    PriceOne(pl[n]);
  }

  /** A move puts exactly what it costs on the board. */
  lemma {:induction false} CountAfter(g: Grid, pl: seq<Placement>, n: nat, t: Tile)
    requires WellPlaced(g, pl) && n <= |pl|
    ensures BoardCount(After(g, pl[..n]), t) == BoardCount(g, t) + Price(pl[..n])[t]
    decreases n
  {
    if n == 0 {
      assert After(g, pl[..0]) == g;
      assert Price(pl[..0]) == multiset{};
    } else {
      CountAfter(g, pl, n - 1, t);
      AfterMore(g, pl, n - 1);
      PriceMore(pl, n - 1);
      CountOne(After(g, pl[..n - 1]), pl[n - 1].pos, pl[n - 1].tile, t);
    }
  }

  lemma PlainSub(lang: Language, a: seq<Tile>, b: seq<Tile>)
    requires multiset(a) <= multiset(b) && Plain(lang, b)
    ensures Plain(lang, a)
  {
    forall i | 0 <= i < |a|
      ensures PlainTile(lang, a[i])
    {
      assert a[i] in multiset(a);
      assert a[i] in multiset(b);
      var j :| 0 <= j < |b| && b[j] == a[i];
    }
  }

  lemma PlainConcat(lang: Language, a: seq<Tile>, b: seq<Tile>)
    requires Plain(lang, a) && Plain(lang, b)
    ensures Plain(lang, a + b)
  {
  }

  lemma SubsetSize(a: multiset<Tile>, b: multiset<Tile>)
    requires a <= b
    ensures |b - a| == |b| - |a|
  {
    assert b == a + (b - a);
  }

  // ---------- each step keeps the invariant ----------

  lemma HandsReplaced(lang: Language, bag: seq<Tile>, bag2: seq<Tile>, racks: seq<seq<Tile>>, k: nat, hand: seq<Tile>)
    requires k < |racks| && HandsOk(lang, bag, racks) && HandOk(lang, bag2, hand)
    requires bag == [] ==> bag2 == []
    ensures HandsOk(lang, bag2, racks[k := hand])
  {
    var racks2 := racks[k := hand];
    forall i | 0 <= i < |racks2|
      ensures HandOk(lang, bag2, racks2[i])
    {
      assert HandOk(lang, bag, racks[i]);
    }
  }

  /** Refilling a hand from the bag makes it full, or empties the bag. */
  lemma RefilledOk(lang: Language, rest: seq<Tile>, bag: seq<Tile>)
    requires Plain(lang, rest) && Plain(lang, bag) && |rest| <= RACK_SIZE
    ensures HandOk(lang, Kept(bag, Need(rest)), rest + Drawn(bag, Need(rest)))
    ensures Plain(lang, Kept(bag, Need(rest)))
  {
    DrawSplits(bag, Need(rest));
    PlainSub(lang, Kept(bag, Need(rest)), bag);
    PlainSub(lang, Drawn(bag, Need(rest)), bag);
    PlainConcat(lang, rest, Drawn(bag, Need(rest)));
  }

  lemma CountSum(a: multiset<Tile>, b: multiset<Tile>, c: multiset<Tile>, t: Tile)
    requires a + b == c
    ensures a[t] + b[t] == c[t]
  {
  }

  lemma CountConcat(a: seq<Tile>, b: seq<Tile>, t: Tile)
    ensures multiset(a + b)[t] == multiset(a)[t] + multiset(b)[t]
  {
  }

  lemma PlaceConserves(lang: Language, s: State, pl: seq<Placement>, rest: seq<Tile>, score: int)
    requires lang.WellFormed() && Seated(s) && Conserved(lang, s) && WellPlaced(s.board, pl)
    requires Price(pl) <= multiset(s.racks[s.current]) && multiset(rest) == multiset(s.racks[s.current]) - Price(pl)
    ensures Conserved(lang, AfterPlace(s, pl, rest, score))
  {
    var mid, rack := AfterPlace(s, pl, rest, score), s.racks[s.current];
    var n := Need(rest);
    forall t
      ensures Count(mid, t) == multiset(FullSet(lang))[t]
    {
      CountUpdate(s, mid, t);
      DrawSplits(s.bag, n);
      CountSum(multiset(Kept(s.bag, n)), multiset(Drawn(s.bag, n)), multiset(s.bag), t);
      CountSum(Price(pl), multiset(rest), multiset(rack), t);
      CountConcat(rest, Drawn(s.bag, n), t);
      CountAfter(s.board, pl, |pl|, t);
      assert pl[..|pl|] == pl;
      assert Count(s, t) == multiset(FullSet(lang))[t];
    }
  }

  lemma PlaceKeeps(lang: Language, words: Lexicon, s: State, pl: seq<Placement>, rest: seq<Tile>, score: int)
    requires Core(lang, words, s) && AllHas(lang, pl) && Legal(s.board, words, pl)
    requires Price(pl) <= multiset(s.racks[s.current]) && multiset(rest) == multiset(s.racks[s.current]) - Price(pl)
    ensures Core(lang, words, AfterPlace(s, pl, rest, score))
  {
    var rack := s.racks[s.current];
    assert HandOk(lang, s.bag, rack);
    PlainSub(lang, rest, rack);
    SubsetSize(Price(pl), multiset(rack));
    RefilledOk(lang, rest, s.bag);
    HandsReplaced(lang, s.bag, Kept(s.bag, Need(rest)), s.racks, s.current, rest + Drawn(s.bag, Need(rest)));
    AfterHas(lang, s.board, pl);
    LegalMoveKeepsBoard(s.board, words, pl);
    PlaceConserves(lang, s, pl, rest, score);
  }

  lemma ExchangeKeeps(lang: Language, words: Lexicon, s: State, indices: seq<int>, bag: seq<Tile>)
    requires Core(lang, words, s) && |s.bag| >= RACK_SIZE && Slots(indices, |s.racks[s.current]|)
    requires BagAfterExchange(s, indices, bag)
    ensures Core(lang, words, AfterExchange(s, indices, bag))
    ensures |AfterExchange(s, indices, bag).racks[s.current]| == |s.racks[s.current]| && |bag| == |s.bag|
  {
    var rack, mid := s.racks[s.current], AfterExchange(s, indices, bag);
    var hand := mid.racks[s.current];
    assert HandOk(lang, s.bag, rack);
    ExchangeKeepsTiles(rack, s.bag, indices, bag);
    PlainConcat(lang, rack, s.bag);
    assert multiset(rack + s.bag) == multiset(rack) + multiset(s.bag);
    PlainSub(lang, hand, rack + s.bag);
    PlainSub(lang, bag, rack + s.bag);
    HandsReplaced(lang, s.bag, bag, s.racks, s.current, hand);
    ExchangeConserves(lang, s, mid);
  }

  /** Moving tiles between the bag and one hand keeps the count. */
  lemma ExchangeConserves(lang: Language, s: State, mid: State)
    requires lang.WellFormed() && Seated(s) && Conserved(lang, s) && mid.board == s.board
    requires |mid.racks| == |s.racks| && mid.racks == s.racks[s.current := mid.racks[s.current]]
    requires multiset(mid.racks[s.current]) + multiset(mid.bag) == multiset(s.racks[s.current]) + multiset(s.bag)
    ensures Conserved(lang, mid)
  {
    forall t
      ensures Count(mid, t) == multiset(FullSet(lang))[t]
    {
      CountUpdate(s, mid, t);
      CountSum(multiset(mid.racks[s.current]), multiset(mid.bag), multiset(s.racks[s.current]) + multiset(s.bag), t);
      assert Count(s, t) == multiset(FullSet(lang))[t];
    }
  }

  lemma UnchangedKeeps(lang: Language, words: Lexicon, s: State, t: State)
    requires Core(lang, words, s) && Unchanged(s, t)
    ensures Core(lang, words, t) && (SomeEmpty(t.racks) ==> SomeEmpty(s.racks))
    ensures |t.racks[s.current]| == |s.racks[s.current]|
  {
    var rack, hand := s.racks[s.current], t.racks[s.current];
    assert HandOk(lang, s.bag, rack);
    PlainSub(lang, hand, rack);
    assert |multiset(hand)| == |multiset(rack)|;
    HandsReplaced(lang, s.bag, s.bag, s.racks, s.current, hand);
    ExchangeConserves(lang, s, t);
    if k :| 0 <= k < |t.racks| && t.racks[k] == [] {
      assert s.racks[k] == [];
    }
  }

  lemma FinishedKeeps(lang: Language, words: Lexicon, mid: State, t: State)
    requires Core(lang, words, mid) && 0 <= mid.scoreless <= SCORELESS_TURNS_TO_END && !mid.over
    requires Finished(lang, mid, t)
    ensures Inv(lang, words, t)
    ensures TilesOff(t) == TilesOff(mid)
  {
    assert Conserved(lang, t) by {
      assert forall x :: Count(t, x) == Count(mid, x);
    }
    if !GameOver(mid.bag, mid.racks, mid.scoreless) {
      if k :| 0 <= k < |t.racks| && t.racks[k] == [] {
        assert HandOk(lang, mid.bag, mid.racks[k]);
        assert SomeEmpty(mid.racks);
        assert false;
      }
    }
  }

  // ---------- a measure ----------

  function HandSizes(racks: seq<seq<Tile>>, n: nat): nat
    requires n <= |racks|
  {
    if n == 0 then 0 else HandSizes(racks, n - 1) + |racks[n - 1]|
  }

  /** Tiles that are not on the board. */
  function TilesOff(s: State): nat {
    |s.bag| + HandSizes(s.racks, |s.racks|)
  }

  /** Falls with every completed turn. */
  function Measure(s: State): int {
    SCORELESS_TURNS_TO_END * TilesOff(s) + SCORELESS_TURNS_TO_END - s.scoreless
  }

  lemma {:induction false} SizesUpdate(racks: seq<seq<Tile>>, n: nat, k: nat, hand: seq<Tile>)
    requires n <= |racks| && k < |racks|
    ensures HandSizes(racks[k := hand], n) + (if k < n then |racks[k]| else 0) ==
            HandSizes(racks, n) + (if k < n then |hand| else 0)
    decreases n
  {
    if n > 0 {
      SizesUpdate(racks, n - 1, k, hand);
    }
  }

  /** A turn is completed when the game ends or the next player is up. */
  predicate Completed(s: State, t: State) {
    t.over != s.over || t.current != s.current
  }

  lemma FinishedCompletes(lang: Language, s: State, mid: State, t: State)
    requires lang.WellFormed() && Seated(s) && Seated(mid) && mid.current == s.current && mid.ids == s.ids && !s.over
    requires !mid.over
    requires Finished(lang, mid, t)
    ensures Completed(s, t)
  {
    NextSeat(mid.current, |mid.ids|);
  }

  lemma NextSeat(k: int, n: int)
    requires 0 <= k < n && n >= MIN_PLAYERS
    ensures (k + 1) % n != k && 0 <= (k + 1) % n < n
  {
    assert k + 1 < n ==> (k + 1) % n == k + 1;
  }

  /** What a step does to the invariant and to the measure. */
  ghost predicate Progress(lang: Language, words: Lexicon, s: State, t: State)
    requires Seated(s)
  {
    && Inv(lang, words, t) && t.ids == s.ids
    && (if Completed(s, t) then Measure(t) < Measure(s)
        else Measure(t) == Measure(s) && Unchanged(s, t.(paused := s.paused)))
  }

  lemma PlaceProgress(lang: Language, words: Lexicon, s: State, pl: seq<Placement>, rest: seq<Tile>, t: State)
    requires Inv(lang, words, s) && !s.over && AllHas(lang, pl) && Accepted(lang, words, s, pl, rest, t)
    ensures Progress(lang, words, s, t) && Completed(s, t)
  {
    var mid := AfterPlace(s, pl, rest, Outcome(s.board, pl, words, lang).value.score);
    AcceptedIffLegal(s.board, pl, words, lang);
    PlaceKeeps(lang, words, s, pl, rest, Outcome(s.board, pl, words, lang).value.score);
    FinishedKeeps(lang, words, mid, t);
    FinishedCompletes(lang, s, mid, t);
    SizesUpdate(s.racks, |s.racks|, s.current, mid.racks[s.current]);
    DrawSplits(s.bag, Need(rest));
    SubsetSize(Price(pl), multiset(s.racks[s.current]));
    PriceSize(pl);
    assert |multiset(rest)| == |rest|;
  }

  lemma ExchangeProgress(lang: Language, words: Lexicon, s: State, indices: seq<int>, bag: seq<Tile>, t: State)
    requires Inv(lang, words, s) && !s.over && |s.bag| >= RACK_SIZE && Slots(indices, |s.racks[s.current]|)
    requires Exchanged(lang, s, indices, bag, t)
    ensures Progress(lang, words, s, t) && Completed(s, t)
  {
    var mid := AfterExchange(s, indices, bag);
    ExchangeKeeps(lang, words, s, indices, bag);
    FinishedKeeps(lang, words, mid, t);
    FinishedCompletes(lang, s, mid, t);
    SizesUpdate(s.racks, |s.racks|, s.current, mid.racks[s.current]);
  }

  lemma PassProgress(lang: Language, words: Lexicon, s: State, t: State)
    requires Inv(lang, words, s) && !s.over && Finished(lang, s.(scoreless := s.scoreless + 1), t)
    ensures Progress(lang, words, s, t) && Completed(s, t)
  {
    var mid := s.(scoreless := s.scoreless + 1);
    assert Conserved(lang, mid) by {
      assert forall x :: Count(mid, x) == Count(s, x);
    }
    FinishedKeeps(lang, words, mid, t);
    FinishedCompletes(lang, s, mid, t);
  }

  lemma SameProgress(lang: Language, words: Lexicon, s: State, t: State)
    requires Inv(lang, words, s) && Unchanged(s, t)
    ensures Progress(lang, words, s, t) && !Completed(s, t)
  {
    UnchangedKeeps(lang, words, s, t);
    SizesUpdate(s.racks, |s.racks|, s.current, t.racks[s.current]);
  }

  lemma PauseProgress(lang: Language, words: Lexicon, s: State, paused: bool)
    requires Inv(lang, words, s)
    ensures Progress(lang, words, s, s.(paused := paused)) && !Completed(s, s.(paused := paused))
  {
    var t := s.(paused := paused);
    assert Conserved(lang, t) by {
      assert forall x :: Count(t, x) == Count(s, x);
    }
  }

  lemma PlaceStepProgress(lang: Language, words: Lexicon, s: State, id: string, wires: seq<PlacementWire>, t: State)
    requires Inv(lang, words, s) && !s.over && PlaceStep(lang, words, s, id, wires, t)
    ensures Progress(lang, words, s, t)
  {
    if !(s.ids[s.current] != id || Read(wires, |wires|, lang).Err?) {
      var pl := Read(wires, |wires|, lang).value;
      if Price(pl) <= multiset(s.racks[s.current]) && Outcome(s.board, pl, words, lang).Ok? {
        var rest :| Accepted(lang, words, s, pl, rest, t);
        PlaceProgress(lang, words, s, pl, rest, t);
      } else {
        SameProgress(lang, words, s, t);
      }
    } else {
      SameProgress(lang, words, s, t);
    }
  }

  lemma PassStepProgress(lang: Language, words: Lexicon, s: State, id: string, t: State)
    requires Inv(lang, words, s) && !s.over && PassStep(lang, s, id, t)
    ensures Progress(lang, words, s, t)
  {
    if s.ids[s.current] == id {
      PassProgress(lang, words, s, t);
    } else {
      SameProgress(lang, words, s, t);
    }
  }

  /** Every step keeps the invariant; a completed turn lowers the measure, and any other step changes at most the
      order of a hand. */
  lemma StepProgress(lang: Language, words: Lexicon, s: State, input: Input, t: State)
    requires Inv(lang, words, s) && Step(lang, words, s, input, t)
    ensures Progress(lang, words, s, t)
  {
    if !s.over && (s.paused || input.Pause? || input.Resume?) {
      PauseProgress(lang, words, s, t.paused);
    } else if s.over || (input.BotPlay? && s.ids[s.current] != input.bot) {
      SameProgress(lang, words, s, t);
    } else {
      match input
      case Place(id, wires) => PlaceStepProgress(lang, words, s, id, wires, t);
      case Exchange(id, indices) =>
        if s.ids[s.current] != id || |s.bag| < RACK_SIZE || !Slots(indices, |s.racks[s.current]|) {
          SameProgress(lang, words, s, t);
        } else {
          var bag :| Exchanged(lang, s, indices, bag, t);
          ExchangeProgress(lang, words, s, indices, bag, t);
        }
      case Pass(id) => PassStepProgress(lang, words, s, id, t);
      case Timeout => PassStepProgress(lang, words, s, s.ids[s.current], t);
      case Pause(_) => assert false;
      case Resume(_) => assert false;
      case BotPlay(id, wires) =>
        if wires == [] {
          PassStepProgress(lang, words, s, id, t);
        } else {
          PlaceStepProgress(lang, words, s, id, wires, t);
        }
    }
  }

  // ---------- whole games ----------

  /** A run: each state follows from the one before by the input between them. */
  ghost predicate Run(lang: Language, words: Lexicon, states: seq<State>, inputs: seq<Input>) {
    && |states| == |inputs| + 1 && Inv(lang, words, states[0])
    && forall i {:trigger StepAt(lang, words, states, inputs, i)} ::
         0 <= i < |inputs| ==> StepAt(lang, words, states, inputs, i)
  }

  ghost predicate StepAt(lang: Language, words: Lexicon, states: seq<State>, inputs: seq<Input>, i: int)
    requires 0 <= i < |inputs| < |states|
  {
    Core(lang, words, states[i]) && Step(lang, words, states[i], inputs[i], states[i + 1])
  }

  function Turns(states: seq<State>, n: nat): nat
    requires n < |states|
  {
    if n == 0 then 0 else Turns(states, n - 1) + (if Completed(states[n - 1], states[n]) then 1 else 0)
  }

  lemma MeasureIsNat(lang: Language, words: Lexicon, s: State)
    requires Inv(lang, words, s)
    ensures Measure(s) >= 0
  {
  }

  lemma RunStep(lang: Language, words: Lexicon, states: seq<State>, inputs: seq<Input>, i: nat)
    requires Run(lang, words, states, inputs) && i < |inputs| && Inv(lang, words, states[i])
    ensures Inv(lang, words, states[i + 1]) && Measure(states[i + 1]) >= 0
    ensures (if Completed(states[i], states[i + 1]) then 1 else 0) + Measure(states[i + 1]) <= Measure(states[i])
  {
    assert StepAt(lang, words, states, inputs, i);
    StepProgress(lang, words, states[i], inputs[i], states[i + 1]);
    MeasureIsNat(lang, words, states[i + 1]);
  }

  /** Over every run the tiles are conserved, hands keep their sizes and the board stays good; and there are at most
      as many completed turns as the measure of the first state. */
  lemma {:induction false} EveryRunKeeps(lang: Language, words: Lexicon, states: seq<State>, inputs: seq<Input>, n: nat)
    requires Run(lang, words, states, inputs) && n <= |inputs|
    ensures Inv(lang, words, states[n])
    ensures Turns(states, n) + Measure(states[n]) <= Measure(states[0]) && Measure(states[n]) >= 0
    decreases n
  {
    if n > 0 {
      EveryRunKeeps(lang, words, states, inputs, n - 1);
      RunStep(lang, words, states, inputs, n - 1);
    } else {
      MeasureIsNat(lang, words, states[0]);
    }
  }

  // ---------- the end ----------

  /** Exactly one rack is empty, and it is the player's. */
  predicate WentOut(racks: seq<seq<Tile>>, k: int) {
    0 <= k < |racks| && racks[k] == [] && forall j :: 0 <= j < |racks| && j != k ==> racks[j] != []
  }

  /** How a game ends: the mover has gone out, and apart from the points of the move the total stays; or there were
      six scoreless turns, nobody's rack is empty, and the total falls by the value of all racks. */
  ghost predicate SettledEnd(lang: Language, s: State, t: State, points: int)
    requires Seated(s)
  {
    if t.scoreless == 0
    then t.bag == [] && WentOut(t.racks, s.current) && Sum(t.scores) == Sum(s.scores) + points
    else
      && t.scoreless == SCORELESS_TURNS_TO_END && points == 0 && !SomeEmpty(t.racks)
      && lang.WellFormed() && AllHave(t.racks, lang)
      && Sum(t.scores) == Sum(s.scores) - Sum(Values(t.racks, lang))
  }

  /** If nobody's rack was empty and one is now, it is the one that changed. */
  lemma OnlyMoverOut(racks: seq<seq<Tile>>, k: nat, hand: seq<Tile>)
    requires k < |racks| && !SomeEmpty(racks) && SomeEmpty(racks[k := hand])
    ensures WentOut(racks[k := hand], k)
  {
    var racks2 := racks[k := hand];
    var j :| 0 <= j < |racks2| && racks2[j] == [];
    assert forall i :: 0 <= i < |racks| ==> racks[i] != [];
  }

  lemma SettledTotal(lang: Language, mid: State, t: State)
    requires lang.WellFormed() && Seated(mid) && Finished(lang, mid, t) && t.over && !mid.over
    requires mid.scoreless < SCORELESS_TURNS_TO_END
    ensures t.bag == mid.bag == [] && SomeEmpty(mid.racks) && Sum(t.scores) == Sum(mid.scores)
    ensures t.racks == mid.racks && t.scoreless == mid.scoreless
  {
    SettlingKeepsTotal(mid.scores, mid.racks, lang);
  }

  lemma PlaceSettles(lang: Language, s: State, pl: seq<Placement>, rest: seq<Tile>, score: int, t: State)
    requires lang.WellFormed() && Seated(s) && !SomeEmpty(s.racks) && !s.over
    requires Finished(lang, AfterPlace(s, pl, rest, score), t) && t.over
    ensures SettledEnd(lang, s, t, score)
  {
    SettledTotal(lang, AfterPlace(s, pl, rest, score), t);
    TotalUpdate(s.scores, |s.scores|, s.current, s.scores[s.current] + score);
    OnlyMoverOut(s.racks, s.current, rest + Drawn(s.bag, Need(rest)));
  }

  lemma ScorelessSettles(lang: Language, words: Lexicon, s: State, mid: State, t: State)
    requires Inv(lang, words, s) && !s.over && Core(lang, words, mid) && Finished(lang, mid, t) && t.over && !mid.over
    requires mid.scoreless == s.scoreless + 1 && mid.scores == s.scores && |mid.racks| == |s.racks|
    requires forall k :: 0 <= k < |s.racks| ==> |mid.racks[k]| == |s.racks[k]|
    ensures SettledEnd(lang, s, t, 0)
  {
    assert forall k :: 0 <= k < |mid.racks| ==> s.racks[k] != [] && mid.racks[k] != [];
    SettlingKeepsTotal(mid.scores, mid.racks, lang);
  }

  /** The points of the move that the input makes, if it makes one. */
  ghost function PointsOf(lang: Language, words: Lexicon, s: State, input: Input): int
    requires Core(lang, words, s)
  {
    if (input.Place? || input.BotPlay?) && Read(input.wires, |input.wires|, lang).Ok? then
      var pl := Read(input.wires, |input.wires|, lang).value;
      if Outcome(s.board, pl, words, lang).Ok? then Outcome(s.board, pl, words, lang).value.score else 0
    else 0
  }

  lemma NoPlacements(lang: Language, words: Lexicon, s: State)
    requires Core(lang, words, s)
    ensures Read([], 0, lang) == Ok([]) && Outcome(s.board, [], words, lang).Err?
  {
    assert PlacementFault(s.board, []).Some?;
  }

  /** Every game that ends is settled in one of the two ways. */
  lemma EndIsSettled(lang: Language, words: Lexicon, s: State, input: Input, t: State)
    requires Inv(lang, words, s) && Step(lang, words, s, input, t) && !s.over && t.over
    ensures SettledEnd(lang, s, t, PointsOf(lang, words, s, input))
  {
    if input.Exchange? {
      var bag :| Exchanged(lang, s, input.indices, bag, t);
      ExchangeKeeps(lang, words, s, input.indices, bag);
      ScorelessSettles(lang, words, s, AfterExchange(s, input.indices, bag), t);
    } else if input.Pass? || input.Timeout? || (input.BotPlay? && input.wires == []) {
      var mid := s.(scoreless := s.scoreless + 1);
      assert Conserved(lang, mid) by {
        assert forall x :: Count(mid, x) == Count(s, x);
      }
      NoPlacements(lang, words, s);
      ScorelessSettles(lang, words, s, mid, t);
    } else {
      var pl := Read(input.wires, |input.wires|, lang).value;
      var rest :| Accepted(lang, words, s, pl, rest, t);
      PlaceSettles(lang, s, pl, rest, Outcome(s.board, pl, words, lang).value.score, t);
    }
  }

  // ---------- who does what ----------

  /** The player that a message comes from. */
  function SenderOf(input: Input): Option<string> {
    match input
    case Place(id, _) => Some(id)
    case Exchange(id, _) => Some(id)
    case Pass(id) => Some(id)
    case BotPlay(id, _) => Some(id)
    case _ => None
  }

  /** The message is a move of the player whose turn it is, paid for and accepted by the validator. */
  ghost predicate Accepts(lang: Language, words: Lexicon, s: State, input: Input)
    requires Core(lang, words, s)
  {
    && !s.over && !s.paused && (input.Place? || input.BotPlay?) && SenderOf(input) == Some(s.ids[s.current])
    && Read(input.wires, |input.wires|, lang).Ok?
    && var pl := Read(input.wires, |input.wires|, lang).value;
    && Price(pl) <= multiset(s.racks[s.current]) && Outcome(s.board, pl, words, lang).Ok?
  }

  /** What a message earns. */
  ghost function Earns(lang: Language, words: Lexicon, s: State, input: Input): int
    requires Core(lang, words, s)
  {
    if Accepts(lang, words, s, input)
    then Outcome(s.board, Read(input.wires, |input.wires|, lang).value, words, lang).value.score else 0
  }

  /** The scores once the player whose turn it was has what the message earns, before a game is settled. */
  ghost predicate Credited(lang: Language, words: Lexicon, s: State, input: Input, scores: seq<int>)
    requires Core(lang, words, s)
  {
    |scores| == |s.scores| && forall k :: 0 <= k < |scores| ==>
      scores[k] == s.scores[k] + (if k == s.current then Earns(lang, words, s, input) else 0)
  }

  /** What a message does to seats and board: an accepted move is put on the board and ends the scoreless turns; other
      completed turns count as scoreless; nobody but the player whose turn it was has other tiles or, until the game is
      settled, another score; and turns go round. */
  ghost predicate Effect(lang: Language, words: Lexicon, s: State, input: Input, t: State)
    requires Core(lang, words, s)
  {
    && t.ids == s.ids && |t.racks| == |s.racks| && |t.scores| == |s.scores|
    && (forall k :: 0 <= k < |s.racks| && k != s.current ==> t.racks[k] == s.racks[k])
    && (if Accepts(lang, words, s, input)
        then t.board == After(s.board, Read(input.wires, |input.wires|, lang).value) && t.scoreless == 0
        else t.board == s.board && t.scoreless == s.scoreless + (if Completed(s, t) then 1 else 0))
    && t.current == (if Completed(s, t) && !t.over then (s.current + 1) % |s.ids| else s.current)
    && (s.over ==> t.over)
    && (if t.over == s.over then Credited(lang, words, s, input, t.scores)
        else AllHave(t.racks, lang) && exists scores :: SettledFrom(lang, words, s, input, t, scores))
  }

  ghost predicate SettledFrom(lang: Language, words: Lexicon, s: State, input: Input, t: State, scores: seq<int>)
    requires Core(lang, words, s) && AllHave(t.racks, lang)
  {
    Credited(lang, words, s, input, scores) && |scores| == |t.racks| && t.scores == Settled(scores, t.racks, lang)
  }

  lemma FinishedEffect(lang: Language, words: Lexicon, s: State, input: Input, mid: State, t: State)
    requires Core(lang, words, s) && !s.over && !mid.over && Seated(mid) && Finished(lang, mid, t)
    requires mid.ids == s.ids && mid.current == s.current && Credited(lang, words, s, input, mid.scores)
    requires forall k :: 0 <= k < |s.racks| && k != s.current ==> mid.racks[k] == s.racks[k]
    requires if Accepts(lang, words, s, input)
             then mid.board == After(s.board, Read(input.wires, |input.wires|, lang).value) && mid.scoreless == 0
             else mid.board == s.board && mid.scoreless == s.scoreless + 1
    ensures Effect(lang, words, s, input, t)
  {
    FinishedCompletes(lang, s, mid, t);
    if t.over {
      assert SettledFrom(lang, words, s, input, t, mid.scores);
    }
  }

  lemma PlaceEffect(lang: Language, words: Lexicon, s: State, input: Input, t: State)
    requires Inv(lang, words, s) && !s.over && !s.paused && (input.Place? || input.BotPlay?)
    requires SenderOf(input) == Some(s.ids[s.current]) && PlaceStep(lang, words, s, s.ids[s.current], input.wires, t)
    ensures Effect(lang, words, s, input, t)
  {
    if Accepts(lang, words, s, input) {
      var pl := Read(input.wires, |input.wires|, lang).value;
      var rest :| Accepted(lang, words, s, pl, rest, t);
      FinishedEffect(lang, words, s, input, AfterPlace(s, pl, rest, Earns(lang, words, s, input)), t);
    }
  }

  lemma PassEffect(lang: Language, words: Lexicon, s: State, input: Input, t: State)
    requires Inv(lang, words, s) && !s.over && !Accepts(lang, words, s, input)
    requires Finished(lang, s.(scoreless := s.scoreless + 1), t)
    ensures Effect(lang, words, s, input, t)
  {
    FinishedEffect(lang, words, s, input, s.(scoreless := s.scoreless + 1), t);
  }

  /** Every step has that effect. */
  lemma StepEffect(lang: Language, words: Lexicon, s: State, input: Input, t: State)
    requires Inv(lang, words, s) && Step(lang, words, s, input, t)
    ensures Effect(lang, words, s, input, t)
  {
    if s.over || s.paused || input.Pause? || input.Resume? {
    } else if input.Timeout? {
      PassEffect(lang, words, s, input, t);
    } else if SenderOf(input) != Some(s.ids[s.current]) {
    } else if input.Pass? {
      PassEffect(lang, words, s, input, t);
    } else if input.Exchange? {
      if |s.bag| >= RACK_SIZE && Slots(input.indices, |s.racks[s.current]|) {
        var bag :| Exchanged(lang, s, input.indices, bag, t);
        FinishedEffect(lang, words, s, input, AfterExchange(s, input.indices, bag), t);
      }
    } else if input.BotPlay? && input.wires == [] {
      NoPlacements(lang, words, s);
      PassEffect(lang, words, s, input, t);
    } else {
      PlaceEffect(lang, words, s, input, t);
    }
  }

  // ---------- when a turn is taken, and what it does to the tiles ----------

  /** The player whose turn it is may exchange tiles while the bag holds a rackful, in slots that are there. */
  predicate MayExchange(s: State, input: Input)
    requires Seated(s)
  {
    && input.Exchange? && |s.bag| >= 7
    && (forall k :: 0 <= k < |input.indices| ==> 0 <= input.indices[k] < |s.racks[s.current]|)
    && (forall j, k :: 0 <= j < k < |input.indices| ==> input.indices[j] != input.indices[k])
  }

  /** The message takes the turn: the time is up, or the player whose turn it is passes, exchanges, or makes a move that
      is accepted. A bot passes by an empty answer. */
  ghost predicate TakesTurn(lang: Language, words: Lexicon, s: State, input: Input)
    requires Core(lang, words, s)
  {
    && !s.over && !s.paused
    && (input.Timeout? || Accepts(lang, words, s, input)
        || (SenderOf(input) == Some(s.ids[s.current])
            && (input.Pass? || MayExchange(s, input) || (input.BotPlay? && input.wires == []))))
  }

  /** The move is paid from the rack, which is then filled up to seven tiles from the end of the bag, as far as that
      goes. */
  predicate PaidAndFilled(rack: seq<Tile>, bag: seq<Tile>, pl: seq<Placement>, after: seq<Tile>, rest: seq<Tile>) {
    var lack := 7 - (|rack| - |pl|);
    var left := if lack < |bag| then |bag| - lack else 0;
    left <= |bag| && rest == bag[..left] && multiset(after) == multiset(rack) - Price(pl) + multiset(bag[left..])
  }

  predicate InSlots(indices: seq<int>, n: nat) {
    forall k :: 0 <= k < |indices| ==> 0 <= indices[k] < n
  }

  /** The tiles on the listed slots. */
  function Given(rack: seq<Tile>, indices: seq<int>): seq<Tile>
    requires InSlots(indices, |rack|)
  {
    seq(|indices|, i requires 0 <= i < |indices| => rack[indices[i]])
  }

  /** The tiles on the listed slots go back to the bag, and as many from its end have come to the rack. */
  predicate Swapped(rack: seq<Tile>, bag: seq<Tile>, indices: seq<int>, after: seq<Tile>, rest: seq<Tile>) {
    && InSlots(indices, |rack|) && |indices| <= |bag|
    && var left := |bag| - |indices|;
    && multiset(after) == multiset(rack) - multiset(Given(rack, indices)) + multiset(bag[left..])
    && multiset(rest) == multiset(bag[..left]) + multiset(Given(rack, indices))
  }

  lemma {:induction false} PickedIsGiven(rack: seq<Tile>, indices: seq<int>)
    requires InSlots(indices, |rack|)
    ensures Picked(rack, indices) == Given(rack, indices)
    decreases |indices|
  {
    if indices != [] {
      var init := indices[..|indices| - 1];
      PickedIsGiven(rack, init);
      assert Given(rack, indices) == Given(rack, init) + [rack[indices[|indices| - 1]]];
    }
  }

  lemma ExchangeSwaps(rack: seq<Tile>, bag: seq<Tile>, indices: seq<int>, bag2: seq<Tile>)
    requires |rack| <= RACK_SIZE <= |bag| && Slots(indices, |rack|) && NoLetters(rack)
    requires multiset(bag2) == multiset(Kept(bag, |indices|)) + Cost(Picked(rack, indices))
    ensures Swapped(rack, bag, indices, Without(rack, SlotSet(indices)) + Drawn(bag, |indices|), bag2)
  {
    var rest, out := Without(rack, SlotSet(indices)), Picked(rack, indices);
    PickedAndRest(rack, indices);
    PickedIsGiven(rack, indices);
    PickedNoLetters(rack, indices);
    NoLettersCost(out);
    assert |multiset(out) + multiset(rest)| == |multiset(rack)|;
    assert multiset(rack) - multiset(out) == multiset(rest);
  }

  /** The tiles of the player whose turn it is: an accepted move is paid from the rack, which is then filled up from the
      end of the bag as far as that goes; an exchange swaps the listed tiles for as many from there; and nothing else
      moves any tile. */
  ghost predicate TilesMoved(lang: Language, words: Lexicon, s: State, input: Input, t: State)
    requires Core(lang, words, s)
  {
    && |t.racks| == |s.racks|
    && var rack, after := s.racks[s.current], t.racks[s.current];
    if Accepts(lang, words, s, input) then
      PaidAndFilled(rack, s.bag, Read(input.wires, |input.wires|, lang).value, after, t.bag)
    else if input.Exchange? && TakesTurn(lang, words, s, input) then
      Swapped(rack, s.bag, input.indices, after, t.bag)
    else t.bag == s.bag && multiset(after) == multiset(rack)
  }

  /** The game is over once a turn was taken and six scoreless ones have followed each other, or the bag and some rack
      are empty. */
  ghost predicate EndsWhen(s: State, t: State) {
    t.over <==> s.over || (Completed(s, t) && (t.scoreless >= 6 || (t.bag == [] && SomeEmpty(t.racks))))
  }

  lemma FinishedEnds(lang: Language, s: State, mid: State, t: State)
    requires lang.WellFormed() && Seated(s) && Seated(mid) && mid.current == s.current && mid.ids == s.ids
    requires !s.over && !mid.over && mid.paused == s.paused && Finished(lang, mid, t)
    ensures Completed(s, t) && EndsWhen(s, t)
    ensures t.racks == mid.racks && t.bag == mid.bag && t.paused == s.paused
  {
    FinishedCompletes(lang, s, mid, t);
  }

  lemma PayAndFill(rack: seq<Tile>, bag: seq<Tile>, pl: seq<Placement>, rest: seq<Tile>)
    requires Price(pl) <= multiset(rack) && multiset(rest) == multiset(rack) - Price(pl) && |rack| <= 7
    ensures PaidAndFilled(rack, bag, pl, rest + Drawn(bag, Need(rest)), Kept(bag, Need(rest)))
  {
    CostSize(TilesOf(pl));
    assert |multiset(rest)| == |multiset(rack)| - |Price(pl)|;
    assert bag[0..] == bag;
  }

  lemma PlaceTiles(lang: Language, words: Lexicon, s: State, input: Input, rest: seq<Tile>, t: State)
    requires Inv(lang, words, s) && Accepts(lang, words, s, input) && |t.racks| == |s.racks|
    requires multiset(rest) == multiset(s.racks[s.current]) - Price(Read(input.wires, |input.wires|, lang).value)
    requires t.racks[s.current] == rest + Drawn(s.bag, Need(rest)) && t.bag == Kept(s.bag, Need(rest))
    ensures TilesMoved(lang, words, s, input, t)
  {
    assert HandOk(lang, s.bag, s.racks[s.current]);
    PayAndFill(s.racks[s.current], s.bag, Read(input.wires, |input.wires|, lang).value, rest);
  }

  lemma PlaceMoves(lang: Language, words: Lexicon, s: State, input: Input, t: State)
    requires Inv(lang, words, s) && Accepts(lang, words, s, input)
    requires PlaceStep(lang, words, s, s.ids[s.current], input.wires, t)
    ensures TilesMoved(lang, words, s, input, t) && Completed(s, t) && EndsWhen(s, t) && t.paused == s.paused
  {
    var pl := Read(input.wires, |input.wires|, lang).value;
    var rest :| Accepted(lang, words, s, pl, rest, t);
    FinishedEnds(lang, s, AfterPlace(s, pl, rest, Earns(lang, words, s, input)), t);
    PlaceTiles(lang, words, s, input, rest, t);
  }

  lemma ExchangeMoves(lang: Language, words: Lexicon, s: State, input: Input, t: State)
    requires Inv(lang, words, s) && !s.over && !s.paused && input.Exchange? && MayExchange(s, input)
    requires SenderOf(input) == Some(s.ids[s.current])
    requires ExchangeStep(lang, s, s.ids[s.current], input.indices, t)
    ensures TilesMoved(lang, words, s, input, t) && Completed(s, t) && EndsWhen(s, t) && t.paused == s.paused
  {
    var bag :| Exchanged(lang, s, input.indices, bag, t);
    var rack := s.racks[s.current];
    assert HandOk(lang, s.bag, rack);
    ExchangeSwaps(rack, s.bag, input.indices, bag);
    FinishedEnds(lang, s, AfterExchange(s, input.indices, bag), t);
  }

  lemma ScorelessMoves(lang: Language, words: Lexicon, s: State, input: Input, t: State)
    requires Inv(lang, words, s) && !s.over && !Accepts(lang, words, s, input) && !input.Exchange?
    requires Finished(lang, s.(scoreless := s.scoreless + 1), t)
    ensures TilesMoved(lang, words, s, input, t) && Completed(s, t) && EndsWhen(s, t) && t.paused == s.paused
  {
    FinishedEnds(lang, s, s.(scoreless := s.scoreless + 1), t);
  }

  /** Every message completes a turn exactly when it takes it, moves the tiles as it should, ends the game exactly when
      it should, and pauses or resumes it exactly when it asks for that. */
  lemma StepTurn(lang: Language, words: Lexicon, s: State, input: Input, t: State)
    requires Inv(lang, words, s) && Step(lang, words, s, input, t)
    ensures Completed(s, t) <==> TakesTurn(lang, words, s, input)
    ensures TilesMoved(lang, words, s, input, t) && EndsWhen(s, t)
    ensures t.paused == if s.over then s.paused else if input.Pause? then true else if input.Resume? then false
            else s.paused
  {
    if s.over || s.paused || input.Pause? || input.Resume? {
      IdleMoves(lang, words, s, input, t);
    } else if input.Timeout? {
      ScorelessMoves(lang, words, s, input, t);
    } else if SenderOf(input) != Some(s.ids[s.current]) {
      IdleMoves(lang, words, s, input, t);
    } else if input.Pass? {
      ScorelessMoves(lang, words, s, input, t);
    } else if input.Exchange? {
      if MayExchange(s, input) {
        ExchangeMoves(lang, words, s, input, t);
      } else {
        IdleMoves(lang, words, s, input, t);
      }
    } else if input.BotPlay? && input.wires == [] {
      NoPlacements(lang, words, s);
      ScorelessMoves(lang, words, s, input, t);
    } else if Accepts(lang, words, s, input) {
      PlaceMoves(lang, words, s, input, t);
    } else {
      IdleMoves(lang, words, s, input, t);
    }
  }

  lemma IdleMoves(lang: Language, words: Lexicon, s: State, input: Input, t: State)
    requires Core(lang, words, s) && !TakesTurn(lang, words, s, input)
    requires Unchanged(s, t.(paused := s.paused))
    ensures !Completed(s, t) && EndsWhen(s, t) && TilesMoved(lang, words, s, input, t)
  {
  }

  // ---------- scores and turns over a run ----------

  predicate DistinctIds(s: State) {
    forall j, k :: 0 <= j < k < |s.ids| ==> s.ids[j] != s.ids[k]
  }

  /** What the accepted moves among the first `n` messages that came from `id` have earned. */
  ghost function EarnedBy(lang: Language, words: Lexicon, states: seq<State>, inputs: seq<Input>, id: string,
                          n: nat): int
    requires Run(lang, words, states, inputs) && n <= |inputs|
  {
    if n == 0 then 0
    else
      assert StepAt(lang, words, states, inputs, n - 1);
      EarnedBy(lang, words, states, inputs, id, n - 1)
      + (if SenderOf(inputs[n - 1]) == Some(id) then Earns(lang, words, states[n - 1], inputs[n - 1]) else 0)
  }

  lemma RunEffect(lang: Language, words: Lexicon, states: seq<State>, inputs: seq<Input>, i: nat)
    requires Run(lang, words, states, inputs) && i < |inputs|
    ensures Inv(lang, words, states[i]) && Effect(lang, words, states[i], inputs[i], states[i + 1])
  {
    EveryRunKeeps(lang, words, states, inputs, i);
    assert StepAt(lang, words, states, inputs, i);
    StepEffect(lang, words, states[i], inputs[i], states[i + 1]);
  }

  lemma SenderIsCurrent(lang: Language, words: Lexicon, s: State, input: Input, k: nat)
    requires Core(lang, words, s) && DistinctIds(s) && k < |s.ids|
    ensures (if k == s.current then Earns(lang, words, s, input) else 0) ==
            (if SenderOf(input) == Some(s.ids[k]) then Earns(lang, words, s, input) else 0)
  {
    assert k < s.current ==> s.ids[k] != s.ids[s.current];
    assert s.current < k ==> s.ids[s.current] != s.ids[k];
  }

  /** Until the game is over, every score is the first one and what the player's own accepted moves have earned. */
  lemma {:induction false} ScoresOverRun(lang: Language, words: Lexicon, states: seq<State>, inputs: seq<Input>, k: nat,
                                         n: nat)
    requires Run(lang, words, states, inputs) && n <= |inputs| && !states[n].over
    requires DistinctIds(states[0]) && k < |states[0].scores|
    ensures states[n].ids == states[0].ids && k < |states[n].scores| == |states[0].scores|
    ensures states[n].scores[k] == states[0].scores[k] + EarnedBy(lang, words, states, inputs, states[0].ids[k], n)
    decreases n
  {
    if n > 0 {
      RunEffect(lang, words, states, inputs, n - 1);
      ScoresOverRun(lang, words, states, inputs, k, n - 1);
      SenderIsCurrent(lang, words, states[n - 1], inputs[n - 1], k);
    }
  }

  lemma NextInTurn(a: int, m: nat, n: int)
    requires n > 0
    ensures ((a + m) % n + 1) % n == (a + (m + 1)) % n
  {
    var q, r := (a + m) / n, (a + m) % n;
    assert a + m == q * n + r;
    if r + 1 == n {
      assert a + m + 1 == (q + 1) * n;
      ModIs(a + m + 1, q + 1, 0, n);
    } else {
      ModIs(a + m + 1, q, r + 1, n);
    }
  }

  lemma ModIs(x: int, q: int, r: int, n: int)
    requires x == q * n + r && 0 <= r < n
    ensures x % n == r
  {
    var d := x / n - q;
    assert x == (x / n) * n + x % n;
    assert d * n == r - x % n;
    assert d >= 1 ==> d * n >= n;
    assert d <= -1 ==> d * n <= -n;
  }

  /** Until the game is over the players take turns, one after the other and round again. */
  lemma {:induction false} TurnsGoRound(lang: Language, words: Lexicon, states: seq<State>, inputs: seq<Input>, n: nat)
    requires Run(lang, words, states, inputs) && n <= |inputs| && !states[n].over
    ensures states[n].ids == states[0].ids
    ensures states[n].current == (states[0].current + Turns(states, n)) % |states[0].ids|
    decreases n
  {
    if n > 0 {
      RunEffect(lang, words, states, inputs, n - 1);
      TurnsGoRound(lang, words, states, inputs, n - 1);
      NextInTurn(states[0].current, Turns(states, n - 1), |states[0].ids|);
    }
  }

  // ---------- the start ----------

  /** The bag after `k` players have drawn a rackful each, and what each of them has drawn. */
  function BagAfter(bag: seq<Tile>, k: nat): seq<Tile> {
    if k == 0 then bag else Kept(BagAfter(bag, k - 1), RACK_SIZE)
  }

  function Dealt(bag: seq<Tile>, k: nat): (racks: seq<seq<Tile>>)
    ensures |racks| == k
  {
    if k == 0 then [] else Dealt(bag, k - 1) + [Drawn(BagAfter(bag, k - 1), RACK_SIZE)]
  }

  function StartState(ids: seq<string>, bag: seq<Tile>): State {
    State(ids, Dealt(bag, |ids|), seq(|ids|, _ => 0), BagAfter(bag, |ids|), map[], 0, 0, false, false)
  }

  lemma {:induction false} DealtOk(lang: Language, bag: seq<Tile>, k: nat)
    requires Plain(lang, bag) && |bag| >= RACK_SIZE * k
    ensures |BagAfter(bag, k)| == |bag| - RACK_SIZE * k && Plain(lang, BagAfter(bag, k))
    ensures forall i :: 0 <= i < k ==> |Dealt(bag, k)[i]| == RACK_SIZE && Plain(lang, Dealt(bag, k)[i])
    decreases k
  {
    if k > 0 {
      DealtOk(lang, bag, k - 1);
      var b := BagAfter(bag, k - 1);
      DrawSplits(b, RACK_SIZE);
      PlainSub(lang, Kept(b, RACK_SIZE), b);
      PlainSub(lang, Drawn(b, RACK_SIZE), b);
    }
  }

  lemma {:induction false} CountPrefix(a: seq<seq<Tile>>, b: seq<Tile>, n: nat, t: Tile)
    requires n <= |a|
    ensures HandCount(a + [b], n, t) == HandCount(a, n, t)
    decreases n
  {
    if n > 0 {
      CountPrefix(a, b, n - 1, t);
    }
  }

  lemma {:induction false} DealtCount(bag: seq<Tile>, k: nat, t: Tile)
    ensures multiset(BagAfter(bag, k))[t] + HandCount(Dealt(bag, k), k, t) == multiset(bag)[t]
    decreases k
  {
    if k > 0 {
      DealtCount(bag, k - 1, t);
      var b := BagAfter(bag, k - 1);
      DrawSplits(b, RACK_SIZE);
      CountSum(multiset(Kept(b, RACK_SIZE)), multiset(Drawn(b, RACK_SIZE)), multiset(b), t);
      CountPrefix(Dealt(bag, k - 1), Drawn(b, RACK_SIZE), k - 1, t);
    }
  }

  /** A game that starts with a rackful for everyone satisfies the invariant. */
  lemma StartKeeps(lang: Language, words: Lexicon, ids: seq<string>, bag: seq<Tile>)
    requires lang.WellFormed() && |ids| >= MIN_PLAYERS && lang.TotalTiles() >= RACK_SIZE * |ids|
    requires multiset(bag) == multiset(FullSet(lang))
    ensures Inv(lang, words, StartState(ids, bag))
  {
    var s := StartState(ids, bag);
    FullSetSize(lang);
    PlainSub(lang, bag, FullSet(lang));
    assert |multiset(bag)| == |multiset(FullSet(lang))|;
    DealtOk(lang, bag, |ids|);
    forall t
      ensures Count(s, t) == multiset(FullSet(lang))[t]
    {
      DealtCount(bag, |ids|, t);
    }
    assert HandsOk(lang, s.bag, s.racks);
    assert !SomeEmpty(s.racks);
  }

  lemma {:induction false} SumGrows(d: seq<nat>, m: nat, n: nat)
    requires m <= n <= |d|
    ensures SumTo(d, m) <= SumTo(d, n)
    decreases n
  {
    if m < n {
      SumGrows(d, m, n - 1);
    }
  }

  /** The English set is large enough for the largest table: five of its letters are. */
  lemma EnglishIsEnough()
    ensures English().TotalTiles() >= RACK_SIZE * MAX_PLAYERS
  {
    var d := English().distribution;
    assert SumTo(d, 3) == 13;
    assert SumTo(d, 5) == 29;
    SumGrows(d, 5, 26);
  }
}
