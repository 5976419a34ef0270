/** The end of a game (goakt-scrabble/scrabble/endgame.go): when it is reached, and how the scores are settled. */
module Endgame {
  import opened Tiles
  import opened Racks
  import opened Ledgers

  const SCORELESS_TURNS_TO_END := 6

  function Value(tiles: seq<Tile>, lang: Language): int
    requires lang.WellFormed() && forall i :: 0 <= i < |tiles| ==> lang.Has(tiles[i])
  {
    if tiles == [] then 0
    else
      var last := tiles[|tiles| - 1];
      assert lang.Has(last);
      Value(tiles[..|tiles| - 1], lang) + last.Score(lang)
  }

  method RackValue(rack: Rack, lang: Language) returns (total: int)
    requires lang.WellFormed() && forall i :: 0 <= i < |rack.tiles| ==> lang.Has(rack.tiles[i])
    ensures total == Value(rack.tiles, lang)
  {
    total := 0;
    for i := 0 to |rack.tiles|
      invariant total == Value(rack.tiles[..i], lang)
    {
      assert rack.tiles[..i + 1][..i] == rack.tiles[..i];
      total := total + rack.tiles[i].Score(lang);
    }
    assert rack.tiles[..|rack.tiles|] == rack.tiles;
  }

  /** The tiles on several racks. */
  ghost function Hands(racks: seq<Rack>): seq<seq<Tile>>
    reads racks
  {
    seq(|racks|, i requires 0 <= i < |racks| reads racks => racks[i].tiles)
  }

  predicate AllHave(hands: seq<seq<Tile>>, lang: Language) {
    forall k :: 0 <= k < |hands| ==> Have(hands[k], lang)
  }

  predicate Have(hand: seq<Tile>, lang: Language) {
    forall i :: 0 <= i < |hand| ==> lang.Has(hand[i])
  }

  ghost predicate SomeEmpty(hands: seq<seq<Tile>>) {
    exists k :: 0 <= k < |hands| && hands[k] == []
  }

  /** Play ends after six scoreless turns, or when the bag and some rack are empty. */
  ghost predicate GameOver(bag: seq<Tile>, hands: seq<seq<Tile>>, scoreless: int) {
    scoreless >= SCORELESS_TURNS_TO_END || (bag == [] && SomeEmpty(hands))
  }

  /** The first empty hand among those from `i` on, or -1. */
  function FirstEmpty(hands: seq<seq<Tile>>, i: nat): (k: int)
    requires i <= |hands|
    ensures k < 0 ==> forall j :: i <= j < |hands| ==> hands[j] != []
    ensures k >= 0 ==> i <= k < |hands| && hands[k] == []
    decreases |hands| - i
  {
    if i == |hands| then -1 else if hands[i] == [] then i else FirstEmpty(hands, i + 1)
  }

  method FirstEmptyRack(racks: seq<Rack>) returns (k: int)
    ensures k == FirstEmpty(Hands(racks), 0)
  {
    for i := 0 to |racks|
      invariant FirstEmpty(Hands(racks), 0) == FirstEmpty(Hands(racks), i)
    {
      if |racks[i].tiles| == 0 {
        return i;
      }
    }
    return -1;
  }

  method IsGameOver(bag: Bag, racks: seq<Rack>, scoreless: int) returns (over: bool)
    ensures over <==> GameOver(bag.tiles, Hands(racks), scoreless)
  {
    if scoreless >= SCORELESS_TURNS_TO_END {
      return true;
    }
    var k := FirstEmptyRack(racks);
    return |bag.tiles| == 0 && k >= 0;
  }

  // ---------- settling the scores ----------

  function Values(hands: seq<seq<Tile>>, lang: Language): (vs: seq<int>)
    requires lang.WellFormed() && AllHave(hands, lang)
    ensures |vs| == |hands|
  {
    seq(|hands|, k requires 0 <= k < |hands| => assert Have(hands[k], lang); Value(hands[k], lang))
  }

  function Minus(xs: seq<int>, ys: seq<int>): (zs: seq<int>)
    requires |xs| == |ys|
    ensures |zs| == |xs|
  {
    seq(|xs|, k requires 0 <= k < |xs| => xs[k] - ys[k])
  }

  /** Everyone loses the value of what is left; the first with an empty rack gains what the others lose. */
  function Settled(scores: seq<int>, hands: seq<seq<Tile>>, lang: Language): (out: seq<int>)
    requires lang.WellFormed() && AllHave(hands, lang) && |scores| == |hands|
    ensures |out| == |scores|
  {
    Paid(scores, Values(hands, lang), FirstEmpty(hands, 0))
  }

  function Paid(scores: seq<int>, vs: seq<int>, k: int): (out: seq<int>)
    requires |scores| == |vs| && k < |vs|
    ensures |out| == |scores|
  {
    var less := Minus(scores, vs);
    if k < 0 then less else less[k := less[k] + Sum(vs)]
  }

  lemma {:induction false} TotalMinus(xs: seq<int>, ys: seq<int>, n: nat)
    requires n <= |xs| == |ys|
    ensures Total(Minus(xs, ys), n) == Total(xs, n) - Total(ys, n)
    decreases n
  {
    if n > 0 {
      TotalMinus(xs, ys, n - 1);
    }
  }

  lemma TotalPaid(scores: seq<int>, vs: seq<int>, k: int)
    requires |scores| == |vs| && k < |vs|
    ensures Sum(Paid(scores, vs, k)) == Sum(scores) - (if k < 0 then Sum(vs) else 0)
  {
    var less := Minus(scores, vs);
    TotalMinus(scores, vs, |vs|);
    if k >= 0 {
      TotalUpdate(less, |less|, k, less[k] + Sum(vs));
    }
  }

  /** Going out moves points between the players; otherwise exactly the value of all racks is lost. */
  lemma SettlingKeepsTotal(scores: seq<int>, hands: seq<seq<Tile>>, lang: Language)
    requires lang.WellFormed() && AllHave(hands, lang) && |scores| == |hands|
    ensures Sum(Settled(scores, hands, lang)) ==
            Sum(scores) - (if SomeEmpty(hands) then 0 else Sum(Values(hands, lang)))
  {
    TotalPaid(scores, Values(hands, lang), FirstEmpty(hands, 0));
  }

  /** The sum of all but one. */
  function Others(vs: seq<int>, k: int, n: nat): int
    requires n <= |vs|
  {
    if n == 0 then 0 else Others(vs, k, n - 1) + (if n - 1 == k then 0 else vs[n - 1])
  }

  lemma {:induction false} OthersAreAll(vs: seq<int>, k: nat, n: nat)
    requires n <= |vs| && k < |vs| && vs[k] == 0
    ensures Others(vs, k, n) == Total(vs, n)
    decreases n
  {
    if n > 0 {
      OthersAreAll(vs, k, n - 1);
    }
  }

  /** What is printed on the first `n` tiles; blanks have nothing on them. */
  function Printed(tiles: seq<Tile>, lang: Language, n: nat): int
    requires lang.WellFormed() && Have(tiles, lang) && n <= |tiles|
  {
    if n == 0 then 0
    else
      assert lang.Has(tiles[n - 1]);
      Printed(tiles, lang, n - 1) + (if tiles[n - 1].blank then 0 else lang.points[tiles[n - 1].letter])
  }

  lemma {:induction false} PrintedPrefix(tiles: seq<Tile>, lang: Language, m: nat, n: nat)
    requires lang.WellFormed() && Have(tiles, lang) && n <= m <= |tiles|
    ensures Have(tiles[..m], lang) && Printed(tiles[..m], lang, n) == Printed(tiles, lang, n)
    decreases n
  {
    if n > 0 {
      PrintedPrefix(tiles, lang, m, n - 1);
    }
  }

  lemma {:induction false} ValueIsPrinted(tiles: seq<Tile>, lang: Language)
    requires lang.WellFormed() && Have(tiles, lang)
    ensures Value(tiles, lang) == Printed(tiles, lang, |tiles|)
    decreases |tiles|
  {
    if tiles != [] {
      var n := |tiles| - 1;
      PrintedPrefix(tiles, lang, n, n);
      ValueIsPrinted(tiles[..n], lang);
    }
  }

  /** What is printed on all racks but one. */
  function OtherRacks(hands: seq<seq<Tile>>, lang: Language, k: int, n: nat): int
    requires lang.WellFormed() && AllHave(hands, lang) && n <= |hands|
  {
    if n == 0 then 0
    else
      assert Have(hands[n - 1], lang);
      OtherRacks(hands, lang, k, n - 1) + (if n - 1 == k then 0 else Printed(hands[n - 1], lang, |hands[n - 1]|))
  }

  lemma {:induction false} OtherRacksAre(hands: seq<seq<Tile>>, lang: Language, k: int, n: nat)
    requires lang.WellFormed() && AllHave(hands, lang) && n <= |hands|
    ensures OtherRacks(hands, lang, k, n) == Others(Values(hands, lang), k, n)
    decreases n
  {
    if n > 0 {
      OtherRacksAre(hands, lang, k, n - 1);
      assert Have(hands[n - 1], lang);
      ValueIsPrinted(hands[n - 1], lang);
    }
  }

  /** Each final score: the first player without tiles gains what is on the other racks, and everyone else loses what
      is on the own rack. */
  lemma EachFinalScore(scores: seq<int>, hands: seq<seq<Tile>>, lang: Language, k: nat)
    requires lang.WellFormed() && AllHave(hands, lang) && k < |scores| == |hands|
    ensures Have(hands[k], lang)
    ensures Settled(scores, hands, lang)[k] ==
            if hands[k] == [] && forall j :: 0 <= j < k ==> hands[j] != []
            then scores[k] + OtherRacks(hands, lang, k, |hands|)
            else scores[k] - Printed(hands[k], lang, |hands[k]|)
  {
    var vs, out := Values(hands, lang), FirstEmpty(hands, 0);
    assert Have(hands[k], lang);
    ValueIsPrinted(hands[k], lang);
    FirstEmptyIs(hands, 0, k);
    if out >= 0 {
      OthersAreAll(vs, out, |vs|);
      OtherRacksAre(hands, lang, out, |hands|);
    }
  }

  lemma {:induction false} FirstEmptyIs(hands: seq<seq<Tile>>, i: nat, k: nat)
    requires i <= k < |hands|
    ensures FirstEmpty(hands, i) == k <==> hands[k] == [] && forall j :: i <= j < k ==> hands[j] != []
    decreases |hands| - i
  {
    if i < k && hands[i] != [] {
      FirstEmptyIs(hands, i + 1, k);
    }
  }

  /** The final scores, from scores and racks that are listed in the same order. */
  method FinalScores(scores: seq<int>, racks: seq<Rack>, lang: Language) returns (out: seq<int>)
    requires lang.WellFormed() && AllHave(Hands(racks), lang) && |scores| == |racks|
    ensures out == Settled(scores, Hands(racks), lang)
  {
    ghost var hands := Hands(racks);
    ghost var vs := Values(hands, lang);
    var rackValues := [];
    for i := 0 to |racks|
      invariant rackValues == vs[..i]
    {
      assert Have(hands[i], lang);
      var v := RackValue(racks[i], lang);
      rackValues := rackValues + [v];
    }
    assert rackValues == vs;
    out := PayOut(scores, rackValues, racks);
  }

  /** Subtracts each rack's value, and adds the others' to the one who went out. */
  method PayOut(scores: seq<int>, vs: seq<int>, racks: seq<Rack>) returns (out: seq<int>)
    requires |scores| == |vs| == |racks| && forall k :: 0 <= k < |racks| && racks[k].tiles == [] ==> vs[k] == 0
    ensures out == Paid(scores, vs, FirstEmpty(Hands(racks), 0))
  {
    out := scores;
    for i := 0 to |scores|
      invariant |out| == |scores|
      invariant forall k :: 0 <= k < |scores| ==> out[k] == if k < i then scores[k] - vs[k] else scores[k]
    {
      out := out[i := out[i] - vs[i]];
    }
    assert out == Minus(scores, vs);
    var outIdx := FirstEmptyRack(racks);
    if outIdx >= 0 {
      ghost var less := out;
      for i := 0 to |vs|
        invariant out == less[outIdx := less[outIdx] + Others(vs, outIdx, i)]
      {
        if i != outIdx {
          out := out[outIdx := out[outIdx] + vs[i]];
        }
      }
      OthersAreAll(vs, outIdx, |vs|);
    }
  }
}
