/** The bag and the racks (goakt-scrabble/scrabble/bag.go, rack.go): tiles move between them and none is lost. */
module Racks {
  import opened Wrappers
  import opened Tiles

  /** Marks a consumed slot; no alphabet reaches this letter. */
  const SENTINEL := Tile(255, false)

  // ---------- taking slots out of a sequence ----------

  /** The tiles on the slots that are not skipped, in order. */
  function Without(src: seq<Tile>, skip: set<int>): (out: seq<Tile>) {
    if src == [] then []
    else Without(src[..|src| - 1], skip) + (if |src| - 1 in skip then [] else [src[|src| - 1]])
  }

  predicate Slots(indices: seq<int>, n: nat) {
    && (forall k :: 0 <= k < |indices| ==> 0 <= indices[k] < n)
    && (forall j, k :: 0 <= j < k < |indices| ==> indices[j] != indices[k])
  }

  function SlotSet(indices: seq<int>): set<int> {
    if indices == [] then {} else SlotSet(indices[..|indices| - 1]) + {indices[|indices| - 1]}
  }

  function Picked(src: seq<Tile>, indices: seq<int>): (out: seq<Tile>)
    requires forall k :: 0 <= k < |indices| ==> 0 <= indices[k] < |src|
    ensures |out| == |indices|
  {
    if indices == [] then [] else Picked(src, indices[..|indices| - 1]) + [src[indices[|indices| - 1]]]
  }

  lemma {:induction false} SlotSetIs(indices: seq<int>, i: int)
    ensures i in SlotSet(indices) <==> i in indices
    decreases |indices|
  {
    if indices != [] {
      SlotSetIs(indices[..|indices| - 1], i);
    }
  }

  lemma {:induction false} WithoutMore(src: seq<Tile>, skip: set<int>, i: int)
    requires i !in skip
    ensures 0 <= i < |src| ==> multiset(Without(src, skip)) == multiset(Without(src, skip + {i})) + multiset{src[i]}
    ensures !(0 <= i < |src|) ==> Without(src, skip) == Without(src, skip + {i})
    decreases |src|
  {
    if src != [] {
      WithoutMore(src[..|src| - 1], skip, i);
    }
  }

  lemma {:induction false} WithoutNone(src: seq<Tile>)
    ensures Without(src, {}) == src
    decreases |src|
  {
    if src != [] {
      WithoutNone(src[..|src| - 1]);
    }
  }

  /** What is taken and what stays make up the whole. */
  lemma {:induction false} PickedAndRest(src: seq<Tile>, indices: seq<int>)
    requires Slots(indices, |src|)
    ensures multiset(Picked(src, indices)) + multiset(Without(src, SlotSet(indices))) == multiset(src)
    decreases |indices|
  {
    if indices == [] {
      WithoutNone(src);
    } else {
      var init, last := indices[..|indices| - 1], indices[|indices| - 1];
      PickedAndRest(src, init);
      SlotSetIs(init, last);
      WithoutMore(src, SlotSet(init), last);
    }
  }

  /** Copies the slots that are not listed. */
  method CompactExcluding(src: seq<Tile>, indices: seq<int>) returns (out: seq<Tile>)
    ensures out == Without(src, SlotSet(indices))
  {
    var skip := {};
    for k := 0 to |indices|
      invariant skip == SlotSet(indices[..k])
    {
      assert indices[..k + 1][..k] == indices[..k];
      skip := skip + {indices[k]};
    }
    assert indices[..|indices|] == indices;
    out := [];
    for i := 0 to |src|
      invariant out == Without(src[..i], skip)
    {
      assert src[..i + 1][..i] == src[..i];
      if i !in skip {
        out := out + [src[i]];
      }
    }
    assert src[..|src|] == src;
  }

  // ---------- the bag ----------

  /** A letter tile for each of its copies, for the first `n` letters. */
  function LetterTiles(lang: Language, n: nat): seq<Tile>
    requires n <= |lang.distribution| <= 255
  {
    if n == 0 then [] else LetterTiles(lang, n - 1) + seq(lang.distribution[n - 1], _ => Tile(n - 1, false))
  }

  /** A full set of tiles. */
  function FullSet(lang: Language): seq<Tile>
    requires lang.WellFormed()
  {
    LetterTiles(lang, |lang.letters|) + seq(lang.blanks, _ => BLANK_TILE)
  }

  /** Tiles as they lie in a bag or on a rack: of the alphabet, and blanks without a letter. */
  predicate Plain(lang: Language, tiles: seq<Tile>) {
    forall i :: 0 <= i < |tiles| ==> PlainTile(lang, tiles[i])
  }

  predicate NoLetters(tiles: seq<Tile>) {
    forall i :: 0 <= i < |tiles| ==> Norm(tiles[i]) == tiles[i]
  }

  predicate PlainTile(lang: Language, t: Tile) {
    lang.Has(t) && Norm(t) == t
  }

  lemma {:induction false} LetterTilesPlain(lang: Language, n: nat)
    requires lang.WellFormed() && n <= |lang.letters|
    ensures Plain(lang, LetterTiles(lang, n)) && |LetterTiles(lang, n)| == SumTo(lang.distribution, n)
    decreases n
  {
    if n > 0 {
      LetterTilesPlain(lang, n - 1);
    }
  }

  /** The full set has the advertised size. */
  lemma FullSetSize(lang: Language)
    requires lang.WellFormed()
    ensures |FullSet(lang)| == lang.TotalTiles() && Plain(lang, FullSet(lang))
  {
    LetterTilesPlain(lang, |lang.letters|);
  }

  lemma {:induction false} Copies(n: nat, t: Tile, x: Tile)
    ensures multiset(seq(n, _ => t))[x] == if x == t then n else 0
    decreases n
  {
    if n > 0 {
      Copies(n - 1, t, x);
      assert seq(n, _ => t) == seq(n - 1, _ => t) + [t];
    }
  }

  lemma {:induction false} LetterTilesCount(lang: Language, n: nat, x: Tile)
    requires lang.WellFormed() && n <= |lang.letters|
    ensures multiset(LetterTiles(lang, n))[x] == if !x.blank && x.letter < n then lang.distribution[x.letter] else 0
    decreases n
  {
    if n > 0 {
      LetterTilesCount(lang, n - 1, x);
      Copies(lang.distribution[n - 1], Tile(n - 1, false), x);
    }
  }

  /** The full set has every letter as often as the language distributes it, its blanks without a letter, and nothing
      else. */
  lemma FullSetCounts(lang: Language, x: Tile)
    requires lang.WellFormed()
    ensures multiset(FullSet(lang))[x] ==
            if x == BLANK_TILE then lang.blanks else if !x.blank && lang.Has(x) then lang.distribution[x.letter] else 0
  {
    LetterTilesCount(lang, |lang.letters|, x);
    Copies(lang.blanks, BLANK_TILE, x);
  }

  /** What a draw of `n` tiles leaves in the bag, and what it takes: the last ones, or all if there are fewer. */
  function Kept(bag: seq<Tile>, n: nat): seq<Tile> {
    if n > |bag| then [] else bag[..|bag| - n]
  }

  function Drawn(bag: seq<Tile>, n: nat): seq<Tile> {
    if n > |bag| then bag else bag[|bag| - n..]
  }

  lemma DrawSplits(bag: seq<Tile>, n: nat)
    ensures Kept(bag, n) + Drawn(bag, n) == bag
    ensures multiset(Kept(bag, n)) + multiset(Drawn(bag, n)) == multiset(bag)
  {
    assert Kept(bag, n) + Drawn(bag, n) == bag;
    assert multiset(Kept(bag, n) + Drawn(bag, n)) == multiset(Kept(bag, n)) + multiset(Drawn(bag, n));
  }

  /** How many tiles a rack lacks. */
  function Need(rack: seq<Tile>): nat {
    if |rack| < RACK_SIZE then RACK_SIZE - |rack| else 0
  }

  class Bag {
    var tiles: seq<Tile>

    constructor (lang: Language)
      requires lang.WellFormed()
      ensures multiset(tiles) == multiset(FullSet(lang))
    {
      tiles := [];
      new;
      for id := 0 to |lang.distribution|
        invariant tiles == LetterTiles(lang, id)
      {
        for n := 0 to lang.distribution[id]
          invariant tiles == LetterTiles(lang, id) + seq(n, _ => Tile(id, false))
        {
          tiles := tiles + [Tile(id, false)];
        }
      }
      for n := 0 to lang.blanks
        invariant tiles == LetterTiles(lang, |lang.letters|) + seq(n, _ => BLANK_TILE)
      {
        tiles := tiles + [BLANK_TILE];
      }
      Shuffle();
    }

    /** Swaps every slot, from the last down, with one that is not after it; the choice is left open. */
    method Shuffle()
      modifies this
      ensures multiset(tiles) == multiset(old(tiles))
    {
      var i := |tiles| - 1;
      while i > 0
        invariant i < |tiles|
        invariant multiset(tiles) == multiset(old(tiles))
      {
        var j :| 0 <= j <= i;
        tiles := tiles[i := tiles[j]][j := tiles[i]];
        i := i - 1;
      }
    }

    /** Takes up to `count` tiles off the top. */
    method Draw(count: nat) returns (out: seq<Tile>)
      modifies this
      ensures tiles == Kept(old(tiles), count) && out == Drawn(old(tiles), count)
    {
      var n := if count > |tiles| then |tiles| else count;
      if n == 0 {
        return [];
      }
      var start := |tiles| - n;
      out := tiles[start..];
      tiles := tiles[..start];
    }

    /** Puts tiles back, blanks without their letter, and shuffles. */
    method Return(back: seq<Tile>)
      modifies this
      ensures multiset(tiles) == multiset(old(tiles)) + Cost(back)
    {
      for i := 0 to |back|
        invariant multiset(tiles) == multiset(old(tiles)) + Cost(back[..i])
      {
        CostMore(back, i);
        tiles := tiles + [if back[i].blank then BLANK_TILE else back[i]];
      }
      assert back[..|back|] == back;
      Shuffle();
    }
  }

  /** Tiles without chosen letters cost themselves. */
  lemma {:induction false} NoLettersCost(tiles: seq<Tile>)
    requires NoLetters(tiles)
    ensures Cost(tiles) == multiset(tiles)
    decreases |tiles|
  {
    if tiles != [] {
      NoLettersCost(tiles[1..]);
      assert tiles == [tiles[0]] + tiles[1..];
    }
  }

  // ---------- the rack ----------

  /** The first slot that holds the wanted tile: a blank is paid with an unassigned one. */
  method MatchRack(working: seq<Tile>, want: Tile) returns (idx: int)
    ensures idx < 0 <==> Norm(want) !in working
    ensures idx >= 0 ==> idx < |working| && working[idx] == Norm(want)
  {
    if want.blank {
      for i := 0 to |working|
        invariant Norm(want) !in working[..i]
      {
        if working[i].IsUnassignedBlank() {
          return i;
        }
      }
      assert working[..|working|] == working;
      return -1;
    }
    for i := 0 to |working|
      invariant Norm(want) !in working[..i]
    {
      if !working[i].blank && working[i].letter == want.letter {
        return i;
      }
    }
    assert working[..|working|] == working;
    return -1;
  }

  datatype RackError = NotInRack | BagTooSmall | IndexOutOfRange | IndexDuplicated

  /** Halfway through: which slots are taken, and what they pay for. */
  ghost predicate Taking(rack: seq<Tile>, working: seq<Tile>, indices: seq<int>, taken: seq<Tile>, done: seq<Tile>) {
    && Slots(indices, |rack|) && |working| == |rack|
    && taken == Picked(rack, indices) && multiset(taken) == Cost(done)
    && (forall i :: 0 <= i < |rack| ==> working[i] == if i in indices then SENTINEL else rack[i])
  }

  lemma {:induction false} WithoutHas(src: seq<Tile>, skip: set<int>, t: Tile)
    requires t in Without(src, skip)
    ensures exists i :: 0 <= i < |src| && i !in skip && src[i] == t
    decreases |src|
  {
    if src != [] && (|src| - 1 in skip || src[|src| - 1] != t) {
      WithoutHas(src[..|src| - 1], skip, t);
    }
  }

  lemma NoneLeft(rack: seq<Tile>, working: seq<Tile>, indices: seq<int>, t: Tile)
    requires |working| == |rack| && t !in working
    requires forall i :: 0 <= i < |rack| && i !in indices ==> working[i] == rack[i]
    ensures t !in Without(rack, SlotSet(indices))
  {
    if t in Without(rack, SlotSet(indices)) {
      WithoutHas(rack, SlotSet(indices), t);
      var i :| 0 <= i < |rack| && i !in SlotSet(indices) && rack[i] == t;
      SlotSetIs(indices, i);
      assert false;
    }
  }

  lemma CostOfPart(needed: seq<Tile>, k: nat, t: Tile)
    requires k <= |needed|
    ensures Cost(needed[..k])[t] <= Cost(needed)[t]
  {
    CostConcat(needed[..k], needed[k..]);
    assert needed[..k] + needed[k..] == needed;
  }

  /** If no slot is left for a tile, the rack holds too few of it. */
  lemma NotEnough(rack: seq<Tile>, working: seq<Tile>, indices: seq<int>, taken: seq<Tile>, needed: seq<Tile>, k: nat)
    requires k < |needed| && Taking(rack, working, indices, taken, needed[..k]) && Norm(needed[k]) !in working
    ensures Cost(needed)[Norm(needed[k])] > multiset(rack)[Norm(needed[k])]
  {
    var t := Norm(needed[k]);
    PickedAndRest(rack, indices);
    NoneLeft(rack, working, indices, t);
    assert multiset(Without(rack, SlotSet(indices)))[t] == 0;
    CostMore(needed, k);
    CostOfPart(needed, k + 1, t);
  }

  lemma TakeOne(rack: seq<Tile>, working: seq<Tile>, indices: seq<int>, taken: seq<Tile>, needed: seq<Tile>, k: nat,
                idx: int)
    requires k < |needed| && Taking(rack, working, indices, taken, needed[..k])
    requires 0 <= idx < |working| && working[idx] == Norm(needed[k]) && needed[k].letter < SENTINEL.letter
    ensures Taking(rack, working[idx := SENTINEL], indices + [idx], taken + [working[idx]], needed[..k + 1])
  {
    CostMore(needed, k);
    var more := indices + [idx];
    assert idx !in indices;
    assert more[..|indices|] == indices;
  }

  /** Finds a slot of its own for each needed tile, if the rack has them all. */
  method FindAll(rack: seq<Tile>, needed: seq<Tile>) returns (ok: bool, indices: seq<int>, taken: seq<Tile>)
    requires forall i :: 0 <= i < |needed| ==> needed[i].letter < SENTINEL.letter
    ensures ok ==> Slots(indices, |rack|) && taken == Picked(rack, indices) && multiset(taken) == Cost(needed)
    ensures !ok ==> !(Cost(needed) <= multiset(rack))
  {
    var working := rack;
    ok, indices, taken := true, [], [];
    for k := 0 to |needed|
      invariant Taking(rack, working, indices, taken, needed[..k])
    {
      var idx := MatchRack(working, needed[k]);
      if idx < 0 {
        NotEnough(rack, working, indices, taken, needed, k);
        ok := false;
        return;
      }
      TakeOne(rack, working, indices, taken, needed, k, idx);
      indices, taken, working := indices + [idx], taken + [working[idx]], working[idx := SENTINEL];
    }
    assert needed[..|needed|] == needed;
  }

  lemma {:induction false} PickedNoLetters(src: seq<Tile>, indices: seq<int>)
    requires Slots(indices, |src|) && NoLetters(src)
    ensures NoLetters(Picked(src, indices))
    decreases |indices|
  {
    if indices != [] {
      PickedNoLetters(src, indices[..|indices| - 1]);
    }
  }

  method PickAll(src: seq<Tile>, indices: seq<int>) returns (out: seq<Tile>)
    requires Slots(indices, |src|)
    ensures out == Picked(src, indices)
  {
    out := [];
    for k := 0 to |indices|
      invariant out == Picked(src, indices[..k])
    {
      assert indices[..k + 1][..k] == indices[..k];
      out := out + [src[indices[k]]];
    }
    assert indices[..|indices|] == indices;
  }

  /** Refuses an index that is out of range or was seen before. */
  method CheckIndices(indices: seq<int>, n: nat) returns (bad: Option<RackError>)
    ensures bad.None? <==> Slots(indices, n)
  {
    var seen := {};
    for k := 0 to |indices|
      invariant Slots(indices[..k], n)
      invariant forall i :: i in seen <==> i in indices[..k]
    {
      if indices[k] < 0 || indices[k] >= n {
        return Some(IndexOutOfRange);
      }
      if indices[k] in seen {
        return Some(IndexDuplicated);
      }
      seen := seen + {indices[k]};
    }
    assert indices[..|indices|] == indices;
    return None;
  }

  class Rack {
    var tiles: seq<Tile>

    constructor ()
      ensures tiles == []
    {
      tiles := [];
    }

    method Add(more: seq<Tile>)
      modifies this
      ensures tiles == old(tiles) + more
    {
      tiles := tiles + more;
    }

    /** Draws until the rack is full or the bag is empty. */
    method Refill(bag: Bag)
      modifies this, bag
      ensures tiles == old(tiles) + Drawn(old(bag.tiles), Need(old(tiles)))
      ensures bag.tiles == Kept(old(bag.tiles), Need(old(tiles)))
    {
      var need := RACK_SIZE - |tiles|;
      if need <= 0 {
        return;
      }
      var drawn := bag.Draw(need);
      tiles := tiles + drawn;
    }

    /** Takes the needed tiles out, exactly when the rack holds them all; otherwise nothing changes. */
    method Remove(needed: seq<Tile>) returns (r: Result<seq<Tile>, RackError>)
      requires forall i :: 0 <= i < |needed| ==> needed[i].letter < SENTINEL.letter
      modifies this
      ensures r.Ok? <==> Cost(needed) <= multiset(old(tiles))
      ensures r.Ok? ==> multiset(r.value) == Cost(needed) && multiset(tiles) == multiset(old(tiles)) - Cost(needed)
      ensures r.Err? ==> tiles == old(tiles)
    {
      var ok, indices, taken := FindAll(tiles, needed);
      if !ok {
        return Err(NotInRack);
      }
      PickedAndRest(tiles, indices);
      tiles := CompactExcluding(tiles, indices);
      r := Ok(taken);
    }

    /** Swaps the tiles on the given slots for fresh ones from a bag that holds at least a rackful. */
    method Exchange(indices: seq<int>, bag: Bag) returns (r: Option<RackError>)
      modifies this, bag
      ensures r.None? <==> |old(bag.tiles)| >= RACK_SIZE && Slots(indices, |old(tiles)|)
      ensures r.Some? ==> tiles == old(tiles) && bag.tiles == old(bag.tiles)
      ensures r.None? ==> tiles == Without(old(tiles), SlotSet(indices)) + Drawn(old(bag.tiles), |indices|)
      ensures r.None? ==>
                multiset(bag.tiles) == multiset(Kept(old(bag.tiles), |indices|)) + Cost(Picked(old(tiles), indices))
    {
      if |bag.tiles| < RACK_SIZE {
        return Some(BagTooSmall);
      }
      var bad := CheckIndices(indices, |tiles|);
      if bad.Some? {
        return bad;
      }
      var out := PickAll(tiles, indices);
      tiles := CompactExcluding(tiles, indices);
      var drawn := bag.Draw(|indices|);
      tiles := tiles + drawn;
      bag.Return(out);
      return None;
    }
  }

  /** An exchange keeps the number of tiles on either side, and together the same tiles. */
  lemma ExchangeKeepsTiles(rack: seq<Tile>, bag: seq<Tile>, indices: seq<int>, bag2: seq<Tile>)
    requires |rack| <= RACK_SIZE <= |bag| && Slots(indices, |rack|) && NoLetters(rack)
    requires multiset(bag2) == multiset(Kept(bag, |indices|)) + Cost(Picked(rack, indices))
    ensures var rack2 := Without(rack, SlotSet(indices)) + Drawn(bag, |indices|);
            && |rack2| == |rack| && |bag2| == |bag|
            && multiset(rack2) + multiset(bag2) == multiset(rack) + multiset(bag)
  {
    var rest, out := Without(rack, SlotSet(indices)), Picked(rack, indices);
    PickedAndRest(rack, indices);
    PickedNoLetters(rack, indices);
    NoLettersCost(out);
    DrawSplits(bag, |indices|);
    assert |multiset(out) + multiset(rest)| == |multiset(rack)|;
    assert |indices| <= |rack|;
    assert |multiset(bag2)| == |Kept(bag, |indices|)| + |out|;
  }
}
