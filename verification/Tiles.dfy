/** Tiles, letters and languages (goakt-scrabble/scrabble/tile.go, lang.go). */
module Tiles {
  import opened Wrappers

  /** A `uint8` index into a language's alphabet. */
  type LetterID = x: int | 0 <= x < 256

  /** The shortest acceptable word. */
  const MIN_WORD_LENGTH := 2

  /** The most tiles a player holds. */
  const RACK_SIZE := 7

  /** A tile; a placed blank carries its chosen letter and `blank == true`. */
  datatype Tile = Tile(letter: LetterID, blank: bool) {

    /** A blank whose letter is 0 counts as one without a chosen letter, so a blank can never stand for letter 0. */
    predicate IsUnassignedBlank() {
      blank && letter == 0
    }

    /** The face value: a blank scores nothing. */
    function Score(lang: Language): int
      requires letter < |lang.points|
    {
      if blank then 0 else lang.points[letter]
    }
  }

  /** The rack form of a blank. */
  const BLANK_TILE := Tile(0, true)

  /** The rack tile that a placed tile is paid with. */
  function Norm(t: Tile): Tile {
    if t.blank then BLANK_TILE else t
  }

  /** What a sequence of tiles costs on the rack. */
  function Cost(ts: seq<Tile>): multiset<Tile> {
    if ts == [] then multiset{} else multiset{Norm(ts[0])} + Cost(ts[1..])
  }

  lemma {:induction false} CostConcat(a: seq<Tile>, b: seq<Tile>)
    ensures Cost(a + b) == Cost(a) + Cost(b)
    decreases |a|
  {
    if a == [] {
      assert a + b == b;
    } else {
      assert (a + b)[1..] == a[1..] + b;
      CostConcat(a[1..], b);
    }
  }

  lemma {:induction false} CostSize(ts: seq<Tile>)
    ensures |Cost(ts)| == |ts|
    decreases |ts|
  {
    if ts != [] {
      CostSize(ts[1..]);
    }
  }

  lemma CostMore(ts: seq<Tile>, i: nat)
    requires i < |ts|
    ensures Cost(ts[..i + 1]) == Cost(ts[..i]) + multiset{Norm(ts[i])}
  {
    assert ts[..i + 1] == ts[..i] + [ts[i]];
    CostConcat(ts[..i], [ts[i]]);
    CostOne(ts[i]);
  }

  lemma CostOne(t: Tile)
    ensures Cost([t]) == multiset{Norm(t)}
  {
    var s := [t];
    assert s[1..] == [];
    assert Cost(s) == multiset{Norm(t)} + Cost(s[1..]);
  }

  /** A placed blank is paid with a blank, whatever letter it stands for, and any other tile with itself. */
  predicate PaidWith(t: Tile, x: Tile) {
    if t.blank then x == Tile(0, true) else x == t
  }

  /** Which of the first `n` tiles are paid with `x`. */
  function Payers(ts: seq<Tile>, n: nat, x: Tile): set<int>
    requires n <= |ts|
  {
    set i | 0 <= i < n && PaidWith(ts[i], x)
  }

  lemma PayersMore(ts: seq<Tile>, n: nat, x: Tile)
    requires n < |ts|
    ensures |Payers(ts, n + 1, x)| == |Payers(ts, n, x)| + (if PaidWith(ts[n], x) then 1 else 0)
  {
    assert Payers(ts, n + 1, x) == Payers(ts, n, x) + if PaidWith(ts[n], x) then {n} else {};
  }

  /** Tiles cost as many of each rack tile as there are tiles paid with it. */
  lemma {:induction false} CostCounts(ts: seq<Tile>, n: nat, x: Tile)
    requires n <= |ts|
    ensures Cost(ts[..n])[x] == |Payers(ts, n, x)|
    decreases n
  {
    if n > 0 {
      CostCounts(ts, n - 1, x);
      CostMore(ts, n - 1);
      PayersMore(ts, n - 1, x);
      assert multiset{Norm(ts[n - 1])}[x] == if PaidWith(ts[n - 1], x) then 1 else 0;
    }
  }

  /** Upper case of the basic Latin letters. */
  function ToUpper(c: char): char {
    if 'a' <= c <= 'z' then c - 'a' + 'A' else c
  }

  /** One playable language; the three sequences are parallel and indexed by letter. */
  datatype Language = Language(letters: seq<char>, points: seq<int>, distribution: seq<nat>, blanks: nat) {

    /** What the constructor of a language checks, and what the one-byte letter index with its reserved
        marker 255 needs. */
    predicate WellFormed() {
      && |letters| == |points| == |distribution|
      && 0 < |letters| <= 255
      && (forall i, j :: 0 <= i < j < |letters| ==> letters[i] != letters[j])
    }

    /** The letter of a character, in either case. */
    function Id(c: char): (id: Option<LetterID>)
      requires |letters| <= 255
      ensures id.Some? ==> id.value < |letters| && letters[id.value] == ToUpper(c)
    {
      IdFrom(ToUpper(c), |letters|)
    }

    function IdFrom(c: char, n: nat): (id: Option<LetterID>)
      requires n <= |letters| <= 255
      ensures id.Some? ==> id.value < n && letters[id.value] == c
      ensures id.None? ==> forall i :: 0 <= i < n ==> letters[i] != c
    {
      if n == 0 then None else if letters[n - 1] == c then Some(n - 1) else IdFrom(c, n - 1)
    }

    /** The letters of a word, unless some character is not in the alphabet. */
    function Normalize(s: string): (w: Option<seq<LetterID>>)
      requires |letters| <= 255
      ensures w.Some? ==> |w.value| == |s| && forall i :: 0 <= i < |s| ==> w.value[i] < |letters|
    {
      if s == [] then Some([])
      else match (Normalize(s[..|s| - 1]), Id(s[|s| - 1]))
        case (Some(w), Some(c)) => Some(w + [c])
        case _ => None
    }

    predicate Has(t: Tile) {
      t.letter < |letters|
    }

    /** Tiles in a full bag. */
    function TotalTiles(): nat {
      blanks + SumTo(distribution, |distribution|)
    }
  }

  /** The letters `w` spell the characters of `s` one by one, in either case. */
  predicate Spells(lang: Language, s: string, w: seq<LetterID>) {
    |w| == |s| && forall i :: 0 <= i < |s| ==> SpellsAt(lang, s[i], w[i])
  }

  predicate SpellsAt(lang: Language, c: char, letter: LetterID) {
    letter < |lang.letters| && lang.letters[letter] == ToUpper(c)
  }

  predicate InAlphabet(lang: Language, c: char) {
    ToUpper(c) in lang.letters
  }

  predicate AllInAlphabet(lang: Language, s: string) {
    forall i :: 0 <= i < |s| ==> InAlphabet(lang, s[i])
  }

  lemma LettersDiffer(lang: Language, a: LetterID, b: LetterID)
    requires lang.WellFormed() && a < |lang.letters| && b < |lang.letters| && lang.letters[a] == lang.letters[b]
    ensures a == b
  {
  }

  /** There is one way to spell a word. */
  lemma SpellsUnique(lang: Language, s: string, w: seq<LetterID>, v: seq<LetterID>)
    requires lang.WellFormed() && Spells(lang, s, w) && Spells(lang, s, v)
    ensures w == v
  {
    forall i | 0 <= i < |s|
      ensures w[i] == v[i]
    {
      assert SpellsAt(lang, s[i], w[i]) && SpellsAt(lang, s[i], v[i]);
      LettersDiffer(lang, w[i], v[i]);
    }
  }

  lemma IdIsThere(lang: Language, c: char)
    requires lang.WellFormed()
    ensures lang.Id(c).Some? <==> InAlphabet(lang, c)
  {
  }

  lemma {:induction false} NormalizeSpells(lang: Language, s: string)
    requires lang.WellFormed()
    ensures lang.Normalize(s).Some? ==> Spells(lang, s, lang.Normalize(s).value)
    ensures lang.Normalize(s).Some? <==> AllInAlphabet(lang, s)
    decreases |s|
  {
    if s != [] {
      var init, last := s[..|s| - 1], s[|s| - 1];
      NormalizeSpells(lang, init);
      IdIsThere(lang, last);
      assert AllInAlphabet(lang, s) <==> AllInAlphabet(lang, init) && InAlphabet(lang, last) by {
        assert s == init + [last];
      }
    }
  }

  /** A word is normalized to the letters that spell it, one by one and in order, exactly when all its characters are
      in the alphabet. */
  lemma NormalizeIs(lang: Language, s: string, w: seq<LetterID>)
    requires lang.WellFormed()
    ensures lang.Normalize(s) == Some(w) <==> Spells(lang, s, w)
    ensures lang.Normalize(s).None? <==> !AllInAlphabet(lang, s)
  {
    NormalizeSpells(lang, s);
    if Spells(lang, s, w) {
      forall i | 0 <= i < |s|
        ensures InAlphabet(lang, s[i])
      {
        assert SpellsAt(lang, s[i], w[i]);
      }
      SpellsUnique(lang, s, w, lang.Normalize(s).value);
    }
  }

  /** On an upper-case alphabet a letter's character leads back to the letter. */
  lemma RuneThenId(lang: Language, id: LetterID)
    requires lang.WellFormed() && id < |lang.letters| && ToUpper(lang.letters[id]) == lang.letters[id]
    ensures lang.Id(lang.letters[id]) == Some(id)
  {
    var found := lang.Id(lang.letters[id]);
    assert found.None? || lang.letters[found.value] == lang.letters[id];
  }

  /** The sum of the first `n` numbers. */
  function SumTo(s: seq<nat>, n: nat): nat
    requires n <= |s|
  {
    if n == 0 then 0 else SumTo(s, n - 1) + s[n - 1]
  }

  function English(): (lang: Language)
    ensures lang.WellFormed()
  {
    Language(
      seq(26, i requires 0 <= i < 26 => 'A' + i as char),
      [1, 3, 3, 2, 1, 4, 2, 4, 1, 8, 5, 1, 3, 1, 1, 3, 10, 1, 1, 1, 1, 4, 4, 8, 4, 10],
      [9, 2, 2, 4, 12, 2, 3, 2, 9, 1, 1, 4, 2, 6, 8, 2, 1, 6, 4, 6, 4, 2, 2, 1, 2, 1],
      2)
  }
}
