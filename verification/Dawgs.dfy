/** The word trie (goakt-scrabble/scrabble/dawg.go): linked nodes with sorted edges, searched by bisection. */
module Dawgs {
  import opened Wrappers
  import opened Tiles

  datatype Edge = To(letter: LetterID, target: Node)

  predicate HasLetter(edges: seq<Edge>, c: LetterID) {
    exists i :: 0 <= i < |edges| && edges[i].letter == c
  }

  /** `after` is `before` with `e` inserted somewhere. */
  ghost predicate Extends(before: seq<Edge>, e: Edge, after: seq<Edge>) {
    exists k :: 0 <= k <= |before| && after == before[..k] + [e] + before[k..]
  }

  class Node {
    var edges: seq<Edge>
    var terminal: bool

    constructor ()
      ensures edges == [] && !terminal
    {
      edges, terminal := [], false;
    }

    ghost predicate Sorted()
      reads this
    {
      forall i, j :: 0 <= i < j < |edges| ==> edges[i].letter < edges[j].letter
    }

    /** The first edge whose letter is not below `letter`. */
    method Search(letter: LetterID) returns (idx: nat)
      requires Sorted()
      ensures idx <= |edges|
      ensures forall i :: 0 <= i < idx ==> edges[i].letter < letter
      ensures forall i :: idx <= i < |edges| ==> edges[i].letter >= letter
    {
      var lo, hi := 0, |edges|;
      while lo < hi
        invariant 0 <= lo <= hi <= |edges|
        invariant forall i :: 0 <= i < lo ==> edges[i].letter < letter
        invariant forall i :: hi <= i < |edges| ==> edges[i].letter >= letter
      {
        var mid := (lo + hi) / 2;
        if edges[mid].letter >= letter {
          hi := mid;
        } else {
          lo := mid + 1;
        }
      }
      idx := lo;
    }

    /** The child for `letter`, exactly when there is an edge with that letter. */
    method Edge(letter: LetterID) returns (child: Option<Node>)
      requires Sorted()
      ensures child.Some? <==> HasLetter(edges, letter)
      ensures forall i :: 0 <= i < |edges| && edges[i].letter == letter ==> child == Some(edges[i].target)
    {
      var idx := Search(letter);
      if idx >= |edges| || edges[idx].letter != letter {
        return None;
      }
      return Some(edges[idx].target);
    }

    /** Inserts a new edge where the order wants it. */
    method AddEdge(letter: LetterID, target: Node)
      requires Sorted()
      requires !HasLetter(edges, letter)
      modifies this`edges
      ensures Sorted()
      ensures Extends(old(edges), To(letter, target), edges)
    {
      var idx := Search(letter);
      edges := edges[..idx] + [To(letter, target)] + edges[idx..];
    }
  }

  /** Paths lead to nodes of `repr`, each to its own, and every prefix of a path is one. */
  ghost predicate IsTree(root: Node, nodes: map<seq<LetterID>, Node>, repr: set<Node>) {
    && [] in nodes && nodes[[]] == root
    && (forall p :: p in nodes ==> nodes[p] in repr)
    && (forall p, q :: p in nodes && q in nodes && nodes[p] == nodes[q] ==> p == q)
    && (forall p: seq<LetterID>, c: LetterID :: p + [c] in nodes ==> p in nodes)
  }

  lemma LastLetter(path: seq<LetterID>, letter: LetterID)
    ensures forall p: seq<LetterID>, c: LetterID :: p + [c] == path + [letter] ==> p == path && c == letter
  {
    forall p: seq<LetterID>, c: LetterID | p + [c] == path + [letter]
      ensures p == path && c == letter
    {
      assert (p + [c])[..|p|] == p && (path + [letter])[..|path|] == path;
      assert (p + [c])[|p|] == c;
    }
  }

  /** A new child keeps the tree. */
  lemma TreeGrows(root: Node, nodes: map<seq<LetterID>, Node>, repr: set<Node>, path: seq<LetterID>, letter: LetterID,
                  next: Node)
    requires IsTree(root, nodes, repr) && path in nodes && path + [letter] !in nodes && next !in repr
    ensures IsTree(root, nodes[path + [letter] := next], repr + {next})
    ensures forall c: LetterID :: path + [letter] + [c] !in nodes[path + [letter] := next]
  {
    LastLetter(path, letter);
    var longer := path + [letter];
    forall c: LetterID
      ensures longer + [c] !in nodes[longer := next]
    {
      assert longer + [c] != longer;
    }
  }

  class DAWG {
    const root: Node
    var size: nat

    /** The number of letters; the node reached by each spelled path, all those nodes, and the words inserted so far. */
    ghost const alphabet: nat
    ghost var nodes: map<seq<LetterID>, Node>
    ghost var repr: set<Node>
    ghost var words: set<seq<LetterID>>

    ghost predicate Shaped()
      reads `nodes, `repr, `words
    {
      IsTree(root, nodes, repr) && words <= nodes.Keys
    }

    /** The edges of the node at `path` are sorted, are exactly the letters by which a path goes on, and lead
        there; and it is terminal exactly when the path is a word. */
    ghost predicate NodeOk(path: seq<LetterID>)
      requires path in nodes && nodes[path] in repr
      reads `nodes, `repr, `words, repr
    {
      var n := nodes[path];
      && n.Sorted()
      && (forall i :: 0 <= i < |n.edges| ==> Leads(path, n.edges[i]))
      && (forall c: LetterID :: path + [c] in nodes ==> HasLetter(n.edges, c))
      && (n.terminal <==> path in words)
    }

    ghost predicate Leads(path: seq<LetterID>, e: Edge)
      reads `nodes, `repr, `words
    {
      path + [e.letter] in nodes && nodes[path + [e.letter]] == e.target && e.letter < alphabet
    }

    ghost predicate Valid()
      reads `nodes, `repr, `words, repr
    {
      Shaped() && forall p {:trigger NodeOk(p)} :: p in nodes ==> NodeOk(p)
    }

    constructor (ghost alphabet: nat)
      ensures Valid() && words == {} && size == 0 && this.alphabet == alphabet
      ensures fresh(repr)
    {
      this.alphabet := alphabet;
      root := new Node();
      size := 0;
      words := {};
      new;
      nodes, repr := map[[] := root], {root};
    }

    /** Follows or creates the path of `word` and marks its end; answers whether the word is new. */
    method Insert(word: seq<LetterID>) returns (added: bool)
      requires Valid() && forall i :: 0 <= i < |word| ==> word[i] < alphabet
      modifies this, repr
      ensures Valid() && fresh(repr - old(repr))
      ensures added <==> word !in old(words)
      ensures words == old(words) + {word}
      ensures size == old(size)
    {
      var node := root;
      var i := 0;
      while i < |word|
        invariant 0 <= i <= |word|
        invariant Valid() && fresh(repr - old(repr))
        invariant word[..i] in nodes && nodes[word[..i]] == node
        invariant words == old(words) && size == old(size)
      {
        node := Descend(node, word[..i], word[i]);
        assert word[..i + 1] == word[..i] + [word[i]];
        i := i + 1;
      }
      assert word[..i] == word;
      assert NodeOk(word);
      if node.terminal {
        return false;
      }
      Mark(node, word);
      return true;
    }

    /** Follows one letter, adding the edge if it is missing. */
    method Descend(node: Node, ghost path: seq<LetterID>, letter: LetterID) returns (next: Node)
      requires Valid() && path in nodes && nodes[path] == node && letter < alphabet
      modifies this, repr
      ensures Valid() && fresh(repr - old(repr))
      ensures path + [letter] in nodes && nodes[path + [letter]] == next
      ensures words == old(words) && size == old(size)
    {
      var child := Child(node, path, letter);
      if child.Some? {
        next := child.value;
      } else {
        next := new Node();
        Link(node, path, letter, next);
      }
    }

    /** From the node at `path`, an edge is found exactly when the longer path is in the trie. */
    method Child(node: Node, ghost path: seq<LetterID>, letter: LetterID) returns (child: Option<Node>)
      requires Valid() && path in nodes && nodes[path] == node
      ensures child == if path + [letter] in nodes then Some(nodes[path + [letter]]) else None
    {
      assert NodeOk(path);
      child := node.Edge(letter);
      if child.Some? {
        ghost var i :| 0 <= i < |node.edges| && node.edges[i].letter == letter;
        assert Leads(path, node.edges[i]);
      }
    }

    /** Adds a child to the node at `path`. */
    method Link(node: Node, ghost path: seq<LetterID>, letter: LetterID, next: Node)
      requires Valid() && path in nodes && nodes[path] == node
      requires path + [letter] !in nodes && letter < alphabet
      requires next !in repr && next.edges == [] && !next.terminal
      modifies `nodes, `repr, node
      ensures Valid() && repr == old(repr) + {next}
      ensures nodes == old(nodes)[path + [letter] := next]
    {
      assert NodeOk(path);
      ghost var longer := path + [letter];
      TreeGrows(root, nodes, repr, path, letter, next);
      node.AddEdge(letter, next);
      nodes, repr := nodes[longer := next], repr + {next};
      LastLetter(path, letter);
      GrownNode(path, letter, next, old(node.edges));
      NewLeaf(longer);
      forall p | p in nodes && p != path && p != longer
        ensures NodeOk(p)
      {
        assert old(NodeOk(p));
        assert nodes[p] != node;
        forall c: LetterID | p + [c] in nodes
          ensures HasLetter(nodes[p].edges, c)
        {
          assert p + [c] in old(nodes);
        }
      }
    }

    lemma NewLeaf(p: seq<LetterID>)
      requires p in nodes && nodes[p] in repr && p !in words
      requires nodes[p].edges == [] && !nodes[p].terminal
      requires forall c: LetterID :: p + [c] !in nodes
      ensures NodeOk(p)
    {
    }

    lemma GrownNode(path: seq<LetterID>, letter: LetterID, next: Node, before: seq<Edge>)
      requires path in nodes && nodes[path] in repr
      requires Leads(path, To(letter, next)) && nodes[path].Sorted()
      requires forall i :: 0 <= i < |before| ==> Leads(path, before[i])
      requires forall c: LetterID :: path + [c] in nodes ==> c == letter || HasLetter(before, c)
      requires nodes[path].terminal <==> path in words
      requires Extends(before, To(letter, next), nodes[path].edges)
      ensures NodeOk(path)
    {
      var k :| 0 <= k <= |before| && nodes[path].edges == before[..k] + [To(letter, next)] + before[k..];
      var after := nodes[path].edges;
      forall i | 0 <= i < |after|
        ensures Leads(path, after[i])
      {
        assert after[i] == if i < k then before[i] else if i == k then To(letter, next) else before[i - 1];
      }
      forall c: LetterID | path + [c] in nodes
        ensures HasLetter(after, c)
      {
        if c == letter {
          assert after[k].letter == c;
        } else {
          var i :| 0 <= i < |before| && before[i].letter == c;
          assert after[if i < k then i else i + 1] == before[i];
        }
      }
    }

    method Mark(node: Node, ghost word: seq<LetterID>)
      requires Valid() && word in nodes && nodes[word] == node && !node.terminal
      modifies `words, node
      ensures Valid() && words == old(words) + {word} && word !in old(words)
    {
      assert NodeOk(word);
      assert forall p :: p in nodes ==> NodeOk(p);
      node.terminal := true;
      words := words + {word};
      forall p | p in nodes
        ensures NodeOk(p)
      {
        assert old(NodeOk(p));
        assert p != word ==> nodes[p] != node;
      }
    }

    /** A word is found exactly when it was inserted and has at least two letters. */
    method Contains(word: seq<LetterID>) returns (found: bool)
      requires Valid()
      ensures found <==> |word| >= MIN_WORD_LENGTH && word in words
    {
      if |word| < MIN_WORD_LENGTH {
        return false;
      }
      var node := root;
      var i := 0;
      while i < |word|
        invariant 0 <= i <= |word|
        invariant word[..i] in nodes && nodes[word[..i]] == node
      {
        assert word[..i + 1] == word[..i] + [word[i]];
        var child := Child(node, word[..i], word[i]);
        if child.None? {
          PrefixesAreNodes(this, word, i + 1);
          return false;
        }
        node := child.value;
        i := i + 1;
      }
      assert word[..i] == word;
      assert NodeOk(word);
      return node.terminal;
    }
  }

  /** White space in Unicode. */
  predicate IsSpace(c: char) {
    var n := c as int;
    || 0x9 <= n <= 0xD || n == 0x20 || n == 0x85 || n == 0xA0 || n == 0x1680 || 0x2000 <= n <= 0x200A
    || n == 0x2028 || n == 0x2029 || n == 0x202F || n == 0x205F || n == 0x3000
  }

  function TrimLeft(s: string): string {
    if s == "" || !IsSpace(s[0]) then s else TrimLeft(s[1..])
  }

  function TrimRight(s: string): string {
    if s == "" || !IsSpace(s[|s| - 1]) then s else TrimRight(s[..|s| - 1])
  }

  function Trim(s: string): string {
    TrimRight(TrimLeft(s))
  }

  /** The word on a line of the list, if the line holds one. Space around it does not count; comments, blank lines,
      words that are too short and words with other characters are skipped. */
  function WordOn(lang: Language, raw: string): Option<seq<LetterID>>
    requires lang.WellFormed()
  {
    var line := Trim(raw);
    if line == "" || line[0] == '#' then None
    else match lang.Normalize(line)
      case None => None
      case Some(w) => if |w| < MIN_WORD_LENGTH then None else Some(w)
  }

  predicate AllSpace(s: string) {
    forall i :: 0 <= i < |s| ==> IsSpace(s[i])
  }

  /** `raw` is `mid` with space around it. */
  predicate Surrounds(raw: string, before: string, mid: string, after: string) {
    && raw == before + (mid + after) && AllSpace(before) && AllSpace(after)
    && mid != "" && !IsSpace(mid[0]) && !IsSpace(mid[|mid| - 1])
  }

  /** A line spells a word: character by character between its surrounding space, and it does not start with '#'. */
  ghost predicate LineSpells(lang: Language, raw: string, w: seq<LetterID>) {
    exists before, mid, after :: Surrounds(raw, before, mid, after) && mid[0] != '#' && Spells(lang, mid, w)
  }

  ghost predicate SomeLineSpells(lang: Language, lines: seq<string>, w: seq<LetterID>) {
    exists i :: 0 <= i < |lines| && LineSpells(lang, lines[i], w)
  }

  lemma {:induction false} TrimLeftPads(pad: string, s: string)
    requires AllSpace(pad)
    ensures TrimLeft(pad + s) == TrimLeft(s)
    decreases |pad|
  {
    if pad == "" {
      assert pad + s == s;
    } else {
      assert (pad + s)[1..] == pad[1..] + s;
      TrimLeftPads(pad[1..], s);
    }
  }

  lemma {:induction false} TrimRightPads(s: string, pad: string)
    requires AllSpace(pad)
    ensures TrimRight(s + pad) == TrimRight(s)
    decreases |pad|
  {
    if pad == "" {
      assert s + pad == s;
    } else {
      var n := |pad| - 1;
      assert (s + pad)[..|s + pad| - 1] == s + pad[..n];
      TrimRightPads(s, pad[..n]);
    }
  }

  lemma {:induction false} TrimLeftIs(s: string) returns (before: string)
    ensures s == before + TrimLeft(s) && AllSpace(before)
    ensures TrimLeft(s) != "" ==> !IsSpace(TrimLeft(s)[0])
    decreases |s|
  {
    if s == "" || !IsSpace(s[0]) {
      before := "";
    } else {
      var rest := TrimLeftIs(s[1..]);
      before := [s[0]] + rest;
      assert s == [s[0]] + s[1..];
    }
  }

  lemma {:induction false} TrimRightIs(s: string) returns (after: string)
    ensures s == TrimRight(s) + after && AllSpace(after)
    ensures TrimRight(s) != "" ==> !IsSpace(TrimRight(s)[|TrimRight(s)| - 1])
    decreases |s|
  {
    if s == "" || !IsSpace(s[|s| - 1]) {
      after := "";
    } else {
      var n := |s| - 1;
      var rest := TrimRightIs(s[..n]);
      after := rest + [s[n]];
      assert s == s[..n] + [s[n]];
    }
  }

  /** Trimming takes away the space around, and nothing else. */
  lemma TrimIs(raw: string) returns (before: string, after: string)
    ensures raw == before + (Trim(raw) + after) && AllSpace(before) && AllSpace(after)
    ensures Trim(raw) != "" ==> Surrounds(raw, before, Trim(raw), after)
  {
    before := TrimLeftIs(raw);
    after := TrimRightIs(TrimLeft(raw));
    assert Trim(raw) != "" ==> Trim(raw)[0] == TrimLeft(raw)[0];
  }

  lemma TrimSurrounded(raw: string, before: string, mid: string, after: string)
    requires Surrounds(raw, before, mid, after)
    ensures Trim(raw) == mid
  {
    TrimLeftPads(before, mid + after);
    assert (mid + after)[0] == mid[0];
    TrimRightPads(mid, after);
  }

  /** The word on a line is the one of at least two letters that the line spells. */
  lemma WordOnIs(lang: Language, raw: string, w: seq<LetterID>)
    requires lang.WellFormed()
    ensures WordOn(lang, raw) == Some(w) <==> |w| >= MIN_WORD_LENGTH && LineSpells(lang, raw, w)
  {
    NormalizeIs(lang, Trim(raw), w);
    if WordOn(lang, raw) == Some(w) {
      var before, after := TrimIs(raw);
      assert Surrounds(raw, before, Trim(raw), after);
    }
    if before, mid, after :| Surrounds(raw, before, mid, after) && mid[0] != '#' && Spells(lang, mid, w) {
      TrimSurrounded(raw, before, mid, after);
    }
  }

  /** A word is found on a line whatever space stands around it. */
  lemma SpaceDoesNotCount(lang: Language, before: string, word: string, after: string)
    requires lang.WellFormed() && word != "" && !IsSpace(word[0]) && AllSpace(before) && AllSpace(after)
    ensures WordOn(lang, before + (word + after)) == WordOn(lang, word)
  {
    TrimLeftPads(before, word + after);
    TrimRightPads(word, after);
  }

  /** The words of a list are those of at least two letters that some line spells. */
  lemma WordsOnAre(lang: Language, lines: seq<string>, w: seq<LetterID>)
    requires lang.WellFormed()
    ensures w in WordsOn(lang, lines) <==>
            |w| >= MIN_WORD_LENGTH && SomeLineSpells(lang, lines, w)
  {
    if w in WordsOn(lang, lines) {
      var i :| 0 <= i < |lines| && WordOn(lang, lines[i]).Some? && WordOn(lang, lines[i]).value == w;
      WordOnIs(lang, lines[i], w);
    }
    if i :| 0 <= i < |lines| && LineSpells(lang, lines[i], w) {
      WordOnIs(lang, lines[i], w);
    }
  }

  function WordsOn(lang: Language, lines: seq<string>): set<seq<LetterID>>
    requires lang.WellFormed()
  {
    set i | 0 <= i < |lines| && WordOn(lang, lines[i]).Some? :: WordOn(lang, lines[i]).value
  }

  /** What the move generator needs to know about the words. */
  predicate IsLexicon(lang: Language, words: set<seq<LetterID>>) {
    forall w :: w in words ==> |w| >= MIN_WORD_LENGTH && forall i :: 0 <= i < |w| ==> w[i] < |lang.letters|
  }

  lemma WordsOnMore(lang: Language, lines: seq<string>, i: nat)
    requires lang.WellFormed() && i < |lines|
    ensures WordsOn(lang, lines[..i + 1]) ==
            WordsOn(lang, lines[..i]) + Added(lang, lines[i])
  {
    var a, b := lines[..i + 1], lines[..i];
    assert a[i] == lines[i];
    assert forall k :: 0 <= k < i ==> a[k] == b[k];
  }

  function Added(lang: Language, line: string): set<seq<LetterID>>
    requires lang.WellFormed()
  {
    match WordOn(lang, line) case None => {} case Some(w) => {w}
  }

  method AddLine(dawg: DAWG, lang: Language, line: string)
    requires lang.WellFormed() && dawg.Valid() && dawg.size == |dawg.words| && dawg.alphabet == |lang.letters|
    modifies dawg, dawg.repr
    ensures dawg.Valid() && fresh(dawg.repr - old(dawg.repr))
    ensures dawg.words == old(dawg.words) + Added(lang, line)
    ensures dawg.size == |dawg.words|
  {
    var word := WordOn(lang, line);
    if word.Some? {
      var added := dawg.Insert(word.value);
      if added {
        dawg.size := dawg.size + 1;
      } else {
        assert dawg.words == old(dawg.words);
      }
    }
  }

  /** Builds the trie of a word list, given line by line; `broken` tells whether reading it ends with an error. The size
      counts every distinct word once. */
  method BuildDAWG(lang: Language, lines: seq<string>, broken: bool) returns (r: Option<DAWG>)
    requires lang.WellFormed()
    ensures r.None? <==> broken
    ensures r.Some? ==> r.value.Valid() && fresh(r.value) && fresh(r.value.repr)
    ensures r.Some? ==> forall w :: w in r.value.words <==> |w| >= MIN_WORD_LENGTH && SomeLineSpells(lang, lines, w)
    ensures r.Some? ==> r.value.words == WordsOn(lang, lines) && r.value.size == |r.value.words|
    ensures r.Some? ==> IsLexicon(lang, r.value.words) && r.value.alphabet == |lang.letters|
  {
    var dawg := new DAWG(|lang.letters|);
    for i := 0 to |lines|
      invariant dawg.Valid() && fresh(dawg) && fresh(dawg.repr) && dawg.alphabet == |lang.letters|
      invariant dawg.words == WordsOn(lang, lines[..i])
      invariant dawg.size == |dawg.words|
    {
      WordsOnMore(lang, lines, i);
      AddLine(dawg, lang, lines[i]);
    }
    if broken {
      return None;
    }
    assert lines[..|lines|] == lines;
    LexiconOn(lang, lines);
    forall w
      ensures w in WordsOn(lang, lines) <==> |w| >= MIN_WORD_LENGTH && SomeLineSpells(lang, lines, w)
    {
      WordsOnAre(lang, lines, w);
    }
    return Some(dawg);
  }

  lemma LexiconOn(lang: Language, lines: seq<string>)
    requires lang.WellFormed()
    ensures IsLexicon(lang, WordsOn(lang, lines))
  {
  }

  /** Every prefix of a word has a node. */
  lemma {:induction false} PrefixesAreNodes(d: DAWG, p: seq<LetterID>, n: nat)
    requires d.Valid() && n <= |p|
    ensures p in d.nodes ==> p[..n] in d.nodes
    decreases |p|
  {
    if p in d.nodes && n < |p| {
      var q := p[..|p| - 1];
      assert p == q + [p[|p| - 1]];
      PrefixesAreNodes(d, q, n);
      assert q[..n] == p[..n];
    } else {
      assert n == |p| ==> p[..n] == p;
    }
  }
}
