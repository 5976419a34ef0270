/** The replicated chain as a whole (goakt-blockchain/actors/node.go, replica.go): one node mints blocks on top of its
    host's replica and announces them; announcements may be lost, repeated and reordered; replicas catch up from each
    other and restart. The host's replica has appended every minted block before the next proof is accepted, also after
    the node has moved to another host. */
module Replication {
  import opened Wrappers
  import opened Chains
  import opened Replicas

  /** All blocks minted so far, after the genesis block; the chain of every replica; all announcements ever made; and
      all chains that some replica has ever held. */
  datatype State = State(minted: seq<Block>, chains: seq<seq<Block>>, announced: set<Block>, held: set<seq<Block>>)

  /** The steps. The peers that answer a replica do so one after the other, each with the chain it holds at that
      moment: `peers` are those chains. */
  datatype Action =
    | Mint(host: nat, txs: seq<Transaction>, proof: int, time: int)
    | Announcement(replica: nat, block: Block, peers: seq<seq<Block>>, writes: nat)
    | Sync(replica: nat, peers: seq<seq<Block>>, writes: nat)

  function Tip(chain: seq<Block>): Block
    requires |chain| > 0
  {
    chain[|chain| - 1]
  }

  /** What can happen at all: a proof for the tip of the host's replica, a block that was announced, and answers that
      some replica could give. */
  predicate Possible(c: Crypto, s: State, a: Action) {
    match a
    case Mint(host, txs, proof, time) =>
      host < |s.chains| && |s.chains[host]| > 0 && c.proves(Tip(s.chains[host]).hash, proof)
    case Announcement(r, b, peers, writes) =>
      r < |s.chains| && |s.chains[r]| > 0 && b in s.announced && forall i :: 0 <= i < |peers| ==> peers[i] in s.held
    case Sync(r, peers, writes) =>
      r < |s.chains| && |s.chains[r]| > 0 && forall i :: 0 <= i < |peers| ==> peers[i] in s.held
  }

  /** The assumption: when a proof is accepted, the host's replica holds every minted block. */
  predicate HostIsCurrent(s: State, a: Action) {
    a.Mint? ==> a.host < |s.chains| && s.chains[a.host] == s.minted
  }

  predicate Enabled(c: Crypto, s: State, a: Action) {
    Possible(c, s, a) && HostIsCurrent(s, a)
  }

  /** What the peers answer when they are asked for the blocks past the tip of a chain. */
  function Answers(chain: seq<Block>, peers: seq<seq<Block>>): (out: seq<Option<seq<Block>>>)
    requires |chain| > 0
    ensures |out| == |peers|
  {
    seq(|peers|, i requires 0 <= i < |peers| => Some(SinceTo(peers[i], Tip(chain).index + 1, |peers[i]|)))
  }

  function WithChain(s: State, r: nat, chain: seq<Block>): State
    requires r < |s.chains|
  {
    s.(chains := s.chains[r := chain], held := s.held + {chain})
  }

  function Next(c: Crypto, s: State, a: Action): State
    requires Possible(c, s, a)
  {
    match a
    case Mint(host, txs, proof, time) =>
      var b := NextBlock(c, Tip(s.chains[host]), txs, proof, time);
      s.(minted := s.minted + [b], announced := s.announced + {b})
    case Announcement(r, b, peers, writes) =>
      WithChain(s, r, Received(c, s.chains[r], b, Answers(s.chains[r], peers), writes))
    case Sync(r, peers, writes) => WithChain(s, r, CaughtUp(c, s.chains[r], Answers(s.chains[r], peers), writes))
  }

  // ---------- what every run keeps ----------

  predicate IsPrefix(chain: seq<Block>, minted: seq<Block>) {
    0 < |chain| <= |minted| && chain == minted[..|chain|]
  }

  /** Every replica has only ever held prefixes of the one minted chain, and only minted blocks are announced. */
  ghost predicate Inv(c: Crypto, s: State) {
    && IsChain(c, s.minted)
    && (forall r {:trigger IsPrefix(s.chains[r], s.minted)} :: 0 <= r < |s.chains| ==> IsPrefix(s.chains[r], s.minted))
    && (forall chain {:trigger IsPrefix(chain, s.minted)} :: chain in s.held ==> IsPrefix(chain, s.minted))
    && (forall b :: b in s.announced ==> b in s.minted[1..])
  }

  /** Only the next minted block follows a prefix. */
  lemma OnlyNextFollows(c: Crypto, minted: seq<Block>, chain: seq<Block>, b: Block)
    requires IsChain(c, minted) && IsPrefix(chain, minted) && b in minted
    requires Follows(c, Tip(chain), b)
    ensures IsPrefix(chain + [b], minted)
  {
    var i :| 0 <= i < |minted| && minted[i] == b;
    IndexIsPlace(c, minted, i);
    IndexIsPlace(c, minted, |chain| - 1);
    assert chain + [b] == minted[..|chain| + 1];
  }

  /** Appending what comes next gives a longer prefix, as far as the writes succeed. */
  lemma {:induction false} AppendsNext(c: Crypto, minted: seq<Block>, chain: seq<Block>, blocks: seq<Block>, i: nat,
                                       writes: nat)
    requires IsChain(c, minted) && IsPrefix(chain, minted) && i <= |blocks| && |chain| + |blocks| - i <= |minted|
    requires forall j :: i <= j < |blocks| ==> blocks[j] == minted[|chain| + j - i]
    ensures var n := if |blocks| - i <= writes then |chain| + |blocks| - i else |chain| + writes;
            Appended(c, chain, blocks, i, writes) == minted[..n]
    decreases |blocks| - i
  {
    if i < |blocks| && writes > 0 {
      assert Link(c, minted, |chain|);
      var longer := chain + [blocks[i]];
      assert longer == minted[..|longer|];
      AppendsNext(c, minted, longer, blocks, i + 1, writes - 1);
    }
  }

  /** The longest of a chain and the first `n` chains that answer it. */
  function Reach(chain: seq<Block>, peers: seq<seq<Block>>, n: nat): (m: nat)
    requires n <= |peers|
    ensures m >= |chain|
  {
    if n == 0 then |chain|
    else
      var m, k := Reach(chain, peers, n - 1), |peers[n - 1]|;
      if k > m then k else m
  }

  lemma {:induction false} ReachCovers(chain: seq<Block>, peers: seq<seq<Block>>, n: nat, i: nat)
    requires i < n <= |peers|
    ensures Reach(chain, peers, n) >= |peers[i]|
    decreases n
  {
    if i < n - 1 {
      ReachCovers(chain, peers, n - 1, i);
    }
  }

  /** A peer answers with what it has past the tip. */
  lemma AnswerIs(c: Crypto, minted: seq<Block>, chain: seq<Block>, peer: seq<Block>)
    requires IsChain(c, minted) && IsPrefix(chain, minted) && IsPrefix(peer, minted)
    ensures SinceTo(peer, Tip(chain).index + 1, |peer|) == if |chain| <= |peer| then minted[|chain|..|peer|] else []
  {
    var n := Tip(chain).index + 1;
    TipIndex(c, minted, chain);
    PeerSince(c, minted, peer, n);
  }

  lemma PeerSince(c: Crypto, minted: seq<Block>, peer: seq<Block>, n: nat)
    requires IsChain(c, minted) && IsPrefix(peer, minted)
    ensures SinceTo(peer, n, |peer|) == if n <= |peer| then minted[n..|peer|] else []
  {
    PrefixIsChain(c, minted, peer);
    SinceIsSuffix(c, peer, n, |peer|);
    WholePeer(minted, n, peer);
  }

  lemma PrefixIsChain(c: Crypto, minted: seq<Block>, peer: seq<Block>)
    requires IsChain(c, minted) && IsPrefix(peer, minted)
    ensures IsChain(c, peer)
  {
    ChainPrefix(c, minted, |peer|);
  }

  lemma WholePeer(minted: seq<Block>, n: nat, peer: seq<Block>)
    requires IsPrefix(peer, minted)
    ensures From(peer[..|peer|], n) == if n <= |peer| then minted[n..|peer|] else []
  {
    assert peer[..|peer|] == peer;
    if n <= |peer| {
      assert peer[n..] == minted[n..|peer|];
    }
  }

  lemma TipIndex(c: Crypto, minted: seq<Block>, chain: seq<Block>)
    requires IsChain(c, minted) && IsPrefix(chain, minted)
    ensures Tip(chain).index + 1 == |chain|
  {
    IndexIsPlace(c, minted, |chain| - 1);
  }

  ghost predicate AllPrefixes(peers: seq<seq<Block>>, minted: seq<Block>) {
    forall i {:trigger IsPrefix(peers[i], minted)} :: 0 <= i < |peers| ==> IsPrefix(peers[i], minted)
  }

  /** The answer of a peer that holds the first `m` minted blocks to one that holds the first `n`. */
  ghost predicate AnswerOk(minted: seq<Block>, n: nat, answer: Option<seq<Block>>, m: nat) {
    m <= |minted| && answer == Some(if n <= m then minted[n..m] else [])
  }

  ghost predicate AnswersOk(minted: seq<Block>, n: nat, answers: seq<Option<seq<Block>>>, peers: seq<seq<Block>>) {
    |answers| == |peers| && forall i {:trigger AnswerOk(minted, n, answers[i], |peers[i]|)} ::
      0 <= i < |peers| ==> AnswerOk(minted, n, answers[i], |peers[i]|)
  }

  lemma AnswersAreOk(c: Crypto, minted: seq<Block>, chain: seq<Block>, peers: seq<seq<Block>>)
    requires IsChain(c, minted) && IsPrefix(chain, minted) && AllPrefixes(peers, minted)
    ensures AnswersOk(minted, |chain|, Answers(chain, peers), peers)
  {
    var answers := Answers(chain, peers);
    forall i | 0 <= i < |peers|
      ensures AnswerOk(minted, |chain|, answers[i], |peers[i]|)
    {
      assert IsPrefix(peers[i], minted);
      AnswerIs(c, minted, chain, peers[i]);
    }
  }

  lemma {:induction false} LongestReaches(minted: seq<Block>, chain: seq<Block>, answers: seq<Option<seq<Block>>>,
                                          peers: seq<seq<Block>>, n: nat)
    requires IsPrefix(chain, minted) && AnswersOk(minted, |chain|, answers, peers) && n <= |peers|
    ensures Reach(chain, peers, n) <= |minted|
    ensures Longest(answers, n) == minted[|chain|..Reach(chain, peers, n)]
    decreases n
  {
    if n > 0 {
      assert AnswerOk(minted, |chain|, answers[n - 1], |peers[n - 1]|);
      LongestReaches(minted, chain, answers, peers, n - 1);
      LongestStep(answers, n, minted, |chain|, Reach(chain, peers, n - 1), |peers[n - 1]|);
    }
  }

  lemma LongestStep(answers: seq<Option<seq<Block>>>, n: nat, minted: seq<Block>, base: nat, m: nat, k: nat)
    requires 0 < n <= |answers| && base <= m <= |minted| && AnswerOk(minted, base, answers[n - 1], k)
    requires Longest(answers, n - 1) == minted[base..m]
    ensures Longest(answers, n) == minted[base..if k > m then k else m]
  {
  }

  /** Catching up stays on the minted chain, and reaches at least the longest chain that answered, if no write fails. */
  lemma CatchUpReaches(c: Crypto, minted: seq<Block>, chain: seq<Block>, peers: seq<seq<Block>>, writes: nat)
    requires IsChain(c, minted) && IsPrefix(chain, minted) && AllPrefixes(peers, minted)
    ensures var after := CaughtUp(c, chain, Answers(chain, peers), writes);
            && IsPrefix(after, minted) && |after| >= |chain|
            && (writes >= |minted| ==> forall i :: 0 <= i < |peers| ==> |after| >= |peers[i]|)
  {
    var answers := Answers(chain, peers);
    AnswersAreOk(c, minted, chain, peers);
    LongestReaches(minted, chain, answers, peers, |peers|);
    AppendsNext(c, minted, chain, Longest(answers, |peers|), 0, writes);
    forall i | 0 <= i < |peers|
      ensures |peers[i]| <= Reach(chain, peers, |peers|)
    {
      ReachCovers(chain, peers, |peers|, i);
    }
  }

  lemma HeldArePrefixes(c: Crypto, s: State, peers: seq<seq<Block>>)
    requires Inv(c, s) && forall i :: 0 <= i < |peers| ==> peers[i] in s.held
    ensures AllPrefixes(peers, s.minted)
  {
  }

  lemma ReceivedIsPrefix(c: Crypto, s: State, r: nat, b: Block, peers: seq<seq<Block>>, writes: nat)
    requires Inv(c, s) && Enabled(c, s, Announcement(r, b, peers, writes))
    ensures IsPrefix(Received(c, s.chains[r], b, Answers(s.chains[r], peers), writes), s.minted)
  {
    assert IsPrefix(s.chains[r], s.minted);
    if Follows(c, Tip(s.chains[r]), b) {
      assert b in s.minted[1..];
      OnlyNextFollows(c, s.minted, s.chains[r], b);
    } else {
      HeldArePrefixes(c, s, peers);
      CatchUpReaches(c, s.minted, s.chains[r], peers, writes);
    }
  }

  lemma MintKeeps(c: Crypto, s: State, a: Action)
    requires Inv(c, s) && a.Mint? && Enabled(c, s, a)
    ensures Inv(c, Next(c, s, a))
  {
    var t, b := Next(c, s, a), NextBlock(c, Tip(s.minted), a.txs, a.proof, a.time);
    NextBlockFollows(c, Tip(s.minted), a.txs, a.proof, a.time);
    ChainGrows(c, s.minted, b);
    assert t.minted[1..] == s.minted[1..] + [b];
    forall chain | IsPrefix(chain, s.minted)
      ensures IsPrefix(chain, t.minted)
    {
    }
    forall r | 0 <= r < |t.chains|
      ensures IsPrefix(t.chains[r], t.minted)
    {
      assert IsPrefix(s.chains[r], s.minted);
    }
    forall chain | chain in t.held
      ensures IsPrefix(chain, t.minted)
    {
      assert IsPrefix(chain, s.minted);
    }
  }

  /** Every step keeps every replica on the minted chain. */
  lemma StepKeeps(c: Crypto, s: State, a: Action)
    requires Inv(c, s) && Enabled(c, s, a)
    ensures Inv(c, Next(c, s, a))
  {
    if a.Mint? {
      MintKeeps(c, s, a);
    } else {
      var t := Next(c, s, a);
      var chain := t.chains[a.replica];
      assert IsPrefix(chain, s.minted) by {
        assert IsPrefix(s.chains[a.replica], s.minted);
        if a.Announcement? {
          ReceivedIsPrefix(c, s, a.replica, a.block, a.peers, a.writes);
        } else {
          HeldArePrefixes(c, s, a.peers);
          CatchUpReaches(c, s.minted, s.chains[a.replica], a.peers, a.writes);
        }
      }
      forall r | 0 <= r < |t.chains|
        ensures IsPrefix(t.chains[r], t.minted)
      {
        assert r != a.replica ==> IsPrefix(s.chains[r], s.minted);
      }
      forall other | other in t.held
        ensures IsPrefix(other, t.minted)
      {
        assert other != chain ==> IsPrefix(other, s.minted);
      }
    }
  }

  // ---------- runs ----------

  function Opening(n: nat): State {
    State([GENESIS], seq(n, _ => [GENESIS]), {}, {[GENESIS]})
  }

  ghost predicate Run(c: Crypto, n: nat, actions: seq<Action>, states: seq<State>) {
    && |states| == |actions| + 1 && states[0] == Opening(n)
    && forall i :: 0 <= i < |actions| ==>
      Enabled(c, states[i], actions[i]) && states[i + 1] == Next(c, states[i], actions[i])
  }

  lemma {:induction false} EveryRunKeeps(c: Crypto, n: nat, actions: seq<Action>, states: seq<State>, i: nat)
    requires Run(c, n, actions, states) && i < |states|
    ensures Inv(c, states[i])
    decreases i
  {
    if i > 0 {
      EveryRunKeeps(c, n, actions, states, i - 1);
      StepKeeps(c, states[i - 1], actions[i - 1]);
    }
  }

  /** In every run, whatever is lost, repeated or reordered, any two replicas agree as far as both go. */
  lemma ReplicasAgree(c: Crypto, n: nat, actions: seq<Action>, states: seq<State>, i: nat, q: nat, r: nat)
    requires Run(c, n, actions, states) && i < |states| && q < |states[i].chains| && r < |states[i].chains|
    ensures states[i].chains[q] <= states[i].chains[r] || states[i].chains[r] <= states[i].chains[q]
    ensures IsChain(c, states[i].chains[q]) && states[i].chains[q] <= states[i].minted
  {
    EveryRunKeeps(c, n, actions, states, i);
    var a, b, m := states[i].chains[q], states[i].chains[r], states[i].minted;
    assert IsPrefix(a, m) && IsPrefix(b, m);
    ChainPrefix(c, m, |a|);
    if |a| <= |b| {
      assert b[..|a|] == m[..|b|][..|a|] == m[..|a|];
    } else {
      assert a[..|b|] == m[..|a|][..|b|] == m[..|b|];
    }
  }

  // ---------- how far a step takes a replica ----------

  /** The block that a replica is waiting for. */
  predicate IsNext(s: State, r: nat, b: Block)
    requires r < |s.chains|
  {
    |s.chains[r]| < |s.minted| && s.minted[|s.chains[r]|] == b
  }

  /** Among the announced blocks only the one that the replica is waiting for follows its tip. */
  lemma FollowsIffNext(c: Crypto, s: State, r: nat, b: Block)
    requires Inv(c, s) && r < |s.chains| && |s.chains[r]| > 0 && b in s.announced
    ensures Follows(c, Tip(s.chains[r]), b) <==> IsNext(s, r, b)
  {
    assert IsPrefix(s.chains[r], s.minted);
    if Follows(c, Tip(s.chains[r]), b) {
      assert b in s.minted[1..];
      OnlyNextFollows(c, s.minted, s.chains[r], b);
    }
    if IsNext(s, r, b) {
      assert Link(c, s.minted, |s.chains[r]|);
    }
  }

  /** In every run, an announcement of the block that a replica is waiting for makes it one block longer. On any other
      announcement, and on a request to synchronize, it becomes at least as long as every peer that answers, and holds
      everything that was minted if one of them does. This needs the writes to succeed; without, no block is lost. No
      step changes any other replica. */
  lemma StepReaches(c: Crypto, n: nat, actions: seq<Action>, states: seq<State>, i: nat, r: nat)
    requires Run(c, n, actions, states) && i < |actions| && r < |states[i].chains|
    ensures |states[i + 1].chains| == |states[i].chains| && states[i].chains[r] <= states[i + 1].chains[r]
    ensures var a, s, after := actions[i], states[i], states[i + 1].chains[r];
            if a.Mint? || a.replica != r then after == s.chains[r]
            else if a.Announcement? && IsNext(s, r, a.block)
            then after == if a.writes > 0 then s.chains[r] + [a.block] else s.chains[r]
            else a.writes >= |s.minted| ==>
                   && (forall j :: 0 <= j < |a.peers| ==> |after| >= |a.peers[j]|)
                   && (s.minted in a.peers ==> after == s.minted)
  {
    EveryRunKeeps(c, n, actions, states, i);
    var a, s := actions[i], states[i];
    if !a.Mint? && a.replica == r {
      assert IsPrefix(s.chains[r], s.minted);
      if a.Announcement? {
        FollowsIffNext(c, s, r, a.block);
      }
      if a.Sync? || !IsNext(s, r, a.block) {
        HeldArePrefixes(c, s, a.peers);
        CatchUpReaches(c, s.minted, s.chains[r], a.peers, a.writes);
        CaughtUpLonger(s.minted, s.chains[r], states[i + 1].chains[r], a.peers);
      }
    }
  }

  lemma CaughtUpLonger(minted: seq<Block>, chain: seq<Block>, after: seq<Block>, peers: seq<seq<Block>>)
    requires IsPrefix(chain, minted) && IsPrefix(after, minted) && |after| >= |chain|
    ensures chain <= after
    ensures (forall j :: 0 <= j < |peers| ==> |after| >= |peers[j]|) && minted in peers ==> after == minted
  {
    assert minted[..|minted|] == minted;
  }

  // ---------- without the assumption on the host ----------

  /** A block minted on the host's replica extends the minted chain exactly when that replica holds every minted
      block and the proof is valid. */
  lemma StaleHostForks(c: Crypto, minted: seq<Block>, host: seq<Block>, txs: seq<Transaction>, proof: int, time: int)
    requires IsChain(c, minted) && IsPrefix(host, minted)
    ensures IsChain(c, minted + [NextBlock(c, Tip(host), txs, proof, time)]) <==>
            host == minted && c.proves(Tip(minted).hash, proof)
  {
    var b := NextBlock(c, Tip(host), txs, proof, time);
    NextBlockFollows(c, Tip(host), txs, proof, time);
    IndexIsPlace(c, minted, |host| - 1);
    IndexIsPlace(c, minted, |minted| - 1);
    var more := minted + [b];
    assert more[|minted|] == b && more[|minted| - 1] == Tip(minted);
    if IsChain(c, more) {
      assert Link(c, more, |minted|);
      assert |host| == |minted|;
      assert minted[..|minted|] == minted;
    } else if host == minted && c.proves(Tip(minted).hash, proof) {
      ChainGrows(c, minted, b);
    }
  }

  /** A run in which the host's replica may lag behind. */
  ghost predicate LooseRun(c: Crypto, n: nat, actions: seq<Action>, states: seq<State>) {
    && |states| == |actions| + 1 && states[0] == Opening(n)
    && forall i :: 0 <= i < |actions| ==>
         Possible(c, states[i], actions[i]) && states[i + 1] == Next(c, states[i], actions[i])
  }

  predicate Agree(a: seq<Block>, b: seq<Block>) {
    a <= b || b <= a
  }

  function Begun(c: Crypto, proof: int, time: int): Block {
    NextBlock(c, GENESIS, [], proof, time)
  }

  /** The first block of a chain is appended by every replica that has nothing else. */
  lemma FirstBlock(c: Crypto, proof: int, time: int)
    requires c.proves(GENESIS.hash, proof)
    ensures Received(c, [GENESIS], Begun(c, proof, time), [], 1) == [GENESIS, Begun(c, proof, time)]
  {
    NextBlockFollows(c, GENESIS, [], proof, time);
  }

  /** Two proofs accepted before the host's replica has appended the first block end in two replicas that disagree,
      whatever the hash function: the assumption on the host cannot be dropped. */
  lemma LaggingHostDivides(c: Crypto, proof: int) returns (actions: seq<Action>, states: seq<State>)
    requires c.proves(GENESIS.hash, proof)
    ensures LooseRun(c, 2, actions, states)
    ensures exists i :: 0 <= i < |actions| && !HostIsCurrent(states[i], actions[i])
    ensures |states[|actions|].chains| == 2 && !Agree(states[|actions|].chains[0], states[|actions|].chains[1])
  {
    var b1, b2 := Begun(c, proof, 1), Begun(c, proof, 2);
    var g := [GENESIS];
    var s0 := Opening(2);
    var s1 := State([GENESIS, b1], [g, g], {b1}, {g});
    var s2 := State([GENESIS, b1, b2], [g, g], {b1, b2}, {g});
    var s3 := State(s2.minted, [[GENESIS, b1], g], s2.announced, {g, [GENESIS, b1]});
    var s4 := State(s2.minted, [[GENESIS, b1], [GENESIS, b2]], s2.announced, {g, [GENESIS, b1], [GENESIS, b2]});
    FirstBlock(c, proof, 1);
    FirstBlock(c, proof, 2);
    assert Answers(g, []) == [];
    var a0, a1 := Mint(0, [], proof, 1), Mint(0, [], proof, 2);
    var a2, a3 := Announcement(0, b1, [], 1), Announcement(1, b2, [], 1);
    assert s0.chains == [g, g];
    assert Next(c, s0, a0) == s1;
    assert Next(c, s1, a1) == s2;
    assert Next(c, s2, a2) == s3;
    assert Next(c, s3, a3) == s4;
    actions, states := [a0, a1, a2, a3], [s0, s1, s2, s3, s4];
    assert !HostIsCurrent(states[1], actions[1]);
    assert s4.chains[0][1] == b1 && s4.chains[1][1] == b2 && b1.timestamp != b2.timestamp;
  }
}
