/** The node with its broker and its miner (goakt-blockchain/actors/node.go, broker.go, miner.go): their mailboxes are
    queues, messages between two actors arrive in order, and the broker is not restarted. The replica of the node's
    host holds some prefix of the minted chain; it holds all of it when a proof is handled. */
module Minting {
  import opened Chains

  const REWARD := Transaction("coinbase", "node0", 100)

  datatype BrokerMsg = AddTransaction(tx: Transaction) | ClearTransactions

  /** What to mine on: the hash that was read, and the height of the host's replica when it was read. */
  datatype Request = Request(hash: string, height: nat)

  datatype MinerMsg = Mine(request: Request) | Ready

  datatype Proof = Proof(request: Request, proof: int)

  /** The minted chain and how much of it the host's replica holds; the broker's pool and mailbox; the miner's
      behaviour and mailbox; the computations under way and the proofs in the node's mailbox; and everything that was
      ever submitted. */
  datatype State = State(minted: seq<Block>, host: nat, pending: seq<Transaction>, brokerQ: seq<BrokerMsg>,
                         busy: bool, minerQ: seq<MinerMsg>, computing: seq<Request>, proofs: seq<Proof>,
                         submitted: multiset<Transaction>)

  datatype Action =
    | Submit(tx: Transaction)
    | BrokerHandles
    | HostHolds(height: nat)
    | MineBlock
    | MinerHandles
    | Computed(which: nat, proof: int)
    | NodeHandlesProof(time: int)

  predicate Shaped(s: State) {
    0 < s.host <= |s.minted|
  }

  predicate Enabled(c: Crypto, s: State, a: Action) {
    Shaped(s) && match a
      case Submit(tx) => true
      case BrokerHandles => s.brokerQ != []
      case HostHolds(height) => 0 < height <= |s.minted|
      case MineBlock => true
      case MinerHandles => s.minerQ != []
      case Computed(which, proof) => which < |s.computing| && c.proves(s.computing[which].hash, proof)
      case NodeHandlesProof(time) => s.proofs != [] && s.host == |s.minted|
  }

  function Handled(pending: seq<Transaction>, m: BrokerMsg): seq<Transaction> {
    match m
    case AddTransaction(tx) => pending + [tx]
    case ClearTransactions => []
  }

  /** The pool after the first `n` messages in its mailbox. */
  function Pool(pending: seq<Transaction>, q: seq<BrokerMsg>, n: nat): seq<Transaction>
    requires n <= |q|
  {
    if n == 0 then pending else Handled(Pool(pending, q, n - 1), q[n - 1])
  }

  function Tip(s: State): Block
    requires |s.minted| > 0
  {
    s.minted[|s.minted| - 1]
  }

  /** What a request to mine reads from the host's replica. */
  function RequestOf(s: State): Request
    requires Shaped(s)
  {
    Request(s.minted[s.host - 1].hash, s.host)
  }

  function MinerNext(s: State): State
    requires s.minerQ != []
  {
    var t := s.(minerQ := s.minerQ[1..]);
    match s.minerQ[0]
    case Mine(request) => if s.busy then t else t.(busy := true, computing := s.computing + [request])
    case Ready => t.(busy := false)
  }

  /** A proof for the hash of the tip becomes a block of everything in the pool and the reward; any other is dropped.
      The broker has handled its whole mailbox by the time it tells what is pending. */
  function ProofNext(c: Crypto, s: State, time: int): State
    requires |s.minted| > 0 && s.proofs != []
  {
    var p, t := s.proofs[0], s.(proofs := s.proofs[1..], minerQ := s.minerQ + [Ready]);
    if Tip(s).hash != p.request.hash then t
    else
      var items := Pool(s.pending, s.brokerQ, |s.brokerQ|) + [REWARD];
      t.(minted := s.minted + [NextBlock(c, Tip(s), items, p.proof, time)],
         pending := items,
         brokerQ := [ClearTransactions])
  }

  function Next(c: Crypto, s: State, a: Action): State
    requires Enabled(c, s, a)
  {
    match a
    case Submit(tx) => s.(brokerQ := s.brokerQ + [AddTransaction(tx)], submitted := s.submitted + multiset{tx})
    case BrokerHandles => s.(pending := Handled(s.pending, s.brokerQ[0]), brokerQ := s.brokerQ[1..])
    case HostHolds(height) => s.(host := height)
    case MineBlock => s.(minerQ := s.minerQ + [Mine(RequestOf(s))])
    case MinerHandles => MinerNext(s)
    case Computed(which, proof) =>
      s.(computing := s.computing[..which] + s.computing[which + 1..],
         proofs := s.proofs + [Proof(s.computing[which], proof)])
    case NodeHandlesProof(time) => ProofNext(c, s, time)
  }

  // ---------- what every run keeps ----------

  /** Ready messages among the first `n` in the miner's mailbox. */
  function Readies(q: seq<MinerMsg>, n: nat): nat
    requires n <= |q|
  {
    if n == 0 then 0 else Readies(q, n - 1) + (if q[n - 1].Ready? then 1 else 0)
  }

  /** How often a transaction is in the blocks up to the `n`-th, the rewards aside. */
  function Included(minted: seq<Block>, n: nat, tx: Transaction): nat
    requires n <= |minted|
  {
    if n <= 1 then 0
    else
      var txs := minted[n - 1].transactions;
      Included(minted, n - 1, tx) + (if txs == [] then 0 else multiset(txs[..|txs| - 1])[tx])
  }

  predicate EndsWithReward(b: Block) {
    b.transactions != [] && b.transactions[|b.transactions| - 1] == REWARD
  }

  /** A computation, a proof or a Ready message is under way exactly while the miner is busy, and never two. */
  predicate OneToken(s: State) {
    |s.computing| + |s.proofs| + Readies(s.minerQ, |s.minerQ|) == if s.busy then 1 else 0
  }

  /** The hash of a request is that of the block at its height. */
  predicate Asked(minted: seq<Block>, r: Request) {
    0 < r.height <= |minted| && r.hash == minted[r.height - 1].hash
  }

  predicate MineOk(s: State, i: nat)
    requires i < |s.minerQ|
  {
    s.minerQ[i].Mine? ==> Asked(s.minted, s.minerQ[i].request)
  }

  /** Everything that is being mined was once read from the host's replica, and every proof is valid for it. */
  ghost predicate Honest(c: Crypto, s: State) {
    && (forall i :: 0 <= i < |s.computing| ==> Asked(s.minted, s.computing[i]))
    && (forall i :: 0 <= i < |s.proofs| ==> ProofOk(c, s.minted, s.proofs[i]))
    && (forall i {:trigger MineOk(s, i)} :: 0 <= i < |s.minerQ| ==> MineOk(s, i))
  }

  predicate ProofOk(c: Crypto, minted: seq<Block>, p: Proof) {
    Asked(minted, p.request) && c.proves(p.request.hash, p.proof)
  }

  /** What was submitted is in a block or still pending, as often as it was submitted. */
  ghost predicate Once(s: State) {
    forall tx {:trigger OnceOf(s, tx)} :: OnceOf(s, tx)
  }

  predicate OnceOf(s: State, tx: Transaction) {
    s.submitted[tx] == Included(s.minted, |s.minted|, tx) + multiset(Pool(s.pending, s.brokerQ, |s.brokerQ|))[tx]
  }

  ghost predicate Inv(c: Crypto, s: State) {
    && IsChain(c, s.minted) && Shaped(s)
    && OneToken(s) && Honest(c, s) && Once(s)
    && (forall i :: 0 < i < |s.minted| ==> EndsWithReward(s.minted[i]))
  }

  // ---------- queues ----------

  lemma {:induction false} PoolPrefix(pending: seq<Transaction>, q: seq<BrokerMsg>, m: BrokerMsg, n: nat)
    requires n <= |q|
    ensures Pool(pending, q + [m], n) == Pool(pending, q, n)
    decreases n
  {
    if n > 0 {
      PoolPrefix(pending, q, m, n - 1);
    }
  }

  lemma {:induction false} PoolHead(pending: seq<Transaction>, q: seq<BrokerMsg>, n: nat)
    requires 0 < n <= |q|
    ensures Pool(pending, q, n) == Pool(Handled(pending, q[0]), q[1..], n - 1)
    decreases n
  {
    if n > 1 {
      PoolHead(pending, q, n - 1);
    }
  }

  lemma {:induction false} ReadiesPrefix(q: seq<MinerMsg>, m: MinerMsg, n: nat)
    requires n <= |q|
    ensures Readies(q + [m], n) == Readies(q, n)
    decreases n
  {
    if n > 0 {
      ReadiesPrefix(q, m, n - 1);
    }
  }

  lemma {:induction false} ReadiesHead(q: seq<MinerMsg>, n: nat)
    requires 0 < n <= |q|
    ensures Readies(q, n) == Readies(q[1..], n - 1) + (if q[0].Ready? then 1 else 0)
    decreases n
  {
    if n > 1 {
      ReadiesHead(q, n - 1);
    }
  }

  lemma {:induction false} ReadiesGrow(q: seq<MinerMsg>, m: nat, n: nat)
    requires m <= n <= |q|
    ensures Readies(q, m) <= Readies(q, n)
    decreases n
  {
    if m < n {
      ReadiesGrow(q, m, n - 1);
    }
  }

  lemma {:induction false} IncludedPrefix(minted: seq<Block>, b: Block, n: nat, tx: Transaction)
    requires n <= |minted|
    ensures Included(minted + [b], n, tx) == Included(minted, n, tx)
    decreases n
  {
    if n > 1 {
      IncludedPrefix(minted, b, n - 1, tx);
    }
  }

  // ---------- each step keeps it ----------

  lemma SubmitOnce(s: State, tx: Transaction, x: Transaction)
    requires OnceOf(s, x)
    ensures OnceOf(s.(brokerQ := s.brokerQ + [AddTransaction(tx)], submitted := s.submitted + multiset{tx}), x)
  {
    var pool := Pool(s.pending, s.brokerQ, |s.brokerQ|);
    PoolPrefix(s.pending, s.brokerQ, AddTransaction(tx), |s.brokerQ|);
    assert multiset(pool + [tx])[x] == multiset(pool)[x] + multiset{tx}[x];
  }

  lemma SubmitKeeps(c: Crypto, s: State, tx: Transaction)
    requires Inv(c, s)
    ensures Inv(c, Next(c, s, Submit(tx)))
  {
    var t := Next(c, s, Submit(tx));
    forall x
      ensures OnceOf(t, x)
    {
      assert OnceOf(s, x);
      SubmitOnce(s, tx, x);
    }
    forall i | 0 <= i < |t.minerQ|
      ensures MineOk(t, i)
    {
      assert MineOk(s, i);
    }
  }

  lemma PoolFrame(c: Crypto, s: State, pending: seq<Transaction>, q: seq<BrokerMsg>)
    requires Inv(c, s) && Pool(pending, q, |q|) == Pool(s.pending, s.brokerQ, |s.brokerQ|)
    ensures Inv(c, s.(pending := pending, brokerQ := q))
  {
    var t := s.(pending := pending, brokerQ := q);
    forall x
      ensures OnceOf(t, x)
    {
      assert OnceOf(s, x);
    }
    forall i | 0 <= i < |t.minerQ|
      ensures MineOk(t, i)
    {
      assert MineOk(s, i);
    }
  }

  lemma BrokerKeeps(c: Crypto, s: State)
    requires Inv(c, s) && s.brokerQ != []
    ensures Inv(c, Next(c, s, BrokerHandles))
  {
    PoolHead(s.pending, s.brokerQ, |s.brokerQ|);
    PoolFrame(c, s, Handled(s.pending, s.brokerQ[0]), s.brokerQ[1..]);
  }

  /** The replica of the host, or the host itself, changes. */
  lemma HostKeeps(c: Crypto, s: State, height: nat)
    requires Inv(c, s) && 0 < height <= |s.minted|
    ensures Inv(c, Next(c, s, HostHolds(height)))
  {
    var t := Next(c, s, HostHolds(height));
    forall x
      ensures OnceOf(t, x)
    {
      assert OnceOf(s, x);
    }
    forall i | 0 <= i < |t.minerQ|
      ensures MineOk(t, i)
    {
      assert MineOk(s, i);
    }
  }

  lemma MineKeeps(c: Crypto, s: State)
    requires Inv(c, s)
    ensures Inv(c, Next(c, s, MineBlock))
  {
    var t := Next(c, s, MineBlock);
    ReadiesPrefix(s.minerQ, t.minerQ[|s.minerQ|], |s.minerQ|);
    forall x
      ensures OnceOf(t, x)
    {
      assert OnceOf(s, x);
    }
    forall i | 0 <= i < |t.minerQ|
      ensures MineOk(t, i)
    {
      assert i < |s.minerQ| ==> MineOk(s, i);
    }
  }

  lemma MinerKeeps(c: Crypto, s: State)
    requires Inv(c, s) && s.minerQ != []
    ensures Inv(c, Next(c, s, MinerHandles))
  {
    var t := Next(c, s, MinerHandles);
    ReadiesHead(s.minerQ, |s.minerQ|);
    forall x
      ensures OnceOf(t, x)
    {
      assert OnceOf(s, x);
    }
    assert MineOk(s, 0);
    forall i | 0 <= i < |t.minerQ|
      ensures MineOk(t, i)
    {
      assert MineOk(s, i + 1);
    }
  }

  lemma ComputedKeeps(c: Crypto, s: State, which: nat, proof: int)
    requires Inv(c, s) && Enabled(c, s, Computed(which, proof))
    ensures Inv(c, Next(c, s, Computed(which, proof)))
  {
    var t := Next(c, s, Computed(which, proof));
    forall x
      ensures OnceOf(t, x)
    {
      assert OnceOf(s, x);
    }
    forall i | 0 <= i < |t.minerQ|
      ensures MineOk(t, i)
    {
      assert MineOk(s, i);
    }
  }

  /** What the node does with a proof: one for the hash of the tip becomes the next block, which is accepted, ends with
      the reward and takes over exactly what was pending; any other is dropped, and what is pending stays. */
  lemma ProofIsUsedOrDropped(c: Crypto, s: State, time: int)
    requires Inv(c, s) && Enabled(c, s, NodeHandlesProof(time))
    ensures var t, pool := Next(c, s, NodeHandlesProof(time)), Pool(s.pending, s.brokerQ, |s.brokerQ|);
            if s.minted[s.proofs[0].request.height - 1].hash == Tip(s).hash
            then && |t.minted| == |s.minted| + 1 && s.minted == t.minted[..|s.minted|] && IsChain(c, t.minted)
                 && Tip(t).transactions == pool + [REWARD] && Pool(t.pending, t.brokerQ, |t.brokerQ|) == []
                 && Tip(t).index == |s.minted| && Tip(t).proof == s.proofs[0].proof && Tip(t).timestamp == time
            else t.minted == s.minted && t.pending == s.pending && t.brokerQ == s.brokerQ
  {
    var p := s.proofs[0];
    assert ProofOk(c, s.minted, p);
    if Tip(s).hash == p.request.hash {
      var items := Pool(s.pending, s.brokerQ, |s.brokerQ|) + [REWARD];
      NextBlockFollows(c, Tip(s), items, p.proof, time);
      ChainGrows(c, s.minted, NextBlock(c, Tip(s), items, p.proof, time));
      IndexIsPlace(c, s.minted, |s.minted| - 1);
    }
  }

  lemma MintKeepsTransactions(c: Crypto, s: State, time: int)
    requires Inv(c, s) && Enabled(c, s, NodeHandlesProof(time))
    ensures var t := Next(c, s, NodeHandlesProof(time));
            IsChain(c, t.minted) && Once(t) && forall i :: 0 < i < |t.minted| ==> EndsWithReward(t.minted[i])
  {
    var t := Next(c, s, NodeHandlesProof(time));
    var pool := Pool(s.pending, s.brokerQ, |s.brokerQ|);
    ProofIsUsedOrDropped(c, s, time);
    assert ProofOk(c, s.minted, s.proofs[0]);
    forall tx
      ensures OnceOf(t, tx)
    {
      assert OnceOf(s, tx);
      if |t.minted| > |s.minted| {
        assert t.minted == s.minted + [Tip(t)];
        IncludedPrefix(s.minted, Tip(t), |s.minted|, tx);
        assert Tip(t).transactions[..|pool|] == pool;
      }
    }
  }

  lemma MintKeepsToken(c: Crypto, s: State, time: int)
    requires Inv(c, s) && Enabled(c, s, NodeHandlesProof(time))
    ensures var t := Next(c, s, NodeHandlesProof(time));
            OneToken(t) && Shaped(t) && Honest(c, t)
  {
    var t := Next(c, s, NodeHandlesProof(time));
    ReadiesPrefix(s.minerQ, Ready, |s.minerQ|);
    forall r | Asked(s.minted, r)
      ensures Asked(t.minted, r)
    {
    }
    forall i | 0 <= i < |t.minerQ|
      ensures MineOk(t, i)
    {
      assert i < |s.minerQ| ==> MineOk(s, i);
    }
    assert |t.proofs| == 0;
  }

  /** Every step keeps the invariant. */
  lemma StepKeeps(c: Crypto, s: State, a: Action)
    requires Inv(c, s) && Enabled(c, s, a)
    ensures Inv(c, Next(c, s, a))
  {
    match a
    case Submit(tx) => SubmitKeeps(c, s, tx);
    case BrokerHandles => BrokerKeeps(c, s);
    case HostHolds(height) => HostKeeps(c, s, height);
    case MineBlock => MineKeeps(c, s);
    case MinerHandles => MinerKeeps(c, s);
    case Computed(which, proof) => ComputedKeeps(c, s, which, proof);
    case NodeHandlesProof(time) =>
      MintKeepsTransactions(c, s, time);
      MintKeepsToken(c, s, time);
  }

  // ---------- runs ----------

  const OPENING := State([GENESIS], 1, [], [], false, [], [], [], multiset{})

  ghost predicate Run(c: Crypto, actions: seq<Action>, states: seq<State>) {
    && |states| == |actions| + 1 && states[0] == OPENING
    && forall i :: 0 <= i < |actions| ==>
      Enabled(c, states[i], actions[i]) && states[i + 1] == Next(c, states[i], actions[i])
  }

  /** In every run each submitted transaction is in exactly one block or still pending, each block ends with its reward,
      and the miner is busy exactly while one computation, proof or Ready message is under way. */
  lemma {:induction false} EveryRunKeeps(c: Crypto, actions: seq<Action>, states: seq<State>, i: nat)
    requires Run(c, actions, states) && i < |states|
    ensures Inv(c, states[i])
    decreases i
  {
    if i > 0 {
      EveryRunKeeps(c, actions, states, i - 1);
      StepKeeps(c, states[i - 1], actions[i - 1]);
    }
  }

  // ---------- the order of the transactions ----------

  /** The transactions submitted in the first `n` steps, in order. */
  function Submits(actions: seq<Action>, n: nat): seq<Transaction>
    requires n <= |actions|
  {
    if n == 0 then []
    else Submits(actions, n - 1) + (if actions[n - 1].Submit? then [actions[n - 1].tx] else [])
  }

  /** The transactions of the blocks after the genesis block up to the `n`-th, the rewards aside. */
  function Ledger(minted: seq<Block>, n: nat): seq<Transaction>
    requires n <= |minted|
  {
    if n <= 1 then []
    else
      var txs := minted[n - 1].transactions;
      Ledger(minted, n - 1) + (if txs == [] then [] else txs[..|txs| - 1])
  }

  lemma {:induction false} LedgerPrefix(minted: seq<Block>, b: Block, n: nat)
    requires n <= |minted|
    ensures Ledger(minted + [b], n) == Ledger(minted, n)
    decreases n
  {
    if n > 1 {
      LedgerPrefix(minted, b, n - 1);
    }
  }

  function Recorded(s: State): seq<Transaction> {
    Ledger(s.minted, |s.minted|) + Pool(s.pending, s.brokerQ, |s.brokerQ|)
  }

  lemma ProofKeepsOrder(c: Crypto, s: State, time: int)
    requires Inv(c, s) && Enabled(c, s, NodeHandlesProof(time))
    ensures Recorded(Next(c, s, NodeHandlesProof(time))) == Recorded(s)
  {
    var t, pool := Next(c, s, NodeHandlesProof(time)), Pool(s.pending, s.brokerQ, |s.brokerQ|);
    ProofIsUsedOrDropped(c, s, time);
    assert ProofOk(c, s.minted, s.proofs[0]);
    if |t.minted| > |s.minted| {
      assert t.minted == s.minted + [Tip(t)];
      LedgerPrefix(s.minted, Tip(t), |s.minted|);
      assert Tip(t).transactions[..|pool|] == pool;
    }
  }

  lemma StepKeepsOrder(c: Crypto, s: State, a: Action)
    requires Inv(c, s) && Enabled(c, s, a)
    ensures Recorded(Next(c, s, a)) == Recorded(s) + if a.Submit? then [a.tx] else []
  {
    if a.Submit? {
      PoolPrefix(s.pending, s.brokerQ, AddTransaction(a.tx), |s.brokerQ|);
    } else if a.BrokerHandles? {
      PoolHead(s.pending, s.brokerQ, |s.brokerQ|);
    } else if a.NodeHandlesProof? {
      ProofKeepsOrder(c, s, a.time);
    }
  }

  /** In every run the transactions of the blocks, block after block, and then those that are pending, are the
      submitted ones in the order in which they were submitted. */
  lemma {:induction false} TransactionsInOrder(c: Crypto, actions: seq<Action>, states: seq<State>, i: nat)
    requires Run(c, actions, states) && i < |states|
    ensures Recorded(states[i]) == Submits(actions, i)
    decreases i
  {
    if i > 0 {
      TransactionsInOrder(c, actions, states, i - 1);
      EveryRunKeeps(c, actions, states, i - 1);
      StepKeepsOrder(c, states[i - 1], actions[i - 1]);
    }
  }

  // ---------- which proofs are dropped ----------

  lemma HashesDiffer(c: Crypto, blocks: seq<Block>, i: nat, j: nat)
    requires NoCollisions(c) && IsChain(c, blocks) && i < j < |blocks|
    ensures blocks[i].hash != blocks[j].hash
  {
    IndexIsPlace(c, blocks, i);
    IndexIsPlace(c, blocks, j);
    assert Link(c, blocks, j);
    if i > 0 {
      assert Link(c, blocks, i);
    }
  }

  /** A request that is on its way somewhere. */
  predicate Pending(s: State, r: Request) {
    || Mine(r) in s.minerQ
    || r in s.computing
    || exists i :: 0 <= i < |s.proofs| && s.proofs[i].request == r
  }

  lemma RequestsStepBack(c: Crypto, s: State, a: Action, r: Request)
    requires Enabled(c, s, a) && Pending(Next(c, s, a), r)
    ensures Pending(s, r) || (a.MineBlock? && r == RequestOf(s))
  {
    var t := Next(c, s, a);
    if a.NodeHandlesProof? {
      if i :| 0 <= i < |t.proofs| && t.proofs[i].request == r {
        assert s.proofs[i + 1].request == r;
      }
    } else if a.Computed? {
      if i :| 0 <= i < |t.proofs| && t.proofs[i].request == r {
        assert i < |s.proofs| ==> s.proofs[i].request == r;
      }
    }
  }

  /** Every request was made by an earlier step, which read it from the host's replica of that moment. */
  lemma {:induction false} RequestWasMade(c: Crypto, actions: seq<Action>, states: seq<State>, i: nat, r: Request)
    returns (j: nat)
    requires Run(c, actions, states) && i < |states| && Pending(states[i], r)
    ensures j < i && actions[j].MineBlock? && Shaped(states[j]) && r == RequestOf(states[j])
    decreases i
  {
    var s, a := states[i - 1], actions[i - 1];
    assert Enabled(c, s, a) && states[i] == Next(c, s, a);
    RequestsStepBack(c, s, a, r);
    if Pending(s, r) {
      j := RequestWasMade(c, actions, states, i - 1, r);
    } else {
      j := i - 1;
    }
  }

  /** In every run, and unless hashes collide: the node handles a proof that answers the request of an earlier step
      `j`, and it becomes the next block exactly when the host's replica held, at that step, every block minted by
      now; otherwise it is dropped, and what is pending stays. */
  lemma ProofIsUsedIff(c: Crypto, actions: seq<Action>, states: seq<State>, i: nat) returns (j: nat)
    requires NoCollisions(c) && Run(c, actions, states) && i < |actions| && actions[i].NodeHandlesProof?
    ensures |states[i].proofs| == 1
    ensures j < i && actions[j].MineBlock? && Shaped(states[j]) && states[i].proofs[0].request == RequestOf(states[j])
    ensures |states[i + 1].minted| > |states[i].minted| <==> states[j].host == |states[i].minted|
    ensures |states[i + 1].minted| == |states[i].minted| ==>
              states[i + 1].pending == states[i].pending && states[i + 1].brokerQ == states[i].brokerQ
  {
    var s := states[i];
    EveryRunKeeps(c, actions, states, i);
    assert states[i + 1] == Next(c, s, actions[i]);
    ProofIsUsedOrDropped(c, s, actions[i].time);
    assert ProofOk(c, s.minted, s.proofs[0]);
    j := RequestWasMade(c, actions, states, i, s.proofs[0].request);
    var h := s.proofs[0].request.height;
    if h < |s.minted| {
      HashesDiffer(c, s.minted, h - 1, |s.minted| - 1);
    }
  }

  /** The request that the miner is working on, or will work on, was read from an up-to-date host; others will be
      turned down because the miner is still busy when they come. */
  ghost predicate Fresh(s: State) {
    && (forall i :: 0 <= i < |s.computing| ==> s.computing[i].height == |s.minted|)
    && (forall i :: 0 <= i < |s.proofs| ==> s.proofs[i].request.height == |s.minted|)
    && (forall i {:trigger MineFresh(s, i)} :: 0 <= i < |s.minerQ| ==> MineFresh(s, i))
  }

  predicate MineFresh(s: State, i: nat)
    requires i < |s.minerQ|
  {
    s.minerQ[i].Mine? ==> s.minerQ[i].request.height == |s.minted| || (s.busy && Readies(s.minerQ, i) == 0)
  }

  lemma MinerKeepsFresh(c: Crypto, s: State)
    requires Inv(c, s) && Fresh(s) && s.minerQ != []
    ensures Fresh(Next(c, s, MinerHandles))
  {
    var t := Next(c, s, MinerHandles);
    ReadiesHead(s.minerQ, |s.minerQ|);
    assert MineFresh(s, 0);
    forall i | 0 <= i < |t.minerQ|
      ensures MineFresh(t, i)
    {
      assert MineFresh(s, i + 1);
      ReadiesHead(s.minerQ, i + 1);
    }
  }

  lemma ProofKeepsFresh(c: Crypto, s: State, time: int)
    requires Inv(c, s) && Fresh(s) && Enabled(c, s, NodeHandlesProof(time))
    ensures Fresh(Next(c, s, NodeHandlesProof(time)))
  {
    var t := Next(c, s, NodeHandlesProof(time));
    ReadiesPrefix(s.minerQ, Ready, |s.minerQ|);
    forall i | 0 <= i < |t.minerQ|
      ensures MineFresh(t, i)
    {
      if i < |s.minerQ| {
        assert MineFresh(s, i);
        ReadiesPrefix(s.minerQ, Ready, i);
        ReadiesGrow(s.minerQ, i, |s.minerQ|);
      }
    }
  }

  lemma StepKeepsFresh(c: Crypto, s: State, a: Action)
    requires Inv(c, s) && Fresh(s) && Enabled(c, s, a) && (a.MineBlock? ==> s.host == |s.minted|)
    ensures Fresh(Next(c, s, a))
  {
    if a.MinerHandles? {
      MinerKeepsFresh(c, s);
    } else if a.NodeHandlesProof? {
      ProofKeepsFresh(c, s, a.time);
    } else {
      var t := Next(c, s, a);
      forall i | 0 <= i < |t.minerQ|
        ensures MineFresh(t, i)
      {
        if i < |s.minerQ| {
          assert MineFresh(s, i);
          if a.MineBlock? {
            ReadiesPrefix(s.minerQ, t.minerQ[|s.minerQ|], i);
          }
        }
      }
    }
  }

  /** The host's replica is up to date whenever a request to mine is made. */
  predicate ReadsFresh(actions: seq<Action>, states: seq<State>) {
    |states| == |actions| + 1 &&
    forall i :: 0 <= i < |actions| && actions[i].MineBlock? ==> states[i].host == |states[i].minted|
  }

  lemma {:induction false} FreshThroughout(c: Crypto, actions: seq<Action>, states: seq<State>, i: nat)
    requires Run(c, actions, states) && ReadsFresh(actions, states) && i < |states|
    ensures Fresh(states[i])
    decreases i
  {
    if i > 0 {
      FreshThroughout(c, actions, states, i - 1);
      EveryRunKeeps(c, actions, states, i - 1);
      StepKeepsFresh(c, states[i - 1], actions[i - 1]);
    }
  }

  /** If the host's replica is up to date also when requests are made, no proof is ever dropped. */
  lemma FreshProofsAreUsed(c: Crypto, actions: seq<Action>, states: seq<State>, i: nat)
    requires Run(c, actions, states) && ReadsFresh(actions, states) && i < |actions| && actions[i].NodeHandlesProof?
    ensures |states[i + 1].minted| == |states[i].minted| + 1 && states[i].minted <= states[i + 1].minted
  {
    var s := states[i];
    EveryRunKeeps(c, actions, states, i);
    FreshThroughout(c, actions, states, i);
    assert states[i + 1] == Next(c, s, actions[i]);
    assert ProofOk(c, s.minted, s.proofs[0]);
  }

  // ---------- a run that drops a proof ----------

  /** The state after mining on the genesis block once. */
  function Mined(c: Crypto, proof: int, time: int): State {
    OPENING.(
      minted := [GENESIS, NextBlock(c, GENESIS, [REWARD], proof, time)],
      pending := [REWARD], brokerQ := [ClearTransactions], busy := true, minerQ := [Ready])
  }

  lemma MinesOnce(c: Crypto, proof: int, time: int) returns (actions: seq<Action>, states: seq<State>)
    requires c.proves(GENESIS.hash, proof)
    ensures Run(c, actions, states) && |actions| == 4 && states[4] == Mined(c, proof, time)
  {
    var r := Request(GENESIS.hash, 1);
    var s0 := OPENING;
    var s1 := s0.(minerQ := [Mine(r)]);
    var s2 := s0.(busy := true, computing := [r]);
    var s3 := s0.(busy := true, proofs := [Proof(r, proof)]);
    var s4 := Mined(c, proof, time);
    assert Next(c, s0, MineBlock) == s1;
    assert Next(c, s1, MinerHandles) == s2;
    assert Next(c, s2, Computed(0, proof)) == s3;
    assert [] + [REWARD] == [REWARD] && [GENESIS] + [s4.minted[1]] == s4.minted && [] + [Ready] == [Ready];
    assert Next(c, s3, NodeHandlesProof(time)) == s4;
    actions := [MineBlock, MinerHandles, Computed(0, proof), NodeHandlesProof(time)];
    states := [s0, s1, s2, s3, s4];
  }

  /** A request made before the host's replica has appended the block just minted: once the replica has appended it,
      the proof for the old tip is dropped. */
  lemma StaleRequestIsDropped(c: Crypto, proof: int, time: int) returns (actions: seq<Action>, states: seq<State>)
    requires c.proves(GENESIS.hash, proof) && NoCollisions(c)
    ensures Run(c, actions, states) && |actions| > 0 && actions[|actions| - 1] == NodeHandlesProof(time)
    ensures states[|actions|].minted == states[|actions| - 1].minted
  {
    var before, first := MinesOnce(c, proof, time);
    var r := Request(GENESIS.hash, 1);
    var s4 := Mined(c, proof, time);
    var s5 := s4.(minerQ := [Ready, Mine(r)]);
    var s6 := s4.(busy := false, minerQ := [Mine(r)]);
    var s7 := s4.(minerQ := [], computing := [r]);
    var s8 := s4.(minerQ := [], proofs := [Proof(r, proof)]);
    var s9 := s8.(host := 2);
    var s10 := s4.(host := 2);
    NextBlockHash(c, proof, time);
    assert Next(c, s4, MineBlock) == s5;
    assert Next(c, s5, MinerHandles) == s6;
    assert Next(c, s6, MinerHandles) == s7;
    assert Next(c, s7, Computed(0, proof)) == s8;
    assert Next(c, s8, HostHolds(2)) == s9;
    assert Next(c, s9, NodeHandlesProof(time)) == s10;
    var more := [MineBlock, MinerHandles, MinerHandles, Computed(0, proof), HostHolds(2), NodeHandlesProof(time)];
    var later := [s5, s6, s7, s8, s9, s10];
    actions, states := before + more, first + later;
    RunsJoin(c, before, first, more, later);
  }

  lemma NextBlockHash(c: Crypto, proof: int, time: int)
    requires NoCollisions(c)
    ensures NextBlock(c, GENESIS, [REWARD], proof, time).hash != GENESIS.hash
  {
  }

  predicate Leads(c: Crypto, s: State, a: Action, t: State) {
    Enabled(c, s, a) && t == Next(c, s, a)
  }

  /** The state before step `i` of the second part. */
  function StateAt(first: seq<State>, later: seq<State>, i: nat): State
    requires |first| > 0 && i <= |later|
  {
    if i == 0 then first[|first| - 1] else later[i - 1]
  }

  lemma RunsJoin(c: Crypto, before: seq<Action>, first: seq<State>, more: seq<Action>, later: seq<State>)
    requires Run(c, before, first) && |later| == |more|
    requires forall i {:trigger Leads(c, StateAt(first, later, i), more[i], later[i])} ::
               0 <= i < |more| ==> Leads(c, StateAt(first, later, i), more[i], later[i])
    ensures Run(c, before + more, first + later)
  {
    var actions, states := before + more, first + later;
    forall i | 0 <= i < |actions|
      ensures Enabled(c, states[i], actions[i]) && states[i + 1] == Next(c, states[i], actions[i])
    {
      if i >= |before| {
        var k := i - |before|;
        assert Leads(c, StateAt(first, later, k), more[k], later[k]);
        assert states[i] == StateAt(first, later, k) && states[i + 1] == later[k] && actions[i] == more[k];
      }
    }
  }
}
