/** The chain replicas (goakt-blockchain/actors/replica.go): appending announced blocks, catching up from peers, and
    restarting from the store. */
module Replicas {
  import opened Wrappers
  import opened Chains

  // ---------- what a replica does to its chain ----------

  /** Appends the blocks from the `i`-th on, until one does not follow or a write fails; `writes` writes succeed. The
      block whose write failed is gone after the restart that follows. */
  function Appended(c: Crypto, chain: seq<Block>, blocks: seq<Block>, i: nat, writes: nat): seq<Block>
    requires |chain| > 0 && i <= |blocks|
    decreases |blocks| - i
  {
    if i == |blocks| || writes == 0 || !Follows(c, chain[|chain| - 1], blocks[i]) then chain
    else Appended(c, chain + [blocks[i]], blocks, i + 1, writes - 1)
  }

  /** The longest of the first `n` answers, the first of them if there are several; silent peers do not count. */
  function Longest(answers: seq<Option<seq<Block>>>, n: nat): seq<Block>
    requires n <= |answers|
  {
    if n == 0 then []
    else
      var best := Longest(answers, n - 1);
      if answers[n - 1].Some? && |answers[n - 1].value| > |best| then answers[n - 1].value else best
  }

  function CaughtUp(c: Crypto, chain: seq<Block>, answers: seq<Option<seq<Block>>>, writes: nat): seq<Block>
    requires |chain| > 0
  {
    Appended(c, chain, Longest(answers, |answers|), 0, writes)
  }

  /** An announced block is appended if it follows the tip; otherwise the replica catches up. */
  function Received(c: Crypto, chain: seq<Block>, b: Block, answers: seq<Option<seq<Block>>>, writes: nat): seq<Block>
    requires |chain| > 0
  {
    if !Follows(c, chain[|chain| - 1], b) then CaughtUp(c, chain, answers, writes)
    else if writes == 0 then chain
    else chain + [b]
  }

  /** Appends stored blocks to a new chain; the blocks of a chain are all accepted. */
  method Rebuild(c: Crypto, blocks: seq<Block>, ghost kept: seq<Block>) returns (ok: bool, chain: Chain)
    requires IsChain(c, kept) && blocks == kept[1..]
    ensures ok && fresh(chain) && chain.blocks == kept
  {
    chain := new Chain();
    for i := 0 to |blocks|
      invariant fresh(chain) && IsChain(c, chain.blocks) && chain.blocks == kept[..i + 1]
    {
      assert Link(c, kept, i + 1);
      ok := chain.Append(c, blocks[i]);
      assert kept[..i + 1] + [kept[i + 1]] == kept[..i + 2];
      if !ok {
        return;
      }
    }
    assert kept[..|kept|] == kept;
    ok := true;
  }

  // ---------- the replica ----------

  class Replica {
    const crypto: Crypto
    const codec: Codec
    var chain: Chain
    var store: PebbleStore

    /** The chain in memory is a chain, and the store holds it without the genesis block. */
    ghost predicate Mirrored()
      reads this, chain, store
    {
      && IsChain(crypto, chain.blocks)
      && store.Valid() && Holds(codec, store.db, chain.blocks[1..])
    }

    /** The last write failed: the store lacks the last block. */
    ghost predicate OneAhead()
      reads this, chain, store
    {
      && IsChain(crypto, chain.blocks) && |chain.blocks| >= 2
      && store.Valid() && Holds(codec, store.db, chain.blocks[1..|chain.blocks| - 1])
    }

    constructor (crypto: Crypto, codec: Codec)
      ensures this.crypto == crypto && this.codec == codec
      ensures Mirrored() && chain.blocks == [GENESIS] && fresh(chain) && fresh(store)
    {
      this.crypto, this.codec := crypto, codec;
      chain := new Chain();
      store := new PebbleStore();
    }

    /** Rebuilds the chain from the store: nothing in it is rejected, and the chain is as it was, without its last block
        if that was not written. */
    method PreStart() returns (ok: bool)
      requires codec.Inverse() && (Mirrored() || OneAhead())
      modifies `chain
      ensures ok && fresh(chain) && store == old(store) && Mirrored()
      ensures old(Mirrored()) ==> chain.blocks == old(chain.blocks)
      ensures !old(Mirrored()) ==> chain.blocks == old(chain.blocks)[..|old(chain.blocks)| - 1]
    {
      ghost var full := chain.blocks;
      ghost var kept := if Mirrored() then full else full[..|full| - 1];
      assert kept[1..] == if Mirrored() then full[1..] else full[1..|full| - 1];
      ChainPrefix(crypto, full, |kept|);
      assert full[..|full|] == full;
      var blocks := store.Load(codec, kept[1..]);
      if blocks.None? {
        return false;
      }
      ok, chain := Rebuild(crypto, blocks.value, kept);
    }

    /** Appends one block and writes it. */
    method AppendAndWrite(b: Block, ok: bool) returns (followed: bool)
      requires Mirrored() && |chain.blocks| < INT64_LIMIT - 2
      modifies chain, store
      ensures followed <==> Follows(crypto, old(chain.blocks)[|old(chain.blocks)| - 1], b)
      ensures !followed ==> Mirrored() && chain.blocks == old(chain.blocks)
      ensures followed ==> chain.blocks == old(chain.blocks) + [b]
      ensures followed ==> if ok then Mirrored() else OneAhead() && !Mirrored()
    {
      ghost var before := chain.blocks;
      var last := chain.Last();
      IndexIsPlace(crypto, chain.blocks, |chain.blocks| - 1);
      followed := chain.Append(crypto, b);
      if followed {
        HoldsMore(codec, store.db, before[1..], b);
        assert chain.blocks[1..] == before[1..] + [b];
        assert chain.blocks[1..|chain.blocks| - 1] == before[1..];
        store.Append(codec, b, ok);
      }
    }

    /** Asks every peer for the blocks past the tip, and appends the longest answer; `writes` writes succeed. */
    method CatchUp(answers: seq<Option<seq<Block>>>, writes: nat)
      requires codec.Inverse() && Mirrored()
      requires |chain.blocks| + |Longest(answers, |answers|)| < INT64_LIMIT - 2
      modifies `chain, chain, store
      ensures Mirrored() && chain.blocks == CaughtUp(crypto, old(chain.blocks), answers, writes)
      ensures store == old(store) && (chain == old(chain) || fresh(chain))
    {
      var longest := [];
      for i := 0 to |answers|
        invariant longest == Longest(answers, i)
      {
        if answers[i].Some? {
          if |answers[i].value| > |longest| {
            longest := answers[i].value;
          }
        }
      }
      AppendAll(longest, writes);
    }

    method AppendAll(blocks: seq<Block>, writes: nat)
      requires codec.Inverse() && Mirrored() && |chain.blocks| + |blocks| < INT64_LIMIT - 2
      modifies `chain, chain, store
      ensures Mirrored() && chain.blocks == Appended(crypto, old(chain.blocks), blocks, 0, writes)
      ensures store == old(store) && (chain == old(chain) || fresh(chain))
    {
      var left := writes;
      var i := 0;
      while i < |blocks|
        invariant 0 <= i <= |blocks| && Mirrored() && chain == old(chain)
        invariant |chain.blocks| + |blocks| - i < INT64_LIMIT - 2
        invariant Appended(crypto, chain.blocks, blocks, i, left) ==
                  Appended(crypto, old(chain.blocks), blocks, 0, writes)
      {
        var more := AppendOne(blocks[i], left > 0);
        if !more {
          return;
        }
        left := left - 1;
        i := i + 1;
      }
    }

    /** Appends and writes one block; a failed write restarts the replica. */
    method AppendOne(b: Block, ok: bool) returns (more: bool)
      requires codec.Inverse() && Mirrored() && |chain.blocks| < INT64_LIMIT - 2
      modifies `chain, chain, store
      ensures Mirrored() && store == old(store)
      ensures more <==> ok && Follows(crypto, old(chain.blocks)[|old(chain.blocks)| - 1], b)
      ensures chain.blocks == if more then old(chain.blocks) + [b] else old(chain.blocks)
      ensures if more then chain == old(chain) else chain == old(chain) || fresh(chain)
    {
      ghost var before := chain.blocks;
      var followed := AppendAndWrite(b, ok);
      more := followed && ok;
      if followed && !ok {
        var restarted := PreStart();
        assert (before + [b])[..|before|] == before;
      }
    }

    /** A block announced on the topic. */
    method Append(b: Block, answers: seq<Option<seq<Block>>>, writes: nat)
      requires codec.Inverse() && Mirrored()
      requires |chain.blocks| + |Longest(answers, |answers|)| < INT64_LIMIT - 2
      modifies `chain, chain, store
      ensures Mirrored() && chain.blocks == Received(crypto, old(chain.blocks), b, answers, writes)
      ensures store == old(store) && (chain == old(chain) || fresh(chain))
    {
      ghost var before := chain.blocks;
      var followed := AppendAndWrite(b, writes > 0);
      if !followed {
        CatchUp(answers, writes);
      } else if writes == 0 {
        var restarted := PreStart();
        assert (before + [b])[..|before|] == before;
      }
    }

    /** The answer to a peer that asks for the blocks from an index on. */
    method GetBlocksFrom(index: int) returns (out: seq<Block>)
      requires Mirrored()
      ensures out == From(chain.blocks, index)
    {
      out := chain.Since(index);
      SinceIsSuffix(crypto, chain.blocks, index, |chain.blocks|);
      assert chain.blocks[..|chain.blocks|] == chain.blocks;
    }
  }
}
