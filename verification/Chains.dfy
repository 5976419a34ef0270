/** Blocks, chains and their stores (goakt-blockchain/chain/chain.go, persistence/pebble.go). */
module Chains {
  import opened Wrappers

  datatype Transaction = Transaction(sender: string, recipient: string, value: int)

  datatype Block = Block(index: int, hash: string, previousHash: string, proof: int, transactions: seq<Transaction>,
                         timestamp: int)

  const GENESIS := Block(0, "1", "", 100, [], 0)

  /** The digest of an encoded block and the test of a proof, about which nothing is known. */
  datatype Crypto = Crypto(digest: Block -> string, proves: (string, int) -> bool) {

    /** The hash of a block covers everything but the hash itself. */
    function BlockHash(b: Block): string {
      digest(b.(hash := ""))
    }
  }

  /** The block that follows another. */
  function NextBlock(c: Crypto, previous: Block, txs: seq<Transaction>, proof: int, time: int): Block {
    var b := Block(previous.index + 1, "", previous.hash, proof, txs, time);
    b.(hash := c.BlockHash(b))
  }

  /** What a chain demands of a block before it appends it. */
  predicate Follows(c: Crypto, last: Block, b: Block) {
    && b.index == last.index + 1
    && b.previousHash == last.hash
    && c.proves(last.hash, b.proof)
    && c.BlockHash(b) == b.hash
  }

  /** A block built on another is accepted after it, exactly when its proof is valid. */
  lemma NextBlockFollows(c: Crypto, last: Block, txs: seq<Transaction>, proof: int, time: int)
    ensures Follows(c, last, NextBlock(c, last, txs, proof, time)) <==> c.proves(last.hash, proof)
  {
    var b := Block(last.index + 1, "", last.hash, proof, txs, time);
    assert NextBlock(c, last, txs, proof, time).(hash := "") == b;
  }

  /** The genesis block, then blocks that each follow the one before. */
  ghost predicate IsChain(c: Crypto, blocks: seq<Block>) {
    && |blocks| > 0 && blocks[0] == GENESIS
    && forall i {:trigger Link(c, blocks, i)} :: 0 < i < |blocks| ==> Link(c, blocks, i)
  }

  predicate Link(c: Crypto, blocks: seq<Block>, i: int)
    requires 0 < i < |blocks|
  {
    Follows(c, blocks[i - 1], blocks[i])
  }

  lemma {:induction false} IndexIsPlace(c: Crypto, blocks: seq<Block>, i: nat)
    requires IsChain(c, blocks) && i < |blocks|
    ensures blocks[i].index == i
    decreases i
  {
    if i > 0 {
      IndexIsPlace(c, blocks, i - 1);
      assert Link(c, blocks, i);
    }
  }

  /** No two blocks have the same digest, and none has the hash of the genesis block. */
  ghost predicate NoCollisions(c: Crypto) {
    (forall a, b :: c.digest(a) == c.digest(b) ==> a == b) && forall b :: c.digest(b) != GENESIS.hash
  }

  /** A hash fixes its block. */
  lemma HashFixesBlock(c: Crypto, a: seq<Block>, b: seq<Block>, i: nat, j: nat)
    requires NoCollisions(c) && IsChain(c, a) && IsChain(c, b) && i < |a| && j < |b| && a[i].hash == b[j].hash
    ensures a[i] == b[j] && i == j
  {
    IndexIsPlace(c, a, i);
    IndexIsPlace(c, b, j);
    if i > 0 {
      assert Link(c, a, i);
    }
    if j > 0 {
      assert Link(c, b, j);
    }
    if i > 0 && j > 0 {
      assert a[i] == a[i].(hash := "").(hash := a[i].hash) && b[j] == b[j].(hash := "").(hash := b[j].hash);
    }
  }

  /** Unless hashes collide, the hash of a block fixes every block before it: nothing in a chain can be changed without
      changing the hash of its tip. */
  lemma {:induction false} HashFixesChain(c: Crypto, a: seq<Block>, b: seq<Block>, i: nat, j: nat)
    requires NoCollisions(c) && IsChain(c, a) && IsChain(c, b) && i < |a| && j < |b| && a[i].hash == b[j].hash
    ensures i == j && a[..i + 1] == b[..j + 1]
    decreases i
  {
    HashFixesBlock(c, a, b, i, j);
    if i > 0 {
      assert Link(c, a, i) && Link(c, b, i);
      HashFixesChain(c, a, b, i - 1, i - 1);
      assert a[..i + 1] == a[..i] + [a[i]] && b[..i + 1] == b[..i] + [b[i]];
    }
  }

  lemma ChainGrows(c: Crypto, blocks: seq<Block>, b: Block)
    requires IsChain(c, blocks) && Follows(c, blocks[|blocks| - 1], b)
    ensures IsChain(c, blocks + [b])
  {
    var more := blocks + [b];
    forall i | 0 < i < |more|
      ensures Link(c, more, i)
    {
      assert i < |blocks| ==> Link(c, blocks, i);
    }
  }

  lemma ChainPrefix(c: Crypto, blocks: seq<Block>, n: nat)
    requires IsChain(c, blocks) && 0 < n <= |blocks|
    ensures IsChain(c, blocks[..n])
  {
    var less := blocks[..n];
    forall i | 0 < i < |less|
      ensures Link(c, less, i)
    {
      assert Link(c, blocks, i);
    }
  }

  /** The blocks whose index is at least `index`, among the first `n`. */
  function SinceTo(blocks: seq<Block>, index: int, n: nat): (out: seq<Block>)
    requires n <= |blocks|
  {
    if n == 0 then []
    else SinceTo(blocks, index, n - 1) + (if blocks[n - 1].index >= index then [blocks[n - 1]] else [])
  }

  /** The blocks from place `index` on: all of them for a negative one, none past the end. */
  function From(blocks: seq<Block>, index: int): seq<Block> {
    if index < 0 then blocks else if index <= |blocks| then blocks[index..] else []
  }

  lemma FromMore(blocks: seq<Block>, index: int, n: nat)
    requires n < |blocks|
    ensures From(blocks[..n + 1], index) == From(blocks[..n], index) + (if n >= index then [blocks[n]] else [])
  {
    assert blocks[..n + 1] == blocks[..n] + [blocks[n]];
  }

  /** On a chain the blocks from an index on are a suffix. */
  lemma {:induction false} SinceIsSuffix(c: Crypto, blocks: seq<Block>, index: int, n: nat)
    requires IsChain(c, blocks) && n <= |blocks|
    ensures SinceTo(blocks, index, n) == From(blocks[..n], index)
    decreases n
  {
    if n > 0 {
      SinceIsSuffix(c, blocks, index, n - 1);
      IndexIsPlace(c, blocks, n - 1);
      FromMore(blocks, index, n - 1);
    }
  }

  class Chain {
    var blocks: seq<Block>

    constructor ()
      ensures blocks == [GENESIS]
    {
      blocks := [GENESIS];
    }

    function Last(): Block
      requires |blocks| > 0
      reads this
    {
      blocks[|blocks| - 1]
    }

    /** Most recent block first. */
    method Blocks() returns (out: seq<Block>)
      ensures |out| == |blocks| && forall i :: 0 <= i < |blocks| ==> out[|blocks| - 1 - i] == blocks[i]
    {
      out := [];
      for i := 0 to |blocks|
        invariant |out| == i && forall k :: 0 <= k < i ==> out[i - 1 - k] == blocks[k]
      {
        out := [blocks[i]] + out;
      }
    }

    method Since(index: int) returns (out: seq<Block>)
      ensures out == SinceTo(blocks, index, |blocks|)
    {
      out := [];
      for i := 0 to |blocks|
        invariant out == SinceTo(blocks, index, i)
      {
        if blocks[i].index >= index {
          out := out + [blocks[i]];
        }
      }
    }

    /** Appends a block exactly when it follows the tip, and keeps the chain a chain. */
    method Append(c: Crypto, b: Block) returns (ok: bool)
      requires IsChain(c, blocks)
      modifies this
      ensures var last := old(blocks)[|old(blocks)| - 1];
              ok <==> && b.index == last.index + 1 && b.previousHash == last.hash
                      && c.proves(last.hash, b.proof) && b.hash == c.digest(b.(hash := ""))
      ensures blocks == if ok then old(blocks) + [b] else old(blocks)
      ensures IsChain(c, blocks)
    {
      var last := Last();
      if b.index != last.index + 1 {
        return false;
      }
      if b.previousHash != last.hash {
        return false;
      }
      if !c.proves(last.hash, b.proof) {
        return false;
      }
      if c.BlockHash(b) != b.hash {
        return false;
      }
      ChainGrows(c, blocks, b);
      blocks := blocks + [b];
      return true;
    }
  }

  // ---------- the store ----------

  type Byte = x: int | 0 <= x < 256

  type Key = seq<Byte>

  const INT64_LIMIT := 0x8000_0000_0000_0000
  const UINT64_LIMIT := 0x1_0000_0000_0000_0000

  /** The low `width` bytes of a number, most significant first. */
  function BigEndian(n: nat, width: nat): (key: Key)
    ensures |key| == width
  {
    if width == 0 then [] else BigEndian(n / 256, width - 1) + [n % 256]
  }

  function ToUint64(index: int): nat
    requires -INT64_LIMIT <= index < INT64_LIMIT
  {
    if index < 0 then index + UINT64_LIMIT else index
  }

  function BlockKey(index: int): Key
    requires -INT64_LIMIT <= index < INT64_LIMIT
  {
    BigEndian(ToUint64(index), 8)
  }

  /** The order in which a key-value store goes through its keys. */
  predicate Less(a: Key, b: Key)
    decreases |b|
  {
    b != [] && (a == [] || a[0] < b[0] || (a[0] == b[0] && Less(a[1..], b[1..])))
  }

  function Power(width: nat): nat {
    if width == 0 then 1 else 256 * Power(width - 1)
  }

  lemma {:induction false} LessAtEnd(a: Key, b: Key, x: Byte, y: Byte)
    requires |a| == |b|
    ensures Less(a + [x], b + [y]) <==> Less(a, b) || (a == b && x < y)
    decreases |a|
  {
    if a == [] {
      assert a + [x] == [x] && b + [y] == [y];
      assert [x][1..] == [] && [y][1..] == [];
    } else {
      assert (a + [x])[1..] == a[1..] + [x] && (b + [y])[1..] == b[1..] + [y];
      LessAtEnd(a[1..], b[1..], x, y);
      assert a == [a[0]] + a[1..] && b == [b[0]] + b[1..];
    }
  }

  lemma {:induction false} EqualKeys(m: nat, n: nat, width: nat)
    requires m < Power(width) && n < Power(width)
    ensures BigEndian(m, width) == BigEndian(n, width) <==> m == n
    decreases width
  {
    if width > 0 && BigEndian(m, width) == BigEndian(n, width) {
      var a, b := BigEndian(m / 256, width - 1), BigEndian(n / 256, width - 1);
      assert (a + [m % 256])[..width - 1] == a && (b + [n % 256])[..width - 1] == b;
      assert (a + [m % 256])[width - 1] == m % 256 && (b + [n % 256])[width - 1] == n % 256;
      EqualKeys(m / 256, n / 256, width - 1);
    }
  }

  lemma {:induction false} BigEndianOrder(m: nat, n: nat, width: nat)
    requires m < Power(width) && n < Power(width)
    ensures Less(BigEndian(m, width), BigEndian(n, width)) <==> m < n
    decreases width
  {
    if width > 0 {
      BigEndianOrder(m / 256, n / 256, width - 1);
      EqualKeys(m / 256, n / 256, width - 1);
      LessAtEnd(BigEndian(m / 256, width - 1), BigEndian(n / 256, width - 1), m % 256, n % 256);
    }
  }

  lemma EightBytes()
    ensures Power(8) == UINT64_LIMIT
  {
    assert Power(2) == 0x1_0000;
    assert Power(4) == 0x1_0000_0000;
    assert Power(6) == 0x1_0000_0000_0000;
  }

  /** Keys sort like indexes, except that every negative index sorts after every other. */
  lemma KeyOrder(i: int, j: int)
    requires -INT64_LIMIT <= i < INT64_LIMIT && -INT64_LIMIT <= j < INT64_LIMIT
    ensures Less(BlockKey(i), BlockKey(j)) <==> (if (i < 0) == (j < 0) then i < j else j < 0)
  {
    EightBytes();
    BigEndianOrder(ToUint64(i), ToUint64(j), 8);
  }

  /** How blocks are written; what was written can be read back. */
  datatype Codec = Codec(encode: Block -> string, decode: string -> Option<Block>) {
    ghost predicate Inverse() {
      forall b :: decode(encode(b)) == Some(b)
    }
  }

  datatype Entry = Entry(key: Key, value: string)

  /** The keys are in strictly increasing order. */
  ghost predicate Sorted(db: seq<Entry>) {
    forall i, j {:trigger InOrder(db, i, j)} :: 0 <= i < j < |db| ==> InOrder(db, i, j)
  }

  ghost predicate InOrder(db: seq<Entry>, i: int, j: int)
    requires 0 <= i < j < |db|
  {
    Less(db[i].key, db[j].key)
  }

  lemma {:induction false} LessTransitive(a: Key, b: Key, d: Key)
    requires Less(a, b) && Less(b, d)
    ensures Less(a, d)
    decreases |a|
  {
    if a != [] && a[0] == b[0] == d[0] {
      LessTransitive(a[1..], b[1..], d[1..]);
    }
  }

  lemma {:induction false} LessTotal(a: Key, b: Key)
    ensures a == b || Less(a, b) || Less(b, a)
    decreases |a|
  {
    if a != [] && b != [] && a[0] == b[0] {
      LessTotal(a[1..], b[1..]);
      assert a == [a[0]] + a[1..] && b == [b[0]] + b[1..];
    }
  }

  /** Writing a key into a store that is kept in order. */
  function Set(db: seq<Entry>, key: Key, value: string): seq<Entry> {
    if db == [] || Less(db[|db| - 1].key, key) then db + [Entry(key, value)]
    else if db[|db| - 1].key == key then db[..|db| - 1] + [Entry(key, value)]
    else Set(db[..|db| - 1], key, value) + [db[|db| - 1]]
  }

  /** Everything in the store stays below a bound that the new key is below. */
  lemma {:induction false} SetBelow(db: seq<Entry>, key: Key, value: string, bound: Key)
    requires Less(key, bound) && forall i :: 0 <= i < |db| ==> Less(db[i].key, bound)
    ensures forall i :: 0 <= i < |Set(db, key, value)| ==> Less(Set(db, key, value)[i].key, bound)
    decreases |db|
  {
    if db != [] && !Less(db[|db| - 1].key, key) && db[|db| - 1].key != key {
      SetBelow(db[..|db| - 1], key, value, bound);
    }
  }

  lemma SortedMore(db: seq<Entry>, e: Entry)
    requires Sorted(db) && forall i :: 0 <= i < |db| ==> Less(db[i].key, e.key)
    ensures Sorted(db + [e])
  {
    var more := db + [e];
    forall i, j | 0 <= i < j < |more|
      ensures InOrder(more, i, j)
    {
      assert j < |db| ==> InOrder(db, i, j);
    }
  }

  lemma SortedInit(db: seq<Entry>)
    requires Sorted(db) && db != []
    ensures Sorted(db[..|db| - 1])
    ensures forall i :: 0 <= i < |db| - 1 ==> Less(db[i].key, db[|db| - 1].key)
  {
    var init := db[..|db| - 1];
    forall i, j | 0 <= i < j < |init|
      ensures InOrder(init, i, j)
    {
      assert InOrder(db, i, j);
    }
    forall i | 0 <= i < |db| - 1
      ensures Less(db[i].key, db[|db| - 1].key)
    {
      assert InOrder(db, i, |db| - 1);
    }
  }

  /** A write keeps the keys in order. */
  lemma {:induction false} SetKeepsSorted(db: seq<Entry>, key: Key, value: string)
    requires Sorted(db)
    ensures Sorted(Set(db, key, value))
    decreases |db|
  {
    if db != [] {
      var init, last := db[..|db| - 1], db[|db| - 1];
      SortedInit(db);
      if Less(last.key, key) {
        forall i | 0 <= i < |db|
          ensures Less(db[i].key, key)
        {
          if i < |db| - 1 {
            LessTransitive(db[i].key, last.key, key);
          }
        }
        SortedMore(db, Entry(key, value));
      } else if last.key == key {
        SortedMore(init, Entry(key, value));
      } else {
        LessTotal(last.key, key);
        SetKeepsSorted(init, key, value);
        SetBelow(init, key, value, last.key);
        SortedMore(Set(init, key, value), last);
      }
    }
  }

  /** The store holds exactly these blocks, under the keys of their indexes 1, 2, ... */
  ghost predicate Holds(codec: Codec, db: seq<Entry>, blocks: seq<Block>) {
    && |db| == |blocks| < INT64_LIMIT - 1
    && forall i {:trigger HeldAt(codec, db, blocks, i)} :: 0 <= i < |blocks| ==> HeldAt(codec, db, blocks, i)
  }

  ghost predicate HeldAt(codec: Codec, db: seq<Entry>, blocks: seq<Block>, i: int)
    requires 0 <= i < |db| == |blocks| < INT64_LIMIT - 1
  {
    blocks[i].index == i + 1 && db[i] == Entry(BlockKey(i + 1), codec.encode(blocks[i]))
  }

  /** The next block goes to the end. */
  lemma HoldsMore(codec: Codec, db: seq<Entry>, blocks: seq<Block>, b: Block)
    requires Holds(codec, db, blocks) && b.index == |blocks| + 1 < INT64_LIMIT - 1
    ensures Holds(codec, Set(db, BlockKey(b.index), codec.encode(b)), blocks + [b])
  {
    var db2, more := Set(db, BlockKey(b.index), codec.encode(b)), blocks + [b];
    if db != [] {
      assert HeldAt(codec, db, blocks, |db| - 1);
      KeyOrder(|db|, b.index);
    }
    assert db2 == db + [Entry(BlockKey(b.index), codec.encode(b))];
    forall i | 0 <= i < |more|
      ensures HeldAt(codec, db2, more, i)
    {
      assert i < |blocks| ==> HeldAt(codec, db, blocks, i);
    }
  }

  /** A store that holds the blocks of a chain is in order: its keys are those of increasing indexes. */
  lemma HoldsSorted(codec: Codec, db: seq<Entry>, blocks: seq<Block>)
    requires Holds(codec, db, blocks)
    ensures Sorted(db)
  {
    forall i, j | 0 <= i < j < |db|
      ensures InOrder(db, i, j)
    {
      assert HeldAt(codec, db, blocks, i) && HeldAt(codec, db, blocks, j);
      KeyOrder(i + 1, j + 1);
    }
  }

  /** An ordered store: whatever is written, its entries stay in the order of their keys. */
  class PebbleStore {
    var db: seq<Entry>

    ghost predicate Valid()
      reads this
    {
      Sorted(db)
    }

    constructor ()
      ensures Valid() && db == []
    {
      db := [];
    }

    /** `ok` tells whether the write succeeds. */
    method Append(codec: Codec, b: Block, ok: bool)
      requires Valid() && -INT64_LIMIT <= b.index < INT64_LIMIT
      modifies this
      ensures Valid() && db == if ok then Set(old(db), BlockKey(b.index), codec.encode(b)) else old(db)
    {
      if ok {
        SetKeepsSorted(db, BlockKey(b.index), codec.encode(b));
        db := Set(db, BlockKey(b.index), codec.encode(b));
      }
    }

    /** Reads the values in the order of their keys; a value that cannot be read is an error. */
    method Load(codec: Codec, ghost blocks: seq<Block>) returns (r: Option<seq<Block>>)
      requires Valid()
      ensures r.Some? <==> forall i :: 0 <= i < |db| ==> codec.decode(db[i].value).Some?
      ensures r.Some? ==> |r.value| == |db|
      ensures r.Some? ==> forall i :: 0 <= i < |db| ==> codec.decode(db[i].value) == Some(r.value[i])
      ensures codec.Inverse() && Holds(codec, db, blocks) ==> r == Some(blocks)
    {
      var out := [];
      for i := 0 to |db|
        invariant |out| == i && forall k :: 0 <= k < i ==> codec.decode(db[k].value) == Some(out[k])
      {
        var b := codec.decode(db[i].value);
        if b.None? {
          DecodesAll(codec, db, blocks, i);
          return None;
        }
        out := out + [b.value];
      }
      SameBlocks(codec, db, blocks, out);
      return Some(out);
    }
  }

  lemma DecodesAll(codec: Codec, db: seq<Entry>, blocks: seq<Block>, i: nat)
    requires i < |db|
    ensures codec.Inverse() && Holds(codec, db, blocks) ==> codec.decode(db[i].value).Some?
  {
    if codec.Inverse() && Holds(codec, db, blocks) {
      assert HeldAt(codec, db, blocks, i);
    }
  }

  lemma SameBlocks(codec: Codec, db: seq<Entry>, blocks: seq<Block>, out: seq<Block>)
    requires |out| == |db| && forall k :: 0 <= k < |db| ==> codec.decode(db[k].value) == Some(out[k])
    ensures codec.Inverse() && Holds(codec, db, blocks) ==> out == blocks
  {
    if codec.Inverse() && Holds(codec, db, blocks) {
      forall k | 0 <= k < |db|
        ensures out[k] == blocks[k]
      {
        assert HeldAt(codec, db, blocks, k);
      }
    }
  }
}
