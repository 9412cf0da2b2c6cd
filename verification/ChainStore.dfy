/** The chain of blocks: a plain slice, and a key-value store with a bounded cache in front that is proved
    to behave like it. */
module ChainStore {
  import opened Words
  import M = Merkle

  datatype Tx = Tx(hash: Bytes, body: Bytes)

  /** Times are in nanoseconds. */
  datatype Block = Block(version: Byte, height: U64, prevHash: Bytes, txsHash: Bytes, stateRoot: Bytes, time: int,
                         proposer: Bytes, signature: Bytes, nonce: U64, txs: seq<Tx>, consensusHash: Bytes)

  /** Outside calls are parameters: SHA-256, transaction verification and the block serializer here; the
      clock, the economics verdict, the success of a batch write and of transaction indexing with each
      operation. Heights stay below 2^64 because a run has fewer than 2^64 blocks. */
  datatype Env = Env(sha: M.HashFn, txOk: Tx -> bool, ser: Block -> Bytes, de: Bytes -> Option<Block>)

  /** The serializer is undone by the deserializer. */
  ghost predicate Sound(env: Env) {
    forall b :: env.de(env.ser(b)) == Some(b)
  }

  const HOUR := 3_600_000_000_000
  const ZERO_TIME: int := -62_135_596_800_000_000_000
  const CACHE_CAP := 1000

  // ---------------------------------------------------------------- blocks

  function SigningPayload(b: Block): Bytes {
    [b.version] + FixedBE(b.height, 8) + b.prevHash + b.txsHash + FixedBE(Wrap(b.time / 1_000_000_000), 8) + b.proposer
  }

  /** `Block.Hash`. */
  function Hash(env: Env, b: Block): Bytes {
    if b.consensusHash != [] then b.consensusHash else env.sha(env.sha(SigningPayload(b)))
  }

  function TxHashes(txs: seq<Tx>): seq<Bytes> {
    seq(|txs|, i requires 0 <= i < |txs| => txs[i].hash)
  }

  /** `ComputeTransactionsHash`. */
  function TransactionsHash(env: Env, txs: seq<Tx>): Bytes {
    if txs == [] then env.sha([]) else M.Root(env.sha, M.Hashes(env.sha, TxHashes(txs)))
  }

  /** `Block.Verify` at time `now`. */
  predicate Verifies(env: Env, b: Block, now: int) {
    && (b.prevHash == [] ==> b.height == 0)
    && now - b.time >= -HOUR
    && (b.height > 0 ==> |b.signature| == 64)
    && (forall i :: 0 <= i < |b.txs| ==> env.txOk(b.txs[i]))
    && TransactionsHash(env, b.txs) == b.txsHash
  }

  /** The block `AddBlockByHash` makes up: no transactions, no signature, a zero timestamp. */
  function Placeholder(env: Env, height: U64, prevHash: Bytes, hash: Bytes, proposer: Bytes): Block {
    Block(1, height, prevHash, env.sha([]), env.sha([]), ZERO_TIME, proposer, [], 0, [], hash)
  }

  // ---------------------------------------------------------------- the slice chain

  function Last(chain: seq<Block>): Block
    requires chain != []
  {
    chain[|chain| - 1]
  }

  predicate Extends(env: Env, chain: seq<Block>, height: U64, prevHash: Bytes)
    requires chain != []
  {
    height == Wrap(Last(chain).height + 1) && prevHash == Hash(env, Last(chain))
  }

  /** `Blockchain.AddBlock`: the new chain, unchanged when the block is refused. */
  function SliceAdd(env: Env, chain: seq<Block>, b: Block, now: int): seq<Block>
    requires chain != []
  {
    if Extends(env, chain, b.height, b.prevHash) && Verifies(env, b, now) then chain + [b] else chain
  }

  /** `Blockchain.AddBlockByHash`. */
  function SliceAddByHash(env: Env, chain: seq<Block>, height: U64, prevHash: Bytes, hash: Bytes, proposer: Bytes)
      : seq<Block>
    requires chain != []
  {
    if Extends(env, chain, height, prevHash) then chain + [Placeholder(env, height, prevHash, hash, proposer)]
    else chain
  }

  /** `Blockchain.GetBlock`. */
  function SliceGet(chain: seq<Block>, height: U64): Option<Block> {
    if height < |chain| then Some(chain[height]) else None
  }

  /** Every block stands at its height on its parent's hash. */
  ghost predicate Linked(env: Env, chain: seq<Block>) {
    && chain != []
    && (forall i :: 0 <= i < |chain| ==> chain[i].height == i)
    && (forall i :: 0 < i < |chain| ==> chain[i].prevHash == Hash(env, chain[i - 1]))
  }

  /** The height of the latest block with a given hash. */
  function LastWith(env: Env, chain: seq<Block>, hash: Bytes): (r: Option<nat>)
    ensures r.Some? ==> r.value < |chain| && Hash(env, chain[r.value]) == hash
    ensures r.None? ==> forall i :: 0 <= i < |chain| ==> Hash(env, chain[i]) != hash
  {
    if chain == [] then None
    else if Hash(env, Last(chain)) == hash then Some(|chain| - 1)
    else LastWith(env, chain[..|chain| - 1], hash)
  }

  // ---------------------------------------------------------------- the store

  type Db = map<Bytes, Bytes>

  function BlockKey(height: U64): Bytes {
    [0x01] + FixedBE(height, 8)
  }

  function HashKey(hash: Bytes): Bytes {
    [0x02] + hash
  }

  const HEIGHT_KEY: Bytes := [0x03, 0x00]
  const TIP_KEY: Bytes := [0x03, 0x01]

  /** Receipts and the transaction index share the store under keys of their own. */
  ghost predicate Foreign(entries: Db) {
    forall k :: k in entries ==> k != [] && k[0] >= 0x04
  }

  /** The four entries of one batch. */
  function Stored(db: Db, height: U64, data: Bytes, hash: Bytes): Db {
    db[BlockKey(height) := data][HashKey(hash) := FixedBE(height, 8)][HEIGHT_KEY := FixedBE(height, 8)][TIP_KEY := hash]
  }

  lemma KeysDiffer(h: U64, k: U64, x: Bytes, y: Bytes)
    ensures BlockKey(h) == BlockKey(k) <==> h == k
    ensures HashKey(x) == HashKey(y) <==> x == y
    ensures BlockKey(h) != HashKey(x) && BlockKey(h) != HEIGHT_KEY && BlockKey(h) != TIP_KEY
    ensures HashKey(x) != HEIGHT_KEY && HashKey(x) != TIP_KEY && HEIGHT_KEY != TIP_KEY
  {
    U64Bytes(h);
    U64Bytes(k);
    assert BlockKey(h)[1..] == FixedBE(h, 8) && BlockKey(k)[1..] == FixedBE(k, 8);
    assert HashKey(x)[1..] == x && HashKey(y)[1..] == y;
    assert BlockKey(h)[0] == 0x01 && HashKey(x)[0] == 0x02 && HEIGHT_KEY[0] == 0x03 && TIP_KEY[0] == 0x03;
    assert HEIGHT_KEY[1] != TIP_KEY[1];
  }

  ghost predicate BlockStored(env: Env, db: Db, chain: seq<Block>, h: U64) {
    && (BlockKey(h) in db <==> h < |chain|)
    && (h < |chain| ==> env.de(db[BlockKey(h)]) == Some(chain[h]))
  }

  ghost predicate HashIndexed(env: Env, db: Db, chain: seq<Block>, x: Bytes) {
    match LastWith(env, chain, x)
    case None => HashKey(x) !in db
    case Some(h) => HashKey(x) in db && h < TWO64 && db[HashKey(x)] == FixedBE(h, 8)
  }

  ghost predicate Headed(env: Env, db: Db, chain: seq<Block>)
    requires chain != []
  {
    && HEIGHT_KEY in db && db[HEIGHT_KEY] == FixedBE(|chain| - 1, 8)
    && TIP_KEY in db && db[TIP_KEY] == Hash(env, Last(chain))
  }

  /** The store holds exactly the chain. */
  ghost predicate Holds(env: Env, db: Db, chain: seq<Block>)
    requires chain != []
  {
    && (forall h: U64 :: BlockStored(env, db, chain, h))
    && (forall x: Bytes :: HashIndexed(env, db, chain, x))
    && Headed(env, db, chain)
  }

  /** One batch turns the store of a chain into the store of the longer chain. */
  lemma BatchExtends(env: Env, db: Db, chain: seq<Block>, b: Block)
    requires Sound(env) && chain != [] && |chain| < TWO64 && b.height == |chain| && Holds(env, db, chain)
    ensures Holds(env, Stored(db, b.height, env.ser(b), Hash(env, b)), chain + [b])
  {
    var db', longer := Stored(db, b.height, env.ser(b), Hash(env, b)), chain + [b];
    KeysDiffer(b.height, b.height, Hash(env, b), Hash(env, b));
    forall h: U64 ensures BlockStored(env, db', longer, h) {
      assert BlockStored(env, db, chain, h);
      KeysDiffer(h, b.height, Hash(env, b), Hash(env, b));
    }
    forall x: Bytes ensures HashIndexed(env, db', longer, x) {
      assert HashIndexed(env, db, chain, x);
      assert longer[..|longer| - 1] == chain;
      KeysDiffer(b.height, b.height, x, Hash(env, b));
    }
  }

  lemma ForeignEntriesKeep(env: Env, db: Db, chain: seq<Block>, entries: Db)
    requires chain != [] && Holds(env, db, chain) && Foreign(entries)
    ensures Holds(env, db + entries, chain)
  {
    forall h: U64 ensures BlockStored(env, db + entries, chain, h) {
      assert BlockStored(env, db, chain, h);
      assert BlockKey(h)[0] == 0x01;
    }
    forall x: Bytes ensures HashIndexed(env, db + entries, chain, x) {
      assert HashIndexed(env, db, chain, x);
      assert HashKey(x)[0] == 0x02;
    }
    assert HEIGHT_KEY[0] == 0x03 && TIP_KEY[0] == 0x03;
  }

  /** Genesis in a store that holds no block and no hash entry. */
  lemma GenesisHolds(env: Env, db: Db, b: Block)
    requires Sound(env) && b.height == 0 && Foreign(db)
    ensures Holds(env, Stored(db, 0, env.ser(b), Hash(env, b)), [b])
  {
    var db' := Stored(db, 0, env.ser(b), Hash(env, b));
    KeysDiffer(0, 0, Hash(env, b), Hash(env, b));
    forall h: U64 ensures BlockStored(env, db', [b], h) {
      KeysDiffer(h, 0, Hash(env, b), Hash(env, b));
      assert BlockKey(h)[0] == 0x01;
    }
    forall x: Bytes ensures HashIndexed(env, db', [b], x) {
      KeysDiffer(0, 0, x, Hash(env, b));
      assert HashKey(x)[0] == 0x02;
      assert [b][..0] == [];
    }
  }

  // ---------------------------------------------------------------- the cache

  datatype Cache = Cache(blocks: map<U64, Block>, order: seq<U64>)

  ghost predicate Distinct(order: seq<U64>) {
    forall i, j :: 0 <= i < j < |order| ==> order[i] != order[j]
  }

  /** The order lists the cached heights, each once, and never more than the capacity. */
  ghost predicate CacheValid(c: Cache) {
    Distinct(c.order) && (forall h :: h in c.order <==> h in c.blocks) && |c.order| <= CACHE_CAP
  }

  ghost predicate CacheAgrees(c: Cache, chain: seq<Block>) {
    forall h :: h in c.blocks ==> h < |chain| && c.blocks[h] == chain[h]
  }

  function Position(order: seq<U64>, h: U64): (i: Option<nat>)
    ensures i.Some? ==> i.value < |order| && order[i.value] == h
    ensures i.None? ==> h !in order
  {
    if order == [] then None
    else if order[0] == h then Some(0)
    else match Position(order[1..], h) case None => None case Some(i) => Some(i + 1)
  }

  /** `touchCache`: a listed height moves to the end. */
  function Touched(order: seq<U64>, h: U64): seq<U64> {
    match Position(order, h)
    case None => order
    case Some(i) => order[..i] + order[i + 1..] + [h]
  }

  /** `cacheBlock`. */
  function Cached(c: Cache, b: Block): Cache {
    if b.height in c.blocks then Cache(c.blocks[b.height := b], Touched(c.order, b.height))
    else
      var blocks, order := c.blocks[b.height := b], c.order + [b.height];
      if |order| > CACHE_CAP then Cache(blocks - {order[0]}, order[1..]) else Cache(blocks, order)
  }

  lemma TouchedKeeps(order: seq<U64>, h: U64)
    requires Distinct(order)
    ensures Distinct(Touched(order, h)) && |Touched(order, h)| == |order|
    ensures forall k :: k in Touched(order, h) <==> k in order
    ensures h in order ==> Touched(order, h)[|order| - 1] == h
  {
    if Position(order, h).Some? {
      var i := Position(order, h).value;
      var t := Touched(order, h);
      forall k ensures k in t <==> k in order {
        if k in order {
          var j :| 0 <= j < |order| && order[j] == k;
          assert t[if j < i then j else if j == i then |order| - 1 else j - 1] == k;
        }
      }
    }
  }

  lemma AppendedKeeps(order: seq<U64>, h: U64)
    requires Distinct(order) && h !in order
    ensures Distinct(order + [h]) && Distinct((order + [h])[1..])
    ensures forall k :: k in (order + [h])[1..] <==> (k in order || k == h) && k != (order + [h])[0]
  {
    var longer := order + [h];
    forall k ensures k in longer[1..] <==> k in longer && k != longer[0] {
      if k in longer && k != longer[0] {
        var j :| 0 <= j < |longer| && longer[j] == k;
        assert longer[1..][j - 1] == k;
      }
    }
  }

  lemma CachedKeepsValid(c: Cache, b: Block)
    requires CacheValid(c)
    ensures CacheValid(Cached(c, b))
  {
    hide Touched, Distinct;
    if b.height in c.blocks {
      TouchedKeeps(c.order, b.height);
    } else {
      AppendedKeeps(c.order, b.height);
    }
  }

  /** The cache holds a thousand blocks before the one that was used longest ago makes room. */
  lemma CacheEvictsWhenFull(c: Cache, b: Block)
    requires CacheValid(c) && b.height !in c.blocks
    ensures var q := Cached(c, b);
            && b.height in q.blocks && q.blocks[b.height] == b && q.order[|q.order| - 1] == b.height
            && forall h :: h in c.blocks ==>
                 && (h in q.blocks <==> |c.order| < 1000 || h != c.order[0])
                 && (h in q.blocks ==> q.blocks[h] == c.blocks[h])
  {
    assert c.order != [] ==> c.order[0] in c.order;
  }

  /** Caching keeps the cache in agreement with the chain. */
  lemma CachedKeepsAgreement(c: Cache, chain: seq<Block>, b: Block)
    requires CacheAgrees(c, chain) && b.height < |chain| && chain[b.height] == b
    ensures CacheAgrees(Cached(c, b), chain)
  {
    hide Touched;
  }

  // ---------------------------------------------------------------- the persistent chain

  datatype PChain = PChain(db: Db, height: U64, tipHash: Bytes, cache: Cache)

  /** What a call returns: a block is refused, or added, or added although indexing then failed. */
  datatype Verdict = Refused | Added | AddedNotIndexed

  /** What the world answers during a call. */
  datatype Answers = Answers(now: int, econOk: bool, writeOk: bool, indexOk: bool, indexed: Db)

  function Accept(env: Env, p: PChain, b: Block): PChain {
    PChain(Stored(p.db, b.height, env.ser(b), Hash(env, b)), b.height, Hash(env, b), Cached(p.cache, b))
  }

  /** `PersistentBlockchain.AddBlock`. */
  function Add(env: Env, p: PChain, b: Block, a: Answers): (PChain, Verdict) {
    if b.height != Wrap(p.height + 1) || b.prevHash != p.tipHash || !Verifies(env, b, a.now) then (p, Refused)
    else if !a.econOk || !a.writeOk then (p, Refused)
    else
      var q := Accept(env, p, b);
      (q.(db := q.db + a.indexed), if a.indexOk then Added else AddedNotIndexed)
  }

  /** `PersistentBlockchain.AddBlockByHash`. */
  function AddByHash(env: Env, p: PChain, height: U64, prevHash: Bytes, hash: Bytes, proposer: Bytes, a: Answers)
      : (PChain, Verdict)
  {
    if height == 0 || height != Wrap(p.height + 1) || prevHash != p.tipHash then (p, Refused)
    else if hash == [] || proposer == [] || !a.econOk || !a.writeOk then (p, Refused)
    else (Accept(env, p, Placeholder(env, height, prevHash, hash, proposer)), Added)
  }

  /** `PersistentBlockchain.GetBlock`. */
  function Get(env: Env, p: PChain, height: U64): (PChain, Option<Block>) {
    if height in p.cache.blocks then
      (p.(cache := p.cache.(order := Touched(p.cache.order, height))), Some(p.cache.blocks[height]))
    else if BlockKey(height) !in p.db then (p, None)
    else
      match env.de(p.db[BlockKey(height)])
      case None => (p, None)
      case Some(b) => (p.(cache := Cached(p.cache, b)), Some(b))
  }

  /** `PersistentBlockchain.GetBlockByHash`, after its hexadecimal argument is read. */
  function GetByHash(env: Env, p: PChain, hash: Bytes): (PChain, Option<Block>) {
    if HashKey(hash) !in p.db || |p.db[HashKey(hash)]| < 8 then (p, None)
    else Get(env, p, Wrap(FromBE(p.db[HashKey(hash)][..8])))
  }

  /** `NewPersistentBlockchain` over a store: load it, or write genesis into it. */
  function Open(env: Env, db: Db, genesis: Block, writeOk: bool): Option<PChain> {
    if HEIGHT_KEY !in db then
      if writeOk then
        Some(PChain(Stored(db, 0, env.ser(genesis), Hash(env, genesis)), 0, Hash(env, genesis), Cache(map[], [])))
      else None
    else if |db[HEIGHT_KEY]| < 8 || TIP_KEY !in db then None
    else Some(PChain(db, Wrap(FromBE(db[HEIGHT_KEY][..8])), db[TIP_KEY], Cache(map[], [])))
  }

  /** The persistent chain stands for the slice chain. */
  ghost predicate Refines(env: Env, p: PChain, chain: seq<Block>) {
    && Linked(env, chain) && |chain| <= TWO64
    && Holds(env, p.db, chain)
    && p.height == |chain| - 1 && p.tipHash == Hash(env, Last(chain))
    && CacheValid(p.cache) && CacheAgrees(p.cache, chain)
  }

  lemma AcceptRefines(env: Env, p: PChain, chain: seq<Block>, b: Block)
    requires Sound(env) && Refines(env, p, chain) && |chain| < TWO64
    requires b.height == |chain| && b.prevHash == p.tipHash
    ensures Refines(env, Accept(env, p, b), chain + [b])
  {
    hide Holds, Stored, Cached, CacheValid;
    BatchExtends(env, p.db, chain, b);
    CachedKeepsValid(p.cache, b);
    CachedKeepsAgreement(p.cache, chain + [b], b);
  }

  /** Adding a block: the same chain grows by the same block, or nothing changes. */
  lemma AddRefines(env: Env, p: PChain, chain: seq<Block>, b: Block, a: Answers)
    requires Sound(env) && Refines(env, p, chain) && |chain| < TWO64 && Foreign(a.indexed)
    ensures var (q, verdict) := Add(env, p, b, a);
            var longer := if a.econOk && a.writeOk then SliceAdd(env, chain, b, a.now) else chain;
            && Refines(env, q, longer)
            && (verdict == Refused <==> longer == chain)
            && (verdict == Refused ==> q == p)
  {
    hide Holds, Verifies, Cached, Stored, CacheValid, CacheAgrees;
    if Add(env, p, b, a).1 != Refused {
      AcceptRefines(env, p, chain, b);
      ForeignEntriesKeep(env, Accept(env, p, b).db, chain + [b], a.indexed);
    }
  }

  /** Adding by hash: with a hash and a proposer, as the slice chain. */
  lemma AddByHashRefines(env: Env, p: PChain, chain: seq<Block>, height: U64, prevHash: Bytes, hash: Bytes,
                         proposer: Bytes, a: Answers)
    requires Sound(env) && Refines(env, p, chain) && |chain| < TWO64
    ensures var (q, verdict) := AddByHash(env, p, height, prevHash, hash, proposer, a);
            var longer := if a.econOk && a.writeOk && hash != [] && proposer != []
                          then SliceAddByHash(env, chain, height, prevHash, hash, proposer) else chain;
            && Refines(env, q, longer)
            && (verdict == Refused <==> longer == chain)
            && (verdict == Refused ==> q == p)
  {
    hide Holds, Cached, Stored, CacheValid, CacheAgrees;
    if AddByHash(env, p, height, prevHash, hash, proposer, a).1 != Refused {
      AcceptRefines(env, p, chain, Placeholder(env, height, prevHash, hash, proposer));
    }
  }

  /** Reading a height: the slice chain's block, whether it came from the cache or from the store. */
  lemma GetRefines(env: Env, p: PChain, chain: seq<Block>, height: U64)
    requires Refines(env, p, chain)
    ensures Refines(env, Get(env, p, height).0, chain)
    ensures Get(env, p, height).1 == SliceGet(chain, height)
  {
    if height in p.cache.blocks {
      TouchedKeeps(p.cache.order, height);
    } else {
      assert BlockStored(env, p.db, chain, height);
      if height < |chain| {
        CachedKeepsValid(p.cache, chain[height]);
        CachedKeepsAgreement(p.cache, chain, chain[height]);
      }
    }
  }

  /** Reading a hash: the latest block of the chain with that hash. */
  lemma GetByHashRefines(env: Env, p: PChain, chain: seq<Block>, hash: Bytes)
    requires Refines(env, p, chain)
    ensures Refines(env, GetByHash(env, p, hash).0, chain)
    ensures GetByHash(env, p, hash).1
         == match LastWith(env, chain, hash) case None => None case Some(h) => Some(chain[h])
  {
    assert HashIndexed(env, p.db, chain, hash);
    match LastWith(env, chain, hash)
    case None =>
    case Some(h) =>
      EightBytes(h);
      GetRefines(env, p, chain, h);
  }

  lemma EightBytes(h: U64)
    ensures FixedBE(h, 8)[..8] == FixedBE(h, 8) && Wrap(FromBE(FixedBE(h, 8)[..8])) == h
  {
    U64Bytes(h);
  }

  /** Opening an empty store starts the chain at genesis. */
  lemma OpenStarts(env: Env, db: Db, genesis: Block)
    requires Sound(env) && Foreign(db) && genesis.height == 0
    ensures Open(env, db, genesis, true).Some?
    ensures Refines(env, Open(env, db, genesis, true).value, [genesis])
  {
    GenesisHolds(env, db, genesis);
  }

  /** Opening a chain's store again, whatever genesis is configured, brings back the same chain. */
  lemma OpenRestores(env: Env, db: Db, chain: seq<Block>, genesis: Block, writeOk: bool)
    requires Linked(env, chain) && |chain| <= TWO64 && Holds(env, db, chain)
    ensures Open(env, db, genesis, writeOk).Some?
    ensures Refines(env, Open(env, db, genesis, writeOk).value, chain)
  {
    EightBytes(|chain| - 1);
  }

  // ---------------------------------------------------------------- runs

  datatype Op = DoAdd(block: Block, answers: Answers)
              | DoAddByHash(height: U64, prevHash: Bytes, hash: Bytes, proposer: Bytes, answers: Answers)
              | DoGet(at: U64)
              | DoGetByHash(key: Bytes)
              | DoWrite(entries: Db)
              | DoReopen(genesis: Block)

  datatype Reply = Verdict(verdict: Verdict) | Found(block: Option<Block>) | Done

  ghost predicate Allowed(op: Op) {
    match op
    case DoAdd(b, a) => Foreign(a.indexed)
    case DoWrite(entries) => Foreign(entries)
    case _ => true
  }

  function Step(env: Env, p: PChain, op: Op): (PChain, Reply) {
    match op
    case DoAdd(b, a) => var r := Add(env, p, b, a); (r.0, Verdict(r.1))
    case DoAddByHash(h, prev, hash, who, a) => var r := AddByHash(env, p, h, prev, hash, who, a); (r.0, Verdict(r.1))
    case DoGet(h) => var r := Get(env, p, h); (r.0, Found(r.1))
    case DoGetByHash(x) => var r := GetByHash(env, p, x); (r.0, Found(r.1))
    case DoWrite(entries) => (p.(db := p.db + entries), Done)
    case DoReopen(genesis) =>
      match Open(env, p.db, genesis, true)
      case None => (p, Done)
      case Some(q) => (q, Done)
  }

  function Run(env: Env, p: PChain, ops: seq<Op>): (PChain, seq<Reply>) {
    if ops == [] then (p, [])
    else
      var before := Run(env, p, ops[..|ops| - 1]);
      var r := Step(env, before.0, ops[|ops| - 1]);
      (r.0, before.1 + [r.1])
  }

  /** The same operation on the slice chain. */
  function SliceStep(env: Env, chain: seq<Block>, op: Op): seq<Block>
    requires chain != []
  {
    match op
    case DoAdd(b, a) => if a.econOk && a.writeOk then SliceAdd(env, chain, b, a.now) else chain
    case DoAddByHash(h, prev, hash, who, a) =>
      if a.econOk && a.writeOk && hash != [] && who != [] then SliceAddByHash(env, chain, h, prev, hash, who) else chain
    case _ => chain
  }

  /** The reply a slice chain gives, up to the report of a failed index. */
  ghost predicate SameReply(env: Env, chain: seq<Block>, op: Op, reply: Reply)
    requires chain != []
  {
    match op
    case DoAdd(_, _) => reply.Verdict? && (reply.verdict == Refused <==> SliceStep(env, chain, op) == chain)
    case DoAddByHash(_, _, _, _, _) =>
      reply.Verdict? && reply.verdict == if SliceStep(env, chain, op) == chain then Refused else Added
    case DoGet(h) => reply == Found(SliceGet(chain, h))
    case DoGetByHash(x) =>
      reply == Found(match LastWith(env, chain, x) case None => None case Some(h) => Some(chain[h]))
    case _ => reply == Done
  }

  function SliceRun(env: Env, chain: seq<Block>, ops: seq<Op>): (r: seq<Block>)
    requires chain != []
    ensures |chain| <= |r| <= |chain| + |ops| && r[..|chain|] == chain
  {
    if ops == [] then chain else SliceStep(env, SliceRun(env, chain, ops[..|ops| - 1]), ops[|ops| - 1])
  }

  lemma StepRefines(env: Env, p: PChain, chain: seq<Block>, op: Op)
    requires Sound(env) && Allowed(op) && Refines(env, p, chain) && |chain| < TWO64
    ensures Refines(env, Step(env, p, op).0, SliceStep(env, chain, op))
    ensures SameReply(env, chain, op, Step(env, p, op).1)
  {
    hide Holds, CacheValid, CacheAgrees, Linked, Add, AddByHash, Get, GetByHash, SliceAdd, SliceAddByHash, LastWith;
    match op
    case DoAdd(b, a) => AddRefines(env, p, chain, b, a);
    case DoAddByHash(h, prev, hash, who, a) =>
      AddByHashRefines(env, p, chain, h, prev, hash, who, a);
      AddByHashReports(env, p, h, prev, hash, who, a);
    case DoGet(h) => GetRefines(env, p, chain, h);
    case DoGetByHash(x) => GetByHashRefines(env, p, chain, x);
    case DoWrite(entries) => ForeignEntriesKeep(env, p.db, chain, entries);
    case DoReopen(genesis) => OpenRestores(env, p.db, chain, genesis, true);
  }

  lemma AddByHashReports(env: Env, p: PChain, height: U64, prevHash: Bytes, hash: Bytes, proposer: Bytes, a: Answers)
    ensures AddByHash(env, p, height, prevHash, hash, proposer, a).1 != AddedNotIndexed
  {
  }

  /** Refinement over whole runs: whatever sequence of additions, reads, foreign writes and restarts,
      the persistent chain stands for the slice chain that took the same operations, and the last
      reply is the slice chain's. */
  lemma {:induction false} RunRefines(env: Env, p: PChain, chain: seq<Block>, ops: seq<Op>)
    requires Sound(env) && chain != [] && Refines(env, p, chain) && |chain| + |ops| <= TWO64
    requires forall i :: 0 <= i < |ops| ==> Allowed(ops[i])
    ensures Refines(env, Run(env, p, ops).0, SliceRun(env, chain, ops))
    ensures |Run(env, p, ops).1| == |ops|
    ensures forall i :: 0 <= i < |ops| ==> SameReply(env, SliceRun(env, chain, ops[..i]), ops[i], Run(env, p, ops).1[i])
  {
    hide Refines, Step, SliceStep, SameReply, Allowed;
    if ops != [] {
      var front, last := ops[..|ops| - 1], ops[|ops| - 1];
      RunRefines(env, p, chain, front);
      StepRefines(env, Run(env, p, front).0, SliceRun(env, chain, front), last);
      forall i | 0 <= i < |ops|
        ensures SameReply(env, SliceRun(env, chain, ops[..i]), ops[i], Run(env, p, ops).1[i]) {
        assert i < |front| ==> ops[..i] == front[..i] && ops[i] == front[i];
      }
    }
  }

  /** From an empty store on: every stored block stands on its parent, the cache stays within its
      capacity, and the heights readable are exactly those of the chain. */
  lemma {:induction false} RunFromGenesis(env: Env, db: Db, genesis: Block, ops: seq<Op>, h: U64)
    requires Sound(env) && Foreign(db) && genesis.height == 0 && |ops| < TWO64
    requires forall i :: 0 <= i < |ops| ==> Allowed(ops[i])
    ensures var p := Run(env, Open(env, db, genesis, true).value, ops).0;
            var chain := SliceRun(env, [genesis], ops);
            && Linked(env, chain) && p.height == |chain| - 1 && CacheValid(p.cache)
            && Get(env, p, h).1 == SliceGet(chain, h)
  {
    hide Holds, CacheAgrees, Get, SliceGet, Run, SliceRun;
    OpenStarts(env, db, genesis);
    var p := Open(env, db, genesis, true).value;
    RunRefines(env, p, [genesis], ops);
    GetRefines(env, Run(env, p, ops).0, SliceRun(env, [genesis], ops), h);
  }

  /** A block is added only at the chain's height plus one, and then that is the chain's height; a refused
      one changes nothing. An engine that is told of an error cannot tell `Refused` from `AddedNotIndexed`. */
  lemma AddsOnlyNextHeight(env: Env, p: PChain, b: Block, a: Answers)
    ensures Add(env, p, b, a).1 != Refused ==> b.height == Wrap(p.height + 1) && Add(env, p, b, a).0.height == b.height
    ensures Add(env, p, b, a).1 == Refused ==> Add(env, p, b, a).0 == p
  {
  }

  // ---------------------------------------------------------------- validation

  predicate Stands(env: Env, parent: Block, b: Block, now: int) {
    b.height == Wrap(parent.height + 1) && b.prevHash == Hash(env, parent) && Verifies(env, b, now)
  }

  /** `Blockchain.Validate`. */
  predicate Validates(env: Env, chain: seq<Block>, now: int) {
    forall i :: 0 < i < |chain| ==> Stands(env, chain[i - 1], chain[i], now)
  }

  /** A chain built by additions validates exactly when each block after genesis verifies. */
  lemma ValidatesIff(env: Env, chain: seq<Block>, now: int)
    requires Linked(env, chain) && |chain| <= TWO64
    ensures Validates(env, chain, now) <==> forall i :: 0 < i < |chain| ==> Verifies(env, chain[i], now)
  {
    hide Verifies, Hash;
    forall i | 0 < i < |chain| ensures Stands(env, chain[i - 1], chain[i], now) == Verifies(env, chain[i], now) {
      assert chain[i - 1].height == i - 1;
    }
    if Validates(env, chain, now) {
      forall i | 0 < i < |chain| ensures Verifies(env, chain[i], now) {
        assert Stands(env, chain[i - 1], chain[i], now);
      }
    }
  }

  /** A block added by hash carries no signature, so no chain that contains one ever validates. */
  lemma PlaceholdersNeverValidate(env: Env, chain: seq<Block>, i: nat, height: U64, prevHash: Bytes, hash: Bytes,
                                  proposer: Bytes, now: int)
    requires 0 < i < |chain| && height > 0 && chain[i] == Placeholder(env, height, prevHash, hash, proposer)
    ensures !Validates(env, chain, now)
  {
    assert !Stands(env, chain[i - 1], chain[i], now);
  }

  // ---------------------------------------------------------------- the objects

  /** The in-memory chain. */
  class Blockchain {
    const env: Env
    var blocks: seq<Block>

    constructor (env: Env, genesis: Block)
      ensures this.env == env && blocks == [genesis]
    {
      this.env := env;
      blocks := [genesis];
    }

    method AddBlock(b: Block, now: int) returns (ok: bool)
      requires blocks != []
      modifies this
      ensures blocks == SliceAdd(env, old(blocks), b, now)
      ensures ok <==> |blocks| > |old(blocks)|
    {
      var latest := blocks[|blocks| - 1];
      if b.height != Wrap(latest.height + 1) || b.prevHash != Hash(env, latest) {
        return false;
      }
      var valid := VerifyBlock(env, b, now);
      if !valid {
        return false;
      }
      blocks := blocks + [b];
      return true;
    }

    method AddBlockByHash(height: U64, prevHash: Bytes, blockHash: Bytes, proposer: Bytes) returns (ok: bool)
      requires blocks != []
      modifies this
      ensures blocks == SliceAddByHash(env, old(blocks), height, prevHash, blockHash, proposer)
      ensures ok <==> |blocks| > |old(blocks)|
    {
      var latest := blocks[|blocks| - 1];
      if height != Wrap(latest.height + 1) || prevHash != Hash(env, latest) {
        return false;
      }
      blocks := blocks + [Placeholder(env, height, prevHash, blockHash, proposer)];
      return true;
    }

    method GetBlock(height: U64) returns (b: Option<Block>)
      ensures b == SliceGet(blocks, height)
    {
      if height >= |blocks| {
        return None;
      }
      return Some(blocks[height]);
    }

    method Validate(now: int) returns (ok: bool)
      ensures ok == Validates(env, blocks, now)
    {
      hide Verifies, Hash;
      var i := 1;
      while i < |blocks|
        invariant 1 <= i
        invariant forall k :: 0 < k < i && k < |blocks| ==> Stands(env, blocks[k - 1], blocks[k], now)
      {
        var current, previous := blocks[i], blocks[i - 1];
        var valid := VerifyBlock(env, current, now);
        if current.height != Wrap(previous.height + 1) || current.prevHash != Hash(env, previous) || !valid {
          return false;
        }
        i := i + 1;
      }
      return true;
    }
  }

  /** `Block.Verify`. */
  method VerifyBlock(env: Env, b: Block, now: int) returns (ok: bool)
    ensures ok == Verifies(env, b, now)
  {
    if |b.prevHash| == 0 && b.height > 0 {
      return false;
    }
    if now - b.time < -HOUR {
      return false;
    }
    if b.height > 0 && |b.signature| != 64 {
      return false;
    }
    for i := 0 to |b.txs|
      invariant forall k :: 0 <= k < i ==> env.txOk(b.txs[k])
    {
      if !env.txOk(b.txs[i]) {
        return false;
      }
    }
    ok := TransactionsHash(env, b.txs) == b.txsHash;
  }

  /** `bytesToUint64`. */
  method BytesToUint64(b: Bytes) returns (n: Option<U64>)
    ensures n == if |b| < 8 then None else Some(Wrap(FromBE(b[..8])))
  {
    if |b| < 8 {
      return None;
    }
    var x: U64 := 0;
    for i := 0 to 8
      invariant x == Wrap(FromBE(b[..i]))
    {
      assert b[..i + 1][..i] == b[..i];
      WrapShifts(FromBE(b[..i]), b[i]);
      x := Wrap(x * 256 + b[i]);
    }
    return Some(x);
  }

  /** The chain over a key-value store. */
  class PersistentBlockchain {
    const env: Env
    var db: Db
    var height: U64
    var tipHash: Bytes
    var cache: map<U64, Block>
    var cacheOrder: seq<U64>

    constructor (env: Env, db: Db)
      ensures this.env == env && State() == PChain(db, 0, [], Cache(map[], []))
    {
      this.env, this.db := env, db;
      height, tipHash, cache, cacheOrder := 0, [], map[], [];
    }

    ghost function State(): PChain
      reads this
    {
      PChain(db, height, tipHash, Cache(cache, cacheOrder))
    }

    /** `NewPersistentBlockchain` on a fresh object. */
    method Start(genesis: Block, writeOk: bool) returns (ok: bool)
      requires State() == PChain(db, 0, [], Cache(map[], []))
      modifies this
      ensures ok == Open(env, old(db), genesis, writeOk).Some?
      ensures ok ==> State() == Open(env, old(db), genesis, writeOk).value
    {
      if HEIGHT_KEY !in db {
        ok := InitializeGenesis(genesis, writeOk);
        return;
      }
      var stored := BytesToUint64(db[HEIGHT_KEY]);
      if stored.None? {
        return false;
      }
      height := stored.value;
      if TIP_KEY !in db {
        return false;
      }
      tipHash := db[TIP_KEY];
      return true;
    }

    method InitializeGenesis(genesis: Block, writeOk: bool) returns (ok: bool)
      modifies this
      ensures ok == writeOk && cache == old(cache) && cacheOrder == old(cacheOrder)
      ensures if ok then db == Stored(old(db), 0, env.ser(genesis), Hash(env, genesis)) && height == 0
                         && tipHash == Hash(env, genesis)
              else State() == old(State())
    {
      if !writeOk {
        return false;
      }
      var genesisHash := Hash(env, genesis);
      db := Stored(db, 0, env.ser(genesis), genesisHash);
      height, tipHash := 0, genesisHash;
      return true;
    }

    method TouchCache(at: U64)
      modifies this`cacheOrder
      ensures cacheOrder == Touched(old(cacheOrder), at)
    {
      var idx := 0;
      while idx < |cacheOrder| && cacheOrder[idx] != at
        invariant 0 <= idx <= |cacheOrder| && forall k :: 0 <= k < idx ==> cacheOrder[k] != at
      {
        idx := idx + 1;
      }
      PositionIs(cacheOrder, at, idx);
      if idx == |cacheOrder| || idx == |cacheOrder| - 1 {
        assert idx == |cacheOrder| - 1 ==> cacheOrder == cacheOrder[..idx] + cacheOrder[idx + 1..] + [at];
        return;
      }
      cacheOrder := cacheOrder[..idx] + cacheOrder[idx + 1..];
      cacheOrder := cacheOrder + [at];
    }

    method CacheBlock(b: Block)
      modifies this`cache, this`cacheOrder
      ensures Cache(cache, cacheOrder) == Cached(Cache(old(cache), old(cacheOrder)), b)
    {
      if b.height in cache {
        cache := cache[b.height := b];
        TouchCache(b.height);
        return;
      }
      cache := cache[b.height := b];
      cacheOrder := cacheOrder + [b.height];
      if |cacheOrder| > CACHE_CAP {
        var evict := cacheOrder[0];
        cacheOrder := cacheOrder[1..];
        cache := cache - {evict};
      }
    }

    method AddBlock(b: Block, a: Answers) returns (verdict: Verdict)
      modifies this
      ensures (State(), verdict) == Add(env, old(State()), b, a)
    {
      hide Verifies, Hash, Stored, Cached;
      if b.height != Wrap(height + 1) || b.prevHash != tipHash {
        return Refused;
      }
      var valid := VerifyBlock(env, b, a.now);
      if !valid || !a.econOk || !a.writeOk {
        return Refused;
      }
      var blockHash := Hash(env, b);
      db := Stored(db, b.height, env.ser(b), blockHash);
      height, tipHash := b.height, blockHash;
      CacheBlock(b);
      db := db + a.indexed;
      return if a.indexOk then Added else AddedNotIndexed;
    }

    method AddBlockByHash(at: U64, prevHash: Bytes, blockHash: Bytes, proposer: Bytes, a: Answers)
      returns (verdict: Verdict)
      modifies this
      ensures (State(), verdict) == AddByHash(env, old(State()), at, prevHash, blockHash, proposer, a)
    {
      hide Stored, Cached;
      if at == 0 || at != Wrap(height + 1) || prevHash != tipHash || |blockHash| == 0 || |proposer| == 0 {
        return Refused;
      }
      var b := Placeholder(env, at, prevHash, blockHash, proposer);
      if !a.econOk || !a.writeOk {
        return Refused;
      }
      db := Stored(db, at, env.ser(b), blockHash);
      height, tipHash := at, blockHash;
      CacheBlock(b);
      return Added;
    }

    method GetBlock(at: U64) returns (b: Option<Block>)
      modifies this
      ensures (State(), b) == Get(env, old(State()), at)
    {
      hide Touched, Cached;
      if at in cache {
        b := Some(cache[at]);
        TouchCache(at);
        return;
      }
      if BlockKey(at) !in db {
        return None;
      }
      b := env.de(db[BlockKey(at)]);
      if b.Some? {
        CacheBlock(b.value);
      }
    }

    method GetBlockByHash(hash: Bytes) returns (b: Option<Block>)
      modifies this
      ensures (State(), b) == GetByHash(env, old(State()), hash)
    {
      if HashKey(hash) !in db {
        return None;
      }
      var at := BytesToUint64(db[HashKey(hash)]);
      if at.None? {
        return None;
      }
      b := GetBlock(at.value);
    }
  }

  lemma {:induction false} PositionIs(order: seq<U64>, h: U64, idx: nat)
    requires idx <= |order| && (forall k :: 0 <= k < idx ==> order[k] != h) && (idx < |order| ==> order[idx] == h)
    ensures Position(order, h) == if idx < |order| then Some(idx) else None
  {
    if idx > 0 {
      PositionIs(order[1..], h, idx - 1);
    }
  }
}
