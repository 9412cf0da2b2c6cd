/** What the blocks of a chain carry: every stored block was well made when it was added, and its hash binds it. */
module BlockContents {
  import opened Words
  import opened ChainStore
  import M = Merkle

  // ---------------------------------------------------------------- well-made blocks

  /** The hashes of the transactions' own hashes. */
  function Leaves(H: M.HashFn, txs: seq<Tx>): (hs: seq<Bytes>)
    ensures |hs| == |txs| && forall i :: 0 <= i < |txs| ==> hs[i] == H(txs[i].hash)
  {
    seq(|txs|, i requires 0 <= i < |txs| => H(txs[i].hash))
  }

  /** The block's transactions hash is the Merkle root over the hashes of its own transaction hashes, or the hash
      of nothing when it has none. */
  ghost predicate RootsOwn(env: Env, b: Block) {
    if b.txs == [] then b.txsHash == env.sha([])
    else b.txsHash == M.Root(env.sha, Leaves(env.sha, b.txs))
  }

  /** A block at most an hour ahead of the clock, with verified transactions under their root; above genesis it also
      names a parent and is signed with 64 bytes. */
  ghost predicate WellMade(env: Env, b: Block, now: int) {
    && (b.height > 0 ==> b.prevHash != [] && |b.signature| == 64)
    && b.time <= now + 3_600_000_000_000
    && (forall i :: 0 <= i < |b.txs| ==> env.txOk(b.txs[i]))
    && RootsOwn(env, b)
  }

  lemma LeavesAreHashes(env: Env, txs: seq<Tx>)
    ensures M.Hashes(env.sha, TxHashes(txs)) == Leaves(env.sha, txs)
  {
  }

  lemma VerifiesIsWellMade(env: Env, b: Block, now: int)
    ensures Verifies(env, b, now) <==> WellMade(env, b, now)
  {
    LeavesAreHashes(env, b.txs);
  }

  /** A block is added exactly when it stands on the tip, is well made, and neither the economics
      nor the write of the batch refuses it; then it is the tip. */
  lemma AddedIffWellMade(env: Env, p: PChain, b: Block, a: Answers)
    ensures var (q, verdict) := Add(env, p, b, a);
            && (verdict != Refused <==>
                  b.height == Wrap(p.height + 1) && b.prevHash == p.tipHash && WellMade(env, b, a.now)
                  && a.econOk && a.writeOk)
            && (verdict == AddedNotIndexed <==> verdict != Refused && !a.indexOk)
            && (verdict != Refused ==>
                  && q.height == b.height
                  && q.tipHash == if b.consensusHash != [] then b.consensusHash
                                  else env.sha(env.sha(SigningPayload(b))))
  {
    hide Stored, Touched, SigningPayload, WellMade, Verifies, Position;
    VerifiesIsWellMade(env, b, a.now);
  }

  /** A block is made up for a hash exactly above genesis, on the tip, for a named hash and proposer, when neither
      the economics nor the write refuses it; the hash is then the tip's, whatever the block carries. */
  lemma MadeUpIff(env: Env, p: PChain, height: U64, prevHash: Bytes, hash: Bytes, proposer: Bytes, a: Answers)
    ensures var (q, verdict) := AddByHash(env, p, height, prevHash, hash, proposer, a);
            && (verdict == Added <==>
                  && height > 0 && height == Wrap(p.height + 1) && prevHash == p.tipHash && hash != [] && proposer != []
                  && a.econOk && a.writeOk)
            && (verdict == Added ==> q.height == height && q.tipHash == hash)
  {
    hide Stored, Touched, SigningPayload, Position;
  }

  // ---------------------------------------------------------------- every block of a run

  /** The operation put this block at this height: it added a well-made block, or made one up from a hash. */
  ghost predicate PutBy(env: Env, op: Op, b: Block, h: U64) {
    match op
    case DoAdd(block, a) => block == b && b.height == h && a.econOk && a.writeOk && WellMade(env, b, a.now)
    case DoAddByHash(height, prevHash, hash, proposer, a) =>
      && height == h && a.econOk && a.writeOk && hash != [] && proposer != []
      && b == Block(1, h, prevHash, env.sha([]), env.sha([]), ZERO_TIME, proposer, [], 0, [], hash)
    case _ => false
  }

  lemma StepPuts(env: Env, chain: seq<Block>, op: Op)
    requires chain != [] && |chain| < TWO64 && Last(chain).height == |chain| - 1
    ensures var next := SliceStep(env, chain, op);
            next == chain || (|next| == |chain| + 1 && next[..|chain|] == chain
                              && Last(next).height == |chain| && PutBy(env, op, Last(next), |chain|))
  {
    hide Verifies, WellMade, Hash;
    match op
    case DoAdd(b, a) =>
      VerifiesIsWellMade(env, b, a.now);
    case _ =>
  }

  /** Operation `k` put the block of height `h`. */
  ghost predicate PutAt(env: Env, ops: seq<Op>, b: Block, h: U64, k: nat) {
    k < |ops| && PutBy(env, ops[k], b, h)
  }

  lemma {:induction false} SlicePuts(env: Env, genesis: Block, ops: seq<Op>, h: nat)
    requires genesis.height == 0 && |ops| < TWO64
    ensures var chain := SliceRun(env, [genesis], ops);
            && Last(chain).height == |chain| - 1
            && (0 < h < |chain| ==> exists k: nat :: PutAt(env, ops, chain[h], h, k))
  {
    hide PutBy, SliceStep;
    if ops != [] {
      var front, op := ops[..|ops| - 1], ops[|ops| - 1];
      var before, chain := SliceRun(env, [genesis], front), SliceRun(env, [genesis], ops);
      SlicePuts(env, genesis, front, h);
      StepPuts(env, before, op);
      if 0 < h < |before| {
        var k: nat :| PutAt(env, front, before[h], h, k);
        assert PutAt(env, ops, chain[h], h, k);
      } else if 0 < h < |chain| {
        assert PutAt(env, ops, chain[h], h, |front|);
      }
    }
  }

  /** Over every run from an empty store: whatever block is read above genesis was well made when it was added,
      or is one that was made up from a hash. */
  lemma {:induction false} StoredBlocksAreWellMade(env: Env, db: Db, genesis: Block, ops: seq<Op>, h: U64)
    requires Sound(env) && Foreign(db) && genesis.height == 0 && |ops| < TWO64
    requires forall i :: 0 <= i < |ops| ==> Allowed(ops[i])
    ensures var found := Get(env, Run(env, Open(env, db, genesis, true).value, ops).0, h).1;
            found.Some? && h > 0 ==> exists k: nat :: PutAt(env, ops, found.value, h, k)
  {
    hide PutAt, Linked, CacheValid, Get, Run, SliceRun;
    RunFromGenesis(env, db, genesis, ops, h);
    SlicePuts(env, genesis, ops, h);
  }

  // ---------------------------------------------------------------- what a hash binds

  /** What the signing bytes of a block hold, read at fixed offsets; the lengths of the two hashes are the
      reader's. */
  ghost predicate Reads(payload: Bytes, b: Block) {
    var p, t := |b.prevHash|, |b.txsHash|;
    && |payload| == 17 + p + t + |b.proposer|
    && payload[0] == b.version && FromBE(payload[1..9]) == b.height
    && payload[9..9 + p] == b.prevHash && payload[9 + p..9 + p + t] == b.txsHash
    && FromBE(payload[9 + p + t..17 + p + t]) == Wrap(b.time / 1_000_000_000)
    && payload[17 + p + t..] == b.proposer
  }

  lemma PayloadReads(b: Block)
    ensures Reads(SigningPayload(b), b)
  {
    var head := [b.version] + FixedBE(b.height, 8);
    var seconds := FixedBE(Wrap(b.time / 1_000_000_000), 8);
    U64Bytes(b.height);
    U64Bytes(Wrap(b.time / 1_000_000_000));
    var payload := SigningPayload(b);
    assert payload == head + b.prevHash + b.txsHash + seconds + b.proposer;
    assert payload[1..9] == FixedBE(b.height, 8);
    assert payload[9 + |b.prevHash| + |b.txsHash|..17 + |b.prevHash| + |b.txsHash|] == seconds;
  }

  /** The fields a hash covers: the state root, the signature and the nonce are not among them. */
  ghost predicate SameHeader(b: Block, c: Block) {
    && b.version == c.version && b.height == c.height && b.prevHash == c.prevHash && b.txsHash == c.txsHash
    && Wrap(b.time / 1_000_000_000) == Wrap(c.time / 1_000_000_000) && b.proposer == c.proposer
  }

  lemma PayloadBinds(b: Block, c: Block)
    requires |b.prevHash| == |c.prevHash| && |b.txsHash| == |c.txsHash|
    ensures SigningPayload(b) == SigningPayload(c) <==> SameHeader(b, c)
  {
    PayloadReads(b);
    PayloadReads(c);
    hide SigningPayload;
    if SameHeader(b, c) {
      SamePayload(b, c);
    }
  }

  lemma SamePayload(b: Block, c: Block)
    requires SameHeader(b, c)
    ensures SigningPayload(b) == SigningPayload(c)
  {
  }

  /** The collision two different signing bytes with one double hash exhibit. */
  function HashClash(H: M.HashFn, x: Bytes, y: Bytes): (Bytes, Bytes) {
    if H(x) == H(y) then (x, y) else (H(x), H(y))
  }

  /** Two blocks without a consensus hash that share their hash share every field the hash covers, or the two
      strings `HashClash` names are a collision. */
  lemma HashBinds(env: Env, b: Block, c: Block)
    requires b.consensusHash == c.consensusHash == []
    requires |b.prevHash| == |c.prevHash| && |b.txsHash| == |c.txsHash|
    requires Hash(env, b) == Hash(env, c)
    ensures SameHeader(b, c) || M.Collision(env.sha, HashClash(env.sha, SigningPayload(b), SigningPayload(c)))
  {
    PayloadBinds(b, c);
    hide SigningPayload;
  }

  /** Two blocks with as many transactions and one transactions hash carry the same transaction hashes, or the two
      strings `M.Clash` names are a collision. */
  lemma TransactionsHashBinds(env: Env, b: Block, c: Block)
    requires M.Digests(env.sha) && RootsOwn(env, b) && RootsOwn(env, c)
    requires b.txsHash == c.txsHash && |b.txs| == |c.txs|
    ensures TxHashes(b.txs) == TxHashes(c.txs)
            || M.Collision(env.sha, M.Clash(env.sha, TxHashes(b.txs), TxHashes(c.txs)))
  {
    if b.txs != [] {
      LeavesAreHashes(env, b.txs);
      LeavesAreHashes(env, c.txs);
      M.Binding(env.sha, TxHashes(b.txs), TxHashes(c.txs));
    }
  }

  lemma {:induction false} RootIsDigest(H: M.HashFn, hs: seq<Bytes>)
    requires M.Digests(H) && hs != [] && M.Nodes(hs)
    ensures |M.Root(H, hs)| == 32
    decreases |hs|
  {
    if |hs| > 1 {
      RootIsDigest(H, M.NextLevel(H, hs));
    }
  }

  /** A chain whose blocks above genesis were well made and never renamed by a consensus hash. */
  ghost predicate Plain(env: Env, chain: seq<Block>) {
    && Linked(env, chain)
    && (forall i :: 0 <= i < |chain| ==> chain[i].consensusHash == [])
    && (forall i :: 0 < i < |chain| ==> RootsOwn(env, chain[i]))
  }

  lemma PlainLengths(env: Env, chain: seq<Block>)
    requires M.Digests(env.sha) && Plain(env, chain) && |chain| > 1
    ensures |Last(chain).prevHash| == 32 && |Last(chain).txsHash| == 32
    ensures Plain(env, chain[..|chain| - 1])
  {
    var b, parent := Last(chain), chain[|chain| - 2];
    assert b.prevHash == Hash(env, parent) && parent.consensusHash == [];
    if b.txs != [] {
      RootIsDigest(env.sha, Leaves(env.sha, b.txs));
    }
  }

  /** The collision that two chains with one tip and different headers exhibit. */
  function ChainClash(env: Env, a: seq<Block>, b: seq<Block>): (Bytes, Bytes)
    requires |a| == |b| > 0
  {
    var x, y := SigningPayload(Last(a)), SigningPayload(Last(b));
    if x == y && |a| > 1 then ChainClash(env, a[..|a| - 1], b[..|b| - 1]) else HashClash(env.sha, x, y)
  }

  /** The tip binds the chain: two chains of one length and one tip hash have the same header at every height
      above genesis and the same signing bytes at genesis, or the two strings `ChainClash` names are a collision. */
  lemma {:induction false} TipBindsChain(env: Env, a: seq<Block>, b: seq<Block>)
    requires M.Digests(env.sha) && Plain(env, a) && Plain(env, b)
    requires |a| == |b| && Hash(env, Last(a)) == Hash(env, Last(b))
    ensures M.Collision(env.sha, ChainClash(env, a, b))
            || (&& SigningPayload(a[0]) == SigningPayload(b[0])
                && forall i :: 0 < i < |a| ==> SameHeader(a[i], b[i]))
  {
    hide SigningPayload, RootsOwn;
    if |a| > 1 {
      PlainLengths(env, a);
      PlainLengths(env, b);
      PayloadBinds(Last(a), Last(b));
      if SigningPayload(Last(a)) == SigningPayload(Last(b)) {
        var n := |a| - 1;
        assert Hash(env, Last(a[..n])) == Last(a).prevHash && Hash(env, Last(b[..n])) == Last(b).prevHash;
        TipBindsChain(env, a[..n], b[..n]);
      }
    }
  }
}
