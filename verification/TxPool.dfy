/** The mempool: a map of pending transactions and a list of the same transactions by falling gas
    price. Sorting does not fix the order of equal prices and ranging over a map fixes no order at
    all, so what an operation may do is a relation between states. */
module TxPool {
  import opened Words

  datatype Tx = Tx(hash: Bytes, sender: Option<Bytes>, nonce: U64, gasPrice: U64, chainId: U64)

  datatype Config = Config(maxTransactions: int, minGasPrice: U64, maxAccountTxs: int, chainId: U64)

  datatype Pool = Pool(pending: map<Bytes, Tx>, byGasPrice: seq<Tx>)

  datatype Status = Added | NoSender | Duplicate | PriceTooLow | WrongChain | AccountLimit | NonceTooLow | PoolFull

  // ---------------------------------------------------------------- the invariant

  ghost predicate Descending(txs: seq<Tx>) {
    forall i, j :: 0 <= i < j < |txs| ==> txs[i].gasPrice >= txs[j].gasPrice
  }

  function Once(b: bool): nat {
    if b then 1 else 0
  }

  predicate Holds(pending: map<Bytes, Tx>, t: Tx) {
    t.hash in pending && pending[t.hash] == t
  }

  /** The list is a permutation of the pending transactions: each of them once and nothing else. */
  ghost predicate Listed(p: Pool) {
    forall t: Tx :: multiset(p.byGasPrice)[t] == Once(Holds(p.pending, t))
  }

  ghost predicate Keyed(pending: map<Bytes, Tx>) {
    forall h :: h in pending ==> pending[h].hash == h && pending[h].sender.Some?
  }

  function OfSender(pending: map<Bytes, Tx>, s: Bytes): set<Bytes> {
    set h | h in pending && pending[h].sender == Some(s)
  }

  function AtLeastZero(n: int): nat {
    if n < 0 then 0 else n
  }

  ghost predicate WithinLimits(c: Config, pending: map<Bytes, Tx>) {
    && |pending| <= AtLeastZero(c.maxTransactions)
    && forall s :: |OfSender(pending, s)| <= AtLeastZero(c.maxAccountTxs)
  }

  ghost predicate Valid(c: Config, p: Pool) {
    Keyed(p.pending) && Listed(p) && Descending(p.byGasPrice) && WithinLimits(c, p.pending)
  }

  // ---------------------------------------------------------------- what operations may do

  /** `removeLocked`. */
  function Removed(p: Pool, h: Bytes): Pool {
    if h !in p.pending then p else Pool(p.pending - {h}, Without(p.byGasPrice, h))
  }

  /** A list less its first transaction with a given hash. */
  function Without(txs: seq<Tx>, h: Bytes): seq<Tx> {
    if txs == [] then [] else if txs[0].hash == h then txs[1..] else [txs[0]] + Without(txs[1..], h)
  }

  function RemovedAll(p: Pool, hs: seq<Bytes>): Pool {
    if hs == [] then p else Removed(RemovedAll(p, hs[..|hs| - 1]), hs[|hs| - 1])
  }

  /** The sum that sets the price of a replacement wraps. */
  function ReplacementPrice(gasPrice: U64): U64 {
    Wrap(gasPrice + gasPrice / 10)
  }

  predicate Replaceable(p: Pool, tx: Tx, h: Bytes) {
    && h in p.pending
    && p.pending[h].sender == tx.sender && p.pending[h].nonce == tx.nonce
    && tx.gasPrice > ReplacementPrice(p.pending[h].gasPrice)
  }

  /** The checks before the pool's size is looked at. */
  function Admission(c: Config, p: Pool, tx: Tx, accountNonce: Option<U64>): Status {
    if tx.sender.None? then NoSender
    else if tx.hash in p.pending then Duplicate
    else if tx.gasPrice < c.minGasPrice then PriceTooLow
    else if c.chainId != 0 && tx.chainId != 0 && tx.chainId != c.chainId then WrongChain
    else if |OfSender(p.pending, tx.sender.value)| >= c.maxAccountTxs then AccountLimit
    else if accountNonce.Some? && tx.nonce < accountNonce.value then NonceTooLow
    else Added
  }

  ghost predicate Inserted(p: Pool, tx: Tx, q: Pool) {
    && q.pending == p.pending[tx.hash := tx]
    && multiset(q.byGasPrice) == multiset(p.byGasPrice + [tx])
    && Descending(q.byGasPrice)
  }

  /** `Add`: in a full pool one replaceable transaction, any one, makes room. */
  ghost predicate MayAdd(c: Config, p: Pool, tx: Tx, accountNonce: Option<U64>, q: Pool, status: Status) {
    var admission := Admission(c, p, tx, accountNonce);
    if admission != Added then q == p && status == admission
    else if |p.pending| < c.maxTransactions then Inserted(p, tx, q) && status == Added
    else if forall h :: !Replaceable(p, tx, h) then q == p && status == PoolFull
    else status == Added && exists h :: Replaceable(p, tx, h) && Inserted(Removed(p, h), tx, q)
  }

  function Smaller(a: int, b: int): int {
    if a <= b then a else b
  }

  function HashesOf(txs: seq<Tx>): set<Bytes> {
    set i | 0 <= i < |txs| :: txs[i].hash
  }

  /** `Evict`: the tail of the list goes and the list is built again. */
  ghost predicate MayEvict(p: Pool, count: int, q: Pool, removed: nat) {
    && removed == AtLeastZero(Smaller(count, |p.byGasPrice|))
    && q.pending == p.pending - HashesOf(p.byGasPrice[|p.byGasPrice| - removed..])
    && Listed(q) && Descending(q.byGasPrice)
  }

  const EMPTY := Pool(map[], [])

  // ---------------------------------------------------------------- removal

  lemma {:induction false} WithoutOne(txs: seq<Tx>, t: Tx)
    requires t in txs && forall i :: 0 <= i < |txs| && txs[i].hash == t.hash ==> txs[i] == t
    ensures multiset(Without(txs, t.hash)) == multiset(txs) - multiset{t}
  {
    assert txs == [txs[0]] + txs[1..];
    if txs[0].hash != t.hash {
      WithoutOne(txs[1..], t);
    }
  }

  lemma {:induction false} WithoutDescends(txs: seq<Tx>, h: Bytes)
    requires Descending(txs)
    ensures Descending(Without(txs, h)) && forall t :: t in Without(txs, h) ==> t in txs
  {
    if txs != [] && txs[0].hash != h {
      WithoutDescends(txs[1..], h);
      var rest := Without(txs[1..], h);
      forall i | 0 <= i < |rest| ensures txs[0].gasPrice >= rest[i].gasPrice {
        assert rest[i] in rest;
      }
    }
  }

  lemma ListedMembers(p: Pool, t: Tx)
    requires Listed(p)
    ensures t in p.byGasPrice <==> Holds(p.pending, t)
  {
    assert multiset(p.byGasPrice)[t] == Once(Holds(p.pending, t));
    assert t in p.byGasPrice <==> t in multiset(p.byGasPrice);
  }

  lemma RemovedLists(p: Pool, h: Bytes)
    requires Listed(p) && Keyed(p.pending) && h in p.pending
    ensures Listed(Removed(p, h))
  {
    var t := p.pending[h];
    ListedMembers(p, t);
    forall i | 0 <= i < |p.byGasPrice| && p.byGasPrice[i].hash == h ensures p.byGasPrice[i] == t {
      ListedMembers(p, p.byGasPrice[i]);
    }
    WithoutOne(p.byGasPrice, t);
  }

  lemma FewerPending(c: Config, pending: map<Bytes, Tx>, gone: set<Bytes>)
    requires WithinLimits(c, pending)
    ensures WithinLimits(c, pending - gone)
  {
    var rest := pending - gone;
    SmallerSet(rest.Keys, pending.Keys);
    forall s ensures |OfSender(rest, s)| <= AtLeastZero(c.maxAccountTxs) {
      SmallerSet(OfSender(rest, s), OfSender(pending, s));
    }
  }

  /** `Remove`, whatever the hash. */
  lemma RemovedKeeps(c: Config, p: Pool, h: Bytes)
    requires Valid(c, p)
    ensures Valid(c, Removed(p, h))
  {
    hide Listed, WithinLimits, Descending, Without;
    if h in p.pending {
      RemovedLists(p, h);
      WithoutDescends(p.byGasPrice, h);
      FewerPending(c, p.pending, {h});
    }
  }

  /** `RemoveConfirmed`. */
  lemma {:induction false} RemovedAllKeeps(c: Config, p: Pool, hs: seq<Bytes>)
    requires Valid(c, p)
    ensures Valid(c, RemovedAll(p, hs))
  {
    hide Valid, Removed;
    if hs != [] {
      RemovedAllKeeps(c, p, hs[..|hs| - 1]);
      RemovedKeeps(c, RemovedAll(p, hs[..|hs| - 1]), hs[|hs| - 1]);
    }
  }

  // ---------------------------------------------------------------- insertion

  lemma InsertedLists(p: Pool, tx: Tx, q: Pool)
    requires Listed(p) && tx.hash !in p.pending && Inserted(p, tx, q)
    ensures Listed(q)
  {
    assert multiset(p.byGasPrice + [tx]) == multiset(p.byGasPrice) + multiset{tx};
  }

  lemma InsertedCounts(p: Pool, tx: Tx, s: Bytes)
    requires tx.hash !in p.pending
    ensures |p.pending[tx.hash := tx]| == |p.pending| + 1
    ensures |OfSender(p.pending[tx.hash := tx], s)| == |OfSender(p.pending, s)| + Once(tx.sender == Some(s))
  {
    var q := p.pending[tx.hash := tx];
    assert q.Keys == p.pending.Keys + {tx.hash};
    if tx.sender == Some(s) {
      assert OfSender(q, s) == OfSender(p.pending, s) + {tx.hash};
    } else {
      assert OfSender(q, s) == OfSender(p.pending, s);
    }
  }

  lemma RemovedCounts(p: Pool, h: Bytes)
    requires h in p.pending && p.pending[h].sender.Some?
    ensures |Removed(p, h).pending| == |p.pending| - 1
    ensures |OfSender(Removed(p, h).pending, p.pending[h].sender.value)|
         == |OfSender(p.pending, p.pending[h].sender.value)| - 1
  {
    var s := p.pending[h].sender.value;
    assert (p.pending - {h}).Keys == p.pending.Keys - {h};
    assert OfSender(p.pending - {h}, s) == OfSender(p.pending, s) - {h};
    assert h in OfSender(p.pending, s);
  }

  /** Inserting keeps everything when there is room in the pool and in the sender's allowance. */
  lemma InsertedKeeps(c: Config, p: Pool, tx: Tx, q: Pool)
    requires Valid(c, p) && tx.hash !in p.pending && tx.sender.Some? && Inserted(p, tx, q)
    requires |p.pending| < c.maxTransactions && |OfSender(p.pending, tx.sender.value)| < c.maxAccountTxs
    ensures Valid(c, q)
  {
    hide Listed, Descending, OfSender;
    InsertedLists(p, tx, q);
    forall s ensures |OfSender(q.pending, s)| <= AtLeastZero(c.maxAccountTxs) {
      InsertedCounts(p, tx, s);
    }
    InsertedCounts(p, tx, tx.sender.value);
  }

  /** `Add` keeps the pool valid whichever replaceable transaction the map order offers first and
      however the sort arranges equal prices; a refused transaction changes nothing. */
  lemma AddKeeps(c: Config, p: Pool, tx: Tx, accountNonce: Option<U64>, q: Pool, status: Status)
    requires Valid(c, p) && MayAdd(c, p, tx, accountNonce, q, status)
    ensures Valid(c, q)
    ensures status == Added <==> q != p
    ensures status == Added ==> Holds(q.pending, tx)
  {
    hide Valid, OfSender, Removed;
    if status == Added {
      if |p.pending| < c.maxTransactions {
        InsertedKeeps(c, p, tx, q);
      } else {
        var h :| Replaceable(p, tx, h) && Inserted(Removed(p, h), tx, q);
        ReplacementKeeps(c, p, tx, h, q);
      }
    }
  }

  lemma ReplacementKeeps(c: Config, p: Pool, tx: Tx, h: Bytes, q: Pool)
    requires Valid(c, p) && tx.hash !in p.pending && tx.sender.Some? && Replaceable(p, tx, h)
    requires Inserted(Removed(p, h), tx, q) && |OfSender(p.pending, tx.sender.value)| < c.maxAccountTxs
    ensures Valid(c, q)
  {
    RemovedCounts(p, h);
    hide Listed, Descending, OfSender, Without;
    RemovedKeeps(c, p, h);
    if |p.pending| <= c.maxTransactions {
      InsertedKeeps(c, Removed(p, h), tx, q);
    }
  }

  /** A replacement pays over a tenth more than what it replaces exactly when that price does not
      wrap: then and only then is every price the check lets through above the unwrapped sum. */
  lemma ReplacementPaysMoreIff(gasPrice: U64)
    ensures (forall offer: U64 :: offer > ReplacementPrice(gasPrice) ==> 10 * offer > 11 * gasPrice)
       <==> gasPrice + gasPrice / 10 < TWO64
  {
    var sum := gasPrice + gasPrice / 10;
    if sum < TWO64 {
      assert 10 * (sum + 1) > 11 * gasPrice;
    } else {
      WrapsOnce(sum);
      assert ReplacementPrice(gasPrice) < gasPrice;
      var offer: U64 := gasPrice;
      assert offer > ReplacementPrice(gasPrice) && 10 * offer <= 11 * gasPrice;
    }
  }

  // ---------------------------------------------------------------- eviction

  /** The list and the map have the same size. */
  lemma {:induction false} SameSize(p: Pool)
    requires Listed(p) && Keyed(p.pending)
    ensures |p.byGasPrice| == |p.pending|
    decreases |p.byGasPrice|
  {
    if p.byGasPrice == [] {
      if p.pending != map[] {
        var h :| h in p.pending;
        ListedMembers(p, p.pending[h]);
        assert false;
      }
    } else {
      var n := |p.byGasPrice| - 1;
      var t := p.byGasPrice[n];
      ListedMembers(p, t);
      ShorterList(p);
      SameSize(Pool(p.pending - {t.hash}, p.byGasPrice[..n]));
      assert (p.pending - {t.hash}).Keys == p.pending.Keys - {t.hash};
    }
  }

  lemma ShorterList(p: Pool)
    requires Listed(p) && p.byGasPrice != []
    ensures var t := p.byGasPrice[|p.byGasPrice| - 1];
            Listed(Pool(p.pending - {t.hash}, p.byGasPrice[..|p.byGasPrice| - 1]))
  {
    var n := |p.byGasPrice| - 1;
    var t := p.byGasPrice[n];
    assert p.byGasPrice == p.byGasPrice[..n] + [t];
    ListedMembers(p, t);
    var front := p.byGasPrice[..n];
    assert multiset(p.byGasPrice) == multiset(front) + multiset{t};
    forall u: Tx ensures multiset(front)[u] == Once(Holds(p.pending - {t.hash}, u)) {
      assert multiset(p.byGasPrice)[u] == Once(Holds(p.pending, u));
      assert multiset(p.byGasPrice)[t] == 1;
    }
  }

  /** No hash is listed twice. */
  lemma ListedOnce(p: Pool, i: nat, j: nat)
    requires Listed(p) && i < j < |p.byGasPrice|
    ensures p.byGasPrice[i].hash != p.byGasPrice[j].hash
  {
    var t, u := p.byGasPrice[i], p.byGasPrice[j];
    ListedMembers(p, t);
    ListedMembers(p, u);
    var front, back := p.byGasPrice[..j], p.byGasPrice[j..];
    assert p.byGasPrice == front + back;
    assert front[i] == t && back[0] == u;
    assert multiset(p.byGasPrice)[t] == multiset(front)[t] + multiset(back)[t];
    assert multiset(p.byGasPrice)[t] <= 1;
  }

  lemma {:induction false} EvictKeeps(c: Config, p: Pool, count: int, q: Pool, removed: nat)
    requires Valid(c, p) && MayEvict(p, count, q, removed)
    ensures Valid(c, q)
  {
    FewerPending(c, p.pending, HashesOf(p.byGasPrice[|p.byGasPrice| - removed..]));
  }

  /** `Evict(count)` removes exactly min(count, size) transactions, none for a negative count. */
  lemma {:induction false} EvictsExactly(c: Config, p: Pool, count: int, q: Pool, removed: nat)
    requires Valid(c, p) && MayEvict(p, count, q, removed)
    ensures removed == AtLeastZero(Smaller(count, |p.pending|)) && |q.pending| == |p.pending| - removed
  {
    hide Listed, Descending, WithinLimits;
    SameSize(p);
    SurvivorsListed(p, removed);
    SameSize(Pool(q.pending, p.byGasPrice[..|p.byGasPrice| - removed]));
  }

  /** What is left in the map is exactly the front of the list. */
  lemma {:induction false} SurvivorsListed(p: Pool, k: nat)
    requires Listed(p) && k <= |p.byGasPrice|
    ensures Listed(Pool(p.pending - HashesOf(p.byGasPrice[|p.byGasPrice| - k..]), p.byGasPrice[..|p.byGasPrice| - k]))
  {
    var n := |p.byGasPrice|;
    if k == 0 {
      assert p.pending - HashesOf(p.byGasPrice[n..]) == p.pending;
      assert p.byGasPrice[..n] == p.byGasPrice;
    } else {
      SurvivorsListed(p, k - 1);
      var before := Pool(p.pending - HashesOf(p.byGasPrice[n - k + 1..]), p.byGasPrice[..n - k + 1]);
      TailHashes(p.byGasPrice, n - k);
      hide Listed, HashesOf;
      ShorterList(before);
      assert before.byGasPrice[..n - k] == p.byGasPrice[..n - k];
      assert before.pending - {p.byGasPrice[n - k].hash} == p.pending - HashesOf(p.byGasPrice[n - k..]);
    }
  }

  lemma TailHashes(txs: seq<Tx>, i: nat)
    requires i < |txs|
    ensures HashesOf(txs[i..]) == HashesOf(txs[i + 1..]) + {txs[i].hash}
  {
    var tail, rest := txs[i..], txs[i + 1..];
    forall h | h in HashesOf(tail) ensures h in HashesOf(rest) + {txs[i].hash} {
      var k :| 0 <= k < |tail| && tail[k].hash == h;
      assert k > 0 ==> rest[k - 1].hash == h;
    }
    forall h | h in HashesOf(rest) ensures h in HashesOf(tail) {
      var k :| 0 <= k < |rest| && rest[k].hash == h;
      assert tail[k + 1].hash == h;
    }
    assert tail[0].hash in HashesOf(tail);
  }

  /** Nothing evicted was priced above anything that stayed. */
  lemma EvictsCheapest(c: Config, p: Pool, count: int, q: Pool, removed: nat, gone: Bytes, kept: Bytes)
    requires Valid(c, p) && MayEvict(p, count, q, removed)
    requires gone in p.pending && gone !in q.pending && kept in q.pending
    ensures p.pending[gone].gasPrice <= q.pending[kept].gasPrice
  {
    var cut := |p.byGasPrice| - removed;
    var tail := p.byGasPrice[cut..];
    assert gone in HashesOf(tail);
    var i :| 0 <= i < |tail| && tail[i].hash == gone;
    hide Listed, HashesOf, WithinLimits;
    SurvivorsListed(p, removed);
    ListedMembers(Pool(q.pending, p.byGasPrice[..cut]), q.pending[kept]);
    ListedMembers(p, p.byGasPrice[cut + i]);
    var k :| 0 <= k < cut && p.byGasPrice[..cut][k] == q.pending[kept];
    assert p.byGasPrice[k].gasPrice >= p.byGasPrice[cut + i].gasPrice;
  }

  // ---------------------------------------------------------------- runs

  datatype Op = DoAdd(tx: Tx, accountNonce: Option<U64>)
              | DoRemove(hash: Bytes)
              | DoRemoveConfirmed(hashes: seq<Bytes>)
              | DoEvict(count: int)
              | DoClear

  ghost predicate MayStep(c: Config, p: Pool, op: Op, q: Pool) {
    match op
    case DoAdd(tx, nonce) => exists status :: MayAdd(c, p, tx, nonce, q, status)
    case DoRemove(h) => q == Removed(p, h)
    case DoRemoveConfirmed(hs) => q == RemovedAll(p, hs)
    case DoEvict(count) => exists removed :: MayEvict(p, count, q, removed)
    case DoClear => q == EMPTY
  }

  /** A run from the empty pool: the states it passes through. */
  ghost predicate IsRun(c: Config, ops: seq<Op>, states: seq<Pool>) {
    && |states| == |ops| + 1 && states[0] == EMPTY
    && forall i :: 0 <= i < |ops| ==> MayStep(c, states[i], ops[i], states[i + 1])
  }

  lemma EmptyIsValid(c: Config)
    ensures Valid(c, EMPTY)
  {
    forall s ensures |OfSender(map[], s)| == 0 {
      assert OfSender(map[], s) == {};
    }
  }

  lemma {:induction false} StepKeeps(c: Config, p: Pool, op: Op, q: Pool)
    requires Valid(c, p) && MayStep(c, p, op, q)
    ensures Valid(c, q)
  {
    hide Valid, MayAdd, MayEvict, Removed, RemovedAll;
    match op
    case DoAdd(tx, nonce) =>
      var status :| MayAdd(c, p, tx, nonce, q, status);
      AddKeeps(c, p, tx, nonce, q, status);
    case DoRemove(h) => RemovedKeeps(c, p, h);
    case DoRemoveConfirmed(hs) => RemovedAllKeeps(c, p, hs);
    case DoEvict(count) =>
      var removed :| MayEvict(p, count, q, removed);
      EvictKeeps(c, p, count, q, removed);
    case DoClear => EmptyIsValid(c);
  }

  /** Over every run of additions, removals, evictions and clears, with every choice the map order and
      the sort leave open: the list is a descending permutation of the pending transactions, and the
      pool's size and each sender's share stay within their limits. */
  lemma {:induction false} RunKeeps(c: Config, ops: seq<Op>, states: seq<Pool>, i: nat)
    requires IsRun(c, ops, states) && i <= |ops|
    ensures Valid(c, states[i])
  {
    hide Valid, MayStep;
    if i == 0 {
      EmptyIsValid(c);
    } else {
      RunKeeps(c, ops, states, i - 1);
      StepKeeps(c, states[i - 1], ops[i - 1], states[i]);
    }
  }

  // ---------------------------------------------------------------- admission

  /** A transaction with a sender that pays the least price, names the pool's chain or none, is not behind its
      account, and is neither pending nor beyond its sender's share. */
  ghost predicate Admissible(c: Config, p: Pool, tx: Tx, accountNonce: Option<U64>) {
    && tx.sender.Some? && tx.hash !in p.pending
    && tx.gasPrice >= c.minGasPrice
    && (c.chainId == 0 || tx.chainId == 0 || tx.chainId == c.chainId)
    && |set h | h in p.pending && p.pending[h].sender == tx.sender| < c.maxAccountTxs
    && (accountNonce.None? || tx.nonce >= accountNonce.value)
  }

  /** A pending transaction of the same sender and nonce, priced more than a tenth below (the sum wraps). */
  ghost predicate Underbid(p: Pool, tx: Tx) {
    exists h :: h in p.pending && p.pending[h].sender == tx.sender && p.pending[h].nonce == tx.nonce
                && tx.gasPrice > Wrap(p.pending[h].gasPrice + p.pending[h].gasPrice / 10)
  }

  lemma AdmissionIs(c: Config, p: Pool, tx: Tx, accountNonce: Option<U64>)
    ensures Admission(c, p, tx, accountNonce) == Added <==> Admissible(c, p, tx, accountNonce)
  {
    if tx.sender.Some? {
      assert OfSender(p.pending, tx.sender.value) == set h | h in p.pending && p.pending[h].sender == tx.sender;
    }
  }

  /** `Add` takes a transaction in exactly when it is admissible and there is room for it, or it outbids one it
      may replace. With room nothing else changes; without, exactly one transaction goes, one it outbids. */
  lemma {:induction false} AddedIff(c: Config, p: Pool, tx: Tx, accountNonce: Option<U64>, q: Pool, status: Status)
    requires MayAdd(c, p, tx, accountNonce, q, status)
    ensures status == Added
       <==> Admissible(c, p, tx, accountNonce) && (|p.pending| < c.maxTransactions || Underbid(p, tx))
    ensures status == Added && |p.pending| < c.maxTransactions ==> q.pending == p.pending[tx.hash := tx]
    ensures status == Added && |p.pending| >= c.maxTransactions ==>
              exists h :: h in p.pending && p.pending[h].sender == tx.sender && p.pending[h].nonce == tx.nonce
                          && q.pending == (p.pending - {h})[tx.hash := tx]
    ensures status != Added ==> q == p
  {
    AdmissionIs(c, p, tx, accountNonce);
    hide Admissible, Admission;
    if status == Added && |p.pending| >= c.maxTransactions {
      var h :| Replaceable(p, tx, h) && Inserted(Removed(p, h), tx, q);
      assert q.pending == (p.pending - {h})[tx.hash := tx];
    } else if Underbid(p, tx) {
      var h :| h in p.pending && p.pending[h].sender == tx.sender && p.pending[h].nonce == tx.nonce
               && tx.gasPrice > Wrap(p.pending[h].gasPrice + p.pending[h].gasPrice / 10);
      assert Replaceable(p, tx, h);
    }
  }

  /** Event `k` of the run took the transaction in, when it was admissible. */
  ghost predicate TakenInAt(c: Config, ops: seq<Op>, states: seq<Pool>, tx: Tx, k: nat) {
    && k < |ops| && k < |states| && ops[k].DoAdd? && ops[k].tx == tx
    && Admissible(c, states[k], tx, ops[k].accountNonce)
  }

  /** What an operation leaves pending was pending before, or is the admissible transaction it adds. */
  lemma PendingComesFrom(c: Config, p: Pool, op: Op, q: Pool, h: Bytes)
    requires MayStep(c, p, op, q) && h in q.pending
    ensures (h in p.pending && p.pending[h] == q.pending[h])
            || (op.DoAdd? && q.pending[h] == op.tx && h == op.tx.hash && Admissible(c, p, op.tx, op.accountNonce))
  {
    match op
    case DoAdd(tx, nonce) =>
      var status :| MayAdd(c, p, tx, nonce, q, status);
      hide MayAdd, Admissible;
      AddedIff(c, p, tx, nonce, q, status);
    case DoRemoveConfirmed(hs) => StillThere(p, hs, h);
    case _ =>
  }

  lemma {:induction false} StillThere(p: Pool, hs: seq<Bytes>, h: Bytes)
    requires h in RemovedAll(p, hs).pending
    ensures h in p.pending && p.pending[h] == RemovedAll(p, hs).pending[h]
  {
    if hs != [] {
      StillThere(p, hs[..|hs| - 1], h);
    }
  }

  /** Over every run, whatever is pending was admissible when it was added. */
  lemma {:induction false} PendingWasAdmissible(c: Config, ops: seq<Op>, states: seq<Pool>, i: nat, h: Bytes)
    requires IsRun(c, ops, states) && i <= |ops| && h in states[i].pending
    ensures states[i].pending[h].hash == h
    ensures exists k: nat :: k < i && TakenInAt(c, ops, states, states[i].pending[h], k)
  {
    hide Admissible, MayStep;
    PendingComesFrom(c, states[i - 1], ops[i - 1], states[i], h);
    if h in states[i - 1].pending && states[i - 1].pending[h] == states[i].pending[h] {
      PendingWasAdmissible(c, ops, states, i - 1, h);
    } else {
      assert TakenInAt(c, ops, states, states[i].pending[h], i - 1);
    }
  }

  // ---------------------------------------------------------------- the object

  method InsertByGasPrice(sorted: seq<Tx>, t: Tx) returns (r: seq<Tx>)
    requires Descending(sorted)
    ensures multiset(r) == multiset(sorted) + multiset{t} && Descending(r)
  {
    hide Descending;
    var k := 0;
    while k < |sorted| && sorted[k].gasPrice >= t.gasPrice
      invariant k <= |sorted| && forall j :: 0 <= j < k ==> sorted[j].gasPrice >= t.gasPrice
    {
      k := k + 1;
    }
    InsertAt(sorted, t, k);
    r := sorted[..k] + [t] + sorted[k..];
  }

  /** Stands in for `sort.Slice`: some descending arrangement. */
  method SortByGasPrice(txs: seq<Tx>) returns (sorted: seq<Tx>)
    ensures multiset(sorted) == multiset(txs) && Descending(sorted)
  {
    sorted := [];
    for i := 0 to |txs|
      invariant multiset(sorted) == multiset(txs[..i]) && Descending(sorted)
    {
      sorted := InsertByGasPrice(sorted, txs[i]);
      assert txs[..i + 1] == txs[..i] + [txs[i]];
    }
    assert txs[..|txs|] == txs;
  }

  lemma InsertAt(txs: seq<Tx>, t: Tx, k: nat)
    requires Descending(txs) && k <= |txs|
    requires (forall j :: 0 <= j < k ==> txs[j].gasPrice >= t.gasPrice) && (k < |txs| ==> txs[k].gasPrice < t.gasPrice)
    ensures Descending(txs[..k] + [t] + txs[k..])
    ensures multiset(txs[..k] + [t] + txs[k..]) == multiset(txs) + multiset{t}
  {
    assert txs == txs[..k] + txs[k..];
  }

  class TxPool {
    const config: Config
    var pending: map<Bytes, Tx>
    var byGasPrice: seq<Tx>

    constructor (config: Config)
      ensures this.config == config && State() == EMPTY
    {
      this.config := config;
      pending, byGasPrice := map[], [];
    }

    ghost function State(): Pool
      reads this
    {
      Pool(pending, byGasPrice)
    }

    method CountAccountTxs(account: Bytes) returns (count: nat)
      ensures count == |OfSender(pending, account)|
    {
      hide OfSender;
      count := 0;
      var left := pending.Keys;
      ghost var mine := OfSender(pending, account);
      assert mine - left == {} by { OfSenderIsPending(pending, account); }
      while left != {}
        invariant left <= pending.Keys && mine == OfSender(pending, account)
        invariant count == |mine - left|
        decreases |left|
      {
        var h :| h in left;
        OfSenderHas(pending, account, h);
        if pending[h].sender == Some(account) {
          count := count + 1;
          assert mine - (left - {h}) == (mine - left) + {h};
        } else {
          assert mine - (left - {h}) == mine - left;
        }
        left := left - {h};
      }
      assert mine - {} == mine;
    }

    method RemoveLocked(txHash: Bytes)
      modifies this
      ensures State() == Removed(old(State()), txHash)
    {
      if txHash in pending {
        pending := pending - {txHash};
        var i := 0;
        while i < |byGasPrice| && byGasPrice[i].hash != txHash
          invariant i <= |byGasPrice| && forall k :: 0 <= k < i ==> byGasPrice[k].hash != txHash
        {
          i := i + 1;
        }
        WithoutIs(byGasPrice, txHash, i);
        if i < |byGasPrice| {
          byGasPrice := byGasPrice[..i] + byGasPrice[i + 1..];
        }
      }
    }

    method RemoveConfirmed(hashes: seq<Bytes>)
      modifies this
      ensures State() == RemovedAll(old(State()), hashes)
    {
      for i := 0 to |hashes|
        invariant State() == RemovedAll(old(State()), hashes[..i])
      {
        assert hashes[..i + 1][..i] == hashes[..i];
        RemoveLocked(hashes[i]);
      }
      assert hashes[..|hashes|] == hashes;
    }

    method Clear()
      modifies this
      ensures State() == EMPTY
    {
      pending, byGasPrice := map[], [];
    }

    /** The search for a replaceable transaction, in whatever order the map offers. */
    method FindReplaceable(tx: Tx) returns (found: Option<Bytes>)
      ensures match found
              case Some(h) => Replaceable(State(), tx, h)
              case None => forall h :: !Replaceable(State(), tx, h)
    {
      var left := pending.Keys;
      while left != {}
        invariant left <= pending.Keys && forall h :: Replaceable(State(), tx, h) ==> h in left
        decreases |left|
      {
        var h :| h in left;
        var existing := pending[h];
        if existing.sender == tx.sender && existing.nonce == tx.nonce {
          var minPrice := Wrap(existing.gasPrice + existing.gasPrice / 10);
          if tx.gasPrice > minPrice {
            return Some(h);
          }
        }
        left := left - {h};
      }
      return None;
    }

    method Admit(tx: Tx, accountNonce: Option<U64>) returns (status: Status)
      ensures status == Admission(config, State(), tx, accountNonce)
    {
      if tx.sender.None? {
        return NoSender;
      }
      if tx.hash in pending {
        return Duplicate;
      }
      if tx.gasPrice < config.minGasPrice {
        return PriceTooLow;
      }
      if config.chainId != 0 && tx.chainId != 0 && tx.chainId != config.chainId {
        return WrongChain;
      }
      var accountTxs := CountAccountTxs(tx.sender.value);
      if accountTxs >= config.maxAccountTxs {
        return AccountLimit;
      }
      if accountNonce.Some? && tx.nonce < accountNonce.value {
        return NonceTooLow;
      }
      return Added;
    }

    method Add(tx: Tx, accountNonce: Option<U64>) returns (status: Status)
      modifies this
      ensures MayAdd(config, old(State()), tx, accountNonce, State(), status)
    {
      hide Admission, Replaceable, Removed, Descending;
      status := Admit(tx, accountNonce);
      if status != Added {
        return;
      }
      if |pending| >= config.maxTransactions {
        var found := FindReplaceable(tx);
        if found.None? {
          return PoolFull;
        }
        RemoveLocked(found.value);
        assert Replaceable(old(State()), tx, found.value) && State() == Removed(old(State()), found.value);
      }
      ghost var before := State();
      pending := pending[tx.hash := tx];
      byGasPrice := SortByGasPrice(byGasPrice + [tx]);
      assert Inserted(before, tx, State());
    }

    /** `rebuildByGasPrice`. */
    method RebuildByGasPrice()
      requires Keyed(pending)
      modifies this`byGasPrice
      ensures Listed(State()) && Descending(byGasPrice)
    {
      var txs: seq<Tx>, left := [], pending.Keys;
      while left != {}
        invariant left <= pending.Keys
        invariant forall t: Tx :: multiset(txs)[t] == Once(Holds(pending, t) && t.hash !in left)
        decreases |left|
      {
        var h :| h in left;
        assert multiset(txs + [pending[h]]) == multiset(txs) + multiset{pending[h]};
        txs, left := txs + [pending[h]], left - {h};
      }
      byGasPrice := SortByGasPrice(txs);
    }

    method Evict(count: int) returns (removed: nat)
      requires Valid(config, State())
      modifies this
      ensures MayEvict(old(State()), count, State(), removed)
    {
      hide Listed, Evicting, MayEvict;
      removed := 0;
      EvictingNone(State());
      var i := |byGasPrice| - 1;
      while i >= 0 && removed < count
        invariant i == |byGasPrice| - 1 - removed && removed <= AtLeastZero(count)
        invariant byGasPrice == old(byGasPrice) && pending.Keys <= old(pending).Keys
        invariant Evicting(old(State()), removed, pending) && Keyed(pending)
        decreases i
      {
        var hash := byGasPrice[i].hash;
        EvictingOne(old(State()), removed, pending);
        if hash in pending {
          pending := pending - {hash};
          removed := removed + 1;
        }
        i := i - 1;
      }
      RebuildByGasPrice();
      EvictingDone(old(State()), count, State(), removed);
    }
  }

  /** The last `k` transactions of the list have left the map. */
  ghost predicate Evicting(p: Pool, k: nat, left: map<Bytes, Tx>) {
    k <= |p.byGasPrice| && left == p.pending - HashesOf(p.byGasPrice[|p.byGasPrice| - k..])
  }

  lemma EvictingNone(p: Pool)
    ensures Evicting(p, 0, p.pending)
  {
    assert p.byGasPrice[|p.byGasPrice|..] == [];
  }

  /** Walking the list from its end, each transaction met is still in the map. */
  lemma EvictingOne(p: Pool, k: nat, left: map<Bytes, Tx>)
    requires Listed(p) && Evicting(p, k, left) && k < |p.byGasPrice|
    ensures var t := p.byGasPrice[|p.byGasPrice| - 1 - k];
            t.hash in left && Evicting(p, k + 1, left - {t.hash})
  {
    hide Listed, HashesOf;
    StillPending(p, |p.byGasPrice| - 1 - k);
    TailHashes(p.byGasPrice, |p.byGasPrice| - 1 - k);
  }

  lemma EvictingDone(p: Pool, count: int, q: Pool, removed: nat)
    requires Evicting(p, removed, q.pending) && removed <= AtLeastZero(count)
    requires removed < |p.byGasPrice| ==> removed >= count
    requires Listed(q) && Descending(q.byGasPrice)
    ensures MayEvict(p, count, q, removed)
  {
    hide Listed, Descending, HashesOf;
  }

  lemma OfSenderIsPending(pending: map<Bytes, Tx>, s: Bytes)
    ensures OfSender(pending, s) <= pending.Keys
  {
  }

  lemma OfSenderHas(pending: map<Bytes, Tx>, s: Bytes, h: Bytes)
    requires h in pending
    ensures h in OfSender(pending, s) <==> pending[h].sender == Some(s)
  {
  }

  lemma {:induction false} WithoutIs(txs: seq<Tx>, h: Bytes, i: nat)
    requires i <= |txs| && (forall k :: 0 <= k < i ==> txs[k].hash != h) && (i < |txs| ==> txs[i].hash == h)
    ensures Without(txs, h) == if i < |txs| then txs[..i] + txs[i + 1..] else txs
  {
    if i > 0 {
      WithoutIs(txs[1..], h, i - 1);
      assert txs == [txs[0]] + txs[1..];
    }
  }

  lemma StillPending(p: Pool, i: nat)
    requires Listed(p) && i < |p.byGasPrice|
    ensures p.byGasPrice[i].hash in p.pending - HashesOf(p.byGasPrice[i + 1..])
  {
    var t := p.byGasPrice[i];
    ListedMembers(p, t);
    var tail := p.byGasPrice[i + 1..];
    if t.hash in HashesOf(tail) {
      var k :| 0 <= k < |tail| && tail[k].hash == t.hash;
      ListedOnce(p, i, i + 1 + k);
      assert false;
    }
  }
}
