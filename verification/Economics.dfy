/** Issuance and fee accounting. Amounts are unbounded non-negative integers, as `big.Int` values are;
    a halving interval of zero divides by zero and is excluded. */
module Economics {
  import opened Words

  datatype Config = Config(blockReward: nat, maxSupply: nat, initialSupply: nat, halvingInterval: U64,
                           validatorShare: nat, burnShare: nat)

  datatype Tx = Tx(gasPrice: U64, gasLimit: U64)

  datatype Econ = Econ(circulating: nat, burned: nat, totalFees: nat, height: U64)

  datatype BlockEconomics = BlockEconomics(height: U64, reward: nat, fees: nat, validatorFees: nat, burnedFees: nat,
                                           issuance: nat, circulating: nat)

  const DEFAULT := Config(1_000_000_000_000_000_000, 100_000_000_000_000_000_000_000_000,
                          10_000_000_000_000_000_000_000_000, 2_100_000, 80, 10)

  // ---------------------------------------------------------------- rewards

  function Halved(reward: nat, epochs: nat): nat {
    if epochs == 0 then reward else Halved(reward, epochs - 1) / 2
  }

  /** `CalculateBlockReward`. */
  function Reward(c: Config, height: nat): nat
    requires c.halvingInterval > 0
  {
    EpochReward(c, height / c.halvingInterval)
  }

  function EpochReward(c: Config, epoch: nat): nat {
    if epoch >= 64 then 0 else Halved(c.blockReward, epoch)
  }

  function Pow2(n: nat): (p: nat)
    ensures p > 0
  {
    if n == 0 then 1 else 2 * Pow2(n - 1)
  }

  lemma QuotientIs(a: nat, n: nat, q: nat, r: nat)
    requires n > 0 && r < n && a == q * n + r
    ensures a / n == q
  {
    RemainderIs(a, n, q, r);
    assert a == (a / n) * n + a % n;
    assert (a / n - q) * n == 0;
    SmallMultiple(a / n - q, n);
  }

  lemma DivideTwice(a: nat, n: nat)
    requires n > 0
    ensures a / n / 2 == a / (2 * n)
  {
    var q, r := a / n, a % n;
    assert a == q * n + r;
    var h, b := q / 2, q % 2;
    assert q == 2 * h + b;
    assert a == h * (2 * n) + (b * n + r) by {
      assert (2 * h + b) * n == h * (2 * n) + b * n;
    }
    assert b * n + r < 2 * n by {
      assert b == 0 || b == 1;
    }
    QuotientIs(a, 2 * n, h, b * n + r);
  }

  /** Halving once per epoch, rounding each time, is dividing once by the power of two. */
  lemma {:induction false} NestedHalving(reward: nat, epochs: nat)
    ensures Halved(reward, epochs) == reward / Pow2(epochs)
  {
    if epochs > 0 {
      NestedHalving(reward, epochs - 1);
      DivideTwice(reward, Pow2(epochs - 1));
    }
  }

  /** The rewards of the first `n` heights. */
  function Issued(c: Config, n: nat): nat
    requires c.halvingInterval > 0
  {
    if n == 0 then 0 else Issued(c, n - 1) + Reward(c, n - 1)
  }

  /** One reward of each of the first `k` epochs. */
  function PerEpoch(c: Config, k: nat): nat {
    if k == 0 then 0 else PerEpoch(c, k - 1) + EpochReward(c, k - 1)
  }

  /** The halved rewards sum to at most twice the first. */
  lemma {:induction false} EpochsSum(c: Config, k: nat)
    ensures PerEpoch(c, k + 1) + EpochReward(c, k) <= 2 * c.blockReward
  {
    if k == 0 {
      assert PerEpoch(c, 1) == PerEpoch(c, 0) + EpochReward(c, 0);
    } else {
      EpochsSum(c, k - 1);
      HalvesAgain(c, k);
    }
  }

  lemma HalvesAgain(c: Config, k: nat)
    requires k > 0
    ensures 2 * EpochReward(c, k) <= EpochReward(c, k - 1)
  {
  }

  function Epoch(c: Config, n: nat): nat
    requires c.halvingInterval > 0
  {
    n / c.halvingInterval
  }

  function Offset(c: Config, n: nat): (r: nat)
    requires c.halvingInterval > 0
    ensures r < c.halvingInterval
  {
    n % c.halvingInterval
  }

  lemma NextHeight(c: Config, n: nat)
    requires c.halvingInterval > 0
    ensures Epoch(c, 0) == Offset(c, 0) == 0
    ensures Offset(c, n) == c.halvingInterval - 1 ==> Epoch(c, n + 1) == Epoch(c, n) + 1 && Offset(c, n + 1) == 0
    ensures Offset(c, n) != c.halvingInterval - 1 ==>
              Epoch(c, n + 1) == Epoch(c, n) && Offset(c, n + 1) == Offset(c, n) + 1
  {
    var interval: nat := c.halvingInterval;
    var q, r := n / interval, n % interval;
    assert n == q * interval + r;
    QuotientIs(0, interval, 0, 0);
    if r == interval - 1 {
      assert n + 1 == (q + 1) * interval + 0;
      QuotientIs(n + 1, interval, q + 1, 0);
      RemainderIs(n + 1, interval, q + 1, 0);
    } else {
      QuotientIs(n + 1, interval, q, r + 1);
      RemainderIs(n + 1, interval, q, r + 1);
    }
  }

  /** `q` whole epochs and `r` heights of the next. */
  function ByEpochs(c: Config, q: nat, r: nat): int {
    c.halvingInterval * PerEpoch(c, q) + r * EpochReward(c, q)
  }

  lemma ByEpochsNext(c: Config, q: nat, r: nat)
    requires r < c.halvingInterval
    ensures ByEpochs(c, q, r) + EpochReward(c, q)
         == if r == c.halvingInterval - 1 then ByEpochs(c, q + 1, 0) else ByEpochs(c, q, r + 1)
  {
    var sum, reward := PerEpoch(c, q), EpochReward(c, q);
    assert PerEpoch(c, q + 1) == sum + reward;
    assert (r + 1) * reward == r * reward + reward;
    assert c.halvingInterval * (sum + reward) == c.halvingInterval * sum + c.halvingInterval * reward;
  }

  lemma NoneIssued(c: Config)
    requires c.halvingInterval > 0
    ensures Issued(c, 0) == ByEpochs(c, 0, 0) == 0
  {
    assert PerEpoch(c, 0) == 0;
  }

  lemma IssuedNext(c: Config, n: nat)
    requires c.halvingInterval > 0
    ensures Issued(c, n + 1) == Issued(c, n) + EpochReward(c, Epoch(c, n))
  {
    hide EpochReward;
  }

  lemma {:induction false} IssuedByEpochs(c: Config, n: nat)
    requires c.halvingInterval > 0
    ensures Issued(c, n) == ByEpochs(c, Epoch(c, n), Offset(c, n))
  {
    hide *;
    if n == 0 {
      NextHeight(c, 0);
      NoneIssued(c);
    } else {
      IssuedByEpochs(c, n - 1);
      NextHeight(c, n - 1);
      IssuedNext(c, n - 1);
      ByEpochsNext(c, Epoch(c, n - 1), Offset(c, n - 1));
    }
  }

  lemma TimesMonotone(a: nat, b: nat, n: nat)
    requires a <= b
    ensures n * a <= n * b
  {
  }

  lemma ByEpochsBound(c: Config, q: nat, r: nat)
    requires r <= c.halvingInterval
    ensures ByEpochs(c, q, r) <= 2 * c.halvingInterval * c.blockReward
  {
    hide EpochReward;
    var interval: nat, sum, reward := c.halvingInterval, PerEpoch(c, q), EpochReward(c, q);
    EpochsSum(c, q);
    assert PerEpoch(c, q + 1) == sum + reward;
    TimesMonotone(r, interval, reward);
    TimesMonotone(sum + reward, 2 * c.blockReward, interval);
    assert reward * r == r * reward && reward * interval == interval * reward;
    assert interval * (sum + reward) == interval * sum + interval * reward;
  }

  /** The series bound: the rewards of any number of heights sum to at most twice one interval at the
      full reward. */
  lemma {:induction false} IssuanceBound(c: Config, n: nat)
    requires c.halvingInterval > 0
    ensures Issued(c, n) <= 2 * c.halvingInterval * c.blockReward
  {
    hide *;
    IssuedByEpochs(c, n);
    ByEpochsBound(c, Epoch(c, n), Offset(c, n));
  }

  // ---------------------------------------------------------------- fees

  function Fees(txs: seq<Tx>): nat {
    if txs == [] then 0
    else Fees(txs[..|txs| - 1]) + txs[|txs| - 1].gasPrice * txs[|txs| - 1].gasLimit
  }

  function Share(fees: nat, percent: nat): nat {
    fees * percent / 100
  }

  /** Validator and burn shares never exceed the fees as long as they are at most a hundred percent
      together; what is left is at least the rest, and the rounding loses less than two units. */
  lemma SharesWithinFees(fees: nat, validator: nat, burn: nat)
    requires validator + burn <= 100
    ensures Share(fees, validator) + Share(fees, burn) <= fees
    ensures 100 * (Share(fees, validator) + Share(fees, burn)) > fees * (validator + burn) - 200
  {
    assert fees * validator + fees * burn == fees * (validator + burn);
    TimesMonotone(validator + burn, 100, fees);
  }

  // ---------------------------------------------------------------- processing a block

  /** `ProcessBlock`. Fees count as issuance, and the burnt part is recorded but not subtracted. */
  function Process(c: Config, e: Econ, txs: seq<Tx>, height: U64): (Econ, Option<BlockEconomics>)
    requires c.halvingInterval > 0
  {
    var reward, fees := Reward(c, height), Fees(txs);
    var circulating := e.circulating + (reward + fees);
    if circulating > c.maxSupply then (e, None)
    else
      (Econ(circulating, e.burned + Share(fees, c.burnShare), e.totalFees + fees, height),
       Some(BlockEconomics(height, reward, fees, Share(fees, c.validatorShare), Share(fees, c.burnShare),
                           reward + fees, circulating)))
  }

  datatype Block = Block(txs: seq<Tx>, height: U64)

  function Fresh(c: Config): Econ {
    Econ(c.initialSupply, 0, 0, 0)
  }

  function Run(c: Config, blocks: seq<Block>): Econ
    requires c.halvingInterval > 0
  {
    if blocks == [] then Fresh(c)
    else Process(c, Run(c, blocks[..|blocks| - 1]), blocks[|blocks| - 1].txs, blocks[|blocks| - 1].height).0
  }

  predicate Accepted(c: Config, blocks: seq<Block>)
    requires c.halvingInterval > 0 && blocks != []
  {
    Process(c, Run(c, blocks[..|blocks| - 1]), blocks[|blocks| - 1].txs, blocks[|blocks| - 1].height).1.Some?
  }

  /** The rewards of the blocks that were accepted. */
  function Minted(c: Config, blocks: seq<Block>): nat
    requires c.halvingInterval > 0
  {
    if blocks == [] then 0
    else Minted(c, blocks[..|blocks| - 1]) + if Accepted(c, blocks) then Reward(c, blocks[|blocks| - 1].height) else 0
  }

  /** Over every run from a supply within the cap, the circulating supply stays within the cap and is
      exactly the initial supply, the accepted rewards and the accepted fees; the burnt amount never
      exceeds the fees when its share is at most a hundred percent. */
  lemma {:induction false} SupplyStaysCapped(c: Config, blocks: seq<Block>)
    requires c.halvingInterval > 0 && c.initialSupply <= c.maxSupply
    ensures Run(c, blocks).circulating <= c.maxSupply
    ensures Run(c, blocks).circulating == c.initialSupply + Minted(c, blocks) + Run(c, blocks).totalFees
    ensures c.burnShare <= 100 ==> Run(c, blocks).burned <= Run(c, blocks).totalFees
  {
    hide Reward, Share, Fees;
    if blocks != [] {
      SupplyStaysCapped(c, blocks[..|blocks| - 1]);
      if c.burnShare <= 100 {
        ShareWithin(Fees(blocks[|blocks| - 1].txs), c.burnShare);
      }
    }
  }

  lemma ShareWithin(fees: nat, percent: nat)
    requires percent <= 100
    ensures Share(fees, percent) <= fees
  {
    SharesWithinFees(fees, percent, 0);
  }

  /** One transaction pays its price for all the gas it asks for. */
  lemma FeeOfOne(tx: Tx)
    ensures Fees([tx]) == tx.gasPrice * tx.gasLimit
  {
    assert [tx][..0] == [];
  }

  /** Blocks pay what their parts pay, so the order of the transactions does not matter. */
  lemma {:induction false} FeesAdd(a: seq<Tx>, b: seq<Tx>)
    ensures Fees(a + b) == Fees(a) + Fees(b)
  {
    if b == [] {
      assert a + b == a;
    } else {
      FeesAdd(a, b[..|b| - 1]);
      assert (a + b)[..|a + b| - 1] == a + b[..|b| - 1];
    }
  }

  /** The receipt of an accepted block accounts for the change of state: what circulates more, what was burnt and
      what the fees grew by; the shares are whole hundredths of the fees, rounded down. */
  lemma ReceiptAccounts(c: Config, e: Econ, txs: seq<Tx>, height: U64)
    requires c.halvingInterval > 0 && Process(c, e, txs, height).1.Some?
    ensures var (e', receipt) := (Process(c, e, txs, height).0, Process(c, e, txs, height).1.value);
            && receipt.height == e'.height == height && receipt.circulating == e'.circulating <= c.maxSupply
            && e'.circulating - e.circulating == receipt.issuance == receipt.reward + receipt.fees
            && e'.totalFees - e.totalFees == receipt.fees
            && e'.burned - e.burned == receipt.burnedFees
            && 100 * receipt.validatorFees <= receipt.fees * c.validatorShare < 100 * receipt.validatorFees + 100
            && 100 * receipt.burnedFees <= receipt.fees * c.burnShare < 100 * receipt.burnedFees + 100
  {
    hide Reward, Fees;
    var fees := Fees(txs);
    WholeHundredths(fees * c.validatorShare);
    WholeHundredths(fees * c.burnShare);
  }

  lemma WholeHundredths(x: nat)
    ensures 100 * (x / 100) <= x < 100 * (x / 100) + 100
  {
  }

  /** The reward at a height in the `k`-th interval is the block reward halved `k` times, rounded down, and
      nothing from the sixty-fourth interval on. */
  lemma RewardInInterval(c: Config, k: nat, height: nat)
    requires c.halvingInterval > 0 && k * c.halvingInterval <= height < (k + 1) * c.halvingInterval
    ensures Reward(c, height) == if k < 64 then c.blockReward / Pow2(k) else 0
  {
    var interval: nat := c.halvingInterval;
    assert (k + 1) * interval == k * interval + interval;
    QuotientIs(height, interval, k, height - k * interval);
    NestedHalving(c.blockReward, k);
  }

  /** A block is refused exactly when it would exceed the cap, and then nothing changes. */
  lemma RefusedIff(c: Config, e: Econ, txs: seq<Tx>, height: U64)
    requires c.halvingInterval > 0
    ensures Process(c, e, txs, height).1.None? <==> e.circulating + Reward(c, height) + Fees(txs) > c.maxSupply
    ensures Process(c, e, txs, height).1.None? ==> Process(c, e, txs, height).0 == e
  {
  }

  // ---------------------------------------------------------------- blocks without fees

  ghost predicate Ascending(blocks: seq<Block>) {
    forall i, j :: 0 <= i < j < |blocks| ==> blocks[i].height < blocks[j].height
  }

  ghost predicate FeeFree(blocks: seq<Block>) {
    forall i :: 0 <= i < |blocks| ==> Fees(blocks[i].txs) == 0
  }

  lemma {:induction false} IssuedMonotone(c: Config, m: nat, n: nat)
    requires c.halvingInterval > 0 && m <= n
    ensures Issued(c, m) <= Issued(c, n)
    decreases n - m
  {
    if m < n {
      IssuedMonotone(c, m, n - 1);
    }
  }

  function HeightsPassed(blocks: seq<Block>): nat {
    if blocks == [] then 0 else blocks[|blocks| - 1].height + 1
  }

  lemma {:induction false} FeeFreeSupply(c: Config, blocks: seq<Block>)
    requires c.halvingInterval > 0 && Ascending(blocks) && FeeFree(blocks)
    ensures Run(c, blocks).circulating <= c.initialSupply + Issued(c, HeightsPassed(blocks))
  {
    hide Reward;
    if blocks != [] {
      var front, last := blocks[..|blocks| - 1], blocks[|blocks| - 1];
      FeeFreeSupply(c, front);
      assert HeightsPassed(front) <= last.height;
      IssuedMonotone(c, HeightsPassed(front), last.height);
      assert Issued(c, last.height + 1) == Issued(c, last.height) + Reward(c, last.height);
    }
  }

  /** Blocks without fees at rising heights are never refused when the cap leaves room for twice one
      interval of full rewards. */
  lemma {:induction false} FeeFreeBlocksNeverFail(c: Config, blocks: seq<Block>)
    requires c.halvingInterval > 0 && blocks != [] && Ascending(blocks) && FeeFree(blocks)
    requires c.initialSupply + 2 * c.halvingInterval * c.blockReward <= c.maxSupply
    ensures Accepted(c, blocks)
  {
    hide Reward;
    var front, last := blocks[..|blocks| - 1], blocks[|blocks| - 1];
    FeeFreeSupply(c, front);
    assert HeightsPassed(front) <= last.height;
    IssuedMonotone(c, HeightsPassed(front), last.height);
    assert Issued(c, last.height + 1) == Issued(c, last.height) + Reward(c, last.height);
    IssuanceBound(c, last.height + 1);
  }

  /** The default configuration leaves that room. */
  lemma DefaultNeverFails(blocks: seq<Block>)
    requires blocks != [] && Ascending(blocks) && FeeFree(blocks)
    ensures Accepted(DEFAULT, blocks)
  {
    assert DEFAULT.initialSupply + 2 * DEFAULT.halvingInterval * DEFAULT.blockReward <= DEFAULT.maxSupply;
    FeeFreeBlocksNeverFail(DEFAULT, blocks);
  }

  // ---------------------------------------------------------------- the object

  class Economics {
    const config: Config
    const totalSupply: nat
    var circulatingSupply: nat
    var burned: nat
    var totalFees: nat
    var blockHeight: U64

    constructor (config: Config)
      ensures this.config == config && totalSupply == config.maxSupply && State() == Fresh(config)
    {
      this.config, totalSupply := config, config.maxSupply;
      circulatingSupply, burned, totalFees, blockHeight := config.initialSupply, 0, 0, 0;
    }

    ghost function State(): Econ
      reads this
    {
      Econ(circulatingSupply, burned, totalFees, blockHeight)
    }

    method CalculateBlockReward(height: U64) returns (reward: nat)
      requires config.halvingInterval > 0
      ensures reward == Reward(config, height)
    {
      var epochs := height / config.halvingInterval;
      if epochs >= 64 {
        return 0;
      }
      reward := config.blockReward;
      for i := 0 to epochs
        invariant reward == Halved(config.blockReward, i)
      {
        reward := reward / 2;
      }
    }

    method CalculateFees(txs: seq<Tx>) returns (totalFee: nat, validatorFees: nat, burnFees: nat)
      ensures totalFee == Fees(txs)
      ensures validatorFees == Share(totalFee, config.validatorShare) && burnFees == Share(totalFee, config.burnShare)
    {
      totalFee := 0;
      for i := 0 to |txs|
        invariant totalFee == Fees(txs[..i])
      {
        assert txs[..i + 1][..i] == txs[..i];
        var txFee: nat := txs[i].gasPrice * txs[i].gasLimit;
        totalFee := totalFee + txFee;
      }
      assert txs[..|txs|] == txs;
      validatorFees := totalFee * config.validatorShare / 100;
      burnFees := totalFee * config.burnShare / 100;
    }

    method ProcessBlock(txs: seq<Tx>, height: U64) returns (r: Option<BlockEconomics>)
      requires config.halvingInterval > 0 && totalSupply == config.maxSupply
      modifies this
      ensures (State(), r) == Process(config, old(State()), txs, height)
    {
      var reward := CalculateBlockReward(height);
      var fees, validatorFees, burnFees := CalculateFees(txs);
      var totalIssuance := reward + fees;
      var newCirculating := circulatingSupply + totalIssuance;
      if newCirculating > totalSupply {
        return None;
      }
      circulatingSupply := newCirculating;
      burned := burned + burnFees;
      totalFees := totalFees + fees;
      blockHeight := height;
      return Some(BlockEconomics(height, reward, fees, validatorFees, burnFees, totalIssuance, circulatingSupply));
    }
  }
}
