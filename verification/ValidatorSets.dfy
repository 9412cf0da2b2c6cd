/** The stake-weighted validator set: quorum test, proposer choice and membership updates.

    `VSet` is the value a `ValidatorSet` object holds; the class below carries the source's
    loops and is proved against the functions on `VSet`. */
module ValidatorSets {
  import opened Words
  import opened HexText

  datatype Validator = Validator(address: Bytes, publicKey: Bytes, stake: U64, isActive: bool, isJailed: bool)

  datatype VSet = VSet(validators: seq<Validator>, totalStake: U64, epoch: U64)

  // ---------------------------------------------------------------- stake accounting

  function Sum(vals: seq<Validator>): nat {
    if vals == [] then 0 else Sum(vals[..|vals| - 1]) + vals[|vals| - 1].stake
  }

  /** Stake of the addresses in `who`; an address counts once, at its first entry. */
  function StakeIn(vals: seq<Validator>, who: set<Bytes>): nat {
    if vals == [] then 0
    else (if vals[0].address in who then vals[0].stake else 0) + StakeIn(vals[1..], who - {vals[0].address})
  }

  function StakeOf(vals: seq<Validator>, a: Bytes): nat {
    if vals == [] then 0 else if vals[0].address == a then vals[0].stake else StakeOf(vals[1..], a)
  }

  ghost predicate StrictlySorted(vals: seq<Validator>) {
    forall i, j :: 0 <= i < j < |vals| ==> Compare(vals[i].address, vals[j].address) < 0
  }

  ghost predicate DistinctAddresses(vals: seq<Validator>) {
    forall i, j :: 0 <= i < j < |vals| ==> vals[i].address != vals[j].address
  }

  /** What `NewValidatorSet`, `AddValidator`, `RemoveValidator` and `UpdateStake` keep. */
  ghost predicate WellFormed(vs: VSet) {
    StrictlySorted(vs.validators) && vs.totalStake == Sum(vs.validators)
  }

  /** The same when the total may have wrapped: what holds of every set built from distinct addresses. */
  ghost predicate Consistent(vs: VSet) {
    StrictlySorted(vs.validators) && vs.totalStake == Wrap(Sum(vs.validators))
  }

  /** The range in which the quorum test's products stay below 2^64. */
  ghost predicate Bounded(vs: VSet) {
    3 * Sum(vs.validators) < TWO64
  }

  lemma {:induction false} SumSplit(a: seq<Validator>, b: seq<Validator>)
    ensures Sum(a + b) == Sum(a) + Sum(b)
  {
    if b == [] {
      assert a + b == a;
    } else {
      assert (a + b)[..|a + b| - 1] == a + b[..|b| - 1];
      SumSplit(a, b[..|b| - 1]);
    }
  }

  lemma SumFront(vals: seq<Validator>)
    requires vals != []
    ensures Sum(vals) == vals[0].stake + Sum(vals[1..])
  {
    assert vals == [vals[0]] + vals[1..];
    SumSplit([vals[0]], vals[1..]);
    assert [vals[0]][..0] == [];
  }

  lemma {:induction false} StakeInAtMostSum(vals: seq<Validator>, who: set<Bytes>)
    ensures StakeIn(vals, who) <= Sum(vals)
  {
    if vals != [] {
      SumFront(vals);
      StakeInAtMostSum(vals[1..], who - {vals[0].address});
    }
  }

  lemma {:induction false} StakeInNobody(vals: seq<Validator>)
    ensures StakeIn(vals, {}) == 0
  {
    if vals != [] {
      assert {} - {vals[0].address} == {};
      StakeInNobody(vals[1..]);
    }
  }

  /** Inclusion and exclusion for stake. */
  lemma {:induction false} StakeInUnionIntersection(vals: seq<Validator>, s: set<Bytes>, t: set<Bytes>)
    ensures StakeIn(vals, s) + StakeIn(vals, t) == StakeIn(vals, s + t) + StakeIn(vals, s * t)
  {
    if vals != [] {
      var a := vals[0].address;
      StakeInUnionIntersection(vals[1..], s - {a}, t - {a});
      assert (s - {a}) + (t - {a}) == (s + t) - {a};
      assert (s - {a}) * (t - {a}) == (s * t) - {a};
    }
  }

  lemma StakeInMonotone(vals: seq<Validator>, s: set<Bytes>, t: set<Bytes>)
    requires s <= t
    ensures StakeIn(vals, s) <= StakeIn(vals, t)
  {
    StakeInUnionIntersection(vals, s, t - s);
    assert s + (t - s) == t;
    assert s * (t - s) == {};
    StakeInNobody(vals);
  }

  lemma {:induction false} StakeInOne(vals: seq<Validator>, a: Bytes)
    ensures StakeIn(vals, {a}) == StakeOf(vals, a)
  {
    if vals != [] {
      if vals[0].address == a {
        assert {a} - {vals[0].address} == {};
        StakeInNobody(vals[1..]);
      } else {
        assert {a} - {vals[0].address} == {a};
        StakeInOne(vals[1..], a);
      }
    }
  }

  /** Adding one signer adds its stake. */
  lemma StakeInGrows(vals: seq<Validator>, who: set<Bytes>, a: Bytes)
    requires a !in who
    ensures StakeIn(vals, who + {a}) == StakeIn(vals, who) + StakeOf(vals, a)
  {
    StakeInUnionIntersection(vals, who, {a});
    assert who * {a} == {};
    StakeInNobody(vals);
    StakeInOne(vals, a);
  }

  // ---------------------------------------------------------------- quorum

  /** The test of `HasSuperMajority` and `QC.IsValid`, with the products wrapping as `uint64`. */
  function SuperMajority(vs: VSet, who: set<Bytes>): bool {
    Wrap(Wrap(StakeIn(vs.validators, who)) * 3) > Wrap(vs.totalStake * 2)
  }

  function QuorumStake(vs: VSet): U64 {
    Wrap(Wrap(vs.totalStake * 2) / 3 + 1)
  }

  /** Within the bound the wrapping test is the real two-thirds test. */
  lemma SuperMajorityMeaning(vs: VSet, who: set<Bytes>)
    requires WellFormed(vs) && Bounded(vs)
    ensures SuperMajority(vs, who) <==> 3 * StakeIn(vs.validators, who) > 2 * Sum(vs.validators)
  {
    StakeInAtMostSum(vs.validators, who);
  }

  /** `CalculateQuorumStake` is the least stake that passes `HasSuperMajority`. */
  lemma QuorumStakeIsThreshold(vs: VSet, who: set<Bytes>)
    requires WellFormed(vs) && Bounded(vs)
    ensures SuperMajority(vs, who) <==> StakeIn(vs.validators, who) >= QuorumStake(vs)
  {
    SuperMajorityMeaning(vs, who);
  }

  /** Two validators that share a total so that the wrapped test misjudges the first of them. */
  function Split(total: U64): VSet {
    var s := if 2 * total < TWO64 then total else (2 * total - TWO64) / 3 + 1;
    VSet([Validator([0], [], s, true, false), Validator([1], [], total - s, true, false)], total, 0)
  }

  lemma SplitStakes(total: U64)
    ensures WellFormed(Split(total))
    ensures StakeIn(Split(total).validators, {[0]}) == Split(total).validators[0].stake
  {
    var vals := Split(total).validators;
    SumFront(vals);
    SumFront(vals[1..]);
    StakeInOne(vals, [0]);
  }

  /** From the bound on, the products wrap and the test goes wrong: it refuses everybody, or accepts a
      group with less than two thirds. */
  lemma WrappedQuorumFails(total: U64)
    requires 3 * total >= TWO64
    ensures var vs := Split(total);
            && WellFormed(vs) && vs.totalStake == total
            && SuperMajority(vs, {[0]}) != (3 * StakeIn(vs.validators, {[0]}) > 2 * total)
  {
    hide SuperMajority, WellFormed;
    SplitStakes(total);
    var s: int := Split(total).validators[0].stake;
    SuperMajorityIs(Split(total), {[0]}, s);
    if 2 * total < TWO64 {
      WrapsOnce(3 * s);
    } else {
      WrapsOnce(2 * total);
    }
  }

  lemma SuperMajorityIs(vs: VSet, who: set<Bytes>, s: U64)
    requires StakeIn(vs.validators, who) == s
    ensures SuperMajority(vs, who) <==> Wrap(3 * s) > Wrap(2 * vs.totalStake)
  {
    hide Wrap;
    assert s * 3 == 3 * s && vs.totalStake * 2 == 2 * vs.totalStake;
  }

  /** The bound is exact: the wrapped test is right for every well-formed set with a given total and
      every group of signers if and only if three times the total fits 64 bits. */
  lemma QuorumTestExactIff(total: U64)
    ensures 3 * total < TWO64 <==>
            forall vs: VSet, who: set<Bytes> :: WellFormed(vs) && vs.totalStake == total ==>
              (SuperMajority(vs, who) <==> 3 * StakeIn(vs.validators, who) > 2 * total)
  {
    if 3 * total < TWO64 {
      forall vs: VSet, who: set<Bytes> | WellFormed(vs) && vs.totalStake == total
        ensures SuperMajority(vs, who) <==> 3 * StakeIn(vs.validators, who) > 2 * total
      {
        SuperMajorityMeaning(vs, who);
      }
    } else {
      WrappedQuorumFails(total);
    }
  }

  /** Two quorums of one set share more than a third of its stake. */
  lemma QuorumsIntersect(vs: VSet, s: set<Bytes>, t: set<Bytes>)
    requires WellFormed(vs) && Bounded(vs) && SuperMajority(vs, s) && SuperMajority(vs, t)
    ensures 3 * StakeIn(vs.validators, s * t) > Sum(vs.validators)
  {
    SuperMajorityMeaning(vs, s);
    SuperMajorityMeaning(vs, t);
    StakeInUnionIntersection(vs.validators, s, t);
    StakeInAtMostSum(vs.validators, s + t);
  }

  lemma SuperMajorityNotEmpty(vs: VSet, who: set<Bytes>)
    requires SuperMajority(vs, who)
    ensures |vs.validators| > 0
  {
    if vs.validators == [] {
      assert false;
    }
  }

  // ---------------------------------------------------------------- counting texts

  /** The texts that name an address. */
  function Naming(ts: set<Text>, a: Bytes): set<Text> {
    set t | t in ts && Lenient(t) == Some(a)
  }

  /** The stake a set of texts is counted for: every text adds the stake of the validator it names, so
      a validator counts once for each text that names it. */
  function TextStake(vals: seq<Validator>, ts: set<Text>): nat {
    if vals == [] then 0
    else
      var named := Naming(ts, vals[0].address);
      |named| * vals[0].stake + TextStake(vals[1..], ts - named)
  }

  /** The test of `HasSuperMajority`, `QC.IsValid` and `validateTimeoutCert`, whose maps are keyed by text. */
  predicate TextSuperMajority(vs: VSet, ts: set<Text>) {
    Wrap(Wrap(TextStake(vs.validators, ts)) * 3) > Wrap(vs.totalStake * 2)
  }

  /** The addresses a set of texts names. */
  function Signers(ts: set<Text>): set<Bytes> {
    set t | t in ts && Lenient(t).Some? :: Lenient(t).value
  }

  function NamedStake(vals: seq<Validator>, t: Text): nat {
    if Lenient(t).Some? then StakeOf(vals, Lenient(t).value) else 0
  }

  /** No two texts name one validator with stake. */
  ghost predicate NamesEachOnce(vals: seq<Validator>, ts: set<Text>) {
    forall t, u :: t in ts && u in ts && t != u && Lenient(t).Some? && Lenient(t) == Lenient(u) ==>
      StakeOf(vals, Lenient(t).value) == 0
  }

  lemma {:induction false} TextStakeOfNone(vals: seq<Validator>)
    ensures TextStake(vals, {}) == 0
  {
    if vals != [] {
      var none: set<Text> := {};
      assert Naming(none, vals[0].address) == {} && none - {} == none;
      TextStakeOfNone(vals[1..]);
    }
  }

  /** One more text adds the stake of the validator it names. */
  lemma {:induction false} TextStakeGrows(vals: seq<Validator>, ts: set<Text>, t: Text)
    requires t !in ts
    ensures TextStake(vals, ts + {t}) == TextStake(vals, ts) + NamedStake(vals, t)
  {
    hide Lenient;
    if vals != [] {
      var a := vals[0].address;
      var named := Naming(ts, a);
      if Lenient(t) == Some(a) {
        assert Naming(ts + {t}, a) == named + {t};
        assert ts + {t} - (named + {t}) == ts - named;
        assert |named + {t}| == |named| + 1;
        assert (|named| + 1) * vals[0].stake == |named| * vals[0].stake + vals[0].stake;
      } else {
        assert Naming(ts + {t}, a) == named;
        assert ts + {t} - named == ts - named + {t};
        TextStakeGrows(vals[1..], ts - named, t);
      }
    }
  }

  lemma SignersWithout(ts: set<Text>, a: Bytes)
    ensures Signers(ts - Naming(ts, a)) == Signers(ts) - {a}
    ensures a in Signers(ts) <==> Naming(ts, a) != {}
  {
    hide Lenient;
    forall b | b in Signers(ts) - {a} ensures b in Signers(ts - Naming(ts, a)) {
      var t :| t in ts && Lenient(t) == Some(b);
      assert t in ts - Naming(ts, a);
    }
    if a in Signers(ts) {
      var t :| t in ts && Lenient(t) == Some(a);
      assert t in Naming(ts, a);
    }
    if t :| t in Naming(ts, a) {
      assert Lenient(t).value in Signers(ts);
    }
  }

  lemma TwoTexts(ts: set<Text>, a: Bytes)
    ensures |Naming(ts, a)| >= 2 <==> exists t, u :: t in ts && u in ts && t != u && Lenient(t) == Lenient(u) == Some(a)
  {
    hide Lenient;
    var named := Naming(ts, a);
    if |named| >= 2 {
      var t :| t in named;
      var rest := named - {t};
      assert |rest| == |named| - 1;
      var u :| u in rest;
      assert t in ts && u in ts && t != u && Lenient(t) == Lenient(u) == Some(a);
    }
    if t, u :| t in ts && u in ts && t != u && Lenient(t) == Lenient(u) == Some(a) {
      assert {t, u} <= named;
      SmallerSet({t, u}, named);
      assert |{t, u}| == 2;
    }
  }

  lemma AtLeastOnce(n: nat, stake: nat)
    ensures n >= 1 ==> n * stake >= stake
    ensures n >= 2 && stake > 0 ==> n * stake > stake
    ensures n == 1 || stake == 0 ==> n * stake == stake
  {
  }

  /** Texts never count for less than their signers. */
  lemma {:induction false} TextStakeAtLeast(vals: seq<Validator>, ts: set<Text>)
    ensures TextStake(vals, ts) >= StakeIn(vals, Signers(ts))
  {
    hide Signers, Naming;
    if vals != [] {
      var a := vals[0].address;
      SignersWithout(ts, a);
      AtLeastOnce(|Naming(ts, a)|, vals[0].stake);
      TextStakeAtLeast(vals[1..], ts - Naming(ts, a));
    }
  }

  lemma OnceOfRest(vals: seq<Validator>, ts: set<Text>)
    requires vals != []
    ensures var a := vals[0].address;
            NamesEachOnce(vals, ts) <==>
            (|Naming(ts, a)| <= 1 || vals[0].stake == 0) && NamesEachOnce(vals[1..], ts - Naming(ts, a))
  {
    hide Lenient;
    var a := vals[0].address;
    var rest := ts - Naming(ts, a);
    TwoTexts(ts, a);
    if NamesEachOnce(vals, ts) {
      forall t, u | t in rest && u in rest && t != u && Lenient(t).Some? && Lenient(t) == Lenient(u)
        ensures StakeOf(vals[1..], Lenient(t).value) == 0
      {
        assert StakeOf(vals, Lenient(t).value) == 0;
      }
    }
    if (|Naming(ts, a)| <= 1 || vals[0].stake == 0) && NamesEachOnce(vals[1..], rest) {
      forall t, u | t in ts && u in ts && t != u && Lenient(t).Some? && Lenient(t) == Lenient(u)
        ensures StakeOf(vals, Lenient(t).value) == 0
      {
        if Lenient(t) != Some(a) {
          assert t in rest && u in rest;
        }
      }
    }
  }

  /** Exactly when the counting is right: the stake counted for a set of texts is the stake of the
      signers it names if and only if no two of its texts name one validator with stake. */
  lemma {:induction false} CountedOnceIff(vals: seq<Validator>, ts: set<Text>)
    ensures TextStake(vals, ts) == StakeIn(vals, Signers(ts)) <==> NamesEachOnce(vals, ts)
  {
    hide Signers, Naming, NamesEachOnce;
    if vals == [] {
      NobodyNamedTwice(ts);
    } else {
      var a := vals[0].address;
      var rest := ts - Naming(ts, a);
      SignersWithout(ts, a);
      OnceOfRest(vals, ts);
      AtLeastOnce(|Naming(ts, a)|, vals[0].stake);
      TextStakeAtLeast(vals[1..], rest);
      CountedOnceIff(vals[1..], rest);
    }
  }

  lemma NobodyNamedTwice(ts: set<Text>)
    ensures NamesEachOnce([], ts)
  {
  }

  /** The condition a caller can check: texts as the encoder writes them count every signer once. */
  lemma CanonicalCountsOnce(vals: seq<Validator>, ts: set<Text>)
    requires forall t :: t in ts && Lenient(t).Some? ==> Canonical(t)
    ensures TextStake(vals, ts) == StakeIn(vals, Signers(ts))
  {
    CountedOnceIff(vals, ts);
  }

  /** The texts of a set of addresses are counted as that set, and name exactly it. */
  lemma TextsCount(vals: seq<Validator>, who: set<Bytes>)
    ensures Signers(Texts(who)) == who
    ensures TextStake(vals, Texts(who)) == StakeIn(vals, who)
  {
    hide Lenient, Encode;
    forall a ensures Canonical(Encode(a)) && Lenient(Encode(a)) == Some(a) {
      EncodedIsCanonical(a);
    }
    forall a | a in who ensures a in Signers(Texts(who)) {
      assert Encode(a) in Texts(who);
    }
    CanonicalCountsOnce(vals, Texts(who));
  }

  lemma TextQuorum(vs: VSet, who: set<Bytes>)
    ensures TextSuperMajority(vs, Texts(who)) <==> SuperMajority(vs, who)
  {
    TextsCount(vs.validators, who);
  }

  /** The condition is needed: with the two letter cases of one address, half the stake is a
      supermajority. */
  lemma TwoCasesCountTwice()
    ensures var lower: Text, upper: Text := [0x30, 0x61], [0x30, 0x41];
            var vs := VSet([Validator([10], [], 1, true, false), Validator([11], [], 1, true, false)], 2, 0);
            && WellFormed(vs) && Bounded(vs)
            && Signers({lower, upper}) == {[10]} && StakeIn(vs.validators, {[10]}) == 1
            && TextSuperMajority(vs, {lower, upper}) && !SuperMajority(vs, {[10]})
  {
    hide Lenient, Naming, TextStake;
    var lower: Text, upper: Text := [0x30, 0x61], [0x30, 0x41];
    var vals := [Validator([10], [], 1, true, false), Validator([11], [], 1, true, false)];
    var vs := VSet(vals, 2, 0);
    SumFront(vals);
    SumFront(vals[1..]);
    StakeInOne(vals, [10]);
    NamesTen();
    TextStakeOfNone(vals);
    TextStakeGrows(vals, {}, lower);
    TextStakeGrows(vals, {lower}, upper);
    assert {} + {lower} == {lower} && {lower} + {upper} == {lower, upper};
    SuperMajorityMeaning(vs, {[10]});
    assert Signers({lower, upper}) == {[10]} by {
      assert lower in {lower, upper};
    }
  }

  lemma NamesTen()
    ensures Lenient([0x30, 0x61]) == Lenient([0x30, 0x41]) == Some([10])
  {
    var lower: Text, upper: Text := [0x30, 0x61], [0x30, 0x41];
    assert lower[2..] == [] && upper[2..] == [];
    assert Scan(lower[0], lower[1]) == Scan(upper[0], upper[1]) == Some(10);
    assert Lenient(lower[2..]) == Some([]);
    assert [10] + [] == [10];
  }

  // ---------------------------------------------------------------- construction and updates

  function Addresses(vals: seq<Validator>): seq<Bytes> {
    if vals == [] then [] else [vals[0].address] + Addresses(vals[1..])
  }

  predicate Has(vs: VSet, a: Bytes) {
    exists i :: 0 <= i < |vs.validators| && vs.validators[i].address == a
  }

  /** Active, unjailed entries, in input order. */
  function Eligible(vals: seq<Validator>): seq<Validator> {
    if vals == [] then []
    else
      var v := vals[|vals| - 1];
      Eligible(vals[..|vals| - 1]) + (if v.isActive && !v.isJailed then [v] else [])
  }

  function Insert(vals: seq<Validator>, v: Validator): seq<Validator> {
    if vals == [] || Compare(vals[|vals| - 1].address, v.address) <= 0 then vals + [v]
    else Insert(vals[..|vals| - 1], v) + [vals[|vals| - 1]]
  }

  function Sorted(vals: seq<Validator>): seq<Validator> {
    if vals == [] then [] else Insert(Sorted(vals[..|vals| - 1]), vals[|vals| - 1])
  }

  ghost predicate Ascending(vals: seq<Validator>) {
    forall i, j :: 0 <= i < j < |vals| ==> Compare(vals[i].address, vals[j].address) <= 0
  }

  /** What `sort.Slice` may leave: the entries by rising address, equal addresses in any order. */
  ghost predicate SortOf(vals: seq<Validator>, sorted: seq<Validator>) {
    multiset(sorted) == multiset(vals) && Ascending(sorted)
  }

  /** What `NewValidatorSet` may build. */
  ghost predicate MayBuild(vals: seq<Validator>, epoch: U64, vs: VSet) {
    && SortOf(Eligible(vals), vs.validators)
    && vs.totalStake == Wrap(Sum(Eligible(vals))) && vs.epoch == epoch
  }

  function Without(vals: seq<Validator>, a: Bytes): seq<Validator> {
    if vals == [] then [] else if vals[0].address == a then vals[1..] else [vals[0]] + Without(vals[1..], a)
  }

  function Restaked(vals: seq<Validator>, a: Bytes, stake: U64): seq<Validator> {
    if vals == [] then []
    else if vals[0].address == a then [vals[0].(stake := stake)] + vals[1..]
    else [vals[0]] + Restaked(vals[1..], a, stake)
  }

  /** What `AddValidator` may leave. */
  ghost predicate MayAdd(vs: VSet, v: Validator, r: VSet) {
    if Has(vs, v.address) then r == vs
    else
      && SortOf(vs.validators + [v], r.validators)
      && r.totalStake == Wrap(vs.totalStake + v.stake) && r.epoch == vs.epoch
  }

  function Removed(vs: VSet, a: Bytes): VSet {
    if !Has(vs, a) then vs
    else vs.(validators := Without(vs.validators, a), totalStake := Wrap(vs.totalStake - StakeOf(vs.validators, a)))
  }

  function Updated(vs: VSet, a: Bytes, stake: U64): VSet {
    if !Has(vs, a) then vs
    else vs.(validators := Restaked(vs.validators, a, stake),
             totalStake := Wrap(Wrap(vs.totalStake - StakeOf(vs.validators, a)) + stake))
  }

  lemma {:induction false} InsertPermutes(vals: seq<Validator>, v: Validator)
    ensures multiset(Insert(vals, v)) == multiset(vals) + multiset{v}
    ensures Sum(Insert(vals, v)) == Sum(vals) + v.stake
  {
    if vals == [] || Compare(vals[|vals| - 1].address, v.address) <= 0 {
      SumSplit(vals, [v]);
      assert [v][..0] == [];
    } else {
      var front, last := vals[..|vals| - 1], vals[|vals| - 1];
      assert vals == front + [last];
      InsertPermutes(front, v);
      SumSplit(Insert(front, v), [last]);
      assert [last][..0] == [];
    }
  }

  lemma {:induction false} SortedPermutes(vals: seq<Validator>)
    ensures multiset(Sorted(vals)) == multiset(vals)
    ensures Sum(Sorted(vals)) == Sum(vals)
  {
    if vals != [] {
      var front, last := vals[..|vals| - 1], vals[|vals| - 1];
      assert vals == front + [last];
      SortedPermutes(front);
      InsertPermutes(Sorted(front), last);
    }
  }

  lemma {:induction false} InsertKeepsOrder(vals: seq<Validator>, v: Validator)
    requires StrictlySorted(vals) && forall i :: 0 <= i < |vals| ==> vals[i].address != v.address
    ensures StrictlySorted(Insert(vals, v))
    ensures forall x :: x in Insert(vals, v) <==> x in vals || x == v
  {
    if vals != [] {
      var front, last := vals[..|vals| - 1], vals[|vals| - 1];
      CompareZero(last.address, v.address);
      CompareFlips(last.address, v.address);
      CompareFlips(v.address, last.address);
      if Compare(last.address, v.address) <= 0 {
        forall i | 0 <= i < |vals| ensures Compare(vals[i].address, v.address) < 0 {
          if i < |vals| - 1 {
            CompareTransitive(vals[i].address, last.address, v.address);
          }
        }
      } else {
        InsertKeepsOrder(front, v);
        var r := Insert(front, v);
        forall i | 0 <= i < |r| ensures Compare(r[i].address, last.address) < 0 {
          assert r[i] in r;
        }
      }
    }
  }

  lemma {:induction false} SortedIsStrict(vals: seq<Validator>)
    requires DistinctAddresses(vals)
    ensures StrictlySorted(Sorted(vals))
    ensures forall x :: x in Sorted(vals) <==> x in vals
  {
    if vals != [] {
      var front, last := vals[..|vals| - 1], vals[|vals| - 1];
      SortedIsStrict(front);
      assert forall x :: x in vals <==> x in front || x == last;
      var sorted := Sorted(front);
      forall i | 0 <= i < |sorted| ensures sorted[i].address != last.address {
        assert sorted[i] in sorted;
        var k :| 0 <= k < |front| && front[k] == sorted[i];
      }
      InsertKeepsOrder(sorted, last);
    }
  }

  lemma SameGreatest(a: seq<Validator>, b: seq<Validator>)
    requires a != [] && b != [] && StrictlySorted(a) && StrictlySorted(b) && multiset(a) == multiset(b)
    ensures a[|a| - 1] == b[|b| - 1]
  {
    var la, lb := a[|a| - 1], b[|b| - 1];
    assert la in multiset(b) && lb in multiset(a);
    var i :| 0 <= i < |b| && b[i] == la;
    var j :| 0 <= j < |a| && a[j] == lb;
    CompareFlips(la.address, lb.address);
  }

  lemma DropLast(a: seq<Validator>)
    requires a != []
    ensures a == a[..|a| - 1] + [a[|a| - 1]]
    ensures multiset(a[..|a| - 1]) == multiset(a) - multiset{a[|a| - 1]}
  {
    assert a == a[..|a| - 1] + [a[|a| - 1]];
  }

  lemma FrontsAgree(a: seq<Validator>, b: seq<Validator>)
    requires a != [] && b != [] && StrictlySorted(a) && StrictlySorted(b) && multiset(a) == multiset(b)
    ensures StrictlySorted(a[..|a| - 1]) && StrictlySorted(b[..|b| - 1])
    ensures multiset(a[..|a| - 1]) == multiset(b[..|b| - 1])
  {
    SameGreatest(a, b);
    DropLast(a);
    DropLast(b);
  }

  /** Strictly sorted lists with the same entries are the same list. */
  lemma {:induction false} StrictOrderIsUnique(a: seq<Validator>, b: seq<Validator>)
    requires StrictlySorted(a) && StrictlySorted(b) && multiset(a) == multiset(b)
    ensures a == b
  {
    assert |a| == |multiset(a)| == |multiset(b)| == |b|;
    if a != [] {
      FrontsAgree(a, b);
      SameGreatest(a, b);
      StrictOrderIsUnique(a[..|a| - 1], b[..|b| - 1]);
      assert a == a[..|a| - 1] + [a[|a| - 1]] == b;
    }
  }

  lemma {:induction false} EligibleCounts(vals: seq<Validator>, v: Validator)
    ensures multiset(Eligible(vals))[v] == if v.isActive && !v.isJailed then multiset(vals)[v] else 0
  {
    if vals != [] {
      EligibleCounts(vals[..|vals| - 1], v);
      assert vals == vals[..|vals| - 1] + [vals[|vals| - 1]];
    }
  }

  /** A set that is built has each active validator out of jail as often as the input lists it, nobody else, and is in
      the order of the addresses. */
  lemma BuiltMeans(vals: seq<Validator>, epoch: U64, vs: VSet, v: Validator)
    requires MayBuild(vals, epoch, vs)
    ensures multiset(vs.validators)[v] == if v.isActive && !v.isJailed then multiset(vals)[v] else 0
    ensures forall i, j :: 0 <= i < j < |vs.validators| ==>
              Compare(vs.validators[i].address, vs.validators[j].address) <= 0
    ensures vs.epoch == epoch
  {
    hide Eligible;
    EligibleCounts(vals, v);
  }

  lemma {:induction false} AddressAt(vals: seq<Validator>, i: nat)
    requires i < |vals|
    ensures |Addresses(vals)| == |vals| && Addresses(vals)[i] == vals[i].address
  {
    if i > 0 {
      AddressAt(vals[1..], i - 1);
    } else if |vals| > 1 {
      AddressAt(vals[1..], 0);
    }
  }

  lemma {:induction false} EligibleSplit(a: seq<Validator>, b: seq<Validator>)
    ensures Eligible(a + b) == Eligible(a) + Eligible(b)
  {
    if b == [] {
      assert a + b == a;
    } else {
      assert (a + b)[..|a + b| - 1] == a + b[..|b| - 1];
      EligibleSplit(a, b[..|b| - 1]);
    }
  }

  /** The eligible entries depend on the input only as a multiset. */
  lemma {:induction false} EligibleOfPermutation(a: seq<Validator>, b: seq<Validator>)
    requires multiset(a) == multiset(b)
    ensures multiset(Eligible(a)) == multiset(Eligible(b))
  {
    hide Eligible;
    assert |multiset(a)| == |multiset(b)|;
    if a != [] {
      var v := a[|a| - 1];
      assert a == a[..|a| - 1] + [v];
      assert v in multiset(b);
      var k :| 0 <= k < |b| && b[k] == v;
      var rest := b[..k] + b[k + 1..];
      assert b == b[..k] + [v] + b[k + 1..];
      assert multiset(rest) == multiset(b) - multiset{v};
      EligibleOfPermutation(a[..|a| - 1], rest);
      EligibleSplit(a[..|a| - 1], [v]);
      EligibleSplit(b[..k], b[k + 1..]);
      EligibleSplit(b[..k] + [v], b[k + 1..]);
      EligibleSplit(b[..k], [v]);
    }
  }

  lemma CompareAtMostTransitive(a: Bytes, b: Bytes, c: Bytes)
    requires Compare(a, b) <= 0 && Compare(b, c) <= 0
    ensures Compare(a, c) <= 0
  {
    CompareZero(a, b);
    CompareZero(b, c);
    if Compare(a, b) < 0 && Compare(b, c) < 0 {
      CompareTransitive(a, b, c);
    }
  }

  lemma {:induction false} InsertAscends(vals: seq<Validator>, v: Validator)
    requires Ascending(vals)
    ensures Ascending(Insert(vals, v))
    ensures forall x :: x in Insert(vals, v) <==> x in vals || x == v
  {
    hide Compare;
    if vals != [] {
      var front, last := vals[..|vals| - 1], vals[|vals| - 1];
      if Compare(last.address, v.address) <= 0 {
        forall i | 0 <= i < |vals| ensures Compare(vals[i].address, v.address) <= 0 {
          if i < |vals| - 1 {
            CompareAtMostTransitive(vals[i].address, last.address, v.address);
          }
        }
      } else {
        InsertAscends(front, v);
        CompareFlips(v.address, last.address);
        var r := Insert(front, v);
        forall i | 0 <= i < |r| ensures Compare(r[i].address, last.address) <= 0 {
          assert r[i] in r;
        }
        assert vals == front + [last];
      }
    }
  }

  lemma {:induction false} SortedAscends(vals: seq<Validator>)
    ensures Ascending(Sorted(vals))
  {
    if vals != [] {
      SortedAscends(vals[..|vals| - 1]);
      InsertAscends(Sorted(vals[..|vals| - 1]), vals[|vals| - 1]);
    }
  }

  lemma SortedIsASort(vals: seq<Validator>)
    ensures SortOf(vals, Sorted(vals))
  {
    SortedPermutes(vals);
    SortedAscends(vals);
  }

  /** With distinct addresses there is only one set to build. */
  lemma BuiltIsSorted(vals: seq<Validator>, epoch: U64, vs: VSet)
    requires DistinctAddresses(Eligible(vals)) && MayBuild(vals, epoch, vs)
    ensures vs.validators == Sorted(Eligible(vals)) && StrictlySorted(vs.validators)
    ensures Sum(vs.validators) == Sum(Eligible(vals))
  {
    hide Eligible, SortOf;
    SortIsStrict(Eligible(vals), vs.validators);
  }

  lemma SortIsStrict(vals: seq<Validator>, sorted: seq<Validator>)
    requires DistinctAddresses(vals) && SortOf(vals, sorted)
    ensures sorted == Sorted(vals) && StrictlySorted(sorted) && Sum(sorted) == Sum(vals)
  {
    hide Compare;
    SortedPermutes(vals);
    SortedIsStrict(vals);
    StrictMeansDistinct(Sorted(vals));
    DistinctIsShared(Sorted(vals), sorted);
    forall i, j | 0 <= i < j < |sorted| ensures Compare(sorted[i].address, sorted[j].address) < 0 {
      CompareZero(sorted[i].address, sorted[j].address);
    }
    StrictOrderIsUnique(sorted, Sorted(vals));
  }

  lemma DistinctIsShared(a: seq<Validator>, b: seq<Validator>)
    requires multiset(a) == multiset(b) && DistinctAddresses(a)
    ensures DistinctAddresses(b)
  {
    forall i, j | 0 <= i < j < |b| ensures b[i].address != b[j].address {
      var x, y := b[i], b[j];
      assert x in multiset(a) && y in multiset(a);
      if x.address == y.address {
        TwiceMeansTwo(b, i, j);
        OnceInDistinct(a, x);
      }
    }
  }

  lemma TwiceMeansTwo(b: seq<Validator>, i: nat, j: nat)
    requires i < j < |b|
    ensures b[i] == b[j] ==> multiset(b)[b[i]] >= 2
  {
    var front, back := b[..j], b[j..];
    assert b == front + back;
    assert front[i] == b[i] && back[0] == b[j];
    assert multiset(b)[b[i]] == multiset(front)[b[i]] + multiset(back)[b[i]];
  }

  lemma {:induction false} OnceInDistinct(a: seq<Validator>, x: Validator)
    requires DistinctAddresses(a)
    ensures multiset(a)[x] <= 1
  {
    if a != [] {
      var front, last := a[..|a| - 1], a[|a| - 1];
      assert a == front + [last];
      OnceInDistinct(front, x);
      if last == x {
        assert x !in front;
      }
    }
  }

  /** What `NewValidatorSet` builds does not depend on the order its input came in, nor on the sort, so
      the map iteration order inside `rotateEpoch` cannot change which validator proposes. */
  lemma InputOrderIrrelevant(a: seq<Validator>, b: seq<Validator>, epoch: U64, vs: VSet, ws: VSet)
    requires multiset(a) == multiset(b) && DistinctAddresses(Eligible(a))
    requires MayBuild(a, epoch, vs) && MayBuild(b, epoch, ws)
    ensures vs == ws
  {
    EligibleOfPermutation(a, b);
    DistinctIsShared(Eligible(a), Eligible(b));
    BuiltIsSorted(a, epoch, vs);
    BuiltIsSorted(b, epoch, ws);
    StrictOrderIsUnique(vs.validators, ws.validators);
  }

  lemma BuiltIsConsistent(vals: seq<Validator>, epoch: U64, vs: VSet)
    requires DistinctAddresses(Eligible(vals)) && MayBuild(vals, epoch, vs)
    ensures Consistent(vs)
  {
    BuiltIsSorted(vals, epoch, vs);
  }

  /** The sum is exact, so the set well formed, exactly when the total fits a `uint64`. */
  lemma NewSetWellFormed(vals: seq<Validator>, epoch: U64, vs: VSet)
    requires DistinctAddresses(Eligible(vals)) && MayBuild(vals, epoch, vs)
    ensures WellFormed(vs) <==> Sum(Eligible(vals)) <= MAX64
  {
    BuiltIsSorted(vals, epoch, vs);
  }

  lemma StrictMeansDistinct(vals: seq<Validator>)
    requires StrictlySorted(vals)
    ensures DistinctAddresses(vals)
  {
    forall i, j | 0 <= i < j < |vals| ensures vals[i].address != vals[j].address {
      CompareZero(vals[i].address, vals[j].address);
    }
  }

  lemma {:induction false} WithoutSum(vals: seq<Validator>, a: Bytes)
    ensures Sum(Without(vals, a)) == Sum(vals) - StakeOf(vals, a)
  {
    if vals != [] {
      SumFront(vals);
      if vals[0].address != a {
        WithoutSum(vals[1..], a);
        SumFront(Without(vals, a));
        assert Without(vals, a)[1..] == Without(vals[1..], a);
      }
    }
  }

  lemma {:induction false} WithoutSorted(vals: seq<Validator>, a: Bytes)
    requires StrictlySorted(vals)
    ensures StrictlySorted(Without(vals, a))
    ensures forall x :: x in Without(vals, a) <==> x in vals && x.address != a
  {
    StrictMeansDistinct(vals);
    if vals != [] && vals[0].address != a {
      var tail := Without(vals[1..], a);
      WithoutSorted(vals[1..], a);
      forall j | 0 <= j < |tail| ensures Compare(vals[0].address, tail[j].address) < 0 {
        assert tail[j] in tail;
      }
      assert forall x :: x in vals <==> x == vals[0] || x in vals[1..];
    }
  }

  lemma RemovedConsistent(vs: VSet, a: Bytes)
    requires Consistent(vs)
    ensures Consistent(Removed(vs, a))
  {
    hide Sum, Wrap, Without, StakeOf, StrictlySorted;
    if Has(vs, a) {
      WithoutSum(vs.validators, a);
      WithoutSorted(vs.validators, a);
      var stake: int := StakeOf(vs.validators, a);
      WrapAdds(Sum(vs.validators), -stake);
    }
  }

  lemma {:induction false} RestakedShape(vals: seq<Validator>, a: Bytes, stake: U64)
    ensures |Restaked(vals, a, stake)| == |vals|
    ensures forall i :: 0 <= i < |vals| ==> Restaked(vals, a, stake)[i].address == vals[i].address
  {
    if vals != [] {
      RestakedShape(vals[1..], a, stake);
    }
  }

  lemma {:induction false} RestakedSum(vals: seq<Validator>, a: Bytes, stake: U64)
    requires exists i :: 0 <= i < |vals| && vals[i].address == a
    ensures Sum(Restaked(vals, a, stake)) == Sum(vals) - StakeOf(vals, a) + stake
  {
    hide Sum;
    RestakedShape(vals, a, stake);
    SumFront(vals);
    SumFront(Restaked(vals, a, stake));
    if vals[0].address == a {
      assert Restaked(vals, a, stake)[1..] == vals[1..];
    } else {
      var i :| 0 <= i < |vals| && vals[i].address == a;
      assert vals[1..][i - 1].address == a;
      RestakedSum(vals[1..], a, stake);
      assert Restaked(vals, a, stake)[1..] == Restaked(vals[1..], a, stake);
    }
  }

  lemma NothingSummed()
    ensures Sum([]) == 0 && Wrap(0) == 0
  {
  }

  lemma SumOfAppended(vals: seq<Validator>, v: Validator)
    ensures Sum(vals + [v]) == Sum(vals) + v.stake
  {
    assert (vals + [v])[..|vals|] == vals;
  }

  /** Adding keeps the set well formed exactly when the new total still fits a `uint64`. */
  lemma AddedWellFormed(vs: VSet, v: Validator, r: VSet)
    requires WellFormed(vs) && MayAdd(vs, v, r)
    ensures WellFormed(r) <==> Has(vs, v.address) || Sum(vs.validators) + v.stake <= MAX64
  {
    if !Has(vs, v.address) {
      StrictMeansDistinct(vs.validators);
      assert DistinctAddresses(vs.validators + [v]);
      SortIsStrict(vs.validators + [v], r.validators);
      SumOfAppended(vs.validators, v);
    }
  }

  lemma RemovedWellFormed(vs: VSet, a: Bytes)
    requires WellFormed(vs)
    ensures WellFormed(Removed(vs, a)) && !Has(Removed(vs, a), a)
    ensures Sum(Removed(vs, a).validators) <= Sum(vs.validators)
  {
    WithoutSorted(vs.validators, a);
    WithoutSum(vs.validators, a);
    if Has(vs, a) {
      forall i | 0 <= i < |Without(vs.validators, a)| ensures Without(vs.validators, a)[i].address != a {
        assert Without(vs.validators, a)[i] in Without(vs.validators, a);
      }
    }
  }

  lemma RestakedSorted(vals: seq<Validator>, a: Bytes, stake: U64)
    requires StrictlySorted(vals)
    ensures StrictlySorted(Restaked(vals, a, stake))
  {
    RestakedShape(vals, a, stake);
  }

  /** Restaking keeps it exactly when the new total still fits. */
  lemma UpdatedWellFormed(vs: VSet, a: Bytes, stake: U64)
    requires WellFormed(vs)
    ensures WellFormed(Updated(vs, a, stake))
       <==> !Has(vs, a) || Sum(vs.validators) - StakeOf(vs.validators, a) + stake <= MAX64
  {
    if Has(vs, a) {
      RestakedSorted(vs.validators, a, stake);
      RestakedSum(vs.validators, a, stake);
      WithoutSum(vs.validators, a);
    }
  }

  // ---------------------------------------------------------------- proposer choice

  /** The accumulator loop of `selectProposer`: first entry whose running total exceeds `w`. */
  function Pick(vals: seq<Validator>, i: nat, cumulative: U64, w: U64): Option<nat>
    requires i <= |vals|
    decreases |vals| - i
  {
    if i == |vals| then None
    else
      var next := Wrap(cumulative + vals[i].stake);
      if w < next then Some(i) else Pick(vals, i + 1, next, w)
  }

  /** `selectProposer` after the seed was hashed from (height, view, epoch). */
  function Select(vs: VSet, seed: U64, view: U64): int {
    var n := |vs.validators|;
    if n == 0 || vs.totalStake == 0 then 0
    else
      match Pick(vs.validators, 0, 0, seed % vs.totalStake)
      case Some(i) => (i + view % n) % n
      case None => n - 1
  }

  function SeedBytes(height: U64, view: U64, epoch: U64): Bytes {
    FixedBE(height, 8) + FixedBE(view, 8) + FixedBE(epoch, 8)
  }

  /** The seed is hashed from three big-endian numbers of eight bytes: height, view and epoch. */
  lemma SeedBytesRead(height: U64, view: U64, epoch: U64)
    ensures var b := SeedBytes(height, view, epoch);
            |b| == 24 && FromBE(b[..8]) == height && FromBE(b[8..16]) == view && FromBE(b[16..]) == epoch
  {
    U64Bytes(height);
    U64Bytes(view);
    U64Bytes(epoch);
    var b := SeedBytes(height, view, epoch);
    assert b[..8] == FixedBE(height, 8) && b[8..16] == FixedBE(view, 8) && b[16..] == FixedBE(epoch, 8);
  }

  lemma {:induction false} PickInterval(vals: seq<Validator>, i: nat, w: U64)
    requires i <= |vals| && Sum(vals) < TWO64 && Sum(vals[..i]) <= w < Sum(vals)
    ensures Sum(vals[..i]) < TWO64
    ensures var p := Pick(vals, i, Sum(vals[..i]), w);
            p.Some? && i <= p.value < |vals| && Sum(vals[..p.value]) <= w < Sum(vals[..p.value + 1])
    decreases |vals| - i
  {
    hide Sum;
    assert vals[..|vals|] == vals;
    if i < |vals| {
      PrefixSumStep(vals, i);
      PrefixSumMonotone(vals, i + 1, |vals|);
      if w >= Sum(vals[..i + 1]) {
        PickInterval(vals, i + 1, w);
      }
    }
  }

  lemma PrefixSumStep(vals: seq<Validator>, i: nat)
    requires i < |vals|
    ensures Sum(vals[..i + 1]) == Sum(vals[..i]) + vals[i].stake
  {
    assert vals[..i + 1][..i] == vals[..i];
  }

  lemma {:induction false} PrefixSumMonotone(vals: seq<Validator>, i: nat, j: nat)
    requires i <= j <= |vals|
    ensures Sum(vals[..i]) <= Sum(vals[..j])
  {
    assert vals[..j] == vals[..i] + vals[i..j];
    SumSplit(vals[..i], vals[i..j]);
  }

  /** The fallback return is unreachable, and the residue picks the entry whose stake interval holds it. */
  lemma PickMeaning(vs: VSet, w: U64, i: nat)
    requires WellFormed(vs) && w < vs.totalStake && i < |vs.validators|
    ensures Pick(vs.validators, 0, 0, w).Some?
    ensures Pick(vs.validators, 0, 0, w) == Some(i)
       <==> Sum(vs.validators[..i]) <= w < Sum(vs.validators[..i + 1])
  {
    var vals := vs.validators;
    assert vals[..0] == [];
    PickInterval(vals, 0, w);
    var p := Pick(vals, 0, 0, w).value;
    if p < i {
      PrefixSumMonotone(vals, p + 1, i);
    } else if i < p {
      PrefixSumMonotone(vals, i + 1, p);
    }
  }

  predicate Between(lo: int, w: int, hi: int) {
    lo <= w < hi
  }

  ghost function Interval(lo: int, hi: int): set<int> {
    set w: int | lo <= w < hi && Between(lo, w, hi)
  }

  lemma {:induction false} IntervalSize(lo: int, hi: int)
    requires lo <= hi
    ensures |Interval(lo, hi)| == hi - lo
    decreases hi - lo
  {
    if lo < hi {
      IntervalSize(lo, hi - 1);
      assert Interval(lo, hi) == Interval(lo, hi - 1) + {hi - 1};
    }
  }

  ghost function Electing(vs: VSet, view: U64, j: int): set<int> {
    set w: int | 0 <= w < vs.totalStake && Select(vs, w, view) == j
  }

  lemma Rotation(i: int, j: int, view: int, n: int)
    requires 0 <= i < n && 0 <= j < n && 0 <= view
    ensures (i + view % n) % n == j <==> i == (j - view) % n
  {
    var r := view % n;
    assert view == (view / n) * n + r;
    assert j - view == (j - r) + (-(view / n)) * n by {
      assert (-(view / n)) * n == -((view / n) * n);
    }
    ShiftedRemainder(j - r, -(view / n), n);
    if i + r < n {
      RemainderIs(i + r, n, 0, i + r);
    } else {
      RemainderIs(i + r, n, 1, i + r - n);
    }
    if j - r < 0 {
      RemainderIs(j - r, n, -1, j - r + n);
    } else {
      RemainderIs(j - r, n, 0, j - r);
    }
  }

  lemma {:induction false} ElectedBy(vs: VSet, w: U64, view: U64, j: int)
    requires WellFormed(vs) && 0 <= j < |vs.validators| && w < vs.totalStake
    ensures var i := (j - view) % |vs.validators|;
            Select(vs, w, view) == j <==> Between(Sum(vs.validators[..i]), w, Sum(vs.validators[..i + 1]))
  {
    var n := |vs.validators|;
    var i := (j - view) % n;
    PickMeaning(vs, w, i);
    PickInRange(vs.validators, 0, 0, w);
    RemainderIs(w, vs.totalStake, 0, w);
    Rotation(Pick(vs.validators, 0, 0, w).value, j, view, n);
  }

  /** Weighted fairness: in every view, the number of seed residues that elect entry `j` is the
      stake of the entry `view` places before it (cyclically). */
  lemma {:induction false} ProposerFairness(vs: VSet, view: U64, j: int)
    requires WellFormed(vs) && vs.totalStake > 0 && 0 <= j < |vs.validators|
    ensures |Electing(vs, view, j)| == vs.validators[(j - view) % |vs.validators|].stake
  {
    var n := |vs.validators|;
    var i := (j - view) % n;
    var lo, hi := Sum(vs.validators[..i]), Sum(vs.validators[..i + 1]);
    PrefixSumStep(vs.validators, i);
    PrefixSumMonotone(vs.validators, i + 1, n);
    assert vs.validators[..n] == vs.validators;
    forall w: int | 0 <= w < vs.totalStake
      ensures Select(vs, w, view) == j <==> Between(lo, w, hi)
    {
      ElectedBy(vs, w, view, j);
    }
    assert Electing(vs, view, j) == Interval(lo, hi);
    IntervalSize(lo, hi);
  }

  lemma {:induction false} PickInRange(vals: seq<Validator>, i: nat, cumulative: U64, w: U64)
    requires i <= |vals|
    ensures Pick(vals, i, cumulative, w).Some? ==> i <= Pick(vals, i, cumulative, w).value < |vals|
    decreases |vals| - i
  {
    if i < |vals| {
      PickInRange(vals, i + 1, Wrap(cumulative + vals[i].stake), w);
    }
  }

  lemma SelectInRange(vs: VSet, seed: U64, view: U64)
    requires |vs.validators| > 0
    ensures 0 <= Select(vs, seed, view) < |vs.validators|
  {
    if vs.totalStake != 0 {
      PickInRange(vs.validators, 0, 0, seed % vs.totalStake);
    }
  }

  // ---------------------------------------------------------------- the mutable object

  lemma WrappedTextGrows(vals: seq<Validator>, ts: set<Text>, t: Text)
    requires t !in ts
    ensures Wrap(Wrap(TextStake(vals, ts)) + NamedStake(vals, t)) == Wrap(TextStake(vals, ts + {t}))
  {
    hide Wrap, TextStake, NamedStake;
    TextStakeGrows(vals, ts, t);
    WrapAdds(TextStake(vals, ts), NamedStake(vals, t));
  }

  ghost predicate FirstAt(vals: seq<Validator>, a: Bytes, idx: nat) {
    idx < |vals| && vals[idx].address == a && forall k :: 0 <= k < idx ==> vals[k].address != a
  }

  lemma {:induction false} FirstWithout(vals: seq<Validator>, a: Bytes, idx: nat)
    requires FirstAt(vals, a, idx)
    ensures StakeOf(vals, a) == vals[idx].stake
    ensures Without(vals, a) == vals[..idx] + vals[idx + 1..]
  {
    if idx > 0 {
      FirstWithout(vals[1..], a, idx - 1);
    }
  }

  lemma {:induction false} FirstRestaked(vals: seq<Validator>, a: Bytes, idx: nat, stake: U64)
    requires FirstAt(vals, a, idx)
    ensures Restaked(vals, a, stake) == vals[..idx] + [vals[idx].(stake := stake)] + vals[idx + 1..]
  {
    if idx > 0 {
      var tail := vals[1..];
      FirstRestaked(tail, a, idx - 1, stake);
      assert vals[idx + 1..] == tail[idx..];
    }
  }

  /** What removal and restaking do at the first entry with an address. */
  lemma FirstIndex(vals: seq<Validator>, a: Bytes, idx: nat, stake: U64)
    requires FirstAt(vals, a, idx)
    ensures StakeOf(vals, a) == vals[idx].stake
    ensures Without(vals, a) == vals[..idx] + vals[idx + 1..]
    ensures Restaked(vals, a, stake) == vals[..idx] + [vals[idx].(stake := stake)] + vals[idx + 1..]
  {
    FirstWithout(vals, a, idx);
    FirstRestaked(vals, a, idx, stake);
  }

  class ValidatorSet {
    var validators: seq<Validator>
    var totalStake: U64
    var epoch: U64

    function State(): VSet
      reads this
    {
      VSet(validators, totalStake, epoch)
    }

    /** `NewValidatorSet`. */
    constructor (vals: seq<Validator>, epoch: U64)
      ensures MayBuild(vals, epoch, State())
    {
      var kept, total := CollectEligible(vals);
      SortedIsASort(kept);
      this.validators := Sorted(kept);
      this.totalStake := total;
      this.epoch := epoch;
    }

    /** The loop of `NewValidatorSet`. */
    static method CollectEligible(vals: seq<Validator>) returns (kept: seq<Validator>, total: U64)
      ensures kept == Eligible(vals) && total == Wrap(Sum(kept))
    {
      hide Sum, Wrap;
      kept, total := [], 0;
      NothingSummed();
      for i := 0 to |vals|
        invariant kept == Eligible(vals[..i]) && total == Wrap(Sum(kept))
      {
        assert vals[..i + 1][..i] == vals[..i];
        if vals[i].isActive && !vals[i].isJailed {
          SumOfAppended(kept, vals[i]);
          WrapAdds(Sum(kept), vals[i].stake);
          kept := kept + [vals[i]];
          total := Wrap(total + vals[i].stake);
        }
      }
      assert vals[..|vals|] == vals;
    }

    /** An object holding a given set, as after `rotateEpoch` has built and pruned it. */
    constructor Holding(vs: VSet)
      ensures State() == vs
    {
      validators := vs.validators;
      totalStake := vs.totalStake;
      epoch := vs.epoch;
    }

    /** `GetValidator`: the stake it reports is the one quorum counting uses. */
    method GetValidator(addr: Bytes) returns (found: Option<Validator>)
      ensures found.Some? <==> Has(State(), addr)
      ensures found.Some? ==> found.value in validators && found.value.address == addr
      ensures (if found.Some? then found.value.stake else 0) == StakeOf(validators, addr)
    {
      var i := 0;
      while i < |validators|
        invariant 0 <= i <= |validators|
        invariant forall k :: 0 <= k < i ==> validators[k].address != addr
        invariant StakeOf(validators[i..], addr) == StakeOf(validators, addr)
      {
        if validators[i].address == addr {
          return Some(validators[i]);
        }
        assert validators[i..][1..] == validators[i + 1..];
        i := i + 1;
      }
      return None;
    }

    /** The stake of the validator a text names, as the counting loops look it up. */
    method StakeNamed(addr: Text) returns (stake: U64)
      ensures stake == NamedStake(validators, addr)
    {
      var addrBytes := HexDecode(addr);
      if addrBytes.None? {
        return 0;
      }
      var v := GetValidator(addrBytes.value);
      return if v.Some? then v.value.stake else 0;
    }

    /** `HasSuperMajority`: the map is visited in whatever order the runtime yields. */
    method HasSuperMajority(signatures: map<Text, bool>) returns (ok: bool)
      ensures ok == TextSuperMajority(State(), set a | a in signatures && signatures[a])
    {
      hide Lenient, TextStake, NamedStake;
      var todo := signatures.Keys;
      var signedStake: U64 := 0;
      ghost var counted: set<Text> := {};
      TextStakeOfNone(validators);
      while todo != {}
        invariant todo <= signatures.Keys && counted !! todo
        invariant counted == (set a | a in signatures && signatures[a] && a !in todo)
        invariant signedStake == Wrap(TextStake(validators, counted))
      {
        var addr :| addr in todo;
        todo := todo - {addr};
        if signatures[addr] {
          var stake := StakeNamed(addr);
          WrappedTextGrows(validators, counted, addr);
          counted := counted + {addr};
          signedStake := Wrap(signedStake + stake);
        }
      }
      assert counted == set a | a in signatures && signatures[a];
      ok := Wrap(signedStake * 3) > Wrap(totalStake * 2);
    }

    /** `QC.IsValid`: a repeated text and a text without a signature do not count. */
    method IsValidQC<S>(addrs: seq<Text>, signatures: map<Text, S>) returns (ok: bool)
      ensures ok == TextSuperMajority(State(), set a | a in addrs && a in signatures)
    {
      hide Lenient, TextStake, NamedStake;
      var signedStake: U64 := 0;
      var seen: set<Text> := {};
      ghost var counted: set<Text> := {};
      TextStakeOfNone(validators);
      for i := 0 to |addrs|
        invariant seen == (set a | a in addrs[..i])
        invariant counted == (set a | a in addrs[..i] && a in signatures)
        invariant signedStake == Wrap(TextStake(validators, counted))
      {
        var addr := addrs[i];
        assert addrs[..i + 1] == addrs[..i] + [addr];
        if addr !in seen {
          seen := seen + {addr};
          if addr in signatures {
            var stake := StakeNamed(addr);
            WrappedTextGrows(validators, counted, addr);
            counted := counted + {addr};
            signedStake := Wrap(signedStake + stake);
          }
        }
      }
      assert addrs[..|addrs|] == addrs;
      ok := Wrap(signedStake * 3) > Wrap(totalStake * 2);
    }

    /** `selectProposer`; SHA-256 is the parameter `hash`. */
    method SelectProposer(hash: Bytes -> Bytes, height: U64, view: U64) returns (index: int)
      requires |hash(SeedBytes(height, view, epoch))| == 32
      ensures FromBE(hash(SeedBytes(height, view, epoch))[..8]) < TWO64
      ensures index == Select(State(), FromBE(hash(SeedBytes(height, view, epoch))[..8]), view)
    {
      var seedHash := hash(SeedBytes(height, view, epoch))[..8];
      FromBEBound(seedHash);
      Pow256Of8();
      if |validators| == 0 || totalStake == 0 {
        return 0;
      }
      var seed := FromBE(seedHash);
      var weightedIndex := seed % totalStake;
      var cumulative: U64 := 0;
      var i := 0;
      while i < |validators|
        invariant 0 <= i <= |validators|
        invariant Pick(validators, 0, 0, weightedIndex) == Pick(validators, i, cumulative, weightedIndex)
      {
        cumulative := Wrap(cumulative + validators[i].stake);
        if weightedIndex < cumulative {
          return (i + view % |validators|) % |validators|;
        }
        i := i + 1;
      }
      return |validators| - 1;
    }

    /** `AddValidator`. */
    method AddValidator(v: Validator) returns (ok: bool)
      modifies this
      ensures ok == !Has(old(State()), v.address)
      ensures MayAdd(old(State()), v, State())
    {
      hide SortOf, Sorted, Has, Wrap;
      var existing := GetValidator(v.address);
      if existing.Some? {
        return false;
      }
      SortedIsASort(validators + [v]);
      totalStake := Wrap(totalStake + v.stake);
      validators := Sorted(validators + [v]);
      return true;
    }

    /** The index scan shared by removal and restaking. */
    method IndexOf(addr: Bytes) returns (idx: nat)
      ensures idx <= |validators|
      ensures forall k :: 0 <= k < idx ==> validators[k].address != addr
      ensures idx < |validators| ==> validators[idx].address == addr
    {
      idx := 0;
      while idx < |validators| && validators[idx].address != addr
        invariant 0 <= idx <= |validators|
        invariant forall k :: 0 <= k < idx ==> validators[k].address != addr
      {
        idx := idx + 1;
      }
    }

    /** `RemoveValidator`. */
    method RemoveValidator(addr: Bytes) returns (ok: bool)
      modifies this
      ensures ok == Has(old(State()), addr)
      ensures State() == Removed(old(State()), addr)
    {
      var idx := IndexOf(addr);
      if idx == |validators| {
        return false;
      }
      FirstIndex(validators, addr, idx, 0);
      validators, totalStake := validators[..idx] + validators[idx + 1..], Wrap(totalStake - validators[idx].stake);
      return true;
    }

    /** `UpdateStake`. */
    method UpdateStake(addr: Bytes, newStake: U64) returns (ok: bool)
      modifies this
      ensures ok == Has(old(State()), addr)
      ensures State() == Updated(old(State()), addr, newStake)
    {
      var idx := IndexOf(addr);
      if idx == |validators| {
        return false;
      }
      FirstIndex(validators, addr, idx, newStake);
      var less := Wrap(totalStake - validators[idx].stake);
      var restaked := validators[idx].(stake := newStake);
      var all := validators[..idx] + [restaked] + validators[idx + 1..];
      assert Updated(State(), addr, newStake) == VSet(all, Wrap(less + newStake), epoch);
      validators, totalStake := all, Wrap(less + newStake);
      return true;
    }
  }
}
