/** The staking ledger: records, their total and the event log, kept in step by every operation.
    All amounts are `uint64` and wrap. `now` is the clock, and `num` is the slashing fraction in
    billionths after its conversion from floating point. */
module Staking {
  import opened Words

  const BILLION: U64 := 1_000_000_000

  datatype Record = Record(publicKey: Bytes, stake: U64, selfStake: U64, slashed: U64, active: bool, jailed: bool,
                           jailedUntil: int, unbondingAt: int)

  datatype Action = StakeAction | UnstakeAction | SlashAction

  datatype Event = Event(action: Action, validator: Bytes, amount: U64)

  datatype Ledger = Ledger(records: map<Bytes, Record>, total: U64, events: seq<Event>)

  datatype Status = Done | ZeroAmount | NotFound | Deactivated | StillJailed | TooMuch

  // ---------------------------------------------------------------- operations

  function Log(l: Ledger, v: Bytes, r: Record, total: U64, e: Event): Ledger {
    Ledger(l.records[v := r], total, l.events + [e])
  }

  function Staked(l: Ledger, v: Bytes, publicKey: Bytes, amount: U64): (Ledger, Status) {
    if amount == 0 then (l, ZeroAmount)
    else if v in l.records && !l.records[v].active then (l, Deactivated)
    else if v in l.records && l.records[v].jailed then (l, StillJailed)
    else
      var r := if v in l.records then
                 var was := l.records[v];
                 was.(stake := Wrap(was.stake + amount), selfStake := Wrap(was.selfStake + amount))
               else Record(publicKey, amount, amount, 0, true, false, 0, 0);
      (Log(l, v, r, Wrap(l.total + amount), Event(StakeAction, v, amount)), Done)
  }

  function Unstaked(l: Ledger, v: Bytes, amount: U64, now: int, period: int): (Ledger, Status) {
    if v !in l.records then (l, NotFound)
    else if amount > l.records[v].stake || amount > l.records[v].selfStake then (l, TooMuch)
    else
      var r := l.records[v].(stake := l.records[v].stake - amount, selfStake := l.records[v].selfStake - amount);
      var r' := if r.stake == 0 then r.(active := false, unbondingAt := now + period) else r;
      (Log(l, v, r', Wrap(l.total - amount), Event(UnstakeAction, v, amount)), Done)
  }

  /** The product wraps; the clamp is applied to what is left of it. */
  function SlashAmount(stake: U64, num: U64): (a: U64)
    ensures a <= stake
  {
    var a := Wrap(stake * num) / BILLION;
    if a > stake then stake else a
  }

  function Slashed(l: Ledger, v: Bytes, num: U64, now: int, period: int): (Ledger, Status) {
    if v !in l.records then (l, NotFound)
    else
      var was := l.records[v];
      var a := SlashAmount(was.stake, num);
      var r := was.(stake := was.stake - a, slashed := Wrap(was.slashed + a), jailed := true,
                    jailedUntil := now + period);
      (Log(l, v, r, Wrap(l.total - a), Event(SlashAction, v, a)), Done)
  }

  function Jailed(l: Ledger, v: Bytes, until: int): (Ledger, Status) {
    if v !in l.records then (l, NotFound)
    else (l.(records := l.records[v := l.records[v].(jailed := true, jailedUntil := until)]), Done)
  }

  function Unjailed(l: Ledger, v: Bytes, now: int): (Ledger, Status) {
    if v !in l.records then (l, NotFound)
    else if now < l.records[v].jailedUntil then (l, StillJailed)
    else (l.(records := l.records[v := l.records[v].(jailed := false)]), Done)
  }

  // ---------------------------------------------------------------- sums over records

  ghost function Sum(m: map<Bytes, Record>): nat
    decreases |m|
  {
    if m == map[] then 0
    else
      var v :| v in m;
      Smaller(m, v);
      m[v].stake + Sum(m - {v})
  }

  lemma Smaller(m: map<Bytes, Record>, v: Bytes)
    requires v in m
    ensures |m - {v}| < |m|
  {
    assert (m - {v}).Keys == m.Keys - {v};
  }

  /** The sum may be started at any record. */
  lemma {:induction false} SumFrom(m: map<Bytes, Record>, v: Bytes)
    requires v in m
    ensures Sum(m) == m[v].stake + Sum(m - {v})
    decreases |m|
  {
    var w :| w in m && Sum(m) == m[w].stake + Sum(m - {w});
    if v != w {
      Smaller(m, w);
      Smaller(m, v);
      SumFrom(m - {w}, v);
      SumFrom(m - {v}, w);
      assert m - {w} - {v} == m - {v} - {w};
    }
  }

  function StakeOf(m: map<Bytes, Record>, v: Bytes): U64 {
    if v in m then m[v].stake else 0
  }

  lemma SumAfter(m: map<Bytes, Record>, v: Bytes, r: Record)
    ensures Sum(m[v := r]) == Sum(m) - StakeOf(m, v) + r.stake
  {
    SumFrom(m[v := r], v);
    assert m[v := r] - {v} == m - {v};
    if v in m {
      SumFrom(m, v);
    } else {
      assert m - {v} == m;
    }
  }

  // ---------------------------------------------------------------- the event log replayed

  datatype Replayed = Replayed(total: U64, stakes: map<Bytes, U64>)

  /** The signed amount of an event. */
  function Change(e: Event): int {
    if e.action == StakeAction then e.amount else -(e.amount as int)
  }

  function Replay(events: seq<Event>): Replayed {
    if events == [] then Replayed(0, map[])
    else
      var before, e := Replay(events[..|events| - 1]), events[|events| - 1];
      var stake := if e.validator in before.stakes then before.stakes[e.validator] else 0;
      Replayed(Wrap(before.total + Change(e)), before.stakes[e.validator := Wrap(stake + Change(e))])
  }

  /** Every unit ever staked. */
  function Inflow(events: seq<Event>): nat {
    if events == [] then 0
    else
      Inflow(events[..|events| - 1])
      + if events[|events| - 1].action == StakeAction then events[|events| - 1].amount else 0
  }

  /** Everything staked, less everything unstaked and slashed, in unbounded integers. */
  function Net(events: seq<Event>): int {
    if events == [] then 0 else Net(events[..|events| - 1]) + Change(events[|events| - 1])
  }

  // ---------------------------------------------------------------- the invariant

  /** A record adds up, modulo 2^64. */
  ghost predicate RecordBalances(r: Record) {
    Wrap(r.stake + r.slashed) == r.selfStake
  }

  /** The log tells the total and the stake of every record. */
  ghost predicate LogTells(l: Ledger) {
    && Replay(l.events).total == l.total
    && Replay(l.events).stakes.Keys == l.records.Keys
    && forall v :: v in l.records ==> Replay(l.events).stakes[v] == l.records[v].stake
  }

  /** The total is the sum of the records' stakes, each record adds up, and the log tells it all. */
  ghost predicate Balanced(l: Ledger) {
    && l.total == Wrap(Sum(l.records))
    && (forall v :: v in l.records ==> RecordBalances(l.records[v]))
    && LogTells(l)
  }

  ghost predicate RecordTrue(r: Record, inflow: nat) {
    r.stake + r.slashed == r.selfStake <= inflow
  }

  /** The same in unbounded integers. */
  ghost predicate TrulyBalanced(l: Ledger) {
    && l.total == Sum(l.records) == Net(l.events) <= Inflow(l.events)
    && forall v :: v in l.records ==> RecordTrue(l.records[v], Inflow(l.events))
  }

  lemma WrapCancels(x: int, y: int)
    ensures Wrap(Wrap(x) + y) == Wrap(x + y) && Wrap(y + Wrap(x)) == Wrap(x + y)
  {
    WrapAdds(x, y);
  }

  function ToldStake(events: seq<Event>, v: Bytes): U64 {
    if v in Replay(events).stakes then Replay(events).stakes[v] else 0
  }

  lemma ReplayLog(events: seq<Event>, e: Event)
    ensures Replay(events + [e]) == Replayed(Wrap(Replay(events).total + Change(e)),
              Replay(events).stakes[e.validator := Wrap(ToldStake(events, e.validator) + Change(e))])
    ensures Net(events + [e]) == Net(events) + Change(e)
    ensures Inflow(events + [e]) == Inflow(events) + if e.action == StakeAction then e.amount else 0
  {
    hide Wrap;
    assert (events + [e])[..|events|] == events;
  }

  lemma SumAfterLog(l: Ledger, v: Bytes, r: Record, change: int)
    requires l.total == Wrap(Sum(l.records)) && r.stake == Wrap(StakeOf(l.records, v) + change)
    ensures Wrap(l.total + change) == Wrap(Sum(l.records[v := r]))
  {
    hide *;
    SumAfter(l.records, v, r);
    SumChanges(Sum(l.records), StakeOf(l.records, v), change);
  }

  lemma SumChanges(sum: nat, stake: U64, change: int)
    ensures Wrap(sum - stake + Wrap(stake + change)) == Wrap(Wrap(sum) + change)
  {
    hide *;
    WrapCancels(stake + change, sum - stake);
    WrapCancels(sum, change);
    assert sum - stake + (stake + change) == sum + change;
  }

  lemma TellsAfterLog(l: Ledger, v: Bytes, r: Record, e: Event)
    requires LogTells(l) && e.validator == v && r.stake == Wrap(StakeOf(l.records, v) + Change(e))
    ensures LogTells(Log(l, v, r, Wrap(l.total + Change(e)), e))
  {
    hide Wrap, Net, Inflow, Change, Replay;
    ReplayLog(l.events, e);
  }

  /** One logged change keeps everything in step, provided it changes the record's stake and the
      total by the amount logged. */
  lemma LogKeeps(l: Ledger, v: Bytes, r: Record, e: Event)
    requires Balanced(l) && e.validator == v && RecordBalances(r)
    requires r.stake == Wrap(StakeOf(l.records, v) + Change(e))
    ensures Balanced(Log(l, v, r, Wrap(l.total + Change(e)), e))
  {
    hide RecordBalances, LogTells, Wrap, Sum, Change, StakeOf;
    SumAfterLog(l, v, r, Change(e));
    TellsAfterLog(l, v, r, e);
  }

  lemma UnloggedKeeps(l: Ledger, v: Bytes, r: Record)
    requires Balanced(l) && v in l.records
    requires r.stake == l.records[v].stake && r.slashed == l.records[v].slashed && r.selfStake == l.records[v].selfStake
    ensures Balanced(l.(records := l.records[v := r]))
    ensures TrulyBalanced(l) ==> TrulyBalanced(l.(records := l.records[v := r]))
  {
    hide Wrap, Sum, Replay, Net, Inflow;
    SumAfter(l.records, v, r);
  }

  lemma RecordGrows(r: Record, amount: int)
    requires RecordBalances(r)
    ensures Wrap(Wrap(r.stake + amount) + r.slashed) == Wrap(r.selfStake + amount)
  {
    hide Wrap;
    WrapCancels(r.stake + amount, r.slashed);
    WrapCancels(r.stake + r.slashed, amount);
    assert r.stake + amount + r.slashed == r.stake + r.slashed + amount;
  }

  // ---------------------------------------------------------------- each operation keeps it

  lemma StakeKeeps(l: Ledger, v: Bytes, publicKey: Bytes, amount: U64)
    requires Balanced(l)
    ensures Balanced(Staked(l, v, publicKey, amount).0)
    ensures Staked(l, v, publicKey, amount).1 != Done ==> Staked(l, v, publicKey, amount).0 == l
  {
    hide Wrap, Sum, LogTells;
    if Staked(l, v, publicKey, amount).1 == Done {
      var e := Event(StakeAction, v, amount);
      if v in l.records {
        var was := l.records[v];
        RecordGrows(was, amount);
        LogKeeps(l, v, was.(stake := Wrap(was.stake + amount), selfStake := Wrap(was.selfStake + amount)), e);
      } else {
        LogKeeps(l, v, Record(publicKey, amount, amount, 0, true, false, 0, 0), e);
      }
    }
  }

  lemma UnstakeKeeps(l: Ledger, v: Bytes, amount: U64, now: int, period: int)
    requires Balanced(l)
    ensures Balanced(Unstaked(l, v, amount, now, period).0)
    ensures Unstaked(l, v, amount, now, period).1 != Done ==> Unstaked(l, v, amount, now, period).0 == l
  {
    hide Wrap, Sum, LogTells;
    if Unstaked(l, v, amount, now, period).1 == Done {
      RecordGrows(l.records[v], -(amount as int));
      LogKeeps(l, v, Unstaked(l, v, amount, now, period).0.records[v], Event(UnstakeAction, v, amount));
    }
  }

  /** The clamp is what keeps a slash within the stake, also when the product has wrapped. */
  lemma SlashKeeps(l: Ledger, v: Bytes, num: U64, now: int, period: int)
    requires Balanced(l)
    ensures Balanced(Slashed(l, v, num, now, period).0)
    ensures Slashed(l, v, num, now, period).1 != Done ==> Slashed(l, v, num, now, period).0 == l
  {
    hide SlashAmount, Wrap, Sum, LogTells;
    if v in l.records {
      var was := l.records[v];
      var a := SlashAmount(was.stake, num);
      WrapCancels(was.slashed + a, was.stake - a);
      LogKeeps(l, v, Slashed(l, v, num, now, period).0.records[v], Event(SlashAction, v, a));
    }
  }

  // ---------------------------------------------------------------- runs

  datatype Op = DoStake(validator: Bytes, publicKey: Bytes, amount: U64)
              | DoUnstake(validator: Bytes, amount: U64, now: int)
              | DoSlash(validator: Bytes, num: U64, now: int)
              | DoJail(validator: Bytes, until: int)
              | DoUnjail(validator: Bytes, now: int)

  function Step(l: Ledger, op: Op, period: int): Ledger {
    match op
    case DoStake(v, pk, amount) => Staked(l, v, pk, amount).0
    case DoUnstake(v, amount, now) => Unstaked(l, v, amount, now, period).0
    case DoSlash(v, num, now) => Slashed(l, v, num, now, period).0
    case DoJail(v, until) => Jailed(l, v, until).0
    case DoUnjail(v, now) => Unjailed(l, v, now).0
  }

  const EMPTY := Ledger(map[], 0, [])

  function Run(ops: seq<Op>, period: int): Ledger {
    if ops == [] then EMPTY else Step(Run(ops[..|ops| - 1], period), ops[|ops| - 1], period)
  }

  lemma StepKeeps(l: Ledger, op: Op, period: int)
    requires Balanced(l)
    ensures Balanced(Step(l, op, period))
  {
    hide Balanced, Staked, Unstaked, Slashed;
    match op
    case DoStake(v, pk, amount) => StakeKeeps(l, v, pk, amount);
    case DoUnstake(v, amount, now) => UnstakeKeeps(l, v, amount, now, period);
    case DoSlash(v, num, now) => SlashKeeps(l, v, num, now, period);
    case DoJail(v, until) =>
      if v in l.records {
        UnloggedKeeps(l, v, l.records[v].(jailed := true, jailedUntil := until));
      }
    case DoUnjail(v, now) =>
      if v in l.records {
        UnloggedKeeps(l, v, l.records[v].(jailed := false));
      }
  }

  /** Conservation over every run, with no bound on the amounts: the total is the sum of the record
      stakes and stake plus slashed is self-stake, both modulo 2^64, and replaying the event log
      gives exactly the total and every stake. */
  lemma {:induction false} RunConserves(ops: seq<Op>, period: int)
    ensures Balanced(Run(ops, period))
  {
    hide Step;
    if ops != [] {
      RunConserves(ops[..|ops| - 1], period);
      StepKeeps(Run(ops[..|ops| - 1], period), ops[|ops| - 1], period);
    }
  }

  /** The total is the true sum exactly while that sum is below 2^64. */
  lemma TotalIsTrueIff(ops: seq<Op>, period: int)
    ensures var l := Run(ops, period); l.total == Sum(l.records) <==> Sum(l.records) < TWO64
  {
    RunConserves(ops, period);
  }

  lemma OneRecordIsWithinSum(m: map<Bytes, Record>, v: Bytes)
    ensures StakeOf(m, v) <= Sum(m)
  {
    if v in m {
      SumFrom(m, v);
    }
  }

  /** One change in unbounded integers. */
  lemma LogKeepsTruth(l: Ledger, v: Bytes, r: Record, e: Event)
    requires TrulyBalanced(l) && e.validator == v
    requires r.stake == StakeOf(l.records, v) + Change(e)
    requires r.stake + r.slashed == r.selfStake <= Inflow(l.events + [e]) < TWO64
    ensures TrulyBalanced(Log(l, v, r, Wrap(l.total + Change(e)), e))
  {
    hide Sum, Replay, Net, Inflow;
    ReplayLog(l.events, e);
    SumAfter(l.records, v, r);
  }

  lemma StepKeepsTruth(l: Ledger, op: Op, period: int)
    requires TrulyBalanced(l) && Balanced(l) && Inflow(Step(l, op, period).events) < TWO64
    ensures TrulyBalanced(Step(l, op, period))
  {
    match op
    case DoStake(v, pk, amount) => StakeKeepsTruth(l, v, pk, amount);
    case DoUnstake(v, amount, now) => UnstakeKeepsTruth(l, v, amount, now, period);
    case DoSlash(v, num, now) => SlashKeepsTruth(l, v, num, now, period);
    case DoJail(v, until) =>
      if v in l.records {
        UnloggedKeeps(l, v, l.records[v].(jailed := true, jailedUntil := until));
      }
    case DoUnjail(v, now) =>
      if v in l.records {
        UnloggedKeeps(l, v, l.records[v].(jailed := false));
      }
  }

  lemma StakeKeepsTruth(l: Ledger, v: Bytes, publicKey: Bytes, amount: U64)
    requires TrulyBalanced(l) && Inflow(Staked(l, v, publicKey, amount).0.events) < TWO64
    ensures TrulyBalanced(Staked(l, v, publicKey, amount).0)
  {
    hide Sum, Net, Inflow, Replay, Wrap;
    var (l', status) := Staked(l, v, publicKey, amount);
    if status == Done {
      var e := Event(StakeAction, v, amount);
      ReplayLog(l.events, e);
      OneRecordIsWithinSum(l.records, v);
      LogKeepsTruth(l, v, l'.records[v], e);
    }
  }

  lemma UnstakeKeepsTruth(l: Ledger, v: Bytes, amount: U64, now: int, period: int)
    requires TrulyBalanced(l) && Inflow(Unstaked(l, v, amount, now, period).0.events) < TWO64
    ensures TrulyBalanced(Unstaked(l, v, amount, now, period).0)
  {
    hide Sum, Net, Inflow, Replay, Wrap;
    var (l', status) := Unstaked(l, v, amount, now, period);
    if status == Done {
      ReplayLog(l.events, Event(UnstakeAction, v, amount));
      LogKeepsTruth(l, v, l'.records[v], Event(UnstakeAction, v, amount));
    }
  }

  lemma SlashKeepsTruth(l: Ledger, v: Bytes, num: U64, now: int, period: int)
    requires TrulyBalanced(l) && Inflow(Slashed(l, v, num, now, period).0.events) < TWO64
    ensures TrulyBalanced(Slashed(l, v, num, now, period).0)
  {
    hide SlashAmount, Sum, Net, Inflow, Replay, Wrap;
    var (l', status) := Slashed(l, v, num, now, period);
    if status == Done {
      var e := Event(SlashAction, v, SlashAmount(l.records[v].stake, num));
      ReplayLog(l.events, e);
      LogKeepsTruth(l, v, l'.records[v], e);
    }
  }

  lemma EventsGrow(l: Ledger, op: Op, period: int)
    ensures Inflow(l.events) <= Inflow(Step(l, op, period).events)
  {
    hide SlashAmount;
    hide Sum, Net, Inflow, Replay, Wrap;
    var l' := Step(l, op, period);
    if l'.events != l.events {
      ReplayLog(l.events, l'.events[|l.events|]);
    }
  }

  /** While less than 2^64 was ever staked, the books balance in unbounded integers: the total is the
      sum of the stakes, which is everything staked less everything unstaked and slashed, and stake
      plus slashed is self-stake in every record. */
  lemma {:induction false} RunConservesTruly(ops: seq<Op>, period: int)
    requires Inflow(Run(ops, period).events) < TWO64
    ensures TrulyBalanced(Run(ops, period))
  {
    hide Step, TrulyBalanced;
    if ops != [] {
      var before := Run(ops[..|ops| - 1], period);
      EventsGrow(before, ops[|ops| - 1], period);
      RunConservesTruly(ops[..|ops| - 1], period);
      RunConserves(ops[..|ops| - 1], period);
      StepKeepsTruth(before, ops[|ops| - 1], period);
    } else {
      EmptyIsTrue();
    }
  }

  lemma EmptyIsTrue()
    ensures TrulyBalanced(EMPTY)
  {
  }

  // ---------------------------------------------------------------- the slashed amount

  /** A slash takes the stated fraction, rounded down, exactly when the product fits 64 bits; beyond
      that it always takes less. */
  lemma SlashIsProportionalIff(stake: U64, num: U64)
    requires num <= BILLION
    ensures SlashAmount(stake, num) == stake * num / BILLION <==> stake * num < TWO64
    ensures SlashAmount(stake, num) <= stake * num / BILLION
  {
    var x := stake * num;
    assert x <= stake * BILLION && x >= 0;
    assert x / BILLION <= stake;
    if x >= TWO64 {
      assert x == (x / TWO64) * TWO64 + Wrap(x);
      assert x - Wrap(x) >= TWO64;
      assert Wrap(x) / BILLION < x / BILLION;
    }
  }

  // ---------------------------------------------------------------- one validator

  /** The book of one validator: its record, once it has one. */
  datatype Entry = Nobody | Known(record: Record)

  function EntryOf(l: Ledger, v: Bytes): Entry {
    if v in l.records then Known(l.records[v]) else Nobody
  }

  /** What an operation on a validator makes of its book. A deactivated or jailed validator cannot stake; unstaking
      everything deactivates; a slash jails; a jail ends when it is asked to, once its time is over. */
  function Life(x: Entry, op: Op, period: int): Entry {
    match op
    case DoStake(_, publicKey, amount) =>
      if amount > 0 && x.Nobody? then Known(Record(publicKey, amount, amount, 0, true, false, 0, 0))
      else if amount > 0 && x.record.active && !x.record.jailed then
        Known(x.record.(stake := Wrap(x.record.stake + amount), selfStake := Wrap(x.record.selfStake + amount)))
      else x
    case DoUnstake(_, amount, now) =>
      if x.Nobody? || x.record.stake < amount || x.record.selfStake < amount then x
      else
        var r := x.record.(stake := x.record.stake - amount, selfStake := x.record.selfStake - amount);
        Known(if r.stake > 0 then r else r.(active := false, unbondingAt := now + period))
    case DoSlash(_, num, now) =>
      if x.Nobody? then x
      else
        var share := Wrap(x.record.stake * num) / 1_000_000_000;
        var lost := if share < x.record.stake then share else x.record.stake;
        Known(x.record.(stake := x.record.stake - lost, slashed := Wrap(x.record.slashed + lost),
                        jailed := true, jailedUntil := now + period))
    case DoJail(_, until) => if x.Nobody? then x else Known(x.record.(jailed := true, jailedUntil := until))
    case DoUnjail(_, now) =>
      if x.Known? && now >= x.record.jailedUntil then Known(x.record.(jailed := false)) else x
  }

  /** The life of a validator: the operations that name it, in order. */
  function LifeOf(v: Bytes, ops: seq<Op>, period: int): Entry {
    if ops == [] then Nobody
    else
      var before, op := LifeOf(v, ops[..|ops| - 1], period), ops[|ops| - 1];
      if op.validator == v then Life(before, op, period) else before
  }

  lemma StepOfLife(l: Ledger, op: Op, v: Bytes, period: int)
    ensures EntryOf(Step(l, op, period), v)
         == if op.validator == v then Life(EntryOf(l, v), op, period) else EntryOf(l, v)
  {
    hide Wrap;
  }

  /** Over every run, the record of a validator is what the operations that name it make of it: nobody else's
      operations touch it. */
  lemma {:induction false} RecordsAreLives(ops: seq<Op>, v: Bytes, period: int)
    ensures EntryOf(Run(ops, period), v) == LifeOf(v, ops, period)
  {
    hide Step, Life, EntryOf;
    if ops != [] {
      RecordsAreLives(ops[..|ops| - 1], v, period);
      StepOfLife(Run(ops[..|ops| - 1], period), ops[|ops| - 1], v, period);
    } else {
      NobodyAtStart(v);
    }
  }

  /** Which operations succeed: a stake of something by a newcomer or an active validator out of jail, an unstake of
      no more than there is, a slash or a jail of somebody known, and an unjail once the time is over. */
  lemma SucceedsIff(l: Ledger, v: Bytes, publicKey: Bytes, amount: U64, num: U64, now: int, period: int)
    ensures Staked(l, v, publicKey, amount).1 == Done
       <==> amount > 0 && (v in l.records ==> l.records[v].active && !l.records[v].jailed)
    ensures Unstaked(l, v, amount, now, period).1 == Done
       <==> v in l.records && amount <= l.records[v].stake && amount <= l.records[v].selfStake
    ensures Slashed(l, v, num, now, period).1 == Done <==> v in l.records
    ensures Jailed(l, v, now).1 == Done <==> v in l.records
    ensures Unjailed(l, v, now).1 == Done <==> v in l.records && now >= l.records[v].jailedUntil
  {
  }

  lemma NobodyAtStart(v: Bytes)
    ensures EntryOf(EMPTY, v) == Nobody
  {
  }

  /** Deactivation is final: over every run, a validator that unstaked everything has no stake from then on, whatever
      it or anybody else asks for. */
  lemma {:induction false} DeactivatedForGood(ops: seq<Op>, more: seq<Op>, v: Bytes, period: int)
    requires var x := EntryOf(Run(ops, period), v); x.Known? && !x.record.active
    ensures var x := EntryOf(Run(ops + more, period), v);
            x.Known? && !x.record.active && x.record.stake == 0
  {
    hide Run, EntryOf;
    RecordsAreLives(ops, v, period);
    RecordsAreLives(ops + more, v, period);
    InactiveHasNone(ops, v, period);
    StaysInactive(ops, more, v, period);
  }

  lemma {:induction false} InactiveHasNone(ops: seq<Op>, v: Bytes, period: int)
    ensures var x := LifeOf(v, ops, period); x.Known? && !x.record.active ==> x.record.stake == 0
  {
    if ops != [] {
      InactiveHasNone(ops[..|ops| - 1], v, period);
    }
  }

  lemma {:induction false} StaysInactive(ops: seq<Op>, more: seq<Op>, v: Bytes, period: int)
    requires var x := LifeOf(v, ops, period); x.Known? && !x.record.active && x.record.stake == 0
    ensures var x := LifeOf(v, ops + more, period); x.Known? && !x.record.active && x.record.stake == 0
  {
    if more == [] {
      assert ops + more == ops;
    } else {
      StaysInactive(ops, more[..|more| - 1], v, period);
      assert (ops + more)[..|ops + more| - 1] == ops + more[..|more| - 1];
    }
  }

  // ---------------------------------------------------------------- the object

  class StakingModule {
    const period: int
    var validators: map<Bytes, Record>
    var totalStaked: U64
    var events: seq<Event>

    constructor (unbondingPeriod: int)
      ensures period == unbondingPeriod && State() == EMPTY
    {
      period := unbondingPeriod;
      validators, totalStaked, events := map[], 0, [];
    }

    ghost function State(): Ledger
      reads this
    {
      Ledger(validators, totalStaked, events)
    }

    method Stake(validator: Bytes, publicKey: Bytes, amount: U64) returns (status: Status)
      modifies this
      ensures (State(), status) == Staked(old(State()), validator, publicKey, amount)
    {
      if amount == 0 {
        return ZeroAmount;
      }
      if validator in validators {
        var record := validators[validator];
        if !record.active {
          return Deactivated;
        }
        if record.jailed {
          return StillJailed;
        }
        record := record.(stake := Wrap(record.stake + amount));
        record := record.(selfStake := Wrap(record.selfStake + amount));
        validators := validators[validator := record];
      } else {
        validators := validators[validator := Record(publicKey, amount, amount, 0, true, false, 0, 0)];
      }
      totalStaked := Wrap(totalStaked + amount);
      events := events + [Event(StakeAction, validator, amount)];
      return Done;
    }

    method Unstake(validator: Bytes, amount: U64, now: int) returns (status: Status)
      modifies this
      ensures (State(), status) == Unstaked(old(State()), validator, amount, now, period)
    {
      if validator !in validators {
        return NotFound;
      }
      var record := validators[validator];
      if amount > record.stake || amount > record.selfStake {
        return TooMuch;
      }
      record := record.(stake := record.stake - amount, selfStake := record.selfStake - amount);
      if record.stake == 0 {
        record := record.(active := false, unbondingAt := now + period);
      }
      validators := validators[validator := record];
      totalStaked := Wrap(totalStaked - amount);
      events := events + [Event(UnstakeAction, validator, amount)];
      return Done;
    }

    method Slash(validator: Bytes, num: U64, now: int) returns (slashAmount: U64, status: Status)
      modifies this
      ensures (State(), status) == Slashed(old(State()), validator, num, now, period)
      ensures slashAmount
           == if validator in old(validators) then SlashAmount(old(validators)[validator].stake, num) else 0
    {
      if validator !in validators {
        return 0, NotFound;
      }
      var record := validators[validator];
      slashAmount := Wrap(record.stake * num) / BILLION;
      if slashAmount > record.stake {
        slashAmount := record.stake;
      }
      record := record.(stake := record.stake - slashAmount, slashed := Wrap(record.slashed + slashAmount));
      record := record.(jailed := true, jailedUntil := now + period);
      validators := validators[validator := record];
      totalStaked := Wrap(totalStaked - slashAmount);
      events := events + [Event(SlashAction, validator, slashAmount)];
      return slashAmount, Done;
    }

    method Jail(validator: Bytes, until: int) returns (status: Status)
      modifies this
      ensures (State(), status) == Jailed(old(State()), validator, until)
    {
      if validator !in validators {
        return NotFound;
      }
      validators := validators[validator := validators[validator].(jailed := true, jailedUntil := until)];
      return Done;
    }

    method Unjail(validator: Bytes, now: int) returns (status: Status)
      modifies this
      ensures (State(), status) == Unjailed(old(State()), validator, now)
    {
      if validator !in validators {
        return NotFound;
      }
      if now < validators[validator].jailedUntil {
        return StillJailed;
      }
      validators := validators[validator := validators[validator].(jailed := false)];
      return Done;
    }
  }
}
