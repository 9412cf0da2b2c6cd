/** The reorder buffer of block synchronisation: blocks arrive in any order, repeatedly or too early,
    and are applied in height order. The applier's answer, the local height and the timeout are
    parameters of the operations. */
module StateSync {
  import opened Words

  const MAX_BATCH: U64 := 100

  datatype Sync = Sync(syncing: bool, current: U64, target: U64, pending: map<U64, Bytes>)

  /** The first eight bytes of block data are its height. */
  function HeightOf(data: Bytes): (h: U64)
    requires |data| >= 8
  {
    FromBEBound(data[..8]);
    Pow256Of8();
    FromBE(data[..8])
  }

  // ---------------------------------------------------------------- operations

  /** `StartSync`; `local` is what the height getter answers. */
  function Start(s: Sync, target: U64, local: U64): Sync {
    if target <= local then s
    else if s.syncing then s.(target := if target > s.target then target else s.target, pending := map[])
    else Sync(true, local, target, map[])
  }

  /** `resyncFromHeightLocked`: the restart after a failure or a timeout. */
  function Resync(s: Sync, height: U64): Sync {
    s.(current := height, pending := map[])
  }

  function Stopped(s: Sync): Sync {
    s.(syncing := false, pending := map[])
  }

  /** What one delivery does: the new state, the blocks applied in order, and whether one failed. */
  datatype Outcome = Outcome(state: Sync, applied: seq<Bytes>, failed: bool)

  /** The drain loop: apply the buffered block at the current height while there is one. */
  function Drain(s: Sync, accepts: Bytes -> bool): Outcome
    decreases |s.pending|
  {
    if s.current > s.target || s.current !in s.pending then Outcome(s, [], false)
    else
      var block := s.pending[s.current];
      var rest := s.(pending := s.pending - {s.current});
      RemovalShrinks(s.pending, s.current);
      if !accepts(block) then Outcome(Resync(rest, s.current), [], true)
      else
        var more := Drain(rest.(current := Wrap(s.current + 1)), accepts);
        Outcome(more.state, [block] + more.applied, more.failed)
  }

  lemma RemovalShrinks(m: map<U64, Bytes>, k: U64)
    requires k in m
    ensures |m - {k}| < |m|
  {
    assert (m - {k}).Keys == m.Keys - {k};
  }

  /** `ApplyBlock`. */
  function Deliver(s: Sync, data: Bytes, accepts: Bytes -> bool): Outcome {
    if !s.syncing || |data| < 8 then Outcome(s, [], true)
    else if HeightOf(data) < s.current then Outcome(s, [], false)
    else
      var buffered := s.(pending := s.pending[HeightOf(data) := data]);
      if HeightOf(data) > s.target then Outcome(buffered, [], false)
      else
        var r := Drain(buffered, accepts);
        if !r.failed && r.state.current > r.state.target then r.(state := Stopped(r.state)) else r
  }

  /** The range `requestNextBatch` asks the peers for. */
  function NextRequest(s: Sync): Option<(U64, U64)> {
    if !s.syncing || s.current > s.target then None
    else
      var end := Wrap(s.current + MAX_BATCH - 1);
      var to := if end > s.target then s.target else end;
      if to < s.current then None else Some((s.current, to))
  }

  // ---------------------------------------------------------------- invariant

  ghost predicate HasHeight(data: Bytes, h: int) {
    |data| >= 8 && HeightOf(data) == h
  }

  /** Blocks filed under their own height, none below `low`. */
  ghost predicate Filed(pending: map<U64, Bytes>, low: int) {
    forall h :: h in pending ==> h >= low && HasHeight(pending[h], h)
  }

  /** While syncing, everything buffered lies strictly above the current height. */
  ghost predicate Valid(s: Sync) {
    if s.syncing then s.current <= s.target < MAX64 && Filed(s.pending, s.current + 1) else s.pending == map[]
  }

  /** As `Valid`, inside the drain loop: the current height itself may be buffered. */
  ghost predicate Draining(s: Sync) {
    s.syncing && s.current <= s.target + 1 && s.target < MAX64 && Filed(s.pending, s.current)
  }

  /** Blocks in consecutive heights from `first` on. */
  ghost predicate Consecutive(blocks: seq<Bytes>, first: int) {
    forall i :: 0 <= i < |blocks| ==> HasHeight(blocks[i], first + i)
  }

  lemma ConsecutiveJoin(a: seq<Bytes>, b: seq<Bytes>, first: int)
    requires Consecutive(a, first) && Consecutive(b, first + |a|)
    ensures Consecutive(a + b, first)
  {
    hide HasHeight;
  }

  /** One turn of the drain loop that applies its block. */
  function Advanced(s: Sync): Sync
    requires s.current in s.pending
  {
    s.(pending := s.pending - {s.current}, current := Wrap(s.current + 1))
  }

  lemma AdvancedKeeps(s: Sync)
    requires Draining(s) && s.current <= s.target && s.current in s.pending
    ensures Draining(Advanced(s)) && Advanced(s).current == s.current + 1 && |Advanced(s).pending| < |s.pending|
  {
    hide HasHeight;
    RemovalShrinks(s.pending, s.current);
  }

  lemma DrainUnfolds(s: Sync, accepts: Bytes -> bool)
    requires s.current <= s.target && s.current in s.pending && accepts(s.pending[s.current])
    ensures Drain(s, accepts).state == Drain(Advanced(s), accepts).state
    ensures Drain(s, accepts).applied == [s.pending[s.current]] + Drain(Advanced(s), accepts).applied
    ensures Drain(s, accepts).failed == Drain(Advanced(s), accepts).failed
  {
    RemovalShrinks(s.pending, s.current);
  }

  lemma DrainEnds(s: Sync, accepts: Bytes -> bool)
    ensures !(s.current <= s.target && s.current in s.pending) ==> Drain(s, accepts) == Outcome(s, [], false)
    ensures s.current <= s.target && s.current in s.pending && !accepts(s.pending[s.current]) ==>
              Drain(s, accepts) == Outcome(s.(pending := map[]), [], true)
  {
  }

  /** The drain loop applies consecutive heights and stops below anything still buffered. */
  lemma {:induction false} DrainKeeps(s: Sync, accepts: Bytes -> bool)
    requires Draining(s)
    ensures var r := Drain(s, accepts);
            && Draining(r.state) && r.state.target == s.target
            && Consecutive(r.applied, s.current) && r.state.current == s.current + |r.applied|
            && (r.failed ==> r.state.current <= r.state.target && r.state.pending == map[])
            && (r.state.current <= s.target ==> r.state.current !in r.state.pending)
    decreases |s.pending|
  {
    hide HasHeight, Filed, Drain, Consecutive, HeightOf;
    DrainEnds(s, accepts);
    NothingConsecutive(s.current);
    FiledNone(s.current);
    if s.current <= s.target && s.current in s.pending && accepts(s.pending[s.current]) {
      FiledAt(s.pending, s.current, s.current);
      OneConsecutive(s.pending[s.current], s.current);
      AdvancedKeeps(s);
      DrainKeeps(Advanced(s), accepts);
      DrainUnfolds(s, accepts);
      ConsecutiveJoin([s.pending[s.current]], Drain(Advanced(s), accepts).applied, s.current);
    }
  }

  lemma OneConsecutive(block: Bytes, height: int)
    requires HasHeight(block, height)
    ensures Consecutive([block], height)
  {
  }

  lemma FiledAt(pending: map<U64, Bytes>, low: int, h: U64)
    requires Filed(pending, low) && h in pending
    ensures HasHeight(pending[h], h)
  {
  }

  lemma FiledNone(low: int)
    ensures Filed(map[], low)
  {
  }

  lemma FiledPut(pending: map<U64, Bytes>, low: int, data: Bytes)
    requires Filed(pending, low) && |data| >= 8 && HeightOf(data) >= low
    ensures Filed(pending[HeightOf(data) := data], low)
  {
    hide HeightOf;
  }

  lemma FiledAbove(pending: map<U64, Bytes>, low: int, high: int)
    requires Filed(pending, low)
    ensures high <= low ==> Filed(pending, high)
    ensures 0 <= low <= MAX64 && low !in pending ==> Filed(pending, low + 1)
  {
    hide HasHeight;
  }

  lemma DeliverKeeps(s: Sync, data: Bytes, accepts: Bytes -> bool)
    requires Valid(s)
    ensures var r := Deliver(s, data, accepts);
            && Valid(r.state)
            && Consecutive(r.applied, s.current)
            && r.state.current == s.current + |r.applied|
            && r.state.target == s.target
  {
    hide Consecutive, HasHeight, HeightOf, Drain, Filed;
    NothingConsecutive(s.current);
    if s.syncing && |data| >= 8 && s.current <= HeightOf(data) {
      if HeightOf(data) > s.target {
        FiledPut(s.pending, s.current + 1, data);
      } else {
        FiledAbove(s.pending, s.current + 1, s.current);
        FiledPut(s.pending, s.current, data);
        var buffered := s.(pending := s.pending[HeightOf(data) := data]);
        DrainKeeps(buffered, accepts);
        FiledAbove(Drain(buffered, accepts).state.pending, Drain(buffered, accepts).state.current, 0);
      }
    }
  }

  lemma NothingConsecutive(first: int)
    ensures Consecutive([], first)
  {
  }

  // ---------------------------------------------------------------- runs

  datatype Event = Begin(height: U64, local: U64) | Arrive(data: Bytes, accepts: Bytes -> bool) | Timeout | Halt

  /** The state, with the height the running session began at and what it applied since. */
  datatype Session = Session(state: Sync, first: U64, applied: seq<Bytes>)

  function Step(x: Session, e: Event): Session {
    match e
    case Begin(height, local) =>
      if height > local && !x.state.syncing then Session(Start(x.state, height, local), local, [])
      else x.(state := Start(x.state, height, local))
    case Arrive(data, accepts) =>
      var r := Deliver(x.state, data, accepts);
      Session(r.state, x.first, x.applied + r.applied)
    case Timeout => x.(state := Resync(x.state, x.state.current))
    case Halt => x.(state := Stopped(x.state))
  }

  function Run(x: Session, es: seq<Event>): Session {
    if es == [] then x else Step(Run(x, es[..|es| - 1]), es[|es| - 1])
  }

  ghost predicate Good(x: Session) {
    && Valid(x.state)
    && Consecutive(x.applied, x.first)
    && (x.state.syncing ==> x.state.current == x.first + |x.applied|)
  }

  const NEW := Session(Sync(false, 0, 0, map[]), 0, [])

  lemma StepKeeps(x: Session, e: Event)
    requires Good(x) && (e.Begin? ==> e.height < MAX64)
    ensures Good(Step(x, e))
  {
    hide HeightOf, Deliver;
    if e.Arrive? {
      DeliverKeeps(x.state, e.data, e.accepts);
      if x.state.syncing {
        ConsecutiveJoin(x.applied, Deliver(x.state, e.data, e.accepts).applied, x.first);
      } else {
        NotSyncing(x.state, e.data, e.accepts);
        assert x.applied + [] == x.applied;
      }
    }
  }

  lemma NotSyncing(s: Sync, data: Bytes, accepts: Bytes -> bool)
    requires !s.syncing
    ensures Deliver(s, data, accepts) == Outcome(s, [], true)
  {
  }

  /** Over every run of starts, arrivals in any order with duplicates and failures, timeouts and stops
      with targets below 2^64 - 1: each session applies its first height, the next, and so on, with no
      gap and no repeat, and while it runs everything buffered lies above the current height. */
  lemma {:induction false} AppliedInOrder(es: seq<Event>)
    requires forall i :: 0 <= i < |es| && es[i].Begin? ==> es[i].height < MAX64
    ensures Good(Run(NEW, es))
  {
    hide Step;
    if es != [] {
      AppliedInOrder(es[..|es| - 1]);
      StepKeeps(Run(NEW, es[..|es| - 1]), es[|es| - 1]);
    }
  }

  /** The heights asked for since the running session began. */
  function Asked(es: seq<Event>): set<U64> {
    if es == [] then {}
    else
      var front, e := es[..|es| - 1], es[|es| - 1];
      if e.Begin? && e.height > e.local then (if Run(NEW, front).state.syncing then Asked(front) else {}) + {e.height}
      else Asked(front)
  }

  /** Over every run, a session aims at the highest height it was asked for, and asking again leaves it where it
      stands with an empty buffer: the blocks that came early must be sent once more. */
  lemma {:induction false} AimsAtTheHighest(es: seq<Event>)
    ensures var x := Run(NEW, es);
            && (x.state.syncing ==> x.state.target in Asked(es) && forall h :: h in Asked(es) ==> h <= x.state.target)
            && (es != [] && es[|es| - 1].Begin? && es[|es| - 1].height > es[|es| - 1].local ==>
                  && x.state.syncing && x.state.pending == map[]
                  && var before := Run(NEW, es[..|es| - 1]).state;
                     x.state.current == if before.syncing then before.current else es[|es| - 1].local)
  {
    if es != [] {
      var front, e := es[..|es| - 1], es[|es| - 1];
      AimsAtTheHighest(front);
      if e.Arrive? {
        DeliverKeepsTarget(Run(NEW, front).state, e.data, e.accepts);
      }
    }
  }

  lemma {:induction false} DrainKeepsTarget(s: Sync, accepts: Bytes -> bool)
    ensures Drain(s, accepts).state.target == s.target && Drain(s, accepts).state.syncing == s.syncing
    decreases |s.pending|
  {
    if s.current <= s.target && s.current in s.pending && accepts(s.pending[s.current]) {
      DrainUnfolds(s, accepts);
      RemovalShrinks(s.pending, s.current);
      DrainKeepsTarget(Advanced(s), accepts);
    }
  }

  lemma DeliverKeepsTarget(s: Sync, data: Bytes, accepts: Bytes -> bool)
    ensures var r := Deliver(s, data, accepts).state; r.target == s.target && (r.syncing ==> s.syncing)
  {
    hide Drain;
    if |data| >= 8 {
      DrainKeepsTarget(s.(pending := s.pending[HeightOf(data) := data]), accepts);
    }
  }

  // ---------------------------------------------------------------- order independence

  const WILLING: Bytes -> bool := _ => true

  /** Deliveries to a willing applier, with no restart between them. */
  function DeliverAll(x: Session, blocks: seq<Bytes>): Session {
    if blocks == [] then x
    else Step(DeliverAll(x, blocks[..|blocks| - 1]), Arrive(blocks[|blocks| - 1], WILLING))
  }

  ghost predicate Heights(d: set<U64>, blocks: seq<Bytes>) {
    forall h: U64 :: h in d <==> exists i :: 0 <= i < |blocks| && |blocks[i]| >= 8 && HeightOf(blocks[i]) == h
  }

  /** A session that was delivered exactly the heights `d`: it stands at the least height missing, with
      the later ones buffered, or it has finished because none is missing. */
  ghost predicate Accounts(x: Session, target: U64, d: set<U64>) {
    && (forall h: U64 :: x.first <= h < x.first + |x.applied| ==> h in d)
    && (if x.state.syncing then
          && x.state.target == target && x.state.current == x.first + |x.applied| <= target
          && x.state.current !in d
          && (forall h :: h in x.state.pending <==> h in d && h > x.state.current)
        else
          && x.first + |x.applied| == target + 1)
  }

  /** With nothing refused, draining stops exactly at the first height that is not buffered. */
  lemma {:induction false} DrainAll(s: Sync)
    requires Draining(s)
    ensures var r := Drain(s, WILLING);
            && !r.failed
            && (forall h: U64 :: s.current <= h < r.state.current ==> h in s.pending)
            && (forall h: U64 :: h in r.state.pending <==> h in s.pending && h >= r.state.current)
    decreases |s.pending|
  {
    hide HasHeight;
    if s.current <= s.target && s.current in s.pending {
      AdvancedKeeps(s);
      DrainUnfolds(s, WILLING);
      DrainAll(Advanced(s));
      DrainKeeps(Advanced(s), WILLING);
      forall h: U64 | s.current <= h < Drain(s, WILLING).state.current ensures h in s.pending {
        assert h == s.current || h in Advanced(s).pending;
      }
    }
  }

  lemma ArrivalAccounts(x: Session, target: U64, d: set<U64>, data: Bytes)
    requires Good(x) && Accounts(x, target, d)
    ensures var e := Arrive(data, WILLING);
            Good(Step(x, e)) && Step(x, e).first == x.first
            && Accounts(Step(x, e), target, if |data| >= 8 then d + {HeightOf(data)} else d)
  {
    StepKeeps(x, Arrive(data, WILLING));
    assert x.applied + [] == x.applied;
    if !x.state.syncing {
      NotSyncing(x.state, data, WILLING);
    } else if |data| >= 8 && x.state.current <= HeightOf(data) <= x.state.target {
      DrainAccounts(x, target, d, data);
    }
  }

  lemma DrainAccounts(x: Session, target: U64, d: set<U64>, data: Bytes)
    requires Good(x) && Accounts(x, target, d) && x.state.syncing
    requires |data| >= 8 && x.state.current <= HeightOf(data) <= x.state.target
    ensures Accounts(Step(x, Arrive(data, WILLING)), target, d + {HeightOf(data)})
  {
    hide HasHeight, HeightOf, Consecutive, Drain, Filed;
    var s := x.state.(pending := x.state.pending[HeightOf(data) := data]);
    FiledAbove(x.state.pending, x.state.current + 1, x.state.current);
    FiledPut(x.state.pending, x.state.current, data);
    DrainKeeps(s, WILLING);
    DrainAll(s);
    DrainedAccounts(x, target, d, HeightOf(data), s, Drain(s, WILLING));
  }

  lemma DrainedAccounts(x: Session, target: U64, d: set<U64>, h: U64, s: Sync, r: Outcome)
    requires Accounts(x, target, d) && x.state.syncing && x.state.current <= h
    requires s.current == x.state.current && s.pending.Keys == x.state.pending.Keys + {h}
    requires r.state.syncing && r.state.target == target && r.state.current == s.current + |r.applied|
    requires r.state.current <= target ==> r.state.current !in r.state.pending
    requires r.state.current <= target + 1
    requires forall k: U64 :: s.current <= k < r.state.current ==> k in s.pending
    requires forall k: U64 :: k in r.state.pending <==> k in s.pending && k >= r.state.current
    ensures Accounts(Session(if r.state.current > target then Stopped(r.state) else r.state, x.first,
                             x.applied + r.applied), target, d + {h})
  {
    assert forall k: U64 :: k in s.pending <==> k in x.state.pending || k == h;
  }

  lemma {:induction false} DeliveriesAccount(x: Session, blocks: seq<Bytes>, d: set<U64>)
    requires Good(x) && x.state.syncing && x.state.pending == map[] && x.applied == [] && Heights(d, blocks)
    ensures Good(DeliverAll(x, blocks)) && DeliverAll(x, blocks).first == x.first
    ensures Accounts(DeliverAll(x, blocks), x.state.target, d)
  {
    hide HeightOf, Step;
    if blocks != [] {
      var front, last := blocks[..|blocks| - 1], blocks[|blocks| - 1];
      var before := set i | 0 <= i < |front| && |front[i]| >= 8 :: HeightOf(front[i]);
      DeliveriesAccount(x, front, before);
      ArrivalAccounts(DeliverAll(x, front), x.state.target, before, last);
      if |last| >= 8 {
        assert d == before + {HeightOf(last)} by {
          forall h: U64 ensures h in d <==> h in before + {HeightOf(last)} {
            assert blocks[|blocks| - 1] == last;
          }
        }
      } else {
        assert d == before;
      }
    }
  }

  /** Whatever the order and the repetitions: the session finishes if and only if every height from
      its first to its target arrived, and until then it stands at the least height missing. */
  lemma FinishesIff(x: Session, blocks: seq<Bytes>, d: set<U64>)
    requires Good(x) && x.state.syncing && x.state.pending == map[] && x.applied == [] && Heights(d, blocks)
    ensures var y := DeliverAll(x, blocks);
            && (!y.state.syncing <==> forall h: U64 :: x.first <= h <= x.state.target ==> h in d)
            && (y.state.syncing ==>
                  && x.first <= y.state.current <= x.state.target && y.state.current !in d
                  && forall h: U64 :: x.first <= h < y.state.current ==> h in d)
  {
    DeliveriesAccount(x, blocks, d);
  }

  /** Two deliveries of the same heights, in any two orders, leave the session in the same place: both
      finished or at the same height, the same number of blocks applied, the same heights buffered. */
  lemma OrderIndependent(x: Session, a: seq<Bytes>, b: seq<Bytes>, d: set<U64>)
    requires Good(x) && x.state.syncing && x.state.pending == map[] && x.applied == []
    requires Heights(d, a) && Heights(d, b)
    ensures var y, z := DeliverAll(x, a), DeliverAll(x, b);
            && y.state.syncing == z.state.syncing && |y.applied| == |z.applied|
            && (y.state.syncing ==> y.state.current == z.state.current && y.state.pending.Keys == z.state.pending.Keys)
  {
    DeliveriesAccount(x, a, d);
    DeliveriesAccount(x, b, d);
    FinishesIff(x, a, d);
    FinishesIff(x, b, d);
  }

  // ---------------------------------------------------------------- the last height

  /** The bound on the target is exact: at 2^64 - 1 the height counter wraps instead of passing the
      target, so no delivery ever finishes the session. */
  lemma LastHeightNeverFinishes(s: Sync, data: Bytes, accepts: Bytes -> bool)
    requires s.syncing && s.target == MAX64
    ensures Deliver(s, data, accepts).state.syncing && Deliver(s, data, accepts).state.target == MAX64
  {
    if |data| >= 8 && HeightOf(data) >= s.current {
      DrainStaysBelow(s.(pending := s.pending[HeightOf(data) := data]), accepts);
    }
  }

  lemma {:induction false} DrainStaysBelow(s: Sync, accepts: Bytes -> bool)
    requires s.syncing && s.target == MAX64
    ensures Drain(s, accepts).state.syncing && Drain(s, accepts).state.target == MAX64
    decreases |s.pending|
  {
    if s.current in s.pending {
      RemovalShrinks(s.pending, s.current);
      DrainStaysBelow(s.(pending := s.pending - {s.current}, current := Wrap(s.current + 1)), accepts);
    }
  }

  // ---------------------------------------------------------------- requests

  /** Every request starts at the missing height, holds at most one batch and ends by the target; there
      is one exactly while the batch end does not wrap. */
  lemma RequestsStartAtTheGap(s: Sync)
    requires Valid(s) && s.syncing
    ensures NextRequest(s).Some? <==> s.current + MAX_BATCH - 1 <= MAX64
    ensures NextRequest(s).Some? ==>
              var (from, to) := NextRequest(s).value;
              from == s.current && from <= to <= s.target && to - from < MAX_BATCH
              && (to < s.target ==> to - from == MAX_BATCH - 1)
  {
  }

  /** One answered request: all its heights delivered, the session passes the whole batch. */
  lemma AnsweredRequestAdvances(x: Session, blocks: seq<Bytes>, d: set<U64>)
    requires Good(x) && x.state.syncing && x.state.pending == map[] && x.applied == [] && Heights(d, blocks)
    requires NextRequest(x.state).Some?
    requires forall h: U64 :: NextRequest(x.state).value.0 <= h <= NextRequest(x.state).value.1 ==> h in d
    ensures var y := DeliverAll(x, blocks);
            !y.state.syncing || y.state.current > NextRequest(x.state).value.1
  {
    FinishesIff(x, blocks, d);
  }

  // ---------------------------------------------------------------- the object

  class StateSyncer {
    var syncing: bool
    var currentHeight: U64
    var targetHeight: U64
    var pendingBlocks: map<U64, Bytes>

    constructor ()
      ensures State() == NEW.state
    {
      syncing, currentHeight, targetHeight, pendingBlocks := false, 0, 0, map[];
    }

    ghost function State(): Sync
      reads this
    {
      Sync(syncing, currentHeight, targetHeight, pendingBlocks)
    }

    method StartSync(target: U64, localHeight: U64)
      modifies this
      ensures State() == Start(old(State()), target, localHeight)
    {
      if target <= localHeight {
        return;
      }
      if syncing {
        if target > targetHeight {
          targetHeight := target;
        }
        pendingBlocks := map[];
        return;
      }
      syncing, currentHeight, targetHeight, pendingBlocks := true, localHeight, target, map[];
    }

    method ResyncFromHeight(height: U64)
      modifies this
      ensures State() == old(State()).(current := height, pending := map[])
    {
      currentHeight, pendingBlocks := height, map[];
    }

    method Stop()
      modifies this
      ensures State() == Stopped(old(State()))
    {
      syncing, pendingBlocks := false, map[];
    }

    method ApplyBlock(blockData: Bytes, accepts: Bytes -> bool) returns (applied: seq<Bytes>, failed: bool)
      modifies this
      ensures Outcome(State(), applied, failed) == Deliver(old(State()), blockData, accepts)
    {
      hide Drain;
      applied := [];
      if !syncing || |blockData| < 8 {
        return applied, true;
      }
      var blockHeight := HeightOf(blockData);
      if blockHeight < currentHeight {
        return applied, false;
      }
      pendingBlocks := pendingBlocks[blockHeight := blockData];
      if blockHeight > targetHeight {
        return applied, false;
      }
      applied, failed := DrainPending(accepts);
      if !failed && currentHeight > targetHeight {
        Stop();
      }
    }

    /** The loop of `ApplyBlock`. */
    method DrainPending(accepts: Bytes -> bool) returns (applied: seq<Bytes>, failed: bool)
      modifies this
      ensures Outcome(State(), applied, failed) == Drain(old(State()), accepts)
    {
      hide Drain, Underway, Wrap, HeightOf, FromBE;
      applied := [];
      ghost var whole := Drain(State(), accepts);
      DrainStarts(State(), accepts);
      while currentHeight <= targetHeight && currentHeight in pendingBlocks
        invariant Underway(whole, applied, State(), accepts)
        decreases |pendingBlocks|
      {
        var block := pendingBlocks[currentHeight];
        RemovalShrinks(pendingBlocks, currentHeight);
        if !accepts(block) {
          DrainRefused(whole, applied, State(), accepts);
          pendingBlocks := pendingBlocks - {currentHeight};
          ResyncFromHeight(currentHeight);
          return applied, true;
        }
        DrainOne(whole, applied, State(), accepts);
        ghost var next := Advanced(State());
        pendingBlocks := pendingBlocks - {currentHeight};
        currentHeight := Wrap(currentHeight + 1);
        applied := applied + [block];
        assert State() == next;
      }
      DrainNone(whole, applied, State(), accepts);
      return applied, false;
    }

    method RequestNextBatch() returns (r: Option<(U64, U64)>)
      ensures r == NextRequest(State())
    {
      if !syncing || currentHeight > targetHeight {
        return None;
      }
      var batchEnd := Wrap(currentHeight + MAX_BATCH - 1);
      if batchEnd > targetHeight {
        batchEnd := targetHeight;
      }
      if batchEnd < currentHeight {
        return None;
      }
      return Some((currentHeight, batchEnd));
    }
  }

  /** What the drain loop has applied, with what it will apply, is the whole outcome. */
  ghost predicate Underway(whole: Outcome, applied: seq<Bytes>, s: Sync, accepts: Bytes -> bool) {
    var r := Drain(s, accepts);
    whole == Outcome(r.state, applied + r.applied, r.failed)
  }

  lemma DrainStarts(s: Sync, accepts: Bytes -> bool)
    ensures Underway(Drain(s, accepts), [], s, accepts)
  {
    assert [] + Drain(s, accepts).applied == Drain(s, accepts).applied;
  }

  lemma DrainOne(whole: Outcome, applied: seq<Bytes>, s: Sync, accepts: Bytes -> bool)
    requires Underway(whole, applied, s, accepts) && s.current <= s.target && s.current in s.pending
    requires accepts(s.pending[s.current])
    ensures Underway(whole, applied + [s.pending[s.current]], Advanced(s), accepts)
  {
    DrainUnfolds(s, accepts);
    var more := Drain(Advanced(s), accepts).applied;
    assert applied + ([s.pending[s.current]] + more) == applied + [s.pending[s.current]] + more;
  }

  lemma DrainRefused(whole: Outcome, applied: seq<Bytes>, s: Sync, accepts: Bytes -> bool)
    requires Underway(whole, applied, s, accepts) && s.current <= s.target && s.current in s.pending
    requires !accepts(s.pending[s.current])
    ensures whole == Outcome(s.(pending := map[]), applied, true)
  {
    DrainEnds(s, accepts);
    assert applied + [] == applied;
  }

  lemma DrainNone(whole: Outcome, applied: seq<Bytes>, s: Sync, accepts: Bytes -> bool)
    requires Underway(whole, applied, s, accepts) && !(s.current <= s.target && s.current in s.pending)
    ensures whole == Outcome(s, applied, false)
  {
    assert applied + [] == applied;
  }
}
