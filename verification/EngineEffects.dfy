/** What each event does to the engine: its position, its lock, its votes and its decisions.

    Everything here is read off the message and the state before it, with the deeds of `EngineDeeds`; no handler is
    named. Statements about one event come first, those about whole runs follow from them. */
module EngineEffects {
  import opened Words
  import opened HexText
  import opened ConsensusTypes
  import opened ValidatorSets
  import opened EngineModel
  import opened EngineInvariants
  import opened EngineSteps
  import opened EngineRuns
  import opened EngineDeeds
  import DS = DoubleSigns
  import F = Finality

  // ---------------------------------------------------------------- the start

  /** A new engine starts at the requested height in view 0, with nothing locked, recorded, pending or decided, in the
      first epoch; until then it stands idle at height 0. */
  lemma StartsClean(self: Self, vset: VSet, chain: U64, height: U64)
    ensures var e, s := NewEngine(self, vset, chain), Started(NewEngine(self, vset, chain), height);
            && Place(e.core) == (0, 0, Idle, [], 0, 0)
            && Place(s.core) == (height, 0, Prepare, [], height, 0)
            && s == e.(core := s.core) && s.self == self && s.vset == vset
            && s.core.locked.None? && s.core.prepared.None?
            && s.book == VoteBook(map[], []) && s.timeouts == Timeouts(map[], [], 0) && s.pending == map[]
            && s.detector.history == map[] && s.detector.evidence == [] && !s.detector.trimmed
            && s.finality.checkpoints == [] && s.finality.lastFinalized == 0
            && s.epochStart == 1 && s.saved.None? && s.ledger.chain == chain && s.ledger.applying.None?
            && s.log.made == {} && s.log.decisions == []
  {
  }

  /** Where any engine stands after a start: at the saved position, if a state with a height was saved, and otherwise
      at the requested height in view 0; nothing but the position changes in the second case. */
  lemma StartsAt(e: Engine, height: U64)
    ensures var s := Started(e, height);
            && s == e.(core := s.core)
            && (e.saved.Some? && e.saved.value.height > 0 ==>
                  && At(s) == Position(e.saved.value.height, e.saved.value.view) && Mirrored(s.core)
                  && s.core.(curHeight := e.saved.value.curHeight, curView := e.saved.value.curView) == e.saved.value)
            && (e.saved.None? || e.saved.value.height == 0 ==>
                  && Place(s.core) == (height, 0, Prepare, e.core.decidedHash, height, 0)
                  && s.core.locked == e.core.locked && s.core.prepared == e.core.prepared)
  {
  }

  // ---------------------------------------------------------------- timeouts, the timer and synced blocks

  function Wanting(t: Timeouts, view: U64): map<Bytes, TimeoutVote> {
    if view in t.votes then t.votes[view] else map[]
  }

  /** Enough members want the view, counting this one. */
  predicate ViewQuorum(e: Engine, view: U64, who: Bytes) {
    SuperMajority(e.vset, Wanting(e.timeouts, view).Keys + {who})
  }

  /** A timeout is kept under its view, unless a quorum for a later view is sent on, or the view is among the
      oldest beyond the cap. */
  function TimeoutsWith(e: Engine, m: Message): Timeouts
    requires m.signature.Some?
  {
    var kept := Wanting(e.timeouts, m.view)[m.validator := TimeoutVote(m.signature.value, m.justify)];
    var order := if m.view in e.timeouts.votes then e.timeouts.order else e.timeouts.order + [m.view];
    var cut := if |order| > 2048 then |order| - 2048 else 0;
    var sent := m.view > e.core.view && ViewQuorum(e, m.view, m.validator);
    Timeouts(e.timeouts.votes[m.view := kept] - (if sent then {m.view} else {}) - (set v | v in order[..cut]),
             order[cut..], m.view)
  }

  /** The engine after a delivered timeout. */
  function AfterTimeout(e: Engine, m: Message): Engine {
    if TimeoutStands(e, m) then Arrived(e, m).(timeouts := TimeoutsWith(e, m)) else e
  }

  /** The timer asks for the next view with a signed timeout of its own, and moves there once a quorum wants it. */
  function AfterTimer(e: Engine): Engine {
    var view := Wrap(e.core.view + 1);
    var sig := Signature(e.self.local, TimeoutData(e.self.chainId, Position(e.core.height, view)));
    var kept := Wanting(e.timeouts, view)[e.self.local := TimeoutVote(sig, e.core.prepared)];
    var signed := e.(log := e.log.(made := e.log.made + {sig}),
                     timeouts := e.timeouts.(votes := e.timeouts.votes[view := kept]));
    if !ViewQuorum(e, view, e.self.local) then signed
    else
      signed.(core := e.core.(view := view, curView := view, phase := Prepare),
              book := VoteBook(map[], e.book.order),
              pending := map h | h in e.pending && h != e.core.height :: e.pending[h],
              timeouts := if view > e.core.view then e.timeouts.(votes := e.timeouts.votes - {view})
                          else signed.timeouts)
  }

  /** A synced block grows the chain when its commit call succeeds on the next height; one that fails may have
      grown it as well. */
  function AfterCommit(e: Engine, height: U64, ans: Answers): Engine {
    if height != e.ledger.chain + 1 || ans.commit == Refused then e
    else if ans.commit == Committed then
      e.(ledger := e.ledger.(chain := height, applying := Some(height),
                             commits := e.ledger.commits + [CommitEntry(height, ByApply)]))
    else e.(ledger := e.ledger.(chain := height, commits := e.ledger.commits + [CommitEntry(height, Unreported)]))
  }

  /** An engine at or below the applied height moves past it. */
  function AfterLanding(e: Engine, height: U64): Engine {
    var landed := e.(ledger := e.ledger.(applying := None));
    if e.core.height > height then landed
    else
      landed.(core := Core(Wrap(height + 1), 0, Prepare, e.core.locked, e.core.prepared, e.core.decidedHash,
                           Wrap(height + 1), 0))
  }

  // ---------------------------------------------------------------- every event

  /** An event as deeds: the state it starts from, once the engine has arrived at the message's view. */
  function From(e: Engine, ev: Event): Engine {
    if ev.Deliver? && Reaches(e, ev.m) then Arrived(e, ev.m) else e
  }

  function DeedsOf(e: Engine, ev: Event): Deeds {
    match ev
    case Deliver(m, ans, drop) => if Reaches(e, m) then MessageDeeds(Arrived(e, m), m, ans, drop) else Nothing(e)
    case ProposeNow(ans, drop) => ProposeDeeds(e, ans, drop)
    case _ => Nothing(e)
  }

  /** What an event makes of the engine. */
  ghost predicate Effect(e: Engine, ev: Event, e': Engine)
    requires Enabled(e, ev)
  {
    match ev
    case Deliver(m, ans, drop) =>
      if !Reaches(e, m) then e' == e
      else if m.kind.Timeout? then e' == AfterTimeout(e, m)
      else Does(Arrived(e, m), e', MessageDeeds(Arrived(e, m), m, ans, drop), ans)
    case ProposeNow(ans, drop) => Does(e, e', ProposeDeeds(e, ans, drop), ans)
    case Timer => e' == AfterTimer(e)
    case CommitSynced(height, ans) => e' == AfterCommit(e, height, ans)
    case FinishSynced => e' == AfterLanding(e, e.ledger.applying.value)
  }

  lemma TimeoutIs(e: Engine, m: Message, ans: Answers, drop: set<Position>)
    requires Reaches(e, m) && m.kind.Timeout?
    ensures Handle(e, m, ans, drop) == AfterTimeout(e, m)
  {
    hide SuperMajority, TextSuperMajority, TimeoutData, Has;
    if TimeoutStands(e, m) {
      TimeoutRecorded(e, m);
      ArrivedIsMoved(e, m);
    }
  }

  lemma TimeoutRecorded(e: Engine, m: Message)
    requires m.signature.Some? && m.view >= e.core.view
    ensures WithTimeout(e, m) == TimeoutsWith(e, m)
  {
    hide SuperMajority;
    var votes := Wanting(e.timeouts, m.view)[m.validator := TimeoutVote(m.signature.value, m.justify)];
    assert votes.Keys == Wanting(e.timeouts, m.view).Keys + {m.validator};
    NothingRemoved(e.timeouts.votes[m.view := votes]);
  }

  lemma NothingRemoved<K, V>(m: map<K, V>)
    ensures m - {} == m
  {
  }

  lemma TimerIs(e: Engine)
    ensures TimerFires(e) == AfterTimer(e)
  {
    hide SuperMajority, TimeoutData;
    assert TimerFires(e).pending == AfterTimer(e).pending;
    assert TimerFires(e).timeouts.votes == AfterTimer(e).timeouts.votes;
  }

  lemma SyncIs(e: Engine, height: U64, ans: Answers)
    ensures ApplyCommit(e, height, ans) == AfterCommit(e, height, ans)
    ensures ApplyUpdate(e, height) == AfterLanding(e, height)
  {
  }

  lemma {:induction false} StepDoes(e: Engine, ev: Event)
    requires Enabled(e, ev) && Mirrored(e.core)
    ensures Effect(e, ev, Step(e, ev))
  {
    hide Does, HandleProposal, HandleVote, HandleNewView, Propose, ProposeDeeds, ProposalDeeds, VoteDeeds, NewViewDeeds,
         AfterTimeout, AfterTimer, TimerFires, HandleTimeout, AfterCommit, ApplyCommit, AfterLanding, ApplyUpdate;
    match ev
    case Deliver(m, ans, drop) =>
      if Reaches(e, m) {
        if m.kind.Timeout? {
          TimeoutIs(e, m, ans, drop);
        } else {
          MessageDoes(e, m, ans, drop);
        }
      }
    case ProposeNow(ans, drop) => ProposeDoes(e, ans, drop);
    case Timer => TimerIs(e);
    case CommitSynced(height, ans) => SyncIs(e, height, ans);
    case FinishSynced => SyncIs(e, e.ledger.applying.value, Answers(0, false, None, false, Refused, false, None));
  }

  lemma MessageDoes(e: Engine, m: Message, ans: Answers, drop: set<Position>)
    requires Reaches(e, m) && !m.kind.Timeout? && Mirrored(e.core)
    ensures Does(Arrived(e, m), Handle(e, m, ans, drop), MessageDeeds(Arrived(e, m), m, ans, drop), ans)
  {
    hide Does, HandleProposal, HandleVote, HandleNewView, ProposalDeeds, VoteDeeds, NewViewDeeds;
    ArrivedIsMoved(e, m);
    var a := Arrived(e, m);
    match m.kind
    case Proposal => ProposalDoes(a, m, ans, drop);
    case VotePrepare => VoteDoes(a, m, Prepare, ans, drop);
    case VotePreCommit => VoteDoes(a, m, PreCommit, ans, drop);
    case VoteCommit => VoteDoes(a, m, Commit, ans, drop);
    case NewView => NewViewDoes(a, m, ans);
    case _ =>
  }

  /** A proposal, vote, new view or own proposal does its deeds. */
  lemma StepDoesDeeds(e: Engine, ev: Event)
    requires Enabled(e, ev) && Mirrored(e.core)
    requires ev.ProposeNow? || (ev.Deliver? && Reaches(e, ev.m) && !ev.m.kind.Timeout?)
    ensures Does(From(e, ev), Step(e, ev), DeedsOf(e, ev), ev.ans)
  {
    hide Step, MessageDeeds, ProposeDeeds, Does;
    StepDoes(e, ev);
  }

  lemma IdleEvent(e: Engine, ev: Event)
    requires !ev.ProposeNow? && !(ev.Deliver? && Reaches(e, ev.m) && !ev.m.kind.Timeout?)
    ensures DeedsOf(e, ev).(phase := e.core.phase) == Nothing(e)
  {
  }

  // ---------------------------------------------------------------- decisions

  function AnswersOf(ev: Event): Answers
    requires ev.Deliver? || ev.ProposeNow?
  {
    ev.ans
  }

  /** The lock lets the event decide this hash. A proposer that forms a certificate for its own block locks that
      block first, unless it holds a lock of a higher view. */
  predicate LockAllows(e: Engine, ev: Event, hash: Bytes) {
    Permits(e.core.locked, e.core.height, hash) || (ev.ProposeNow? && e.core.locked.value.at.view <= e.core.view)
  }

  /** A commit ballot reaches its quorum, the lock allows its hash, and the commit call adds the next block. */
  predicate Decides(e: Engine, ev: Event) {
    && (ev.Deliver? || ev.ProposeNow?)
    && DeedsOf(e, ev).attempt.Some?
    && LockAllows(e, ev, DeedsOf(e, ev).attempt.value.hash)
    && AnswersOf(ev).commit == Committed && e.core.height == e.ledger.chain + 1
  }

  /** What a commit attempt comes with: no certificate when it completes a delivered ballot, the proposer's own
      certificate when its votes carry its block. */
  lemma AttemptComes(e: Engine, ev: Event)
    requires DeedsOf(e, ev).attempt.Some?
    ensures var x := DeedsOf(e, ev);
            && x.offered == [] && (ev.Deliver? || ev.ProposeNow?)
            && (ev.Deliver? ==> ev.m.kind.VoteCommit? && Reaches(e, ev.m) && x.formed.None?)
            && (ev.ProposeNow? ==> x.formed == Some(Certificate(At(e), x.attempt.value.hash)))
  {
    hide SuperMajority, VoteStands, VoteConflict, ProposalConflict, MayPropose, Carries, VoteData, ProposalData,
         Certified;
  }

  lemma AttemptLock(e: Engine, ev: Event)
    requires Enabled(e, ev) && Mirrored(e.core) && DeedsOf(e, ev).attempt.Some?
    ensures ev.Deliver? || ev.ProposeNow?
    ensures var lock, hash := Step(e, ev).core.locked, DeedsOf(e, ev).attempt.value.hash;
            && (Permits(lock, e.core.height, hash) <==> LockAllows(e, ev, hash))
            && (ev.Deliver? ==> lock == e.core.locked)
  {
    hide DeedsOf, Step;
    AttemptComes(e, ev);
    StepDoesDeeds(e, ev);
    NothingOffered(e.core.locked);
  }

  lemma {:induction false} StepDecides(e: Engine, ev: Event)
    requires Enabled(e, ev) && Mirrored(e.core)
    ensures var e', x := Step(e, ev), DeedsOf(e, ev);
            && e'.log.decisions
               == e.log.decisions
                  + (if !Decides(e, ev) then []
                     else [Decision(At(From(e, ev)), x.attempt.value.hash, x.attempt.value.voters, e.vset)])
            && (Decides(e, ev) ==> Commits(From(e, ev), e', x.attempt.value, AnswersOf(ev)))
  {
    hide Step, MessageDeeds, ProposeDeeds, LockAllows, Certifies, Permits, Removed, Wrap;
    StepDoes(e, ev);
    if DeedsOf(e, ev).attempt.Some? {
      AttemptComes(e, ev);
      AttemptLock(e, ev);
    }
  }

  lemma CommitVoteAttempts(e: Engine, m: Message, ans: Answers, drop: set<Position>)
    requires m.kind.VoteCommit? && VoteStands(e, m, Commit) && VoteConflict(e, m, Commit, drop).None?
    requires SuperMajority(e.vset, With(e, Commit, m.hash, m.validator))
    ensures MessageDeeds(e, m, ans, drop)
         == Nothing(e).(attempt := Some(Attempt(m.hash, With(e, Commit, m.hash, m.validator))))
  {
    hide VoteStands, VoteConflict, SuperMajority, With, VoteData;
  }

  /** A commit vote that completes its quorum, while the commit call succeeds on the next height of the chain, is
      a decision for its hash exactly when there is no lock, or the lock has no hash, or is of another height, or
      is of that hash. Otherwise nothing is decided and the engine stays where it is. */
  lemma {:induction false} CommitQuorumDecidesIff(e: Engine, m: Message, ans: Answers, drop: set<Position>)
    requires Mirrored(e.core) && LegalAnswers(ans)
    requires m.kind.VoteCommit? && Reaches(e, m) && VoteStands(Arrived(e, m), m, Commit)
    requires VoteConflict(Arrived(e, m), m, Commit, drop).None?
    requires SuperMajority(e.vset, With(Arrived(e, m), Commit, m.hash, m.validator))
    requires ans.commit == Committed && e.core.height == e.ledger.chain + 1
    ensures var e' := Step(e, Deliver(m, ans, drop));
            var voters := With(Arrived(e, m), Commit, m.hash, m.validator);
            var lock := e.core.locked;
            var decided := e.log.decisions + [Decision(Position(m.height, m.view), m.hash, voters, e.vset)];
            && e'.core.locked == lock
            && (e'.log.decisions == decided
                <==> lock.None? || lock.value.hash == [] || lock.value.at.height != m.height
                     || lock.value.hash == m.hash)
            && (e'.log.decisions != decided ==>
                  At(e') == Position(m.height, m.view) && e'.log.decisions == e.log.decisions && e'.ledger == e.ledger)
  {
    hide Step, VoteStands, VoteConflict, SuperMajority, With, Certifies, Removed, Wrap, MessageDeeds, Effect;
    var ev := Deliver(m, ans, drop);
    CommitVoteAttempts(Arrived(e, m), m, ans, drop);
    StepDoesDeeds(e, ev);
    StepDecides(e, ev);
    AttemptLock(e, ev);
  }

  lemma LockAtDecision(e: Engine, ev: Event)
    requires Enabled(e, ev) && Mirrored(e.core) && Decides(e, ev)
    ensures var e' := Step(e, ev);
            && Permits(e'.core.locked, e.core.height, DeedsOf(e, ev).attempt.value.hash)
            && (ev.Deliver? ==> e'.core.locked == e.core.locked)
            && At(From(e, ev)).height == e.core.height
  {
    hide Step, DeedsOf, Permits, LockAllows, Removed;
    StepDoes(e, ev);
    AttemptComes(e, ev);
    AttemptLock(e, ev);
  }

  lemma FreshIsMirrored(e: Engine)
    requires FreshStart(e)
    ensures Mirrored(e.core) && e.log.decisions == [] && e.epochStart == 1
  {
  }

  lemma RunIsMirrored(e: Engine, evs: seq<Event>)
    requires FreshStart(e) && CanRun(e, evs)
    ensures Mirrored(Run(e, evs).core)
  {
    hide *;
    RunKeeps(e, evs);
    InvIsMirrored(Run(e, evs), Signatures(evs));
  }

  lemma InvIsMirrored(e: Engine, known: set<Signature>)
    requires Inv(e, known)
    ensures Mirrored(e.core)
  {
    hide Mirrored, Consecutive, InStep, FinalityBelow, SavedBelow, Decisions, BookSigned, VotersSigned, Agrees;
  }

  /** Event `k` of the run made decision `i`, and the lock it left allowed it. */
  ghost predicate DecidedAt(e: Engine, evs: seq<Event>, i: nat, k: nat) {
    && k < |evs| && CanRun(e, evs) && CanRun(e, evs[..k]) && CanRun(e, evs[..k + 1])
    && var before, after := Run(e, evs[..k]), Run(e, evs[..k + 1]);
       && |before.log.decisions| == i && |after.log.decisions| == i + 1
       && i < |Run(e, evs).log.decisions| && after.log.decisions[i] == Run(e, evs).log.decisions[i]
       && var d := after.log.decisions[i];
          && d.at.height == before.core.height
          && Permits(after.core.locked, d.at.height, d.hash)
          && (evs[k].Deliver? ==> after.core.locked == before.core.locked)
  }

  /** Every decision of a run was made by a step that left the engine with a lock allowing it: none, one without
      a hash or of another height, or one for the decided hash. */
  lemma {:induction false} DecisionsRespectLocks(e: Engine, evs: seq<Event>, i: nat)
    requires FreshStart(e) && CanRun(e, evs) && i < |Run(e, evs).log.decisions|
    ensures exists k: nat :: DecidedAt(e, evs, i, k)
  {
    hide Step, Enabled, FreshStart, Decides, Commits, DeedsOf, From, Mirrored, Permits;
    FreshIsMirrored(e);
    var front, ev := evs[..|evs| - 1], evs[|evs| - 1];
    var before, after := Run(e, front), Run(e, evs);
    RunIsMirrored(e, front);
    StepDecides(before, ev);
    if i < |before.log.decisions| {
      DecisionsRespectLocks(e, front, i);
      var k: nat :| DecidedAt(e, front, i, k);
      assert evs[..k] == front[..k] && evs[..k + 1] == front[..k + 1];
      assert DecidedAt(e, evs, i, k);
    } else {
      LockAtDecision(before, ev);
      assert evs[..|front|] == front && evs[..|front| + 1] == evs;
      assert DecidedAt(e, evs, i, |front|);
    }
  }

  // ---------------------------------------------------------------- locks

  /** The certificate is of the event's position and has a prepare quorum there, counting the vote of this event. */
  predicate FormedBy(e: Engine, ev: Event, qc: QC) {
    var a := From(e, ev);
    && qc.at == At(a) && qc.phase == Prepare
    && match ev
       case Deliver(m, ans, drop) =>
         && Reaches(e, m) && qc.hash == m.hash && (m.kind.Proposal? || m.kind.VotePrepare?)
         && SuperMajority(e.vset, With(a, Prepare, m.hash, if m.kind.Proposal? then e.self.local else m.validator))
       case ProposeNow(ans, drop) =>
         ans.created == Some(qc.hash) && SuperMajority(e.vset, With(e, Prepare, qc.hash, e.self.local))
       case _ => false
  }

  /** The message brings the certificate. */
  predicate Carried(ev: Event, qc: QC) {
    && ev.Deliver? && (ev.m.kind.Proposal? || ev.m.kind.NewView?)
    && (ev.m.justify == Some(qc) || (ev.m.payload.Cert? && ev.m.payload.tc.highQC == Some(qc)))
  }

  /** A formed certificate, or a carried one whose listed and signed texts are a supermajority. */
  predicate Vouched(e: Engine, ev: Event, qc: QC) {
    FormedBy(e, ev, qc) || CarriedValid(e, ev, qc)
  }

  /** A new-view message with a timeout certificate brings a justification of its own, which is not a valid
      certificate and has a higher view than the lock. */
  predicate BringsUnchecked(e: Engine, ev: Event) {
    && ev.Deliver? && ev.m.kind.NewView? && Reaches(e, ev.m) && NewViewStands(Arrived(e, ev.m), ev.m)
    && ev.m.payload.Cert? && ev.m.justify.Some? && !Certified(e.vset, ev.m.justify)
    && var lock := LockAfter(e.core.locked, Offer(ev.m.payload.tc.highQC));
       (lock.None? || lock.value.at.view < ev.m.justify.value.at.view)
  }

  /** What an event's deeds form and offer. */
  lemma DeedsVouch(e: Engine, ev: Event)
    ensures var x := DeedsOf(e, ev);
            && (x.formed.Some? ==> forall qc: QC ::
                  qc.at == x.formed.value.at && qc.phase == Prepare && qc.hash == x.formed.value.hash ==>
                  FormedBy(e, ev, qc))
            && (x.formed.Some? && x.offered != [] ==> ev.Deliver? && x.offered == Offer(ev.m.justify))
            && (x.offered != [] ==>
                  && ev.Deliver? && Reaches(e, ev.m) && (ev.m.kind.Proposal? || ev.m.kind.NewView?))
            && (x.offered != [] && ev.m.kind.Proposal? ==>
                  x.offered == Offer(ev.m.justify) && Certified(e.vset, ev.m.justify))
            && (ev.Deliver? && Reaches(e, ev.m) && ev.m.kind.NewView? ==>
                  && x.formed.None?
                  && x.offered == if !NewViewStands(Arrived(e, ev.m), ev.m) then []
                                  else (if ev.m.payload.Cert? then Offer(ev.m.payload.tc.highQC) else [])
                                       + Offer(ev.m.justify))
  {
    hide SuperMajority, VoteStands, VoteConflict, ProposalConflict, VoteData, ProposalData, With,
         TextSuperMajority, IsLeader, NewViewStands;
  }

  /** How the lock reads after two offers. */
  lemma OffersOneByOne(lock: Option<QC>, a: Option<QC>, b: Option<QC>)
    ensures LockAfter(lock, Offer(a))
         == if a.Some? && (lock.None? || lock.value.at.view < a.value.at.view) then a else lock
    ensures LockAfter(lock, Offer(a) + Offer(b)) == LockAfter(LockAfter(lock, Offer(a)), Offer(b))
  {
    OfferedTwice(lock, a, b);
    NothingOffered(lock);
    if a.Some? {
      assert [a.value][..0] == [];
    }
  }

  predicate CarriedValid(e: Engine, ev: Event, qc: QC) {
    Carried(ev, qc) && TextSuperMajority(e.vset, qc.addrs * qc.signatures.Keys)
  }

  /** An offer becomes the lock if it is a valid certificate the message brings, or the unchecked one. */
  lemma OffersVouch(e: Engine, ev: Event)
    ensures var lock, lock' := e.core.locked, LockAfter(e.core.locked, DeedsOf(e, ev).offered);
            && (lock' != lock ==>
                  && ev.Deliver? && lock'.Some? && (lock.Some? ==> lock.value.at.view < lock'.value.at.view)
                  && (CarriedValid(e, ev, lock'.value) || (BringsUnchecked(e, ev) && lock' == ev.m.justify)))
            && (BringsUnchecked(e, ev) ==> lock' != lock && !CarriedValid(e, ev, lock'.value))
  {
    hide DeedsOf, FormedBy, TextSuperMajority, LockAfter, NewViewStands;
    DeedsVouch(e, ev);
    NothingOffered(e.core.locked);
    if DeedsOf(e, ev).offered != [] {
      if ev.m.kind.Proposal? {
        OffersOneByOne(e.core.locked, ev.m.justify, None);
      } else {
        NewViewOffersVouch(e, ev);
      }
    }
  }

  lemma NewViewOffersVouch(e: Engine, ev: Event)
    requires ev.Deliver? && Reaches(e, ev.m) && ev.m.kind.NewView? && NewViewStands(Arrived(e, ev.m), ev.m)
    ensures var lock := e.core.locked;
            var offered := (if ev.m.payload.Cert? then Offer(ev.m.payload.tc.highQC) else []) + Offer(ev.m.justify);
            var lock' := LockAfter(lock, offered);
            && (lock' != lock ==>
                  && lock'.Some? && (lock.Some? ==> lock.value.at.view < lock'.value.at.view)
                  && (CarriedValid(e, ev, lock'.value) || (BringsUnchecked(e, ev) && lock' == ev.m.justify)))
            && (BringsUnchecked(e, ev) <==> lock' != lock && !CarriedValid(e, ev, lock'.value))
  {
    hide TextSuperMajority, LockAfter, CertificateStands;
    var high := if ev.m.payload.Cert? then ev.m.payload.tc.highQC else None;
    OffersOneByOne(e.core.locked, high, ev.m.justify);
    OffersOneByOne(LockAfter(e.core.locked, Offer(high)), ev.m.justify, None);
    assert (if ev.m.payload.Cert? then Offer(ev.m.payload.tc.highQC) else []) == Offer(high);
    assert Arrived(e, ev.m).vset == e.vset;
  }

  /** The lock once an event's deeds are done. */
  lemma LockThen(e: Engine, ev: Event)
    requires Enabled(e, ev) && Mirrored(e.core)
    ensures var x, lock' := DeedsOf(e, ev), Step(e, ev).core.locked;
            var lock := LockAfter(e.core.locked, x.offered);
            lock' == lock
            || (&& x.formed.Some? && lock'.Some? && (lock.Some? ==> lock.value.at.view <= lock'.value.at.view)
                && lock'.value.at == x.formed.value.at && lock'.value.phase == Prepare
                && lock'.value.hash == x.formed.value.hash)
  {
    hide Step, DeedsOf, LockAfter;
    StepDoes(e, ev);
    if ev.ProposeNow? || (ev.Deliver? && Reaches(e, ev.m) && !ev.m.kind.Timeout?) {
      StepDoesDeeds(e, ev);
    } else {
      IdleEvent(e, ev);
      NothingOffered(e.core.locked);
    }
  }

  /** A lock changes to a certificate that was formed or is valid, with the one exception of `BringsUnchecked`:
      then, and only then, an event leaves a new lock nobody vouched for. */
  lemma {:induction false} LockComesFrom(e: Engine, ev: Event)
    requires Enabled(e, ev) && Mirrored(e.core)
    ensures var lock, lock' := e.core.locked, Step(e, ev).core.locked;
            && (lock' != lock ==>
                  && lock'.Some? && (lock.Some? ==> lock.value.at.view <= lock'.value.at.view)
                  && (Vouched(e, ev, lock'.value)
                      || (BringsUnchecked(e, ev) && lock' == ev.m.justify)))
            && (BringsUnchecked(e, ev) <==> lock' != lock && !Vouched(e, ev, lock'.value))
  {
    hide Step, DeedsOf, SuperMajority, With, TextSuperMajority, NewViewStands, LockAfter, CarriedValid;
    DeedsVouch(e, ev);
    LockThen(e, ev);
    OffersVouch(e, ev);
  }

  /** The failing input: an accepted timeout certificate makes any certificate of a higher view the lock, whoever
      signed it. */
  lemma UncheckedLock(e: Engine, m: Message, qc: QC, ans: Answers, drop: set<Position>)
    requires Mirrored(e.core) && LegalAnswers(ans)
    requires m.kind.NewView? && Reaches(e, m) && m.payload.Cert? && NewViewStands(Arrived(e, m), m)
    requires e.core.locked.Some? ==> e.core.locked.value.at.view < qc.at.view
    requires m.payload.tc.highQC.Some? ==> m.payload.tc.highQC.value.at.view < qc.at.view
    ensures Step(e, Deliver(m.(justify := Some(qc)), ans, drop)).core.locked == Some(qc)
  {
    hide Step, Lenient, TextSuperMajority, TimeoutData, Has, MessageDeeds;
    var n := m.(justify := Some(qc));
    assert NewViewStands(Arrived(e, n), n);
    DeedsVouch(e, Deliver(n, ans, drop));
    LockThen(e, Deliver(n, ans, drop));
    var high := m.payload.tc.highQC;
    OffersOneByOne(e.core.locked, high, Some(qc));
    OffersOneByOne(LockAfter(e.core.locked, Offer(high)), Some(qc), None);
  }

  // ---------------------------------------------------------------- positions

  /** Where an event leaves the engine. A message of a later view takes the engine there, a timeout only if it
      stands; the timer moves one view on when a quorum wants it; a decision or an applied block brings the next
      height. */
  function PositionAfter(e: Engine, ev: Event): Position
    requires ev.FinishSynced? ==> e.ledger.applying.Some?
  {
    if Decides(e, ev) then Position(Wrap(e.core.height + 1), 0)
    else
      match ev
      case Deliver(m, ans, drop) =>
        if Reaches(e, m) && (m.kind.Timeout? ==> TimeoutStands(e, m)) then Position(m.height, m.view) else At(e)
      case Timer =>
        var view := Wrap(e.core.view + 1);
        if ViewQuorum(e, view, e.self.local) then Position(e.core.height, view) else At(e)
      case FinishSynced =>
        var height := e.ledger.applying.value;
        if height >= e.core.height then Position(Wrap(height + 1), 0) else At(e)
      case _ => At(e)
  }

  lemma {:induction false} StepPosition(e: Engine, ev: Event)
    requires Enabled(e, ev) && Mirrored(e.core)
    ensures var e' := Step(e, ev);
            At(e') == PositionAfter(e, ev) && Position(e'.core.curHeight, e'.core.curView) == PositionAfter(e, ev)
  {
    hide *;
    StepDoes(e, ev);
    if ev.ProposeNow? || (ev.Deliver? && Reaches(e, ev.m) && !ev.m.kind.Timeout?) {
      DeedsPosition(e, ev);
    } else {
      OtherPosition(e, ev);
    }
  }

  lemma DeedsPosition(e: Engine, ev: Event)
    requires Enabled(e, ev) && Mirrored(e.core)
    requires ev.ProposeNow? || (ev.Deliver? && Reaches(e, ev.m) && !ev.m.kind.Timeout?)
    ensures var e' := Step(e, ev);
            At(e') == PositionAfter(e, ev) && Position(e'.core.curHeight, e'.core.curView) == PositionAfter(e, ev)
  {
    hide Step, DeedsOf, Decides, Certifies, Permits, Removed, Wrap, TimeoutStands, ViewQuorum, Enabled;
    StepDoesDeeds(e, ev);
    StepDecides(e, ev);
  }

  lemma OtherPosition(e: Engine, ev: Event)
    requires Enabled(e, ev) && Mirrored(e.core) && Effect(e, ev, Step(e, ev))
    requires !(ev.ProposeNow? || (ev.Deliver? && Reaches(e, ev.m) && !ev.m.kind.Timeout?))
    ensures var e' := Step(e, ev);
            At(e') == PositionAfter(e, ev) && Position(e'.core.curHeight, e'.core.curView) == PositionAfter(e, ev)
  {
    hide Step, DeedsOf, LockAllows, ViewQuorum, TimeoutStands, TimeoutData, Wanting, TimeoutsWith, Wrap;
    IdleEvent(e, ev);
  }

  /** A delivered timeout changes the view exactly when its view is later, its sender is a member who signed it
      and has no timeout recorded for that view, and its certificate, if it brings one, is valid. Then the engine
      stands at that view in phase prepare, with no registry; and the timeout is recorded, unless a quorum for
      the view was sent on or the view is among the oldest beyond the cap. */
  lemma {:induction false} TimeoutMovesIff(e: Engine, m: Message, ans: Answers, drop: set<Position>)
    requires Mirrored(e.core) && LegalAnswers(ans) && m.kind.Timeout? && m.height == e.core.height
    ensures var e' := Step(e, Deliver(m, ans, drop));
            var stands :=
              && Has(e.vset, m.validator) && m.signature.Some?
              && VerifySign(m.validator, TimeoutData(e.self.chainId, Position(m.height, m.view)), m.signature.value)
              && (m.justify.Some? ==>
                    TextSuperMajority(e.vset, m.justify.value.addrs * m.justify.value.signatures.Keys))
              && !(m.view in e.timeouts.votes && m.validator in e.timeouts.votes[m.view]);
            var voters := (if m.view in e.timeouts.votes then e.timeouts.votes[m.view].Keys else {}) + {m.validator};
            && (e'.core.view != e.core.view <==> m.view > e.core.view && stands)
            && (e'.core.view != e.core.view ==>
                  && e'.core.view == e'.core.curView == m.view && e'.core.phase == Prepare
                  && e'.book.registries == map[]
                  && e'.core.locked == e.core.locked && e'.core.prepared == e.core.prepared)
            && (m.view >= e.core.view && stands && |e.timeouts.order| < 2048
                && !(m.view > e.core.view && SuperMajority(e.vset, voters)) ==>
                  && m.view in e'.timeouts.votes && m.validator in e'.timeouts.votes[m.view]
                  && e'.timeouts.votes[m.view][m.validator] == TimeoutVote(m.signature.value, m.justify))
            && (!(m.view >= e.core.view && stands) ==> e' == e)
  {
    hide Step, SuperMajority, TextSuperMajority, TimeoutData, Has;
    StepDoes(e, Deliver(m, ans, drop));
    if Reaches(e, m) && TimeoutStands(e, m) {
      assert Wanting(e.timeouts, m.view).Keys + {m.validator}
          == (if m.view in e.timeouts.votes then e.timeouts.votes[m.view].Keys else {}) + {m.validator};
    }
  }

  /** The engine at a new-view message that stands: phase prepare, no registry, the offered certificates taken
      into the lock, and no timeout of an earlier view. */
  function Restarted(e: Engine, m: Message): Engine {
    e.(core := e.core.(phase := Prepare,
                       locked := LockAfter(e.core.locked, (if m.payload.Cert? then Offer(m.payload.tc.highQC) else [])
                                                          + Offer(m.justify))),
       book := VoteBook(map[], e.book.order),
       pending := map h | h in e.pending && h != e.core.height :: e.pending[h],
       timeouts := e.timeouts.(votes := map v | v in e.timeouts.votes && v >= m.view :: e.timeouts.votes[v]))
  }

  lemma NoneOffered(c: Core)
    ensures Relocked(c, None) == c && Offer(None) == []
  {
  }

  /** A new-view message takes the engine to its view in any case, and restarts that view when it is signed and
      brings a valid certificate, or a timeout certificate of members for this view; otherwise nothing more. */
  lemma {:induction false} NewViewRestarts(e: Engine, m: Message, ans: Answers, drop: set<Position>)
    requires Mirrored(e.core) && LegalAnswers(ans) && m.kind.NewView? && Reaches(e, m)
    ensures var a := Arrived(e, m);
            Step(e, Deliver(m, ans, drop)) == if NewViewStands(a, m) then Restarted(a, m) else a
  {
    hide NewViewStands, AcceptsNewView, LockAfter, Relocked;
    var a := Arrived(e, m);
    ArrivedIsMoved(e, m);
    NewViewIs(a, m);
    if NewViewStands(a, m) {
      var high := if m.payload.Cert? then m.payload.tc.highQC else None;
      OfferedOnce(a.core, high);
      OfferedOnce(Relocked(a.core, high), m.justify);
      NoneOffered(a.core);
      OfferedTwice(a.core.locked, high, m.justify);
      assert (if m.payload.Cert? then Offer(m.payload.tc.highQC) else []) == Offer(high);
      assert HandleNewView(a, m).pending == Restarted(a, m).pending;
    }
  }

  // ---------------------------------------------------------------- signatures

  /** What an event makes the local key sign. */
  function SignsBy(e: Engine, ev: Event): set<Signature> {
    if ev.Timer? then
      {Signature(e.self.local, TimeoutData(e.self.chainId, Position(e.core.height, Wrap(e.core.view + 1))))}
    else DeedsOf(e, ev).signs
  }

  lemma {:induction false} StepSigns(e: Engine, ev: Event)
    requires Enabled(e, ev) && Mirrored(e.core)
    ensures Step(e, ev).log.made == e.log.made + SignsBy(e, ev)
  {
    hide Step, DeedsOf, Certifies, Comes, SuperMajority, TimeoutData, AfterTimeout;
    StepDoes(e, ev);
    if ev.ProposeNow? || (ev.Deliver? && Reaches(e, ev.m) && !ev.m.kind.Timeout?) {
      StepDoesDeeds(e, ev);
    } else {
      IdleEvent(e, ev);
      if ev.Deliver? {
        TimeoutsSignNothing(e, ev.m);
      }
    }
  }

  lemma TimeoutsSignNothing(e: Engine, m: Message)
    ensures AfterTimeout(e, m).log == e.log
  {
  }

  lemma ProposalSigns(e: Engine, m: Message, ans: Answers, drop: set<Position>)
    requires m.kind.Proposal?
    ensures var x := MessageDeeds(e, m, ans, drop);
            && x.signs == (if Endorsed(e, m, ans, drop) then {OwnVote(e, Prepare, m.hash)} else {})
            && x.attempt.None?
            && (Endorsed(e, m, ans, drop) ==> x.phase == PreCommit)
  {
    hide ProposalStands, ProposalConflict, Certified, SuperMajority, VoteData, With;
  }

  /** A delivered proposal gets the local prepare vote exactly when the engine is in phase prepare at its view,
      its sender leads the view and signed it (or sent it unsigned), the detector does not object, its
      justification (if it brings one) is valid, the block is valid, and there is no local prepare vote yet. */
  lemma {:induction false} ProposalVotedIff(e: Engine, m: Message, ans: Answers, drop: set<Position>)
    requires Mirrored(e.core) && LegalAnswers(ans) && m.kind.Proposal? && Reaches(e, m)
    ensures var e', a, at := Step(e, Deliver(m, ans, drop)), Arrived(e, m), Position(m.height, m.view);
            var vote := Signature(e.self.local, VoteData(e.self.chainId, at, Prepare, m.hash));
            var votes :=
              && (m.view > e.core.view || e.core.phase == Prepare)
              && |e.vset.validators| > 0
              && IsLeader(a, m.validator, ans.seed)
              && (m.signature.Some? ==>
                    VerifySign(m.validator, ProposalData(e.self.chainId, m.hash), m.signature.value))
              && DS.AfterProposal(e.detector, m.validator, at, m.hash, drop).1.None?
              && (m.justify.Some? ==>
                    TextSuperMajority(e.vset, m.justify.value.addrs * m.justify.value.signatures.Keys))
              && ans.blockValid
              && (m.view > e.core.view || Prepare !in RegistryAt(e.book, at).mine);
            && e'.log.made == e.log.made + (if votes then {vote} else {})
            && (votes ==> e'.core.phase == PreCommit)
  {
    hide Step, VoteData, ProposalData, SuperMajority, Select, TextSuperMajority, DS.AfterProposal, Certifies,
         MessageDeeds;
    StepDoesDeeds(e, Deliver(m, ans, drop));
    ProposalSigns(Arrived(e, m), m, ans, drop);
  }

  // ---------------------------------------------------------------- epochs and the validator set

  /** An epoch ends with the first decided height that lies a configured length or more above its start. */
  predicate EndsEpoch(start: U64, length: U64, height: U64) {
    height >= Wrap(start + length)
  }

  /** A decision that ends the epoch starts the next and brings the set built from the staking records, if one can
      be built; a punished double-signer leaves the set. */
  ghost predicate EpochMoves(e: Engine, ev: Event, e': Engine) {
    var h := e.core.height;
    var ends := Decides(e, ev) && EndsEpoch(e.epochStart, e.self.epochLength, h);
    var accused := DeedsOf(e, ev).accused;
    && e'.self == e.self
    && (accused.Some? ==> ev.Deliver? || ev.ProposeNow?)
    && e'.epochStart == (if ends then Wrap(h + 1) else e.epochStart)
    && e'.vset == (if ends && AnswersOf(ev).rotation.Some? then AnswersOf(ev).rotation.value
                   else if accused.Some? && ev.ans.slashed then Removed(e.vset, accused.value)
                   else e.vset)
  }

  /** What an event makes of the epoch and of the validator set. */
  lemma {:induction false} StepEpoch(e: Engine, ev: Event)
    requires Enabled(e, ev) && Mirrored(e.core)
    ensures EpochMoves(e, ev, Step(e, ev))
  {
    hide *;
    StepDoes(e, ev);
    AccusedDecidesNothing(e, ev);
    if ev.ProposeNow? || (ev.Deliver? && Reaches(e, ev.m) && !ev.m.kind.Timeout?) {
      if DeedsOf(e, ev).attempt.Some? {
        AttemptLock(e, ev);
      }
      StepDoesDeeds(e, ev);
      DeedsEpoch(e, ev, Step(e, ev));
    } else {
      OthersKeepEpoch(e, ev);
      OthersDecideNothing(e, ev);
      IdleEpoch(e, ev, Step(e, ev));
    }
  }

  lemma DeedsEpoch(e: Engine, ev: Event, e': Engine)
    requires ev.ProposeNow? || (ev.Deliver? && Reaches(e, ev.m) && !ev.m.kind.Timeout?)
    requires Does(From(e, ev), e', DeedsOf(e, ev), ev.ans)
    requires DeedsOf(e, ev).accused.Some? ==> DeedsOf(e, ev).attempt.None?
    requires DeedsOf(e, ev).attempt.Some? ==>
               (Permits(e'.core.locked, e.core.height, DeedsOf(e, ev).attempt.value.hash)
                <==> LockAllows(e, ev, DeedsOf(e, ev).attempt.value.hash))
    ensures EpochMoves(e, ev, e')
  {
    hide DeedsOf, LockAllows, Certifies, Permits, Removed, Wrap;
  }

  lemma IdleEpoch(e: Engine, ev: Event, e': Engine)
    requires Enabled(e, ev) && Effect(e, ev, e') && !Decides(e, ev) && DeedsOf(e, ev).accused.None?
    requires !(ev.ProposeNow? || (ev.Deliver? && Reaches(e, ev.m) && !ev.m.kind.Timeout?))
    requires ev.Deliver? ==> var t := AfterTimeout(e, ev.m);
                             t.self == e.self && t.epochStart == e.epochStart && t.vset == e.vset
    requires var t := AfterTimer(e); t.self == e.self && t.epochStart == e.epochStart && t.vset == e.vset
    ensures EpochMoves(e, ev, e')
  {
    hide DeedsOf, Decides, AfterTimeout, AfterTimer, Removed, Wrap;
  }

  lemma OthersDecideNothing(e: Engine, ev: Event)
    requires !(ev.ProposeNow? || (ev.Deliver? && Reaches(e, ev.m) && !ev.m.kind.Timeout?))
    ensures !Decides(e, ev) && DeedsOf(e, ev).accused.None?
  {
    hide LockAllows;
    IdleEvent(e, ev);
  }

  lemma OthersKeepEpoch(e: Engine, ev: Event)
    ensures ev.Deliver? ==> var t := AfterTimeout(e, ev.m);
                            t.self == e.self && t.epochStart == e.epochStart && t.vset == e.vset
    ensures var t := AfterTimer(e); t.self == e.self && t.epochStart == e.epochStart && t.vset == e.vset
  {
    hide SuperMajority, TimeoutStands, TimeoutsWith, TimeoutData;
  }

  lemma AccusedDecidesNothing(e: Engine, ev: Event)
    ensures DeedsOf(e, ev).accused.Some? ==> DeedsOf(e, ev).attempt.None? && (ev.Deliver? || ev.ProposeNow?)
  {
    hide SuperMajority, VoteStands, VoteConflict, ProposalConflict, MayPropose, VoteData, ProposalData, With,
         TextSuperMajority, IsLeader, NewViewStands;
  }

  /** The start of the epoch after a list of decisions. */
  function EpochAfter(start: U64, length: U64, ds: seq<Decision>): U64 {
    if ds == [] then start
    else
      var s, h := EpochAfter(start, length, ds[..|ds| - 1]), ds[|ds| - 1].at.height;
      if EndsEpoch(s, length, h) then Wrap(h + 1) else s
  }

  lemma DecidesHere(e: Engine, ev: Event)
    ensures At(From(e, ev)).height == e.core.height
  {
  }

  /** Over whole runs: the epoch is the one its decisions lead to from height one. */
  lemma {:induction false} EpochOfRun(e: Engine, evs: seq<Event>)
    requires FreshStart(e) && CanRun(e, evs)
    ensures Run(e, evs).self == e.self
    ensures Run(e, evs).epochStart == EpochAfter(1, e.self.epochLength, Run(e, evs).log.decisions)
  {
    hide Step, Enabled, FreshStart, Decides, Commits, DeedsOf, Mirrored, EndsEpoch, Wrap, From, Accrues;
    FreshIsMirrored(e);
    if evs != [] {
      var front, ev := evs[..|evs| - 1], evs[|evs| - 1];
      var before, after := Run(e, front), Run(e, evs);
      EpochOfRun(e, front);
      RunIsMirrored(e, front);
      StepEpoch(before, ev);
      StepDecides(before, ev);
      DecidesHere(before, ev);
      if Decides(before, ev) {
        assert after.log.decisions[..|before.log.decisions|] == before.log.decisions;
      } else {
        assert after.log.decisions == before.log.decisions;
      }
    }
  }

  /** How many decisions of the current epoch an engine has made that decided `n` heights from one on. */
  function IntoEpoch(n: nat, length: U64): nat {
    n % (length + 1)
  }

  /** An engine that decides every height from one on has epochs of one height more than the configured length:
      the epoch starts anew after every `length + 1` decisions. */
  lemma {:induction false} EpochsLastOneMore(length: U64, ds: seq<Decision>)
    requires forall i :: 0 <= i < |ds| ==> ds[i].at.height == i + 1
    requires |ds| + 1 + length <= MAX64
    ensures EpochAfter(1, length, ds) == 1 + |ds| - IntoEpoch(|ds|, length)
  {
    hide IntoEpoch;
    var n := |ds| - 1;
    if ds != [] {
      EpochsLastOneMore(length, ds[..n]);
      NextInto(n, length);
    } else {
      NextInto(0, length);
    }
  }

  lemma NextInto(n: nat, length: U64)
    ensures IntoEpoch(n + 1, length) == if IntoEpoch(n, length) == length then 0 else IntoEpoch(n, length) + 1
    ensures IntoEpoch(n, length) <= length && IntoEpoch(n, length) <= n
  {
    NextRemainder(n, length + 1);
  }

  lemma NextRemainder(n: nat, d: nat)
    requires d > 0
    ensures (n + 1) % d == if n % d == d - 1 then 0 else n % d + 1
    ensures 0 <= n % d < d && n % d <= n
  {
    var q := n / d;
    if n % d == d - 1 {
      assert (q + 1) * d == q * d + d;
      RemainderIs(n + 1, d, q + 1, 0);
    } else {
      RemainderIs(n + 1, d, q, n % d + 1);
    }
    RemainderAtMost(n, d);
  }

  lemma RemainderAtMost(n: nat, d: nat)
    requires d > 0
    ensures n % d <= n
  {
    if n < d {
      RemainderIs(n, d, 0, n);
    }
  }
}
