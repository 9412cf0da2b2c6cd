/** A discipline under which an engine signs one commit hash per position: it casts its commit vote for the
    certificate of the position it is at, and nobody leaves the validator set before the height moves.

    What makes it work is that every prepared certificate comes from a supermajority whose remote members the
    double-sign detector remembers for its hash, so two of them at one position would share a voter that is
    remembered for both. */
module OwnQuorums {
  import opened Words
  import opened ConsensusTypes
  import opened ValidatorSets
  import opened EngineModel
  import opened EngineInvariants
  import opened EngineSteps
  import opened EngineRuns
  import opened CommitVotes
  import DS = DoubleSigns

  /** A group of voters whose remote members the detector remembers for one hash. */
  ghost predicate RememberedFor(local: Bytes, d: DS.Detector, at: Position, hash: Bytes, voters: set<Bytes>) {
    forall a :: a in voters && a != local ==> DS.Remembered(d, a, at, Prepare) == Some(hash)
  }

  /** A supermajority of the set prepared the hash at the position. */
  ghost predicate Backed(local: Bytes, vs: VSet, d: DS.Detector, at: Position, hash: Bytes) {
    exists voters :: SuperMajority(vs, voters) && RememberedFor(local, d, at, hash, voters)
  }

  /** The local validator holds at most a third of a set small enough for the quorum test. */
  ghost predicate Minor(e: Engine) {
    Bounded(e.vset) && 3 * StakeOf(e.vset.validators, e.self.local) <= Sum(e.vset.validators)
  }

  /** At most one hash is backed at a position. */
  lemma OneBacked(e: Engine, known: set<Signature>, at: Position, h: Bytes, k: Bytes)
    requires Inv(e, known) && Minor(e)
    requires Backed(e.self.local, e.vset, e.detector, at, h) && Backed(e.self.local, e.vset, e.detector, at, k)
    ensures h == k
  {
    hide SuperMajority, DS.Remembered;
    var s :| SuperMajority(e.vset, s) && RememberedFor(e.self.local, e.detector, at, h, s);
    var t :| SuperMajority(e.vset, t) && RememberedFor(e.self.local, e.detector, at, k, t);
    QuorumsIntersect(e.vset, s, t);
    if h != k {
      forall a | a in s * t ensures a == e.self.local {
      }
      StakeInMonotone(e.vset.validators, s * t, {e.self.local});
      StakeInOne(e.vset.validators, e.self.local);
      assert false;
    }
  }

  lemma BackedLater(local: Bytes, vs: VSet, d: DS.Detector, d': DS.Detector, at: Position, hash: Bytes)
    requires Backed(local, vs, d, at, hash) && DS.Extends(d, d') && !d'.trimmed
    ensures Backed(local, vs, d', at, hash)
  {
    hide SuperMajority, DS.Remembered;
    var s :| SuperMajority(vs, s) && RememberedFor(local, d, at, hash, s);
    assert RememberedFor(local, d', at, hash, s);
  }

  /** A prepare quorum of the registry backs its hash. */
  lemma QuorumBacks(local: Bytes, vs: VSet, b: VoteBook, d: DS.Detector, at: Position, hash: Bytes)
    requires Agrees(local, b, d) && SuperMajority(vs, Voters(b, at, Ballot(Prepare, hash)))
    ensures Backed(local, vs, d, at, hash)
  {
    hide SuperMajority, DS.Remembered, Voters;
    assert RememberedFor(local, d, at, hash, Voters(b, at, Ballot(Prepare, hash)));
  }

  // ---------------------------------------------------------------- where prepared certificates come from

  /** The prepared certificate is the old one, or was formed at the position by a backing quorum. */
  ghost predicate Prepares(e: Engine, e': Engine, at: Position) {
    || e'.core.prepared == e.core.prepared
    || (&& e'.core.prepared.Some? && e'.core.prepared.value.at == at
        && Backed(e.self.local, e.vset, e'.detector, at, e'.core.prepared.value.hash))
  }

  lemma DecideKeepsPrepared(e: Engine, hash: Bytes, height: U64, ans: Answers)
    ensures var d := Decide(e, hash, height, ans);
            d.core.prepared == e.core.prepared && d.detector == e.detector
  {
  }

  lemma SelfPreCommitKeepsPrepared(e: Engine, hash: Bytes, ans: Answers)
    ensures var d := SelfPreCommit(e, hash, ans);
            d.core.prepared == e.core.prepared && d.detector == e.detector
  {
    hide Decide, SuperMajority, Record, RecordMine, Voters, VoteData;
    var s := SignOwn(e, At(e), PreCommit, hash);
    var c := s.(core := s.core.(phase := Commit));
    DecideKeepsPrepared(SignOwn(c, At(e), Commit, hash), hash, At(e).height, ans);
  }

  /** The local vote joins a registry that agrees with the detector. */
  lemma OwnQuorumBacks(e: Engine, at: Position, hash: Bytes)
    requires Agrees(e.self.local, e.book, e.detector) && HasQuorum(SignOwn(e, at, Prepare, hash), at, Prepare, hash)
    ensures Backed(e.self.local, e.vset, e.detector, at, hash)
  {
    hide Agrees, Record, RecordMine, SuperMajority, Voters, Backed, VoteData;
    var sig := Signature(e.self.local, VoteData(e.self.chainId, at, Prepare, hash));
    var recorded := Record(e.book, at, Ballot(Prepare, hash), e.self.local, Some(sig));
    RecordOwnKeepsAgreement(e.self.local, e.book, e.detector, at, Ballot(Prepare, hash), Some(sig));
    MineKeepsAgreement(e.self.local, recorded, e.detector, at, Prepare, hash);
    QuorumBacks(e.self.local, e.vset, SignOwn(e, at, Prepare, hash).book, e.detector, at, hash);
  }

  lemma SelfVotePrepares(e: Engine, hash: Bytes, ans: Answers)
    requires Agrees(e.self.local, e.book, e.detector)
    ensures Prepares(e, SelfVote(e, hash, ans), At(e)) && SelfVote(e, hash, ans).detector == e.detector
  {
    hide Agrees, Record, RecordMine, SuperMajority, Voters, Cached, Backed, VoteData, SelfPreCommit, ByText;
    var s := SignOwn(e, At(e), Prepare, hash);
    if HasQuorum(s, At(e), Prepare, hash) {
      OwnQuorumBacks(e, At(e), hash);
      SelfPreCommitKeepsPrepared(
        s.(core := Prepared(s.core, FormQC(s, At(e), Prepare, hash)).(phase := PreCommit)), hash, ans);
    }
  }

  lemma ProposePrepares(e: Engine, ans: Answers, drop: set<Position>)
    requires Agrees(e.self.local, e.book, e.detector) && !Propose(e, ans, drop).detector.trimmed
    ensures Prepares(e, Propose(e, ans, drop), At(e))
  {
    hide Agrees, SelfVote, Backed, DS.AfterProposal, ProposalData, Removed, Leader;
    if Proposes(e, ans) {
      var hash := ans.created.value;
      var sig := Signature(e.self.local, ProposalData(e.self.chainId, hash));
      var s := e.(pending := e.pending[e.core.height := hash], log := e.log.(made := e.log.made + {sig}));
      var (d, conflict) := DS.AfterProposal(s.detector, e.self.local, At(e), hash, drop);
      DS.CheckProposalKeepsVotes(e.detector, e.self.local, At(e), hash, drop);
      if conflict.None? {
        var checked := s.(detector := d);
        SelfVoteDetector(checked, hash, ans);
        DetectorGrowthKeepsAgreement(e.self.local, e.book, e.detector, d);
        SelfVotePrepares(checked, hash, ans);
      }
    }
  }

  lemma SelfVoteDetector(e: Engine, hash: Bytes, ans: Answers)
    ensures SelfVote(e, hash, ans).detector == e.detector
  {
    hide Record, RecordMine, SuperMajority, Voters, Cached, VoteData, SelfPreCommit, ByText;
    var s := SignOwn(e, At(e), Prepare, hash);
    SelfPreCommitKeepsPrepared(
      s.(core := Prepared(s.core, FormQC(s, At(e), Prepare, hash)).(phase := PreCommit)), hash, ans);
  }

  lemma HandleProposalPrepares(e: Engine, m: Message, ans: Answers, drop: set<Position>)
    requires Agrees(e.self.local, e.book, e.detector) && !HandleProposal(e, m, ans, drop).detector.trimmed
    ensures Prepares(e, HandleProposal(e, m, ans, drop), Position(m.height, m.view))
  {
    hide Agrees, Backed, DS.AfterProposal, VoteForProposal, ProposalAuthentic, ValidQC, Removed;
    if e.core.phase == Prepare && ProposalAuthentic(e, m, ans) {
      var at := Position(m.height, m.view);
      var (d, conflict) := DS.AfterProposal(e.detector, m.validator, at, m.hash, drop);
      DS.CheckProposalKeepsVotes(e.detector, m.validator, at, m.hash, drop);
      var kept := if m.height in e.pending then e.pending else e.pending[m.height := m.hash];
      var ready := e.(detector := d, core := Relocked(e.core, m.justify), pending := kept);
      VoteForProposalDetector(ready, m);
      if conflict.None? && !d.trimmed {
        DetectorGrowthKeepsAgreement(e.self.local, e.book, e.detector, d);
        VoteForProposalPrepares(ready, m);
      }
    }
  }

  lemma VoteForProposalDetector(e: Engine, m: Message)
    ensures VoteForProposal(e, m).detector == e.detector
  {
    hide FormQC, HasQuorum, Touch, Record, RecordMine;
  }

  lemma VoteForProposalPrepares(e: Engine, m: Message)
    requires Agrees(e.self.local, e.book, e.detector)
    ensures Prepares(e, VoteForProposal(e, m), Position(m.height, m.view))
  {
    hide Agrees, Backed, SuperMajority, Voters, Cached, ByText, Record, RecordMine, Touch;
    var at := Position(m.height, m.view);
    var touched := e.(book := Touch(e.book, at));
    TouchKeepsAgreement(e.self.local, e.book, e.detector, at);
    if HasQuorum(SignOwn(touched, at, Prepare, m.hash), at, Prepare, m.hash) {
      OwnQuorumBacks(touched, at, m.hash);
    }
  }

  lemma HandleVotePrepares(e: Engine, m: Message, phase: Phase, ans: Answers, drop: set<Position>)
    requires Agrees(e.self.local, e.book, e.detector) && !HandleVote(e, m, phase, ans, drop).detector.trimmed
    ensures Prepares(e, HandleVote(e, m, phase, ans, drop), Position(m.height, m.view))
  {
    hide Agrees, Backed, DS.AfterVote, VoteAuthentic, AfterQuorum, TrimVotes, Record, Removed;
    if VoteAuthentic(e, m, phase) {
      var at := Position(m.height, m.view);
      var (d, conflict) := DS.AfterVote(e.detector, m.validator, at, phase, m.hash, drop);
      if conflict.None? {
        var recorded := RecordVote(e.(detector := d), m, phase);
        AfterQuorumPrepares(recorded, m, phase, ans);
        AcceptedVoteAgrees(e.self.local, e.book, e.detector, m, phase, drop);
        QuorumOf(recorded, m, phase);
      }
    }
  }

  /** A prepare quorum after recording a vote. */
  lemma QuorumOf(e: Engine, m: Message, phase: Phase)
    requires Agrees(e.self.local, e.book, e.detector)
    ensures var at := Position(m.height, m.view);
            phase == Prepare && HasQuorum(e, at, phase, m.hash)
            ==> Backed(e.self.local, e.vset, e.detector, at, m.hash)
  {
    hide Agrees, Backed, SuperMajority, Voters;
    var at := Position(m.height, m.view);
    if phase == Prepare && HasQuorum(e, at, phase, m.hash) {
      QuorumBacks(e.self.local, e.vset, e.book, e.detector, at, m.hash);
    }
  }

  lemma AfterQuorumPrepares(e: Engine, m: Message, phase: Phase, ans: Answers)
    ensures var r, at := AfterQuorum(e, m, phase, ans), Position(m.height, m.view);
            && r.detector == e.detector
            && (r.core.prepared == e.core.prepared
                || (phase == Prepare && HasQuorum(e, at, phase, m.hash) && r.core.prepared.Some?
                    && r.core.prepared.value.at == at && r.core.prepared.value.hash == m.hash))
  {
    hide SuperMajority, Voters, Cached, ByText, Record, RecordMine, Decide, VoteData;
    DecideKeepsPrepared(e, m.hash, m.height, ans);
  }

  /** Every step: a new prepared certificate is of the position the step works at, and backed. */
  lemma StepPrepares(e: Engine, ev: Event, known: set<Signature>)
    requires Inv(e, known) && Enabled(e, ev) && !Step(e, ev).detector.trimmed && !e.detector.trimmed
    ensures exists at: Position :: at.height == e.core.height && Prepares(e, Step(e, ev), at)
  {
    hide Agrees, Backed, HandleVote, HandleProposal, Propose, HandleTimeout, AcceptsNewView, SuperMajority;
    match ev
    case Deliver(m, ans, drop) =>
      var moved := MovedTo(e, m);
      ClearedAgrees(e.self.local, moved.book, e.detector, e.book);
      assert Prepares(e, moved, At(e));
      if !(m.kind.BlockRequest? || m.kind.BlockResponse? || m.height != e.core.height || m.view < e.core.view) {
        match m.kind {
          case Proposal => HandleProposalPrepares(moved, m, ans, drop);
          case VotePrepare => HandleVotePrepares(moved, m, Prepare, ans, drop);
          case VotePreCommit => HandleVotePrepares(moved, m, PreCommit, ans, drop);
          case VoteCommit => HandleVotePrepares(moved, m, Commit, ans, drop);
          case Timeout => TimeoutKeepsPrepared(e, m);
          case _ =>
        }
        assert Prepares(e, Step(e, ev), Position(m.height, m.view));
      }
    case ProposeNow(ans, drop) =>
      ProposePrepares(e, ans, drop);
      assert Prepares(e, Step(e, ev), At(e));
    case _ =>
      assert Prepares(e, Step(e, ev), At(e));
  }

  lemma TimeoutKeepsPrepared(e: Engine, m: Message)
    ensures HandleTimeout(e, m).core.prepared == e.core.prepared
  {
    hide TimeoutAuthentic, WithTimeout;
  }

  lemma ClearedAgrees(local: Bytes, moved: VoteBook, d: DS.Detector, b: VoteBook)
    requires Agrees(local, b, d) && (moved == b || moved.registries == map[])
    ensures Agrees(local, moved, d)
  {
  }

  // ---------------------------------------------------------------- runs

  /** What one step must keep to: a pre-commit quorum that completes finds the certificate of its own
      position, nobody leaves the set while the height stays, no proposal reads as a commit vote, and the
      detector's history is whole. */
  ghost predicate Orderly(e: Engine, ev: Event)
    requires Enabled(e, ev)
  {
    var e' := Step(e, ev);
    && Minor(e) && !e'.detector.trimmed && e'.ledger.chain < MAX64
    && (e'.core.height == e.core.height ==> e'.vset == e.vset)
    && match ev
       case Deliver(m, ans, drop) =>
         m.kind.VotePreCommit? && m.height == e.core.height && m.view >= e.core.view && e.core.prepared.Some?
         && CompletesPreCommit(MovedTo(e, m), m, drop)
         ==> e.core.prepared.value.at == Position(m.height, m.view)
       case ProposeNow(ans, drop) => Proposes(e, ans) ==> ProposalAsCommit(ans.created.value) == {}
       case _ => true
  }

  ghost predicate OrderlyRun(e: Engine, evs: seq<Event>)
    requires CanRun(e, evs)
  {
    evs == [] || (OrderlyRun(e, evs[..|evs| - 1]) && Orderly(Run(e, evs[..|evs| - 1]), evs[|evs| - 1]))
  }

  /** What an orderly run keeps: commit votes at the current height are for backed hashes, and so is the
      prepared certificate of that height. */
  ghost predicate Disciplined(e: Engine) {
    && !e.detector.trimmed
    && OneCommit(PerPosition, e)
    && (forall at, h :: CommitSigned(e, at, h) ==> at.height <= e.core.height)
    && (forall at, h :: CommitSigned(e, at, h) && at.height == e.core.height ==>
          Backed(e.self.local, e.vset, e.detector, at, h))
    && (e.core.prepared.Some? ==>
          && e.core.prepared.value.at.height <= e.core.height
          && (e.core.prepared.value.at.height == e.core.height ==>
                Backed(e.self.local, e.vset, e.detector, e.core.prepared.value.at, e.core.prepared.value.hash)))
  }

  /** The commit votes of an orderly step are for backed hashes, at most one. */
  lemma CommitsBacked(e: Engine, ev: Event, known: set<Signature>)
    requires Inv(e, known) && Enabled(e, ev) && Orderly(e, ev) && Disciplined(e)
    ensures forall c :: c in CommitsBy(e, ev) ==>
              c.at.height == e.core.height && Backed(e.self.local, e.vset, e.detector, c.at, c.hash)
  {
    hide Step, Backed, CompletesPreCommit, SuperMajority, Voters, DS.AfterProposal, ProposalAsCommit, Leader, Agrees;
    if ev.ProposeNow? && CommitsBy(e, ev) != {} && CompletesAlone(e, ev.ans.created.value, ev.drop) {
      AloneBacks(e, ev.ans.created.value, ev.drop);
    }
  }

  lemma AloneBacks(e: Engine, hash: Bytes, drop: set<Position>)
    requires Agrees(e.self.local, e.book, e.detector) && CompletesAlone(e, hash, drop)
    ensures Backed(e.self.local, e.vset, e.detector, At(e), hash)
  {
    hide SuperMajority, Voters, DS.AfterProposal, DS.Remembered;
    assert RememberedFor(e.self.local, e.detector, At(e), hash,
                         Voters(e.book, At(e), Ballot(Prepare, hash)) + {e.self.local});
  }

  lemma HeightRises(e: Engine, ev: Event, known: set<Signature>)
    requires Inv(e, known) && Enabled(e, ev) && Step(e, ev).ledger.chain < MAX64
    requires ev.Deliver? && ev.m.signature.Some? ==> ev.m.signature.value in known
    ensures e.core.height <= Step(e, ev).core.height
    ensures Step(e, ev).self == e.self && DS.Extends(e.detector, Step(e, ev).detector)
  {
    hide Inv, Handle, Propose, TimerFires, ApplyCommit, ApplyUpdate, DS.Extends;
    StepKeeps(e, ev, known);
    if ev.Timer? {
      TimerKeeps(e, known);
    }
  }

  /** Backed hashes at the current height leave no choice. */
  lemma NoChoice(e: Engine, ev: Event, known: set<Signature>)
    requires Inv(e, known) && Minor(e)
    requires forall c :: c in CommitsBy(e, ev) ==>
               c.at.height == e.core.height && Backed(e.self.local, e.vset, e.detector, c.at, c.hash)
    requires forall at, h :: CommitSigned(e, at, h) && at.height == e.core.height ==>
               Backed(e.self.local, e.vset, e.detector, at, h)
    ensures NoSwitch(PerPosition, e, ev)
  {
    hide Inv, Minor, Backed, CommitsBy, CommitSigned;
    forall a, b, h, k |
      Choice(a, h) in CommitsBy(e, ev) && Within(PerPosition, a, b)
      && (Choice(b, k) in CommitsBy(e, ev) || CommitSigned(e, b, k))
      ensures h == k
    {
      OneBacked(e, known, a, h, k);
    }
  }

  lemma StaysDisciplined(e: Engine, e': Engine, cs: set<Choice>, at: Position)
    requires Disciplined(e) && Adds(e, e', cs) && OneCommit(PerPosition, e')
    requires DS.Extends(e.detector, e'.detector) && !e'.detector.trimmed
    requires e.core.height <= e'.core.height && (e'.core.height == e.core.height ==> e'.vset == e.vset)
    requires forall c :: c in cs ==>
               c.at.height == e.core.height && Backed(e.self.local, e.vset, e.detector, c.at, c.hash)
    requires at.height == e.core.height && Prepares(e, e', at)
    ensures Disciplined(e')
  {
    hide Backed, CommitSigned, OneCommit, DS.Extends;
    forall at, h | Backed(e.self.local, e.vset, e.detector, at, h)
      ensures Backed(e.self.local, e.vset, e'.detector, at, h)
    {
      BackedLater(e.self.local, e.vset, e.detector, e'.detector, at, h);
    }
  }

  lemma {:induction false} OrderlyStepKeeps(e: Engine, ev: Event, known: set<Signature>)
    requires Inv(e, known) && Enabled(e, ev) && Orderly(e, ev) && Disciplined(e)
    requires ev.Deliver? && ev.m.signature.Some? ==> ev.m.signature.value in known
    ensures Disciplined(Step(e, ev))
  {
    hide Inv, Step, Enabled, Backed, CommitsBy, CommitSigned, OneCommit, NoSwitch, Minor, DS.Extends, Adds, Prepares;
    CommitsBacked(e, ev, known);
    NoChoice(e, ev, known);
    StepOneCommit(PerPosition, e, ev);
    StepCommits(e, ev);
    HeightRises(e, ev, known);
    StepPrepares(e, ev, known);
    var at: Position :| at.height == e.core.height && Prepares(e, Step(e, ev), at);
    StaysDisciplined(e, Step(e, ev), CommitsBy(e, ev), at);
  }

  lemma DisciplinedAtStart(e: Engine)
    requires FreshStart(e)
    ensures Disciplined(e)
  {
    hide Backed, VoteData;
    assert e.log.made == {} && e.core.prepared.None?;
  }

  lemma DisciplinedSignsOnce(e: Engine)
    requires Disciplined(e)
    ensures OneCommit(PerPosition, e)
  {
  }

  /** The discipline suffices: over every orderly run the engine signs at most one commit hash per position. */
  lemma {:induction false} OrderlyRunsCommitOnce(e: Engine, evs: seq<Event>)
    requires FreshStart(e) && CanRun(e, evs) && OrderlyRun(e, evs)
    ensures Disciplined(Run(e, evs)) && OneCommit(PerPosition, Run(e, evs)) && NeverSwitches(PerPosition, e, evs)
  {
    hide Inv, Disciplined, Step, Enabled, Orderly, OneCommit, NeverSwitches, FreshStart, Accrues;
    if evs == [] {
      DisciplinedAtStart(e);
    } else {
      var front, ev := evs[..|evs| - 1], evs[|evs| - 1];
      OrderlyRunsCommitOnce(e, front);
      RunKeeps(e, front);
      assert evs == front + [ev];
      InvMonotone(Run(e, front), Signatures(front), Signatures(evs));
      OrderlyStepKeeps(Run(e, front), ev, Signatures(evs));
    }
    DisciplinedSignsOnce(Run(e, evs));
    OneCommitIff(PerPosition, e, evs);
  }
}
