/** Which commit votes an engine signs, and exactly when it signs one hash per position or per height. */
module CommitVotes {
  import opened Words
  import opened HexText
  import opened ConsensusTypes
  import opened ValidatorSets
  import opened EngineModel
  import opened EngineInvariants
  import opened EngineSteps
  import opened EngineRuns
  import DS = DoubleSigns

  /** A commit vote is cast for the prepared certificate's hash, and no change of view or height clears
      that certificate. So a pre-commit quorum that arrives before the prepare quorum of its own view makes
      the engine vote for the block prepared earlier. */
  datatype Choice = Choice(at: Position, hash: Bytes)

  /** The engine has signed a commit vote, be it as a vote or as a proposal with the same bytes. */
  ghost predicate CommitSigned(e: Engine, at: Position, hash: Bytes) {
    Signature(e.self.local, VoteData(e.self.chainId, at, Commit, hash)) in e.log.made
  }

  /** Where one commit hash is asked for: at each position, or at all positions of a height. */
  datatype Scope = PerPosition | PerHeight

  predicate Within(scope: Scope, a: Position, b: Position) {
    match scope
    case PerPosition => a == b
    case PerHeight => a.height == b.height
  }

  ghost predicate OneCommit(scope: Scope, e: Engine) {
    forall a, b, h, k :: CommitSigned(e, a, h) && CommitSigned(e, b, k) && Within(scope, a, b) ==> h == k
  }

  // ---------------------------------------------------------------- the votes one step signs

  /** The commit vote whose bytes a proposal for `hash` has. */
  function ProposalAsCommit(hash: Bytes): set<Choice> {
    if |hash| >= 17 && hash[16] == PhaseByte(Commit) then {Choice(VoteIn(hash).0, VoteIn(hash).1)} else {}
  }

  /** The quorum test once one more voter is counted. */
  predicate QuorumWith(e: Engine, at: Position, ballot: Ballot, who: Bytes) {
    SuperMajority(e.vset, Voters(e.book, at, ballot) + {who})
  }

  /** A pre-commit vote that completes its quorum; `e` has moved to the vote's view. */
  predicate CompletesPreCommit(e: Engine, m: Message, drop: set<Position>) {
    && VoteAuthentic(e, m, PreCommit)
    && DS.AfterVote(e.detector, m.validator, At(e), PreCommit, m.hash, drop).1.None?
    && QuorumWith(e, At(e), Ballot(PreCommit, m.hash), m.validator)
  }

  /** A proposer whose own votes complete the prepare and the pre-commit quorum. */
  predicate CompletesAlone(e: Engine, hash: Bytes, drop: set<Position>) {
    && DS.AfterProposal(e.detector, e.self.local, At(e), hash, drop).1.None?
    && QuorumWith(e, At(e), Ballot(Prepare, hash), e.self.local)
    && QuorumWith(e, At(e), Ballot(PreCommit, hash), e.self.local)
  }

  /** The commit votes an event makes the engine sign, read off the state before it. */
  function CommitsBy(e: Engine, ev: Event): set<Choice> {
    match ev
    case Deliver(m, ans, drop) =>
      if m.kind.VotePreCommit? && m.height == e.core.height && m.view >= e.core.view && e.core.prepared.Some?
         && CompletesPreCommit(MovedTo(e, m), m, drop)
      then {Choice(Position(m.height, m.view), e.core.prepared.value.hash)} else {}
    case ProposeNow(ans, drop) =>
      if !Proposes(e, ans) then {}
      else
        ProposalAsCommit(ans.created.value)
        + (if CompletesAlone(e, ans.created.value, drop) then {Choice(At(e), ans.created.value)} else {})
    case _ => {}
  }

  /** The guard a caller can check: the event asks for no commit vote at a position, or at a height, where
      the engine has signed, or is about to sign, one for another hash. */
  ghost predicate NoSwitch(scope: Scope, e: Engine, ev: Event) {
    forall a, b, h, k ::
      (Choice(a, h) in CommitsBy(e, ev) && Within(scope, a, b)
       && (Choice(b, k) in CommitsBy(e, ev) || CommitSigned(e, b, k))) ==> h == k
  }

  /** From `e` to `e'` the local key signed the commit votes in `cs` and nothing else that reads as one. */
  ghost predicate Adds(e: Engine, e': Engine, cs: set<Choice>) {
    && e'.self == e.self
    && e.log.made <= e'.log.made
    && (forall sig :: sig in e'.log.made ==> sig in e.log.made || sig.signer == e.self.local)
    && (forall at, h :: CommitSigned(e', at, h) <==> CommitSigned(e, at, h) || Choice(at, h) in cs)
  }

  lemma AddsInTurn(a: Engine, b: Engine, c: Engine, cs: set<Choice>, ds: set<Choice>)
    requires Adds(a, b, cs) && Adds(b, c, ds)
    ensures Adds(a, c, cs + ds)
    ensures cs == {} ==> Adds(a, c, ds)
    ensures ds == {} ==> Adds(a, c, cs)
  {
    hide CommitSigned;
    assert cs == {} ==> cs + ds == ds;
    assert ds == {} ==> cs + ds == cs;
  }

  lemma NothingMade(e: Engine, e': Engine)
    requires e'.self == e.self && e'.log.made == e.log.made
    ensures Adds(e, e', {})
  {
  }

  lemma SignOwnAdds(e: Engine, at: Position, phase: Phase, hash: Bytes)
    ensures Adds(e, SignOwn(e, at, phase, hash), if phase == Commit then {Choice(at, hash)} else {})
  {
    hide VoteData, Record, RecordMine;
    var e' := SignOwn(e, at, phase, hash);
    var cs := if phase == Commit then {Choice(at, hash)} else {};
    forall at', h ensures CommitSigned(e', at', h) <==> CommitSigned(e, at', h) || Choice(at', h) in cs {
      if VoteData(e.self.chainId, at', Commit, h) == VoteData(e.self.chainId, at, phase, hash) {
        VoteDataBinds(e.self.chainId, at', Commit, h, at, phase, hash);
      }
    }
  }

  lemma ProposalAdds(e: Engine, hash: Bytes, e': Engine)
    requires e'.self == e.self
    requires e'.log.made == e.log.made + {Signature(e.self.local, ProposalData(e.self.chainId, hash))}
    ensures Adds(e, e', ProposalAsCommit(hash))
  {
    hide VoteData, ProposalData, VoteIn;
    var cs := ProposalAsCommit(hash);
    forall at, h ensures CommitSigned(e', at, h) <==> CommitSigned(e, at, h) || Choice(at, h) in cs {
      ProposalIsVoteIff(e.self.chainId, hash, at, Commit, h);
    }
  }

  lemma TimeoutAdds(e: Engine, at: Position, e': Engine)
    requires e'.self == e.self
    requires e'.log.made == e.log.made + {Signature(e.self.local, TimeoutData(e.self.chainId, at))}
    ensures Adds(e, e', {})
  {
    hide VoteData, TimeoutData;
    forall at', h ensures CommitSigned(e', at', h) <==> CommitSigned(e, at', h) {
      VoteIsNotTimeout(e.self.chainId, at', Commit, h, at);
    }
  }

  lemma DecideAdds(e: Engine, hash: Bytes, height: U64, ans: Answers)
    ensures Adds(e, Decide(e, hash, height, ans), {})
  {
    NothingMade(e, Decide(e, hash, height, ans));
  }

  // ---------------------------------------------------------------- handlers

  lemma SelfVoteAdds(e: Engine, hash: Bytes, ans: Answers)
    ensures Adds(e, SelfVote(e, hash, ans),
                 if QuorumWith(e, At(e), Ballot(Prepare, hash), e.self.local)
                    && QuorumWith(e, At(e), Ballot(PreCommit, hash), e.self.local)
                 then {Choice(At(e), hash)} else {})
  {
    hide Adds, Voters, SuperMajority, FormQC, Decide, Record, RecordMine;
    var at := At(e);
    var s := SignOwn(e, at, Prepare, hash);
    SignOwnAdds(e, at, Prepare, hash);
    OwnVoteCounts(e, at, Prepare, hash, Prepare);
    OwnVoteCounts(e, at, Prepare, hash, PreCommit);
    if HasQuorum(s, at, Prepare, hash) {
      var p := s.(core := Prepared(s.core, FormQC(s, at, Prepare, hash)).(phase := PreCommit));
      NothingMade(s, p);
      AddsInTurn(e, s, p, {}, {});
      SelfPreCommitAdds(p, hash, ans);
      AddsInTurn(e, p, SelfVote(e, hash, ans), {}, PreCommitAdds(p, hash));
    }
  }

  function PreCommitAdds(e: Engine, hash: Bytes): set<Choice> {
    if QuorumWith(e, At(e), Ballot(PreCommit, hash), e.self.local) then {Choice(At(e), hash)} else {}
  }

  lemma SelfPreCommitAdds(e: Engine, hash: Bytes, ans: Answers)
    ensures Adds(e, SelfPreCommit(e, hash, ans), PreCommitAdds(e, hash))
  {
    hide Adds, Voters, SuperMajority, Decide, Record, RecordMine;
    var at := At(e);
    var s := SignOwn(e, at, PreCommit, hash);
    SignOwnAdds(e, at, PreCommit, hash);
    OwnVoteCounts(e, at, PreCommit, hash, PreCommit);
    if HasQuorum(s, at, PreCommit, hash) {
      var c := s.(core := s.core.(phase := Commit));
      var signed := SignOwn(c, at, Commit, hash);
      NothingMade(s, c);
      SignOwnAdds(c, at, Commit, hash);
      NothingMade(signed, signed);
      DecideAdds(signed, hash, at.height, ans);
      AddsInTurn(e, s, c, {}, {});
      AddsInTurn(e, c, signed, {}, {Choice(at, hash)});
      AddsInTurn(e, signed, SelfPreCommit(e, hash, ans), {Choice(at, hash)}, {});
    }
  }

  /** The local vote adds the local validator to its own ballot and to no other. */
  lemma OwnVoteCounts(e: Engine, at: Position, phase: Phase, hash: Bytes, phase': Phase)
    ensures Voters(SignOwn(e, at, phase, hash).book, at, Ballot(phase', hash))
         == (if phase' == phase then Voters(e.book, at, Ballot(phase, hash)) + {e.self.local}
             else Voters(e.book, at, Ballot(phase', hash)))
  {
    hide Record, RecordMine, Voters, Cached;
    var sig := Signature(e.self.local, VoteData(e.self.chainId, at, phase, hash));
    RecordedVoters(e.book, at, Ballot(phase, hash), e.self.local, Some(sig), at, Ballot(phase', hash));
    MineKeepsVoters(Record(e.book, at, Ballot(phase, hash), e.self.local, Some(sig)), at, phase, hash, at,
                    Ballot(phase', hash));
  }

  lemma ProposeAdds(e: Engine, ans: Answers, drop: set<Position>)
    ensures Adds(e, Propose(e, ans, drop), CommitsBy(e, ProposeNow(ans, drop)))
  {
    hide Adds, DS.AfterProposal, SelfVote, ProposalAsCommit, QuorumWith, ProposalData, Leader, Removed;
    if !Proposes(e, ans) {
      NothingMade(e, e);
    } else {
      var hash := ans.created.value;
      var sig := Signature(e.self.local, ProposalData(e.self.chainId, hash));
      var s := e.(pending := e.pending[e.core.height := hash], log := e.log.(made := e.log.made + {sig}));
      var (d, conflict) := DS.AfterProposal(s.detector, e.self.local, At(e), hash, drop);
      var checked := s.(detector := d);
      ProposalAdds(e, hash, checked);
      var r := Propose(e, ans, drop);
      if conflict.Some? {
        NothingMade(checked, r);
        AddsInTurn(e, checked, r, ProposalAsCommit(hash), {});
      } else {
        var v := SelfVote(checked, hash, ans);
        SelfVoteAdds(checked, hash, ans);
        NothingMade(v, r);
        SameQuorum(e, checked, At(e), Ballot(Prepare, hash), e.self.local);
        SameQuorum(e, checked, At(e), Ballot(PreCommit, hash), e.self.local);
        var own := if CompletesAlone(e, hash, drop) then {Choice(At(e), hash)} else {};
        AddsInTurn(e, checked, v, ProposalAsCommit(hash), own);
        AddsInTurn(e, v, r, ProposalAsCommit(hash) + own, {});
      }
    }
  }

  lemma SameQuorum(e: Engine, e': Engine, at: Position, ballot: Ballot, who: Bytes)
    requires e.vset == e'.vset && e.book == e'.book
    ensures QuorumWith(e, at, ballot, who) == QuorumWith(e', at, ballot, who)
  {
  }

  /** A vote: only a pre-commit quorum makes the engine sign a commit vote. */
  lemma HandleVoteAdds(e: Engine, m: Message, phase: Phase, ans: Answers, drop: set<Position>)
    requires At(e) == Position(m.height, m.view)
    ensures Adds(e, HandleVote(e, m, phase, ans, drop),
                 if phase == PreCommit && e.core.prepared.Some? && CompletesPreCommit(e, m, drop)
                 then {Choice(At(e), e.core.prepared.value.hash)} else {})
  {
    hide Adds, DS.AfterVote, AfterQuorum, VoteAuthentic, SuperMajority, Record, Voters, TrimVotes, Removed;
    var r := HandleVote(e, m, phase, ans, drop);
    if !VoteAuthentic(e, m, phase) {
      NothingMade(e, e);
    } else {
      var (d, conflict) := DS.AfterVote(e.detector, m.validator, At(e), phase, m.hash, drop);
      if conflict.Some? {
        NothingMade(e, r);
      } else {
        var recorded := RecordVote(e.(detector := d), m, phase);
        RecordedVoters(e.book, At(e), Ballot(phase, m.hash), m.validator, m.signature, At(e), Ballot(phase, m.hash));
        NothingMade(e, recorded);
        AfterQuorumAdds(recorded, m, phase, ans);
        var q := AfterQuorum(recorded, m, phase, ans);
        NothingMade(q, r);
        AddsInTurn(e, recorded, q, {}, QuorumAdds(recorded, m, phase));
        AddsInTurn(e, q, r, QuorumAdds(recorded, m, phase), {});
      }
    }
  }

  function QuorumAdds(e: Engine, m: Message, phase: Phase): set<Choice> {
    if phase == PreCommit && HasQuorum(e, At(e), phase, m.hash) && e.core.prepared.Some?
    then {Choice(At(e), e.core.prepared.value.hash)} else {}
  }

  lemma AfterQuorumAdds(e: Engine, m: Message, phase: Phase, ans: Answers)
    requires At(e) == Position(m.height, m.view)
    ensures Adds(e, AfterQuorum(e, m, phase, ans), QuorumAdds(e, m, phase))
  {
    hide Adds, SignOwn, Decide, FormQC, SuperMajority, Voters;
    NothingMade(e, e);
    if HasQuorum(e, At(e), phase, m.hash) {
      match phase
      case Prepare =>
        var p := e.(core := Prepared(e.core, FormQC(e, At(e), phase, m.hash)));
        NothingMade(e, p);
        AdvanceAdds(p, PreCommit);
        AddsInTurn(e, p, AfterQuorum(e, m, phase, ans), {}, {});
      case PreCommit => AdvanceAdds(e, Commit);
      case Commit => DecideAdds(e, m.hash, m.height, ans);
      case _ =>
    }
  }

  lemma AdvanceAdds(e: Engine, phase: Phase)
    ensures Adds(e, AdvancePhase(e, phase),
                 if phase == Commit && e.core.prepared.Some? then {Choice(At(e), e.core.prepared.value.hash)} else {})
  {
    hide Adds, SignOwn;
    NothingMade(e, e);
    if e.core.prepared.Some? {
      var s := e.(core := e.core.(phase := phase));
      NothingMade(e, s);
      SignOwnAdds(s, At(e), phase, e.core.prepared.value.hash);
      AddsInTurn(e, s, AdvancePhase(e, phase), {}, if phase == Commit then {Choice(At(e), e.core.prepared.value.hash)}
                                                   else {});
    }
  }

  lemma HandleProposalAdds(e: Engine, m: Message, ans: Answers, drop: set<Position>)
    ensures Adds(e, HandleProposal(e, m, ans, drop), {})
  {
    hide Adds, DS.AfterProposal, VoteForProposal, ProposalAuthentic, ValidQC, Removed;
    NothingMade(e, e);
    if e.core.phase == Prepare && ProposalAuthentic(e, m, ans) {
      var (d, conflict) := DS.AfterProposal(e.detector, m.validator, Position(m.height, m.view), m.hash, drop);
      var checked := e.(detector := d);
      var r := HandleProposal(e, m, ans, drop);
      NothingMade(e, checked);
      if r.log.made == e.log.made && r.self == e.self {
        NothingMade(e, r);
      } else {
        var kept := if m.height in e.pending then e.pending else e.pending[m.height := m.hash];
        var ready := checked.(core := Relocked(e.core, m.justify), pending := kept);
        NothingMade(e, ready);
        VoteForProposalAdds(ready, m);
        assert r == VoteForProposal(ready, m);
        AddsInTurn(e, ready, r, {}, {});
      }
    }
  }

  lemma VoteForProposalAdds(e: Engine, m: Message)
    ensures Adds(e, VoteForProposal(e, m), {})
  {
    hide Adds, FormQC, HasQuorum, SignOwn, Touch;
    var at := Position(m.height, m.view);
    var touched := e.(book := Touch(e.book, at));
    NothingMade(e, touched);
    if Prepare !in RegistryAt(e.book, at).mine {
      var s := SignOwn(touched, at, Prepare, m.hash);
      SignOwnAdds(touched, at, Prepare, m.hash);
      NothingMade(s, VoteForProposal(e, m));
      AddsInTurn(e, touched, s, {}, {});
      AddsInTurn(e, s, VoteForProposal(e, m), {}, {});
    }
  }

  lemma DispatchAdds(e: Engine, m: Message, ans: Answers, drop: set<Position>)
    requires At(e) == Position(m.height, m.view)
    ensures Adds(e, Dispatch(e, m, ans, drop),
                 if m.kind.VotePreCommit? && e.core.prepared.Some? && CompletesPreCommit(e, m, drop)
                 then {Choice(At(e), e.core.prepared.value.hash)} else {})
  {
    hide Adds, HandleVote, HandleProposal, CompletesPreCommit, AcceptsNewView;
    match m.kind
    case Proposal => HandleProposalAdds(e, m, ans, drop);
    case VotePrepare => HandleVoteAdds(e, m, Prepare, ans, drop);
    case VotePreCommit => HandleVoteAdds(e, m, PreCommit, ans, drop);
    case VoteCommit => HandleVoteAdds(e, m, Commit, ans, drop);
    case NewView => NothingMade(e, HandleNewView(e, m));
    case _ => NothingMade(e, e);
  }

  lemma HandleAdds(e: Engine, m: Message, ans: Answers, drop: set<Position>)
    ensures Adds(e, Handle(e, m, ans, drop), CommitsBy(e, Deliver(m, ans, drop)))
  {
    hide Adds, Dispatch, CompletesPreCommit, TimeoutAuthentic, WithTimeout;
    if m.kind.BlockRequest? || m.kind.BlockResponse? || m.height != e.core.height || m.view < e.core.view {
      NothingMade(e, e);
    } else if m.kind.Timeout? {
      NothingMade(e, HandleTimeout(e, m));
    } else {
      var moved := MovedTo(e, m);
      NothingMade(e, moved);
      DispatchAdds(moved, m, ans, drop);
      AddsInTurn(e, moved, Dispatch(moved, m, ans, drop), {}, CommitsBy(e, Deliver(m, ans, drop)));
    }
  }

  lemma TimerAdds(e: Engine)
    ensures Adds(e, TimerFires(e), {})
  {
    hide Adds, SuperMajority, TimeoutData;
    TimeoutAdds(e, Position(e.core.height, Wrap(e.core.view + 1)), TimerFires(e));
  }

  /** Every step signs exactly the commit votes read off its guards. */
  lemma {:induction false} StepCommits(e: Engine, ev: Event)
    requires Enabled(e, ev)
    ensures Adds(e, Step(e, ev), CommitsBy(e, ev))
  {
    hide Adds, Handle, Propose, TimerFires, CompletesPreCommit, CompletesAlone, ProposalAsCommit, Proposes;
    match ev
    case Deliver(m, ans, drop) => HandleAdds(e, m, ans, drop);
    case ProposeNow(ans, drop) => ProposeAdds(e, ans, drop);
    case Timer => TimerAdds(e);
    case CommitSynced(height, ans) => NothingMade(e, Step(e, ev));
    case FinishSynced => NothingMade(e, Step(e, ev));
  }

  // ---------------------------------------------------------------- runs

  lemma StepOneCommit(scope: Scope, e: Engine, ev: Event)
    requires Enabled(e, ev)
    ensures OneCommit(scope, Step(e, ev)) <==> OneCommit(scope, e) && NoSwitch(scope, e, ev)
  {
    hide CommitSigned, CommitsBy, Step, Enabled;
    StepCommits(e, ev);
    var e' := Step(e, ev);
    if OneCommit(scope, e) && NoSwitch(scope, e, ev) {
      forall a, b, h, k | CommitSigned(e', a, h) && CommitSigned(e', b, k) && Within(scope, a, b) ensures h == k {
        if Choice(a, h) !in CommitsBy(e, ev) {
          assert CommitSigned(e, a, h);
          assert Choice(b, k) in CommitsBy(e, ev) ==> Within(scope, b, a) && k == h;
        }
      }
    }
    if OneCommit(scope, e') {
      assert forall at, h :: CommitSigned(e, at, h) || Choice(at, h) in CommitsBy(e, ev) ==> CommitSigned(e', at, h);
    }
  }

  /** Every event of the run passes the guard in the state it finds. */
  ghost predicate NeverSwitches(scope: Scope, e: Engine, evs: seq<Event>)
    requires CanRun(e, evs)
  {
    evs == []
    || (NeverSwitches(scope, e, evs[..|evs| - 1]) && NoSwitch(scope, Run(e, evs[..|evs| - 1]), evs[|evs| - 1]))
  }

  /** Over whole runs: an engine signs at most one commit hash per position, or per height, if and only if
      no event asks it to switch there. */
  lemma {:induction false} OneCommitIff(scope: Scope, e: Engine, evs: seq<Event>)
    requires FreshStart(e) && CanRun(e, evs)
    ensures OneCommit(scope, Run(e, evs)) <==> NeverSwitches(scope, e, evs)
  {
    if evs == [] {
      assert e.log.made == {};
    } else {
      var front := evs[..|evs| - 1];
      OneCommitIff(scope, e, front);
      StepOneCommit(scope, Run(e, front), evs[|evs| - 1]);
    }
  }

  // ---------------------------------------------------------------- a run that switches

  /** Any group holding the only validator is a quorum of a set of one. */
  lemma OneValidatorQuorum(v: Validator, who: set<Bytes>)
    requires v.stake == 1 && v.address in who
    ensures WellFormed(VSet([v], 1, 0)) && Bounded(VSet([v], 1, 0)) && SuperMajority(VSet([v], 1, 0), who)
  {
    assert [v][..0] == [] && Sum([v]) == 1;
    StakeInOne([v], v.address);
    StakeInMonotone([v], {v.address}, who);
    SuperMajorityMeaning(VSet([v], 1, 0), who);
  }

  /** A signed vote of the only validator. */
  function VoteOf(self: Self, v: Validator, phase: Phase, at: Position, hash: Bytes): Message {
    Message(if phase == Prepare then VotePrepare else VotePreCommit, at.height, at.view, hash, v.address,
            Some(Signature(v.address, VoteData(self.chainId, at, phase, hash))), None, NoPayload)
  }

  /** An engine of that set whose detector has seen at most `n` positions. */
  ghost predicate Watching(e: Engine, self: Self, v: Validator, n: nat) {
    && e.self == self && e.vset == VSet([v], 1, 0)
    && !e.detector.trimmed && |e.detector.history| <= n <= 100
  }

  lemma OnePositionMore(history: map<Position, DS.SignRecord>, at: Position, rec: DS.SignRecord)
    ensures |history[at := rec]| == |history| + if at in history then 0 else 1
  {
    var m := history[at := rec];
    assert m.Keys == history.Keys + {at};
    assert |m| == |m.Keys| && |history| == |history.Keys|;
    if at in history {
      assert history.Keys + {at} == history.Keys;
    }
  }

  lemma FewPositions(d: DS.Detector, a: Bytes, at: Position, phase: Phase, hash: Bytes)
    requires !d.trimmed && |d.history| <= 100
    ensures var d' := DS.AfterVote(d, a, at, phase, hash, {}).0;
            !d'.trimmed && |d'.history| <= |d.history| + 1
  {
    var o := DS.Opened(d, at, DS.SignRecord([], [], map[]), {});
    OnePositionMore(d.history, at, DS.SignRecord([], [], map[]));
    assert at in o.history;
    OnePositionMore(o.history, at, o.history[at].(votes := o.history[at].votes[DS.Slot(phase, a) := hash]));
  }

  ghost predicate StillOpen(e: Engine, v: Validator, phase: Phase, at: Position, hash: Bytes) {
    var seen := DS.Remembered(e.detector, v.address, at, phase);
    seen == None || seen == Some(hash)
  }

  lemma AfterOneVote(e: Engine, m: Message, phase: Phase, ans: Answers)
    requires At(e) == Position(m.height, m.view) && HasQuorum(e, At(e), phase, m.hash)
    requires phase == Prepare || phase == PreCommit
    ensures var e' := AfterQuorum(e, m, phase, ans);
            && e'.core.height == e.core.height && e'.core.view == e.core.view && e'.self == e.self
            && e'.vset == e.vset && e'.detector == e.detector && e'.log.allSigned == e.log.allSigned
            && (if phase == Prepare then e'.core.prepared.Some? && e'.core.prepared.value.hash == m.hash
                else e'.core.prepared == e.core.prepared)
  {
    hide SuperMajority, Record, RecordMine, Voters, Cached;
  }

  /** One vote is a quorum: a prepare vote sets the prepared certificate, a pre-commit vote makes the
      engine sign a commit vote for whatever is prepared. */
  lemma OneVote(e: Engine, self: Self, v: Validator, n: nat, phase: Phase, at: Position, hash: Bytes, ans: Answers)
    requires Watching(e, self, v, n) && n < 100 && v.stake == 1 && (phase == Prepare || phase == PreCommit)
    requires at.height == e.core.height && at.view >= e.core.view && StillOpen(e, v, phase, at, hash)
    ensures var e' := Handle(e, VoteOf(self, v, phase, at, hash), ans, {});
            && Watching(e', self, v, n + 1)
            && e'.core.height == at.height && e'.core.view == at.view
            && (forall a, at', p :: (a, at', p) != (v.address, at, phase) ==>
                  DS.Remembered(e'.detector, a, at', p) == DS.Remembered(e.detector, a, at', p))
            && DS.Remembered(e'.detector, v.address, at, phase) == Some(hash)
            && (forall at', h :: CommitSigned(e, at', h) ==> CommitSigned(e', at', h))
            && (if phase == Prepare then e'.core.prepared.Some? && e'.core.prepared.value.hash == hash
                else e'.core.prepared == e.core.prepared
                     && (e.core.prepared.Some? ==> CommitSigned(e', at, e.core.prepared.value.hash)))
            && e'.log.allSigned == e.log.allSigned && e'.detector.evidence == e.detector.evidence
  {
    hide DS.AfterVote, SuperMajority, Record, AfterQuorum, TrimVotes, CommitSigned, DS.Remembered, Voters;
    var m := VoteOf(self, v, phase, at, hash);
    var moved := MovedTo(e, m);
    HandleAdds(e, m, ans, {});
    assert VoteAuthentic(moved, m, phase) by {
      assert moved.vset.validators[0].address == v.address;
    }
    FewPositions(e.detector, v.address, at, phase, hash);
    DS.CheckVoteRemembers(e.detector, v.address, at, phase, hash, {});
    var d := DS.AfterVote(e.detector, v.address, at, phase, hash, {}).0;
    var recorded := RecordVote(moved.(detector := d), m, phase);
    RecordedVoters(moved.book, at, Ballot(phase, hash), v.address, m.signature, at, Ballot(phase, hash));
    OneValidatorQuorum(v, Voters(recorded.book, at, Ballot(phase, hash)));
    AfterOneVote(recorded, m, phase, ans);
    assert Handle(e, m, ans, {}) == AcceptVote(moved.(detector := d), m, phase, ans);
  }

  /** The run: a prepare vote for `a`, then in the next view a pre-commit vote for `b` that overtook the
      prepare vote for `b`, and both of them in order. */
  function Overtaking(self: Self, v: Validator, a: Bytes, b: Bytes, ans: Answers): seq<Event> {
    var early := Deliver(VoteOf(self, v, PreCommit, Position(1, 1), b), ans, {});
    [Deliver(VoteOf(self, v, Prepare, Position(1, 0), a), ans, {}), early,
     Deliver(VoteOf(self, v, Prepare, Position(1, 1), b), ans, {}), early]
  }

  /** The failing input: the remote validator votes for one hash per position and phase, every vote is
      signed, and still the engine signs commit votes for two hashes at one position. */
  lemma {:induction false} OvertakenVoteSwitches(self: Self, v: Validator, a: Bytes, b: Bytes, ans: Answers)
    requires v.stake == 1 && a != b && ans.rotation.None?
    ensures var e := Started(NewEngine(self, VSet([v], 1, 0), 0), 1);
            var evs := Overtaking(self, v, a, b, ans);
            && FreshStart(e) && CanRun(e, evs)
            && Run(e, evs).log.allSigned && Run(e, evs).detector.evidence == []
            && CommitSigned(Run(e, evs), Position(1, 1), a) && CommitSigned(Run(e, evs), Position(1, 1), b)
            && !NeverSwitches(PerPosition, e, evs)
  {
    hide *;
    var e := Started(NewEngine(self, VSet([v], 1, 0), 0), 1);
    var evs := Overtaking(self, v, a, b, ans);
    OvertakingStart(self, v);
    OvertakingRuns(self, v, a, b, ans);
    OvertakingVotes(e, self, v, a, b, ans);
    OneCommitIff(PerPosition, e, evs);
    SwitchedOnce(Run(e, evs), Position(1, 1), a, b);
  }

  lemma SwitchedOnce(e: Engine, at: Position, a: Bytes, b: Bytes)
    requires CommitSigned(e, at, a) && CommitSigned(e, at, b) && a != b
    ensures !OneCommit(PerPosition, e)
  {
    hide CommitSigned;
  }

  lemma OvertakingStart(self: Self, v: Validator)
    requires v.stake == 1
    ensures var e := Started(NewEngine(self, VSet([v], 1, 0), 0), 1);
            && FreshStart(e) && Watching(e, self, v, 0) && e.core.height == 1 && e.core.view == 0
            && e.log.allSigned && e.detector.evidence == []
  {
    hide WellFormed;
    OneValidatorQuorum(v, {v.address});
    WellFormedIsConsistent(VSet([v], 1, 0));
    assert |DS.EMPTY.history| == 0;
  }

  lemma WellFormedIsConsistent(vs: VSet)
    requires WellFormed(vs)
    ensures Consistent(vs)
  {
  }

  /** The four votes, one after the other. */
  lemma OvertakingVotes(e: Engine, self: Self, v: Validator, a: Bytes, b: Bytes, ans: Answers)
    requires v.stake == 1 && Watching(e, self, v, 0) && e.core.height == 1 && e.core.view == 0
    ensures var first := Handle(e, VoteOf(self, v, Prepare, Position(1, 0), a), ans, {});
            var early := Handle(first, VoteOf(self, v, PreCommit, Position(1, 1), b), ans, {});
            var second := Handle(early, VoteOf(self, v, Prepare, Position(1, 1), b), ans, {});
            var last := Handle(second, VoteOf(self, v, PreCommit, Position(1, 1), b), ans, {});
            && CommitSigned(last, Position(1, 1), a) && CommitSigned(last, Position(1, 1), b)
            && last.log.allSigned == e.log.allSigned && last.detector.evidence == e.detector.evidence
  {
    hide Handle, CommitSigned, VoteOf;
    var first := Handle(e, VoteOf(self, v, Prepare, Position(1, 0), a), ans, {});
    var early := Handle(first, VoteOf(self, v, PreCommit, Position(1, 1), b), ans, {});
    var second := Handle(early, VoteOf(self, v, Prepare, Position(1, 1), b), ans, {});
    assert e.detector.history.Keys == {} by {
      assert |e.detector.history.Keys| == |e.detector.history|;
    }
    OneVote(e, self, v, 0, Prepare, Position(1, 0), a, ans);
    hide DS.Remembered;
    OneVote(first, self, v, 1, PreCommit, Position(1, 1), b, ans);
    OneVote(early, self, v, 2, Prepare, Position(1, 1), b, ans);
    OneVote(second, self, v, 3, PreCommit, Position(1, 1), b, ans);
  }

  lemma OvertakingRuns(self: Self, v: Validator, a: Bytes, b: Bytes, ans: Answers)
    requires ans.rotation.None?
    ensures var e := Started(NewEngine(self, VSet([v], 1, 0), 0), 1);
            var evs := Overtaking(self, v, a, b, ans);
            var first := Handle(e, VoteOf(self, v, Prepare, Position(1, 0), a), ans, {});
            var early := Handle(first, VoteOf(self, v, PreCommit, Position(1, 1), b), ans, {});
            var second := Handle(early, VoteOf(self, v, Prepare, Position(1, 1), b), ans, {});
            && CanRun(e, evs) && Run(e, evs) == Handle(second, VoteOf(self, v, PreCommit, Position(1, 1), b), ans, {})
  {
    hide Handle, NewEngine, Started, VoteOf;
    var e := Started(NewEngine(self, VSet([v], 1, 0), 0), 1);
    var evs := Overtaking(self, v, a, b, ans);
    forall k | 0 <= k < 4 ensures evs[..k + 1][..k] == evs[..k] && evs[..k + 1][k] == evs[k] {
    }
    assert evs[..0] == [] && evs[..4] == evs;
    assert CanRun(e, evs[..1]) && Run(e, evs[..1]) == Handle(e, evs[0].m, ans, {});
    assert CanRun(e, evs[..2]) && Run(e, evs[..2]) == Handle(Run(e, evs[..1]), evs[1].m, ans, {});
    assert CanRun(e, evs[..3]) && Run(e, evs[..3]) == Handle(Run(e, evs[..2]), evs[2].m, ans, {});
    assert CanRun(e, evs[..4]) && Run(e, evs[..4]) == Handle(Run(e, evs[..3]), evs[3].m, ans, {});
  }
}
