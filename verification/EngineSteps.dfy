/** Every handler keeps the engine invariant and only moves the engine forward.

    There is one lemma for each handler and for each piece of a handler that changes the state on its own.
    Each concludes `Kept`: the invariant holds afterwards, what may only grow has grown, the position has not
    moved back, and a block committed by `decide` is finalized. The pieces are put together in the order in
    which the handlers call them, up to `StepKeeps`, which covers every event. The one exception to the order
    of positions is the view timer, whose condition is `ViewWraps`. */
module EngineSteps {
  import opened Words
  import opened ConsensusTypes
  import opened ValidatorSets
  import opened EngineModel
  import opened EngineInvariants
  import DS = DoubleSigns
  import F = Finality

  /** What each handler lemma concludes. */
  ghost predicate Kept(e: Engine, e': Engine, known: set<Signature>) {
    Inv(e', known) && Grows(e, e') && CommitsFinalize(e, e')
  }

  ghost predicate LedgerSame(e: Engine, e': Engine) {
    e'.ledger == e.ledger && e'.finality == e.finality && e'.core.height == e.core.height
  }

  lemma SameKeeps(e: Engine, known: set<Signature>)
    requires Inv(e, known)
    ensures Kept(e, e, known)
  {
    hide Inv;
  }

  lemma LogGrowthKeepsSigned(e: Engine, known: set<Signature>, sig: Signature)
    requires Inv(e, known)
    ensures Inv(e.(log := e.log.(made := e.log.made + {sig})), known)
  {
    var s, t := known + e.log.made, known + (e.log.made + {sig});
    if e.log.allSigned {
      SignedMonotone(e.self, e.book, s, t);
    }
  }

  lemma SignOwnKeeps(e: Engine, at: Position, phase: Phase, hash: Bytes, known: set<Signature>)
    requires Inv(e, known)
    ensures Inv(SignOwn(e, at, phase, hash), known) && Grows(e, SignOwn(e, at, phase, hash))
    ensures LedgerSame(e, SignOwn(e, at, phase, hash))
  {
    var sig := Signature(e.self.local, VoteData(e.self.chainId, at, phase, hash));
    var ballot := Ballot(phase, hash);
    var e1 := e.(log := e.log.(made := e.log.made + {sig}));
    LogGrowthKeepsSigned(e, known, sig);
    if e.log.allSigned {
      RecordKeepsSigned(e.self, e.book, known + e1.log.made, at, ballot, e.self.local, sig);
      var recorded := Record(e.book, at, ballot, e.self.local, Some(sig));
      MineKeepsSigned(e.self, recorded, known + e1.log.made, at, phase, hash);
    }
    if !e.detector.trimmed {
      RecordOwnKeepsAgreement(e.self.local, e.book, e.detector, at, ballot, Some(sig));
      var recorded := Record(e.book, at, ballot, e.self.local, Some(sig));
      MineKeepsAgreement(e.self.local, recorded, e.detector, at, phase, hash);
    }
  }

  lemma UpdateViewKeeps(e: Engine, view: U64, known: set<Signature>)
    requires Inv(e, known)
    ensures Inv(UpdateView(e, view), known)
    ensures Accrues(e, UpdateView(e, view)) && (view >= e.core.view ==> Grows(e, UpdateView(e, view)))
    ensures LedgerSame(e, UpdateView(e, view))
  {
    ClearedIsSigned(e.self, UpdateView(e, view).book, known + e.log.made);
  }

  lemma PunishKeeps(e: Engine, validator: Bytes, ans: Answers, known: set<Signature>)
    requires Inv(e, known)
    ensures Inv(Punish(e, validator, ans), known) && Grows(e, Punish(e, validator, ans))
    ensures LedgerSame(e, Punish(e, validator, ans))
  {
    RemovedConsistent(e.vset, validator);
  }

  lemma {:induction false} AddressesAre(vals: seq<Validator>)
    ensures |Addresses(vals)| == |vals|
    ensures forall i :: 0 <= i < |vals| ==> Addresses(vals)[i] == vals[i].address
  {
    if vals != [] {
      AddressesAre(vals[1..]);
    }
  }

  /** Finalizing the height above the chain makes it the last finalized height. */
  lemma FinalizedKeepsFinality(e: Engine, hash: Bytes, height: U64, ans: Answers)
    requires FinalityBelow(e.finality, e.ledger.chain) && Consistent(e.vset) && |e.vset.validators| > 0
    requires height == e.ledger.chain + 1
    ensures var f := Finalized(e, hash, height, ans);
            f.finality.lastFinalized == height && FinalityBelow(f.finality, height)
  {
    var addrs := Addresses(e.vset.validators);
    AddressesAre(e.vset.validators);
    StrictMeansDistinct(e.vset.validators);
    F.CheckpointFinalizes(e.finality, height, hash, addrs);
    var g := Finalized(e, hash, height, ans).finality;
    forall i | 0 <= i < |g.checkpoints| ensures g.checkpoints[i].height <= height {
      if i < |e.finality.checkpoints| {
        assert g.checkpoints[..|e.finality.checkpoints|][i] == e.finality.checkpoints[i];
      }
    }
  }

  lemma DecisionsExtend(e: Engine, hash: Bytes, known: set<Signature>)
    requires Inv(e, known) && HasQuorum(e, At(e), Commit, hash) && e.core.height == e.ledger.chain + 1
    ensures var d := Decision(At(e), hash, Voters(e.book, At(e), Ballot(Commit, hash)), e.vset);
            && Decisions(e.log.decisions + [d], e.core.height)
            && (e.log.allSigned ==> VotersSigned(e.self, d, known + e.log.made))
  {
    if e.log.allSigned {
      assert BallotSigned(e.self, e.book, known + e.log.made, At(e), Ballot(Commit, hash));
    }
  }

  /** A successful commit inside `decide`, with the step to the next height. */
  lemma CommittedKeeps(e: Engine, hash: Bytes, ans: Answers, known: set<Signature>)
    requires Inv(e, known) && LegalAnswers(ans) && HasQuorum(e, At(e), Commit, hash)
    requires CommitSucceeds(e, e.core.height, ans)
    ensures Kept(e, NextHeight(Finalized(e, hash, e.core.height, ans)), known)
  {
    hide HasPath;
    OneMoreCommit(e.ledger.commits, CommitEntry(e.core.height, ByDecide));
    SuperMajorityNotEmpty(e.vset, Voters(e.book, At(e), Ballot(Commit, hash)));
    FinalizedKeepsFinality(e, hash, e.core.height, ans);
    DecisionsExtend(e, hash, known);
    ClearedIsSigned(e.self, VoteBook(map[], []), known + e.log.made);
  }

  /** A commit call that reports an error, whether or not it added the block. */
  lemma CommitFailedKeeps(e: Engine, height: U64, ans: Answers, known: set<Signature>)
    requires Inv(e, known) && (e.ledger.applying.None? || height == e.core.height)
    ensures Kept(e, CommitFailed(e, height, ans), known)
  {
    hide BookSigned, BallotSigned, VotersSigned, Agrees, Consistent, HasPath;
    OneMoreCommit(e.ledger.commits, CommitEntry(height, Unreported));
  }

  lemma DecidedPhaseKeeps(e: Engine, hash: Bytes, pending: map<U64, Bytes>, known: set<Signature>)
    requires Inv(e, known)
    ensures Kept(e, e.(core := e.core.(phase := Decided, decidedHash := hash), pending := pending), known)
  {
  }

  /** `decide` under a commit quorum. */
  lemma DecideKeeps(e: Engine, hash: Bytes, ans: Answers, known: set<Signature>)
    requires Inv(e, known) && LegalAnswers(ans) && HasQuorum(e, At(e), Commit, hash)
    ensures Kept(e, Decide(e, hash, e.core.height, ans), known)
  {
    hide Inv, Grows, SuperMajority, CommitFailed, F.VotedAll, F.Checkpointed, Addresses, Voters;
    SameKeeps(e, known);
    var height := e.core.height;
    if !LockForbids(e, hash, height) {
      var d := e.(core := e.core.(phase := Decided, decidedHash := hash), pending := e.pending - {height});
      DecidedPhaseKeeps(e, hash, e.pending - {height}, known);
      if CommitSucceeds(d, height, ans) {
        CommittedKeeps(d, hash, ans, known);
      } else {
        CommitFailedKeeps(d, height, ans, known);
      }
      GrowsTransitive(e, d, Decide(e, hash, height, ans));
    }
  }

  lemma PreparedKeeps(e: Engine, qc: QC, phase: Phase, known: set<Signature>)
    requires Inv(e, known)
    ensures Inv(e.(core := Prepared(e.core, qc).(phase := phase)), known)
    ensures Grows(e, e.(core := Prepared(e.core, qc).(phase := phase)))
  {
  }

  lemma {:induction false} AdvancePhaseKeeps(e: Engine, phase: Phase, known: set<Signature>)
    requires Inv(e, known)
    ensures Kept(e, AdvancePhase(e, phase), known)
  {
    if e.core.prepared.Some? {
      SignOwnKeeps(e.(core := e.core.(phase := phase)), At(e), phase, e.core.prepared.value.hash, known);
    }
  }

  lemma SelfCommitKeeps(e: Engine, hash: Bytes, ans: Answers, known: set<Signature>)
    requires Inv(e, known) && LegalAnswers(ans)
    ensures Kept(e, SelfCommit(e, hash, ans), known)
  {
    hide Inv, Grows, Decide, Record, RecordMine, SuperMajority;
    var s := SignOwn(e, At(e), Commit, hash);
    SignOwnKeeps(e, At(e), Commit, hash, known);
    if HasQuorum(s, At(e), Commit, hash) {
      DecideKeeps(s, hash, ans, known);
      GrowsTransitive(e, s, SelfCommit(e, hash, ans));
    }
  }

  lemma SelfPreCommitKeeps(e: Engine, hash: Bytes, ans: Answers, known: set<Signature>)
    requires Inv(e, known) && LegalAnswers(ans)
    ensures Kept(e, SelfPreCommit(e, hash, ans), known)
  {
    hide Inv, Grows, Record, RecordMine, SelfCommit, SuperMajority;
    var s := SignOwn(e, At(e), PreCommit, hash);
    SignOwnKeeps(e, At(e), PreCommit, hash, known);
    if HasQuorum(s, At(e), PreCommit, hash) {
      var s' := s.(core := s.core.(phase := Commit));
      PhaseKeeps(e, s, Commit, known);
      SelfCommitKeeps(s', hash, ans, known);
      GrowsTransitive(e, s', SelfPreCommit(e, hash, ans));
    }
  }

  lemma SelfVoteKeeps(e: Engine, hash: Bytes, ans: Answers, known: set<Signature>)
    requires Inv(e, known) && LegalAnswers(ans)
    ensures Kept(e, SelfVote(e, hash, ans), known)
  {
    hide Inv, Grows, SignOwn, FormQC, HasQuorum, SelfPreCommit, Prepared;
    var s := SignOwn(e, At(e), Prepare, hash);
    SignOwnKeeps(e, At(e), Prepare, hash, known);
    if HasQuorum(s, At(e), Prepare, hash) {
      var qc := FormQC(s, At(e), Prepare, hash);
      var s' := s.(core := Prepared(s.core, qc).(phase := PreCommit));
      PreparedKeeps(s, qc, PreCommit, known);
      GrowsTransitive(e, s, s');
      SelfPreCommitKeeps(s', hash, ans, known);
      GrowsTransitive(e, s', SelfVote(e, hash, ans));
    }
  }

  lemma DetectorStepKeeps(e: Engine, d: DS.Detector, known: set<Signature>)
    requires Inv(e, known) && DS.Extends(e.detector, d)
    ensures Inv(e.(detector := d), known) && Grows(e, e.(detector := d))
  {
    if !d.trimmed {
      DetectorGrowthKeepsAgreement(e.self.local, e.book, e.detector, d);
    }
  }

  lemma PhaseKeeps(e: Engine, e': Engine, phase: Phase, known: set<Signature>)
    requires Kept(e, e', known)
    ensures Kept(e, e'.(core := e'.core.(phase := phase)), known)
  {
  }

  lemma ProposalSignedKeeps(e: Engine, hash: Bytes, d: DS.Detector, known: set<Signature>)
    requires Inv(e, known) && DS.Extends(e.detector, d)
    ensures var sig := Signature(e.self.local, ProposalData(e.self.chainId, hash));
            var s := e.(pending := e.pending[e.core.height := hash], log := e.log.(made := e.log.made + {sig}),
                        detector := d);
            Inv(s, known) && Grows(e, s)
  {
    var sig := Signature(e.self.local, ProposalData(e.self.chainId, hash));
    LogGrowthKeepsSigned(e, known, sig);
    var s := e.(log := e.log.(made := e.log.made + {sig}));
    DetectorStepKeeps(s, d, known);
  }

  lemma ProposeBlockKeeps(e: Engine, hash: Bytes, ans: Answers, drop: set<Position>, known: set<Signature>)
    requires Inv(e, known) && LegalAnswers(ans)
    ensures Kept(e, ProposeBlock(e, hash, ans, drop), known)
  {
    hide Inv, Grows, SelfVote, Punish, DS.AfterProposal;
    var sig := Signature(e.self.local, ProposalData(e.self.chainId, hash));
    var d := DS.AfterProposal(e.detector, e.self.local, At(e), hash, drop).0;
    DS.CheckProposalKeepsVotes(e.detector, e.self.local, At(e), hash, drop);
    var checked := e.(pending := e.pending[e.core.height := hash], log := e.log.(made := e.log.made + {sig}),
                      detector := d);
    ProposalSignedKeeps(e, hash, d, known);
    ProposeCheckedKeeps(e, checked, hash, ans, known);
  }

  lemma ProposeCheckedKeeps(e: Engine, checked: Engine, hash: Bytes, ans: Answers, known: set<Signature>)
    requires LegalAnswers(ans) && Inv(checked, known) && Grows(e, checked) && LedgerSame(e, checked)
    ensures Kept(e, Punish(checked, e.self.local, ans), known)
    ensures var v := SelfVote(checked, hash, ans);
            Kept(e, v, known) && Kept(e, v.(core := v.core.(phase := Prepare)), known)
  {
    hide Inv, Grows, SelfVote, Punish;
    PunishKeeps(checked, e.self.local, ans, known);
    GrowsTransitive(e, checked, Punish(checked, e.self.local, ans));
    var v := SelfVote(checked, hash, ans);
    SelfVoteKeeps(checked, hash, ans, known);
    GrowsTransitive(e, checked, v);
    PhaseKeeps(e, v, Prepare, known);
  }

  lemma ProposeKeeps(e: Engine, ans: Answers, drop: set<Position>, known: set<Signature>)
    requires Inv(e, known) && LegalAnswers(ans)
    ensures Kept(e, Propose(e, ans, drop), known)
  {
    if Propose(e, ans, drop) != e {
      ProposeBlockKeeps(e, ans.created.value, ans, drop, known);
    }
  }

  lemma VoteForProposalKeeps(e: Engine, m: Message, known: set<Signature>)
    requires Inv(e, known)
    ensures Kept(e, VoteForProposal(e, m), known)
  {
    hide BookSigned, BallotSigned, VotersSigned, Agrees, Decisions, FinalityBelow, Consistent, Consecutive,
         HasQuorum, FormQC, SignOwn, Touch;
    SameKeeps(e, known);
    var at := Position(m.height, m.view);
    var touched := e.(book := Touch(e.book, at));
    if e.log.allSigned {
      TouchKeepsSigned(e.self, e.book, known + e.log.made, at);
    }
    if !e.detector.trimmed {
      TouchKeepsAgreement(e.self.local, e.book, e.detector, at);
    }
    if Prepare !in RegistryAt(e.book, at).mine {
      SignOwnKeeps(touched, at, Prepare, m.hash, known);
    }
  }

  lemma RelockKeeps(e: Engine, qc: Option<QC>, pending: map<U64, Bytes>, known: set<Signature>)
    requires Inv(e, known)
    ensures Kept(e, e.(core := Relocked(e.core, qc), pending := pending), known)
  {
  }

  lemma AcceptProposalKeeps(e: Engine, m: Message, ans: Answers, known: set<Signature>)
    requires Inv(e, known)
    ensures Kept(e, AcceptProposal(e, m, ans), known)
  {
    hide Inv, Grows, VoteForProposal, ValidQC;
    SameKeeps(e, known);
    if m.justify.Some? ==> ValidQC(e.vset, m.justify.value) {
      var locked := e.(core := Relocked(e.core, m.justify));
      RelockKeeps(e, m.justify, e.pending, known);
      if ans.blockValid {
        var kept := if m.height in e.pending then e.pending else e.pending[m.height := m.hash];
        var ready := locked.(pending := kept);
        RelockKeeps(e, m.justify, kept, known);
        VoteForProposalKeeps(ready, m, known);
        GrowsTransitive(e, ready, VoteForProposal(ready, m));
      }
    }
  }

  lemma HandleProposalKeeps(e: Engine, m: Message, ans: Answers, drop: set<Position>, known: set<Signature>)
    requires Inv(e, known)
    ensures Kept(e, HandleProposal(e, m, ans, drop), known)
  {
    hide Inv, Grows, AcceptProposal, Punish, DS.AfterProposal, ProposalAuthentic;
    SameKeeps(e, known);
    var at := Position(m.height, m.view);
    var d := DS.AfterProposal(e.detector, m.validator, at, m.hash, drop).0;
    var checked := e.(detector := d);
    DS.CheckProposalKeepsVotes(e.detector, m.validator, at, m.hash, drop);
    DetectorStepKeeps(e, d, known);
    PunishKeeps(checked, m.validator, ans, known);
    AcceptProposalKeeps(checked, m, ans, known);
    var r := HandleProposal(e, m, ans, drop);
    assert r == e || r == Punish(checked, m.validator, ans) || r == AcceptProposal(checked, m, ans);
    if r != e {
      GrowsTransitive(e, checked, r);
    }
  }

  lemma AfterQuorumKeeps(e: Engine, m: Message, phase: Phase, ans: Answers, known: set<Signature>)
    requires Inv(e, known) && LegalAnswers(ans) && m.height == e.core.height && m.view == e.core.view
    ensures Kept(e, AfterQuorum(e, m, phase, ans), known)
  {
    hide BookSigned, BallotSigned, VotersSigned, Agrees, Decisions, FinalityBelow, Consistent, Consecutive,
         HasQuorum, FormQC, AdvancePhase, Decide;
    SameKeeps(e, known);
    var at := Position(m.height, m.view);
    if HasQuorum(e, at, phase, m.hash) {
      match phase
      case Prepare =>
        var p := e.(core := Prepared(e.core, FormQC(e, at, phase, m.hash)));
        AdvancePhaseKeeps(p, PreCommit, known);
        GrowsTransitive(e, p, AdvancePhase(p, PreCommit));
      case PreCommit => AdvancePhaseKeeps(e, Commit, known);
      case Commit => DecideKeeps(e, m.hash, ans, known);
      case _ =>
    }
  }

  lemma TrimmedBookKeeps(e: Engine, known: set<Signature>)
    requires Inv(e, known)
    ensures Inv(e.(book := TrimVotes(e.book, e.core.height)), known)
  {
    if e.log.allSigned {
      TrimKeepsSigned(e.self, e.book, known + e.log.made, e.core.height);
    }
    if !e.detector.trimmed {
      TrimKeepsAgreement(e.self.local, e.book, e.detector, e.core.height);
    }
  }

  /** Recording a vote the detector has just remembered. Unsigned votes end the `allSigned`
      history; a signed one must carry a signature somebody made. */
  lemma RecordVoteKeeps(e: Engine, d: DS.Detector, m: Message, phase: Phase, drop: set<Position>, known: set<Signature>)
    requires Inv(e, known) && VoteAuthentic(e, m, phase) && (m.signature.Some? ==> m.signature.value in known)
    requires (d, None) == DS.AfterVote(e.detector, m.validator, Position(m.height, m.view), phase, m.hash, drop)
    ensures Inv(RecordVote(e.(detector := d), m, phase), known) && Grows(e, RecordVote(e.(detector := d), m, phase))
  {
    var at := Position(m.height, m.view);
    DS.CheckVoteRemembers(e.detector, m.validator, at, phase, m.hash, drop);
    if !d.trimmed {
      AcceptedVoteAgrees(e.self.local, e.book, e.detector, m, phase, drop);
    }
    if e.log.allSigned && m.signature.Some? {
      RecordKeepsSigned(e.self, e.book, known + e.log.made, at, Ballot(phase, m.hash), m.validator, m.signature.value);
    }
  }

  lemma AcceptVoteKeeps(e: Engine, d: DS.Detector, m: Message, phase: Phase, ans: Answers, drop: set<Position>,
                        known: set<Signature>)
    requires Inv(e, known) && LegalAnswers(ans) && m.height == e.core.height && m.view == e.core.view
    requires VoteAuthentic(e, m, phase) && (m.signature.Some? ==> m.signature.value in known)
    requires (d, None) == DS.AfterVote(e.detector, m.validator, Position(m.height, m.view), phase, m.hash, drop)
    ensures Kept(e, AcceptVote(e.(detector := d), m, phase, ans), known)
  {
    RecordVoteKeeps(e, d, m, phase, drop, known);
    CountVoteKeeps(e, RecordVote(e.(detector := d), m, phase), m, phase, ans, known);
  }

  lemma CountVoteKeeps(e: Engine, recorded: Engine, m: Message, phase: Phase, ans: Answers, known: set<Signature>)
    requires Inv(recorded, known) && Grows(e, recorded) && LedgerSame(e, recorded)
    requires LegalAnswers(ans) && m.height == recorded.core.height && m.view == recorded.core.view
    ensures var q := AfterQuorum(recorded, m, phase, ans);
            Kept(e, q.(book := TrimVotes(q.book, q.core.height)), known)
  {
    hide Inv, AfterQuorum, TrimVotes;
    var q := AfterQuorum(recorded, m, phase, ans);
    AfterQuorumKeeps(recorded, m, phase, ans, known);
    GrowsTransitive(e, recorded, q);
    TrimmedBookKeeps(q, known);
  }

  lemma HandleVoteKeeps(e: Engine, m: Message, phase: Phase, ans: Answers, drop: set<Position>, known: set<Signature>)
    requires Inv(e, known) && LegalAnswers(ans) && m.height == e.core.height && m.view == e.core.view
    requires m.signature.Some? ==> m.signature.value in known
    ensures Kept(e, HandleVote(e, m, phase, ans, drop), known)
  {
    hide Inv, Grows, AcceptVote, Punish, DS.AfterVote, VoteAuthentic;
    SameKeeps(e, known);
    if VoteAuthentic(e, m, phase) {
      var at := Position(m.height, m.view);
      var (d, conflict) := DS.AfterVote(e.detector, m.validator, at, phase, m.hash, drop);
      if conflict.Some? {
        DS.CheckVoteRemembers(e.detector, m.validator, at, phase, m.hash, drop);
        var checked := e.(detector := d);
        DetectorStepKeeps(e, d, known);
        PunishKeeps(checked, m.validator, ans, known);
        GrowsTransitive(e, checked, Punish(checked, m.validator, ans));
      } else {
        AcceptVoteKeeps(e, d, m, phase, ans, drop, known);
      }
    }
  }

  lemma PackagedKeeps(e: Engine, t: Timeouts, known: set<Signature>)
    requires Inv(e, known)
    ensures Inv(e.(timeouts := t), known) && Grows(e, e.(timeouts := t))
  {
  }

  lemma HandleTimeoutKeeps(e: Engine, m: Message, known: set<Signature>)
    requires Inv(e, known)
    ensures Kept(e, HandleTimeout(e, m), known)
  {
    if TimeoutAuthentic(e, m) {
      var recorded := e.(timeouts := WithTimeout(e, m));
      PackagedKeeps(e, recorded.timeouts, known);
      UpdateViewKeeps(recorded, m.view, known);
      GrowsTransitive(e, recorded, UpdateView(recorded, m.view));
    }
  }

  lemma HandleNewViewKeeps(e: Engine, m: Message, known: set<Signature>)
    requires Inv(e, known) && m.view >= e.core.view
    ensures Kept(e, HandleNewView(e, m), known)
  {
    hide BookSigned, BallotSigned, VotersSigned, Agrees, Decisions, FinalityBelow, Consistent, Consecutive,
         AcceptsNewView, DropBelow;
    SameKeeps(e, known);
    if AcceptsNewView(e, m) {
      var core := if m.payload.Cert? then Relocked(e.core, m.payload.tc.highQC) else e.core;
      var locked := e.(core := Relocked(core, m.justify), timeouts := DropBelow(e.timeouts, m.view));
      UpdateViewKeeps(locked, m.view, known);
      GrowsTransitive(e, locked, UpdateView(locked, m.view));
    }
  }

  lemma DispatchKeeps(e: Engine, m: Message, ans: Answers, drop: set<Position>, known: set<Signature>)
    requires Inv(e, known) && LegalAnswers(ans) && m.height == e.core.height && m.view == e.core.view
    requires m.signature.Some? ==> m.signature.value in known
    ensures Kept(e, Dispatch(e, m, ans, drop), known)
  {
    match m.kind
    case Proposal => HandleProposalKeeps(e, m, ans, drop, known);
    case VotePrepare => HandleVoteKeeps(e, m, Prepare, ans, drop, known);
    case VotePreCommit => HandleVoteKeeps(e, m, PreCommit, ans, drop, known);
    case VoteCommit => HandleVoteKeeps(e, m, Commit, ans, drop, known);
    case NewView => HandleNewViewKeeps(e, m, known);
    case _ =>
  }

  lemma HandleKeeps(e: Engine, m: Message, ans: Answers, drop: set<Position>, known: set<Signature>)
    requires Inv(e, known) && LegalAnswers(ans)
    requires m.signature.Some? ==> m.signature.value in known
    ensures Kept(e, Handle(e, m, ans, drop), known)
  {
    hide Inv, Grows, HandleTimeout, Dispatch;
    SameKeeps(e, known);
    if m.kind.BlockRequest? || m.kind.BlockResponse? || m.height != e.core.height || m.view < e.core.view {
    } else if m.kind.Timeout? {
      HandleTimeoutKeeps(e, m, known);
    } else {
      var moved := MovedTo(e, m);
      UpdateViewKeeps(e, m.view, known);
      DispatchKeeps(moved, m, ans, drop, known);
      GrowsTransitive(e, moved, Dispatch(moved, m, ans, drop));
    }
  }

  /** The condition under which the view timer could move the position backwards: the view counter
      is at its last value, so the next view wraps to zero, and that view has a timeout quorum. */
  predicate ViewWraps(e: Engine) {
    e.core.view == MAX64
    && SuperMajority(e.vset, TimeoutsFor(e.timeouts, 0).Keys + {e.self.local})
  }

  lemma OwnTimeoutKeeps(e: Engine, known: set<Signature>)
    requires Inv(e, known)
    ensures Inv(WithOwnTimeout(e), known) && Grows(e, WithOwnTimeout(e)) && LedgerSame(e, WithOwnTimeout(e))
  {
    var sig := Signature(e.self.local, TimeoutData(e.self.chainId, Position(e.core.height, Wrap(e.core.view + 1))));
    LogGrowthKeepsSigned(e, known, sig);
  }

  lemma TimerMovesKeeps(e: Engine, t: Timeouts, known: set<Signature>)
    requires Inv(e, known)
    ensures var moved := UpdateView(e.(timeouts := t), Wrap(e.core.view + 1));
            Inv(moved, known) && LedgerSame(e, moved) && Accrues(e, moved) && (e.core.view < MAX64 ==> Grows(e, moved))
  {
    var packaged := e.(timeouts := t);
    PackagedKeeps(e, t, known);
    UpdateViewKeeps(packaged, Wrap(e.core.view + 1), known);
  }

  lemma TimerQuorumKeeps(e: Engine, added: Engine, t: Timeouts, known: set<Signature>)
    requires Inv(added, known) && Grows(e, added) && LedgerSame(e, added) && added.core == e.core
    ensures var moved := UpdateView(added.(timeouts := t), Wrap(e.core.view + 1));
            Inv(moved, known) && LedgerSame(e, moved) && Accrues(e, moved) && (e.core.view < MAX64 ==> Grows(e, moved))
  {
    var moved := UpdateView(added.(timeouts := t), Wrap(e.core.view + 1));
    TimerMovesKeeps(added, t, known);
    AccruesTransitive(e, added, moved);
    if e.core.view < MAX64 {
      GrowsTransitive(e, added, moved);
    }
  }

  lemma TimerKeeps(e: Engine, known: set<Signature>)
    requires Inv(e, known)
    ensures Inv(TimerFires(e), known) && LedgerSame(e, TimerFires(e)) && Accrues(e, TimerFires(e))
    ensures !ViewWraps(e) ==> Grows(e, TimerFires(e))
  {
    hide Inv, Grows, Accrues, LedgerSame, UpdateView, Packaged;
    var added := WithOwnTimeout(e);
    OwnTimeoutKeeps(e, known);
    TimerQuorumKeeps(e, added, Packaged(added.timeouts, e.core.view, Wrap(e.core.view + 1)), known);
  }

  /** A timer step keeps the position order if and only if the view does not wrap. */
  lemma TimerOrder(e: Engine)
    ensures NotBefore(e.core, TimerFires(e).core) <==> !ViewWraps(e)
  {
    assert Wrap(e.core.view + 1) == (if e.core.view == MAX64 then 0 else e.core.view + 1);
  }

  lemma ApplyKeeps(e: Engine, height: U64, ans: Answers, known: set<Signature>)
    requires Inv(e, known)
    ensures e.ledger.applying.None? ==> Kept(e, ApplyCommit(e, height, ans), known)
    ensures e.ledger.applying.Some? ==> Kept(e, ApplyUpdate(e, e.ledger.applying.value), known)
  {
    hide HasPath;
    if e.ledger.applying.None? && !CommitSucceeds(e, height, ans) {
      CommitFailedKeeps(e, height, ans, known);
    }
    if e.ledger.applying.None? && CommitSucceeds(e, height, ans) {
      OneMoreCommit(e.ledger.commits, CommitEntry(height, ByApply));
      var e' := ApplyCommit(e, height, ans);
      assert Decisions(e'.log.decisions, e'.ledger.chain);
    }
  }

  lemma StepKeeps(e: Engine, ev: Event, known: set<Signature>)
    requires Inv(e, known) && Enabled(e, ev)
    requires ev.Deliver? && ev.m.signature.Some? ==> ev.m.signature.value in known
    ensures Inv(Step(e, ev), known) && CommitsFinalize(e, Step(e, ev)) && Accrues(e, Step(e, ev))
    ensures (ev.Timer? ==> !ViewWraps(e)) ==> Grows(e, Step(e, ev))
  {
    match ev
    case Deliver(m, ans, drop) => HandleKeeps(e, m, ans, drop, known);
    case ProposeNow(ans, drop) => ProposeKeeps(e, ans, drop, known);
    case Timer => TimerKeeps(e, known);
    case CommitSynced(height, ans) => ApplyKeeps(e, height, ans, known);
    case FinishSynced => ApplyKeeps(e, 0, Answers(0, false, None, false, Refused, false, None), known);
  }
}
