/** Who the double-sign detector may accuse. A vote without a signature skips verification and still reaches
    the detector, so a forged vote and one real vote make a conflict, and a slash removes the validator.

    The detector is read as a memory of votes: each step adds the vote it puts before the detector, or reports
    it. Accusations are then fair exactly when that memory only ever takes signed votes. */
module Accusations {
  import opened Words
  import opened ConsensusTypes
  import opened ValidatorSets
  import opened EngineModel
  import opened EngineInvariants
  import opened EngineSteps
  import opened EngineRuns
  import opened CommitVotes
  import DS = DoubleSigns

  datatype Vote = Vote(validator: Bytes, at: Position, phase: Phase, hash: Bytes)

  /** The validator's key has signed the vote. */
  predicate SignedVote(signed: set<Signature>, chainId: U64, v: Vote) {
    Signature(v.validator, VoteData(chainId, v.at, v.phase, v.hash)) in signed
  }

  function VotePhase(k: Kind): Option<Phase> {
    match k
    case VotePrepare => Some(Prepare)
    case VotePreCommit => Some(PreCommit)
    case VoteCommit => Some(Commit)
    case _ => None
  }

  /** The vote an event puts before the detector, read off the state before it. */
  function Takes(e: Engine, ev: Event): Option<Vote> {
    match ev
    case Deliver(m, ans, drop) =>
      if VotePhase(m.kind).Some? && m.height == e.core.height && m.view >= e.core.view
         && VoteAuthentic(MovedTo(e, m), m, VotePhase(m.kind).value)
      then Some(Vote(m.validator, Position(m.height, m.view), VotePhase(m.kind).value, m.hash)) else None
    case _ => None
  }

  /** The hash remembered against a vote, if the detector reports it. */
  function Contradicts(e: Engine, v: Vote): Option<Bytes> {
    var seen := DS.Remembered(e.detector, v.validator, v.at, v.phase);
    if seen.Some? && seen.value != v.hash then seen else None
  }

  /** If the event makes the detector accuse somebody over votes, the key signed both of them. */
  predicate Fair(signed: set<Signature>, e: Engine, ev: Event) {
    var taken := Takes(e, ev);
    taken.Some? && Contradicts(e, taken.value).Some? ==>
      && SignedVote(signed, e.self.chainId, taken.value)
      && SignedVote(signed, e.self.chainId, taken.value.(hash := Contradicts(e, taken.value).value))
  }

  predicate TakesSigned(signed: set<Signature>, e: Engine, ev: Event) {
    Takes(e, ev).Some? ==> SignedVote(signed, e.self.chainId, Takes(e, ev).value)
  }

  /** Every vote the detector remembers was signed. */
  ghost predicate MemorySigned(signed: set<Signature>, e: Engine) {
    forall v: Vote :: DS.Remembered(e.detector, v.validator, v.at, v.phase) == Some(v.hash) ==>
      SignedVote(signed, e.self.chainId, v)
  }

  // ---------------------------------------------------------------- the detector of one step

  /** The detector after an event that puts a vote before it remembers that vote, unless it contradicts one
      remembered before; any other event leaves the remembered votes alone. */
  ghost predicate TookIn(e: Engine, e': Engine, taken: Option<Vote>) {
    forall v: Vote :: DS.Remembered(e'.detector, v.validator, v.at, v.phase) == Some(v.hash) <==>
      || DS.Remembered(e.detector, v.validator, v.at, v.phase) == Some(v.hash)
      || (taken == Some(v) && Contradicts(e, v).None?)
  }

  /** A vote conflict that appears is about the vote taken and the one remembered against it. */
  ghost predicate Reports(e: Engine, e': Engine, taken: Option<Vote>) {
    forall x :: x in e'.detector.evidence && x.kind == DS.VoteTwice ==>
      || x in e.detector.evidence
      || (taken.Some? && Contradicts(e, taken.value).Some?
          && x == DS.Evidence(DS.VoteTwice, taken.value.validator, taken.value.at, Contradicts(e, taken.value).value,
                              taken.value.hash))
  }

  lemma DecideKeepsDetector(e: Engine, hash: Bytes, height: U64, ans: Answers)
    ensures Decide(e, hash, height, ans).detector == e.detector
  {
  }

  lemma SelfVoteKeepsDetector(e: Engine, hash: Bytes, ans: Answers)
    ensures SelfVote(e, hash, ans).detector == e.detector
  {
    hide SuperMajority, FormQC, Record, RecordMine, Voters, Decide, VoteData;
    var s := SignOwn(e, At(e), Prepare, hash);
    var p := s.(core := Prepared(s.core, FormQC(s, At(e), Prepare, hash)).(phase := PreCommit));
    var s' := SignOwn(p, At(p), PreCommit, hash);
    var c := s'.(core := s'.core.(phase := Commit));
    DecideKeepsDetector(SignOwn(c, At(c), Commit, hash), hash, At(c).height, ans);
  }

  lemma VoteTakenIn(e: Engine, m: Message, phase: Phase, ans: Answers, drop: set<Position>)
    requires VoteAuthentic(e, m, phase) && !HandleVote(e, m, phase, ans, drop).detector.trimmed
    ensures var taken := Some(Vote(m.validator, Position(m.height, m.view), phase, m.hash));
            var e' := HandleVote(e, m, phase, ans, drop);
            TookIn(e, e', taken) && Reports(e, e', taken)
  {
    hide DS.AfterVote, DS.Remembered, VoteAuthentic, SuperMajority, FormQC, Record, Decide, AdvancePhase, Voters,
         TrimVotes, Removed;
    var at := Position(m.height, m.view);
    var d := DS.AfterVote(e.detector, m.validator, at, phase, m.hash, drop).0;
    var r := RecordVote(e.(detector := d), m, phase);
    DS.CheckVoteRemembers(e.detector, m.validator, at, phase, m.hash, drop);
    VoteEvidence(e.detector, m.validator, at, phase, m.hash, drop);
    DecideKeepsDetector(r, m.hash, m.height, ans);
    AdvanceKeepsDetector(r, Commit);
    AdvanceKeepsDetector(r.(core := Prepared(r.core, FormQC(r, at, phase, m.hash))), PreCommit);
    assert HandleVote(e, m, phase, ans, drop).detector == d;
  }

  lemma VoteEvidence(d: DS.Detector, v: Bytes, at: Position, phase: Phase, hash: Bytes, drop: set<Position>)
    ensures var r := DS.AfterVote(d, v, at, phase, hash, drop);
            r.1.Some? ==> r.1.value.kind == DS.VoteTwice && r.1.value.validator == v && r.1.value.at == at
                          && r.1.value.second == hash && DS.Remembered(d, v, at, phase) == Some(r.1.value.first)
                          && r.0.evidence == d.evidence + [r.1.value]
  {
  }

  lemma AdvanceKeepsDetector(e: Engine, phase: Phase)
    ensures AdvancePhase(e, phase).detector == e.detector
  {
  }

  /** Checking a proposal, delivered or own, leaves the remembered votes alone. */
  lemma ProposalTakesNothing(e: Engine, e': Engine, p: Bytes, at: Position, hash: Bytes, drop: set<Position>)
    requires e'.detector == e.detector || e'.detector == DS.AfterProposal(e.detector, p, at, hash, drop).0
    requires !e'.detector.trimmed
    ensures TookIn(e, e', None) && Reports(e, e', None)
  {
    DS.CheckProposalKeepsVotes(e.detector, p, at, hash, drop);
    ProposalEvidence(e.detector, p, at, hash, drop);
    hide DS.AfterProposal, DS.Remembered;
  }

  lemma ProposalEvidence(d: DS.Detector, p: Bytes, at: Position, hash: Bytes, drop: set<Position>)
    ensures var d' := DS.AfterProposal(d, p, at, hash, drop).0;
            forall x :: x in d'.evidence && x.kind == DS.VoteTwice ==> x in d.evidence
  {
  }

  lemma HandleProposalDetector(e: Engine, m: Message, ans: Answers, drop: set<Position>)
    ensures var d := HandleProposal(e, m, ans, drop).detector;
            d == e.detector
            || d == DS.AfterProposal(e.detector, m.validator, Position(m.height, m.view), m.hash, drop).0
  {
    hide DS.AfterProposal, FormQC, HasQuorum, Touch, Record, RecordMine, ProposalAuthentic, ValidQC, Removed;
  }

  lemma ProposeDetector(e: Engine, ans: Answers, drop: set<Position>)
    ensures var d := Propose(e, ans, drop).detector;
            d == e.detector
            || (ans.created.Some?
                && d == DS.AfterProposal(e.detector, e.self.local, At(e), ans.created.value, drop).0)
  {
    hide DS.AfterProposal, SelfVote, ProposalData, Leader, Removed;
    if Proposes(e, ans) {
      var hash := ans.created.value;
      var sig := Signature(e.self.local, ProposalData(e.self.chainId, hash));
      var s := e.(pending := e.pending[e.core.height := hash], log := e.log.(made := e.log.made + {sig}));
      var d := DS.AfterProposal(s.detector, e.self.local, At(e), hash, drop).0;
      SelfVoteKeepsDetector(s.(detector := d), hash, ans);
    }
  }

  lemma HandleTakes(e: Engine, m: Message, ans: Answers, drop: set<Position>)
    requires !Handle(e, m, ans, drop).detector.trimmed
    ensures TookIn(e, Handle(e, m, ans, drop), Takes(e, Deliver(m, ans, drop)))
            && Reports(e, Handle(e, m, ans, drop), Takes(e, Deliver(m, ans, drop)))
  {
    hide HandleVote, HandleProposal, HandleTimeout, AcceptsNewView, VoteAuthentic, TookIn, Reports, DS.AfterProposal;
    var e' := Handle(e, m, ans, drop);
    var at, moved := Position(m.height, m.view), MovedTo(e, m);
    if m.kind.BlockRequest? || m.kind.BlockResponse? || m.height != e.core.height || m.view < e.core.view {
      ProposalTakesNothing(e, e', [], at, [], {});
    } else if VotePhase(m.kind).Some? && VoteAuthentic(moved, m, VotePhase(m.kind).value) {
      VoteTakenIn(moved, m, VotePhase(m.kind).value, ans, drop);
      SameDetector(e, moved, e', Takes(e, Deliver(m, ans, drop)));
    } else if VotePhase(m.kind).Some? {
      RefusedVote(moved, m, VotePhase(m.kind).value, ans, drop);
      ProposalTakesNothing(e, e', [], at, [], {});
    } else if m.kind.Proposal? {
      HandleProposalDetector(moved, m, ans, drop);
      ProposalTakesNothing(e, e', m.validator, at, m.hash, drop);
    } else {
      QuietMessage(e, m, ans, drop);
      ProposalTakesNothing(e, e', [], at, [], {});
    }
  }

  lemma SameDetector(e: Engine, moved: Engine, e': Engine, taken: Option<Vote>)
    requires moved.detector == e.detector && TookIn(moved, e', taken) && Reports(moved, e', taken)
    ensures TookIn(e, e', taken) && Reports(e, e', taken)
  {
  }

  lemma RefusedVote(e: Engine, m: Message, phase: Phase, ans: Answers, drop: set<Position>)
    requires !VoteAuthentic(e, m, phase)
    ensures HandleVote(e, m, phase, ans, drop) == e
  {
    hide VoteAuthentic;
  }

  lemma QuietMessage(e: Engine, m: Message, ans: Answers, drop: set<Position>)
    requires VotePhase(m.kind).None? && !m.kind.Proposal?
    ensures Handle(e, m, ans, drop).detector == e.detector
  {
    hide AcceptsNewView, TimeoutAuthentic, WithTimeout;
  }

  /** What every step does to the remembered votes and the vote conflicts. */
  lemma {:induction false} StepTakes(e: Engine, ev: Event)
    requires Enabled(e, ev) && !Step(e, ev).detector.trimmed
    ensures TookIn(e, Step(e, ev), Takes(e, ev)) && Reports(e, Step(e, ev), Takes(e, ev))
    ensures Step(e, ev).self == e.self
  {
    hide Handle, Propose, TookIn, Reports, CommitsBy, CommitSigned, SuperMajority, DS.AfterProposal;
    StepCommits(e, ev);
    match ev
    case Deliver(m, ans, drop) => HandleTakes(e, m, ans, drop);
    case ProposeNow(ans, drop) =>
      var hash := if ans.created.Some? then ans.created.value else [];
      ProposeDetector(e, ans, drop);
      ProposalTakesNothing(e, Step(e, ev), e.self.local, At(e), hash, drop);
    case _ => ProposalTakesNothing(e, Step(e, ev), [], At(e), [], {});
  }

  // ---------------------------------------------------------------- runs

  /** One step: memory stays signed and the accusation, if any, is fair exactly when memory was signed and the
      vote put before the detector is. */
  lemma StepFair(signed: set<Signature>, e: Engine, ev: Event)
    requires Enabled(e, ev) && !Step(e, ev).detector.trimmed
    ensures MemorySigned(signed, Step(e, ev)) && Fair(signed, e, ev)
       <==> MemorySigned(signed, e) && TakesSigned(signed, e, ev)
  {
    hide Step, Enabled, Takes, SignedVote, DS.Remembered;
    StepTakes(e, ev);
    var e', taken := Step(e, ev), Takes(e, ev);
    if taken.Some? {
      var v := taken.value;
      var seen := Contradicts(e, v);
      assert seen.Some? ==> DS.Remembered(e.detector, v.validator, v.at, v.phase) == Some(seen.value);
    }
    SameChain(signed, e, e');
  }

  lemma SameChain(signed: set<Signature>, e: Engine, e': Engine)
    requires e'.self == e.self
    ensures forall v :: SignedVote(signed, e'.self.chainId, v) == SignedVote(signed, e.self.chainId, v)
  {
  }

  ghost predicate AlwaysFair(signed: set<Signature>, e: Engine, evs: seq<Event>)
    requires CanRun(e, evs)
  {
    evs == []
    || (AlwaysFair(signed, e, evs[..|evs| - 1]) && Fair(signed, Run(e, evs[..|evs| - 1]), evs[|evs| - 1]))
  }

  ghost predicate AllTakenSigned(signed: set<Signature>, e: Engine, evs: seq<Event>)
    requires CanRun(e, evs)
  {
    evs == []
    || (&& AllTakenSigned(signed, e, evs[..|evs| - 1])
        && TakesSigned(signed, Run(e, evs[..|evs| - 1]), evs[|evs| - 1]))
  }

  /** Exactly when the detector is fair: over a run that never trimmed its history, and for any set of
      signatures, every accusation over votes names a key that signed both, and every remembered vote was
      signed, if and only if every vote put before the detector was signed. */
  lemma {:induction false} FairIff(signed: set<Signature>, e: Engine, evs: seq<Event>)
    requires FreshStart(e) && CanRun(e, evs) && !Run(e, evs).detector.trimmed
    ensures AlwaysFair(signed, e, evs) && MemorySigned(signed, Run(e, evs)) <==> AllTakenSigned(signed, e, evs)
  {
    hide Step, Enabled, Fair, TakesSigned, MemorySigned, CommitsFinalize, Inv;
    if evs == [] {
      NothingRemembered(signed, e);
    } else {
      LastStep(e, evs);
      FairIff(signed, e, evs[..|evs| - 1]);
      StepFair(signed, Run(e, evs[..|evs| - 1]), evs[|evs| - 1]);
    }
  }

  lemma NothingRemembered(signed: set<Signature>, e: Engine)
    requires FreshStart(e)
    ensures MemorySigned(signed, e) && e.detector.evidence == []
  {
  }

  /** A vote conflict whose two votes the accused key signed, in one phase. */
  ghost predicate Deserved(signed: set<Signature>, chainId: U64, x: DS.Evidence) {
    exists p: Phase ::
      SignedVote(signed, chainId, Vote(x.validator, x.at, p, x.first))
      && SignedVote(signed, chainId, Vote(x.validator, x.at, p, x.second))
  }

  /** Hence, if every vote put before the detector was signed, every vote conflict on record is deserved. */
  lemma {:induction false} ConflictsDeserved(signed: set<Signature>, e: Engine, evs: seq<Event>, x: DS.Evidence)
    requires FreshStart(e) && CanRun(e, evs) && !Run(e, evs).detector.trimmed && AllTakenSigned(signed, e, evs)
    requires x in Run(e, evs).detector.evidence && x.kind == DS.VoteTwice
    ensures Deserved(signed, e.self.chainId, x)
  {
    hide Step, Enabled, TakesSigned, MemorySigned, CommitsFinalize, Inv, SignedVote, TookIn, DS.Remembered;
    if evs == [] {
      NothingRemembered(signed, e);
    } else {
      var front, ev := evs[..|evs| - 1], evs[|evs| - 1];
      LastStep(e, evs);
      RunKeeps(e, front);
      FairIff(signed, e, evs);
      StepTakes(Run(e, front), ev);
      if x in Run(e, front).detector.evidence {
        ConflictsDeserved(signed, e, front, x);
      } else {
        assert Fair(signed, Run(e, front), ev);
      }
    }
  }

  // ---------------------------------------------------------------- a forged vote

  function PrepareVote(v: Bytes, hash: Bytes, sig: Option<Signature>): Message {
    Message(VotePrepare, 1, 0, hash, v, sig, None, NoPayload)
  }

  function ForgedThenReal(self: Self, v: Bytes, forged: Bytes, real': Bytes, ans: Answers): seq<Event> {
    var sig := Signature(v, VoteData(self.chainId, Position(1, 0), Prepare, real'));
    [Deliver(PrepareVote(v, forged, None), ans, {}), Deliver(PrepareVote(v, real', Some(sig)), ans, {})]
  }

  lemma FirstPrepareVote(e: Engine, v: Bytes, hash: Bytes, ans: Answers)
    requires e.core.height == 1 && e.core.view == 0 && e.detector == DS.EMPTY
    ensures var e' := Handle(e, PrepareVote(v, hash, None), ans, {});
            && e'.core.height == 1 && e'.core.view == 0 && e'.vset == e.vset && e'.self == e.self
            && e'.detector == DS.AfterVote(DS.EMPTY, v, Position(1, 0), Prepare, hash, {}).0
  {
    hide SuperMajority, Voters, Cached, Record, RecordMine, TrimVotes, VoteData;
    assert DS.EMPTY.history[Position(1, 0) := DS.SignRecord([], [], map[])].Keys == {Position(1, 0)};
  }

  lemma SecondPrepareVote(e: Engine, v: Bytes, forged: Bytes, hash: Bytes, ans: Answers)
    requires e.core.height == 1 && e.core.view == 0 && Has(e.vset, v) && forged != hash && ans.slashed
    requires e.detector == DS.AfterVote(DS.EMPTY, v, Position(1, 0), Prepare, forged, {}).0
    ensures var sig := Signature(v, VoteData(e.self.chainId, Position(1, 0), Prepare, hash));
            var e' := Handle(e, PrepareVote(v, hash, Some(sig)), ans, {});
            && e'.vset == Removed(e.vset, v)
            && e'.detector.evidence == [DS.Evidence(DS.VoteTwice, v, Position(1, 0), forged, hash)]
  {
    hide VoteData, Removed, AcceptVote;
    var opened' := DS.EMPTY.history[Position(1, 0) := DS.SignRecord([], [], map[])];
    assert opened'.Keys == {Position(1, 0)} && |opened'| == |opened'.Keys|;
    assert Position(1, 0) in e.detector.history;
  }

  /** The failing input, for every set, every member and every two hashes: an unsigned vote in the member's
      name and the one vote it signed make a conflict on record, and the slash removes the member. */
  lemma {:induction false} ForgedVoteRemoves(self: Self, vs: VSet, v: Bytes, forged: Bytes, real': Bytes, ans: Answers)
    requires Consistent(vs) && Has(vs, v) && forged != real' && ans.slashed && ans.rotation.None?
    ensures var e := Started(NewEngine(self, vs, 0), 1);
            var evs := ForgedThenReal(self, v, forged, real', ans);
            && FreshStart(e) && CanRun(e, evs)
            && Signatures(evs) == {Signature(v, VoteData(self.chainId, Position(1, 0), Prepare, real'))}
            && Run(e, evs).detector.evidence == [DS.Evidence(DS.VoteTwice, v, Position(1, 0), forged, real')]
            && !Has(Run(e, evs).vset, v)
  {
    hide Handle, Has, VoteData, Removed, Consistent;
    var e := Started(NewEngine(self, vs, 0), 1);
    var evs := ForgedThenReal(self, v, forged, real', ans);
    var first := Handle(e, evs[0].m, ans, {});
    FirstPrepareVote(e, v, forged, ans);
    SecondPrepareVote(first, v, forged, real', ans);
    RemovedIsGone(vs, v);
    assert evs[..1][..0] == [] && evs[..1][0] == evs[0] && evs[..2] == evs;
    assert CanRun(e, evs[..1]) && Run(e, evs[..1]) == first;
    assert CanRun(e, evs) && Run(e, evs) == Handle(first, evs[1].m, ans, {});
    assert evs[1] in evs;
  }

  lemma RemovedIsGone(vs: VSet, v: Bytes)
    requires Consistent(vs)
    ensures !Has(Removed(vs, v), v)
  {
    if Has(vs, v) {
      WithoutSorted(vs.validators, v);
    }
  }
}
