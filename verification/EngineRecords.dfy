/** The registry and the pending blocks: which votes an event counts, and which block it keeps for a height.

    As in `EngineEffects`, the votes an event enters are read off the message and the state before it: the message's
    own vote if it stands, and the local votes that follow it or a quorum. */
module EngineRecords {
  import opened Words
  import opened HexText
  import opened ConsensusTypes
  import opened ValidatorSets
  import opened EngineModel
  import opened EngineInvariants
  import opened EngineDeeds
  import opened EngineEffects
  import DS = DoubleSigns

  // ---------------------------------------------------------------- votes counted

  datatype Cast = Cast(ballot: Ballot, voter: Bytes)

  /** A ballot has these voters: the local vote that follows its quorum. */
  function CastsAfter(e: Engine, phase: Phase, hash: Bytes, voters: set<Bytes>): set<Cast> {
    if !SuperMajority(e.vset, voters) then {}
    else
      match phase
      case Prepare => {Cast(Ballot(PreCommit, hash), e.self.local)}
      case PreCommit =>
        if e.core.prepared.None? then {}
        else {Cast(Ballot(Commit, e.core.prepared.value.hash), e.self.local)}
      case _ => {}
  }

  function VoteCasts(e: Engine, m: Message, phase: Phase, drop: set<Position>): set<Cast> {
    if !VoteStands(e, m, phase) || VoteConflict(e, m, phase, drop).Some? then {}
    else
      {Cast(Ballot(phase, m.hash), m.validator)} + CastsAfter(e, phase, m.hash, With(e, phase, m.hash, m.validator))
  }

  function ProposeCasts(e: Engine, ans: Answers, drop: set<Position>): set<Cast> {
    if !MayPropose(e, ans) || ProposalConflict(e, e.self.local, ans.created.value, drop).Some? then {}
    else
      var hash, n := ans.created.value, Carries(e, ans.created.value);
      {Cast(Ballot(Prepare, hash), e.self.local)}
      + (if n >= 1 then {Cast(Ballot(PreCommit, hash), e.self.local)} else {})
      + (if n >= 2 then {Cast(Ballot(Commit, hash), e.self.local)} else {})
  }

  /** The votes an event enters into the registry. */
  function CastsBy(e: Engine, ev: Event): set<Cast> {
    match ev
    case Deliver(m, ans, drop) =>
      if !Reaches(e, m) then {}
      else
        var a := Arrived(e, m);
        (match m.kind
         case Proposal => if Endorsed(a, m, ans, drop) then {Cast(Ballot(Prepare, m.hash), e.self.local)} else {}
         case VotePrepare => VoteCasts(a, m, Prepare, drop)
         case VotePreCommit => VoteCasts(a, m, PreCommit, drop)
         case VoteCommit => VoteCasts(a, m, Commit, drop)
         case _ => {})
    case ProposeNow(ans, drop) => ProposeCasts(e, ans, drop)
    case _ => {}
  }

  /** The registry of the position counts the votes of before and these. */
  ghost predicate Counts(e: Engine, e': Engine, casts: set<Cast>) {
    forall ballot, who ::
      who in Voters(e'.book, At(e), ballot) <==> who in Voters(e.book, At(e), ballot) || Cast(ballot, who) in casts
  }

  lemma CountsInTurn(a: Engine, b: Engine, c: Engine, cs: set<Cast>, ds: set<Cast>)
    requires At(a) == At(b) && Counts(a, b, cs) && Counts(b, c, ds)
    ensures Counts(a, c, cs + ds)
    ensures cs == {} ==> Counts(a, c, ds)
    ensures ds == {} ==> Counts(a, c, cs)
  {
    hide Voters;
    assert cs == {} ==> cs + ds == ds;
    assert ds == {} ==> cs + ds == cs;
  }

  lemma SameBookCounts(e: Engine, e': Engine)
    requires e'.book == e.book
    ensures Counts(e, e', {})
  {
  }

  lemma SignOwnCounts(e: Engine, phase: Phase, hash: Bytes)
    ensures Counts(e, SignOwn(e, At(e), phase, hash), {Cast(Ballot(phase, hash), e.self.local)})
    ensures SignOwn(e, At(e), phase, hash).core == e.core && SignOwn(e, At(e), phase, hash).vset == e.vset
    ensures SignOwn(e, At(e), phase, hash).self == e.self
  {
    hide Voters, Record, RecordMine, Cached;
    var e' := SignOwn(e, At(e), phase, hash);
    var sig := OwnVote(e, phase, hash);
    var b := Record(e.book, At(e), Ballot(phase, hash), e.self.local, Some(sig));
    forall ballot, who
      ensures who in Voters(e'.book, At(e), ballot)
         <==> who in Voters(e.book, At(e), ballot) || Cast(ballot, who) in {Cast(Ballot(phase, hash), e.self.local)} {
      RecordedVoters(e.book, At(e), Ballot(phase, hash), e.self.local, Some(sig), At(e), ballot);
      MineKeepsVoters(b, At(e), phase, hash, At(e), ballot);
    }
  }

  lemma TouchCounts(e: Engine)
    ensures Counts(e, e.(book := Touch(e.book, At(e))), {})
  {
    hide Voters, Touch;
    var e' := e.(book := Touch(e.book, At(e)));
    forall ballot, who ensures who in Voters(e'.book, At(e), ballot) <==> who in Voters(e.book, At(e), ballot) {
      TouchKeepsVoters(e.book, At(e), At(e), ballot);
    }
  }

  /** A vote is recorded with its sender. */
  lemma RecordCounts(e: Engine, m: Message, phase: Phase)
    requires At(e) == Position(m.height, m.view)
    ensures Counts(e, RecordVote(e, m, phase), {Cast(Ballot(phase, m.hash), m.validator)})
  {
    hide Voters, Record;
    var e' := RecordVote(e, m, phase);
    forall ballot, who
      ensures who in Voters(e'.book, At(e), ballot)
         <==> who in Voters(e.book, At(e), ballot) || Cast(ballot, who) in {Cast(Ballot(phase, m.hash), m.validator)} {
      RecordedVoters(e.book, At(e), Ballot(phase, m.hash), m.validator, m.signature, At(e), ballot);
    }
  }

  /** Deciding leaves the registry, or empties it and brings the next height. */
  lemma DecideCounts(e: Engine, hash: Bytes, ans: Answers)
    ensures var d := Decide(e, hash, e.core.height, ans);
            At(d) == At(e) ==> Counts(e, d, {})
  {
    hide Voters, Removed;
    var d := Decide(e, hash, e.core.height, ans);
    if d.book == e.book {
      SameBookCounts(e, d);
    } else {
      assert d.core.height == Wrap(e.core.height + 1);
    }
  }

  lemma AfterQuorumCounts(e: Engine, m: Message, phase: Phase, ans: Answers)
    requires At(e) == Position(m.height, m.view)
    ensures var q := AfterQuorum(e, m, phase, ans);
            At(q) == At(e) ==>
              Counts(e, q, CastsAfter(e, phase, m.hash, Voters(e.book, At(e), Ballot(phase, m.hash))))
  {
    hide Counts, SuperMajority, Voters, SignOwn, Decide, ByText, Cached;
    SameBookCounts(e, e);
    var q := AfterQuorum(e, m, phase, ans);
    if HasQuorum(e, At(e), phase, m.hash) {
      match phase
      case Prepare =>
        var p := e.(core := Prepared(e.core, FormQC(e, At(e), phase, m.hash)).(phase := PreCommit));
        SameBookCounts(e, p);
        SignOwnCounts(p, PreCommit, m.hash);
        CountsInTurn(e, p, q, {}, {Cast(Ballot(PreCommit, m.hash), e.self.local)});
      case PreCommit =>
        if e.core.prepared.Some? {
          var p := e.(core := e.core.(phase := Commit));
          SameBookCounts(e, p);
          SignOwnCounts(p, Commit, e.core.prepared.value.hash);
          CountsInTurn(e, p, q, {}, {Cast(Ballot(Commit, e.core.prepared.value.hash), e.self.local)});
        }
      case Commit => DecideCounts(e, m.hash, ans);
      case _ =>
    }
  }

  /** Trimming keeps the registry of the position, unless it is among the oldest beyond the cap. */
  lemma TrimCounts(e: Engine, height: U64)
    requires height == e.core.height
    ensures var e' := e.(book := TrimVotes(e.book, height));
            && (At(e) in e'.book.registries || At(e) !in e.book.registries ==> Counts(e, e', {}))
            && (At(e) in e.book.registries && |e.book.order| <= 2048 ==> At(e) in e'.book.registries)
  {
  }

  /** Which registries outlive a trim: those not listed among the oldest beyond 2048, and not listed after them more
      than ten heights below. */
  lemma TrimKeepsIff(b: VoteBook, height: U64, at: Position)
    ensures var cut := if |b.order| > 2048 then |b.order| - 2048 else 0;
            var b' := TrimVotes(b, height);
            && (at in b'.registries <==>
                  at in b.registries && at !in b.order[..cut] && !(at in b.order[cut..] && at.height + 10 < height))
            && (at in b'.registries ==> b'.registries[at] == b.registries[at])
            && (at in b'.order <==> at in b.order[cut..] && at.height + 10 >= height)
  {
    var cut := if |b.order| > 2048 then |b.order| - 2048 else 0;
    if height > 10 {
      RecentMembers(b.order[cut..], height - 10, at);
    }
  }

  lemma {:induction false} RecentMembers(order: seq<Position>, below: int, at: Position)
    ensures at in Recent(order, below) <==> at in order && at.height >= below
  {
    if order != [] {
      RecentMembers(order[..|order| - 1], below, at);
      assert order == order[..|order| - 1] + [order[|order| - 1]];
    }
  }

  /** The quorum step opens no registry. */
  lemma AfterQuorumKeeps(e: Engine, m: Message, phase: Phase, ans: Answers)
    requires At(e) == Position(m.height, m.view) && At(e) in e.book.registries
    ensures var q := AfterQuorum(e, m, phase, ans);
            At(q) == At(e) ==> At(e) in q.book.registries && q.book.order == e.book.order
  {
    hide SuperMajority, Voters, VoteData, ByText, Cached, F.VotedAll, F.Checkpointed;
  }

  lemma AcceptVoteCounts(e: Engine, m: Message, phase: Phase, ans: Answers)
    requires At(e) == Position(m.height, m.view)
    ensures var e' := AcceptVote(e, m, phase, ans);
            var casts := {Cast(Ballot(phase, m.hash), m.validator)}
                         + CastsAfter(e, phase, m.hash, With(e, phase, m.hash, m.validator));
            && (At(e') == At(e) && At(e) in e'.book.registries ==> Counts(e, e', casts))
            && (At(e') == At(e) && |e.book.order| < 2048 ==> At(e) in e'.book.registries)
  {
    hide Counts, Voters, TrimVotes, AfterQuorum, CastsAfter, RecordVote;
    var r := RecordVote(e, m, phase);
    var q := AfterQuorum(r, m, phase, ans);
    var e' := AcceptVote(e, m, phase, ans);
    RecordOpens(e, m, phase);
    RecordCounts(e, m, phase);
    if At(q) == At(e) {
      AfterQuorumCounts(r, m, phase, ans);
      AfterQuorumKeeps(r, m, phase, ans);
      TrimCounts(q, q.core.height);
      var own := CastsAfter(e, phase, m.hash, With(e, phase, m.hash, m.validator));
      CountsInTurn(e, r, q, {Cast(Ballot(phase, m.hash), m.validator)}, own);
      if At(e) in e'.book.registries {
        CountsInTurn(e, q, e', {Cast(Ballot(phase, m.hash), m.validator)} + own, {});
      }
    }
  }

  lemma RecordOpens(e: Engine, m: Message, phase: Phase)
    requires At(e) == Position(m.height, m.view)
    ensures var r := RecordVote(e, m, phase);
            && At(r) == At(e) && At(e) in r.book.registries && |r.book.order| <= |e.book.order| + 1
            && Voters(r.book, At(e), Ballot(phase, m.hash)) == With(e, phase, m.hash, m.validator)
            && forall hash, voters :: CastsAfter(r, phase, hash, voters) == CastsAfter(e, phase, hash, voters)
  {
  }

  lemma VoteCounts(e: Engine, m: Message, phase: Phase, ans: Answers, drop: set<Position>)
    requires At(e) == Position(m.height, m.view)
    ensures var e' := HandleVote(e, m, phase, ans, drop);
            && (At(e') == At(e) && (At(e) in e'.book.registries || VoteCasts(e, m, phase, drop) == {}) ==>
                  Counts(e, e', VoteCasts(e, m, phase, drop)))
            && (At(e') == At(e) && VoteCasts(e, m, phase, drop) != {} && |e.book.order| < 2048 ==>
                  At(e) in e'.book.registries)
  {
    hide DS.AfterVote, Voters, Removed, VoteData, AcceptVote, CastsAfter, SuperMajority;
    var e' := HandleVote(e, m, phase, ans, drop);
    if VoteStands(e, m, phase) && VoteConflict(e, m, phase, drop).None? {
      var d := DS.AfterVote(e.detector, m.validator, At(e), phase, m.hash, drop).0;
      AcceptVoteCounts(e.(detector := d), m, phase, ans);
      SameCasts(e, d, phase, m.hash, With(e, phase, m.hash, m.validator));
    } else {
      SameBookCounts(e, e');
    }
  }

  lemma SameCasts(e: Engine, d: DS.Detector, phase: Phase, hash: Bytes, voters: set<Bytes>)
    ensures CastsAfter(e.(detector := d), phase, hash, voters) == CastsAfter(e, phase, hash, voters)
  {
  }

  lemma ProposalCounts(e: Engine, m: Message, ans: Answers, drop: set<Position>)
    requires At(e) == Position(m.height, m.view)
    ensures var e' := HandleProposal(e, m, ans, drop);
            && At(e') == At(e)
            && Counts(e, e', if Endorsed(e, m, ans, drop) then {Cast(Ballot(Prepare, m.hash), e.self.local)} else {})
            && (Endorsed(e, m, ans, drop) ==>
                  At(e) in e'.book.registries && Prepare in RegistryAt(e'.book, At(e)).mine)
  {
    hide DS.AfterProposal, Voters, Removed, VoteData, VoteForProposal, Select, ProposalData, TextSuperMajority, Counts;
    LeaderIs(e, m.validator, ans.seed);
    SameBookCounts(e, e);
    var e' := HandleProposal(e, m, ans, drop);
    if e'.book == e.book && At(e') == At(e) {
      SameBookCounts(e, e');
    }
    if ProposalStands(e, m, ans) && ProposalConflict(e, m.validator, m.hash, drop).None? && Certified(e.vset, m.justify)
       && ans.blockValid {
      var kept := if m.height in e.pending then e.pending else e.pending[m.height := m.hash];
      var d := DS.AfterProposal(e.detector, m.validator, At(e), m.hash, drop).0;
      var ready := e.(detector := d, core := Relocked(e.core, m.justify), pending := kept);
      assert e' == VoteForProposal(ready, m);
      SameBookCounts(e, ready);
      VotingCounts(ready, m);
      CountsInTurn(e, ready, e', {},
                   if Endorsed(e, m, ans, drop) then {Cast(Ballot(Prepare, m.hash), e.self.local)} else {});
    }
  }

  lemma VotingCounts(e: Engine, m: Message)
    requires At(e) == Position(m.height, m.view)
    ensures var e', votes := VoteForProposal(e, m), Prepare !in RegistryAt(e.book, At(e)).mine;
            && At(e') == At(e)
            && Counts(e, e', if votes then {Cast(Ballot(Prepare, m.hash), e.self.local)} else {})
            && At(e) in e'.book.registries && Prepare in RegistryAt(e'.book, At(e)).mine
  {
    hide Voters, VoteData, SuperMajority, Counts, FormQC, Touch, SignOwn;
    var touched := e.(book := Touch(e.book, At(e)));
    TouchCounts(e);
    TouchOpens(e);
    if Prepare !in RegistryAt(e.book, At(e)).mine {
      SignOwnCounts(touched, Prepare, m.hash);
      SignOwnRemembers(touched, Prepare, m.hash);
      var s := SignOwn(touched, At(e), Prepare, m.hash);
      CountsInTurn(e, touched, s, {}, {Cast(Ballot(Prepare, m.hash), e.self.local)});
      SameBookCounts(s, VoteForProposal(e, m));
      CountsInTurn(e, s, VoteForProposal(e, m), {Cast(Ballot(Prepare, m.hash), e.self.local)}, {});
    }
  }

  lemma TouchOpens(e: Engine)
    ensures At(e) in Touch(e.book, At(e)).registries
    ensures RegistryAt(Touch(e.book, At(e)), At(e)) == RegistryAt(e.book, At(e))
  {
  }

  lemma SignOwnRemembers(e: Engine, phase: Phase, hash: Bytes)
    ensures var s := SignOwn(e, At(e), phase, hash);
            && s == e.(book := s.book, log := s.log)
            && At(e) in s.book.registries && phase in RegistryAt(s.book, At(e)).mine
  {
    hide Record, VoteData;
  }

  /** The proposer's own votes, one per phase its quorums carry the block through. */
  lemma SelfVoteCounts(e: Engine, hash: Bytes, ans: Answers)
    ensures var v, n := SelfVote(e, hash, ans), Carries(e, hash);
            At(v) == At(e) ==>
              && Counts(e, v, {Cast(Ballot(Prepare, hash), e.self.local)}
                              + (if n >= 1 then {Cast(Ballot(PreCommit, hash), e.self.local)} else {})
                              + (if n >= 2 then {Cast(Ballot(Commit, hash), e.self.local)} else {}))
  {
    hide Counts, SuperMajority, Voters, SignOwn, ByText, Cached, SelfPreCommit;
    var me := e.self.local;
    var s := SignOwn(e, At(e), Prepare, hash);
    SignOwnCounts(e, Prepare, hash);
    OwnVoteDoes(e, Prepare, hash);
    var v := SelfVote(e, hash, ans);
    if SuperMajority(e.vset, With(e, Prepare, hash, me)) {
      var p := s.(core := Prepared(s.core, FormQC(s, At(e), Prepare, hash)).(phase := PreCommit));
      SameBookCounts(s, p);
      CountsInTurn(e, s, p, {Cast(Ballot(Prepare, hash), me)}, {});
      SelfPreCommitCounts(p, hash, ans);
      if At(v) == At(e) {
        var q := SuperMajority(e.vset, With(e, PreCommit, hash, me));
        var own := {Cast(Ballot(PreCommit, hash), me)} + (if q then {Cast(Ballot(Commit, hash), me)} else {});
        CountsInTurn(e, p, v, {Cast(Ballot(Prepare, hash), me)}, own);
        assert {Cast(Ballot(Prepare, hash), me)} + own
            == {Cast(Ballot(Prepare, hash), me)} + {Cast(Ballot(PreCommit, hash), me)}
               + (if q then {Cast(Ballot(Commit, hash), me)} else {});
      }
    }
  }

  lemma SelfPreCommitCounts(e: Engine, hash: Bytes, ans: Answers)
    ensures var v, q := SelfPreCommit(e, hash, ans), SuperMajority(e.vset, With(e, PreCommit, hash, e.self.local));
            At(v) == At(e) ==>
              Counts(e, v, {Cast(Ballot(PreCommit, hash), e.self.local)}
                           + (if q then {Cast(Ballot(Commit, hash), e.self.local)} else {}))
  {
    hide Counts, SuperMajority, Voters, SignOwn, Decide;
    var me := e.self.local;
    var s := SignOwn(e, At(e), PreCommit, hash);
    SignOwnCounts(e, PreCommit, hash);
    OwnVoteDoes(e, PreCommit, hash);
    if SuperMajority(e.vset, With(e, PreCommit, hash, me)) {
      var c := s.(core := s.core.(phase := Commit));
      SameBookCounts(s, c);
      CountsInTurn(e, s, c, {Cast(Ballot(PreCommit, hash), me)}, {});
      var t := SignOwn(c, At(e), Commit, hash);
      SignOwnCounts(c, Commit, hash);
      CountsInTurn(e, c, t, {Cast(Ballot(PreCommit, hash), me)}, {Cast(Ballot(Commit, hash), me)});
      var both := {Cast(Ballot(PreCommit, hash), me)} + {Cast(Ballot(Commit, hash), me)};
      SameBookCounts(t, t);
      DecideCounts(t, hash, ans);
      OwnVoteDoes(c, Commit, hash);
      var v := SelfPreCommit(e, hash, ans);
      if At(v) == At(e) {
        CountsInTurn(e, t, v, both, {});
      }
    } else {
      assert {Cast(Ballot(PreCommit, hash), me)} + {} == {Cast(Ballot(PreCommit, hash), me)};
    }
  }

  lemma ProposeCounts(e: Engine, ans: Answers, drop: set<Position>)
    ensures var e' := Propose(e, ans, drop);
            At(e') == At(e) ==> Counts(e, e', ProposeCasts(e, ans, drop))
  {
    hide DS.AfterProposal, Counts, SelfVote, Voters, Removed, ProposalData, Select, Carries;
    LeaderIs(e, e.self.local, ans.seed);
    SameBookCounts(e, e);
    var e' := Propose(e, ans, drop);
    if MayPropose(e, ans) {
      var hash := ans.created.value;
      var sig := Signature(e.self.local, ProposalData(e.self.chainId, hash));
      var d := DS.AfterProposal(e.detector, e.self.local, At(e), hash, drop).0;
      var s := e.(pending := e.pending[e.core.height := hash], log := e.log.(made := e.log.made + {sig}),
                  detector := d);
      SameBookCounts(e, s);
      if ProposalConflict(e, e.self.local, hash, drop).Some? {
        SameBookCounts(e, e');
      } else {
        var v := SelfVote(s, hash, ans);
        SelfVoteCounts(s, hash, ans);
        SameCarries(e, s, hash);
        SameBookCounts(v, e');
        if At(e') == At(e) {
          CountsInTurn(e, s, v, {}, ProposeCasts(e, ans, drop));
          CountsInTurn(e, v, e', ProposeCasts(e, ans, drop), {});
        }
      }
    }
  }

  lemma SameCarries(e: Engine, s: Engine, hash: Bytes)
    requires s.book == e.book && s.core == e.core && s.vset == e.vset && s.self == e.self
    ensures Carries(s, hash) == Carries(e, hash)
  {
  }

  /** The votes an event enters are exactly those `CastsBy` names, as long as the engine stays at the position
      and its registry is not among the oldest beyond the cap. A position left, or a new view that restarts one,
      has no registry. */
  lemma {:induction false} StepCounts(e: Engine, ev: Event)
    requires Enabled(e, ev) && Mirrored(e.core)
    requires ev.ProposeNow? || (ev.Deliver? && Reaches(e, ev.m) && !ev.m.kind.Timeout? && !ev.m.kind.NewView?)
    requires At(Step(e, ev)) == At(From(e, ev))
    ensures var a, e' := From(e, ev), Step(e, ev);
            && (At(a) in e'.book.registries || CastsBy(e, ev) == {} ==> Counts(a, e', CastsBy(e, ev)))
            && (ev.Deliver? && CastsBy(e, ev) != {} && |a.book.order| < 2048 ==> At(a) in e'.book.registries)
  {
    hide Counts, Propose, HandleVote, HandleProposal, VoteCasts, ProposeCasts, Endorsed;
    match ev
    case ProposeNow(ans, drop) => ProposeCounts(e, ans, drop);
    case Deliver(m, ans, drop) =>
      ArrivedIsMoved(e, m);
      var a := Arrived(e, m);
      match m.kind
      case Proposal => ProposalCounts(a, m, ans, drop);
      case VotePrepare => VoteCounts(a, m, Prepare, ans, drop);
      case VotePreCommit => VoteCounts(a, m, PreCommit, ans, drop);
      case VoteCommit => VoteCounts(a, m, Commit, ans, drop);
      case _ =>
  }

  // ---------------------------------------------------------------- pending blocks

  /** The block an event makes pending: an acceptable proposal's, if the height has none, or the proposer's own. */
  function PendingWith(e: Engine, ev: Event): map<U64, Bytes> {
    var a := From(e, ev);
    match ev
    case Deliver(m, ans, drop) =>
      if Reaches(e, m) && m.kind.Proposal? && ProposalStands(a, m, ans)
         && ProposalConflict(a, m.validator, m.hash, drop).None? && Certified(e.vset, m.justify) && ans.blockValid
         && m.height !in a.pending
      then a.pending[m.height := m.hash] else a.pending
    case ProposeNow(ans, drop) =>
      if MayPropose(e, ans) then e.pending[e.core.height := ans.created.value] else e.pending
    case _ => a.pending
  }

  /** A commit that the lock allows takes the height's block out, whatever the commit call answers. */
  function PendingAfter(e: Engine, ev: Event): map<U64, Bytes> {
    var attempt := DeedsOf(e, ev).attempt;
    if attempt.Some? && LockAllows(e, ev, attempt.value.hash) then PendingWith(e, ev) - {e.core.height}
    else PendingWith(e, ev)
  }

  /** The pending blocks after deeds that attempt this commit, at a state whose lock is the final one. */
  ghost predicate Drops(e: Engine, e': Engine, attempt: Option<Attempt>) {
    e'.pending == (if attempt.Some? && Permits(e'.core.locked, e.core.height, attempt.value.hash)
                   then e.pending - {e.core.height} else e.pending)
  }

  lemma DecideDrops(e: Engine, hash: Bytes, voters: set<Bytes>, ans: Answers)
    ensures Drops(e, Decide(e, hash, e.core.height, ans), Some(Attempt(hash, voters)))
  {
  }

  lemma BallotDrops(e: Engine, m: Message, phase: Phase, ans: Answers, voters: set<Bytes>)
    requires At(e) == Position(m.height, m.view) && voters == Voters(e.book, At(e), Ballot(phase, m.hash))
    ensures Drops(e, AfterQuorum(e, m, phase, ans), BallotDeeds(e, phase, m.hash, voters).attempt)
  {
    hide SuperMajority, Voters, Record, RecordMine, VoteData, Decide, ByText, Cached, Permits;
    DecideDrops(e, m.hash, voters, ans);
  }

  lemma VoteDrops(e: Engine, m: Message, phase: Phase, ans: Answers, drop: set<Position>)
    requires At(e) == Position(m.height, m.view)
    ensures Drops(e, HandleVote(e, m, phase, ans, drop), VoteDeeds(e, m, phase, drop).attempt)
  {
    hide DS.AfterVote, Voters, TrimVotes, Removed, VoteData, AfterQuorum, SuperMajority, Permits;
    if VoteStands(e, m, phase) && VoteConflict(e, m, phase, drop).None? {
      var d := DS.AfterVote(e.detector, m.validator, At(e), phase, m.hash, drop).0;
      var r := RecordVote(e.(detector := d), m, phase);
      RecordOpens(e.(detector := d), m, phase);
      BallotDrops(r, m, phase, ans, With(e, phase, m.hash, m.validator));
      hide RecordVote;
    }
  }

  lemma SelfVoteDrops(e: Engine, hash: Bytes, ans: Answers)
    ensures Drops(e, SelfVote(e, hash, ans), SelfDeeds(e, hash).attempt)
  {
    hide SuperMajority, Voters, SignOwn, Decide, ByText, Cached, Permits;
    var at, me := At(e), e.self.local;
    OwnVoteDoes(e, Prepare, hash);
    var s := SignOwn(e, at, Prepare, hash);
    if SuperMajority(e.vset, With(e, Prepare, hash, me)) {
      var p := s.(core := Prepared(s.core, FormQC(s, at, Prepare, hash)).(phase := PreCommit));
      OwnVoteDoes(p, PreCommit, hash);
      var t := SignOwn(p, at, PreCommit, hash);
      if SuperMajority(e.vset, With(e, PreCommit, hash, me)) {
        var c := t.(core := t.core.(phase := Commit));
        OwnVoteDoes(c, Commit, hash);
        DecideDrops(SignOwn(c, at, Commit, hash), hash, With(e, Commit, hash, me), ans);
      }
    }
  }

  lemma ProposeDrops(e: Engine, ans: Answers, drop: set<Position>)
    ensures Drops(e.(pending := PendingWith(e, ProposeNow(ans, drop))), Propose(e, ans, drop),
                  ProposeDeeds(e, ans, drop).attempt)
  {
    hide DS.AfterProposal, SelfVote, Voters, Removed, ProposalData, Select, Carries, Permits, VoteData;
    LeaderIs(e, e.self.local, ans.seed);
    if MayPropose(e, ans) {
      var hash := ans.created.value;
      var sig := Signature(e.self.local, ProposalData(e.self.chainId, hash));
      var d := DS.AfterProposal(e.detector, e.self.local, At(e), hash, drop).0;
      var s := e.(pending := e.pending[e.core.height := hash], log := e.log.(made := e.log.made + {sig}),
                  detector := d);
      SelfVoteDrops(s, hash, ans);
      SameCarries(e, s, hash);
    }
  }

  lemma ProposalKeeps(e: Engine, m: Message, ans: Answers, drop: set<Position>)
    requires At(e) == Position(m.height, m.view)
    ensures var acceptable :=
              ProposalStands(e, m, ans) && ProposalConflict(e, m.validator, m.hash, drop).None?
              && Certified(e.vset, m.justify) && ans.blockValid;
            HandleProposal(e, m, ans, drop).pending
            == if acceptable && m.height !in e.pending then e.pending[m.height := m.hash] else e.pending
    ensures ProposalDeeds(e, m, ans, drop).attempt.None?
  {
    hide DS.AfterProposal, Voters, Removed, VoteData, Select, ProposalData, TextSuperMajority, Cached, ByText, Touch,
         Record, RecordMine, SuperMajority;
    LeaderIs(e, m.validator, ans.seed);
  }

  /** The pending blocks after a proposal, a vote, or a proposal of one's own. */
  lemma {:induction false} StepPending(e: Engine, ev: Event)
    requires Enabled(e, ev) && Mirrored(e.core)
    requires ev.ProposeNow? || (ev.Deliver? && Reaches(e, ev.m) && !ev.m.kind.Timeout? && !ev.m.kind.NewView?)
    ensures Step(e, ev).pending == PendingAfter(e, ev)
  {
    hide Propose, HandleVote, HandleProposal, VoteDeeds, ProposeDeeds, ProposalDeeds, Permits, LockAllows,
         ProposalStands, ProposalConflict, MayPropose, Certified;
    if DeedsOf(e, ev).attempt.Some? {
      AttemptLock(e, ev);
    }
    match ev
    case ProposeNow(ans, drop) => ProposeDrops(e, ans, drop);
    case Deliver(m, ans, drop) =>
      ArrivedIsMoved(e, m);
      var a := Arrived(e, m);
      match m.kind
      case Proposal => ProposalKeeps(a, m, ans, drop);
      case VotePrepare => VoteDrops(a, m, Prepare, ans, drop);
      case VotePreCommit => VoteDrops(a, m, PreCommit, ans, drop);
      case VoteCommit => VoteDrops(a, m, Commit, ans, drop);
      case _ =>
  }
}
