/** Several replicas and an arbitrary set of signers: agreement with accountability. */
module Replicas {
  import opened Words
  import opened ConsensusTypes
  import opened ValidatorSets
  import opened EngineModel
  import opened EngineInvariants
  import opened EngineSteps
  import opened EngineRuns
  import opened CommitVotes
  import DS = DoubleSigns

  /** The network is arbitrary: any message can be delivered to any replica at any time, as long as
      the signature it carries was made by somebody. Any key can sign anything at any time, so every
      number of faulty validators is covered. */
  datatype System = System(replicas: seq<Engine>, signed: set<Signature>)

  datatype Move =
    | Act(who: nat, ev: Event)
    | Sign(sig: Signature)

  ghost predicate CanMove(s: System, mv: Move) {
    match mv
    case Sign(_) => true
    case Act(who, ev) =>
      && who < |s.replicas|
      && Enabled(s.replicas[who], ev)
      && (ev.Deliver? && ev.m.signature.Some? ==> ev.m.signature.value in s.signed)
  }

  ghost function Moved(s: System, mv: Move): System
    requires CanMove(s, mv)
  {
    match mv
    case Sign(sig) => s.(signed := s.signed + {sig})
    case Act(who, ev) =>
      var e := Step(s.replicas[who], ev);
      System(s.replicas[who := e], s.signed + e.log.made)
  }

  ghost predicate CanPlay(s: System, moves: seq<Move>)
    decreases |moves|, 0
  {
    moves == [] || (CanPlay(s, moves[..|moves| - 1]) && CanMove(Play(s, moves[..|moves| - 1]), moves[|moves| - 1]))
  }

  ghost function Play(s: System, moves: seq<Move>): System
    requires CanPlay(s, moves)
    decreases |moves|, 1
  {
    if moves == [] then s else Moved(Play(s, moves[..|moves| - 1]), moves[|moves| - 1])
  }

  /** Freshly started replicas of one chain; nobody has signed anything. */
  ghost predicate Initial(s: System, chainId: U64) {
    && s.signed == {}
    && forall i :: 0 <= i < |s.replicas| ==> FreshStart(s.replicas[i]) && s.replicas[i].self.chainId == chainId
  }

  ghost predicate SystemInv(s: System, chainId: U64) {
    forall i :: 0 <= i < |s.replicas| ==>
      Inv(s.replicas[i], s.signed) && s.replicas[i].self.chainId == chainId && s.replicas[i].log.made <= s.signed
  }

  lemma MoveKeepsInv(s: System, mv: Move, chainId: U64)
    requires SystemInv(s, chainId) && CanMove(s, mv)
    ensures SystemInv(Moved(s, mv), chainId)
  {
    var s' := Moved(s, mv);
    forall i | 0 <= i < |s'.replicas|
      ensures Inv(s'.replicas[i], s'.signed) && s'.replicas[i].self.chainId == chainId
              && s'.replicas[i].log.made <= s'.signed
    {
      InvMonotone(s.replicas[i], s.signed, s'.signed);
      if mv.Act? && i == mv.who {
        StepKeeps(s.replicas[i], mv.ev, s'.signed);
      }
    }
  }

  lemma {:induction false} PlayKeepsInv(s: System, moves: seq<Move>, chainId: U64)
    requires Initial(s, chainId) && CanPlay(s, moves)
    ensures SystemInv(Play(s, moves), chainId) && |Play(s, moves).replicas| == |s.replicas|
  {
    if moves == [] {
      forall i | 0 <= i < |s.replicas| ensures Inv(s.replicas[i], {}) && s.replicas[i].log.made == {} {
        FreshStartInv(s.replicas[i]);
      }
    } else {
      var front := moves[..|moves| - 1];
      PlayKeepsInv(s, front, chainId);
      MoveKeepsInv(Play(s, front), moves[|moves| - 1], chainId);
    }
  }

  // ---------------------------------------------------------------- signed runs

  /** Every vote message delivered in the run carried a signature: the guard of `handleVote`. */
  ghost predicate VotesSigned(moves: seq<Move>) {
    forall i :: 0 <= i < |moves| && moves[i].Act? && moves[i].ev.Deliver? && IsVote(moves[i].ev.m) ==>
      moves[i].ev.m.signature.Some?
  }

  predicate IsVote(m: Message) {
    m.kind.VotePrepare? || m.kind.VotePreCommit? || m.kind.VoteCommit?
  }

  lemma DecideKeepsFlag(e: Engine, hash: Bytes, height: U64, ans: Answers)
    ensures Decide(e, hash, height, ans).log.allSigned == e.log.allSigned
  {
  }

  lemma AdvanceKeepsFlag(e: Engine, phase: Phase)
    ensures AdvancePhase(e, phase).log.allSigned == e.log.allSigned
  {
  }

  lemma SelfVoteKeepsFlag(e: Engine, hash: Bytes, ans: Answers)
    ensures SelfVote(e, hash, ans).log.allSigned == e.log.allSigned
  {
    hide SuperMajority, FormQC, Record, RecordMine, Voters, Decide, VoteData;
    var s := SignOwn(e, At(e), Prepare, hash);
    var p := s.(core := Prepared(s.core, FormQC(s, At(e), Prepare, hash)).(phase := PreCommit));
    var s' := SignOwn(p, At(p), PreCommit, hash);
    var c := s'.(core := s'.core.(phase := Commit));
    DecideKeepsFlag(SignOwn(c, At(c), Commit, hash), hash, At(c).height, ans);
  }

  lemma HandleVoteKeepsFlag(e: Engine, m: Message, phase: Phase, ans: Answers, drop: set<Position>)
    requires m.signature.Some?
    ensures HandleVote(e, m, phase, ans, drop).log.allSigned == e.log.allSigned
  {
    hide DS.AfterVote, SuperMajority, FormQC, Record, Decide, AdvancePhase, Voters, TrimVotes, VoteAuthentic, Removed;
    var at := Position(m.height, m.view);
    var d := DS.AfterVote(e.detector, m.validator, at, phase, m.hash, drop).0;
    var r := RecordVote(e.(detector := d), m, phase);
    DecideKeepsFlag(r, m.hash, m.height, ans);
    AdvanceKeepsFlag(r, Commit);
    AdvanceKeepsFlag(r.(core := Prepared(r.core, FormQC(r, at, phase, m.hash))), PreCommit);
  }

  lemma ProposalKeepsFlag(e: Engine, m: Message, ans: Answers, drop: set<Position>)
    ensures HandleProposal(e, m, ans, drop).log.allSigned == e.log.allSigned
  {
  }

  lemma ProposeKeepsFlag(e: Engine, ans: Answers, drop: set<Position>)
    ensures Propose(e, ans, drop).log.allSigned == e.log.allSigned
  {
    if Propose(e, ans, drop) != e {
      var hash := ans.created.value;
      var sig := Signature(e.self.local, ProposalData(e.self.chainId, hash));
      var s := e.(pending := e.pending[e.core.height := hash], log := e.log.(made := e.log.made + {sig}));
      var d := DS.AfterProposal(s.detector, e.self.local, At(e), hash, drop).0;
      SelfVoteKeepsFlag(s.(detector := d), hash, ans);
    }
  }

  lemma StepKeepsFlag(e: Engine, ev: Event)
    requires Enabled(e, ev) && (ev.Deliver? && IsVote(ev.m) ==> ev.m.signature.Some?)
    ensures Step(e, ev).log.allSigned == e.log.allSigned
  {
    match ev
    case Deliver(m, ans, drop) =>
      var moved := MovedTo(e, m);
      match m.kind {
        case Proposal => ProposalKeepsFlag(moved, m, ans, drop);
        case VotePrepare => HandleVoteKeepsFlag(moved, m, Prepare, ans, drop);
        case VotePreCommit => HandleVoteKeepsFlag(moved, m, PreCommit, ans, drop);
        case VoteCommit => HandleVoteKeepsFlag(moved, m, Commit, ans, drop);
        case _ =>
      }
    case ProposeNow(ans, drop) => ProposeKeepsFlag(e, ans, drop);
    case _ =>
  }

  lemma {:induction false} SignedRunsStaySigned(s: System, moves: seq<Move>, chainId: U64, i: nat)
    requires Initial(s, chainId) && CanPlay(s, moves) && VotesSigned(moves) && i < |s.replicas|
    ensures i < |Play(s, moves).replicas| && Play(s, moves).replicas[i].log.allSigned
  {
    PlayKeepsInv(s, moves, chainId);
    if moves != [] {
      var front, mv := moves[..|moves| - 1], moves[|moves| - 1];
      PlayKeepsInv(s, front, chainId);
      SignedRunsStaySigned(s, front, chainId, i);
      if mv.Act? && mv.who == i {
        StepKeepsFlag(Play(s, front).replicas[i], mv.ev);
      }
    }
  }

  // ---------------------------------------------------------------- agreement

  /** A commit vote for `hash` at a position has been signed by `a`. */
  ghost predicate SignedCommit(s: System, chainId: U64, a: Bytes, at: Position, hash: Bytes) {
    Signature(a, VoteData(chainId, at, Commit, hash)) in s.signed
  }

  /** Accountable agreement. If two replicas decide different hashes, at whatever positions, counted in the
      same validator set, then validators holding more than a third of its stake each signed commit votes
      for both hashes, which are different statements. */
  lemma {:induction false} AccountableAgreement(s: System, moves: seq<Move>, chainId: U64, i: nat, j: nat, k: nat,
                        l: nat)
    requires Initial(s, chainId) && CanPlay(s, moves) && VotesSigned(moves)
    requires i < |Play(s, moves).replicas| && j < |Play(s, moves).replicas|
    requires k < |Play(s, moves).replicas[i].log.decisions| && l < |Play(s, moves).replicas[j].log.decisions|
    requires var d, d' := Play(s, moves).replicas[i].log.decisions[k], Play(s, moves).replicas[j].log.decisions[l];
             d.vset == d'.vset && Bounded(d.vset) && d.hash != d'.hash
    ensures var d, d' := Play(s, moves).replicas[i].log.decisions[k], Play(s, moves).replicas[j].log.decisions[l];
            && 3 * StakeIn(d.vset.validators, d.voters * d'.voters) > Sum(d.vset.validators)
            && VoteData(chainId, d.at, Commit, d.hash) != VoteData(chainId, d'.at, Commit, d'.hash)
            && forall a :: a in d.voters * d'.voters ==>
                 SignedCommit(Play(s, moves), chainId, a, d.at, d.hash)
                 && SignedCommit(Play(s, moves), chainId, a, d'.at, d'.hash)
  {
    var p := Play(s, moves);
    var d, d' := p.replicas[i].log.decisions[k], p.replicas[j].log.decisions[l];
    PlayKeepsInv(s, moves, chainId);
    SignedRunsStaySigned(s, moves, chainId, i);
    SignedRunsStaySigned(s, moves, chainId, j);
    BackedDecision(p.replicas[i], k, p.signed);
    BackedDecision(p.replicas[j], l, p.signed);
    QuorumsIntersect(d.vset, d.voters, d'.voters);
    if VoteData(chainId, d.at, Commit, d.hash) == VoteData(chainId, d'.at, Commit, d'.hash) {
      VoteDataBinds(chainId, d.at, Commit, d.hash, d'.at, Commit, d'.hash);
    }
  }

  lemma BackedDecision(e: Engine, k: nat, signed: set<Signature>)
    requires Inv(e, signed) && e.log.made <= signed && e.log.allSigned && k < |e.log.decisions|
    ensures var d := e.log.decisions[k];
            Consistent(d.vset) && SuperMajority(d.vset, d.voters) && VotersSigned(e.self, d, signed)
  {
    assert signed + e.log.made == signed;
  }

  /** Everybody outside the group signs at most one commit hash per position, or per height. */
  ghost predicate HonestSignOnce(scope: Scope, s: System, chainId: U64, faulty: set<Bytes>) {
    forall who, a, b, h, k ::
      (who !in faulty && Within(scope, a, b)
       && SignedCommit(s, chainId, who, a, h) && SignedCommit(s, chainId, who, b, k)) ==> h == k
  }

  /** Safety. If everybody outside a group holding at most a third of the stake signs at most one commit
      hash per position, no two replicas decide differently at one height and view; if per height, none
      decide differently at one height. */
  lemma {:induction false} Agreement(scope: Scope, s: System, moves: seq<Move>, chainId: U64, i: nat, j: nat, k: nat,
                        l: nat, faulty: set<Bytes>)
    requires Initial(s, chainId) && CanPlay(s, moves) && VotesSigned(moves)
    requires i < |Play(s, moves).replicas| && j < |Play(s, moves).replicas|
    requires k < |Play(s, moves).replicas[i].log.decisions| && l < |Play(s, moves).replicas[j].log.decisions|
    requires var d, d' := Play(s, moves).replicas[i].log.decisions[k], Play(s, moves).replicas[j].log.decisions[l];
             && Within(scope, d.at, d'.at) && d.vset == d'.vset && Bounded(d.vset)
             && 3 * StakeIn(d.vset.validators, faulty) <= Sum(d.vset.validators)
    requires HonestSignOnce(scope, Play(s, moves), chainId, faulty)
    ensures Play(s, moves).replicas[i].log.decisions[k].hash == Play(s, moves).replicas[j].log.decisions[l].hash
  {
    hide Within;
    var d, d' := Play(s, moves).replicas[i].log.decisions[k], Play(s, moves).replicas[j].log.decisions[l];
    if d.hash != d'.hash {
      AccountableAgreement(s, moves, chainId, i, j, k, l);
      var both := d.voters * d'.voters;
      forall a | a in both ensures a in faulty {
        assert SignedCommit(Play(s, moves), chainId, a, d.at, d.hash);
      }
      StakeInMonotone(d.vset.validators, both, faulty);
      assert false;
    }
  }

  // ---------------------------------------------------------------- honest replicas

  predicate Honest(s: System, i: nat, faulty: set<Bytes>)
    requires i < |s.replicas|
  {
    s.replicas[i].self.local !in faulty
  }

  /** Only the faulty keys sign outside the replicas, and no two honest replicas share a key. */
  ghost predicate KeysHeld(s: System, moves: seq<Move>, faulty: set<Bytes>) {
    && (forall k :: 0 <= k < |moves| && moves[k].Sign? ==> moves[k].sig.signer in faulty)
    && (forall i, j :: 0 <= i < j < |s.replicas| && Honest(s, i, faulty) ==>
          s.replicas[i].self.local != s.replicas[j].self.local)
  }

  /** Every event of an honest replica passes the guard in the state it finds. */
  ghost predicate HonestNeverSwitch(scope: Scope, s: System, moves: seq<Move>, faulty: set<Bytes>)
    requires CanPlay(s, moves)
  {
    moves == []
    || (&& HonestNeverSwitch(scope, s, moves[..|moves| - 1], faulty)
        && var last, mv := Play(s, moves[..|moves| - 1]), moves[|moves| - 1];
           (mv.Act? && Honest(last, mv.who, faulty) ==> NoSwitch(scope, last.replicas[mv.who], mv.ev)))
  }

  /** An honest key's signatures are the ones its replica made. */
  ghost predicate HonestMade(s: System, faulty: set<Bytes>) {
    forall sig :: sig in s.signed && sig.signer !in faulty ==>
      exists i :: 0 <= i < |s.replicas| && s.replicas[i].self.local == sig.signer && sig in s.replicas[i].log.made
  }

  ghost predicate SameSelves(s: System, p: System) {
    && |p.replicas| == |s.replicas|
    && forall i :: 0 <= i < |s.replicas| ==> p.replicas[i].self == s.replicas[i].self
  }

  lemma MoveKeepsSelves(s: System, mv: Move)
    requires CanMove(s, mv)
    ensures SameSelves(s, Moved(s, mv)) && s.signed <= Moved(s, mv).signed
    ensures forall i :: 0 <= i < |s.replicas| ==> s.replicas[i].log.made <= Moved(s, mv).replicas[i].log.made
  {
    hide Step, CommitsBy;
    if mv.Act? {
      StepCommits(s.replicas[mv.who], mv.ev);
    }
  }

  lemma MoveKeepsHonestMade(s: System, mv: Move, faulty: set<Bytes>)
    requires CanMove(s, mv) && HonestMade(s, faulty) && (mv.Sign? ==> mv.sig.signer in faulty)
    requires forall i :: 0 <= i < |s.replicas| ==> s.replicas[i].log.made <= s.signed
    ensures HonestMade(Moved(s, mv), faulty)
  {
    hide Step, CommitsBy, Enabled, CommitSigned;
    var s' := Moved(s, mv);
    MoveKeepsSelves(s, mv);
    forall sig | sig in s'.signed && sig.signer !in faulty
      ensures exists i :: 0 <= i < |s'.replicas| && s'.replicas[i].self.local == sig.signer
                          && sig in s'.replicas[i].log.made
    {
      if sig in s.signed {
        var i :| 0 <= i < |s.replicas| && s.replicas[i].self.local == sig.signer && sig in s.replicas[i].log.made;
        assert s'.replicas[i].self.local == sig.signer && sig in s'.replicas[i].log.made;
      } else if mv.Act? {
        StepCommits(s.replicas[mv.who], mv.ev);
        assert s'.replicas[mv.who].self.local == sig.signer && sig in s'.replicas[mv.who].log.made;
      }
    }
  }

  lemma {:induction false} PlayKeepsHonestMade(s: System, moves: seq<Move>, chainId: U64, faulty: set<Bytes>)
    requires Initial(s, chainId) && CanPlay(s, moves) && KeysHeld(s, moves, faulty)
    ensures HonestMade(Play(s, moves), faulty) && SameSelves(s, Play(s, moves))
  {
    hide CanMove, Moved, Inv;
    if moves != [] {
      var front := moves[..|moves| - 1];
      PlayKeepsHonestMade(s, front, chainId, faulty);
      PlayKeepsInv(s, front, chainId);
      MoveKeepsHonestMade(Play(s, front), moves[|moves| - 1], faulty);
      MoveKeepsSelves(Play(s, front), moves[|moves| - 1]);
    }
  }

  ghost predicate HonestOneCommit(scope: Scope, s: System, faulty: set<Bytes>) {
    forall i :: 0 <= i < |s.replicas| && Honest(s, i, faulty) ==> OneCommit(scope, s.replicas[i])
  }

  /** One honest key: what it signed is what its one replica signed. */
  lemma HonestOnce(scope: Scope, s: System, chainId: U64, faulty: set<Bytes>)
    requires HonestMade(s, faulty) && KeysHeld(s, [], faulty)
    requires forall i :: 0 <= i < |s.replicas| ==>
               s.replicas[i].self.chainId == chainId && s.replicas[i].log.made <= s.signed
    ensures HonestSignOnce(scope, s, chainId, faulty)
       <==> HonestOneCommit(scope, s, faulty)
  {
    hide VoteData, Within;
    if HonestSignOnce(scope, s, chainId, faulty) {
      forall i | 0 <= i < |s.replicas| && Honest(s, i, faulty) ensures OneCommit(scope, s.replicas[i]) {
        var e := s.replicas[i];
        forall a, b, h, k | CommitSigned(e, a, h) && CommitSigned(e, b, k) && Within(scope, a, b) ensures h == k {
          assert SignedCommit(s, chainId, e.self.local, a, h) && SignedCommit(s, chainId, e.self.local, b, k);
        }
      }
    }
    if HonestOneCommit(scope, s, faulty) {
      forall who, a, b, h, k |
        who !in faulty && Within(scope, a, b)
        && SignedCommit(s, chainId, who, a, h) && SignedCommit(s, chainId, who, b, k)
        ensures h == k
      {
        var i :| 0 <= i < |s.replicas| && s.replicas[i].self.local == who
                 && Signature(who, VoteData(chainId, a, Commit, h)) in s.replicas[i].log.made;
        var j :| 0 <= j < |s.replicas| && s.replicas[j].self.local == who
                 && Signature(who, VoteData(chainId, b, Commit, k)) in s.replicas[j].log.made;
        assert i == j && Honest(s, i, faulty);
        assert CommitSigned(s.replicas[i], a, h) && CommitSigned(s.replicas[i], b, k);
      }
    }
  }

  lemma MoveOneCommit(scope: Scope, s: System, mv: Move, faulty: set<Bytes>)
    requires CanMove(s, mv)
    ensures HonestOneCommit(scope, Moved(s, mv), faulty)
       <==> && HonestOneCommit(scope, s, faulty)
            && (mv.Act? && Honest(s, mv.who, faulty) ==> NoSwitch(scope, s.replicas[mv.who], mv.ev))
  {
    hide Step, Enabled, NoSwitch, OneCommit;
    MoveKeepsSelves(s, mv);
    if mv.Act? {
      var who, e := mv.who, s.replicas[mv.who];
      StepOneCommit(scope, e, mv.ev);
      assert forall i :: 0 <= i < |s.replicas| && i != who ==> Moved(s, mv).replicas[i] == s.replicas[i];
      assert Moved(s, mv).replicas[who] == Step(e, mv.ev);
      assert Honest(Moved(s, mv), who, faulty) == Honest(s, who, faulty);
    }
  }

  lemma {:induction false} HonestOneCommitIff(scope: Scope, s: System, moves: seq<Move>, chainId: U64,
                        faulty: set<Bytes>)
    requires Initial(s, chainId) && CanPlay(s, moves)
    ensures HonestOneCommit(scope, Play(s, moves), faulty) <==> HonestNeverSwitch(scope, s, moves, faulty)
  {
    hide CanMove, Moved, NoSwitch, HonestOneCommit;
    if moves == [] {
      NobodyCommitted(scope, s, chainId, faulty);
    } else {
      var front := moves[..|moves| - 1];
      HonestOneCommitIff(scope, s, front, chainId, faulty);
      MoveOneCommit(scope, Play(s, front), moves[|moves| - 1], faulty);
    }
  }

  lemma NobodyCommitted(scope: Scope, s: System, chainId: U64, faulty: set<Bytes>)
    requires Initial(s, chainId)
    ensures HonestOneCommit(scope, s, faulty)
  {
    hide VoteData;
  }

  /** The premise of agreement, discharged: when only faulty keys sign elsewhere, everybody else signs at
      most one commit hash per position, or per height, if and only if no event of an honest replica asks it
      to switch there. */
  lemma {:induction false} HonestSignOnceIff(scope: Scope, s: System, moves: seq<Move>, chainId: U64,
                        faulty: set<Bytes>)
    requires Initial(s, chainId) && CanPlay(s, moves) && KeysHeld(s, moves, faulty)
    ensures HonestSignOnce(scope, Play(s, moves), chainId, faulty) <==> HonestNeverSwitch(scope, s, moves, faulty)
  {
    hide Play, CanPlay, HonestMade, HonestSignOnce, HonestNeverSwitch, Inv, OneCommit;
    PlayKeepsInv(s, moves, chainId);
    PlayKeepsHonestMade(s, moves, chainId, faulty);
    SelvesKeepHonest(s, Play(s, moves), moves, faulty);
    HonestOnce(scope, Play(s, moves), chainId, faulty);
    HonestOneCommitIff(scope, s, moves, chainId, faulty);
  }

  lemma SelvesKeepHonest(s: System, p: System, moves: seq<Move>, faulty: set<Bytes>)
    requires SameSelves(s, p) && KeysHeld(s, moves, faulty)
    ensures KeysHeld(p, [], faulty)
  {
  }

  /** Agreement between the engines themselves. If the keys of a group holding at most a third of the
      stake may sign anything, every other key signs only through its one replica, and no event asks an
      honest replica to switch its commit vote at a position, then no two replicas decide differently at one
      height and view; if none asks it to switch at a height, no two decide differently at one height. */
  lemma {:induction false} HonestAgreement(scope: Scope, s: System, moves: seq<Move>, chainId: U64, i: nat, j: nat,
                        k: nat, l: nat, faulty: set<Bytes>)
    requires Initial(s, chainId) && CanPlay(s, moves) && VotesSigned(moves)
    requires KeysHeld(s, moves, faulty) && HonestNeverSwitch(scope, s, moves, faulty)
    requires i < |Play(s, moves).replicas| && j < |Play(s, moves).replicas|
    requires k < |Play(s, moves).replicas[i].log.decisions| && l < |Play(s, moves).replicas[j].log.decisions|
    requires var d, d' := Play(s, moves).replicas[i].log.decisions[k], Play(s, moves).replicas[j].log.decisions[l];
             && Within(scope, d.at, d'.at) && d.vset == d'.vset && Bounded(d.vset)
             && 3 * StakeIn(d.vset.validators, faulty) <= Sum(d.vset.validators)
    ensures Play(s, moves).replicas[i].log.decisions[k].hash == Play(s, moves).replicas[j].log.decisions[l].hash
  {
    hide VoteData;
    HonestSignOnceIff(scope, s, moves, chainId, faulty);
    Agreement(scope, s, moves, chainId, i, j, k, l, faulty);
  }

  /** One replica never decides twice at one height, whatever was signed. */
  lemma {:induction false} OneDecisionPerHeight(s: System, moves: seq<Move>, chainId: U64, i: nat, k: nat, l: nat)
    requires Initial(s, chainId) && CanPlay(s, moves)
    requires i < |Play(s, moves).replicas|
    requires k < |Play(s, moves).replicas[i].log.decisions| && l < |Play(s, moves).replicas[i].log.decisions|
    requires Play(s, moves).replicas[i].log.decisions[k].at.height
          == Play(s, moves).replicas[i].log.decisions[l].at.height
    ensures k == l
  {
    PlayKeepsInv(s, moves, chainId);
  }

  // ---------------------------------------------------------------- why votes must be signed

  lemma DecideRecords(e: Engine, hash: Bytes, height: U64, ans: Answers)
    requires !LockForbids(e, hash, height) && CommitSucceeds(e, height, ans)
    ensures Decide(e, hash, height, ans).log
         == e.log.(decisions := e.log.decisions
                   + [Decision(At(e), hash, Voters(e.book, At(e), Ballot(Commit, hash)), e.vset)])
  {
  }

  lemma NobodyVoted(b: VoteBook, at: Position, ballot: Ballot)
    requires b.registries == map[]
    ensures Voters(b, at, ballot) == {}
  {
  }

  lemma FirstVoteAccepted(a: Bytes, at: Position, phase: Phase, hash: Bytes)
    ensures DS.AfterVote(DS.EMPTY, a, at, phase, hash, {}).1.None?
  {
  }

  /** One commit vote of the only validator decides, signed or not, in whatever view it names. */
  lemma OneVoteDecides(e: Engine, self: Self, v: Validator, m: Message, ans: Answers)
    requires e == Started(NewEngine(self, VSet([v], 1, 0), 0), 1) && v.stake == 1
    requires m.kind == VoteCommit && m.height == 1 && m.validator == v.address
    requires m.signature.Some? ==>
               m.signature.value == Signature(v.address, VoteData(self.chainId, Position(1, m.view), Commit, m.hash))
    requires ans.commit == Committed
    ensures var after := Handle(e, m, ans, {});
            && after.log.decisions == [Decision(Position(1, m.view), m.hash, {v.address}, VSet([v], 1, 0))]
            && after.log.made == {}
  {
    hide DS.AfterVote, Record, SuperMajority, Finalized, Voters, TrimVotes, WellFormed, Bounded, VoteData;
    OneValidatorQuorum(v, {v.address});
    var at := Position(1, m.view);
    var moved := MovedTo(e, m);
    assert Has(moved.vset, v.address) by {
      assert moved.vset.validators[0].address == v.address;
    }
    var d := DS.AfterVote(e.detector, v.address, at, Commit, m.hash, {}).0;
    FirstVoteAccepted(v.address, at, Commit, m.hash);
    var r := RecordVote(moved.(detector := d), m, Commit);
    RecordedVoters(moved.book, at, Ballot(Commit, m.hash), v.address, m.signature, at, Ballot(Commit, m.hash));
    NobodyVoted(moved.book, at, Ballot(Commit, m.hash));
    assert Voters(r.book, at, Ballot(Commit, m.hash)) == {v.address};
    DecideRecords(r, m.hash, 1, ans);
    assert Handle(e, m, ans, {}).log == Decide(r, m.hash, 1, ans).log;
  }

  /** Without the signature condition accountability fails: one unsigned commit vote in the name of
      the only validator decides a block although nobody signed anything. */
  lemma UnsignedVoteDecides(self: Self, v: Validator, hash: Bytes, ans: Answers)
    requires v.stake == 1 && ans.commit == Committed
    ensures var vs := VSet([v], 1, 0);
            var e := Started(NewEngine(self, vs, 0), 1);
            var after := Handle(e, Message(VoteCommit, 1, 0, hash, v.address, None, None, NoPayload), ans, {});
            && WellFormed(vs) && Bounded(vs)
            && |after.log.decisions| == 1 && after.log.decisions[0].hash == hash
            && after.log.decisions[0].voters == {v.address} && after.log.made == {}
  {
    hide Handle, NewEngine, Started, WellFormed, Bounded;
    OneValidatorQuorum(v, {v.address});
    var e := Started(NewEngine(self, VSet([v], 1, 0), 0), 1);
    OneVoteDecides(e, self, v, Message(VoteCommit, 1, 0, hash, v.address, None, None, NoPayload), ans);
  }

  /** A signed commit vote of the only validator, delivered to one replica. */
  function CommitVote(chainId: U64, v: Validator, view: U64, hash: Bytes): Message {
    Message(VoteCommit, 1, view, hash, v.address,
            Some(Signature(v.address, VoteData(chainId, Position(1, view), Commit, hash))), None, NoPayload)
  }

  function TwoViews(chainId: U64, v: Validator, a: Bytes, b: Bytes, ans: Answers): seq<Move> {
    var first, second := CommitVote(chainId, v, 0, a), CommitVote(chainId, v, 1, b);
    [Sign(first.signature.value), Sign(second.signature.value),
     Act(0, Deliver(first, ans, {})), Act(1, Deliver(second, ans, {}))]
  }

  lemma PlaysNothing(s: System)
    ensures CanPlay(s, []) && Play(s, []) == s
  {
  }

  /** One more move of a script. */
  lemma PlaysOn(s: System, moves: seq<Move>, k: nat)
    requires k < |moves| && CanPlay(s, moves[..k]) && CanMove(Play(s, moves[..k]), moves[k])
    ensures CanPlay(s, moves[..k + 1]) && Play(s, moves[..k + 1]) == Moved(Play(s, moves[..k]), moves[k])
  {
    hide CanMove, Moved;
    assert moves[..k + 1][..k] == moves[..k];
  }

  lemma TwoViewsPlay(e: Engine, o: Engine, chainId: U64, v: Validator, a: Bytes, b: Bytes, ans: Answers)
    requires ans.rotation.None?
    requires Handle(e, CommitVote(chainId, v, 0, a), ans, {}).log.made == {}
    requires Handle(o, CommitVote(chainId, v, 1, b), ans, {}).log.made == {}
    ensures var first, second := CommitVote(chainId, v, 0, a), CommitVote(chainId, v, 1, b);
            var s, moves := System([e, o], {}), TwoViews(chainId, v, a, b, ans);
            && CanPlay(s, moves) && VotesSigned(moves)
            && Play(s, moves) == System([Handle(e, first, ans, {}), Handle(o, second, ans, {})],
                                        {first.signature.value, second.signature.value})
  {
    hide Handle, VoteData, CanPlay, Play;
    var first, second := CommitVote(chainId, v, 0, a), CommitVote(chainId, v, 1, b);
    var s, moves := System([e, o], {}), TwoViews(chainId, v, a, b, ans);
    var e', o' := Handle(e, first, ans, {}), Handle(o, second, ans, {});
    PlaysNothing(s);
    assert moves[..0] == [] && moves[..4] == moves;
    PlaysOn(s, moves, 0);
    PlaysOn(s, moves, 1);
    assert Play(s, moves[..2]) == System([e, o], {first.signature.value, second.signature.value});
    PlaysOn(s, moves, 2);
    assert Play(s, moves[..3]) == System([e', o], {first.signature.value, second.signature.value});
    PlaysOn(s, moves, 3);
    assert [e', o][1 := o'] == [e', o'];
  }

  /** Agreement ends at the view: a validator that signs one commit hash in each of two views of a height,
      and so one per position, makes two replicas decide differently. */
  lemma {:induction false} ViewsDisagree(self: Self, other: Self, v: Validator, a: Bytes, b: Bytes, ans: Answers)
    requires v.stake == 1 && self.chainId == other.chainId && ans.commit == Committed && ans.rotation.None?
    ensures var chainId, vs := self.chainId, VSet([v], 1, 0);
            var s := System([Started(NewEngine(self, vs, 0), 1), Started(NewEngine(other, vs, 0), 1)], {});
            var moves := TwoViews(chainId, v, a, b, ans);
            && Initial(s, chainId) && CanPlay(s, moves) && VotesSigned(moves)
            && HonestSignOnce(PerPosition, Play(s, moves), chainId, {})
            && (a != b ==> !HonestSignOnce(PerHeight, Play(s, moves), chainId, {}))
            && |Play(s, moves).replicas| == 2
            && Play(s, moves).replicas[0].log.decisions == [Decision(Position(1, 0), a, {v.address}, vs)]
            && Play(s, moves).replicas[1].log.decisions == [Decision(Position(1, 1), b, {v.address}, vs)]
  {
    hide Handle, NewEngine, Started, VoteData, FreshStart, CanPlay, Play, HonestSignOnce, VotesSigned, TwoViews;
    var chainId, vs := self.chainId, VSet([v], 1, 0);
    var e, o := Started(NewEngine(self, vs, 0), 1), Started(NewEngine(other, vs, 0), 1);
    OvertakingStart(self, v);
    OvertakingStart(other, v);
    OneVoteDecides(e, self, v, CommitVote(chainId, v, 0, a), ans);
    OneVoteDecides(o, other, v, CommitVote(chainId, v, 1, b), ans);
    TwoViewsPlay(e, o, chainId, v, a, b, ans);
    OnePerView(chainId, v, a, b, Play(System([e, o], {}), TwoViews(chainId, v, a, b, ans)));
  }

  lemma OnePerView(chainId: U64, v: Validator, a: Bytes, b: Bytes, s: System)
    requires s.signed == {CommitVote(chainId, v, 0, a).signature.value, CommitVote(chainId, v, 1, b).signature.value}
    ensures HonestSignOnce(PerPosition, s, chainId, {})
    ensures a != b ==> !HonestSignOnce(PerHeight, s, chainId, {})
  {
    hide VoteData;
    if a != b {
      assert SignedCommit(s, chainId, v.address, Position(1, 0), a);
      assert SignedCommit(s, chainId, v.address, Position(1, 1), b);
      assert Within(PerHeight, Position(1, 0), Position(1, 1));
    }
    forall who, at, h, k | SignedCommit(s, chainId, who, at, h) && SignedCommit(s, chainId, who, at, k) ensures h == k {
      forall x, view: U64, y | VoteData(chainId, at, Commit, x) == VoteData(chainId, Position(1, view), Commit, y)
        ensures at == Position(1, view) && x == y
      {
        VoteDataBinds(chainId, at, Commit, x, Position(1, view), Commit, y);
      }
    }
    assert forall x: Position, y :: Within(PerPosition, x, y) ==> x == y;
  }
}
