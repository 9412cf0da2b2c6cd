/** What every step of an engine keeps, and how a step may change it. */
module EngineInvariants {
  import opened Words
  import opened ConsensusTypes
  import opened ValidatorSets
  import opened EngineModel
  import DS = DoubleSigns
  import F = Finality

  // ---------------------------------------------------------------- the invariant

  /** `curHeight` and `curView` mirror the state fields. */
  ghost predicate Mirrored(c: Core) {
    c.curHeight == c.height && c.curView == c.view
  }

  /** Commits are the consecutive heights above `base`. */
  ghost predicate Consecutive(l: Ledger) {
    && l.chain == l.base + |l.commits|
    && (forall i :: 0 <= i < |l.commits| ==> l.commits[i].height == l.base + 1 + i)
  }

  /** The last block was added by a call that reported an error. */
  predicate Behind(commits: seq<CommitEntry>) {
    commits != [] && commits[|commits| - 1].path == Unreported
  }

  /** The engine works on the height above the chain, except between the two steps of an apply, when it
      still works on the applied height; after an unreported block it works on a height already taken. */
  ghost predicate InStep(c: Core, l: Ledger) {
    match l.applying
    case None => if Behind(l.commits) then 0 < c.height <= l.chain else c.height == Wrap(l.chain + 1)
    case Some(h) =>
      && h == l.chain && l.commits != [] && l.commits[|l.commits| - 1].path == ByApply
      && if Behind(l.commits[..|l.commits| - 1]) then 0 < c.height < h else c.height == h
  }

  ghost predicate HasPath(commits: seq<CommitEntry>, path: Path) {
    exists i :: 0 <= i < |commits| && commits[i].path == path
  }

  lemma OneMoreCommit(commits: seq<CommitEntry>, c: CommitEntry)
    ensures forall path :: HasPath(commits + [c], path) <==> HasPath(commits, path) || c.path == path
    ensures Behind(commits + [c]) <==> c.path == Unreported
    ensures (commits + [c])[..|commits|] == commits
  {
    forall path ensures HasPath(commits + [c], path) <==> HasPath(commits, path) || c.path == path {
      if i :| 0 <= i < |commits| && commits[i].path == path {
        assert (commits + [c])[i].path == path;
      }
      assert (commits + [c])[|commits|] == c;
      if i :| 0 <= i < |commits + [c]| && (commits + [c])[i].path == path {
        assert i < |commits| ==> commits[i].path == path;
      }
    }
  }

  /** A state is saved exactly when `decide` committed a block, and it is on a height of the chain. */
  ghost predicate SavedBelow(saved: Option<Core>, l: Ledger) {
    && (saved.Some? ==> 0 < saved.value.height <= l.chain)
    && (saved.Some? <==> HasPath(l.commits, ByDecide))
  }

  ghost predicate FinalityBelow(g: F.Gadget, chain: U64) {
    && 0.0 <= g.requiredVotes <= 1.0
    && g.lastFinalized <= chain
    && (forall i :: 0 <= i < |g.checkpoints| ==> g.checkpoints[i].height <= chain)
  }

  /** Every recorded vote has its signature cached, valid for the ballot and made by somebody. */
  ghost predicate BallotSigned(self: Self, b: VoteBook, signed: set<Signature>, at: Position, ballot: Ballot) {
    && Voters(b, at, ballot) == Cached(b, at, ballot).Keys
    && (forall a :: a in Cached(b, at, ballot) ==>
          && VerifySign(a, VoteData(self.chainId, at, ballot.phase, ballot.hash), Cached(b, at, ballot)[a])
          && Cached(b, at, ballot)[a] in signed)
  }

  ghost predicate BookSigned(self: Self, b: VoteBook, signed: set<Signature>) {
    forall at, ballot :: BallotSigned(self, b, signed, at, ballot)
  }

  ghost predicate VotersSigned(self: Self, d: Decision, signed: set<Signature>) {
    forall a :: a in d.voters ==> Signature(a, VoteData(self.chainId, d.at, Commit, d.hash)) in signed
  }

  /** Decisions are made at increasing heights of the chain, each by a quorum of a well-formed set. */
  ghost predicate Decisions(ds: seq<Decision>, chain: U64) {
    && (forall i :: 0 <= i < |ds| ==>
          Consistent(ds[i].vset) && SuperMajority(ds[i].vset, ds[i].voters) && ds[i].at.height <= chain)
    && (forall i, j :: 0 <= i < j < |ds| ==> ds[i].at.height < ds[j].at.height)
  }

  /** Apart from the local validator, whoever appears under a hash is remembered for that hash. */
  ghost predicate Agrees(local: Bytes, b: VoteBook, d: DS.Detector) {
    forall at, ballot, a :: a in Voters(b, at, ballot) && a != local ==>
      DS.Remembered(d, a, at, ballot.phase) == Some(ballot.hash)
  }

  ghost predicate Inv(e: Engine, known: set<Signature>) {
    var signed := known + e.log.made;
    && Mirrored(e.core)
    && Consecutive(e.ledger)
    && InStep(e.core, e.ledger)
    && FinalityBelow(e.finality, e.ledger.chain)
    && Consistent(e.vset)
    && SavedBelow(e.saved, e.ledger)
    && Decisions(e.log.decisions, e.ledger.chain)
    && (e.log.allSigned ==>
        && BookSigned(e.self, e.book, signed)
        && forall i :: 0 <= i < |e.log.decisions| ==> VotersSigned(e.self, e.log.decisions[i], signed))
    && (!e.detector.trimmed ==> Agrees(e.self.local, e.book, e.detector))
  }

  /** The lexicographic order of (height, view). */
  ghost predicate NotBefore(c: Core, c': Core) {
    c.height < c'.height || (c.height == c'.height && c.view <= c'.view)
  }

  ghost predicate LockGrows(c: Core, c': Core) {
    c.locked.Some? ==> c'.locked.Some? && c.locked.value.at.view <= c'.locked.value.at.view
  }

  /** What a step may only add to. */
  ghost predicate Accrues(e: Engine, e': Engine) {
    && e'.self == e.self
    && e.log.made <= e'.log.made
    && (e'.log.allSigned ==> e.log.allSigned)
    && e.log.decisions <= e'.log.decisions
    && e.ledger.base == e'.ledger.base && e.ledger.commits <= e'.ledger.commits && e.ledger.chain <= e'.ledger.chain
    && LockGrows(e.core, e'.core)
    && DS.Extends(e.detector, e'.detector)
  }

  /** A step also never moves the position back. The order is claimed while the chain is below the
      last `uint64` height, where `height + 1` wraps. */
  ghost predicate Grows(e: Engine, e': Engine) {
    Accrues(e, e') && (e'.ledger.chain < MAX64 ==> NotBefore(e.core, e'.core))
  }

  /** A step commits at most one block, and a block committed by `decide` is finalized. */
  ghost predicate CommitsFinalize(e: Engine, e': Engine) {
    var n, n' := |e.ledger.commits|, |e'.ledger.commits|;
    && n' <= n + 1
    && (n' == n + 1 && e'.ledger.commits[n].path == ByDecide ==>
          && e'.finality.lastFinalized == e'.ledger.commits[n].height
          && e'.core.height == Wrap(e'.finality.lastFinalized + 1))
  }

  lemma AccruesTransitive(a: Engine, b: Engine, c: Engine)
    requires Accrues(a, b) && Accrues(b, c)
    ensures Accrues(a, c)
  {
  }

  lemma GrowsTransitive(a: Engine, b: Engine, c: Engine)
    requires Grows(a, b) && Grows(b, c)
    ensures Grows(a, c)
  {
  }

  // ---------------------------------------------------------------- the vote book

  lemma RecordedVoters(b: VoteBook, at: Position, ballot: Ballot, who: Bytes, sig: Option<Signature>, at': Position,
                       ballot': Ballot)
    ensures var b' := Record(b, at, ballot, who, sig);
            && Voters(b', at', ballot')
               == (if (at', ballot') == (at, ballot) then Voters(b, at, ballot) + {who} else Voters(b, at', ballot'))
            && Cached(b', at', ballot')
               == (if (at', ballot') == (at, ballot) && sig.Some? then Cached(b, at, ballot)[who := sig.value]
                   else Cached(b, at', ballot'))
  {
  }

  lemma MineKeepsVoters(b: VoteBook, at: Position, phase: Phase, hash: Bytes, at': Position, ballot: Ballot)
    ensures Voters(RecordMine(b, at, phase, hash), at', ballot) == Voters(b, at', ballot)
    ensures Cached(RecordMine(b, at, phase, hash), at', ballot) == Cached(b, at', ballot)
  {
  }

  lemma TouchKeepsVoters(b: VoteBook, at: Position, at': Position, ballot: Ballot)
    ensures Voters(Touch(b, at), at', ballot) == Voters(b, at', ballot)
    ensures Cached(Touch(b, at), at', ballot) == Cached(b, at', ballot)
  {
  }

  /** Trimming drops whole registries. */
  lemma TrimDropsRegistries(b: VoteBook, height: U64, at: Position, ballot: Ballot)
    ensures var b' := TrimVotes(b, height);
            || (Voters(b', at, ballot) == Voters(b, at, ballot) && Cached(b', at, ballot) == Cached(b, at, ballot))
            || (Voters(b', at, ballot) == {} && Cached(b', at, ballot) == map[])
  {
    var b' := TrimVotes(b, height);
    if at in b'.registries {
      assert b'.registries[at] == b.registries[at];
    }
  }

  lemma SignedMonotone(self: Self, b: VoteBook, s: set<Signature>, t: set<Signature>)
    requires BookSigned(self, b, s) && s <= t
    ensures BookSigned(self, b, t)
  {
    forall at, ballot ensures BallotSigned(self, b, t, at, ballot) {
      assert BallotSigned(self, b, s, at, ballot);
    }
  }

  lemma RecordKeepsSigned(self: Self, b: VoteBook, s: set<Signature>, at: Position, ballot: Ballot, who: Bytes,
                        sig: Signature)
    requires BookSigned(self, b, s) && sig in s
    requires VerifySign(who, VoteData(self.chainId, at, ballot.phase, ballot.hash), sig)
    ensures BookSigned(self, Record(b, at, ballot, who, Some(sig)), s)
  {
    var b' := Record(b, at, ballot, who, Some(sig));
    forall at', ballot' ensures BallotSigned(self, b', s, at', ballot') {
      assert BallotSigned(self, b, s, at', ballot');
      RecordedVoters(b, at, ballot, who, Some(sig), at', ballot');
    }
  }

  lemma MineKeepsSigned(self: Self, b: VoteBook, s: set<Signature>, at: Position, phase: Phase, hash: Bytes)
    requires BookSigned(self, b, s)
    ensures BookSigned(self, RecordMine(b, at, phase, hash), s)
  {
    forall at', ballot ensures BallotSigned(self, RecordMine(b, at, phase, hash), s, at', ballot) {
      assert BallotSigned(self, b, s, at', ballot);
      MineKeepsVoters(b, at, phase, hash, at', ballot);
    }
  }

  lemma TouchKeepsSigned(self: Self, b: VoteBook, s: set<Signature>, at: Position)
    requires BookSigned(self, b, s)
    ensures BookSigned(self, Touch(b, at), s)
  {
    forall at', ballot ensures BallotSigned(self, Touch(b, at), s, at', ballot) {
      assert BallotSigned(self, b, s, at', ballot);
      TouchKeepsVoters(b, at, at', ballot);
    }
  }

  lemma TrimKeepsSigned(self: Self, b: VoteBook, s: set<Signature>, height: U64)
    requires BookSigned(self, b, s)
    ensures BookSigned(self, TrimVotes(b, height), s)
  {
    forall at', ballot ensures BallotSigned(self, TrimVotes(b, height), s, at', ballot) {
      assert BallotSigned(self, b, s, at', ballot);
      TrimDropsRegistries(b, height, at', ballot);
    }
  }

  lemma ClearedIsSigned(self: Self, b: VoteBook, s: set<Signature>)
    requires b.registries == map[]
    ensures BookSigned(self, b, s)
  {
  }

  lemma RecordOwnKeepsAgreement(local: Bytes, b: VoteBook, d: DS.Detector, at: Position, ballot: Ballot,
                        sig: Option<Signature>)
    requires Agrees(local, b, d)
    ensures Agrees(local, Record(b, at, ballot, local, sig), d)
  {
    forall at', ballot', a | a in Voters(Record(b, at, ballot, local, sig), at', ballot') && a != local
      ensures DS.Remembered(d, a, at', ballot'.phase) == Some(ballot'.hash)
    {
      RecordedVoters(b, at, ballot, local, sig, at', ballot');
      assert a in Voters(b, at', ballot');
    }
  }

  lemma MineKeepsAgreement(local: Bytes, b: VoteBook, d: DS.Detector, at: Position, phase: Phase, hash: Bytes)
    requires Agrees(local, b, d)
    ensures Agrees(local, RecordMine(b, at, phase, hash), d)
  {
    forall at', ballot, a | a in Voters(RecordMine(b, at, phase, hash), at', ballot) && a != local
      ensures DS.Remembered(d, a, at', ballot.phase) == Some(ballot.hash)
    {
      MineKeepsVoters(b, at, phase, hash, at', ballot);
      assert a in Voters(b, at', ballot);
    }
  }

  lemma TouchKeepsAgreement(local: Bytes, b: VoteBook, d: DS.Detector, at: Position)
    requires Agrees(local, b, d)
    ensures Agrees(local, Touch(b, at), d)
  {
    forall at', ballot, a | a in Voters(Touch(b, at), at', ballot) && a != local
      ensures DS.Remembered(d, a, at', ballot.phase) == Some(ballot.hash)
    {
      TouchKeepsVoters(b, at, at', ballot);
      assert a in Voters(b, at', ballot);
    }
  }

  lemma TrimKeepsAgreement(local: Bytes, b: VoteBook, d: DS.Detector, height: U64)
    requires Agrees(local, b, d)
    ensures Agrees(local, TrimVotes(b, height), d)
  {
    forall at', ballot, a | a in Voters(TrimVotes(b, height), at', ballot) && a != local
      ensures DS.Remembered(d, a, at', ballot.phase) == Some(ballot.hash)
    {
      TrimDropsRegistries(b, height, at', ballot);
      assert a in Voters(b, at', ballot);
    }
  }

  lemma DetectorGrowthKeepsAgreement(local: Bytes, b: VoteBook, d: DS.Detector, d': DS.Detector)
    requires Agrees(local, b, d) && DS.Extends(d, d') && !d'.trimmed
    ensures Agrees(local, b, d')
  {
    forall at, ballot, a | a in Voters(b, at, ballot) && a != local
      ensures DS.Remembered(d', a, at, ballot.phase) == Some(ballot.hash)
    {
      assert DS.Remembered(d, a, at, ballot.phase).Some?;
    }
  }

  /** A vote enters the registry only after the detector accepted its hash. */
  lemma {:induction false} AcceptedVoteAgrees(local: Bytes, b: VoteBook, d: DS.Detector, m: Message, phase: Phase,
                        drop: set<Position>)
    requires var at := Position(m.height, m.view);
             var (d', conflict) := DS.AfterVote(d, m.validator, at, phase, m.hash, drop);
             conflict.None? && !d'.trimmed && Agrees(local, b, d)
    ensures var at := Position(m.height, m.view);
            Agrees(local, Record(b, at, Ballot(phase, m.hash), m.validator, m.signature),
                   DS.AfterVote(d, m.validator, at, phase, m.hash, drop).0)
  {
    var at := Position(m.height, m.view);
    var ballot := Ballot(phase, m.hash);
    var d' := DS.AfterVote(d, m.validator, at, phase, m.hash, drop).0;
    var b' := Record(b, at, ballot, m.validator, m.signature);
    DS.CheckVoteRemembers(d, m.validator, at, phase, m.hash, drop);
    forall at', ballot', a | a in Voters(b', at', ballot') && a != local
      ensures DS.Remembered(d', a, at', ballot'.phase) == Some(ballot'.hash)
    {
      RecordedVoters(b, at, ballot, m.validator, m.signature, at', ballot');
      if a in Voters(b, at', ballot') {
        assert DS.Remembered(d, a, at', ballot'.phase).Some?;
      }
    }
  }
}
