/** Whole runs of one engine: exactly-once commit, progress, registry and detector, certificates. */
module EngineRuns {
  import opened Words
  import opened HexText
  import opened ConsensusTypes
  import opened ValidatorSets
  import opened EngineModel
  import opened EngineInvariants
  import opened EngineSteps
  import DS = DoubleSigns
  import F = Finality

  // ---------------------------------------------------------------- runs

  ghost predicate CanRun(e: Engine, evs: seq<Event>)
    decreases |evs|, 0
  {
    evs == [] || (CanRun(e, evs[..|evs| - 1]) && Enabled(Run(e, evs[..|evs| - 1]), evs[|evs| - 1]))
  }

  ghost function Run(e: Engine, evs: seq<Event>): Engine
    requires CanRun(e, evs)
    decreases |evs|, 1
  {
    if evs == [] then e else Step(Run(e, evs[..|evs| - 1]), evs[|evs| - 1])
  }

  ghost function Signatures(evs: seq<Event>): set<Signature> {
    set ev | ev in evs && ev.Deliver? && ev.m.signature.Some? :: ev.m.signature.value
  }

  /** An engine started, with no saved state, on the height above its chain. */
  ghost predicate FreshStart(e: Engine) {
    exists self: Self, vset: VSet, chain: U64 ::
      Consistent(vset) && chain < MAX64 && e == Started(NewEngine(self, vset, chain), chain + 1)
  }

  lemma FreshStartInv(e: Engine)
    requires FreshStart(e)
    ensures Inv(e, {})
  {
    ClearedIsSigned(e.self, e.book, {} + e.log.made);
  }

  lemma InvMonotone(e: Engine, known: set<Signature>, more: set<Signature>)
    requires Inv(e, known) && known <= more
    ensures Inv(e, more)
  {
    if e.log.allSigned {
      SignedMonotone(e.self, e.book, known + e.log.made, more + e.log.made);
    }
  }

  lemma {:induction false} RunKeeps(e: Engine, evs: seq<Event>)
    requires FreshStart(e) && CanRun(e, evs)
    ensures Inv(Run(e, evs), Signatures(evs)) && Accrues(e, Run(e, evs))
  {
    hide Inv, Step, Enabled, Grows, CommitsFinalize, FreshStart, ViewWraps;
    if evs == [] {
      FreshStartInv(e);
      InvMonotone(e, {}, Signatures(evs));
    } else {
      var front, ev := evs[..|evs| - 1], evs[|evs| - 1];
      RunKeeps(e, front);
      assert evs == front + [ev];
      InvMonotone(Run(e, front), Signatures(front), Signatures(evs));
      StepKeeps(Run(e, front), ev, Signatures(evs));
      AccruesTransitive(e, Run(e, front), Run(e, evs));
    }
  }

  // ---------------------------------------------------------------- exactly-once commit

  /** Every interleaving of `decide` with the two steps of an apply adds each height above the starting
      chain once and in order. Whenever no apply is between its steps, the engine works on the height
      above the chain exactly when the last block was not added by a call that reported an error. */
  lemma {:induction false} ExactlyOnceCommit(e: Engine, evs: seq<Event>)
    requires FreshStart(e) && CanRun(e, evs)
    ensures var l := Run(e, evs).ledger;
            && l.base == e.ledger.chain
            && l.chain == l.base + |l.commits|
            && (forall i :: 0 <= i < |l.commits| ==> l.commits[i].height == l.base + 1 + i)
            && (l.applying.None? ==> (Run(e, evs).core.height == Wrap(l.chain + 1) <==> !Behind(l.commits)))
  {
    hide *;
    RunKeeps(e, evs);
    FreshLedger(e, Run(e, evs));
    LedgerOf(Run(e, evs), Signatures(evs));
  }

  lemma FreshLedger(e: Engine, r: Engine)
    requires FreshStart(e) && Accrues(e, r)
    ensures r.ledger.base == e.ledger.chain
  {
  }

  lemma LedgerOf(r: Engine, known: set<Signature>)
    requires Inv(r, known)
    ensures var l := r.ledger;
            && l.chain == l.base + |l.commits|
            && (forall i :: 0 <= i < |l.commits| ==> l.commits[i].height == l.base + 1 + i)
            && (l.applying.None? ==> (r.core.height == Wrap(l.chain + 1) <==> !Behind(l.commits)))
  {
    hide BookSigned, Decisions, Agrees, SavedBelow, Consistent, FinalityBelow, VotersSigned;
  }

  /** The engine is where its chain is: on the next height or, while an apply is between its steps, still
      on the applied one. */
  ghost predicate OnChain(r: Engine) {
    match r.ledger.applying
    case None => r.core.height == Wrap(r.ledger.chain + 1)
    case Some(h) => h == r.ledger.chain == r.core.height
  }

  ghost predicate AlwaysOnChain(e: Engine, evs: seq<Event>)
    requires CanRun(e, evs)
    decreases |evs|
  {
    OnChain(Run(e, evs)) && (evs == [] || AlwaysOnChain(e, evs[..|evs| - 1]))
  }

  /** Over whole runs: the engine is where its chain is at every point if and only if no commit call
      reported an error after adding its block, that is, every block was committed by `decide` or an apply. */
  lemma {:induction false} OnChainIff(e: Engine, evs: seq<Event>)
    requires FreshStart(e) && CanRun(e, evs)
    ensures AlwaysOnChain(e, evs) <==> !HasPath(Run(e, evs).ledger.commits, Unreported)
  {
    hide Enabled, Step, HasPath, Accrues, CommitsFinalize, Inv, OnChain;
    NoPathAtStart(e, Unreported);
    RunKeeps(e, evs);
    WhereItIs(Run(e, evs), Signatures(evs));
    if evs != [] {
      var front := evs[..|evs| - 1];
      OnChainIff(e, front);
      RunKeeps(e, front);
      LastStep(e, evs);
      LaterCommits(Run(e, front), Run(e, evs));
    }
  }

  lemma NoPathAtStart(e: Engine, path: Path)
    requires FreshStart(e)
    ensures e.ledger.commits == [] && !HasPath(e.ledger.commits, path) && OnChain(e)
  {
  }

  /** The relation, read off the invariant. */
  lemma WhereItIs(r: Engine, known: set<Signature>)
    requires Inv(r, known)
    ensures !HasPath(r.ledger.commits, Unreported) ==> OnChain(r)
    ensures Behind(r.ledger.commits) ==> !OnChain(r)
  {
    var cs := r.ledger.commits;
    if Behind(cs) {
      assert HasPath(cs, Unreported);
    }
    if cs != [] && Behind(cs[..|cs| - 1]) {
      assert cs[|cs| - 2].path == Unreported;
    }
  }

  /** A step adds at most one commit. */
  lemma LaterCommits(a: Engine, b: Engine)
    requires Accrues(a, b) && CommitsFinalize(a, b)
    ensures HasPath(b.ledger.commits, Unreported)
       <==> HasPath(a.ledger.commits, Unreported)
            || (|b.ledger.commits| > |a.ledger.commits| && Behind(b.ledger.commits))
  {
    var n := |a.ledger.commits|;
    if |b.ledger.commits| > n {
      assert b.ledger.commits == a.ledger.commits + [b.ledger.commits[n]];
      OneMoreCommit(a.ledger.commits, b.ledger.commits[n]);
    } else {
      assert b.ledger.commits == a.ledger.commits;
    }
  }

  /** A later block applied from synchronisation brings the engine back onto its chain. */
  lemma ApplyCatchesUp(r: Engine, known: set<Signature>, ans: Answers)
    requires Inv(r, known) && r.ledger.applying.None? && r.ledger.chain < MAX64 && ans.commit == Committed
    ensures var committed := ApplyCommit(r, r.ledger.chain + 1, ans);
            committed.ledger.applying.Some? && OnChain(ApplyUpdate(committed, committed.ledger.applying.value))
  {
  }

  /** The failing input: one decision whose commit call adds the block and then reports an error leaves
      the engine on the height just taken, where no later call can succeed. */
  lemma ErrorAfterAddingStrands(e: Engine, hash: Bytes, ans: Answers, later: Answers)
    requires e.core.height == e.ledger.chain + 1 && !LockForbids(e, hash, e.core.height)
    requires ans.commit == AddedWithError
    ensures var d := Decide(e, hash, e.core.height, ans);
            && d.core.height == d.ledger.chain == e.core.height && Behind(d.ledger.commits)
            && d.log.decisions == e.log.decisions && d.finality == e.finality
            && Decide(d, hash, d.core.height, later).ledger == d.ledger
  {
    OneMoreCommit(e.ledger.commits, CommitEntry(e.core.height, Unreported));
  }

  // ---------------------------------------------------------------- restart

  /** Starting again on the height above the chain gets there if and only if no state was saved, that is,
      unless a block was committed by `decide`: the state is saved before the height moves. */
  lemma {:induction false} RestartKeepsIff(e: Engine, evs: seq<Event>)
    requires FreshStart(e) && CanRun(e, evs)
    ensures var r := Run(e, evs);
            var next := Wrap(r.ledger.chain + 1);
            && (Started(r, next).core.height == next <==> r.saved.None?)
            && (r.saved.None? <==> !HasPath(r.ledger.commits, ByDecide))
            && (r.saved.Some? ==> Started(r, next).core.height <= r.ledger.chain)
  {
    hide *;
    RunKeeps(e, evs);
    RestartOf(Run(e, evs), Signatures(evs));
  }

  lemma RestartOf(r: Engine, known: set<Signature>)
    requires Inv(r, known)
    ensures var next := Wrap(r.ledger.chain + 1);
            && (Started(r, next).core.height == next <==> r.saved.None?)
            && (r.saved.None? <==> !HasPath(r.ledger.commits, ByDecide))
            && (r.saved.Some? ==> Started(r, next).core.height <= r.ledger.chain)
  {
    hide BookSigned, Decisions, Agrees, HasPath, Consistent, FinalityBelow, InStep, Consecutive, VotersSigned;
  }

  // ---------------------------------------------------------------- progress

  ghost predicate NoViewWrap(e: Engine, evs: seq<Event>)
    requires CanRun(e, evs)
  {
    evs == []
    || (NoViewWrap(e, evs[..|evs| - 1]) && (evs[|evs| - 1].Timer? ==> !ViewWraps(Run(e, evs[..|evs| - 1]))))
  }

  lemma LastStep(e: Engine, evs: seq<Event>)
    requires FreshStart(e) && CanRun(e, evs) && evs != []
    ensures var last, r := Run(e, evs[..|evs| - 1]), Run(e, evs);
            && CommitsFinalize(last, r) && Accrues(last, r)
            && ((evs[|evs| - 1].Timer? ==> !ViewWraps(last)) ==> Grows(last, r))
  {
    hide Inv, Step, Enabled, Grows, Accrues, CommitsFinalize, FreshStart, ViewWraps;
    var front, ev := evs[..|evs| - 1], evs[|evs| - 1];
    var last := Run(e, front);
    assert Run(e, evs) == Step(last, ev);
    RunKeeps(e, front);
    assert evs == front + [ev];
    InvMonotone(last, Signatures(front), Signatures(evs));
    StepKeeps(last, ev, Signatures(evs));
  }

  /** Over a run whose view counter never wraps, (height, view) never decreases, the published
      height and view match the state, and a set lock stays set with a view that never decreases. */
  lemma {:induction false} ProgressOrder(e: Engine, evs: seq<Event>, k: nat)
    requires FreshStart(e) && CanRun(e, evs) && NoViewWrap(e, evs) && k <= |evs|
    ensures CanRun(e, evs[..k])
    ensures var a, b := Run(e, evs[..k]), Run(e, evs);
            && Grows(a, b)
            && b.core.curHeight == b.core.height && b.core.curView == b.core.view
            && (b.ledger.chain < MAX64 ==> NotBefore(a.core, b.core))
            && (a.core.locked.Some? ==>
                  b.core.locked.Some? && a.core.locked.value.at.view <= b.core.locked.value.at.view)
  {
    RunKeeps(e, evs);
    if k == |evs| {
      assert evs[..k] == evs;
    } else {
      var front := evs[..|evs| - 1];
      ProgressOrder(e, front, k);
      assert front[..k] == evs[..k];
      LastStep(e, evs);
      GrowsTransitive(Run(e, evs[..k]), Run(e, front), Run(e, evs));
    }
  }

  /** After each step that commits through `decide`, the last finalized height is the decided one. */
  lemma {:induction false} DecideFinalizes(e: Engine, evs: seq<Event>)
    requires FreshStart(e) && CanRun(e, evs) && evs != []
    ensures CommitsFinalize(Run(e, evs[..|evs| - 1]), Run(e, evs))
  {
    LastStep(e, evs);
  }

  // ---------------------------------------------------------------- registry and detector

  /** In every reachable state whose detector history was never trimmed, a validator other than the
      local one appears under at most one hash per (height, view, phase). */
  lemma {:induction false} OneHashPerVoter(e: Engine, evs: seq<Event>, at: Position, phase: Phase, h: Bytes, k: Bytes,
                        a: Bytes)
    requires FreshStart(e) && CanRun(e, evs) && !Run(e, evs).detector.trimmed
    requires a != Run(e, evs).self.local
    requires a in Voters(Run(e, evs).book, at, Ballot(phase, h)) && a in Voters(Run(e, evs).book, at, Ballot(phase, k))
    ensures h == k
  {
    RunKeeps(e, evs);
  }

  /** Hence, when the local validator holds at most a third of the stake, at most one hash per
      (height, view, phase) can have a supermajority. */
  lemma OneQuorumPerPhase(e: Engine, evs: seq<Event>, at: Position, phase: Phase, h: Bytes, k: Bytes)
    requires FreshStart(e) && CanRun(e, evs) && !Run(e, evs).detector.trimmed
    requires var vs := Run(e, evs).vset;
             Bounded(vs) && 3 * StakeOf(vs.validators, Run(e, evs).self.local) <= Sum(vs.validators)
    requires HasQuorum(Run(e, evs), at, phase, h) && HasQuorum(Run(e, evs), at, phase, k)
    ensures h == k
  {
    var r := Run(e, evs);
    var s, t := Voters(r.book, at, Ballot(phase, h)), Voters(r.book, at, Ballot(phase, k));
    RunKeeps(e, evs);
    QuorumsIntersect(r.vset, s, t);
    if h != k {
      forall a | a in s * t ensures a == r.self.local {
        if a != r.self.local {
          OneHashPerVoter(e, evs, at, phase, h, k, a);
        }
      }
      StakeInMonotone(r.vset.validators, s * t, {r.self.local});
      StakeInOne(r.vset.validators, r.self.local);
      assert false;
    }
  }

  // ---------------------------------------------------------------- certificates

  lemma FormedTexts(e: Engine, at: Position, phase: Phase, hash: Bytes)
    ensures var qc := FormQC(e, at, phase, hash);
            var sigs := Cached(e.book, at, Ballot(phase, hash));
            && qc.addrs == qc.signatures.Keys == Texts(sigs.Keys)
            && forall a :: a in sigs ==> Encode(a) in qc.signatures && qc.signatures[Encode(a)] == sigs[a]
  {
    EncodeInjective();
  }

  /** A certificate formed from the cache is valid exactly when the cached signers are a supermajority:
      its texts are the encoder's, so every signer counts once. */
  lemma FormedQCValidity(e: Engine, at: Position, phase: Phase, hash: Bytes)
    ensures ValidQC(e.vset, FormQC(e, at, phase, hash))
       <==> SuperMajority(e.vset, Cached(e.book, at, Ballot(phase, hash)).Keys)
  {
    var qc := FormQC(e, at, phase, hash);
    FormedTexts(e, at, phase, hash);
    assert qc.addrs * qc.signatures.Keys == qc.signatures.Keys;
    TextQuorum(e.vset, Cached(e.book, at, Ballot(phase, hash)).Keys);
  }

  /** While every recorded vote was signed, the voters of each ballot are exactly the cached signers,
      so whatever `HasSuperMajority` accepts, `createQC` turns into a certificate that is valid and
      whose every signature verifies for the ballot. */
  lemma {:induction false} QuorumFormsValidQC(e: Engine, evs: seq<Event>, at: Position, phase: Phase, hash: Bytes)
    requires FreshStart(e) && CanRun(e, evs) && Run(e, evs).log.allSigned
    ensures var r := Run(e, evs);
            var qc := FormQC(r, at, phase, hash);
            var voters := Voters(r.book, at, Ballot(phase, hash));
            && qc.addrs == qc.signatures.Keys == Texts(voters)
            && (HasQuorum(r, at, phase, hash) <==> ValidQC(r.vset, qc))
            && (forall a :: a in voters ==>
                  Encode(a) in qc.signatures
                  && VerifySign(a, VoteData(r.self.chainId, at, phase, hash), qc.signatures[Encode(a)]))
  {
    hide FormQC, Encode, Texts, ValidQC;
    RunKeeps(e, evs);
    var r := Run(e, evs);
    assert BallotSigned(r.self, r.book, Signatures(evs) + r.log.made, at, Ballot(phase, hash));
    FormedTexts(r, at, phase, hash);
    FormedQCValidity(r, at, phase, hash);
  }

  /** A received certificate is valid exactly when its signers are a supermajority, provided no two of its
      listed and signed texts name one validator with stake. */
  lemma ReceivedQCValidity(vs: VSet, qc: QC)
    requires NamesEachOnce(vs.validators, qc.addrs * qc.signatures.Keys)
    ensures ValidQC(vs, qc) <==> SuperMajority(vs, Signers(qc.addrs * qc.signatures.Keys))
  {
    CountedOnceIff(vs.validators, qc.addrs * qc.signatures.Keys);
  }

  /** The signature requirement is exact. Recording an accepted vote keeps every registry entry
      signed if and only if the message carries a signature (or repeats a recorded vote). */
  lemma SignedIffMessageSigned(e: Engine, m: Message, phase: Phase, signed: set<Signature>)
    requires BookSigned(e.self, e.book, signed) && VoteAuthentic(e, m, phase)
    requires m.signature.Some? ==> m.signature.value in signed
    ensures BookSigned(e.self, RecordVote(e, m, phase).book, signed)
       <==> m.signature.Some? || m.validator in Voters(e.book, Position(m.height, m.view), Ballot(phase, m.hash))
  {
    var at, ballot := Position(m.height, m.view), Ballot(phase, m.hash);
    var b' := RecordVote(e, m, phase).book;
    RecordedVoters(e.book, at, ballot, m.validator, m.signature, at, ballot);
    assert BallotSigned(e.self, e.book, signed, at, ballot);
    if m.signature.Some? {
      RecordKeepsSigned(e.self, e.book, signed, at, ballot, m.validator, m.signature.value);
    } else if m.validator in Voters(e.book, at, ballot) {
      forall at', ballot' ensures BallotSigned(e.self, b', signed, at', ballot') {
        assert BallotSigned(e.self, e.book, signed, at', ballot');
        RecordedVoters(e.book, at, ballot, m.validator, m.signature, at', ballot');
        assert Voters(e.book, at, ballot) + {m.validator} == Voters(e.book, at, ballot);
      }
    } else {
      assert m.validator in Voters(b', at, ballot) && m.validator !in Cached(b', at, ballot);
      assert !BallotSigned(e.self, b', signed, at, ballot);
    }
  }
}
