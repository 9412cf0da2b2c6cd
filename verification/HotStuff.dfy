/** The engine object: its fields and its locked handlers, each proved to do to the object's state
    what the state machine in `EngineModel` says.

    The object owns its validator set, detector and finality gadget. Its abstract value `State` gathers their
    values with its own fields, so that every theorem about the state machine is one about the object. */
module HotStuff {
  import opened Words
  import opened HexText
  import opened ConsensusTypes
  import opened ValidatorSets
  import opened EngineModel
  import M = EngineModel
  import DS = DoubleSigns
  import F = Finality

  class HotStuffEngine {
    const local: Bytes
    const chainId: U64
    const epochLength: U64

    /** `hs.state`, with the published `curHeight` and `curView`. */
    var state: Core

    var validatorSet: ValidatorSet
    var doubleSign: DS.DoubleSignDetector
    var finality: F.FinalityGadget

    var votes: VoteBook
    var timeouts: Timeouts
    var pendingBlocks: map<U64, Bytes>
    var epochStart: U64
    var stateStore: Option<Core>

    /** The block producer's chain, with the history of commits. */
    var ledger: Ledger
    ghost var log: Log

    /** `newHotStuffEngineWithChainID`, over a chain of the given height. */
    constructor (self: Self, vs: ValidatorSet, chain: U64)
      ensures State() == NewEngine(self, vs.State(), chain) && validatorSet == vs
      ensures fresh(doubleSign) && fresh(finality)
    {
      local, chainId, epochLength := self.local, self.chainId, self.epochLength;
      state := Core(0, 0, Idle, None, None, [], 0, 0);
      validatorSet := vs;
      doubleSign := new DS.DoubleSignDetector();
      finality := new F.FinalityGadget(0.67);
      votes := VoteBook(map[], []);
      timeouts := Timeouts(map[], [], 0);
      pendingBlocks, epochStart, stateStore := map[], 1, None;
      ledger := Ledger(chain, chain, None, []);
      log := Log({}, true, []);
    }

    ghost function State(): Engine
      reads this, validatorSet, doubleSign, finality
    {
      Engine(Self(local, chainId, epochLength), state, validatorSet.State(), votes, timeouts,
             doubleSign.State(), finality.State(), pendingBlocks, epochStart, stateStore, ledger, log)
    }

    /** The parts only the validator set, detector or gadget objects own are left to their own frames. */
    twostate predicate SameParts()
      reads this
    {
      && doubleSign == old(doubleSign) && finality == old(finality)
      && (validatorSet == old(validatorSet) || fresh(validatorSet))
    }

    /** The quorum test on a registry entry, whose keys are the texts of the voters. */
    method Quorum(voters: set<Bytes>) returns (ok: bool)
      ensures ok == SuperMajority(validatorSet.State(), voters)
    {
      hide TextSuperMajority, SuperMajority;
      var votes := map t | t in Texts(voters) :: true;
      assert (set a | a in votes && votes[a]) == Texts(voters);
      TextQuorum(validatorSet.State(), voters);
      ok := validatorSet.HasSuperMajority(votes);
    }

    /** Sign a vote with the local key, record it and cache the signature. */
    method SignOwn(at: Position, phase': Phase, hash: Bytes)
      modifies this
      ensures State() == M.SignOwn(old(State()), at, phase', hash) && SameParts() && validatorSet == old(validatorSet)
    {
      var sig := Signature(local, VoteData(chainId, at, phase', hash));
      votes := RecordMine(Record(votes, at, Ballot(phase', hash), local, Some(sig)), at, phase', hash);
      log := log.(made := log.made + {sig});
    }

    method SetPrepared(qc: QC)
      modifies this
      ensures State() == old(State()).(core := Prepared(old(state), qc))
      ensures SameParts() && validatorSet == old(validatorSet)
    {
      state := state.(prepared := Some(qc));
      if state.locked.None? || qc.at.view >= state.locked.value.at.view {
        state := state.(locked := Some(qc));
      }
    }

    /** `createQC`: the loop over the cached signatures, in whatever order the map yields them. */
    method CreateQC(at: Position, phase': Phase, hash: Bytes) returns (qc: QC)
      ensures qc == FormQC(State(), at, phase', hash)
    {
      hide Encode, Cached, ByText;
      ByTextKeys(map[]);
      var cache := Cached(votes, at, Ballot(phase', hash));
      var signatures: map<Text, Signature>, addrs: set<Text> := map[], {};
      var todo := cache.Keys;
      ghost var taken: map<Bytes, Signature> := map[];
      while todo != {}
        invariant todo + taken.Keys == cache.Keys && todo !! taken.Keys
        invariant forall a :: a in taken ==> taken[a] == cache[a]
        invariant signatures == ByText(taken) && addrs == signatures.Keys
      {
        var addr :| addr in todo;
        ByTextGrows(taken, addr, cache[addr]);
        ByTextKeys(taken);
        signatures := signatures[Encode(addr) := cache[addr]];
        addrs := addrs + {Encode(addr)};
        taken := taken[addr := cache[addr]];
        todo := todo - {addr};
      }
      assert taken == cache;
      qc := QC(at, phase', hash, signatures, addrs);
    }

    method UpdateView(newView: U64)
      modifies this
      ensures State() == M.UpdateView(old(State()), newView) && SameParts() && validatorSet == old(validatorSet)
    {
      state := state.(view := newView, phase := Prepare, curView := newView);
      votes := votes.(registries := map[]);
      pendingBlocks := pendingBlocks - {state.height};
    }

    method HandleDoubleSign(validator: Bytes, ans: Answers)
      modifies validatorSet
      ensures State() == M.Punish(old(State()), validator, ans)
    {
      if ans.slashed {
        var removed := validatorSet.RemoveValidator(validator);
      }
    }

    /** The checkpoint loop of `decide`: one vote per validator. */
    method FinalizeCheckpoint(hash: Bytes, at: U64)
      modifies finality
      ensures var addrs := Addresses(validatorSet.State().validators);
              finality.State() == F.VotedAll(F.Checkpointed(old(finality.State()), at, hash, |addrs|), at, addrs)
    {
      var addrs := Addresses(validatorSet.validators);
      finality.CreateCheckpoint(at, hash, addrs);
      var i := 0;
      ghost var final := F.VotedAll(finality.State(), at, addrs);
      while i < |addrs|
        invariant 0 <= i <= |addrs|
        invariant F.VotedAll(finality.State(), at, addrs[i..]) == final
      {
        assert addrs[i..][1..] == addrs[i + 1..];
        var isFinal := finality.AddVote(at, addrs[i]);
        i := i + 1;
      }
    }

    /** What `decide` does between the commit and the height step. */
    method FinalizeBlock(hash: Bytes, at: U64, ans: Answers)
      modifies this, finality
      ensures State() == Finalized(old(State()), hash, at, ans) && SameParts() && state == old(state)
    {
      hide F.VotedAll, F.Checkpointed, Addresses, Voters;
      ghost var d := State();
      var isEpochRotation := at >= Wrap(epochStart + epochLength);
      ledger := ledger.(chain := at, commits := ledger.commits + [CommitEntry(at, ByDecide)]);
      log := log.(decisions := log.decisions
                  + [Decision(At(d), hash, Voters(d.book, At(d), Ballot(Commit, hash)), d.vset)]);
      FinalizeCheckpoint(hash, at);
      if isEpochRotation {
        epochStart := Wrap(at + 1);
        if ans.rotation.Some? {
          validatorSet := new ValidatorSet.Holding(ans.rotation.value);
        }
      }
      stateStore := Some(state);
    }

    /** What a commit call that returned an error has done to the chain. */
    method CommitFailed(at: U64, ans: Answers)
      modifies this
      ensures State() == M.CommitFailed(old(State()), at, ans) && SameParts() && validatorSet == old(validatorSet)
    {
      if ans.commit == AddedWithError && at == ledger.chain + 1 {
        ledger := ledger.(chain := at, commits := ledger.commits + [CommitEntry(at, Unreported)]);
      }
    }

    method Decide(hash: Bytes, at: U64, ans: Answers)
      modifies this, finality
      ensures State() == M.Decide(old(State()), hash, at, ans) && SameParts()
    {
      hide Finalized;
      var locked := state.locked;
      if locked.Some? && |locked.value.hash| > 0 && locked.value.at.height == at && hash != locked.value.hash {
        return;
      }
      state := state.(phase := Decided, decidedHash := hash);
      pendingBlocks := pendingBlocks - {at};
      if ans.commit != Committed || at != ledger.chain + 1 {
        CommitFailed(at, ans);
        return;
      }
      FinalizeBlock(hash, at, ans);
      if state.height != at {
        return;
      }
      var next := Wrap(state.height + 1);
      state := state.(height := next, view := 0, phase := Prepare, curHeight := next, curView := 0);
      votes := VoteBook(map[], []);
      timeouts := timeouts.(votes := map[]);
    }

    method AdvancePhase(next: Phase)
      modifies this
      ensures State() == M.AdvancePhase(old(State()), next) && SameParts() && validatorSet == old(validatorSet)
    {
      if state.prepared.None? {
        return;
      }
      state := state.(phase := next);
      SignOwn(Position(state.height, state.view), next, state.prepared.value.hash);
    }

    method SelfVote(hash: Bytes, ans: Answers)
      modifies this, finality
      ensures State() == M.SelfVote(old(State()), hash, ans) && SameParts()
    {
      hide Record, RecordMine, FormQC, M.Decide, SuperMajority;
      var at := Position(state.height, state.view);
      SignOwn(at, Prepare, hash);
      var quorum := Quorum(Voters(votes, at, Ballot(Prepare, hash)));
      if quorum {
        var qc := CreateQC(at, Prepare, hash);
        SetPrepared(qc);
        state := state.(phase := PreCommit);
        ghost var p := State();
        assert M.SelfVote(old(State()), hash, ans) == SelfPreCommit(p, hash, ans);
        SignOwn(at, PreCommit, hash);
        quorum := Quorum(Voters(votes, at, Ballot(PreCommit, hash)));
        if quorum {
          state := state.(phase := Commit);
          ghost var c := State();
          assert SelfPreCommit(p, hash, ans) == SelfCommit(c, hash, ans);
          SignOwn(at, Commit, hash);
          quorum := Quorum(Voters(votes, at, Ballot(Commit, hash)));
          if quorum {
            Decide(hash, at.height, ans);
          }
        }
      }
    }

    method ProposerForView(seed: U64) returns (leader: Validator)
      requires |validatorSet.validators| > 0
      ensures leader == Leader(State(), seed)
    {
      SelectInRange(validatorSet.State(), seed, state.view);
      leader := validatorSet.validators[Select(validatorSet.State(), seed, state.view)];
    }

    /** `proposeLocked`. */
    method Propose(ans: Answers) returns (ghost drop: set<Position>)
      modifies this, validatorSet, doubleSign, finality
      ensures State() == M.Propose(old(State()), ans, drop) && SameParts()
    {
      drop := {};
      if state.phase != Prepare || state.height in pendingBlocks || !ans.enoughValidators
         || |validatorSet.validators| == 0 {
        return;
      }
      var leader := ProposerForView(ans.seed);
      if leader.address != local || ans.created.None? {
        return;
      }
      drop := ProposeBlock(ans.created.value, ans);
    }

    method ProposeBlock(hash: Bytes, ans: Answers) returns (ghost drop: set<Position>)
      modifies this, validatorSet, doubleSign, finality
      ensures State() == M.ProposeBlock(old(State()), hash, ans, drop) && SameParts()
    {
      hide DS.AfterProposal, M.SelfVote, ProposalData;
      pendingBlocks := pendingBlocks[state.height := hash];
      log := log.(made := log.made + {Signature(local, ProposalData(chainId, hash))});
      var conflict;
      conflict, drop := doubleSign.CheckProposal(local, Position(state.height, state.view), hash);
      if conflict.Some? {
        HandleDoubleSign(local, ans);
        return;
      }
      CastProposerVote(hash, ans);
    }

    method CastProposerVote(hash: Bytes, ans: Answers)
      modifies this, finality
      ensures var v := M.SelfVote(old(State()), hash, ans);
              State() == if v.core.phase != Decided then v.(core := v.core.(phase := Prepare)) else v
      ensures SameParts()
    {
      SelfVote(hash, ans);
      if state.phase != Decided {
        state := state.(phase := Prepare);
      }
    }

    method VoteForProposal(m: Message)
      modifies this
      ensures State() == M.VoteForProposal(old(State()), m) && SameParts() && validatorSet == old(validatorSet)
    {
      var at := Position(m.height, m.view);
      var mine := RegistryAt(votes, at).mine;
      votes := Touch(votes, at);
      if Prepare in mine {
        return;
      }
      SignOwn(at, Prepare, m.hash);
      var quorum := Quorum(Voters(votes, at, Ballot(Prepare, m.hash)));
      if quorum {
        var qc := CreateQC(at, Prepare, m.hash);
        SetPrepared(qc);
      }
      state := state.(phase := PreCommit);
    }

    method CheckQC(qc: Option<QC>) returns (ok: bool)
      ensures ok == (qc.Some? ==> ValidQC(validatorSet.State(), qc.value))
    {
      if qc.None? {
        return true;
      }
      hide TextSuperMajority;
      var addrs := Listing(qc.value.addrs);
      assert (set a | a in addrs && a in qc.value.signatures) == qc.value.addrs * qc.value.signatures.Keys;
      ok := validatorSet.IsValidQC(addrs, qc.value.signatures);
    }

    /** The list of signers a certificate carries, in any order. */
    static method Listing(addrs: set<Text>) returns (list: seq<Text>)
      ensures forall a :: a in list <==> a in addrs
    {
      var todo := addrs;
      list := [];
      while todo != {}
        invariant todo <= addrs
        invariant forall a :: a in list <==> a in addrs && a !in todo
      {
        var addr :| addr in todo;
        todo := todo - {addr};
        list := list + [addr];
      }
    }

    method Relock(qc: Option<QC>)
      modifies this
      ensures State() == old(State()).(core := Relocked(old(state), qc))
      ensures SameParts() && validatorSet == old(validatorSet)
    {
      if qc.Some? && (state.locked.None? || qc.value.at.view > state.locked.value.at.view) {
        state := state.(locked := qc);
      }
    }

    method HandleProposal(m: Message, ans: Answers) returns (ghost drop: set<Position>)
      modifies this, validatorSet, doubleSign
      ensures State() == M.HandleProposal(old(State()), m, ans, drop) && SameParts()
    {
      hide DS.AfterProposal, M.VoteForProposal, ProposalData, ValidQC, Select;
      drop := {};
      if state.phase != Prepare || |validatorSet.validators| == 0 {
        return;
      }
      var leader := ProposerForView(ans.seed);
      if m.validator != leader.address {
        return;
      }
      if m.signature.Some? && !VerifySign(leader.address, ProposalData(chainId, m.hash), m.signature.value) {
        return;
      }
      var conflict;
      conflict, drop := doubleSign.CheckProposal(m.validator, Position(m.height, m.view), m.hash);
      ghost var checked := State();
      if conflict.Some? {
        HandleDoubleSign(m.validator, ans);
        return;
      }
      assert M.HandleProposal(old(State()), m, ans, drop) == AcceptProposal(checked, m, ans);
      var ok := CheckQC(m.justify);
      if !ok {
        return;
      }
      Relock(m.justify);
      if !ans.blockValid {
        return;
      }
      if m.height !in pendingBlocks {
        pendingBlocks := pendingBlocks[m.height := m.hash];
      }
      VoteForProposal(m);
    }

    /** The quorum switch at the end of `handleVote`. */
    method AfterQuorum(m: Message, phase': Phase, ans: Answers)
      modifies this, finality
      ensures State() == M.AfterQuorum(old(State()), m, phase', ans) && SameParts()
    {
      hide SuperMajority, FormQC, M.Decide, M.AdvancePhase, Voters;
      var at := Position(m.height, m.view);
      var quorum := Quorum(Voters(votes, at, Ballot(phase', m.hash)));
      if quorum {
        match phase'
        case Prepare =>
          var qc := CreateQC(at, phase', m.hash);
          SetPrepared(qc);
          AdvancePhase(PreCommit);
        case PreCommit => AdvancePhase(Commit);
        case Commit => Decide(m.hash, m.height, ans);
        case _ =>
      }
    }

    /** `trimVotes`: the two pruning loops. */
    method TrimVotes()
      modifies this`votes
      ensures votes == M.TrimVotes(old(votes), state.height)
    {
      var registries, order := votes.registries, votes.order;
      registries, order := DropOldest(registries, order);
      if state.height > KEEP_HEIGHTS {
        registries, order := DropBelowHeight(registries, order, state.height - KEEP_HEIGHTS);
      }
      votes := VoteBook(registries, order);
    }

    static method DropOldest(registries0: map<Position, Registry>, order0: seq<Position>)
      returns (registries: map<Position, Registry>, order: seq<Position>)
      ensures var cut := if |order0| > MAX_VOTE_ENTRIES then |order0| - MAX_VOTE_ENTRIES else 0;
              order == order0[cut..] && registries == registries0 - (set p | p in order0[..cut])
    {
      registries, order := registries0, order0;
      ghost var k := 0;
      assert registries == registries0 - (set p | p in order0[..0]);
      while |order| > MAX_VOTE_ENTRIES
        invariant 0 <= k <= |order0| && order == order0[k..] && (k > 0 ==> |order| >= MAX_VOTE_ENTRIES)
        invariant registries == registries0 - (set p | p in order0[..k])
        decreases |order|
      {
        assert order0[..k + 1] == order0[..k] + [order0[k]];
        registries := registries - {order[0]};
        order := order[1..];
        k := k + 1;
      }
    }

    static method DropBelowHeight(registries0: map<Position, Registry>, order0: seq<Position>, below: int)
      returns (registries: map<Position, Registry>, order: seq<Position>)
      ensures order == Recent(order0, below)
      ensures registries == registries0 - Stale(order0, below)
    {
      registries, order := registries0, [];
      assert Stale([], below) == {} && Recent([], below) == [];
      hide Stale, Recent;
      for i := 0 to |order0|
        invariant order == Recent(order0[..i], below)
        invariant registries == registries0 - Stale(order0[..i], below)
      {
        var key := order0[i];
        assert order0[..i + 1] == order0[..i] + [key];
        StaleStep(order0[..i], below, key);
        if key.height < below {
          registries := registries - {key};
        } else {
          order := order + [key];
        }
      }
      assert order0[..|order0|] == order0;
    }

    method HandleVote(m: Message, phase': Phase, ans: Answers) returns (ghost drop: set<Position>)
      modifies this, validatorSet, doubleSign, finality
      ensures State() == M.HandleVote(old(State()), m, phase', ans, drop) && SameParts()
    {
      hide DS.AfterVote, M.AcceptVote, VoteData, Has;
      drop := {};
      var at := Position(m.height, m.view);
      if m.signature.Some? {
        var v := validatorSet.GetValidator(m.validator);
        if v.None? || !VerifySign(m.validator, VoteData(chainId, at, phase', m.hash), m.signature.value) {
          return;
        }
      }
      var conflict;
      conflict, drop := doubleSign.CheckVote(m.validator, at, phase', m.hash);
      ghost var checked := State();
      if conflict.Some? {
        HandleDoubleSign(m.validator, ans);
        return;
      }
      AcceptVote(m, phase', ans);
    }

    method RecordVote(m: Message, phase': Phase)
      modifies this
      ensures State() == M.RecordVote(old(State()), m, phase') && SameParts() && validatorSet == old(validatorSet)
    {
      hide Record;
      votes := Record(votes, Position(m.height, m.view), Ballot(phase', m.hash), m.validator, m.signature);
      log := log.(allSigned := log.allSigned && m.signature.Some?);
    }

    method AcceptVote(m: Message, phase': Phase, ans: Answers)
      modifies this, finality
      ensures State() == M.AcceptVote(old(State()), m, phase', ans) && SameParts()
    {
      hide M.AfterQuorum, M.TrimVotes, M.RecordVote;
      RecordVote(m, phase');
      AfterQuorum(m, phase', ans);
      TrimVotes();
    }

    /** `trimTimeouts`. */
    static method TrimTimeouts(t: Timeouts) returns (r: Timeouts)
      ensures r == M.TrimTimeouts(t)
    {
      var kept, order := t.votes, t.order;
      ghost var k := 0;
      assert kept == t.votes - (set v | v in t.order[..0]);
      while |order| > MAX_TIMEOUT_ENTRIES
        invariant 0 <= k <= |t.order| && order == t.order[k..] && (k > 0 ==> |order| >= MAX_TIMEOUT_ENTRIES)
        invariant kept == t.votes - (set v | v in t.order[..k])
        decreases |order|
      {
        assert t.order[..k + 1] == t.order[..k] + [t.order[k]];
        kept := kept - {order[0]};
        order := order[1..];
        k := k + 1;
      }
      r := t.(votes := kept, order := order);
    }

    method HandleTimeout(m: Message)
      modifies this
      ensures State() == M.HandleTimeout(old(State()), m) && SameParts() && validatorSet == old(validatorSet)
    {
      hide M.TrimTimeouts, M.UpdateView, SuperMajority, TimeoutData, Has;
      if m.view < state.view || m.signature.None? {
        return;
      }
      var v := validatorSet.GetValidator(m.validator);
      if v.None? || !VerifySign(m.validator, TimeoutData(chainId, Position(m.height, m.view)), m.signature.value) {
        return;
      }
      var ok := CheckQC(m.justify);
      if !ok {
        return;
      }
      var known := TimeoutsFor(timeouts, m.view);
      if m.validator in known {
        return;
      }
      var t := timeouts;
      if m.view !in t.votes {
        t := t.(order := t.order + [m.view]);
      }
      known := known[m.validator := TimeoutVote(m.signature.value, m.justify)];
      t := t.(votes := t.votes[m.view := known]);
      var quorum := Quorum(known.Keys);
      if quorum && m.view > state.view {
        t := t.(votes := t.votes - {m.view});
      }
      t := TrimTimeouts(t);
      timeouts := t.(last := m.view);
      if m.view > state.view {
        UpdateView(m.view);
      }
    }

    /** The signer loop of `validateTimeoutCert`: every text must name a member that signed. */
    method VerifySigners(signatures: map<Text, Signature>, data: Bytes) returns (ok: bool, signedStake: U64)
      ensures ok <==> forall t :: t in signatures ==> SignedByMember(validatorSet.State(), t, data, signatures[t])
      ensures ok ==> signedStake == Wrap(TextStake(validatorSet.validators, signatures.Keys))
    {
      hide Lenient, TextStake, Has;
      var todo := signatures.Keys;
      signedStake := 0;
      ghost var done: set<Text> := {};
      TextStakeOfNone(validatorSet.validators);
      while todo != {}
        invariant todo + done == signatures.Keys && todo !! done
        invariant signedStake == Wrap(TextStake(validatorSet.validators, done))
        invariant forall t :: t in done ==> SignedByMember(validatorSet.State(), t, data, signatures[t])
      {
        var addr :| addr in todo;
        var addrBytes := HexDecode(addr);
        if addrBytes.None? {
          return false, 0;
        }
        var v := validatorSet.GetValidator(addrBytes.value);
        if v.None? || !VerifySign(addrBytes.value, data, signatures[addr]) {
          return false, 0;
        }
        WrappedTextGrows(validatorSet.validators, done, addr);
        signedStake := Wrap(signedStake + v.value.stake);
        todo := todo - {addr};
        done := done + {addr};
      }
      assert done == signatures.Keys;
      ok := true;
    }

    /** `validateTimeoutCert`. */
    method ValidateTimeoutCert(tc: TimeoutCert) returns (ok: bool)
      ensures ok == ValidCert(State(), tc)
    {
      if tc.height != state.height || |tc.signatures| == 0 {
        return false;
      }
      var verified, signedStake := VerifySigners(tc.signatures, TimeoutData(chainId, Position(tc.height, tc.view)));
      var tripled: int := signedStake as int * 3;
      ok := verified && Wrap(tripled) > Wrap(validatorSet.totalStake * 2);
    }

    method HandleNewView(m: Message)
      modifies this
      ensures State() == M.HandleNewView(old(State()), m) && SameParts() && validatorSet == old(validatorSet)
    {
      if (m.justify.None? && m.payload.NoPayload?) || m.signature.None? {
        return;
      }
      match m.payload {
        case Garbage => return;
        case Cert(tc) =>
          if tc.view != m.view || tc.height != m.height {
            return;
          }
          var valid := ValidateTimeoutCert(tc);
          if !valid {
            return;
          }
          var high := CheckQC(tc.highQC);
          if !high {
            return;
          }
          Relock(tc.highQC);
        case NoPayload =>
          var valid := CheckQC(m.justify);
          if !valid {
            return;
          }
      }
      assert AcceptsNewView(old(State()), m);
      Relock(m.justify);
      UpdateView(m.view);
      timeouts := DropBelow(timeouts, m.view);
    }

    /** `handleMessageLocked`. */
    method HandleMessage(m: Message, ans: Answers) returns (ghost drop: set<Position>)
      modifies this, validatorSet, doubleSign, finality
      ensures State() == M.Handle(old(State()), m, ans, drop) && SameParts()
    {
      drop := {};
      if m.kind.BlockRequest? || m.kind.BlockResponse? || m.height != state.height || m.view < state.view {
        return;
      }
      if m.kind.Timeout? {
        HandleTimeout(m);
        return;
      }
      if m.view > state.view {
        UpdateView(m.view);
      }
      match m.kind
      case Proposal => drop := HandleProposal(m, ans);
      case VotePrepare => drop := HandleVote(m, Prepare, ans);
      case VotePreCommit => drop := HandleVote(m, PreCommit, ans);
      case VoteCommit => drop := HandleVote(m, Commit, ans);
      case NewView => HandleNewView(m);
      case _ =>
    }

    /** The closure `startTimeout` schedules. */
    method OnTimer()
      modifies this
      ensures State() == M.TimerFires(old(State())) && SameParts() && validatorSet == old(validatorSet)
    {
      hide SuperMajority, M.UpdateView, TimeoutData;
      var newView := Wrap(state.view + 1);
      var sig := Signature(local, TimeoutData(chainId, Position(state.height, newView)));
      log := log.(made := log.made + {sig});
      var known := TimeoutsFor(timeouts, newView);
      var votes' := known[local := TimeoutVote(sig, state.prepared)];
      assert votes'.Keys == known.Keys + {local};
      timeouts := timeouts.(votes := timeouts.votes[newView := votes']);
      var quorum := Quorum(votes'.Keys);
      if quorum {
        if newView > state.view {
          timeouts := timeouts.(votes := timeouts.votes - {newView});
        }
        UpdateView(newView);
      }
    }

    /** `applyLoop`, before taking the lock: commit a synced block. */
    method CommitSyncedBlock(at: U64, ans: Answers) returns (committed: bool)
      modifies this
      ensures State() == M.ApplyCommit(old(State()), at, ans) && SameParts() && validatorSet == old(validatorSet)
      ensures committed == CommitSucceeds(old(State()), at, ans)
    {
      committed := ans.commit == Committed && at == ledger.chain + 1;
      if committed {
        ledger := ledger.(chain := at, applying := Some(at), commits := ledger.commits + [CommitEntry(at, ByApply)]);
      } else {
        CommitFailed(at, ans);
      }
    }

    /** `applyLoop`, under the lock: move past the applied block. */
    method FinishSyncedBlock(at: U64)
      modifies this
      ensures State() == M.ApplyUpdate(old(State()), at) && SameParts() && validatorSet == old(validatorSet)
    {
      if at >= state.height {
        var next := Wrap(at + 1);
        state := state.(height := next, view := 0, phase := Prepare, curHeight := next, curView := 0);
      }
      ledger := ledger.(applying := None);
    }

    /** `Start`. */
    method Start(at: U64)
      modifies this
      ensures State() == M.Started(old(State()), at) && SameParts() && validatorSet == old(validatorSet)
    {
      if stateStore.Some? && stateStore.value.height > 0 {
        state := stateStore.value;
      } else {
        state := state.(height := at, view := 0, phase := Prepare);
      }
      state := state.(curHeight := state.height, curView := state.view);
    }
  }
}
