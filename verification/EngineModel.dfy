/** The HotStuff engine as a state machine: what each locked handler does to the engine's state.

    Everything the handlers ask of the outside world (block production and validation, the commit
    call, staking, the hash behind proposer choice, map iteration order) arrives in `Answers`.
    Fields under `Ledger` and `Log` record the chain the engine commits to and the history the
    theorems speak about; no handler reads the log. */
module EngineModel {
  import opened Words
  import opened HexText
  import opened ConsensusTypes
  import opened ValidatorSets
  import DS = DoubleSigns
  import F = Finality

  const MAX_VOTE_ENTRIES := 2048
  const MAX_TIMEOUT_ENTRIES := 2048
  const KEEP_HEIGHTS := 10

  // ---------------------------------------------------------------- data

  /** A quorum certificate: signatures and listed signers, both by the text of their address. */
  datatype QC = QC(at: Position, phase: Phase, hash: Bytes, signatures: map<Text, Signature>, addrs: set<Text>)

  datatype Ballot = Ballot(phase: Phase, hash: Bytes)

  /** `ViewVoteRegistry`: who voted for what, the cached signatures, and the local votes. */
  datatype Registry = Registry(votes: map<Ballot, set<Bytes>>, sigs: map<Ballot, map<Bytes, Signature>>,
                               mine: map<Phase, Bytes>)

  const EMPTY_REGISTRY := Registry(map[], map[], map[])

  datatype VoteBook = VoteBook(registries: map<Position, Registry>, order: seq<Position>)

  datatype TimeoutVote = TimeoutVote(signature: Signature, highQC: Option<QC>)

  /** The three timeout maps always gain and lose keys together; they are one map here. */
  datatype Timeouts = Timeouts(votes: map<U64, map<Bytes, TimeoutVote>>, order: seq<U64>, last: U64)

  datatype Core = Core(height: U64, view: U64, phase: Phase, locked: Option<QC>, prepared: Option<QC>,
                       decidedHash: Bytes, curHeight: U64, curView: U64)

  /** `Unreported`: a block the commit call added although it returned an error. */
  datatype Path = ByDecide | ByApply | Unreported

  datatype CommitEntry = CommitEntry(height: U64, path: Path)

  /** The chain: its height, an apply that committed but has not yet updated the engine, and every
      commit since the chain stood at `base`. */
  datatype Ledger = Ledger(base: U64, chain: U64, applying: Option<U64>, commits: seq<CommitEntry>)

  /** A successful `decide`: position, hash, the commit voters counted and the set they were counted in. */
  datatype Decision = Decision(at: Position, hash: Bytes, voters: set<Bytes>, vset: VSet)

  /** `made`: signatures the local key produced. `allSigned`: no unsigned vote was ever recorded. */
  datatype Log = Log(made: set<Signature>, allSigned: bool, decisions: seq<Decision>)

  datatype Self = Self(local: Bytes, chainId: U64, epochLength: U64)

  datatype Engine = Engine(self: Self, core: Core, vset: VSet, book: VoteBook, timeouts: Timeouts,
                           detector: DS.Detector, finality: F.Gadget, pending: map<U64, Bytes>,
                           epochStart: U64, saved: Option<Core>, ledger: Ledger, log: Log)

  datatype Kind = Proposal | VotePrepare | VotePreCommit | VoteCommit | Timeout | NewView | BlockRequest | BlockResponse

  datatype TimeoutCert = TimeoutCert(height: U64, view: U64, signatures: map<Text, Signature>, highQC: Option<QC>)

  /** A new-view payload: absent or empty, undecodable, or a timeout certificate. */
  datatype Payload = NoPayload | Garbage | Cert(tc: TimeoutCert)

  datatype Message = Message(kind: Kind, height: U64, view: U64, hash: Bytes, validator: Bytes,
                             signature: Option<Signature>, justify: Option<QC>, payload: Payload)

  /** Answers from outside for one handler call. `seed` is
      the hash word behind proposer choice, `rotation` the set an epoch change would install. */
  datatype Answers = Answers(seed: U64, blockValid: bool, created: Option<Bytes>,
                             enoughValidators: bool, commit: CommitReply, slashed: bool, rotation: Option<VSet>)

  // ---------------------------------------------------------------- vote registries

  function At(e: Engine): Position {
    Position(e.core.height, e.core.view)
  }

  function RegistryAt(b: VoteBook, at: Position): Registry {
    if at in b.registries then b.registries[at] else EMPTY_REGISTRY
  }

  function Voters(b: VoteBook, at: Position, ballot: Ballot): set<Bytes> {
    var r := RegistryAt(b, at);
    if ballot in r.votes then r.votes[ballot] else {}
  }

  function Cached(b: VoteBook, at: Position, ballot: Ballot): map<Bytes, Signature> {
    var r := RegistryAt(b, at);
    if ballot in r.sigs then r.sigs[ballot] else map[]
  }

  /** `getOrCreateVoteRegistry`. */
  function Touch(b: VoteBook, at: Position): VoteBook {
    if at in b.registries then b
    else VoteBook(b.registries[at := EMPTY_REGISTRY], b.order + [at])
  }

  /** A vote and, if it came with one, its signature (`storeVoteSignature`). */
  function Record(b: VoteBook, at: Position, ballot: Ballot, who: Bytes, sig: Option<Signature>): VoteBook {
    var r := RegistryAt(b, at);
    var voted := r.(votes := r.votes[ballot := Voters(b, at, ballot) + {who}]);
    var cached := if sig.None? then voted
                  else voted.(sigs := r.sigs[ballot := Cached(b, at, ballot)[who := sig.value]]);
    var t := Touch(b, at);
    t.(registries := t.registries[at := cached])
  }

  function RecordMine(b: VoteBook, at: Position, phase: Phase, hash: Bytes): VoteBook {
    var t := Touch(b, at);
    var r := RegistryAt(b, at);
    t.(registries := t.registries[at := r.(mine := r.mine[phase := hash])])
  }

  function Recent(order: seq<Position>, below: int): seq<Position> {
    if order == [] then []
    else
      var p := order[|order| - 1];
      Recent(order[..|order| - 1], below) + (if p.height < below then [] else [p])
  }

  function Stale(order: seq<Position>, below: int): set<Position> {
    set p | p in order && p.height < below
  }

  lemma StaleStep(order: seq<Position>, below: int, key: Position)
    ensures Stale(order + [key], below) == Stale(order, below) + (if key.height < below then {key} else {})
    ensures Recent(order + [key], below) == Recent(order, below) + (if key.height < below then [] else [key])
  {
    assert (order + [key])[..|order|] == order;
  }

  /** `trimVotes`: oldest entries beyond the cap, then entries ten heights back. */
  function TrimVotes(b: VoteBook, height: U64): VoteBook {
    var cut := if |b.order| > MAX_VOTE_ENTRIES then |b.order| - MAX_VOTE_ENTRIES else 0;
    var capped := VoteBook(b.registries - (set p | p in b.order[..cut]), b.order[cut..]);
    if height <= KEEP_HEIGHTS then capped
    else
      var below := height - KEEP_HEIGHTS;
      VoteBook(capped.registries - Stale(capped.order, below), Recent(capped.order, below))
  }

  predicate HasQuorum(e: Engine, at: Position, phase: Phase, hash: Bytes) {
    SuperMajority(e.vset, Voters(e.book, at, Ballot(phase, hash)))
  }

  /** Signatures by signer, as the cache holds them: by the text of the address. */
  function ByText(sigs: map<Bytes, Signature>): map<Text, Signature> {
    EncodeInjective();
    map a | a in sigs :: Encode(a) := sigs[a]
  }

  lemma ByTextGrows(sigs: map<Bytes, Signature>, a: Bytes, sig: Signature)
    requires a !in sigs
    ensures ByText(sigs[a := sig]) == ByText(sigs)[Encode(a) := sig]
  {
    hide Encode;
    EncodeInjective();
    assert forall b :: b in sigs ==> Encode(b) in ByText(sigs) && Encode(b) in ByText(sigs[a := sig]);
    assert Encode(a) in ByText(sigs[a := sig]);
  }

  lemma ByTextKeys(sigs: map<Bytes, Signature>)
    ensures ByText(sigs).Keys == Texts(sigs.Keys)
  {
    hide Encode;
  }

  /** `createQC`. */
  function FormQC(e: Engine, at: Position, phase: Phase, hash: Bytes): QC {
    var sigs := ByText(Cached(e.book, at, Ballot(phase, hash)));
    QC(at, phase, hash, sigs, sigs.Keys)
  }

  /** `QC.IsValid`: listed texts with a signature count, each for the validator it names. */
  predicate ValidQC(vs: VSet, qc: QC) {
    TextSuperMajority(vs, qc.addrs * qc.signatures.Keys)
  }

  // ---------------------------------------------------------------- pieces of handlers

  /** A local vote: signed, recorded, cached and remembered as ours. */
  function SignOwn(e: Engine, at: Position, phase: Phase, hash: Bytes): Engine {
    var sig := Signature(e.self.local, VoteData(e.self.chainId, at, phase, hash));
    e.(book := RecordMine(Record(e.book, at, Ballot(phase, hash), e.self.local, Some(sig)), at, phase, hash),
       log := e.log.(made := e.log.made + {sig}))
  }

  /** A freshly formed prepare certificate becomes the prepared one, and the locked one unless its view is behind. */
  function Prepared(c: Core, qc: QC): Core {
    c.(prepared := Some(qc),
       locked := if c.locked.None? || qc.at.view >= c.locked.value.at.view then Some(qc) else c.locked)
  }

  /** A received certificate replaces the locked one only with a higher view. */
  function Relocked(c: Core, qc: Option<QC>): Core {
    if qc.Some? && (c.locked.None? || qc.value.at.view > c.locked.value.at.view) then c.(locked := qc) else c
  }

  /** `updateView`. */
  function UpdateView(e: Engine, view: U64): Engine {
    e.(core := e.core.(view := view, phase := Prepare, curView := view),
       book := e.book.(registries := map[]),
       pending := e.pending - {e.core.height})
  }

  /** `handleDoubleSign`: a successful slash removes the validator from the set. */
  function Punish(e: Engine, validator: Bytes, ans: Answers): Engine {
    if ans.slashed then e.(vset := Removed(e.vset, validator)) else e
  }

  function CommitSucceeds(e: Engine, height: U64, ans: Answers): bool {
    ans.commit == Committed && height == e.ledger.chain + 1
  }

  /** The engine sees an error either way; the chain may have grown. */
  function CommitFailed(e: Engine, height: U64, ans: Answers): Engine {
    if ans.commit == AddedWithError && height == e.ledger.chain + 1 then
      e.(ledger := e.ledger.(chain := height, commits := e.ledger.commits + [CommitEntry(height, Unreported)]))
    else e
  }

  /** The state changes of `decide` once the block is committed, up to the height step. */
  function Finalized(e: Engine, hash: Bytes, height: U64, ans: Answers): Engine {
    var addrs := Addresses(e.vset.validators);
    var rotate := height >= Wrap(e.epochStart + e.self.epochLength);
    e.(ledger := e.ledger.(chain := height, commits := e.ledger.commits + [CommitEntry(height, ByDecide)]),
       log := e.log.(decisions := e.log.decisions
                     + [Decision(At(e), hash, Voters(e.book, At(e), Ballot(Commit, hash)), e.vset)]),
       finality := F.VotedAll(F.Checkpointed(e.finality, height, hash, |addrs|), height, addrs),
       epochStart := if rotate then Wrap(height + 1) else e.epochStart,
       vset := if rotate && ans.rotation.Some? then ans.rotation.value else e.vset,
       saved := Some(e.core))
  }

  function NextHeight(e: Engine): Engine {
    var h := Wrap(e.core.height + 1);
    e.(core := e.core.(height := h, view := 0, phase := Prepare, curHeight := h, curView := 0),
       book := VoteBook(map[], []),
       timeouts := e.timeouts.(votes := map[]))
  }

  predicate LockForbids(e: Engine, hash: Bytes, height: U64) {
    e.core.locked.Some? && |e.core.locked.value.hash| > 0 && e.core.locked.value.at.height == height
    && e.core.locked.value.hash != hash
  }

  /** `decide`. */
  function Decide(e: Engine, hash: Bytes, height: U64, ans: Answers): Engine {
    if LockForbids(e, hash, height) then e
    else
      var d := e.(core := e.core.(phase := Decided, decidedHash := hash), pending := e.pending - {height});
      if !CommitSucceeds(d, height, ans) then CommitFailed(d, height, ans)
      else
        var f := Finalized(d, hash, height, ans);
        if f.core.height != height then f else NextHeight(f)
  }

  /** `advancePhase`: the vote cast is for the prepared certificate's hash. */
  function AdvancePhase(e: Engine, phase: Phase): Engine {
    if e.core.prepared.None? then e
    else SignOwn(e.(core := e.core.(phase := phase)), At(e), phase, e.core.prepared.value.hash)
  }

  /** `selfVote`: the local vote may complete a quorum in each phase in turn. */
  function SelfVote(e: Engine, hash: Bytes, ans: Answers): Engine {
    var at := At(e);
    var s := SignOwn(e, at, Prepare, hash);
    if !HasQuorum(s, at, Prepare, hash) then s
    else SelfPreCommit(s.(core := Prepared(s.core, FormQC(s, at, Prepare, hash)).(phase := PreCommit)), hash, ans)
  }

  function SelfPreCommit(e: Engine, hash: Bytes, ans: Answers): Engine {
    var at := At(e);
    var s := SignOwn(e, at, PreCommit, hash);
    if !HasQuorum(s, at, PreCommit, hash) then s
    else SelfCommit(s.(core := s.core.(phase := Commit)), hash, ans)
  }

  function SelfCommit(e: Engine, hash: Bytes, ans: Answers): Engine {
    var at := At(e);
    var s := SignOwn(e, at, Commit, hash);
    if !HasQuorum(s, at, Commit, hash) then s else Decide(s, hash, at.height, ans)
  }

  // ---------------------------------------------------------------- handlers

  /** The guards of `proposeLocked`. */
  predicate Proposes(e: Engine, ans: Answers) {
    && e.core.phase == Prepare && e.core.height !in e.pending && ans.enoughValidators
    && |e.vset.validators| > 0 && Leader(e, ans.seed).address == e.self.local && ans.created.Some?
  }

  /** `proposeLocked`. */
  function Propose(e: Engine, ans: Answers, drop: set<Position>): Engine {
    if Proposes(e, ans) then ProposeBlock(e, ans.created.value, ans, drop) else e
  }

  function ProposeBlock(e: Engine, hash: Bytes, ans: Answers, drop: set<Position>): Engine {
    var sig := Signature(e.self.local, ProposalData(e.self.chainId, hash));
    var s := e.(pending := e.pending[e.core.height := hash], log := e.log.(made := e.log.made + {sig}));
    var (d, conflict) := DS.AfterProposal(s.detector, e.self.local, At(e), hash, drop);
    var checked := s.(detector := d);
    if conflict.Some? then Punish(checked, e.self.local, ans)
    else
      var v := SelfVote(checked, hash, ans);
      if v.core.phase != Decided then v.(core := v.core.(phase := Prepare)) else v
  }

  /** `GetProposerForView` on a non-empty set. */
  function Leader(e: Engine, seed: U64): Validator
    requires |e.vset.validators| > 0
  {
    SelectInRange(e.vset, seed, e.core.view);
    e.vset.validators[Select(e.vset, seed, e.core.view)]
  }

  /** The last part of `handleProposal`: vote unless this engine already voted in this view. */
  function VoteForProposal(e: Engine, m: Message): Engine {
    var at := Position(m.height, m.view);
    var touched := e.(book := Touch(e.book, at));
    if Prepare in RegistryAt(e.book, at).mine then touched
    else
      var s := SignOwn(touched, at, Prepare, m.hash);
      var core := if HasQuorum(s, at, Prepare, m.hash) then Prepared(s.core, FormQC(s, at, Prepare, m.hash))
                  else s.core;
      s.(core := core.(phase := PreCommit))
  }

  /** A proposal that passed the double-sign check. */
  function AcceptProposal(e: Engine, m: Message, ans: Answers): Engine {
    if m.justify.Some? && !ValidQC(e.vset, m.justify.value) then e
    else
      var locked := e.(core := Relocked(e.core, m.justify));
      if !ans.blockValid then locked
      else
        var kept := if m.height in locked.pending then locked.pending else locked.pending[m.height := m.hash];
        VoteForProposal(locked.(pending := kept), m)
  }

  predicate ProposalAuthentic(e: Engine, m: Message, ans: Answers) {
    && |e.vset.validators| > 0
    && m.validator == Leader(e, ans.seed).address
    && (m.signature.Some? ==> VerifySign(m.validator, ProposalData(e.self.chainId, m.hash), m.signature.value))
  }

  /** `handleProposal`. */
  function HandleProposal(e: Engine, m: Message, ans: Answers, drop: set<Position>): Engine {
    if e.core.phase != Prepare || !ProposalAuthentic(e, m, ans) then e
    else
      var (d, conflict) := DS.AfterProposal(e.detector, m.validator, Position(m.height, m.view), m.hash, drop);
      var checked := e.(detector := d);
      if conflict.Some? then Punish(checked, m.validator, ans) else AcceptProposal(checked, m, ans)
  }

  /** What `handleVote` does once a vote has been recorded. */
  function AfterQuorum(e: Engine, m: Message, phase: Phase, ans: Answers): Engine {
    var at := Position(m.height, m.view);
    if !HasQuorum(e, at, phase, m.hash) then e
    else
      match phase
      case Prepare => AdvancePhase(e.(core := Prepared(e.core, FormQC(e, at, phase, m.hash))), PreCommit)
      case PreCommit => AdvancePhase(e, Commit)
      case Commit => Decide(e, m.hash, m.height, ans)
      case _ => e
  }

  predicate VoteAuthentic(e: Engine, m: Message, phase: Phase) {
    m.signature.Some? ==>
      Has(e.vset, m.validator)
      && VerifySign(m.validator, VoteData(e.self.chainId, Position(m.height, m.view), phase, m.hash), m.signature.value)
  }

  /** The vote enters the registry, with its signature if it has one. */
  function RecordVote(e: Engine, m: Message, phase: Phase): Engine {
    e.(book := Record(e.book, Position(m.height, m.view), Ballot(phase, m.hash), m.validator, m.signature),
       log := e.log.(allSigned := e.log.allSigned && m.signature.Some?))
  }

  /** A vote that passed the double-sign check. */
  function AcceptVote(e: Engine, m: Message, phase: Phase, ans: Answers): Engine {
    var q := AfterQuorum(RecordVote(e, m, phase), m, phase, ans);
    q.(book := TrimVotes(q.book, q.core.height))
  }

  /** `handleVote`. */
  function HandleVote(e: Engine, m: Message, phase: Phase, ans: Answers, drop: set<Position>): Engine {
    if !VoteAuthentic(e, m, phase) then e
    else
      var (d, conflict) := DS.AfterVote(e.detector, m.validator, Position(m.height, m.view), phase, m.hash, drop);
      var checked := e.(detector := d);
      if conflict.Some? then Punish(checked, m.validator, ans) else AcceptVote(checked, m, phase, ans)
  }

  function TimeoutsFor(t: Timeouts, view: U64): map<Bytes, TimeoutVote> {
    if view in t.votes then t.votes[view] else map[]
  }

  /** `createNewViewAndBroadcast`: its effect on the state is to drop the votes it packaged. */
  function Packaged(t: Timeouts, current: U64, view: U64): Timeouts {
    if view <= current then t else t.(votes := t.votes - {view})
  }

  /** `trimTimeouts`. */
  function TrimTimeouts(t: Timeouts): Timeouts {
    var cut := if |t.order| > MAX_TIMEOUT_ENTRIES then |t.order| - MAX_TIMEOUT_ENTRIES else 0;
    t.(votes := t.votes - (set v | v in t.order[..cut]), order := t.order[cut..])
  }

  predicate TimeoutAuthentic(e: Engine, m: Message) {
    && m.view >= e.core.view
    && m.signature.Some?
    && Has(e.vset, m.validator)
    && VerifySign(m.validator, TimeoutData(e.self.chainId, Position(m.height, m.view)), m.signature.value)
    && (m.justify.Some? ==> ValidQC(e.vset, m.justify.value))
  }

  /** The timeout bookkeeping for a message that passed its checks and is the sender's first for that view. */
  function WithTimeout(e: Engine, m: Message): Timeouts
    requires m.signature.Some?
  {
    var votes := TimeoutsFor(e.timeouts, m.view)[m.validator := TimeoutVote(m.signature.value, m.justify)];
    var order := if m.view in e.timeouts.votes then e.timeouts.order else e.timeouts.order + [m.view];
    var added := e.timeouts.(votes := e.timeouts.votes[m.view := votes], order := order);
    var packaged := if SuperMajority(e.vset, votes.Keys) then Packaged(added, e.core.view, m.view) else added;
    TrimTimeouts(packaged).(last := m.view)
  }

  /** `handleTimeout`: one valid timeout for a later view moves the engine there. */
  function HandleTimeout(e: Engine, m: Message): Engine {
    if !TimeoutAuthentic(e, m) || m.validator in TimeoutsFor(e.timeouts, m.view) then e
    else
      var recorded := e.(timeouts := WithTimeout(e, m));
      if m.view > e.core.view then UpdateView(recorded, m.view) else recorded
  }

  /** The text names a member whose signature this is. */
  predicate SignedByMember(vs: VSet, t: Text, data: Bytes, sig: Signature) {
    Lenient(t).Some? && Has(vs, Lenient(t).value) && VerifySign(Lenient(t).value, data, sig)
  }

  /** `validateTimeoutCert`. */
  predicate ValidCert(e: Engine, tc: TimeoutCert) {
    && tc.height == e.core.height
    && |tc.signatures| > 0
    && (forall t :: t in tc.signatures ==>
          SignedByMember(e.vset, t, TimeoutData(e.self.chainId, Position(tc.height, tc.view)), tc.signatures[t]))
    && TextSuperMajority(e.vset, tc.signatures.Keys)
  }

  predicate AcceptsNewView(e: Engine, m: Message) {
    && m.signature.Some?
    && match m.payload
       case NoPayload => m.justify.Some? && ValidQC(e.vset, m.justify.value)
       case Garbage => false
       case Cert(tc) => tc.view == m.view && tc.height == m.height && ValidCert(e, tc)
                        && (tc.highQC.Some? ==> ValidQC(e.vset, tc.highQC.value))
  }

  function DropBelow(t: Timeouts, view: U64): Timeouts {
    t.(votes := map v | v in t.votes && v >= view :: t.votes[v])
  }

  /** `handleNewView`. */
  function HandleNewView(e: Engine, m: Message): Engine {
    if !AcceptsNewView(e, m) then e
    else
      var core := if m.payload.Cert? then Relocked(e.core, m.payload.tc.highQC) else e.core;
      UpdateView(e.(core := Relocked(core, m.justify), timeouts := DropBelow(e.timeouts, m.view)), m.view)
  }

  /** The second switch of `handleMessageLocked`. */
  function Dispatch(e: Engine, m: Message, ans: Answers, drop: set<Position>): Engine {
    match m.kind
    case Proposal => HandleProposal(e, m, ans, drop)
    case VotePrepare => HandleVote(e, m, Prepare, ans, drop)
    case VotePreCommit => HandleVote(e, m, PreCommit, ans, drop)
    case VoteCommit => HandleVote(e, m, Commit, ans, drop)
    case NewView => HandleNewView(e, m)
    case _ => e
  }

  /** A message moves the engine to its view before it is handled. */
  function MovedTo(e: Engine, m: Message): Engine {
    if m.view > e.core.view then UpdateView(e, m.view) else e
  }

  /** `handleMessageLocked`; messages for later heights only feed the syncer. */
  function Handle(e: Engine, m: Message, ans: Answers, drop: set<Position>): Engine {
    if m.kind.BlockRequest? || m.kind.BlockResponse? || m.height != e.core.height || m.view < e.core.view then e
    else if m.kind.Timeout? then HandleTimeout(e, m)
    else Dispatch(MovedTo(e, m), m, ans, drop)
  }

  /** The local timeout for the next view, signed and recorded. */
  function WithOwnTimeout(e: Engine): Engine {
    var view := Wrap(e.core.view + 1);
    var sig := Signature(e.self.local, TimeoutData(e.self.chainId, Position(e.core.height, view)));
    var votes := TimeoutsFor(e.timeouts, view)[e.self.local := TimeoutVote(sig, e.core.prepared)];
    e.(timeouts := e.timeouts.(votes := e.timeouts.votes[view := votes]), log := e.log.(made := e.log.made + {sig}))
  }

  /** The view-timer callback. */
  function TimerFires(e: Engine): Engine {
    var view := Wrap(e.core.view + 1);
    var added := WithOwnTimeout(e);
    if SuperMajority(e.vset, TimeoutsFor(e.timeouts, view).Keys + {e.self.local}) then
      UpdateView(added.(timeouts := Packaged(added.timeouts, e.core.view, view)), view)
    else added
  }

  /** First step of `applyLoop`, outside the lock: commit a synced block. */
  function ApplyCommit(e: Engine, height: U64, ans: Answers): Engine {
    if !CommitSucceeds(e, height, ans) then CommitFailed(e, height, ans)
    else e.(ledger := e.ledger.(chain := height, applying := Some(height),
                                commits := e.ledger.commits + [CommitEntry(height, ByApply)]))
  }

  /** Second step of `applyLoop`, under the lock: move the engine past the applied block. */
  function ApplyUpdate(e: Engine, height: U64): Engine {
    var landed := e.(ledger := e.ledger.(applying := None));
    if height >= e.core.height then
      var h := Wrap(height + 1);
      landed.(core := e.core.(height := h, view := 0, phase := Prepare, curHeight := h, curView := 0))
    else landed
  }

  /** The engine as constructed (`newHotStuffEngineWithChainID`), over a chain of the given height. */
  function NewEngine(self: Self, vset: VSet, chain: U64): Engine {
    Engine(self, Core(0, 0, Idle, None, None, [], 0, 0), vset, VoteBook(map[], []), Timeouts(map[], [], 0),
           DS.EMPTY, F.Gadget([], 0, 0.67), map[], 1, None, Ledger(chain, chain, None, []), Log({}, true, []))
  }

  /** `Start`: a saved state, if there is one with a height, overrides the requested height. */
  function Started(e: Engine, height: U64): Engine {
    if e.saved.Some? && e.saved.value.height > 0 then
      e.(core := e.saved.value.(curHeight := e.saved.value.height, curView := e.saved.value.view))
    else
      e.(core := e.core.(height := height, view := 0, phase := Prepare, curHeight := height, curView := 0))
  }

  // ---------------------------------------------------------------- runs of one engine

  /** `drop` is what a trim of the double-sign history would delete during the call. */
  datatype Event =
    | Deliver(m: Message, ans: Answers, drop: set<Position>)
    | ProposeNow(ans: Answers, drop: set<Position>)
    | Timer
    | CommitSynced(height: U64, ans: Answers)
    | FinishSynced

  /** `applyLoop` is one goroutine, so its two steps alternate; locked handlers run anywhere between. */
  ghost predicate Enabled(e: Engine, ev: Event) {
    match ev
    case Deliver(m, ans, drop) => LegalAnswers(ans)
    case ProposeNow(ans, drop) => LegalAnswers(ans)
    case Timer => true
    case CommitSynced(height, ans) => e.ledger.applying.None?
    case FinishSynced => e.ledger.applying.Some?
  }

  /** Epoch rotation builds its set from the staking records, whose addresses are distinct; the total may
      have wrapped. */
  ghost predicate LegalAnswers(ans: Answers) {
    ans.rotation.Some? ==> Consistent(ans.rotation.value)
  }

  ghost function Step(e: Engine, ev: Event): Engine
    requires Enabled(e, ev)
  {
    match ev
    case Deliver(m, ans, drop) => Handle(e, m, ans, drop)
    case ProposeNow(ans, drop) => Propose(e, ans, drop)
    case Timer => TimerFires(e)
    case CommitSynced(height, ans) => ApplyCommit(e, height, ans)
    case FinishSynced => ApplyUpdate(e, e.ledger.applying.value)
  }
}
