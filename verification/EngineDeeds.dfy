/** What every event does to the engine, said in terms of the message and the state before it.

    The handlers of `EngineModel` follow the source call by call. Here each event is read as deeds: the
    certificates it offers to the lock, the certificate it forms, the votes it signs, the commit it attempts
    and the validator it accuses. `Does` says what those deeds make of the engine. The guards are written with
    signatures, stakes and the detector's answers alone, and name no handler. */
module EngineDeeds {
  import opened Words
  import opened HexText
  import opened ConsensusTypes
  import opened ValidatorSets
  import opened EngineModel
  import opened EngineInvariants
  import DS = DoubleSigns
  import F = Finality

  // ---------------------------------------------------------------- guards

  /** A message for this height and no earlier view. */
  predicate Reaches(e: Engine, m: Message) {
    !m.kind.BlockRequest? && !m.kind.BlockResponse? && m.height == e.core.height && m.view >= e.core.view
  }

  /** The engine at the view of a message: a later view starts in phase prepare with no registry, and drops the
      pending block of the height. */
  function Arrived(e: Engine, m: Message): Engine {
    if m.view <= e.core.view then e
    else
      e.(core := e.core.(view := m.view, curView := m.view, phase := Prepare),
         book := VoteBook(map[], e.book.order),
         pending := map h | h in e.pending && h != e.core.height :: e.pending[h])
  }

  /** The listed and signed texts of a certificate, if there is one, are a supermajority. */
  predicate Certified(vs: VSet, qc: Option<QC>) {
    qc.Some? ==> TextSuperMajority(vs, qc.value.addrs * qc.value.signatures.Keys)
  }

  predicate SignedBySender(m: Message, data: Bytes) {
    m.signature == Some(Signature(m.validator, data))
  }

  /** A vote may come without a signature; with one it must be a member's own. */
  predicate VoteStands(e: Engine, m: Message, phase: Phase) {
    m.signature.Some? ==>
      Has(e.vset, m.validator) && SignedBySender(m, VoteData(e.self.chainId, At(e), phase, m.hash))
  }

  function VoteConflict(e: Engine, m: Message, phase: Phase, drop: set<Position>): Option<DS.Evidence> {
    DS.AfterVote(e.detector, m.validator, At(e), phase, m.hash, drop).1
  }

  /** The voters of a ballot once one more is counted. */
  function With(e: Engine, phase: Phase, hash: Bytes, who: Bytes): set<Bytes> {
    Voters(e.book, At(e), Ballot(phase, hash)) + {who}
  }

  function ProposalConflict(e: Engine, who: Bytes, hash: Bytes, drop: set<Position>): Option<DS.Evidence> {
    DS.AfterProposal(e.detector, who, At(e), hash, drop).1
  }

  predicate IsLeader(e: Engine, who: Bytes, seed: U64) {
    |e.vset.validators| > 0
    && var i := Select(e.vset, seed, e.core.view);
       0 <= i < |e.vset.validators| && e.vset.validators[i].address == who
  }

  /** A proposal may come without a signature; with one it must be the leader's. */
  predicate ProposalStands(e: Engine, m: Message, ans: Answers) {
    && e.core.phase == Prepare && IsLeader(e, m.validator, ans.seed)
    && (m.signature.Some? ==> SignedBySender(m, ProposalData(e.self.chainId, m.hash)))
  }

  /** The proposal gets the local prepare vote. */
  predicate Endorsed(e: Engine, m: Message, ans: Answers, drop: set<Position>) {
    && ProposalStands(e, m, ans) && ProposalConflict(e, m.validator, m.hash, drop).None?
    && Certified(e.vset, m.justify) && ans.blockValid
    && Prepare !in RegistryAt(e.book, At(e)).mine
  }

  predicate MayPropose(e: Engine, ans: Answers) {
    && e.core.phase == Prepare && e.core.height !in e.pending && ans.enoughValidators
    && IsLeader(e, e.self.local, ans.seed) && ans.created.Some?
  }

  /** A timeout counts once per sender and view, and must be signed by a member. */
  predicate TimeoutStands(e: Engine, m: Message) {
    && Has(e.vset, m.validator) && SignedBySender(m, TimeoutData(e.self.chainId, Position(m.height, m.view)))
    && Certified(e.vset, m.justify)
    && !(m.view in e.timeouts.votes && m.validator in e.timeouts.votes[m.view])
  }

  /** Every text of a timeout certificate names a member whose signature it is, and the texts are a
      supermajority. */
  predicate CertificateStands(e: Engine, m: Message, tc: TimeoutCert) {
    && tc.view == m.view && tc.height == m.height == e.core.height && tc.signatures != map[]
    && (forall t :: t in tc.signatures ==>
          match Lenient(t)
          case None => false
          case Some(a) =>
            Has(e.vset, a)
            && tc.signatures[t] == Signature(a, TimeoutData(e.self.chainId, Position(m.height, m.view))))
    && TextSuperMajority(e.vset, tc.signatures.Keys)
  }

  /** A new-view message brings a certified justification or a timeout certificate; beside the latter its own
      justification goes unchecked. */
  predicate NewViewStands(e: Engine, m: Message) {
    && m.signature.Some?
    && match m.payload
       case NoPayload => m.justify.Some? && Certified(e.vset, m.justify)
       case Garbage => false
       case Cert(tc) => CertificateStands(e, m, tc) && Certified(e.vset, tc.highQC)
  }

  // ---------------------------------------------------------------- deeds

  datatype Certificate = Certificate(at: Position, hash: Bytes)

  /** A commit ballot that reached its quorum. */
  datatype Attempt = Attempt(hash: Bytes, voters: set<Bytes>)

  /** `phase` is the phase reached before a commit is attempted. */
  datatype Deeds = Deeds(phase: Phase, offered: seq<QC>, formed: Option<Certificate>, signs: set<Signature>,
                         attempt: Option<Attempt>, accused: Option<Bytes>)

  function Nothing(e: Engine): Deeds {
    Deeds(e.core.phase, [], None, {}, None, None)
  }

  function Offer(qc: Option<QC>): seq<QC> {
    if qc.Some? then [qc.value] else []
  }

  function OwnVote(e: Engine, phase: Phase, hash: Bytes): Signature {
    Signature(e.self.local, VoteData(e.self.chainId, At(e), phase, hash))
  }

  /** A ballot has these voters. */
  function BallotDeeds(e: Engine, phase: Phase, hash: Bytes, voters: set<Bytes>): Deeds {
    if !SuperMajority(e.vset, voters) then Nothing(e)
    else
      match phase
      case Prepare =>
        Nothing(e).(phase := PreCommit, formed := Some(Certificate(At(e), hash)),
                    signs := {OwnVote(e, PreCommit, hash)})
      case PreCommit =>
        if e.core.prepared.None? then Nothing(e)
        else Nothing(e).(phase := Commit, signs := {OwnVote(e, Commit, e.core.prepared.value.hash)})
      case Commit => Nothing(e).(attempt := Some(Attempt(hash, voters)))
      case _ => Nothing(e)
  }

  function VoteDeeds(e: Engine, m: Message, phase: Phase, drop: set<Position>): Deeds {
    if !VoteStands(e, m, phase) then Nothing(e)
    else if VoteConflict(e, m, phase, drop).Some? then Nothing(e).(accused := Some(m.validator))
    else BallotDeeds(e, phase, m.hash, With(e, phase, m.hash, m.validator))
  }

  function ProposalDeeds(e: Engine, m: Message, ans: Answers, drop: set<Position>): Deeds {
    if !ProposalStands(e, m, ans) then Nothing(e)
    else if ProposalConflict(e, m.validator, m.hash, drop).Some? then Nothing(e).(accused := Some(m.validator))
    else if !Certified(e.vset, m.justify) then Nothing(e)
    else if !Endorsed(e, m, ans, drop) then Nothing(e).(offered := Offer(m.justify))
    else
      Nothing(e).(offered := Offer(m.justify), phase := PreCommit, signs := {OwnVote(e, Prepare, m.hash)},
                  formed := if SuperMajority(e.vset, With(e, Prepare, m.hash, e.self.local))
                            then Some(Certificate(At(e), m.hash)) else None)
  }

  /** Through how many phases the proposer's own votes carry a block. */
  function Carries(e: Engine, hash: Bytes): nat {
    if !SuperMajority(e.vset, With(e, Prepare, hash, e.self.local)) then 0
    else if !SuperMajority(e.vset, With(e, PreCommit, hash, e.self.local)) then 1
    else if !SuperMajority(e.vset, With(e, Commit, hash, e.self.local)) then 2
    else 3
  }

  function ProposeDeeds(e: Engine, ans: Answers, drop: set<Position>): Deeds {
    if !MayPropose(e, ans) then Nothing(e)
    else
      var hash := ans.created.value;
      var proposal := Signature(e.self.local, ProposalData(e.self.chainId, hash));
      if ProposalConflict(e, e.self.local, hash, drop).Some? then
        Nothing(e).(signs := {proposal}, accused := Some(e.self.local))
      else
        var n := Carries(e, hash);
        Nothing(e).(signs := {proposal, OwnVote(e, Prepare, hash)}
                             + (if n >= 1 then {OwnVote(e, PreCommit, hash)} else {})
                             + (if n >= 2 then {OwnVote(e, Commit, hash)} else {}),
                    formed := if n >= 1 then Some(Certificate(At(e), hash)) else None,
                    attempt := if n >= 3 then Some(Attempt(hash, With(e, Commit, hash, e.self.local))) else None)
  }

  function NewViewDeeds(e: Engine, m: Message): Deeds {
    if !NewViewStands(e, m) then Nothing(e)
    else
      Nothing(e).(phase := Prepare,
                  offered := (if m.payload.Cert? then Offer(m.payload.tc.highQC) else []) + Offer(m.justify))
  }

  function MessageDeeds(e: Engine, m: Message, ans: Answers, drop: set<Position>): Deeds {
    match m.kind
    case Proposal => ProposalDeeds(e, m, ans, drop)
    case VotePrepare => VoteDeeds(e, m, Prepare, drop)
    case VotePreCommit => VoteDeeds(e, m, PreCommit, drop)
    case VoteCommit => VoteDeeds(e, m, Commit, drop)
    case NewView => NewViewDeeds(e, m)
    case _ => Nothing(e)
  }

  // ---------------------------------------------------------------- what deeds do

  /** An offered certificate becomes the lock if there is none or its view is higher. */
  function LockAfter(lock: Option<QC>, offered: seq<QC>): Option<QC> {
    if offered == [] then lock
    else
      var l := LockAfter(lock, offered[..|offered| - 1]);
      var qc := offered[|offered| - 1];
      if l.None? || l.value.at.view < qc.at.view then Some(qc) else l
  }

  /** A formed certificate becomes the prepared one, and the lock unless the lock's view is higher. */
  ghost predicate Certifies(e: Engine, e': Engine, x: Deeds) {
    var lock := LockAfter(e.core.locked, x.offered);
    match x.formed
    case None => e'.core.prepared == e.core.prepared && e'.core.locked == lock
    case Some(c) =>
      && e'.core.prepared.Some?
      && var qc := e'.core.prepared.value;
         qc.at == c.at && qc.phase == Prepare && qc.hash == c.hash
         && e'.core.locked == (if lock.None? || lock.value.at.view <= c.at.view then Some(qc) else lock)
  }

  /** A lock lets a hash be decided at a height: there is none, or it has no hash, or it is of another height,
      or it is of that hash. */
  predicate Permits(lock: Option<QC>, height: U64, hash: Bytes) {
    lock.None? || lock.value.hash == [] || lock.value.at.height != height || lock.value.hash == hash
  }

  function Place(c: Core): (U64, U64, Phase, Bytes, U64, U64) {
    (c.height, c.view, c.phase, c.decidedHash, c.curHeight, c.curView)
  }

  /** No commit: the place is kept up to the phase, and a slash removes the accused. */
  ghost predicate Stays(e: Engine, e': Engine, x: Deeds, ans: Answers) {
    && Place(e'.core) == Place(e.core.(phase := x.phase))
    && e'.log.decisions == e.log.decisions && e'.ledger == e.ledger && e'.epochStart == e.epochStart
    && e'.saved == e.saved && e'.finality == e.finality
    && e'.vset == (if x.accused.Some? && ans.slashed then Removed(e.vset, x.accused.value) else e.vset)
  }

  /** A commit that succeeds: the decision is recorded, the chain grows, an epoch of the configured length ends
      and may bring a new set, and the engine starts the next height. */
  ghost predicate Commits(e: Engine, e': Engine, a: Attempt, ans: Answers) {
    var h, ends := e.core.height, e.core.height >= Wrap(e.epochStart + e.self.epochLength);
    && Place(e'.core) == (Wrap(h + 1), 0, Prepare, a.hash, Wrap(h + 1), 0)
    && e'.log.decisions == e.log.decisions + [Decision(At(e), a.hash, a.voters, e.vset)]
    && e'.ledger == e.ledger.(chain := h, commits := e.ledger.commits + [CommitEntry(h, ByDecide)])
    && e'.epochStart == (if ends then Wrap(h + 1) else e.epochStart)
    && e'.vset == (if ends && ans.rotation.Some? then ans.rotation.value else e.vset)
    && e'.saved == Some(e'.core.(height := h, view := e.core.view, phase := Decided,
                                 curHeight := e.core.curHeight, curView := e.core.curView))
    && e'.book == VoteBook(map[], []) && e'.timeouts.votes == map[]
  }

  /** A commit call that reports an error: the chain may have grown, nothing else is recorded. */
  ghost predicate Fails(e: Engine, e': Engine, a: Attempt, ans: Answers) {
    var h := e.core.height;
    && Place(e'.core) == Place(e.core.(phase := Decided, decidedHash := a.hash))
    && e'.log.decisions == e.log.decisions && e'.epochStart == e.epochStart && e'.vset == e.vset
    && e'.saved == e.saved && e'.finality == e.finality
    && e'.ledger == (if ans.commit == AddedWithError && h == e.ledger.chain + 1
                     then e.ledger.(chain := h, commits := e.ledger.commits + [CommitEntry(h, Unreported)])
                     else e.ledger)
  }

  ghost predicate Comes(e: Engine, e': Engine, x: Deeds, ans: Answers) {
    if x.attempt.None? || !Permits(e'.core.locked, e.core.height, x.attempt.value.hash) then Stays(e, e', x, ans)
    else if ans.commit == Committed && e.core.height == e.ledger.chain + 1 then Commits(e, e', x.attempt.value, ans)
    else Fails(e, e', x.attempt.value, ans)
  }

  ghost predicate Does(e: Engine, e': Engine, x: Deeds, ans: Answers) {
    && e'.self == e.self
    && e'.log.made == e.log.made + x.signs
    && Certifies(e, e', x)
    && Comes(e, e', x, ans)
  }

  // ---------------------------------------------------------------- handlers

  lemma ArrivedIsMoved(e: Engine, m: Message)
    ensures MovedTo(e, m) == Arrived(e, m)
  {
    if m.view > e.core.view {
      assert MovedTo(e, m).pending == Arrived(e, m).pending;
    }
  }

  lemma DecideDoes(e: Engine, hash: Bytes, ans: Answers)
    ensures var x := Nothing(e).(attempt := Some(Attempt(hash, Voters(e.book, At(e), Ballot(Commit, hash)))));
            Does(e, Decide(e, hash, e.core.height, ans), x, ans)
  {
    hide Voters, F.VotedAll, F.Checkpointed;
  }

  /** The local vote: what it signs and whom it adds. */
  lemma OwnVoteDoes(e: Engine, phase: Phase, hash: Bytes)
    ensures var s := SignOwn(e, At(e), phase, hash);
            && s == e.(book := s.book, log := e.log.(made := e.log.made + {OwnVote(e, phase, hash)}))
            && Voters(s.book, At(e), Ballot(phase, hash)) == With(e, phase, hash, e.self.local)
            && forall p :: p != phase ==>
                 Voters(s.book, At(e), Ballot(p, hash)) == Voters(e.book, At(e), Ballot(p, hash))
  {
    hide Record, RecordMine, Voters, Cached;
    var sig := OwnVote(e, phase, hash);
    var recorded := Record(e.book, At(e), Ballot(phase, hash), e.self.local, Some(sig));
    forall p ensures Voters(SignOwn(e, At(e), phase, hash).book, At(e), Ballot(p, hash))
                  == if p == phase then With(e, phase, hash, e.self.local) else Voters(e.book, At(e), Ballot(p, hash)) {
      RecordedVoters(e.book, At(e), Ballot(phase, hash), e.self.local, Some(sig), At(e), Ballot(p, hash));
      MineKeepsVoters(recorded, At(e), phase, hash, At(e), Ballot(p, hash));
    }
  }

  /** Two states that differ in registries, detector and pending blocks alone. */
  ghost predicate Alike(e: Engine, r: Engine) {
    && r == e.(book := r.book, detector := r.detector, pending := r.pending, log := r.log)
    && r.log.made == e.log.made && r.log.decisions == e.log.decisions
  }

  lemma AlikeDoes(e: Engine, r: Engine, e': Engine, x: Deeds, ans: Answers)
    requires Alike(e, r) && Does(r, e', x, ans)
    ensures Does(e, e', x, ans)
  {
    hide LockAfter, Removed, F.VotedAll, Wrap;
  }

  lemma TrimmedDoes(e: Engine, e': Engine, x: Deeds, ans: Answers)
    requires Does(e, e', x, ans)
    ensures Does(e, e'.(book := TrimVotes(e'.book, e'.core.height)), x, ans)
  {
    hide LockAfter, Removed;
    EmptyTrimmed(e'.core.height);
  }

  lemma EmptyTrimmed(height: U64)
    ensures TrimVotes(VoteBook(map[], []), height) == VoteBook(map[], [])
  {
    var none: map<Position, Registry> := map[];
    assert none - {} == none;
  }

  lemma BallotDoes(e: Engine, m: Message, phase: Phase, ans: Answers)
    requires At(e) == Position(m.height, m.view)
    ensures Does(e, AfterQuorum(e, m, phase, ans),
                 BallotDeeds(e, phase, m.hash, Voters(e.book, At(e), Ballot(phase, m.hash))), ans)
  {
    hide Voters, SuperMajority, VoteData, Decide, Cached, ByText, Record, RecordMine, Removed;
    DecideDoes(e, m.hash, ans);
  }

  lemma VoteDoes(e: Engine, m: Message, phase: Phase, ans: Answers, drop: set<Position>)
    requires At(e) == Position(m.height, m.view)
    ensures Does(e, HandleVote(e, m, phase, ans, drop), VoteDeeds(e, m, phase, drop), ans)
  {
    hide DS.AfterVote, Record, Voters, SuperMajority, TrimVotes, Removed, VoteData, AfterQuorum, Does;
    if VoteStands(e, m, phase) && VoteConflict(e, m, phase, drop).None? {
      var d := DS.AfterVote(e.detector, m.validator, At(e), phase, m.hash, drop).0;
      var r := RecordVote(e.(detector := d), m, phase);
      RecordedVoters(e.book, At(e), Ballot(phase, m.hash), m.validator, m.signature, At(e), Ballot(phase, m.hash));
      var x := BallotDeeds(r, phase, m.hash, With(e, phase, m.hash, m.validator));
      BallotDoes(r, m, phase, ans);
      AlikeDoes(e, r, AfterQuorum(r, m, phase, ans), x, ans);
      TrimmedDoes(e, AfterQuorum(r, m, phase, ans), x, ans);
    } else {
      VoteRefused(e, m, phase, ans, drop);
    }
  }

  lemma VoteRefused(e: Engine, m: Message, phase: Phase, ans: Answers, drop: set<Position>)
    requires At(e) == Position(m.height, m.view)
    requires !(VoteStands(e, m, phase) && VoteConflict(e, m, phase, drop).None?)
    ensures Does(e, HandleVote(e, m, phase, ans, drop), VoteDeeds(e, m, phase, drop), ans)
  {
    hide DS.AfterVote, Removed, VoteData, AcceptVote, SuperMajority, Voters;
  }

  // ---------------------------------------------------------------- proposals

  lemma LeaderIs(e: Engine, who: Bytes, seed: U64)
    ensures IsLeader(e, who, seed) <==> |e.vset.validators| > 0 && Leader(e, seed).address == who
  {
    hide Select;
    if |e.vset.validators| > 0 {
      SelectInRange(e.vset, seed, e.core.view);
    }
  }

  lemma OfferedOnce(c: Core, qc: Option<QC>)
    ensures Relocked(c, qc).locked == LockAfter(c.locked, Offer(qc))
    ensures Relocked(c, qc) == c.(locked := LockAfter(c.locked, Offer(qc)))
  {
    if qc.Some? {
      assert Offer(qc)[..0] == [];
    }
  }

  /** The local prepare vote on a proposal, at a state that has adopted the justification. */
  lemma EndorseDoes(e: Engine, m: Message, ans: Answers)
    requires At(e) == Position(m.height, m.view) && Prepare !in RegistryAt(e.book, At(e)).mine
    ensures var x := Nothing(e).(phase := PreCommit, signs := {OwnVote(e, Prepare, m.hash)},
                                 formed := if SuperMajority(e.vset, With(e, Prepare, m.hash, e.self.local))
                                           then Some(Certificate(At(e), m.hash)) else None);
            Does(e, VoteForProposal(e, m), x, ans)
  {
    hide Voters, SuperMajority, VoteData, Cached, ByText, SignOwn, Removed, Touch;
    var touched := e.(book := Touch(e.book, At(e)));
    OwnVoteDoes(touched, Prepare, m.hash);
    TouchKeepsVoters(e.book, At(e), At(e), Ballot(Prepare, m.hash));
  }

  /** Adopting an offered certificate first, and whatever is done then. */
  lemma OfferDoes(e: Engine, e': Engine, qc: Option<QC>, x: Deeds, ans: Answers)
    requires x.offered == [] && Does(e.(core := Relocked(e.core, qc)), e', x, ans)
    ensures Does(e, e', x.(offered := Offer(qc)), ans)
  {
    OfferedOnce(e.core, qc);
    hide LockAfter, Relocked, Offer, Removed, Wrap;
    assert LockAfter(LockAfter(e.core.locked, Offer(qc)), []) == LockAfter(e.core.locked, Offer(qc)) by {
      NothingOffered(LockAfter(e.core.locked, Offer(qc)));
    }
  }

  lemma NothingOffered(lock: Option<QC>)
    ensures LockAfter(lock, []) == lock
  {
  }

  lemma TouchedDoes(e: Engine, ans: Answers)
    ensures Does(e, e.(book := Touch(e.book, At(e))), Nothing(e), ans)
  {
    hide Touch;
    NothingOffered(e.core.locked);
  }

  lemma AcceptedProposalDoes(e: Engine, m: Message, ans: Answers, drop: set<Position>)
    requires At(e) == Position(m.height, m.view) && ProposalStands(e, m, ans)
    requires ProposalConflict(e, m.validator, m.hash, drop).None?
    ensures Does(e, AcceptProposal(e, m, ans), ProposalDeeds(e, m, ans, drop), ans)
  {
    hide Does, VoteForProposal, LockAfter, Select, VoteData, SuperMajority, Voters, ProposalConflict, Touch,
         ProposalStands;
    NothingDoes(e, ans);
    if Certified(e.vset, m.justify) {
      var locked := e.(core := Relocked(e.core, m.justify));
      var kept := if m.height in e.pending then e.pending else e.pending[m.height := m.hash];
      var ready := locked.(pending := kept);
      NothingDoes(locked, ans);
      OfferDoes(e, locked, m.justify, Nothing(e), ans);
      if ans.blockValid {
        if Prepare in RegistryAt(e.book, At(e)).mine {
          TouchedDoes(ready, ans);
          VotedAlready(ready, m);
          AlikeDoes(locked, ready, VoteForProposal(ready, m), Nothing(ready), ans);
          OfferDoes(e, VoteForProposal(ready, m), m.justify, Nothing(e), ans);
        } else {
          EndorseDoes(ready, m, ans);
          var x := Nothing(e).(phase := PreCommit, signs := {OwnVote(e, Prepare, m.hash)},
                               formed := if SuperMajority(e.vset, With(e, Prepare, m.hash, e.self.local))
                                         then Some(Certificate(At(e), m.hash)) else None);
          AlikeDoes(locked, ready, VoteForProposal(ready, m), x, ans);
          OfferDoes(e, VoteForProposal(ready, m), m.justify, x, ans);
        }
      }
    }
  }

  lemma VotedAlready(e: Engine, m: Message)
    requires At(e) == Position(m.height, m.view) && Prepare in RegistryAt(e.book, At(e)).mine
    ensures VoteForProposal(e, m) == e.(book := Touch(e.book, At(e)))
  {
  }

  lemma NothingDoes(e: Engine, ans: Answers)
    ensures Does(e, e, Nothing(e), ans)
  {
    NothingOffered(e.core.locked);
  }

  lemma ProposalDoes(e: Engine, m: Message, ans: Answers, drop: set<Position>)
    requires At(e) == Position(m.height, m.view)
    ensures Does(e, HandleProposal(e, m, ans, drop), ProposalDeeds(e, m, ans, drop), ans)
  {
    hide DS.AfterProposal, Removed, VoteData, AcceptProposal, SuperMajority, Voters, Select, ProposalData, Leader;
    LeaderIs(e, m.validator, ans.seed);
    if ProposalStands(e, m, ans) && ProposalConflict(e, m.validator, m.hash, drop).None? {
      var d := DS.AfterProposal(e.detector, m.validator, At(e), m.hash, drop).0;
      var checked := e.(detector := d);
      hide Does, IsLeader, Certified;
      UnwatchedProposal(e, d, m, ans, drop);
    } else {
      NothingOffered(e.core.locked);
    }
  }

  /** Past the detector, its state plays no part. */
  lemma UnwatchedProposal(e: Engine, d: DS.Detector, m: Message, ans: Answers, drop: set<Position>)
    requires At(e) == Position(m.height, m.view) && ProposalStands(e, m, ans)
    requires ProposalConflict(e, m.validator, m.hash, drop).None?
    ensures Does(e, AcceptProposal(e.(detector := d), m, ans), ProposalDeeds(e, m, ans, drop), ans)
  {
    hide Does, AcceptProposal, ProposalStands, ProposalConflict, SuperMajority, Voters, VoteData, Certified;
    AcceptedProposalDoes(e, m, ans, drop);
    DetectorIsKept(e, d, m, ans);
    var r := AcceptProposal(e, m, ans);
    SameButDetector(e, r, AcceptProposal(e.(detector := d), m, ans), ProposalDeeds(e, m, ans, drop), ans);
  }

  lemma SameButDetector(e: Engine, r: Engine, r': Engine, x: Deeds, ans: Answers)
    requires Does(e, r, x, ans) && r' == r.(detector := r'.detector)
    ensures Does(e, r', x, ans)
  {
    hide LockAfter, Removed, Wrap;
  }

  lemma DetectorIsKept(e: Engine, d: DS.Detector, m: Message, ans: Answers)
    ensures AcceptProposal(e.(detector := d), m, ans) == AcceptProposal(e, m, ans).(detector := d)
  {
    hide Record, RecordMine, Touch, SuperMajority, Voters, Cached, ByText, TextSuperMajority, VoteData;
  }

  // ---------------------------------------------------------------- the proposer

  lemma SignedDoes(e: Engine, phase: Phase, hash: Bytes, e': Engine, x: Deeds, ans: Answers)
    requires Does(SignOwn(e, At(e), phase, hash), e', x, ans)
    ensures Does(e, e', x.(signs := {OwnVote(e, phase, hash)} + x.signs), ans)
  {
    OwnVoteDoes(e, phase, hash);
    hide SignOwn, LockAfter, Removed, Wrap, VoteData, Voters;
    var made := e.log.made;
    assert made + {OwnVote(e, phase, hash)} + x.signs == made + ({OwnVote(e, phase, hash)} + x.signs);
  }

  lemma PhasedDoes(e: Engine, phase: Phase, e': Engine, x: Deeds, ans: Answers)
    requires Does(e.(core := e.core.(phase := phase)), e', x, ans)
    ensures Does(e, e', x, ans)
  {
    hide LockAfter, Removed, Wrap;
  }

  lemma FormedDoes(e: Engine, qc: QC, e': Engine, x: Deeds, ans: Answers)
    requires qc.phase == Prepare && x.formed.None? && x.offered == []
    requires Does(e.(core := Prepared(e.core, qc)), e', x, ans)
    ensures Does(e, e', x.(formed := Some(Certificate(qc.at, qc.hash))), ans)
  {
    hide Removed, Wrap;
    NothingOffered(e.core.locked);
  }

  function SelfDeeds(e: Engine, hash: Bytes): Deeds {
    var n := Carries(e, hash);
    Nothing(e).(phase := if n == 0 then e.core.phase else if n == 1 then PreCommit else Commit,
                signs := {OwnVote(e, Prepare, hash)}
                         + (if n >= 1 then {OwnVote(e, PreCommit, hash)} else {})
                         + (if n >= 2 then {OwnVote(e, Commit, hash)} else {}),
                formed := if n >= 1 then Some(Certificate(At(e), hash)) else None,
                attempt := if n >= 3 then Some(Attempt(hash, With(e, Commit, hash, e.self.local))) else None)
  }

  lemma SelfCommitDoes(e: Engine, hash: Bytes, ans: Answers)
    ensures Does(e, SelfCommit(e, hash, ans),
                 Nothing(e).(signs := {OwnVote(e, Commit, hash)},
                             attempt := if SuperMajority(e.vset, With(e, Commit, hash, e.self.local))
                                        then Some(Attempt(hash, With(e, Commit, hash, e.self.local))) else None), ans)
  {
    hide Does, Decide, SignOwn, Voters, SuperMajority, VoteData;
    OwnVoteDoes(e, Commit, hash);
    var s := SignOwn(e, At(e), Commit, hash);
    DecideDoes(s, hash, ans);
    NothingDoes(s, ans);
    var x := if SuperMajority(e.vset, With(e, Commit, hash, e.self.local))
             then Nothing(s).(attempt := Some(Attempt(hash, With(e, Commit, hash, e.self.local)))) else Nothing(s);
    SignedDoes(e, Commit, hash, SelfCommit(e, hash, ans), x, ans);
    assert {OwnVote(e, Commit, hash)} + {} == {OwnVote(e, Commit, hash)};
  }

  lemma SelfPreCommitDoes(e: Engine, hash: Bytes, ans: Answers)
    ensures var q := SuperMajority(e.vset, With(e, PreCommit, hash, e.self.local));
            var r := q && SuperMajority(e.vset, With(e, Commit, hash, e.self.local));
            Does(e, SelfPreCommit(e, hash, ans),
                 Nothing(e).(phase := if q then Commit else e.core.phase,
                             signs := {OwnVote(e, PreCommit, hash)} + (if q then {OwnVote(e, Commit, hash)} else {}),
                             attempt := if r then Some(Attempt(hash, With(e, Commit, hash, e.self.local))) else None),
                 ans)
  {
    hide Does, SelfCommit, SignOwn, Voters, SuperMajority, VoteData;
    OwnVoteDoes(e, PreCommit, hash);
    var s := SignOwn(e, At(e), PreCommit, hash);
    var e' := SelfPreCommit(e, hash, ans);
    if SuperMajority(e.vset, With(e, PreCommit, hash, e.self.local)) {
      var c := s.(core := s.core.(phase := Commit));
      SelfCommitDoes(c, hash, ans);
      var x := Nothing(c).(signs := {OwnVote(e, Commit, hash)},
                           attempt := if SuperMajority(e.vset, With(e, Commit, hash, e.self.local))
                                      then Some(Attempt(hash, With(e, Commit, hash, e.self.local))) else None);
      PhasedDoes(s, Commit, e', x, ans);
      SignedDoes(e, PreCommit, hash, e', x, ans);
    } else {
      NothingDoes(s, ans);
      SignedDoes(e, PreCommit, hash, e', Nothing(s), ans);
    }
  }

  lemma SelfVoteDoes(e: Engine, hash: Bytes, ans: Answers)
    ensures Does(e, SelfVote(e, hash, ans), SelfDeeds(e, hash), ans)
  {
    hide Does, SelfPreCommit, SignOwn, Voters, SuperMajority, VoteData, ByText, Cached;
    OwnVoteDoes(e, Prepare, hash);
    var s := SignOwn(e, At(e), Prepare, hash);
    var e' := SelfVote(e, hash, ans);
    if SuperMajority(e.vset, With(e, Prepare, hash, e.self.local)) {
      var qc := FormQC(s, At(e), Prepare, hash);
      var p := s.(core := Prepared(s.core, qc).(phase := PreCommit));
      SelfPreCommitDoes(p, hash, ans);
      var n := Carries(e, hash);
      var x := Nothing(p).(phase := if n == 1 then PreCommit else Commit,
                           signs := {OwnVote(e, PreCommit, hash)} + (if n >= 2 then {OwnVote(e, Commit, hash)} else {}),
                           attempt := SelfDeeds(e, hash).attempt);
      assert SelfDeeds(e, hash).signs == {OwnVote(e, Prepare, hash)} + x.signs;
      PhasedDoes(s.(core := Prepared(s.core, qc)), PreCommit, e', x, ans);
      FormedDoes(s, qc, e', x, ans);
      SignedDoes(e, Prepare, hash, e', x.(formed := Some(Certificate(At(e), hash))), ans);
    } else {
      NothingDoes(s, ans);
      SignedDoes(e, Prepare, hash, e', Nothing(s), ans);
      assert SelfDeeds(e, hash).signs == {OwnVote(e, Prepare, hash)} + {};
    }
  }

  /** The proposer goes back to phase prepare unless it stands decided. */
  lemma BackToPrepare(e: Engine, v: Engine, x: Deeds, ans: Answers)
    requires Does(e, v, x, ans) && x.phase != Decided
    ensures Does(e, if v.core.phase != Decided then v.(core := v.core.(phase := Prepare)) else v,
                 x.(phase := Prepare), ans)
  {
    hide LockAfter, Removed, Wrap;
  }

  lemma ProposeDoes(e: Engine, ans: Answers, drop: set<Position>)
    ensures Does(e, Propose(e, ans, drop), ProposeDeeds(e, ans, drop), ans)
  {
    hide Does, DS.AfterProposal, Removed, SelfVote, SuperMajority, Voters, ProposalData, VoteData, Select, Leader;
    LeaderIs(e, e.self.local, ans.seed);
    NothingDoes(e, ans);
    if MayPropose(e, ans) {
      var hash := ans.created.value;
      var sig := Signature(e.self.local, ProposalData(e.self.chainId, hash));
      var d := DS.AfterProposal(e.detector, e.self.local, At(e), hash, drop).0;
      var s := e.(pending := e.pending[e.core.height := hash], log := e.log.(made := e.log.made + {sig}),
                  detector := d);
      if ProposalConflict(e, e.self.local, hash, drop).Some? {
        AccusedDoes(s, e.self.local, ans);
        ProposedDoes(e, s, sig, Punish(s, e.self.local, ans), Nothing(s).(accused := Some(e.self.local)), ans);
        assert {sig} + {} == {sig};
      } else {
        var v := SelfVote(s, hash, ans);
        SelfVoteDoes(s, hash, ans);
        BackToPrepare(s, v, SelfDeeds(s, hash), ans);
        ProposedDoes(e, s, sig, Propose(e, ans, drop), SelfDeeds(s, hash).(phase := Prepare), ans);
        var x := ProposeDeeds(e, ans, drop);
        assert x.signs == {sig} + SelfDeeds(s, hash).signs;
      }
    }
  }

  lemma AccusedDoes(e: Engine, who: Bytes, ans: Answers)
    ensures Does(e, Punish(e, who, ans), Nothing(e).(accused := Some(who)), ans)
  {
    hide Removed;
    NothingOffered(e.core.locked);
  }

  lemma ProposedDoes(e: Engine, s: Engine, sig: Signature, e': Engine, x: Deeds, ans: Answers)
    requires s == e.(pending := s.pending, detector := s.detector, log := e.log.(made := e.log.made + {sig}))
    requires Does(s, e', x, ans)
    ensures Does(e, e', x.(signs := {sig} + x.signs), ans)
  {
    hide LockAfter, Removed, Wrap;
    var made := e.log.made;
    assert made + {sig} + x.signs == made + ({sig} + x.signs);
  }

  // ---------------------------------------------------------------- every message, every event

  lemma NewViewIs(e: Engine, m: Message)
    requires At(e) == Position(m.height, m.view)
    ensures AcceptsNewView(e, m) <==> NewViewStands(e, m)
  {
    hide TextSuperMajority, Lenient, Has, TimeoutData;
    if m.payload.Cert? {
      var tc := m.payload.tc;
      assert |tc.signatures| > 0 <==> tc.signatures != map[];
    }
  }

  lemma NewViewDoes(e: Engine, m: Message, ans: Answers)
    requires At(e) == Position(m.height, m.view) && Mirrored(e.core)
    ensures Does(e, HandleNewView(e, m), NewViewDeeds(e, m), ans)
  {
    hide NewViewStands, AcceptsNewView, DropBelow;
    NewViewIs(e, m);
    NothingOffered(e.core.locked);
    if NewViewStands(e, m) {
      var high := if m.payload.Cert? then m.payload.tc.highQC else None;
      OfferedOnce(e.core, high);
      OfferedOnce(Relocked(e.core, high), m.justify);
      OfferedTwice(e.core.locked, high, m.justify);
      hide LockAfter, Relocked;
      assert Offer(None) == [];
      assert (if m.payload.Cert? then Offer(m.payload.tc.highQC) else []) == Offer(high);
    }
  }

  lemma OfferedTwice(lock: Option<QC>, a: Option<QC>, b: Option<QC>)
    ensures LockAfter(lock, Offer(a) + Offer(b)) == LockAfter(LockAfter(lock, Offer(a)), Offer(b))
  {
    NothingOffered(LockAfter(lock, Offer(a)));
    assert Offer(a) + [] == Offer(a);
    if b.Some? {
      assert (Offer(a) + [b.value])[..|Offer(a)|] == Offer(a);
      assert [b.value][..0] == [];
    }
  }
}
