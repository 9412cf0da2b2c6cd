/** Vocabulary of the consensus engine: phases, positions, signatures and the bytes they sign. */
module ConsensusTypes {
  import opened Words

  datatype Phase = Idle | Prepare | PreCommit | Commit | Decided

  /** A (height, view) pair: the key of a vote registry and of the double-sign history. */
  datatype Position = Position(height: U64, view: U64)

  /** A signature names its signer and the bytes signed. Unforgeability is not stated here: it is
      the rule of the replica system that a delivered message only carries signatures somebody made. */
  datatype Signature = Signature(signer: Bytes, data: Bytes)

  /** What a commit call answers. The chain may add the block and then still report an error, when the
      transaction index fails afterwards. */
  datatype CommitReply = Refused | Committed | AddedWithError

  predicate VerifySign(address: Bytes, data: Bytes, sig: Signature) {
    sig == Signature(address, data)
  }

  function PhaseByte(p: Phase): Byte {
    match p
    case Idle => 0
    case Prepare => 1
    case PreCommit => 2
    case Commit => 3
    case Decided => 4
  }

  /** `createVoteData`. */
  function VoteData(chainId: U64, at: Position, phase: Phase, hash: Bytes): Bytes {
    FixedBE(chainId, 8) + FixedBE(at.height, 8) + FixedBE(at.view, 8) + [PhaseByte(phase)] + hash
  }

  /** `createTimeoutData`. */
  function TimeoutData(chainId: U64, at: Position): Bytes {
    FixedBE(chainId, 8) + FixedBE(at.height, 8) + FixedBE(at.view, 8)
  }

  /** `createProposalData`. */
  function ProposalData(chainId: U64, hash: Bytes): Bytes {
    FixedBE(chainId, 8) + hash
  }

  /** Where the signed bytes hold what: big-endian numbers of eight bytes at fixed offsets, and the number of the
      phase. */
  lemma SignedBytesRead(chainId: U64, at: Position, phase: Phase, hash: Bytes)
    ensures var vote := VoteData(chainId, at, phase, hash);
            && |vote| == 25 + |hash| && FromBE(vote[..8]) == chainId && FromBE(vote[8..16]) == at.height
            && FromBE(vote[16..24]) == at.view && vote[25..] == hash
            && vote[24] == (match phase case Idle => 0 case Prepare => 1 case PreCommit => 2 case Commit => 3
                                        case Decided => 4)
    ensures var timeout := TimeoutData(chainId, at);
            && |timeout| == 24 && FromBE(timeout[..8]) == chainId && FromBE(timeout[8..16]) == at.height
            && FromBE(timeout[16..]) == at.view
    ensures var proposal := ProposalData(chainId, hash);
            |proposal| == 8 + |hash| && FromBE(proposal[..8]) == chainId && proposal[8..] == hash
  {
    U64Bytes(chainId);
    U64Bytes(at.height);
    U64Bytes(at.view);
    var vote, timeout := VoteData(chainId, at, phase, hash), TimeoutData(chainId, at);
    var proposal := ProposalData(chainId, hash);
    assert vote[..8] == timeout[..8] == proposal[..8] == FixedBE(chainId, 8);
    assert vote[8..16] == timeout[8..16] == FixedBE(at.height, 8);
    assert vote[16..24] == timeout[16..] == FixedBE(at.view, 8);
  }

  /** A vote signature commits to position, phase and block hash. */
  lemma VoteDataBinds(chainId: U64, a: Position, p: Phase, h: Bytes, b: Position, q: Phase, k: Bytes)
    requires VoteData(chainId, a, p, h) == VoteData(chainId, b, q, k)
    ensures a == b && p == q && h == k
  {
    var x, y := VoteData(chainId, a, p, h), VoteData(chainId, b, q, k);
    assert x[8..16] == FixedBE(a.height, 8) && y[8..16] == FixedBE(b.height, 8);
    assert x[16..24] == FixedBE(a.view, 8) && y[16..24] == FixedBE(b.view, 8);
    assert x[24] == PhaseByte(p) && y[24] == PhaseByte(q);
    assert x[25..] == h && y[25..] == k;
    U64Bytes(a.height);
    U64Bytes(b.height);
    U64Bytes(a.view);
    U64Bytes(b.view);
  }

  /** The bytes of a vote read back. */
  function VoteIn(hash: Bytes): (Position, Bytes)
    requires |hash| >= 17
  {
    FromBEBound(hash[..8]);
    FromBEBound(hash[8..16]);
    Pow256Of8();
    (Position(FromBE(hash[..8]), FromBE(hash[8..16])), hash[17..])
  }

  /** Proposals and votes are signed without a mark that tells them apart. A proposal's bytes are the
      bytes of a vote exactly when the block hash holds that vote's fields. */
  lemma ProposalIsVoteIff(chainId: U64, hash: Bytes, at: Position, p: Phase, h: Bytes)
    ensures ProposalData(chainId, hash) == VoteData(chainId, at, p, h)
       <==> |hash| >= 17 && hash[16] == PhaseByte(p) && VoteIn(hash) == (at, h)
  {
    var x, y := ProposalData(chainId, hash), VoteData(chainId, at, p, h);
    assert x[8..] == hash;
    assert y[8..16] == FixedBE(at.height, 8) && y[16..24] == FixedBE(at.view, 8);
    assert y[24] == PhaseByte(p) && y[25..] == h;
    U64Bytes(at.height);
    U64Bytes(at.view);
    if x == y {
      assert hash[..8] == x[8..16] && hash[8..16] == x[16..24] && hash[17..] == x[25..];
    }
    if |hash| >= 17 && hash[16] == PhaseByte(p) && VoteIn(hash) == (at, h) {
      FixedBEOfFromBE(hash[..8]);
      FixedBEOfFromBE(hash[8..16]);
      assert hash == hash[..8] + hash[8..16] + [hash[16]] + hash[17..];
      assert x == y;
    }
  }

  /** No vote signature doubles as a timeout signature. */
  lemma VoteIsNotTimeout(chainId: U64, a: Position, p: Phase, h: Bytes, b: Position)
    ensures VoteData(chainId, a, p, h) != TimeoutData(chainId, b)
  {
    assert |VoteData(chainId, a, p, h)| == 25 + |h|;
    assert |TimeoutData(chainId, b)| == 24;
  }
}
