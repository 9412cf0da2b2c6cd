/** The finality gadget: checkpoints become final once enough validators voted for them. */
module Finality {
  import opened Words

  datatype Checkpoint = Checkpoint(height: U64, blockHash: Bytes, validators: nat, signatures: set<Bytes>,
                                   isFinal: bool)

  datatype Gadget = Gadget(checkpoints: seq<Checkpoint>, lastFinalized: U64, requiredVotes: real)

  /** `int(float64(n) * requiredVotes)`, with the product exact. */
  function Threshold(n: nat, requiredVotes: real): int {
    (n as real * requiredVotes).Floor
  }

  predicate Open(cp: Checkpoint, height: U64) {
    cp.height == height && !cp.isFinal
  }

  function Checkpointed(g: Gadget, height: U64, hash: Bytes, validators: nat): Gadget {
    g.(checkpoints := g.checkpoints + [Checkpoint(height, hash, validators, {}, false)])
  }

  /** The loop of `AddVote` from index `i` on. */
  function AddVoteFrom(g: Gadget, i: nat, height: U64, validator: Bytes): Gadget
    requires i <= |g.checkpoints|
    decreases |g.checkpoints| - i
  {
    if i == |g.checkpoints| then g
    else
      var cp := g.checkpoints[i];
      if !Open(cp, height) then AddVoteFrom(g, i + 1, height, validator)
      else
        var signed := cp.(signatures := cp.signatures + {validator});
        if |signed.signatures| >= Threshold(cp.validators, g.requiredVotes) then
          g.(checkpoints := g.checkpoints[i := signed.(isFinal := true)],
             lastFinalized := if height > g.lastFinalized then height else g.lastFinalized)
        else AddVoteFrom(g.(checkpoints := g.checkpoints[i := signed]), i + 1, height, validator)
  }

  function Voted(g: Gadget, height: U64, validator: Bytes): Gadget {
    AddVoteFrom(g, 0, height, validator)
  }

  function VotedAll(g: Gadget, height: U64, voters: seq<Bytes>): Gadget
    decreases |voters|
  {
    if voters == [] then g else VotedAll(Voted(g, height, voters[0]), height, voters[1..])
  }

  ghost predicate NoneOpen(cps: seq<Checkpoint>, height: U64) {
    forall i :: 0 <= i < |cps| ==> !Open(cps[i], height)
  }

  ghost predicate Distinct(s: seq<Bytes>) {
    forall i, j :: 0 <= i < j < |s| ==> s[i] != s[j]
  }

  lemma {:induction false} NoOpenNoChange(g: Gadget, i: nat, height: U64, v: Bytes)
    requires i <= |g.checkpoints| && NoneOpen(g.checkpoints, height)
    ensures AddVoteFrom(g, i, height, v) == g
    decreases |g.checkpoints| - i
  {
    if i < |g.checkpoints| {
      NoOpenNoChange(g, i + 1, height, v);
    }
  }

  lemma {:induction false} NoOpenNoChanges(g: Gadget, height: U64, voters: seq<Bytes>)
    requires NoneOpen(g.checkpoints, height)
    ensures VotedAll(g, height, voters) == g
    decreases |voters|
  {
    if voters != [] {
      NoOpenNoChange(g, 0, height, voters[0]);
      NoOpenNoChanges(g, height, voters[1..]);
    }
  }

  /** A vote for a height whose only open checkpoint is the last one skips to it. */
  lemma {:induction false} SkipsToLast(g: Gadget, i: nat, height: U64, v: Bytes)
    requires i < |g.checkpoints| && NoneOpen(g.checkpoints[..|g.checkpoints| - 1], height)
    ensures AddVoteFrom(g, i, height, v) == AddVoteFrom(g, |g.checkpoints| - 1, height, v)
    decreases |g.checkpoints| - i
  {
    if i < |g.checkpoints| - 1 {
      assert !Open(g.checkpoints[..|g.checkpoints| - 1][i], height);
      SkipsToLast(g, i + 1, height, v);
    }
  }

  ghost predicate Awaiting(g: Gadget, before: seq<Checkpoint>, height: U64, hash: Bytes, n: nat, voted: set<Bytes>) {
    && g.checkpoints == before + [Checkpoint(height, hash, n, voted, false)]
    && NoneOpen(before, height)
    && g.lastFinalized < height
    && (voted != {} ==> |voted| < Threshold(n, g.requiredVotes))
  }

  lemma ThresholdAtMost(n: nat, r: real)
    requires 0.0 <= r <= 1.0
    ensures Threshold(n, r) <= n
  {
    assert n as real * r <= n as real;
  }

  /** The distinct members of a list. */
  function Members(voters: seq<Bytes>): set<Bytes> {
    set v | v in voters
  }

  /** What the gadget is after a checkpoint and the loop of votes. */
  ghost predicate Ended(g: Gadget, g': Gadget, before: seq<Checkpoint>, height: U64, final: bool) {
    && g'.requiredVotes == g.requiredVotes
    && g'.lastFinalized == (if final then height else g.lastFinalized)
    && |g'.checkpoints| == |before| + 1 && g'.checkpoints[..|before|] == before
    && g'.checkpoints[|before|].height == height && g'.checkpoints[|before|].isFinal == final
  }

  /** One vote: it joins the open checkpoint, which becomes final at the threshold. */
  lemma OneVote(g: Gadget, before: seq<Checkpoint>, height: U64, hash: Bytes, n: nat, voted: set<Bytes>, v: Bytes)
    requires Awaiting(g, before, height, hash, n, voted)
    ensures var final := |voted + {v}| >= Threshold(n, g.requiredVotes);
            var cps := before + [Checkpoint(height, hash, n, voted + {v}, final)];
            Voted(g, height, v) == Gadget(cps, if final then height else g.lastFinalized, g.requiredVotes)
  {
    hide Threshold;
    var last := |before|;
    assert g.checkpoints[..last] == before;
    SkipsToLast(g, 0, height, v);
    var cp := Checkpoint(height, hash, n, voted + {v}, false);
    assert g.checkpoints[last := cp] == before + [cp];
    assert g.checkpoints[last := cp.(isFinal := true)] == before + [cp.(isFinal := true)];
  }

  lemma NoneOpenWithFinal(before: seq<Checkpoint>, cp: Checkpoint, height: U64)
    requires NoneOpen(before, height) && cp.isFinal
    ensures NoneOpen(before + [cp], height)
  {
  }

  lemma MembersFront(rest: seq<Bytes>, voted: set<Bytes>)
    ensures rest == [] ==> voted + Members(rest) == voted
    ensures rest != [] ==> voted + Members(rest) == voted + {rest[0]} + Members(rest[1..])
  {
  }

  lemma FinalStays(g: Gadget, before: seq<Checkpoint>, cp: Checkpoint, rest: seq<Bytes>)
    requires g.checkpoints == before + [cp] && NoneOpen(before, cp.height) && cp.isFinal
    ensures VotedAll(g, cp.height, rest) == g && g.checkpoints[..|before|] == before
  {
    NoneOpenWithFinal(before, cp, cp.height);
    NoOpenNoChanges(g, cp.height, rest);
  }

  lemma {:induction false} VotesEnd(g: Gadget, before: seq<Checkpoint>, height: U64, hash: Bytes, n: nat,
                                    voted: set<Bytes>, rest: seq<Bytes>)
    requires Awaiting(g, before, height, hash, n, voted) && (voted != {} || rest != [])
    ensures Ended(g, VotedAll(g, height, rest), before, height,
                  |voted + Members(rest)| >= Threshold(n, g.requiredVotes))
    decreases |rest|
  {
    hide Threshold, Voted, NoneOpen, Members;
    MembersFront(rest, voted);
    if rest == [] {
      assert g.checkpoints[..|before|] == before;
    } else {
      var v := rest[0];
      OneVote(g, before, height, hash, n, voted, v);
      var g1 := Voted(g, height, v);
      var voted1 := voted + {v};
      if |voted1| >= Threshold(n, g.requiredVotes) {
        FinalStays(g1, before, Checkpoint(height, hash, n, voted1, true), rest[1..]);
        SmallerSet(voted1, voted1 + Members(rest[1..]));
      } else {
        VotesEnd(g1, before, height, hash, n, voted1, rest[1..]);
      }
    }
  }

  /** Exactly when the checkpoint loop finalizes: a fresh checkpoint above everything finalized, voted for
      by each entry of a list, becomes final, and its height the last finalized one, if and only if the
      distinct entries reach the threshold, which is taken of the list with its repetitions. */
  lemma FinalizesIff(g: Gadget, height: U64, hash: Bytes, voters: seq<Bytes>)
    requires NoneOpen(g.checkpoints, height) && g.lastFinalized < height && voters != []
    ensures Ended(g, VotedAll(Checkpointed(g, height, hash, |voters|), height, voters), g.checkpoints, height,
                  |Members(voters)| >= Threshold(|voters|, g.requiredVotes))
    ensures VotedAll(Checkpointed(g, height, hash, |voters|), height, voters).lastFinalized == height
       <==> |Members(voters)| >= Threshold(|voters|, g.requiredVotes)
  {
    VotesEnd(Checkpointed(g, height, hash, |voters|), g.checkpoints, height, hash, |voters|, {}, voters);
    assert {} + Members(voters) == Members(voters);
  }

  lemma {:induction false} DistinctMembers(voters: seq<Bytes>)
    requires Distinct(voters)
    ensures |Members(voters)| == |voters|
  {
    if voters != [] {
      DistinctMembers(voters[1..]);
      assert Members(voters) == {voters[0]} + Members(voters[1..]);
      assert voters[0] !in Members(voters[1..]);
    }
  }

  /** Distinct validators always reach it. */
  lemma CheckpointFinalizes(g: Gadget, height: U64, hash: Bytes, voters: seq<Bytes>)
    requires NoneOpen(g.checkpoints, height) && g.lastFinalized < height
    requires 0.0 <= g.requiredVotes <= 1.0 && Distinct(voters) && voters != []
    ensures Ended(g, VotedAll(Checkpointed(g, height, hash, |voters|), height, voters), g.checkpoints, height, true)
  {
    FinalizesIff(g, height, hash, voters);
    DistinctMembers(voters);
    ThresholdAtMost(|voters|, g.requiredVotes);
  }

  /** Distinctness is needed for that: under the default ratio a list of four or more entries that all name
      one validator does not finalize. */
  lemma RepeatedVoters(g: Gadget, height: U64, hash: Bytes, voters: seq<Bytes>, a: Bytes)
    requires NoneOpen(g.checkpoints, height) && g.lastFinalized < height && g.requiredVotes == 0.67
    requires |voters| >= 4 && forall i :: 0 <= i < |voters| ==> voters[i] == a
    ensures VotedAll(Checkpointed(g, height, hash, |voters|), height, voters).lastFinalized == g.lastFinalized
  {
    FinalizesIff(g, height, hash, voters);
    assert voters[0] == a;
    assert Members(voters) == {a};
    assert |voters| as real * 0.67 >= 2.0;
  }

  class FinalityGadget {
    var checkpoints: seq<Checkpoint>
    var lastFinalized: U64
    var requiredVotes: real

    function State(): Gadget
      reads this
    {
      Gadget(checkpoints, lastFinalized, requiredVotes)
    }

    constructor (requiredVotes: real)
      ensures State() == Gadget([], 0, if requiredVotes == 0.0 then 0.67 else requiredVotes)
    {
      checkpoints := [];
      lastFinalized := 0;
      this.requiredVotes := if requiredVotes == 0.0 then 0.67 else requiredVotes;
    }

    method CreateCheckpoint(height: U64, hash: Bytes, validators: seq<Bytes>)
      modifies this
      ensures State() == Checkpointed(old(State()), height, hash, |validators|)
    {
      checkpoints := checkpoints + [Checkpoint(height, hash, |validators|, {}, false)];
    }

    method AddVote(height: U64, validator: Bytes) returns (final: bool)
      modifies this
      ensures State() == Voted(old(State()), height, validator)
    {
      var i := 0;
      while i < |checkpoints|
        invariant 0 <= i <= |checkpoints|
        invariant AddVoteFrom(State(), i, height, validator) == Voted(old(State()), height, validator)
        decreases |checkpoints| - i
      {
        var cp := checkpoints[i];
        if cp.height == height && !cp.isFinal {
          var signed := cp.(signatures := cp.signatures + {validator});
          checkpoints := checkpoints[i := signed];
          if |signed.signatures| >= Threshold(cp.validators, requiredVotes) {
            checkpoints := checkpoints[i := signed.(isFinal := true)];
            if height > lastFinalized {
              lastFinalized := height;
            }
            return true;
          }
        }
        i := i + 1;
      }
      return false;
    }
  }
}
