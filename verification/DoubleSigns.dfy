/** The double-sign detector: first vote and first proposal seen at each position. */
module DoubleSigns {
  import opened Words
  import opened ConsensusTypes

  const MAX_HISTORY := 10000

  datatype Slot = Slot(phase: Phase, validator: Bytes)

  datatype SignRecord = SignRecord(proposer: Bytes, blockHash: Bytes, votes: map<Slot, Bytes>)

  datatype Kind = ProposalTwice | VoteTwice

  datatype Evidence = Evidence(kind: Kind, validator: Bytes, at: Position, first: Bytes, second: Bytes)

  /** `trimmed` records that some history entry has been deleted. */
  datatype Detector = Detector(history: map<Position, SignRecord>, evidence: seq<Evidence>, trimmed: bool)

  /** The choice `trimHistory` makes: half of the keys, in map iteration order. */
  ghost predicate LegalDrop(history: map<Position, SignRecord>, drop: set<Position>) {
    |history| > MAX_HISTORY ==> drop <= history.Keys && |drop| == |history| / 2
  }

  function Opened(d: Detector, at: Position, fresh': SignRecord, drop: set<Position>): Detector {
    if at in d.history then d
    else
      var grown := d.history[at := fresh'];
      if |grown| <= MAX_HISTORY then d.(history := grown)
      else d.(history := grown - drop, trimmed := true)
  }

  function AfterProposal(d: Detector, proposer: Bytes, at: Position, hash: Bytes, drop: set<Position>)
    : (r: (Detector, Option<Evidence>))
  {
    if at !in d.history then (Opened(d, at, SignRecord(proposer, hash, map[]), drop), None)
    else
      var rec := d.history[at];
      if rec.proposer != proposer || rec.blockHash == hash then (d, None)
      else
        var e := Evidence(ProposalTwice, proposer, at, rec.blockHash, hash);
        (d.(evidence := d.evidence + [e]), Some(e))
  }

  function AfterVote(d: Detector, validator: Bytes, at: Position, phase: Phase, hash: Bytes, drop: set<Position>)
    : (r: (Detector, Option<Evidence>))
  {
    var slot := Slot(phase, validator);
    var o := Opened(d, at, SignRecord([], [], map[]), drop);
    if at !in o.history then (o, None)
    else
      var rec := o.history[at];
      if slot !in rec.votes then
        (o.(history := o.history[at := rec.(votes := rec.votes[slot := hash])]), None)
      else if rec.votes[slot] == hash then (o, None)
      else
        var e := Evidence(VoteTwice, validator, at, rec.votes[slot], hash);
        (o.(evidence := o.evidence + [e]), Some(e))
  }

  /** The hash the detector holds for a validator at a position and phase. */
  function Remembered(d: Detector, validator: Bytes, at: Position, phase: Phase): Option<Bytes> {
    if at in d.history && Slot(phase, validator) in d.history[at].votes
    then Some(d.history[at].votes[Slot(phase, validator)])
    else None
  }

  /** Nothing remembered is forgotten or replaced, unless the history was trimmed. */
  ghost predicate Extends(d: Detector, d': Detector) {
    && (d.trimmed ==> d'.trimmed)
    && d.evidence <= d'.evidence
    && (!d'.trimmed ==>
        forall a, at, p :: Remembered(d, a, at, p).Some? ==> Remembered(d', a, at, p) == Remembered(d, a, at, p))
  }

  /** `CheckVote` reports a conflict exactly when another hash is remembered; an accepted vote is
      the one remembered afterwards; nothing else changes. */
  lemma CheckVoteRemembers(d: Detector, v: Bytes, at: Position, phase: Phase, hash: Bytes, drop: set<Position>)
    ensures var (d', e) := AfterVote(d, v, at, phase, hash, drop);
            && Extends(d, d')
            && (!d'.trimmed ==>
                && (e.Some? <==> Remembered(d, v, at, phase).Some? && Remembered(d, v, at, phase).value != hash)
                && (e.None? ==> Remembered(d', v, at, phase) == Some(hash))
                && (forall a, at', p :: (a, at', p) != (v, at, phase) ==>
                      Remembered(d', a, at', p) == Remembered(d, a, at', p)))
            && (e.Some? ==> d'.evidence == d.evidence + [e.value] && e.value.first != e.value.second)
            && (e.None? ==> d'.evidence == d.evidence)
  {
  }

  lemma CheckProposalKeepsVotes(d: Detector, p: Bytes, at: Position, hash: Bytes, drop: set<Position>)
    ensures var (d', e) := AfterProposal(d, p, at, hash, drop);
            && Extends(d, d')
            && (!d'.trimmed ==> forall a, at', ph :: Remembered(d', a, at', ph) == Remembered(d, a, at', ph))
  {
  }

  // ---------------------------------------------------------------- runs

  /** A vote or a proposal shown to the detector. */
  datatype Presented =
    | Cast(validator: Bytes, at: Position, phase: Phase, hash: Bytes, drop: set<Position>)
    | Made(validator: Bytes, at: Position, hash: Bytes, drop: set<Position>)

  function After(d: Detector, x: Presented): (r: (Detector, Option<Evidence>)) {
    match x
    case Cast(v, at, phase, hash, drop) => AfterVote(d, v, at, phase, hash, drop)
    case Made(v, at, hash, drop) => AfterProposal(d, v, at, hash, drop)
  }

  function Checked(d: Detector, run: seq<Presented>): Detector {
    if run == [] then d else After(Checked(d, run[..|run| - 1]), run[|run| - 1]).0
  }

  ghost predicate VoteShown(run: seq<Presented>, v: Bytes, at: Position, p: Phase, hash: Bytes) {
    exists i :: 0 <= i < |run| && run[i].Cast? && run[i].validator == v && run[i].at == at && run[i].phase == p
                && run[i].hash == hash
  }

  ghost predicate ProposalShown(run: seq<Presented>, v: Bytes, at: Position, hash: Bytes) {
    exists i :: 0 <= i < |run| && run[i].Made? && run[i].validator == v && run[i].at == at && run[i].hash == hash
  }

  /** The conflict names two different hashes, and both were shown in the validator's name. */
  ghost predicate Genuine(run: seq<Presented>, e: Evidence) {
    && e.first != e.second
    && match e.kind
       case ProposalTwice =>
         ProposalShown(run, e.validator, e.at, e.first) && ProposalShown(run, e.validator, e.at, e.second)
       case VoteTwice =>
         exists p :: VoteShown(run, e.validator, e.at, p, e.first) && VoteShown(run, e.validator, e.at, p, e.second)
  }

  const EMPTY := Detector(map[], [], false)

  lemma ShownGrows(run: seq<Presented>, x: Presented)
    ensures forall v, at, p, hash :: VoteShown(run, v, at, p, hash) ==> VoteShown(run + [x], v, at, p, hash)
    ensures forall v, at, hash :: ProposalShown(run, v, at, hash) ==> ProposalShown(run + [x], v, at, hash)
    ensures x.Cast? ==> VoteShown(run + [x], x.validator, x.at, x.phase, x.hash)
    ensures x.Made? ==> ProposalShown(run + [x], x.validator, x.at, x.hash)
  {
    assert forall i :: 0 <= i < |run| ==> (run + [x])[i] == run[i];
    assert (run + [x])[|run|] == x;
  }

  /** What is remembered after a vote or a proposal was remembered before, or is that vote. */
  lemma RememberedAfter(d: Detector, x: Presented, v: Bytes, at: Position, p: Phase)
    ensures var r := Remembered(After(d, x).0, v, at, p);
            || r == None
            || r == Remembered(d, v, at, p)
            || (x.Cast? && x.validator == v && x.at == at && x.phase == p && r == Some(x.hash))
  {
  }

  lemma {:induction false} RememberedWasShown(run: seq<Presented>, v: Bytes, at: Position, p: Phase)
    requires Remembered(Checked(EMPTY, run), v, at, p).Some?
    ensures VoteShown(run, v, at, p, Remembered(Checked(EMPTY, run), v, at, p).value)
  {
    if run != [] {
      var front, x := run[..|run| - 1], run[|run| - 1];
      assert run == front + [x];
      RememberedAfter(Checked(EMPTY, front), x, v, at, p);
      ShownGrows(front, x);
      hide After, Remembered, VoteShown;
      if Remembered(Checked(EMPTY, front), v, at, p) == Remembered(Checked(EMPTY, run), v, at, p) {
        RememberedWasShown(front, v, at, p);
      }
    }
  }

  /** A history entry was opened by a vote, or by the proposal it holds. */
  ghost predicate EntryShown(run: seq<Presented>, at: Position, rec: SignRecord) {
    (rec.proposer == [] && rec.blockHash == []) || ProposalShown(run, rec.proposer, at, rec.blockHash)
  }

  lemma EntryAfter(d: Detector, x: Presented, at: Position)
    ensures var d' := After(d, x).0;
            at in d'.history ==>
              var rec := d'.history[at];
              || (at in d.history && rec.proposer == d.history[at].proposer && rec.blockHash == d.history[at].blockHash)
              || (rec.proposer == [] && rec.blockHash == [])
              || (x.Made? && x.at == at && rec.proposer == x.validator && rec.blockHash == x.hash)
  {
  }

  lemma {:induction false} EntriesShown(run: seq<Presented>, at: Position)
    requires at in Checked(EMPTY, run).history
    ensures EntryShown(run, at, Checked(EMPTY, run).history[at])
  {
    if run != [] {
      var front, x := run[..|run| - 1], run[|run| - 1];
      assert run == front + [x];
      EntryAfter(Checked(EMPTY, front), x, at);
      ShownGrows(front, x);
      hide After, ProposalShown;
      if at in Checked(EMPTY, front).history {
        EntriesShown(front, at);
      }
    }
  }

  /** What one check adds to the evidence, read off the state before it. */
  lemma Conflict(d: Detector, x: Presented)
    ensures var (d', conflict) := After(d, x);
            match conflict
            case None => d'.evidence == d.evidence
            case Some(e) =>
              && d'.evidence == d.evidence + [e] && e.validator == x.validator && e.at == x.at && e.second == x.hash
              && e.first != e.second
              && (if x.Cast? then e.kind == VoteTwice && Remembered(d, x.validator, x.at, x.phase) == Some(e.first)
                  else e.kind == ProposalTwice && x.at in d.history
                       && d.history[x.at].proposer == x.validator && d.history[x.at].blockHash == e.first)
  {
  }

  /** Over any run of votes and proposals, a recorded conflict is genuine, unless it accuses a proposer
      whose address is empty: that is what an entry opened by a vote holds in its proposer's place. */
  lemma {:induction false} EvidenceIsGenuine(run: seq<Presented>, k: nat)
    requires k < |Checked(EMPTY, run).evidence|
    ensures var e := Checked(EMPTY, run).evidence[k];
            e.kind == VoteTwice || e.validator != [] ==> Genuine(run, e)
  {
    if run != [] {
      var front, x := run[..|run| - 1], run[|run| - 1];
      var d := Checked(EMPTY, front);
      assert run == front + [x];
      Conflict(d, x);
      ShownGrows(front, x);
      hide After, VoteShown, ProposalShown, Remembered;
      if k < |d.evidence| {
        EvidenceIsGenuine(front, k);
      } else if x.Cast? {
        RememberedWasShown(front, x.validator, x.at, x.phase);
      } else {
        EntriesShown(front, x.at);
      }
    }
  }

  /** The exception is real: after any vote at a position, one proposal in the empty address's name is
      reported as its second. */
  lemma EmptyAddressAccused(v: Bytes, at: Position, phase: Phase, voted: Bytes, hash: Bytes)
    requires hash != []
    ensures var run := [Cast(v, at, phase, voted, {}), Made([], at, hash, {})];
            Checked(EMPTY, run).evidence == [Evidence(ProposalTwice, [], at, [], hash)]
            && !Genuine(run, Evidence(ProposalTwice, [], at, [], hash))
  {
    var run := [Cast(v, at, phase, voted, {}), Made([], at, hash, {})];
    var opened' := map[at := SignRecord([], [], map[])];
    assert opened'.Keys == {at} && |opened'| == |opened'.Keys|;
    assert EMPTY.history[at := SignRecord([], [], map[])] == opened';
    assert run[..1][..0] == [] && run[..1][0] == run[0] && |run[..1]| == 1;
    assert Checked(EMPTY, run[..1]) == After(EMPTY, run[0]).0;
  }

  // ---------------------------------------------------------------- when the history is trimmed

  /** The positions something was shown at. */
  function Positions(run: seq<Presented>): set<Position> {
    if run == [] then {} else Positions(run[..|run| - 1]) + {run[|run| - 1].at}
  }

  /** Whatever a trim of the run deletes, it is half of the positions there are. */
  ghost predicate TrimsHalves(run: seq<Presented>) {
    run == []
    || (&& TrimsHalves(run[..|run| - 1])
        && var x := run[|run| - 1];
           var grown := Checked(EMPTY, run[..|run| - 1]).history.Keys + {x.at};
           |grown| > 10000 ==> x.drop <= grown && |x.drop| == |grown| / 2)
  }

  lemma OpenedKeys(d: Detector, at: Position, r: SignRecord, drop: set<Position>)
    requires at !in d.history
    ensures var d' := Opened(d, at, r, drop);
            && d'.history.Keys == (if |d.history| < 10000 then d.history.Keys + {at} else d.history.Keys + {at} - drop)
            && d'.trimmed == (d.trimmed || |d.history| >= 10000)
  {
    var grown := d.history[at := r];
    assert grown.Keys == d.history.Keys + {at};
    assert |grown| == |grown.Keys| && |d.history| == |d.history.Keys|;
  }

  lemma OpensIff(d: Detector, x: Presented)
    ensures var d' := After(d, x).0;
            && (x.at in d.history ==> d'.history.Keys == d.history.Keys && d'.trimmed == d.trimmed)
            && (x.at !in d.history && |d.history| < 10000 ==>
                  d'.history.Keys == d.history.Keys + {x.at} && d'.trimmed == d.trimmed)
            && (x.at !in d.history && |d.history| >= 10000 ==>
                  d'.history.Keys == d.history.Keys + {x.at} - x.drop && d'.trimmed)
  {
    if x.at !in d.history {
      var r := if x.Made? then SignRecord(x.validator, x.hash, map[]) else SignRecord([], [], map[]);
      OpenedKeys(d, x.at, r, x.drop);
      hide Opened;
    }
  }

  /** Over every run, the history is trimmed exactly when more than ten thousand positions were shown; until then it
      has an entry for each of them. */
  lemma {:induction false} TrimmedIff(run: seq<Presented>)
    ensures var d := Checked(EMPTY, run);
            && (d.trimmed <==> |Positions(run)| > 10000)
            && (!d.trimmed ==> d.history.Keys == Positions(run))
  {
    hide After;
    if run != [] {
      var before, x := Checked(EMPTY, run[..|run| - 1]), run[|run| - 1];
      TrimmedIff(run[..|run| - 1]);
      OpensIff(before, x);
      OneMoreAtMost(Positions(run[..|run| - 1]), x.at);
      assert |before.history| == |before.history.Keys|;
    }
  }

  lemma OneMoreAtMost(s: set<Position>, at: Position)
    ensures |s + {at}| == if at in s then |s| else |s| + 1
  {
    if at in s {
      assert s + {at} == s;
    }
  }

  /** A history never holds more than ten thousand positions: the one that is too many makes it drop half. */
  lemma {:induction false} HistoryStaysBounded(run: seq<Presented>)
    requires TrimsHalves(run)
    ensures |Checked(EMPTY, run).history.Keys| <= 10000
  {
    hide After;
    if run != [] {
      var before, x := Checked(EMPTY, run[..|run| - 1]), run[|run| - 1];
      HistoryStaysBounded(run[..|run| - 1]);
      OpensIff(before, x);
      OneMoreAtMost(before.history.Keys, x.at);
      assert |before.history| == |before.history.Keys|;
    }
  }

  // ---------------------------------------------------------------- what is reported

  /** What was shown first at a position. */
  function FirstAt(run: seq<Presented>, at: Position): Option<Presented> {
    if run == [] then None
    else
      var earlier := FirstAt(run[..|run| - 1], at);
      if earlier.Some? then earlier else if run[|run| - 1].at == at then Some(run[|run| - 1]) else None
  }

  /** The first vote of a validator at a position and phase. */
  function FirstVote(run: seq<Presented>, v: Bytes, at: Position, p: Phase): Option<Bytes> {
    if run == [] then None
    else
      var earlier, x := FirstVote(run[..|run| - 1], v, at, p), run[|run| - 1];
      if earlier.Some? then earlier
      else if x.Cast? && x.validator == v && x.at == at && x.phase == p then Some(x.hash) else None
  }

  /** The entry a position gets, by what was shown there first. */
  predicate Opens(first: Option<Presented>, d: Detector, at: Position) {
    match first
    case None => at !in d.history
    case Some(Cast(_, _, _, _, _)) => at in d.history && d.history[at].proposer == [] && d.history[at].blockHash == []
    case Some(Made(v, _, hash, _)) => at in d.history && d.history[at].proposer == v && d.history[at].blockHash == hash
  }

  lemma FirstStays(d: Detector, x: Presented, first: Option<Presented>, at: Position)
    requires Opens(first, d, at) && !After(d, x).0.trimmed
    ensures !d.trimmed
    ensures Opens(if first.Some? then first else if x.at == at then Some(x) else None, After(d, x).0, at)
  {
  }

  lemma FirstVoteStays(d: Detector, x: Presented, v: Bytes, at: Position, p: Phase)
    requires !After(d, x).0.trimmed
    ensures !d.trimmed
    ensures Remembered(After(d, x).0, v, at, p)
         == if Remembered(d, v, at, p).Some? then Remembered(d, v, at, p)
            else if x.Cast? && x.validator == v && x.at == at && x.phase == p then Some(x.hash) else None
  {
  }

  /** An untrimmed history holds what was shown first, and nothing else. */
  lemma {:induction false} HistoryHoldsFirsts(run: seq<Presented>, v: Bytes, at: Position, p: Phase)
    requires !Checked(EMPTY, run).trimmed
    ensures Opens(FirstAt(run, at), Checked(EMPTY, run), at)
    ensures Remembered(Checked(EMPTY, run), v, at, p) == FirstVote(run, v, at, p)
  {
    hide After, Opens, Remembered;
    if run == [] {
      NothingRemembered(v, at, p);
    } else {
      var front, x := run[..|run| - 1], run[|run| - 1];
      FirstVoteStays(Checked(EMPTY, front), x, v, at, p);
      HistoryHoldsFirsts(front, v, at, p);
      FirstStays(Checked(EMPTY, front), x, FirstAt(front, at), at);
    }
  }

  lemma NothingRemembered(v: Bytes, at: Position, p: Phase)
    ensures Opens(None, EMPTY, at) && Remembered(EMPTY, v, at, p) == None
  {
  }

  /** Exactly what is reported while the history is whole: a vote that differs from the validator's first
      vote at that position and phase, and a proposal that differs from the same proposer's when that
      proposal was the first thing seen at the position. Once a vote came first, a proposer with an address
      is never reported. */
  lemma {:induction false} ReportedIff(run: seq<Presented>, x: Presented)
    requires !After(Checked(EMPTY, run), x).0.trimmed
    ensures After(Checked(EMPTY, run), x).1.Some? <==>
              if x.Cast? then
                var first := FirstVote(run, x.validator, x.at, x.phase);
                first.Some? && first.value != x.hash
              else
                match FirstAt(run, x.at)
                case None => false
                case Some(Cast(_, _, _, _, _)) => x.validator == [] && x.hash != []
                case Some(Made(proposer, _, hash, _)) => proposer == x.validator && hash != x.hash
  {
    var p := if x.Cast? then x.phase else Idle;
    FirstVoteStays(Checked(EMPTY, run), x, x.validator, x.at, p);
    HistoryHoldsFirsts(run, x.validator, x.at, p);
    hide Checked, FirstVote, FirstAt;
  }

  class DoubleSignDetector {
    var history: map<Position, SignRecord>
    var evidence: seq<Evidence>
    ghost var trimmed: bool

    ghost function State(): Detector
      reads this
    {
      Detector(history, evidence, trimmed)
    }

    constructor ()
      ensures State() == EMPTY
    {
      history := map[];
      evidence := [];
      trimmed := false;
    }

    /** `trimHistory`: deletes the first half of the keys in iteration order. */
    method TrimHistory() returns (ghost drop: set<Position>)
      modifies this
      ensures LegalDrop(old(history), drop) && evidence == old(evidence)
      ensures |old(history)| <= MAX_HISTORY ==> history == old(history) && trimmed == old(trimmed)
      ensures |old(history)| > MAX_HISTORY ==> history == old(history) - drop && trimmed
    {
      drop := {};
      if |history| <= MAX_HISTORY {
        return;
      }
      var keys := history.Keys;
      assert |keys| == |history|;
      var half := |keys| / 2;
      var i := 0;
      while i < half
        invariant 0 <= i <= half && |drop| == i && drop <= old(history).Keys && drop !! keys
        invariant keys == old(history).Keys - drop && |keys| == |old(history)| - i
        invariant history == old(history) - drop && evidence == old(evidence)
      {
        var k :| k in keys;
        keys := keys - {k};
        drop := drop + {k};
        history := history - {k};
        i := i + 1;
      }
      trimmed := true;
    }

    method CheckProposal(proposer: Bytes, at: Position, hash: Bytes)
      returns (conflict: Option<Evidence>, ghost drop: set<Position>)
      modifies this
      ensures (State(), conflict) == AfterProposal(old(State()), proposer, at, hash, drop)
      ensures at !in old(history) ==> LegalDrop(old(history)[at := SignRecord(proposer, hash, map[])], drop)
    {
      drop := {};
      if at !in history {
        history := history[at := SignRecord(proposer, hash, map[])];
        drop := TrimHistory();
        return None, drop;
      }
      var rec := history[at];
      if rec.proposer != proposer {
        return None, drop;
      }
      if rec.blockHash != hash {
        var e := Evidence(ProposalTwice, proposer, at, rec.blockHash, hash);
        evidence := evidence + [e];
        return Some(e), drop;
      }
      return None, drop;
    }

    method CheckVote(validator: Bytes, at: Position, phase: Phase, hash: Bytes)
      returns (conflict: Option<Evidence>, ghost drop: set<Position>)
      modifies this
      ensures (State(), conflict) == AfterVote(old(State()), validator, at, phase, hash, drop)
      ensures at !in old(history) ==> LegalDrop(old(history)[at := SignRecord([], [], map[])], drop)
    {
      drop := {};
      var rec := SignRecord([], [], map[]);
      if at in history {
        rec := history[at];
      } else {
        history := history[at := rec];
        drop := TrimHistory();
      }
      var slot := Slot(phase, validator);
      if slot !in rec.votes {
        if at in history {
          history := history[at := rec.(votes := rec.votes[slot := hash])];
        }
        return None, drop;
      }
      if rec.votes[slot] != hash {
        var e := Evidence(VoteTwice, validator, at, rec.votes[slot], hash);
        evidence := evidence + [e];
        return Some(e), drop;
      }
      return None, drop;
    }
  }
}
