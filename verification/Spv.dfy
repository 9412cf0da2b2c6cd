/** The light client's Merkle proofs: siblings are hashed in sorted order behind a zero byte, an odd
    node is promoted unhashed, and a proof carries no index. SHA-256 is the parameter `H`. */
module Spv {
  import opened Words
  import opened HexText
  import M = Merkle

  datatype InclusionProof = InclusionProof(txHash: Text, blockHash: Text, merkleProof: seq<Bytes>)

  // ---------------------------------------------------------------- the tree as functions

  /** The bytes hashed for a pair. */
  function PairBytes(a: Bytes, b: Bytes): Bytes {
    if Compare(a, b) <= 0 then [0] + a + b else [0] + b + a
  }

  function PairHash(H: M.HashFn, a: Bytes, b: Bytes): Bytes {
    H(PairBytes(a, b))
  }

  /** Sorting makes the pair's hash independent of which child is on the path. */
  lemma PairHashSymmetric(H: M.HashFn, a: Bytes, b: Bytes)
    ensures PairHash(H, a, b) == PairHash(H, b, a)
  {
    CompareFlips(a, b);
    CompareFlips(b, a);
    CompareZero(a, b);
  }

  /** Node `k` of the next level: a pair is hashed, a last odd node moves up as it is. */
  function Parent(H: M.HashFn, hs: seq<Bytes>, k: nat): Bytes
    requires 2 * k < |hs|
  {
    if 2 * k + 1 < |hs| then PairHash(H, hs[2 * k], hs[2 * k + 1]) else hs[2 * k]
  }

  function NextLevel(H: M.HashFn, hs: seq<Bytes>): (next: seq<Bytes>)
    ensures |next| == (|hs| + 1) / 2
    ensures forall k :: 0 <= k < |next| ==> next[k] == Parent(H, hs, k)
  {
    seq((|hs| + 1) / 2, k requires 0 <= k < (|hs| + 1) / 2 => Parent(H, hs, k))
  }

  /** The last node left when levels are reduced one after the other. */
  function Top(H: M.HashFn, hs: seq<Bytes>): Bytes
    requires hs != []
    decreases |hs|
  {
    if |hs| == 1 then hs[0] else Top(H, NextLevel(H, hs))
  }

  /** The sibling on the path, if the node has one. */
  function Siblings(hs: seq<Bytes>, i: nat): seq<Bytes>
    requires i < |hs|
  {
    if i % 2 == 1 then [hs[i - 1]] else if i + 1 < |hs| then [hs[i + 1]] else []
  }

  function Proof(H: M.HashFn, hs: seq<Bytes>, i: nat): seq<Bytes>
    requires i < |hs|
    decreases |hs|
  {
    if |hs| == 1 then [] else Siblings(hs, i) + Proof(H, NextLevel(H, hs), i / 2)
  }

  function Fold(H: M.HashFn, current: Bytes, proof: seq<Bytes>): Bytes
    decreases |proof|
  {
    if proof == [] then current else Fold(H, PairHash(H, current, proof[0]), proof[1..])
  }

  /** `VerifyTransactionInclusion`. */
  predicate Verifies(H: M.HashFn, proof: InclusionProof, blockTxHashes: seq<Text>) {
    && proof.merkleProof != []
    && proof.txHash in blockTxHashes
    && Decode(proof.txHash).Some? && |Decode(proof.txHash).value| == 32
    && Decode(proof.blockHash) == Some(Fold(H, Decode(proof.txHash).value, proof.merkleProof))
  }

  // ---------------------------------------------------------------- completeness

  lemma FoldStep(H: M.HashFn, hs: seq<Bytes>, i: nat, rest: seq<Bytes>)
    requires i < |hs|
    ensures Fold(H, hs[i], Siblings(hs, i) + rest) == Fold(H, Parent(H, hs, i / 2), rest)
  {
    if i % 2 == 1 {
      PairHashSymmetric(H, hs[i - 1], hs[i]);
      assert ([hs[i - 1]] + rest)[1..] == rest;
    } else if i + 1 < |hs| {
      assert ([hs[i + 1]] + rest)[1..] == rest;
    } else {
      assert [] + rest == rest;
    }
  }

  /** Folding the proof from a leaf reaches the node the level reduction ends with, promoted odd
      nodes included, although the fold knows no index. */
  lemma {:induction false} FoldReachesTop(H: M.HashFn, hs: seq<Bytes>, i: nat)
    requires i < |hs|
    ensures Fold(H, hs[i], Proof(H, hs, i)) == Top(H, hs)
    decreases |hs|
  {
    hide Siblings, Parent;
    if |hs| > 1 {
      FoldStep(H, hs, i, Proof(H, NextLevel(H, hs), i / 2));
      FoldReachesTop(H, NextLevel(H, hs), i / 2);
    }
  }

  /** A node may be promoted on every level but the last, so its proof is empty only in a tree of one. */
  lemma {:induction false} ProofIsEmptyIffAlone(H: M.HashFn, hs: seq<Bytes>, i: nat)
    requires i < |hs|
    ensures Proof(H, hs, i) == [] <==> |hs| == 1
    decreases |hs|
  {
    if |hs| > 2 {
      ProofIsEmptyIffAlone(H, NextLevel(H, hs), i / 2);
    }
  }

  // ---------------------------------------------------------------- the tree by positions

  /** Node `k` of level `l`: the hash of a zero byte and the two children, the smaller one first; an only child moves
      up as it is. */
  function Node(H: M.HashFn, hs: seq<Bytes>, l: nat, k: nat): Bytes
    requires k < M.Width(|hs|, l)
  {
    if l == 0 then hs[k]
    else if 2 * k + 1 < M.Width(|hs|, l - 1) then
      var a, b := Node(H, hs, l - 1, 2 * k), Node(H, hs, l - 1, 2 * k + 1);
      H(if Compare(a, b) <= 0 then [0] + a + b else [0] + b + a)
    else Node(H, hs, l - 1, 2 * k)
  }

  lemma LeafNode(H: M.HashFn, hs: seq<Bytes>, k: nat)
    requires k < M.Width(|hs|, 0)
    ensures k < |hs| && Node(H, hs, 0, k) == hs[k]
  {
  }

  lemma FirstNodes(H: M.HashFn, hs: seq<Bytes>, k: nat)
    requires k < M.Width(|hs|, 1)
    ensures k < |NextLevel(H, hs)| && Node(H, hs, 1, k) == NextLevel(H, hs)[k]
  {
    assert M.Width(|hs|, 0) == |hs|;
    LeafNode(H, hs, 2 * k);
    if 2 * k + 1 < |hs| {
      LeafNode(H, hs, 2 * k + 1);
    }
    assert NextLevel(H, hs)[k] == Parent(H, hs, k);
  }

  lemma NodeUnfolds(H: M.HashFn, hs: seq<Bytes>, l: nat, k: nat)
    requires k < M.Width(|hs|, l + 1)
    ensures 2 * k < M.Width(|hs|, l)
    ensures Node(H, hs, l + 1, k)
         == if 2 * k + 1 < M.Width(|hs|, l) then PairHash(H, Node(H, hs, l, 2 * k), Node(H, hs, l, 2 * k + 1))
            else Node(H, hs, l, 2 * k)
  {
  }

  lemma {:induction false} NodeAbove(H: M.HashFn, hs: seq<Bytes>, l: nat, k: nat)
    requires k < M.Width(|hs|, l + 1)
    ensures k < M.Width(|NextLevel(H, hs)|, l) && Node(H, hs, l + 1, k) == Node(H, NextLevel(H, hs), l, k)
  {
    hide Node, M.Width, NextLevel, PairHash;
    var next := NextLevel(H, hs);
    M.WidthAbove(|hs|, l);
    if l > 0 {
      M.WidthAbove(|hs|, l - 1);
      NodeUnfolds(H, hs, l, k);
      NodeUnfolds(H, next, l - 1, k);
      NodeAbove(H, hs, l - 1, 2 * k);
      if 2 * k + 1 < M.Width(|hs|, l) {
        NodeAbove(H, hs, l - 1, 2 * k + 1);
      }
    } else {
      FirstNodes(H, hs, k);
      LeafNode(H, next, k);
    }
  }

  /** The top is the one node of the last level. */
  lemma {:induction false} TopIsLastNode(H: M.HashFn, hs: seq<Bytes>)
    requires hs != []
    ensures M.Width(|hs|, M.Depth(|hs|)) == 1 && Top(H, hs) == Node(H, hs, M.Depth(|hs|), 0)
    decreases |hs|
  {
    hide Node, M.Width, NextLevel;
    if |hs| > 1 {
      TopIsLastNode(H, NextLevel(H, hs));
      M.WidthAbove(|hs|, M.Depth(|hs|) - 1);
      NodeAbove(H, hs, M.Depth(|hs|) - 1, 0);
    } else {
      M.AllOfLevelZero(|hs|, 0);
      LeafNode(H, hs, 0);
    }
  }

  /** The node beside node `k` of level `l`; an only child has none. */
  function OtherNode(H: M.HashFn, hs: seq<Bytes>, l: nat, k: nat): seq<Bytes>
    requires k < M.Width(|hs|, l)
  {
    if k % 2 == 1 then [Node(H, hs, l, k - 1)]
    else if k + 1 < M.Width(|hs|, l) then [Node(H, hs, l, k + 1)] else []
  }

  /** The nodes beside the path from position `i`, level by level below `l`. */
  function Beside(H: M.HashFn, hs: seq<Bytes>, i: nat, l: nat): seq<Bytes>
    requires i < |hs|
  {
    if l == 0 then []
    else
      M.AncestorWithin(i, |hs|, l - 1);
      Beside(H, hs, i, l - 1) + OtherNode(H, hs, l - 1, M.Ancestor(i, l - 1))
  }

  lemma OtherNodeAbove(H: M.HashFn, hs: seq<Bytes>, l: nat, k: nat)
    requires k < M.Width(|hs|, l + 1)
    ensures k < M.Width(|NextLevel(H, hs)|, l)
    ensures OtherNode(H, hs, l + 1, k) == OtherNode(H, NextLevel(H, hs), l, k)
  {
    hide Node, NextLevel, M.Width;
    M.WidthAbove(|hs|, l);
    if k % 2 == 1 {
      NodeAbove(H, hs, l, k - 1);
    } else if k + 1 < M.Width(|hs|, l + 1) {
      NodeAbove(H, hs, l, k + 1);
    }
  }

  lemma FirstOthers(H: M.HashFn, hs: seq<Bytes>, i: nat)
    requires i < |hs|
    ensures Beside(H, hs, i, 0) == [] && Beside(H, hs, i, 1) == Siblings(hs, i)
  {
    M.AllOfLevelZero(|hs|, i);
    if i % 2 == 1 {
      LeafNode(H, hs, i - 1);
    } else if i + 1 < |hs| {
      LeafNode(H, hs, i + 1);
    }
    assert Beside(H, hs, i, 1) == Beside(H, hs, i, 0) + OtherNode(H, hs, 0, i);
  }

  lemma BesideUnfolds(H: M.HashFn, hs: seq<Bytes>, i: nat, l: nat)
    requires i < |hs|
    ensures M.Ancestor(i, l) < M.Width(|hs|, l)
    ensures Beside(H, hs, i, l + 1) == Beside(H, hs, i, l) + OtherNode(H, hs, l, M.Ancestor(i, l))
  {
    M.AncestorWithin(i, |hs|, l);
    hide OtherNode, M.Ancestor, M.Width;
  }

  lemma {:induction false} BesideAbove(H: M.HashFn, hs: seq<Bytes>, i: nat, l: nat)
    requires i < |hs|
    ensures Beside(H, hs, i, l + 1) == Siblings(hs, i) + Beside(H, NextLevel(H, hs), i / 2, l)
  {
    hide Beside, OtherNode, NextLevel, M.Ancestor, Siblings, M.Width;
    var next := NextLevel(H, hs);
    FirstOthers(H, hs, i);
    FirstOthers(H, next, i / 2);
    if l > 0 {
      BesideAbove(H, hs, i, l - 1);
      M.AncestorAbove(i, l);
      BesideUnfolds(H, hs, i, l);
      BesideUnfolds(H, next, i / 2, l - 1);
      OtherNodeAbove(H, hs, l - 1, M.Ancestor(i, l));
    }
  }

  /** A proof is the nodes beside its path, from the leaf up. */
  lemma {:induction false} ProofIsBeside(H: M.HashFn, hs: seq<Bytes>, i: nat)
    requires i < |hs|
    ensures Proof(H, hs, i) == Beside(H, hs, i, M.Depth(|hs|))
    decreases |hs|
  {
    hide Beside, NextLevel, Siblings;
    if |hs| > 1 {
      ProofIsBeside(H, NextLevel(H, hs), i / 2);
      BesideAbove(H, hs, i, M.Depth(|hs|) - 1);
    } else {
      FirstOthers(H, hs, i);
    }
  }

  function AllTexts(hs: seq<Bytes>): (r: seq<Text>)
    ensures |r| == |hs| && forall i :: 0 <= i < |hs| ==> r[i] == Encode(hs[i])
  {
    seq(|hs|, i requires 0 <= i < |hs| => Encode(hs[i]))
  }

  function HonestProof(H: M.HashFn, txs: seq<Bytes>, index: nat): InclusionProof
    requires index < |txs|
  {
    var hs := M.Hashes(H, txs);
    InclusionProof(Encode(hs[index]), Encode(Top(H, hs)), Proof(H, hs, index))
  }

  /** The honest proof of every transaction is accepted exactly when the block has at least two. */
  lemma InclusionComplete(H: M.HashFn, txs: seq<Bytes>, index: nat)
    requires M.Digests(H) && index < |txs|
    ensures Verifies(H, HonestProof(H, txs, index), AllTexts(M.Hashes(H, txs))) <==> |txs| >= 2
  {
    var hs := M.Hashes(H, txs);
    RoundTrip(hs[index]);
    RoundTrip(Top(H, hs));
    FoldReachesTop(H, hs, index);
    ProofIsEmptyIffAlone(H, hs, index);
    assert AllTexts(hs)[index] == Encode(hs[index]);
  }

  // ---------------------------------------------------------------- what an accepted proof means

  function Couple(hs: seq<Bytes>, k: nat): Bytes
    requires 2 * k + 1 < |hs|
  {
    PairBytes(hs[2 * k], hs[2 * k + 1])
  }

  /** The pairs hashed on one level. */
  function LevelPairs(hs: seq<Bytes>): (ps: seq<Bytes>)
    ensures |ps| == |hs| / 2
    ensures forall k {:trigger ps[k]} :: 0 <= k < |ps| ==> 2 * k + 1 < |hs| && ps[k] == Couple(hs, k)
  {
    seq(|hs| / 2, k requires 0 <= k < |hs| / 2 => Couple(hs, k))
  }

  /** Everything hashed on the way from a level to the top. */
  function Inner(H: M.HashFn, hs: seq<Bytes>): seq<Bytes>
    decreases |hs|
  {
    if |hs| <= 1 then [] else LevelPairs(hs) + Inner(H, NextLevel(H, hs))
  }

  /** Everything the tree hashed: the transactions, and the pairs of every level. */
  function Hashed(H: M.HashFn, txs: seq<Bytes>): seq<Bytes> {
    txs + Inner(H, M.Hashes(H, txs))
  }

  /** The first of some byte strings with a given hash. */
  function Source(H: M.HashFn, all: seq<Bytes>, x: Bytes): (r: Option<Bytes>)
    ensures r.Some? ==> r.value in all && H(r.value) == x
    ensures r.None? ==> forall p :: p in all ==> H(p) != x
  {
    if all == [] then None else if H(all[0]) == x then Some(all[0]) else Source(H, all[1..], x)
  }

  predicate IsNode(H: M.HashFn, all: seq<Bytes>, x: Bytes) {
    Source(H, all, x).Some?
  }

  /** A node of the tree, leaf or not. */
  predicate InTree(H: M.HashFn, txs: seq<Bytes>, x: Bytes) {
    IsNode(H, Hashed(H, txs), x)
  }

  ghost predicate PairOfNodes(H: M.HashFn, all: seq<Bytes>, p: Bytes) {
    exists a, b :: IsNode(H, all, a) && IsNode(H, all, b) && p == PairBytes(a, b)
  }

  lemma NextNodes(H: M.HashFn, hs: seq<Bytes>, all: seq<Bytes>)
    requires |hs| > 1 && (forall x :: x in hs ==> IsNode(H, all, x)) && (forall p :: p in LevelPairs(hs) ==> p in all)
    ensures forall x :: x in NextLevel(H, hs) ==> IsNode(H, all, x)
    ensures forall p :: p in LevelPairs(hs) ==> PairOfNodes(H, all, p)
  {
    hide Source, PairBytes;
    var next := NextLevel(H, hs);
    forall k | 0 <= k < |next| ensures IsNode(H, all, next[k]) {
      if 2 * k + 1 < |hs| {
        assert LevelPairs(hs)[k] in LevelPairs(hs);
        assert H(LevelPairs(hs)[k]) == next[k];
      }
    }
    forall k | 0 <= k < |LevelPairs(hs)| ensures PairOfNodes(H, all, LevelPairs(hs)[k]) {
      assert IsNode(H, all, hs[2 * k]) && IsNode(H, all, hs[2 * k + 1]);
    }
  }

  /** The top is a node, and whatever was hashed above the leaves is a pair of nodes. */
  lemma {:induction false} InnerPairs(H: M.HashFn, hs: seq<Bytes>, all: seq<Bytes>)
    requires hs != [] && (forall x :: x in hs ==> IsNode(H, all, x)) && (forall p :: p in Inner(H, hs) ==> p in all)
    ensures IsNode(H, all, Top(H, hs))
    ensures forall p :: p in Inner(H, hs) ==> PairOfNodes(H, all, p)
    decreases |hs|
  {
    hide Source, PairBytes, PairOfNodes, IsNode;
    if |hs| > 1 {
      var next := NextLevel(H, hs);
      assert forall p :: p in LevelPairs(hs) ==> p in Inner(H, hs);
      assert forall p :: p in Inner(H, next) ==> p in Inner(H, hs);
      NextNodes(H, hs, all);
      InnerPairs(H, next, all);
    }
  }

  /** Sorting and joining lose neither of two digests. */
  lemma PairBytesBind(a: Bytes, b: Bytes, c: Bytes, s: Bytes)
    requires |a| == |b| == |c| == M.DIGEST && PairBytes(a, b) == PairBytes(c, s)
    ensures c == a || c == b
  {
    var p := PairBytes(a, b);
    assert |p| == 65 && |s| == M.DIGEST;
    assert p[1..33] == (if Compare(a, b) <= 0 then a else b) && p[33..] == (if Compare(a, b) <= 0 then b else a);
    assert p[1..33] == (if Compare(c, s) <= 0 then c else s) && p[33..] == (if Compare(c, s) <= 0 then s else c);
  }

  /** The first step of a fold that enters the tree: what the fold hashed, and what the tree did. */
  function FoldClash(H: M.HashFn, all: seq<Bytes>, current: Bytes, proof: seq<Bytes>): (Bytes, Bytes)
    requires proof != []
    decreases |proof|
  {
    var joined := PairBytes(current, proof[0]);
    match Source(H, all, H(joined))
    case Some(p) => (joined, p)
    case None => if |proof| == 1 then ([], []) else FoldClash(H, all, H(joined), proof[1..])
  }

  lemma TreeNodes(H: M.HashFn, txs: seq<Bytes>)
    requires txs != []
    ensures InTree(H, txs, Top(H, M.Hashes(H, txs)))
    ensures forall p :: p in Inner(H, M.Hashes(H, txs)) ==> PairOfNodes(H, Hashed(H, txs), p)
  {
    hide Source, Inner, Top, PairOfNodes;
    var hs, all := M.Hashes(H, txs), Hashed(H, txs);
    forall x | x in hs ensures IsNode(H, all, x) {
      var i :| 0 <= i < |hs| && hs[i] == x;
      assert txs[i] in all;
    }
    InnerPairs(H, hs, all);
  }

  /** A proof that folds to the top starts from a node of the tree, or exhibits a collision, or passes
      through a transaction that is itself the bytes of a pair. */
  lemma {:induction false} FoldOpens(H: M.HashFn, txs: seq<Bytes>, current: Bytes, proof: seq<Bytes>)
    requires M.Digests(H) && txs != [] && |current| == M.DIGEST && proof != []
    requires Fold(H, current, proof) == Top(H, M.Hashes(H, txs))
    ensures var clash := FoldClash(H, Hashed(H, txs), current, proof);
            || InTree(H, txs, current)
            || M.Collision(H, clash)
            || (clash.0 in txs && |clash.0| > M.DIGEST && clash.0[0] == 0)
    decreases |proof|
  {
    hide Source, Inner, Top;
    var hs, all := M.Hashes(H, txs), Hashed(H, txs);
    TreeNodes(H, txs);
    var joined := PairBytes(current, proof[0]);
    var source := Source(H, all, H(joined));
    if source.None? {
      assert |proof| > 1;
      FoldOpens(H, txs, H(joined), proof[1..]);
    } else if source.value == joined && joined in Inner(H, hs) {
      var a, b :| IsNode(H, all, a) && IsNode(H, all, b) && joined == PairBytes(a, b);
      PairBytesBind(a, b, current, proof[0]);
    }
  }

  /** The client's fold accepts a 32-byte hash for the top of a block's tree. */
  predicate Accepted(H: M.HashFn, txs: seq<Bytes>, current: Bytes, proof: seq<Bytes>)
    requires txs != []
  {
    |current| == M.DIGEST && proof != [] && Fold(H, current, proof) == Top(H, M.Hashes(H, txs))
  }

  /** What the verifier accepts against a top is what its fold accepts, given the text is listed. */
  lemma AcceptedIsVerified(H: M.HashFn, txs: seq<Bytes>, current: Bytes, proof: seq<Bytes>, listed: seq<Text>)
    requires txs != []
    ensures Verifies(H, InclusionProof(Encode(current), Encode(Top(H, M.Hashes(H, txs))), proof), listed)
       <==> Accepted(H, txs, current, proof) && Encode(current) in listed
  {
    hide Fold, Top, Encode, Decode;
    RoundTrip(current);
    RoundTrip(Top(H, M.Hashes(H, txs)));
  }

  /** Every accepted hash is a node of the block's tree, or the proof exhibits a collision. */
  ghost predicate OpensNodes(H: M.HashFn, txs: seq<Bytes>)
    requires txs != []
  {
    forall current, proof :: Accepted(H, txs, current, proof) ==>
      InTree(H, txs, current) || M.Collision(H, FoldClash(H, Hashed(H, txs), current, proof))
  }

  /** Whatever transaction is the bytes of a pair, its digest half is a node anyway or the pair collides. */
  ghost predicate PairsInside(H: M.HashFn, txs: seq<Bytes>) {
    forall a, b :: |a| == M.DIGEST && PairBytes(a, b) in txs ==>
      InTree(H, txs, a) || M.Collision(H, FoldClash(H, Hashed(H, txs), a, [b]))
  }

  /** Below a transaction that is the bytes of a pair, both halves fold to the top. */
  lemma BelowALeafOpens(H: M.HashFn, txs: seq<Bytes>, i: nat, a: Bytes, b: Bytes)
    requires i < |txs| && txs[i] == PairBytes(a, b)
    ensures Fold(H, a, [b] + Proof(H, M.Hashes(H, txs), i)) == Top(H, M.Hashes(H, txs))
  {
    var hs := M.Hashes(H, txs);
    assert ([b] + Proof(H, hs, i))[1..] == Proof(H, hs, i);
    FoldReachesTop(H, hs, i);
  }

  lemma {:induction false} AcceptedOpens(H: M.HashFn, txs: seq<Bytes>, current: Bytes, proof: seq<Bytes>)
    requires M.Digests(H) && txs != [] && PairsInside(H, txs) && Accepted(H, txs, current, proof)
    ensures InTree(H, txs, current) || M.Collision(H, FoldClash(H, Hashed(H, txs), current, proof))
    decreases |proof|
  {
    hide Source, Inner, Top;
    TreeNodes(H, txs);
    FoldOpens(H, txs, current, proof);
    var all, joined := Hashed(H, txs), PairBytes(current, proof[0]);
    var source := Source(H, all, H(joined));
    if source.None? {
      assert |proof| > 1;
      AcceptedOpens(H, txs, H(joined), proof[1..]);
    } else if source.value == joined && joined in txs {
      assert FoldClash(H, all, current, [proof[0]]) == (joined, joined);
    }
  }

  /** Exactly what the client needs: every accepted hash is a node of the tree, or a collision is
      exhibited, if and only if that is so below the transactions that are the bytes of a pair. */
  lemma {:induction false} OpensNodesIff(H: M.HashFn, txs: seq<Bytes>)
    requires M.Digests(H) && txs != []
    ensures OpensNodes(H, txs) <==> PairsInside(H, txs)
  {
    hide InTree, Fold, Top, Source;
    if PairsInside(H, txs) {
      forall current, proof | Accepted(H, txs, current, proof)
        ensures InTree(H, txs, current) || M.Collision(H, FoldClash(H, Hashed(H, txs), current, proof))
      {
        AcceptedOpens(H, txs, current, proof);
      }
    }
    if OpensNodes(H, txs) {
      forall a, b | |a| == M.DIGEST && PairBytes(a, b) in txs
        ensures InTree(H, txs, a) || M.Collision(H, FoldClash(H, Hashed(H, txs), a, [b]))
      {
        BelowIsAccepted(H, txs, a, b);
      }
    }
  }

  /** A fold whose first step enters the tree clashes there or nowhere. */
  lemma FirstStepClashes(H: M.HashFn, all: seq<Bytes>, a: Bytes, b: Bytes, rest: seq<Bytes>)
    requires PairBytes(a, b) in all
    ensures FoldClash(H, all, a, [b] + rest) == FoldClash(H, all, a, [b])
  {
    hide PairBytes;
    assert ([b] + rest)[0] == b;
  }

  lemma BelowIsAccepted(H: M.HashFn, txs: seq<Bytes>, a: Bytes, b: Bytes)
    requires txs != [] && |a| == M.DIGEST && PairBytes(a, b) in txs
    ensures exists proof :: Accepted(H, txs, a, proof)
              && FoldClash(H, Hashed(H, txs), a, proof) == FoldClash(H, Hashed(H, txs), a, [b])
  {
    hide Source, Fold, Top, PairBytes, FoldClash, Proof, Inner;
    var i :| 0 <= i < |txs| && txs[i] == PairBytes(a, b);
    var rest := Proof(H, M.Hashes(H, txs), i);
    BelowALeafOpens(H, txs, i, a, b);
    FirstStepClashes(H, Hashed(H, txs), a, b, rest);
    assert Accepted(H, txs, a, [b] + rest);
  }

  /** A condition that is quick to check: no transaction starts with a zero byte. */
  predicate NoneStartsWithZero(txs: seq<Bytes>) {
    forall i :: 0 <= i < |txs| && txs[i] != [] ==> txs[i][0] != 0
  }

  lemma NoneStartsWithZeroSuffices(H: M.HashFn, txs: seq<Bytes>)
    requires NoneStartsWithZero(txs)
    ensures PairsInside(H, txs)
  {
  }

  /** What the light client learns from a proof it accepts against the top of such a block. */
  lemma InclusionSound(H: M.HashFn, txs: seq<Bytes>, proof: InclusionProof, listed: seq<Text>)
    requires M.Digests(H) && txs != [] && PairsInside(H, txs)
    requires Verifies(H, proof, listed) && Decode(proof.blockHash) == Some(Top(H, M.Hashes(H, txs)))
    ensures var current := Decode(proof.txHash).value;
            || InTree(H, txs, current)
            || M.Collision(H, FoldClash(H, Hashed(H, txs), current, proof.merkleProof))
  {
    hide Fold, Top, FoldClash, InTree, Decode, PairsInside;
    AcceptedOpens(H, txs, Decode(proof.txHash).value, proof.merkleProof);
  }

  // ---------------------------------------------------------------- transactions or nodes

  /** No two different strings the tree hashed have one hash. */
  ghost predicate NoneCollide(H: M.HashFn, txs: seq<Bytes>) {
    forall p, q :: p in Hashed(H, txs) && q in Hashed(H, txs) && H(p) == H(q) ==> p == q
  }

  /** Every accepted hash is a transaction's, or the proof exhibits a collision. */
  ghost predicate OpensTransactions(H: M.HashFn, txs: seq<Bytes>)
    requires txs != []
  {
    forall current, proof :: Accepted(H, txs, current, proof) ==>
      current in M.Hashes(H, txs) || M.Collision(H, FoldClash(H, Hashed(H, txs), current, proof))
  }

  lemma {:induction false} SmallTreesOpenLeaves(H: M.HashFn, txs: seq<Bytes>, current: Bytes, proof: seq<Bytes>)
    requires M.Digests(H) && 1 <= |txs| <= 2 && NoneStartsWithZero(txs) && Accepted(H, txs, current, proof)
    ensures current in M.Hashes(H, txs) || M.Collision(H, FoldClash(H, Hashed(H, txs), current, proof))
  {
    hide Source, Top, PairBytes, Inner;
    NoneStartsWithZeroSuffices(H, txs);
    var hs, all, joined := M.Hashes(H, txs), Hashed(H, txs), PairBytes(current, proof[0]);
    InnerOfTwo(H, hs);
    var source := Source(H, all, H(joined));
    if source.None? {
      TreeNodes(H, txs);
      assert |proof| > 1;
      AcceptedOpens(H, txs, H(joined), proof[1..]);
    } else if source.value == joined {
      StartsWithZero(current, proof[0]);
      assert joined in Inner(H, hs);
      PairBytesBind(hs[0], hs[1], current, proof[0]);
    }
  }

  lemma StartsWithZero(a: Bytes, b: Bytes)
    ensures PairBytes(a, b) != [] && PairBytes(a, b)[0] == 0
  {
  }

  lemma InnerOfTwo(H: M.HashFn, hs: seq<Bytes>)
    requires 1 <= |hs| <= 2
    ensures Inner(H, hs) == if |hs| == 1 then [] else [PairBytes(hs[0], hs[1])]
  {
    if |hs| == 2 {
      assert LevelPairs(hs) == [PairBytes(hs[0], hs[1])];
      assert |NextLevel(H, hs)| == 1;
    }
  }

  /** From three transactions on, the first inner node is accepted although it is nobody's hash. */
  lemma {:induction false} FirstInnerNodeAccepted(H: M.HashFn, txs: seq<Bytes>)
    requires M.Digests(H) && |txs| >= 3 && NoneStartsWithZero(txs) && NoneCollide(H, txs)
    ensures var next := NextLevel(H, M.Hashes(H, txs));
            var proof := Proof(H, next, 0);
            && Accepted(H, txs, next[0], proof)
            && next[0] !in M.Hashes(H, txs)
            && !M.Collision(H, FoldClash(H, Hashed(H, txs), next[0], proof))
  {
    hide Source, Compare, Fold;
    var hs, all := M.Hashes(H, txs), Hashed(H, txs);
    var next := NextLevel(H, hs);
    var first, second := LevelPairs(hs)[0], LevelPairs(next)[0];
    FoldReachesTop(H, next, 0);
    ProofIsEmptyIffAlone(H, next, 0);
    assert first in Inner(H, hs) && second in Inner(H, next) && second in Inner(H, hs);
    assert first in all && second in all && next[0] == H(first);
    forall i | 0 <= i < |hs| ensures next[0] != hs[i] {
      assert txs[i] in all;
      assert first[0] == 0;
    }
    assert Proof(H, next, 0)[0] == next[1];
  }

  /** Exactly when the client proves a transaction: with no collision among what the tree hashed, and no
      transaction that starts with a zero byte, every accepted hash is a transaction's if and only if the
      block has at most two. */
  lemma {:induction false} OpensTransactionsIff(H: M.HashFn, txs: seq<Bytes>)
    requires M.Digests(H) && txs != [] && NoneStartsWithZero(txs) && NoneCollide(H, txs)
    ensures OpensTransactions(H, txs) <==> |txs| <= 2
  {
    hide Fold, Top, NextLevel, FoldClash, Hashed, NoneStartsWithZero, NoneCollide;
    if |txs| <= 2 {
      forall current, proof | Accepted(H, txs, current, proof)
        ensures current in M.Hashes(H, txs) || M.Collision(H, FoldClash(H, Hashed(H, txs), current, proof))
      {
        SmallTreesOpenLeaves(H, txs, current, proof);
      }
    } else {
      FirstInnerNodeAccepted(H, txs);
    }
  }

  function Up(H: M.HashFn, hs: seq<Bytes>, k: nat): seq<Bytes>
    decreases k
  {
    if k == 0 then hs else Up(H, NextLevel(H, hs), k - 1)
  }

  lemma {:induction false} TopOfUp(H: M.HashFn, hs: seq<Bytes>, k: nat)
    requires M.Digests(H) && hs != [] && M.Nodes(hs)
    ensures Up(H, hs, k) != [] && Top(H, Up(H, hs, k)) == Top(H, hs) && M.Nodes(Up(H, hs, k))
    decreases k
  {
    if k > 0 {
      TopOfUp(H, NextLevel(H, hs), k - 1);
    }
  }

  /** Leaves and inner nodes are not told apart: on every level below the top, the hash of every node is
      accepted as a transaction's by a client that finds it listed. */
  lemma {:induction false} InnerNodesVerify(H: M.HashFn, txs: seq<Bytes>, k: nat, j: nat, listed: seq<Text>)
    requires M.Digests(H) && txs != []
    requires var level := Up(H, M.Hashes(H, txs), k);
             |level| > 1 && j < |level| && Encode(level[j]) in listed
    ensures var level := Up(H, M.Hashes(H, txs), k);
            Verifies(H, InclusionProof(Encode(level[j]), Encode(Top(H, M.Hashes(H, txs))), Proof(H, level, j)), listed)
  {
    hide Encode, Decode, Top, Proof, Fold;
    var level := Up(H, M.Hashes(H, txs), k);
    TopOfUp(H, M.Hashes(H, txs), k);
    FoldReachesTop(H, level, j);
    ProofIsEmptyIffAlone(H, level, j);
    RoundTrip(level[j]);
    RoundTrip(Top(H, M.Hashes(H, txs)));
  }

  // ---------------------------------------------------------------- the loops

  method SortedPairHash(H: M.HashFn, a: Bytes, b: Bytes) returns (h: Bytes)
    ensures h == PairHash(H, a, b)
  {
    var left, right := a, b;
    if Compare(left, right) > 0 {
      left, right := right, left;
    }
    h := H([0] + left + right);
  }

  /** The inner loop of `buildMerkleProof`. */
  method ReduceLevel(H: M.HashFn, current: seq<Bytes>) returns (next: seq<Bytes>)
    ensures next == NextLevel(H, current)
  {
    hide PairHash;
    next := [];
    var i := 0;
    while i < |current|
      invariant 0 <= i <= |current| + 1 && i % 2 == 0
      invariant next == NextLevel(H, current)[..i / 2]
    {
      if i + 1 < |current| {
        var h := SortedPairHash(H, current[i], current[i + 1]);
        next := next + [h];
      } else {
        next := next + [current[i]];
      }
      i := i + 2;
    }
  }

  ghost predicate Ahead(H: M.HashFn, whole: seq<Bytes>, proof: seq<Bytes>, hs: seq<Bytes>, i: nat) {
    i < |hs| && whole == proof + Proof(H, hs, i)
  }

  lemma AheadAll(H: M.HashFn, hs: seq<Bytes>, i: nat)
    requires i < |hs|
    ensures Ahead(H, Proof(H, hs, i), [], hs, i)
  {
  }

  lemma AheadNext(H: M.HashFn, whole: seq<Bytes>, proof: seq<Bytes>, hs: seq<Bytes>, i: nat)
    requires |hs| > 1 && Ahead(H, whole, proof, hs, i)
    ensures Ahead(H, whole, proof + Siblings(hs, i), NextLevel(H, hs), i / 2)
  {
  }

  lemma AheadDone(H: M.HashFn, whole: seq<Bytes>, proof: seq<Bytes>, hs: seq<Bytes>, i: nat)
    requires |hs| <= 1 && Ahead(H, whole, proof, hs, i)
    ensures whole == proof
  {
  }

  method PathSiblings(current: seq<Bytes>, idx: nat) returns (found: seq<Bytes>)
    requires idx < |current|
    ensures found == Siblings(current, idx)
  {
    found := [];
    if idx % 2 == 0 {
      if idx + 1 < |current| {
        found := [current[idx + 1]];
      }
    } else {
      found := [current[idx - 1]];
    }
  }

  method BuildMerkleProof(H: M.HashFn, hashes: seq<Bytes>, index: nat) returns (proof: seq<Bytes>)
    requires hashes != [] ==> index < |hashes|
    ensures proof == if hashes == [] then [] else Proof(H, hashes, index)
  {
    hide *;
    proof := [];
    if |hashes| == 0 {
      return;
    }
    var current, idx: nat := hashes, index;
    ghost var whole := Proof(H, hashes, index);
    AheadAll(H, hashes, index);
    while |current| > 1
      invariant idx < |current|
      invariant Ahead(H, whole, proof, current, idx)
      decreases |current|
    {
      AheadNext(H, whole, proof, current, idx);
      var found := PathSiblings(current, idx);
      proof := proof + found;
      current := ReduceLevel(H, current);
      idx := idx / 2;
    }
    AheadDone(H, whole, proof, current, idx);
  }

  method GenerateTransactionMerkleProof(H: M.HashFn, txs: seq<Bytes>, targetIndex: int)
    returns (r: Option<seq<Bytes>>)
    ensures r == if 0 <= targetIndex < |txs| then Some(Proof(H, M.Hashes(H, txs), targetIndex)) else None
  {
    if targetIndex < 0 || targetIndex >= |txs| {
      return None;
    }
    var hashes := M.HashAll(H, txs);
    var proof := BuildMerkleProof(H, hashes, targetIndex);
    return Some(proof);
  }

  method VerifyTransactionInclusion(H: M.HashFn, request: Option<InclusionProof>, blockTxHashes: seq<Text>)
    returns (ok: bool)
    ensures ok == (request.Some? && Verifies(H, request.value, blockTxHashes))
  {
    hide Decode, PairHash;
    if request.None? {
      return false;
    }
    var proof := request.value;
    if |proof.merkleProof| == 0 {
      return false;
    }
    var found := false;
    for i := 0 to |blockTxHashes|
      invariant found == (proof.txHash in blockTxHashes[..i])
    {
      if blockTxHashes[i] == proof.txHash {
        found := true;
        break;
      }
    }
    if !found {
      return false;
    }
    var decoded := Decode(proof.txHash);
    if decoded.None? || |decoded.value| != 32 {
      return false;
    }
    var computedBytes := decoded.value;
    for i := 0 to |proof.merkleProof|
      invariant Fold(H, decoded.value, proof.merkleProof) == Fold(H, computedBytes, proof.merkleProof[i..])
    {
      computedBytes := SortedPairHash(H, computedBytes, proof.merkleProof[i]);
    }
    var root := Decode(proof.blockHash);
    if root.None? {
      return false;
    }
    ok := computedBytes == root.value;
  }
}
