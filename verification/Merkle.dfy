/** The indexed Merkle tree of the crypto package: an odd level repeats its last node, and a proof
    lists the siblings from leaf to root. */
module Merkle {
  import opened Words

  /** SHA-256 is a parameter `H`; nothing is known of it but the length of its output, and binding is always
      "equal, or here is a collision". */
  type HashFn = Bytes -> Bytes

  const DIGEST := 32

  ghost predicate Digests(H: HashFn) {
    forall x :: |H(x)| == DIGEST
  }

  ghost predicate Nodes(hs: seq<Bytes>) {
    forall i :: 0 <= i < |hs| ==> |hs[i]| == DIGEST
  }

  ghost predicate Collision(H: HashFn, pair: (Bytes, Bytes)) {
    pair.0 != pair.1 && H(pair.0) == H(pair.1)
  }

  // ---------------------------------------------------------------- the tree as functions

  function Hashes(H: HashFn, data: seq<Bytes>): (hs: seq<Bytes>)
    ensures |hs| == |data| && forall i :: 0 <= i < |data| ==> hs[i] == H(data[i])
  {
    seq(|data|, i requires 0 <= i < |data| => H(data[i]))
  }

  /** An odd level repeats its last node. */
  function Padded(hs: seq<Bytes>): (p: seq<Bytes>)
    ensures |p| % 2 == 0 && |hs| <= |p| <= |hs| + 1 && p[..|hs|] == hs
  {
    if |hs| % 2 == 0 then hs else hs + [hs[|hs| - 1]]
  }

  /** The bytes hashed into node `k` of the next level. */
  function Joined(hs: seq<Bytes>, k: nat): Bytes
    requires 2 * k < |hs|
  {
    Padded(hs)[2 * k] + Padded(hs)[2 * k + 1]
  }

  function NextLevel(H: HashFn, hs: seq<Bytes>): (next: seq<Bytes>)
    ensures |next| == (|hs| + 1) / 2
    ensures forall k :: 0 <= k < |next| ==> next[k] == H(Joined(hs, k))
  {
    seq((|hs| + 1) / 2, k requires 0 <= k < (|hs| + 1) / 2 => H(Joined(hs, k)))
  }

  function Root(H: HashFn, hs: seq<Bytes>): Bytes
    requires hs != []
    decreases |hs|
  {
    if |hs| == 1 then hs[0] else Root(H, NextLevel(H, hs))
  }

  function Depth(n: nat): nat {
    if n <= 1 then 0 else 1 + Depth((n + 1) / 2)
  }

  function Sibling(hs: seq<Bytes>, i: nat): Bytes
    requires i < |hs|
  {
    if i % 2 == 0 then Padded(hs)[i + 1] else hs[i - 1]
  }

  function Proof(H: HashFn, hs: seq<Bytes>, i: nat): (proof: seq<Bytes>)
    requires i < |hs|
    ensures |proof| == Depth(|hs|)
    decreases |hs|
  {
    if |hs| == 1 then [] else [Sibling(hs, i)] + Proof(H, NextLevel(H, hs), i / 2)
  }

  /** Go's integer division truncates toward zero. */
  function Half(i: int): int {
    if i >= 0 then i / 2 else -((-i) / 2)
  }

  function Beside(current: Bytes, sibling: Bytes, index: int): Bytes {
    if index % 2 == 0 then current + sibling else sibling + current
  }

  function Fold(H: HashFn, current: Bytes, proof: seq<Bytes>, index: int): Bytes
    decreases |proof|
  {
    if proof == [] then current else Fold(H, H(Beside(current, proof[0], index)), proof[1..], Half(index))
  }

  /** `VerifyProof`. */
  predicate Accepts(H: HashFn, root: Bytes, data: Bytes, proof: seq<Bytes>, index: int) {
    Fold(H, H(data), proof, index) == root
  }

  // ---------------------------------------------------------------- completeness

  function Parity(index: int): (r: nat)
    ensures r < 2
  {
    index % 2
  }

  /** The leaf an index opens in a tree of `n`. The verifier takes any `int` and reads it one parity a level,
      so an index beyond the leaves, or below zero, opens one of them too; the repeated node of an odd level
      counts as the last. */
  function Opened(n: nat, index: int): (i: nat)
    requires n > 0
    ensures i < n && (0 <= index < n ==> i == index)
    decreases n, 1
  {
    if n == 1 then 0
    else
      var i := 2 * Above(n, index) + Parity(index);
      if i < n then i else n - 1
  }

  /** The node above the opened one. */
  function Above(n: nat, index: int): (k: nat)
    requires n > 1
    ensures 2 * k < n && k < (n + 1) / 2 && (0 <= index < n ==> k == index / 2)
    decreases n, 0
  {
    Opened((n + 1) / 2, Half(index))
  }

  /** On the way up, the opened node and its sibling are what the tree joined. */
  lemma OpenedJoins(hs: seq<Bytes>, index: int)
    requires |hs| > 1
    ensures var i, k := Opened(|hs|, index), Above(|hs|, index);
            && i / 2 == k && Padded(hs)[2 * k + Parity(index)] == hs[i]
            && Beside(hs[i], Sibling(hs, i), Parity(index)) == Joined(hs, k)
  {
    var i, k, r := Opened(|hs|, index), Above(|hs|, index), Parity(index);
    assert i == (if 2 * k + r < |hs| then 2 * k + r else |hs| - 1);
    hide *;
    JoinedAt(hs, k, r, i);
  }

  lemma BesideParity(current: Bytes, sibling: Bytes, index: int)
    ensures Beside(current, sibling, index) == Beside(current, sibling, Parity(index))
  {
  }

  lemma JoinedAt(hs: seq<Bytes>, k: nat, r: nat, i: nat)
    requires |hs| > 1 && 2 * k < |hs| && r < 2 && i == (if 2 * k + r < |hs| then 2 * k + r else |hs| - 1)
    ensures i / 2 == k && Padded(hs)[2 * k + r] == hs[i] && Beside(hs[i], Sibling(hs, i), r) == Joined(hs, k)
  {
  }

  /** Every `int` index is accepted with the proof of the leaf it opens. */
  lemma {:induction false} EveryIndexOpens(H: HashFn, hs: seq<Bytes>, index: int)
    requires hs != []
    ensures var i := Opened(|hs|, index);
            Fold(H, hs[i], Proof(H, hs, i), index) == Root(H, hs)
    decreases |hs|
  {
    hide Joined, Sibling, Beside, Opened, Parity;
    if |hs| > 1 {
      OpenedJoins(hs, index);
      BesideParity(hs[Opened(|hs|, index)], Sibling(hs, Opened(|hs|, index)), index);
      EveryIndexOpens(H, NextLevel(H, hs), Half(index));
      assert Proof(H, hs, Opened(|hs|, index))[1..] == Proof(H, NextLevel(H, hs), Opened(|hs|, index) / 2);
    } else {
      OneLeafOpens(index);
    }
  }

  lemma OneLeafOpens(index: int)
    ensures Opened(1, index) == 0
  {
  }

  /** The sign of an index is not read: Go halves toward zero, so an index and its negative lead the same way up. */
  lemma {:induction false} SignIsNotRead(H: HashFn, current: Bytes, proof: seq<Bytes>, index: int)
    ensures Fold(H, current, proof, -index) == Fold(H, current, proof, index)
    decreases |proof|
  {
    if proof != [] {
      assert (-index) % 2 == index % 2;
      SignIsNotRead(H, H(Beside(current, proof[0], index)), proof[1..], index / 2);
      if index < 0 {
        SignIsNotRead(H, H(Beside(current, proof[0], index)), proof[1..], (-index) / 2);
      }
    }
  }

  /** For every non-empty leaf list and every index the proof of the leaf that the index opens verifies, odd
      levels included; within range that is the leaf at the index. */
  lemma {:induction false} Completeness(H: HashFn, leaves: seq<Bytes>, index: int)
    requires leaves != []
    ensures var i := Opened(|leaves|, index);
            && Accepts(H, Root(H, Hashes(H, leaves)), leaves[i], Proof(H, Hashes(H, leaves), i), index)
            && (0 <= index < |leaves| ==> i == index)
  {
    EveryIndexOpens(H, Hashes(H, leaves), index);
  }

  // ---------------------------------------------------------------- the tree by positions

  /** How many nodes level `l` has above `n` leaves. */
  function Width(n: nat, l: nat): nat {
    if l == 0 then n else (Width(n, l - 1) + 1) / 2
  }

  /** The right child of node `k` over a level of `w` nodes: a missing one is the left one again. */
  function RightChild(w: nat, k: nat): nat {
    if 2 * k + 1 < w then 2 * k + 1 else 2 * k
  }

  /** Node `k` of level `l`: the hash of its two children, left before right. */
  function Node(H: HashFn, hs: seq<Bytes>, l: nat, k: nat): Bytes
    requires k < Width(|hs|, l)
  {
    if l == 0 then hs[k]
    else H(Node(H, hs, l - 1, 2 * k) + Node(H, hs, l - 1, RightChild(Width(|hs|, l - 1), k)))
  }

  lemma {:induction false} WidthAbove(n: nat, l: nat)
    ensures Width(n, l + 1) == Width((n + 1) / 2, l)
  {
    if l > 0 {
      WidthAbove(n, l - 1);
    }
  }

  lemma FirstNodes(H: HashFn, hs: seq<Bytes>, k: nat)
    requires k < Width(|hs|, 1)
    ensures k < |NextLevel(H, hs)| && Node(H, hs, 1, k) == NextLevel(H, hs)[k]
  {
    assert Width(|hs|, 0) == |hs|;
    assert Node(H, hs, 0, 2 * k) == hs[2 * k];
    assert Joined(hs, k) == hs[2 * k] + hs[RightChild(|hs|, k)];
  }

  lemma NodeUnfolds(H: HashFn, hs: seq<Bytes>, l: nat, k: nat)
    requires k < Width(|hs|, l + 1)
    ensures 2 * k < Width(|hs|, l) && RightChild(Width(|hs|, l), k) < Width(|hs|, l)
    ensures Node(H, hs, l + 1, k) == H(Node(H, hs, l, 2 * k) + Node(H, hs, l, RightChild(Width(|hs|, l), k)))
  {
  }

  lemma {:induction false} NodeAbove(H: HashFn, hs: seq<Bytes>, l: nat, k: nat)
    requires k < Width(|hs|, l + 1)
    ensures k < Width(|NextLevel(H, hs)|, l) && Node(H, hs, l + 1, k) == Node(H, NextLevel(H, hs), l, k)
  {
    hide Node, Width, NextLevel, RightChild;
    var next := NextLevel(H, hs);
    WidthAbove(|hs|, l);
    if l > 0 {
      WidthAbove(|hs|, l - 1);
      NodeUnfolds(H, hs, l, k);
      NodeUnfolds(H, next, l - 1, k);
      NodeAbove(H, hs, l - 1, 2 * k);
      NodeAbove(H, hs, l - 1, RightChild(Width(|hs|, l), k));
    } else {
      FirstNodes(H, hs, k);
      LeafNode(H, next, k);
    }
  }

  lemma LeafNode(H: HashFn, hs: seq<Bytes>, k: nat)
    requires k < Width(|hs|, 0)
    ensures k < |hs| && Node(H, hs, 0, k) == hs[k]
  {
  }

  /** The root is the one node of the last level. */
  lemma {:induction false} RootIsLastNode(H: HashFn, hs: seq<Bytes>)
    requires hs != []
    ensures Width(|hs|, Depth(|hs|)) == 1 && Root(H, hs) == Node(H, hs, Depth(|hs|), 0)
    decreases |hs|
  {
    hide Node, Width, NextLevel;
    if |hs| > 1 {
      RootIsLastNode(H, NextLevel(H, hs));
      WidthAbove(|hs|, Depth(|hs|) - 1);
      NodeAbove(H, hs, Depth(|hs|) - 1, 0);
    } else {
      AllOfLevelZero(|hs|, 0);
      LeafNode(H, hs, 0);
    }
  }

  /** The position above position `i` on level `l`. */
  function Ancestor(i: nat, l: nat): nat {
    if l == 0 then i else Ancestor(i / 2, l - 1)
  }

  /** The other child beside position `k` of a level of `w` nodes, or `k` itself at an odd end. */
  function OtherChild(w: nat, k: nat): nat {
    if k % 2 == 1 then k - 1 else if k + 1 < w then k + 1 else k
  }

  lemma ProofUnfolds(H: HashFn, hs: seq<Bytes>, i: nat)
    requires i < |hs| && |hs| > 1
    ensures OtherChild(|hs|, i) < |hs|
    ensures Proof(H, hs, i) == [hs[OtherChild(|hs|, i)]] + Proof(H, NextLevel(H, hs), i / 2)
  {
    SiblingIs(hs, i);
    hide Sibling, OtherChild, NextLevel, Depth;
  }

  lemma SiblingIs(hs: seq<Bytes>, i: nat)
    requires i < |hs|
    ensures OtherChild(|hs|, i) < |hs| && Sibling(hs, i) == hs[OtherChild(|hs|, i)]
  {
  }

  lemma AncestorWithin(i: nat, n: nat, l: nat)
    requires i < n
    ensures Ancestor(i, l) < Width(n, l) && OtherChild(Width(n, l), Ancestor(i, l)) < Width(n, l)
    decreases l
  {
    if l > 0 {
      AncestorWithin(i / 2, (n + 1) / 2, l - 1);
      WidthAbove(n, l - 1);
    }
  }

  /** Entry `l` of a proof is the other child beside the path on level `l`. */
  lemma {:induction false} ProofNodes(H: HashFn, hs: seq<Bytes>, i: nat, l: nat)
    requires i < |hs| && l < Depth(|hs|)
    ensures OtherChild(Width(|hs|, l), Ancestor(i, l)) < Width(|hs|, l)
    ensures Proof(H, hs, i)[l] == Node(H, hs, l, OtherChild(Width(|hs|, l), Ancestor(i, l)))
    decreases l
  {
    hide Proof, Node, Width, OtherChild, Depth, Ancestor;
    AncestorWithin(i, |hs|, l);
    DeepHasTwo(|hs|, l);
    ProofUnfolds(H, hs, i);
    if l > 0 {
      var next := NextLevel(H, hs);
      ProofNodes(H, next, i / 2, l - 1);
      WidthAbove(|hs|, l - 1);
      AncestorAbove(i, l);
      NodeAbove(H, hs, l - 1, OtherChild(Width(|hs|, l), Ancestor(i, l)));
    } else {
      AllOfLevelZero(|hs|, i);
      LeafNode(H, hs, OtherChild(|hs|, i));
    }
  }

  lemma DeepHasTwo(n: nat, l: nat)
    requires l < Depth(n)
    ensures n > 1 && (l > 0 ==> l - 1 < Depth((n + 1) / 2))
  {
  }

  lemma AncestorAbove(i: nat, l: nat)
    requires l > 0
    ensures Ancestor(i, l) == Ancestor(i / 2, l - 1)
  {
  }

  lemma AllOfLevelZero(n: nat, i: nat)
    ensures Width(n, 0) == n && Ancestor(i, 0) == i
  {
  }

  // ---------------------------------------------------------------- binding

  /** The first index at which two lists of equal length differ. */
  function FirstDifference(xs: seq<Bytes>, ys: seq<Bytes>): (i: nat)
    requires |xs| == |ys| && xs != ys
    ensures i < |xs| && xs[i] != ys[i]
  {
    if xs[0] != ys[0] then 0
    else
      assert xs == [xs[0]] + xs[1..] && ys == [ys[0]] + ys[1..];
      1 + FirstDifference(xs[1..], ys[1..])
  }

  /** Two different levels with one root: the pair of strings that collide on the way up. */
  function LevelClash(H: HashFn, xs: seq<Bytes>, ys: seq<Bytes>): (Bytes, Bytes)
    requires |xs| == |ys| > 1 && xs != ys
    decreases |xs|
  {
    var u, w := NextLevel(H, xs), NextLevel(H, ys);
    if u == w then
      var k := FirstDifference(xs, ys) / 2;
      (Joined(xs, k), Joined(ys, k))
    else if |u| > 1 then LevelClash(H, u, w)
    else ([], [])
  }

  lemma JoinedDiffer(xs: seq<Bytes>, ys: seq<Bytes>, i: nat)
    requires |xs| == |ys| && i < |xs| && Nodes(xs) && Nodes(ys) && xs[i] != ys[i]
    ensures Joined(xs, i / 2) != Joined(ys, i / 2)
  {
    var k := i / 2;
    var a, b := Padded(xs), Padded(ys);
    assert |a[2 * k]| == DIGEST && |b[2 * k]| == DIGEST;
    assert Joined(xs, k)[..DIGEST] == a[2 * k] && Joined(xs, k)[DIGEST..] == a[2 * k + 1];
    assert Joined(ys, k)[..DIGEST] == b[2 * k] && Joined(ys, k)[DIGEST..] == b[2 * k + 1];
    assert i == 2 * k || i == 2 * k + 1;
  }

  lemma {:induction false} LevelsBind(H: HashFn, xs: seq<Bytes>, ys: seq<Bytes>)
    requires Digests(H) && |xs| == |ys| > 1 && Nodes(xs) && Nodes(ys)
    requires xs != ys && Root(H, xs) == Root(H, ys)
    ensures Collision(H, LevelClash(H, xs, ys))
    decreases |xs|
  {
    var u, w := NextLevel(H, xs), NextLevel(H, ys);
    if u == w {
      var i := FirstDifference(xs, ys);
      JoinedDiffer(xs, ys, i);
      assert u[i / 2] == w[i / 2];
    } else if |u| > 1 {
      LevelsBind(H, u, w);
    }
  }

  /** The collision that two different leaf lists of one length and one root exhibit. */
  function Clash(H: HashFn, a: seq<Bytes>, b: seq<Bytes>): (Bytes, Bytes)
    requires |a| == |b| && a != b
  {
    var xs, ys := Hashes(H, a), Hashes(H, b);
    if xs != ys && |xs| > 1 then LevelClash(H, xs, ys)
    else
      var i := FirstDifference(a, b);
      (a[i], b[i])
  }

  /** Binding: two leaf lists of the same length with the same root are equal, or the two strings
      `Clash` names are a collision of the hash. */
  lemma {:induction false} Binding(H: HashFn, a: seq<Bytes>, b: seq<Bytes>)
    requires Digests(H) && |a| == |b| > 0 && Root(H, Hashes(H, a)) == Root(H, Hashes(H, b))
    ensures a == b || Collision(H, Clash(H, a, b))
  {
    if a != b {
      var xs, ys := Hashes(H, a), Hashes(H, b);
      if xs != ys && |xs| > 1 {
        LevelsBind(H, xs, ys);
      } else {
        var i := FirstDifference(a, b);
        assert xs[i] == ys[i];
      }
    }
  }

  /** Equal length is needed: repeating the last leaf of any odd list longer than one keeps the root,
      whatever the hash. */
  lemma RepeatedLeafKeepsRoot(H: HashFn, leaves: seq<Bytes>)
    requires |leaves| > 1 && |leaves| % 2 == 1
    ensures Root(H, Hashes(H, leaves + [leaves[|leaves| - 1]])) == Root(H, Hashes(H, leaves))
  {
    hide Root;
    var longer := leaves + [leaves[|leaves| - 1]];
    var hs, hs' := Hashes(H, leaves), Hashes(H, longer);
    assert Padded(hs) == hs' == Padded(hs');
    assert NextLevel(H, hs) == NextLevel(H, hs');
    RootOfNext(H, hs);
    RootOfNext(H, hs');
  }

  lemma RootOfNext(H: HashFn, hs: seq<Bytes>)
    requires |hs| > 1
    ensures Root(H, hs) == Root(H, NextLevel(H, hs))
  {
  }

  // ---------------------------------------------------------------- lists of different lengths

  function Copies(s: Bytes, e: nat): (r: seq<Bytes>)
    ensures |r| == e && forall i :: 0 <= i < e ==> r[i] == s
  {
    if e == 0 then [] else [s] + Copies(s, e - 1)
  }

  /** The node `d` levels above equal nodes. */
  function Lifted(H: HashFn, h: Bytes, d: nat): Bytes
    decreases d
  {
    if d == 0 then h else Lifted(H, H(h + h), d - 1)
  }

  lemma {:induction false} LiftedLast(H: HashFn, h: Bytes, d: nat)
    requires d > 0
    ensures Lifted(H, h, d) == H(Lifted(H, h, d - 1) + Lifted(H, h, d - 1))
    decreases d
  {
    if d > 1 {
      LiftedLast(H, H(h + h), d - 1);
    }
  }

  lemma {:induction false} LiftedTwice(H: HashFn, h: Bytes, d: nat, e: nat)
    ensures Lifted(H, Lifted(H, h, d), e) == Lifted(H, h, d + e)
    decreases d
  {
    if d > 0 {
      LiftedTwice(H, H(h + h), d - 1, e);
    }
  }

  lemma NextOfCopies(H: HashFn, h: Bytes, n: nat)
    requires n > 0
    ensures NextLevel(H, Copies(h, n)) == Copies(H(h + h), (n + 1) / 2)
  {
    hide Copies;
    var hs := Copies(h, n);
    forall k | 0 <= k < (n + 1) / 2 ensures Joined(hs, k) == h + h {
    }
  }

  /** The root over equal nodes depends on the depth alone. */
  lemma {:induction false} ConstantRoot(H: HashFn, h: Bytes, n: nat)
    requires n > 0
    ensures Root(H, Copies(h, n)) == Lifted(H, h, Depth(n))
    decreases n
  {
    hide Copies, NextLevel;
    if n > 1 {
      NextOfCopies(H, h, n);
      ConstantRoot(H, H(h + h), (n + 1) / 2);
    }
  }

  /** Two lists of the given lengths, each of one repeated leaf, with one root: the shallower tree's leaf is
      the two joined copies of a node of the deeper one. */
  function SameRoots(H: HashFn, n: nat, m: nat): (r: (seq<Bytes>, seq<Bytes>))
    ensures |r.0| == n && |r.1| == m
  {
    if Depth(n) == Depth(m) then (Copies([], n), Copies([], m))
    else if Depth(n) < Depth(m) then
      var node := Lifted(H, H([]), Depth(m) - Depth(n) - 1);
      (Copies(node + node, n), Copies([], m))
    else
      var node := Lifted(H, H([]), Depth(n) - Depth(m) - 1);
      (Copies([], n), Copies(node + node, m))
  }

  lemma HashesOfCopies(H: HashFn, leaf: Bytes, n: nat)
    ensures Hashes(H, Copies(leaf, n)) == Copies(H(leaf), n)
  {
  }

  lemma JoinedLift(H: HashFn, d: nat, e: nat)
    requires d < e
    ensures var node := Lifted(H, H([]), e - d - 1);
            Lifted(H, H(node + node), d) == Lifted(H, H([]), e)
  {
    LiftedLast(H, H([]), e - d);
    LiftedTwice(H, H([]), e - d, d);
  }

  lemma SameRootsAgree(H: HashFn, n: nat, m: nat)
    requires n > 0 && m > 0
    ensures var (a, b) := SameRoots(H, n, m);
            Root(H, Hashes(H, a)) == Root(H, Hashes(H, b))
  {
    hide Root, Depth, Lifted, Copies;
    var (a, b) := SameRoots(H, n, m);
    HashesOfCopies(H, a[0], n);
    HashesOfCopies(H, b[0], m);
    assert a == Copies(a[0], n) && b == Copies(b[0], m);
    ConstantRoot(H, H(a[0]), n);
    ConstantRoot(H, H(b[0]), m);
    if Depth(n) < Depth(m) {
      JoinedLift(H, Depth(n), Depth(m));
    } else if Depth(m) < Depth(n) {
      JoinedLift(H, Depth(m), Depth(n));
    }
  }

  /** The collision two lists with one root exhibit; there is none to name for lists of different lengths. */
  function Named(H: HashFn, a: seq<Bytes>, b: seq<Bytes>): (Bytes, Bytes) {
    if |a| == |b| && a != b then Clash(H, a, b) else ([], [])
  }

  /** All lists of `n` and of `m` leaves with one root are equal or exhibit a collision. */
  ghost predicate Binds(H: HashFn, n: nat, m: nat) {
    forall a: seq<Bytes>, b: seq<Bytes> ::
      |a| == n > 0 && |b| == m > 0 && Root(H, Hashes(H, a)) == Root(H, Hashes(H, b))
      ==> a == b || Collision(H, Named(H, a, b))
  }

  /** Exactly when a root binds its leaves: lists of two lengths with one root are equal, or exhibit a
      collision, if and only if the lengths are equal. */
  lemma {:induction false} BindsIff(H: HashFn, n: nat, m: nat)
    requires Digests(H) && n > 0 && m > 0
    ensures Binds(H, n, m) <==> n == m
  {
    hide Root, Clash, SameRoots, Hashes;
    if n == m {
      forall a: seq<Bytes>, b: seq<Bytes> |
        |a| == n > 0 && |b| == m > 0 && Root(H, Hashes(H, a)) == Root(H, Hashes(H, b))
        ensures a == b || Collision(H, Named(H, a, b))
      {
        Binding(H, a, b);
      }
    } else {
      var (a, b) := SameRoots(H, n, m);
      SameRootsAgree(H, n, m);
      assert Named(H, a, b) == ([], []);
    }
  }

  // ---------------------------------------------------------------- soundness of one proof

  /** The collision a proof exhibits that folds some other node up to the root. */
  function FoldClash(H: HashFn, hs: seq<Bytes>, index: int, current: Bytes, proof: seq<Bytes>): (Bytes, Bytes)
    requires hs != [] && |proof| == Depth(|hs|)
    decreases |hs|
  {
    if |hs| == 1 then ([], [])
    else
      var joined, k := Beside(current, proof[0], index), Above(|hs|, index);
      if H(joined) == NextLevel(H, hs)[k] then (joined, Joined(hs, k))
      else FoldClash(H, NextLevel(H, hs), Half(index), H(joined), proof[1..])
  }

  lemma BesideDiffers(hs: seq<Bytes>, k: nat, r: nat, i: nat, current: Bytes, sibling: Bytes)
    requires 2 * k < |hs| && r < 2 && i < |hs| && Padded(hs)[2 * k + r] == hs[i]
    requires Nodes(hs) && |current| == DIGEST && current != hs[i]
    ensures Beside(current, sibling, r) != Joined(hs, k)
  {
    var p := Padded(hs);
    assert |p[2 * k]| == |p[2 * k + 1]| == DIGEST;
    var honest := Joined(hs, k);
    assert honest[..DIGEST] == p[2 * k] && honest[DIGEST..] == p[2 * k + 1];
    if r == 0 {
      assert (current + sibling)[..DIGEST] == current;
    } else if |sibling| == DIGEST {
      assert (sibling + current)[DIGEST..] == current;
    }
  }

  lemma {:induction false} FoldBinds(H: HashFn, hs: seq<Bytes>, index: int, current: Bytes, proof: seq<Bytes>)
    requires Digests(H) && hs != [] && Nodes(hs) && |proof| == Depth(|hs|) && |current| == DIGEST
    requires Fold(H, current, proof, index) == Root(H, hs) && current != hs[Opened(|hs|, index)]
    ensures Collision(H, FoldClash(H, hs, index, current, proof))
    decreases |hs|
  {
    hide Opened, Joined, Beside, Half, Parity, Padded, Sibling;
    if |hs| > 1 {
      var joined, k := Beside(current, proof[0], index), Above(|hs|, index);
      OpenedJoins(hs, index);
      BesideParity(current, proof[0], index);
      BesideDiffers(hs, k, Parity(index), Opened(|hs|, index), current, proof[0]);
      if H(joined) != NextLevel(H, hs)[k] {
        FoldBinds(H, NextLevel(H, hs), Half(index), H(joined), proof[1..]);
      }
    } else {
      OneLeafOpens(index);
    }
  }

  /** The collision a proof of the tree's depth exhibits; there is none to name for another length. */
  function Exhibited(H: HashFn, leaves: seq<Bytes>, index: int, data: Bytes, proof: seq<Bytes>): (Bytes, Bytes)
    requires leaves != []
  {
    var leaf := leaves[Opened(|leaves|, index)];
    if |proof| != Depth(|leaves|) then ([], [])
    else if H(data) == H(leaf) then (data, leaf)
    else FoldClash(H, Hashes(H, leaves), index, H(data), proof)
  }

  /** Soundness: whatever proof of the tree's depth `VerifyProof` accepts for an index, be it in range or
      not, its data is the leaf that index opens, or the data, the proof and the tree exhibit a collision. */
  lemma {:induction false} Soundness(H: HashFn, leaves: seq<Bytes>, index: int, data: Bytes, proof: seq<Bytes>)
    requires Digests(H) && leaves != [] && |proof| == Depth(|leaves|)
    requires Accepts(H, Root(H, Hashes(H, leaves)), data, proof, index)
    ensures data == leaves[Opened(|leaves|, index)] || Collision(H, Exhibited(H, leaves, index, data, proof))
  {
    if H(data) != H(leaves[Opened(|leaves|, index)]) {
      FoldBinds(H, Hashes(H, leaves), index, H(data), proof);
    }
  }

  /** The last of three leaves also opens at index three, and the second at minus one. */
  lemma OutOfRangeOpens()
    ensures Opened(3, 3) == 2 && Opened(3, -1) == 1
  {
    assert Above(3, 3) == Opened(2, 1) == 1 && Above(3, -1) == Opened(2, 0) == 0;
  }

  // ---------------------------------------------------------------- the length of a proof

  /** An opening shorter than the tree is deep: the two joined children of an inner node. */
  function InnerOpening(H: HashFn, hs: seq<Bytes>, k: nat): (opening: (Bytes, seq<Bytes>))
    requires k < Depth(|hs|)
    ensures |opening.1| == k
    decreases |hs|
  {
    var next := NextLevel(H, hs);
    if k == Depth(|next|) then (Joined(hs, 0), Proof(H, next, 0)) else InnerOpening(H, next, k)
  }

  /** In every tree and for every length below the depth, an inner node is accepted as data. */
  lemma {:induction false} InnerNodesOpen(H: HashFn, hs: seq<Bytes>, k: nat)
    requires Digests(H) && Nodes(hs) && k < Depth(|hs|)
    ensures var (data, proof) := InnerOpening(H, hs, k);
            |data| == 2 * DIGEST && Accepts(H, Root(H, hs), data, proof, 0)
    decreases |hs|
  {
    var next := NextLevel(H, hs);
    if k == Depth(|next|) {
      EveryIndexOpens(H, next, 0);
      assert |Padded(hs)[0]| == |Padded(hs)[1]| == DIGEST;
    } else {
      InnerNodesOpen(H, next, k);
    }
  }

  /** The leaf that `e` extra siblings lead to. */
  function Chain(H: HashFn, data: Bytes, s: Bytes, e: nat): Bytes
    decreases e
  {
    if e == 0 then data else Chain(H, H(data) + s, s, e - 1)
  }

  lemma {:induction false} FoldOfChain(H: HashFn, data: Bytes, s: Bytes, e: nat, rest: seq<Bytes>)
    ensures Fold(H, H(data), Copies(s, e) + rest, 0) == Fold(H, H(Chain(H, data, s, e)), rest, 0)
    decreases e
  {
    if e == 0 {
      assert [] + rest == rest;
    } else {
      assert (Copies(s, e) + rest)[1..] == Copies(s, e - 1) + rest;
      FoldOfChain(H, H(data) + s, s, e - 1, rest);
    }
  }

  lemma {:induction false} ChainIsLong(H: HashFn, data: Bytes, s: Bytes, e: nat)
    requires Digests(H) && e > 0
    ensures |Chain(H, data, s, e)| == DIGEST + |s|
    decreases e
  {
    if e > 1 {
      ChainIsLong(H, H(data) + s, s, e - 1);
    }
  }

  /** In every tree whose first leaf continues a chain, whatever started the chain is accepted as data by
      a proof longer than the tree is deep. */
  lemma LongerProofsOpen(H: HashFn, leaves: seq<Bytes>, data: Bytes, s: Bytes, e: nat)
    requires leaves != [] && leaves[0] == Chain(H, data, s, e)
    ensures var hs := Hashes(H, leaves);
            Accepts(H, Root(H, hs), data, Copies(s, e) + Proof(H, hs, 0), 0)
  {
    FoldOfChain(H, data, s, e, Proof(H, Hashes(H, leaves), 0));
    EveryIndexOpens(H, Hashes(H, leaves), 0);
  }

  datatype Opening = Opening(leaves: seq<Bytes>, data: Bytes, proof: seq<Bytes>)

  /** For a wrong length: a tree of `n` leaves and an opening of something that is none of them. */
  function WrongLength(H: HashFn, n: nat, k: nat): (o: Opening)
    requires n > 0 && k != Depth(n)
    ensures |o.leaves| == n && |o.proof| == k
  {
    if k < Depth(n) then
      var leaves := Copies([], n);
      var (data, proof) := InnerOpening(H, Hashes(H, leaves), k);
      Opening(leaves, data, proof)
    else
      var leaves := [Chain(H, [], [], k - Depth(n))] + Copies([0], n - 1);
      Opening(leaves, [], Copies([], k - Depth(n)) + Proof(H, Hashes(H, leaves), 0))
  }

  lemma WrongLengthOpens(H: HashFn, n: nat, k: nat)
    requires Digests(H) && n > 0 && k != Depth(n)
    ensures var o := WrongLength(H, n, k);
            Accepts(H, Root(H, Hashes(H, o.leaves)), o.data, o.proof, 0) && o.data !in o.leaves
  {
    hide Root, Accepts, InnerOpening, Chain, Proof, Depth;
    var o := WrongLength(H, n, k);
    if k < Depth(n) {
      InnerNodesOpen(H, Hashes(H, o.leaves), k);
    } else {
      ChainIsLong(H, [], [], k - Depth(n));
      LongerProofsOpen(H, o.leaves, [], [], k - Depth(n));
    }
  }

  /** Every accepted proof of length `k` in a tree of `n` leaves opens the leaf or exhibits a collision. */
  ghost predicate SoundFor(H: HashFn, n: nat, k: nat) {
    forall leaves: seq<Bytes>, index: int, data: Bytes, proof: seq<Bytes> ::
      |leaves| == n > 0 && |proof| == k && Accepts(H, Root(H, Hashes(H, leaves)), data, proof, index)
      ==> data == leaves[Opened(n, index)] || Collision(H, Exhibited(H, leaves, index, data, proof))
  }

  /** The length decides: verification is sound for proofs of one length if and only if that length is
      the depth of the tree, which the verifier is not told. */
  lemma {:induction false} LengthDecides(H: HashFn, n: nat, k: nat)
    requires Digests(H) && n > 0
    ensures SoundFor(H, n, k) <==> k == Depth(n)
  {
    hide Accepts, Root, WrongLength, FoldClash, Depth;
    if k == Depth(n) {
      forall leaves: seq<Bytes>, index: int, data: Bytes, proof: seq<Bytes> |
        |leaves| == n > 0 && |proof| == k && Accepts(H, Root(H, Hashes(H, leaves)), data, proof, index)
        ensures data == leaves[Opened(n, index)] || Collision(H, Exhibited(H, leaves, index, data, proof))
      {
        Soundness(H, leaves, index, data, proof);
      }
    } else {
      var o := WrongLength(H, n, k);
      WrongLengthOpens(H, n, k);
      assert !Collision(H, Exhibited(H, o.leaves, 0, o.data, o.proof));
    }
  }

  // ---------------------------------------------------------------- the loops

  datatype MerkleTree = MerkleTree(rootHash: Bytes, leaves: seq<Bytes>)

  /** The padding branch both tree loops start with. */
  method PadLevel(hs: seq<Bytes>) returns (p: seq<Bytes>)
    ensures p == Padded(hs)
  {
    p := hs;
    if |p| % 2 != 0 {
      p := p + [p[|p| - 1]];
    }
  }

  method HashAll(H: HashFn, data: seq<Bytes>) returns (hashes: seq<Bytes>)
    ensures hashes == Hashes(H, data)
  {
    hashes := [];
    for i := 0 to |data|
      invariant hashes == Hashes(H, data)[..i]
    {
      hashes := hashes + [H(data[i])];
    }
  }

  /** One turn of the construction loop. */
  method BuildLevel(H: HashFn, level: seq<Bytes>) returns (nextLevel: seq<Bytes>)
    ensures nextLevel == NextLevel(H, level)
  {
    var hashes := PadLevel(level);
    nextLevel := [];
    var i := 0;
    while i < |hashes|
      invariant 0 <= i <= |hashes| && i % 2 == 0
      invariant nextLevel == NextLevel(H, level)[..i / 2]
    {
      assert hashes[i] + hashes[i + 1] == Joined(level, i / 2);
      nextLevel := nextLevel + [H(hashes[i] + hashes[i + 1])];
      i := i + 2;
    }
  }

  method NewMerkleTree(H: HashFn, data: seq<Bytes>) returns (t: MerkleTree)
    ensures t == if data == [] then MerkleTree([], []) else MerkleTree(Root(H, Hashes(H, data)), data)
  {
    if |data| == 0 {
      return MerkleTree([], []);
    }
    var hashes := HashAll(H, data);
    while |hashes| > 1
      invariant hashes != [] && Root(H, hashes) == Root(H, Hashes(H, data))
      decreases |hashes|
    {
      hashes := BuildLevel(H, hashes);
    }
    return MerkleTree(hashes[0], data);
  }

  /** One level of the proof loop: the sibling is found while the next level is built. */
  method ProofLevel(H: HashFn, level: seq<Bytes>, currentIndex: nat) returns (sibling: seq<Bytes>,
                    nextLevel: seq<Bytes>)
    requires currentIndex < |level|
    ensures sibling == [Sibling(level, currentIndex)] && nextLevel == NextLevel(H, level)
  {
    var hashes := PadLevel(level);
    sibling, nextLevel := [], [];
    var i := 0;
    while i < |hashes|
      invariant 0 <= i <= |hashes| && i % 2 == 0
      invariant nextLevel == NextLevel(H, level)[..i / 2]
      invariant sibling == if i <= currentIndex then [] else [Sibling(level, currentIndex)]
    {
      if i == currentIndex && i + 1 < |hashes| {
        sibling := sibling + [hashes[i + 1]];
      } else if i + 1 == currentIndex {
        sibling := sibling + [hashes[i]];
      }
      assert hashes[i] + hashes[i + 1] == Joined(level, i / 2);
      nextLevel := nextLevel + [H(hashes[i] + hashes[i + 1])];
      i := i + 2;
    }
  }

  /** The siblings collected so far, with those still to come, make up the whole proof. */
  ghost predicate Ahead(H: HashFn, whole: seq<Bytes>, proof: seq<Bytes>, hs: seq<Bytes>, i: nat) {
    i < |hs| && whole == proof + Proof(H, hs, i)
  }

  lemma AheadAll(H: HashFn, hs: seq<Bytes>, i: nat)
    requires i < |hs|
    ensures Ahead(H, Proof(H, hs, i), [], hs, i)
  {
  }

  lemma AheadNext(H: HashFn, whole: seq<Bytes>, proof: seq<Bytes>, hs: seq<Bytes>, i: nat, j: nat)
    requires |hs| > 1 && Ahead(H, whole, proof, hs, i) && j == i / 2
    ensures Ahead(H, whole, proof + [Sibling(hs, i)], NextLevel(H, hs), j)
  {
  }

  lemma AheadDone(H: HashFn, whole: seq<Bytes>, proof: seq<Bytes>, hs: seq<Bytes>, i: nat)
    requires |hs| <= 1 && Ahead(H, whole, proof, hs, i)
    ensures whole == proof
  {
  }

  method GenerateProof(H: HashFn, m: MerkleTree, index: int) returns (r: Option<seq<Bytes>>)
    ensures r == if 0 <= index < |m.leaves| then Some(Proof(H, Hashes(H, m.leaves), index)) else None
  {
    hide *;
    if index < 0 || index >= |m.leaves| {
      return None;
    }
    var proof: seq<Bytes>, currentIndex: nat := [], index;
    var hashes := HashAll(H, m.leaves);
    ghost var whole := Proof(H, hashes, index);
    AheadAll(H, hashes, index);
    while |hashes| > 1
      invariant currentIndex < |hashes|
      invariant Ahead(H, whole, proof, hashes, currentIndex)
      decreases |hashes|
    {
      var sibling, nextLevel := ProofLevel(H, hashes, currentIndex);
      ghost var i := currentIndex;
      if currentIndex % 2 == 0 {
        currentIndex := currentIndex / 2;
      } else {
        currentIndex := (currentIndex - 1) / 2;
      }
      AheadNext(H, whole, proof, hashes, i, currentIndex);
      proof := proof + sibling;
      hashes := nextLevel;
    }
    AheadDone(H, whole, proof, hashes, currentIndex);
    return Some(proof);
  }

  method VerifyProof(H: HashFn, rootHash: Bytes, data: Bytes, proof: seq<Bytes>, index: int) returns (ok: bool)
    ensures ok == Accepts(H, rootHash, data, proof, index)
  {
    var currentHash, at := H(data), index;
    for k := 0 to |proof|
      invariant Fold(H, H(data), proof, index) == Fold(H, currentHash, proof[k..], at)
    {
      if at % 2 == 0 {
        currentHash := H(currentHash + proof[k]);
      } else {
        currentHash := H(proof[k] + currentHash);
      }
      at := Half(at);
    }
    ok := EqualHash(currentHash, rootHash);
  }

  method EqualHash(a: Bytes, b: Bytes) returns (same: bool)
    ensures same == (a == b)
  {
    if |a| != |b| {
      return false;
    }
    for i := 0 to |a|
      invariant a[..i] == b[..i]
    {
      if a[i] != b[i] {
        return false;
      }
    }
    return true;
  }
}
