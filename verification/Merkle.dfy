/** The Merkle root anchored for a day's records, and the inclusion proofs that let
    an auditor check one record against it. */
module Merkle {
  import opened Basics
  import opened Audit

  const LEAF_TAG: Bytes := [0x00, 0x6C, 0x65, 0x61, 0x66]
  const NODE_TAG: Bytes := [0x01, 0x6E, 0x6F, 0x64, 0x65]

  function LeafHash(H: Hash, leaf: Word): Word {
    H(LEAF_TAG + leaf)
  }

  function NodeHash(H: Hash, left: Word, right: Word): Word {
    H(NODE_TAG + left + right)
  }

  function Leaves(H: Hash, xs: seq<Word>): (r: seq<Word>)
    ensures |r| == |xs|
  {
    seq(|xs|, i requires 0 <= i < |xs| => LeafHash(H, xs[i]))
  }

  function Zeros(): Word {
    seq(32, i => 0)
  }

  /** The right child of the pair that starts at `i`: an odd level repeats its last node. */
  function RightOf<T>(level: seq<T>, i: nat): T
    requires i < |level|
  {
    if i + 1 < |level| then level[i + 1] else level[i]
  }

  function Parents(H: Hash, level: seq<Word>): (r: seq<Word>)
    ensures |r| == (|level| + 1) / 2
  {
    seq((|level| + 1) / 2, i requires 0 <= i < (|level| + 1) / 2 =>
      NodeHash(H, level[2 * i], RightOf(level, 2 * i)))
  }

  /** The root above a level. */
  function RootOf(H: Hash, level: seq<Word>): Word
    requires level != []
    decreases |level|
  {
    if |level| == 1 then level[0] else RootOf(H, Parents(H, level))
  }

  function Root(H: Hash, xs: seq<Word>): Word {
    if xs == [] then Zeros() else RootOf(H, Leaves(H, xs))
  }

  /** What is hashed, to the byte: a leaf behind a zero byte and "leaf", a pair behind a one
      byte and "node", an odd one beside itself; no records at all are 32 zero bytes. */
  lemma {:induction false} SmallRoots(H: Hash, x: Word, y: Word, z: Word)
    ensures Root(H, []) == seq(32, i => 0)
    ensures Root(H, [x]) == H([0, 0x6C, 0x65, 0x61, 0x66] + x)
    ensures var l: Bytes, n: Bytes := [0, 0x6C, 0x65, 0x61, 0x66], [1, 0x6E, 0x6F, 0x64, 0x65];
            Root(H, [x, y]) == H(n + H(l + x) + H(l + y))
            && Root(H, [x, y, z]) == H(n + H(n + H(l + x) + H(l + y)) + H(n + H(l + z) + H(l + z)))
  {
    assert Leaves(H, [x]) == [LeafHash(H, x)];
    assert Leaves(H, [x, y]) == [LeafHash(H, x), LeafHash(H, y)];
    var three := [LeafHash(H, x), LeafHash(H, y), LeafHash(H, z)];
    assert Leaves(H, [x, y, z]) == three;
    var pair := NodeHash(H, LeafHash(H, x), LeafHash(H, y));
    var odd := NodeHash(H, LeafHash(H, z), LeafHash(H, z));
    assert Parents(H, [LeafHash(H, x), LeafHash(H, y)]) == [pair];
    assert Parents(H, three) == [pair, odd];
    assert Parents(H, [pair, odd]) == [NodeHash(H, pair, odd)];
    assert RootOf(H, [pair]) == pair && RootOf(H, [NodeHash(H, pair, odd)]) == NodeHash(H, pair, odd);
    assert RootOf(H, [pair, odd]) == NodeHash(H, pair, odd);
  }

  /** A sibling, and whether it stands on the right. */
  datatype Hop = Hop(sibling: Word, right: bool)

  function HopAt(level: seq<Word>, i: nat): Hop
    requires i < |level|
  {
    if i % 2 == 0 then Hop(RightOf(level, i), true) else Hop(level[i - 1], false)
  }

  function Path(H: Hash, level: seq<Word>, i: nat): seq<Hop>
    requires i < |level|
    decreases |level|
  {
    if |level| == 1 then [] else [HopAt(level, i)] + Path(H, Parents(H, level), i / 2)
  }

  function Up(H: Hash, acc: Word, hop: Hop): Word {
    if hop.right then NodeHash(H, acc, hop.sibling) else NodeHash(H, hop.sibling, acc)
  }

  /** Where a proof leads from a node, all but its last hop first. */
  function Climb(H: Hash, acc: Word, proof: seq<Hop>): Word {
    if proof == [] then acc
    else Up(H, Climb(H, acc, proof[..|proof| - 1]), proof[|proof| - 1])
  }

  predicate Verifies(H: Hash, leaf: Word, proof: seq<Hop>, root: Word) {
    Climb(H, LeafHash(H, leaf), proof) == root
  }

  // ---- the loops --------------------------------------------------------

  method NextLevel(H: Hash, level: seq<Word>) returns (next: seq<Word>)
    ensures next == Parents(H, level)
  {
    next := [];
    var i := 0;
    while i < |level|
      invariant i <= |level| + 1 && i == 2 * |next| && |next| <= (|level| + 1) / 2
      invariant next == Parents(H, level)[..|next|]
    {
      next := next + [NodeHash(H, level[i], if i + 1 < |level| then level[i + 1] else level[i])];
      i := i + 2;
    }
  }

  method MerkleRoot(H: Hash, xs: seq<Word>) returns (root: Word)
    ensures root == Root(H, xs)
  {
    if xs == [] { return Zeros(); }
    var level := Leaves(H, xs);
    while |level| > 1
      invariant level != [] && RootOf(H, level) == Root(H, xs)
      decreases |level|
    {
      level := NextLevel(H, level);
    }
    root := level[0];
  }

  function ContentHash(H: Hash, r: DecisionRecord): Word {
    H(Canonical(r))
  }

  /** The content hashes of a chain's records: the leaves of its tree. */
  function Contents(H: Hash, c: HashChain): (xs: seq<Word>)
    ensures |xs| == |c.entries|
  {
    seq(|c.entries|, i requires 0 <= i < |c.entries| => ContentHash(H, c.entries[i].record))
  }

  lemma {:induction false} PathStep(H: Hash, level: seq<Word>, i: nat, proof: seq<Hop>, hop: Hop)
    requires i < |level| && |level| > 1 && hop == HopAt(level, i)
    ensures proof + Path(H, level, i) == proof + [hop] + Path(H, Parents(H, level), i / 2)
  {
  }

  method MerkleProof(H: Hash, c: HashChain, index: nat) returns (r: Option<seq<Hop>>)
    ensures r == if index < |c.entries| then Some(Path(H, Leaves(H, Contents(H, c)), index)) else None
  {
    if index >= |c.entries| { return None; }
    var level := Leaves(H, Contents(H, c));
    var i: nat := index;
    var proof: seq<Hop> := [];
    while |level| > 1
      invariant i < |level|
      invariant proof + Path(H, level, i) == Path(H, Leaves(H, Contents(H, c)), index)
      decreases |level|
    {
      var right := i % 2 == 0;
      var at := if right then i + 1 else i - 1;
      var hop := Hop(if at < |level| then level[at] else level[i], right);
      PathStep(H, level, i, proof, hop);
      proof := proof + [hop];
      level := NextLevel(H, level);
      i := i / 2;
    }
    assert proof + [] == proof;
    r := Some(proof);
  }

  method VerifyInclusion(H: Hash, leaf: Word, proof: seq<Hop>, root: Word) returns (ok: bool)
    ensures ok == Verifies(H, leaf, proof, root)
  {
    var acc := LeafHash(H, leaf);
    for i := 0 to |proof|
      invariant acc == Climb(H, LeafHash(H, leaf), proof[..i])
    {
      assert proof[..i + 1][..i] == proof[..i];
      acc := if proof[i].right then NodeHash(H, acc, proof[i].sibling) else NodeHash(H, proof[i].sibling, acc);
    }
    assert proof[..|proof|] == proof;
    ok := acc == root;
  }

  // ---- every record's proof verifies ------------------------------------

  lemma {:induction false} ClimbConcat(H: Hash, acc: Word, p: seq<Hop>, q: seq<Hop>)
    ensures Climb(H, acc, p + q) == Climb(H, Climb(H, acc, p), q)
    decreases |q|
  {
    if q == [] {
      assert p + q == p;
    } else {
      ClimbConcat(H, acc, p, q[..|q| - 1]);
      assert (p + q)[..|p + q| - 1] == p + q[..|q| - 1];
    }
  }

  lemma {:induction false} HopMeetsParent(H: Hash, level: seq<Word>, i: nat, k: nat)
    requires i < |level| && (i == 2 * k || i == 2 * k + 1)
    ensures k < |Parents(H, level)| && Parents(H, level)[k] == Up(H, level[i], HopAt(level, i))
  {
  }

  lemma {:induction false} OneHop(H: Hash, acc: Word, hop: Hop)
    ensures Climb(H, acc, [hop]) == Up(H, acc, hop)
  {
    assert [hop][..0] == [];
  }

  lemma {:induction false} PathLeadsUp(H: Hash, level: seq<Word>, i: nat)
    requires i < |level|
    ensures Climb(H, level[i], Path(H, level, i)) == RootOf(H, level)
    decreases |level|
  {
    if |level| > 1 {
      var up := Parents(H, level);
      PathLeadsUp(H, up, i / 2);
      var hop := HopAt(level, i);
      ClimbConcat(H, level[i], [hop], Path(H, up, i / 2));
      OneHop(H, level[i], hop);
      HopMeetsParent(H, level, i, i / 2);
    }
  }

  /** The proof produced for any record checks out against the root. */
  lemma {:induction false} InclusionIsComplete(H: Hash, xs: seq<Word>, i: nat)
    requires i < |xs|
    ensures Verifies(H, xs[i], Path(H, Leaves(H, xs), i), Root(H, xs))
  {
    PathLeadsUp(H, Leaves(H, xs), i);
  }

  // ---- and nothing else does --------------------------------------------

  /** The inputs hashed to build the levels from this one to the root. */
  function NodeInputs(H: Hash, level: seq<Word>): set<Bytes>
    requires level != []
    decreases |level|
  {
    if |level| == 1 then {}
    else
      (set i | 0 <= i < |Parents(H, level)| :: NODE_TAG + level[2 * i] + RightOf(level, 2 * i))
      + NodeInputs(H, Parents(H, level))
  }

  function TreeInputs(H: Hash, xs: seq<Word>): set<Bytes> {
    if xs == [] then {}
    else (set i | 0 <= i < |xs| :: LEAF_TAG + xs[i]) + NodeInputs(H, Leaves(H, xs))
  }

  function HopInput(acc: Word, hop: Hop): Bytes {
    if hop.right then NODE_TAG + acc + hop.sibling else NODE_TAG + hop.sibling + acc
  }

  /** The inputs hashed to check a proof. */
  function ProofInputs(H: Hash, leaf: Word, proof: seq<Hop>): set<Bytes> {
    if proof == [] then {LEAF_TAG + leaf}
    else
      var n := |proof| - 1;
      ProofInputs(H, leaf, proof[..n]) + {HopInput(Climb(H, LeafHash(H, leaf), proof[..n]), proof[n])}
  }

  /** An input hashed in the check collides with one hashed in the tree. */
  ghost predicate Clash(H: Hash, tree: set<Bytes>, leaf: Word, proof: seq<Hop>) {
    exists a, b :: a in ProofInputs(H, leaf, proof) && b in tree && Collides(H, a, b)
  }

  /** The last input a check hashes is what its climb is the hash of. */
  lemma {:induction false} LastInput(H: Hash, leaf: Word, proof: seq<Hop>) returns (a: Bytes)
    ensures a in ProofInputs(H, leaf, proof) && H(a) == Climb(H, LeafHash(H, leaf), proof)
    ensures a == if proof == [] then LEAF_TAG + leaf
                 else HopInput(Climb(H, LeafHash(H, leaf), proof[..|proof| - 1]), proof[|proof| - 1])
  {
    a := if proof == [] then LEAF_TAG + leaf
         else HopInput(Climb(H, LeafHash(H, leaf), proof[..|proof| - 1]), proof[|proof| - 1]);
  }

  lemma {:induction false} NodeParts(l: Word, r: Word, m: Word, s: Word)
    requires NODE_TAG + l + r == NODE_TAG + m + s
    ensures l == m && r == s
  {
    assert (NODE_TAG + l + r)[5..37] == l && (NODE_TAG + m + s)[5..37] == m;
    assert (NODE_TAG + l + r)[37..] == r && (NODE_TAG + m + s)[37..] == s;
  }

  lemma {:induction false} PrefixInputs(H: Hash, leaf: Word, proof: seq<Hop>, n: nat)
    requires n <= |proof|
    ensures ProofInputs(H, leaf, proof[..n]) <= ProofInputs(H, leaf, proof)
    decreases |proof|
  {
    if n < |proof| {
      PrefixInputs(H, leaf, proof[..|proof| - 1], n);
      assert proof[..|proof| - 1][..n] == proof[..n];
    } else {
      assert proof[..n] == proof;
    }
  }

  /** A leaf input is never a node input. */
  lemma {:induction false} TagsDiffer(leaf: Word, l: Word, r: Word)
    ensures LEAF_TAG + leaf != NODE_TAG + l + r
  {
    assert (LEAF_TAG + leaf)[0] == 0 && (NODE_TAG + l + r)[0] == 1;
  }

  /** One level down: a climb that meets a parent came through one of its children. */
  lemma {:induction false} OneDown(H: Hash, level: seq<Word>, leaf: Word, proof: seq<Hop>, n: nat, i: nat)
    requires n <= |proof| && |level| > 1 && i < |Parents(H, level)|
    requires Climb(H, LeafHash(H, leaf), proof[..n]) == Parents(H, level)[i]
    ensures Clash(H, NodeInputs(H, level), leaf, proof)
            || (n > 0 && Climb(H, LeafHash(H, leaf), proof[..n - 1]) in level)
  {
    var b := NODE_TAG + level[2 * i] + RightOf(level, 2 * i);
    var a := LastInput(H, leaf, proof[..n]);
    PrefixInputs(H, leaf, proof, n);
    assert b in NodeInputs(H, level);
    TagsDiffer(leaf, level[2 * i], RightOf(level, 2 * i));
    if a == b {
      assert n > 0 && proof[..n][..n - 1] == proof[..n - 1];
      HopFromChild(Climb(H, LeafHash(H, leaf), proof[..n - 1]), proof[n - 1], level[2 * i], RightOf(level, 2 * i));
    } else {
      assert Collides(H, a, b);
    }
  }

  lemma {:induction false} HopFromChild(below: Word, hop: Hop, l: Word, r: Word)
    requires HopInput(below, hop) == NODE_TAG + l + r
    ensures below in {l, r}
  {
    if hop.right {
      NodeParts(below, hop.sibling, l, r);
    } else {
      NodeParts(hop.sibling, below, l, r);
    }
  }

  lemma {:induction false} Descend(H: Hash, level: seq<Word>, leaf: Word, proof: seq<Hop>) returns (n: nat)
    requires level != [] && Climb(H, LeafHash(H, leaf), proof) == RootOf(H, level)
    ensures Clash(H, NodeInputs(H, level), leaf, proof)
            || (n <= |proof| && Climb(H, LeafHash(H, leaf), proof[..n]) in level)
    decreases |level|
  {
    if |level| == 1 {
      n := |proof|;
      assert proof[..n] == proof;
    } else {
      var up := Parents(H, level);
      n := Descend(H, up, leaf, proof);
      if !Clash(H, NodeInputs(H, up), leaf, proof) {
        var i: nat :| i < |up| && up[i] == Climb(H, LeafHash(H, leaf), proof[..n]);
        OneDown(H, level, leaf, proof, n, i);
        n := if n > 0 then n - 1 else 0;
      }
    }
  }

  /** A proof of any shape that checks out against the root of a day proves a record of
      that day, unless an input of the check collides with an input of the tree. */
  lemma {:induction false} InclusionIsSound(H: Hash, xs: seq<Word>, leaf: Word, proof: seq<Hop>)
    requires xs != [] && Verifies(H, leaf, proof, Root(H, xs))
    ensures leaf in xs || Clash(H, TreeInputs(H, xs), leaf, proof)
  {
    var level := Leaves(H, xs);
    var n := Descend(H, level, leaf, proof);
    if !Clash(H, NodeInputs(H, level), leaf, proof) {
      var i: nat :| i < |level| && level[i] == Climb(H, LeafHash(H, leaf), proof[..n]);
      var a := LastInput(H, leaf, proof[..n]);
      PrefixInputs(H, leaf, proof, n);
      var b := LEAF_TAG + xs[i];
      assert b in TreeInputs(H, xs);
      if n > 0 {
        var below, hop := Climb(H, LeafHash(H, leaf), proof[..n][..n - 1]), proof[..n][n - 1];
        TagsDiffer(xs[i], below, hop.sibling);
        TagsDiffer(xs[i], hop.sibling, below);
      }
      if a == b {
        assert a[5..] == leaf && b[5..] == xs[i];
      } else {
        assert Collides(H, a, b);
      }
    }
  }

  // ---- what the root says about the whole list --------------------------

  lemma {:induction false} ParentsOfRepeated(H: Hash, level: seq<Word>)
    requires |level| % 2 == 1 && |level| > 1
    ensures Parents(H, level + [level[|level| - 1]]) == Parents(H, level)
  {
  }

  /** The root does not fix how many records there are: repeating the last of an odd
      number of them gives the same root. */
  lemma {:induction false} RepeatedLastIsInvisible(H: Hash, xs: seq<Word>)
    requires |xs| % 2 == 1 && |xs| > 1
    ensures Root(H, xs + [xs[|xs| - 1]]) == Root(H, xs)
  {
    ParentsOfRepeated(H, Leaves(H, xs));
    assert Leaves(H, xs + [xs[|xs| - 1]]) == Leaves(H, xs) + [Leaves(H, xs)[|xs| - 1]];
  }

  ghost predicate Meet(H: Hash, a: set<Bytes>, b: set<Bytes>) {
    exists x, y :: x in a && y in b && Collides(H, x, y)
  }

  lemma {:induction false} SameRootLevels(H: Hash, a: seq<Word>, b: seq<Word>)
    requires a != [] && |a| == |b| && RootOf(H, a) == RootOf(H, b)
    ensures a == b || Meet(H, NodeInputs(H, a), NodeInputs(H, b))
    decreases |a|
  {
    if |a| > 1 && !Meet(H, NodeInputs(H, a), NodeInputs(H, b)) {
      var p, q := Parents(H, a), Parents(H, b);
      SameRootLevels(H, p, q);
      assert NodeInputs(H, p) <= NodeInputs(H, a) && NodeInputs(H, q) <= NodeInputs(H, b);
      assert p == q;
      forall i: nat | i < |a| ensures a[i] == b[i] {
        SameChild(H, a, b, i, i / 2);
      }
    }
  }

  lemma {:induction false} SameChild(H: Hash, a: seq<Word>, b: seq<Word>, i: nat, k: nat)
    requires |a| == |b| && |a| > 1 && i < |a| && (i == 2 * k || i == 2 * k + 1)
    requires Parents(H, a) == Parents(H, b)
    ensures a[i] == b[i] || Meet(H, NodeInputs(H, a), NodeInputs(H, b))
  {
    assert Parents(H, a)[k] == Parents(H, b)[k];
    SameParent(H, a, b, k);
  }

  lemma {:induction false} SameParent(H: Hash, a: seq<Word>, b: seq<Word>, i: nat)
    requires |a| == |b| && |a| > 1 && i < |Parents(H, a)| && Parents(H, a)[i] == Parents(H, b)[i]
    ensures Meet(H, NodeInputs(H, a), NodeInputs(H, b))
            || (a[2 * i] == b[2 * i] && RightOf(a, 2 * i) == RightOf(b, 2 * i))
  {
    var x := NODE_TAG + a[2 * i] + RightOf(a, 2 * i);
    var y := NODE_TAG + b[2 * i] + RightOf(b, 2 * i);
    assert x in NodeInputs(H, a) && y in NodeInputs(H, b);
    if x == y {
      NodeParts(a[2 * i], RightOf(a, 2 * i), b[2 * i], RightOf(b, 2 * i));
    } else {
      assert Collides(H, x, y);
    }
  }

  /** But given the number of records, it fixes every one of them. */
  lemma {:induction false} RootCommits(H: Hash, xs: seq<Word>, ys: seq<Word>)
    requires |xs| == |ys| && Root(H, xs) == Root(H, ys)
    ensures xs == ys || Meet(H, TreeInputs(H, xs), TreeInputs(H, ys))
  {
    if xs != [] {
      var a, b := Leaves(H, xs), Leaves(H, ys);
      SameRootLevels(H, a, b);
      if a == b {
        forall i | 0 <= i < |xs| ensures xs[i] == ys[i] || Meet(H, TreeInputs(H, xs), TreeInputs(H, ys)) {
          var x, y := LEAF_TAG + xs[i], LEAF_TAG + ys[i];
          assert x in TreeInputs(H, xs) && y in TreeInputs(H, ys);
          assert a[i] == b[i];
          if x == y {
            assert x[5..] == xs[i] && y[5..] == ys[i];
          } else {
            assert Collides(H, x, y);
          }
        }
      }
    }
  }
}
