/** Which lists of records share a Merkle root: those that are one list once every odd
    level of the tree is completed by repeating its last block. */
module MerkleLists {
  import opened Basics
  import opened Audit
  import opened Merkle

  // ---- completing a list ------------------------------------------------

  /** Neighbouring blocks joined, the last one repeated when it has no neighbour. */
  function Paired(blocks: seq<seq<Word>>): (r: seq<seq<Word>>)
    ensures |r| == (|blocks| + 1) / 2
  {
    seq((|blocks| + 1) / 2, i requires 0 <= i < (|blocks| + 1) / 2 => blocks[2 * i] + RightOf(blocks, 2 * i))
  }

  function Fill(blocks: seq<seq<Word>>): seq<Word>
    requires blocks != []
    decreases |blocks|
  {
    if |blocks| == 1 then blocks[0] else Fill(Paired(blocks))
  }

  function Singles(xs: seq<Word>): (blocks: seq<seq<Word>>)
    ensures |blocks| == |xs|
  {
    seq(|xs|, i requires 0 <= i < |xs| => [xs[i]])
  }

  /** The list with every odd level completed. */
  function Completed(xs: seq<Word>): seq<Word> {
    if xs == [] then [] else Fill(Singles(xs))
  }

  // ---- the tree above a list --------------------------------------------

  datatype Tree = Leaf(word: Word) | Node(left: Tree, right: Tree)

  function Joined(trees: seq<Tree>): (r: seq<Tree>)
    ensures |r| == (|trees| + 1) / 2
  {
    seq((|trees| + 1) / 2, i requires 0 <= i < (|trees| + 1) / 2 => Node(trees[2 * i], RightOf(trees, 2 * i)))
  }

  function Over(trees: seq<Tree>): Tree
    requires trees != []
    decreases |trees|
  {
    if |trees| == 1 then trees[0] else Over(Joined(trees))
  }

  function LeafTrees(xs: seq<Word>): (r: seq<Tree>)
    ensures |r| == |xs|
  {
    seq(|xs|, i requires 0 <= i < |xs| => Leaf(xs[i]))
  }

  function TreeOf(xs: seq<Word>): Tree
    requires xs != []
  {
    Over(LeafTrees(xs))
  }

  function HashOf(H: Hash, t: Tree): Word {
    match t
    case Leaf(w) => LeafHash(H, w)
    case Node(l, r) => NodeHash(H, HashOf(H, l), HashOf(H, r))
  }

  /** Every input that is hashed on the way to the hash of a tree. */
  function Inputs(H: Hash, t: Tree): set<Bytes> {
    match t
    case Leaf(w) => {LEAF_TAG + w}
    case Node(l, r) => Inputs(H, l) + Inputs(H, r) + {NODE_TAG + HashOf(H, l) + HashOf(H, r)}
  }

  function Fringe(t: Tree): seq<Word> {
    match t
    case Leaf(w) => [w]
    case Node(l, r) => Fringe(l) + Fringe(r)
  }

  predicate Perfect(t: Tree, h: nat) {
    match t
    case Leaf(_) => h == 0
    case Node(l, r) => h > 0 && Perfect(l, h - 1) && Perfect(r, h - 1)
  }

  function Hashes(H: Hash, trees: seq<Tree>): (r: seq<Word>)
    ensures |r| == |trees|
  {
    seq(|trees|, i requires 0 <= i < |trees| => HashOf(H, trees[i]))
  }

  function Fringes(trees: seq<Tree>): (r: seq<seq<Word>>)
    ensures |r| == |trees|
  {
    seq(|trees|, i requires 0 <= i < |trees| => Fringe(trees[i]))
  }

  // ---- the root is the hash of the tree ---------------------------------

  lemma {:induction false} HashesJoin(H: Hash, trees: seq<Tree>)
    ensures Hashes(H, Joined(trees)) == Parents(H, Hashes(H, trees))
  {
    forall i: nat | i < |Joined(trees)| ensures HashOf(H, Joined(trees)[i]) == Parents(H, Hashes(H, trees))[i] {
      assert Hashes(H, trees)[2 * i] == HashOf(H, trees[2 * i]);
    }
  }

  lemma {:induction false} RootIsHash(H: Hash, trees: seq<Tree>)
    requires trees != []
    ensures RootOf(H, Hashes(H, trees)) == HashOf(H, Over(trees))
    decreases |trees|
  {
    if |trees| > 1 {
      HashesJoin(H, trees);
      RootIsHash(H, Joined(trees));
    }
  }

  lemma {:induction false} LeavesAreHashes(H: Hash, xs: seq<Word>)
    ensures Hashes(H, LeafTrees(xs)) == Leaves(H, xs)
  {
  }

  lemma {:induction false} RootOfTree(H: Hash, xs: seq<Word>)
    requires xs != []
    ensures Root(H, xs) == HashOf(H, TreeOf(xs))
  {
    LeavesAreHashes(H, xs);
    RootIsHash(H, LeafTrees(xs));
  }

  // ---- the completed list is its fringe ---------------------------------

  lemma {:induction false} FringesJoin(trees: seq<Tree>)
    ensures Fringes(Joined(trees)) == Paired(Fringes(trees))
  {
    forall i: nat | i < |Joined(trees)| ensures Fringe(Joined(trees)[i]) == Paired(Fringes(trees))[i] {
      assert Fringes(trees)[2 * i] == Fringe(trees[2 * i]);
    }
  }

  lemma {:induction false} FillIsFringe(trees: seq<Tree>)
    requires trees != []
    ensures Fill(Fringes(trees)) == Fringe(Over(trees))
    decreases |trees|
  {
    if |trees| > 1 {
      FringesJoin(trees);
      FillIsFringe(Joined(trees));
    }
  }

  lemma {:induction false} CompletedIsFringe(xs: seq<Word>)
    requires xs != []
    ensures Completed(xs) == Fringe(TreeOf(xs))
  {
    assert Fringes(LeafTrees(xs)) == Singles(xs);
    FillIsFringe(LeafTrees(xs));
  }

  lemma {:induction false} OverIsPerfect(trees: seq<Tree>, h: nat) returns (top: nat)
    requires trees != [] && forall i :: 0 <= i < |trees| ==> Perfect(trees[i], h)
    ensures Perfect(Over(trees), top)
    decreases |trees|
  {
    if |trees| == 1 {
      top := h;
    } else {
      top := OverIsPerfect(Joined(trees), h + 1);
    }
  }

  function Pow2(h: nat): (p: nat)
    ensures p >= 1
  {
    if h == 0 then 1 else 2 * Pow2(h - 1)
  }

  lemma {:induction false} FringeLength(t: Tree, h: nat)
    requires Perfect(t, h)
    ensures |Fringe(t)| == Pow2(h)
    decreases h
  {
    if t.Node? {
      FringeLength(t.left, h - 1);
      FringeLength(t.right, h - 1);
    }
  }

  lemma {:induction false} Pow2Grows(g: nat, h: nat)
    requires g < h
    ensures Pow2(g) < Pow2(h)
    decreases h
  {
    if g < h - 1 {
      Pow2Grows(g, h - 1);
    }
  }

  /** A perfect tree is determined by its fringe. */
  lemma {:induction false} SameFringe(s: Tree, g: nat, t: Tree, h: nat)
    requires Perfect(s, g) && Perfect(t, h) && Fringe(s) == Fringe(t)
    ensures s == t
    decreases g
  {
    FringeLength(s, g);
    FringeLength(t, h);
    if g < h { Pow2Grows(g, h); }
    if h < g { Pow2Grows(h, g); }
    if g > 0 {
      FringeLength(s.left, g - 1);
      FringeLength(t.left, h - 1);
      var n := |Fringe(s.left)|;
      assert Fringe(s)[..n] == Fringe(s.left) && Fringe(s)[n..] == Fringe(s.right);
      assert Fringe(t)[..n] == Fringe(t.left) && Fringe(t)[n..] == Fringe(t.right);
      SameFringe(s.left, g - 1, t.left, h - 1);
      SameFringe(s.right, g - 1, t.right, h - 1);
    }
  }

  // ---- equal hashes -----------------------------------------------------

  lemma {:induction false} MeetMore(H: Hash, a: set<Bytes>, b: set<Bytes>, c: set<Bytes>, d: set<Bytes>)
    requires Meet(H, a, b) && a <= c && b <= d
    ensures Meet(H, c, d)
  {
  }

  /** The input whose hash a tree's hash is. */
  function TopInput(H: Hash, t: Tree): (b: Bytes)
    ensures b in Inputs(H, t) && H(b) == HashOf(H, t)
  {
    match t
    case Leaf(w) => LEAF_TAG + w
    case Node(l, r) => NODE_TAG + HashOf(H, l) + HashOf(H, r)
  }

  lemma {:induction false} KindsDiffer(H: Hash, leaf: Tree, node: Tree)
    requires leaf.Leaf? && node.Node?
    ensures TopInput(H, leaf) != TopInput(H, node)
  {
    TagsDiffer(leaf.word, HashOf(H, node.left), HashOf(H, node.right));
  }

  /** Trees with one hash are one tree, or two inputs hashed for them collide. */
  lemma {:induction false} SameHash(H: Hash, s: Tree, t: Tree)
    requires HashOf(H, s) == HashOf(H, t)
    ensures s == t || Meet(H, Inputs(H, s), Inputs(H, t))
    decreases s
  {
    var a, b := TopInput(H, s), TopInput(H, t);
    if s.Leaf? && t.Node? { KindsDiffer(H, s, t); }
    if s.Node? && t.Leaf? { KindsDiffer(H, t, s); }
    if a != b {
      assert Collides(H, a, b);
    } else if s.Leaf? && t.Leaf? {
      assert a[5..] == s.word && b[5..] == t.word;
    } else if s.Node? && t.Node? {
      NodeParts(HashOf(H, s.left), HashOf(H, s.right), HashOf(H, t.left), HashOf(H, t.right));
      SameHash(H, s.left, t.left);
      SameHash(H, s.right, t.right);
      if s.left != t.left {
        MeetMore(H, Inputs(H, s.left), Inputs(H, t.left), Inputs(H, s), Inputs(H, t));
      } else if s.right != t.right {
        MeetMore(H, Inputs(H, s.right), Inputs(H, t.right), Inputs(H, s), Inputs(H, t));
      }
    }
  }

  /** What is hashed for the tree is hashed for the levels. */
  lemma {:induction false} InputsOfLevels(H: Hash, trees: seq<Tree>, b: Bytes)
    requires trees != [] && b in Inputs(H, Over(trees))
    ensures b in NodeInputs(H, Hashes(H, trees)) || exists i :: 0 <= i < |trees| && b in Inputs(H, trees[i])
    decreases |trees|
  {
    if |trees| > 1 {
      var up := Joined(trees);
      HashesJoin(H, trees);
      InputsOfLevels(H, up, b);
      if b !in NodeInputs(H, Hashes(H, up)) {
        var i: nat :| i < |up| && b in Inputs(H, up[i]);
        InputsOfPair(H, trees, i, b);
      }
    }
  }

  lemma {:induction false} InputsOfPair(H: Hash, trees: seq<Tree>, i: nat, b: Bytes)
    requires |trees| > 1 && i < |Joined(trees)| && b in Inputs(H, Joined(trees)[i])
    ensures b in NodeInputs(H, Hashes(H, trees)) || exists j :: 0 <= j < |trees| && b in Inputs(H, trees[j])
  {
    var hs := Hashes(H, trees);
    var l, r := trees[2 * i], RightOf(trees, 2 * i);
    assert hs[2 * i] == HashOf(H, l) && RightOf(hs, 2 * i) == HashOf(H, r);
    assert |Parents(H, hs)| == |Joined(trees)|;
    if b == NODE_TAG + HashOf(H, l) + HashOf(H, r) {
      assert b in NodeInputs(H, hs);
    } else if b in Inputs(H, l) {
      assert b in Inputs(H, trees[2 * i]);
    } else {
      var j := if 2 * i + 1 < |trees| then 2 * i + 1 else 2 * i;
      assert b in Inputs(H, trees[j]);
    }
  }

  lemma {:induction false} InputsOfTree(H: Hash, xs: seq<Word>)
    requires xs != []
    ensures Inputs(H, TreeOf(xs)) <= TreeInputs(H, xs)
  {
    LeavesAreHashes(H, xs);
    forall b | b in Inputs(H, TreeOf(xs)) ensures b in TreeInputs(H, xs) {
      InputsOfLevels(H, LeafTrees(xs), b);
      if b !in NodeInputs(H, Leaves(H, xs)) {
        var i :| 0 <= i < |xs| && b in Inputs(H, LeafTrees(xs)[i]);
        assert b == LEAF_TAG + xs[i];
      }
    }
  }

  lemma {:induction false} SameCompletion(xs: seq<Word>, ys: seq<Word>)
    requires xs != [] && ys != []
    ensures Completed(xs) == Completed(ys) <==> TreeOf(xs) == TreeOf(ys)
  {
    CompletedIsFringe(xs);
    CompletedIsFringe(ys);
    var g := OverIsPerfect(LeafTrees(xs), 0);
    var h := OverIsPerfect(LeafTrees(ys), 0);
    if Completed(xs) == Completed(ys) {
      SameFringe(TreeOf(xs), g, TreeOf(ys), h);
    }
  }

  /** Two lists share a root exactly when they are one list once completed, unless inputs
      hashed for the two roots collide. */
  lemma {:induction false} RootFixesTheCompletedList(H: Hash, xs: seq<Word>, ys: seq<Word>)
    requires xs != [] && ys != []
    ensures Completed(xs) == Completed(ys) ==> Root(H, xs) == Root(H, ys)
    ensures Root(H, xs) == Root(H, ys) ==>
              Completed(xs) == Completed(ys) || Meet(H, TreeInputs(H, xs), TreeInputs(H, ys))
  {
    SameCompletion(xs, ys);
    RootOfTree(H, xs);
    RootOfTree(H, ys);
    if Root(H, xs) == Root(H, ys) {
      SameHash(H, TreeOf(xs), TreeOf(ys));
      InputsOfTree(H, xs);
      InputsOfTree(H, ys);
      if TreeOf(xs) != TreeOf(ys) {
        MeetMore(H, Inputs(H, TreeOf(xs)), Inputs(H, TreeOf(ys)), TreeInputs(H, xs), TreeInputs(H, ys));
      }
    }
  }

  // ---- what completing keeps --------------------------------------------

  function Flat(blocks: seq<seq<Word>>): seq<Word> {
    if blocks == [] then [] else blocks[0] + Flat(blocks[1..])
  }

  /** Joining neighbours adds nothing but the repeated last block, at the end. */
  lemma {:induction false} PairedKeeps(blocks: seq<seq<Word>>)
    ensures Flat(blocks) <= Flat(Paired(blocks))
    decreases |blocks|
  {
    if |blocks| == 1 {
      assert Paired(blocks) == [blocks[0] + blocks[0]];
      assert Flat(blocks) == blocks[0] + [];
    } else if |blocks| > 1 {
      var rest := blocks[2..];
      PairedKeeps(rest);
      assert Paired(blocks) == [blocks[0] + blocks[1]] + Paired(rest);
      assert blocks[1..][1..] == rest && blocks[1..][0] == blocks[1];
      assert Flat(blocks) == blocks[0] + blocks[1] + Flat(rest);
    }
  }

  lemma {:induction false} FillKeeps(blocks: seq<seq<Word>>)
    requires blocks != []
    ensures Flat(blocks) <= Fill(blocks)
    decreases |blocks|
  {
    if |blocks| == 1 {
      assert Flat(blocks) == blocks[0] + [];
    } else {
      PairedKeeps(blocks);
      FillKeeps(Paired(blocks));
    }
  }

  lemma {:induction false} FlatOfSingles(xs: seq<Word>)
    ensures Flat(Singles(xs)) == xs
  {
    if xs != [] {
      FlatOfSingles(xs[1..]);
      assert Singles(xs)[1..] == Singles(xs[1..]);
    }
  }

  /** Completing a list only adds records at its end; so lists of one length with one
      completion are one list. */
  lemma {:induction false} CompletingAppends(xs: seq<Word>)
    ensures xs <= Completed(xs)
  {
    if xs != [] {
      FlatOfSingles(xs);
      FillKeeps(Singles(xs));
    }
  }

  /** Six records and eight can share a root: the odd level need not be the lowest. */
  lemma {:induction false} SixAndEight(H: Hash, a: Word, b: Word, c: Word, d: Word, e: Word, f: Word)
    ensures Completed([a, b, c, d, e, f]) == Completed([a, b, c, d, e, f, e, f]) == [a, b, c, d, e, f, e, f]
    ensures Root(H, [a, b, c, d, e, f]) == Root(H, [a, b, c, d, e, f, e, f])
  {
    var six, eight := [a, b, c, d, e, f], [a, b, c, d, e, f, e, f];
    var ab, cd, ef := [a, b], [c, d], [e, f];
    var left, right := [a, b, c, d], [e, f, e, f];
    assert ab + cd == left && ef + ef == right && left + right == eight;
    assert [a] + [b] == ab && [c] + [d] == cd && [e] + [f] == ef;
    PairOfSix(Singles(six), ab, cd, ef);
    PairOfEight(Singles(eight), ab, cd, ef, ef);
    assert Paired([ab, cd, ef]) == [left, right];
    assert Paired([ab, cd, ef, ef]) == [left, right];
    assert Paired([left, right]) == [eight];
    assert Fill([eight]) == eight;
    assert Fill([left, right]) == eight;
    assert Fill([ab, cd, ef]) == eight && Fill([ab, cd, ef, ef]) == eight;
    assert Fill(Singles(six)) == eight && Fill(Singles(eight)) == eight;
    RootFixesTheCompletedList(H, six, eight);
  }

  lemma {:induction false} PairOfSix(blocks: seq<seq<Word>>, p: seq<Word>, q: seq<Word>, r: seq<Word>)
    requires |blocks| == 6 && blocks[0] + blocks[1] == p && blocks[2] + blocks[3] == q && blocks[4] + blocks[5] == r
    ensures Paired(blocks) == [p, q, r]
  {
    var got := Paired(blocks);
    assert got[0] == p && got[1] == q && got[2] == r;
  }

  lemma {:induction false} PairOfEight(blocks: seq<seq<Word>>, p: seq<Word>, q: seq<Word>, r: seq<Word>, s: seq<Word>)
    requires |blocks| == 8 && blocks[0] + blocks[1] == p && blocks[2] + blocks[3] == q
    requires blocks[4] + blocks[5] == r && blocks[6] + blocks[7] == s
    ensures Paired(blocks) == [p, q, r, s]
  {
    var got := Paired(blocks);
    assert got[0] == p && got[1] == q && got[2] == r && got[3] == s;
  }
}
