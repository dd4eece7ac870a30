// Block commitments: edgegrid/da.py, `merkle_root`, `merkle_proof`, `verify_proof`.
//
// The code works level by level on digests. Beside it stands the symbolic tree that
// the levels build, `TreeOf(leaves)`: the root is the hash of that tree, and every
// binding property is proved by induction on it.

module MerkleTree {
  import opened ByteStrings

  // ---------------------------------------------------------------- hashing

  function LeafInput(data: Bytes): Bytes { [0] + data }

  function NodeInput(a: Bytes, b: Bytes): Bytes { [1] + a + b }

  function LeafHash(sha: Hash, data: Bytes): Digest { sha(LeafInput(data)) }

  function NodeHash(sha: Hash, a: Bytes, b: Bytes): Digest { sha(NodeInput(a, b)) }

  function NodeHasher(sha: Hash): (Digest, Digest) -> Digest {
    (a: Digest, b: Digest) => NodeHash(sha, a, b)
  }

  // ---------------------------------------------------------------- levels

  // One pass over a level: neighbours are joined in pairs, and a last node without a
  // neighbour is joined with itself.
  function Next<T>(level: seq<T>, join: (T, T) -> T): (next: seq<T>)
    ensures |next| == (|level| + 1) / 2
  {
    seq((|level| + 1) / 2, i requires 0 <= i < (|level| + 1) / 2 =>
      join(level[2 * i], if 2 * i + 1 < |level| then level[2 * i + 1] else level[2 * i]))
  }

  function Collapse<T>(level: seq<T>, join: (T, T) -> T): T
    requires level != []
    decreases |level|
  {
    if |level| == 1 then level[0] else Collapse(Next(level, join), join)
  }

  function Map<S, T>(f: S -> T, xs: seq<S>): (ys: seq<T>)
    ensures |ys| == |xs|
  {
    seq(|xs|, i requires 0 <= i < |xs| => f(xs[i]))
  }

  function LeafHasher(sha: Hash): Bytes -> Digest {
    (data: Bytes) => LeafHash(sha, data)
  }

  function LeafHashes(sha: Hash, leaves: seq<Bytes>): seq<Digest> {
    Map(LeafHasher(sha), leaves)
  }

  function Root(sha: Hash, leaves: seq<Bytes>): Digest {
    if leaves == [] then sha([]) else Collapse(LeafHashes(sha, leaves), NodeHasher(sha))
  }

  // ---------------------------------------------------------------- the symbolic tree

  datatype Tree = Leaf(data: Bytes) | Node(left: Tree, right: Tree)

  const MAKE_LEAF: Bytes -> Tree := (data: Bytes) => Leaf(data)
  const MAKE_NODE: (Tree, Tree) -> Tree := (l: Tree, r: Tree) => Node(l, r)

  function HashTree(sha: Hash, t: Tree): Digest {
    match t
    case Leaf(data) => LeafHash(sha, data)
    case Node(l, r) => NodeHash(sha, HashTree(sha, l), HashTree(sha, r))
  }

  function TreeHasher(sha: Hash): Tree -> Digest {
    (t: Tree) => HashTree(sha, t)
  }

  // Every string that is hashed when the tree is.
  function HashedBy(sha: Hash, t: Tree): set<Bytes> {
    match t
    case Leaf(data) => {LeafInput(data)}
    case Node(l, r) =>
      HashedBy(sha, l) + HashedBy(sha, r) + {NodeInput(HashTree(sha, l), HashTree(sha, r))}
  }

  function LeavesOf(t: Tree): set<Bytes> {
    match t
    case Leaf(data) => {data}
    case Node(l, r) => LeavesOf(l) + LeavesOf(r)
  }

  function TreeOf(leaves: seq<Bytes>): Tree
    requires leaves != []
  {
    Collapse(Map(MAKE_LEAF, leaves), MAKE_NODE)
  }

  // The strings hashed by `merkle_root(leaves)`.
  function RootInputs(sha: Hash, leaves: seq<Bytes>): set<Bytes> {
    if leaves == [] then {[]} else HashedBy(sha, TreeOf(leaves))
  }

  // ---------------------------------------------------------------- levels and trees agree

  ghost predicate Homomorphic<S(!new), T>(f: S -> T, joinS: (S, S) -> S, joinT: (T, T) -> T) {
    forall a, b :: f(joinS(a, b)) == joinT(f(a), f(b))
  }

  lemma {:induction false} CollapseCommutes<S(!new), T>(
      f: S -> T, level: seq<S>, joinS: (S, S) -> S, joinT: (T, T) -> T)
    requires level != [] && Homomorphic(f, joinS, joinT)
    ensures Collapse(Map(f, level), joinT) == f(Collapse(level, joinS))
    decreases |level|
  {
    if |level| > 1 {
      assert Next(Map(f, level), joinT) == Map(f, Next(level, joinS));
      CollapseCommutes(f, Next(level, joinS), joinS, joinT);
    }
  }

  lemma RootIsTreeHash(sha: Hash, leaves: seq<Bytes>)
    requires leaves != []
    ensures Root(sha, leaves) == HashTree(sha, TreeOf(leaves))
  {
    var symbolic := Map(MAKE_LEAF, leaves);
    assert Map(TreeHasher(sha), symbolic) == LeafHashes(sha, leaves);
    CollapseCommutes(TreeHasher(sha), symbolic, MAKE_NODE, NodeHasher(sha));
  }

  lemma {:induction false} LeafOrigin(level: seq<Tree>, d: Bytes) returns (i: nat)
    requires level != [] && d in LeavesOf(Collapse(level, MAKE_NODE))
    ensures i < |level| && d in LeavesOf(level[i])
    decreases |level|
  {
    if |level| == 1 {
      i := 0;
    } else {
      var next := Next(level, MAKE_NODE);
      var j := LeafOrigin(next, d);
      i := if d in LeavesOf(level[2 * j]) then 2 * j else 2 * j + 1;
    }
  }

  // The tree holds none but the given leaves.
  lemma TreeHoldsLeaves(leaves: seq<Bytes>, d: Bytes)
    requires leaves != [] && d in LeavesOf(TreeOf(leaves))
    ensures d in leaves
  {
    var level := Map(MAKE_LEAF, leaves);
    var i := LeafOrigin(level, d);
    assert level[i] == Leaf(leaves[i]);
  }

  // ---------------------------------------------------------------- roots bind

  // A tree is determined by its hash, or the two trees hash a collision between them.
  lemma {:induction false} TreeBinding(sha: Hash, s: Tree, t: Tree)
    requires HashTree(sha, s) == HashTree(sha, t)
    ensures s == t || Collision(sha, HashedBy(sha, s), HashedBy(sha, t))
  {
    var x, y := TopInput(sha, s), TopInput(sha, t);
    if x != y {
      CollisionFound(sha, HashedBy(sha, s), HashedBy(sha, t), x, y);
    } else {
      assert (x[0] == 0 <==> s.Leaf?) && (y[0] == 0 <==> t.Leaf?);
      match (s, t) {
        case (Leaf(c), Leaf(d)) => assert c == x[1..] && d == y[1..];
        case (Leaf(_), Node(_, _)) =>
        case (Node(_, _), Leaf(_)) =>
        case (Node(a, b), Node(c, d)) =>
          assert x[1..33] == HashTree(sha, a) && y[1..33] == HashTree(sha, c);
          assert x[33..] == HashTree(sha, b) && y[33..] == HashTree(sha, d);
          TreeBinding(sha, a, c);
          TreeBinding(sha, b, d);
          if a != c {
            CollisionMonotone(sha, HashedBy(sha, a), HashedBy(sha, c), HashedBy(sha, s), HashedBy(sha, t));
          } else if b != d {
            CollisionMonotone(sha, HashedBy(sha, b), HashedBy(sha, d), HashedBy(sha, s), HashedBy(sha, t));
          }
      }
    }
  }

  function TopInput(sha: Hash, t: Tree): (x: Bytes)
    ensures x in HashedBy(sha, t) && sha(x) == HashTree(sha, t)
  {
    match t
    case Leaf(data) => LeafInput(data)
    case Node(l, r) => NodeInput(HashTree(sha, l), HashTree(sha, r))
  }

  lemma {:induction false} NextInjective(s: seq<Tree>, t: seq<Tree>)
    requires |s| == |t| && Next(s, MAKE_NODE) == Next(t, MAKE_NODE)
    ensures s == t
  {
    forall i | 0 <= i < |s| ensures s[i] == t[i] {
      assert Next(s, MAKE_NODE)[i / 2] == Next(t, MAKE_NODE)[i / 2];
    }
  }

  lemma {:induction false} CollapseInjective(s: seq<Tree>, t: seq<Tree>)
    requires |s| == |t| > 0
    requires Collapse(s, MAKE_NODE) == Collapse(t, MAKE_NODE)
    ensures s == t
    decreases |s|
  {
    if |s| > 1 {
      CollapseInjective(Next(s, MAKE_NODE), Next(t, MAKE_NODE));
      NextInjective(s, t);
    }
  }

  // Two blocks with as many blobs each and one root hold the same blobs in the same
  // order, or they exhibit a collision.
  lemma RootBinding(sha: Hash, a: seq<Bytes>, b: seq<Bytes>)
    requires |a| == |b| && Root(sha, a) == Root(sha, b)
    ensures a == b || Collision(sha, RootInputs(sha, a), RootInputs(sha, b))
  {
    if a != [] {
      RootIsTreeHash(sha, a);
      RootIsTreeHash(sha, b);
      TreeBinding(sha, TreeOf(a), TreeOf(b));
      if TreeOf(a) == TreeOf(b) {
        var s, t := Map(MAKE_LEAF, a), Map(MAKE_LEAF, b);
        CollapseInjective(s, t);
        forall i | 0 <= i < |a| ensures a[i] == b[i] {
          assert s[i] == t[i];
        }
      }
    }
  }

  // ---------------------------------------------------------------- roots that coincide

  function Frontier(t: Tree): seq<Bytes> {
    match t
    case Leaf(data) => [data]
    case Node(l, r) => Frontier(l) + Frontier(r)
  }

  // The leaf list with every odd tail written out: what was joined with itself at
  // some level appears twice.
  function Padded(leaves: seq<Bytes>): seq<Bytes>
    requires leaves != []
  {
    Collapse(Map((data: Bytes) => [data], leaves), (a: seq<Bytes>, b: seq<Bytes>) => a + b)
  }

  lemma FrontierIsPadded(leaves: seq<Bytes>)
    requires leaves != []
    ensures Frontier(TreeOf(leaves)) == Padded(leaves)
  {
    var frontier := (t: Tree) => Frontier(t);
    var append := (a: seq<Bytes>, b: seq<Bytes>) => a + b;
    var symbolic := Map(MAKE_LEAF, leaves);
    assert Map(frontier, symbolic) == Map((data: Bytes) => [data], leaves);
    CollapseCommutes(frontier, symbolic, MAKE_NODE, append);
  }

  ghost predicate Perfect(t: Tree, height: nat) {
    match t
    case Leaf(_) => height == 0
    case Node(l, r) => height > 0 && Perfect(l, height - 1) && Perfect(r, height - 1)
  }

  lemma {:induction false} CollapseIsPerfect(level: seq<Tree>, height: nat) returns (top: nat)
    requires level != [] && forall t :: t in level ==> Perfect(t, height)
    ensures Perfect(Collapse(level, MAKE_NODE), top)
    decreases |level|
  {
    if |level| == 1 {
      top := height;
    } else {
      top := CollapseIsPerfect(Next(level, MAKE_NODE), height + 1);
    }
  }

  function Width(height: nat): nat {
    if height == 0 then 1 else 2 * Width(height - 1)
  }

  lemma {:induction false} WidthGrows(m: nat, n: nat)
    requires m < n
    ensures 0 < Width(m) < Width(n)
    decreases n
  {
    if m == 0 {
      if n > 1 {
        WidthGrows(0, n - 1);
      }
    } else {
      WidthGrows(m - 1, n - 1);
    }
  }

  lemma {:induction false} FrontierWidth(t: Tree, height: nat)
    requires Perfect(t, height)
    ensures |Frontier(t)| == Width(height)
    decreases height
  {
    if t.Node? {
      FrontierWidth(t.left, height - 1);
      FrontierWidth(t.right, height - 1);
    }
  }

  lemma {:induction false} FrontierInjective(s: Tree, t: Tree, height: nat)
    requires Perfect(s, height) && Perfect(t, height) && Frontier(s) == Frontier(t)
    ensures s == t
    decreases height
  {
    if s.Leaf? {
      assert Frontier(s)[0] == Frontier(t)[0];
    } else {
      FrontierWidth(s.left, height - 1);
      FrontierWidth(t.left, height - 1);
      var k := |Frontier(s.left)|;
      assert Frontier(s.left) == Frontier(s)[..k] == Frontier(t)[..k] == Frontier(t.left);
      assert Frontier(s.right) == Frontier(s)[k..] == Frontier(t)[k..] == Frontier(t.right);
      FrontierInjective(s.left, t.left, height - 1);
      FrontierInjective(s.right, t.right, height - 1);
    }
  }

  lemma PaddingFixesTree(a: seq<Bytes>, b: seq<Bytes>)
    requires a != [] && b != [] && Padded(a) == Padded(b)
    ensures TreeOf(a) == TreeOf(b)
  {
    FrontierIsPadded(a);
    FrontierIsPadded(b);
    var m := CollapseIsPerfect(Map(MAKE_LEAF, a), 0);
    var n := CollapseIsPerfect(Map(MAKE_LEAF, b), 0);
    FrontierWidth(TreeOf(a), m);
    FrontierWidth(TreeOf(b), n);
    if m < n {
      WidthGrows(m, n);
    } else if n < m {
      WidthGrows(n, m);
    } else {
      FrontierInjective(TreeOf(a), TreeOf(b), m);
    }
  }

  // Exactly which blocks share a root: those that pad to the same list. Blocks of
  // different lengths may; two blocks of one length never do unless they are equal.
  lemma RootsCoincide(sha: Hash, a: seq<Bytes>, b: seq<Bytes>)
    requires a != [] && b != []
    ensures Padded(a) == Padded(b) ==> Root(sha, a) == Root(sha, b)
    ensures Root(sha, a) == Root(sha, b) ==>
              Padded(a) == Padded(b) || Collision(sha, RootInputs(sha, a), RootInputs(sha, b))
  {
    RootIsTreeHash(sha, a);
    RootIsTreeHash(sha, b);
    FrontierIsPadded(a);
    FrontierIsPadded(b);
    if Padded(a) == Padded(b) {
      PaddingFixesTree(a, b);
    } else if Root(sha, a) == Root(sha, b) {
      TreeBinding(sha, TreeOf(a), TreeOf(b));
    }
  }

  // The smallest pair of different blocks with one root.
  lemma OddTailSharesRoot(sha: Hash, a: Bytes, b: Bytes, c: Bytes)
    ensures Root(sha, [a, b, c]) == Root(sha, [a, b, c, c])
  {
    var three, four := LeafHashes(sha, [a, b, c]), LeafHashes(sha, [a, b, c, c]);
    assert Next(three, NodeHasher(sha)) == Next(four, NodeHasher(sha));
  }
}
