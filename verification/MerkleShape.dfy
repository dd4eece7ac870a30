// The root of a block, byte by byte: edgegrid/da.py, `_leaf_hash`, `_node_hash`,
// `merkle_root`.
//
// The code works upwards, level by level. The reference here works downwards, halving the
// block, and spells out every string that is hashed.

module MerkleShape {
  import opened ByteStrings
  import opened MerkleTree

  // The root over a block of at most 2 to the `k` blobs, drawn as a tree of height `k`. A
  // block that fits into the left half stands in both.
  function HalvedRoot(sha: Hash, leaves: seq<Bytes>, k: nat): Digest
    requires 0 < |leaves| <= Width(k)
  {
    if k == 0 then sha([0] + leaves[0])
    else if |leaves| <= Width(k - 1) then
      var half := HalvedRoot(sha, leaves, k - 1);
      sha([1] + half + half)
    else
      sha([1] + HalvedRoot(sha, leaves[..Width(k - 1)], k - 1) + HalvedRoot(sha, leaves[Width(k - 1)..], k - 1))
  }

  // The same on a level of digests.
  function HalvedLevel(sha: Hash, level: seq<Digest>, k: nat): Digest
    requires 0 < |level| <= Width(k)
  {
    if k == 0 then level[0]
    else if |level| <= Width(k - 1) then
      var half := HalvedLevel(sha, level, k - 1);
      sha([1] + half + half)
    else
      sha([1] + HalvedLevel(sha, level[..Width(k - 1)], k - 1) + HalvedLevel(sha, level[Width(k - 1)..], k - 1))
  }

  lemma {:induction false} HalvedLeaves(sha: Hash, leaves: seq<Bytes>, k: nat)
    requires 0 < |leaves| <= Width(k)
    ensures HalvedLevel(sha, LeafHashes(sha, leaves), k) == HalvedRoot(sha, leaves, k)
    decreases k
  {
    if k > 0 {
      if |leaves| <= Width(k - 1) {
        HalvedLeaves(sha, leaves, k - 1);
      } else {
        var w := Width(k - 1);
        HalvedLeaves(sha, leaves[..w], k - 1);
        HalvedLeaves(sha, leaves[w..], k - 1);
        assert LeafHashes(sha, leaves)[..w] == LeafHashes(sha, leaves[..w]);
        assert LeafHashes(sha, leaves)[w..] == LeafHashes(sha, leaves[w..]);
      }
    }
  }

  // A level that is cut at an even place is paired on both sides of the cut.
  lemma NextSplits(sha: Hash, level: seq<Digest>, half: nat)
    requires 2 * half <= |level|
    ensures Next(level, NodeHasher(sha))[..half] == Next(level[..2 * half], NodeHasher(sha))
    ensures Next(level, NodeHasher(sha))[half..] == Next(level[2 * half..], NodeHasher(sha))
  {
    var rest := level[2 * half..];
    forall i | 0 <= i < |Next(rest, NodeHasher(sha))|
      ensures Next(level, NodeHasher(sha))[half..][i] == Next(rest, NodeHasher(sha))[i]
    {
      RestPair(sha, level, half, rest, i);
    }
  }

  lemma RestPair(sha: Hash, level: seq<Digest>, half: nat, rest: seq<Digest>, i: nat)
    requires 2 * half <= |level| && rest == level[2 * half..] && i < |Next(rest, NodeHasher(sha))|
    ensures half + i < |Next(level, NodeHasher(sha))|
    ensures Next(level, NodeHasher(sha))[half + i] == Next(rest, NodeHasher(sha))[i]
  {
    assert rest[2 * i] == level[2 * (half + i)];
  }

  lemma {:induction false} OnePair(sha: Hash, level: seq<Digest>)
    requires 0 < |level| <= 2
    ensures HalvedLevel(sha, level, 1) == Next(level, NodeHasher(sha))[0]
  {
    assert Width(0) == 1;
  }

  lemma {:induction false} HalvedDoubles(sha: Hash, level: seq<Digest>, top: nat, k: nat)
    requires top == k + 1 && 0 < |level| <= Width(k)
    ensures |level| <= Width(top)
    ensures HalvedLevel(sha, level, top) == sha([1] + HalvedLevel(sha, level, k) + HalvedLevel(sha, level, k))
  {
  }

  lemma {:induction false} WidthIsPositive(k: nat)
    ensures Width(k) > 0
  {
    if k > 0 {
      WidthIsPositive(k - 1);
    }
  }

  // One pass over a level lowers the tree by one.
  lemma {:induction false} NextHalves(sha: Hash, level: seq<Digest>, next: seq<Digest>, top: nat, k: nat)
    requires top == k + 1 && 0 < |level| <= Width(top) && next == Next(level, NodeHasher(sha))
    ensures |next| <= Width(k) && HalvedLevel(sha, level, top) == HalvedLevel(sha, next, k)
    decreases k, 1
  {
    if k == 0 {
      OnePair(sha, level);
    } else if |level| <= Width(k) {
      NextHalvesOnce(sha, level, next, top, k, k - 1);
    } else {
      NextHalvesTwice(sha, level, next, top, k, k - 1);
    }
  }

  lemma {:induction false} NextHalvesOnce(sha: Hash, level: seq<Digest>, next: seq<Digest>, top: nat, k: nat,
                                          below: nat)
    requires top == k + 1 && k == below + 1
    requires 0 < |level| <= Width(k) && next == Next(level, NodeHasher(sha))
    ensures |level| <= Width(top) && |next| <= Width(k)
    ensures HalvedLevel(sha, level, top) == HalvedLevel(sha, next, k)
    decreases k, 0
  {
    NextHalves(sha, level, next, k, below);
    HalvedDoubles(sha, level, top, k);
    HalvedDoubles(sha, next, k, below);
  }

  lemma {:induction false} NextHalvesTwice(sha: Hash, level: seq<Digest>, next: seq<Digest>, top: nat, k: nat,
                                           below: nat)
    requires top == k + 1 && k == below + 1
    requires Width(k) < |level| <= Width(top) && next == Next(level, NodeHasher(sha))
    ensures |next| <= Width(k) && HalvedLevel(sha, level, top) == HalvedLevel(sha, next, k)
    decreases k, 0
  {
    NextParts(sha, level, top, k, below, next);
    NextHalves(sha, level[..Width(k)], next[..Width(below)], k, below);
    NextHalves(sha, level[Width(k)..], next[Width(below)..], k, below);
    BothHalves(sha, level, top, k, level[..Width(k)], level[Width(k)..],
               next, below, next[..Width(below)], next[Width(below)..]);
  }

  // The two halves of a level of height `top`.
  predicate Halves(level: seq<Digest>, top: nat, k: nat, left: seq<Digest>, right: seq<Digest>) {
    && top == k + 1 && Width(k) < |level| <= Width(top) && left == level[..Width(k)] && right == level[Width(k)..]
    && 0 < |left| <= Width(k) && 0 < |right| <= Width(k)
  }

  lemma {:induction false} HalvedJoins(sha: Hash, level: seq<Digest>, top: nat, k: nat, left: seq<Digest>,
                                       right: seq<Digest>)
    requires Halves(level, top, k, left, right)
    ensures HalvedLevel(sha, level, top) == sha([1] + HalvedLevel(sha, left, k) + HalvedLevel(sha, right, k))
  {
  }

  lemma {:induction false} NextParts(sha: Hash, level: seq<Digest>, top: nat, k: nat, below: nat, next: seq<Digest>)
    requires top == k + 1 && k == below + 1
    requires Width(k) < |level| <= Width(top) && next == Next(level, NodeHasher(sha))
    ensures Halves(level, top, k, level[..Width(k)], level[Width(k)..])
    ensures |next| <= Width(k) && Halves(next, k, below, next[..Width(below)], next[Width(below)..])
    ensures next[..Width(below)] == Next(level[..Width(k)], NodeHasher(sha))
    ensures next[Width(below)..] == Next(level[Width(k)..], NodeHasher(sha))
  {
    WidthIsPositive(k);
    WidthIsPositive(below);
    NextSplits(sha, level, Width(below));
  }

  lemma {:induction false} BothHalves(sha: Hash, level: seq<Digest>, top: nat, k: nat, left: seq<Digest>,
                                      right: seq<Digest>, next: seq<Digest>, below: nat, nextLeft: seq<Digest>,
                                      nextRight: seq<Digest>)
    requires Halves(level, top, k, left, right) && Halves(next, k, below, nextLeft, nextRight)
    requires |nextLeft| <= Width(below) && HalvedLevel(sha, left, k) == HalvedLevel(sha, nextLeft, below)
    requires |nextRight| <= Width(below) && HalvedLevel(sha, right, k) == HalvedLevel(sha, nextRight, below)
    ensures HalvedLevel(sha, level, top) == HalvedLevel(sha, next, k)
  {
    HalvedJoins(sha, level, top, k, left, right);
    HalvedJoins(sha, next, k, below, nextLeft, nextRight);
  }

  lemma {:induction false} CollapseHalves(sha: Hash, level: seq<Digest>, k: nat)
    requires 0 < |level| <= Width(k) && (k > 0 ==> Width(k - 1) < |level|)
    ensures Collapse(level, NodeHasher(sha)) == HalvedLevel(sha, level, k)
    decreases k, 1
  {
    if k == 0 {
      OneIsLeft(sha, level);
    } else {
      NextIsWide(level, k, k - 1);
      CollapseOneMore(sha, level, Next(level, NodeHasher(sha)), k, k - 1);
    }
  }

  lemma {:induction false} CollapseOneMore(sha: Hash, level: seq<Digest>, next: seq<Digest>, k: nat, below: nat)
    requires k == below + 1 && 1 < |level| <= Width(k) && next == Next(level, NodeHasher(sha))
    requires 0 < |next| <= Width(below) && (below > 0 ==> Width(below - 1) < |next|)
    ensures Collapse(level, NodeHasher(sha)) == HalvedLevel(sha, level, k)
    decreases k, 0
  {
    CollapseHalves(sha, next, below);
    NextHalves(sha, level, next, k, below);
    CollapseNext(sha, level);
  }

  lemma {:induction false} NextIsWide(level: seq<Digest>, k: nat, below: nat)
    requires k == below + 1 && Width(below) < |level| <= Width(k)
    ensures |level| > 1 && 0 < (|level| + 1) / 2 <= Width(below)
    ensures below > 0 ==> Width(below - 1) < (|level| + 1) / 2
  {
    WidthIsPositive(below);
  }

  lemma {:induction false} OneIsLeft(sha: Hash, level: seq<Digest>)
    requires |level| == 1
    ensures Collapse(level, NodeHasher(sha)) == HalvedLevel(sha, level, 0)
  {
  }

  lemma {:induction false} CollapseNext(sha: Hash, level: seq<Digest>)
    requires |level| > 1
    ensures Collapse(level, NodeHasher(sha)) == Collapse(Next(level, NodeHasher(sha)), NodeHasher(sha))
  {
  }

  // The root of every block, whatever its length; that of the empty one hashes nothing.
  lemma RootIsHalved(sha: Hash, leaves: seq<Bytes>, k: nat)
    requires 0 < |leaves| <= Width(k) && (k > 0 ==> Width(k - 1) < |leaves|)
    ensures Root(sha, leaves) == HalvedRoot(sha, leaves, k)
    ensures Root(sha, []) == sha([])
  {
    CollapseHalves(sha, LeafHashes(sha, leaves), k);
    HalvedLeaves(sha, leaves, k);
  }

  // Two blocks of one power of two, side by side.
  lemma {:induction false} RootOfHalves(sha: Hash, a: seq<Bytes>, b: seq<Bytes>, k: nat)
    requires |a| == |b| == Width(k)
    ensures Root(sha, a + b) == sha([1] + Root(sha, a) + Root(sha, b))
    ensures k == 0 ==> Root(sha, a) == sha([0] + a[0])
  {
    if k > 0 {
      WidthGrows(k - 1, k);
    }
    RootIsHalved(sha, a, k);
    RootIsHalved(sha, b, k);
    RootIsHalved(sha, a + b, k + 1);
    assert (a + b)[..Width(k)] == a && (a + b)[Width(k)..] == b;
  }
}
