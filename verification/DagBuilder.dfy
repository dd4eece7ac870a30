// The balanced builder: edgegrid/weights.py, `_fill`, `_build_file_dag`,
// `_chunk_bytes`.
//
// The code streams: it re-roots the tree whenever the current one is full. The
// reference is the plain construction that groups a whole level into runs of
// `MAX_LINKS`, level after level, until one node is left.

module DagBuilder {
  import opened ByteStrings
  import opened DagPb

  const CHUNK_SIZE: nat := 262_144
  const MAX_LINKS: nat := 174

  // The first entry of group `j`, and the number of groups of a level.
  function First(j: nat): nat { j * 174 }

  function GroupCount(n: nat): nat { (n + 173) / 174 }

  // ---------------------------------------------------------------- level by level

  function Min(a: nat, b: nat): nat { if a <= b then a else b }

  function Group<T>(level: seq<T>, j: nat): seq<T>
    requires First(j) <= |level|
  {
    level[First(j)..Min(First(j + 1), |level|)]
  }

  function NextLevel<T>(level: seq<T>, parent: seq<T> -> T): (next: seq<T>)
    ensures |next| == GroupCount(|level|)
  {
    seq(GroupCount(|level|), j requires 0 <= j < GroupCount(|level|) => parent(Group(level, j)))
  }

  function Level<T>(leaves: seq<T>, parent: seq<T> -> T, k: nat): seq<T> {
    if k == 0 then leaves else NextLevel(Level(leaves, parent, k - 1), parent)
  }

  function Top<T>(level: seq<T>, parent: seq<T> -> T): T
    requires |level| > 0
    decreases |level|
  {
    if |level| == 1 then level[0] else Top(NextLevel(level, parent), parent)
  }

  // Every level below the given one has more than one node.
  ghost predicate WideBelow<T>(leaves: seq<T>, parent: seq<T> -> T, k: nat) {
    k == 0 || (WideBelow(leaves, parent, k - 1) && |Level(leaves, parent, k - 1)| > 1)
  }

  lemma {:induction false} TopIsALevel<T>(leaves: seq<T>, parent: seq<T> -> T, k: nat)
    requires |leaves| > 0 && WideBelow(leaves, parent, k)
    ensures |Level(leaves, parent, k)| > 0
    ensures Top(Level(leaves, parent, k), parent) == Top(leaves, parent)
  {
    if k > 0 {
      TopIsALevel(leaves, parent, k - 1);
    }
  }

  // ---------------------------------------------------------------- streaming

  // The leaf at which node `j` of level `k` begins, cut off at the number of leaves.
  function Start(n: nat, k: nat, j: nat): nat {
    if k == 0 then Min(j, n) else Start(n, k - 1, First(j))
  }

  lemma {:induction false} StartWithin<T>(leaves: seq<T>, parent: seq<T> -> T, k: nat, j: nat)
    ensures Start(|leaves|, k, j) <= |leaves|
    ensures Start(|leaves|, k, j) < |leaves| <==> j < |Level(leaves, parent, k)|
  {
    if k > 0 {
      StartWithin(leaves, parent, k - 1, First(j));
    }
  }

  lemma {:induction false} StartGrows(n: nat, k: nat, j: nat, j': nat)
    requires j < j' && Start(n, k, j) < n
    ensures Start(n, k, j) < Start(n, k, j')
  {
    if k > 0 {
      StartGrows(n, k - 1, First(j), First(j'));
    }
  }

  function Parent(sha: Hash, version: nat): seq<Node> -> Node {
    (children: seq<Node>) => InnerNode(sha, version, children)
  }

  lemma ParentBuilds(sha: Hash, version: nat, children: seq<Node>)
    ensures Parent(sha, version)(children) == InnerNode(sha, version, children)
  {
  }

  // The first children of node `q` of level `depth` are collected, and `i` is the leaf
  // at which the next child begins.
  ghost predicate Filling<T>(leaves: seq<T>, parent: seq<T> -> T, depth: nat, q: nat, children: seq<T>, i: nat) {
    && depth >= 1 && |children| <= MAX_LINKS
    && var below, first := Level(leaves, parent, depth - 1), First(q);
       && first < |below| && first + |children| <= |below|
       && children == below[first..first + |children|]
       && i == Start(|leaves|, depth - 1, first + |children|)
  }

  // `node` is node `q` of level `depth`, and `i` the leaf at which its right neighbour begins.
  ghost predicate Filled<T>(leaves: seq<T>, parent: seq<T> -> T, depth: nat, q: nat, node: T, i: nat) {
    && q < |Level(leaves, parent, depth)| && node == Level(leaves, parent, depth)[q]
    && i == Start(|leaves|, depth, q + 1)
  }

  lemma {:induction false} FillingChild<T>(leaves: seq<T>, parent: seq<T> -> T, depth: nat, q: nat, children: seq<T>,
                                           i: nat)
    requires Filling(leaves, parent, depth, q, children, i) && i < |leaves|
    ensures depth == 1 ==> Filled(leaves, parent, 0, First(q) + |children|, leaves[i], i + 1)
    ensures depth > 1 ==> Filling(leaves, parent, depth - 1, First(q) + |children|, [], i)
  {
    if depth > 1 {
      var next := First(q) + |children|;
      StartWithin(leaves, parent, depth - 1, next);
      StartWithin(leaves, parent, depth - 2, First(next));
    }
  }

  lemma {:induction false} FillingNext<T>(leaves: seq<T>, parent: seq<T> -> T, depth: nat, q: nat, children: seq<T>,
                                          i: nat, child: T, i': nat)
    requires Filling(leaves, parent, depth, q, children, i) && |children| < MAX_LINKS
    requires Filled(leaves, parent, depth - 1, First(q) + |children|, child, i')
    ensures Filling(leaves, parent, depth, q, children + [child], i')
  {
  }

  lemma {:induction false} FillingDone<T>(leaves: seq<T>, parent: seq<T> -> T, depth: nat, q: nat, children: seq<T>,
                                          i: nat)
    requires Filling(leaves, parent, depth, q, children, i) && (i >= |leaves| || |children| == MAX_LINKS)
    ensures Filled(leaves, parent, depth, q, parent(children), i)
  {
    var below, first := Level(leaves, parent, depth - 1), First(q);
    StartWithin(leaves, parent, depth - 1, first + |children|);
    StartWithin(leaves, parent, depth - 1, First(q + 1));
    assert children == Group(below, q);
  }

  // The next child: a leaf, or a subtree filled from nothing.
  method Child(sha: Hash, version: nat, leaves: seq<Node>, start: nat, depth: nat, ghost q: nat)
    returns (child: Node, i: nat)
    requires depth >= 1 && start < |leaves|
    requires depth == 1 ==> Filled(leaves, Parent(sha, version), 0, q, leaves[start], start + 1)
    requires depth > 1 ==> Filling(leaves, Parent(sha, version), depth - 1, q, [], start)
    ensures Filled(leaves, Parent(sha, version), depth - 1, q, child, i)
    decreases depth, 0
  {
    if depth == 1 {
      child, i := leaves[start], start + 1;
    } else {
      child, i := Fill(sha, version, leaves, start, depth - 1, [], q);
    }
  }

  // Node `q` of level `depth`, of which the first children are given.
  method Fill(sha: Hash, version: nat, leaves: seq<Node>, start: nat, depth: nat, given: seq<Node>, ghost q: nat)
    returns (node: Node, i: nat)
    requires Filling(leaves, Parent(sha, version), depth, q, given, start)
    ensures Filled(leaves, Parent(sha, version), depth, q, node, i)
    decreases depth, 1
  {
    ghost var parent := Parent(sha, version);
    var children := given;
    i := start;
    while |children| < MAX_LINKS && i < |leaves|
      invariant Filling(leaves, parent, depth, q, children, i)
      decreases MAX_LINKS - |children|
    {
      FillingChild(leaves, parent, depth, q, children, i);
      var child, next := Child(sha, version, leaves, i, depth, First(q) + |children|);
      FillingNext(leaves, parent, depth, q, children, i, child, next);
      children, i := children + [child], next;
    }
    FillingDone(leaves, parent, depth, q, children, i);
    ParentBuilds(sha, version, children);
    node := InnerNode(sha, version, children);
  }

  function LeafNodes(sha: Hash, layout: Layout, chunks: seq<Bytes>): seq<Node>
    requires Supported(layout)
  {
    seq(|chunks|, i requires 0 <= i < |chunks| => LeafNode(sha, layout, chunks[i]))
  }

  // The root of a file by the level-by-level construction; an empty file is one leaf.
  function FileNode(sha: Hash, layout: Layout, chunks: seq<Bytes>): Node
    requires Supported(layout)
  {
    if chunks == [] then LeafNode(sha, layout, [])
    else Top(LeafNodes(sha, layout, chunks), Parent(sha, layout.version))
  }

  // The tree over the first leaves has depth `depth - 1`, and every level below it has
  // more than one node.
  ghost predicate Rooted<T>(leaves: seq<T>, parent: seq<T> -> T, depth: nat, root: T, i: nat) {
    && depth >= 1 && |Level(leaves, parent, depth - 1)| > 0
    && root == Level(leaves, parent, depth - 1)[0]
    && i == Start(|leaves|, depth - 1, 1)
    && WideBelow(leaves, parent, depth - 1)
  }

  lemma {:induction false} RootedNext<T>(leaves: seq<T>, parent: seq<T> -> T, depth: nat, root: T, i: nat)
    requires Rooted(leaves, parent, depth, root, i) && i < |leaves|
    ensures Filling(leaves, parent, depth, 0, [root], i)
    ensures i < Start(|leaves|, depth, 1) <= |leaves|
    ensures |Level(leaves, parent, depth - 1)| > 1
  {
    StartWithin(leaves, parent, depth - 1, 1);
    StartGrows(|leaves|, depth - 1, 1, MAX_LINKS);
    StartWithin(leaves, parent, depth, 1);
    assert [root] == Level(leaves, parent, depth - 1)[0..1];
  }

  lemma {:induction false} RootedDone<T>(leaves: seq<T>, parent: seq<T> -> T, depth: nat, root: T, i: nat)
    requires |leaves| > 0 && Rooted(leaves, parent, depth, root, i) && i >= |leaves|
    ensures root == Top(leaves, parent)
  {
    StartWithin(leaves, parent, depth - 1, 1);
    TopIsALevel(leaves, parent, depth - 1);
  }

  lemma {:induction false} RootedStep<T>(leaves: seq<T>, parent: seq<T> -> T, depth: nat, root: T, i: nat, root': T,
                                         i': nat)
    requires Rooted(leaves, parent, depth, root, i) && i < |leaves|
    requires |Level(leaves, parent, depth)| > 0 && root' == Level(leaves, parent, depth)[0]
    requires i' == Start(|leaves|, depth, 1)
    ensures Rooted(leaves, parent, depth + 1, root', i')
  {
    StartWithin(leaves, parent, depth - 1, 1);
    assert depth + 1 - 1 == depth;
  }

  method BuildTree(sha: Hash, version: nat, leaves: seq<Node>) returns (root: Node)
    requires leaves != []
    ensures root == Top(leaves, Parent(sha, version))
  {
    ghost var parent := Parent(sha, version);
    var i, depth := 1, 1;
    root := leaves[0];
    while i < |leaves|
      invariant 1 <= i <= |leaves| && Rooted(leaves, parent, depth, root, i)
      decreases |leaves| - i
    {
      ghost var root0, i0 := root, i;
      RootedNext(leaves, parent, depth, root, i);
      root, i := Fill(sha, version, leaves, i, depth, [root], 0);
      RootedStep(leaves, parent, depth, root0, i0, root, i);
      depth := depth + 1;
    }
    RootedDone(leaves, parent, depth, root, i);
  }

  method BuildFileDag(sha: Hash, layout: Layout, chunks: seq<Bytes>) returns (root: Node)
    requires Supported(layout)
    ensures root == FileNode(sha, layout, chunks)
  {
    if chunks == [] {
      root := LeafNode(sha, layout, []);
    } else {
      root := BuildTree(sha, layout.version, LeafNodes(sha, layout, chunks));
    }
  }

  // ---------------------------------------------------------------- the symbolic tree

  datatype Dag = Chunk(data: Bytes) | Inner(children: seq<Dag>)

  function NodeOf(sha: Hash, layout: Layout, dag: Dag): Node
    requires Supported(layout)
  {
    match dag
    case Chunk(data) => LeafNode(sha, layout, data)
    case Inner(children) =>
      InnerNode(sha, layout.version,
                seq(|children|, i requires 0 <= i < |children| => NodeOf(sha, layout, children[i])))
  }

  function NodesOf(sha: Hash, layout: Layout, dags: seq<Dag>): seq<Node>
    requires Supported(layout)
  {
    seq(|dags|, i requires 0 <= i < |dags| => NodeOf(sha, layout, dags[i]))
  }

  const MAKE_INNER: seq<Dag> -> Dag := (children: seq<Dag>) => Inner(children)

  function Chunks(chunks: seq<Bytes>): seq<Dag> {
    seq(|chunks|, i requires 0 <= i < |chunks| => Chunk(chunks[i]))
  }

  function DagOf(chunks: seq<Bytes>): Dag {
    if chunks == [] then Chunk([]) else Top(Chunks(chunks), MAKE_INNER)
  }

  lemma GroupCommutes(sha: Hash, layout: Layout, level: seq<Dag>, j: nat)
    requires Supported(layout) && j < |NextLevel(level, MAKE_INNER)|
    ensures Group(NodesOf(sha, layout, level), j) == NodesOf(sha, layout, Group(level, j))
  {
    SliceCommutes(sha, layout, level, First(j), Min(First(j + 1), |level|));
  }

  lemma SliceCommutes(sha: Hash, layout: Layout, level: seq<Dag>, a: nat, b: nat)
    requires Supported(layout) && a <= b <= |level|
    ensures NodesOf(sha, layout, level)[a..b] == NodesOf(sha, layout, level[a..b])
  {
    forall i | 0 <= i < b - a ensures NodesOf(sha, layout, level)[a..b][i] == NodesOf(sha, layout, level[a..b])[i] {
      NodeAt(sha, layout, level, a + i);
      NodeAt(sha, layout, level[a..b], i);
    }
    SameNodes(NodesOf(sha, layout, level)[a..b], NodesOf(sha, layout, level[a..b]));
  }

  lemma SameNodes(xs: seq<Node>, ys: seq<Node>)
    requires |xs| == |ys| && forall i :: 0 <= i < |xs| ==> xs[i] == ys[i]
    ensures xs == ys
  {
  }

  lemma {:induction false} NodeAt(sha: Hash, layout: Layout, level: seq<Dag>, i: nat)
    requires Supported(layout) && i < |level|
    ensures NodesOf(sha, layout, level)[i] == NodeOf(sha, layout, level[i])
  {
  }

  lemma NextLevelCommutes(sha: Hash, layout: Layout, level: seq<Dag>)
    requires Supported(layout)
    ensures NextLevel(NodesOf(sha, layout, level), Parent(sha, layout.version)) ==
            NodesOf(sha, layout, NextLevel(level, MAKE_INNER))
  {
    var next := NextLevel(level, MAKE_INNER);
    var nodes := NodesOf(sha, layout, level);
    forall j | 0 <= j < |next|
      ensures NextLevel(nodes, Parent(sha, layout.version))[j] == NodeOf(sha, layout, next[j])
    {
      GroupCommutes(sha, layout, level, j);
      assert next[j] == Inner(Group(level, j));
    }
  }

  lemma {:induction false} TopCommutes(sha: Hash, layout: Layout, level: seq<Dag>)
    requires Supported(layout) && level != []
    ensures Top(NodesOf(sha, layout, level), Parent(sha, layout.version)) == NodeOf(sha, layout, Top(level, MAKE_INNER))
    decreases |level|
  {
    if |level| > 1 {
      NextLevelCommutes(sha, layout, level);
      TopCommutes(sha, layout, NextLevel(level, MAKE_INNER));
    }
  }

  // The node built for a file is that of its symbolic tree.
  lemma {:induction false} FileNodeIsDag(sha: Hash, layout: Layout, chunks: seq<Bytes>)
    requires Supported(layout)
    ensures FileNode(sha, layout, chunks) == NodeOf(sha, layout, DagOf(chunks))
  {
    if chunks != [] {
      assert NodesOf(sha, layout, Chunks(chunks)) == LeafNodes(sha, layout, chunks);
      TopCommutes(sha, layout, Chunks(chunks));
    }
  }

  // ---------------------------------------------------------------- leaves in order

  function LeavesOf(dag: Dag): seq<Bytes>
    decreases dag, 1
  {
    match dag
    case Chunk(data) => [data]
    case Inner(children) => LeavesOfAll(children)
  }

  function LeavesOfAll(dags: seq<Dag>): seq<Bytes>
    decreases dags, 0
  {
    if dags == [] then [] else LeavesOf(dags[0]) + LeavesOfAll(dags[1..])
  }

  lemma {:induction false} LeavesOfConcat(a: seq<Dag>, b: seq<Dag>)
    ensures LeavesOfAll(a + b) == LeavesOfAll(a) + LeavesOfAll(b)
    decreases |a|
  {
    if a == [] {
      assert a + b == b;
    } else {
      LeavesOfConcat(a[1..], b);
      assert (a + b)[0] == a[0] && (a + b)[1..] == a[1..] + b;
      Regroup(LeavesOf(a[0]), LeavesOfAll(a[1..]), LeavesOfAll(b));
    }
  }

  lemma Regroup<T>(a: seq<T>, b: seq<T>, c: seq<T>)
    ensures a + (b + c) == a + b + c
  {
  }

  lemma SliceOfRest<T>(s: seq<T>, m: nat, a: nat, b: nat)
    requires m <= a <= b <= |s|
    ensures s[a..b] == s[m..][a - m..b - m]
  {
    forall i | 0 <= i < b - a ensures s[a..b][i] == s[m..][a - m..b - m][i] {
    }
  }

  lemma GroupOfRest<T>(level: seq<T>, j: nat)
    requires |level| > First(j + 1)
    ensures First(j) <= |level| - MAX_LINKS && Group(level, j + 1) == Group(level[MAX_LINKS..], j)
  {
    SliceOfRest(level, MAX_LINKS, First(j + 1), Min(First(j + 2), |level|));
    assert First(j) == First(j + 1) - MAX_LINKS;
    assert Min(First(j + 1), |level| - MAX_LINKS) == Min(First(j + 2), |level|) - MAX_LINKS;
  }

  lemma {:induction false} NextLevelKeepsLeaves(level: seq<Dag>)
    ensures LeavesOfAll(NextLevel(level, MAKE_INNER)) == LeavesOfAll(level)
    decreases |level|
  {
    if level != [] {
      var next, first := NextLevel(level, MAKE_INNER), Group(level, 0);
      var rest := level[|first|..];
      assert next[0] == Inner(first);
      assert next[1..] == NextLevel(rest, MAKE_INNER) by {
        forall j | 0 <= j < |next| - 1 ensures next[j + 1] == NextLevel(rest, MAKE_INNER)[j] {
          GroupOfRest(level, j);
        }
      }
      NextLevelKeepsLeaves(rest);
      LeavesOfConcat(first, rest);
      assert level == first + rest;
    }
  }

  lemma {:induction false} TopKeepsLeaves(level: seq<Dag>)
    requires level != []
    ensures LeavesOf(Top(level, MAKE_INNER)) == LeavesOfAll(level)
    decreases |level|
  {
    if |level| == 1 {
      assert level[1..] == [];
    } else {
      NextLevelKeepsLeaves(level);
      TopKeepsLeaves(NextLevel(level, MAKE_INNER));
    }
  }

  lemma {:induction false} ChunkLeaves(chunks: seq<Bytes>)
    ensures LeavesOfAll(Chunks(chunks)) == chunks
    decreases |chunks|
  {
    if chunks != [] {
      ChunkLeaves(chunks[1..]);
      assert Chunks(chunks)[1..] == Chunks(chunks[1..]);
    }
  }

  // ---------------------------------------------------------------- shape

  // A tree of the given depth with every possible leaf.
  ghost predicate Full(dag: Dag, depth: nat) {
    match dag
    case Chunk(_) => depth == 0
    case Inner(children) =>
      && depth > 0 && |children| == 174
      && forall i :: 0 <= i < |children| ==> Full(children[i], depth - 1)
  }

  // All leaves at one depth, and every subtree full but for those on the right edge.
  ghost predicate Balanced(dag: Dag, depth: nat) {
    match dag
    case Chunk(_) => depth == 0
    case Inner(children) =>
      && depth > 0 && 1 <= |children| <= 174
      && (forall i :: 0 <= i < |children| - 1 ==> Full(children[i], depth - 1))
      && Balanced(children[|children| - 1], depth - 1)
  }

  lemma {:induction false} FullIsBalanced(dag: Dag, depth: nat)
    requires Full(dag, depth)
    ensures Balanced(dag, depth)
    decreases depth
  {
    if dag.Inner? {
      FullIsBalanced(dag.children[MAX_LINKS - 1], depth - 1);
    }
  }

  ghost predicate FullButLast(level: seq<Dag>, depth: nat) {
    && level != []
    && (forall i :: 0 <= i < |level| - 1 ==> Full(level[i], depth))
    && Balanced(level[|level| - 1], depth)
  }

  lemma NextLevelShape(level: seq<Dag>, depth: nat)
    requires FullButLast(level, depth)
    ensures FullButLast(NextLevel(level, MAKE_INNER), depth + 1)
  {
    var next := NextLevel(level, MAKE_INNER);
    forall j | 0 <= j < |next| - 1 ensures Full(next[j], depth + 1) {
      var group := Group(level, j);
      assert next[j] == Inner(group) && |group| == MAX_LINKS;
      forall i | 0 <= i < |group| ensures Full(group[i], depth) {
        assert group[i] == level[First(j) + i];
      }
    }
    var last := |next| - 1;
    var group := Group(level, last);
    assert next[last] == Inner(group);
    assert group[|group| - 1] == level[|level| - 1];
    forall i | 0 <= i < |group| - 1 ensures Full(group[i], depth) {
      assert group[i] == level[First(last) + i];
    }
  }

  lemma {:induction false} TopShape(level: seq<Dag>, depth: nat) returns (top: nat)
    requires FullButLast(level, depth)
    ensures Balanced(Top(level, MAKE_INNER), top)
    ensures |level| > 1 ==> Top(level, MAKE_INNER).Inner? && |Top(level, MAKE_INNER).children| >= 2
    decreases |level|
  {
    if |level| == 1 {
      top := depth;
    } else {
      var next := NextLevel(level, MAKE_INNER);
      NextLevelShape(level, depth);
      top := TopShape(next, depth + 1);
      if |next| == 1 {
        assert Top(next, MAKE_INNER) == Inner(Group(level, 0));
      }
    }
  }

  // The tree of a file: its chunks in order, all at one depth, packed to the left, and
  // no root with a single child.
  lemma FileTreeShape(chunks: seq<Bytes>) returns (depth: nat)
    requires chunks != []
    ensures LeavesOf(DagOf(chunks)) == chunks
    ensures Balanced(DagOf(chunks), depth)
    ensures |chunks| > 1 ==> DagOf(chunks).Inner? && |DagOf(chunks).children| >= 2
  {
    TopKeepsLeaves(Chunks(chunks));
    ChunkLeaves(chunks);
    depth := TopShape(Chunks(chunks), 0);
  }

  // ---------------------------------------------------------------- chunks of a file

  function ChunkBytes(data: Bytes): seq<Bytes> {
    if data == [] then []
    else if |data| <= CHUNK_SIZE then [data]
    else [data[..CHUNK_SIZE]] + ChunkBytes(data[CHUNK_SIZE..])
  }

  function Concat(chunks: seq<Bytes>): Bytes {
    if chunks == [] then [] else chunks[0] + Concat(chunks[1..])
  }

  lemma {:induction false} ChunksConcat(data: Bytes)
    ensures Concat(ChunkBytes(data)) == data
    decreases |data|
  {
    if |data| > CHUNK_SIZE {
      ChunksConcat(data[CHUNK_SIZE..]);
      assert ChunkBytes(data)[1..] == ChunkBytes(data[CHUNK_SIZE..]);
      assert data[..CHUNK_SIZE] + data[CHUNK_SIZE..] == data;
    } else if data != [] {
      assert ChunkBytes(data)[1..] == [];
    }
  }

  // The chunks are cut every 262144 bytes, and only the last may be shorter.
  lemma {:induction false} ChunkAt(data: Bytes, i: nat)
    ensures i < |ChunkBytes(data)| <==> 262_144 * i < |data|
    ensures i < |ChunkBytes(data)| ==> ChunkBytes(data)[i] == data[262_144 * i..Min(262_144 * (i + 1), |data|)]
    decreases i
  {
    if i > 0 && |data| > CHUNK_SIZE {
      var rest := data[CHUNK_SIZE..];
      ChunkAt(rest, i - 1);
      assert ChunkBytes(data) == [data[..CHUNK_SIZE]] + ChunkBytes(rest);
      if i < |ChunkBytes(data)| {
        SliceOfRest(data, CHUNK_SIZE, 262_144 * i, Min(262_144 * (i + 1), |data|));
      }
    }
  }
}
