// What the tree of a file says of itself, block by block: edgegrid/weights.py, `_Node`,
// `_cid`, `_leaf`, `_internal`, `_build_file_dag`.

module DagSizes {
  import opened Base32
  import opened Base58
  import opened ByteStrings
  import opened CidBinding
  import opened DagBuilder
  import opened DagPb
  import opened DagWire

  // ---------------------------------------------------------------- independent measures

  // The bytes of payload below a node, and the bytes of all its blocks.
  function Payload(dag: Dag): nat
    decreases dag, 1
  {
    match dag
    case Chunk(data) => |data|
    case Inner(children) => PayloadOfAll(children)
  }

  function PayloadOfAll(dags: seq<Dag>): nat
    decreases dags, 0
  {
    if dags == [] then 0 else Payload(dags[0]) + PayloadOfAll(dags[1..])
  }

  function Stored(sha: Hash, layout: Layout, dag: Dag): nat
    requires Supported(layout)
    decreases dag, 1
  {
    |TopBlock(sha, layout, dag)| +
    match dag
    case Chunk(data) => 0
    case Inner(children) => StoredOfAll(sha, layout, children)
  }

  function StoredOfAll(sha: Hash, layout: Layout, dags: seq<Dag>): nat
    requires Supported(layout)
    decreases dags, 0
  {
    if dags == [] then 0 else Stored(sha, layout, dags[0]) + StoredOfAll(sha, layout, dags[1..])
  }

  // The binary CID of a block, byte by byte: SHA-256 is 0x12 and 32 bytes long, a raw block
  // is 0x55 and a dag-pb block 0x70.
  function CidOf(sha: Hash, layout: Layout, dag: Dag): Bytes
    requires Supported(layout)
  {
    var digest := sha(TopBlock(sha, layout, dag));
    if layout.version == 0 then [0x12, 0x20] + digest
    else if layout.rawLeaves && dag.Chunk? then [1, 0x55, 0x12, 0x20] + digest
    else [1, 0x70, 0x12, 0x20] + digest
  }

  // ---------------------------------------------------------------- nodes measure their trees

  lemma {:induction false} InnerNodeIs(sha: Hash, layout: Layout, children: seq<Dag>)
    requires Supported(layout)
    ensures NodeOf(sha, layout, Inner(children)) == InnerNode(sha, layout.version, NodesOf(sha, layout, children))
  {
    assert NodesOf(sha, layout, children) ==
           seq(|children|, i requires 0 <= i < |children| => NodeOf(sha, layout, children[i]));
  }

  lemma {:induction false} NodesFront(sha: Hash, layout: Layout, dags: seq<Dag>)
    requires Supported(layout) && dags != []
    ensures NodesOf(sha, layout, dags) == [NodeOf(sha, layout, dags[0])] + NodesOf(sha, layout, dags[1..])
  {
  }

  lemma SumsFront(first: Node, rest: seq<Node>)
    ensures SumOf(FileSizes([first] + rest)) == first.filesize + SumOf(FileSizes(rest))
    ensures SumOf(Cumulatives([first] + rest)) == first.cumulative + SumOf(Cumulatives(rest))
  {
    assert FileSizes([first] + rest)[1..] == FileSizes(rest);
    assert Cumulatives([first] + rest)[1..] == Cumulatives(rest);
  }

  // The sizes a node carries are those of its tree, counted block by block.
  lemma {:induction false} NodeMeasures(sha: Hash, layout: Layout, dag: Dag)
    requires Supported(layout)
    ensures var node := NodeOf(sha, layout, dag);
            && node.blockLen == |TopBlock(sha, layout, dag)| && node.filesize == Payload(dag)
            && node.cumulative == Stored(sha, layout, dag)
    decreases dag, 1
  {
    if dag.Inner? {
      InnerNodeIs(sha, layout, dag.children);
      NodesMeasure(sha, layout, dag.children);
    }
  }

  lemma {:induction false} NodesMeasure(sha: Hash, layout: Layout, dags: seq<Dag>)
    requires Supported(layout)
    ensures SumOf(FileSizes(NodesOf(sha, layout, dags))) == PayloadOfAll(dags)
    ensures SumOf(Cumulatives(NodesOf(sha, layout, dags))) == StoredOfAll(sha, layout, dags)
    decreases dags, 0
  {
    if dags != [] {
      NodeMeasures(sha, layout, dags[0]);
      NodesMeasure(sha, layout, dags[1..]);
      NodesFront(sha, layout, dags);
      SumsFront(NodeOf(sha, layout, dags[0]), NodesOf(sha, layout, dags[1..]));
    }
  }

  lemma {:induction false} NodeIsNamed(sha: Hash, layout: Layout, dag: Dag)
    requires Supported(layout)
    ensures NodeOf(sha, layout, dag).cidBytes == CidOf(sha, layout, dag)
  {
    TopCid(sha, layout, dag);
    CidSpelt(sha, layout.version, TopCodec(layout, dag), TopBlock(sha, layout, dag));
  }

  lemma CidSpelt(sha: Hash, version: nat, codec: Codec, block: Bytes)
    requires version == 0 ==> codec.DagPbCodec?
    ensures CidBytes(sha, version, codec, block) ==
            if version == 0 then [0x12, 0x20] + sha(block)
            else if codec.RawCodec? then [1, 0x55, 0x12, 0x20] + sha(block)
            else [1, 0x70, 0x12, 0x20] + sha(block)
  {
  }

  // ---------------------------------------------------------------- blocks describe their trees

  // What an inner block has to say of a child: where it is, and how much hangs there.
  function Described(sha: Hash, layout: Layout, dags: seq<Dag>): seq<Link>
    requires Supported(layout)
  {
    seq(|dags|, i requires 0 <= i < |dags| => Link(CidOf(sha, layout, dags[i]), [], Stored(sha, layout, dags[i])))
  }

  function Payloads(dags: seq<Dag>): seq<nat> {
    seq(|dags|, i requires 0 <= i < |dags| => Payload(dags[i]))
  }

  // The block of an inner node, read back: a link for each child in order, by the CID of the
  // child's own block and with the bytes of all blocks below, and the payload of each child
  // and of all.
  lemma {:induction false} InnerDescribes(sha: Hash, layout: Layout, children: seq<Dag>)
    requires Supported(layout)
    ensures ReadBlock(TopBlock(sha, layout, Inner(children))) ==
            Some(Block(Described(sha, layout, children),
                       Message(2, None, PayloadOfAll(children), Payloads(children))))
  {
    var nodes := NodesOf(sha, layout, children);
    InnerBlockReads(nodes);
    NodesMeasure(sha, layout, children);
    forall i | 0 <= i < |children|
      ensures LinksTo(nodes)[i] == Described(sha, layout, children)[i] && FileSizes(nodes)[i] == Payloads(children)[i]
    {
      NodeIsNamed(sha, layout, children[i]);
      NodeMeasures(sha, layout, children[i]);
    }
    assert LinksTo(nodes) == Described(sha, layout, children) && FileSizes(nodes) == Payloads(children);
  }

  // ---------------------------------------------------------------- the whole file

  lemma {:induction false} PayloadOfLeaves(dag: Dag)
    ensures Payload(dag) == |Concat(LeavesOf(dag))|
    decreases dag, 1
  {
    match dag {
      case Chunk(data) =>
        assert LeavesOf(dag) == [data] && Concat([data][1..]) == [];
      case Inner(children) => PayloadsOfLeaves(children);
    }
  }

  lemma {:induction false} PayloadsOfLeaves(dags: seq<Dag>)
    ensures PayloadOfAll(dags) == |Concat(LeavesOfAll(dags))|
    decreases dags, 0
  {
    if dags != [] {
      PayloadOfLeaves(dags[0]);
      PayloadsOfLeaves(dags[1..]);
      ConcatAppend(LeavesOf(dags[0]), LeavesOfAll(dags[1..]));
    }
  }

  lemma {:induction false} ConcatAppend(a: seq<Bytes>, b: seq<Bytes>)
    ensures Concat(a + b) == Concat(a) + Concat(b)
    decreases |a|
  {
    if a == [] {
      assert a + b == b;
    } else {
      ConcatAppend(a[1..], b);
      assert (a + b)[1..] == a[1..] + b;
    }
  }

  // The root that is built for a file carries the file's size, the size of all blocks, and
  // the CID of its block, printed by version.
  lemma {:induction false} FileRoot(sha: Hash, layout: Layout, data: Bytes)
    requires Supported(layout)
    ensures var root, dag := FileNode(sha, layout, ChunkBytes(data)), DagOf(ChunkBytes(data));
            && root.filesize == |data| && root.cumulative == Stored(sha, layout, dag)
            && root.blockLen == |TopBlock(sha, layout, dag)| && root.cidBytes == CidOf(sha, layout, dag)
            && (layout.version == 0 ==> Decode58(root.cid) == Some(root.cidBytes))
            && (layout.version != 0 ==> |root.cid| > 0 && root.cid[0] == 'b'
                                        && Decode32(root.cid[1..]) == Some(root.cidBytes))
  {
    var chunks := ChunkBytes(data);
    FileNodeIsDag(sha, layout, chunks);
    NodeMeasures(sha, layout, DagOf(chunks));
    NodeIsNamed(sha, layout, DagOf(chunks));
    FilePayload(data);
    NodeText(sha, layout, DagOf(chunks));
    Decode58InvertsBase58(CidOf(sha, layout, DagOf(chunks)));
    Decode32InvertsBase32(CidOf(sha, layout, DagOf(chunks)));
  }

  lemma {:induction false} NodeText(sha: Hash, layout: Layout, dag: Dag)
    requires Supported(layout)
    ensures var node := NodeOf(sha, layout, dag);
            node.cid == if layout.version == 0 then Base58.Base58(node.cidBytes) else "b" + Base32.Base32(node.cidBytes)
  {
    if dag.Inner? {
      InnerNodeIs(sha, layout, dag.children);
    }
  }

  lemma {:induction false} FilePayload(data: Bytes)
    ensures Payload(DagOf(ChunkBytes(data))) == |data|
  {
    var chunks := ChunkBytes(data);
    PayloadOfLeaves(DagOf(chunks));
    ChunksConcat(data);
    if chunks != [] {
      var _ := FileTreeShape(chunks);
    } else {
      assert LeavesOf(Chunk([])) == [[]] && Concat([[]]) == [];
    }
  }
}
