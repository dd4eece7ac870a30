// What a CID vouches for: edgegrid/weights.py, `cid_for_bytes`, `layouts_for_cid`,
// `verify_cid`, for files.

module CidBinding {
  import opened ByteStrings
  import opened DagPb
  import opened DagBuilder

  // ---------------------------------------------------------------- operations

  // The printed CID of a file; `None` for the layout that raises `UnsupportedDAG`.
  function CidForBytes(sha: Hash, layout: Layout, data: Bytes): Option<string> {
    if Supported(layout) then Some(FileNode(sha, layout, ChunkBytes(data)).cid) else None
  }

  predicate StartsWith(s: string, prefix: string) {
    |s| >= |prefix| && s[..|prefix|] == prefix
  }

  // The layouts a CID can denote, in the order they are tried; `None` for a shape that
  // raises `UnsupportedDAG`.
  function LayoutsForCid(cid: string): (layouts: Option<seq<Layout>>)
    ensures layouts.Some? ==> forall i :: 0 <= i < |layouts.value| ==> Supported(layouts.value[i])
    ensures layouts.Some? ==> forall i, k :: 0 <= i < k < |layouts.value| ==>
              layouts.value[i].version == layouts.value[k].version
  {
    if StartsWith(cid, "Qm") && |cid| == 46 then Some([Layout(0, false)])
    else if StartsWith(cid, "bafkrei") then Some([Layout(1, true)])
    else if StartsWith(cid, "bafybei") then Some([Layout(1, true), Layout(1, false)])
    else None
  }

  // The first of the layouts under which the bytes have the CID.
  function FirstMatch(sha: Hash, layouts: seq<Layout>, data: Bytes, cid: string): Option<Layout> {
    if layouts == [] then None
    else if CidForBytes(sha, layouts[0], data) == Some(cid) then Some(layouts[0])
    else FirstMatch(sha, layouts[1..], data, cid)
  }

  datatype Answer = Refused | Mismatch | Verified(layout: Layout)

  function VerifyCid(sha: Hash, data: Bytes, cid: string): Answer {
    match LayoutsForCid(cid)
    case None => Refused
    case Some(layouts) =>
      match FirstMatch(sha, layouts, data, cid)
      case None => Mismatch
      case Some(layout) => Verified(layout)
  }

  // A file has no CID only under version 0 with raw leaves.
  lemma CidForBytesExists(sha: Hash, layout: Layout, data: Bytes)
    ensures CidForBytes(sha, layout, data) == None <==> layout.version == 0 && layout.rawLeaves
  {
  }

  predicate Version0(cid: string) { |cid| == 46 && cid[0] == 'Q' && cid[1] == 'm' }
  predicate Version1(cid: string, prefix: string) { |cid| >= 7 && cid[..7] == prefix }

  // Which layout the bytes are verified under, and that a CID is refused for its shape alone:
  // a version 0 CID stands for UnixFS leaves, one of a raw block for raw leaves, and one of
  // another version 1 block for raw leaves or, failing that, UnixFS leaves.
  lemma {:induction false} VerifyCidExactlyWhen(sha: Hash, data: Bytes, cid: string, layout: Layout)
    ensures VerifyCid(sha, data, cid) == Refused <==>
            !Version0(cid) && !Version1(cid, "bafkrei") && !Version1(cid, "bafybei")
    ensures VerifyCid(sha, data, cid) == Verified(layout) <==>
            && CidForBytes(sha, layout, data) == Some(cid)
            && (|| (Version0(cid) && layout == Layout(0, false))
                || (Version1(cid, "bafkrei") && layout == Layout(1, true))
                || (Version1(cid, "bafybei") && layout == Layout(1, true))
                || (Version1(cid, "bafybei") && layout == Layout(1, false)
                    && CidForBytes(sha, Layout(1, true), data) != Some(cid)))
  {
    if |cid| >= 2 {
      assert cid[..2] == "Qm" <==> cid[0] == 'Q' && cid[1] == 'm';
    }
    if |cid| >= 7 {
      assert cid[..7][0] == cid[0];
    }
    var either := [Layout(1, true), Layout(1, false)];
    FirstOfOne(sha, Layout(0, false), data, cid);
    FirstOfOne(sha, Layout(1, true), data, cid);
    FirstOfOne(sha, Layout(1, false), data, cid);
    assert either[1..] == [Layout(1, false)];
  }

  lemma {:induction false} FirstOfOne(sha: Hash, layout: Layout, data: Bytes, cid: string)
    ensures FirstMatch(sha, [layout], data, cid) ==
            if CidForBytes(sha, layout, data) == Some(cid) then Some(layout) else None
  {
    assert [layout][1..] == [];
  }

  // The answer and the CID computed last, which on a mismatch is that of the last layout.
  method CheckCid(sha: Hash, data: Bytes, cid: string) returns (answer: Answer, computed: string)
    ensures answer == VerifyCid(sha, data, cid)
    ensures answer.Verified? ==> computed == cid
    ensures answer.Mismatch? ==>
              && |LayoutsForCid(cid).value| > 0 && computed != cid
              && CidForBytes(sha, LayoutsForCid(cid).value[|LayoutsForCid(cid).value| - 1], data) == Some(computed)
  {
    computed := "";
    var layouts := LayoutsForCid(cid);
    if layouts.None? {
      return Refused, computed;
    }
    for i := 0 to |layouts.value|
      invariant FirstMatch(sha, layouts.value, data, cid) == FirstMatch(sha, layouts.value[i..], data, cid)
      invariant i > 0 ==> computed != cid && CidForBytes(sha, layouts.value[i - 1], data) == Some(computed)
    {
      var root := BuildFileDag(sha, layouts.value[i], ChunkBytes(data));
      assert layouts.value[i..][1..] == layouts.value[i + 1..];
      computed := root.cid;
      if computed == cid {
        return Verified(layouts.value[i]), computed;
      }
    }
    answer := Mismatch;
  }

  // ---------------------------------------------------------------- the blocks of a file

  // Every block hashed for a tree.
  function Blocks(sha: Hash, layout: Layout, dag: Dag): set<Bytes>
    requires Supported(layout)
    decreases dag, 1
  {
    match dag
    case Chunk(data) => {LeafBlock(layout, data)}
    case Inner(children) => {InnerBlock(NodesOf(sha, layout, children))} + BlocksOfAll(sha, layout, children)
  }

  function BlocksOfAll(sha: Hash, layout: Layout, dags: seq<Dag>): set<Bytes>
    requires Supported(layout)
    decreases dags, 0
  {
    if dags == [] then {} else Blocks(sha, layout, dags[0]) + BlocksOfAll(sha, layout, dags[1..])
  }

  // Every block hashed for a file.
  function FileBlocks(sha: Hash, layout: Layout, data: Bytes): set<Bytes>
    requires Supported(layout)
  {
    Blocks(sha, layout, DagOf(ChunkBytes(data)))
  }

  // ---------------------------------------------------------------- trees bind

  // No node without children.
  ghost predicate Proper(dag: Dag)
    decreases dag, 1
  {
    match dag
    case Chunk(_) => true
    case Inner(children) => children != [] && ProperAll(children)
  }

  ghost predicate ProperAll(dags: seq<Dag>)
    decreases dags, 0
  {
    dags == [] || (Proper(dags[0]) && ProperAll(dags[1..]))
  }

  function TopBlock(sha: Hash, layout: Layout, dag: Dag): (block: Bytes)
    requires Supported(layout)
    ensures block in Blocks(sha, layout, dag)
  {
    match dag
    case Chunk(data) => LeafBlock(layout, data)
    case Inner(children) => InnerBlock(NodesOf(sha, layout, children))
  }

  function TopCodec(layout: Layout, dag: Dag): Codec {
    if dag.Chunk? then LeafCodec(layout) else DagPbCodec
  }

  lemma {:induction false} TopCid(sha: Hash, layout: Layout, dag: Dag)
    requires Supported(layout)
    ensures layout.version == 0 ==> TopCodec(layout, dag).DagPbCodec?
    ensures NodeOf(sha, layout, dag).cidBytes ==
            CidBytes(sha, layout.version, TopCodec(layout, dag), TopBlock(sha, layout, dag))
  {
    if dag.Inner? {
      assert NodesOf(sha, layout, dag.children) ==
             seq(|dag.children|, i requires 0 <= i < |dag.children| => NodeOf(sha, layout, dag.children[i]));
    }
  }

  // Two trees, under any two layouts of one CID version, whose roots have one CID: they
  // are the same tree, or they contain a collision between their blocks.
  lemma {:induction false} DagBinding(sha: Hash, l: Layout, l': Layout, s: Dag, t: Dag)
    requires Supported(l) && Supported(l') && l.version == l'.version
    requires Proper(s) && Proper(t)
    requires NodeOf(sha, l, s).cidBytes == NodeOf(sha, l', t).cidBytes
    ensures s == t || Collision(sha, Blocks(sha, l, s), Blocks(sha, l', t))
    decreases s, 1
  {
    var x, y := TopBlock(sha, l, s), TopBlock(sha, l', t);
    TopCid(sha, l, s);
    TopCid(sha, l', t);
    CidFixesBlock(sha, l.version, TopCodec(l, s), TopCodec(l', t), x, y);
    if x != y {
      CollisionFound(sha, Blocks(sha, l, s), Blocks(sha, l', t), x, y);
    } else {
      match (s, t) {
        case (Chunk(a), Chunk(b)) =>
          assert l.rawLeaves == l'.rawLeaves;
          LeafBlockFixesChunk(l, a, b);
        case (Chunk(a), Inner(children)) => LeafIsNotInner(l, a, NodesOf(sha, l', children));
        case (Inner(children), Chunk(b)) => LeafIsNotInner(l', b, NodesOf(sha, l, children));
        case (Inner(ss), Inner(ts)) =>
          InnerBlockFixesCids(NodesOf(sha, l, ss), NodesOf(sha, l', ts));
          forall i | 0 <= i < |ss|
            ensures NodeOf(sha, l, ss[i]).cidBytes == NodeOf(sha, l', ts[i]).cidBytes
          {
            assert NodesOf(sha, l, ss)[i].cidBytes == NodesOf(sha, l', ts)[i].cidBytes;
          }
          DagsBinding(sha, l, l', ss, ts);
          if ss != ts {
            CollisionMonotone(sha, BlocksOfAll(sha, l, ss), BlocksOfAll(sha, l', ts),
                              Blocks(sha, l, s), Blocks(sha, l', t));
          }
      }
    }
  }

  lemma {:induction false} DagsBinding(sha: Hash, l: Layout, l': Layout, ss: seq<Dag>, ts: seq<Dag>)
    requires Supported(l) && Supported(l') && l.version == l'.version
    requires ProperAll(ss) && ProperAll(ts) && |ss| == |ts|
    requires forall i :: 0 <= i < |ss| ==> NodeOf(sha, l, ss[i]).cidBytes == NodeOf(sha, l', ts[i]).cidBytes
    ensures ss == ts || Collision(sha, BlocksOfAll(sha, l, ss), BlocksOfAll(sha, l', ts))
    decreases ss, 0
  {
    if ss != [] {
      DagBinding(sha, l, l', ss[0], ts[0]);
      DagsBinding(sha, l, l', ss[1..], ts[1..]);
      if ss[0] != ts[0] {
        CollisionMonotone(sha, Blocks(sha, l, ss[0]), Blocks(sha, l', ts[0]),
                          BlocksOfAll(sha, l, ss), BlocksOfAll(sha, l', ts));
      } else if ss[1..] != ts[1..] {
        CollisionMonotone(sha, BlocksOfAll(sha, l, ss[1..]), BlocksOfAll(sha, l', ts[1..]),
                          BlocksOfAll(sha, l, ss), BlocksOfAll(sha, l', ts));
      } else {
        assert ss == [ss[0]] + ss[1..] && ts == [ts[0]] + ts[1..];
      }
    }
  }

  // ---------------------------------------------------------------- file trees are proper

  lemma {:induction false} ProperWhole(dags: seq<Dag>)
    requires forall i :: 0 <= i < |dags| ==> Proper(dags[i])
    ensures ProperAll(dags)
    decreases |dags|
  {
    if dags != [] {
      ProperWhole(dags[1..]);
    }
  }

  lemma {:induction false} TopIsProper(level: seq<Dag>)
    requires level != [] && forall i :: 0 <= i < |level| ==> Proper(level[i])
    ensures Proper(Top(level, MAKE_INNER))
    decreases |level|
  {
    if |level| > 1 {
      var next := NextLevel(level, MAKE_INNER);
      forall j | 0 <= j < |next| ensures Proper(next[j]) {
        ProperWhole(Group(level, j));
        assert next[j] == Inner(Group(level, j));
      }
      TopIsProper(next);
    }
  }

  lemma FileTreeIsProper(chunks: seq<Bytes>)
    ensures Proper(DagOf(chunks))
  {
    if chunks != [] {
      TopIsProper(Chunks(chunks));
    }
  }

  // The leaves of a file's tree hold the file.
  lemma {:induction false} FileTreeHoldsFile(data: Bytes)
    ensures Concat(LeavesOf(DagOf(ChunkBytes(data)))) == data
  {
    ChunksConcat(data);
    if data == [] {
      assert LeavesOf(DagOf([])) == [[]] && Concat([[]]) == [] + Concat([]);
    } else {
      var depth := FileTreeShape(ChunkBytes(data));
    }
  }

  lemma {:induction false} FileTreeFixesData(a: Bytes, b: Bytes)
    requires DagOf(ChunkBytes(a)) == DagOf(ChunkBytes(b))
    ensures a == b
  {
    FileTreeHoldsFile(a);
    FileTreeHoldsFile(b);
  }

  // ---------------------------------------------------------------- the guarantee

  lemma {:induction false} FirstMatchIsMatch(sha: Hash, layouts: seq<Layout>, data: Bytes, cid: string)
    requires FirstMatch(sha, layouts, data, cid).Some?
    ensures var layout := FirstMatch(sha, layouts, data, cid).value;
            layout in layouts && CidForBytes(sha, layout, data) == Some(cid)
    decreases |layouts|
  {
    if CidForBytes(sha, layouts[0], data) != Some(cid) {
      FirstMatchIsMatch(sha, layouts[1..], data, cid);
    }
  }

  lemma {:induction false} FileCid(sha: Hash, layout: Layout, data: Bytes)
    requires Supported(layout)
    ensures CidForBytes(sha, layout, data) ==
            Some(CidText(layout.version, NodeOf(sha, layout, DagOf(ChunkBytes(data))).cidBytes))
  {
    FileNodeIsDag(sha, layout, ChunkBytes(data));
  }

  // Bytes that verify for one CID are the same bytes, under whatever layout each was
  // recognised, or two blocks are in hand that SHA-256 does not tell apart.
  lemma CidBindsBytes(sha: Hash, a: Bytes, b: Bytes, cid: string)
    requires VerifyCid(sha, a, cid).Verified? && VerifyCid(sha, b, cid).Verified?
    ensures var l, l' := VerifyCid(sha, a, cid).layout, VerifyCid(sha, b, cid).layout;
            && Supported(l) && Supported(l')
            && (a == b || Collision(sha, FileBlocks(sha, l, a), FileBlocks(sha, l', b)))
  {
    var layouts := LayoutsForCid(cid).value;
    FirstMatchIsMatch(sha, layouts, a, cid);
    FirstMatchIsMatch(sha, layouts, b, cid);
    var l, l' := VerifyCid(sha, a, cid).layout, VerifyCid(sha, b, cid).layout;
    var s, t := DagOf(ChunkBytes(a)), DagOf(ChunkBytes(b));
    FileCid(sha, l, a);
    FileCid(sha, l', b);
    CidTextInjective(l.version, NodeOf(sha, l, s).cidBytes, NodeOf(sha, l', t).cidBytes);
    FileTreeIsProper(ChunkBytes(a));
    FileTreeIsProper(ChunkBytes(b));
    DagBinding(sha, l, l', s, t);
    if s == t {
      FileTreeFixesData(a, b);
    }
  }
}
