// UnixFS files as dag-pb blocks: edgegrid/weights.py, from `_pb_bytes` to `_internal`.

module DagPb {
  import opened ByteStrings
  import opened Varints
  import opened Base58
  import opened Base32

  // ---------------------------------------------------------------- protobuf fields

  // A length-delimited field. All field numbers are below 16, so the tag is one byte.
  function PbBytes(field: nat, data: Bytes): Bytes
    requires field < 16
  {
    [(field * 8 + 2) as byte] + Varint(|data|) + data
  }

  function PbVarint(field: nat, value: nat): Bytes
    requires field < 16
  {
    [(field * 8) as byte] + Varint(value)
  }

  function PbSizes(sizes: seq<nat>): Bytes {
    if sizes == [] then [] else PbVarint(4, sizes[0]) + PbSizes(sizes[1..])
  }

  // The UnixFS `Data` message of a file: type, then data unless empty, then sizes.
  function UnixFsFile(data: Bytes, filesize: nat, sizes: seq<nat>): Bytes {
    PbVarint(1, 2) + (if data == [] then [] else PbBytes(2, data)) + PbVarint(3, filesize) + PbSizes(sizes)
  }

  function PbLink(cidBytes: Bytes, size: nat): Bytes {
    PbBytes(1, cidBytes) + PbBytes(2, []) + PbVarint(3, size)
  }

  function PbLinks(links: seq<Bytes>): Bytes {
    if links == [] then [] else PbBytes(2, links[0]) + PbLinks(links[1..])
  }

  // Links before data.
  function PbNode(links: seq<Bytes>, data: Bytes): Bytes {
    PbLinks(links) + PbBytes(1, data)
  }

  // ---------------------------------------------------------------- content identifiers

  // The CID version and whether leaves are raw blocks. There is no version 0 CID of a
  // raw block: asking for one raises `UnsupportedDAG`.
  datatype Layout = Layout(version: nat, rawLeaves: bool)

  predicate Supported(layout: Layout) { layout.version == 0 ==> !layout.rawLeaves }

  datatype Codec = DagPbCodec | RawCodec

  function CodecByte(codec: Codec): byte {
    match codec
    case DagPbCodec => 0x70
    case RawCodec => 0x55
  }

  function Multihash(digest: Digest): Bytes { [0x12, 32] + digest }

  function CidBytes(sha: Hash, version: nat, codec: Codec, block: Bytes): Bytes
    requires version == 0 ==> codec.DagPbCodec?
  {
    if version == 0 then Multihash(sha(block)) else [1, CodecByte(codec)] + Multihash(sha(block))
  }

  function CidText(version: nat, cidBytes: Bytes): string {
    if version == 0 then Base58.Base58(cidBytes) else "b" + Base32.Base32(cidBytes)
  }

  lemma CidTextInjective(version: nat, a: Bytes, b: Bytes)
    requires CidText(version, a) == CidText(version, b)
    ensures a == b
  {
    if version == 0 {
      Base58Injective(a, b);
    } else {
      assert CidText(version, a)[1..] == CidText(version, b)[1..];
      Base32Injective(a, b);
    }
  }

  // ---------------------------------------------------------------- blocks of a file

  // What a parent needs to know of a block.
  datatype Node = Node(cidBytes: Bytes, cid: string, blockLen: nat, filesize: nat, cumulative: nat)

  function MakeNode(sha: Hash, version: nat, codec: Codec, block: Bytes, filesize: nat, below: nat): Node
    requires version == 0 ==> codec.DagPbCodec?
  {
    var cidBytes := CidBytes(sha, version, codec, block);
    Node(cidBytes, CidText(version, cidBytes), |block|, filesize, |block| + below)
  }

  function LeafCodec(layout: Layout): Codec { if layout.rawLeaves then RawCodec else DagPbCodec }

  function LeafBlock(layout: Layout, chunk: Bytes): Bytes {
    if layout.rawLeaves then chunk else PbNode([], UnixFsFile(chunk, |chunk|, []))
  }

  function LeafNode(sha: Hash, layout: Layout, chunk: Bytes): Node
    requires Supported(layout)
  {
    MakeNode(sha, layout.version, LeafCodec(layout), LeafBlock(layout, chunk), |chunk|, 0)
  }

  function FileSizes(children: seq<Node>): seq<nat> {
    seq(|children|, i requires 0 <= i < |children| => children[i].filesize)
  }

  function Links(children: seq<Node>): seq<Bytes> {
    seq(|children|, i requires 0 <= i < |children| => PbLink(children[i].cidBytes, children[i].cumulative))
  }

  function SumOf(sizes: seq<nat>): nat {
    if sizes == [] then 0 else sizes[0] + SumOf(sizes[1..])
  }

  function Cumulatives(children: seq<Node>): seq<nat> {
    seq(|children|, i requires 0 <= i < |children| => children[i].cumulative)
  }

  function InnerBlock(children: seq<Node>): Bytes {
    PbNode(Links(children), UnixFsFile([], SumOf(FileSizes(children)), FileSizes(children)))
  }

  function InnerNode(sha: Hash, version: nat, children: seq<Node>): Node {
    MakeNode(sha, version, DagPbCodec, InnerBlock(children), SumOf(FileSizes(children)), SumOf(Cumulatives(children)))
  }

  // ---------------------------------------------------------------- unambiguous parsing

  lemma PbBytesPrefixFree(field: nat, a: Bytes, b: Bytes, restA: Bytes, restB: Bytes)
    requires field < 16 && PbBytes(field, a) + restA == PbBytes(field, b) + restB
    ensures a == b && restA == restB
  {
    var x, y := PbBytes(field, a) + restA, PbBytes(field, b) + restB;
    assert x[1..] == Varint(|a|) + (a + restA);
    assert y[1..] == Varint(|b|) + (b + restB);
    VarintPrefixFree(|a|, |b|, a + restA, b + restB);
    assert a == (a + restA)[..|a|] && b == (b + restB)[..|b|];
    assert restA == (a + restA)[|a|..] && restB == (b + restB)[|b|..];
  }

  lemma LinkFixesCid(a: Bytes, b: Bytes, m: nat, n: nat)
    requires PbLink(a, m) == PbLink(b, n)
    ensures a == b
  {
    var restA, restB := PbBytes(2, []) + PbVarint(3, m), PbBytes(2, []) + PbVarint(3, n);
    assert PbLink(a, m) == PbBytes(1, a) + restA && PbLink(b, n) == PbBytes(1, b) + restB;
    PbBytesPrefixFree(1, a, b, restA, restB);
  }

  lemma {:induction false} NodeFixesLinks(a: seq<Bytes>, b: seq<Bytes>, dataA: Bytes, dataB: Bytes)
    requires PbNode(a, dataA) == PbNode(b, dataB)
    ensures a == b && dataA == dataB
    decreases |a|
  {
    var x, y := PbNode(a, dataA), PbNode(b, dataB);
    assert x[0] == (if a == [] then 10 else 18) && y[0] == (if b == [] then 10 else 18);
    if a == [] {
      assert x == PbBytes(1, dataA) + [] && y == PbBytes(1, dataB) + [];
      PbBytesPrefixFree(1, dataA, dataB, [], []);
    } else {
      assert x == PbBytes(2, a[0]) + PbNode(a[1..], dataA);
      assert y == PbBytes(2, b[0]) + PbNode(b[1..], dataB);
      PbBytesPrefixFree(2, a[0], b[0], PbNode(a[1..], dataA), PbNode(b[1..], dataB));
      NodeFixesLinks(a[1..], b[1..], dataA, dataB);
      assert a == [a[0]] + a[1..] && b == [b[0]] + b[1..];
    }
  }

  // After the two bytes of the type come the data, unless empty, and the size.
  lemma LeafFile(data: Bytes)
    ensures |UnixFsFile(data, |data|, [])| > 2
    ensures UnixFsFile(data, |data|, [])[2..] == (if data == [] then [] else PbBytes(2, data)) + PbVarint(3, |data|)
    ensures UnixFsFile(data, |data|, [])[2] == if |data| == 0 then 24 else 18
  {
    var middle := if data == [] then [] else PbBytes(2, data);
    TypeField();
    AfterTwo(middle, PbVarint(3, |data|), PbSizes([]));
    assert (middle + PbVarint(3, |data|))[0] == if |data| == 0 then 24 else 18;
  }

  lemma TypeField()
    ensures PbVarint(1, 2) == [8, 2]
  {
  }

  lemma AfterTwo(middle: Bytes, last: Bytes, none: Bytes)
    requires none == []
    ensures ([8, 2] + middle + last + none)[2..] == middle + last
    ensures |last| > 0 ==> ([8, 2] + middle + last + none)[2] == (middle + last)[0]
  {
  }

  lemma FileFixesData(a: Bytes, b: Bytes)
    requires UnixFsFile(a, |a|, []) == UnixFsFile(b, |b|, [])
    ensures a == b
  {
    LeafFile(a);
    LeafFile(b);
    if |a| > 0 {
      PbBytesPrefixFree(2, a, b, PbVarint(3, |a|), PbVarint(3, |b|));
    }
  }

  lemma LeafBlockFixesChunk(layout: Layout, a: Bytes, b: Bytes)
    requires LeafBlock(layout, a) == LeafBlock(layout, b)
    ensures a == b
  {
    if !layout.rawLeaves {
      NodeFixesLinks([], [], UnixFsFile(a, |a|, []), UnixFsFile(b, |b|, []));
      FileFixesData(a, b);
    }
  }

  lemma InnerBlockFixesCids(a: seq<Node>, b: seq<Node>)
    requires InnerBlock(a) == InnerBlock(b)
    ensures |a| == |b| && forall i :: 0 <= i < |a| ==> a[i].cidBytes == b[i].cidBytes
  {
    NodeFixesLinks(Links(a), Links(b), UnixFsFile([], SumOf(FileSizes(a)), FileSizes(a)),
                   UnixFsFile([], SumOf(FileSizes(b)), FileSizes(b)));
    assert |a| == |Links(a)| == |Links(b)| == |b|;
    forall i | 0 <= i < |a| ensures a[i].cidBytes == b[i].cidBytes {
      assert Links(a)[i] == Links(b)[i];
      LinkFixesCid(a[i].cidBytes, b[i].cidBytes, a[i].cumulative, b[i].cumulative);
    }
  }

  // A UnixFS leaf is never the block of a node with children.
  lemma LeafIsNotInner(layout: Layout, chunk: Bytes, children: seq<Node>)
    requires !layout.rawLeaves && children != []
    ensures LeafBlock(layout, chunk) != InnerBlock(children)
  {
    assert |Links(children)| > 0;
    if LeafBlock(layout, chunk) == InnerBlock(children) {
      NodeFixesLinks([], Links(children), UnixFsFile(chunk, |chunk|, []),
                     UnixFsFile([], SumOf(FileSizes(children)), FileSizes(children)));
    }
  }

  // The version, codec and block of a CID, up to a collision.
  lemma CidFixesBlock(sha: Hash, version: nat, c: Codec, c': Codec, x: Bytes, y: Bytes)
    requires version == 0 ==> c.DagPbCodec? && c'.DagPbCodec?
    requires CidBytes(sha, version, c, x) == CidBytes(sha, version, c', y)
    ensures c == c' && (x == y || Collides(sha, x, y))
  {
    var a, b := CidBytes(sha, version, c, x), CidBytes(sha, version, c', y);
    if version == 0 {
      assert a[2..] == sha(x) && b[2..] == sha(y);
    } else {
      assert a[4..] == sha(x) && b[4..] == sha(y);
      assert a[1] == CodecByte(c) && b[1] == CodecByte(c');
    }
  }
}
