// What the blocks of a file say: edgegrid/weights.py, `_pb_bytes` to `_internal`.
//
// The reader here knows only the wire format: the tags of dag-pb and UnixFS are written out
// as the bytes they are, and nothing is shared with the serialiser but the varint reader.

module DagWire {
  import opened ByteStrings
  import opened DagPb
  import opened Varints

  // ---------------------------------------------------------------- what a block says

  // A link: the CID of the block it points to, a name, and the size of all that hangs there.
  datatype Link = Link(hash: Bytes, name: Bytes, tsize: nat)

  // The UnixFS message: type, inline data, payload size, and payload sizes of the links.
  datatype Message = Message(kind: nat, data: Option<Bytes>, filesize: nat, blocksizes: seq<nat>)

  datatype Block = Block(links: seq<Link>, file: Message)

  // ---------------------------------------------------------------- reading

  // A number or a string after a given tag byte, and what follows it.
  function ReadNumber(tag: byte, b: Bytes): Option<(nat, Bytes)> {
    if b == [] || b[0] != tag then None else DecodeVarint(b[1..])
  }

  function ReadBytes(tag: byte, b: Bytes): Option<(Bytes, Bytes)> {
    match ReadNumber(tag, b)
    case None => None
    case Some((n, rest)) => if n <= |rest| then Some((rest[..n], rest[n..])) else None
  }

  // 10 is field 1 of type bytes, 18 field 2 of type bytes, 24 field 3 of type varint.
  function ReadLink(b: Bytes): Option<Link> {
    match ReadBytes(10, b)
    case None => None
    case Some((hash, b1)) =>
      match ReadBytes(18, b1)
      case None => None
      case Some((name, b2)) =>
        match ReadNumber(24, b2)
        case None => None
        case Some((tsize, rest)) => if rest == [] then Some(Link(hash, name, tsize)) else None
  }

  // 32 is field 4 of type varint.
  function ReadSizes(b: Bytes): Option<seq<nat>>
    decreases |b|
  {
    if b == [] then Some([])
    else
      match ReadNumber(32, b)
      case None => None
      case Some((first, rest)) =>
        if |rest| >= |b| then None
        else
          match ReadSizes(rest)
          case None => None
          case Some(others) => Some([first] + others)
  }

  // 8 is field 1 of type varint.
  function ReadMessage(b: Bytes): Option<Message> {
    match ReadNumber(8, b)
    case None => None
    case Some((kind, b1)) =>
      var (data, b2) :=
        match ReadBytes(18, b1)
        case None => (None, b1)
        case Some((data, rest)) => (Some(data), rest);
      match ReadNumber(24, b2)
      case None => None
      case Some((filesize, b3)) =>
        match ReadSizes(b3)
        case None => None
        case Some(sizes) => Some(Message(kind, data, filesize, sizes))
  }

  // Links come before the message.
  function ReadBlock(b: Bytes): Option<Block>
    decreases |b|
  {
    match ReadBytes(18, b)
    case Some((first, rest)) =>
      if |rest| >= |b| then None
      else (
        match (ReadLink(first), ReadBlock(rest))
        case (Some(link), Some(block)) => Some(Block([link] + block.links, block.file))
        case _ => None)
    case None =>
      match ReadBytes(10, b)
      case None => None
      case Some((inner, rest)) =>
        match ReadMessage(inner)
        case None => None
        case Some(message) => if rest == [] then Some(Block([], message)) else None
  }

  // ---------------------------------------------------------------- reading fields back

  lemma NumberReads(field: nat, value: nat, rest: Bytes)
    requires field < 16
    ensures ReadNumber((field * 8) as byte, PbVarint(field, value) + rest) == Some((value, rest))
    ensures forall tag: byte :: tag as int != field * 8 ==> ReadNumber(tag, PbVarint(field, value) + rest).None?
  {
    var b := PbVarint(field, value) + rest;
    assert b[1..] == Varint(value) + rest;
    DecodeInvertsVarint(value, rest);
  }

  lemma BytesRead(field: nat, data: Bytes, rest: Bytes)
    requires field < 16
    ensures ReadBytes((field * 8 + 2) as byte, PbBytes(field, data) + rest) == Some((data, rest))
    ensures |PbBytes(field, data) + rest| > |rest|
    ensures forall tag: byte :: tag as int != field * 8 + 2 ==> ReadNumber(tag, PbBytes(field, data) + rest).None?
  {
    var b := PbBytes(field, data) + rest;
    assert b[1..] == Varint(|data|) + (data + rest);
    DecodeInvertsVarint(|data|, data + rest);
    assert (data + rest)[..|data|] == data && (data + rest)[|data|..] == rest;
  }

  lemma LinkReads(cidBytes: Bytes, size: nat)
    ensures ReadLink(PbLink(cidBytes, size)) == Some(Link(cidBytes, [], size))
  {
    var tail := PbVarint(3, size);
    assert PbLink(cidBytes, size) == PbBytes(1, cidBytes) + (PbBytes(2, []) + tail);
    BytesRead(1, cidBytes, PbBytes(2, []) + tail);
    BytesRead(2, [], tail);
    assert tail == PbVarint(3, size) + [];
    NumberReads(3, size, []);
  }

  lemma {:induction false} SizesRead(sizes: seq<nat>)
    ensures ReadSizes(PbSizes(sizes)) == Some(sizes)
    decreases |sizes|
  {
    if sizes != [] {
      NumberReads(4, sizes[0], PbSizes(sizes[1..]));
      SizesRead(sizes[1..]);
      assert [sizes[0]] + sizes[1..] == sizes;
    }
  }

  // The message read back; empty data are not written at all.
  lemma MessageReads(data: Bytes, filesize: nat, sizes: seq<nat>)
    ensures ReadMessage(UnixFsFile(data, filesize, sizes)) ==
            Some(Message(2, if data == [] then None else Some(data), filesize, sizes))
  {
    var b3 := PbSizes(sizes);
    var b2 := PbVarint(3, filesize) + b3;
    var b1 := if data == [] then b2 else PbBytes(2, data) + b2;
    MessageParts(data, filesize, sizes, b1, b2);
    NumberReads(1, 2, b1);
    NumberReads(3, filesize, b3);
    SizesRead(sizes);
    if data != [] {
      BytesRead(2, data, b2);
    }
  }

  lemma {:induction false} MessageParts(data: Bytes, filesize: nat, sizes: seq<nat>, b1: Bytes, b2: Bytes)
    requires b2 == PbVarint(3, filesize) + PbSizes(sizes) && b1 == if data == [] then b2 else PbBytes(2, data) + b2
    ensures UnixFsFile(data, filesize, sizes) == PbVarint(1, 2) + b1
  {
  }

  // ---------------------------------------------------------------- reading blocks back

  function LinkTo(child: Node): Link { Link(child.cidBytes, [], child.cumulative) }

  function LinksTo(children: seq<Node>): seq<Link> {
    seq(|children|, i requires 0 <= i < |children| => LinkTo(children[i]))
  }

  lemma {:induction false} NodeReads(children: seq<Node>, inner: Bytes, message: Message)
    requires ReadMessage(inner) == Some(message)
    ensures ReadBlock(PbNode(Links(children), inner)) == Some(Block(LinksTo(children), message))
    decreases |children|
  {
    if children == [] {
      assert PbNode(Links(children), inner) == PbBytes(1, inner) + [];
      assert LinksTo(children) == [];
      BytesRead(1, inner, []);
    } else {
      var first, others := PbLink(children[0].cidBytes, children[0].cumulative), children[1..];
      NodeParts(children, inner);
      NodeReads(others, inner, message);
      LinkReads(children[0].cidBytes, children[0].cumulative);
      OneMoreLink(first, LinkTo(children[0]), PbNode(Links(others), inner), Block(LinksTo(others), message));
    }
  }

  lemma {:induction false} NodeParts(children: seq<Node>, inner: Bytes)
    requires children != []
    ensures PbNode(Links(children), inner) ==
            PbBytes(2, PbLink(children[0].cidBytes, children[0].cumulative)) + PbNode(Links(children[1..]), inner)
    ensures LinksTo(children) == [LinkTo(children[0])] + LinksTo(children[1..])
  {
    assert Links(children)[1..] == Links(children[1..]);
  }

  lemma {:induction false} OneMoreLink(first: Bytes, link: Link, rest: Bytes, block: Block)
    requires ReadLink(first) == Some(link) && ReadBlock(rest) == Some(block)
    ensures ReadBlock(PbBytes(2, first) + rest) == Some(Block([link] + block.links, block.file))
  {
    BytesRead(2, first, rest);
  }

  // An inner node links to its children in order, each by CID, without a name, with all the
  // bytes below it; and its message has the payload size of each, and of all.
  lemma InnerBlockReads(children: seq<Node>)
    ensures ReadBlock(InnerBlock(children)) ==
            Some(Block(LinksTo(children), Message(2, None, SumOf(FileSizes(children)), FileSizes(children))))
  {
    MessageReads([], SumOf(FileSizes(children)), FileSizes(children));
    NodeReads(children, UnixFsFile([], SumOf(FileSizes(children)), FileSizes(children)),
              Message(2, None, SumOf(FileSizes(children)), FileSizes(children)));
  }

  // A leaf is its chunk, or a message with nothing but the chunk and its size.
  lemma LeafBlockReads(layout: Layout, chunk: Bytes)
    ensures layout.rawLeaves ==> LeafBlock(layout, chunk) == chunk
    ensures !layout.rawLeaves ==>
              ReadBlock(LeafBlock(layout, chunk)) ==
              Some(Block([], Message(2, if chunk == [] then None else Some(chunk), |chunk|, [])))
  {
    if !layout.rawLeaves {
      MessageReads(chunk, |chunk|, []);
      NodeReads([], UnixFsFile(chunk, |chunk|, []), ReadMessage(UnixFsFile(chunk, |chunk|, [])).value);
      assert Links([]) == [] && LinksTo([]) == [];
    }
  }
}
