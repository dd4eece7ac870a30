// The shape of a printed CID, and honest bytes: edgegrid/weights.py, `_cid`,
// `layouts_for_cid`, `verify_cid`.

module CidShape {
  import opened ByteStrings
  import opened Base58
  import opened Base32
  import opened DagPb
  import opened DagBuilder
  import opened CidBinding

  // ---------------------------------------------------------------- version 0

  // A number followed by `k` digits zero.
  function Shifted(n: nat, k: nat, base: Base): nat {
    if k == 0 then n else base.Append(Shifted(n, k - 1, base), 0)
  }

  // Digits appended to a number keep it within the range of its shift.
  lemma {:induction false} AppendedDigits(digits: seq<nat>, k: nat, base: Base)
    requires AreDigits(digits, base) && k <= |digits|
    ensures Shifted(FromDigits(digits[..k], base), |digits| - k, base) <= FromDigits(digits, base)
            < Shifted(FromDigits(digits[..k], base) + 1, |digits| - k, base)
    decreases |digits|
  {
    if k == |digits| {
      assert digits[..k] == digits;
    } else {
      var front := digits[..|digits| - 1];
      assert front[..k] == digits[..k];
      AppendedDigits(front, k, base);
    }
  }

  // A number in the range of a shift begins with the digits of what was shifted.
  lemma {:induction false} LeadingDigits(n: nat, high: nat, k: nat)
    requires high > 0 && Shifted(high, k, Letter58) <= n < Shifted(high + 1, k, Letter58)
    ensures n > 0
    ensures |ToDigits(n, Letter58)| == |ToDigits(high, Letter58)| + k
    ensures ToDigits(n, Letter58)[..|ToDigits(high, Letter58)|] == ToDigits(high, Letter58)
    decreases k
  {
    if k > 0 {
      LeadingDigits(n / 58, high, k - 1);
    }
  }

  // Four digits at a time: 58 to the fourth and 256 to the fourth.
  lemma ShiftedByFour(n: nat, k: nat)
    ensures Shifted(n, k + 4, Letter58) == 11_316_496 * Shifted(n, k, Letter58)
    ensures Shifted(n, k + 4, Byte256) == 4_294_967_296 * Shifted(n, k, Byte256)
  {
    assert Shifted(n, k + 2, Letter58) == 3364 * Shifted(n, k, Letter58);
    assert Shifted(n, k + 4, Letter58) == 3364 * Shifted(n, k + 2, Letter58);
    assert Shifted(n, k + 2, Byte256) == 65536 * Shifted(n, k, Byte256);
    assert Shifted(n, k + 4, Byte256) == 65536 * Shifted(n, k + 2, Byte256);
  }

  // Sixteen digits at a time.
  lemma ShiftedBySixteen(n: nat, k: nat)
    ensures Shifted(n, k + 16, Letter58) == 16400152899115243850138976256 * Shifted(n, k, Letter58)
    ensures Shifted(n, k + 16, Byte256) == 340282366920938463463374607431768211456 * Shifted(n, k, Byte256)
  {
    ShiftedByFour(n, k);
    ShiftedByFour(n, k + 4);
    ShiftedByFour(n, k + 8);
    ShiftedByFour(n, k + 12);
  }

  lemma {:induction false} ShiftedLetters(n: nat)
    ensures Shifted(n, 44, Letter58) ==
            n * 389790918707373377135528568990913592653094657612049369038476873218241589149696
  {
    ShiftedBySixteen(n, 0);
    ShiftedBySixteen(n, 16);
    ShiftedByFour(n, 32);
    ShiftedByFour(n, 36);
    ShiftedByFour(n, 40);
  }

  lemma {:induction false} ShiftedBytes(n: nat)
    ensures Shifted(n, 32, Byte256) ==
            n * 115792089237316195423570985008687907853269984665640564039457584007913129639936
  {
    ShiftedBySixteen(n, 0);
    ShiftedBySixteen(n, 16);
  }

  lemma {:induction false} HeaderNumber(header: seq<nat>)
    requires header == [0x12, 32]
    ensures FromDigits(header, Byte256) == 0x1220
  {
    assert header[..1] == [0x12] && FromDigits(header[..1], Byte256) == 0x12;
  }

  // 0x1220 and any 32 bytes: in letters, 44 digits after 23 and 44, which are Q and m.
  lemma MultihashRange(digest: Digest, high: nat)
    requires high == 23 * 58 + 44
    ensures Shifted(high, 44, Letter58) <= BigEndian(Multihash(digest)) < Shifted(high + 1, 44, Letter58)
  {
    var digits := ByteDigits(Multihash(digest));
    AppendedDigits(digits, 2, Byte256);
    assert digits[..2] == [0x12, 32];
    HeaderNumber(digits[..2]);
    ShiftedBytes(0x1220);
    ShiftedBytes(0x1221);
    ShiftedLetters(high);
    ShiftedLetters(high + 1);
  }

  lemma Version0Shape(digest: Digest)
    ensures |CidText(0, Multihash(digest))| == 46 && StartsWith(CidText(0, Multihash(digest)), "Qm")
  {
    Version0Number(digest, BigEndian(Multihash(digest)), 23 * 58 + 44);
    NoOnesInFront(digest);
  }

  lemma Version0Number(digest: Digest, n: nat, high: nat)
    requires n == BigEndian(Multihash(digest)) && high == 23 * 58 + 44
    ensures |NumberText(n)| == 46 && StartsWith(NumberText(n), "Qm")
  {
    MultihashRange(digest, high);
    LeadingDigits(n, high, 44);
    QmDigits();
    QmText(n);
    assert NumberText(n)[..2] == ['Q', 'm'];
  }

  lemma QmDigits()
    ensures ToDigits(23 * 58 + 44, Letter58) == [23, 44]
  {
    assert ToDigits(23, Letter58) == [23];
  }

  lemma {:induction false} QmText(n: nat)
    requires |ToDigits(n, Letter58)| == 46 && ToDigits(n, Letter58)[..2] == [23, 44]
    ensures |NumberText(n)| == 46 && NumberText(n)[0] == 'Q' && NumberText(n)[1] == 'm'
  {
    DigitsOfNumber(n, Letter58);
    var digits := ToDigits(n, Letter58);
    assert digits[0] == digits[..2][0] && digits[1] == digits[..2][1];
  }

  lemma NoOnesInFront(digest: Digest)
    ensures CidText(0, Multihash(digest)) == NumberText(BigEndian(Multihash(digest)))
  {
    assert LeadingZeros(Multihash(digest)) == 0;
  }

  // ---------------------------------------------------------------- version 1

  // A text keeps its first letters whatever follows the bits they spell.
  lemma {:induction false} FirstLetter(bits: Bits)
    requires |bits| >= 5
    ensures Base32.Letters(bits) == [GroupLetter(bits[..5])] + Base32.Letters(bits[5..])
  {
  }

  lemma {:induction false} SpelledGroup(bits: Bits, n: nat)
    requires n < 32 && bits == BitsOf(n, 5)
    ensures GroupLetter(bits) == Base32.Letter(n)
  {
    assert Power2(5) == 32;
    BitsInvert(n, 5, 32);
  }

  lemma {:induction false} SpelledPrefix(values: seq<nat>, bits: Bits)
    requires |bits| >= 5 * |values|
    requires forall i :: 0 <= i < |values| ==> values[i] < 32 && bits[5 * i..5 * i + 5] == BitsOf(values[i], 5)
    ensures |Base32.Letters(bits)| >= |values|
    ensures forall i :: 0 <= i < |values| ==> Base32.Letters(bits)[i] == Base32.Letter(values[i])
    decreases |values|
  {
    if values != [] {
      assert bits[..5] == bits[5 * 0..5 * 0 + 5];
      FirstLetter(bits);
      SpelledGroup(bits[..5], values[0]);
      forall i | 0 <= i < |values| - 1
        ensures bits[5..][5 * i..5 * i + 5] == BitsOf(values[1..][i], 5)
      {
        assert bits[5..][5 * i..5 * i + 5] == bits[5 * (i + 1)..5 * (i + 1) + 5];
      }
      SpelledPrefix(values[1..], bits[5..]);
    }
  }

  // The letters after the multibase prefix, by codec.
  function Spelling(codec: Codec): seq<nat> {
    match codec
    case DagPbCodec => [0, 5, 24, 1, 4, 8]
    case RawCodec => [0, 5, 10, 17, 4, 8]
  }

  lemma {:induction false} FirstByte(first: byte, rest: Bytes)
    ensures ByteBits([first] + rest) == BitsOf(first as int, 8) + ByteBits(rest)
  {
    assert ([first] + rest)[1..] == rest;
  }

  lemma {:induction false} Version1Unfolds(codec: Codec, digest: Digest)
    ensures ByteBits([1, CodecByte(codec)] + Multihash(digest)) ==
            BitsOf(1, 8) + (BitsOf(CodecByte(codec) as int, 8) + (BitsOf(0x12, 8) + (BitsOf(32, 8) + ByteBits(digest))))
  {
    HeaderBytes(codec, digest);
    FourBytes(1, CodecByte(codec), 0x12, 32, digest);
  }

  lemma HeaderBytes(codec: Codec, digest: Digest)
    ensures [1, CodecByte(codec)] + Multihash(digest) == [1] + ([CodecByte(codec)] + ([0x12] + ([32] + digest)))
  {
  }

  lemma {:induction false} FourBytes(a: byte, b: byte, c: byte, d: byte, rest: Bytes)
    ensures ByteBits([a] + ([b] + ([c] + ([d] + rest)))) ==
            BitsOf(a as int, 8) + (BitsOf(b as int, 8) + (BitsOf(c as int, 8) + (BitsOf(d as int, 8) + ByteBits(rest))))
  {
    FirstByte(d, rest);
    FirstByte(c, [d] + rest);
    FirstByte(b, [c] + ([d] + rest));
    FirstByte(a, [b] + ([c] + ([d] + rest)));
  }

  // The bits of the values, five each.
  function FiveBits(values: seq<nat>): Bits {
    if values == [] then [] else BitsOf(values[0], 5) + FiveBits(values[1..])
  }

  lemma {:induction false} FiveBitsGroup(values: seq<nat>, i: nat)
    requires i < |values|
    ensures |FiveBits(values)| >= 5 * i + 5 && FiveBits(values)[5 * i..5 * i + 5] == BitsOf(values[i], 5)
    decreases |values|
  {
    if i > 0 {
      FiveBitsGroup(values[1..], i - 1);
      assert FiveBits(values)[5 * i..5 * i + 5] == FiveBits(values[1..])[5 * (i - 1)..5 * (i - 1) + 5];
    }
  }

  function Doubled(n: nat, k: nat): nat {
    if k == 0 then n else 2 * Doubled(n, k - 1)
  }

  // A number of `a + b` bits is its upper part followed by its lower part.
  lemma {:induction false} BitsJoin(n: nat, high: nat, low: nat, a: nat, b: nat)
    requires n == Doubled(high, b) + low && low < Power2(b)
    ensures BitsOf(n, a + b) == BitsOf(high, a) + BitsOf(low, b)
    decreases b
  {
    if b > 0 {
      BitsJoin(n / 2, high, low / 2, a, b - 1);
    }
  }

  // The widths that the header is cut into.
  lemma {:induction false} Widths(n: nat)
    ensures Power2(2) == 4 && Power2(7) == 128 && Power2(8) == 256 && Power2(12) == 4096 && Power2(16) == 65536
    ensures Power2(17) == 131072 && Power2(22) == 4194304 && Power2(24) == 16777216 && Power2(27) == 134217728
    ensures Doubled(n, 2) == n * 4 && Doubled(n, 7) == n * 128 && Doubled(n, 8) == n * 256
    ensures Doubled(n, 12) == n * 4096 && Doubled(n, 16) == n * 65536 && Doubled(n, 17) == n * 131072
    ensures Doubled(n, 22) == n * 4194304 && Doubled(n, 24) == n * 16777216 && Doubled(n, 27) == n * 134217728
  {
    FiveWider(n, 2);
    FiveWider(n, 3);
    FiveWider(n, 7);
    FiveWider(n, 11);
    FiveWider(n, 12);
    FiveWider(n, 17);
    FiveWider(n, 19);
    FiveWider(n, 22);
    assert Power2(2) == 4 && Doubled(n, 1) == n * 2;
    assert Power2(3) == 8 && Doubled(n, 3) == 2 * Doubled(n, 2);
    assert Power2(11) == 8 * Power2(8) && Doubled(n, 11) == 8 * Doubled(n, 8);
    assert Power2(19) == 8 * Power2(16) && Doubled(n, 19) == 8 * Doubled(n, 16);
  }

  lemma FiveWider(n: nat, k: nat)
    ensures Power2(k + 5) == 32 * Power2(k) && Doubled(n, k + 5) == 32 * Doubled(n, k)
  {
    assert Power2(k + 2) == 4 * Power2(k) && Power2(k + 4) == 4 * Power2(k + 2);
    assert Doubled(n, k + 2) == 4 * Doubled(n, k) && Doubled(n, k + 4) == 4 * Doubled(n, k + 2);
  }

  // 0x1701220 as four bytes and as six groups of five bits.
  lemma DagPbHeader()
    ensures BitsOf(1, 8) + (BitsOf(0x70, 8) + (BitsOf(0x12, 8) + BitsOf(32, 8))) == BitsOf(0x1701220, 32)
  {
    Widths(1);
    Widths(0x70);
    Widths(0x12);
    BitsJoin(0x1220, 0x12, 32, 8, 8);
    BitsJoin(0x701220, 0x70, 0x1220, 8, 16);
    BitsJoin(0x1701220, 1, 0x701220, 8, 24);
  }

  lemma DagPbGroups()
    ensures BitsOf(0x1701220, 32) ==
            BitsOf(0, 5) + (BitsOf(5, 5) + (BitsOf(24, 5) + (BitsOf(1, 5) +
            (BitsOf(4, 5) + (BitsOf(8, 5) + BitsOf(0, 2))))))
  {
    Widths(0);
    Widths(1);
    Widths(4);
    Widths(5);
    Widths(8);
    Widths(24);
    BitsJoin(0x1701220, 0, 0x1701220, 5, 27);
    BitsJoin(0x1701220, 5, 0x301220, 5, 22);
    BitsJoin(0x301220, 24, 0x1220, 5, 17);
    BitsJoin(0x1220, 1, 0x220, 5, 12);
    BitsJoin(0x220, 4, 0x20, 5, 7);
    BitsJoin(0x20, 8, 0x0, 5, 2);
  }

  // 0x1551220 as four bytes and as six groups of five bits.
  lemma RawHeader()
    ensures BitsOf(1, 8) + (BitsOf(0x55, 8) + (BitsOf(0x12, 8) + BitsOf(32, 8))) == BitsOf(0x1551220, 32)
  {
    Widths(1);
    Widths(0x55);
    Widths(0x12);
    BitsJoin(0x1220, 0x12, 32, 8, 8);
    BitsJoin(0x551220, 0x55, 0x1220, 8, 16);
    BitsJoin(0x1551220, 1, 0x551220, 8, 24);
  }

  lemma RawGroups()
    ensures BitsOf(0x1551220, 32) ==
            BitsOf(0, 5) + (BitsOf(5, 5) + (BitsOf(10, 5) + (BitsOf(17, 5) +
            (BitsOf(4, 5) + (BitsOf(8, 5) + BitsOf(0, 2))))))
  {
    Widths(0);
    Widths(4);
    Widths(5);
    Widths(8);
    Widths(10);
    Widths(17);
    BitsJoin(0x1551220, 0, 0x1551220, 5, 27);
    BitsJoin(0x1551220, 5, 0x151220, 5, 22);
    BitsJoin(0x151220, 10, 0x11220, 5, 17);
    BitsJoin(0x11220, 17, 0x220, 5, 12);
    BitsJoin(0x220, 4, 0x20, 5, 7);
    BitsJoin(0x20, 8, 0x0, 5, 2);
  }

  lemma {:induction false} GroupsSpell(values: seq<nat>, rest: Bits)
    requires |values| == 6
    ensures FiveBits(values) + rest ==
            BitsOf(values[0], 5) + (BitsOf(values[1], 5) + (BitsOf(values[2], 5) + (BitsOf(values[3], 5) +
            (BitsOf(values[4], 5) + (BitsOf(values[5], 5) + rest)))))
  {
    assert FiveBits(values[6..]) == [];
    assert FiveBits(values[5..]) == BitsOf(values[5], 5);
    assert FiveBits(values[4..]) == BitsOf(values[4], 5) + FiveBits(values[5..]);
    assert FiveBits(values[3..]) == BitsOf(values[3], 5) + FiveBits(values[4..]);
    assert FiveBits(values[2..]) == BitsOf(values[2], 5) + FiveBits(values[3..]);
    assert FiveBits(values[1..]) == BitsOf(values[1], 5) + FiveBits(values[2..]);
  }

  lemma HeaderSpells(codec: Codec)
    ensures BitsOf(1, 8) + (BitsOf(CodecByte(codec) as int, 8) + (BitsOf(0x12, 8) + BitsOf(32, 8))) ==
            FiveBits(Spelling(codec)) + BitsOf(0, 2)
  {
    GroupsSpell(Spelling(codec), BitsOf(0, 2));
    match codec {
      case DagPbCodec =>
        DagPbHeader();
        DagPbGroups();
      case RawCodec =>
        RawHeader();
        RawGroups();
    }
  }

  lemma Regroup(a: Bits, b: Bits, c: Bits, d: Bits, rest: Bits)
    ensures a + (b + (c + (d + rest))) == a + (b + (c + d)) + rest
  {
  }

  lemma {:induction false} Version1Header(codec: Codec, digest: Digest)
    ensures ByteBits([1, CodecByte(codec)] + Multihash(digest)) ==
            FiveBits(Spelling(codec)) + BitsOf(0, 2) + ByteBits(digest)
  {
    Version1Unfolds(codec, digest);
    Regroup(BitsOf(1, 8), BitsOf(CodecByte(codec) as int, 8), BitsOf(0x12, 8), BitsOf(32, 8), ByteBits(digest));
    HeaderSpells(codec);
  }

  lemma Version1Bits(codec: Codec, digest: Digest)
    ensures var bits := ByteBits([1, CodecByte(codec)] + Multihash(digest));
            && |Spelling(codec)| == 6
            && forall i :: 0 <= i < |Spelling(codec)| ==>
                 Spelling(codec)[i] < 32 && bits[5 * i..5 * i + 5] == BitsOf(Spelling(codec)[i], 5)
  {
    Version1Header(codec, digest);
    var bits := FiveBits(Spelling(codec)) + BitsOf(0, 2) + ByteBits(digest);
    forall i | 0 <= i < 6 ensures bits[5 * i..5 * i + 5] == BitsOf(Spelling(codec)[i], 5) {
      FiveBitsGroup(Spelling(codec), i);
      assert bits[5 * i..5 * i + 5] == FiveBits(Spelling(codec))[5 * i..5 * i + 5];
    }
  }

  lemma Version1Shape(codec: Codec, digest: Digest)
    ensures StartsWith(CidText(1, [1, CodecByte(codec)] + Multihash(digest)),
                       if codec.DagPbCodec? then "bafybei" else "bafkrei")
  {
    var raw := [1, CodecByte(codec)] + Multihash(digest);
    Version1Bits(codec, digest);
    SpelledPrefix(Spelling(codec), ByteBits(raw));
    var letters := Base32.Base32(raw);
    SpellingReads(codec, letters);
    assert CidText(1, raw)[..7] == ['b'] + letters[..6];
  }

  lemma SpellingReads(codec: Codec, letters: string)
    requires |letters| >= 6 && forall i :: 0 <= i < 6 ==> letters[i] == Base32.Letter(Spelling(codec)[i])
    ensures letters[..6] == if codec.DagPbCodec? then "afybei" else "afkrei"
  {
    assert letters[0] == Base32.Letter(0) && letters[1] == Base32.Letter(5);
    assert letters[4] == Base32.Letter(4) && letters[5] == Base32.Letter(8);
  }

  // ---------------------------------------------------------------- honest bytes

  // The CID that a file is given is never refused and never taken for a mismatch when
  // the same file comes back: verification tries the layout it was computed under.
  lemma HonestBytesVerify(sha: Hash, layout: Layout, data: Bytes)
    requires Supported(layout) && layout.version <= 1
    ensures VerifyCid(sha, data, CidForBytes(sha, layout, data).value).Verified?
  {
    var dag := DagOf(ChunkBytes(data));
    FileCid(sha, layout, data);
    RootIsPossible(sha, layout, dag);
    LayoutIsTried(sha, layout, data, CidText(layout.version, NodeOf(sha, layout, dag).cidBytes));
  }

  lemma {:induction false} RootIsPossible(sha: Hash, layout: Layout, dag: Dag)
    requires Supported(layout) && layout.version <= 1
    ensures var layouts := LayoutsForCid(CidText(layout.version, NodeOf(sha, layout, dag).cidBytes));
            layouts.Some? && layout in layouts.value
  {
    TopCid(sha, layout, dag);
    CidIsPossible(sha, layout, TopCodec(layout, dag), TopBlock(sha, layout, dag), NodeOf(sha, layout, dag).cidBytes);
  }

  lemma CidIsPossible(sha: Hash, layout: Layout, codec: Codec, block: Bytes, cidBytes: Bytes)
    requires Supported(layout) && layout.version <= 1 && (codec.RawCodec? ==> layout.rawLeaves)
    requires cidBytes == CidBytes(sha, layout.version, codec, block)
    ensures var layouts := LayoutsForCid(CidText(layout.version, cidBytes));
            layouts.Some? && layout in layouts.value
  {
    if layout.version == 0 {
      Version0Possible(sha(block));
      assert layout == Layout(0, false) && cidBytes == Multihash(sha(block));
    } else {
      Version1Possible(codec, sha(block));
      assert layout == Layout(1, layout.rawLeaves) && cidBytes == [1, CodecByte(codec)] + Multihash(sha(block));
    }
  }

  // The shape of a root CID admits the layouts it may have been computed under.
  lemma Version0Possible(digest: Digest)
    ensures LayoutsForCid(CidText(0, Multihash(digest))) == Some([Layout(0, false)])
  {
    Version0Shape(digest);
  }

  lemma Version1Possible(codec: Codec, digest: Digest)
    ensures LayoutsForCid(CidText(1, [1, CodecByte(codec)] + Multihash(digest))) ==
            Some(if codec.RawCodec? then [Layout(1, true)] else [Layout(1, true), Layout(1, false)])
  {
    Version1Shape(codec, digest);
    PrefixesDiffer(CidText(1, [1, CodecByte(codec)] + Multihash(digest)));
  }

  lemma PrefixesDiffer(cid: string)
    requires StartsWith(cid, "bafybei") || StartsWith(cid, "bafkrei")
    ensures !StartsWith(cid, "Qm") && !(StartsWith(cid, "bafybei") && StartsWith(cid, "bafkrei"))
  {
    assert cid[0] == cid[..7][0] == cid[..2][0] && cid[3] == cid[..7][3];
  }

  lemma LayoutIsTried(sha: Hash, layout: Layout, data: Bytes, cid: string)
    requires Supported(layout) && CidForBytes(sha, layout, data) == Some(cid)
    requires LayoutsForCid(cid).Some? && layout in LayoutsForCid(cid).value
    ensures VerifyCid(sha, data, cid).Verified?
  {
    MatchIsFound(sha, LayoutsForCid(cid).value, layout, data, cid);
  }

  lemma {:induction false} MatchIsFound(sha: Hash, layouts: seq<Layout>, layout: Layout, data: Bytes, cid: string)
    requires layout in layouts && CidForBytes(sha, layout, data) == Some(cid)
    ensures FirstMatch(sha, layouts, data, cid).Some?
    decreases |layouts|
  {
    if CidForBytes(sha, layouts[0], data) != Some(cid) {
      MatchIsFound(sha, layouts[1..], layout, data, cid);
    }
  }
}
