// Lower-case base32 without padding, as CIDv1 is printed: edgegrid/weights.py,
// `_b32encode`; the encoding is that of section 6 of RFC 4648.

module Base32 {
  import opened ByteStrings

  type Bits = seq<bool>

  // Most significant bit first.
  function BitsOf(n: int, width: nat): (bits: Bits)
    requires n >= 0
    ensures |bits| == width
  {
    if width == 0 then [] else BitsOf(n / 2, width - 1) + [n % 2 == 1]
  }

  function NumberOf(bits: Bits): nat {
    if bits == [] then 0
    else 2 * NumberOf(bits[..|bits| - 1]) + (if bits[|bits| - 1] then 1 else 0)
  }

  lemma {:induction false} NumberInverts(bits: Bits)
    ensures BitsOf(NumberOf(bits), |bits|) == bits
    decreases |bits|
  {
    if bits != [] {
      NumberInverts(bits[..|bits| - 1]);
    }
  }

  lemma {:induction false} BitsInvert(n: nat, width: nat, limit: nat)
    requires n < limit && limit == Power2(width)
    ensures NumberOf(BitsOf(n, width)) == n
    decreases width
  {
    if width > 0 {
      BitsInvert(n / 2, width - 1, Power2(width - 1));
      assert BitsOf(n, width)[..width - 1] == BitsOf(n / 2, width - 1);
    }
  }

  lemma {:induction false} NumberBound(bits: Bits)
    ensures NumberOf(bits) < Power2(|bits|)
    decreases |bits|
  {
    if bits != [] {
      NumberBound(bits[..|bits| - 1]);
    }
  }

  function Power2(k: nat): nat {
    if k == 0 then 1 else 2 * Power2(k - 1)
  }

  // ---------------------------------------------------------------- bytes as bits

  function ByteBits(raw: Bytes): (bits: Bits)
    ensures |bits| == 8 * |raw|
  {
    if raw == [] then [] else BitsOf(raw[0] as int, 8) + ByteBits(raw[1..])
  }

  lemma {:induction false} ByteBitsInjective(a: Bytes, b: Bytes)
    requires ByteBits(a) == ByteBits(b)
    ensures a == b
    decreases |a|
  {
    assert |a| == |b|;
    if a != [] {
      assert BitsOf(a[0] as int, 8) == ByteBits(a)[..8] == ByteBits(b)[..8] == BitsOf(b[0] as int, 8);
      assert ByteBits(a[1..]) == ByteBits(a)[8..] == ByteBits(b)[8..] == ByteBits(b[1..]);
      assert Power2(8) == 256;
      BitsInvert(a[0] as int, 8, 256);
      BitsInvert(b[0] as int, 8, 256);
      ByteBitsInjective(a[1..], b[1..]);
    }
  }

  // ---------------------------------------------------------------- letters

  // The RFC's alphabet in lower case: a to z, then 2 to 7.
  function Letter(n: nat): char
    requires n < 32
  {
    if n < 26 then 'a' + n as char else '2' + (n - 26) as char
  }

  // Groups of five bits, the last one filled up with zero bits.
  function Letters(bits: Bits): (text: string)
    ensures |text| == (|bits| + 4) / 5
  {
    if bits == [] then ""
    else if |bits| < 5 then [GroupLetter(bits + seq(5 - |bits|, i => false))]
    else [GroupLetter(bits[..5])] + Letters(bits[5..])
  }

  function GroupLetter(group: Bits): char
    requires |group| == 5
  {
    NumberBound(group);
    assert Power2(5) == 32;
    Letter(NumberOf(group))
  }

  function Base32(raw: Bytes): (text: string)
    ensures |text| == (8 * |raw| + 4) / 5
  {
    Letters(ByteBits(raw))
  }

  lemma GroupLetterInjective(a: Bits, b: Bits)
    requires |a| == |b| == 5 && GroupLetter(a) == GroupLetter(b)
    ensures a == b
  {
    NumberBound(a);
    NumberBound(b);
    assert Power2(5) == 32;
    NumberInverts(a);
    NumberInverts(b);
  }

  lemma {:induction false} LettersInjective(a: Bits, b: Bits)
    requires |a| == |b| && Letters(a) == Letters(b)
    ensures a == b
    decreases |a|
  {
    if |a| >= 5 {
      assert Letters(a)[0] == Letters(b)[0] && Letters(a)[1..] == Letters(b)[1..];
      GroupLetterInjective(a[..5], b[..5]);
      LettersInjective(a[5..], b[5..]);
      assert a == a[..5] + a[5..] && b == b[..5] + b[5..];
    } else if a != [] {
      var padding := seq(5 - |a|, i => false);
      assert Letters(a)[0] == Letters(b)[0];
      GroupLetterInjective(a + padding, b + padding);
      assert a == (a + padding)[..|a|] && b == (b + padding)[..|b|];
    }
  }

  // No two byte strings have one text, whatever their lengths.
  lemma Base32Injective(a: Bytes, b: Bytes)
    requires Base32(a) == Base32(b)
    ensures a == b
  {
    LettersInjective(ByteBits(a), ByteBits(b));
    ByteBitsInjective(a, b);
  }

  // ---------------------------------------------------------------- decoding

  const ALPHABET: string := "abcdefghijklmnopqrstuvwxyz234567"

  // The value of a letter: its place in the alphabet.
  function LetterPlace(c: char, from: nat): Option<nat>
    decreases 32 - from
  {
    if from >= 32 then None else if ALPHABET[from] == c then Some(from) else LetterPlace(c, from + 1)
  }

  // Five bits for each letter.
  function LetterBits(text: string): Option<Bits> {
    if text == "" then Some([])
    else
      match (LetterPlace(text[0], 0), LetterBits(text[1..]))
      case (Some(n), Some(rest)) => Some(BitsOf(n, 5) + rest)
      case _ => None
  }

  // Eight bits for each byte; fewer than five are left over and have to be zero.
  function BytesOfBits(bits: Bits): Option<Bytes> {
    if |bits| < 8 then if |bits| < 5 && (forall i :: 0 <= i < |bits| ==> !bits[i]) then Some([]) else None
    else
      match BytesOfBits(bits[8..])
      case None => None
      case Some(rest) => Some([(NumberOf(bits[..8]) % 256) as byte] + rest)
  }

  function Decode32(text: string): Option<Bytes> {
    match LetterBits(text)
    case None => None
    case Some(bits) => BytesOfBits(bits)
  }

  lemma {:induction false} LetterInverts(n: nat, from: nat)
    requires from <= n < 32
    ensures LetterPlace(Letter(n), from) == Some(n)
    decreases n - from
  {
    LetterIsThere(n);
    if from < n {
      LetterIsThere(from);
      LetterInverts(n, from + 1);
    }
  }

  lemma LetterIsThere(n: nat)
    requires n < 32
    ensures ALPHABET[n] == Letter(n)
  {
    assert |ALPHABET| == 32;
  }

  lemma GroupInverts(group: Bits)
    requires |group| == 5
    ensures LetterPlace(GroupLetter(group), 0).Some?
    ensures BitsOf(LetterPlace(GroupLetter(group), 0).value, 5) == group
  {
    NumberBound(group);
    assert Power2(5) == 32;
    NumberInverts(group);
    LetterInverts(NumberOf(group), 0);
  }

  // The bits that fill up the last group.
  function Filling(n: nat): (filling: Bits)
    ensures |filling| < 5 && forall i :: 0 <= i < |filling| ==> !filling[i]
  {
    seq((5 - n % 5) % 5, i => false)
  }

  lemma FillingRepeats(n: nat)
    requires n >= 5
    ensures Filling(n - 5) == Filling(n)
  {
  }

  lemma {:induction false} FirstLetterBits(c: char, rest: string, group: Bits, bits: Bits)
    requires LetterPlace(c, 0).Some? && BitsOf(LetterPlace(c, 0).value, 5) == group && LetterBits(rest) == Some(bits)
    ensures LetterBits([c] + rest) == Some(group + bits)
  {
    assert ([c] + rest)[1..] == rest;
  }

  // The bits come back, with those that filled up the last group.
  lemma {:induction false} LettersInvert(bits: Bits)
    ensures LetterBits(Letters(bits)) == Some(bits + Filling(|bits|))
    decreases |bits|
  {
    if bits == [] {
      assert bits + Filling(0) == [];
    } else if |bits| < 5 {
      LastLetterInverts(bits);
    } else {
      GroupInverts(bits[..5]);
      LettersInvert(bits[5..]);
      FillingRepeats(|bits|);
      FirstLetterBits(GroupLetter(bits[..5]), Letters(bits[5..]), bits[..5], bits[5..] + Filling(|bits|));
      Rejoined(bits, Filling(|bits|));
    }
  }

  lemma {:induction false} LastLetterInverts(bits: Bits)
    requires 0 < |bits| < 5
    ensures LetterBits(Letters(bits)) == Some(bits + Filling(|bits|))
  {
    var group := bits + Filling(|bits|);
    assert group == bits + seq(5 - |bits|, i => false);
    GroupInverts(group);
    FirstLetterBits(GroupLetter(group), "", group, []);
    assert [GroupLetter(group)] + "" == Letters(bits) && group + [] == group;
  }

  lemma Rejoined(bits: Bits, filling: Bits)
    requires |bits| >= 5
    ensures bits[..5] + (bits[5..] + filling) == bits + filling
  {
  }

  lemma {:induction false} FirstByteOfBits(b: byte, rest: Bits, bytes: Bytes)
    requires BytesOfBits(rest) == Some(bytes)
    ensures BytesOfBits(BitsOf(b as int, 8) + rest) == Some([b] + bytes)
  {
    var bits := BitsOf(b as int, 8) + rest;
    assert bits[..8] == BitsOf(b as int, 8) && bits[8..] == rest;
    assert Power2(8) == 256;
    BitsInvert(b as int, 8, 256);
  }

  lemma {:induction false} BytesInvert(raw: Bytes, filling: Bits)
    requires |filling| < 5 && forall i :: 0 <= i < |filling| ==> !filling[i]
    ensures BytesOfBits(ByteBits(raw) + filling) == Some(raw)
    decreases |raw|
  {
    if raw == [] {
      assert ByteBits(raw) + filling == filling;
    } else {
      BytesInvert(raw[1..], filling);
      FirstByteOfBits(raw[0], ByteBits(raw[1..]) + filling, raw[1..]);
      assert ByteBits(raw) + filling == BitsOf(raw[0] as int, 8) + (ByteBits(raw[1..]) + filling);
      assert [raw[0]] + raw[1..] == raw;
    }
  }

  // Every byte string survives, under the RFC's alphabet and bit order.
  lemma Decode32InvertsBase32(raw: Bytes)
    ensures Decode32(Base32(raw)) == Some(raw)
  {
    LettersInvert(ByteBits(raw));
    BytesInvert(raw, Filling(|ByteBits(raw)|));
  }
}
