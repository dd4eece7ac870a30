// Base 128 varints: edgegrid/weights.py, `_varint`, as described under "Base 128
// Varints" in the Protocol Buffers encoding guide.

module Varints {
  import opened ByteStrings

  function Varint(n: nat): (v: Bytes)
    ensures v != []
  {
    if n < 128 then [n as byte] else [(n % 128 + 128) as byte] + Varint(n / 128)
  }

  // `None` is the `ValueError` for a negative number.
  method EncodeVarint(number: int) returns (encoded: Option<Bytes>)
    ensures encoded == if number < 0 then None else Some(Varint(number))
  {
    if number < 0 {
      return None;
    }
    var n: nat := number;
    var out: Bytes := [];
    while true
      invariant out + Varint(n) == Varint(number)
      decreases n
    {
      var b := n % 128;
      ghost var before := out;
      ghost var n0 := n;
      n := n / 128;
      out := out + [(if n == 0 then b else b + 128) as byte];
      assert before + Varint(n0) == before + ([out[|before|]] + if n == 0 then [] else Varint(n));
      if n == 0 {
        return Some(out);
      }
    }
  }

  // Reads one varint and leaves what follows it.
  function DecodeVarint(b: Bytes): Option<(nat, Bytes)> {
    if b == [] then None
    else if b[0] < 128 then Some((b[0] as nat, b[1..]))
    else
      match DecodeVarint(b[1..])
      case None => None
      case Some((high, rest)) => Some((high * 128 + (b[0] as nat - 128), rest))
  }

  lemma {:induction false} DecodeInvertsVarint(n: nat, rest: Bytes)
    ensures DecodeVarint(Varint(n) + rest) == Some((n, rest))
    decreases n
  {
    var all := Varint(n) + rest;
    if n < 128 {
      assert all[1..] == rest;
    } else {
      DecodeInvertsVarint(n / 128, rest);
      assert all[1..] == Varint(n / 128) + rest;
    }
  }

  // No encoding of a number is shorter, and none of the same length is different.
  lemma {:induction false} VarintIsMinimal(n: nat, encoded: Bytes)
    requires DecodeVarint(encoded) == Some((n, []))
    ensures |Varint(n)| <= |encoded|
    ensures |Varint(n)| == |encoded| ==> Varint(n) == encoded
    decreases |encoded|
  {
    if encoded[0] >= 128 {
      var high := DecodeVarint(encoded[1..]).value.0;
      VarintIsMinimal(high, encoded[1..]);
      assert n / 128 == high && n % 128 == encoded[0] as nat - 128;
      assert encoded == [encoded[0]] + encoded[1..];
    }
  }

  // Varints are prefix free, which is what makes the serialised messages unambiguous.
  lemma {:induction false} VarintPrefixFree(m: nat, n: nat, a: Bytes, b: Bytes)
    requires Varint(m) + a == Varint(n) + b
    ensures m == n && a == b
  {
    DecodeInvertsVarint(m, a);
    DecodeInvertsVarint(n, b);
  }
}
