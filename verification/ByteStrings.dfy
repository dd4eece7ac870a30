// Bytes, hexadecimal text and hash collisions, as the rest of the model sees them.
//
// SHA-256 is never defined: every definition that hashes takes the hash function as
// a parameter, and what is proved holds for every function into 32-byte strings.

module ByteStrings {
  datatype Option<+T> = None | Some(value: T)

  newtype byte = b: int | 0 <= b < 256
  type Bytes = seq<byte>
  type Digest = d: Bytes | |d| == 32 witness seq(32, _ => 0)
  type Hash = Bytes -> Digest

  // ---------------------------------------------------------------- collisions

  predicate Collides(sha: Hash, x: Bytes, y: Bytes) {
    x != y && sha(x) == sha(y)
  }

  // Two different strings with one digest, taken from two given finite sets. The
  // sets are always the strings that two concrete computations hashed, so a
  // collision is something the two computations put in front of the reader.
  ghost predicate Collision(sha: Hash, xs: set<Bytes>, ys: set<Bytes>) {
    exists x, y :: x in xs && y in ys && Collides(sha, x, y)
  }

  lemma CollisionMonotone(sha: Hash, xs: set<Bytes>, ys: set<Bytes>, xs': set<Bytes>, ys': set<Bytes>)
    requires Collision(sha, xs, ys) && xs <= xs' && ys <= ys'
    ensures Collision(sha, xs', ys')
  {
    var x, y :| x in xs && y in ys && Collides(sha, x, y);
    assert x in xs' && y in ys' && Collides(sha, x, y);
  }

  lemma CollisionFound(sha: Hash, xs: set<Bytes>, ys: set<Bytes>, x: Bytes, y: Bytes)
    requires x in xs && y in ys && Collides(sha, x, y)
    ensures Collision(sha, xs, ys)
  {
  }

  // ---------------------------------------------------------------- hexadecimal

  const HEX_DIGITS: string := "0123456789abcdef"

  function HexDigit(n: int): char
    requires 0 <= n < 16
  {
    HEX_DIGITS[n]
  }

  // Upper-case digits are read too, as `bytes.fromhex` reads them.
  function HexValue(c: char): Option<int> {
    if '0' <= c <= '9' then Some(c as int - '0' as int)
    else if 'a' <= c <= 'f' then Some(c as int - 'a' as int + 10)
    else if 'A' <= c <= 'F' then Some(c as int - 'A' as int + 10)
    else None
  }

  predicate IsSpace(c: char) {
    c == ' ' || c == '\t' || c == '\n' || c == '\r' || c as int == 11 || c as int == 12
  }

  function ToHex(b: Bytes): string {
    if b == [] then ""
    else [HexDigit(b[0] as int / 16), HexDigit(b[0] as int % 16)] + ToHex(b[1..])
  }

  // `bytes.fromhex`: white space is allowed between bytes but not inside one.
  function FromHex(s: string): Option<Bytes> {
    if s == "" then Some([])
    else if IsSpace(s[0]) then FromHex(s[1..])
    else if |s| < 2 || HexValue(s[0]).None? || HexValue(s[1]).None? then None
    else
      match FromHex(s[2..])
      case None => None
      case Some(rest) => Some([ByteOf(HexValue(s[0]).value, HexValue(s[1]).value)] + rest)
  }

  function ByteOf(high: int, low: int): byte {
    ((high * 16 + low) % 256) as byte
  }

  lemma HexDigitInverts(n: int)
    requires 0 <= n < 16
    ensures HexValue(HexDigit(n)) == Some(n) && !IsSpace(HexDigit(n))
  {
  }

  lemma ByteOfHalves(b: byte)
    ensures 0 <= b as int / 16 < 16 && 0 <= b as int % 16 < 16
    ensures ByteOf(b as int / 16, b as int % 16) == b
  {
  }

  lemma {:induction false} FromHexStep(b: byte, rest: string)
    requires FromHex(rest).Some?
    ensures FromHex([HexDigit(b as int / 16), HexDigit(b as int % 16)] + rest) == Some([b] + FromHex(rest).value)
  {
    ByteOfHalves(b);
    HexDigitInverts(b as int / 16);
    HexDigitInverts(b as int % 16);
    var s := [HexDigit(b as int / 16), HexDigit(b as int % 16)] + rest;
    assert s[2..] == rest;
  }

  lemma {:induction false} FromHexInvertsToHex(b: Bytes)
    ensures FromHex(ToHex(b)) == Some(b)
    ensures |ToHex(b)| == 2 * |b|
  {
    if |b| > 0 {
      FromHexInvertsToHex(b[1..]);
      FromHexStep(b[0], ToHex(b[1..]));
      assert [b[0]] + b[1..] == b;
    }
  }

  // Two lower-case digits a byte, the high one first.
  lemma {:induction false} ToHexAt(b: Bytes, k: nat)
    requires k < |b|
    ensures |ToHex(b)| == 2 * |b|
    ensures ToHex(b)[2 * k] == "0123456789abcdef"[b[k] as int / 16]
    ensures ToHex(b)[2 * k + 1] == "0123456789abcdef"[b[k] as int % 16]
  {
    FromHexInvertsToHex(b);
    if k > 0 {
      ToHexAt(b[1..], k - 1);
    }
  }

  // A digit in either case, and its value.
  predicate Denotes(c: char, n: int) {
    0 <= n < 16 && (c == "0123456789abcdef"[n] || c == "0123456789ABCDEF"[n])
  }

  lemma HexValueExactlyWhen(c: char, n: int)
    ensures HexValue(c) == Some(n) <==> Denotes(c, n)
  {
  }

  // `b` is written by the pairs of digits of `s`.
  predicate Spells(s: string, b: Bytes) {
    && |s| == 2 * |b|
    && forall k :: 0 <= k < |b| ==> Denotes(s[2 * k], b[k] as int / 16) && Denotes(s[2 * k + 1], b[k] as int % 16)
  }

  lemma HalvesOfByte(high: int, low: int, b: byte)
    requires 0 <= high < 16 && 0 <= low < 16
    ensures ByteOf(high, low) == b <==> high == b as int / 16 && low == b as int % 16
  {
    var n := high * 16 + low;
    assert 0 <= n < 256 && n / 16 == high && n % 16 == low;
    ByteOfHalves(b);
  }

  lemma {:induction false} HexOfPair(s: string, b: Bytes)
    requires |s| >= 2 && |b| > 0 && !IsSpace(s[0])
    ensures FromHex(s) == Some(b) <==>
            && Denotes(s[0], b[0] as int / 16) && Denotes(s[1], b[0] as int % 16)
            && FromHex(s[2..]) == Some(b[1..])
  {
    HexValueExactlyWhen(s[0], b[0] as int / 16);
    HexValueExactlyWhen(s[1], b[0] as int % 16);
    if FromHex(s).Some? {
      var high, low, rest := HexValue(s[0]).value, HexValue(s[1]).value, FromHex(s[2..]).value;
      assert FromHex(s).value == [ByteOf(high, low)] + rest;
      HalvesOfByte(high, low, b[0]);
      assert b == [b[0]] + b[1..];
      assert FromHex(s).value[1..] == rest;
    } else if HexValue(s[0]) == Some(b[0] as int / 16) && HexValue(s[1]) == Some(b[0] as int % 16) {
      assert FromHex(s[2..]).None?;
    }
  }

  lemma SpellsOn(s: string, b: Bytes)
    requires Spells(s, b) && |b| > 0
    ensures Denotes(s[0], b[0] as int / 16) && Denotes(s[1], b[0] as int % 16) && Spells(s[2..], b[1..])
  {
    assert Denotes(s[2 * 0], b[0] as int / 16) && Denotes(s[2 * 0 + 1], b[0] as int % 16);
    forall k | 0 <= k < |b[1..]|
      ensures Denotes(s[2..][2 * k], b[1..][k] as int / 16) && Denotes(s[2..][2 * k + 1], b[1..][k] as int % 16)
    {
      assert s[2..][2 * k] == s[2 * (k + 1)] && s[2..][2 * k + 1] == s[2 * (k + 1) + 1];
    }
  }

  lemma SpellsFrom(s: string, b: Bytes)
    requires |s| >= 2 && |b| > 0
    requires Denotes(s[0], b[0] as int / 16) && Denotes(s[1], b[0] as int % 16) && Spells(s[2..], b[1..])
    ensures Spells(s, b)
  {
    forall k | 0 <= k < |b|
      ensures Denotes(s[2 * k], b[k] as int / 16) && Denotes(s[2 * k + 1], b[k] as int % 16)
    {
      if k > 0 {
        assert s[2..][2 * (k - 1)] == s[2 * k] && s[2..][2 * (k - 1) + 1] == s[2 * k + 1];
      }
    }
  }

  // Text without white space is read if and only if it is pairs of digits.
  lemma {:induction false} FromHexExactlyWhen(s: string, b: Bytes)
    requires forall k :: 0 <= k < |s| ==> s[k] as int != 32 && !(9 <= s[k] as int <= 13)
    ensures FromHex(s) == Some(b) <==> Spells(s, b)
  {
    if |s| >= 2 && |b| > 0 {
      HexOfPair(s, b);
      FromHexExactlyWhen(s[2..], b[1..]);
      if Spells(s, b) {
        SpellsOn(s, b);
      }
      if Spells(s[2..], b[1..]) && Denotes(s[0], b[0] as int / 16) && Denotes(s[1], b[0] as int % 16) {
        SpellsFrom(s, b);
      }
    }
  }

  lemma {:induction false} SameAfterPair(pair: string, x: string, y: string)
    requires |pair| == 2 && !IsSpace(pair[0]) && FromHex(x) == FromHex(y)
    ensures FromHex(pair + x) == FromHex(pair + y)
  {
    assert (pair + x)[2..] == x && (pair + y)[2..] == y;
  }

  lemma Regroup(p: string, t: string, c: string, rest: string)
    ensures p + t + c + rest == p + (t + c + rest) && p + t + rest == p + (t + rest)
  {
  }

  lemma {:induction false} SkippedAfterPair(p: string, t: string, c: string, rest: string)
    requires |p| == 2 && !IsSpace(p[0]) && FromHex(t + c + rest) == FromHex(t + rest)
    ensures FromHex(p + t + c + rest) == FromHex(p + t + rest)
  {
    SameAfterPair(p, t + c + rest, t + rest);
    Regroup(p, t, c, rest);
  }

  lemma {:induction false} SpaceFirst(c: char, rest: string)
    requires c as int == 32 || 9 <= c as int <= 13
    ensures FromHex([c] + rest) == FromHex(rest)
  {
    var s := [c] + rest;
    assert s != "" && s[0] == c && s[1..] == rest;
    assert IsSpace(s[0]);
  }

  // White space is skipped before a pair and after one.
  lemma {:induction false} SpaceIsSkipped(s: string, b: Bytes, c: char, rest: string)
    requires Spells(s, b) && (c as int == 32 || 9 <= c as int <= 13)
    ensures FromHex(s + [c] + rest) == FromHex(s + rest)
  {
    if |s| == 0 {
      assert s + [c] + rest == [c] + rest && s + rest == rest;
      SpaceFirst(c, rest);
    } else {
      SpellsOn(s, b);
      HexValueExactlyWhen(s[0], b[0] as int / 16);
      SpaceIsSkipped(s[2..], b[1..], c, rest);
      SkippedAfterPair(s[..2], s[2..], [c], rest);
      assert s == s[..2] + s[2..];
    }
  }

  // It is refused inside a pair.
  lemma {:induction false} SpaceSplitsNoPair(h: char, c: char, rest: string)
    requires h as int != 32 && !(9 <= h as int <= 13) && (c as int == 32 || 9 <= c as int <= 13)
    ensures FromHex([h, c] + rest).None?
  {
    assert HexValue(c).None?;
  }

  lemma {:induction false} ToHexInjective(a: Bytes, b: Bytes)
    requires ToHex(a) == ToHex(b)
    ensures a == b
  {
    FromHexInvertsToHex(a);
    FromHexInvertsToHex(b);
  }
}
