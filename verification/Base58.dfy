// base58btc, as CIDv0 is printed: edgegrid/weights.py, `_b58encode`.

module Base58 {
  import opened ByteStrings

  // ---------------------------------------------------------------- positional notation

  // The two bases that numbers are written in.
  datatype Base = Letter58 | Byte256 {
    function Size(): nat {
      match this
      case Letter58 => 58
      case Byte256 => 256
    }

    function Append(n: nat, digit: nat): nat {
      match this
      case Letter58 => n * 58 + digit
      case Byte256 => n * 256 + digit
    }

    function Front(n: nat): nat {
      match this
      case Letter58 => n / 58
      case Byte256 => n / 256
    }

    function Last(n: nat): nat {
      match this
      case Letter58 => n % 58
      case Byte256 => n % 256
    }
  }

  function FromDigits(digits: seq<nat>, base: Base): nat {
    if digits == [] then 0
    else base.Append(FromDigits(digits[..|digits| - 1], base), digits[|digits| - 1])
  }

  // Most significant digit first, no leading zero.
  function ToDigits(n: nat, base: Base): seq<nat> {
    if n == 0 then [] else ToDigits(base.Front(n), base) + [base.Last(n)]
  }

  predicate AreDigits(digits: seq<nat>, base: Base) {
    forall i :: 0 <= i < |digits| ==> digits[i] < base.Size()
  }

  lemma {:induction false} DigitsOfNumber(n: nat, base: Base)
    ensures FromDigits(ToDigits(n, base), base) == n
    ensures AreDigits(ToDigits(n, base), base)
    ensures n > 0 ==> ToDigits(n, base) != [] && ToDigits(n, base)[0] != 0
    decreases n
  {
    if n > 0 {
      DigitsOfNumber(base.Front(n), base);
      var digits := ToDigits(n, base);
      assert digits[..|digits| - 1] == ToDigits(base.Front(n), base);
    }
  }

  lemma AppendSplits(n: nat, digit: nat, base: Base)
    requires digit < base.Size()
    ensures base.Front(base.Append(n, digit)) == n && base.Last(base.Append(n, digit)) == digit
    ensures n > 0 || digit > 0 ==> base.Append(n, digit) > 0
  {
  }

  lemma {:induction false} NumberOfDigits(digits: seq<nat>, base: Base)
    requires AreDigits(digits, base)
    requires digits != [] ==> digits[0] != 0
    ensures ToDigits(FromDigits(digits, base), base) == digits
    ensures digits != [] ==> FromDigits(digits, base) > 0
    decreases |digits|
  {
    if digits != [] {
      var front, last := digits[..|digits| - 1], digits[|digits| - 1];
      NumberOfDigits(front, base);
      AppendSplits(FromDigits(front, base), last, base);
      assert digits == front + [last];
    }
  }

  // ---------------------------------------------------------------- encoding

  // The letter of a digit: digits and letters in ASCII order without 0, I, O and l.
  function Letter(digit: nat): char
    requires digit < 58
  {
    if digit < 9 then '1' + digit as char
    else if digit < 17 then 'A' + (digit - 9) as char
    else if digit < 22 then 'J' + (digit - 17) as char
    else if digit < 33 then 'P' + (digit - 22) as char
    else if digit < 44 then 'a' + (digit - 33) as char
    else 'm' + (digit - 44) as char
  }

  function LetterValue(c: char): Option<nat> {
    if '1' <= c <= '9' then Some(c as int - '1' as int)
    else if 'A' <= c <= 'H' then Some(c as int - 'A' as int + 9)
    else if 'J' <= c <= 'N' then Some(c as int - 'J' as int + 17)
    else if 'P' <= c <= 'Z' then Some(c as int - 'P' as int + 22)
    else if 'a' <= c <= 'k' then Some(c as int - 'a' as int + 33)
    else if 'm' <= c <= 'z' then Some(c as int - 'm' as int + 44)
    else None
  }

  lemma LetterInverts(digit: nat)
    requires digit < 58
    ensures LetterValue(Letter(digit)) == Some(digit)
  {
  }

  lemma LettersAreTheAlphabet()
    ensures seq(58, d requires 0 <= d < 58 => Letter(d)) ==
            "123456789" + "ABCDEFGH" + "JKLMN" + "PQRSTUVWXYZ" + "abcdefghijk" + "mnopqrstuvwxyz"
  {
    var letters := seq(58, d requires 0 <= d < 58 => Letter(d));
    assert letters[..9] == "123456789";
    assert letters[9..17] == "ABCDEFGH";
    assert letters[17..22] == "JKLMN";
    assert letters[22..33] == "PQRSTUVWXYZ";
    assert letters[33..44] == "abcdefghijk";
    assert letters[44..] == "mnopqrstuvwxyz";
    assert letters == letters[..9] + letters[9..17] + letters[17..22] + letters[22..33] + letters[33..44]
                      + letters[44..];
  }

  function ByteDigits(raw: Bytes): seq<nat> {
    seq(|raw|, i requires 0 <= i < |raw| => raw[i] as nat)
  }

  // `int.from_bytes(raw, "big")`
  function BigEndian(raw: Bytes): nat { FromDigits(ByteDigits(raw), Byte256) }

  function LeadingZeros(raw: Bytes): (k: nat)
    ensures k <= |raw|
    ensures forall i :: 0 <= i < k ==> raw[i] == 0
    ensures k < |raw| ==> raw[k] != 0
  {
    if raw == [] || raw[0] != 0 then 0 else 1 + LeadingZeros(raw[1..])
  }

  function Ones(k: nat): string {
    seq(k, i => '1')
  }

  function Letters(digits: seq<nat>): string
    requires AreDigits(digits, Letter58)
  {
    seq(|digits|, i requires 0 <= i < |digits| => Letter(digits[i]))
  }

  function NumberText(n: nat): string {
    DigitsOfNumber(n, Letter58);
    Letters(ToDigits(n, Letter58))
  }

  function Base58(raw: Bytes): string {
    Ones(LeadingZeros(raw)) + NumberText(BigEndian(raw))
  }

  lemma NumberTextStep(n: nat)
    requires n > 0
    ensures NumberText(n) == NumberText(n / 58) + [Letter(n % 58)]
  {
    DigitsOfNumber(n / 58, Letter58);
  }

  method EncodeNumber(number: nat) returns (out: string)
    ensures out == NumberText(number)
  {
    var n := number;
    out := "";
    while n > 0
      invariant NumberText(n) + out == NumberText(number)
    {
      NumberTextStep(n);
      assert NumberText(n) + out == NumberText(n / 58) + ([Letter(n % 58)] + out);
      out := [Letter(n % 58)] + out;
      n := n / 58;
    }
  }

  method Encode58(raw: Bytes) returns (out: string)
    ensures out == Base58(raw)
  {
    var number := EncodeNumber(BigEndian(raw));
    out := PrependOnes(raw, number);
  }

  method PrependOnes(raw: Bytes, text: string) returns (out: string)
    ensures out == Ones(LeadingZeros(raw)) + text
  {
    out := text;
    var i := 0;
    while i < |raw| && raw[i] == 0
      invariant 0 <= i <= LeadingZeros(raw)
      invariant out == Ones(i) + text
    {
      assert ['1'] + Ones(i) == Ones(i + 1);
      out := ['1'] + out;
      i := i + 1;
    }
  }

  // ---------------------------------------------------------------- decoding

  function LetterDigits(text: string): Option<seq<nat>> {
    if text == "" then Some([])
    else
      match (LetterDigits(text[..|text| - 1]), LetterValue(text[|text| - 1]))
      case (Some(front), Some(last)) => Some(front + [last])
      case _ => None
  }

  function LeadingOnes(text: string): (k: nat)
    ensures k <= |text|
  {
    if text == "" || text[0] != '1' then 0 else 1 + LeadingOnes(text[1..])
  }

  function ToBytes(digits: seq<nat>): Bytes
    requires AreDigits(digits, Byte256)
  {
    seq(|digits|, i requires 0 <= i < |digits| => digits[i] as byte)
  }

  function NumberBytes(n: nat): Bytes {
    DigitsOfNumber(n, Byte256);
    ToBytes(ToDigits(n, Byte256))
  }

  // As many zero bytes as leading ones, then the number in as few bytes as it takes.
  function Decode58(text: string): Option<Bytes> {
    var k := LeadingOnes(text);
    match LetterDigits(text[k..])
    case None => None
    case Some(digits) => Some(seq(k, i => 0) + NumberBytes(FromDigits(digits, Letter58)))
  }

  lemma {:induction false} LettersInvert(digits: seq<nat>)
    requires AreDigits(digits, Letter58)
    ensures LetterDigits(Letters(digits)) == Some(digits)
    decreases |digits|
  {
    if digits != [] {
      var text, front := Letters(digits), digits[..|digits| - 1];
      LettersInvert(front);
      assert text[..|text| - 1] == Letters(front);
      LetterInverts(digits[|digits| - 1]);
      assert front + [digits[|digits| - 1]] == digits;
    }
  }

  lemma {:induction false} OnesAreCounted(k: nat, text: string)
    requires text != "" ==> text[0] != '1'
    ensures LeadingOnes(Ones(k) + text) == k && (Ones(k) + text)[k..] == text
    decreases k
  {
    var all := Ones(k) + text;
    if k > 0 {
      OnesAreCounted(k - 1, text);
      assert all[1..] == Ones(k - 1) + text;
    }
  }

  lemma {:induction false} ZerosAddNothing(raw: Bytes, k: nat)
    requires k <= |raw| && forall i :: 0 <= i < k ==> raw[i] == 0
    ensures BigEndian(raw) == BigEndian(raw[k..])
    decreases |raw|
  {
    if k == |raw| {
      if raw != [] {
        ZerosAddNothing(raw[..|raw| - 1], k - 1);
        assert ByteDigits(raw)[..|raw| - 1] == ByteDigits(raw[..|raw| - 1]);
      }
    } else {
      var front := raw[..|raw| - 1];
      ZerosAddNothing(front, k);
      assert ByteDigits(raw)[..|raw| - 1] == ByteDigits(front);
      assert ByteDigits(raw[k..])[..|raw| - k - 1] == ByteDigits(front[k..]);
    }
  }

  lemma {:induction false} NumberTextInverts(n: nat)
    ensures LetterDigits(NumberText(n)) == Some(ToDigits(n, Letter58))
    ensures FromDigits(ToDigits(n, Letter58), Letter58) == n
    ensures NumberText(n) != "" ==> NumberText(n)[0] != '1'
  {
    DigitsOfNumber(n, Letter58);
    LettersInvert(ToDigits(n, Letter58));
  }

  lemma NumberBytesInvert(raw: Bytes)
    requires raw != [] ==> raw[0] != 0
    ensures NumberBytes(BigEndian(raw)) == raw
  {
    NumberOfDigits(ByteDigits(raw), Byte256);
  }

  // Every byte string survives, leading zero bytes included.
  lemma Decode58InvertsBase58(raw: Bytes)
    ensures Decode58(Base58(raw)) == Some(raw)
  {
    var k := LeadingZeros(raw);
    ZerosAddNothing(raw, k);
    NumberBytesInvert(raw[k..]);
    NumberTextInverts(BigEndian(raw));
    OnesAreCounted(k, NumberText(BigEndian(raw)));
    ZerosLead(raw, k);
  }

  lemma ZerosLead(raw: Bytes, k: nat)
    requires k <= |raw| && forall i :: 0 <= i < k ==> raw[i] == 0
    ensures seq(k, i => 0 as byte) + raw[k..] == raw
  {
  }

  lemma Base58Injective(a: Bytes, b: Bytes)
    requires Base58(a) == Base58(b)
    ensures a == b
  {
    Decode58InvertsBase58(a);
    Decode58InvertsBase58(b);
  }
}
