/** Standard base64 with padding (section 4 of RFC 4648), encoded and decoded the
    way encoding/base64's StdEncoding does: the decoder skips line breaks and does
    not look at the unused bits of the last quantum. */
module Base64 {
  import opened Text

  type Byte = b: int | 0 <= b < 256

  type Bytes = seq<Byte>

  type Sextet = n: int | 0 <= n < 64

  /** The character of one six-bit digit. */
  function Digit(n: Sextet): char {
    if n < 26 then ('A' as int + n) as char
    else if n < 52 then ('a' as int + (n - 26)) as char
    else if n < 62 then ('0' as int + (n - 52)) as char
    else if n == 62 then '+'
    else '/'
  }

  /** The digit a character stands for. */
  function Value(c: char): Option<Sextet> {
    if 'A' <= c <= 'Z' then Some(c as int - 'A' as int)
    else if 'a' <= c <= 'z' then Some(c as int - 'a' as int + 26)
    else if '0' <= c <= '9' then Some(c as int - '0' as int + 52)
    else if c == '+' then Some(62)
    else if c == '/' then Some(63)
    else None
  }

  lemma ValueDigit(n: Sextet)
    ensures Value(Digit(n)) == Some(n)
    ensures InAlphabet(Digit(n))
  {
  }

  predicate InAlphabet(c: char) {
    Value(c).Some? || c == '='
  }

  /** EncodeToString. */
  function Encode(bs: Bytes): string {
    if |bs| == 0 then ""
    else if |bs| == 1 then
      [Digit(bs[0] / 4), Digit(bs[0] % 4 * 16), '=', '=']
    else if |bs| == 2 then
      [Digit(bs[0] / 4), Digit(bs[0] % 4 * 16 + bs[1] / 16), Digit(bs[1] % 16 * 4), '=']
    else
      [Digit(bs[0] / 4), Digit(bs[0] % 4 * 16 + bs[1] / 16),
       Digit(bs[1] % 16 * 4 + bs[2] / 64), Digit(bs[2] % 64)] + Encode(bs[3..])
  }

  function FirstByte(a: Sextet, b: Sextet): Byte { a * 4 + b / 16 }

  function SecondByte(b: Sextet, c: Sextet): Byte { b % 16 * 16 + c / 4 }

  function ThirdByte(c: Sextet, d: Sextet): Byte { c % 4 * 64 + d }

  /** The quanta of four characters; only the last may be padded. */
  function DecodeQuanta(s: string): Option<Bytes> {
    if s == "" then Some([])
    else if |s| < 4 then None
    else match (Value(s[0]), Value(s[1]), Value(s[2]), Value(s[3]))
      case (Some(a), Some(b), Some(c), Some(d)) =>
        (match DecodeQuanta(s[4..])
         case None => None
         case Some(rest) => Some([FirstByte(a, b), SecondByte(b, c), ThirdByte(c, d)] + rest))
      case (Some(a), Some(b), Some(c), None) =>
        if s[3..] == "=" then Some([FirstByte(a, b), SecondByte(b, c)]) else None
      case (Some(a), Some(b), None, _) =>
        if s[2..] == "==" then Some([FirstByte(a, b)]) else None
      case _ => None
  }

  function WithoutBreaks(s: string): string {
    if s == "" then ""
    else if s[0] == '\n' || s[0] == '\r' then WithoutBreaks(s[1..])
    else [s[0]] + WithoutBreaks(s[1..])
  }

  /** DecodeString; None stands for a CorruptInputError. */
  function Decode(s: string): Option<Bytes> {
    DecodeQuanta(WithoutBreaks(s))
  }

  lemma {:induction false} EncodeAlphabet(bs: Bytes)
    ensures forall c :: c in Encode(bs) ==> InAlphabet(c)
    ensures bs != [] ==> Encode(bs) != ""
  {
    if |bs| > 2 { EncodeAlphabet(bs[3..]); }
  }

  /** The number that digits to this base stand for, the first the most significant. */
  function Number(base: int, digits: seq<int>): int {
    if digits == [] then 0 else Number(base, digits[..|digits| - 1]) * base + digits[|digits| - 1]
  }

  lemma NumberOfFour(base: int, a: int, b: int, c: int, d: int)
    ensures Number(base, [a, b, c]) == (a * base + b) * base + c
    ensures Number(base, [a, b, c, d]) == ((a * base + b) * base + c) * base + d
  {
    assert [a, b, c, d][..3] == [a, b, c] && [a, b, c][..2] == [a, b] && [a, b][..1] == [a] && [a][..0] == [];
    assert Number(base, [a]) == a;
    assert Number(base, [a, b]) == a * base + b;
  }

  lemma SameBits(x: int, y: int, z: int)
    requires 0 <= x < 256 && 0 <= y < 256 && 0 <= z < 256
    ensures Number(64, [x / 4, x % 4 * 16 + y / 16, y % 16 * 4 + z / 64, z % 64]) == Number(256, [x, y, z])
  {
    NumberOfFour(64, x / 4, x % 4 * 16 + y / 16, y % 16 * 4 + z / 64, z % 64);
    NumberOfFour(256, x, y, z, 0);
  }

  /** Three bytes and the four digits they are written as are the same 24 bits. */
  lemma QuantumIsBits(bs: Bytes)
    requires |bs| >= 3
    ensures var s := Encode(bs);
            && |s| >= 4
            && exists a: int, b: int, c: int, d: int ::
                 && Value(s[0]) == Some(a) && Value(s[1]) == Some(b) && Value(s[2]) == Some(c) && Value(s[3]) == Some(d)
                 && Number(64, [a, b, c, d]) == Number(256, [bs[0], bs[1], bs[2]])
  {
    var x: int, y: int, z: int := bs[0], bs[1], bs[2];
    var a: int, b: int, c: int, d: int := x / 4, x % 4 * 16 + y / 16, y % 16 * 4 + z / 64, z % 64;
    ValueDigit(a);
    ValueDigit(b);
    ValueDigit(c);
    ValueDigit(d);
    SameBits(x, y, z);
    assert Number(64, [a, b, c, d]) == Number(256, [bs[0], bs[1], bs[2]]);
  }

  lemma {:induction false} NothingToSkip(s: string)
    requires forall c :: c in s ==> InAlphabet(c)
    ensures WithoutBreaks(s) == s
  {
    if s != "" {
      assert s[0] in s;
      NothingToSkip(s[1..]);
      assert s == [s[0]] + s[1..];
    }
  }

  lemma OneByte(x: Byte)
    ensures DecodeQuanta([Digit(x / 4), Digit(x % 4 * 16), '=', '=']) == Some([x])
  {
  }

  lemma TwoBytes(x: Byte, y: Byte)
    ensures DecodeQuanta([Digit(x / 4), Digit(x % 4 * 16 + y / 16), Digit(y % 16 * 4), '=']) == Some([x, y])
  {
    var a, b, c := x / 4, x % 4 * 16 + y / 16, y % 16 * 4;
    ValueDigit(a);
    ValueDigit(b);
    ValueDigit(c);
    assert [Digit(a), Digit(b), Digit(c), '='][3..] == "=";
    assert FirstByte(a, b) == x && SecondByte(b, c) == y;
  }

  lemma ThreeBytes(x: Byte, y: Byte, z: Byte, tail: string)
    requires DecodeQuanta(tail).Some?
    ensures DecodeQuanta([Digit(x / 4), Digit(x % 4 * 16 + y / 16), Digit(y % 16 * 4 + z / 64), Digit(z % 64)] + tail)
         == Some([x, y, z] + DecodeQuanta(tail).value)
  {
    var a, b, c, d := x / 4, x % 4 * 16 + y / 16, y % 16 * 4 + z / 64, z % 64;
    ValueDigit(a);
    ValueDigit(b);
    ValueDigit(c);
    ValueDigit(d);
    assert ([Digit(a), Digit(b), Digit(c), Digit(d)] + tail)[4..] == tail;
    assert FirstByte(a, b) == x && SecondByte(b, c) == y && ThirdByte(c, d) == z;
  }

  lemma {:induction false} QuantaRoundTrip(bs: Bytes)
    ensures DecodeQuanta(Encode(bs)) == Some(bs)
  {
    if |bs| == 1 {
      OneByte(bs[0]);
      assert bs == [bs[0]];
    } else if |bs| == 2 {
      TwoBytes(bs[0], bs[1]);
      assert bs == [bs[0], bs[1]];
    } else if |bs| > 2 {
      QuantaRoundTrip(bs[3..]);
      ThreeBytes(bs[0], bs[1], bs[2], Encode(bs[3..]));
      assert bs == [bs[0], bs[1], bs[2]] + bs[3..];
    }
  }

  /** Decoding gives back exactly the encoded bytes, for every byte sequence. */
  lemma RoundTrip(bs: Bytes)
    ensures Decode(Encode(bs)) == Some(bs)
  {
    EncodeAlphabet(bs);
    NothingToSkip(Encode(bs));
    QuantaRoundTrip(bs);
  }
}
