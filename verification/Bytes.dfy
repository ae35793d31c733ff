/** Bytes as eight-bit words, and characters as bytes. */
module Bytes {

  type Byte = bv8

  /** A number below sixteen as a machine word. */
  function Nibble(k: nat): Byte
    requires k < 16
  {
    if k < 8 then
      if k < 4 then (if k < 2 then (if k == 0 then 0 else 1) else if k == 2 then 2 else 3)
      else (if k < 6 then (if k == 4 then 4 else 5) else if k == 6 then 6 else 7)
    else
      if k < 12 then (if k < 10 then (if k == 8 then 8 else 9) else if k == 10 then 10 else 11)
      else (if k < 14 then (if k == 12 then 12 else 13) else if k == 14 then 14 else 15)
  }

  function Join(high: Byte, low: Byte): Byte {
    (high << 4) | low
  }

  lemma NibbleValue(k: nat)
    requires k < 16
    ensures Nibble(k) <= 15 && Nibble(k) as int == k
  {
  }

  /** A number below 256 as a machine byte. */
  function LowByte(n: nat): Byte
    requires n < 256
  {
    Join(Nibble(n / 16), Nibble(n % 16))
  }

  lemma LowByteValue(n: nat)
    requires n < 256
    ensures LowByte(n) as int == n
  {
    NibbleValue(n / 16);
    NibbleValue(n % 16);
  }

  lemma DigitBytes()
    ensures LowByte(0x30) == 0x30 && LowByte(0x31) == 0x31 && LowByte(0x33) == 0x33
    ensures LowByte(0x34) == 0x34 && LowByte(0x36) == 0x36 && LowByte(0x39) == 0x39
  {
  }

  /** The byte values of one character in UTF-8, section 3 of RFC 3629. */
  function Codes(n: nat): (v: seq<nat>)
    requires n < 0x11_0000
    ensures v != [] && (forall x | x in v :: x < 256) && (n < 0x80 ==> v == [n])
  {
    if n < 0x80 then [n]
    else if n < 0x800 then [0xC0 + n / 0x40, 0x80 + n % 0x40]
    else if n < 0x1_0000 then [0xE0 + n / 0x1000, 0x80 + n / 0x40 % 0x40, 0x80 + n % 0x40]
    else [0xF0 + n / 0x4_0000, 0x80 + n / 0x1000 % 0x40, 0x80 + n / 0x40 % 0x40, 0x80 + n % 0x40]
  }

  /** One character as bytes. */
  function CharBytes(c: char): (b: seq<Byte>)
    ensures |b| == |Codes(c as int)|
  {
    var v := Codes(c as int);
    seq(|v|, i requires 0 <= i < |v| => assert v[i] in v; LowByte(v[i]))
  }

  function Values(b: seq<Byte>): seq<int> {
    seq(|b|, i requires 0 <= i < |b| => b[i] as int)
  }

  predicate Continues(v: int) {
    0x80 <= v < 0xC0
  }

  /** The byte values are the shortest form of the number in the table of section 3 of RFC 3629. */
  predicate Encodes(v: seq<int>, n: int) {
    || (|v| == 1 && 0 <= v[0] < 0x80 && n == v[0])
    || (|v| == 2 && 0xC0 <= v[0] < 0xE0 && Continues(v[1]) && n >= 0x80 && n == (v[0] - 0xC0) * 0x40 + (v[1] - 0x80))
    || (|v| == 3 && 0xE0 <= v[0] < 0xF0 && Continues(v[1]) && Continues(v[2]) && n >= 0x800
        && n == (v[0] - 0xE0) * 0x1000 + (v[1] - 0x80) * 0x40 + (v[2] - 0x80))
    || (|v| == 4 && 0xF0 <= v[0] < 0xF8 && Continues(v[1]) && Continues(v[2]) && Continues(v[3]) && n >= 0x1_0000
        && n == (v[0] - 0xF0) * 0x4_0000 + (v[1] - 0x80) * 0x1000 + (v[2] - 0x80) * 0x40 + (v[3] - 0x80))
  }

  lemma SixBitsApart(n: nat)
    ensures n == n / 0x40 * 0x40 + n % 0x40
    ensures n / 0x40 == n / 0x1000 * 0x40 + n / 0x40 % 0x40
    ensures n / 0x1000 == n / 0x4_0000 * 0x40 + n / 0x1000 % 0x40
  {
  }

  lemma TwoEncode(a: nat, b: nat, n: nat)
    requires 0x80 <= n == a * 0x40 + b && a < 0x20 && b < 0x40
    ensures Encodes([0xC0 + a, 0x80 + b], n)
  {
  }

  lemma ThreeEncode(a: nat, b: nat, c: nat, n: nat)
    requires 0x800 <= n == a * 0x1000 + b * 0x40 + c && a < 0x10 && b < 0x40 && c < 0x40
    ensures Encodes([0xE0 + a, 0x80 + b, 0x80 + c], n)
  {
  }

  lemma FourEncode(a: nat, b: nat, c: nat, d: nat, n: nat)
    requires 0x1_0000 <= n == a * 0x4_0000 + b * 0x1000 + c * 0x40 + d && a < 8 && b < 0x40 && c < 0x40 && d < 0x40
    ensures Encodes([0xF0 + a, 0x80 + b, 0x80 + c, 0x80 + d], n)
  {
  }

  lemma CodesEncode(n: nat)
    requires n < 0x11_0000
    ensures Encodes(Codes(n), n)
  {
    SixBitsApart(n);
    if 0x80 <= n < 0x800 {
      TwoEncode(n / 0x40, n % 0x40, n);
    } else if 0x800 <= n < 0x1_0000 {
      ThreeEncode(n / 0x1000, n / 0x40 % 0x40, n % 0x40, n);
    } else if 0x1_0000 <= n {
      FourEncode(n / 0x4_0000, n / 0x1000 % 0x40, n / 0x40 % 0x40, n % 0x40, n);
    }
  }

  lemma ValuesAreCodes(c: char)
    ensures Values(CharBytes(c)) == Codes(c as int)
  {
    var v := Codes(c as int);
    forall i | 0 <= i < |v| ensures Values(CharBytes(c))[i] == v[i] {
      assert v[i] in v;
      LowByteValue(v[i]);
    }
  }

  /** A character's bytes are its encoding. */
  lemma BytesEncode(c: char)
    ensures Encodes(Values(CharBytes(c)), c as int)
  {
    CodesEncode(c as int);
    ValuesAreCodes(c);
  }

  /** No byte values encode two numbers. */
  lemma EncodesOne(v: seq<int>, n: int, m: int)
    requires Encodes(v, n) && Encodes(v, m)
    ensures n == m
  {
  }
}
