/** CRC-16/CCITT-FALSE as the slip verifier computes it: machine words against polynomials over GF(2). */
module Crc16 {
  import opened Bytes
  import opened Gf2

  /** The mask of the coefficient of x^(15-k). */
  function Mask(k: nat): bv16
    requires k < 16
  {
    if k < 4 then (if k < 2 then (if k == 0 then 0x8000 else 0x4000) else if k == 2 then 0x2000 else 0x1000)
    else if k < 8 then (if k < 6 then (if k == 4 then 0x0800 else 0x0400) else if k == 6 then 0x0200 else 0x0100)
    else if k < 12 then (if k < 10 then (if k == 8 then 0x0080 else 0x0040) else if k == 10 then 0x0020 else 0x0010)
    else (if k < 14 then (if k == 12 then 0x0008 else 0x0004) else if k == 14 then 0x0002 else 0x0001)
  }

  function Bit(r: bv16, k: nat): bool
    requires k < 16
  {
    r & Mask(k) != 0
  }

  /** The bits of a 16-bit register, highest first. */
  function Coefficients(r: bv16): Register {
    seq(16, k requires 0 <= k < 16 => Bit(r, k))
  }

  function BitOfByte(b: Byte, k: nat): bool
    requires k < 8
  {
    Bit(b as bv16, k + 8)
  }

  /** The bits of a byte, highest first. */
  function ByteBits(b: Byte): (bits: Bits)
    ensures |bits| == 8
  {
    seq(8, k requires 0 <= k < 8 => BitOfByte(b, k))
  }

  function MessageBits(bytes: seq<Byte>): (bits: Bits)
    ensures |bits| == 8 * |bytes|
  {
    if bytes == [] then [] else MessageBits(bytes[..|bytes|-1]) + ByteBits(bytes[|bytes|-1])
  }

  /** The checksum as coefficients: what the dividing register holds after the message. */
  function Checksum(bytes: seq<Byte>): Register {
    TakeAll(Ones(16), MessageBits(bytes))
  }

  // ---------- Machine words against coefficients ----------

  lemma BitOfShift(r: bv16, k: nat)
    requires k < 16
    ensures Bit(r << 1, k) == (k < 15 && Bit(r, k + 1))
  {
  }

  lemma SumUnderMask(a: bv16, b: bv16, m: bv16)
    requires m & (m - 1) == 0
    ensures ((a ^ b) & m != 0) == ((a & m != 0) != (b & m != 0))
  {
    assert (a ^ b) & m == (a & m) ^ (b & m);
  }

  lemma MaskIsOneBit(k: nat)
    requires k < 16
    ensures Mask(k) & (Mask(k) - 1) == 0
  {
  }

  lemma BitOfSum(a: bv16, b: bv16, k: nat)
    requires k < 16
    ensures Bit(a ^ b, k) == (Bit(a, k) != Bit(b, k))
  {
    MaskIsOneBit(k);
    SumUnderMask(a, b, Mask(k));
  }

  lemma BitOfHighByte(b: Byte, k: nat)
    requires k < 16
    ensures Bit((b as bv16) << 8, k) == (k < 8 && BitOfByte(b, k))
  {
  }

  lemma BitOfGenerator(k: nat)
    requires k < 16
    ensures Bit(0x1021, k) == (k == 3 || k == 10 || k == 15) == Tail()[k]
  {
  }

  lemma ShiftOfWord(r: bv16)
    ensures Coefficients(r << 1) == Coefficients(r)[1..] + [false]
  {
    forall k: nat | k < 16 ensures Coefficients(r << 1)[k] == (Coefficients(r)[1..] + [false])[k] {
      BitOfShift(r, k);
    }
  }

  lemma SumOfWords(a: bv16, b: bv16)
    ensures Coefficients(a ^ b) == Xor(Coefficients(a), Coefficients(b))
  {
    forall k: nat | k < 16 ensures Coefficients(a ^ b)[k] == Xor(Coefficients(a), Coefficients(b))[k] {
      BitOfSum(a, b, k);
    }
  }

  lemma ReducedWord(r: bv16)
    ensures Coefficients(r ^ 0x1021) == Xor(Coefficients(r), Tail())
  {
    SumOfWords(r, 0x1021);
    forall k: nat | k < 16 ensures Coefficients(0x1021)[k] == Tail()[k] {
      BitOfGenerator(k);
    }
  }

  lemma HighByteOfWord(b: Byte)
    ensures Coefficients((b as bv16) << 8) == ByteBits(b) + Zeros(8)
  {
    forall k: nat | k < 16 ensures Coefficients((b as bv16) << 8)[k] == (ByteBits(b) + Zeros(8))[k] {
      BitOfHighByte(b, k);
    }
  }

  lemma WordPlusByte(r: bv16, b: Byte)
    ensures Coefficients(r ^ ((b as bv16) << 8)) == Xor(Coefficients(r), ByteBits(b) + Zeros(8))
  {
    HighByteOfWord(b);
    SumOfWords(r, (b as bv16) << 8);
  }

  lemma InitialWord()
    ensures Coefficients(0xFFFF) == Ones(16)
  {
    forall k: nat | k < 16 ensures Bit(0xFFFF, k) {
    }
  }

  /** The body of the inner loop: shift, and subtract the generator when the top bit falls out. */
  function Shifted(r: bv16): bv16 {
    if r & 0x8000 != 0 then (r << 1) ^ 0x1021 else r << 1
  }

  /** One pass of the inner loop multiplies the register by x and reduces it. */
  lemma ShiftedIsStep(r: bv16)
    ensures Coefficients(Shifted(r)) == Step(Coefficients(r))
  {
    ShiftOfWord(r);
    assert Bit(r, 0) == (r & 0x8000 != 0);
    if r & 0x8000 != 0 {
      ReducedWord(r << 1);
    } else {
      assert Xor(Coefficients(r << 1), Zeros(16)) == Coefficients(r << 1);
    }
  }

  method ShiftEight(r: bv16) returns (crc: bv16)
    ensures Coefficients(crc) == Steps(Coefficients(r), 8)
  {
    crc := r;
    var bit := 0;
    while bit < 8
      invariant 0 <= bit <= 8
      invariant Steps(Coefficients(crc), 8 - bit) == Steps(Coefficients(r), 8)
    {
      ShiftedIsStep(crc);
      if crc & 0x8000 != 0 {
        crc := (crc << 1) ^ 0x1021;
      } else {
        crc := crc << 1;
      }
      bit := bit + 1;
    }
  }

  /** One byte of the message: added to the high half, then shifted in bit by bit. */
  method FeedByte(r: bv16, b: Byte) returns (crc: bv16)
    ensures Coefficients(crc) == TakeAll(Coefficients(r), ByteBits(b))
  {
    WordPlusByte(r, b);
    TakeAtOnce(Coefficients(r), ByteBits(b));
    crc := ShiftEight(r ^ ((b as bv16) << 8));
  }

  /** The whole computation, for byte strings of any length. */
  method ComputeCrc(bytes: seq<Byte>) returns (crc: bv16)
    ensures Coefficients(crc) == Checksum(bytes)
  {
    crc := 0xFFFF;
    InitialWord();
    var k := 0;
    while k < |bytes|
      invariant k <= |bytes|
      invariant Coefficients(crc) == Checksum(bytes[..k])
    {
      assert bytes[..k+1][..k] == bytes[..k];
      TakeAllSplits(Ones(16), MessageBits(bytes[..k]), ByteBits(bytes[k]));
      crc := FeedByte(crc, bytes[k]);
      k := k + 1;
    }
    assert bytes[..|bytes|] == bytes;
  }

  // ---------- What the checksum is ----------

  /**
   * The checksum is the one remainder of the message polynomial times x^16, with FFFF added to its top sixteen
   * coefficients, on division by x^16 + x^12 + x^5 + 1.
   */
  lemma ChecksumIsTheRemainder(bytes: seq<Byte>, r: Register)
    ensures IsRemainder(Augmented(Ones(16), MessageBits(bytes)), r) <==> r == Checksum(bytes)
  {
    RegisterIsTheRemainder(Ones(16), MessageBits(bytes), r);
  }

  lemma {:induction false} MessageBitsSplit(xs: seq<Byte>, ys: seq<Byte>)
    ensures MessageBits(xs + ys) == MessageBits(xs) + MessageBits(ys)
  {
    if ys == [] {
      assert xs + ys == xs;
    } else {
      assert (xs + ys)[..|xs + ys|-1] == xs + ys[..|ys|-1];
      MessageBitsSplit(xs, ys[..|ys|-1]);
    }
  }

  lemma BitsDetermineByte(a: Byte, b: Byte)
    requires forall k | 0 <= k < 8 :: BitOfByte(a, k) == BitOfByte(b, k)
    ensures a == b
  {
    assert BitOfByte(a, 0) == BitOfByte(b, 0) && BitOfByte(a, 1) == BitOfByte(b, 1);
    assert BitOfByte(a, 2) == BitOfByte(b, 2) && BitOfByte(a, 3) == BitOfByte(b, 3);
    assert BitOfByte(a, 4) == BitOfByte(b, 4) && BitOfByte(a, 5) == BitOfByte(b, 5);
    assert BitOfByte(a, 6) == BitOfByte(b, 6) && BitOfByte(a, 7) == BitOfByte(b, 7);
  }

  lemma ByteBitsDiffer(a: Byte, b: Byte)
    requires ByteBits(a) == ByteBits(b)
    ensures a == b
  {
    forall k | 0 <= k < 8 ensures BitOfByte(a, k) == BitOfByte(b, k) {
      assert ByteBits(a)[k] == ByteBits(b)[k];
    }
    BitsDetermineByte(a, b);
  }

  lemma {:induction false} MessageBitsDiffer(xs: seq<Byte>, ys: seq<Byte>)
    requires |xs| == |ys| && MessageBits(xs) == MessageBits(ys)
    ensures xs == ys
  {
    if xs != [] {
      var p, q := xs[..|xs|-1], ys[..|ys|-1];
      assert MessageBits(xs)[..8 * |p|] == MessageBits(p) && MessageBits(ys)[..8 * |q|] == MessageBits(q);
      assert MessageBits(xs)[8 * |p|..] == ByteBits(xs[|p|]) && MessageBits(ys)[8 * |q|..] == ByteBits(ys[|q|]);
      MessageBitsDiffer(p, q);
      ByteBitsDiffer(xs[|p|], ys[|q|]);
    }
  }

  /** Byte strings that differ only within two neighbouring bytes have different checksums. */
  lemma NeighbouringErrorsAreDetected(head: seq<Byte>, m: seq<Byte>, n: seq<Byte>, tail: seq<Byte>)
    requires |m| == |n| <= 2 && m != n
    ensures Checksum(head + m + tail) != Checksum(head + n + tail)
  {
    MessageBitsSplit(head + m, tail);
    MessageBitsSplit(head + n, tail);
    MessageBitsSplit(head, m);
    MessageBitsSplit(head, n);
    if MessageBits(m) == MessageBits(n) {
      MessageBitsDiffer(m, n);
    }
    BurstsAreDetected(Ones(16), MessageBits(head), MessageBits(m), MessageBits(n), MessageBits(tail));
  }

  // ---------- Checksums of particular texts ----------

  function ShiftedFour(r: bv16): bv16 {
    Shifted(Shifted(Shifted(Shifted(r))))
  }

  lemma FourSteps(r: bv16)
    ensures Coefficients(ShiftedFour(r)) == Steps(Coefficients(r), 4)
  {
    var a, b, c := Shifted(r), Shifted(Shifted(r)), Shifted(Shifted(Shifted(r)));
    ShiftedIsStep(r);
    ShiftedIsStep(a);
    ShiftedIsStep(b);
    ShiftedIsStep(c);
    assert Steps(Coefficients(c), 1) == Step(Coefficients(c));
    assert Steps(Coefficients(b), 2) == Steps(Coefficients(c), 1);
    assert Steps(Coefficients(a), 3) == Steps(Coefficients(b), 2);
  }

  lemma {:induction false} StepsSplit(r: Register, m: nat, n: nat)
    ensures Steps(r, m + n) == Steps(Steps(r, m), n)
    decreases m
  {
    if m > 0 {
      StepsSplit(Step(r), m - 1, n);
    }
  }

  /** One more byte, worked out on machine words. */
  lemma ChecksumExtends(bytes: seq<Byte>, b: Byte, r: bv16)
    requires Checksum(bytes) == Coefficients(r)
    ensures Checksum(bytes + [b]) == Coefficients(ShiftedFour(ShiftedFour(r ^ ((b as bv16) << 8))))
  {
    assert (bytes + [b])[..|bytes|] == bytes;
    TakeAllSplits(Ones(16), MessageBits(bytes), ByteBits(b));
    WordPlusByte(r, b);
    TakeAtOnce(Coefficients(r), ByteBits(b));
    var word := r ^ ((b as bv16) << 8);
    StepsSplit(Coefficients(word), 4, 4);
    FourSteps(word);
    FourSteps(ShiftedFour(word));
  }

  lemma WordsAfter9104()
    ensures ShiftedFour(ShiftedFour(0x9104 ^ 0x3900)) == 0x30E2
    ensures ShiftedFour(ShiftedFour(0x30E2 ^ 0x3100)) == 0xF221
    ensures ShiftedFour(ShiftedFour(0xF221 ^ 0x3000)) == 0xD80E
    ensures ShiftedFour(ShiftedFour(0xD80E ^ 0x3400)) == 0x32A2
  {
  }

  lemma WordsAfter6304()
    ensures ShiftedFour(ShiftedFour(0x6304 ^ 0x3600)) == 0x0E50
    ensures ShiftedFour(ShiftedFour(0x0E50 ^ 0x3300)) == 0xB7FE
    ensures ShiftedFour(ShiftedFour(0xB7FE ^ 0x3000)) == 0x1F6F
    ensures ShiftedFour(ShiftedFour(0x1F6F ^ 0x3400)) == 0xFA09
  {
  }

  lemma ChecksumAfter9104(bytes: seq<Byte>)
    requires Checksum(bytes) == Coefficients(0x9104)
    ensures Checksum(bytes + [0x39] + [0x31] + [0x30] + [0x34]) == Coefficients(0x32A2)
  {
    WordsAfter9104();
    ChecksumExtends(bytes, 0x39, 0x9104);
    ChecksumExtends(bytes + [0x39], 0x31, 0x30E2);
    ChecksumExtends(bytes + [0x39] + [0x31], 0x30, 0xF221);
    ChecksumExtends(bytes + [0x39] + [0x31] + [0x30], 0x34, 0xD80E);
  }

  lemma ChecksumAfter6304(bytes: seq<Byte>)
    requires Checksum(bytes) == Coefficients(0x6304)
    ensures Checksum(bytes + [0x36] + [0x33] + [0x30] + [0x34]) == Coefficients(0xFA09)
  {
    WordsAfter6304();
    ChecksumExtends(bytes, 0x36, 0x6304);
    ChecksumExtends(bytes + [0x36], 0x33, 0x0E50);
    ChecksumExtends(bytes + [0x36] + [0x33], 0x30, 0xB7FE);
    ChecksumExtends(bytes + [0x36] + [0x33] + [0x30], 0x34, 0x1F6F);
  }

  // ---------- The checksum as text ----------

  /** One digit of the {crc:04X} format. */
  function HexDigit(a: bool, b: bool, c: bool, d: bool): char {
    var n := (if a then 8 else 0) + (if b then 4 else 0) + (if c then 2 else 0) + (if d then 1 else 0);
    "0123456789ABCDEF"[n]
  }

  function Hex(r: Register): (s: string)
    ensures |s| == 4
  {
    seq(4, k requires 0 <= k < 4 => HexDigit(r[4 * k], r[4 * k + 1], r[4 * k + 2], r[4 * k + 3]))
  }

  /** What a character stands for as a hexadecimal digit. */
  function HexValue(c: char): int {
    if '0' <= c <= '9' then c as int - '0' as int else if 'A' <= c <= 'F' then c as int - 'A' as int + 10 else -1
  }

  /** Each character of the text is the hexadecimal digit of its four coefficients, the first of them the highest. */
  lemma HexReadsBack(r: Register, k: nat)
    requires k < 4
    ensures HexValue(Hex(r)[k]) ==
            (if r[4 * k] then 8 else 0) + (if r[4 * k + 1] then 4 else 0)
            + (if r[4 * k + 2] then 2 else 0) + (if r[4 * k + 3] then 1 else 0)
  {
  }

  lemma HexDigitsDetermine(r: Register, t: Register, k: nat)
    requires k < 4 && Hex(r)[k] == Hex(t)[k]
    ensures r[4 * k] == t[4 * k] && r[4 * k + 1] == t[4 * k + 1] && r[4 * k + 2] == t[4 * k + 2] && r[4 * k + 3] == t[4 * k + 3]
  {
  }

  lemma HexIsInjective(r: Register, t: Register)
    requires Hex(r) == Hex(t)
    ensures r == t
  {
    HexDigitsDetermine(r, t, 0);
    HexDigitsDetermine(r, t, 1);
    HexDigitsDetermine(r, t, 2);
    HexDigitsDetermine(r, t, 3);
  }

  lemma TextOf9104()
    ensures Hex(Coefficients(0x9104)) == "9104"
  {
    var r := Coefficients(0x9104);
    assert r[0] && !r[1] && !r[2] && r[3] && !r[4] && !r[5] && !r[6] && r[7];
    assert !r[8] && !r[9] && !r[10] && !r[11] && !r[12] && r[13] && !r[14] && !r[15];
  }

  lemma TextOf6304()
    ensures Hex(Coefficients(0x6304)) == "6304"
  {
    var r := Coefficients(0x6304);
    assert !r[0] && r[1] && r[2] && !r[3] && !r[4] && !r[5] && r[6] && r[7];
    assert !r[8] && !r[9] && !r[10] && !r[11] && !r[12] && r[13] && !r[14] && !r[15];
  }

  /** The words of the nine digits of the check value, one byte after another. */
  lemma CheckWords()
    ensures ShiftedFour(ShiftedFour(0xFFFF ^ 0x3100)) == 0xC782
    ensures ShiftedFour(ShiftedFour(0xC782 ^ 0x3200)) == 0x3DBA
    ensures ShiftedFour(ShiftedFour(0x3DBA ^ 0x3300)) == 0x5BCE
    ensures ShiftedFour(ShiftedFour(0x5BCE ^ 0x3400)) == 0x5349
    ensures ShiftedFour(ShiftedFour(0x5349 ^ 0x3500)) == 0x4560
    ensures ShiftedFour(ShiftedFour(0x4560 ^ 0x3600)) == 0x2EF4
    ensures ShiftedFour(ShiftedFour(0x2EF4 ^ 0x3700)) == 0x7718
    ensures ShiftedFour(ShiftedFour(0x7718 ^ 0x3800)) == 0xA12B
    ensures ShiftedFour(ShiftedFour(0xA12B ^ 0x3900)) == 0x29B1
  {
  }

  /** The published check value of this checksum: the nine digits from 1 to 9 give 29B1. */
  lemma CheckValue(bytes: seq<Byte>)
    requires bytes == [0x31, 0x32, 0x33, 0x34, 0x35, 0x36, 0x37, 0x38, 0x39]
    ensures Hex(Checksum(bytes)) == "29B1"
  {
    CheckWords();
    var p: seq<Byte> := [];
    StartsWithOnes();
    ChecksumExtends(p, 0x31, 0xFFFF);
    p := p + [0x31];
    ChecksumExtends(p, 0x32, 0xC782);
    p := p + [0x32];
    ChecksumExtends(p, 0x33, 0x3DBA);
    p := p + [0x33];
    ChecksumExtends(p, 0x34, 0x5BCE);
    p := p + [0x34];
    ChecksumExtends(p, 0x35, 0x5349);
    p := p + [0x35];
    ChecksumExtends(p, 0x36, 0x4560);
    p := p + [0x36];
    ChecksumExtends(p, 0x37, 0x2EF4);
    p := p + [0x37];
    ChecksumExtends(p, 0x38, 0x7718);
    p := p + [0x38];
    ChecksumExtends(p, 0x39, 0xA12B);
    p := p + [0x39];
    assert p == bytes;
    TextOf29B1();
  }

  lemma StartsWithOnes()
    ensures Checksum([]) == Coefficients(0xFFFF)
  {
    assert MessageBits([]) == [];
  }

  lemma TextOf29B1()
    ensures Hex(Coefficients(0x29B1)) == "29B1"
  {
    var r := Coefficients(0x29B1);
    assert !r[0] && !r[1] && r[2] && !r[3] && r[4] && !r[5] && !r[6] && r[7];
    assert r[8] && !r[9] && r[10] && r[11] && !r[12] && !r[13] && !r[14] && r[15];
  }

  /** Appending a checksum that reads 9104 or 6304 gives a text with another checksum. */
  lemma NoFixedMarker(bytes: seq<Byte>)
    ensures Hex(Checksum(bytes)) == "9104" ==> Hex(Checksum(bytes + [0x39] + [0x31] + [0x30] + [0x34])) != "9104"
    ensures Hex(Checksum(bytes)) == "6304" ==> Hex(Checksum(bytes + [0x36] + [0x33] + [0x30] + [0x34])) != "6304"
  {
    TextOf9104();
    TextOf6304();
    if Hex(Checksum(bytes)) == "9104" {
      HexIsInjective(Checksum(bytes), Coefficients(0x9104));
      ChecksumAfter9104(bytes);
      assert !Coefficients(0x32A2)[0] && Coefficients(0x9104)[0];
      if Hex(Coefficients(0x32A2)) == "9104" {
        HexIsInjective(Coefficients(0x32A2), Coefficients(0x9104));
      }
    }
    if Hex(Checksum(bytes)) == "6304" {
      HexIsInjective(Checksum(bytes), Coefficients(0x6304));
      ChecksumAfter6304(bytes);
      assert Coefficients(0xFA09)[0] && !Coefficients(0x6304)[0];
      if Hex(Coefficients(0xFA09)) == "6304" {
        HexIsInjective(Coefficients(0xFA09), Coefficients(0x6304));
      }
    }
  }
}
